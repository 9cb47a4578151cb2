/** `ImageController`: the storage key under which an uploaded auction image
    is placed. The random UUID is a parameter; the presigned URL is made by
    the storage client and is not part of this model. */
module Images {
  import opened Wrappers
  import opened Text

  /** The characters a stored file name may keep: ASCII letters and digits,
      '.', '_' and '-'. */
  predicate Allowed(c: char) {
    ('a' <= c <= 'z') || ('A' <= c <= 'Z') || ('0' <= c <= '9') || c == '.' || c == '_' || c == '-'
  }

  /** Every disallowed character replaced by one '_'. */
  function ReplaceDisallowed(s: string): (r: string)
    ensures |r| == |s|
    ensures forall i :: 0 <= i < |s| ==> r[i] == (if Allowed(s[i]) then s[i] else '_')
  {
    seq(|s|, i requires 0 <= i < |s| => if Allowed(s[i]) then s[i] else '_')
  }

  const DefaultName: string := "image.jpg"

  /** `sanitizeFilename`: a missing name, or one that is empty once
      cleaned, becomes "image.jpg"; otherwise every character outside
      [A-Za-z0-9._-] is replaced by '_' and the others stay in place. */
  function SanitizeFilename(filename: Option<string>): (r: string)
    ensures filename.None? || filename.value == [] ==> r == DefaultName
    ensures filename.Some? && filename.value != [] ==>
              |r| == |filename.value| &&
              forall i :: 0 <= i < |r| ==> r[i] == (if Allowed(filename.value[i]) then filename.value[i] else '_')
  {
    if filename.None? then DefaultName
    else
      var cleaned := ReplaceDisallowed(filename.value);
      if cleaned == [] then DefaultName else cleaned
  }

  /** A cleaned name is never empty and consists of allowed characters only. */
  lemma SanitizedIsAllowed(filename: Option<string>)
    ensures var r := SanitizeFilename(filename);
            |r| > 0 && forall i :: 0 <= i < |r| ==> Allowed(r[i])
  {
    var r := SanitizeFilename(filename);
    if filename.None? || filename.value == [] {
      assert r == DefaultName;
      assert forall i :: 0 <= i < |DefaultName| ==> Allowed(DefaultName[i]);
    }
  }

  /** Cleaning a cleaned name changes nothing. */
  lemma SanitizeIdempotent(filename: Option<string>)
    ensures SanitizeFilename(Some(SanitizeFilename(filename))) == SanitizeFilename(filename)
  {
    SanitizedIsAllowed(filename);
  }

  /** A name made of allowed characters only is kept as it is. */
  lemma SanitizeKeepsAllowed(name: string)
    requires name != [] && forall i :: 0 <= i < |name| ==> Allowed(name[i])
    ensures SanitizeFilename(Some(name)) == name
  {
  }

  /** The text of a random UUID: hexadecimal digits and '-'. */
  predicate UuidText(u: string) {
    forall i :: 0 <= i < |u| ==> ('0' <= u[i] <= '9') || ('a' <= u[i] <= 'f') || u[i] == '-'
  }

  /** The object key of an upload: "auctions/", the UUID, '/', and the cleaned name. */
  function ObjectKey(uuid: string, filename: Option<string>): string {
    "auctions/" + uuid + "/" + SanitizeFilename(filename)
  }

  /** Whatever name the client sends, its key has exactly two '/': the
      name cannot climb out of, or nest under, the upload's own folder. */
  lemma {:induction false} ObjectKeyHasTwoSlashes(uuid: string, filename: Option<string>)
    requires UuidText(uuid)
    ensures Occurrences(ObjectKey(uuid, filename), '/') == 2
  {
    var name := SanitizeFilename(filename);
    SanitizedIsAllowed(filename);
    OccurrencesAbsent(uuid, '/');
    OccurrencesAbsent(name, '/');
    var prefix := "auctions/";
    assert prefix == "auctions" + "/";
    OccurrencesAbsent("auctions", '/');
    OccurrencesAppend("auctions", "/", '/');
    assert Occurrences("/", '/') == 1 by {
      assert "/"[..0] == [];
    }
    OccurrencesAppend(prefix, uuid, '/');
    OccurrencesAppend(prefix + uuid, "/", '/');
    OccurrencesAppend(prefix + uuid + "/", name, '/');
  }

  /** The cleaned name is the key's last segment, after the UUID's folder. */
  lemma ObjectKeySuffix(uuid: string, filename: Option<string>)
    ensures var k := ObjectKey(uuid, filename);
            k[|k| - |SanitizeFilename(filename)|..] == SanitizeFilename(filename)
            && k[..10 + |uuid|] == "auctions/" + uuid + "/"
  {
  }
}
