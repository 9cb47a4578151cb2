/** `AuctionController`: the parsing of the optional status filter of the
    auction listing, and the start endpoint. */
module AuctionApi {
  import opened Wrappers
  import opened AuctionModel
  import opened AuctionEngine

  /** Java's `Character.toUpperCase` on the characters whose upper case is
      an ASCII letter: 'a'..'z', the dotless i and the long s. Any other
      character is left alone, which cannot create or break a match with
      an all-ASCII status name. */
  function UpperChar(c: char): char {
    if 'a' <= c <= 'z' then (c as int - 32) as char
    else if c == 'ı' then 'I'
    else if c == 'ſ' then 'S'
    else c
  }

  function Upper(s: string): (r: string)
    ensures |r| == |s| && forall i :: 0 <= i < |s| ==> r[i] == UpperChar(s[i])
  {
    seq(|s|, i requires 0 <= i < |s| => UpperChar(s[i]))
  }

  /** The constant names of `AuctionStatus`. */
  function StatusName(st: Status): string {
    match st
    case Scheduled => "SCHEDULED"
    case Live => "LIVE"
    case Closing => "CLOSING"
    case Closed => "CLOSED"
  }

  /** `AuctionStatus.valueOf`: the status with exactly this name, if any. */
  function ValueOf(name: string): (r: Option<Status>)
    ensures r.Some? ==> StatusName(r.value) == name
    ensures r.None? ==> forall st: Status :: StatusName(st) != name
  {
    if name == "SCHEDULED" then Some(Scheduled)
    else if name == "LIVE" then Some(Live)
    else if name == "CLOSING" then Some(Closing)
    else if name == "CLOSED" then Some(Closed)
    else None
  }

  /** The status filter of `getAllAuctions`: none for a null or blank
      parameter, the status whose name matches ignoring case, and none —
      not an error — for anything else. */
  function ParseStatus(status: Option<string>): (r: Option<Status>)
    ensures status.None? || IsBlank(status.value) ==> r.None?
    ensures r.Some? ==> status.Some? && !IsBlank(status.value) && Upper(status.value) == StatusName(r.value)
    ensures forall st: Status :: status.Some? && !IsBlank(status.value) && Upper(status.value) == StatusName(st) ==>
                                   r == Some(st)
  {
    if status.None? || IsBlank(status.value) then None
    else ValueOf(Upper(status.value))
  }

  /** Lower case of an ASCII upper-case letter. */
  function LowerChar(c: char): char {
    if 'A' <= c <= 'Z' then (c as int + 32) as char else c
  }

  function Lower(s: string): (r: string)
    ensures |r| == |s| && forall i :: 0 <= i < |s| ==> r[i] == LowerChar(s[i])
  {
    seq(|s|, i requires 0 <= i < |s| => LowerChar(s[i]))
  }

  /** The filter matches each status name whatever the case of its letters:
      the name itself and its all-lower-case spelling both select it. */
  lemma ParseStatusIgnoresCase(st: Status)
    ensures ParseStatus(Some(StatusName(st))) == Some(st)
    ensures ParseStatus(Some(Lower(StatusName(st)))) == Some(st)
  {
    var name := StatusName(st);
    var lower := Lower(name);
    assert !IsWhitespace(name[0]) && !IsWhitespace(lower[0]);
    assert forall i :: 0 <= i < |name| ==> 'A' <= name[i] <= 'Z';
    assert Upper(name) == name;
    assert Upper(lower) == name;
  }

  class AuctionController {
    const service: AuctionService

    constructor(service: AuctionService)
      ensures this.service == service
    {
      this.service := service;
    }

    /** `getAllAuctions`: which search the listing runs for its two optional parameters. */
    function GetAllAuctions(search: Option<string>, status: Option<string>): (r: SearchQuery)
      ensures r == SearchPlan(search, ParseStatus(status))
      ensures (status.None? || ParseStatus(status).None?) ==> r.FindAll? || r.SearchText?
    {
      SearchPlan(search, ParseStatus(status))
    }

    /** `startAuction`, over the corrected start: it delegates to
        `ConvertToLive` and answers 200 with an empty body when that
        passes; a failure propagates. As written, the source's start has
        no status check, so any existing auction is started (`Launch`). */
    method StartAuction(id: AuctionId, now: int) returns (r: Outcome<string>)
      modifies service
      ensures id < |old(service.auctions)| && old(service.auctions)[id].status == Scheduled ==>
                r == Pass && service.auctions == old(service.auctions)[id := Launch(old(service.auctions)[id], now)]
      ensures !(id < |old(service.auctions)| && old(service.auctions)[id].status == Scheduled) ==>
                r.Fail? && service.auctions == old(service.auctions)
      ensures service.bids == old(service.bids) && service.settlements == old(service.settlements)
      ensures service.events == old(service.events)
    {
      r := service.ConvertToLive(id, now);
    }
  }
}
