/** `JwtService`: the signing secret's padding, the 7-day expiry and the
    claims a token carries. Signing and parsing are done by the JWT
    library and are not part of this model; a token here is its claims
    together with the key that signed them. */
module Jwt {
  import opened Wrappers
  import opened Users

  /** Java `int` arithmetic: the result wrapped to 32-bit two's complement. */
  function Int32(x: int): (r: int)
    ensures -0x8000_0000 <= r < 0x8000_0000
    ensures -0x8000_0000 <= x < 0x8000_0000 ==> r == x
  {
    var m := x % 0x1_0000_0000;
    if m >= 0x8000_0000 then m - 0x1_0000_0000 else m
  }

  /** The token lifetime, computed in `int` arithmetic as the source does. */
  const ExpirationMs: int := Int32(7 * 24 * 60 * 60 * 1000)

  /** The `int` product does not overflow: the lifetime is exactly seven days. */
  lemma ExpirationIsSevenDays()
    ensures 7 * 24 * 60 * 60 * 1000 < 0x8000_0000
    ensures ExpirationMs == 604800000 == 7 * 24 * 60 * 60 * 1000
  {
  }

  function Zeros(n: nat): (s: string)
    ensures |s| == n && forall i :: 0 <= i < n ==> s[i] == '0'
  {
    if n == 0 then [] else Zeros(n - 1) + ['0']
  }

  /** The secret the key is made from: a secret of at least 32 characters
      is used as is, a shorter one is right-padded with '0' to exactly 32. */
  function PadSecret(secret: string): (r: string)
    ensures |secret| >= 32 ==> r == secret
    ensures |secret| < 32 ==> |r| == 32 && forall i :: |secret| <= i < 32 ==> r[i] == '0'
    ensures secret <= r && |r| >= 32
  {
    if |secret| >= 32 then secret else secret + Zeros(32 - |secret|)
  }

  /** Padding an already padded secret changes nothing. */
  lemma PadSecretIdempotent(secret: string)
    ensures PadSecret(PadSecret(secret)) == PadSecret(secret)
  {
  }

  datatype Claims = Claims(subject: UserId, email: string, issuedAt: int, expiration: int)

  datatype Token = Token(claims: Claims, signingKey: string)

  class JwtService {
    const key: string

    constructor(secret: string)
      ensures key == PadSecret(secret)
    {
      key := PadSecret(secret);
    }

    /** `generateToken`: the user's id as subject, the email claim, issued
        at `now` and expiring seven days later, signed with this key. The
        source reads the clock twice; both reads are `now` here. */
    function GenerateToken(userId: UserId, email: string, now: int): (t: Token)
      reads this
      ensures t.claims.subject == userId && t.claims.email == email
      ensures t.claims.issuedAt == now && t.claims.expiration == now + 604800000
      ensures t.signingKey == key
    {
      Token(Claims(userId, email, now, now + ExpirationMs), key)
    }
  }

  /** `isTokenValid`: true exactly when the library's verification of the
      token succeeded; any failure it reports becomes `false`, never an error. */
  function IsTokenValid(verification: Outcome<string>): (r: bool)
    ensures r <==> verification.Pass?
  {
    match verification
    case Pass => true
    case Fail(_) => false
  }
}
