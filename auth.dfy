/** `AuthController.googleAuth`: reads the userinfo map Google returned
    and finds, links or creates the account it belongs to, then issues a
    token. The HTTP call to Google is not part of this model: its result is
    the `info` parameter, `None` when it returned nothing. */
module Auth {
  import opened Wrappers
  import opened Users
  import opened AuctionModel
  import opened Ledger
  import opened Jwt

  /** A value of the userinfo map: a string, JSON null, or anything else. */
  datatype InfoValue = Text(s: string) | JsonNull | NonText

  type UserInfo = map<string, InfoValue>

  datatype AuthError =
    | InvalidGoogleToken
    | MissingUserInfo
    /** A field that is not a string makes its cast throw; the exception is
        caught and reported as an authentication failure. */
    | AuthenticationFailed(field: string)

  /** The response body of a bad request. The text of a cast exception is
      the runtime's and is not part of this model. */
  function ErrorText(e: AuthError): string {
    match e
    case InvalidGoogleToken => "Invalid Google token"
    case MissingUserInfo => "Could not extract user info from Google"
    case AuthenticationFailed(_) => "Authentication failed: "
  }

  /** `(String) userInfo.get(key)`: a missing key or JSON null reads as
      null, a non-string fails. */
  function CastField(info: UserInfo, key: string): (r: Result<Option<string>, AuthError>)
    ensures r.Failure? <==> key in info && info[key].NonText?
    ensures r.Success? && r.value.Some? <==> key in info && info[key].Text?
    ensures r.Success? && r.value.Some? ==> r.value.value == info[key].s
  {
    if key !in info then Success(None)
    else match info[key]
      case Text(s) => Success(Some(s))
      case JsonNull => Success(None)
      case NonText => Failure(AuthenticationFailed(key))
  }

  datatype GoogleInfo = GoogleInfo(sub: string, email: string, name: Option<string>)

  /** The checks of `googleAuth` before any account is touched, in order:
      no userinfo or an "error" entry, then the three casts, then a missing
      subject or email. */
  function ReadInfo(info: Option<UserInfo>): (r: Result<GoogleInfo, AuthError>)
    ensures r.Failure? && r.error == InvalidGoogleToken <==> info.None? || "error" in info.value
    ensures r.Success? <==>
              && info.Some? && "error" !in info.value
              && "sub" in info.value && info.value["sub"].Text?
              && "email" in info.value && info.value["email"].Text?
              && !("name" in info.value && info.value["name"].NonText?)
    ensures r.Success? ==>
              && r.value.sub == info.value["sub"].s && r.value.email == info.value["email"].s
              && (r.value.name.Some? <==> "name" in info.value && info.value["name"].Text?)
              && (r.value.name.Some? ==> r.value.name.value == info.value["name"].s)
  {
    if info.None? || "error" in info.value then Failure(InvalidGoogleToken)
    else
      var m := info.value;
      var sub := CastField(m, "sub");
      if sub.Failure? then Failure(sub.error)
      else
        var email := CastField(m, "email");
        if email.Failure? then Failure(email.error)
        else
          var name := CastField(m, "name");
          if name.Failure? then Failure(name.error)
          else if sub.value.None? || email.value.None? then Failure(MissingUserInfo)
          else Success(GoogleInfo(sub.value.value, email.value.value, name.value))
  }

  /** The account stored for a first Google sign-in. */
  function NewGoogleUser(g: GoogleInfo): (u: User)
    ensures u.email == g.email && u.googleId == Some(g.sub) && u.name == g.name
    ensures u.available == InitialBalance && u.reserved == 0
  {
    User(g.email, Some(g.sub), g.name, InitialBalance, 0)
  }

  datatype Resolution = Resolution(users: seq<User>, id: UserId)

  /** The find-or-create step: an account already linked to the Google
      subject, whose name is refreshed when a different non-null one
      arrives; else an account with the email, which gets linked and takes
      the name as given; else a new account. */
  function ResolveAccount(users: seq<User>, g: GoogleInfo): (r: Resolution)
    ensures r.id < |r.users|
  {
    match FindByGoogleId(users, g.sub)
    case Some(i) =>
      if g.name.Some? && g.name != users[i].name then Resolution(users[i := users[i].(name := g.name)], i)
      else Resolution(users, i)
    case None =>
      match FindByEmail(users, g.email)
      case Some(i) => Resolution(users[i := users[i].(googleId := Some(g.sub), name := g.name)], i)
      case None => Resolution(users + [NewGoogleUser(g)], |users|)
  }

  /** What the find-or-create step does: the resolved account is linked to
      the subject; a new account is added only when neither the subject nor
      the email is known; a linked account keeps its name unless a new
      non-null name arrives; an email match takes the name as given; every
      other account and every existing balance stays as it was. */
  lemma ResolveAccountSpec(users: seq<User>, g: GoogleInfo)
    ensures var r := ResolveAccount(users, g);
            && r.users[r.id].googleId == Some(g.sub)
            && (|r.users| == |users| + 1 <==> FindByGoogleId(users, g.sub).None? && FindByEmail(users, g.email).None?)
            && (|r.users| == |users| || |r.users| == |users| + 1)
            && (forall j :: 0 <= j < |users| && j != r.id ==> r.users[j] == users[j])
            && (forall j :: 0 <= j < |users| ==>
                  && r.users[j].available == users[j].available
                  && r.users[j].reserved == users[j].reserved
                  && r.users[j].email == users[j].email)
            && (FindByGoogleId(users, g.sub).Some? ==>
                  r.id == FindByGoogleId(users, g.sub).value
                  && r.users[r.id].name == (if g.name.Some? then g.name else users[r.id].name))
            && (FindByGoogleId(users, g.sub).None? && FindByEmail(users, g.email).Some? ==>
                  r.id == FindByEmail(users, g.email).value && r.users[r.id].name == g.name)
            && (r.id == |users| ==> r.users[r.id] == NewGoogleUser(g))
  {
  }

  /** The find-or-create step keeps emails and Google subjects unique. */
  lemma ResolveKeepsUniqueKeys(users: seq<User>, g: GoogleInfo)
    requires UniqueKeys(users)
    ensures UniqueKeys(ResolveAccount(users, g).users)
  {
    var r := ResolveAccount(users, g);
    if FindByGoogleId(users, g.sub).None? && FindByEmail(users, g.email).Some? {
      var i := FindByEmail(users, g.email).value;
      forall j, k | 0 <= j < k < |r.users| && r.users[j].googleId.Some?
        ensures r.users[j].googleId != r.users[k].googleId
      {
        if j != i && k != i {
          assert r.users[j] == users[j] && r.users[k] == users[k];
        }
      }
    }
  }

  /** Signing in never touches a reserve, so the escrow invariant survives it. */
  lemma ResolveKeepsEscrow(users: seq<User>, auctions: seq<Auction>, g: GoogleInfo)
    requires Escrow(users, auctions)
    ensures Escrow(ResolveAccount(users, g).users, auctions)
  {
    match FindByGoogleId(users, g.sub)
    case Some(i) =>
      if g.name.Some? && g.name != users[i].name {
        ProfileUpdateKeepsEscrow(users, auctions, i, users[i].(name := g.name));
      }
    case None =>
      match FindByEmail(users, g.email)
      case Some(i) => ProfileUpdateKeepsEscrow(users, auctions, i, users[i].(googleId := Some(g.sub), name := g.name));
      case None => NewAccountKeepsEscrow(users, auctions, NewGoogleUser(g));
  }

  /** The user part of the response; a null name is sent as "". */
  datatype AuthUser = AuthUser(id: UserId, email: string, name: string, available: int, reserved: int)

  datatype AuthResponse = AuthResponse(token: Token, user: AuthUser)

  function ToAuthUser(id: UserId, u: User): (r: AuthUser)
    ensures r.id == id && r.email == u.email
    ensures r.name == (if u.name.Some? then u.name.value else "")
    ensures r.available == u.available && r.reserved == u.reserved
  {
    AuthUser(id, u.email, u.name.GetOr(""), u.available, u.reserved)
  }

  class AuthController {
    const repo: UserRepository
    const jwt: JwtService

    constructor(repo: UserRepository, jwt: JwtService)
      ensures this.repo == repo && this.jwt == jwt
    {
      this.repo := repo;
      this.jwt := jwt;
    }

    /** `googleAuth`: a bad request changes no account; otherwise the
        account is found, linked or created and a token is issued for it. */
    method GoogleAuth(info: Option<UserInfo>, now: int) returns (r: Result<AuthResponse, AuthError>)
      modifies repo
      ensures ReadInfo(info).Failure? ==> r == Failure(ReadInfo(info).error) && repo.rows == old(repo.rows)
      ensures ReadInfo(info).Success? ==>
                var res := ResolveAccount(old(repo.rows), ReadInfo(info).value);
                && repo.rows == res.users
                && r == Success(AuthResponse(jwt.GenerateToken(res.id, res.users[res.id].email, now),
                                             ToAuthUser(res.id, res.users[res.id])))
      ensures UniqueKeys(old(repo.rows)) ==> UniqueKeys(repo.rows)
    {
      if info.None? || "error" in info.value {
        return Failure(InvalidGoogleToken);
      }
      var userInfo := info.value;
      var googleId := CastField(userInfo, "sub");
      if googleId.Failure? { return Failure(googleId.error); }
      var email := CastField(userInfo, "email");
      if email.Failure? { return Failure(email.error); }
      var name := CastField(userInfo, "name");
      if name.Failure? { return Failure(name.error); }
      if googleId.value.None? || email.value.None? {
        return Failure(MissingUserInfo);
      }
      ghost var g := GoogleInfo(googleId.value.value, email.value.value, name.value);
      if UniqueKeys(repo.rows) {
        ResolveKeepsUniqueKeys(repo.rows, g);
      }

      var id: UserId;
      var existing := FindByGoogleId(repo.rows, googleId.value.value);
      if existing.Some? {
        id := existing.value;
        var user := repo.rows[id];
        if name.value.Some? && name.value != user.name {
          user := user.(name := name.value);
          repo.rows := repo.rows[id := user];
        }
      } else {
        var byEmail := FindByEmail(repo.rows, email.value.value);
        if byEmail.Some? {
          id := byEmail.value;
          var user := repo.rows[id];
          user := user.(googleId := googleId.value, name := name.value);
          repo.rows := repo.rows[id := user];
        } else {
          var user := User(email.value.value, googleId.value, name.value, InitialBalance, 0);
          id := |repo.rows|;
          repo.rows := repo.rows + [user];
        }
      }

      var user := repo.rows[id];
      var token := jwt.GenerateToken(id, user.email, now);
      r := Success(AuthResponse(token, ToAuthUser(id, user)));
    }
  }
}
