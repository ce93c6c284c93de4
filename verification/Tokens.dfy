/** Access and refresh tokens: how they are minted, what each of the two parsers makes of each of
    the two kinds, and the role gate behind the first parser. */
module Tokens {
  import opened Text
  import opened Decimal

  const SECOND := 1_000_000_000
  const MINUTE := 60_000_000_000
  const ISSUER := "enroller"

  /** Times are in nanoseconds, expiry times in whole seconds. */
  type Time = int

  datatype Payload = Payload(id: string, email: string, roles: seq<string>, phone: string)

  datatype Claims =
    | Access(exp: int, issuer: string, email: string, roles: seq<string>, userId: string)
    | Refresh(jti: string, exp: int, iat: int, audience: string, payload: Payload)

  datatype Pair = Pair(access: Claims, refresh: Claims)

  /** Token durations in minutes, as 64-bit integers. */
  datatype Config = Config(access: int, refresh: int)

  /** A duration of so many minutes, in 64-bit arithmetic. */
  function Duration(minutes: int): int { Wrap64(minutes * MINUTE) }

  /** The second a token minted at `now` expires in: fractions are cut off. */
  function Expiry(now: Time, minutes: int): int { (now + Duration(minutes)) / SECOND }

  function AccessClaims(cfg: Config, p: Payload, now: Time): Claims {
    Access(Expiry(now, cfg.access), ISSUER, p.email, p.roles, p.id)
  }

  function RefreshClaims(cfg: Config, p: Payload, random: string, now: Time, later: Time): Claims {
    Refresh(random, Expiry(now, cfg.refresh), later / SECOND, p.id, p)
  }

  /** GenerateToken: the clock is read anew for each of the three times. */
  function GenerateToken(cfg: Config, p: Payload, random: string, t1: Time, t2: Time, t3: Time): Pair {
    Pair(AccessClaims(cfg, p, t1), RefreshClaims(cfg, p, random, t2, t3))
  }

  /** What the custom claims look like after parsing either kind of token: a claim that is not
      there is left at its zero value. */
  datatype UserClaims = UserClaims(exp: int, id: string, email: string, roles: seq<string>, userId: string)

  function Parsed(c: Claims): UserClaims {
    match c
    case Access(exp, _, email, roles, userId) => UserClaims(exp, "", email, roles, userId)
    case Refresh(jti, exp, _, _, _) => UserClaims(exp, jti, "", [], "")
  }

  /** The tokens signed so far, by their text: a signature verifies for exactly these. */
  type Issued = map<string, Claims>

  predicate Live(c: Claims, now: Time) {
    now < c.exp * SECOND
  }

  datatype AuthError = MissingHeader | InvalidHeader | InvalidToken

  datatype Auth = Authenticated(user: UserClaims) | Rejected(error: AuthError)

  function Lower(s: string): string {
    seq(|s|, i requires 0 <= i < |s| => if 'A' <= s[i] <= 'Z' then 'a' + (s[i] - 'A') else s[i])
  }

  /** AuthMiddleware. */
  function Authenticate(issued: Issued, header: string, now: Time): Auth {
    if header == "" then Rejected(MissingHeader)
    else
      var parts := Split(header, ' ');
      if |parts| != 2 || Lower(parts[0]) != "bearer" then Rejected(InvalidHeader)
      else if parts[1] !in issued || !Live(issued[parts[1]], now) then Rejected(InvalidToken)
      else Authenticated(Parsed(issued[parts[1]]))
  }

  predicate SharesRole(userRoles: seq<string>, allowedRoles: seq<string>) {
    exists role <- userRoles :: role in allowedRoles
  }

  method HasRequiredRole(userRoles: seq<string>, allowedRoles: seq<string>) returns (r: bool)
    ensures r <==> SharesRole(userRoles, allowedRoles)
  {
    var roleSet: map<string, bool> := map[];
    for i := 0 to |userRoles|
      invariant forall role :: role in roleSet <==> role in userRoles[..i]
    {
      roleSet := roleSet[userRoles[i] := true];
    }
    assert userRoles[..|userRoles|] == userRoles;
    for i := 0 to |allowedRoles|
      invariant forall role <- userRoles :: role !in allowedRoles[..i]
    {
      if allowedRoles[i] in roleSet {
        return true;
      }
    }
    assert allowedRoles[..|allowedRoles|] == allowedRoles;
    r := false;
  }

  datatype Gate = Unauthenticated | Forbidden | Forwarded(userIdHeader: string)

  /** Both middlewares: what becomes of a request. */
  function GateOf(issued: Issued, header: string, allowedRoles: seq<string>, now: Time): Gate {
    match Authenticate(issued, header, now)
    case Rejected(_) => Unauthenticated
    case Authenticated(user) => if SharesRole(user.roles, allowedRoles) then Forwarded(user.id) else Forbidden
  }

  method RoleAuthorization(auth: Auth, allowedRoles: seq<string>) returns (gate: Gate)
    ensures forall issued, header, now :: Authenticate(issued, header, now) == auth ==>
      gate == GateOf(issued, header, allowedRoles, now)
    ensures gate.Unauthenticated? <==> auth.Rejected?
    ensures gate.Forbidden? <==> auth.Authenticated? && forall role <- auth.user.roles :: role !in allowedRoles
    ensures gate.Forwarded? ==> auth.Authenticated? && gate.userIdHeader == auth.user.id
  {
    if auth.Rejected? {
      return Unauthenticated;
    }
    var ok := HasRequiredRole(auth.user.roles, allowedRoles);
    gate := if ok then Forwarded(auth.user.id) else Forbidden;
  }

  datatype UserInfo = UserInfo(id: int, email: string, phone: string, roles: seq<string>)

  /** ValidateAndParseToken: only a token with a payload will do, and its roles are not copied. */
  function ParseRefresh(issued: Issued, token: string, now: Time): Option<UserInfo> {
    if token !in issued || !Live(issued[token], now) then None
    else match issued[token]
      case Access(_, _, _, _, _) => None
      case Refresh(_, _, _, _, p) => Some(UserInfo(IdOf(p.id), p.email, p.phone, []))
  }

  /** The payload a token pair is minted from, for a stored user or a refresh. */
  function PayloadOf(user: UserInfo): Payload {
    Payload(IdText(user.id), user.email, user.roles, user.phone)
  }

  function TokenRefresh(issued: Issued, token: string, now: Time): Option<Payload> {
    match ParseRefresh(issued, token, now)
    case Some(user) => Some(PayloadOf(user))
    case None => None
  }

  /** A refresh is accepted exactly with a refresh token that was issued and has not expired, */
  lemma RefreshAcceptedIff(issued: Issued, token: string, now: Time)
    ensures TokenRefresh(issued, token, now).Some? <==>
      token in issued && issued[token].Refresh? && now < issued[token].exp * SECOND
  {
  }

  /** and it is for the token's own user, without roles. */
  lemma RefreshAnswer(issued: Issued, token: string, now: Time)
    requires TokenRefresh(issued, token, now).Some?
    ensures var p, old_ := TokenRefresh(issued, token, now).value, issued[token].payload;
      p.id == IdText(IdOf(old_.id)) && p.email == old_.email && p.phone == old_.phone && p.roles == []
  {
  }

  /** What a token pair says, claim by claim. */
  lemma MintedClaims(cfg: Config, p: Payload, random: string, t1: Time, t2: Time, t3: Time)
    ensures var pair := GenerateToken(cfg, p, random, t1, t2, t3);
      && pair.access.Access? && pair.refresh.Refresh?
      && pair.access.issuer == "enroller" && pair.access.userId == p.id
      && pair.access.email == p.email && pair.access.roles == p.roles
      && pair.refresh.jti == random && pair.refresh.audience == p.id && pair.refresh.payload == p
      && pair.refresh.iat * SECOND <= t3 < pair.refresh.iat * SECOND + SECOND
    ensures Plausible(cfg.access) ==>
      var exp := GenerateToken(cfg, p, random, t1, t2, t3).access.exp;
      exp * SECOND <= t1 + cfg.access * MINUTE < exp * SECOND + SECOND
    ensures Plausible(cfg.refresh) ==>
      var exp := GenerateToken(cfg, p, random, t1, t2, t3).refresh.exp;
      exp * SECOND <= t2 + cfg.refresh * MINUTE < exp * SECOND + SECOND
  {
    if Plausible(cfg.access) {
      ExpiryWithin(t1, cfg.access);
    }
    if Plausible(cfg.refresh) {
      ExpiryWithin(t2, cfg.refresh);
    }
  }

  /** The payload for a user, field by field. */
  lemma PayloadFields(user: UserInfo)
    ensures PayloadOf(user).id == IdText(user.id)
    ensures PayloadOf(user).email == user.email && PayloadOf(user).phone == user.phone
    ensures PayloadOf(user).roles == user.roles
  {
  }

  /** "bearer", each letter in either case. */
  predicate BearerScheme(s: string) {
    |s| == 6 && forall i :: 0 <= i < 6 ==> s[i] == "bearer"[i] || s[i] == "BEARER"[i]
  }

  lemma BearerSchemeIff(s: string)
    ensures Lower(s) == "bearer" <==> BearerScheme(s)
  {
    if Lower(s) == "bearer" {
      assert |s| == 6;
      forall i | 0 <= i < 6 ensures s[i] == "bearer"[i] || s[i] == "BEARER"[i] {
        assert Lower(s)[i] == "bearer"[i];
        UpperOrLower(s[i], i);
      }
    }
    if BearerScheme(s) {
      forall i | 0 <= i < 6 ensures Lower(s)[i] == "bearer"[i] {
        assert s[i] == "bearer"[i] || s[i] == "BEARER"[i];
      }
    }
  }

  lemma UpperOrLower(c: char, i: nat)
    requires i < 6 && Lower([c]) == ["bearer"[i]]
    ensures c == "bearer"[i] || c == "BEARER"[i]
  {
    assert Lower([c])[0] == "bearer"[i];
  }

  lemma TwoPieces(header: string, scheme: string, token: string)
    ensures Split(header, ' ') == [scheme, token] <==>
      header == scheme + " " + token && ' ' !in scheme && ' ' !in token
  {
    if Split(header, ' ') == [scheme, token] {
      JoinSplit(header, ' ');
      PiecesFree(header, ' ');
      var parts := Split(header, ' ');
      assert parts[1..] == [token];
      assert scheme in parts && token in parts;
    }
    if header == scheme + " " + token && ' ' !in scheme && ' ' !in token {
      SplitConcat(scheme, token, ' ');
      SplitFree(scheme, ' ');
      SplitFree(token, ' ');
    }
  }

  predicate IsBearer(issued: Issued, header: string, scheme: string, token: string, now: Time) {
    && header == scheme + " " + token
    && BearerScheme(scheme)
    && ' ' !in token
    && token in issued
    && now < issued[token].exp * SECOND
  }

  /** A request is authenticated exactly by the word "bearer" in any case, one space, and a token
      that was issued and has not expired. */
  lemma AuthenticatedIff(issued: Issued, header: string, now: Time)
    ensures Authenticate(issued, header, now).Authenticated? <==>
      exists scheme, token :: IsBearer(issued, header, scheme, token, now)
  {
    if scheme, token :| IsBearer(issued, header, scheme, token, now) {
      BearerSchemeIff(scheme);
      NoSpace(scheme);
      TwoPieces(header, scheme, token);
    }
    if Authenticate(issued, header, now).Authenticated? {
      var parts := Split(header, ' ');
      assert parts == [parts[0], parts[1]];
      BearerSchemeIff(parts[0]);
      TwoPieces(header, parts[0], parts[1]);
      assert IsBearer(issued, header, parts[0], parts[1], now);
    }
  }

  lemma NoSpace(scheme: string)
    requires BearerScheme(scheme)
    ensures ' ' !in scheme
  {
  }

  /** What the handlers get to see of the token: an access token's claims but no id, and of a refresh
      token nothing but its id. */
  lemma AuthenticatedUser(issued: Issued, header: string, now: Time)
    requires Authenticate(issued, header, now).Authenticated?
    ensures |Split(header, ' ')| == 2 && Split(header, ' ')[1] in issued
    ensures var user, c := Authenticate(issued, header, now).user, issued[Split(header, ' ')[1]];
      && user.exp == c.exp
      && (c.Access? ==> user.id == "" && user.email == c.email && user.roles == c.roles && user.userId == c.userId)
      && (c.Refresh? ==> user.id == c.jti && user.email == "" && user.roles == [] && user.userId == "")
  {
  }

  /** Which error a request that is not authenticated gets. */
  lemma RejectedMeans(issued: Issued, header: string, now: Time)
    requires Authenticate(issued, header, now).Rejected?
    ensures Authenticate(issued, header, now).error.MissingHeader? <==> header == ""
    ensures Authenticate(issued, header, now).error.InvalidToken? <==>
      exists scheme, token :: header == scheme + " " + token && BearerScheme(scheme) && ' ' !in token
  {
    if scheme, token :| header == scheme + " " + token && BearerScheme(scheme) && ' ' !in token {
      BearerSchemeIff(scheme);
      NoSpace(scheme);
      TwoPieces(header, scheme, token);
    }
    if Authenticate(issued, header, now).error.InvalidToken? {
      var parts := Split(header, ' ');
      assert parts == [parts[0], parts[1]];
      BearerSchemeIff(parts[0]);
      TwoPieces(header, parts[0], parts[1]);
    }
  }

  // ---- expiry -------------------------------------------------------------------------------

  /** The product of minutes does not overflow exactly up to 153722867 minutes either way. */
  lemma DurationExactIff(minutes: int)
    requires IsInt64(minutes)
    ensures Duration(minutes) == minutes * MINUTE <==> -153722867 <= minutes <= 153722867
  {
    var x := minutes * MINUTE;
    if -TWO_63 <= x < TWO_63 {
      assert (x + TWO_63) % TWO_64 == x + TWO_63;
    } else {
      assert 0 <= (x + TWO_63) % TWO_64 < TWO_64;
    }
  }

  predicate Plausible(minutes: int) {
    1 <= minutes <= 153722867
  }

  /** A token expires less than a second before its duration is over, and never after. */
  lemma ExpiryWithin(now: Time, minutes: int)
    requires Plausible(minutes)
    ensures now + minutes * MINUTE - SECOND < Expiry(now, minutes) * SECOND <= now + minutes * MINUTE
  {
    DurationExactIff(minutes);
  }

  /** With a clock that does not go back, an access token never outlives the refresh token it was
      minted with. */
  lemma AccessWithinRefresh(cfg: Config, p: Payload, random: string, t1: Time, t2: Time, t3: Time)
    requires Plausible(cfg.access) && Plausible(cfg.refresh) && cfg.access <= cfg.refresh && t1 <= t2
    ensures var pair := GenerateToken(cfg, p, random, t1, t2, t3); pair.access.exp <= pair.refresh.exp
  {
    DurationExactIff(cfg.access);
    DurationExactIff(cfg.refresh);
    assert t1 + cfg.access * MINUTE <= t2 + cfg.refresh * MINUTE;
  }

  /** One refresh of a chain: when the token was presented, and when the next was minted. */
  datatype Link = Link(presented: Time, minted: Time)

  /** Each refresh presents the token before it while that is live. */
  predicate IsChain(minutes: int, start: Time, links: seq<Link>)
    decreases |links|
  {
    links == [] || (links[0].presented < Expiry(start, minutes) * SECOND && links[0].presented <= links[0].minted
      && IsChain(minutes, links[0].minted, links[1..]))
  }

  function Delays(links: seq<Link>): int {
    if links == [] then 0 else links[0].minted - links[0].presented + Delays(links[1..])
  }

  function LastMint(start: Time, links: seq<Link>): Time {
    if links == [] then start else links[|links| - 1].minted
  }

  /** n refreshes stretch a login to at most n + 1 refresh durations, plus what the calls took. */
  lemma {:induction false} ChainBound(minutes: int, start: Time, links: seq<Link>)
    requires Plausible(minutes) && IsChain(minutes, start, links)
    ensures Expiry(LastMint(start, links), minutes) * SECOND <= start + (|links| + 1) * (minutes * MINUTE)
      + Delays(links)
    decreases |links|
  {
    ExpiryWithin(start, minutes);
    if links != [] {
      ChainBound(minutes, links[0].minted, links[1..]);
      assert LastMint(start, links) == LastMint(links[0].minted, links[1..]);
      var d := minutes * MINUTE;
      assert (|links| + 1) * d == |links| * d + d;
    }
  }
}

/** Runs of the service: logins and refreshes mint tokens, requests present them, and the clock
    does not go back. */
module TokenRuns {
  import opened Text
  import opened Decimal
  import opened Tokens

  datatype Flow = SignUp | Login | SSOLogin

  /** One event, with the texts the new tokens are signed as. */
  datatype Event =
    | Direct(flow: Flow, user: UserInfo, random: string, t1: Time, t2: Time, t3: Time, access: string, refresh: string)
    | Renew(
        token: string, presented: Time, random: string, t1: Time, t2: Time, t3: Time, access: string, refresh: string)
    | Request(header: string, allowedRoles: seq<string>, at: Time)

  /** `log` keeps the events that minted tokens. */
  datatype State = State(clock: Time, issued: Issued, log: seq<Event>)

  const START := State(0, map[], [])

  function Minted(cfg: Config, issued: Issued, e: Event): Option<Pair> {
    match e
    case Direct(_, user, random, t1, t2, t3, _, _) => Some(GenerateToken(cfg, PayloadOf(user), random, t1, t2, t3))
    case Renew(token, presented, random, t1, t2, t3, _, _) =>
      (match TokenRefresh(issued, token, presented)
       case Some(p) => Some(GenerateToken(cfg, p, random, t1, t2, t3))
       case None => None)
    case Request(_, _, _) => None
  }

  function Began(e: Event): Time {
    match e
    case Direct(_, _, _, t1, _, _, _, _) => t1
    case Renew(_, at, _, _, _, _, _, _) => at
    case Request(_, _, at) => at
  }

  function Ended(e: Event): Time {
    match e
    case Direct(_, _, _, _, _, t3, _, _) => t3
    case Renew(_, _, _, _, _, t3, _, _) => t3
    case Request(_, _, at) => at
  }

  /** Ids are those of stored rows; two tokens have the same text only if they say the same. */
  predicate Enabled(cfg: Config, s: State, e: Event) {
    && s.clock <= Began(e)
    && (e.Direct? ==> IsUint64(e.user.id) && e.t1 <= e.t2 <= e.t3)
    && (e.Renew? ==> e.presented <= e.t1 <= e.t2 <= e.t3)
    && (var pair := Minted(cfg, s.issued, e);
        pair.Some? ==>
          && e.access != e.refresh
          && (e.access in s.issued ==> s.issued[e.access] == pair.value.access)
          && (e.refresh in s.issued ==> s.issued[e.refresh] == pair.value.refresh))
  }

  function Next(cfg: Config, s: State, e: Event): State
    requires Enabled(cfg, s, e)
  {
    match Minted(cfg, s.issued, e)
    case Some(pair) => State(Ended(e), s.issued[e.access := pair.access][e.refresh := pair.refresh], s.log + [e])
    case None => s.(clock := Ended(e))
  }

  predicate IsRun(cfg: Config, s: State, run: seq<Event>)
    decreases |run|
  {
    run == [] || (Enabled(cfg, s, run[0]) && IsRun(cfg, Next(cfg, s, run[0]), run[1..]))
  }

  function After(cfg: Config, s: State, run: seq<Event>): State
    requires IsRun(cfg, s, run)
    decreases |run|
  {
    if run == [] then s else After(cfg, Next(cfg, s, run[0]), run[1..])
  }

  /** A login that minted this access token. */
  predicate MintedBy(cfg: Config, e: Event, token: string, c: Claims) {
    e.Direct? && e.access == token && c == AccessClaims(cfg, PayloadOf(e.user), e.t1)
  }

  /** A login of the user a payload speaks of. */
  predicate SameUser(e: Event, p: Payload) {
    e.Direct? && p.id == IdText(e.user.id) && p.email == e.user.email && p.phone == e.user.phone
  }

  /** Where every token in circulation comes from. */
  predicate Accounted(cfg: Config, log: seq<Event>, token: string, c: Claims) {
    match c
    case Access(_, _, _, roles, _) => roles == [] || exists e <- log :: MintedBy(cfg, e, token, c)
    case Refresh(_, _, _, _, p) => exists e <- log :: SameUser(e, p)
  }

  predicate Invariant(cfg: Config, s: State) {
    && (forall t <- s.issued :: Accounted(cfg, s.log, t, s.issued[t]))
    && (forall e <- s.log :: e.Direct? ==> IsUint64(e.user.id))
  }

  lemma AccountedMore(cfg: Config, log: seq<Event>, e: Event, token: string, c: Claims)
    requires Accounted(cfg, log, token, c)
    ensures Accounted(cfg, log + [e], token, c)
  {
    assert forall x <- log :: x in log + [e];
  }

  lemma InvariantKept(cfg: Config, s: State, e: Event)
    requires Invariant(cfg, s) && Enabled(cfg, s, e)
    ensures Invariant(cfg, Next(cfg, s, e))
  {
    var t := Next(cfg, s, e);
    assert Minted(cfg, s.issued, e).Some? ==> e in t.log;
    forall token | token in t.issued ensures Accounted(cfg, t.log, token, t.issued[token]) {
      if token in s.issued && s.issued[token] == t.issued[token] {
        AccountedMore(cfg, s.log, e, token, s.issued[token]);
      } else if e.Direct? {
        assert MintedBy(cfg, e, e.access, t.issued[e.access]);
        assert SameUser(e, PayloadOf(e.user));
      } else {
        var p := TokenRefresh(s.issued, e.token, e.presented).value;
        RenewedPayload(cfg, s, e);
        var d :| d in s.log && SameUser(d, p);
        assert d in t.log;
      }
    }
  }

  /** A refresh passes on id, email and phone, and no roles. */
  lemma RenewedPayload(cfg: Config, s: State, e: Event)
    requires Invariant(cfg, s) && e.Renew? && TokenRefresh(s.issued, e.token, e.presented).Some?
    ensures var p := TokenRefresh(s.issued, e.token, e.presented).value;
      p.roles == [] && p == s.issued[e.token].payload.(roles := []) && exists d <- s.log :: SameUser(d, p)
  {
    var p := s.issued[e.token].payload;
    assert Accounted(cfg, s.log, e.token, s.issued[e.token]);
    var d :| d in s.log && SameUser(d, p);
    IdRoundTrip(d.user.id);
    assert SameUser(d, p.(roles := []));
  }

  lemma {:induction false} InvariantAlong(cfg: Config, s: State, run: seq<Event>)
    requires Invariant(cfg, s) && IsRun(cfg, s, run)
    ensures Invariant(cfg, After(cfg, s, run))
    decreases |run|
  {
    if run != [] {
      InvariantKept(cfg, s, run[0]);
      InvariantAlong(cfg, Next(cfg, s, run[0]), run[1..]);
    }
  }

  /** A token keeps saying what it said. */
  lemma {:induction false} IssuedKept(cfg: Config, s: State, run: seq<Event>, token: string)
    requires IsRun(cfg, s, run) && token in s.issued
    ensures token in After(cfg, s, run).issued && After(cfg, s, run).issued[token] == s.issued[token]
    decreases |run|
  {
    if run != [] {
      IssuedKept(cfg, Next(cfg, s, run[0]), run[1..], token);
    }
  }

  /** What a logged event minted is still what is in circulation, and a refresh took its payload
      over from the token it presented. */
  predicate Remembered(issued: Issued, e: Event) {
    !e.Request? && e.access in issued && e.refresh in issued && issued[e.access].Access? && issued[e.refresh].Refresh?
    && (var p := issued[e.refresh].payload;
        && issued[e.access].userId == p.id && issued[e.access].email == p.email && issued[e.access].roles == p.roles
        && (e.Direct? ==> p == PayloadOf(e.user))
        && (e.Renew? ==>
              && e.token in issued
              && issued[e.token].Refresh?
              && p == issued[e.token].payload.(id := IdText(IdOf(issued[e.token].payload.id)), roles := [])))
  }

  lemma RememberedKept(cfg: Config, s: State, e: Event)
    requires Enabled(cfg, s, e) && forall x <- s.log :: Remembered(s.issued, x)
    ensures forall x <- Next(cfg, s, e).log :: Remembered(Next(cfg, s, e).issued, x)
  {
  }

  lemma {:induction false} RememberedAlong(cfg: Config, s: State, run: seq<Event>)
    requires IsRun(cfg, s, run) && forall x <- s.log :: Remembered(s.issued, x)
    ensures forall x <- After(cfg, s, run).log :: Remembered(After(cfg, s, run).issued, x)
    decreases |run|
  {
    if run != [] {
      RememberedKept(cfg, s, run[0]);
      RememberedAlong(cfg, Next(cfg, s, run[0]), run[1..]);
    }
  }

  /** A login and the refreshes that go back to it, each presenting the refresh token before it. */
  predicate IsLineage(log: seq<Event>, links: seq<Event>) {
    && links != []
    && (forall e <- links :: e in log && !e.Request?)
    && links[0].Direct?
    && (forall k :: 1 <= k < |links| ==> links[k].Renew? && links[k].token == links[k - 1].refresh)
  }

  lemma {:induction false} LineagePayload(issued: Issued, log: seq<Event>, links: seq<Event>)
    requires IsLineage(log, links) && IsUint64(links[0].user.id) && forall e <- log :: Remembered(issued, e)
    ensures var e := links[|links| - 1];
      && e in log
      && Remembered(issued, e)
      && issued[e.refresh].payload == PayloadOf(if |links| == 1 then links[0].user else links[0].user.(roles := []))
    decreases |links|
  {
    var n := |links| - 1;
    assert links[n] in log;
    if n > 0 {
      assert forall e <- links[..n] :: e in links;
      LineagePayload(issued, log, links[..n]);
      IdRoundTrip(links[0].user.id);
    }
  }

  /** After any number of refreshes the tokens of a login speak of that login's user, by id, email
      and phone; and from the first refresh on they name no roles. */
  lemma LineageKeepsUser(cfg: Config, run: seq<Event>, links: seq<Event>)
    requires IsRun(cfg, START, run) && IsLineage(After(cfg, START, run).log, links)
    ensures var issued, e, user := After(cfg, START, run).issued, links[|links| - 1], links[0].user;
      && Remembered(issued, e)
      && var p := issued[e.refresh].payload;
        && IdOf(p.id) == user.id && p.id == IdText(user.id) && p.email == user.email && p.phone == user.phone
        && p.roles == issued[e.access].roles == (if |links| == 1 then user.roles else [])
  {
    var s := After(cfg, START, run);
    InvariantAlong(cfg, START, run);
    RememberedAlong(cfg, START, run);
    assert links[0] in s.log;
    LineagePayload(s.issued, s.log, links);
    IdRoundTrip(links[0].user.id);
  }

  /** When a logged event's refresh token expires, and that the token it presented was live. */
  predicate Timed(cfg: Config, issued: Issued, e: Event) {
    !e.Request? && e.refresh in issued && issued[e.refresh].exp == Expiry(e.t2, cfg.refresh)
    && (e.Renew? ==> e.presented <= e.t2 && e.token in issued && Live(issued[e.token], e.presented))
  }

  lemma TimedKept(cfg: Config, s: State, e: Event)
    requires Enabled(cfg, s, e) && forall x <- s.log :: Timed(cfg, s.issued, x)
    ensures forall x <- Next(cfg, s, e).log :: Timed(cfg, Next(cfg, s, e).issued, x)
  {
  }

  lemma {:induction false} TimedAlong(cfg: Config, s: State, run: seq<Event>)
    requires IsRun(cfg, s, run) && forall x <- s.log :: Timed(cfg, s.issued, x)
    ensures forall x <- After(cfg, s, run).log :: Timed(cfg, After(cfg, s, run).issued, x)
    decreases |run|
  {
    if run != [] {
      TimedKept(cfg, s, run[0]);
      TimedAlong(cfg, Next(cfg, s, run[0]), run[1..]);
    }
  }

  /** The refreshes of a lineage as a chain of times. */
  function Chain(links: seq<Event>): seq<Link>
    requires forall e <- links :: e.Renew?
  {
    if links == [] then [] else [Link(links[0].presented, links[0].t2)] + Chain(links[1..])
  }

  predicate Follows(cfg: Config, a: Event, b: Event) {
    !a.Request? && b.Renew? && b.presented < Expiry(a.t2, cfg.refresh) * SECOND && b.presented <= b.t2
  }

  lemma TimedFollows(cfg: Config, issued: Issued, a: Event, b: Event)
    requires Timed(cfg, issued, a) && Timed(cfg, issued, b) && b.Renew? && b.token == a.refresh
    ensures Follows(cfg, a, b)
  {
  }

  lemma {:induction false} LineageChain(cfg: Config, links: seq<Event>)
    requires links != [] && !links[0].Request? && forall e <- links[1..] :: e.Renew?
    requires forall k :: 1 <= k < |links| ==> Follows(cfg, links[k - 1], links[k])
    ensures IsChain(cfg.refresh, links[0].t2, Chain(links[1..])) && |Chain(links[1..])| == |links| - 1
    ensures !links[|links| - 1].Request? && LastMint(links[0].t2, Chain(links[1..])) == links[|links| - 1].t2
    decreases |links|
  {
    if |links| > 1 {
      var rest := links[1..];
      assert rest[0] == links[1] && Follows(cfg, links[0], links[1]);
      assert forall e <- rest[1..] :: e in rest;
      forall k | 1 <= k < |rest| ensures Follows(cfg, rest[k - 1], rest[k]) {
        assert Follows(cfg, links[k], links[k + 1]);
      }
      LineageChain(cfg, rest);
      assert Chain(rest)[1..] == Chain(rest[1..]);
    }
  }

  /** In a run, the refresh token n refreshes after a login expires at most n + 1 refresh durations
      after the login minted its own, plus what the calls took. */
  lemma LineageExpires(cfg: Config, run: seq<Event>, links: seq<Event>)
    requires Plausible(cfg.refresh) && IsRun(cfg, START, run) && IsLineage(After(cfg, START, run).log, links)
    ensures var issued, e := After(cfg, START, run).issued, links[|links| - 1];
      && (forall x <- links[1..] :: x.Renew?)
      && e.refresh in issued
      && issued[e.refresh].exp * SECOND <= links[0].t2 + |links| * (cfg.refresh * MINUTE) + Delays(Chain(links[1..]))
  {
    var s := After(cfg, START, run);
    TimedAlong(cfg, START, run);
    forall x | x in links[1..] ensures x.Renew? && x in s.log {
      var k :| 0 <= k < |links[1..]| && links[1..][k] == x;
      assert links[k + 1] == x;
    }
    assert links[0] in s.log && links[|links| - 1] in s.log;
    forall k | 1 <= k < |links| ensures Follows(cfg, links[k - 1], links[k]) {
      TimedFollows(cfg, s.issued, links[k - 1], links[k]);
    }
    LineageChain(cfg, links);
    ChainBound(cfg.refresh, links[0].t2, Chain(links[1..]));
  }

  /** In every run: a request passes both middlewares only with an access token that a sign-up or
      login minted directly, which has not expired and whose roles meet the allowed ones; and the
      user id forwarded with it is empty. */
  lemma GatePassed(cfg: Config, run: seq<Event>, header: string, allowedRoles: seq<string>, now: Time)
    requires IsRun(cfg, START, run) && GateOf(After(cfg, START, run).issued, header, allowedRoles, now).Forwarded?
    ensures GateOf(After(cfg, START, run).issued, header, allowedRoles, now) == Forwarded("")
    ensures exists e <- After(cfg, START, run).log ::
      && e.Direct? && |Split(header, ' ')| == 2 && Split(header, ' ')[1] == e.access
      && SharesRole(e.user.roles, allowedRoles) && now < Expiry(e.t1, cfg.access) * SECOND
  {
    var s := After(cfg, START, run);
    InvariantAlong(cfg, START, run);
    var token := Split(header, ' ')[1];
    assert Accounted(cfg, s.log, token, s.issued[token]);
    var e :| e in s.log && MintedBy(cfg, e, token, s.issued[token]);
  }

  /** The other way round: a login's access token does pass while it lasts, at any later point. */
  lemma DirectPasses(cfg: Config, run: seq<Event>, e: Event, later: seq<Event>, allowedRoles: seq<string>, now: Time)
    requires IsRun(cfg, START, run)
    requires var s := After(cfg, START, run); Enabled(cfg, s, e) && e.Direct? && IsRun(cfg, Next(cfg, s, e), later)
    requires ' ' !in e.access && SharesRole(e.user.roles, allowedRoles) && now < Expiry(e.t1, cfg.access) * SECOND
    ensures var s := Next(cfg, After(cfg, START, run), e);
      GateOf(After(cfg, s, later).issued, "Bearer " + e.access, allowedRoles, now) == Forwarded("")
  {
    IssuedKept(cfg, Next(cfg, After(cfg, START, run), e), later, e.access);
    BearerHeader(e.access);
  }

  lemma BearerHeader(token: string)
    requires ' ' !in token
    ensures Split("Bearer " + token, ' ') == ["Bearer", token] && Lower("Bearer") == "bearer"
  {
    assert "Bearer " + token == "Bearer" + [' '] + token;
    SplitConcat("Bearer", token, ' ');
    SplitFree("Bearer", ' ');
    SplitFree(token, ' ');
  }

  /** Refresh tokens stop at the role gate, whoever they were minted for. */
  lemma RefreshTokenStops(issued: Issued, header: string, allowedRoles: seq<string>, now: Time)
    requires |Split(header, ' ')| == 2 && Split(header, ' ')[1] in issued && issued[Split(header, ' ')[1]].Refresh?
    ensures !GateOf(issued, header, allowedRoles, now).Forwarded?
  {
  }

  /** Both tokens minted by refreshing stop there too, at any later point of the run. */
  lemma RenewedStops(cfg: Config, run: seq<Event>, e: Event, later: seq<Event>, header: string,
                     allowedRoles: seq<string>, now: Time)
    requires IsRun(cfg, START, run)
    requires var s := After(cfg, START, run);
      Enabled(cfg, s, e) && e.Renew? && Minted(cfg, s.issued, e).Some? && IsRun(cfg, Next(cfg, s, e), later)
    requires var parts := Split(header, ' '); parts[|parts| - 1] == e.access || parts[|parts| - 1] == e.refresh
    ensures var s := Next(cfg, After(cfg, START, run), e);
      !GateOf(After(cfg, s, later).issued, header, allowedRoles, now).Forwarded?
  {
    var s := After(cfg, START, run);
    InvariantAlong(cfg, START, run);
    RenewedPayload(cfg, s, e);
    IssuedKept(cfg, Next(cfg, s, e), later, e.access);
    IssuedKept(cfg, Next(cfg, s, e), later, e.refresh);
  }

  /** An access token is never accepted in place of a refresh token, however it was minted. */
  lemma AccessNeverRefreshes(cfg: Config, run: seq<Event>, e: Event, later: seq<Event>, now: Time)
    requires IsRun(cfg, START, run)
    requires var s := After(cfg, START, run);
      Enabled(cfg, s, e) && Minted(cfg, s.issued, e).Some? && IsRun(cfg, Next(cfg, s, e), later)
    ensures TokenRefresh(After(cfg, Next(cfg, After(cfg, START, run), e), later).issued, e.access, now) == None
  {
    IssuedKept(cfg, Next(cfg, After(cfg, START, run), e), later, e.access);
  }

  /** The other way round: the refresh token of any login or refresh is accepted while it lasts, at
      any later point, for that event's user and without roles. */
  lemma RefreshAccepted(cfg: Config, run: seq<Event>, e: Event, later: seq<Event>, now: Time)
    requires IsRun(cfg, START, run)
    requires var s := After(cfg, START, run);
      Enabled(cfg, s, e) && Minted(cfg, s.issued, e).Some? && IsRun(cfg, Next(cfg, s, e), later)
    requires now < Expiry(e.t2, cfg.refresh) * SECOND
    ensures var s := After(cfg, START, run);
      var after := After(cfg, Next(cfg, s, e), later);
      && TokenRefresh(after.issued, e.refresh, now).Some?
      && var p := TokenRefresh(after.issued, e.refresh, now).value;
        && p.roles == []
        && (e.Direct? ==> IdOf(p.id) == e.user.id && p.email == e.user.email && p.phone == e.user.phone)
        && (e.Renew? ==> p == TokenRefresh(s.issued, e.token, e.presented).value)
  {
    var s := After(cfg, START, run);
    IssuedKept(cfg, Next(cfg, s, e), later, e.refresh);
    RefreshAcceptedIff(After(cfg, Next(cfg, s, e), later).issued, e.refresh, now);
    RefreshAnswer(After(cfg, Next(cfg, s, e), later).issued, e.refresh, now);
    if e.Direct? {
      IdRoundTrip(e.user.id);
    } else {
      InvariantAlong(cfg, START, run);
      RenewedAgain(cfg, s, e);
    }
  }

  /** An id that came through one refresh comes through the next unchanged. */
  lemma RenewedAgain(cfg: Config, s: State, e: Event)
    requires Invariant(cfg, s) && e.Renew? && TokenRefresh(s.issued, e.token, e.presented).Some?
    ensures var p := TokenRefresh(s.issued, e.token, e.presented).value;
      p.roles == [] && IdText(IdOf(p.id)) == p.id
  {
    RenewedPayload(cfg, s, e);
    var p := TokenRefresh(s.issued, e.token, e.presented).value;
    var d :| d in s.log && SameUser(d, p);
    IdRoundTrip(d.user.id);
  }

  /** After any number of refreshes, at least one, a token speaks of the user of some login, by
      the id, email and phone of that login, and names no roles. */
  lemma RefreshKeepsUser(cfg: Config, run: seq<Event>, token: string, now: Time)
    requires IsRun(cfg, START, run) && TokenRefresh(After(cfg, START, run).issued, token, now).Some?
    ensures var p := TokenRefresh(After(cfg, START, run).issued, token, now).value;
      p.roles == [] && exists e <- After(cfg, START, run).log :: SameUser(e, p) && IdOf(p.id) == e.user.id
  {
    var s := After(cfg, START, run);
    InvariantAlong(cfg, START, run);
    var e := Renew(token, now, "", now, now, now, "", "");
    RenewedPayload(cfg, s, e);
    var p := TokenRefresh(s.issued, token, now).value;
    var d :| d in s.log && SameUser(d, p);
    IdRoundTrip(d.user.id);
  }
}
