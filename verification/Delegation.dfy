/** Issuing, verifying and delegating API tokens (internal/apitoken/apitoken.go,
enterprise/tokens/frontend_listcreate.go).

Signatures are ideal: a `Signed` value is a token that the key `kid` did sign. Time is in nanoseconds. */
module Delegation {
  import opened Strings
  import opened Scopes
  import opened Words

  datatype Result<+T, +E> = Ok(value: T) | Err(error: E)

  const SECOND := 1_000_000_000
  const LEEWAY := 30 * SECOND

  // ---------------------------------------------------------------- lifetimes

  datatype TTL = TTL(dflt: int, min: int, max: int)

  function Resolve(ttl: TTL, requested: int): Option<int> {
    if requested <= 0 then Some(ttl.dflt)
    else if requested < ttl.min || requested > ttl.max then None
    else Some(requested)
  }

  /** The configured lifetimes and keys. `kid` names the key that signs, `keys` those that verify. */
  datatype Issuer = Issuer(kid: string, keys: set<string>, bootstrap: TTL, stored: TTL, ephemeral: TTL)

  datatype IssueError = EmptySubject | NoScopes | UnknownScope | NeedsIssue | Unstorable | NoBootstrap | OutOfRange

  function ResolveTTL(issuer: Issuer, stored: bool, requested: int, administrative: bool): Result<int, IssueError> {
    if administrative && issuer.bootstrap == TTL(0, 0, 0) then Err(NoBootstrap)
    else
      match Resolve(if administrative then issuer.bootstrap else if stored then issuer.stored
                    else issuer.ephemeral, requested)
      case None => Err(OutOfRange)
      case Some(ttl) => Ok(ttl)
  }

  // ---------------------------------------------------------------- tokens

  /** The JWT's payload; the two times are in seconds. */
  datatype Payload = Payload(
    issuer: string, jti: string, subject: string, issuedAt: int, expiry: int,
    scope: string, issuable: string, anySubject: bool, stored: Option<bool>)

  datatype Signed = Signed(kid: string, payload: Payload)

  datatype Claims = Claims(
    subject: string, id: string, scopes: seq<Scope>, issuable: seq<Scope>, stored: bool, anySubject: bool)

  datatype Grant = Grant(issuable: seq<Scope>, anySubject: bool)

  function Unix(time: int): int { time / SECOND }

  const ISSUER_NAME := "image-factory"

  function Issue(issuer: Issuer, now: int, jti: string, subject: string, scopes: seq<Scope>, grant: Grant, stored: bool,
                 requested: int): Result<Signed, IssueError> {
    if subject == "" then Err(EmptySubject)
    else if scopes == [] then Err(NoScopes)
    else if !AllValid(scopes) || !AllValid(grant.issuable) then Err(UnknownScope)
    else if (grant.issuable != [] || grant.anySubject) && TOKEN_ISSUE !in scopes then Err(NeedsIssue)
    else if stored && (grant.anySubject || !AllValid(scopes)) then Err(Unstorable)
    else
      match ResolveTTL(issuer, stored, requested, grant.anySubject)
      case Err(e) => Err(e)
      case Ok(ttl) =>
        Ok(Signed(issuer.kid, Payload(ISSUER_NAME, jti, subject, Unix(now), Unix(now + ttl),
                                      Join(scopes), Join(grant.issuable), grant.anySubject, Some(stored))))
  }

  datatype VerifyError = BadKey | BadIssuer | Expired | IssuedInTheFuture | MissingClaim | BadScope | IssueRequired

  function Verify(issuer: Issuer, now: int, token: Signed): Result<Claims, VerifyError> {
    var p := token.payload;
    if token.kid == "" || token.kid !in issuer.keys then Err(BadKey)
    else if p.issuer != ISSUER_NAME then Err(BadIssuer)
    else if now - LEEWAY > p.expiry * SECOND then Err(Expired)
    else if now + LEEWAY < p.issuedAt * SECOND then Err(IssuedInTheFuture)
    else if p.subject == "" || p.jti == "" || p.stored == None then Err(MissingClaim)
    else
      var scopes := ScopesOf(p.scope);
      var issuable := if p.issuable == "" then Parsed.Scopes([]) else ScopesOf(p.issuable);
      if !scopes.Scopes? || !issuable.Scopes? then Err(BadScope)
      else if (issuable.scopes != [] || p.anySubject) && TOKEN_ISSUE !in scopes.scopes then Err(IssueRequired)
      else Ok(Claims(p.subject, p.jti, scopes.scopes, issuable.scopes, p.stored.value, p.anySubject))
  }

  /** Verification recovers exactly what was issued, its scopes without repetitions, from the second of issue until the
  second of expiry, 30 seconds of leeway either way, as long as the signing key is still among the verifying ones. */
  lemma VerifyRecovers(issuer: Issuer, now: int, jti: string, subject: string, scopes: seq<Scope>, grant: Grant,
                       stored: bool, requested: int, verifier: Issuer, instant: int)
    requires Issue(issuer, now, jti, subject, scopes, grant, stored, requested).Ok?
    requires jti != "" && issuer.kid != "" && issuer.kid in verifier.keys
    ensures var token := Issue(issuer, now, jti, subject, scopes, grant, stored, requested).value;
      var inTime := token.payload.issuedAt * SECOND - LEEWAY <= instant <= token.payload.expiry * SECOND + LEEWAY;
      && (Verify(verifier, instant, token).Ok? <==> inTime)
      && (inTime ==> Verify(verifier, instant, token)
                       == Ok(Claims(subject, jti, Dedup(scopes), Dedup(grant.issuable), stored, grant.anySubject)))
  {
    IssuedToken(issuer, now, jti, subject, scopes, grant, stored, requested);
    ClaimRoundTrip(scopes);
    IssuableRoundTrip(grant.issuable);
    hide Join, ScopesOf, AllValid, Dedup, Issue, Unix, Verify;
    var token := Issue(issuer, now, jti, subject, scopes, grant, stored, requested).value;
    VerifyReads(verifier, instant, token, Dedup(scopes), Dedup(grant.issuable));
  }

  lemma IssuedToken(issuer: Issuer, now: int, jti: string, subject: string, scopes: seq<Scope>, grant: Grant,
                    stored: bool, requested: int)
    requires Issue(issuer, now, jti, subject, scopes, grant, stored, requested).Ok?
    ensures subject != "" && scopes != [] && AllValid(scopes) && AllValid(grant.issuable)
    ensures grant.issuable != [] || grant.anySubject ==> TOKEN_ISSUE in scopes
    ensures var token := Issue(issuer, now, jti, subject, scopes, grant, stored, requested).value;
      token == Signed(issuer.kid, Payload(ISSUER_NAME, jti, subject, Unix(now), token.payload.expiry, Join(scopes),
                                          Join(grant.issuable), grant.anySubject, Some(stored)))
  {
    hide Valid, Join, Unix, ResolveTTL;
  }

  /** How a token is read whose claims parse to `scopes` and `issuable`. */
  lemma VerifyReads(verifier: Issuer, now: int, token: Signed, scopes: seq<Scope>, issuable: seq<Scope>)
    requires token.kid != "" && token.kid in verifier.keys
    requires var p := token.payload;
      && p.issuer == ISSUER_NAME && p.subject != "" && p.jti != "" && p.stored.Some?
      && ScopesOf(p.scope) == Parsed.Scopes(scopes)
      && (if p.issuable == "" then issuable == [] else ScopesOf(p.issuable) == Parsed.Scopes(issuable))
      && (issuable != [] || p.anySubject ==> TOKEN_ISSUE in scopes)
    ensures var p := token.payload;
      var inTime := p.issuedAt * SECOND - LEEWAY <= now <= p.expiry * SECOND + LEEWAY;
      && (Verify(verifier, now, token).Ok? <==> inTime)
      && (inTime ==> Verify(verifier, now, token)
                       == Ok(Claims(p.subject, p.jti, scopes, issuable, p.stored.value, p.anySubject)))
  {
    hide ScopesOf;
  }

  lemma IssuableRoundTrip(issuable: seq<Scope>)
    requires AllValid(issuable)
    ensures Join(issuable) == "" <==> issuable == []
    ensures issuable != [] ==> ScopesOf(Join(issuable)) == Parsed.Scopes(Dedup(issuable)) && Dedup(issuable) != []
    ensures issuable == [] ==> Dedup(issuable) == []
  {
    if issuable != [] {
      ClaimRoundTrip(issuable);
      ScopesAreWords();
      assert IsWord(IsSpace, issuable[0]) && issuable[0] in Dedup(issuable);
    }
  }

  /** What the configuration is checked for. */
  predicate SaneBounds(ttl: TTL) { 0 < ttl.min <= ttl.dflt <= ttl.max }

  /** Which policy bounds a lifetime. */
  function Bounds(issuer: Issuer, stored: bool, administrative: bool): TTL {
    if administrative then issuer.bootstrap else if stored then issuer.stored else issuer.ephemeral
  }

  /** A lifetime is refused exactly when its policy is not configured or the one asked for lies outside its bounds, and
  the one granted lies within them: the one asked for, or the default if none was. So a token expires no later than the
  policy's maximum after it was issued, but for the second its times are cut to. */
  lemma LifetimeWithinBounds(issuer: Issuer, now: int, jti: string, subject: string, scopes: seq<Scope>, grant: Grant,
                             stored: bool, requested: int)
    ensures var bounds := Bounds(issuer, stored, grant.anySubject);
      var ttl := ResolveTTL(issuer, stored, requested, grant.anySubject);
      && (ttl.Err? <==> (grant.anySubject && issuer.bootstrap == TTL(0, 0, 0))
                        || (requested > 0 && !(bounds.min <= requested <= bounds.max)))
      && (ttl.Ok? ==> ttl.value == if requested > 0 then requested else bounds.dflt)
      && (ttl.Ok? && SaneBounds(bounds) ==> bounds.min <= ttl.value <= bounds.max)
    ensures var token := Issue(issuer, now, jti, subject, scopes, grant, stored, requested);
      var bounds := Bounds(issuer, stored, grant.anySubject);
      token.Ok? && SaneBounds(bounds) ==>
        var p := token.value.payload;
        && p.issuedAt * SECOND <= now < (p.issuedAt + 1) * SECOND
        && now + bounds.min - SECOND < p.expiry * SECOND <= now + bounds.max
  {
    hide Join, AllValid;
  }

  // ---------------------------------------------------------------- minting over HTTP

  datatype TTLField = Absent | Malformed | Duration(d: int)

  datatype CreateRequest = CreateRequest(
    stored: Option<bool>, scopes: Option<seq<string>>, issuable: Option<seq<string>>,
    name: string, actor: string, subject: string, ttl: TTLField)

  datatype CreateParams = CreateParams(
    name: string, subject: string, scopes: seq<Scope>, issuable: seq<Scope>, ttl: int, stored: bool)

  function TrimSpace(s: string): string { Trim(IsSpace, s) }

  function Utf8Length(s: string): nat {
    if s == "" then 0
    else
      (if s[0] < '\U{80}' then 1 else if s[0] < '\U{800}' then 2 else if s[0] < '\U{10000}' then 3 else 4)
      + Utf8Length(s[1..])
  }

  predicate IsControl(c: char) { c < ' ' || '\U{7F}' <= c <= '\U{9F}' }

  predicate ValidSubject(subject: string) {
    subject != "" && Utf8Length(subject) <= 256 && forall c :: c in subject ==> !IsControl(c) && !IsSpace(c)
  }

  function ScopesForActor(actor: string): Option<(seq<Scope>, seq<Scope>)> {
    var automation := [IMAGE_READ, REPORT_READ, SCHEMATIC_CREATE, SCHEMATIC_READ, TOKEN_ISSUE];
    if actor == "talos" then Some(([IMAGE_READ], []))
    else if actor == "onprem" then Some(([SOURCE_PULL], []))
    else if actor == "automation" then Some((automation, automation))
    else if actor == "operator" then
        Some(([IMAGE_READ, REPORT_READ, SCHEMATIC_CREATE, SCHEMATIC_READ, SOURCE_PULL], []))
    else if actor == "admin" then Some((All(), All()))
    else None
  }

  /** The requested scopes, and the ceiling requested for the new token's own children. */
  function RequestedScopes(body: CreateRequest): Option<(seq<Scope>, seq<Scope>)> {
    var actor := TrimSpace(body.actor);
    if actor != "" then
      if body.scopes != None || body.issuable != None then None else ScopesForActor(actor)
    else if body.scopes == None || body.scopes.value == [] then None
    else
      var scopes := ScopesOf(Join(body.scopes.value));
      if !scopes.Scopes? then None
      else if body.issuable == None || body.issuable.value == [] then Some((scopes.scopes, []))
      else
        var issuable := ScopesOf(Join(body.issuable.value));
        if !issuable.Scopes? || TOKEN_ISSUE !in scopes.scopes then None
        else Some((scopes.scopes, issuable.scopes))
  }

  function DecodeCreateBody(body: CreateRequest): Option<CreateParams> {
    match RequestedScopes(body)
    case None => None
    case Some((scopes, issuable)) =>
      var stored := body.stored == None || body.stored.value;
      var name := TrimSpace(body.name);
      var subject := TrimSpace(body.subject);
      if name == "" && stored then None
      else if body.ttl.Malformed? || (body.ttl.Duration? && body.ttl.d <= 0) then None
      else if subject != "" && !ValidSubject(subject) then None
      else
        Some(CreateParams(name, subject, scopes, issuable, if body.ttl.Duration? then body.ttl.d else 0, stored))
  }

  /** The request body as it is read, check after check. */
  method ReadCreateBody(body: CreateRequest) returns (params: Option<CreateParams>)
    ensures params == DecodeCreateBody(body)
  {
    hide ScopesForActor, ValidSubject, Utf8Length, Trim, Join;
    var scopes, issuable := [], [];
    var actor := TrimSpace(body.actor);
    if actor != "" {
      var profile := ScopesForActor(actor);
      if body.scopes.Some? || body.issuable.Some? || profile.None? {
        return None;
      }
      scopes, issuable := profile.value.0, profile.value.1;
    } else {
      if body.scopes.None? || |body.scopes.value| == 0 {
        return None;
      }
      var parsed := ReadScopes(body.scopes.value);
      if !parsed.Scopes? {
        return None;
      }
      scopes := parsed.scopes;
      if body.issuable.Some? && |body.issuable.value| > 0 {
        parsed := ReadScopes(body.issuable.value);
        if !parsed.Scopes? || TOKEN_ISSUE !in scopes {
          return None;
        }
        issuable := parsed.scopes;
      }
    }
    assert RequestedScopes(body) == Some((scopes, issuable));
    hide RequestedScopes;
    var stored := body.stored.None? || body.stored.value;
    var name := TrimSpace(body.name);
    if name == "" && stored {
      return None;
    }
    if body.ttl.Malformed? || (body.ttl.Duration? && body.ttl.d <= 0) {
      return None;
    }
    var subject := TrimSpace(body.subject);
    if subject != "" && !ValidSubject(subject) {
      return None;
    }
    params := Some(CreateParams(name, subject, scopes, issuable, if body.ttl.Duration? then body.ttl.d else 0, stored));
  }

  method ReadScopes(list: seq<string>) returns (parsed: Parsed)
    ensures parsed == ScopesOf(Join(list))
  {
    parsed := ParseScopes(Join(list));
    MeansIsFunctional(Join(list), parsed, ScopesOf(Join(list)));
  }

  datatype Response = BadRequest | Forbidden | Conflict | InternalError(e: IssueError) | Created(token: Signed)

  /** Answers a create request of the identity `org`. `caller` are the claims of the token that authenticated it, if
  it was one; `atCap` says that the listing of the new token's subject reached the limit. */
  function Create(issuer: Issuer, now: int, jti: string, caller: Option<Claims>, org: string, body: CreateRequest,
                  atCap: bool): Response {
    match DecodeCreateBody(body)
    case None => BadRequest
    case Some(params) =>
      if caller.Some?
          && !(Covers(caller.value.issuable, params.scopes) && Covers(caller.value.issuable, params.issuable)) then
        Forbidden
      else if params.subject != "" && params.subject != org && (caller == None || !caller.value.anySubject) then
          Forbidden
      else
        var subject := if params.subject != "" && params.subject != org then params.subject else org;
        if params.stored && atCap then Conflict
        else
          match Issue(issuer, now, jti, subject, params.scopes, Grant(params.issuable, false), params.stored,
                      params.ttl)
          case Ok(token) => Created(token)
          case Err(e) => if e.OutOfRange? || e.UnknownScope? then BadRequest else InternalError(e)
  }

  /** An accepted request asks for scopes that exist, without repetitions, and asks for the scope to issue tokens
  whenever it asks for a ceiling. */
  lemma DecodedScopes(body: CreateRequest)
    requires DecodeCreateBody(body).Some?
    ensures var params := DecodeCreateBody(body).value;
      && params.scopes != [] && AllValid(params.scopes) && AllValid(params.issuable)
      && Dedup(params.scopes) == params.scopes && Dedup(params.issuable) == params.issuable
      && (params.issuable != [] ==> TOKEN_ISSUE in params.scopes)
  {
    hide TrimSpace, ValidSubject, Dedup, Fields, Join;
    var params := DecodeCreateBody(body).value;
    if TrimSpace(body.actor) != "" {
      ActorProfiles(TrimSpace(body.actor));
    } else {
      DistinctWords(Join(body.scopes.value));
      if body.issuable != None && body.issuable.value != [] {
        DistinctWords(Join(body.issuable.value));
      } else {
        DedupIdempotent(params.issuable);
      }
    }
  }

  lemma DistinctWords(claim: string)
    requires ScopesOf(claim).Scopes?
    ensures var scopes := ScopesOf(claim).scopes; scopes != [] && AllValid(scopes) && Dedup(scopes) == scopes
  {
    var words := Fields(claim);
    var scopes := ScopesOf(claim).scopes;
    assert words[0] in scopes;
    DedupIdempotent(scopes);
  }

  lemma ActorProfiles(actor: string)
    requires ScopesForActor(actor).Some?
    ensures var (scopes, issuable) := ScopesForActor(actor).value;
      && scopes != [] && AllValid(scopes) && AllValid(issuable)
      && Dedup(scopes) == scopes && Dedup(issuable) == issuable
      && (issuable != [] ==> TOKEN_ISSUE in scopes)
  {
    hide Dedup;
    var (scopes, issuable) := ScopesForActor(actor).value;
    ActorScopesDistinct(actor);
    DedupIdempotent(scopes);
    DedupIdempotent(issuable);
  }

  lemma ActorScopesDistinct(actor: string)
    requires ScopesForActor(actor).Some?
    ensures var (scopes, issuable) := ScopesForActor(actor).value;
      && (forall i, j :: 0 <= i < j < |scopes| ==> scopes[i] != scopes[j])
      && (forall i, j :: 0 <= i < j < |issuable| ==> issuable[i] != issuable[j])
  {
    AllDistinct();
    var all := All();
    if actor == "automation" {
      assert ScopesForActor(actor).value.0 == [all[0], all[1], all[2], all[3], all[5]];
    } else if actor == "operator" {
      assert ScopesForActor(actor).value.0 == [all[0], all[1], all[2], all[3], all[4]];
    }
  }

  /** A request that decodes can only fail to be issued for its lifetime: every other rule of the issuer has been
  checked by then, and none of its failures is an internal error. */
  lemma OnlyLifetimeCanFail(issuer: Issuer, now: int, jti: string, subject: string, body: CreateRequest)
    requires subject != "" && DecodeCreateBody(body).Some?
    ensures var params := DecodeCreateBody(body).value;
      var issued :=
        Issue(issuer, now, jti, subject, params.scopes, Grant(params.issuable, false), params.stored, params.ttl);
      && (issued.Err? ==> issued.error.OutOfRange?)
      && (issued.Err? <==> Resolve(if params.stored then issuer.stored else issuer.ephemeral, params.ttl) == None)
  {
    DecodedScopes(body);
    hide DecodeCreateBody;
  }

  // ---------------------------------------------------------------- which answer a create request gets

  /** Whom the new token is for. */
  function Target(org: string, params: CreateParams): string { if params.subject == "" then org else params.subject }

  /** A caller that is authenticated by a token hands out no scope that its ceiling lacks; any other one is not
  bound. */
  ghost predicate MayGrant(caller: Option<Claims>, params: CreateParams) {
    caller.Some? ==> forall s :: s in params.scopes || s in params.issuable ==> s in caller.value.issuable
  }

  /** Only a token that may do so acts for another identity. */
  predicate MayActFor(caller: Option<Claims>, org: string, target: string) {
    target != org ==> caller.Some? && caller.value.anySubject
  }

  predicate LifetimeGranted(issuer: Issuer, params: CreateParams) {
    var bounds := if params.stored then issuer.stored else issuer.ephemeral;
    params.ttl > 0 ==> bounds.min <= params.ttl <= bounds.max
  }

  /** The token says what was asked for, for as long as was asked for or as is the default. */
  predicate IsIssued(issuer: Issuer, now: int, jti: string, target: string, params: CreateParams, token: Signed) {
    var ttl := if params.ttl > 0 then params.ttl else if params.stored then issuer.stored.dflt
        else issuer.ephemeral.dflt;
    token == Signed(issuer.kid, Payload("image-factory", jti, target, now / 1_000_000_000, (now + ttl) / 1_000_000_000,
                                        Join(params.scopes), Join(params.issuable), false, Some(params.stored)))
  }

  /** Every answer has its cause, and every cause its answer, for a caller with or without a token: a body that is not
  acceptable, or a lifetime out of bounds, is a bad request; a grant beyond the caller's ceiling, or to another identity
  without the right to act for it, is forbidden; a stored token at the limit is a conflict; and all else is created. */
  lemma CreateAnswers(issuer: Issuer, now: int, jti: string, caller: Option<Claims>, org: string, body: CreateRequest,
                      atCap: bool)
    requires org != ""
    ensures var r := Create(issuer, now, jti, caller, org, body, atCap);
      match DecodeCreateBody(body)
      case None => r == BadRequest
      case Some(params) =>
        var target := Target(org, params);
        var allowed := MayGrant(caller, params) && MayActFor(caller, org, target);
        && (r == Forbidden <==> !allowed)
        && (r == Conflict <==> allowed && params.stored && atCap)
        && (r == BadRequest <==> allowed && !(params.stored && atCap) && !LifetimeGranted(issuer, params))
        && (r.Created? <==> allowed && !(params.stored && atCap) && LifetimeGranted(issuer, params))
        && (r.Created? ==> IsIssued(issuer, now, jti, target, params, r.token))
        && !r.InternalError?
  {
    if DecodeCreateBody(body).Some? {
      var params := DecodeCreateBody(body).value;
      DecodedScopes(body);
      OnlyLifetimeCanFail(issuer, now, jti, Target(org, params), body);
      hide DecodeCreateBody, Join, AllValid, Dedup;
      IssueYields(issuer, now, jti, Target(org, params), params);
    }
  }

  lemma IssueYields(issuer: Issuer, now: int, jti: string, target: string, params: CreateParams)
    ensures var issued :=
      Issue(issuer, now, jti, target, params.scopes, Grant(params.issuable, false), params.stored, params.ttl);
      issued.Ok? ==> IsIssued(issuer, now, jti, target, params, issued.value)
  {
    hide Join, AllValid;
  }

  /** Without the right to act for others nobody gets a token of another identity, and without a token nobody does. */
  lemma OthersOnlyByDelegation(issuer: Issuer, now: int, jti: string, caller: Option<Claims>, org: string,
                               body: CreateRequest, atCap: bool)
    requires org != "" && Create(issuer, now, jti, caller, org, body, atCap).Created?
    ensures var token := Create(issuer, now, jti, caller, org, body, atCap).token;
      && (token.payload.subject == org || (caller.Some? && caller.value.anySubject))
      && !token.payload.anySubject && !(atCap && token.payload.stored == Some(true))
  {
    CreateAnswers(issuer, now, jti, caller, org, body, atCap);
    hide DecodeCreateBody, Create;
  }

  /** A caller without a token is answered as one whose ceiling is all there is. */
  lemma NoTokenNoCeiling(issuer: Issuer, now: int, jti: string, full: Claims, org: string, body: CreateRequest,
                         atCap: bool)
    requires org != "" && !full.anySubject && forall s :: Valid(s) ==> s in full.issuable
    ensures Create(issuer, now, jti, None, org, body, atCap) == Create(issuer, now, jti, Some(full), org, body, atCap)
  {
    CreateAnswers(issuer, now, jti, None, org, body, atCap);
    CreateAnswers(issuer, now, jti, Some(full), org, body, atCap);
    if DecodeCreateBody(body).Some? { DecodedScopes(body); }
    hide DecodeCreateBody, Create, IsIssued, Valid;
    var a, b := Create(issuer, now, jti, None, org, body, atCap),
        Create(issuer, now, jti, Some(full), org, body, atCap);
    if DecodeCreateBody(body).Some? {
      var params := DecodeCreateBody(body).value;
      assert MayGrant(Some(full), params) && MayGrant(None, params);
      if a.Created? {
        SameToken(issuer, now, jti, Target(org, params), params, a.token, b.token);
      }
    }
  }

  lemma SameToken(issuer: Issuer, now: int, jti: string, target: string, params: CreateParams, a: Signed, b: Signed)
    requires IsIssued(issuer, now, jti, target, params, a) && IsIssued(issuer, now, jti, target, params, b)
    ensures a == b
  {
  }

  // ---------------------------------------------------------------- delegation chains

  /** One mint: the request, and when and with which keys the new token is verified later. */
  datatype Mint =
    Mint(issuer: Issuer, now: int, jti: string, body: CreateRequest, atCap: bool, verifier: Issuer, seen: int)

  /** A token with the claims `parent` authenticates a create request, and the token it gets verifies as `child`. */
  predicate MintsBy(m: Mint, parent: Claims, child: Claims) {
    && Allows(parent.scopes, "POST", "/tokens")
    && var r := Create(m.issuer, m.now, m.jti, Some(parent), parent.subject, m.body, m.atCap);
    && r.Created?
    && Verify(m.verifier, m.seen, r.token) == Ok(child)
  }

  ghost predicate Mints(parent: Claims, child: Claims) { exists m :: MintsBy(m, parent, child) }

  ghost predicate Chain(chain: seq<Claims>) { forall i :: 0 <= i < |chain| - 1 ==> Mints(chain[i], chain[i + 1]) }

  /** A child is what was asked for, for the caller itself unless the caller may mint for anyone. */
  lemma ChildIsAsRequested(m: Mint, parent: Claims, child: Claims)
    requires MintsBy(m, parent, child)
    ensures DecodeCreateBody(m.body).Some?
    ensures var params := DecodeCreateBody(m.body).value;
      && child.scopes == params.scopes && child.issuable == params.issuable
      && child.stored == params.stored && !child.anySubject && child.id == m.jti
      && child.subject == (if params.subject == "" then parent.subject else params.subject)
      && (child.subject != parent.subject ==> parent.anySubject)
      && Covers(parent.issuable, params.scopes) && Covers(parent.issuable, params.issuable)
      && TOKEN_ISSUE in parent.scopes
  {
    OnlyIssueMints(parent.scopes);
    DecodedScopes(m.body);
    hide DecodeCreateBody, Dedup, Join, ScopesOf, Valid, Allows;
    var params := DecodeCreateBody(m.body).value;
    var subject := if params.subject != "" && params.subject != parent.subject then params.subject else parent.subject;
    VerifiedChild(m.issuer, m.now, m.jti, subject, params, m.verifier, m.seen, child);
  }

  lemma VerifiedChild(issuer: Issuer, now: int, jti: string, subject: string, params: CreateParams, verifier: Issuer,
                      seen: int, child: Claims)
    requires Dedup(params.scopes) == params.scopes && Dedup(params.issuable) == params.issuable
    requires var issued :=
      Issue(issuer, now, jti, subject, params.scopes, Grant(params.issuable, false), params.stored, params.ttl);
      issued.Ok? && Verify(verifier, seen, issued.value) == Ok(child)
    ensures child == Claims(subject, jti, params.scopes, params.issuable, params.stored, false)
  {
    hide Dedup, Join, ScopesOf, Valid;
    VerifyRecovers(issuer, now, jti, subject, params.scopes, Grant(params.issuable, false), params.stored, params.ttl,
                   verifier, seen);
  }

  lemma ChildWithinCeiling(parent: Claims, child: Claims)
    requires Mints(parent, child)
    ensures Covers(parent.issuable, child.scopes) && Covers(parent.issuable, child.issuable)
    ensures !child.anySubject && (child.subject != parent.subject ==> parent.anySubject)
    ensures TOKEN_ISSUE in parent.scopes
  {
    var m :| MintsBy(m, parent, child);
    ChildIsAsRequested(m, parent, child);
  }

  /** Delegation only attenuates: over a chain of mints of any length, what a token may do and what it may pass on lie
  within the ceiling of every ancestor, only the root can act for other identities, and the identity changes at most
  once, directly under such a root. */
  lemma {:induction false} Attenuation(chain: seq<Claims>, i: nat, j: nat)
    requires Chain(chain) && i < j < |chain|
    ensures Covers(chain[i].issuable, chain[j].scopes) && Covers(chain[i].issuable, chain[j].issuable)
    ensures !chain[j].anySubject
    ensures chain[j].subject != chain[i].subject ==> i == 0 && chain[0].anySubject
    ensures TOKEN_ISSUE in chain[i].scopes
  {
    hide Mints, Covers;
    assert Mints(chain[j - 1], chain[j - 1 + 1]);
    ChildWithinCeiling(chain[j - 1], chain[j]);
    if i < j - 1 {
      Attenuation(chain, i, j - 1);
      CoversTransitive(chain[i].issuable, chain[j - 1].issuable, chain[j].scopes);
      CoversTransitive(chain[i].issuable, chain[j - 1].issuable, chain[j].issuable);
    } else if i > 0 {
      assert Mints(chain[i - 1], chain[i - 1 + 1]);
      ChildWithinCeiling(chain[i - 1], chain[i]);
    }
  }

  lemma CoversTransitive(a: seq<Scope>, b: seq<Scope>, c: seq<Scope>)
    requires Covers(a, b) && Covers(b, c)
    ensures Covers(a, c)
  {
  }

  /** Every request a descendant can make is one that each of its ancestors could hand out. */
  lemma DescendantsReachNoFurther(chain: seq<Claims>, i: nat, j: nat, verb: string, path: string)
    requires Chain(chain) && i < j < |chain|
    requires Allows(chain[j].scopes, verb, path)
    ensures Allows(chain[i].issuable, verb, path)
  {
    hide Chain, RouteAllows;
    Attenuation(chain, i, j);
    CoveringAllows(chain[i].issuable, chain[j].scopes, verb, path);
  }

  /** A token that is denied a ceiling has no descendants. */
  lemma NoCeilingNoChildren(chain: seq<Claims>, i: nat)
    requires Chain(chain) && i < |chain| && chain[i].issuable == []
    ensures i == |chain| - 1
  {
    if i + 1 < |chain| {
      var m :| MintsBy(m, chain[i], chain[i + 1]);
      ChildIsAsRequested(m, chain[i], chain[i + 1]);
      DecodedScopes(m.body);
      NonEmptyCover(chain[i].issuable, DecodeCreateBody(m.body).value.scopes);
    }
  }

  lemma NonEmptyCover(have: seq<Scope>, want: seq<Scope>)
    requires Covers(have, want) && want != []
    ensures have != []
  {
    assert want[0] in have;
  }
}
