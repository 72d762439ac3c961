/** When a token is issued, when one verifies, and which create requests are understood, each condition spelled out
(internal/apitoken/apitoken.go, internal/apitoken/scope.go, enterprise/tokens/frontend_listcreate.go). */
module TokenRequests {
  import opened Strings
  import opened Words
  import opened Scopes
  import opened Delegation

  // ---------------------------------------------------------------- issuing and verifying

  /** A token is issued exactly for somebody, with at least one scope, all of them known, with the scope to issue
  whenever it may delegate anything, never stored when it may act for anyone, and for a lifetime that is granted. */
  lemma IssuesIff(issuer: Issuer, now: int, jti: string, subject: string, scopes: seq<Scope>, grant: Grant,
                  stored: bool,
                  requested: int)
    ensures var bounds := Bounds(issuer, stored, grant.anySubject);
      Issue(issuer, now, jti, subject, scopes, grant, stored, requested).Ok? <==>
        && subject != "" && scopes != []
        && (forall s :: s in scopes || s in grant.issuable ==> Valid(s))
        && (grant.issuable != [] || grant.anySubject ==> TOKEN_ISSUE in scopes)
        && !(stored && grant.anySubject)
        && (grant.anySubject ==> issuer.bootstrap != TTL(0, 0, 0))
        && (requested > 0 ==> bounds.min <= requested <= bounds.max)
  {
    hide Valid, Join;
  }

  /** A claim lists known scopes, and at least one. */
  ghost predicate Lists(claim: string, scopes: seq<Scope>) {
    && (forall s :: s in scopes <==> s in Fields(claim))
    && (forall s :: s in scopes ==> Valid(s))
    && (forall i, j :: 0 <= i < j < |scopes| ==> scopes[i] != scopes[j])
    && scopes != []
  }

  /** A token verifies exactly when one of the issuer's keys signed it, the issuer is named, it is between its times
  with half a minute to spare, no claim is missing, its scopes are known, and it has the scope to issue whenever it may
  delegate anything; and it is read as what it claims. */
  lemma VerifiesIff(issuer: Issuer, now: int, token: Signed)
    ensures var p := token.payload;
      Verify(issuer, now, token).Ok? <==>
        && token.kid != "" && token.kid in issuer.keys && p.issuer == "image-factory"
        && p.issuedAt * SECOND <= now + 30 * SECOND && now - 30 * SECOND <= p.expiry * SECOND
        && p.subject != "" && p.jti != "" && p.stored.Some?
        && Fields(p.scope) != [] && (forall w :: w in Fields(p.scope) ==> Valid(w))
        && (p.issuable != "" ==> Fields(p.issuable) != [] && forall w :: w in Fields(p.issuable) ==> Valid(w))
        && (p.issuable != "" || p.anySubject ==> TOKEN_ISSUE in Fields(p.scope))
    ensures Verify(issuer, now, token).Ok? ==>
      var p, claims := token.payload, Verify(issuer, now, token).value;
      && claims.subject == p.subject && claims.id == p.jti && p.stored == Some(claims.stored)
      && claims.anySubject == p.anySubject
      && Lists(p.scope, claims.scopes)
      && (if p.issuable == "" then claims.issuable == [] else Lists(p.issuable, claims.issuable))
  {
    hide Valid, Fields, Dedup;
    KnownIff(token.payload.scope);
    KnownIff(token.payload.issuable);
    hide ScopesOf, Means, AllValid;
  }

  lemma KnownIff(claim: string)
    ensures ScopesOf(claim).Scopes? <==> Fields(claim) != [] && forall w :: w in Fields(claim) ==> Valid(w)
    ensures ScopesOf(claim).Scopes? ==> Lists(claim, ScopesOf(claim).scopes)
  {
    hide Valid, Fields, Dedup;
    var p := ScopesOf(claim);
    if p.Scopes? {
      var words := Fields(claim);
      assert words[0] in p.scopes;
    }
  }

  // ---------------------------------------------------------------- white space

  /** The characters with the Unicode property White_Space. */
  const WHITE := "\t\n\U{B}\U{C}\r \U{85}\U{A0}\U{1680}\U{2000}\U{2001}\U{2002}\U{2003}\U{2004}\U{2005}\U{2006}\U{2007}"
      + "\U{2008}\U{2009}\U{200A}\U{2028}\U{2029}\U{202F}\U{205F}\U{3000}"

  lemma IsWhiteIff(c: char)
    ensures IsSpace(c) <==> c in WHITE
  {
    if '\t' <= c <= '\r' {
      assert c == WHITE[c as nat - '\t' as nat];
    } else if '\U{2000}' <= c <= '\U{200A}' {
      assert c == WHITE[9 + (c as nat - 0x2000)];
    } else if IsSpace(c) {
      assert WHITE[5] == ' ' && WHITE[6] == '\U{85}' && WHITE[7] == '\U{A0}' && WHITE[8] == '\U{1680}';
      assert WHITE[20] == '\U{2028}' && WHITE[21] == '\U{2029}' && WHITE[22] == '\U{202F}' && WHITE[23] == '\U{205F}';
      assert WHITE[24] == '\U{3000}';
    }
  }

  // ---------------------------------------------------------------- create requests

  /** The profiles that hold a scope. */
  function Holders(scope: Scope): set<string> {
    if scope == IMAGE_READ then {"talos", "automation", "operator", "admin"}
    else if scope == SOURCE_PULL then {"onprem", "operator", "admin"}
    else if scope == TOKEN_ISSUE then {"automation", "admin"}
    else if scope == TOKEN_READ || scope == TOKEN_REVOKE then {"admin"}
    else if Valid(scope) then {"automation", "operator", "admin"}
    else {}
  }

  const ACTORS := {"talos", "onprem", "automation", "operator", "admin"}

  /** A profile has the scopes that it holds, and can pass on just these if it may issue tokens at all. */
  lemma ProfilesAre(actor: string)
    ensures ScopesForActor(actor).Some? <==> actor in ACTORS
    ensures ScopesForActor(actor).Some? ==>
      var (scopes, issuable) := ScopesForActor(actor).value;
      && (forall s :: s in scopes <==> actor in Holders(s))
      && issuable == (if TOKEN_ISSUE in scopes then scopes else [])
  {
    AllDistinct();
    if actor in ACTORS {
      var (scopes, issuable) := ScopesForActor(actor).value;
      forall s ensures s in scopes <==> actor in Holders(s) {
      }
    }
  }

  /** The number of characters of `s` from `c` on. */
  function From(s: string, c: char): nat {
    if s == "" then 0 else (if s[0] >= c then 1 else 0) + From(s[1..], c)
  }

  /** One byte for every character, and one more at each of three thresholds. */
  lemma {:induction false} BytesOf(s: string)
    ensures Utf8Length(s) == |s| + From(s, '\U{80}') + From(s, '\U{800}') + From(s, '\U{10000}')
  {
    if s != "" {
      BytesOf(s[1..]);
    }
  }

  /** A single line without blanks. */
  predicate IsIdentity(s: string) {
    && 0 < |s| && |s| + From(s, '\U{80}') + From(s, '\U{800}') + From(s, '\U{10000}') <= 256
    && forall i :: 0 <= i < |s| ==> ' ' < s[i] && !('\U{7F}' <= s[i] <= '\U{A0}') && !IsSpace(s[i])
  }

  lemma IdentityIff(s: string)
    ensures ValidSubject(s) <==> IsIdentity(s)
  {
    BytesOf(s);
    hide Utf8Length;
    if ValidSubject(s) {
      forall i | 0 <= i < |s| ensures ' ' < s[i] && !('\U{7F}' <= s[i] <= '\U{A0}') && !IsSpace(s[i]) {
        assert s[i] in s;
      }
    }
  }

  function ListOf(list: Option<seq<string>>): seq<string> { if list.Some? then list.value else [] }

  /** What a request asks for by profile. */
  predicate AsksByProfile(body: CreateRequest) {
    TrimSpace(body.actor) in ACTORS && body.scopes.None? && body.issuable.None?
  }

  /** What it asks for by naming the scopes, blanks between names counting as well. */
  ghost predicate AsksByName(body: CreateRequest) {
    var scopes := Fields(Join(ListOf(body.scopes)));
    var issuable := Fields(Join(ListOf(body.issuable)));
    && TrimSpace(body.actor) == ""
    && scopes != [] && (forall w :: w in scopes ==> Valid(w))
    && (ListOf(body.issuable) != [] ==>
          && issuable != [] && (forall w :: w in issuable ==> Valid(w))
          && TOKEN_ISSUE in scopes)
  }

  lemma AsksIff(body: CreateRequest)
    ensures RequestedScopes(body).Some? <==> AsksByProfile(body) || AsksByName(body)
    ensures RequestedScopes(body).Some? ==>
      var (scopes, issuable) := RequestedScopes(body).value;
      if TrimSpace(body.actor) != "" then RequestedScopes(body) == ScopesForActor(TrimSpace(body.actor))
      else
        && Lists(Join(body.scopes.value), scopes)
        && (if ListOf(body.issuable) == [] then issuable == [] else Lists(Join(ListOf(body.issuable)), issuable))
  {
    var actor := TrimSpace(body.actor);
    hide TrimSpace;
    ProfilesAre(actor);
    KnownIff(Join(ListOf(body.scopes)));
    KnownIff(Join(ListOf(body.issuable)));
    NothingListed();
    hide Fields, ScopesForActor, ScopesOf, Join;
  }

  lemma NothingListed()
    ensures Fields(Join([])) == []
  {
  }

  /** A request is understood exactly when it asks for scopes one way or the other, is named if its token is to be
  stored, has a lifetime that is positive if it has one, and is for an identity if for anyone else; and it is then taken
  at its word, a lifetime of zero standing for none. */
  lemma DecodesIff(body: CreateRequest)
    ensures DecodeCreateBody(body).Some? <==>
      && (AsksByProfile(body) || AsksByName(body))
      && (TrimSpace(body.name) != "" || body.stored == Some(false))
      && (body.ttl == Absent || (body.ttl.Duration? && body.ttl.d > 0))
      && (TrimSpace(body.subject) == "" || IsIdentity(TrimSpace(body.subject)))
    ensures DecodeCreateBody(body).Some? ==>
      var params := DecodeCreateBody(body).value;
      && Some((params.scopes, params.issuable)) == RequestedScopes(body)
      && params.name == TrimSpace(body.name) && params.subject == TrimSpace(body.subject)
      && (params.stored <==> body.stored != Some(false))
      && (if body.ttl.Duration? then params.ttl == body.ttl.d else params.ttl == 0)
  {
    AsksIff(body);
    IdentityIff(TrimSpace(body.subject));
    hide TrimSpace, RequestedScopes, AsksByProfile, AsksByName, ValidSubject, IsIdentity;
  }
}
