/** Token scopes: the route table (internal/apitoken/scope.go) and the scope claim of a token
(internal/apitoken/apitoken.go). */
module Scopes {
  import opened Strings
  import opened Words

  type Scope = string

  const IMAGE_READ: Scope := "image:read"
  const REPORT_READ: Scope := "report:read"
  const SCHEMATIC_CREATE: Scope := "schematic:create"
  const SCHEMATIC_READ: Scope := "schematic:read"
  const SOURCE_PULL: Scope := "source:pull"
  const TOKEN_ISSUE: Scope := "token:issue"
  const TOKEN_READ: Scope := "token:read"
  const TOKEN_REVOKE: Scope := "token:revoke"

  /** Every scope, sorted. */
  function All(): seq<Scope> {
    [IMAGE_READ, REPORT_READ, SCHEMATIC_CREATE, SCHEMATIC_READ, SOURCE_PULL, TOKEN_ISSUE, TOKEN_READ, TOKEN_REVOKE]
  }

  predicate Valid(scope: string) { scope in All() }

  // ---------------------------------------------------------------- routes

  predicate ReadOnly(verb: string) { verb == "GET" || verb == "HEAD" }

  predicate RegistryPing(path: string) { path == "/v2" || path == "/v2/" }

  predicate RegistryPath(path: string) { RegistryPing(path) || "/v2/" <= path }

  predicate SourcePath(path: string) { "/v2/siderolabs/" <= path }

  predicate TokenRevokePath(path: string) {
    match CutPrefix(path, "/tokens/")
    case None => false
    case Some(rest) =>
      match CutSuffix(rest, "/revoke")
      case None => false
      case Some(id) => id != "" && '/' !in id
  }

  predicate RouteAllows(scope: Scope, verb: string, path: string) {
    if scope == IMAGE_READ then
      ReadOnly(verb) && ("/image/" <= path || "/pxe/" <= path || (RegistryPath(path) && !SourcePath(path)))
    else if scope == SOURCE_PULL then ReadOnly(verb) && (RegistryPing(path) || SourcePath(path))
    else if scope == SCHEMATIC_CREATE then verb == "POST" && path == "/schematics"
    else if scope == SCHEMATIC_READ then ReadOnly(verb) && "/schematics/" <= path
    else if scope == REPORT_READ then ReadOnly(verb) && ("/spdx/" <= path || "/vex/" <= path || "/scans/" <= path)
    else if scope == TOKEN_ISSUE then verb == "POST" && path == "/tokens"
    else if scope == TOKEN_READ then verb == "GET" && path == "/tokens"
    else if scope == TOKEN_REVOKE then verb == "POST" && TokenRevokePath(path)
    else false
  }

  predicate Allows(scopes: seq<Scope>, verb: string, path: string) {
    exists scope :: scope in scopes && RouteAllows(scope, verb, path)
  }

  predicate Covers(have: seq<Scope>, want: seq<Scope>) { forall scope :: scope in want ==> scope in have }

  /** Minting takes the scope for it; no other scope and no combination of others opens that route. */
  lemma OnlyIssueMints(scopes: seq<Scope>)
    ensures Allows(scopes, "POST", "/tokens") <==> TOKEN_ISSUE in scopes
  {
    assert RouteAllows(TOKEN_ISSUE, "POST", "/tokens");
    forall scope | scope in scopes && RouteAllows(scope, "POST", "/tokens") ensures scope == TOKEN_ISSUE {
      assert !ReadOnly("POST");
      assert !TokenRevokePath("/tokens");
      assert |"/tokens"| != |"/schematics"|;
    }
  }

  /** Whoever covers a set of scopes may make every request that set allows. */
  lemma CoveringAllows(have: seq<Scope>, want: seq<Scope>, verb: string, path: string)
    requires Covers(have, want) && Allows(want, verb, path)
    ensures Allows(have, verb, path)
  {
  }

  /** The routes of the scopes do not overlap, but for the registry's ping, which a client of either part needs. */
  lemma RoutesAreDisjoint(a: Scope, b: Scope, verb: string, path: string)
    requires RouteAllows(a, verb, path) && RouteAllows(b, verb, path) && a != b
    ensures RegistryPing(path) && ((a == IMAGE_READ && b == SOURCE_PULL) || (a == SOURCE_PULL && b == IMAGE_READ))
  {
    AreaOfRoute(a, verb, path);
    AreaOfRoute(b, verb, path);
  }

  datatype Area = Images | Registry | Schematics | Reports | Tokens

  /** The first letters of the path tell what it is about. */
  function AreaOf(path: string): Area {
    if |path| < 3 then Registry
    else if path[1] == 'i' || path[1] == 'p' then Images
    else if path[1] == 'v' then (if path[2] == '2' then Registry else Reports)
    else if path[1] == 't' then Tokens
    else if |path| > 3 && path[2] == 'c' && path[3] == 'h' then Schematics
    else Reports
  }

  lemma AreaOfRoute(scope: Scope, verb: string, path: string)
    requires RouteAllows(scope, verb, path)
    ensures scope == IMAGE_READ ==> AreaOf(path) == Images || (AreaOf(path) == Registry && !SourcePath(path))
    ensures scope == SOURCE_PULL ==> AreaOf(path) == Registry
    ensures (scope == SCHEMATIC_CREATE || scope == SCHEMATIC_READ) ==> AreaOf(path) == Schematics
    ensures scope == REPORT_READ ==> AreaOf(path) == Reports
    ensures (scope == TOKEN_ISSUE || scope == TOKEN_READ || scope == TOKEN_REVOKE) ==> AreaOf(path) == Tokens
    ensures scope == TOKEN_REVOKE ==> |path| > |"/tokens"|
  {
    if scope == TOKEN_REVOKE {
      assert "/tokens/" <= path;
      assert path[1] == "/tokens/"[1] == 't';
    } else if scope == IMAGE_READ {
      if "/image/" <= path {
        assert path[1] == "/image/"[1] == 'i';
      } else if "/pxe/" <= path {
        assert path[1] == "/pxe/"[1] == 'p';
      } else if "/v2/" <= path {
        assert path[1] == "/v2/"[1] == 'v' && path[2] == "/v2/"[2] == '2';
      }
    } else if scope == SOURCE_PULL {
      if SourcePath(path) {
        assert path[1] == "/v2/siderolabs/"[1] == 'v' && path[2] == "/v2/siderolabs/"[2] == '2';
      }
    } else if scope == SCHEMATIC_READ {
      assert path[1] == "/schematics/"[1] == 's' && path[2] == "/schematics/"[2] == 'c'
          && path[3] == "/schematics/"[3] == 'h';
    } else if scope == REPORT_READ {
      if "/spdx/" <= path {
        assert path[1] == "/spdx/"[1] == 's' && path[2] == "/spdx/"[2] == 'p';
      } else if "/vex/" <= path {
        assert path[1] == "/vex/"[1] == 'v' && path[2] == "/vex/"[2] == 'e';
      } else {
        assert path[1] == "/scans/"[1] == 's' && path[2] == "/scans/"[2] == 'c' && path[3] == "/scans/"[3] == 'a';
      }
    }
  }

  // ---------------------------------------------------------------- the table of routes

  /** The paths of a route: one, all under a prefix but those under another one, or those with one element between. */
  datatype Form = Exact(path: string) | Under(prefix: string) | UnderBut(prefix: string, but: string)
    | Between(prefix: string, suffix: string)

  ghost predicate Matches(form: Form, path: string) {
    match form
    case Exact(p) => path == p
    case Under(prefix) => exists rest :: path == prefix + rest
    case UnderBut(prefix, but) => (exists rest :: path == prefix + rest) && !exists rest :: path == but + rest
    case Between(prefix, suffix) => exists id :: id != "" && '/' !in id && path == prefix + id + suffix
  }

  datatype Route = Route(scope: string, verbs: seq<string>, form: Form)

  const READS := ["GET", "HEAD"]

  /** What each scope opens. */
  const ROUTES := [
    Route("image:read", READS, Under("/image/")),
    Route("image:read", READS, Under("/pxe/")),
    Route("image:read", READS, Exact("/v2")),
    Route("image:read", READS, UnderBut("/v2/", "/v2/siderolabs/")),
    Route("source:pull", READS, Exact("/v2")),
    Route("source:pull", READS, Exact("/v2/")),
    Route("source:pull", READS, Under("/v2/siderolabs/")),
    Route("schematic:create", ["POST"], Exact("/schematics")),
    Route("schematic:read", READS, Under("/schematics/")),
    Route("report:read", READS, Under("/spdx/")),
    Route("report:read", READS, Under("/vex/")),
    Route("report:read", READS, Under("/scans/")),
    Route("token:issue", ["POST"], Exact("/tokens")),
    Route("token:read", ["GET"], Exact("/tokens")),
    Route("token:revoke", ["POST"], Between("/tokens/", "/revoke"))
  ]

  ghost predicate Opens(route: Route, scope: Scope, verb: string, path: string) {
    route.scope == scope && verb in route.verbs && Matches(route.form, path)
  }

  lemma UnderIff(prefix: string, path: string)
    ensures prefix <= path <==> exists rest :: path == prefix + rest
  {
    if prefix <= path {
      assert path == prefix + path[|prefix|..];
    }
  }

  lemma RevokeIff(path: string)
    ensures TokenRevokePath(path) <==> Matches(Between("/tokens/", "/revoke"), path)
  {
    if TokenRevokePath(path) {
      var rest := CutPrefix(path, "/tokens/").value;
      var id := CutSuffix(rest, "/revoke").value;
      CutSuffixJoins(rest, "/revoke");
      assert path == "/tokens/" + rest && rest == id + "/revoke";
      assert path == "/tokens/" + id + "/revoke";
    }
    forall id | id != "" && '/' !in id && path == "/tokens/" + id + "/revoke" ensures TokenRevokePath(path) {
      assert path == "/tokens/" + (id + "/revoke");
      CutPrefixConcat("/tokens/", id + "/revoke");
      CutSuffixConcat(id, "/revoke");
    }
  }

  lemma MatchesUnder(prefix: string, path: string)
    ensures Matches(Under(prefix), path) <==> prefix <= path
  {
    UnderIff(prefix, path);
  }

  lemma MatchesUnderBut(prefix: string, but: string, path: string)
    ensures Matches(UnderBut(prefix, but), path) <==> prefix <= path && !(but <= path)
  {
    UnderIff(prefix, path);
    UnderIff(but, path);
  }

  lemma ImageRow(k: nat, verb: string, path: string)
    requires k < 4 && Opens(ROUTES[k], ROUTES[k].scope, verb, path)
    ensures ROUTES[k].scope == IMAGE_READ && RouteAllows(IMAGE_READ, verb, path)
  {
    MatchesUnder("/image/", path);
    MatchesUnder("/pxe/", path);
    MatchesUnderBut("/v2/", "/v2/siderolabs/", path);
    assert path == "/v2" ==> !("/v2/siderolabs/" <= path);
  }

  lemma SourceRow(k: nat, verb: string, path: string)
    requires 4 <= k < 7 && Opens(ROUTES[k], ROUTES[k].scope, verb, path)
    ensures ROUTES[k].scope == SOURCE_PULL && RouteAllows(SOURCE_PULL, verb, path)
  {
    MatchesUnder("/v2/siderolabs/", path);
    AllDistinct();
    assert SOURCE_PULL == All()[4] != All()[0];
  }

  lemma SchematicRow(k: nat, verb: string, path: string)
    requires 7 <= k < 9 && Opens(ROUTES[k], ROUTES[k].scope, verb, path)
    ensures ROUTES[k].scope == (if k == 7 then SCHEMATIC_CREATE else SCHEMATIC_READ)
    ensures RouteAllows(ROUTES[k].scope, verb, path)
  {
    MatchesUnder("/schematics/", path);
    AllDistinct();
    assert All()[2] != All()[0] && All()[2] != All()[4] && All()[3] != All()[0] && All()[3] != All()[4]
        && All()[3] != All()[2];
  }

  lemma ReportRow(k: nat, verb: string, path: string)
    requires 9 <= k < 12 && Opens(ROUTES[k], ROUTES[k].scope, verb, path)
    ensures ROUTES[k].scope == REPORT_READ && RouteAllows(REPORT_READ, verb, path)
  {
    MatchesUnder("/spdx/", path);
    MatchesUnder("/vex/", path);
    MatchesUnder("/scans/", path);
    AllDistinct();
    assert All()[1] != All()[0] && All()[1] != All()[4] && All()[1] != All()[3] && All()[1] != All()[2];
  }

  lemma TokenRow(k: nat, verb: string, path: string)
    requires 12 <= k < 15 && Opens(ROUTES[k], ROUTES[k].scope, verb, path)
    ensures RouteAllows(ROUTES[k].scope, verb, path)
  {
    RevokeIff(path);
    hide TokenRevokePath, Matches;
    if k < 14 { ExactRow(k, path, verb); }
    assert |ROUTES[12].scope| == 11 && |ROUTES[13].scope| == 10 && |ROUTES[14].scope| == 12;
    assert ROUTES[k].scope[0] == 't' && IMAGE_READ[0] == 'i' && REPORT_READ[0] == 'r' && SOURCE_PULL[0] == 's'
      && SCHEMATIC_CREATE[0] == 's' && SCHEMATIC_READ[0] == 's';
  }

  lemma ExactRow(k: nat, path: string, verb: string)
    requires 12 <= k < 14 && Opens(ROUTES[k], ROUTES[k].scope, verb, path)
    ensures path == "/tokens"
  {
  }

  lemma RowAllows(k: nat, scope: Scope, verb: string, path: string)
    requires k < |ROUTES| && Opens(ROUTES[k], scope, verb, path)
    ensures RouteAllows(scope, verb, path)
  {
    assert ROUTES[k].scope == scope;
    hide Opens, RouteAllows, Matches;
    if k < 4 {
      ImageRow(k, verb, path);
    } else if k < 7 {
      SourceRow(k, verb, path);
    } else if k < 9 {
      SchematicRow(k, verb, path);
    } else if k < 12 {
      ReportRow(k, verb, path);
    } else {
      TokenRow(k, verb, path);
    }
  }

  /** No two scopes are the same text. */
  lemma AllDistinct()
    ensures forall i, j :: 0 <= i < j < |All()| ==> All()[i] != All()[j]
  {
    var all := All();
    assert |all[0]| == 10 && |all[1]| == 11 && |all[2]| == 16 && |all[3]| == 14 && |all[4]| == 11 && |all[5]| == 11
           && |all[6]| == 10 && |all[7]| == 12;
    assert all[1][0] == 'r' && all[4][0] == 's' && all[5][0] == 't' && all[0][0] == 'i' && all[6][0] == 't';
  }

  /** A scope opens exactly the routes that the table has for it. */
  lemma RouteTableIff(scope: Scope, verb: string, path: string)
    ensures RouteAllows(scope, verb, path) <==> exists route :: route in ROUTES && Opens(route, scope, verb, path)
  {
    hide Opens, RouteAllows, ROUTES;
    if RouteAllows(scope, verb, path) {
      OpensOne(scope, verb, path);
    }
    forall route | route in ROUTES && Opens(route, scope, verb, path) ensures RouteAllows(scope, verb, path) {
      var k :| 0 <= k < |ROUTES| && ROUTES[k] == route;
      RowAllows(k, scope, verb, path);
    }
  }

  lemma OpensOne(scope: Scope, verb: string, path: string)
    requires RouteAllows(scope, verb, path)
    ensures exists route :: route in ROUTES && Opens(route, scope, verb, path)
  {
    hide Matches, TokenRevokePath;
    var k := RowOf(scope, path);
    PathOfRow(scope, verb, path);
    assert ROUTES[k] in ROUTES && Opens(ROUTES[k], scope, verb, path);
  }

  /** The row that opens a path to a scope, if any does. */
  function RowOf(scope: Scope, path: string): (k: nat)
    ensures k < |ROUTES|
  {
    if scope == IMAGE_READ then
      (if "/image/" <= path then 0 else if "/pxe/" <= path then 1 else if path == "/v2" then 2 else 3)
    else if scope == SOURCE_PULL then (if path == "/v2" then 4 else if path == "/v2/" then 5 else 6)
    else if scope == SCHEMATIC_CREATE then 7
    else if scope == SCHEMATIC_READ then 8
    else if scope == REPORT_READ then (if "/spdx/" <= path then 9 else if "/vex/" <= path then 10 else 11)
    else if scope == TOKEN_ISSUE then 12
    else if scope == TOKEN_READ then 13
    else 14
  }

  lemma PathOfRow(scope: Scope, verb: string, path: string)
    requires RouteAllows(scope, verb, path)
    ensures var route := ROUTES[RowOf(scope, path)];
      route.scope == scope && verb in route.verbs && Matches(route.form, path)
  {
    assert ReadOnly(verb) ==> verb in READS;
    if scope == IMAGE_READ {
      MatchesUnder("/image/", path);
      MatchesUnder("/pxe/", path);
      MatchesUnderBut("/v2/", "/v2/siderolabs/", path);
    } else if scope == SOURCE_PULL {
      MatchesUnder("/v2/siderolabs/", path);
    } else if scope == SCHEMATIC_READ {
      MatchesUnder("/schematics/", path);
    } else if scope == REPORT_READ {
      ReportPath(verb, path);
    } else if scope == TOKEN_REVOKE {
      RevokeIff(path);
    }
  }

  lemma ReportPath(verb: string, path: string)
    requires RouteAllows(REPORT_READ, verb, path)
    ensures var route := ROUTES[RowOf(REPORT_READ, path)];
      route.scope == REPORT_READ && verb in route.verbs && Matches(route.form, path)
  {
    assert ReadOnly(verb) ==> verb in READS;
    MatchesUnder("/spdx/", path);
    MatchesUnder("/vex/", path);
    MatchesUnder("/scans/", path);
  }

  // ---------------------------------------------------------------- the scope claim

  /** `unicode.IsSpace`. */
  predicate IsSpace(c: char) {
    || '\t' <= c <= '\r' || c == ' ' || c == '\U{0085}' || c == '\U{00A0}' || c == '\U{1680}'
    || '\U{2000}' <= c <= '\U{200A}' || c == '\U{2028}' || c == '\U{2029}' || c == '\U{202F}' || c == '\U{205F}'
    || c == '\U{3000}'
  }

  /** `strings.Fields`. */
  function Fields(s: string): (words: seq<string>)
    ensures forall w :: w in words ==> IsWord(IsSpace, w)
  {
    Split(IsSpace, s)
  }

  /** The words in order of their first occurrence. */
  function Dedup(words: seq<string>): (r: seq<string>)
    ensures forall w :: w in r <==> w in words
    ensures forall i, j :: 0 <= i < j < |r| ==> r[i] != r[j]
  {
    if words == [] then []
    else
      var first, last := words[..|words| - 1], words[|words| - 1];
      assert words == first + [last];
      var r := Dedup(first);
      if last in r then r else r + [last]
  }

  /** Where a word first occurs. */
  function First(words: seq<string>, w: string): (i: nat)
    requires w in words
    ensures i < |words| && words[i] == w && forall k :: 0 <= k < i ==> words[k] != w
  {
    if words[0] == w then 0 else 1 + First(words[1..], w)
  }

  lemma FirstOfPrefix(words: seq<string>, more: string, w: string)
    requires w in words
    ensures First(words + [more], w) == First(words, w)
  {
    assert (words + [more])[First(words, w)] == w;
    assert forall k :: 0 <= k < |words| ==> (words + [more])[k] == words[k];
  }

  /** Deduplication keeps the order in which the words first occurred. */
  lemma {:induction false} DedupKeepsOrder(words: seq<string>, i: nat, j: nat)
    requires i < j < |Dedup(words)|
    ensures First(words, Dedup(words)[i]) < First(words, Dedup(words)[j])
  {
    var first, last := words[..|words| - 1], words[|words| - 1];
    assert words == first + [last];
    var r := Dedup(first);
    FirstOfPrefix(first, last, r[i]);
    if j < |r| {
      DedupKeepsOrder(first, i, j);
      FirstOfPrefix(first, last, r[j]);
    } else {
      assert forall k :: 0 <= k < |first| ==> words[k] == first[k] && first[k] in r;
    }
  }

  /** Deduplicating what has no duplicates changes nothing. */
  lemma {:induction false} DedupIdempotent(words: seq<string>)
    requires forall i, j :: 0 <= i < j < |words| ==> words[i] != words[j]
    ensures Dedup(words) == words
  {
    if words != [] {
      DedupIdempotent(words[..|words| - 1]);
      assert words == words[..|words| - 1] + [words[|words| - 1]];
    }
  }

  datatype Parsed = Scopes(scopes: seq<Scope>) | Missing | Unknown(field: string)

  predicate AllValid(scopes: seq<string>) { forall scope :: scope in scopes ==> Valid(scope) }

  predicate ValidBefore(words: seq<string>, i: nat)
    requires i <= |words|
  {
    forall k :: 0 <= k < i ==> Valid(words[k])
  }

  /** What a scope claim means: its distinct words, if there are any and all of them are scopes. */
  ghost predicate Means(claim: string, p: Parsed) {
    var words := Fields(claim);
    match p
    case Scopes(scopes) => words != [] && AllValid(words) && scopes == Dedup(words)
    case Missing => words == []
    case Unknown(field) =>
      exists i :: 0 <= i < |words| && field == words[i] && !Valid(field) && ValidBefore(words, i)
  }

  lemma MeansIsFunctional(claim: string, p: Parsed, q: Parsed)
    requires Means(claim, p) && Means(claim, q)
    ensures p == q
  {
    hide Fields, Dedup, Valid;
    var words := Fields(claim);
    if p.Unknown? && q.Unknown? {
      var i :| 0 <= i < |words| && p.field == words[i] && !Valid(p.field) && ValidBefore(words, i);
      var j :| 0 <= j < |words| && q.field == words[j] && !Valid(q.field) && ValidBefore(words, j);
    }
  }

  /** Reads a claim word by word, dropping repeated scopes and stopping at the first unknown one. */
  method ParseScopes(claim: string) returns (p: Parsed)
    ensures Means(claim, p)
  {
    hide Valid, Dedup;
    var fields := Fields(claim);
    if |fields| == 0 {
      return Missing;
    }
    var scopes: seq<Scope> := [];
    assert Dedup(fields[..0]) == [] by { DedupNothing(fields[..0]); }
    for i := 0 to |fields|
      invariant ValidBefore(fields, i)
      invariant scopes == Dedup(fields[..i])
    {
      if !Valid(fields[i]) {
        return Unknown(fields[i]);
      }
      DedupNext(fields, i);
      if fields[i] !in scopes {
        scopes := scopes + [fields[i]];
      }
    }
    assert fields[..|fields|] == fields;
    p := Scopes(scopes);
  }

  lemma DedupNothing(words: seq<string>)
    requires words == []
    ensures Dedup(words) == []
  {
  }

  lemma DedupNext(words: seq<string>, i: nat)
    requires i < |words|
    ensures var r := Dedup(words[..i]); Dedup(words[..i + 1]) == if words[i] in r then r else r + [words[i]]
  {
    assert words[..i + 1][..|words[..i + 1]| - 1] == words[..i];
  }

  /** The meaning of a claim as a value. */
  function ScopesOf(claim: string): (p: Parsed)
    ensures Means(claim, p)
  {
    var words := Fields(claim);
    if words == [] then Missing
    else if AllValid(words) then Scopes(Dedup(words))
    else
      Unknown(FirstUnknown(words))
  }

  function FirstUnknown(words: seq<string>): (field: string)
    requires !AllValid(words)
    ensures exists i :: 0 <= i < |words| && field == words[i] && !Valid(field) && ValidBefore(words, i)
  {
    if !Valid(words[0]) then
      assert ValidBefore(words, 0);
      words[0]
    else
      assert words == [words[0]] + words[1..];
      var field := FirstUnknown(words[1..]);
      assert exists i :: 0 <= i < |words| && field == words[i] && !Valid(field) && ValidBefore(words, i) by {
        var i :| 0 <= i < |words[1..]| && field == words[1..][i] && !Valid(field) && ValidBefore(words[1..], i);
        forall k | 0 <= k < i + 1 ensures Valid(words[k]) {
          assert k > 0 ==> words[k] == words[1..][k - 1];
        }
        assert field == words[i + 1] && ValidBefore(words, i + 1);
      }
      field
  }

  lemma LettersAreWord(s: string)
    requires s != "" && forall c :: c in s ==> ':' <= c <= 'z'
    ensures IsWord(IsSpace, s)
  {
    assert forall i :: 0 <= i < |s| ==> s[i] in s;
  }

  lemma ScopesAreWords()
    ensures forall scope :: Valid(scope) ==> IsWord(IsSpace, scope)
  {
    hide IsSpace, IsWord;
    LettersAreWord(IMAGE_READ);
    LettersAreWord(REPORT_READ);
    LettersAreWord(SCHEMATIC_CREATE);
    LettersAreWord(SCHEMATIC_READ);
    LettersAreWord(SOURCE_PULL);
    LettersAreWord(TOKEN_ISSUE);
    LettersAreWord(TOKEN_READ);
    LettersAreWord(TOKEN_REVOKE);
  }

  /** Reading back what was written gives the scopes without their repetitions, in order. */
  lemma ClaimRoundTrip(scopes: seq<Scope>)
    requires scopes != [] && AllValid(scopes)
    ensures ScopesOf(Join(scopes)) == Scopes(Dedup(scopes))
  {
    ScopesAreWords();
    hide Valid, IsWord, Join, Dedup;
    SplitOfJoin(IsSpace, scopes);
  }
}
