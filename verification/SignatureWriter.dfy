/** The asset signature writer (enterprise/assetsignature/writer.go): a cached bundle, or one flight that looks into the
cache again before it signs. The cache may be shared with other writers, which also store valid bundles only. */
module SignatureWriter {
  import opened Strings
  import opened Flights

  type Key = string
  type Bundle = string

  datatype PC = Rechecks | Signs | Caches(b: Bundle) | Returning(b: Bundle)

  datatype CallerPC = Calls | Missed | Waits(f: nat) | Served(b: Bundle) | Failed
  datatype Caller = Caller(key: Key, pc: CallerPC)

  /** `signed` counts the valid bundles this writer's signer made for a key; `faulty` says that some cache operation of
  a flight failed. `known` are the bundles known for a key: what was cached for it in the beginning, what other
  writers stored for it, and what the signer made for it. */
  datatype State = State(
    cache: map<Key, Bundle>, group: Group<Key, PC, Option<Bundle>>, callers: map<nat, Caller>,
    signed: map<Key, nat>, faulty: bool, known: set<(Key, Bundle)>)

  datatype Event =
    | Asks(c: nat, key: Key) | LooksUp(c: nat, ok: bool) | Joins(c: nat, newId: nat) | Receives(c: nat)
        | GivesUp(c: nat)
    | LooksAgain(f: nat, ok: bool) | Signed(f: nat, b: Option<Bundle>) | Stores(f: nat, ok: bool) | Returns(f: nat)
    | OtherStores(key: Key, bundle: Bundle)

  function At(s: State, f: nat): Option<PC> {
    if f in s.group.flights && s.group.flights[f].Flying? then Some(s.group.flights[f].pc) else None
  }

  /** What reading the cache yields: a bundle that is there and is valid. */
  function Cached(valid: Bundle -> bool, s: State, key: Key): Option<Bundle> {
    if key in s.cache && valid(s.cache[key]) then Some(s.cache[key]) else None
  }

  function Count(s: State, key: Key): nat { if key in s.signed then s.signed[key] else 0 }

  function FlightStep(valid: Bundle -> bool, s: State, e: Event): Option<State> {
    match e
    case LooksAgain(f, ok) =>
      if At(s, f) == Some(Rechecks) then
        if !ok then Some(s.(group := Advance(s.group, f, Signs), faulty := true))
        else
          match Cached(valid, s, s.group.flights[f].key)
          case Some(b) => Some(s.(group := Advance(s.group, f, Returning(b))))
          case None => Some(s.(group := Advance(s.group, f, Signs)))
      else None
    case Signed(f, b) =>  // the signer fails, or what it returns is checked
      if At(s, f) == Some(Signs) then
        if b.None? || !valid(b.value) then Some(s.(group := Land(s.group, f, None)))
        else
          var key := s.group.flights[f].key;
          Some(s.(group := Advance(s.group, f, Caches(b.value)), signed := s.signed[key := Count(s, key) + 1],
                  known := s.known + {(key, b.value)}))
      else None
    case Stores(f, ok) =>
      if At(s, f).Some? && At(s, f).value.Caches? then
        var b := At(s, f).value.b;
        if ok then Some(s.(group := Advance(s.group, f, Returning(b)), cache := s.cache[s.group.flights[f].key := b]))
        else Some(s.(group := Advance(s.group, f, Returning(b)), faulty := true))
      else None
    case Returns(f) =>
      if At(s, f).Some? && At(s, f).value.Returning? then Some(s.(group := Land(s.group, f, Some(At(s, f).value.b))))
          else None
    case _ => None
  }

  function SetCaller(s: State, c: nat, pc: CallerPC): State
    requires c in s.callers
  {
    s.(callers := s.callers[c := Caller(s.callers[c].key, pc)])
  }

  function CallStep(valid: Bundle -> bool, s: State, e: Event): Option<State> {
    match e
    case Asks(c, key) => if c in s.callers then None else Some(s.(callers := s.callers[c := Caller(key, Calls)]))
    case LooksUp(c, ok) =>
      if c in s.callers && s.callers[c].pc.Calls? then
        if !ok then Some(SetCaller(s, c, Missed))  // the flight looks again
        else
          match Cached(valid, s, s.callers[c].key)
          case Some(b) => Some(SetCaller(s, c, Served(b)))
          case None => Some(SetCaller(s, c, Missed))
      else None
    case Joins(c, newId) =>
      if c in s.callers && s.callers[c].pc.Missed? then
        match Join(s.group, s.callers[c].key, newId, Rechecks)
        case None => None
        case Some((group, f)) => Some(SetCaller(s, c, Waits(f)).(group := group))
      else None
    case Receives(c) =>
      if c in s.callers && s.callers[c].pc.Waits? then
        var f := s.callers[c].pc.f;
        if f in s.group.flights && s.group.flights[f].Landed? then
          var r := s.group.flights[f].result;
          Some(SetCaller(s, c, if r.Some? then Served(r.value) else Failed))
        else None
      else None
    case GivesUp(c) =>
      if c in s.callers && s.callers[c].pc.Waits? then Some(SetCaller(s, c, Failed)) else None
    case OtherStores(key, bundle) =>
      if valid(bundle) then
        Some(s.(cache := s.cache[key := bundle], known := s.known + {(key, bundle)}))
      else None
    case _ => None
  }

  function Next(valid: Bundle -> bool, s: State, e: Event): Option<State> {
    match FlightStep(valid, s, e)
    case Some(t) => Some(t)
    case None => CallStep(valid, s, e)
  }

  ghost predicate Step(valid: Bundle -> bool, s: State, t: State) { exists e :: Next(valid, s, e) == Some(t) }

  function Start(cache: map<Key, Bundle>): State {
    State(cache, Group(map[], map[]), map[], map[], false, set k | k in cache :: (k, cache[k]))
  }

  /** A run starts with any cache contents. */
  ghost predicate Run(valid: Bundle -> bool, run: seq<State>) {
    && run != []
    && run[0] == Start(run[0].cache)
    && forall i :: 0 <= i < |run| - 1 ==> Step(valid, run[i], run[i + 1])
  }

  // ---------------------------------------------------------------- invariant

  predicate ValidAt(valid: Bundle -> bool, flight: Flight<Key, PC, Option<Bundle>>) {
    match flight
    case Landed(_, r) => r.Some? ==> valid(r.value)
    case Flying(_, pc) => (pc.Caches? || pc.Returning?) ==> valid(pc.b)
  }

  predicate CallerOK(valid: Bundle -> bool, s: State, caller: Caller) {
    match caller.pc
    case Waits(f) => f in s.group.flights && s.group.flights[f].key == caller.key
    case Served(b) => valid(b)
    case _ => true
  }

  /** Without faults a key was signed at most once, and then its bundle is cached or about to be; a flight that is about
  to sign found that it was not signed yet. */
  predicate SignedOnce(valid: Bundle -> bool, s: State, key: Key) {
    && Count(s, key) <= 1
    && (Count(s, key) == 1 ==> Cached(valid, s, key).Some? || Caching(s, key))
    && (key in s.group.active && At(s, s.group.active[key]) == Some(Signs) ==> Count(s, key) == 0)
  }

  predicate Caching(s: State, key: Key) {
    key in s.group.active && At(s, s.group.active[key]).Some? && At(s, s.group.active[key]).value.Caches?
  }

  ghost predicate Inv(valid: Bundle -> bool, s: State) {
    && Fits(s.group)
    && (forall f :: f in s.group.flights ==> ValidAt(valid, s.group.flights[f]))
    && (forall c :: c in s.callers ==> CallerOK(valid, s, s.callers[c]))
    && (!s.faulty ==> forall key :: SignedOnce(valid, s, key))
  }

  lemma FlightStepFits(valid: Bundle -> bool, s: State, e: Event)
    requires Fits(s.group) && FlightStep(valid, s, e).Some?
    ensures Fits(FlightStep(valid, s, e).value.group)
  {
    hide Fits, Land, Advance;
    var g := s.group;
    match e {
      case LooksAgain(f, ok) =>
        AdvanceFits(g, f, Signs);
        var b := Cached(valid, s, g.flights[f].key);
        if b.Some? {
          AdvanceFits(g, f, Returning(b.value));
        }
      case Signed(f, b) =>
        LandFits(g, f, None);
        if b.Some? {
          AdvanceFits(g, f, Caches(b.value));
        }
      case Stores(f, ok) => AdvanceFits(g, f, Returning(At(s, f).value.b));
      case Returns(f) => LandFits(g, f, Some(At(s, f).value.b));
    }
  }

  lemma FlightStepTargets(valid: Bundle -> bool, s: State, e: Event)
    requires FlightStep(valid, s, e).Some?
    ensures var t := FlightStep(valid, s, e).value;
      && t.callers == s.callers && e.f in s.group.flights && s.group.flights[e.f].Flying?
      && t.group.flights == s.group.flights[e.f := t.group.flights[e.f]]
      && t.group.flights[e.f].key == s.group.flights[e.f].key
  {
    hide Cached;
  }

  lemma TargetStaysValid(valid: Bundle -> bool, s: State, e: Event)
    requires FlightStep(valid, s, e).Some? && ValidAt(valid, s.group.flights[e.f])
    ensures var t := FlightStep(valid, s, e).value; ValidAt(valid, t.group.flights[e.f])
  {
  }

  lemma FlightStepValid(valid: Bundle -> bool, s: State, e: Event)
    requires FlightStep(valid, s, e).Some?
    requires forall f :: f in s.group.flights ==> ValidAt(valid, s.group.flights[f])
    ensures var t := FlightStep(valid, s, e).value;
      && (forall f :: f in t.group.flights ==> ValidAt(valid, t.group.flights[f]))
      && t.callers == s.callers
      && (forall f :: f in s.group.flights ==> f in t.group.flights && t.group.flights[f].key == s.group.flights[f].key)
  {
    hide FlightStep, ValidAt;
    FlightStepTargets(valid, s, e);
    TargetStaysValid(valid, s, e);
  }

  lemma FlightStepSignsOnce(valid: Bundle -> bool, s: State, e: Event, key: Key)
    requires Inv(valid, s) && FlightStep(valid, s, e).Some? && !FlightStep(valid, s, e).value.faulty
    ensures SignedOnce(valid, FlightStep(valid, s, e).value, key)
  {
    assert SignedOnce(valid, s, key);
    assert ValidAt(valid, s.group.flights[e.f]);
    hide CallerOK, ValidAt;
  }

  lemma FlightStepKeepsInv(valid: Bundle -> bool, s: State, e: Event)
    requires Inv(valid, s) && FlightStep(valid, s, e).Some?
    ensures Inv(valid, FlightStep(valid, s, e).value)
  {
    hide FlightStep, Fits, ValidAt, SignedOnce;
    FlightStepFits(valid, s, e);
    FlightStepValid(valid, s, e);
    var t := FlightStep(valid, s, e).value;
    if !t.faulty {
      forall key ensures SignedOnce(valid, t, key) {
        FlightStepSignsOnce(valid, s, e, key);
      }
    }
    forall c | c in t.callers ensures CallerOK(valid, t, t.callers[c]) {
      assert CallerOK(valid, s, s.callers[c]);
    }
  }

  lemma CallStepSignsOnce(valid: Bundle -> bool, s: State, e: Event, key: Key)
    requires Inv(valid, s) && CallStep(valid, s, e).Some? && !CallStep(valid, s, e).value.faulty
    ensures SignedOnce(valid, CallStep(valid, s, e).value, key)
  {
    assert SignedOnce(valid, s, key);
    hide CallerOK, ValidAt;
  }

  lemma CallStepCallers(valid: Bundle -> bool, s: State, e: Event)
    requires Inv(valid, s) && CallStep(valid, s, e).Some?
    ensures var t := CallStep(valid, s, e).value;
      && Fits(t.group)
      && (forall f :: f in t.group.flights ==> ValidAt(valid, t.group.flights[f]))
      && (forall c :: c in t.callers ==> CallerOK(valid, t, t.callers[c]))
  {
    hide Fits, Join, SignedOnce;
    match e {
      case Joins(c, newId) => JoinFits(s.group, s.callers[c].key, newId, Rechecks);
      case Receives(c) => assert ValidAt(valid, s.group.flights[s.callers[c].pc.f]);
      case _ =>
    }
  }

  lemma CallStepKeepsInv(valid: Bundle -> bool, s: State, e: Event)
    requires Inv(valid, s) && CallStep(valid, s, e).Some?
    ensures Inv(valid, CallStep(valid, s, e).value)
  {
    hide CallStep, Fits, ValidAt, SignedOnce, CallerOK;
    CallStepCallers(valid, s, e);
    var t := CallStep(valid, s, e).value;
    if !t.faulty {
      forall key ensures SignedOnce(valid, t, key) {
        CallStepSignsOnce(valid, s, e, key);
      }
    }
  }

  lemma {:induction false} RunKeepsInv(valid: Bundle -> bool, run: seq<State>, i: nat)
    requires Run(valid, run) && i < |run|
    ensures Inv(valid, run[i])
  {
    hide FlightStep, CallStep;
    if i > 0 {
      RunKeepsInv(valid, run, i - 1);
      assert Step(valid, run[i - 1], run[i - 1 + 1]);
      var e :| Next(valid, run[i - 1], e) == Some(run[i]);
      if FlightStep(valid, run[i - 1], e).Some? {
        FlightStepKeepsInv(valid, run[i - 1], e);
      } else {
        CallStepKeepsInv(valid, run[i - 1], e);
      }
    }
  }

  // ---------------------------------------------------------------- bundles belong to their key

  function BundleOf(flight: Flight<Key, PC, Option<Bundle>>): Option<Bundle> {
    match flight
    case Landed(_, r) => r
    case Flying(_, pc) => if pc.Caches? || pc.Returning? then Some(pc.b) else None
  }

  /** Whatever is cached for a key, held by a flight for it, or served to a caller of it, is a bundle known for it. */
  predicate Own(s: State) {
    && (forall k :: k in s.cache ==> (k, s.cache[k]) in s.known)
    && (forall f :: f in s.group.flights ==> OwnFlight(s, f))
    && (forall c :: c in s.callers && s.callers[c].pc.Served? ==> (s.callers[c].key, s.callers[c].pc.b) in s.known)
  }

  predicate OwnFlight(s: State, f: nat)
    requires f in s.group.flights
  {
    var flight := s.group.flights[f];
    BundleOf(flight).Some? ==> (flight.key, BundleOf(flight).value) in s.known
  }

  lemma FlightStepKnows(valid: Bundle -> bool, s: State, e: Event)
    requires FlightStep(valid, s, e).Some?
    ensures s.known <= FlightStep(valid, s, e).value.known
  {
  }

  lemma TargetStaysOwn(valid: Bundle -> bool, s: State, e: Event)
    requires FlightStep(valid, s, e).Some? && e.f in s.group.flights && OwnFlight(s, e.f)
    requires forall k :: k in s.cache ==> (k, s.cache[k]) in s.known
    ensures var t := FlightStep(valid, s, e).value; e.f in t.group.flights && OwnFlight(t, e.f)
  {
  }

  lemma CacheStaysOwn(valid: Bundle -> bool, s: State, e: Event)
    requires FlightStep(valid, s, e).Some? && e.f in s.group.flights && OwnFlight(s, e.f)
    requires forall k :: k in s.cache ==> (k, s.cache[k]) in s.known
    ensures var t := FlightStep(valid, s, e).value; forall k :: k in t.cache ==> (k, t.cache[k]) in t.known
  {
  }

  lemma FlightStepKeepsOwn(valid: Bundle -> bool, s: State, e: Event)
    requires Own(s) && FlightStep(valid, s, e).Some?
    ensures Own(FlightStep(valid, s, e).value)
  {
    FlightStepTargets(valid, s, e);
    FlightStepKnows(valid, s, e);
    TargetStaysOwn(valid, s, e);
    CacheStaysOwn(valid, s, e);
    hide FlightStep, BundleOf;
    var t := FlightStep(valid, s, e).value;
    forall f | f in t.group.flights ensures OwnFlight(t, f) {
      if f != e.f { assert OwnFlight(s, f); }
    }
  }

  lemma CallStepKeepsOwn(valid: Bundle -> bool, s: State, e: Event)
    requires Inv(valid, s) && Own(s) && CallStep(valid, s, e).Some?
    ensures Own(CallStep(valid, s, e).value)
  {
    hide Fits, SignedOnce, ValidAt;
    if e.Receives? {
      assert CallerOK(valid, s, s.callers[e.c]);
      assert OwnFlight(s, s.callers[e.c].pc.f);
    }
  }

  lemma {:induction false} RunKeepsOwn(valid: Bundle -> bool, run: seq<State>, i: nat)
    requires Run(valid, run) && i < |run|
    ensures Own(run[i])
  {
    hide FlightStep, CallStep, Inv;
    if i > 0 {
      RunKeepsOwn(valid, run, i - 1);
      RunKeepsInv(valid, run, i - 1);
      assert Step(valid, run[i - 1], run[i - 1 + 1]);
      hide Own;
      var e :| Next(valid, run[i - 1], e) == Some(run[i]);
      if FlightStep(valid, run[i - 1], e).Some? {
        FlightStepKeepsOwn(valid, run[i - 1], e);
      } else {
        CallStepKeepsOwn(valid, run[i - 1], e);
      }
    }
  }

  // ---------------------------------------------------------------- main results

  /** As long as no cache operation of a flight has failed, no key was signed twice, whatever the callers' own lookups
  did. */
  lemma SignsAtMostOnce(valid: Bundle -> bool, run: seq<State>, i: nat, key: Key)
    requires Run(valid, run) && i < |run| && !run[i].faulty
    ensures Count(run[i], key) <= 1
  {
    hide Step, Fits;
    RunKeepsInv(valid, run, i);
    assert SignedOnce(valid, run[i], key);
  }

  /** Whatever fails, what a caller is served is a valid bundle of its own key: one that was cached or stored for that
  key, or that the signer made for it. */
  lemma ServesValidBundles(valid: Bundle -> bool, run: seq<State>, i: nat, c: nat)
    requires Run(valid, run) && i < |run| && c in run[i].callers && run[i].callers[c].pc.Served?
    ensures valid(run[i].callers[c].pc.b)
    ensures (run[i].callers[c].key, run[i].callers[c].pc.b) in run[i].known
  {
    hide Step, Fits, SignedOnce;
    RunKeepsOwn(valid, run, i);
    RunKeepsInv(valid, run, i);
    assert CallerOK(valid, run[i], run[i].callers[c]);
  }

  /** In every state of every run, no two functions run for one key. */
  lemma OneFlightPerKey(valid: Bundle -> bool, run: seq<State>, i: nat, f: nat, g: nat)
    requires Run(valid, run) && i < |run|
    requires var flights := run[i].group.flights;
      f in flights && g in flights && flights[f].Flying? && flights[g].Flying? && flights[f].key == flights[g].key
    ensures f == g
  {
    hide Step, SignedOnce, CallerOK;
    RunKeepsInv(valid, run, i);
    AtMostOnePerKey(run[i].group, f, g);
  }

  // ---------------------------------------------------------------- a request that nobody disturbs

  /** The state after these events, one after the other. */
  function Perform(valid: Bundle -> bool, s: State, events: seq<Event>): Option<State>
    decreases |events|
  {
    if events == [] then Some(s)
    else
      match Next(valid, s, events[0])
      case None => None
      case Some(t) => Perform(valid, t, events[1..])
  }

  lemma PerformNext(valid: Bundle -> bool, s: State, e: Event, t: State, rest: seq<Event>)
    requires Next(valid, s, e) == Some(t)
    ensures Perform(valid, s, [e] + rest) == Perform(valid, t, rest)
  {
    hide Next;
    assert ([e] + rest)[0] == e && ([e] + rest)[1..] == rest;
  }

  /** A request whose bundle is cached is served that bundle. */
  lemma HitAlone(valid: Bundle -> bool, s: State, c: nat, key: Key)
    requires c !in s.callers && key in s.cache && valid(s.cache[key])
    ensures Perform(valid, s, [Asks(c, key)] + [LooksUp(c, true)])
         == Some(s.(callers := s.callers[c := Caller(key, Served(s.cache[key]))]))
  {
    var a := s.(callers := s.callers[c := Caller(key, Calls)]);
    var b := s.(callers := s.callers[c := Caller(key, Served(s.cache[key]))]);
    assert Next(valid, s, Asks(c, key)) == Some(a);
    assert a.callers[c := Caller(key, Served(s.cache[key]))] == b.callers;
    assert Next(valid, a, LooksUp(c, true)) == Some(b);
    hide Next;
    PerformNext(valid, s, Asks(c, key), a, [LooksUp(c, true)]);
    PerformNext(valid, a, LooksUp(c, true), b, []);
    assert [LooksUp(c, true)] + [] == [LooksUp(c, true)];
  }

  function Signing(c: nat, f: nat, b: Bundle): seq<Event> {
    [LooksAgain(f, true)] + ([Signed(f, Some(b))] + ([Stores(f, true)] + ([Returns(f)] + [Receives(c)])))
  }

  /** One whose bundle is not, is served the one that the signer makes for it, which then is cached. */
  lemma MissAlone(valid: Bundle -> bool, s: State, c: nat, key: Key, f: nat, b: Bundle) returns (t: State)
    requires c !in s.callers && Cached(valid, s, key).None? && key !in s.group.active && f !in s.group.flights
      && valid(b)
    ensures Perform(valid, s, [Asks(c, key)] + ([LooksUp(c, true)] + ([Joins(c, f)] + Signing(c, f, b)))) == Some(t)
    ensures c in t.callers && t.callers[c] == Caller(key, Served(b)) && t.cache == s.cache[key := b]
    ensures Count(t, key) == Count(s, key) + 1 && t.faulty == s.faulty && key !in t.group.active
  {
    var x := s.(callers := s.callers[c := Caller(key, Calls)]);
    var y := s.(callers := s.callers[c := Caller(key, Missed)]);
    var z := s.(callers := s.callers[c := Caller(key, Waits(f))],
                group := Group(s.group.active[key := f], s.group.flights[f := Flying(key, Rechecks)]));
    assert Next(valid, s, Asks(c, key)) == Some(x);
    assert x.callers[c := Caller(key, Missed)] == y.callers;
    assert Next(valid, x, LooksUp(c, true)) == Some(y);
    assert y.callers[c := Caller(key, Waits(f))] == z.callers;
    assert Next(valid, y, Joins(c, f)) == Some(z);
    t := SigningAlone(valid, z, c, key, f, b);
    hide Next, Perform;
    PerformNext(valid, s, Asks(c, key), x, [LooksUp(c, true)] + ([Joins(c, f)] + Signing(c, f, b)));
    PerformNext(valid, x, LooksUp(c, true), y, [Joins(c, f)] + Signing(c, f, b));
    PerformNext(valid, y, Joins(c, f), z, Signing(c, f, b));
  }

  lemma SigningAlone(valid: Bundle -> bool, s: State, c: nat, key: Key, f: nat, b: Bundle) returns (t: State)
    requires c in s.callers && s.callers[c] == Caller(key, Waits(f)) && Cached(valid, s, key).None? && valid(b)
    requires f in s.group.flights && s.group.flights[f] == Flying(key, Rechecks)
    ensures Perform(valid, s, Signing(c, f, b)) == Some(t)
    ensures c in t.callers && t.callers[c] == Caller(key, Served(b)) && t.cache == s.cache[key := b]
    ensures Count(t, key) == Count(s, key) + 1 && t.faulty == s.faulty && key !in t.group.active
  {
    var x := s.(group := Advance(s.group, f, Signs));
    var y := x.(group := Advance(x.group, f, Caches(b)), signed := s.signed[key := Count(s, key) + 1],
                known := s.known + {(key, b)});
    var z := y.(group := Advance(y.group, f, Returning(b)), cache := s.cache[key := b]);
    var u := z.(group := Land(z.group, f, Some(b)));
    t := u.(callers := u.callers[c := Caller(key, Served(b))]);
    assert Next(valid, s, LooksAgain(f, true)) == Some(x);
    assert Next(valid, x, Signed(f, Some(b))) == Some(y);
    assert Next(valid, y, Stores(f, true)) == Some(z);
    assert Next(valid, z, Returns(f)) == Some(u);
    assert Next(valid, u, Receives(c)) == Some(t);
    hide Next;
    PerformNext(valid, s, LooksAgain(f, true), x,
                [Signed(f, Some(b))] + ([Stores(f, true)] + ([Returns(f)] + [Receives(c)])));
    PerformNext(valid, x, Signed(f, Some(b)), y, [Stores(f, true)] + ([Returns(f)] + [Receives(c)]));
    PerformNext(valid, y, Stores(f, true), z, [Returns(f)] + [Receives(c)]);
    PerformNext(valid, z, Returns(f), u, [Receives(c)]);
    PerformNext(valid, u, Receives(c), t, []);
    assert [Receives(c)] + [] == [Receives(c)];
  }

  /** When the signer fails, or makes something that is no valid bundle, the caller is told so, nothing is cached or
  counted as signed, and the next request starts anew. */
  lemma SigningFailsAlone(valid: Bundle -> bool, s: State, c: nat, key: Key, f: nat, b: Option<Bundle>)
      returns (t: State)
    requires c in s.callers && s.callers[c] == Caller(key, Waits(f)) && (b.Some? ==> !valid(b.value))
    requires f in s.group.flights && s.group.flights[f] == Flying(key, Signs)
    ensures Perform(valid, s, [Signed(f, b)] + [Receives(c)]) == Some(t)
    ensures c in t.callers && t.callers[c] == Caller(key, Failed)
    ensures t.cache == s.cache && t.signed == s.signed && t.known == s.known && key !in t.group.active
  {
    var x := s.(group := Land(s.group, f, None));
    t := x.(callers := x.callers[c := Caller(key, Failed)]);
    assert Next(valid, s, Signed(f, b)) == Some(x);
    assert Next(valid, x, Receives(c)) == Some(t);
    hide Next;
    PerformNext(valid, s, Signed(f, b), x, [Receives(c)]);
    PerformNext(valid, x, Receives(c), t, []);
    assert [Receives(c)] + [] == [Receives(c)];
  }

  /** A bundle that cannot be cached is served all the same. */
  lemma CachingFailsAlone(valid: Bundle -> bool, s: State, c: nat, key: Key, f: nat, b: Bundle) returns (t: State)
    requires c in s.callers && s.callers[c] == Caller(key, Waits(f))
    requires f in s.group.flights && s.group.flights[f] == Flying(key, Caches(b))
    ensures Perform(valid, s, [Stores(f, false)] + ([Returns(f)] + [Receives(c)])) == Some(t)
    ensures c in t.callers && t.callers[c] == Caller(key, Served(b))
    ensures t.cache == s.cache && t.signed == s.signed && t.faulty && key !in t.group.active
  {
    var x := s.(group := Advance(s.group, f, Returning(b)), faulty := true);
    var y := x.(group := Land(x.group, f, Some(b)));
    t := y.(callers := y.callers[c := Caller(key, Served(b))]);
    assert Next(valid, s, Stores(f, false)) == Some(x);
    assert Next(valid, x, Returns(f)) == Some(y);
    assert Next(valid, y, Receives(c)) == Some(t);
    hide Next;
    PerformNext(valid, s, Stores(f, false), x, [Returns(f)] + [Receives(c)]);
    PerformNext(valid, x, Returns(f), y, [Receives(c)]);
    PerformNext(valid, y, Receives(c), t, []);
    assert [Receives(c)] + [] == [Receives(c)];
  }
}
