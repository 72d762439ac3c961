/** SingleFlightCache (internal/cache/single_flight.go): values fetched once in a while and kept for good, by tag.

Every lookup, store and read-back of the entries happens under the mutex and is one action here. */
module VersionCache {
  import opened Strings
  import opened Flights

  type Tag = string

  datatype PC<V> = Fetching | Storing(item: V) | Stored(item: V)

  datatype CallerPC<V> = Calls | Missed | Waits(f: nat) | Delivered | Got(value: V) | Failed
  datatype Caller<V> = Caller(tag: Tag, pc: CallerPC<V>)

  /** `fetched` are the values that fetches of a tag have returned so far. */
  datatype State<V(==)> = State(
    entries: map<Tag, V>, fetched: set<(Tag, V)>, group: Group<Tag, PC<V>, Option<V>>, callers: map<nat, Caller<V>>)

  datatype Event<V> =
    | Asks(c: nat, tag: Tag) | LooksUp(c: nat) | Joins(c: nat, newId: nat) | Receives(c: nat) | ReadsBack(c: nat)
        | GivesUp(c: nat)
    | Fetches(f: nat, item: Option<V>) | Stores(f: nat) | Returns(f: nat)

  function At<V(==)>(s: State<V>, f: nat): Option<PC<V>> {
    if f in s.group.flights && s.group.flights[f].Flying? then Some(s.group.flights[f].pc) else None
  }

  function FlightStep<V(==)>(s: State<V>, e: Event<V>): Option<State<V>> {
    match e
    case Fetches(f, item) =>
      if At(s, f).Some? && At(s, f).value.Fetching? then
        match item
        case None => Some(s.(group := Land(s.group, f, None)))
        case Some(v) =>
          Some(s.(group := Advance(s.group, f, Storing(v)), fetched := s.fetched + {(s.group.flights[f].key, v)}))
      else None
    case Stores(f) =>
      if At(s, f).Some? && At(s, f).value.Storing? then
        var item := At(s, f).value.item;
        Some(s.(group := Advance(s.group, f, Stored(item)), entries := s.entries[s.group.flights[f].key := item]))
      else None
    case Returns(f) =>
      if At(s, f).Some? && At(s, f).value.Stored? then
        Some(s.(group := Land(s.group, f, Some(At(s, f).value.item))))
      else None
    case _ => None
  }

  function SetCaller<V(==)>(s: State<V>, c: nat, pc: CallerPC<V>): State<V>
    requires c in s.callers
  {
    s.(callers := s.callers[c := Caller(s.callers[c].tag, pc)])
  }

  /** `zero` is the zero value, which reading an absent entry would yield. */
  function CallStep<V(==)>(zero: V, s: State<V>, e: Event<V>): Option<State<V>> {
    match e
    case Asks(c, tag) => if c in s.callers then None else Some(s.(callers := s.callers[c := Caller(tag, Calls)]))
    case LooksUp(c) =>
      if c in s.callers && s.callers[c].pc.Calls? then
        var tag := s.callers[c].tag;
        Some(SetCaller(s, c, if tag in s.entries then Got(s.entries[tag]) else Missed))
      else None
    case Joins(c, newId) =>
      if c in s.callers && s.callers[c].pc.Missed? then
        match Join(s.group, s.callers[c].tag, newId, Fetching)
        case None => None
        case Some((group, f)) => Some(SetCaller(s, c, Waits(f)).(group := group))
      else None
    case Receives(c) =>
      if c in s.callers && s.callers[c].pc.Waits? then
        var f := s.callers[c].pc.f;
        if f in s.group.flights && s.group.flights[f].Landed? then
          Some(SetCaller(s, c, if s.group.flights[f].result.Some? then Delivered else Failed))
        else None
      else None
    case ReadsBack(c) =>
      if c in s.callers && s.callers[c].pc.Delivered? then
        var tag := s.callers[c].tag;
        Some(SetCaller(s, c, Got(if tag in s.entries then s.entries[tag] else zero)))
      else None
    case GivesUp(c) =>
      if c in s.callers && s.callers[c].pc.Waits? then Some(SetCaller(s, c, Failed)) else None
    case _ => None
  }

  function Next<V(==)>(zero: V, s: State<V>, e: Event<V>): Option<State<V>> {
    match FlightStep(s, e)
    case Some(t) => Some(t)
    case None => CallStep(zero, s, e)
  }

  ghost predicate Step<V(!new)>(zero: V, s: State<V>, t: State<V>) { exists e :: Next(zero, s, e) == Some(t) }

  ghost predicate Run<V(!new)>(zero: V, run: seq<State<V>>) {
    && run != []
    && run[0] == State(map[], {}, Group(map[], map[]), map[])
    && forall i :: 0 <= i < |run| - 1 ==> Step(zero, run[i], run[i + 1])
  }

  // ---------------------------------------------------------------- invariant

  predicate FlightOK<V(==)>(s: State<V>, flight: Flight<Tag, PC<V>, Option<V>>) {
    match flight
    case Landed(key, r) => r.Some? ==> key in s.entries
    case Flying(key, pc) =>
      match pc
      case Fetching => true
      case Storing(item) => (key, item) in s.fetched
      case Stored(item) => key in s.entries
  }

  predicate CallerOK<V(==)>(s: State<V>, caller: Caller<V>) {
    match caller.pc
    case Waits(f) => f in s.group.flights && s.group.flights[f].key == caller.tag
    case Delivered => caller.tag in s.entries
    case Got(v) => (caller.tag, v) in s.fetched
    case _ => true
  }

  ghost predicate Inv<V>(s: State<V>) {
    && Fits(s.group)
    && (forall tag :: tag in s.entries ==> (tag, s.entries[tag]) in s.fetched)
    && (forall f :: f in s.group.flights ==> FlightOK(s, s.group.flights[f]))
    && (forall c :: c in s.callers ==> CallerOK(s, s.callers[c]))
  }

  /** Entries and fetched values only grow, flights keep their keys and landed ones their results. */
  predicate Grows<V(==)>(s: State<V>, t: State<V>) {
    && s.entries.Keys <= t.entries.Keys && s.fetched <= t.fetched
    && (forall f :: f in s.group.flights ==> f in t.group.flights && t.group.flights[f].key == s.group.flights[f].key)
  }

  lemma FlightStepFits<V(!new)>(s: State<V>, e: Event<V>)
    requires Fits(s.group) && FlightStep(s, e).Some?
    ensures Fits(FlightStep(s, e).value.group)
  {
    hide Fits, Land, Advance;
    var g := s.group;
    match e {
      case Fetches(f, item) =>
        LandFits(g, f, None);
        if item.Some? {
          AdvanceFits(g, f, Storing(item.value));
        }
      case Stores(f) => AdvanceFits(g, f, Stored(At(s, f).value.item));
      case Returns(f) => LandFits(g, f, Some(At(s, f).value.item));
    }
  }

  lemma FlightStepEffect<V(!new)>(s: State<V>, e: Event<V>)
    requires Inv(s) && FlightStep(s, e).Some?
    ensures var t := FlightStep(s, e).value;
      && Grows(s, t) && t.callers == s.callers
      && (forall tag :: tag in t.entries ==> (tag, t.entries[tag]) in t.fetched)
      && (forall f :: f in t.group.flights ==>
          f in s.group.flights && (f != e.f ==> t.group.flights[f] == s.group.flights[f]))
      && FlightOK(t, t.group.flights[e.f])
  {
    assert FlightOK(s, s.group.flights[e.f]);
    hide Fits;
  }

  lemma FlightStepKeepsInv<V(!new)>(s: State<V>, e: Event<V>)
    requires Inv(s) && FlightStep(s, e).Some?
    ensures Inv(FlightStep(s, e).value)
  {
    FlightStepEffect(s, e);
    FlightStepFits(s, e);
    hide FlightStep, Fits;
    var t := FlightStep(s, e).value;
    forall f | f in t.group.flights ensures FlightOK(t, t.group.flights[f]) {
      if f != e.f {
        assert FlightOK(s, s.group.flights[f]);
      }
    }
    forall c | c in t.callers ensures CallerOK(t, t.callers[c]) {
      assert CallerOK(s, s.callers[c]);
    }
  }

  lemma CallStepKeepsInv<V(!new)>(zero: V, s: State<V>, e: Event<V>)
    requires Inv(s) && CallStep(zero, s, e).Some?
    ensures Inv(CallStep(zero, s, e).value)
  {
    hide Fits, Join;
    match e {
      case Joins(c, newId) =>
        JoinFits(s.group, s.callers[c].tag, newId, PC<V>.Fetching);
      case Receives(c) =>
        assert CallerOK(s, s.callers[c]);
        assert FlightOK(s, s.group.flights[s.callers[c].pc.f]);
      case _ =>
    }
  }

  lemma {:induction false} RunKeepsInv<V(!new)>(zero: V, run: seq<State<V>>, i: nat)
    requires Run(zero, run) && i < |run|
    ensures Inv(run[i])
  {
    hide FlightStep, CallStep;
    if i > 0 {
      RunKeepsInv(zero, run, i - 1);
      assert Step(zero, run[i - 1], run[i - 1 + 1]);
      var e :| Next(zero, run[i - 1], e) == Some(run[i]);
      if FlightStep(run[i - 1], e).Some? {
        FlightStepKeepsInv(run[i - 1], e);
      } else {
        CallStepKeepsInv(zero, run[i - 1], e);
      }
    }
  }

  // ---------------------------------------------------------------- main results

  /** A Get that succeeds returns what some completed fetch of its tag returned, never the zero value of an absent
  entry. */
  lemma GetReturnsFetched<V(!new)>(zero: V, run: seq<State<V>>, i: nat, c: nat)
    requires Run(zero, run) && i < |run| && c in run[i].callers && run[i].callers[c].pc.Got?
    ensures (run[i].callers[c].tag, run[i].callers[c].pc.value) in run[i].fetched
  {
    hide Step, Fits;
    RunKeepsInv(zero, run, i);
    assert CallerOK(run[i], run[i].callers[c]);
  }

  /** The entries change only when a fetch that succeeded stores its value, which then is the entry of its tag: a fetch
  that fails, and every step of a caller, leaves them as they are. */
  lemma OnlyFetchesChangeEntries<V(!new)>(zero: V, s: State<V>, e: Event<V>)
    requires Inv(s) && Next(zero, s, e).Some?
    ensures Next(zero, s, e).value.entries != s.entries ==>
      exists tag, v :: (tag, v) in s.fetched && Next(zero, s, e).value.entries == s.entries[tag := v]
  {
    hide Fits, Join;
    var t := Next(zero, s, e).value;
    if e.Stores? && FlightStep(s, e).Some? {
      assert FlightOK(s, s.group.flights[e.f]);
      var item := At(s, e.f).value.item;
      assert (s.group.flights[e.f].key, item) in s.fetched;
      assert t.entries == s.entries[s.group.flights[e.f].key := item];
    } else {
      assert t.entries == s.entries;
    }
  }

  /** In every state of every run, no two fetches run for one tag. */
  lemma OneFetchPerTag<V(!new)>(zero: V, run: seq<State<V>>, i: nat, f: nat, g: nat)
    requires Run(zero, run) && i < |run|
    requires var flights := run[i].group.flights;
      f in flights && g in flights && flights[f].Flying? && flights[g].Flying? && flights[f].key == flights[g].key
    ensures f == g
  {
    hide Step, FlightOK, CallerOK;
    RunKeepsInv(zero, run, i);
    AtMostOnePerKey(run[i].group, f, g);
  }

  // ---------------------------------------------------------------- a request that nobody disturbs

  /** The state after these events, one after the other. */
  function Perform<V(==)>(zero: V, s: State<V>, events: seq<Event<V>>): Option<State<V>>
    decreases |events|
  {
    if events == [] then Some(s)
    else
      match Next(zero, s, events[0])
      case None => None
      case Some(t) => Perform(zero, t, events[1..])
  }

  lemma PerformNext<V>(zero: V, s: State<V>, e: Event<V>, t: State<V>, rest: seq<Event<V>>)
    requires Next(zero, s, e) == Some(t)
    ensures Perform(zero, s, [e] + rest) == Perform(zero, t, rest)
  {
    hide Next;
    assert ([e] + rest)[0] == e && ([e] + rest)[1..] == rest;
  }

  /** An undisturbed Get of a tag that has an entry returns that entry. */
  lemma HitAlone<V>(zero: V, s: State<V>, c: nat, tag: Tag)
    requires c !in s.callers && tag in s.entries
    ensures Perform(zero, s, [Asks(c, tag)] + [LooksUp(c)])
         == Some(s.(callers := s.callers[c := Caller(tag, Got(s.entries[tag]))]))
  {
    var a := s.(callers := s.callers[c := Caller(tag, CallerPC<V>.Calls)]);
    var b := s.(callers := s.callers[c := Caller(tag, Got(s.entries[tag]))]);
    var events: seq<Event<V>> := [LooksUp(c)];
    assert Next(zero, s, Asks(c, tag)) == Some(a);
    assert a.callers[c := Caller(tag, Got(s.entries[tag]))] == b.callers;
    assert Next(zero, a, LooksUp(c)) == Some(b);
    PerformNext(zero, s, Asks(c, tag), a, events);
    PerformNext(zero, a, LooksUp(c), b, []);
    assert events + [] == events;
  }

  /** A Get whose fetch fails does so too, leaves the entries alone, and the next one starts anew. */
  lemma FetchFailsAlone<V(!new)>(zero: V, s: State<V>, c: nat, tag: Tag, f: nat) returns (t: State<V>)
    requires c in s.callers && s.callers[c] == Caller(tag, CallerPC<V>.Waits(f)) && f in s.group.flights
    requires s.group.flights[f] == Flying(tag, PC<V>.Fetching)
    ensures Perform(zero, s, [Fetches(f, None)] + [Receives(c)]) == Some(t)
    ensures c in t.callers && t.callers[c] == Caller(tag, CallerPC<V>.Failed)
    ensures t.entries == s.entries && t.fetched == s.fetched && tag !in t.group.active
  {
    var a := s.(group := Land(s.group, f, None));
    t := a.(callers := a.callers[c := Caller(tag, CallerPC<V>.Failed)]);
    var events: seq<Event<V>> := [Receives(c)];
    assert Next(zero, s, Fetches(f, None)) == Some(a);
    assert Next(zero, a, Receives(c)) == Some(t);
    hide Next;
    PerformNext(zero, s, Fetches(f, None), a, events);
    PerformNext(zero, a, Receives(c), t, []);
    assert events + [] == events;
  }

  /** The events of a Get that finds no entry and fetches one. */
  function Missing<V>(c: nat, tag: Tag, f: nat, item: V): seq<Event<V>> {
    [Asks(c, tag)] + ([LooksUp(c)] + ([Joins(c, f)] + Delivering(c, f, item)))
  }

  function Delivering<V>(c: nat, f: nat, item: V): seq<Event<V>> {
    [Fetches(f, Some(item))] + ([Stores(f)] + ([Returns(f)] + ([Receives(c)] + [ReadsBack(c)])))
  }

  /** An undisturbed Get of a tag without an entry returns what is fetched, which then is the tag's entry. */
  lemma MissAlone<V(!new)>(zero: V, s: State<V>, c: nat, tag: Tag, f: nat, item: V) returns (t: State<V>)
    requires c !in s.callers && tag !in s.entries && tag !in s.group.active && f !in s.group.flights
    ensures Perform(zero, s, Missing(c, tag, f, item)) == Some(t)
    ensures c in t.callers && t.callers[c] == Caller(tag, Got(item)) && t.entries == s.entries[tag := item]
    ensures tag !in t.group.active
  {
    var a := s.(callers := s.callers[c := Caller(tag, CallerPC<V>.Calls)]);
    var b := s.(callers := s.callers[c := Caller(tag, CallerPC<V>.Missed)]);
    var d := State(s.entries, s.fetched,
                   Group(s.group.active[tag := f], s.group.flights[f := Flying(tag, PC<V>.Fetching)]),
                   s.callers[c := Caller(tag, CallerPC<V>.Waits(f))]);
    assert Next(zero, s, Asks(c, tag)) == Some(a);
    assert a.callers[c := Caller(tag, CallerPC<V>.Missed)] == b.callers;
    assert Next(zero, a, LooksUp(c)) == Some(b);
    assert b.callers[c := Caller(tag, CallerPC<V>.Waits(f))] == d.callers;
    assert Next(zero, b, Joins(c, f)) == Some(d);
    t := DeliveringAlone(zero, d, c, tag, f, item);
    hide Next, Perform;
    PerformNext(zero, s, Asks(c, tag), a, [LooksUp(c)] + ([Joins(c, f)] + Delivering(c, f, item)));
    PerformNext(zero, a, LooksUp(c), b, [Joins(c, f)] + Delivering(c, f, item));
    PerformNext(zero, b, Joins(c, f), d, Delivering(c, f, item));
  }

  lemma DeliveringAlone<V(!new)>(zero: V, s: State<V>, c: nat, tag: Tag, f: nat, item: V) returns (t: State<V>)
    requires c in s.callers && s.callers[c] == Caller(tag, CallerPC<V>.Waits(f)) && f in s.group.flights
    requires s.group.flights[f] == Flying(tag, PC<V>.Fetching)
    ensures Perform(zero, s, Delivering(c, f, item)) == Some(t)
    ensures c in t.callers && t.callers[c] == Caller(tag, Got(item)) && t.entries == s.entries[tag := item]
    ensures tag !in t.group.active
  {
    var a := s.(group := Advance(s.group, f, Storing(item)), fetched := s.fetched + {(tag, item)});
    var b := a.(group := Advance(a.group, f, Stored(item)), entries := s.entries[tag := item]);
    var d := b.(group := Land(b.group, f, Some(item)));
    var e := d.(callers := d.callers[c := Caller(tag, CallerPC<V>.Delivered)]);
    t := e.(callers := e.callers[c := Caller(tag, Got(item))]);
    assert Next(zero, s, Fetches(f, Some(item))) == Some(a);
    assert Next(zero, a, Stores(f)) == Some(b);
    assert Next(zero, b, Returns(f)) == Some(d);
    assert Next(zero, d, Receives(c)) == Some(e);
    assert Next(zero, e, ReadsBack(c)) == Some(t);
    hide Next;
    PerformNext(zero, s, Fetches(f, Some(item)), a, [Stores(f)] + ([Returns(f)] + ([Receives(c)] + [ReadsBack(c)])));
    PerformNext(zero, a, Stores(f), b, [Returns(f)] + ([Receives(c)] + [ReadsBack(c)]));
    PerformNext(zero, b, Returns(f), d, [Receives(c)] + [ReadsBack(c)]);
    PerformNext(zero, d, Receives(c), e, [ReadsBack(c)]);
    PerformNext(zero, e, ReadsBack(c), t, []);
    var last: seq<Event<V>> := [ReadsBack(c)];
    assert last + [] == last;
  }
}
