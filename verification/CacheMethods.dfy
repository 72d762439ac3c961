/** Get of SingleFlightCache as one caller runs it (internal/cache/single_flight.go). */
module VersionCacheMethods {
  import opened Strings
  import opened Flights
  import opened VersionCache

  class SingleFlightCache<V(!new, ==)> {
    const zero: V
    var now: State<V>
    var others: seq<seq<Event<V>>>  // what the other callers and the flights will do, one list per pause
    ghost var run: seq<State<V>>

    ghost predicate Good()
      reads this
    {
      Run(zero, run) && run[|run| - 1] == now
    }

    constructor (zero: V, others: seq<seq<Event<V>>>)
      ensures Good() && this.zero == zero && now.entries == map[] && now.callers == map[]
    {
      this.zero, this.others := zero, others;
      now := State(map[], {}, Group(map[], map[]), map[]);
      run := [State(map[], {}, Group(map[], map[]), map[])];
    }

    method Act(e: Event<V>)
      requires Good() && Next(zero, now, e).Some?
      modifies this
      ensures Good() && now == Next(zero, old(now), e).value && old(run) <= run
    {
      hide Next;
      ghost var before := run;
      now := Next(zero, now, e).value;
      run := run + [now];
      assert Step(zero, before[|before| - 1], now);
      forall i | 0 <= i < |run| - 1 ensures Step(zero, run[i], run[i + 1]) {
        if i < |before| - 1 {
          assert Step(zero, before[i], before[i + 1]);
        }
      }
    }

    /** The flights and the other callers take any number of steps; caller `c` waits. */
    method Interfere(c: nat)
      requires Good() && c in now.callers
      modifies this
      ensures Good() && old(run) <= run && c in now.callers && now.callers[c] == old(now.callers[c])
    {
      hide Next, Step;
      if others != [] {
        var events := others[0];
        others := others[1..];
        for i := 0 to |events|
          invariant Good() && old(run) <= run && c in now.callers && now.callers[c] == old(now.callers[c])
        {
          if !Acts(c, events[i]) && Next(zero, now, events[i]).Some? {
            OthersLeave(zero, now, events[i], c);
            Act(events[i]);
          }
        }
      }
    }

    /** A value that is returned is one that a completed fetch of the tag returned. */
    method Get(c: nat, tag: Tag, newId: nat) returns (got: Option<V>)
      requires Good() && c !in now.callers
      modifies this
      ensures Good() && old(run) <= run
      ensures got.Some? ==> (tag, got.value) in now.fetched
    {
      hide Run, FlightStep, Join;
      AskEffect(zero, now, c, tag);
      Act(Asks(c, tag));
      Try(c, LooksUp(c));
      Try(c, Joins(c, newId));
      Try(c, Receives(c));
      Try(c, ReadsBack(c));
      got := None;
      if now.callers[c].pc.Got? {
        GetReturnsFetched(zero, run, |run| - 1, c);
        got := Some(now.callers[c].pc.value);
      }
    }

    /** The caller's next action if it is possible now, and a pause. */
    method Try(c: nat, e: Event<V>)
      requires Good() && c in now.callers && Acts(c, e)
      modifies this
      ensures Good() && old(run) <= run && c in now.callers && now.callers[c].tag == old(now.callers[c].tag)
    {
      hide Run, Next;
      if Next(zero, now, e).Some? {
        TagKept(zero, now, e, c);
        Act(e);
      }
      Interfere(c);
    }
  }

  predicate Acts<V>(c: nat, e: Event<V>) {
    match e
    case Asks(d, _) => d == c
    case LooksUp(d) => d == c
    case Joins(d, _) => d == c
    case Receives(d) => d == c
    case ReadsBack(d) => d == c
    case GivesUp(d) => d == c
    case _ => false
  }

  lemma OthersLeave<V>(zero: V, s: State<V>, e: Event<V>, c: nat)
    requires !Acts(c, e) && Next(zero, s, e).Some? && c in s.callers
    ensures var t := Next(zero, s, e).value; c in t.callers && t.callers[c] == s.callers[c]
  {
    hide Join;
  }

  lemma TagKept<V>(zero: V, s: State<V>, e: Event<V>, c: nat)
    requires Next(zero, s, e).Some? && c in s.callers
    ensures var t := Next(zero, s, e).value; c in t.callers && t.callers[c].tag == s.callers[c].tag
  {
    hide Join;
  }

  lemma AskEffect<V>(zero: V, s: State<V>, c: nat, tag: Tag)
    requires c !in s.callers
    ensures Next(zero, s, Asks(c, tag)) == Some(s.(callers := s.callers[c := Caller(tag, Calls)]))
  {
  }
}

/** GenerateSignature as one request runs it (enterprise/assetsignature/writer.go). */
module SignatureMethods {
  import opened Strings
  import opened Flights
  import opened SignatureWriter

  class Writer {
    const valid: Bundle -> bool
    var now: State
    var others: seq<seq<Event>>  // what the other requests, the flights and other writers will do, one list per pause
    ghost var run: seq<State>

    ghost predicate Good()
      reads this
    {
      Run(valid, run) && run[|run| - 1] == now
    }

    constructor (valid: Bundle -> bool, cache: map<Key, Bundle>, others: seq<seq<Event>>)
      ensures Good() && this.valid == valid && now.cache == cache && now.callers == map[] && !now.faulty
    {
      this.valid, this.others := valid, others;
      now := Start(cache);
      run := [Start(cache)];
    }

    method Act(e: Event)
      requires Good() && Next(valid, now, e).Some?
      modifies this
      ensures Good() && now == Next(valid, old(now), e).value && old(run) <= run
    {
      hide Next;
      ghost var before := run;
      now := Next(valid, now, e).value;
      run := run + [now];
      assert Step(valid, before[|before| - 1], now);
      forall i | 0 <= i < |run| - 1 ensures Step(valid, run[i], run[i + 1]) {
        if i < |before| - 1 {
          assert Step(valid, before[i], before[i + 1]);
        }
      }
    }

    method Interfere(c: nat)
      requires Good() && c in now.callers
      modifies this
      ensures Good() && old(run) <= run && c in now.callers && now.callers[c] == old(now.callers[c])
    {
      hide Next, Step;
      if others != [] {
        var events := others[0];
        others := others[1..];
        for i := 0 to |events|
          invariant Good() && old(run) <= run && c in now.callers && now.callers[c] == old(now.callers[c])
        {
          if !Acts(c, events[i]) && Next(valid, now, events[i]).Some? {
            OthersLeave(valid, now, events[i], c);
            Act(events[i]);
          }
        }
      }
    }

    /** A bundle that is returned is valid and known for the key, and as long as no cache operation of a flight
    failed its key was signed once at most. */
    method GenerateSignature(c: nat, key: Key, newId: nat, cacheAnswers: bool) returns (bundle: Option<Bundle>)
      requires Good() && c !in now.callers
      modifies this
      ensures Good() && old(run) <= run
      ensures bundle.Some? ==> valid(bundle.value) && (key, bundle.value) in now.known
      ensures !now.faulty ==> Count(now, key) <= 1
    {
      hide Run, FlightStep, Join, Cached;
      AskEffect(valid, now, c, key);
      Act(Asks(c, key));
      Try(c, LooksUp(c, cacheAnswers));
      Try(c, Joins(c, newId));
      Try(c, Receives(c));
      bundle := None;
      if now.callers[c].pc.Served? {
        ServesValidBundles(valid, run, |run| - 1, c);
        bundle := Some(now.callers[c].pc.b);
      }
      if !now.faulty {
        SignsAtMostOnce(valid, run, |run| - 1, key);
      }
    }

    method Try(c: nat, e: Event)
      requires Good() && c in now.callers && Acts(c, e)
      modifies this
      ensures Good() && old(run) <= run && c in now.callers && now.callers[c].key == old(now.callers[c]).key
    {
      hide Run, Next;
      if Next(valid, now, e).Some? {
        CallerStays(valid, now, e, c);
        Act(e);
      }
      Interfere(c);
    }
  }

  predicate Acts(c: nat, e: Event) {
    match e
    case Asks(d, _) => d == c
    case LooksUp(d, _) => d == c
    case Joins(d, _) => d == c
    case Receives(d) => d == c
    case GivesUp(d) => d == c
    case _ => false
  }

  lemma OthersLeave(valid: Bundle -> bool, s: State, e: Event, c: nat)
    requires !Acts(c, e) && Next(valid, s, e).Some? && c in s.callers
    ensures var t := Next(valid, s, e).value; c in t.callers && t.callers[c] == s.callers[c]
  {
    hide Join, Cached;
  }

  lemma CallerStays(valid: Bundle -> bool, s: State, e: Event, c: nat)
    requires Next(valid, s, e).Some? && c in s.callers
    ensures var t := Next(valid, s, e).value; c in t.callers && t.callers[c].key == s.callers[c].key
  {
    hide Join, Cached;
  }

  lemma AskEffect(valid: Bundle -> bool, s: State, c: nat, key: Key)
    requires c !in s.callers
    ensures Next(valid, s, Asks(c, key)) == Some(s.(callers := s.callers[c := Caller(key, Calls)]))
  {
  }
}
