/** Put and Get of the schematic factory as one request runs them: the retry loop over shared flights. */
module SchematicMethods {
  import opened Strings
  import opened Flights
  import opened SchematicFactory

  class Factory {
    const codec: Codec
    var now: State               // storage, the flights, and what every request is doing
    var others: seq<seq<Event>>  // what the other requests and the flights will do, one list per pause of this one
    ghost var run: seq<State>    // how `now` came about

    ghost predicate Good()
      reads this
    {
      RoundTrips(codec) && Run(codec, run) && run[|run| - 1] == now
    }

    constructor (codec: Codec, storage: Storage, others: seq<seq<Event>>)
      requires RoundTrips(codec) && Sound(codec, storage)
      ensures Good() && this.codec == codec && now.storage == storage && now.callers == map[]
    {
      this.codec, this.others := codec, others;
      now := State(storage, Group(map[], map[]), map[]);
      run := [State(storage, Group(map[], map[]), map[])];
    }

    method Act(e: Event)
      requires Good() && Next(codec, now, e).Some?
      modifies this
      ensures Good() && now == Next(codec, old(now), e).value && run == old(run) + [now]
    {
      hide Next, RoundTrips, Sound;
      ghost var before := run;
      now := Next(codec, now, e).value;
      run := run + [now];
      assert Step(codec, before[|before| - 1], now);
      forall i | 0 <= i < |run| - 1 ensures Step(codec, run[i], run[i + 1]) {
        if i < |before| - 1 {
          assert Step(codec, before[i], before[i + 1]);
        }
      }
    }

    /** The flights and the other requests take any number of steps; request `c` waits. */
    method Interfere(c: nat)
      requires Good() && c in now.callers
      modifies this
      ensures Good() && old(run) <= run && c in now.callers && now.callers[c] == old(now.callers[c])
    {
      hide Next, RoundTrips, Step;
      if others != [] {
        var events := others[0];
        others := others[1..];
        for i := 0 to |events|
          invariant Good() && old(run) <= run && c in now.callers && now.callers[c] == old(now.callers[c])
        {
          if !Acts(c, events[i]) && Next(codec, now, events[i]).Some? {
            OthersLeave(codec, now, events[i], c);
            Act(events[i]);
          }
        }
      }
    }

    /** The loop of Put. `newIds` number the flights it may start; when they are used up, it is still trying. A Put that
    is done without an error has its id in storage, and it never gives up because somebody else's read failed. */
    method Put(c: nat, cfg: Schematic, newIds: seq<nat>) returns (done: bool, err: Option<Error>)
      requires Good() && c !in now.callers
      modifies this
      ensures Good() && old(run) <= run
      ensures done && err == None ==> codec.id(cfg) in now.storage
      ensures done ==> err != Some(ReadFailed) && err != Some(UnexpectedType)
    {
      hide Run, RoundTrips, FlightStep, Join, Conclude;
      done, err := false, None;
      AskEffect(codec, now, c, Request.Put(cfg));
      Act(Asks(c, Request.Put(cfg)));
      for i := 0 to |newIds|
        invariant Good() && old(run) <= run
        invariant c in now.callers && now.callers[c].request == Request.Put(cfg)
      {
        if Next(codec, now, Joins(c, newIds[i])).Some? {
          RequestKept(codec, now, Joins(c, newIds[i]), c);
          Act(Joins(c, newIds[i]));
        }
        Interfere(c);
        if Next(codec, now, Receives(c)).Some? {
          RequestKept(codec, now, Receives(c), c);
          Act(Receives(c));
          if now.callers[c].pc.PutDone? {
            PutMeansStored(codec, run, |run| - 1, c);
            return true, now.callers[c].pc.err;
          }
        }
      }
    }

    method Get(c: nat, id: Id, newId: nat) returns (got: Option<Schematic>)
      requires Good() && c !in now.callers
      modifies this
      ensures Good() && old(run) <= run
      ensures got.Some? ==> codec.id(got.value) == id && id in now.storage
    {
      hide Run, RoundTrips, FlightStep, Join, Conclude;
      AskEffect(codec, now, c, Request.Get(id));
      Act(Asks(c, Request.Get(id)));
      if Next(codec, now, Joins(c, newId)).Some? {
        RequestKept(codec, now, Joins(c, newId), c);
        Act(Joins(c, newId));
      }
      Interfere(c);
      if Next(codec, now, Receives(c)).Some? {
        RequestKept(codec, now, Receives(c), c);
        Act(Receives(c));
        if now.callers[c].pc.GetDone? && now.callers[c].pc.got.Some? {
          GetMeansStored(codec, run, |run| - 1, c);
          return now.callers[c].pc.got;
        }
      }
      got := None;
    }
  }

  predicate Acts(c: nat, e: Event) {
    match e
    case Asks(d, _) => d == c
    case Joins(d, _) => d == c
    case Receives(d) => d == c
    case _ => false
  }

  lemma OthersLeave(codec: Codec, s: State, e: Event, c: nat)
    requires !Acts(c, e) && Next(codec, s, e).Some? && c in s.callers
    ensures var t := Next(codec, s, e).value; c in t.callers && t.callers[c] == s.callers[c]
  {
    hide Join, Conclude;
  }

  lemma AskEffect(codec: Codec, s: State, c: nat, request: Request)
    requires c !in s.callers
    ensures Next(codec, s, Asks(c, request)) == Some(s.(callers := s.callers[c := Caller(request, Calls)]))
  {
  }

  lemma RequestKept(codec: Codec, s: State, e: Event, c: nat)
    requires Next(codec, s, e).Some? && c in s.callers
    ensures var t := Next(codec, s, e).value; c in t.callers && t.callers[c].request == s.callers[c].request
  {
    hide Join, Conclude;
  }
}
