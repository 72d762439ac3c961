/** The scanner's operations as their goroutines run them (enterprise/scanner/builder/builder.go): initialisation, a
refresh, Stop and the scan of one request. Between any two of their actions the others may do anything; an operation
that has to wait and does not get its turn reports that it is still waiting. */
module ScannerMethods {
  import opened Strings
  import opened Scanner
  import opened ScannerCache

  /** Whose actions an operation keeps to itself while it pauses. */
  datatype Who = Initialiser | Refresher | Stopper | Request(c: Id) | Scan(f: Id)

  predicate Owns(who: Who, e: Event) {
    match (who, e)
    case (Initialiser, Init(_)) => true
    case (Refresher, Loop(_)) => true
    case (Stopper, Stop(_)) => true
    case (Request(c), Call(d, _)) => c == d
    case (Scan(f), Fly(g, _)) => f == g
    case _ => false
  }

  /** Its own program counter is where it left it. */
  predicate Kept(who: Who, s: State, t: State) {
    match who
    case Initialiser => t.ctl.init == s.ctl.init
    case Refresher => t.ctl.loop == s.ctl.loop
    case Stopper => t.ctl.stop == s.ctl.stop
    case Request(c) => c in s.work.callers ==> c in t.work.callers && t.work.callers[c] == s.work.callers[c]
    case Scan(f) => f in s.work.flights ==> f in t.work.flights && t.work.flights[f] == s.work.flights[f]
  }

  /** While the refresh loop holds the write lock nobody else touches the DB or what is recorded of it. */
  predicate DBKept(s: State, t: State) { LoopHasLock(s.ctl.loop) ==> t.db == s.db && t.hist == s.hist }

  lemma OthersKeep(who: Who, s: State, e: Event)
    requires !Owns(who, e) && Act(s, e).Some?
    ensures Kept(who, s, Act(s, e).value)
  {
    match e {
      case Init(i) =>
      case Loop(l) =>
      case Stop(p) =>
      case Call(c, ce) => CallKeeps(who, s, c, ce);
      case Fly(f, fe) => FlyKeeps(who, s, f, fe);
      case Evict(key) =>
    }
  }

  lemma CallKeeps(who: Who, s: State, c: Id, e: CallerEvent)
    requires !Owns(who, Call(c, e)) && CallerStep(s, c, e).Some?
    ensures Kept(who, s, CallerStep(s, c, e).value)
  {
  }

  lemma FlyKeeps(who: Who, s: State, f: Id, e: FlightEvent)
    requires !Owns(who, Fly(f, e)) && FlightStep(s, f, e).Some?
    ensures Kept(who, s, FlightStep(s, f, e).value)
  {
  }

  /** The initialiser is done and Stop waits for the loop, so that only the loop writes to the DB under its lock. */
  lemma LockKeepsDB(s: State, e: Event)
    requires Inv(s) && LoopHasLock(s.ctl.loop) && !e.Loop? && Act(s, e).Some?
    ensures Act(s, e).value.db == s.db && Act(s, e).value.hist == s.hist
  {
    hide Ownership, Readers, Publishing, Freshness;
  }

  /** From some state on, the cache has been cleared by a refresh. */
  ghost predicate ClearedSince(run: seq<State>, i: nat) { exists k :: i <= k < |run| && Clears(run, k) }

  class Builder {
    var now: State
    var others: seq<seq<Event>>  // what the others will do, one list per pause
    ghost var run: seq<State>

    ghost predicate Good()
      reads this
    {
      Run(run) && run[|run| - 1] == now
    }

    constructor (start: State, others: seq<seq<Event>>)
      requires Initial(start)
      ensures Good() && now == start
    {
      now, this.others := start, others;
      run := [start];
    }

    method Take(e: Event)
      requires Good() && Act(now, e).Some?
      modifies this`now, this`run
      ensures Good() && run == old(run) + [now] && now == Act(old(now), e).value.(clock := old(now).clock + 1)
    {
      hide Act, Initial;
      ghost var before := run;
      now := Act(now, e).value.(clock := now.clock + 1);
      run := run + [now];
      assert Step(before[|before| - 1], now);
      hide Step;
      forall i | 0 <= i < |run| - 1 ensures Step(run[i], run[i + 1]) {
        if i < |before| - 1 {
          assert Step(before[i], before[i + 1]);
        }
      }
    }

    method Pause(who: Who)
      requires Good()
      modifies this
      ensures Good() && old(run) <= run && Kept(who, old(now), now)
      ensures who.Refresher? ==> DBKept(old(now), now)
      ensures old(others) == [] ==> now == old(now) && others == []
    {
      hide Act, Initial, Step, Kept, DBKept, Inv;
      NothingKept(who, now);
      if others != [] {
        var events := others[0];
        others := others[1..];
        for i := 0 to |events|
          invariant Good() && old(run) <= run && Kept(who, old(now), now)
          invariant who.Refresher? ==> DBKept(old(now), now)
        {
          if !Owns(who, events[i]) && Act(now, events[i]).Some? {
            RunKeepsInv(run, |run| - 1);
            KeptOnwards(who, old(now), now, events[i]);
            Take(events[i]);
          }
        }
      }
    }

    /** A refresh of the loop, which holds no lock before it. It either fails before it touches the DB, or leaves
    nothing to scan with, or installs a DB that is at least as new as what it had put on disk; it fails only if the
    update or the opening of the DB does, and waits only for scans. */
    method Refresh(target: nat, updates: bool, reopened: nat, reopens: bool) returns (waiting: bool, ok: bool)
      requires Good() && now.ctl.loop.LoopUpdating?
      modifies this
      ensures Good() && old(run) <= run
      ensures !waiting && ok ==>
        && now.ctl.loop.LoopSleeping? && now.db.scanner.Some? && !now.hist.outage
        && now.hist.target == target && now.hist.installed >= target
        && ClearedSince(run, |old(run)|)
      ensures !waiting && !ok ==> now.ctl.loop.LoopRetrying?
      ensures !waiting ==> (ok <==> updates && reopens && reopened >= now.db.disk)
      ensures old(others) == [] && Free(old(now).ctl) && target >= old(now).db.disk ==> !waiting
    {
      hide Run, Initial, InitStep, StopStep, CallerStep, FlightStep, Inv;
      waiting, ok := false, false;
      if !updates {
        Take(Loop(UpdateFails));
        return;
      }
      if target < now.db.disk {
        return true, false;  // the disk never goes back
      }
      Take(Loop(Updates(target)));
      Pause(Refresher);
      if !Free(now.ctl) {
        return true, false;
      }
      CloseOld(target);
      ok := Reopen(target, reopened, reopens);
    }

    /** Takes the write lock and closes the DB that was used so far. */
    method CloseOld(target: nat)
      requires Good() && now.ctl.loop == LoopLocking(target) && Free(now.ctl)
      modifies this
      ensures Good() && old(run) <= run && now.ctl.loop.LoopEmpty? && now.ctl.loop.target == target
    {
      hide Run, Initial, InitStep, StopStep, CallerStep, FlightStep, Inv;
      Take(Loop(LoopLocks));
      Pause(Refresher);
      Take(Loop(LoopSwaps));
      Pause(Refresher);
      Take(Loop(LoopCloses));
      Pause(Refresher);
    }

    /** The second half of a refresh, under the write lock and with the old DB closed. */
    method Reopen(target: nat, reopened: nat, reopens: bool) returns (ok: bool)
      requires Good() && now.ctl.loop.LoopEmpty? && now.ctl.loop.target == target
      modifies this
      ensures Good() && old(run) <= run
      ensures ok ==>
        && now.ctl.loop.LoopSleeping? && now.db.scanner.Some? && !now.hist.outage
        && now.hist.target == target && now.hist.installed >= target
        && ClearedSince(run, |old(run)|)
      ensures !ok ==> now.ctl.loop.LoopRetrying?
      ensures ok <==> reopens && reopened >= now.db.disk
    {
      hide Run, Initial, InitStep, StopStep, CallerStep, FlightStep;
      if !reopens || reopened < now.db.disk {
        Take(Loop(ReopenFails));
        return false;
      }
      InstallReopened(target, reopened);
      ghost var cleared := |run|;
      Take(Loop(LoopClears));
      assert Clears(run, cleared);
      Pause(Refresher);
      RunKeepsInv(run, |run| - 1);
      assert now.hist.installed >= now.hist.target;
      Take(Loop(LoopUnlocks));
      assert Clears(run, cleared);
      ok := true;
    }

    method InstallReopened(target: nat, reopened: nat)
      requires Good() && now.ctl.loop.LoopEmpty? && now.ctl.loop.target == target && reopened >= now.db.disk
      modifies this
      ensures Good() && old(run) <= run
      ensures now.ctl.loop.LoopInstalled? && now.db.scanner.Some? && !now.hist.outage && now.hist.target == target
      ensures now.db.disk == reopened
    {
      hide Run, Initial, InitStep, StopStep, CallerStep, FlightStep;
      Take(Loop(Reopens(reopened)));
      Pause(Refresher);
      Take(Loop(LoopStores));
      Pause(Refresher);
    }

    /** Stops: when it returns no handle is open, whatever the others were doing. It waits only for those it must. */
    method Stop() returns (waiting: bool)
      requires Good() && now.ctl.stop.Running?
      modifies this
      ensures Good() && old(run) <= run
      ensures !waiting ==> now.ctl.stop.Stopped? && now.db.handles == map[]
      ensures
        && old(others) == [] && old(now).ctl.init.InitDone? && old(now).ctl.loop.LoopExited? && Free(old(now).ctl)
        ==> !waiting
    {
      hide Run, Initial, InitStep, LoopStep, CallerStep, FlightStep, Inv;
      Take(Event.Stop(StopCalled));
      Pause(Stopper);
      if !now.ctl.init.InitDone? { return true; }
      Take(Event.Stop(StopSeesInit));
      Pause(Stopper);
      if !now.ctl.loop.LoopExited? { return true; }
      Take(Event.Stop(StopSeesLoop));
      Pause(Stopper);
      if !Free(now.ctl) { return true; }
      Release();
      waiting := false;
    }

    /** Closes the DB that is left. */
    method Release()
      requires Good() && now.ctl.stop.StopLoopSeen? && Free(now.ctl)
      modifies this
      ensures Good() && old(run) <= run && now.ctl.stop.Stopped? && now.db.handles == map[]
    {
      hide Run, Initial, InitStep, LoopStep, CallerStep, FlightStep, Publishing, Freshness, Subjects;
      Take(Event.Stop(StopSwaps));
      Pause(Stopper);
      Take(Event.Stop(StopCloses));
      RunKeepsInv(run, |run| - 1);
      StoppedHasNoHandles(now);
    }

    /** One request for a report. It is refused for want of a scanner only if at some instant of the call no DB had ever
    been installed, the last refresh could not open its DB, or Stop had returned; and the document it is served is of a
    scan for its own hash, and of the installed DB or scanned before that DB's refresh took the lock. Undisturbed, it is
    served what is cached for its hash. */
    method Build(c: Id, key: Key, hashes: bool, newId: Id) returns (served: Option<Doc>, refused: Option<Refusal>)
      requires Good() && c !in now.work.callers
      modifies this
      ensures Good() && old(run) <= run && !(served.Some? && refused.Some?)
      ensures served.Some? ==> served.value.key == key
      ensures served.Some? ==>
        served.value.generation == now.hist.installed || served.value.scanned < now.hist.installedAt
      ensures refused.Some? && refused.value != OtherError ==> CauseSince(run, |old(run)| - 1)
      ensures old(others) == [] && Undisturbed(old(now)) && hashes && key in old(now).work.cache ==>
        served == Some(old(now).work.cache[key])
      ensures old(others) == [] && Undisturbed(old(now)) && !hashes ==> refused == Some(OtherError)
    {
      hide Run, Initial, Act, CallerStep, NoScanner, Undisturbed, SetCaller;
      served, refused := None, None;
      ghost var start, quiet := now, others == [];
      Ask(c, key, hashes);
      if now.work.callers[c].Refused? { return None, Some(now.work.callers[c].why); }
      if quiet && Undisturbed(start) && hashes && key in start.work.cache { HitAlone(start, c, key, newId); }
      Fetch(c, key, newId);
      if now.work.callers[c].Refused? { return None, Some(now.work.callers[c].why); }
      if now.work.callers[c].Served? {
        served := Some(now.work.callers[c].doc);
        OlderDocumentsWereScannedBeforeTheLock(run, |run| - 1, served.value);
        ServedIsOfItsKey(run, |run| - 1);
      }
    }

    /** A request up to its hash. */
    method Ask(c: Id, key: Key, hashes: bool)
      requires Good() && c !in now.work.callers
      modifies this
      ensures Good() && old(run) <= run && c in now.work.callers && AsksFor(now.work.callers[c], key)
      ensures now.work.callers[c].Refused? && now.work.callers[c].why != OtherError ==> CauseSince(run, |old(run)| - 1)
      ensures old(others) == [] && Undisturbed(old(now)) ==>
        && others == []
        && (hashes ==> now == SetCaller(old(now), c, Keyed(key)).(clock := old(now).clock + 3))
        && (hashes ==> now.work.callers[c] == Keyed(key))
        && (!hashes ==> now.work.callers[c] == Refused(OtherError))
    {
      hide Run, Initial, Act, CallerStep, NoScanner, Attempt, Undisturbed, SetCaller;
      ghost var start := now;
      AskedAlone(now, c, key);
      CallPossible(now, c, Calls);
      Attempted(now, c, Calls);
      Take(Call(c, Calls));
      Pause(Request(c));
      Admit(c);
      if !now.work.callers[c].Refused? {
        Try(c, key, if hashes then Hashes(key) else CallerFails);
      }
    }

    /** The rest of it: the cache, or a flight. */
    method Fetch(c: Id, key: Key, newId: Id)
      requires Good() && c in now.work.callers && !now.work.callers[c].Refused? && AsksFor(now.work.callers[c], key)
      modifies this
      ensures Good() && old(run) <= run && c in now.work.callers && AsksFor(now.work.callers[c], key)
      ensures now.work.callers[c].Refused? ==> now.work.callers[c].why == OtherError
      ensures old(others) == [] ==> now == Fetched(old(now), c, newId)
    {
      hide Run, Initial, Act, CallerStep, Attempt;
      Try(c, key, CacheHit);
      Try(c, key, CacheMiss);
      Try(c, key, Joins(newId));
      Try(c, key, Receives);
    }

    /** Waits for a writer to be done and then checks that there is a scanner. */
    method Admit(c: Id)
      requires Good() && c in now.work.callers && now.work.callers[c].Calling?
      modifies this
      ensures Good() && old(run) <= run && c in now.work.callers
      ensures now.work.callers[c].Refused? ==> CauseSince(run, |old(run)| - 1)
      ensures now.work.callers[c].Calling? || now.work.callers[c].Admitted? || now.work.callers[c].Refused?
      ensures old(others) == [] ==> others == [] && now == Attempt(old(now), c, ReadyForScan)
    {
      ghost var start: nat := |run| - 1;
      hide Run, Initial, Act, CallerStep, NoScanner, Inv, Attempt;
      Attempted(now, c, ReadyForScan);
      AdmissionPossible(now, c);
      if now.ctl.writer {
        return;
      }
      RunKeepsInv(run, start);
      RefusedForCause(now, c);
      Take(Call(c, ReadyForScan));
      Pause(Request(c));
      assert now.work.callers[c].Refused? ==> NoScanner(run[start]);
    }

    /** The next action of a request, if it is possible now, and a pause. */
    method Try(c: Id, key: Key, e: CallerEvent)
      requires Good() && c in now.work.callers && !now.work.callers[c].Refused? && !e.ReadyForScan?
      requires AsksFor(now.work.callers[c], key) && (e.Hashes? ==> e.key == key)
      modifies this
      ensures c in now.work.callers && AsksFor(now.work.callers[c], key)
      ensures Good() && old(run) <= run && c in now.work.callers
      ensures now.work.callers[c].Refused? ==> now.work.callers[c].why == OtherError && (e.CallerFails? || e.Receives?)
      ensures old(others) == [] ==> others == [] && now == Attempt(old(now), c, e)
    {
      hide Run, Initial, CallerStep, Attempt;
      Attempted(now, c, e);
      if Act(now, Call(c, e)).Some? {
        CallerStays(now, c, key, e);
        Take(Call(c, e));
      }
      Pause(Request(c));
    }
  }

  predicate NoScanner(s: State) { !s.hist.ever || s.hist.outage || s.ctl.stop.Stopped? }

  /** From some instant of the run on. */
  ghost predicate CauseSince(run: seq<State>, start: int) {
    exists k :: 0 <= k < |run| && start <= k && NoScanner(run[k])
  }

  /** There is a scanner, and nobody is about to replace it. */
  predicate Undisturbed(s: State) { !s.ctl.writer && s.db.scanner.Some? }

  /** What a request's action leads to, if it is possible. */
  function Attempt(s: State, c: Id, e: CallerEvent): State {
    match Act(s, Call(c, e))
    case Some(t) => t.(clock := s.clock + 1)
    case None => s
  }

  function Fetched(s: State, c: Id, newId: Id): State {
    Attempt(Attempt(Attempt(Attempt(s, c, CacheHit), c, CacheMiss), c, Joins(newId)), c, Receives)
  }

  lemma Attempted(s: State, c: Id, e: CallerEvent)
    ensures Attempt(s, c, e) == if Act(s, Call(c, e)).Some? then Act(s, Call(c, e)).value.(clock := s.clock + 1) else s
    ensures !e.Joins? && !e.ReadyForScan? && Act(s, Call(c, e)).None? ==> Attempt(s, c, e) == s
  {
    hide Act;
  }

  /** An undisturbed request is admitted, and then has its key or cannot have one. */
  lemma AskedAlone(s: State, c: Id, key: Key)
    requires c !in s.work.callers
    ensures Undisturbed(s) ==>
      var admitted := Attempt(Attempt(s, c, Calls), c, ReadyForScan);
      && c in admitted.work.callers && admitted.work.callers[c] == Admitted
      && Attempt(admitted, c, Hashes(key)) == SetCaller(s, c, Keyed(key)).(clock := s.clock + 3)
      && c in SetCaller(s, c, Keyed(key)).work.callers && SetCaller(s, c, Keyed(key)).work.callers[c] == Keyed(key)
      && c in Attempt(admitted, c, CallerFails).work.callers
      && Attempt(admitted, c, CallerFails).work.callers[c] == Refused(OtherError)
  {
    assert SetCaller(SetCaller(s, c, Calling), c, Admitted) == SetCaller(s, c, Admitted);
    assert SetCaller(SetCaller(s, c, Admitted), c, Keyed(key)) == SetCaller(s, c, Keyed(key));
  }

  /** With its key cached it is served, and nothing that it could still try changes that. */
  lemma HitAlone(s: State, c: Id, key: Key, newId: Id)
    requires c !in s.work.callers && key in s.work.cache
    ensures var keyed := SetCaller(s, c, Keyed(key)).(clock := s.clock + 3);
      var t := Fetched(keyed, c, newId);
      c in t.work.callers && t.work.callers[c] == Served(key, s.work.cache[key])
  {
    var keyed := SetCaller(s, c, Keyed(key)).(clock := s.clock + 3);
    var hit := SetCaller(keyed, c, Served(key, s.work.cache[key])).(clock := keyed.clock + 1);
    assert Attempt(keyed, c, CacheHit) == hit;
    assert Attempt(hit, c, CacheMiss) == hit;
    assert Attempt(hit, c, Joins(newId)) == hit;
    assert Attempt(hit, c, Receives) == hit;
  }

  lemma AdmissionPossible(s: State, c: Id)
    requires c in s.work.callers && s.work.callers[c].Calling?
    ensures !s.ctl.writer ==> Act(s, Call(c, ReadyForScan)).Some?
  {
  }

  lemma RefusedForCause(s: State, c: Id)
    requires Inv(s) && Act(s, Call(c, ReadyForScan)).Some?
    ensures c in Act(s, Call(c, ReadyForScan)).value.work.callers
    ensures Act(s, Call(c, ReadyForScan)).value.work.callers[c].Refused? <==> NoScanner(s)
  {
    hide Ownership, Readers, Freshness;
  }

  lemma NothingKept(who: Who, s: State)
    ensures Kept(who, s, s) && DBKept(s, s)
  {
  }

  lemma KeptOnwards(who: Who, start: State, s: State, e: Event)
    requires Inv(s) && Kept(who, start, s) && (who.Refresher? ==> DBKept(start, s))
    requires !Owns(who, e) && Act(s, e).Some?
    ensures var t := Act(s, e).value.(clock := s.clock + 1);
      Kept(who, start, t) && (who.Refresher? ==> DBKept(start, t))
  {
    hide Inv, Act;
    OthersKeep(who, s, e);
    if who.Refresher? && LoopHasLock(s.ctl.loop) {
      LockKeepsDB(s, e);
    }
  }

  lemma CallPossible(s: State, c: Id, e: CallerEvent)
    requires c !in s.work.callers && e.Calls?
    ensures Act(s, Call(c, e)).Some? && c in Act(s, Call(c, e)).value.work.callers
    ensures Act(s, Call(c, e)).value.work.callers[c].Calling?
  {
  }

  /** The caller has no hash yet, or that one. */
  predicate AsksFor(pc: CallerPC, key: Key) {
    match pc
    case Keyed(k) => k == key
    case Missed(k) => k == key
    case Waiting(k, _) => k == key
    case Served(k, _) => k == key
    case _ => true
  }

  lemma CallerStays(s: State, c: Id, key: Key, e: CallerEvent)
    requires CallerStep(s, c, e).Some? && c in s.work.callers
    requires AsksFor(s.work.callers[c], key) && (e.Hashes? ==> e.key == key)
    ensures var t := CallerStep(s, c, e).value;
      && c in t.work.callers && AsksFor(t.work.callers[c], key)
      && (!e.ReadyForScan? && t.work.callers[c].Refused? && !s.work.callers[c].Refused? ==>
            t.work.callers[c].why == OtherError && (e.CallerFails? || e.Receives?))
  {
  }
}
