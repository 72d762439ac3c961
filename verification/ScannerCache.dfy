/** What a refresh leaves in the cache of the scanner (enterprise/scanner/builder/builder.go). */
module ScannerCache {
  import opened Strings
  import opened Scanner

  /** A flight has already scanned this document. */
  ghost predicate Carries(w: Work, doc: Doc) { exists f :: f in w.flights && DocOf(w.flights[f].pc) == Some(doc) }

  ghost predicate Holds(w: Work, doc: Doc) { (exists k :: k in w.cache && w.cache[k] == doc) || Carries(w, doc) }

  /** No document comes into the cache or a flight but by a scan that returns, or out of a flight. */
  lemma StepScans(s: State, t: State, doc: Doc)
    requires Step(s, t) && Holds(t.work, doc)
    ensures Holds(s.work, doc) || doc.scanned == s.clock
  {
    hide Holds, FlightStep, CallerStep;
    var e :| Act(s, e).Some? && t == Act(s, e).value.(clock := s.clock + 1);
    match e
    case Fly(f, fe) => FlightScans(s, f, fe, doc);
    case Call(c, ce) => CallerScans(s, c, ce, doc);
    case _ => FewerHeld(s.work, t.work, doc);
  }

  lemma FewerHeld(before: Work, after: Work, doc: Doc)
    requires after.flights == before.flights && Holds(after, doc)
    requires forall k :: k in after.cache ==> k in before.cache && after.cache[k] == before.cache[k]
    ensures Holds(before, doc)
  {
  }

  lemma FlightScans(s: State, f: Id, e: FlightEvent, doc: Doc)
    requires FlightStep(s, f, e).Some? && Holds(FlightStep(s, f, e).value.work, doc)
    ensures Holds(s.work, doc) || doc.scanned == s.clock
  {
    var w := FlightStep(s, f, e).value.work;
    assert forall g :: g in w.flights ==> g in s.work.flights && (g != f ==> w.flights[g] == s.work.flights[g]);
    assert f in s.work.flights;
    assert DocOf(w.flights[f].pc) == Some(doc) ==> DocOf(s.work.flights[f].pc) == Some(doc) || doc.scanned == s.clock;
    assert forall k :: k in w.cache ==>
      (k in s.work.cache && w.cache[k] == s.work.cache[k]) || Some(w.cache[k]) == DocOf(s.work.flights[f].pc);
  }

  lemma CallerScans(s: State, c: Id, e: CallerEvent, doc: Doc)
    requires CallerStep(s, c, e).Some? && Holds(CallerStep(s, c, e).value.work, doc)
    ensures Holds(s.work, doc)
  {
    var w := CallerStep(s, c, e).value.work;
    assert w.cache == s.work.cache;
    assert forall g :: g in w.flights ==>
      (g in s.work.flights && w.flights[g] == s.work.flights[g]) || DocOf(w.flights[g].pc) == None;
  }

  lemma {:induction false} OnlyScansAdd(run: seq<State>, i: nat, j: nat, doc: Doc)
    requires Run(run) && i <= j < |run| && Holds(run[j].work, doc)
    ensures Holds(run[i].work, doc) || doc.scanned >= run[i].clock
  {
    hide Step, Holds, Initial;
    if i < j {
      assert Step(run[j - 1], run[j]);
      StepScans(run[j - 1], run[j], doc);
      if Holds(run[j - 1].work, doc) {
        OnlyScansAdd(run, i, j - 1, doc);
      } else {
        ClockGrows(run, i, j - 1);
      }
    }
  }

  lemma {:induction false} ClockGrows(run: seq<State>, i: nat, j: nat)
    requires Run(run) && i <= j < |run|
    ensures run[i].clock <= run[j].clock
  {
    if i < j {
      ClockGrows(run, i, j - 1);
      assert Step(run[j - 1], run[j]);
    }
  }

  /** The step by which a refresh clears the cache. */
  ghost predicate Clears(run: seq<State>, i: nat) {
    0 < i < |run| && run[i - 1].ctl.loop.LoopInstalled? && run[i].ctl.loop.LoopCleared?
  }

  /** Whatever is cached or held by a flight after a refresh has cleared the cache was scanned since, or is the result
  of a scan that had returned by then: nothing comes back that had only been cached. */
  lemma ClearedForGood(run: seq<State>, i: nat, j: nat)
    requires Run(run) && Clears(run, i) && i <= j < |run|
    ensures run[i].work.cache == map[]
    ensures forall k :: k in run[j].work.cache ==>
      run[j].work.cache[k].scanned >= run[i].clock || Carries(run[i].work, run[j].work.cache[k])
    ensures forall f, doc :: f in run[j].work.flights && DocOf(run[j].work.flights[f].pc) == Some(doc) ==>
      doc.scanned >= run[i].clock || Carries(run[i].work, doc)
  {
    hide Initial;
    assert Step(run[i - 1], run[i]);
    CacheIsCleared(run[i - 1], run[i]);
    hide Step, Run;
    forall k | k in run[j].work.cache
      ensures run[j].work.cache[k].scanned >= run[i].clock || Carries(run[i].work, run[j].work.cache[k])
    {
      OnlyScansAdd(run, i, j, run[j].work.cache[k]);
    }
    forall f, doc | f in run[j].work.flights && DocOf(run[j].work.flights[f].pc) == Some(doc)
      ensures doc.scanned >= run[i].clock || Carries(run[i].work, doc)
    {
      assert Holds(run[j].work, doc);
      OnlyScansAdd(run, i, j, doc);
    }
  }

  lemma CacheIsCleared(s: State, t: State)
    requires Step(s, t) && s.ctl.loop.LoopInstalled? && t.ctl.loop.LoopCleared?
    ensures t.work.cache == map[]
  {
  }
}
