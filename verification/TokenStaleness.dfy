/** When a request that asks about a token that is no longer valid can be told that it is
(enterprise/tokens/manager.go). */
module TokenStaleness {
  import opened Strings
  import opened TokenStore

  ghost predicate Continues(path: Path, s: State, tail: seq<State>) {
    && tail != [] && tail[0] == s
    && forall i :: 0 <= i < |tail| - 1 ==> Step(path, tail[i], tail[i + 1])
  }

  ghost predicate Asks(path: Path, s: State, key: Key, c: nat, t: State) {
    c !in s.look.callers && exists l :: Next(path, s, Ask(c, key, l)) == Some(t)
  }

  /** A continuation in which a caller asks now, and in the end is told that the token is valid. */
  ghost predicate AnsweredValid(path: Path, s: State, key: Key, c: nat, tail: seq<State>) {
    && Continues(path, s, tail) && |tail| >= 2 && Asks(path, s, key, c, tail[1])
    && var look := tail[|tail| - 1].look;
    && c in look.callers && look.callers[c].pc.Answered? && look.callers[c].pc.answer == Some(true)
  }

  /** A lookup of the token is under way that has already read the registry and found it valid. */
  predicate HasReadValid(look: Lookups, key: Key) {
    && key in look.active && look.active[key] in look.all
    && look.all[look.active[key]].pc.Read? && look.all[look.active[key]].pc.valid
  }

  // ---------------------------------------------------------------- such a lookup does answer

  lemma {:induction false} Unused(ids: set<nat>) returns (c: nat)
    ensures forall d :: d in ids ==> d < c
  {
    if ids == {} {
      c := 0;
    } else {
      var x :| x in ids;
      var n := Unused(ids - {x});
      c := if x < n then n else x + 1;
      forall d | d in ids ensures d < c {
        assert d == x || d in ids - {x};
      }
    }
  }

  lemma ReadIsAnswered(path: Path, s: State, key: Key) returns (c: nat, tail: seq<State>)
    requires HasReadValid(s.look, key) && s.look.all[s.look.active[key]].key == key
    ensures AnsweredValid(path, s, key, c, tail)
  {
    c := Unused(s.look.callers.Keys);
    assert c !in s.look.callers;
    var l := s.look.active[key];
    var asked := JoinLookup(path, s, key, c);
    var returned := ReturnLookup(path, asked, l);
    var answered := ReceiveAnswer(path, returned, c);
    hide Step;
    tail := [s, asked, returned, answered];
    assert Continues(path, s, tail);
  }

  lemma JoinLookup(path: Path, s: State, key: Key, c: nat) returns (t: State)
    requires c !in s.look.callers && key in s.look.active
    ensures Step(path, s, t) && Asks(path, s, key, c, t)
    ensures t.look == s.look.(callers := s.look.callers[c := Caller(key, s.steps, Waits(s.look.active[key]))])
  {
    t := s.(look := s.look.(callers := s.look.callers[c := Caller(key, s.steps, Waits(s.look.active[key]))]),
            steps := s.steps + 1);
    assert Next(path, s, Ask(c, key, 0)) == Some(t);
  }

  lemma ReturnLookup(path: Path, s: State, l: nat) returns (t: State)
    requires l in s.look.all && s.look.all[l].pc.Read?
    ensures Step(path, s, t) && t.look.callers == s.look.callers
    ensures l in t.look.all && t.look.all[l].pc == Returned(Some(s.look.all[l].pc.valid), s.look.all[l].pc.at)
  {
    var pc := s.look.all[l].pc;
    var look := s.look.(all := s.look.all[l := s.look.all[l].(pc := Returned(Some(pc.valid), pc.at))],
                        active := s.look.active - {s.look.all[l].key});
    t := s.(look := look, steps := s.steps + 1);
    assert Next(path, s, LookupReturns(l)) == Some(t);
  }

  lemma ReceiveAnswer(path: Path, s: State, c: nat) returns (t: State)
    requires c in s.look.callers && s.look.callers[c].pc.Waits? && s.look.callers[c].pc.lookup in s.look.all
    requires s.look.all[s.look.callers[c].pc.lookup].pc.Returned?
    ensures Step(path, s, t) && c in t.look.callers
    ensures t.look.callers[c].pc
        == Answered(s.look.callers[c].pc.lookup, s.look.all[s.look.callers[c].pc.lookup].pc.answer)
  {
    var l := s.look.callers[c].pc.lookup;
    var caller := s.look.callers[c].(pc := Answered(l, s.look.all[l].pc.answer));
    t := s.(look := s.look.(callers := s.look.callers[c := caller]), steps := s.steps + 1);
    assert Next(path, s, Receive(c)) == Some(t);
  }

  // ---------------------------------------------------------------- nothing else does

  /** How far a lookup may have come: what it has read stays, and what it reads is read no earlier than `i`. */
  predicate Progress(i: nat, before: LookupPC, after: LookupPC) {
    match before
    case Starting =>
      (match after
       case Read(_, at) => at >= i
       case Returned(answer, at) => answer.Some? ==> at >= i
       case _ => true)
    case Read(valid, at) => after == before || after == Returned(Some(valid), at)
    case ReadFailed => after == before || (after.Returned? && after.answer.None?)
    case Returned(_, _) => after == before
  }

  lemma ProgressOnwards(i: nat, a: LookupPC, j: nat, b: LookupPC, c: LookupPC)
    requires i <= j && Progress(i, a, b) && Progress(j, b, c)
    ensures Progress(i, a, c)
  {
  }

  /** One step takes a lookup forward, and leaves a caller's question and the lookup it waits for as they are. */
  lemma StepProgress(path: Path, s: State, t: State, l: nat, c: nat)
    requires Step(path, s, t)
    ensures t.steps == s.steps + 1
    ensures l in s.look.all ==> l in t.look.all && Progress(s.steps, s.look.all[l].pc, t.look.all[l].pc)
    ensures c in s.look.callers ==> c in t.look.callers && SameQuestion(s.look.callers[c], t.look.callers[c])
  {
    hide Valid;
  }

  predicate SameQuestion(a: Caller, b: Caller) {
    && a.key == b.key && a.asked == b.asked
    && (a.pc.Waits? && (b.pc.Waits? || b.pc.Answered?) ==> b.pc.lookup == a.pc.lookup)
    && (a.pc.Answered? ==> b.pc == a.pc)
    && (a.pc.Abandoned? ==> b.pc == a.pc)
  }

  lemma {:induction false} TailProgress(path: Path, s: State, tail: seq<State>, i: nat, l: nat, c: nat)
    requires Continues(path, s, tail) && i < |tail|
    ensures tail[i].steps == s.steps + i
    ensures l in s.look.all ==> l in tail[i].look.all && Progress(s.steps, s.look.all[l].pc, tail[i].look.all[l].pc)
    ensures c in s.look.callers ==>
      c in tail[i].look.callers && SameQuestion(s.look.callers[c], tail[i].look.callers[c])
  {
    hide Step;
    if i > 0 {
      TailProgress(path, s, tail, i - 1, l, c);
      assert Step(path, tail[i - 1], tail[i - 1 + 1]);
      StepProgress(path, tail[i - 1], tail[i], l, c);
      if l in s.look.all {
        ProgressOnwards(s.steps, s.look.all[l].pc, tail[i - 1].steps, tail[i - 1].look.all[l].pc,
                        tail[i].look.all[l].pc);
      }
    }
  }

  lemma AppendedRun(path: Path, run: seq<State>, tail: seq<State>)
    requires Run(path, run) && Continues(path, run[|run| - 1], tail)
    ensures Run(path, run + tail[1..])
  {
    hide Step, Initial;
    var full := run + tail[1..];
    forall i | 0 <= i < |full| - 1 ensures Step(path, full[i], full[i + 1]) {
      if i < |run| - 1 {
        assert Step(path, run[i], run[i + 1]);
      } else {
        var j := i - (|run| - 1);
        assert Step(path, tail[j], tail[j + 1]);
        assert full[i] == tail[j] && full[i + 1] == tail[j + 1];
      }
    }
  }

  /** What asking does: the caller waits for the lookup of its key that is under way, or for one that starts. */
  lemma AskedFor(path: Path, s: State, key: Key, c: nat, t: State)
    requires Asks(path, s, key, c, t)
    ensures c in t.look.callers && t.look.callers[c].key == key && t.look.callers[c].asked == s.steps
    ensures t.look.callers[c].pc.Waits?
    ensures var l := t.look.callers[c].pc.lookup;
      if key in s.look.active then l == s.look.active[key] && t.look.all == s.look.all
      else l in t.look.all && t.look.all[l].pc.Starting?
    ensures t.steps == s.steps + 1
  {
  }

  /** At the end of such a continuation the caller has been answered by the lookup it joined on asking. */
  lemma AnsweredByJoined(path: Path, s: State, key: Key, c: nat, tail: seq<State>) returns (l: nat)
    requires AnsweredValid(path, s, key, c, tail)
    ensures Asks(path, s, key, c, tail[1]) && tail[1].look.callers[c].pc == Waits(l)
    ensures var look := tail[|tail| - 1].look;
      && look.callers[c].key == key && look.callers[c].asked == s.steps && look.callers[c].pc == Answered(l, Some(true))
      && (l in tail[1].look.all ==> l in look.all && Progress(s.steps + 1, tail[1].look.all[l].pc, look.all[l].pc))
  {
    var t := tail[1];
    AskedFor(path, s, key, c, t);
    l := t.look.callers[c].pc.lookup;
    hide Step, Asks;
    RestProgress(path, t, tail, l, c);
  }

  /** That lookup read the registry before the caller asked. */
  lemma ReadBefore(path: Path, run: seq<State>, s: State, key: Key, c: nat, tail: seq<State>, l: nat)
    requires Run(path, run) && s == run[|run| - 1] && AnsweredValid(path, s, key, c, tail)
    requires key.jti in s.ledger.created && !Valid(path, s.reg, key.org, key.jti)
    requires var caller := tail[|tail| - 1].look.callers[c];
      caller.key == key && caller.asked == s.steps && caller.pc == Answered(l, Some(true))
    ensures var look := tail[|tail| - 1].look;
      l in look.all && look.all[l].pc.Returned? && look.all[l].pc.answer == Some(true) && look.all[l].pc.at < s.steps
  {
    hide Step, Valid, Asks, Truthful, Initial, Represents;
    NoLostUpdate(path, run, 0, |run| - 1);
    AppendedRun(path, run, tail);
    var full := run + tail[1..];
    var last := |full| - 1;
    assert full[last] == tail[|tail| - 1] && full[|run| - 1] == s;
    assert run[0].steps == 0 by { InitialSteps(run[0]); }
    LookupsAreTruthful(path, full, last);
    AnswerWasTrue(path, full, last, c);
    StaleOnlyByJoining(path, full, last, c);
  }

  lemma InitialSteps(s: State)
    requires Initial(s)
    ensures s.steps == 0
  {
  }

  lemma AnswerNeedsRead(path: Path, run: seq<State>, s: State, key: Key, c: nat, tail: seq<State>)
    requires Run(path, run) && s == run[|run| - 1] && AnsweredValid(path, s, key, c, tail)
    requires key.jti in s.ledger.created && !Valid(path, s.reg, key.org, key.jti)
    ensures HasReadValid(s.look, key)
  {
    var l := AnsweredByJoined(path, s, key, c, tail);
    hide Step, Valid, Run, AnsweredValid, Initial;
    assert |tail| >= 2 && c in tail[|tail| - 1].look.callers by { Answer(path, s, key, c, tail); }
    ReadBefore(path, run, s, key, c, tail, l);
    AskedFor(path, s, key, c, tail[1]);
    LookupsAreTruthful(path, run, |run| - 1);
  }

  lemma Answer(path: Path, s: State, key: Key, c: nat, tail: seq<State>)
    requires AnsweredValid(path, s, key, c, tail)
    ensures |tail| >= 2 && c in tail[|tail| - 1].look.callers
  {
  }

  lemma RestProgress(path: Path, t: State, tail: seq<State>, l: nat, c: nat)
    requires |tail| >= 2 && tail[1] == t && Continues(path, tail[0], tail)
    ensures l in t.look.all ==>
      l in tail[|tail| - 1].look.all && Progress(t.steps, t.look.all[l].pc, tail[|tail| - 1].look.all[l].pc)
    ensures c in t.look.callers ==>
      c in tail[|tail| - 1].look.callers && SameQuestion(t.look.callers[c], tail[|tail| - 1].look.callers[c])
  {
    hide Step;
    var rest := tail[1..];
    forall i | 0 <= i < |rest| - 1 ensures Step(path, rest[i], rest[i + 1]) {
      assert Step(path, tail[i + 1], tail[i + 1 + 1]);
    }
    TailProgress(path, t, rest, |rest| - 1, l, c);
  }

  // ---------------------------------------------------------------- main result

  /** In any reachable state, and for a token that exists and is no longer valid there: a caller that asks now can be
  told that the token is valid if and only if a lookup of it is under way that has already read it as valid. So a
  revocation takes effect on the next request exactly when no such lookup is under way. */
  lemma StaleAnswerIff(path: Path, run: seq<State>, s: State, key: Key)
    requires Run(path, run) && s == run[|run| - 1]
    requires key.jti in s.ledger.created && !Valid(path, s.reg, key.org, key.jti)
    ensures (exists c, tail :: AnsweredValid(path, s, key, c, tail)) <==> HasReadValid(s.look, key)
  {
    LookupsAreTruthful(path, run, |run| - 1);
    hide Run, Step, Valid, AnsweredValid, Truthful;
    forall c, tail | AnsweredValid(path, s, key, c, tail) ensures HasReadValid(s.look, key) {
      AnswerNeedsRead(path, run, s, key, c, tail);
    }
    if HasReadValid(s.look, key) {
      var c, tail := ReadIsAnswered(path, s, key);
    }
  }
}
