/** The cap on stored tokens (enterprise/tokens/frontend_listcreate.go): a create lists the subject's tokens, compares
their number with the limit and then pushes its record. Nothing synchronises two creates, on one replica or on several.

The creates for one subject are numbered in the order in which their listings began. A listing first asks the registry
for the tags and then reads them one by one; a token may be revoked or expire at any moment. */
module TokenCap {
  import opened Strings

  datatype Phase = Listing | Passed | Pushed | Refused | GaveUp

  /** One create. `seen` are the tags its listing got, `unread` those it still has to read and `counted` those it found
  live; `around` are the other creates that were under way when it began. */
  datatype Create = Create(phase: Phase, seen: set<nat>, unread: set<nat>, counted: set<nat>, around: set<nat>)

  /** A token carries the number of its create. `dead` are the tokens that were revoked or have expired. */
  datatype State = State(creates: map<nat, Create>, next: nat, dead: set<nat>)

  datatype Event = Begin | Read(c: nat, t: nat) | Check(c: nat) | Push(c: nat) | GiveUp(c: nat) | Die(t: nat)

  predicate UnderWay(s: State, c: nat) { c in s.creates && (s.creates[c].phase.Listing? || s.creates[c].phase.Passed?) }

  predicate Tagged(s: State, c: nat) { c in s.creates && s.creates[c].phase.Pushed? }

  /** The creates between the start of their listing and their push. */
  function Concurrent(s: State): set<nat> { set c | c in s.creates && UnderWay(s, c) }

  /** The creates between their comparison and their push. */
  function Pending(s: State): set<nat> { set c | c in s.creates && s.creates[c].phase.Passed? }

  function Tags(s: State): set<nat> { set c | c in s.creates && Tagged(s, c) }

  function Live(s: State): set<nat> { Tags(s) - s.dead }

  function Next(max: nat, s: State, e: Event): Option<State> {
    match e
    case Begin =>
      Some(State(s.creates[s.next := Create(Listing, Tags(s), Tags(s), {}, Concurrent(s))], s.next + 1, s.dead))
    case Read(c, t) =>
      if c in s.creates && s.creates[c].phase.Listing? && t in s.creates[c].unread then
        var create := s.creates[c];
        var counted := if t in s.dead then create.counted else create.counted + {t};
        Some(s.(creates := s.creates[c := create.(unread := create.unread - {t}, counted := counted)]))
      else None
    case Check(c) =>
      if c in s.creates && s.creates[c].phase.Listing? && s.creates[c].unread == {} then
        var phase := if |s.creates[c].counted| >= max then Refused else Passed;
        Some(s.(creates := s.creates[c := s.creates[c].(phase := phase)]))
      else None
    case Push(c) =>
      if c in s.creates && s.creates[c].phase.Passed? then
        Some(s.(creates := s.creates[c := s.creates[c].(phase := Pushed)]))
      else None
    case GiveUp(c) =>  // a listing or a push fails, or the replica stops
      if UnderWay(s, c) then Some(s.(creates := s.creates[c := s.creates[c].(phase := GaveUp)])) else None
    case Die(t) =>
      if Tagged(s, t) then Some(s.(dead := s.dead + {t})) else None
  }

  ghost predicate Step(max: nat, s: State, t: State) { exists e :: Next(max, s, e) == Some(t) }

  /** A run in which at most `k` creates are ever under way at once. */
  ghost predicate Run(max: nat, k: nat, run: seq<State>) {
    && run != []
    && run[0] == State(map[], 0, {})
    && (forall i :: 0 <= i < |run| - 1 ==> Step(max, run[i], run[i + 1]))
    && (forall i :: 0 <= i < |run| ==> |Concurrent(run[i])| <= k)
  }

  // ---------------------------------------------------------------- invariant

  /** A listing accounts for every tag it saw: counted, not read yet, or dead by now. */
  predicate Accounted(max: nat, create: Create, dead: set<nat>) {
    && (forall t :: t in create.seen ==> t in create.counted || t in create.unread || t in dead)
    && (create.phase.Passed? || create.phase.Pushed? ==> create.unread == {} && |create.counted| < max)
  }

  /** Whoever began before this create was tagged or under way when it began, or never gets a tag. */
  predicate Preceded(s: State, c: nat, create: Create) {
    forall d :: d in s.creates && d < c ==>
      d in create.seen || d in create.around || s.creates[d].phase.Refused? || s.creates[d].phase.GaveUp?
  }

  predicate CreateInv(max: nat, k: nat, s: State, c: nat, create: Create) {
    && c < s.next
    && Accounted(max, create, s.dead)
    && Preceded(s, c, create)
    && |create.around| < k
    && create.seen <= Tags(s)
  }

  predicate Inv(max: nat, k: nat, s: State) {
    forall c :: c in s.creates ==> CreateInv(max, k, s, c, s.creates[c])
  }

  lemma StepKeepsAccounted(max: nat, s: State, e: Event, c: nat)
    requires Next(max, s, e).Some? && c in s.creates && c < s.next && Accounted(max, s.creates[c], s.dead)
    ensures var t := Next(max, s, e).value; c in t.creates && Accounted(max, t.creates[c], t.dead)
    ensures var t := Next(max, s, e).value;
      t.creates[c].seen == s.creates[c].seen && t.creates[c].around == s.creates[c].around && s.next <= t.next
  {
    hide Tags, Concurrent;
    match e {
      case Read(r, t) => if r == c { ReadAccounted(max, s.creates[c], t, s.dead); }
      case _ =>
    }
  }

  /** A tag that is read leaves `unread` for `counted` unless it is dead. */
  lemma ReadAccounted(max: nat, create: Create, t: nat, dead: set<nat>)
    requires Accounted(max, create, dead) && create.phase.Listing? && t in create.unread
    ensures Accounted(max,
      create.(unread := create.unread - {t}, counted := if t in dead then create.counted else create.counted + {t}),
          dead)
  {
  }

  lemma StepKeepsTags(max: nat, s: State, e: Event)
    requires Next(max, s, e).Some? && s.next !in s.creates
    ensures Tags(s) <= Tags(Next(max, s, e).value)
  {
  }

  /** Who is refused or gives up stays so, and nobody new comes before an old create. */
  lemma StepKeepsPreceded(max: nat, s: State, e: Event, c: nat)
    requires Next(max, s, e).Some? && c in s.creates && c < s.next && Preceded(s, c, s.creates[c])
    ensures var t := Next(max, s, e).value; c in t.creates && Preceded(t, c, t.creates[c])
  {
    hide Tags, Concurrent;
  }

  lemma BeginsPreceded(max: nat, k: nat, s: State)
    requires s.next !in s.creates && |Concurrent(Next(max, s, Begin).value)| <= k
    ensures var t := Next(max, s, Begin).value; CreateInv(max, k, t, s.next, t.creates[s.next])
  {
    assert |Concurrent(Next(max, s, Begin).value)| == |Concurrent(s)| + 1
        && Tags(Next(max, s, Begin).value) == Tags(s) by {
      BeginCounts(max, s);
    }
    hide Accounted;
    var create := Create(Listing, Tags(s), Tags(s), {}, Concurrent(s));
    assert Next(max, s, Begin).value.creates[s.next] == create;
    assert Accounted(max, create, s.dead) by { NothingRead(max, Tags(s), Concurrent(s), s.dead); }
  }

  lemma NothingRead(max: nat, tags: set<nat>, around: set<nat>, dead: set<nat>)
    ensures Accounted(max, Create(Listing, tags, tags, {}, around), dead)
  {
  }

  lemma BeginCounts(max: nat, s: State)
    requires s.next !in s.creates
    ensures var t := Next(max, s, Begin).value; |Concurrent(t)| == |Concurrent(s)| + 1 && Tags(t) == Tags(s)
  {
    AddListing(s, Create(Listing, Tags(s), Tags(s), {}, Concurrent(s)));
  }

  lemma AddListing(s: State, create: Create)
    requires s.next !in s.creates && create.phase.Listing?
    ensures var t := State(s.creates[s.next := create], s.next + 1, s.dead);
      Tags(t) == Tags(s) && |Concurrent(t)| == |Concurrent(s)| + 1
  {
    var t := State(s.creates[s.next := create], s.next + 1, s.dead);
    forall c ensures Tagged(t, c) <==> Tagged(s, c) {}
    forall c ensures UnderWay(t, c) <==> UnderWay(s, c) || c == s.next {}
    hide UnderWay, Tagged;
    assert Concurrent(t) == Concurrent(s) + {s.next};
  }

  lemma StepKeepsCreate(max: nat, k: nat, s: State, e: Event, c: nat)
    requires Inv(max, k, s) && Next(max, s, e).Some?
    requires |Concurrent(Next(max, s, e).value)| <= k
    requires c in Next(max, s, e).value.creates
    ensures var t := Next(max, s, e).value; CreateInv(max, k, t, c, t.creates[c])
  {
    hide Accounted, Preceded, Tags, Concurrent;
    if c in s.creates {
      assert CreateInv(max, k, s, c, s.creates[c]);
      StepKeepsAccounted(max, s, e, c);
      StepKeepsPreceded(max, s, e, c);
      StepKeepsTags(max, s, e);
    } else {
      assert c == s.next && e.Begin?;
      BeginsPreceded(max, k, s);
    }
  }

  lemma {:induction false} RunKeepsInv(max: nat, k: nat, run: seq<State>, i: nat)
    requires Run(max, k, run) && i < |run|
    ensures Inv(max, k, run[i])
  {
    hide CreateInv, Next, Concurrent;
    if i > 0 {
      RunKeepsInv(max, k, run, i - 1);
      assert Step(max, run[i - 1], run[i - 1 + 1]);
      var e :| Next(max, run[i - 1], e) == Some(run[i]);
      forall c | c in run[i].creates ensures CreateInv(max, k, run[i], c, run[i].creates[c]) {
        StepKeepsCreate(max, k, run[i - 1], e, c);
      }
    }
  }

  // ---------------------------------------------------------------- main results

  lemma {:induction false} Latest(a: set<nat>) returns (c: nat)
    requires a != {}
    ensures c in a && forall d :: d in a ==> d <= c
  {
    var x :| x in a;
    if a == {x} {
      c := x;
    } else {
      var m := Latest(a - {x});
      c := if m > x then m else x;
      forall d | d in a ensures d <= c {
        assert d == x || d in a - {x};
      }
    }
  }

  /** The tokens that are live and the creates that will still push one never exceed the limit by more than the number
  of creates a create can have beside it. Seen from the one whose listing began last: it counted all others but
  those that were under way beside it. */
  lemma LiveAndPendingBounded(max: nat, k: nat, run: seq<State>, i: nat)
    requires Run(max, k, run) && i < |run|
    ensures Live(run[i]) !! Pending(run[i])
    ensures Live(run[i]) + Pending(run[i]) != {} ==> |Live(run[i])| + |Pending(run[i])| <= max + k - 1
  {
    hide Run;
    var s := run[i];
    assert Inv(max, k, s) by { RunKeepsInv(max, k, run, i); }
    var all := Live(s) + Pending(s);
    if all != {} {
      var c := Latest(all);
      var create := s.creates[c];
      assert CreateInv(max, k, s, c, create);
      var bound := {c} + create.counted + create.around;
      assert all <= bound;
      Cardinalities(all, bound, c, create.counted, create.around);
    }
  }

  lemma Cardinalities(all: set<nat>, bound: set<nat>, c: nat, a: set<nat>, b: set<nat>)
    requires all <= bound == {c} + a + b
    ensures |all| <= 1 + |a| + |b|
  {
    assert |bound| == |all| + |bound - all| by { assert bound == all + (bound - all); }
    assert |{c} + a| <= 1 + |a|;
    assert |bound| <= |{c} + a| + |b|;
  }

  /** The cap: with at most k concurrent creates the live tokens never exceed `max + k - 1`, and a limit of zero
  admits none. */
  lemma OvershootBound(max: nat, k: nat, run: seq<State>, i: nat)
    requires Run(max, k, run) && i < |run|
    ensures |Live(run[i])| <= if max == 0 || k == 0 then 0 else max + k - 1
  {
    hide Run;
    LiveAndPendingBounded(max, k, run, i);
    var s := run[i];
    if Live(s) != {} {
      assert Inv(max, k, s) by { RunKeepsInv(max, k, run, i); }
      var c :| c in Live(s);
      assert CreateInv(max, k, s, c, s.creates[c]);
    }
  }

  /** Creates that never overlap keep the cap exactly. */
  lemma ExactWhenSequential(max: nat, run: seq<State>, i: nat)
    requires Run(max, 1, run) && i < |run|
    ensures |Live(run[i])| <= max
  {
    hide Run, Live;
    OvershootBound(max, 1, run, i);
  }

  // ---------------------------------------------------------------- the bound is reached

  /** Two creates whose listings both began before either pushed; the limit is one. */
  function Overlapping(): seq<State> {
    var first := Create(Listing, {}, {}, {}, {});
    var second := Create(Listing, {}, {}, {}, {} + {0});
    var none: map<nat, Create> := map[];
    var one := none[0 := first];
    var both := one[1 := second];
    var passed := both[0 := first.(phase := Passed)];
    var pushed := passed[0 := first.(phase := Pushed)];
    var passed1 := pushed[1 := second.(phase := Passed)];
    var pushed1 := passed1[1 := second.(phase := Pushed)];
    [ State(none, 0, {}), State(one, 1, {}), State(both, 2, {}), State(passed, 2, {}), State(pushed, 2, {}),
      State(passed1, 2, {}), State(pushed1, 2, {}) ]
  }

  lemma AtMostTwo(s: State)
    requires s.creates.Keys <= {0, 1}
    ensures |Concurrent(s)| <= 2
  {
    Cardinalities(Concurrent(s), {0, 1}, 0, {1}, {});
  }

  lemma OverlappingConcurrent()
    ensures Concurrent(Overlapping()[0]) == {} && Concurrent(Overlapping()[1]) == {} + {0}
  {
  }

  lemma OverlappingIsARun()
    ensures Run(1, 2, Overlapping())
  {
    var r := Overlapping();
    forall s | s in r ensures |Concurrent(s)| <= 2 {
      AtMostTwo(s);
    }
    hide Concurrent;
    assert Concurrent(r[0]) == {} && Concurrent(r[1]) == {} + {0} by { OverlappingConcurrent(); }
    assert Tags(r[0]) == {} && Tags(r[1]) == {};
    assert Next(1, r[0], Begin) == Some(r[1]);
    assert Next(1, r[1], Begin) == Some(r[2]);
    assert Next(1, r[2], Check(0)) == Some(r[3]);
    assert Next(1, r[3], Push(0)) == Some(r[4]);
    assert Next(1, r[4], Check(1)) == Some(r[5]);
    assert Next(1, r[5], Push(1)) == Some(r[6]);
  }

  /** The overshoot is real, and it is the listing that has to be counted as concurrent: here never more than one
  create is between its comparison and its push, and still a limit of one admits two live tokens. */
  lemma OvershootHappens()
    ensures var r := Overlapping();
      && Run(1, 2, r)
      && |Live(r[6])| == 2
      && (forall i :: 0 <= i < |r| ==> |Pending(r[i])| <= 1)
  {
    hide Run;
    var r := Overlapping();
    OverlappingIsARun();
    assert Live(r[6]) == {0, 1};
    forall i | 0 <= i < |r| ensures |Pending(r[i])| <= 1 {
      assert Pending(r[i]) == if i == 3 then {0} else if i == 5 then {1} else {};
    }
  }

  // ---------------------------------------------------------------- the bound is reached for every limit

  ghost predicate Reachable(max: nat, k: nat, s: State) {
    exists run :: Run(max, k, run) && run[|run| - 1] == s
  }

  lemma ReachNext(max: nat, k: nat, s: State, e: Event, t: State)
    requires Reachable(max, k, s) && Next(max, s, e) == Some(t) && |Concurrent(t)| <= k
    ensures Reachable(max, k, t)
  {
    hide Next, Concurrent;
    var run :| Run(max, k, run) && run[|run| - 1] == s;
    var more := run + [t];
    assert Step(max, s, t);
    forall i | 0 <= i < |more| - 1 ensures Step(max, more[i], more[i + 1]) {
      if i < |run| - 1 {
        assert Step(max, run[i], run[i + 1]);
      }
    }
    assert Run(max, k, more);
  }

  lemma NumbersBelowNext(max: nat, k: nat, s: State)
    requires Reachable(max, k, s)
    ensures forall c :: c in s.creates ==> c < s.next
  {
    var run :| Run(max, k, run) && run[|run| - 1] == s;
    hide Next, Concurrent;
    RunKeepsInv(max, k, run, |run| - 1);
    forall c | c in s.creates ensures c < s.next {
      assert CreateInv(max, k, s, c, s.creates[c]);
    }
  }

  lemma NonEmptyRun(max: nat, k: nat, run: seq<State>)
    requires Run(max, k, run)
    ensures run != []
  {
  }

  /** Nobody's token is dead, exactly the creates in `under` are under way, and each of them has listed the tags `seen`
  without reading any yet. */
  ghost predicate Gathered(s: State, seen: set<nat>, under: set<nat>) {
    && s.dead == {}
    && Concurrent(s) == under
    && forall c :: c in under ==> c in s.creates && HasListed(s.creates[c], seen)
  }

  predicate HasListed(create: Create, seen: set<nat>) {
    create.phase.Listing? && create.seen == seen && create.unread == seen && create.counted == {}
  }

  /** One more create begins its listing while no tag has been added. */
  lemma BeginAnother(max: nat, k: nat, s: State, under: set<nat>) returns (t: State, c: nat)
    requires Reachable(max, k, s) && Gathered(s, Tags(s), under) && |under| < k
    ensures Reachable(max, k, t) && c !in under && Gathered(t, Tags(s), under + {c}) && Tags(t) == Tags(s)
  {
    NumbersBelowNext(max, k, s);
    c := s.next;
    var create := Create(Listing, Tags(s), Tags(s), {}, Concurrent(s));
    t := State(s.creates[c := create], s.next + 1, s.dead);
    AddListing(s, create);
    assert Concurrent(t) == under + {c} by {
      forall d ensures UnderWay(t, d) <==> UnderWay(s, d) || d == c {}
    }
    assert Next(max, s, Begin) == Some(t);
    assert |under + {c}| == |under| + 1;
    hide Next, Concurrent, Tags;
    ReachNext(max, k, s, Begin, t);
  }

  /** The same state but for one create that is still listing. */
  ghost predicate OnlyListingChanged(s: State, t: State, c: nat) {
    && c in s.creates && c in t.creates && s.creates[c].phase.Listing? && t.creates[c].phase.Listing?
    && t == s.(creates := s.creates[c := t.creates[c]])
  }

  lemma ListingKeepsSets(s: State, t: State, c: nat)
    requires OnlyListingChanged(s, t, c)
    ensures Concurrent(t) == Concurrent(s) && Tags(t) == Tags(s)
  {
    forall d ensures UnderWay(t, d) <==> UnderWay(s, d) {}
    forall d ensures Tagged(t, d) <==> Tagged(s, d) {}
  }

  /** A create reads all tags it has listed, and counts them all while none is dead. */
  lemma {:induction false} ReadAll(max: nat, k: nat, s: State, c: nat) returns (t: State)
    requires Reachable(max, k, s) && s.dead == {} && c in s.creates && s.creates[c].phase.Listing?
      && |Concurrent(s)| <= k
    ensures Reachable(max, k, t) && OnlyListingChanged(s, t, c)
    ensures t.creates[c].unread == {} && t.creates[c].counted == s.creates[c].counted + s.creates[c].unread
    decreases s.creates[c].unread
  {
    hide Reachable, Concurrent;
    var create := s.creates[c];
    if create.unread == {} {
      t := s;
      assert s.creates == s.creates[c := create];
    } else {
      var tag :| tag in create.unread;
      var next := create.(unread := create.unread - {tag}, counted := create.counted + {tag});
      var u := s.(creates := s.creates[c := next]);
      assert Next(max, s, Read(c, tag)) == Some(u);
      assert OnlyListingChanged(s, u, c);
      ListingKeepsSets(s, u, c);
      ReachNext(max, k, s, Read(c, tag), u);
      t := ReadAll(max, k, u, c);
      assert create.counted + create.unread == next.counted + next.unread;
      assert t.creates == s.creates[c := t.creates[c]];
    }
  }

  /** A create that has counted fewer tags than the limit passes and pushes. */
  lemma PassAndPush(max: nat, k: nat, s: State, c: nat) returns (t: State)
    requires Reachable(max, k, s) && |Concurrent(s)| <= k
    requires c in s.creates && s.creates[c].phase.Listing? && s.creates[c].unread == {} && |s.creates[c].counted| < max
    ensures Reachable(max, k, t) && t == s.(creates := s.creates[c := s.creates[c].(phase := Pushed)])
    ensures Concurrent(t) == Concurrent(s) - {c} && Tags(t) == Tags(s) + {c}
  {
    hide Reachable;
    var u := s.(creates := s.creates[c := s.creates[c].(phase := Passed)]);
    t := s.(creates := s.creates[c := s.creates[c].(phase := Pushed)]);
    assert Next(max, s, Check(c)) == Some(u);
    assert u.creates[c := u.creates[c].(phase := Pushed)] == t.creates;
    assert Next(max, u, Push(c)) == Some(t);
    PassKeepsSets(s, c);
    hide Next, Concurrent, Tags;
    ReachNext(max, k, s, Check(c), u);
    assert |Concurrent(t)| <= |Concurrent(s)| by { Subset(Concurrent(t), Concurrent(s)); }
    ReachNext(max, k, u, Push(c), t);
  }

  lemma Subset(a: set<nat>, b: set<nat>)
    requires a <= b
    ensures |a| <= |b|
  {
    assert b == a + (b - a);
  }

  lemma PassKeepsSets(s: State, c: nat)
    requires c in s.creates && s.creates[c].phase.Listing?
    ensures Concurrent(s.(creates := s.creates[c := s.creates[c].(phase := Passed)])) == Concurrent(s)
    ensures var t := s.(creates := s.creates[c := s.creates[c].(phase := Pushed)]);
      Concurrent(t) == Concurrent(s) - {c} && Tags(t) == Tags(s) + {c}
  {
    var u := s.(creates := s.creates[c := s.creates[c].(phase := Passed)]);
    var t := s.(creates := s.creates[c := s.creates[c].(phase := Pushed)]);
    forall d ensures UnderWay(u, d) <==> UnderWay(s, d) {}
    forall d ensures UnderWay(t, d) <==> UnderWay(s, d) && d != c {}
    forall d ensures Tagged(t, d) <==> Tagged(s, d) || d == c {}
  }

  /** One of the creates that began below the limit gets its token, although others may have got theirs meanwhile. */
  lemma FinishOne(max: nat, k: nat, s: State, seen: set<nat>, under: set<nat>, c: nat) returns (t: State)
    requires Reachable(max, k, s) && Gathered(s, seen, under) && c in under && |seen| < max && |under| <= k
    ensures Reachable(max, k, t) && Gathered(t, seen, under - {c}) && Tags(t) == Tags(s) + {c}
  {
    hide Reachable, Concurrent, Tags;
    var u := ReadAll(max, k, s, c);
    ListingKeepsSets(s, u, c);
    assert u.creates[c].counted == seen;
    t := PassAndPush(max, k, u, c);
  }

  /** They all do. */
  lemma {:induction false} FinishAll(max: nat, k: nat, s: State, seen: set<nat>, under: set<nat>) returns (t: State)
    requires Reachable(max, k, s) && Gathered(s, seen, under) && |seen| < max && |under| <= k
    ensures Reachable(max, k, t) && Gathered(t, seen, {}) && Tags(t) == Tags(s) + under
    decreases under
  {
    hide Reachable, Concurrent, Tags;
    if under == {} {
      t := s;
    } else {
      var c :| c in under;
      Subset(under - {c}, under);
      var u := FinishOne(max, k, s, seen, under, c);
      t := FinishAll(max, k, u, seen, under - {c});
      assert Tags(s) + under == Tags(s) + {c} + (under - {c});
    }
  }

  lemma {:induction false} BeginMany(max: nat, k: nat, s: State, n: nat) returns (t: State, under: set<nat>)
    requires Reachable(max, k, s) && Gathered(s, Tags(s), {}) && n <= k
    ensures Reachable(max, k, t) && Gathered(t, Tags(s), under) && Tags(t) == Tags(s) && |under| == n
  {
    hide Reachable, Concurrent, Tags, Gathered;
    if n == 0 {
      t, under := s, {};
    } else {
      var u, v := BeginMany(max, k, s, n - 1);
      var c;
      t, c := BeginAnother(max, k, u, v);
      under := v + {c};
    }
  }

  /** `n` creates that begin together below the limit all get their tokens. */
  lemma CreateTogether(max: nat, k: nat, s: State, n: nat) returns (t: State)
    requires Reachable(max, k, s) && Gathered(s, Tags(s), {}) && n <= k && |Tags(s)| < max
    ensures Reachable(max, k, t) && Gathered(t, Tags(t), {}) && |Tags(t)| == |Tags(s)| + n
  {
    var u, under := BeginMany(max, k, s, n);
    t := FinishAll(max, k, u, Tags(s), under);
    assert Tags(s) !! under by { UnderWayHasNoTag(u, under); }
    hide Tags, Concurrent, Reachable;
    assert |Tags(s) + under| == |Tags(s)| + |under|;
  }

  lemma UnderWayHasNoTag(s: State, under: set<nat>)
    requires Concurrent(s) == under
    ensures Tags(s) !! under
  {
  }

  lemma {:induction false} CreateOneByOne(max: nat, k: nat, n: nat) returns (t: State)
    requires n <= max && k >= 1
    ensures Reachable(max, k, t) && Gathered(t, Tags(t), {}) && |Tags(t)| == n
  {
    if n == 0 {
      t := State(map[], 0, {});
      assert Concurrent(t) == {} && Tags(t) == {};
      assert Run(max, k, [t]) && [t][|[t]| - 1] == t;
    } else {
      hide Reachable, Gathered, Tags;
      var s := CreateOneByOne(max, k, n - 1);
      t := CreateTogether(max, k, s, 1);
    }
  }

  /** The bound is tight: for every limit and every number of concurrent creates some run reaches it. */
  lemma OvershootReached(max: nat, k: nat) returns (run: seq<State>)
    requires max >= 1 && k >= 1
    ensures Run(max, k, run) && |Live(run[|run| - 1])| == max + k - 1
  {
    var s := CreateOneByOne(max, k, max - 1);
    var t := CreateTogether(max, k, s, k);
    assert Live(t) == Tags(t);
    run :| Run(max, k, run) && run[|run| - 1] == t;
  }

  ghost predicate KeepsCap(max: nat, run: seq<State>) { forall i :: 0 <= i < |run| ==> |Live(run[i])| <= max }

  /** The cap holds in every state of every run if and only if it admits nothing or no two creates may overlap. */
  lemma CapHoldsIff(max: nat, k: nat)
    ensures (forall run :: Run(max, k, run) ==> KeepsCap(max, run)) <==> max == 0 || k <= 1
  {
    hide Run, Live;
    if max == 0 || k <= 1 {
      forall run | Run(max, k, run) ensures KeepsCap(max, run) {
        forall i | 0 <= i < |run| ensures |Live(run[i])| <= max {
          OvershootBound(max, k, run, i);
        }
      }
    } else {
      var run := OvershootReached(max, k);
      NonEmptyRun(max, k, run);
      assert Run(max, k, run) && !KeepsCap(max, run);
    }
  }
}
