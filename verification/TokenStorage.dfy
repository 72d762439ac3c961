/** The token storage operations as they run on one replica (enterprise/tokens/storage.go): between any two registry
accesses of an operation the other replicas may do anything the protocol allows. */
module TokenStorage {
  import opened Strings
  import opened Ordering
  import opened TokenStore

  /** `slices.SortFunc` order of a listing: by creation time, then by id. */
  function CompareRecords(a: Record, b: Record): int {
    if a.createdAt != b.createdAt then (if a.createdAt < b.createdAt then -1 else 1)
    else CompareStrings(a.id, b.id)
  }

  lemma CompareRecordsIsPreorder()
    ensures Preorder(CompareRecords)
  {
    CompareStringsIsTotalOrder();
  }

  /** A listing begins with the oldest token, and among those created together with the least id. */
  lemma CompareRecordsIff(a: Record, b: Record)
    ensures CompareRecords(a, b) < 0 <==>
      a.createdAt < b.createdAt || (a.createdAt == b.createdAt && StringBefore(a.id, b.id))
  {
    CompareStringsIff(a.id, b.id);
  }

  /** A token that is reported later was already reported, with the same record, at any earlier time its tag existed. */
  lemma ReportedBefore(path: Path, run: seq<State>, i: nat, j: nat, org: Org, tag: Tag)
    requires Run(path, run) && i <= j < |run|
    requires tag in run[i].reg.tags
    ensures tag in run[j].reg.tags
    ensures Reported(path, run[j].reg, org, tag) ==>
      Reported(path, run[i].reg, org, tag) && run[i].reg.tags[tag].record == run[j].reg.tags[tag].record
  {
    hide Step, Requests;
    RunKeepsInv(path, run, i);
    NoLostUpdate(path, run, i, j);
  }

  /** The tag of a record is its id in the organisation's repository. */
  lemma TagOfRecord(path: Path, run: seq<State>, i: nat, org: Org, tag: Tag)
    requires Run(path, run) && i < |run|
    requires Reported(path, run[i].reg, org, tag)
    ensures tag == (path(org), run[i].reg.tags[tag].record.id)
    ensures run[i].reg.tags[tag].record in Listed(path, run[i].reg, org)
  {
    hide Step, Requests;
    RunKeepsInv(path, run, i);
  }

  class Storage {
    const path: Path
    var now: State               // the registry, and what every replica is doing with it
    var others: seq<seq<Event>>  // what the other replicas will do, one list per pause of this one
    ghost var run: seq<State>    // how `now` came about

    ghost predicate Good()
      reads this
    {
      Run(path, run) && run[|run| - 1] == now
    }

    constructor (path: Path, start: State, others: seq<seq<Event>>)
      requires Initial(start)
      ensures Good() && this.path == path && now == start && run == [start]
    {
      this.path := path;
      this.others := others;
      now := start;
      run := [start];
    }

    /** One atomic action of some replica. */
    method Act(e: Event)
      requires Good() && Next(path, now, e).Some?
      modifies this
      ensures Good() && now == Next(path, old(now), e).value && run == old(run) + [now]
    {
      ghost var before := run;
      now := Next(path, now, e).value;
      run := run + [now];
      assert Step(path, before[|before| - 1], now);
      forall i | 0 <= i < |run| - 1 ensures Step(path, run[i], run[i + 1]) {
        if i < |before| - 1 {
          assert Step(path, before[i], before[i + 1]);
        }
      }
    }

    /** The other replicas take any number of steps; they do not touch this replica's own requests `mine` and
    `calls`. */
    method Interfere(mine: set<nat>, calls: set<nat>)
      requires Good()
      modifies this
      ensures Good() && old(run) <= run
      ensures Untouched(mine, calls, old(now), now)
    {
      hide Next, Initial, Step, Untouched;
      NothingTouched(mine, calls, now);
      if others != [] {
        var events := others[0];
        others := others[1..];
        for i := 0 to |events|
          invariant Good() && old(run) <= run
          invariant Untouched(mine, calls, old(now), now)
        {
          if !Owns(mine, calls, events[i]) && Next(path, now, events[i]).Some? {
            OthersLeaveMine(path, old(now), now, events[i], mine, calls);
            Act(events[i]);
          }
        }
      }
    }

    /** Stores a record under a freshly minted id; afterwards it is there, whatever others did meanwhile. */
    method Create(r: nat, org: Org, record: Record)
      requires Good() && r !in now.requests && record.id !in now.ledger.minted
      modifies this
      ensures Good() && old(run) <= run
      ensures record.id in now.ledger.created && now.ledger.created[record.id] == (org, record)
      ensures Valid(path, now.reg, org, record.id) <==> record.expiresAt > now.reg.clock
    {
      hide Next, Step, Valid;
      MintEffect(path, now, r, org, record);
      Act(Mint(r, org, record));
      Interfere({r}, {});
      RunKeepsInv(path, run, |run| - 1);
      PushEffect(path, now, r, org, record);
      Act(PushRecord(r));
    }

    /** Replaces a live token by its tombstone, or reports that at some instant there was none to replace. */
    method Revoke(r: nat, org: Org, jti: Jti) returns (found: bool)
      requires Good() && r !in now.requests
      modifies this
      ensures Good() && old(run) <= run
      ensures found ==> jti in now.ledger.revoked && !Valid(path, now.reg, org, jti)
      ensures !found ==> exists k :: |old(run)| - 1 <= k < |run| && !Revocable(path, run[k].reg, org, jti)
    {
      hide Represents, Step, Valid;
      if !Revocable(path, now.reg, org, jti) {
        return false;
      }
      Act(ReadForRevoke(r, org, jti));
      Interfere({r}, {});
      Act(PushTombstone(r));
      RunKeepsInv(path, run, |run| - 1);
      ValidIsLedger(path, now, org, jti);
      return true;
    }

    /** Asks whether a token is valid, sharing a lookup that is under way. An answer was true at some instant of that
    lookup; if none was under way when the call began, at an instant of the call. */
    method Lookup(c: nat, key: Key, l: nat) returns (answer: Option<bool>)
      requires Good() && c !in now.look.callers && l !in now.look.all
      modifies this
      ensures Good() && old(run) <= run
      ensures answer.Some? ==> exists at :: WasTrue(path, run, key, answer.value, at)
                                            && (key !in old(now).look.active ==> |old(run)| - 1 <= at)
    {
      hide Step, Valid, Initial, WasTrue;
      ghost var start: nat := |run| - 1;
      StepsAreIndices(path, run, start);
      AskEffect(path, now, c, key, l);
      Act(Ask(c, key, l));
      ghost var lookup := now.look.callers[c].pc.lookup;
      Interfere({}, {c});
      if Next(path, now, Receive(c)).Some? {
        ReceiveEffect(path, now, c);
        Act(Receive(c));
        answer := now.look.callers[c].pc.answer;
        if answer.Some? {
          assert Answers(path, run, c, key, start);
          AnswerAt(path, run, c, key, start, l);
        }
      } else {
        answer := None;
      }
    }

    /** Reads one tag of a listing that started at `start` and has read `done` of its `tags`. */
    method ReadTag(org: Org, tag: Tag, tokens: seq<Record>, ghost start: nat, ghost tags: set<Tag>,
                   ghost done: set<Tag>)
      returns (more: seq<Record>)
      requires Good() && start < |run| && tags <= run[start].reg.tags.Keys
      requires done <= tags && tag in tags - done
      requires Collected(path, now.reg, org, done, tokens)
      requires forall x :: x in tokens ==> ListedSince(path, run, start, org, x)
      modifies this
      ensures Good() && old(run) <= run && tags <= now.reg.tags.Keys
      ensures Collected(path, now.reg, org, done + {tag}, more)
      ensures forall x :: x in more ==> ListedSince(path, run, start, org, x)
    {
      hide Step, Reported, ListedSince, Collected, Listed, Initial;
      ghost var before := run;
      Interfere({}, {});
      StillThere(path, run, start, |before| - 1, org, tags);
      LongerRun(path, before, run, start, org, tokens);
      StillCollected(path, before[|before| - 1].reg, now.reg, org, tags, done, tokens);
      more := tokens;
      if Reported(path, now.reg, org, tag) {
        more := tokens + [now.reg.tags[tag].record];
      }
      CollectTag(path, run, org, done, tokens, tag, more);
      ListedNow(path, run, start, org, tokens, tag, more);
    }

    /** The organisation's tokens: each of them was live at some instant of the call, none that was live throughout
    the call is missing, and no id occurs twice. */
    method ReadRecords(org: Org) returns (tokens: seq<Record>)
      requires Good()
      modifies this
      ensures Good() && old(run) <= run
      ensures forall x :: x in tokens ==> ListedSince(path, run, |old(run)| - 1, org, x)
      ensures forall x :: x in Listed(path, old(now).reg, org) && x in Listed(path, now.reg, org) ==> x in tokens
      ensures Sorted(CompareRecords, tokens)
      ensures OnePerId(tokens)
    {
      ghost var start: nat := |run| - 1;
      hide Step, Reported, Run, ListedSince, Collected, Listed;
      var tags := set tag | tag in now.reg.tags && tag.0 == path(org);
      var todo := tags;
      tokens := [];
      while todo != {}
        invariant Good() && old(run) <= run && start < |run|
        invariant todo <= tags <= run[start].reg.tags.Keys
        invariant forall x :: x in tokens ==> ListedSince(path, run, start, org, x)
        invariant Collected(path, now.reg, org, tags - todo, tokens)
        decreases todo
      {
        var tag :| tag in todo;
        tokens := ReadTag(org, tag, tokens, start, tags, tags - todo);
        assert tags - (todo - {tag}) == tags - todo + {tag};
        todo := todo - {tag};
      }
      ghost var collected := tokens;
      tokens := SortRecords(tokens);
      AllCollected(path, run, start, org, tags, collected);
    }
  }

  /** The other replicas do not act on this replica's requests. */
  predicate Owns(mine: set<nat>, calls: set<nat>, e: Event) {
    match e
    case PushRecord(r) => r in mine
    case PushTombstone(r) => r in mine
    case Receive(c) => c in calls
    case Abandon(c) => c in calls
    case _ => false
  }

  /** Requests that write and callers that wait are where they were, and lookups are still those of the same tokens. */
  predicate Untouched(mine: set<nat>, calls: set<nat>, s: State, t: State) {
    && (forall r :: r in mine && r in s.requests ==> r in t.requests && t.requests[r] == s.requests[r])
    && (forall c :: c in calls && c in s.look.callers ==> c in t.look.callers && t.look.callers[c] == s.look.callers[c])
    && (forall l :: l in s.look.all ==> l in t.look.all && t.look.all[l].started == s.look.all[l].started)
  }

  lemma NothingTouched(mine: set<nat>, calls: set<nat>, s: State)
    ensures Untouched(mine, calls, s, s)
  {
  }

  lemma OthersLeaveMine(path: Path, start: State, s: State, e: Event, mine: set<nat>, calls: set<nat>)
    requires Untouched(mine, calls, start, s) && !Owns(mine, calls, e) && Next(path, s, e).Some?
    ensures Untouched(mine, calls, start, Next(path, s, e).value)
  {
    hide Untouched, Next;
    OneStepLeavesMine(path, s, e, mine, calls);
    UntouchedTwice(mine, calls, start, s, Next(path, s, e).value);
  }

  lemma OneStepLeavesMine(path: Path, s: State, e: Event, mine: set<nat>, calls: set<nat>)
    requires !Owns(mine, calls, e) && Next(path, s, e).Some?
    ensures Untouched(mine, calls, s, Next(path, s, e).value)
  {
    hide Valid, Revocable, Push;
  }

  lemma UntouchedTwice(mine: set<nat>, calls: set<nat>, s: State, t: State, u: State)
    requires Untouched(mine, calls, s, t) && Untouched(mine, calls, t, u)
    ensures Untouched(mine, calls, s, u)
  {
  }

  method SortRecords(tokens: seq<Record>) returns (sorted: seq<Record>)
    requires OnePerId(tokens)
    ensures Sorted(CompareRecords, sorted) && OnePerId(sorted)
    ensures forall x :: x in sorted <==> x in tokens
  {
    CompareRecordsIsPreorder();
    sorted := Sort(CompareRecords, tokens);
    assert multiset(sorted) == multiset(tokens);
    assert forall x :: x in sorted <==> x in multiset(sorted);
    assert forall x :: x in tokens <==> x in multiset(tokens);
  }

  ghost predicate WasTrue(path: Path, run: seq<State>, key: Key, answer: bool, at: nat) {
    at < |run| && (answer <==> Valid(path, run[at].reg, key.org, key.jti))
  }

  lemma StepsAreIndices(path: Path, run: seq<State>, i: nat)
    requires Run(path, run) && i < |run|
    ensures run[i].steps == i
  {
    hide Step;
    NoLostUpdate(path, run, 0, i);
  }

  lemma AskEffect(path: Path, s: State, c: nat, key: Key, l: nat)
    requires c !in s.look.callers && l !in s.look.all
    ensures var t := Next(path, s, Ask(c, key, l));
      && t.Some? && c in t.value.look.callers
      && t.value.look.callers[c] == Caller(key, s.steps, Waits(if key in s.look.active then s.look.active[key] else l))
      && (key !in s.look.active ==> l in t.value.look.all && t.value.look.all[l].started == s.steps)
  {
  }

  lemma ReceiveEffect(path: Path, s: State, c: nat)
    requires c in s.look.callers && s.look.callers[c].pc.Waits? && Next(path, s, Receive(c)).Some?
    ensures var t := Next(path, s, Receive(c)).value;
      && c in t.look.callers && t.look.callers[c].pc.Answered?
          && t.look.callers[c].pc.lookup == s.look.callers[c].pc.lookup
      && t.look.callers[c].key == s.look.callers[c].key && t.look.callers[c].asked == s.look.callers[c].asked
      && t.look.all == s.look.all
  {
  }

  /** The last state of the run answers a caller that asked at `start`. */
  ghost predicate Answers(path: Path, run: seq<State>, c: nat, key: Key, start: nat) {
    && run != [] && start < |run|
    && var look := run[|run| - 1].look;
    && c in look.callers && look.callers[c].key == key && look.callers[c].asked == start
    && look.callers[c].pc.Answered? && look.callers[c].pc.answer.Some?
  }

  lemma AnswerAt(path: Path, run: seq<State>, c: nat, key: Key, start: nat, l: nat)
    requires Run(path, run) && Answers(path, run, c, key, start)
    ensures var caller := run[|run| - 1].look.callers[c];
      exists at :: WasTrue(path, run, key, caller.pc.answer.value, at)
                   && (caller.pc.lookup in run[|run| - 1].look.all
                       && run[|run| - 1].look.all[caller.pc.lookup].started == start ==>
                         start <= at)
  {
    hide Run, Valid;
    AnswerWasTrue(path, run, |run| - 1, c);
    var look := run[|run| - 1].look;
    var at := look.all[look.callers[c].pc.lookup].pc.at;
    assert WasTrue(path, run, key, look.callers[c].pc.answer.value, at);
  }

  /** `x` was in a listing of `org` at some instant from `start` on. */
  ghost predicate ListedSince(path: Path, run: seq<State>, start: nat, org: Org, x: Record) {
    exists k :: start <= k < |run| && x in Listed(path, run[k].reg, org)
  }

  /** What a listing has gathered after reading `done`: nothing from elsewhere, and everything still reported there. */
  ghost predicate Collected(path: Path, reg: Registry, org: Org, done: set<Tag>, tokens: seq<Record>) {
    && done <= reg.tags.Keys
    && (forall x :: x in tokens ==> (path(org), x.id) in done)
    && (forall tag :: tag in done && Reported(path, reg, org, tag) ==> reg.tags[tag].record in tokens)
    && OnePerId(tokens)
  }

  /** No two entries share an id. */
  ghost predicate OnePerId(tokens: seq<Record>) {
    && (forall x :: multiset(tokens)[x] <= 1)
    && (forall x, y :: x in multiset(tokens) && y in multiset(tokens) && x.id == y.id ==> x == y)
  }

  lemma StillThere(path: Path, run: seq<State>, start: nat, before: nat, org: Org, tags: set<Tag>)
    requires Run(path, run) && start <= before < |run|
    requires tags <= run[start].reg.tags.Keys
    ensures var now := run[|run| - 1];
      && tags <= now.reg.tags.Keys
      && forall tag :: tag in tags && Reported(path, now.reg, org, tag) ==>
           Reported(path, run[before].reg, org, tag) && run[before].reg.tags[tag].record == now.reg.tags[tag].record
  {
    hide Step, Reported, Initial;
    forall tag | tag in tags
      ensures tag in run[|run| - 1].reg.tags && tag in run[before].reg.tags
      ensures Reported(path, run[|run| - 1].reg, org, tag) ==>
        Reported(path, run[before].reg, org, tag)
            && run[before].reg.tags[tag].record == run[|run| - 1].reg.tags[tag].record
    {
      ReportedBefore(path, run, start, before, org, tag);
      ReportedBefore(path, run, before, |run| - 1, org, tag);
    }
  }

  lemma LongerRun(path: Path, before: seq<State>, run: seq<State>, start: nat, org: Org, tokens: seq<Record>)
    requires before <= run
    requires forall x :: x in tokens ==> ListedSince(path, before, start, org, x)
    ensures forall x :: x in tokens ==> ListedSince(path, run, start, org, x)
  {
    hide Listed;
    forall x | x in tokens ensures ListedSince(path, run, start, org, x) {
      assert ListedSince(path, before, start, org, x);
      var k :| start <= k < |before| && x in Listed(path, before[k].reg, org);
      assert run[k] == before[k];
    }
  }

  lemma StillCollected(path: Path, was: Registry, now: Registry, org: Org, tags: set<Tag>, done: set<Tag>,
                       tokens: seq<Record>)
    requires Collected(path, was, org, done, tokens) && done <= tags <= now.tags.Keys
    requires forall tag :: tag in tags && Reported(path, now, org, tag) ==>
      Reported(path, was, org, tag) && was.tags[tag].record == now.tags[tag].record
    ensures Collected(path, now, org, done, tokens)
  {
    hide Reported, OnePerId;
  }

  lemma CollectTag(path: Path, run: seq<State>, org: Org, done: set<Tag>, tokens: seq<Record>, tag: Tag,
                   tokens': seq<Record>)
    requires Run(path, run) && tag in run[|run| - 1].reg.tags && tag !in done
    requires var reg := run[|run| - 1].reg;
      && Collected(path, reg, org, done, tokens)
      && tokens' == if Reported(path, reg, org, tag) then tokens + [reg.tags[tag].record] else tokens
    ensures Collected(path, run[|run| - 1].reg, org, done + {tag}, tokens')
  {
    var reg := run[|run| - 1].reg;
    hide Run, Reported, Collected;
    if Reported(path, reg, org, tag) {
      TagOfRecord(path, run, |run| - 1, org, tag);
      CollectRecord(path, reg, org, done, tokens, tag);
    } else {
      SkipTag(path, reg, org, done, tokens, tag);
    }
  }

  lemma CollectRecord(path: Path, reg: Registry, org: Org, done: set<Tag>, tokens: seq<Record>, tag: Tag)
    requires tag in reg.tags && tag !in done && tag == (path(org), reg.tags[tag].record.id)
    requires Collected(path, reg, org, done, tokens)
    ensures Collected(path, reg, org, done + {tag}, tokens + [reg.tags[tag].record])
  {
    var x := reg.tags[tag].record;
    hide Reported, OnePerId;
    forall y | y in tokens ensures y.id != x.id {
      assert (path(org), y.id) in done;
    }
    AddOnePerId(tokens, x);
  }

  lemma SkipTag(path: Path, reg: Registry, org: Org, done: set<Tag>, tokens: seq<Record>, tag: Tag)
    requires tag in reg.tags && !Reported(path, reg, org, tag) && Collected(path, reg, org, done, tokens)
    ensures Collected(path, reg, org, done + {tag}, tokens)
  {
    hide Reported, OnePerId;
  }

  lemma AddOnePerId(tokens: seq<Record>, x: Record)
    requires OnePerId(tokens) && forall y :: y in tokens ==> y.id != x.id
    ensures OnePerId(tokens + [x])
  {
    assert forall y :: y in tokens <==> y in multiset(tokens);
    assert multiset(tokens + [x]) == multiset(tokens) + multiset{x};
  }

  lemma ListedNow(path: Path, run: seq<State>, start: nat, org: Org, tokens: seq<Record>, tag: Tag,
                  tokens': seq<Record>)
    requires start < |run| && tag in run[|run| - 1].reg.tags
    requires forall x :: x in tokens ==> ListedSince(path, run, start, org, x)
    requires var reg := run[|run| - 1].reg;
      tokens' == if Reported(path, reg, org, tag) then tokens + [reg.tags[tag].record] else tokens
    ensures forall x :: x in tokens' ==> ListedSince(path, run, start, org, x)
  {
    hide Reported;
    var last := |run| - 1;
    if Reported(path, run[last].reg, org, tag) {
      assert run[last].reg.tags[tag].record in Listed(path, run[last].reg, org);
    }
  }

  lemma AllCollected(path: Path, run: seq<State>, start: nat, org: Org, tags: set<Tag>, tokens: seq<Record>)
    requires Run(path, run) && start < |run|
    requires tags == set tag | tag in run[start].reg.tags && tag.0 == path(org)
    requires Collected(path, run[|run| - 1].reg, org, tags, tokens)
    ensures forall x :: x in Listed(path, run[start].reg, org) && x in Listed(path, run[|run| - 1].reg, org) ==>
      x in tokens
  {
    hide Run, Reported, OnePerId, Listed;
    ListedHaveTags(path, run, start, org);
  }

  ghost predicate ReportedUnder(path: Path, start: Registry, last: Registry, org: Org, x: Record) {
    exists tag ::
      tag in start.tags && tag.0 == path(org) && Reported(path, last, org, tag) && last.tags[tag].record == x
  }

  /** What was listed at the start and is still listed at the end is reported at the end under a tag of the start. */
  lemma ListedHaveTags(path: Path, run: seq<State>, start: nat, org: Org)
    requires Run(path, run) && start < |run|
    ensures forall x :: x in Listed(path, run[start].reg, org) && x in Listed(path, run[|run| - 1].reg, org) ==>
      ReportedUnder(path, run[start].reg, run[|run| - 1].reg, org, x)
  {
    hide Step, Requests;
    var last := |run| - 1;
    RunKeepsInv(path, run, start);
    RunKeepsInv(path, run, last);
    forall x | x in Listed(path, run[start].reg, org) && x in Listed(path, run[last].reg, org)
      ensures ReportedUnder(path, run[start].reg, run[last].reg, org, x)
    {
      var a :| a in run[start].reg.tags && Reported(path, run[start].reg, org, a) && run[start].reg.tags[a].record == x;
      var b :| b in run[last].reg.tags && Reported(path, run[last].reg, org, b) && run[last].reg.tags[b].record == x;
      TagOfRecord(path, run, start, org, a);
      TagOfRecord(path, run, last, org, b);
      assert a == b;
    }
  }

  lemma MintEffect(path: Path, s: State, r: nat, org: Org, record: Record)
    requires r !in s.requests && record.id !in s.ledger.minted
    ensures var t := Next(path, s, Mint(r, org, record));
      t.Some? && r in t.value.requests && t.value.requests[r] == Creating(org, record)
  {
  }

  lemma PushEffect(path: Path, s: State, r: nat, org: Org, record: Record)
    requires Inv(path, s) && r in s.requests && s.requests[r] == Creating(org, record)
    ensures var t := Next(path, s, PushRecord(r));
      && t.Some?
      && record.id in t.value.ledger.created && t.value.ledger.created[record.id] == (org, record)
      && (Valid(path, t.value.reg, org, record.id) <==> record.expiresAt > t.value.reg.clock)
  {
  }
}
