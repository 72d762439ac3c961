/** Stored API tokens: one registry tag per token, shared by every replica (enterprise/tokens/storage.go), and the
shared lookups in front of it (enterprise/tokens/manager.go).

An organisation's repository is named by a hash of its id. Nothing below assumes anything about that hash: it is
the function `path`, which may map every organisation to the same repository. */
module TokenStore {
  import opened Strings

  type Org = string
  type Jti = string
  type Path = Org -> string

  datatype Record = Record(id: Jti, name: string, createdAt: int, expiresAt: int)

  /** What a tag holds: a record or its tombstone. */
  datatype Stored = Stored(org: Org, record: Record, revoked: bool)

  type Tag = (string, Jti)

  datatype Registry = Registry(tags: map<Tag, Stored>, clock: int)

  /** A request that may write: it has minted an id but not pushed its record, or has read a live record and not
  pushed its tombstone. A replica that stops leaves its requests as they are. */
  datatype Request = Creating(org: Org, record: Record) | Revoking(org: Org, record: Record)

  datatype Key = Key(org: Org, jti: Jti)

  /** A shared lookup: when it started, and the answer it read and when. */
  datatype LookupPC = Starting | Read(valid: bool, at: nat) | ReadFailed | Returned(answer: Option<bool>, at: nat)
  datatype Lookup = Lookup(key: Key, started: nat, pc: LookupPC)

  datatype CallerPC = Waits(lookup: nat) | Answered(lookup: nat, answer: Option<bool>) | Abandoned
  datatype Caller = Caller(key: Key, asked: nat, pc: CallerPC)

  datatype Lookups = Lookups(active: map<Key, nat>, all: map<nat, Lookup>, callers: map<nat, Caller>)

  /** What was written so far, as the clients see it. */
  datatype Ledger = Ledger(minted: set<Jti>, created: map<Jti, (Org, Record)>, revoked: set<Jti>)

  datatype State = State(steps: nat, reg: Registry, requests: map<nat, Request>, ledger: Ledger, look: Lookups)

  ghost predicate Initial(s: State) {
    && s.steps == 0 && s.reg.tags == map[] && s.requests == map[]
    && s.ledger == Ledger({}, map[], {})
    && s.look == Lookups(map[], map[], map[])
  }

  // ---------------------------------------------------------------- reading

  predicate Valid(path: Path, reg: Registry, org: Org, jti: Jti) {
    var tag := (path(org), jti);
    && tag in reg.tags
    && reg.tags[tag].org == org
    && reg.tags[tag].record.id == jti
    && !reg.tags[tag].revoked
    && reg.tags[tag].record.expiresAt > reg.clock
  }

  /** Whether a listing of `org` reports what it reads at `tag`. */
  predicate Reported(path: Path, reg: Registry, org: Org, tag: Tag) {
    && tag.0 == path(org)
    && tag in reg.tags
    && reg.tags[tag].org == org
    && !reg.tags[tag].revoked
    && reg.tags[tag].record.expiresAt > reg.clock
  }

  /** Everything a listing reports when nothing changes while it reads. */
  function Listed(path: Path, reg: Registry, org: Org): set<Record> {
    set tag | tag in reg.tags && Reported(path, reg, org, tag) :: reg.tags[tag].record
  }

  // ---------------------------------------------------------------- steps

  datatype Event =
    | Mint(r: nat, org: Org, record: Record)
    | PushRecord(r: nat)
    | ReadForRevoke(r: nat, org: Org, jti: Jti)
    | PushTombstone(r: nat)
    | Tick(clock: int)
    | Ask(c: nat, key: Key, l: nat)
    | LookupReads(l: nat) | LookupFails(l: nat) | LookupReturns(l: nat)
    | Receive(c: nat) | Abandon(c: nat)

  function Push(path: Path, reg: Registry, stored: Stored): Registry {
    reg.(tags := reg.tags[(path(stored.org), stored.record.id) := stored])
  }

  /** The record that Revoke may replace: it must be at the tag, be the organisation's own, and be live. */
  predicate Revocable(path: Path, reg: Registry, org: Org, jti: Jti) {
    var tag := (path(org), jti);
    && tag in reg.tags
    && reg.tags[tag].org == org && reg.tags[tag].record.id == jti && !reg.tags[tag].revoked
  }

  function WriteStep(path: Path, s: State, e: Event): Option<State> {
    match e
    case Mint(r, org, record) =>
      if r !in s.requests && record.id !in s.ledger.minted then
        Some(s.(requests := s.requests[r := Creating(org, record)],
                ledger := s.ledger.(minted := s.ledger.minted + {record.id})))
      else None
    case PushRecord(r) =>
      if r in s.requests && s.requests[r].Creating? then
        var q := s.requests[r];
        Some(s.(reg := Push(path, s.reg, Stored(q.org, q.record, false)),
                requests := s.requests - {r},
                ledger := s.ledger.(created := s.ledger.created[q.record.id := (q.org, q.record)])))
      else None
    case ReadForRevoke(r, org, jti) =>
      if r !in s.requests && Revocable(path, s.reg, org, jti) then
        Some(s.(requests := s.requests[r := Revoking(org, s.reg.tags[(path(org), jti)].record)]))
      else None
    case PushTombstone(r) =>
      if r in s.requests && s.requests[r].Revoking? then
        var q := s.requests[r];
        Some(s.(reg := Push(path, s.reg, Stored(q.org, q.record, true)),
                requests := s.requests - {r},
                ledger := s.ledger.(revoked := s.ledger.revoked + {q.record.id})))
      else None
    case Tick(clock) =>
      if clock >= s.reg.clock then Some(s.(reg := s.reg.(clock := clock))) else None
    case _ => None
  }

  function LookStep(path: Path, s: State, e: Event): Option<Lookups> {
    var look := s.look;
    match e
    case Ask(c, key, l) =>
      if c in look.callers then None
      else if key in look.active then
        Some(look.(callers := look.callers[c := Caller(key, s.steps, Waits(look.active[key]))]))
      else if l in look.all then None
      else
        Some(Lookups(look.active[key := l],
                     look.all[l := Lookup(key, s.steps, Starting)],
                     look.callers[c := Caller(key, s.steps, Waits(l))]))
    case LookupReads(l) =>
      if l in look.all && look.all[l].pc.Starting? then
        var key := look.all[l].key;
        Some(look.(all := look.all[l := look.all[l].(pc := Read(Valid(path, s.reg, key.org, key.jti), s.steps))]))
      else None
    case LookupFails(l) =>
      if l in look.all && look.all[l].pc.Starting? then
        Some(look.(all := look.all[l := look.all[l].(pc := ReadFailed)]))
      else None
    case LookupReturns(l) =>
      if l in look.all && (look.all[l].pc.Read? || look.all[l].pc.ReadFailed?) then
        var pc := if look.all[l].pc.Read? then Returned(Some(look.all[l].pc.valid), look.all[l].pc.at)
            else Returned(None, 0);
        Some(look.(all := look.all[l := look.all[l].(pc := pc)], active := look.active - {look.all[l].key}))
      else None
    case Receive(c) =>
      if c in look.callers && look.callers[c].pc.Waits? then
        var l := look.callers[c].pc.lookup;
        if l in look.all && look.all[l].pc.Returned? then
          Some(look.(callers := look.callers[c := look.callers[c].(pc := Answered(l, look.all[l].pc.answer))]))
        else None
      else None
    case Abandon(c) =>
      if c in look.callers && look.callers[c].pc.Waits? then
        Some(look.(callers := look.callers[c := look.callers[c].(pc := Abandoned)]))
      else None
    case _ => None
  }

  function Next(path: Path, s: State, e: Event): Option<State> {
    match WriteStep(path, s, e)
    case Some(t) => Some(t.(steps := s.steps + 1))
    case None =>
      match LookStep(path, s, e)
      case Some(look) => Some(s.(look := look, steps := s.steps + 1))
      case None => None
  }

  ghost predicate Step(path: Path, s: State, t: State) { exists e :: Next(path, s, e) == Some(t) }

  ghost predicate Run(path: Path, run: seq<State>) {
    && run != []
    && Initial(run[0])
    && forall i :: 0 <= i < |run| - 1 ==> Step(path, run[i], run[i + 1])
  }

  // ---------------------------------------------------------------- the registry represents the ledger

  /** Exactly the created tokens are tagged, each under its own organisation and id, and the tombstones are exactly
  the revoked ones. */
  predicate Represents(path: Path, reg: Registry, ledger: Ledger) {
    && (forall tag :: tag in reg.tags ==>
          && tag.1 in ledger.created
          && var (org, record) := ledger.created[tag.1];
             tag.0 == path(org) && record.id == tag.1 && reg.tags[tag] == Stored(org, record, tag.1 in ledger.revoked))
    && (forall jti :: jti in ledger.created ==> (path(ledger.created[jti].0), jti) in reg.tags)
    && ledger.created.Keys <= ledger.minted
    && ledger.revoked <= ledger.created.Keys
  }

  /** A request that creates owns an id nobody else writes. */
  predicate Creators(requests: map<nat, Request>, ledger: Ledger) {
    && (forall r :: r in requests && requests[r].Creating? ==>
          requests[r].record.id in ledger.minted && requests[r].record.id !in ledger.created)
    && (forall r, q ::
          (r in requests && q in requests && requests[r].Creating? && requests[q].Creating?
           && requests[r].record.id == requests[q].record.id) ==> r == q)
  }

  /** A request that revokes writes back what was created. */
  predicate Revokers(requests: map<nat, Request>, ledger: Ledger) {
    forall r :: r in requests && requests[r].Revoking? ==>
      requests[r].record.id in ledger.created
      && ledger.created[requests[r].record.id] == (requests[r].org, requests[r].record)
  }

  predicate Requests(s: State) { Creators(s.requests, s.ledger) && Revokers(s.requests, s.ledger) }

  predicate Inv(path: Path, s: State) { Represents(path, s.reg, s.ledger) && Requests(s) }

  lemma WriteKeepsRepresents(path: Path, s: State, e: Event)
    requires Inv(path, s) && WriteStep(path, s, e).Some?
    ensures var t := WriteStep(path, s, e).value; Represents(path, t.reg, t.ledger)
  {
    if e.PushRecord? || e.PushTombstone? {
      var q := s.requests[e.r];
      PushRepresents(path, s.reg, s.ledger, q.org, q.record, e.PushTombstone?);
    }
  }

  /** Pushing a new record, or a tombstone over the same record, keeps the registry faithful. */
  lemma PushRepresents(path: Path, reg: Registry, ledger: Ledger, org: Org, record: Record, revoked: bool)
    requires Represents(path, reg, ledger)
    requires if revoked then record.id in ledger.created && ledger.created[record.id] == (org, record)
             else record.id in ledger.minted && record.id !in ledger.created
    ensures Represents(path, Push(path, reg, Stored(org, record, revoked)),
      if revoked then ledger.(revoked := ledger.revoked + {record.id})
      else ledger.(created := ledger.created[record.id := (org, record)]))
  {
  }

  lemma WriteKeepsCreators(path: Path, s: State, e: Event)
    requires Inv(path, s) && WriteStep(path, s, e).Some?
    ensures var t := WriteStep(path, s, e).value; Creators(t.requests, t.ledger)
  {
    assert s.ledger.created.Keys <= s.ledger.minted;
    hide Represents, Revokers, Push, Revocable;
  }

  lemma WriteKeepsRevokers(path: Path, s: State, e: Event)
    requires Inv(path, s) && WriteStep(path, s, e).Some?
    ensures var t := WriteStep(path, s, e).value; Revokers(t.requests, t.ledger)
  {
    hide Push;
  }

  lemma StepKeepsInv(path: Path, s: State, t: State)
    requires Inv(path, s) && Step(path, s, t)
    ensures Inv(path, t)
  {
    hide Represents, Creators, Revokers, WriteStep, LookStep;
    var e :| Next(path, s, e) == Some(t);
    if WriteStep(path, s, e).Some? {
      WriteKeepsRepresents(path, s, e);
      WriteKeepsCreators(path, s, e);
      WriteKeepsRevokers(path, s, e);
    }
  }

  lemma {:induction false} RunKeepsInv(path: Path, run: seq<State>, i: nat)
    requires Run(path, run) && i < |run|
    ensures Inv(path, run[i])
  {
    hide Inv, Step;
    if i == 0 {
      assert Inv(path, run[0]) by { InitialInv(path, run[0]); }
    } else {
      RunKeepsInv(path, run, i - 1);
      assert Step(path, run[i - 1], run[i - 1 + 1]);
      StepKeepsInv(path, run[i - 1], run[i]);
    }
  }

  lemma InitialInv(path: Path, s: State)
    requires Initial(s)
    ensures Inv(path, s)
  {
  }

  // ---------------------------------------------------------------- main results on storage

  /** Validity is what the ledger says: created for that organisation, not revoked, not expired. */
  lemma ValidIsLedger(path: Path, s: State, org: Org, jti: Jti)
    requires Inv(path, s)
    ensures Valid(path, s.reg, org, jti)
       <==> jti in s.ledger.created && s.ledger.created[jti].0 == org && jti !in s.ledger.revoked
            && s.ledger.created[jti].1.expiresAt > s.reg.clock
  {
  }

  /** At one state and clock, a listing of an organisation and the validity of its tokens agree: the ids listed are
  exactly the valid ones, whatever other organisations share the repository. */
  lemma ListAgreesWithValid(path: Path, s: State, org: Org, jti: Jti)
    requires Inv(path, s)
    ensures (exists record :: record in Listed(path, s.reg, org) && record.id == jti) <==> Valid(path, s.reg, org, jti)
  {
    if Valid(path, s.reg, org, jti) {
      var tag := (path(org), jti);
      assert Reported(path, s.reg, org, tag);
      assert s.reg.tags[tag].record in Listed(path, s.reg, org);
    }
    forall record | record in Listed(path, s.reg, org) && record.id == jti ensures Valid(path, s.reg, org, jti) {
      var tag :| tag in s.reg.tags && Reported(path, s.reg, org, tag) && s.reg.tags[tag].record == record;
    }
  }

  /** What one step may do to the ledger and the clock. */
  lemma LedgerGrows(path: Path, s: State, t: State)
    requires Inv(path, s) && Step(path, s, t)
    ensures s.ledger.minted <= t.ledger.minted
    ensures forall jti :: jti in s.ledger.created ==>
      jti in t.ledger.created && t.ledger.created[jti] == s.ledger.created[jti]
    ensures s.ledger.revoked <= t.ledger.revoked
    ensures s.reg.clock <= t.reg.clock && t.steps == s.steps + 1
  {
    hide Represents;
  }

  /** No update is lost: what was created stays created with the same owner and record, what was revoked stays
  revoked, over every run of every number of replicas. */
  lemma {:induction false} NoLostUpdate(path: Path, run: seq<State>, i: nat, j: nat)
    requires Run(path, run) && i <= j < |run|
    ensures forall jti :: jti in run[i].ledger.created ==>
      jti in run[j].ledger.created && run[j].ledger.created[jti] == run[i].ledger.created[jti]
    ensures run[i].ledger.revoked <= run[j].ledger.revoked
    ensures run[i].reg.clock <= run[j].reg.clock && run[j].steps == run[i].steps + (j - i)
    ensures Represents(path, run[j].reg, run[j].ledger)
  {
    hide Represents, Step, Requests;
    RunKeepsInv(path, run, j);
    if i < j {
      NoLostUpdate(path, run, i, j - 1);
      RunKeepsInv(path, run, j - 1);
      assert Step(path, run[j - 1], run[j - 1 + 1]);
      LedgerGrows(path, run[j - 1], run[j]);
    }
  }

  /** A token that was valid and no longer is, or that was revoked, is never valid again. */
  lemma NeverValidAgain(path: Path, run: seq<State>, i: nat, j: nat, org: Org, jti: Jti)
    requires Run(path, run) && i <= j < |run|
    requires jti in run[i].ledger.created && !Valid(path, run[i].reg, org, jti)
    ensures !Valid(path, run[j].reg, org, jti)
  {
    hide Valid, Represents, Requests, Step;
    RunKeepsInv(path, run, i);
    RunKeepsInv(path, run, j);
    NoLostUpdate(path, run, i, j);
    ValidIsLedger(path, run[i], org, jti);
    ValidIsLedger(path, run[j], org, jti);
  }

  // ---------------------------------------------------------------- shared lookups (Manager.valid)

  /** The key under which lookups are shared. Ids contain no NUL, so different tokens never share a lookup. */
  function LookupKey(key: Key): string { key.org + "\0" + key.jti }

  lemma LookupKeyInjective(a: Key, b: Key)
    requires '\0' !in a.jti && '\0' !in b.jti
    ensures LookupKey(a) == LookupKey(b) <==> a == b
  {
    var x, y := LookupKey(a), LookupKey(b);
    if x == y {
      assert x[|a.org|] == '\0' && y[|b.org|] == '\0';
      assert x[|a.org| + 1..] == a.jti && y[|b.org| + 1..] == b.jti;
      assert forall i :: |a.org| < i < |x| ==> x[i] == a.jti[i - |a.org| - 1];
      assert forall i :: |b.org| < i < |y| ==> y[i] == b.jti[i - |b.org| - 1];
      assert |a.org| == |b.org|;
      assert x[..|a.org|] == a.org && y[..|b.org|] == b.org;
    }
  }

  /** A lookup is active for its key until it returns, and its callers asked for that key while it was active. */
  predicate Joined(look: Lookups) {
    && (forall key :: key in look.active ==>
          look.active[key] in look.all && look.all[look.active[key]].key == key
              && !look.all[look.active[key]].pc.Returned?)
    && (forall c :: c in look.callers ==> CallerOf(look, look.callers[c]))
  }

  predicate CallerOf(look: Lookups, caller: Caller) {
    match caller.pc
    case Abandoned => true
    case Waits(l) => l in look.all && look.all[l].key == caller.key && look.all[l].started <= caller.asked
    case Answered(l, answer) =>
      && l in look.all && look.all[l].key == caller.key && look.all[l].started <= caller.asked
      && look.all[l].pc.Returned? && look.all[l].pc.answer == answer
  }

  /** What a lookup read was so at the instant it read it. */
  ghost predicate Truthful(path: Path, run: seq<State>, l: Lookup, now: nat) {
    && l.started <= now <= |run|
    && match l.pc
       case Read(valid, at) => l.started <= at < now && (valid <==> Valid(path, run[at].reg, l.key.org, l.key.jti))
       case Returned(Some(valid), at) => l.started <= at < now
           && (valid <==> Valid(path, run[at].reg, l.key.org, l.key.jti))
       case _ => true
  }

  lemma JoinedStep(path: Path, s: State, e: Event)
    requires Joined(s.look) && LookStep(path, s, e).Some?
    requires forall l :: l in s.look.all ==> s.look.all[l].started <= s.steps
    ensures Joined(LookStep(path, s, e).value)
  {
    hide Valid, CallerOf;
    var look := LookStep(path, s, e).value;
    forall c | c in look.callers ensures CallerOf(look, look.callers[c]) {
      CallerStep(path, s, e, c);
    }
  }

  lemma CallerStep(path: Path, s: State, e: Event, c: nat)
    requires Joined(s.look) && LookStep(path, s, e).Some?
    requires forall l :: l in s.look.all ==> s.look.all[l].started <= s.steps
    requires c in LookStep(path, s, e).value.callers
    ensures CallerOf(LookStep(path, s, e).value, LookStep(path, s, e).value.callers[c])
  {
    hide Valid;
    assert c in s.look.callers ==> CallerOf(s.look, s.look.callers[c]);
  }

  lemma TruthfulStep(path: Path, run: seq<State>, i: nat, j: nat)
    requires i + 1 == j < |run| && Step(path, run[i], run[j]) && run[i].steps == i
    requires forall l :: l in run[i].look.all ==> Truthful(path, run, run[i].look.all[l], i)
    ensures forall l :: l in run[j].look.all ==> Truthful(path, run, run[j].look.all[l], j)
  {
    hide Valid, WriteStep;
    var s, t := run[i], run[j];
    var e :| Next(path, s, e) == Some(t);
    if LookStep(path, s, e).None? || WriteStep(path, s, e).Some? {
      assert t.look == s.look by { WritesLeaveLookups(path, s, e); }
    }
    forall l | l in t.look.all ensures Truthful(path, run, t.look.all[l], j) {
      assert l in s.look.all ==> Truthful(path, run, s.look.all[l], i);
    }
  }

  lemma WritesLeaveLookups(path: Path, s: State, e: Event)
    ensures WriteStep(path, s, e).Some? ==> WriteStep(path, s, e).value.look == s.look
  {
  }

  lemma {:induction false} LookupsAreTruthful(path: Path, run: seq<State>, i: nat)
    requires Run(path, run) && i < |run|
    ensures Joined(run[i].look)
    ensures forall l :: l in run[i].look.all ==> Truthful(path, run, run[i].look.all[l], i)
  {
    hide Joined, Truthful, WriteStep, LookStep;
    if i == 0 {
      assert Joined(run[0].look) by { NothingJoined(run[0]); }
    } else {
      LookupsAreTruthful(path, run, i - 1);
      assert Step(path, run[i - 1], run[i - 1 + 1]);
      NoLostUpdate(path, run, 0, i - 1);
      StartedBefore(path, run, i - 1);
      var e :| Next(path, run[i - 1], e) == Some(run[i]);
      if WriteStep(path, run[i - 1], e).Some? {
        WritesLeaveLookups(path, run[i - 1], e);
      } else {
        JoinedStep(path, run[i - 1], e);
      }
      TruthfulStep(path, run, i - 1, i);
    }
  }

  lemma NothingJoined(s: State)
    requires Initial(s)
    ensures Joined(s.look)
  {
  }

  lemma StartedBefore(path: Path, run: seq<State>, i: nat)
    requires i < |run| && run[i].steps == i
    requires forall l :: l in run[i].look.all ==> Truthful(path, run, run[i].look.all[l], i)
    ensures forall l :: l in run[i].look.all ==> run[i].look.all[l].started <= run[i].steps
  {
  }

  /** An answer is the truth of some instant of the lookup that was joined: after the lookup started, and before the
  answer was received. For the caller that started the lookup that instant is within its own call. */
  lemma AnswerWasTrue(path: Path, run: seq<State>, i: nat, c: nat)
    requires Run(path, run) && i < |run| && c in run[i].look.callers
    requires run[i].look.callers[c].pc.Answered? && run[i].look.callers[c].pc.answer.Some?
    ensures var caller := run[i].look.callers[c];
      var l := caller.pc.lookup;
      && l in run[i].look.all && run[i].look.all[l].pc.Returned?
      && var at := run[i].look.all[l].pc.at;
      && run[i].look.all[l].started <= at < i
      && (caller.pc.answer.value <==> Valid(path, run[at].reg, caller.key.org, caller.key.jti))
      && (run[i].look.all[l].started == caller.asked ==> caller.asked <= at)
  {
    hide Valid;
    LookupsAreTruthful(path, run, i);
  }

  /** When the lookup that answered a caller read the registry. */
  function ReadAt(look: Lookups, c: nat): nat
    requires c in look.callers && look.callers[c].pc.Answered?
  {
    var l := look.callers[c].pc.lookup;
    if l in look.all && look.all[l].pc.Returned? then look.all[l].pc.at else 0
  }

  /** A caller is told that a token already revoked or expired when it asked is valid only if the lookup it joined
  had read the registry before it asked. */
  lemma StaleOnlyByJoining(path: Path, run: seq<State>, i: nat, c: nat)
    requires Run(path, run) && i < |run| && c in run[i].look.callers
    requires run[i].look.callers[c].pc.Answered? && run[i].look.callers[c].pc.answer == Some(true)
    requires var caller := run[i].look.callers[c];
      && caller.asked < |run|
      && caller.key.jti in run[caller.asked].ledger.created
      && !Valid(path, run[caller.asked].reg, caller.key.org, caller.key.jti)
    ensures ReadAt(run[i].look, c) < run[i].look.callers[c].asked
  {
    hide Valid, Step, Initial;
    AnswerWasTrue(path, run, i, c);
    var caller := run[i].look.callers[c];
    var at := ReadAt(run[i].look, c);
    if caller.asked <= at {
      NeverValidAgain(path, run, caller.asked, at, caller.key.org, caller.key.jti);
    }
  }

  /** The states of the example below, one after each event. */
  function Example(path: Path): seq<State> {
    var record := Record("jti", "ci", 0, 100);
    var tag := (path("org"), "jti");
    var key := Key("org", "jti");
    var minted := Ledger({} + {"jti"}, map[], {});
    var created := minted.(created := map["jti" := ("org", record)]);
    var revoked := created.(revoked := {} + {"jti"});
    var live := Registry(map[tag := Stored("org", record, false)], 0);
    var dead := live.(tags := live.tags[tag := Stored("org", record, true)]);
    var none := Lookups(map[], map[], map[]);
    var asked := Lookups(map[key := 0], map[0 := Lookup(key, 2, Starting)], map[0 := Caller(key, 2, Waits(0))]);
    var read := asked.(all := asked.all[0 := Lookup(key, 2, Read(true, 3))]);
    var joined := read.(callers := read.callers[1 := Caller(key, 6, Waits(0))]);
    var returned :=
      joined.(active := joined.active - {key}, all := joined.all[0 := Lookup(key, 2, Returned(Some(true), 3))]);
    var answered := returned.(callers := returned.callers[1 := Caller(key, 6, Answered(0, Some(true)))]);
    [ State(0, Registry(map[], 0), map[], Ledger({}, map[], {}), none),
      State(1, Registry(map[], 0), map[0 := Creating("org", record)], minted, none),
      State(2, live, map[], created, none),
      State(3, live, map[], created, asked),
      State(4, live, map[], created, read),
      State(5, live, map[1 := Revoking("org", record)], created, read),
      State(6, dead, map[], revoked, read),
      State(7, dead, map[], revoked, joined),
      State(8, dead, map[], revoked, returned),
      State(9, dead, map[], revoked, answered) ]
  }

  lemma ExampleWrites(path: Path)
    ensures var r := Example(path);
      Step(path, r[0], r[1]) && Step(path, r[1], r[2]) && Step(path, r[4], r[5]) && Step(path, r[5], r[6])
  {
    var r := Example(path);
    assert Next(path, r[0], Mint(0, "org", Record("jti", "ci", 0, 100))) == Some(r[1]);
    assert Next(path, r[1], PushRecord(0)) == Some(r[2]);
    assert Next(path, r[4], ReadForRevoke(1, "org", "jti")) == Some(r[5]);
    assert Next(path, r[5], PushTombstone(1)) == Some(r[6]);
  }

  lemma ExampleLookups(path: Path)
    ensures var r := Example(path);
      Step(path, r[2], r[3]) && Step(path, r[3], r[4]) && Step(path, r[6], r[7]) && Step(path, r[7], r[8])
      && Step(path, r[8], r[9])
  {
    var r := Example(path);
    assert Next(path, r[2], Ask(0, Key("org", "jti"), 0)) == Some(r[3]);
    assert Next(path, r[3], LookupReads(0)) == Some(r[4]);
    assert Next(path, r[6], Ask(1, Key("org", "jti"), 1)) == Some(r[7]);
    assert Next(path, r[7], LookupReturns(0)) == Some(r[8]);
    assert Next(path, r[8], Receive(1)) == Some(r[9]);
  }

  /** Such a stale answer does occur: a caller that asks after the revocation has completed joins a lookup that read
  the registry before it, and is told that the revoked token is valid. */
  lemma StaleAnswerHappens(path: Path)
    ensures var run := Example(path);
      && Run(path, run)
      && var caller := run[9].look.callers[1];
      && caller.pc == Answered(0, Some(true))
      && caller.key.jti in run[caller.asked].ledger.revoked
      && !Valid(path, run[caller.asked].reg, caller.key.org, caller.key.jti)
  {
    hide Step;
    ExampleWrites(path);
    ExampleLookups(path);
  }
}
