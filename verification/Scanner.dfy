/** The vulnerability scanner's DB rotation protocol (enterprise/scanner/builder/builder.go).

The state holds what the goroutines share, one program counter per goroutine, and a clock that counts steps.
Each event is one atomic action of one goroutine, so a run is any interleaving of initialisation, the refresh
loop, one Stop, any number of Build callers and the scans they start. */
module Scanner {
  import opened Strings

  type Key = string
  type Id = nat
  type Handle = nat

  /** A scan document: the hash of what was scanned, the DB generation it was matched against, and when its scanSBOM
  returned. */
  datatype Doc = Doc(key: Key, generation: nat, scanned: nat)

  datatype InitPC = InitLoading | InitLoaded(h: Handle) | InitClosing | InitDone

  /** The refresh loop. `target` is the generation that updateDB put on disk, `locked` the time at which the
  refresh took the write lock. */
  datatype LoopPC =
    | LoopWaiting
    | LoopSleeping
    | LoopUpdating
    | LoopLocking(target: nat)
    | LoopHolding(target: nat, locked: nat)
    | LoopSwapped(target: nat, locked: nat, prev: Option<Handle>)
    | LoopEmpty(target: nat, locked: nat)
    | LoopReopened(target: nat, locked: nat, h: Handle)
    | LoopInstalled
    | LoopCleared
    | LoopRetrying
    | LoopExited

  datatype StopPC = Running | StopRequested | StopInitSeen | StopLoopSeen | StopSwapped(prev: Option<Handle>) | Stopped

  datatype FlightPC = Preparing | Reading(h: Handle) | Scanned(doc: Doc) | Cached(doc: Doc)
      | Finished(result: Option<Doc>)
  datatype Flight = Flight(key: Key, pc: FlightPC)

  datatype Refusal = NotReady | InitFailed | OtherError
  datatype CallerPC =
    | Calling | Admitted | Keyed(key: Key) | Missed(key: Key) | Waiting(key: Key, flight: Id)
    | Served(key: Key, doc: Doc) | Refused(why: Refusal)

  /** The three long-running goroutines and dbMu. */
  datatype Control = Control(
    scheduled: bool,     // whether a daily update is configured
    init: InitPC,
    loop: LoopPC,
    stop: StopPC,
    writer: bool,        // dbMu is held for writing
    readers: set<Id>)    // the flights holding dbMu for reading

  datatype DB = DB(
    disk: nat,                    // the generation installed on disk
    handles: map<Handle, nat>,    // the open handles, with the generation each of them reads
    next: Handle,
    scanner: Option<Handle>,
    initErr: bool)

  /** What a reader of the log could tell about the past. */
  datatype History = History(
    ever: bool,          // some DB has been installed as scanner
    outage: bool,        // the last refresh that closed the DB could not open the new one
    installed: nat,      // the generation of the DB installed last
    installedAt: nat,    // when the refresh that installed it took the write lock
    target: nat)         // the generation that refresh had put on disk

  datatype Work = Work(
    cache: map<Key, Doc>,
    active: map<Key, Id>,          // the flight running for a key
    flights: map<Id, Flight>,
    callers: map<Id, CallerPC>)

  datatype State = State(clock: nat, ctl: Control, db: DB, hist: History, work: Work)

  ghost predicate Initial(s: State) {
    && s.clock == 1
    && s.ctl == Control(s.ctl.scheduled, InitLoading, LoopWaiting, Running, false, {})
    && s.db == DB(s.db.disk, map[], s.db.next, None, false)
    && s.hist == History(false, false, 0, 0, 0)
    && s.work == Work(map[], map[], map[], map[])
  }

  datatype InitEvent = InitLoads(generation: nat) | InitFails | InitStores | InitCloses
  datatype LoopEvent =
    | LoopStarts | LoopWakes | LoopExits | UpdateFails | Updates(generation: nat) | LoopLocks | LoopSwaps | LoopCloses
    | ReopenFails | Reopens(generation: nat) | LoopStores | LoopClears | LoopUnlocks
  datatype StopEvent = StopCalled | StopSeesInit | StopSeesLoop | StopSwaps | StopCloses
  datatype CallerEvent = Calls | ReadyForScan | Hashes(key: Key) | CallerFails | CacheHit | CacheMiss | Joins(f: Id)
      | Receives
  datatype FlightEvent = FlightFails | FlightLocks | ScanFails | ScanReturns | FlightCaches | FlightReturns

  datatype Event =
    | Init(i: InitEvent) | Loop(l: LoopEvent) | Stop(p: StopEvent)
    | Call(c: Id, ce: CallerEvent) | Fly(f: Id, fe: FlightEvent) | Evict(key: Key)

  // ---------------------------------------------------------------- loading a DB

  /** Opens the DB on disk after bringing it to `generation`. A handle opened while the previous one is still open
  on the same directory reads the contents from before the update, not what is on disk. */
  function Open(db: DB, hist: History, generation: nat): DB {
    var contents := if db.handles == map[] then generation else hist.installed;
    db.(disk := generation, handles := db.handles[db.next := contents], next := db.next + 1)
  }

  function Close(db: DB, h: Option<Handle>): DB {
    match h
    case None => db
    case Some(h) => db.(handles := db.handles - {h})
  }

  function ContentsOf(db: DB, h: Handle): nat { if h in db.handles then db.handles[h] else 0 }

  function Free(ctl: Control): bool { !ctl.writer && ctl.readers == {} }

  // ---------------------------------------------------------------- steps

  function InitStep(s: State, e: InitEvent): Option<State> {
    match e
    case InitLoads(generation) =>
      if s.ctl.init.InitLoading? && generation >= s.db.disk then
        Some(s.(db := Open(s.db, s.hist, generation), ctl := s.ctl.(init := InitLoaded(s.db.next))))
      else None
    case InitFails =>
      if s.ctl.init.InitLoading? then
        Some(s.(db := s.db.(initErr := true), ctl := s.ctl.(init := InitClosing)))
      else None
    case InitStores =>
      if s.ctl.init.InitLoaded? && Free(s.ctl) then
        var h := s.ctl.init.h;
        Some(s.(db := s.db.(scanner := Some(h)),
                ctl := s.ctl.(init := InitClosing),
                hist := s.hist.(ever := true, installed := ContentsOf(s.db, h))))
      else None
    case InitCloses =>
      if s.ctl.init.InitClosing? then Some(s.(ctl := s.ctl.(init := InitDone))) else None
  }

  function Goto(s: State, loop: LoopPC): State { s.(ctl := s.ctl.(loop := loop)) }

  function LoopStep(s: State, e: LoopEvent): Option<State> {
    var loop := s.ctl.loop;
    match e
    case LoopStarts =>
      if loop.LoopWaiting? && s.ctl.scheduled && s.ctl.init.InitDone? then Some(Goto(s, LoopSleeping)) else None
    case LoopExits =>
      if loop.LoopWaiting? && !s.ctl.scheduled then Some(Goto(s, LoopExited))
      else if (loop.LoopWaiting? || loop.LoopSleeping? || loop.LoopRetrying?) && !s.ctl.stop.Running? then
        Some(Goto(s, LoopExited))
      else None
    case LoopWakes =>
      if loop.LoopSleeping? || loop.LoopRetrying? then Some(Goto(s, LoopUpdating)) else None
    case UpdateFails =>
      if loop.LoopUpdating? then Some(Goto(s, LoopRetrying)) else None
    case Updates(generation) =>
      if loop.LoopUpdating? && generation >= s.db.disk then
        Some(Goto(s, LoopLocking(generation)).(db := s.db.(disk := generation)))
      else None
    case LoopLocks =>
      if loop.LoopLocking? && Free(s.ctl) then
        Some(s.(ctl := s.ctl.(loop := LoopHolding(loop.target, s.clock), writer := true)))
      else None
    case LoopSwaps =>
      if loop.LoopHolding? then
        Some(Goto(s, LoopSwapped(loop.target, loop.locked, s.db.scanner)).(db := s.db.(scanner := None)))
      else None
    case LoopCloses =>
      if loop.LoopSwapped? then
        Some(Goto(s, LoopEmpty(loop.target, loop.locked)).(db := Close(s.db, loop.prev)))
      else None
    case ReopenFails =>
      if loop.LoopEmpty? then
        Some(s.(ctl := s.ctl.(loop := LoopRetrying, writer := false), hist := s.hist.(outage := true)))
      else None
    case Reopens(generation) =>
      if loop.LoopEmpty? && generation >= s.db.disk then
        Some(Goto(s, LoopReopened(loop.target, loop.locked, s.db.next)).(db := Open(s.db, s.hist, generation)))
      else None
    case LoopStores =>
      if loop.LoopReopened? then
        Some(Goto(s, LoopInstalled).(
          db := s.db.(scanner := Some(loop.h)),
          hist := History(true, false, ContentsOf(s.db, loop.h), loop.locked, loop.target)))
      else None
    case LoopClears =>
      if loop.LoopInstalled? then Some(Goto(s, LoopCleared).(work := s.work.(cache := map[]))) else None
    case LoopUnlocks =>
      if loop.LoopCleared? then Some(s.(ctl := s.ctl.(loop := LoopSleeping, writer := false))) else None
  }

  function StopStep(s: State, e: StopEvent): Option<State> {
    var stop := s.ctl.stop;
    match e
    case StopCalled => if stop.Running? then Some(s.(ctl := s.ctl.(stop := StopRequested))) else None
    case StopSeesInit =>
      if stop.StopRequested? && s.ctl.init.InitDone? then Some(s.(ctl := s.ctl.(stop := StopInitSeen))) else None
    case StopSeesLoop =>
      if stop.StopInitSeen? && s.ctl.loop.LoopExited? then Some(s.(ctl := s.ctl.(stop := StopLoopSeen))) else None
    case StopSwaps =>
      if stop.StopLoopSeen? && Free(s.ctl) then
        Some(s.(ctl := s.ctl.(stop := StopSwapped(s.db.scanner), writer := true), db := s.db.(scanner := None)))
      else None
    case StopCloses =>
      if stop.StopSwapped? then
        Some(s.(ctl := s.ctl.(stop := Stopped, writer := false), db := Close(s.db, stop.prev)))
      else None
  }

  function SetCaller(s: State, c: Id, pc: CallerPC): State {
    s.(work := s.work.(callers := s.work.callers[c := pc]))
  }

  function FlightAt(w: Work, f: Id): FlightPC {
    if f in w.flights then w.flights[f].pc else Preparing
  }

  function CallerStep(s: State, c: Id, e: CallerEvent): Option<State> {
    if c !in s.work.callers then
      if e.Calls? then Some(SetCaller(s, c, Calling)) else None
    else
      var pc := s.work.callers[c];
      match e
      case Calls => None
      case ReadyForScan =>
        if pc.Calling? && !s.ctl.writer then
          Some(SetCaller(s, c, if s.db.scanner.Some? then Admitted
                               else if s.db.initErr then Refused(InitFailed) else Refused(NotReady)))
        else None
      case Hashes(key) => if pc.Admitted? then Some(SetCaller(s, c, Keyed(key))) else None
      case CallerFails =>  // the hash cannot be computed, or the request is cancelled while it waits
        if pc.Admitted? || pc.Waiting? then Some(SetCaller(s, c, Refused(OtherError))) else None
      case CacheHit =>
        if pc.Keyed? && pc.key in s.work.cache then
          Some(SetCaller(s, c, Served(pc.key, s.work.cache[pc.key])))
        else None
      case CacheMiss =>
        if pc.Keyed? && pc.key !in s.work.cache then Some(SetCaller(s, c, Missed(pc.key))) else None
      case Joins(f) =>
        if !pc.Missed? then None
        else if pc.key in s.work.active then Some(SetCaller(s, c, Waiting(pc.key, s.work.active[pc.key])))
        else if f in s.work.flights then None
        else
          var t := SetCaller(s, c, Waiting(pc.key, f));
          Some(t.(work := t.work.(active := t.work.active[pc.key := f],
                                  flights := t.work.flights[f := Flight(pc.key, Preparing)])))
      case Receives =>
        if pc.Waiting? && FlightAt(s.work, pc.flight).Finished? then
          match FlightAt(s.work, pc.flight).result
          case Some(doc) => Some(SetCaller(s, c, Served(pc.key, doc)))
          case None => Some(SetCaller(s, c, Refused(OtherError)))
        else None
  }

  function SetFlight(w: Work, f: Id, pc: FlightPC): Work
    requires f in w.flights
  {
    w.(flights := w.flights[f := w.flights[f].(pc := pc)])
  }

  /** The flight's function returns: its key is released and its result delivered in one step. */
  function Finish(w: Work, f: Id, result: Option<Doc>): Work
    requires f in w.flights
  {
    SetFlight(w, f, Finished(result)).(active := w.active - {w.flights[f].key})
  }

  function FlightStep(s: State, f: Id, e: FlightEvent): Option<State> {
    if f !in s.work.flights then None
    else
      var pc := s.work.flights[f].pc;
      match e
      case FlightFails =>
        if pc.Preparing? then Some(s.(work := Finish(s.work, f, None))) else None
      case FlightLocks =>
        if pc.Preparing? && !s.ctl.writer then
          match s.db.scanner
          case None => Some(s.(work := Finish(s.work, f, None)))
          case Some(h) =>
            Some(s.(work := SetFlight(s.work, f, Reading(h)), ctl := s.ctl.(readers := s.ctl.readers + {f})))
        else None
      case ScanFails =>
        if pc.Reading? then
          Some(s.(work := Finish(s.work, f, None), ctl := s.ctl.(readers := s.ctl.readers - {f})))
        else None
      case ScanReturns =>
        if pc.Reading? then
          var doc := Doc(s.work.flights[f].key, ContentsOf(s.db, pc.h), s.clock);
          Some(s.(work := SetFlight(s.work, f, Scanned(doc)), ctl := s.ctl.(readers := s.ctl.readers - {f})))
        else None
      case FlightCaches =>
        if pc.Scanned? then
          var w := SetFlight(s.work, f, Cached(pc.doc));
          Some(s.(work := w.(cache := w.cache[s.work.flights[f].key := pc.doc])))
        else None
      case FlightReturns =>
        if pc.Cached? then Some(s.(work := Finish(s.work, f, Some(pc.doc)))) else None
  }

  function Act(s: State, e: Event): Option<State> {
    match e
    case Init(i) => InitStep(s, i)
    case Loop(l) => LoopStep(s, l)
    case Stop(p) => StopStep(s, p)
    case Call(c, ce) => CallerStep(s, c, ce)
    case Fly(f, fe) => FlightStep(s, f, fe)
    case Evict(key) => Some(s.(work := s.work.(cache := s.work.cache - {key})))
  }

  /** One action of one goroutine. */
  ghost predicate Step(s: State, t: State) {
    exists e :: Act(s, e).Some? && t == Act(s, e).value.(clock := s.clock + 1)
  }

  ghost predicate Run(run: seq<State>) {
    && run != []
    && Initial(run[0])
    && forall i :: 0 <= i < |run| - 1 ==> Step(run[i], run[i + 1])
  }

  // ---------------------------------------------------------------- invariants

  predicate Swapping(loop: LoopPC) { loop.LoopSwapped? || loop.LoopEmpty? || loop.LoopReopened? }

  /** From taking the write lock to having opened the new DB. */
  predicate Draining(loop: LoopPC) { loop.LoopHolding? || Swapping(loop) }

  predicate LoopHasLock(loop: LoopPC) { Draining(loop) || loop.LoopInstalled? || loop.LoopCleared? }

  /** Who holds the write lock, and in which order the goroutines run. */
  predicate Ordered(c: Control) {
    && (c.writer <==> (LoopHasLock(c.loop) || c.stop.StopSwapped?))
    && (c.writer ==> c.readers == {})
    && ((c.stop.StopLoopSeen? || c.stop.StopSwapped? || c.stop.Stopped?) ==> c.loop.LoopExited?)
    && ((c.stop.StopInitSeen? || c.stop.StopLoopSeen? || c.stop.StopSwapped? || c.stop.Stopped?) ==> c.init.InitDone?)
    && (!c.loop.LoopWaiting? && !c.loop.LoopExited? ==> c.init.InitDone?)
  }

  /** The handle that somebody owns: the published scanner, or the goroutine that is installing or closing one. */
  function Owned(ctl: Control, scanner: Option<Handle>): Option<Handle> {
    if scanner.Some? then scanner
    else if ctl.init.InitLoaded? then Some(ctl.init.h)
    else if ctl.loop.LoopSwapped? then ctl.loop.prev
    else if ctl.loop.LoopReopened? then Some(ctl.loop.h)
    else if ctl.stop.StopSwapped? then ctl.stop.prev
    else None
  }

  /** Exactly the owned handle is open. */
  predicate Ownership(ctl: Control, db: DB) {
    && (match Owned(ctl, db.scanner)
        case None => db.handles == map[]
        case Some(h) => db.handles.Keys == {h})
    && ((ctl.init.InitLoading? || ctl.init.InitLoaded? || Swapping(ctl.loop) || ctl.stop.StopSwapped?
         || ctl.stop.Stopped?)
        ==> db.scanner == None)
  }

  /** A flight that scans holds dbMu for reading, and scans with the published scanner. */
  predicate Readers(s: State) {
    && (forall f :: f in s.ctl.readers ==> f in s.work.flights && s.work.flights[f].pc.Reading?)
    && (forall f :: f in s.work.flights && s.work.flights[f].pc.Reading? ==>
          f in s.ctl.readers && s.db.scanner == Some(s.work.flights[f].pc.h))
  }

  /** Outside the write lock a scanner is published exactly when one was installed and not lost since. */
  predicate Readiness(s: State) {
    && (!s.ctl.writer ==> (s.db.scanner.Some? <==> s.hist.ever && !s.hist.outage && !s.ctl.stop.Stopped?))
    && (s.ctl.loop.LoopInstalled? || s.ctl.loop.LoopCleared? ==> s.db.scanner.Some? && s.hist.ever && !s.hist.outage)
    && (s.ctl.init.InitLoading? || s.ctl.init.InitLoaded? ==> !s.hist.ever && !s.hist.outage && s.hist.target == 0)
  }

  /** The published scanner reads what was installed last, which is at least what its refresh had put on disk. */
  predicate Generations(s: State) {
    && (s.db.scanner.Some? ==> ContentsOf(s.db, s.db.scanner.value) == s.hist.installed)
    && (s.ctl.loop.LoopReopened? ==> ContentsOf(s.db, s.ctl.loop.h) >= s.ctl.loop.target)
    && (s.ctl.loop.LoopLocking? || Draining(s.ctl.loop) ==> s.db.disk >= s.ctl.loop.target)
    && s.hist.installed >= s.hist.target
  }

  /** A document is as new as the installed DB, or its scan had returned before that DB's refresh took the lock. */
  predicate FreshDoc(clock: nat, loop: LoopPC, hist: History, doc: Doc) {
    && hist.ever
    && doc.scanned < clock
    && (doc.generation == hist.installed || doc.scanned < hist.installedAt)
    && (Draining(loop) ==> doc.scanned < loop.locked)
  }

  predicate FreshFlight(clock: nat, loop: LoopPC, hist: History, pc: FlightPC) {
    match pc
    case Preparing => true
    case Reading(_) => true
    case Scanned(doc) => FreshDoc(clock, loop, hist, doc)
    case Cached(doc) => FreshDoc(clock, loop, hist, doc)
    case Finished(r) => r.Some? ==> FreshDoc(clock, loop, hist, r.value)
  }

  predicate FreshWork(clock: nat, loop: LoopPC, hist: History, w: Work) {
    && (forall k :: k in w.cache ==> FreshDoc(clock, loop, hist, w.cache[k]))
    && (forall f :: f in w.flights ==> FreshFlight(clock, loop, hist, w.flights[f].pc))
    && (forall c :: c in w.callers && w.callers[c].Served? ==> FreshDoc(clock, loop, hist, w.callers[c].doc))
  }

  predicate Freshness(s: State) {
    && s.hist.installedAt < s.clock
    && (Draining(s.ctl.loop) ==> s.ctl.loop.locked < s.clock)
    && FreshWork(s.clock, s.ctl.loop, s.hist, s.work)
  }

  /** The document that a flight has, or has returned. */
  function DocOf(pc: FlightPC): Option<Doc> {
    match pc
    case Preparing => None
    case Reading(_) => None
    case Scanned(doc) => Some(doc)
    case Cached(doc) => Some(doc)
    case Finished(r) => r
  }

  /** A flight holds a document for its own key, and runs under that key alone. */
  predicate OwnFlights(w: Work) {
    && (forall f :: f in w.flights && DocOf(w.flights[f].pc).Some? ==>
        DocOf(w.flights[f].pc).value.key == w.flights[f].key)
    && (forall k :: k in w.active ==> w.active[k] in w.flights && w.flights[w.active[k]].key == k)
  }

  /** A caller waits for a flight of its own key, and is served a document for that key. */
  predicate OwnCaller(w: Work, pc: CallerPC) {
    match pc
    case Waiting(key, f) => f in w.flights && w.flights[f].key == key
    case Served(key, doc) => doc.key == key
    case _ => true
  }

  /** Whatever is cached, held or received for a key is of a scan for that key. */
  predicate Subjects(w: Work) {
    && (forall k :: k in w.cache ==> w.cache[k].key == k)
    && OwnFlights(w)
    && (forall c :: c in w.callers ==> OwnCaller(w, w.callers[c]))
  }

  predicate Locking(s: State) { Ordered(s.ctl) && Ownership(s.ctl, s.db) && Readers(s) }

  predicate Publishing(s: State) { Readiness(s) && Generations(s) }

  predicate Inv(s: State) { Locking(s) && Publishing(s) && Freshness(s) && Subjects(s.work) }

  // ---------------------------------------------------------------- every step keeps them

  lemma CallerStepKeepsSubjects(s: State, c: Id, e: CallerEvent)
    requires Subjects(s.work) && CallerStep(s, c, e).Some?
    ensures Subjects(CallerStep(s, c, e).value.work)
  {
    assert c in s.work.callers ==> OwnCaller(s.work, s.work.callers[c]);
  }

  lemma FlightStepKeepsSubjects(s: State, f: Id, e: FlightEvent)
    requires Subjects(s.work) && FlightStep(s, f, e).Some?
    ensures Subjects(FlightStep(s, f, e).value.work)
  {
    var w, t := s.work, FlightStep(s, f, e).value.work;
    FlightStepKeepsFlights(s, f, e);
    hide FlightStep;
    forall c | c in t.callers ensures OwnCaller(t, t.callers[c]) {
      assert OwnCaller(w, w.callers[c]);
    }
  }

  lemma FlightStepKeepsFlights(s: State, f: Id, e: FlightEvent)
    requires OwnFlights(s.work) && (forall k :: k in s.work.cache ==> s.work.cache[k].key == k)
    requires FlightStep(s, f, e).Some?
    ensures var t := FlightStep(s, f, e).value.work;
      && OwnFlights(t) && (forall k :: k in t.cache ==> t.cache[k].key == k) && t.callers == s.work.callers
      && (forall g :: g in s.work.flights ==> g in t.flights && t.flights[g].key == s.work.flights[g].key)
  {
  }

  lemma InitStepKeepsInv(s: State, e: InitEvent)
    requires Inv(s) && InitStep(s, e).Some?
    ensures Inv(InitStep(s, e).value.(clock := s.clock + 1))
  {
  }

  lemma LoopStepKeepsLocking(s: State, e: LoopEvent)
    requires Locking(s) && LoopStep(s, e).Some?
    ensures Locking(LoopStep(s, e).value.(clock := s.clock + 1))
  {
  }

  lemma LoopStepKeepsPublishing(s: State, e: LoopEvent)
    requires Locking(s) && Publishing(s) && LoopStep(s, e).Some?
    ensures Publishing(LoopStep(s, e).value.(clock := s.clock + 1))
  {
  }

  /** Whatever happens to the clock, the loop and the history: documents stay fresh if each of them does. */
  lemma FreshnessCarriesOver(clock: nat, loop: LoopPC, hist: History, clock': nat, loop': LoopPC, hist': History,
                             w: Work)
    requires FreshWork(clock, loop, hist, w)
    requires forall doc :: FreshDoc(clock, loop, hist, doc) ==> FreshDoc(clock', loop', hist', doc)
    ensures FreshWork(clock', loop', hist', w)
  {
  }

  lemma LoopStepKeepsFreshness(s: State, e: LoopEvent)
    requires Inv(s) && LoopStep(s, e).Some?
    ensures Freshness(LoopStep(s, e).value.(clock := s.clock + 1))
  {
    hide FreshWork, Ordered, Ownership, Readers, Readiness, Generations;
    var t := LoopStep(s, e).value.(clock := s.clock + 1);
    FreshnessCarriesOver(s.clock, s.ctl.loop, s.hist, t.clock, t.ctl.loop, t.hist, s.work);
    if e.LoopClears? {
      FewerDocuments(t.clock, t.ctl.loop, t.hist, s.work, map[]);
    }
  }

  lemma FewerDocuments(clock: nat, loop: LoopPC, hist: History, w: Work, cache: map<Key, Doc>)
    requires FreshWork(clock, loop, hist, w) && cache.Items <= w.cache.Items
    ensures FreshWork(clock, loop, hist, w.(cache := cache))
  {
    forall k | k in cache ensures FreshDoc(clock, loop, hist, cache[k]) {
      assert (k, cache[k]) in w.cache.Items;
    }
  }

  lemma LoopStepKeepsSubjects(s: State, e: LoopEvent)
    requires Subjects(s.work) && LoopStep(s, e).Some?
    ensures Subjects(LoopStep(s, e).value.work)
  {
    hide OwnFlights, OwnCaller;
    assert LoopStep(s, e).value.work == s.work.(cache := if e.LoopClears? then map[] else s.work.cache);
    FewerCached(s.work, if e.LoopClears? then map[] else s.work.cache);
  }

  lemma FewerCached(w: Work, cache: map<Key, Doc>)
    requires Subjects(w) && forall k :: k in cache ==> k in w.cache && cache[k] == w.cache[k]
    ensures Subjects(w.(cache := cache))
  {
  }

  lemma LoopStepKeepsInv(s: State, e: LoopEvent)
    requires Inv(s) && LoopStep(s, e).Some?
    ensures Inv(LoopStep(s, e).value.(clock := s.clock + 1))
  {
    LoopStepKeepsSubjects(s, e);
    hide Locking, Publishing, Freshness, Subjects, LoopStep;
    LoopStepKeepsLocking(s, e);
    LoopStepKeepsPublishing(s, e);
    LoopStepKeepsFreshness(s, e);
  }

  lemma StopStepKeepsInv(s: State, e: StopEvent)
    requires Inv(s) && StopStep(s, e).Some?
    ensures Inv(StopStep(s, e).value.(clock := s.clock + 1))
  {
  }

  lemma CallerStepKeepsLocking(s: State, c: Id, e: CallerEvent)
    requires Locking(s) && CallerStep(s, c, e).Some?
    ensures Locking(CallerStep(s, c, e).value.(clock := s.clock + 1))
  {
  }

  lemma CallerStepKeepsPublishing(s: State, c: Id, e: CallerEvent)
    requires Locking(s) && Publishing(s) && CallerStep(s, c, e).Some?
    ensures Publishing(CallerStep(s, c, e).value.(clock := s.clock + 1))
  {
  }

  lemma CallerStepKeepsFreshness(s: State, c: Id, e: CallerEvent)
    requires Freshness(s) && CallerStep(s, c, e).Some?
    ensures Freshness(CallerStep(s, c, e).value.(clock := s.clock + 1))
  {
    hide FreshDoc;
    LaterClock(s);
  }

  lemma LaterClock(s: State)
    requires Freshness(s)
    ensures FreshWork(s.clock + 1, s.ctl.loop, s.hist, s.work)
  {
    hide FreshWork;
    FreshnessCarriesOver(s.clock, s.ctl.loop, s.hist, s.clock + 1, s.ctl.loop, s.hist, s.work);
  }

  lemma CallerStepKeepsInv(s: State, c: Id, e: CallerEvent)
    requires Inv(s) && CallerStep(s, c, e).Some?
    ensures Inv(CallerStep(s, c, e).value.(clock := s.clock + 1))
  {
    hide Locking, Publishing, Freshness, Subjects, CallerStep;
    CallerStepKeepsSubjects(s, c, e);
    CallerStepKeepsLocking(s, c, e);
    CallerStepKeepsPublishing(s, c, e);
    CallerStepKeepsFreshness(s, c, e);
  }

  lemma FlightStepKeepsLocking(s: State, f: Id, e: FlightEvent)
    requires Locking(s) && FlightStep(s, f, e).Some?
    ensures Locking(FlightStep(s, f, e).value.(clock := s.clock + 1))
  {
  }

  lemma FlightStepKeepsPublishing(s: State, f: Id, e: FlightEvent)
    requires Locking(s) && Publishing(s) && FlightStep(s, f, e).Some?
    ensures Publishing(FlightStep(s, f, e).value.(clock := s.clock + 1))
  {
  }

  lemma FlightStepKeepsFreshness(s: State, f: Id, e: FlightEvent)
    requires Inv(s) && FlightStep(s, f, e).Some?
    ensures Freshness(FlightStep(s, f, e).value.(clock := s.clock + 1))
  {
  }

  lemma FlightStepKeepsInv(s: State, f: Id, e: FlightEvent)
    requires Inv(s) && FlightStep(s, f, e).Some?
    ensures Inv(FlightStep(s, f, e).value.(clock := s.clock + 1))
  {
    hide Locking, Publishing, Freshness, Subjects, FlightStep;
    FlightStepKeepsSubjects(s, f, e);
    FlightStepKeepsLocking(s, f, e);
    FlightStepKeepsPublishing(s, f, e);
    FlightStepKeepsFreshness(s, f, e);
  }

  lemma StepKeepsInv(s: State, t: State)
    requires Inv(s) && Step(s, t)
    ensures Inv(t)
  {
    hide InitStep, LoopStep, StopStep, CallerStep, FlightStep;
    var e :| Act(s, e).Some? && t == Act(s, e).value.(clock := s.clock + 1);
    match e {
      case Init(i) => InitStepKeepsInv(s, i);
      case Loop(l) => LoopStepKeepsInv(s, l);
      case Stop(p) => StopStepKeepsInv(s, p);
      case Call(c, ce) => CallerStepKeepsInv(s, c, ce);
      case Fly(f, fe) => FlightStepKeepsInv(s, f, fe);
      case Evict(key) =>
    }
  }

  lemma {:induction false} RunKeepsInv(run: seq<State>, i: nat)
    requires Run(run) && i < |run|
    ensures Inv(run[i])
  {
    hide Inv, Step;
    if i == 0 {
      InitialInv(run[0]);
    } else {
      RunKeepsInv(run, i - 1);
      assert Step(run[i - 1], run[i - 1 + 1]);
      StepKeepsInv(run[i - 1], run[i]);
    }
  }

  lemma InitialInv(s: State)
    requires Initial(s)
    ensures Inv(s)
  {
  }

  // ---------------------------------------------------------------- main results

  /** No scan ever runs against a closed DB, and no two DB handles are ever open at once. */
  lemma NoScanOnClosedDB(run: seq<State>, i: nat, f: Id)
    requires Run(run) && i < |run|
    ensures |run[i].db.handles| <= 1
    ensures f in run[i].work.flights && run[i].work.flights[f].pc.Reading? ==>
      run[i].work.flights[f].pc.h in run[i].db.handles
  {
    RunKeepsInv(run, i);
    var s := run[i];
    match Owned(s.ctl, s.db.scanner) {
      case None =>
      case Some(h) => assert |s.db.handles| == |s.db.handles.Keys| == |{h}|;
    }
  }

  lemma StoppedForever(s: State, t: State)
    requires Inv(s) && s.ctl.stop.Stopped? && Step(s, t)
    ensures t.ctl.stop.Stopped?
  {
    hide Inv;
  }

  lemma StoppedHasNoHandles(s: State)
    requires Locking(s) && s.ctl.stop.Stopped?
    ensures s.db.handles == map[]
  {
  }

  /** From the moment Stop returns no handle is open, and none is opened again. */
  lemma {:induction false} StopReleasesHandles(run: seq<State>, i: nat, j: nat)
    requires Run(run) && i <= j < |run| && run[i].ctl.stop.Stopped?
    ensures run[j].ctl.stop.Stopped? && run[j].db.handles == map[]
  {
    hide Step, Locking, Publishing, Freshness, Initial;
    if i < j {
      StopReleasesHandles(run, i, j - 1);
      RunKeepsInv(run, j - 1);
      assert Step(run[j - 1], run[j - 1 + 1]);
      StoppedForever(run[j - 1], run[j]);
    }
    RunKeepsInv(run, j);
    StoppedHasNoHandles(run[j]);
  }

  /** The documents somebody can still see: cached, held by a flight, or handed to a caller. */
  ghost predicate Visible(s: State, doc: Doc) {
    || (exists k :: k in s.work.cache && s.work.cache[k] == doc)
    || (exists f :: f in s.work.flights && DocOf(s.work.flights[f].pc) == Some(doc))
    || (exists c :: c in s.work.callers && s.work.callers[c].Served? && s.work.callers[c].doc == doc)
  }

  /** Once a refresh has installed a DB, a document of another generation is only ever seen if the scan that made it
  had returned before that refresh took the write lock. */
  lemma OlderDocumentsWereScannedBeforeTheLock(run: seq<State>, i: nat, doc: Doc)
    requires Run(run) && i < |run| && Visible(run[i], doc)
    ensures doc.generation != run[i].hist.installed ==> doc.scanned < run[i].hist.installedAt
  {
    RunKeepsInv(run, i);
  }

  /** The published scanner reads at least the generation its refresh had installed on disk: closing the old DB
  before opening the new one is what makes this true. */
  lemma ScannerReadsTheUpdate(run: seq<State>, i: nat)
    requires Run(run) && i < |run| && run[i].db.scanner.Some?
    ensures var s := run[i];
      s.db.scanner.value in s.db.handles && s.db.handles[s.db.scanner.value] == s.hist.installed >= s.hist.target
  {
    RunKeepsInv(run, i);
  }

  /** A caller that has to wait for no writer is refused exactly when no DB was ever installed, the last refresh
  to close the DB failed to open the new one, or Stop has returned. */
  lemma RefusedOnlyForCause(run: seq<State>, i: nat, c: Id)
    requires Run(run) && i < |run|
    requires CallerStep(run[i], c, ReadyForScan).Some?
    ensures CallerStep(run[i], c, ReadyForScan).value.work.callers[c].Refused?
       <==> !run[i].hist.ever || run[i].hist.outage || run[i].ctl.stop.Stopped?
  {
    RunKeepsInv(run, i);
  }

  /** What a caller is served is of a scan for the hash it asked for, and so is what is cached for a hash or comes out
  of a flight for it: a document is never another schematic's. */
  lemma ServedIsOfItsKey(run: seq<State>, i: nat)
    requires Run(run) && i < |run|
    ensures forall c :: c in run[i].work.callers && run[i].work.callers[c].Served? ==>
      run[i].work.callers[c].doc.key == run[i].work.callers[c].key
    ensures forall k :: k in run[i].work.cache ==> run[i].work.cache[k].key == k
    ensures forall f, doc :: f in run[i].work.flights && DocOf(run[i].work.flights[f].pc) == Some(doc) ==>
      doc.key == run[i].work.flights[f].key
  {
    hide Step, Locking, Publishing, Freshness;
    RunKeepsInv(run, i);
    var w := run[i].work;
    forall c | c in w.callers && w.callers[c].Served? ensures w.callers[c].doc.key == w.callers[c].key {
      assert OwnCaller(w, w.callers[c]);
    }
  }

  // ---------------------------------------------------------------- a scan that nobody disturbs

  /** The state after these events, one after the other. */
  function Perform(s: State, events: seq<Event>): Option<State>
    decreases |events|
  {
    if events == [] then Some(s)
    else
      match Act(s, events[0])
      case None => None
      case Some(t) => Perform(t.(clock := s.clock + 1), events[1..])
  }

  lemma PerformNext(s: State, e: Event, rest: seq<Event>)
    requires Act(s, e).Some?
    ensures Perform(s, [e] + rest) == Perform(Act(s, e).value.(clock := s.clock + 1), rest)
  {
    hide Act;
    assert ([e] + rest)[0] == e && ([e] + rest)[1..] == rest;
  }

  /** A request up to its key. */
  function Asking(c: Id, key: Key): seq<Event> { [Call(c, Calls), Call(c, ReadyForScan), Call(c, Hashes(key))] }

  /** A request that finds its document cached. */
  function Hitting(c: Id): seq<Event> { [Call(c, CacheHit)] }

  /** A request that does not, up to the flight it starts. */
  function Missing(c: Id, f: Id): seq<Event> { [Call(c, CacheMiss), Call(c, Joins(f))] }

  /** A scan, and what its caller gets of it. */
  function Scanning(c: Id, f: Id): seq<Event> {
    [Fly(f, FlightLocks), Fly(f, ScanReturns), Fly(f, FlightCaches), Fly(f, FlightReturns), Call(c, Receives)]
  }

  lemma AskingAlone(s: State, c: Id, key: Key, rest: seq<Event>)
    requires c !in s.work.callers && !s.ctl.writer && s.db.scanner.Some?
    ensures Perform(s, Asking(c, key) + rest) == Perform(SetCaller(s, c, Keyed(key)).(clock := s.clock + 3), rest)
  {
    var a := SetCaller(s, c, Calling).(clock := s.clock + 1);
    var b := SetCaller(s, c, Admitted).(clock := s.clock + 2);
    var d := SetCaller(s, c, Keyed(key)).(clock := s.clock + 3);
    var e1, e2, e3 := Call(c, Calls), Call(c, ReadyForScan), Call(c, Hashes(key));
    assert Act(s, e1).Some? && Act(s, e1).value.(clock := s.clock + 1) == a;
    assert Act(a, e2).Some? && Act(a, e2).value.(clock := a.clock + 1) == b;
    assert Act(b, e3).Some? && Act(b, e3).value.(clock := b.clock + 1) == d;
    hide Act;
    PerformNext(s, e1, [e2] + ([e3] + rest));
    PerformNext(a, e2, [e3] + rest);
    PerformNext(b, e3, rest);
    assert Asking(c, key) + rest == [e1] + ([e2] + ([e3] + rest));
  }

  lemma HittingAlone(s: State, c: Id, key: Key)
    requires c in s.work.callers && s.work.callers[c] == Keyed(key) && key in s.work.cache
    ensures Perform(s, Hitting(c)) == Some(SetCaller(s, c, Served(key, s.work.cache[key])).(clock := s.clock + 1))
  {
    PerformNext(s, Call(c, CacheHit), []);
    assert Hitting(c) == [Call(c, CacheHit)] + [];
  }

  lemma MissingAlone(s: State, c: Id, key: Key, f: Id, rest: seq<Event>)
    requires c in s.work.callers && s.work.callers[c] == Keyed(key)
    requires key !in s.work.cache && key !in s.work.active && f !in s.work.flights
    ensures var t := SetCaller(s, c, Waiting(key, f));
      Perform(s, Missing(c, f) + rest)
      == Perform(t.(work := t.work.(active := s.work.active[key := f],
                                    flights := s.work.flights[f := Flight(key, Preparing)]), clock := s.clock + 2),
                                        rest)
  {
    var a := SetCaller(s, c, Missed(key)).(clock := s.clock + 1);
    var e1, e2 := Call(c, CacheMiss), Call(c, Joins(f));
    assert Act(s, e1).Some? && Act(s, e1).value.(clock := s.clock + 1) == a;
    PerformNext(s, e1, [e2] + rest);
    PerformNext(a, e2, rest);
    assert Missing(c, f) + rest == [e1] + ([e2] + rest);
    assert s.work.callers[c := Missed(key)][c := Waiting(key, f)] == s.work.callers[c := Waiting(key, f)];
  }

  lemma ScanningAlone(s: State, c: Id, key: Key, f: Id) returns (t: State)
    requires c in s.work.callers && s.work.callers[c] == Waiting(key, f)
    requires f in s.work.flights && s.work.flights[f] == Flight(key, Preparing) && !s.ctl.writer && s.db.scanner.Some?
    ensures Perform(s, Scanning(c, f)) == Some(t)
    ensures var doc := Doc(key, ContentsOf(s.db, s.db.scanner.value), s.clock + 1);
      && c in t.work.callers && t.work.callers[c] == Served(key, doc)
      && t.work.cache == s.work.cache[key := doc] && key !in t.work.active
  {
    var e1, e2, e3, e4, e5 := Fly(f, FlightLocks), Fly(f, ScanReturns), Fly(f, FlightCaches), Fly(f, FlightReturns),
                              Call(c, Receives);
    var a := Locked(s, f, key);
    var b := Scans(a, f, key);
    var d := Caches(b, f, key);
    var e := Lands(d, f, key);
    t := Delivers(e, c, f, key);
    hide Act;
    PerformNext(s, e1, [e2] + ([e3] + ([e4] + ([e5] + []))));
    PerformNext(a, e2, [e3] + ([e4] + ([e5] + [])));
    PerformNext(b, e3, [e4] + ([e5] + []));
    PerformNext(d, e4, [e5] + []);
    PerformNext(e, e5, []);
    assert Scanning(c, f) == [e1] + ([e2] + ([e3] + ([e4] + ([e5] + []))));
  }

  predicate Does(s: State, e: Event, t: State) { Act(s, e).Some? && Act(s, e).value.(clock := s.clock + 1) == t }

  lemma Locked(s: State, f: Id, key: Key) returns (t: State)
    requires f in s.work.flights && s.work.flights[f] == Flight(key, Preparing) && !s.ctl.writer && s.db.scanner.Some?
    ensures Does(s, Fly(f, FlightLocks), t) && t.db == s.db && t.clock == s.clock + 1
    ensures t.work == s.work.(flights := s.work.flights[f := Flight(key, Reading(s.db.scanner.value))])
  {
    t := Act(s, Fly(f, FlightLocks)).value.(clock := s.clock + 1);
  }

  lemma Scans(s: State, f: Id, key: Key) returns (t: State)
    requires f in s.work.flights && s.work.flights[f].key == key && s.work.flights[f].pc.Reading?
    ensures Does(s, Fly(f, ScanReturns), t) && t.clock == s.clock + 1
    ensures var doc := Doc(key, ContentsOf(s.db, s.work.flights[f].pc.h), s.clock);
      t.work == s.work.(flights := s.work.flights[f := Flight(key, Scanned(doc))])
  {
    t := Act(s, Fly(f, ScanReturns)).value.(clock := s.clock + 1);
  }

  lemma Caches(s: State, f: Id, key: Key) returns (t: State)
    requires f in s.work.flights && s.work.flights[f].key == key && s.work.flights[f].pc.Scanned?
    ensures Does(s, Fly(f, FlightCaches), t) && t.clock == s.clock + 1
    ensures var doc := s.work.flights[f].pc.doc;
      t.work == s.work.(flights := s.work.flights[f := Flight(key, Cached(doc))], cache := s.work.cache[key := doc])
  {
    t := Act(s, Fly(f, FlightCaches)).value.(clock := s.clock + 1);
  }

  lemma Lands(s: State, f: Id, key: Key) returns (t: State)
    requires f in s.work.flights && s.work.flights[f].key == key && s.work.flights[f].pc.Cached?
    ensures Does(s, Fly(f, FlightReturns), t) && t.clock == s.clock + 1
    ensures var doc := s.work.flights[f].pc.doc;
      && t.work.cache == s.work.cache && t.work.callers == s.work.callers && key !in t.work.active
      && f in t.work.flights && t.work.flights[f].pc == Finished(Some(doc))
  {
    t := Act(s, Fly(f, FlightReturns)).value.(clock := s.clock + 1);
  }

  lemma Delivers(s: State, c: Id, f: Id, key: Key) returns (t: State)
    requires c in s.work.callers && s.work.callers[c] == Waiting(key, f)
    requires f in s.work.flights && s.work.flights[f].pc.Finished? && s.work.flights[f].pc.result.Some?
    ensures Does(s, Call(c, Receives), t)
    ensures c in t.work.callers && t.work.callers[c] == Served(key, s.work.flights[f].pc.result.value)
    ensures t.work.cache == s.work.cache && t.work.active == s.work.active
  {
    t := Act(s, Call(c, Receives)).value.(clock := s.clock + 1);
  }

  /** In any reachable state in which a scanner was installed and not lost, a request that nobody disturbs is served:
  the document that is cached for its hash, or else, unless such a scan is under way, that of a scan by the installed
  DB, which then is cached for the next one. */
  lemma ServedAlone(run: seq<State>, s: State, c: Id, key: Key, f: Id) returns (t: State)
    requires Run(run) && s == run[|run| - 1] && c !in s.work.callers && f !in s.work.flights
    requires !s.ctl.writer && s.hist.ever && !s.hist.outage && !s.ctl.stop.Stopped?
    requires key !in s.work.cache ==> key !in s.work.active
    ensures Perform(s, if key in s.work.cache then Asking(c, key) + Hitting(c)
                       else Asking(c, key) + (Missing(c, f) + Scanning(c, f))) == Some(t)
    ensures c in t.work.callers && t.work.callers[c].Served? && t.work.callers[c].key == key
    ensures var doc := t.work.callers[c].doc;
      if key in s.work.cache then doc == s.work.cache[key]
      else doc.key == key && doc.generation == s.hist.installed && doc.scanned > s.clock
           && t.work.cache == s.work.cache[key := doc] && key !in t.work.active
  {
    RunKeepsInv(run, |run| - 1);
    assert s.db.scanner.Some? && ContentsOf(s.db, s.db.scanner.value) == s.hist.installed;
    hide Step, Inv, Run, ContentsOf, Perform;
    var a := SetCaller(s, c, Keyed(key)).(clock := s.clock + 3);
    if key in s.work.cache {
      AskingAlone(s, c, key, Hitting(c));
      HittingAlone(a, c, key);
      t := SetCaller(a, c, Served(key, s.work.cache[key])).(clock := a.clock + 1);
    } else {
      AskingAlone(s, c, key, Missing(c, f) + Scanning(c, f));
      MissingAlone(a, c, key, f, Scanning(c, f));
      var b := SetCaller(a, c, Waiting(key, f));
      b := b.(work :=
              b.work.(active := a.work.active[key := f], flights := a.work.flights[f := Flight(key, Preparing)]),
              clock := a.clock + 2);
      t := ScanningAlone(b, c, key, f);
    }
  }

  /** Initialisation that nobody disturbs installs the DB that it loads, at least as new as what is on disk; or leaves
  the scanner unready when it fails. */
  lemma StartedAlone(s: State, generation: nat) returns (t: State)
    requires Initial(s) && generation >= s.db.disk
    ensures Perform(s, [Init(InitLoads(generation))] + ([Init(InitStores)] + [Init(InitCloses)])) == Some(t)
    ensures t.ctl.init.InitDone? && t.db.scanner.Some? && t.hist.ever && t.hist.installed == generation == t.db.disk
    ensures var failed := Perform(s, [Init(InitFails)] + [Init(InitCloses)]);
      failed.Some? && failed.value.ctl.init.InitDone? && failed.value.db.scanner.None? && failed.value.db.initErr
  {
    PerformNext(s, Init(InitLoads(generation)), [Init(InitStores)] + [Init(InitCloses)]);
    var x := Act(s, Init(InitLoads(generation))).value.(clock := s.clock + 1);
    PerformNext(x, Init(InitStores), [Init(InitCloses)]);
    var y := Act(x, Init(InitStores)).value.(clock := x.clock + 1);
    assert [Init(InitCloses)] + [] == [Init(InitCloses)];
    PerformNext(y, Init(InitCloses), []);
    t := Act(y, Init(InitCloses)).value.(clock := y.clock + 1);
    PerformNext(s, Init(InitFails), [Init(InitCloses)]);
    var z := Act(s, Init(InitFails)).value.(clock := s.clock + 1);
    PerformNext(z, Init(InitCloses), []);
  }
}
