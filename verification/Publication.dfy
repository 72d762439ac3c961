/** Building and publishing Installer images (internal/registry/service.go, internal/registry/publication.go): many
replicas over one registry.

The registry only grows, except that tags are overwritten. Each event is one atomic action; a replica may stop between
any two of them, which leaves its flights where they are. Signatures are ideal: verification can fail for any reason
but succeeds only on what was signed, and evidence verifies only where it was published. */
module Publication {
  import opened Strings
  import opened Versions

  type Digest = string

  /** The repository of an image name and a schematic. */
  datatype Repo = Repo(image: string, schematic: string)
  datatype Ref = Ref(repo: Repo, digest: Digest)
  datatype Request = Request(repo: Repo, tag: string)

  datatype Registry = Registry(staged: set<Ref>, evidence: set<Ref>, signed: set<Ref>, tags: map<Request, Digest>)

  /** What a build is for. `publisher` says whether its replica has an evidence publisher. */
  datatype Job = Job(request: Request, version: Version, publisher: bool)

  predicate NeedsEvidence(job: Job) { job.publisher && InstallerEvidenceSupported(job.version) }

  /** What has been built and verified so far, for which builds each index was signed, which tags have ever been on
  which index, and which build each tag is from. */
  datatype History = History(
    built: set<(Request, Digest)>, evidence: set<Ref>, signature: set<Ref>, signedFor: set<(Ref, Job)>,
    tagged: set<(Request, Digest)>, promoted: map<Request, Job>)

  datatype BuildPC =
    | Building | Built(d: Digest) | Staged(d: Digest) | Published(d: Digest) | EvidenceVerified(d: Digest)
    | Signed(d: Digest) | SignatureVerified(d: Digest) | Promoted(d: Digest) | Returned(result: Option<Digest>)

  datatype Flight = Flight(replica: nat, key: string, job: Job, pc: BuildPC)

  datatype CallerPC =
    | Asked | Hit(d: Digest) | Missed | Waiting(f: nat) | Answered(d: Digest) | Redirected | Failed

  datatype Caller = Caller(replica: nat, request: Request, pc: CallerPC)

  datatype Work = Work(active: map<(nat, string), nat>, flights: map<nat, Flight>, callers: map<nat, Caller>)

  datatype State = State(reg: Registry, hist: History, work: Work)

  /** How version tags parse, and which replicas have an evidence publisher. */
  datatype Config = Config(parse: string -> Option<Version>, publishes: nat -> bool)

  ghost predicate Initial(s: State) {
    && s.reg == Registry({}, {}, {}, map[])
    && s.hist == History({}, {}, {}, {}, {}, map[])
    && s.work == Work(map[], map[], map[])
  }

  /** The key of a build's flight. */
  function Key(r: Request): string { r.repo.image + "-" + (r.repo.schematic + "-" + r.tag) }

  // ---------------------------------------------------------------- steps

  datatype BuildEvent =
    | Builds(d: Digest) | Stages | Publishes | VerifiesEvidence | Signs | VerifiesSignature | Promotes | Returns | Fails

  datatype CallEvent = Asks(replica: nat, request: Request) | Heads | VerifiesHit(ok: bool) | Joins(f: nat) | Receives
      | GivesUp

  datatype Event = Build(f: nat, be: BuildEvent) | Call(c: nat, ce: CallEvent)

  function SetPC(w: Work, f: nat, pc: BuildPC): Work
    requires f in w.flights
  {
    w.(flights := w.flights[f := w.flights[f].(pc := pc)])
  }

  /** The flight's function returns and its key is released. */
  function Finish(w: Work, f: nat, result: Option<Digest>): Work
    requires f in w.flights
  {
    SetPC(w, f, Returned(result)).(active := w.active - {(w.flights[f].replica, w.flights[f].key)})
  }

  /** One step of PublishInstallerIndex; evidence is only published and verified for a build that needs it. */
  function BuildStep(s: State, f: nat, e: BuildEvent): Option<State> {
    if f !in s.work.flights then None
    else
      var job, pc := s.work.flights[f].job, s.work.flights[f].pc;
      match e
      case Builds(d) =>
        if pc.Building? then
          Some(s.(work := SetPC(s.work, f, Built(d)), hist := s.hist.(built := s.hist.built + {(job.request, d)})))
        else None
      case Stages =>
        if pc.Built? then
          Some(s.(work := SetPC(s.work, f, Staged(pc.d)),
                  reg := s.reg.(staged := s.reg.staged + {Ref(job.request.repo, pc.d)})))
        else None
      case Publishes =>
        if pc.Staged? && NeedsEvidence(job) then
          Some(s.(work := SetPC(s.work, f, Published(pc.d)),
                  reg := s.reg.(evidence := s.reg.evidence + {Ref(job.request.repo, pc.d)})))
        else None
      case VerifiesEvidence =>
        if pc.Published? && Ref(job.request.repo, pc.d) in s.reg.evidence then
          Some(s.(work := SetPC(s.work, f, EvidenceVerified(pc.d)),
                  hist := s.hist.(evidence := s.hist.evidence + {Ref(job.request.repo, pc.d)})))
        else None
      case Signs =>
        if pc.EvidenceVerified? || (pc.Staged? && !NeedsEvidence(job)) then
          Some(s.(work := SetPC(s.work, f, Signed(pc.d)),
                  reg := s.reg.(signed := s.reg.signed + {Ref(job.request.repo, pc.d)}),
                  hist := s.hist.(signedFor := s.hist.signedFor + {(Ref(job.request.repo, pc.d), job)})))
        else None
      case VerifiesSignature =>
        if pc.Signed? && Ref(job.request.repo, pc.d) in s.reg.signed then
          Some(s.(work := SetPC(s.work, f, SignatureVerified(pc.d)),
                  hist := s.hist.(signature := s.hist.signature + {Ref(job.request.repo, pc.d)})))
        else None
      case Promotes =>
        if pc.SignatureVerified? then
          Some(s.(work := SetPC(s.work, f, Promoted(pc.d)),
                  reg := s.reg.(tags := s.reg.tags[job.request := pc.d]),
                  hist := s.hist.(tagged := s.hist.tagged + {(job.request, pc.d)},
                                  promoted := s.hist.promoted[job.request := job])))
        else None
      case Returns => if pc.Promoted? then Some(s.(work := Finish(s.work, f, Some(pc.d)))) else None
      case Fails => if !pc.Returned? then Some(s.(work := Finish(s.work, f, None))) else None
  }

  /** Whether a reference is taken to be a version; any other one is redirected as it is. */
  predicate IsVersionTag(tag: string) { !("sha256:" <= tag) && "v" <= tag }

  function SetCaller(s: State, c: nat, pc: CallerPC): State
    requires c in s.work.callers
  {
    s.(work := s.work.(callers := s.work.callers[c := s.work.callers[c].(pc := pc)]))
  }

  function CallStep(conf: Config, s: State, c: nat, e: CallEvent): Option<State> {
    if e.Asks? then
      if c in s.work.callers then None
      else
        var pc := if IsVersionTag(e.request.tag) then Asked else Redirected;
        Some(s.(work := s.work.(callers := s.work.callers[c := Caller(e.replica, e.request, pc)])))
    else if c !in s.work.callers then None
    else
      var request, pc := s.work.callers[c].request, s.work.callers[c].pc;
      match e
      case Asks(_, _) => None
      case Heads =>
        if pc.Asked? then
          Some(SetCaller(s, c, if request in s.reg.tags then Hit(s.reg.tags[request]) else Missed))
        else None
      case VerifiesHit(ok) =>  // when it fails the image is rebuilt
        if !pc.Hit? then None
        else if !ok then Some(SetCaller(s, c, Missed))
        else if Ref(request.repo, pc.d) !in s.reg.signed then None
        else
          var t := SetCaller(s, c, Answered(pc.d));
          Some(t.(hist := s.hist.(signature := s.hist.signature + {Ref(request.repo, pc.d)})))
      case Joins(f) => if pc.Missed? then JoinFlight(conf, s, c, f) else None
      case Receives =>
        if pc.Waiting? && pc.f in s.work.flights && s.work.flights[pc.f].pc.Returned? then
          var result := s.work.flights[pc.f].pc.result;
          Some(SetCaller(s, c, if result.Some? then Answered(result.value) else Failed))
        else None
      case GivesUp =>  // the registry does not answer, or the client goes away
        if pc.Asked? || pc.Waiting? then Some(SetCaller(s, c, Failed)) else None
  }

  function JoinFlight(conf: Config, s: State, c: nat, f: nat): Option<State>
    requires c in s.work.callers
  {
    var caller := s.work.callers[c];
    var key := Key(caller.request);
    if conf.parse(caller.request.tag).None? then Some(SetCaller(s, c, Failed))
    else if (caller.replica, key) in s.work.active then
      Some(SetCaller(s, c, Waiting(s.work.active[(caller.replica, key)])))
    else if f in s.work.flights then None
    else
      var job := Job(caller.request, conf.parse(caller.request.tag).value, conf.publishes(caller.replica));
      var t := SetCaller(s, c, Waiting(f));
      Some(t.(work := t.work.(active := s.work.active[(caller.replica, key) := f],
                              flights := s.work.flights[f := Flight(caller.replica, key, job, Building)])))
  }

  function Next(conf: Config, s: State, e: Event): Option<State> {
    match e
    case Build(f, be) => BuildStep(s, f, be)
    case Call(c, ce) => CallStep(conf, s, c, ce)
  }

  ghost predicate Step(conf: Config, s: State, t: State) { exists e :: Next(conf, s, e) == Some(t) }

  ghost predicate Run(conf: Config, run: seq<State>) {
    && run != []
    && Initial(run[0])
    && forall i :: 0 <= i < |run| - 1 ==> Step(conf, run[i], run[i + 1])
  }

  // ---------------------------------------------------------------- invariant

  predicate EvidenceIfNeeded(hist: History, job: Job, d: Digest) {
    NeedsEvidence(job) ==> Ref(job.request.repo, d) in hist.evidence
  }

  /** The index of a build, once it has one. */
  function IndexOf(pc: BuildPC): Option<Digest> {
    match pc
    case Building => None
    case Returned(r) => r
    case _ => Some(pc.d)
  }

  /** What a build has established by the time it gets to `pc`, about the index that it built. */
  predicate Established(reg: Registry, hist: History, job: Job, pc: BuildPC) {
    && (IndexOf(pc).Some? ==> (job.request, IndexOf(pc).value) in hist.built)
    && match pc
       case Building => true
       case Built(_) => true
       case Staged(d) => Ref(job.request.repo, d) in reg.staged
       case Published(d) => Ref(job.request.repo, d) in reg.staged && Ref(job.request.repo, d) in reg.evidence
       case EvidenceVerified(d) => Ref(job.request.repo, d) in reg.staged && Ref(job.request.repo, d) in hist.evidence
       case Signed(d) => Ref(job.request.repo, d) in reg.signed && EvidenceIfNeeded(hist, job, d)
       case SignatureVerified(d) => Ref(job.request.repo, d) in hist.signature && EvidenceIfNeeded(hist, job, d)
       case Promoted(d) => (job.request, d) in hist.tagged
       case Returned(r) => r.Some? ==> (job.request, r.value) in hist.tagged
  }

  /** Verified means there; signed means staged, and signed for some build of that index whose evidence had been
  verified if it needed any; tagged means built for that tag, and verified. */
  predicate Records(reg: Registry, hist: History) {
    && hist.signature <= reg.signed <= reg.staged
    && hist.evidence <= reg.evidence
    && (forall p :: p in hist.signedFor ==>
          && p.0 in reg.signed && p.0.repo == p.1.request.repo && (p.1.request, p.0.digest) in hist.built
          && (NeedsEvidence(p.1) ==> p.0 in hist.evidence))
    && (forall p :: p in hist.tagged ==> p in hist.built && Ref(p.0.repo, p.1) in hist.signature)
    && (forall request :: request in reg.tags ==> (request, reg.tags[request]) in hist.tagged)
  }

  ghost predicate Signers(reg: Registry, hist: History) {
    forall r :: r in reg.signed ==> exists job :: (r, job) in hist.signedFor
  }

  /** A tag is from a build of that tag, which had its evidence verified if it needed any. */
  predicate Origins(reg: Registry, hist: History) {
    forall request :: request in reg.tags ==>
      && request in hist.promoted && hist.promoted[request].request == request
      && EvidenceIfNeeded(hist, hist.promoted[request], reg.tags[request])
  }

  /** A job of some replica of this deployment. */
  ghost predicate JobOf(conf: Config, job: Job) {
    conf.parse(job.request.tag) == Some(job.version) && exists replica :: conf.publishes(replica) == job.publisher
  }

  ghost predicate Jobs(conf: Config, s: State) {
    && (forall f :: f in s.work.flights ==> JobOf(conf, s.work.flights[f].job))
    && (forall r :: r in s.hist.promoted ==> JobOf(conf, s.hist.promoted[r]))
  }

  predicate BuildsHold(reg: Registry, hist: History, flights: map<nat, Flight>) {
    forall f :: f in flights ==>
      flights[f].key == Key(flights[f].job.request) && Established(reg, hist, flights[f].job, flights[f].pc)
  }

  /** A caller waits for, or was answered by, a build of its own key, or verified what it found under its own tag. */
  predicate CallerOK(hist: History, w: Work, caller: Caller) {
    match caller.pc
    case Hit(d) => (caller.request, d) in hist.tagged
    case Waiting(f) => f in w.flights && w.flights[f].key == Key(caller.request)
    case Answered(d) =>
      || (caller.request, d) in hist.tagged
      || exists f :: f in w.flights && w.flights[f].key == Key(caller.request) && w.flights[f].pc == Returned(Some(d))
    case _ => true
  }

  predicate Callers(hist: History, w: Work) {
    && (forall k :: k in w.active ==> w.active[k] in w.flights && w.flights[w.active[k]].key == k.1)
    && (forall c :: c in w.callers ==> CallerOK(hist, w, w.callers[c]))
  }

  ghost predicate Inv(s: State) {
    && Records(s.reg, s.hist)
    && Signers(s.reg, s.hist)
    && Origins(s.reg, s.hist)
    && BuildsHold(s.reg, s.hist, s.work.flights)
    && Callers(s.hist, s.work)
  }

  /** Registry and history only grow. */
  predicate Grows(s: State, t: State) {
    && s.reg.staged <= t.reg.staged && s.reg.evidence <= t.reg.evidence && s.reg.signed <= t.reg.signed
    && s.hist.evidence <= t.hist.evidence && s.hist.signature <= t.hist.signature
    && s.hist.built <= t.hist.built && s.hist.tagged <= t.hist.tagged
  }

  lemma EstablishedGrows(s: State, t: State, job: Job, pc: BuildPC)
    requires Grows(s, t) && Established(s.reg, s.hist, job, pc)
    ensures Established(t.reg, t.hist, job, pc)
  {
  }

  lemma BuildStepGrows(s: State, f: nat, e: BuildEvent)
    requires BuildStep(s, f, e).Some?
    ensures Grows(s, BuildStep(s, f, e).value)
  {
  }

  lemma BuildStepKeepsRecords(s: State, f: nat, e: BuildEvent)
    requires Records(s.reg, s.hist) && Signers(s.reg, s.hist) && BuildStep(s, f, e).Some?
    requires Established(s.reg, s.hist, s.work.flights[f].job, s.work.flights[f].pc)
    ensures var t := BuildStep(s, f, e).value; Records(t.reg, t.hist)
  {
  }

  lemma BuildStepKeepsOrigins(s: State, f: nat, e: BuildEvent)
    requires Origins(s.reg, s.hist) && BuildStep(s, f, e).Some?
    requires Established(s.reg, s.hist, s.work.flights[f].job, s.work.flights[f].pc)
    ensures var t := BuildStep(s, f, e).value; Origins(t.reg, t.hist)
  {
    hide NeedsEvidence;
  }

  lemma BuildStepKeepsSigners(s: State, f: nat, e: BuildEvent)
    requires Signers(s.reg, s.hist) && BuildStep(s, f, e).Some?
    ensures var t := BuildStep(s, f, e).value; Signers(t.reg, t.hist)
  {
    var t := BuildStep(s, f, e).value;
    forall r | r in t.reg.signed ensures exists job :: (r, job) in t.hist.signedFor {
      if r in s.reg.signed {
        var job :| (r, job) in s.hist.signedFor;
        assert (r, job) in t.hist.signedFor;
      } else {
        assert (r, s.work.flights[f].job) in t.hist.signedFor;
      }
    }
  }

  lemma OwnStepEstablishes(s: State, f: nat, e: BuildEvent)
    requires Records(s.reg, s.hist) && BuildStep(s, f, e).Some?
    requires Established(s.reg, s.hist, s.work.flights[f].job, s.work.flights[f].pc)
    ensures var t := BuildStep(s, f, e).value;
      Established(t.reg, t.hist, t.work.flights[f].job, t.work.flights[f].pc)
  {
  }

  lemma BuildStepKeepsFlights(s: State, f: nat, e: BuildEvent)
    requires BuildStep(s, f, e).Some?
    ensures var t := BuildStep(s, f, e).value;
      && t.work.flights.Keys == s.work.flights.Keys
      && (forall g :: g in s.work.flights ==>
            && t.work.flights[g].key == s.work.flights[g].key && t.work.flights[g].job == s.work.flights[g].job
            && t.work.flights[g].replica == s.work.flights[g].replica
            && (g != f || s.work.flights[g].pc.Returned? ==> t.work.flights[g] == s.work.flights[g]))
      && (forall k :: k in t.work.active ==> k in s.work.active && t.work.active[k] == s.work.active[k])
      && t.work.callers == s.work.callers
  {
  }

  lemma BuildStepKeepsInv(s: State, f: nat, e: BuildEvent)
    requires Inv(s) && BuildStep(s, f, e).Some?
    ensures Inv(BuildStep(s, f, e).value)
  {
    hide Records, Signers, Origins, Established, BuildStep, Grows, Key;
    var t := BuildStep(s, f, e).value;
    FlightExists(s, f, e);
    BuildStepGrows(s, f, e);
    BuildStepKeepsRecords(s, f, e);
    BuildStepKeepsSigners(s, f, e);
    BuildStepKeepsOrigins(s, f, e);
    BuildStepKeepsFlights(s, f, e);
    OwnStepEstablishes(s, f, e);
    forall g | g in t.work.flights ensures Established(t.reg, t.hist, t.work.flights[g].job, t.work.flights[g].pc) {
      if g != f {
        EstablishedGrows(s, t, s.work.flights[g].job, s.work.flights[g].pc);
      }
    }
    forall c | c in t.work.callers ensures CallerOK(t.hist, t.work, t.work.callers[c]) {
      CallerStaysOK(s, t, s.work.callers[c]);
    }
  }

  lemma FlightExists(s: State, f: nat, e: BuildEvent)
    requires BuildStep(s, f, e).Some?
    ensures f in s.work.flights
  {
  }

  lemma CallerStaysOK(s: State, t: State, caller: Caller)
    requires CallerOK(s.hist, s.work, caller) && Grows(s, t)
    requires forall g :: g in s.work.flights ==>
      && g in t.work.flights && t.work.flights[g].key == s.work.flights[g].key
      && (s.work.flights[g].pc.Returned? ==> t.work.flights[g] == s.work.flights[g])
    ensures CallerOK(t.hist, t.work, caller)
  {
    hide Key;
  }

  lemma CallStepGrows(conf: Config, s: State, c: nat, e: CallEvent)
    requires Records(s.reg, s.hist) && Signers(s.reg, s.hist) && Origins(s.reg, s.hist)
    requires CallStep(conf, s, c, e).Some?
    ensures var t := CallStep(conf, s, c, e).value;
      Grows(s, t) && t.reg == s.reg && Records(t.reg, t.hist) && Signers(t.reg, t.hist) && Origins(t.reg, t.hist)
  {
    hide Key;
  }

  lemma CallStepKeepsFlights(conf: Config, s: State, c: nat, e: CallEvent)
    requires Callers(s.hist, s.work) && CallStep(conf, s, c, e).Some?
    ensures var t := CallStep(conf, s, c, e).value;
      && (forall g :: g in s.work.flights ==> g in t.work.flights && t.work.flights[g] == s.work.flights[g])
      && (forall g :: g in t.work.flights && g !in s.work.flights ==>
            t.work.flights[g].pc.Building? && t.work.flights[g].key == Key(t.work.flights[g].job.request))
      && (forall k :: k in t.work.active ==>
          t.work.active[k] in t.work.flights && t.work.flights[t.work.active[k]].key == k.1)
  {
    hide Key, CallerOK;
  }

  lemma OwnCallOK(conf: Config, s: State, c: nat, e: CallEvent, d: nat)
    requires Records(s.reg, s.hist) && Callers(s.hist, s.work) && CallStep(conf, s, c, e).Some?
    requires d in CallStep(conf, s, c, e).value.work.callers && (d !in s.work.callers || d == c)
    ensures var t := CallStep(conf, s, c, e).value; CallerOK(t.hist, t.work, t.work.callers[d])
  {
    hide Key;
    var t := CallStep(conf, s, c, e).value;
    assert c in s.work.callers ==> CallerOK(s.hist, s.work, s.work.callers[c]);
    if e.Receives? {
      var f := s.work.callers[c].pc.f;
      assert f in t.work.flights && t.work.flights[f] == s.work.flights[f];
    }
  }

  lemma OtherCallers(conf: Config, s: State, c: nat, e: CallEvent, d: nat)
    requires CallStep(conf, s, c, e).Some? && d in s.work.callers && d != c
    ensures var t := CallStep(conf, s, c, e).value; d in t.work.callers && t.work.callers[d] == s.work.callers[d]
  {
    hide Key;
  }

  lemma CallStepKeepsInv(conf: Config, s: State, c: nat, e: CallEvent)
    requires Inv(s) && CallStep(conf, s, c, e).Some?
    ensures Inv(CallStep(conf, s, c, e).value)
  {
    hide Records, Signers, Origins, CallStep, Grows, Key, CallerOK;
    var t := CallStep(conf, s, c, e).value;
    CallStepGrows(conf, s, c, e);
    CallStepKeepsFlights(conf, s, c, e);
    forall g | g in t.work.flights ensures Established(t.reg, t.hist, t.work.flights[g].job, t.work.flights[g].pc) {
      if g in s.work.flights {
        EstablishedGrows(s, t, s.work.flights[g].job, s.work.flights[g].pc);
      }
    }
    forall d | d in t.work.callers ensures CallerOK(t.hist, t.work, t.work.callers[d]) {
      if d in s.work.callers && d != c {
        OtherCallers(conf, s, c, e, d);
        CallerStaysOK(s, t, s.work.callers[d]);
      } else {
        OwnCallOK(conf, s, c, e, d);
      }
    }
  }

  lemma {:induction false} RunKeepsInv(conf: Config, run: seq<State>, i: nat)
    requires Run(conf, run) && i < |run|
    ensures Inv(run[i])
  {
    hide Inv, BuildStep, CallStep;
    if i == 0 {
      InitialInv(run[0]);
    } else {
      RunKeepsInv(conf, run, i - 1);
      assert Step(conf, run[i - 1], run[i - 1 + 1]);
      var e :| Next(conf, run[i - 1], e) == Some(run[i]);
      match e {
        case Build(f, be) => BuildStepKeepsInv(run[i - 1], f, be);
        case Call(c, ce) => CallStepKeepsInv(conf, run[i - 1], c, ce);
      }
    }
  }

  lemma InitialInv(s: State)
    requires Initial(s)
    ensures Inv(s)
  {
  }

  lemma StepKeepsJobs(conf: Config, s: State, e: Event)
    requires Jobs(conf, s) && Next(conf, s, e).Some?
    ensures Jobs(conf, Next(conf, s, e).value)
  {
    hide JobOf;
    var t := Next(conf, s, e).value;
    forall f | f in t.work.flights && f !in s.work.flights ensures JobOf(conf, t.work.flights[f].job) {
      NewJob(conf, s, e, f);
    }
  }

  lemma NewJob(conf: Config, s: State, e: Event, f: nat)
    requires Next(conf, s, e).Some? && f !in s.work.flights && f in Next(conf, s, e).value.work.flights
    ensures JobOf(conf, Next(conf, s, e).value.work.flights[f].job)
  {
    hide Key;
    assert e.Call? && e.ce.Joins?;
    assert conf.publishes(s.work.callers[e.c].replica) == Next(conf, s, e).value.work.flights[f].job.publisher;
  }

  lemma {:induction false} RunKeepsJobs(conf: Config, run: seq<State>, i: nat)
    requires Run(conf, run) && i < |run|
    ensures Jobs(conf, run[i])
  {
    hide Next;
    if i > 0 {
      RunKeepsJobs(conf, run, i - 1);
      assert Step(conf, run[i - 1], run[i - 1 + 1]);
      var e :| Next(conf, run[i - 1], e) == Some(run[i]);
      StepKeepsJobs(conf, run[i - 1], e);
    }
  }

  // ---------------------------------------------------------------- main results

  /** A version tag points at an index that is staged and signed, and whose signature was verified. */
  lemma TaggedIsSigned(conf: Config, run: seq<State>, i: nat, request: Request)
    requires Run(conf, run) && i < |run| && request in run[i].reg.tags
    ensures var s := run[i];
      var ref := Ref(request.repo, s.reg.tags[request]);
      ref in s.reg.staged && ref in s.reg.signed && ref in s.hist.signature
  {
    hide Step, BuildsHold, Callers;
    RunKeepsInv(conf, run, i);
  }

  /** When every replica has an evidence publisher, a tag of a version from 1.13.0 on points at an index whose evidence
  was published and verified. */
  lemma TaggedHasEvidence(conf: Config, run: seq<State>, i: nat, request: Request)
    requires Run(conf, run) && i < |run| && request in run[i].reg.tags
    requires forall replica :: conf.publishes(replica)
    requires conf.parse(request.tag).Some? && InstallerEvidenceSupported(conf.parse(request.tag).value)
    ensures var ref := Ref(request.repo, run[i].reg.tags[request]);
      ref in run[i].hist.evidence && ref in run[i].reg.evidence
  {
    hide Run, BuildsHold, Callers, Signers, InstallerEvidenceSupported;
    RunKeepsInv(conf, run, i);
    RunKeepsJobs(conf, run, i);
    assert JobOf(conf, run[i].hist.promoted[request]);
  }

  /** An index that is signed was signed for some build in its repository, and the evidence that build needed had been
  published and verified. */
  lemma SignedHasEvidence(conf: Config, run: seq<State>, i: nat, r: Ref) returns (job: Job)
    requires Run(conf, run) && i < |run| && r in run[i].reg.signed
    ensures (r, job) in run[i].hist.signedFor && job.request.repo == r.repo
    ensures NeedsEvidence(job) ==> r in run[i].hist.evidence && r in run[i].reg.evidence
  {
    hide Step, BuildsHold, Callers;
    RunKeepsInv(conf, run, i);
    job :| (r, job) in run[i].hist.signedFor;
  }

  /** An index of a version from 1.13.0 on that was only ever signed by replicas with an evidence publisher has
  verified evidence. An index digest determines its version, unless two versions build the same bytes: this is what
  the hypothesis about `signedFor` says. */
  lemma EvidenceFrom113On(conf: Config, run: seq<State>, i: nat, r: Ref)
    requires Run(conf, run) && i < |run| && r in run[i].reg.signed
    requires forall job :: (r, job) in run[i].hist.signedFor ==>
      job.publisher && InstallerEvidenceSupported(job.version)
    ensures r in run[i].hist.evidence && r in run[i].reg.evidence
  {
    hide Step, Run, InstallerEvidenceSupported;
    var job := SignedHasEvidence(conf, run, i, r);
  }

  /** The index was built for that request, its tag was moved there, and its signature was verified. */
  predicate WasPromoted(hist: History, request: Request, d: Digest) {
    (request, d) in hist.built && (request, d) in hist.tagged && Ref(request.repo, d) in hist.signature
  }

  /** What Manifest answers for a version tag is the digest of an index that was promoted for that very tag, or for one
  whose builds share its flight key. */
  lemma AnswerWasVerified(conf: Config, run: seq<State>, i: nat, c: nat)
    requires Run(conf, run) && i < |run| && c in run[i].work.callers && run[i].work.callers[c].pc.Answered?
    ensures var caller := run[i].work.callers[c];
      || WasPromoted(run[i].hist, caller.request, caller.pc.d)
      || exists request :: Key(request) == Key(caller.request) && WasPromoted(run[i].hist, request, caller.pc.d)
  {
    hide Step, Key, Signers;
    RunKeepsInv(conf, run, i);
    var s := run[i];
    var caller := s.work.callers[c];
    assert CallerOK(s.hist, s.work, caller);
    if (caller.request, caller.pc.d) !in s.hist.tagged {
      var f :| f in s.work.flights && s.work.flights[f].key == Key(caller.request)
               && s.work.flights[f].pc == Returned(Some(caller.pc.d));
      var request := s.work.flights[f].job.request;
      assert Key(request) == Key(caller.request) && WasPromoted(s.hist, request, caller.pc.d);
    }
  }

  // ---------------------------------------------------------------- when flight keys are ambiguous

  /** The image names that are accepted. */
  predicate IsInstallerImage(image: string) {
    || image == "installer" || image == "installer-secureboot"
    || HasSuffix(image, "-installer-secureboot") || HasSuffix(image, "-installer")
  }

  /** An accepted image name, a schematic id, and a version tag. */
  predicate WellFormed(r: Request) {
    && IsInstallerImage(r.repo.image)
    && NoDash(r.repo.schematic)
    && r.tag != "" && r.tag[0] == 'v'
  }

  /** `a`'s version tag contains the rest of `b`'s image name, `b`'s schematic and `b`'s version tag. */
  ghost predicate Contains(a: Request, b: Request) {
    exists w :: ContainsBy(a, b, w)
  }

  predicate ContainsBy(a: Request, b: Request, w: string) {
    && a.tag == w + "-" + (b.repo.schematic + "-" + b.tag)
    && b.repo.image == a.repo.image + "-" + (a.repo.schematic + "-" + w)
  }

  lemma ContainedKeysAgree(a: Request, b: Request, w: string)
    requires ContainsBy(a, b, w)
    ensures Key(a) == Key(b)
  {
    var sep := "-";
    Reassociate(a.repo.image, sep, a.repo.schematic, sep, w, sep, b.repo.schematic + sep + b.tag);
    assert b.repo.schematic + "-" + b.tag == b.repo.schematic + sep + b.tag;
  }

  lemma Reassociate(a: string, b: string, c: string, d: string, e: string, f: string, g: string)
    ensures a + b + (c + d + (e + f + g)) == (a + b + (c + d + e)) + f + g
  {
  }

  /** Two requests share a flight key exactly when they are the same request, or the version tag of one contains the
  schematic and the version tag of the other. */
  lemma KeysAgreeIff(a: Request, b: Request)
    requires WellFormed(a) && WellFormed(b)
    requires a.repo.schematic == "" || a.repo.schematic[0] != 'v'
    requires b.repo.schematic == "" || b.repo.schematic[0] != 'v'
    ensures Key(a) == Key(b) <==> a == b || Contains(a, b) || Contains(b, a)
  {
    if Contains(a, b) {
      var w :| ContainsBy(a, b, w);
      ContainedKeysAgree(a, b, w);
    }
    if Contains(b, a) {
      var w :| ContainsBy(b, a, w);
      ContainedKeysAgree(b, a, w);
    }
    if Key(a) == Key(b) {
      if |a.tag| == |b.tag| {
        SameTagSameRequest(a, b);
      } else if |a.tag| > |b.tag| {
        LongerTagContains(a, b);
      } else {
        LongerTagContains(b, a);
      }
    }
  }

  /** Splits a string at the last dash. */
  lemma LastField(x: string, a: string, y: string, b: string)
    requires NoDash(a) && NoDash(b) && x + "-" + a == y + "-" + b
    ensures x == y && a == b
  {
    var s := x + "-" + a;
    assert s[|x|] == '-' && s[|y|] == '-';
    assert forall i :: |x| < i < |s| ==> s[i] == a[i - |x| - 1];
    assert forall i :: |y| < i < |s| ==> s[i] == b[i - |y| - 1];
    assert |x| == |y|;
    assert x == s[..|x|] && y == s[..|y|] && a == s[|x| + 1..] && b == s[|y| + 1..];
  }

  lemma SameTagSameRequest(a: Request, b: Request)
    requires WellFormed(a) && WellFormed(b) && Key(a) == Key(b) && |a.tag| == |b.tag|
    ensures a == b
  {
    SplitKey(a);
    SplitKey(b);
    var x, y := a.repo.image + "-" + a.repo.schematic, b.repo.image + "-" + b.repo.schematic;
    var k := Key(a);
    assert k[..|x|] == x && k[..|y|] == y && |x| == |y|;
    LastField(a.repo.image, a.repo.schematic, b.repo.image, b.repo.schematic);
  }

  lemma SplitKey(a: Request)
    ensures Key(a) == (a.repo.image + "-" + a.repo.schematic) + "-" + a.tag
    ensures Key(a)[|Key(a)| - |a.tag|..] == a.tag
  {
  }

  /** The longer tag ends in a dash and the shorter one, and what precedes it is accounted for field by field. */
  lemma LongerTagContains(a: Request, b: Request)
    requires WellFormed(a) && WellFormed(b) && Key(a) == Key(b) && |a.tag| > |b.tag|
    requires b.repo.schematic == "" || b.repo.schematic[0] != 'v'
    ensures Contains(a, b)
  {
    SplitKey(a);
    SplitKey(b);
    var x, y := a.repo.image + "-" + a.repo.schematic, b.repo.image + "-" + b.repo.schematic;
    var u := LongerLastField(x, a.tag, y, b.tag);
    assert a.tag[0] == (u + "-")[0];
    ContainedSchematic(x, u, b.repo.image, b.repo.schematic);
    var w := u[..|u| - |b.repo.schematic| - 1];
    TakeApart(a, b, u, w);
  }

  lemma TakeApart(a: Request, b: Request, u: string, w: string)
    requires a.tag == u + "-" + b.tag && u == w + "-" + b.repo.schematic
    requires b.repo.image == (a.repo.image + "-" + a.repo.schematic) + "-" + w
    ensures Contains(a, b)
  {
    assert a.tag == w + "-" + (b.repo.schematic + "-" + b.tag);
    assert b.repo.image == a.repo.image + "-" + (a.repo.schematic + "-" + w);
    assert ContainsBy(a, b, w);
  }

  /** Of two ways to split a string at a dash, the one with the longer end splits the other one's beginning. */
  lemma LongerLastField(x: string, s: string, y: string, t: string) returns (u: string)
    requires x + "-" + s == y + "-" + t && |s| > |t|
    ensures s == u + "-" + t && y == x + "-" + u
  {
    var k := x + "-" + s;
    var n := |s| - |t| - 1;
    u := s[..n];
    assert k[|x| + 1..] == s && k[|y| + 1..] == t && k[|y|] == '-' && k[..|y|] == y && k[..|x| + 1] == x + "-";
    assert s[n] == k[|y|] && s[n + 1..] == k[|y| + 1..];
    assert y == k[..|x| + 1] + k[|x| + 1..|y|] && k[|x| + 1..|y|] == u;
  }

  /** A dash-free last field of `x-u`, where `u` is not that field itself, is the last field of `u`. */
  lemma ContainedSchematic(x: string, u: string, image: string, schematic: string)
    requires x + "-" + u == image + "-" + schematic && NoDash(schematic)
    requires u != "" && u[0] == 'v'
    requires schematic == "" || schematic[0] != 'v'
    ensures |u| > |schematic| && u == u[..|u| - |schematic| - 1] + "-" + schematic
    ensures image == x + "-" + u[..|u| - |schematic| - 1]
  {
    var k := x + "-" + u;
    assert k[|x|] == '-' && k[|x| + 1..] == u && k[|image| + 1..] == schematic && k[|image|] == '-';
    assert forall i :: |image| < i < |k| ==> k[i] == schematic[i - |image| - 1] && k[i] != '-';
    assert |x| <= |image|;
    assert |x| == |image| ==> u == schematic;
    var w := LongerLastField(x, u, image, schematic);
    assert w == u[..|u| - |schematic| - 1];
  }

  /** A release, or a pre-release such as those that are listed. */
  predicate AtMostOneDash(tag: string) { forall i, j :: 0 <= i < j < |tag| ==> !(tag[i] == '-' && tag[j] == '-') }

  lemma TwoDashes(a: Request, b: Request, w: string)
    requires ContainsBy(a, b, w)
    ensures !AtMostOneDash(a.tag)
  {
    var tail := b.repo.schematic + "-" + b.tag;
    assert a.tag[|w|] == '-' && a.tag[|w| + 1 + |b.repo.schematic|] == tail[|b.repo.schematic|] == '-';
  }

  lemma ContainingHasTwoDashes(a: Request, b: Request)
    ensures Contains(a, b) ==> !AtMostOneDash(a.tag)
  {
    if w :| ContainsBy(a, b, w) {
      TwoDashes(a, b, w);
    }
  }

  /** Between version tags with at most one dash no two requests share a flight, so what Manifest answers was promoted
  for the requested repository and tag. */
  lemma AnswerIsOwn(conf: Config, run: seq<State>, i: nat, c: nat)
    requires Run(conf, run) && i < |run| && c in run[i].work.callers && run[i].work.callers[c].pc.Answered?
    requires Plain(run[i].work.callers[c].request)
    requires forall f :: f in run[i].work.flights ==> Plain(run[i].work.flights[f].job.request)
    ensures var caller := run[i].work.callers[c]; WasPromoted(run[i].hist, caller.request, caller.pc.d)
  {
    hide Step, Key, Signers, Origins, Plain;
    RunKeepsInv(conf, run, i);
    var s := run[i];
    var caller := s.work.callers[c];
    assert CallerOK(s.hist, s.work, caller);
    if (caller.request, caller.pc.d) !in s.hist.tagged {
      var f :| f in s.work.flights && s.work.flights[f].key == Key(caller.request)
               && s.work.flights[f].pc == Returned(Some(caller.pc.d));
      PlainKeys(caller.request, s.work.flights[f].job.request);
    }
  }

  predicate Plain(r: Request) {
    WellFormed(r) && (r.repo.schematic == "" || r.repo.schematic[0] != 'v') && AtMostOneDash(r.tag)
  }

  lemma PlainKeys(a: Request, b: Request)
    requires Plain(a) && Plain(b) && Key(a) == Key(b)
    ensures a == b
  {
    hide WellFormed, Key;
    KeysAgreeIff(a, b);
    ContainingHasTwoDashes(a, b);
    ContainingHasTwoDashes(b, a);
  }

  /** A version tag and an image name that make two requests collide. */
  const NESTED := "v1.0.0" + "-installer"

  /** For any two schematics there are requests for different repositories, with semantic versions as tags, whose builds
  share one flight. */
  lemma SharedFlightExample(first: string, second: string)
    requires IsDigest(first) && IsDigest(second)
    ensures var a := Request(Repo("installer", first), NESTED + "-" + (second + "-" + "v2.0.0"));
      var b := Request(Repo("installer" + "-" + (first + "-" + NESTED), second), "v2.0.0");
      WellFormed(a) && WellFormed(b) && a.repo != b.repo && Key(a) == Key(b)
  {
    var a := Request(Repo("installer", first), NESTED + "-" + (second + "-" + "v2.0.0"));
    var b := Request(Repo("installer" + "-" + (first + "-" + NESTED), second), "v2.0.0");
    assert WellFormed(a) by {
      assert a.tag[0] == NESTED[0] == 'v';
    }
    assert WellFormed(b) by {
      hide HasSuffix;
      EndsInInstaller("installer" + "-", first + "-", "v1.0.0");
    }
    assert |b.repo.image| > |a.repo.image|;
    hide WellFormed, Key;
    ContainedKeysAgree(a, b, NESTED);
  }

  lemma EndsInInstaller(x: string, y: string, z: string)
    ensures HasSuffix(x + (y + (z + "-installer")), "-installer")
  {
    assert x + (y + (z + "-installer")) == (x + y + z) + "-installer";
    CutSuffixConcat(x + y + z, "-installer");
  }
}
