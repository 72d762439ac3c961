/** A request for an Installer version that is not tagged yet, with nobody disturbing it (internal/registry/service.go,
internal/registry/publication.go). */
module PublicationAlone {
  import opened Strings
  import opened Publication
  import opened PublicationService

  /** The state after these events, one after the other. */
  function Perform(conf: Config, s: State, events: seq<Event>): Option<State>
    decreases |events|
  {
    if events == [] then Some(s)
    else
      match Next(conf, s, events[0])
      case None => None
      case Some(t) => Perform(conf, t, events[1..])
  }

  lemma PerformNext(conf: Config, s: State, e: Event, t: State, rest: seq<Event>)
    requires Next(conf, s, e) == Some(t)
    ensures Perform(conf, s, [e] + rest) == Perform(conf, t, rest)
  {
    hide Next;
    assert ([e] + rest)[0] == e && ([e] + rest)[1..] == rest;
  }

  /** A request up to the build it starts. */
  function Asking(c: nat, replica: nat, request: Request, f: nat, rest: seq<Event>): seq<Event> {
    [Call(c, Asks(replica, request))] + ([Call(c, Heads)] + ([Call(c, Joins(f))] + rest))
  }

  /** A build with its evidence, if it needs any. */
  function Building(f: nat, d: Digest, evidence: bool, rest: seq<Event>): seq<Event> {
    [Build(f, Builds(d))] + ([Build(f, Stages)]
    + if evidence then [Build(f, Publishes)] + ([Build(f, VerifiesEvidence)] + rest) else rest)
  }

  /** Its signature and its tag. */
  function Promoting(f: nat, rest: seq<Event>): seq<Event> {
    [Build(f, Signs)]
        + ([Build(f, VerifiesSignature)] + ([Build(f, BuildEvent.Promotes)] + ([Build(f, Returns)] + rest)))
  }

  /** The flight is where it is, its caller waits for it, and it runs under its own key. */
  ghost predicate At(s: State, c: nat, caller: Caller, f: nat, job: Job, pc: BuildPC) {
    && Inv(s) && AtPC(s, f, job, pc) && c in s.work.callers && s.work.callers[c] == caller
    && Own(s, caller, f, job)
  }

  predicate Own(s: State, caller: Caller, f: nat, job: Job) {
    f in s.work.flights && s.work.flights[f].replica == caller.replica && s.work.flights[f].key == Key(job.request)
  }

  lemma StepAlone(conf: Config, s: State, c: nat, caller: Caller, f: nat, job: Job, from: BuildPC, e: BuildEvent,
                  to: BuildPC) returns (t: State)
    requires At(s, c, caller, f, job, from)
      && (Leads(job, from, e, to) || (from.Building? && e.Builds? && to == Built(e.d)))
    ensures Next(conf, s, Build(f, e)) == Some(t) && At(t, c, caller, f, job, to)
  {
    if from.Building? {
      assert BuildStep(s, f, e).Some?;
    } else {
      LeadsTo(s, f, job, from, e, to);
    }
    t := BuildStep(s, f, e).value;
    BuildStepKeepsInv(s, f, e);
    BuildStepKeepsFlights(s, f, e);
    hide Inv;
  }

  lemma AskingAlone(conf: Config, s: State, c: nat, replica: nat, request: Request, f: nat, rest: seq<Event>)
    returns (t: State)
    requires Inv(s) && c !in s.work.callers && f !in s.work.flights && request !in s.reg.tags
    requires IsVersionTag(request.tag) && conf.parse(request.tag).Some? && (replica, Key(request)) !in s.work.active
    ensures Perform(conf, s, Asking(c, replica, request, f, rest)) == Perform(conf, t, rest)
    ensures At(t, c, Caller(replica, request, Waiting(f)), f,
               Job(request, conf.parse(request.tag).value, conf.publishes(replica)), BuildPC.Building)
  {
    hide Key;
    var e1, e2, e3 := Call(c, Asks(replica, request)), Call(c, Heads), Call(c, Joins(f));
    var x := s.(work := s.work.(callers := s.work.callers[c := Caller(replica, request, Asked)]));
    var y := s.(work := s.work.(callers := s.work.callers[c := Caller(replica, request, Missed)]));
    assert Next(conf, s, e1) == Some(x);
    assert x.work.callers[c := Caller(replica, request, Missed)] == y.work.callers;
    assert Next(conf, x, e2) == Some(y);
    t := Next(conf, y, e3).value;
    CallStepKeepsInv(conf, s, c, e1.ce);
    CallStepKeepsInv(conf, x, c, e2.ce);
    CallStepKeepsInv(conf, y, c, e3.ce);
    hide Inv;
    assert AtPC(t, f, Job(request, conf.parse(request.tag).value, conf.publishes(replica)), BuildPC.Building);
    hide Next;
    PerformNext(conf, s, e1, x, [e2] + ([e3] + rest));
    PerformNext(conf, x, e2, y, [e3] + rest);
    PerformNext(conf, y, e3, t, rest);
  }

  lemma BuildingAlone(conf: Config, s: State, c: nat, caller: Caller, f: nat, job: Job, d: Digest, rest: seq<Event>)
    returns (t: State)
    requires At(s, c, caller, f, job, BuildPC.Building)
    ensures Perform(conf, s, Building(f, d, NeedsEvidence(job), rest)) == Perform(conf, t, rest)
    ensures At(t, c, caller, f, job, if NeedsEvidence(job) then EvidenceVerified(d) else Staged(d))
  {
    hide Next, At, NeedsEvidence, Perform;
    var x := StepAlone(conf, s, c, caller, f, job, BuildPC.Building, Builds(d), Built(d));
    var y := StepAlone(conf, x, c, caller, f, job, Built(d), Stages, Staged(d));
    if NeedsEvidence(job) {
      var z := StepAlone(conf, y, c, caller, f, job, Staged(d), Publishes, Published(d));
      t := StepAlone(conf, z, c, caller, f, job, Published(d), VerifiesEvidence, EvidenceVerified(d));
      PerformNext(conf, s, Build(f, Builds(d)), x,
                  [Build(f, Stages)] + ([Build(f, Publishes)] + ([Build(f, VerifiesEvidence)] + rest)));
      PerformNext(conf, x, Build(f, Stages), y, [Build(f, Publishes)] + ([Build(f, VerifiesEvidence)] + rest));
      PerformNext(conf, y, Build(f, Publishes), z, [Build(f, VerifiesEvidence)] + rest);
      PerformNext(conf, z, Build(f, VerifiesEvidence), t, rest);
    } else {
      t := y;
      PerformNext(conf, s, Build(f, Builds(d)), x, [Build(f, Stages)] + rest);
      PerformNext(conf, x, Build(f, Stages), y, rest);
    }
  }

  lemma PromotingAlone(conf: Config, s: State, c: nat, caller: Caller, f: nat, job: Job, d: Digest, rest: seq<Event>)
    returns (t: State)
    requires At(s, c, caller, f, job, if NeedsEvidence(job) then EvidenceVerified(d) else Staged(d))
    ensures Perform(conf, s, Promoting(f, rest)) == Perform(conf, t, rest)
    ensures c in t.work.callers && t.work.callers[c] == caller && f in t.work.flights
    ensures (caller.replica, Key(job.request)) !in t.work.active
    ensures t.work.flights[f].pc == Returned(Some(d)) && job.request in t.reg.tags && t.reg.tags[job.request] == d
  {
    hide Next, At, NeedsEvidence, Perform, Leads;
    assert Leads(job, if NeedsEvidence(job) then EvidenceVerified(d) else Staged(d), Signs, Signed(d)) by {
      Signable(job, d);
    }
    var x := StepAlone(conf, s, c, caller, f, job, if NeedsEvidence(job) then EvidenceVerified(d) else Staged(d), Signs,
                       Signed(d));
    assert Leads(job, Signed(d), VerifiesSignature, SignatureVerified(d)) by { Signable(job, d); }
    var y := StepAlone(conf, x, c, caller, f, job, Signed(d), VerifiesSignature, SignatureVerified(d));
    var z := Tagged(conf, y, c, caller, f, job, d);
    t := Returning(conf, z, c, caller, f, job, d);
    PerformNext(conf, s, Build(f, Signs), x,
                [Build(f, VerifiesSignature)] + ([Build(f, BuildEvent.Promotes)] + ([Build(f, Returns)] + rest)));
    PerformNext(conf, x, Build(f, VerifiesSignature), y,
                [Build(f, BuildEvent.Promotes)] + ([Build(f, Returns)] + rest));
    PerformNext(conf, y, Build(f, BuildEvent.Promotes), z, [Build(f, Returns)] + rest);
    PerformNext(conf, z, Build(f, Returns), t, rest);
  }

  lemma Signable(job: Job, d: Digest)
    ensures Leads(job, if NeedsEvidence(job) then EvidenceVerified(d) else Staged(d), Signs, Signed(d))
    ensures Leads(job, Signed(d), VerifiesSignature, SignatureVerified(d))
  {
    hide NeedsEvidence;
  }

  lemma Tagged(conf: Config, s: State, c: nat, caller: Caller, f: nat, job: Job, d: Digest) returns (t: State)
    requires At(s, c, caller, f, job, SignatureVerified(d))
    ensures Next(conf, s, Build(f, BuildEvent.Promotes)) == Some(t) && AtPC(t, f, job, BuildPC.Promoted(d))
    ensures Own(t, caller, f, job) && c in t.work.callers && t.work.callers[c] == caller
    ensures job.request in t.reg.tags && t.reg.tags[job.request] == d
  {
    hide Inv;
    PromoteEffect(s, f, job, d);
    t := BuildStep(s, f, BuildEvent.Promotes).value;
    BuildStepKeepsFlights(s, f, BuildEvent.Promotes);
  }

  lemma Returning(conf: Config, s: State, c: nat, caller: Caller, f: nat, job: Job, d: Digest) returns (t: State)
    requires AtPC(s, f, job, BuildPC.Promoted(d)) && Own(s, caller, f, job) && c in s.work.callers
      && s.work.callers[c] == caller
    ensures Next(conf, s, Build(f, Returns)) == Some(t) && t.reg == s.reg
    ensures (caller.replica, Key(job.request)) !in t.work.active
    ensures f in t.work.flights && t.work.flights[f].pc == Returned(Some(d))
    ensures c in t.work.callers && t.work.callers[c] == caller
  {
    t := BuildStep(s, f, Returns).value;
  }

  /** An undisturbed request for a version that is not tagged is answered with the index that is built for it, which
  then is what its tag is on. */
  lemma BuiltAlone(conf: Config, run: seq<State>, s: State, c: nat, replica: nat, request: Request, f: nat, d: Digest)
    returns (t: State)
    requires Run(conf, run) && s == run[|run| - 1]
    requires c !in s.work.callers && f !in s.work.flights && request !in s.reg.tags
    requires IsVersionTag(request.tag) && conf.parse(request.tag).Some? && (replica, Key(request)) !in s.work.active
    ensures var evidence := NeedsEvidence(Job(request, conf.parse(request.tag).value, conf.publishes(replica)));
      Perform(conf, s, Asking(c, replica, request, f, Building(f, d, evidence, Promoting(f, [Call(c, Receives)]))))
          == Some(t)
    ensures c in t.work.callers && t.work.callers[c] == Caller(replica, request, Answered(d))
    ensures request in t.reg.tags && t.reg.tags[request] == d && (replica, Key(request)) !in t.work.active
  {
    RunKeepsInv(conf, run, |run| - 1);
    var job := Job(request, conf.parse(request.tag).value, conf.publishes(replica));
    var caller := Caller(replica, request, Waiting(f));
    var last := [Call(c, Receives)];
    hide Run, Next, At, Inv, NeedsEvidence, Perform, Key, Asking, Building, Promoting;
    var x := AskingAlone(conf, s, c, replica, request, f, Building(f, d, NeedsEvidence(job), Promoting(f, last)));
    var y := BuildingAlone(conf, x, c, caller, f, job, d, Promoting(f, last));
    var z := PromotingAlone(conf, y, c, caller, f, job, d, last);
    t := Received(conf, z, c, caller, f, d);
  }

  lemma Received(conf: Config, s: State, c: nat, caller: Caller, f: nat, d: Digest) returns (t: State)
    requires c in s.work.callers && s.work.callers[c] == caller && caller.pc == Waiting(f)
    requires f in s.work.flights && s.work.flights[f].pc == Returned(Some(d))
    ensures Perform(conf, s, [Call(c, Receives)]) == Some(t) && t.reg == s.reg && t.work.active == s.work.active
    ensures c in t.work.callers && t.work.callers[c] == caller.(pc := Answered(d))
  {
    t := Next(conf, s, Call(c, Receives)).value;
    PerformNext(conf, s, Call(c, Receives), t, []);
    assert [Call(c, Receives)] + [] == [Call(c, Receives)];
  }
}
