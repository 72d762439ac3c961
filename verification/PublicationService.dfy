/** Publishing and serving an Installer index as one replica runs it (internal/registry/publication.go,
internal/registry/service.go): between any two accesses to the registry the others may do anything. */
module PublicationService {
  import opened Strings
  import opened Publication
  import opened Versions

  /** What the outside world answers: whether each write succeeds, and each attempt to read back what was written. */
  datatype Luck = Luck(stage: bool, publish: bool, evidence: seq<bool>, sign: bool, signature: seq<bool>, promote: bool)

  datatype Failure = StageFailed | PublishFailed | EvidenceUnverified | SignFailed | SignatureUnverified | PromoteFailed

  /** Which step a publication fails at, if any. */
  function FailingStep(luck: Luck, evidence: bool): Option<Failure> {
    if !luck.stage then Some(StageFailed)
    else if evidence && !luck.publish then Some(PublishFailed)
    else if evidence && true !in luck.evidence then Some(EvidenceUnverified)
    else if !luck.sign then Some(SignFailed)
    else if true !in luck.signature then Some(SignatureUnverified)
    else if !luck.promote then Some(PromoteFailed)
    else None
  }

  /** The steps of a publication, in order: whether each one succeeds, and how its failure is reported. */
  function Outcomes(luck: Luck, evidence: bool): seq<(bool, Failure)> {
    [(luck.stage, StageFailed)]
    + (if evidence then [(luck.publish, PublishFailed), (true in luck.evidence, EvidenceUnverified)] else [])
    + [(luck.sign, SignFailed), (true in luck.signature, SignatureUnverified), (luck.promote, PromoteFailed)]
  }

  /** A publication fails at the first of its steps that fails, those for evidence only counting if it is needed. */
  lemma FailsAtFirst(luck: Luck, evidence: bool, k: nat)
    requires k <= |Outcomes(luck, evidence)| && forall i :: 0 <= i < k ==> Outcomes(luck, evidence)[i].0
    requires k < |Outcomes(luck, evidence)| ==> !Outcomes(luck, evidence)[k].0
    ensures FailingStep(luck, evidence)
         == if k == |Outcomes(luck, evidence)| then None else Some(Outcomes(luck, evidence)[k].1)
  {
    var steps, shift := Outcomes(luck, evidence), if evidence then 2 else 0;
    assert steps[0] == (luck.stage, StageFailed);
    assert evidence ==>
      steps[1] == (luck.publish, PublishFailed) && steps[2] == (true in luck.evidence, EvidenceUnverified);
    assert steps[1 + shift] == (luck.sign, SignFailed);
    assert steps[2 + shift] == (true in luck.signature, SignatureUnverified);
    assert steps[3 + shift] == (luck.promote, PromoteFailed);
  }

  datatype Answer = Digest(d: string) | AsIs(reference: string) | Error | UnknownSchematic | InvalidImage
      | NoVersions(why: Outcome)

  /** A tag is only written by a build that got this far. */
  ghost predicate Promotes(s: State, f: nat) { f in s.work.flights && s.work.flights[f].pc.Promoted? }

  ghost predicate PromotesIn(run: seq<State>, start: nat, f: nat) {
    exists k :: start <= k < |run| && Promotes(run[k], f)
  }

  class Replica {
    const conf: Config
    const id: nat
    var now: State               // the registry, and what every replica is doing with it
    var others: seq<seq<Event>>  // what the others will do, one list per pause of this one
    ghost var run: seq<State>    // how `now` came about

    ghost predicate Good()
      reads this
    {
      Run(conf, run) && run[|run| - 1] == now
    }

    constructor (conf: Config, id: nat, start: State, others: seq<seq<Event>>)
      requires Initial(start)
      ensures Good() && this.conf == conf && this.id == id && now == start && run == [start]
    {
      this.conf, this.id, this.others := conf, id, others;
      now := start;
      run := [start];
    }

    /** One atomic action of some replica. */
    method Act(e: Event)
      requires Good() && Next(conf, now, e).Some?
      modifies this`now, this`run
      ensures Good() && now == Next(conf, old(now), e).value && run == old(run) + [now]
    {
      hide Next;
      ghost var before := run;
      now := Next(conf, now, e).value;
      run := run + [now];
      assert Step(conf, before[|before| - 1], now);
      forall i | 0 <= i < |run| - 1 ensures Step(conf, run[i], run[i + 1]) {
        if i < |before| - 1 {
          assert Step(conf, before[i], before[i + 1]);
        }
      }
    }

    /** The others take any number of steps; `builds` and `calls` are left to this replica. */
    method Interfere(builds: set<nat>, calls: set<nat>)
      requires Good()
      modifies this
      ensures Good() && old(run) <= run
      ensures Untouched(builds, calls, old(now), now)
      ensures forall k :: |old(run)| <= k < |run| ==> Untouched(builds, calls, old(now), run[k])
      ensures old(others) == [] ==> now == old(now) && others == []
    {
      hide Next, Initial, Step, Untouched;
      assert Untouched(builds, calls, now, now) by { NothingTouched(builds, calls, now); }
      if others != [] {
        var events := others[0];
        others := others[1..];
        for i := 0 to |events|
          invariant Good() && old(run) <= run
          invariant Untouched(builds, calls, old(now), now)
          invariant forall k :: |old(run)| <= k < |run| ==> Untouched(builds, calls, old(now), run[k])
        {
          if !Owned(builds, calls, events[i]) && Next(conf, now, events[i]).Some? {
            OthersLeaveAlone(conf, old(now), now, events[i], builds, calls);
            Act(events[i]);
          }
        }
      }
    }

    /** Tries to read back what was written until it is there or time is up. */
    method VerifyPublished(attempts: seq<bool>) returns (ok: bool)
      ensures ok <==> true in attempts
    {
      for i := 0 to |attempts|
        invariant true !in attempts[..i]
      {
        if attempts[i] {
          return true;
        }
      }
      assert attempts[..|attempts|] == attempts;
      ok := false;
    }

    /** Stages the index under its digest, publishes and verifies its evidence if the build needs any, signs and
    verifies the signature, and only then moves the tag. It fails at the first step that fails, and then the tag is
    never moved by this build. */
    method PublishInstallerIndex(f: nat, luck: Luck) returns (err: Option<Failure>)
      requires Good() && f in now.work.flights && now.work.flights[f].pc.Built?
      modifies this
      ensures Good() && old(run) <= run
      ensures var job := old(now).work.flights[f].job;
        && f in now.work.flights && now.work.flights[f].job == job
        && err == FailingStep(luck, NeedsEvidence(job))
        && (err == None ==>
              && now.work.flights[f].pc == Promoted(old(now).work.flights[f].pc.d)
              && job.request in now.reg.tags && now.reg.tags[job.request] == old(now).work.flights[f].pc.d)
        && (err != None ==> !PromotesIn(run, |old(run)| - 1, f))
    {
      ghost var start: nat := |run| - 1;
      hide BuildStep, Run, Untouched, NeedsEvidence;
      var flight := now.work.flights[f];
      var d := flight.pc.d;
      assert AtPC(now, f, flight.job, Built(d)) && !PromotesIn(run, start, f);
      if !luck.stage {
        return Some(StageFailed);
      }
      Advance(f, Stages, flight.job, Built(d), Staged(d), start);
      if NeedsEvidence(flight.job) {
        err := ProvideEvidence(f, luck, flight.job, d, start);
        if err != None {
          return;
        }
      }
      err := SignAndPromote(f, luck, flight.job, d, start);
    }

    /** Signs a staged index whose evidence is in place, reads the signature back and moves the tag. */
    method SignAndPromote(f: nat, luck: Luck, ghost job: Job, ghost d: string, ghost start: nat)
        returns (err: Option<Failure>)
      requires Good() && start < |run| && !PromotesIn(run, start, f) && f in now.work.flights
      requires AtPC(now, f, job, if NeedsEvidence(job) then EvidenceVerified(d) else Staged(d))
      modifies this
      ensures Good() && old(run) <= run && f in now.work.flights && now.work.flights[f].job == job
      ensures err == FailingStep(luck.(stage := true), false)
      ensures if err == None then
          AtPC(now, f, job, Promoted(d)) && job.request in now.reg.tags && now.reg.tags[job.request] == d
              else !PromotesIn(run, start, f)
    {
      hide BuildStep, Run, Untouched, NeedsEvidence, PromotesIn;
      if !luck.sign {
        return Some(SignFailed);
      }
      Advance(f, Signs, job, now.work.flights[f].pc, Signed(d), start);
      var verified := VerifyPublished(luck.signature);
      if !verified {
        return Some(SignatureUnverified);
      }
      Advance(f, VerifiesSignature, job, Signed(d), SignatureVerified(d), start);
      if !luck.promote {
        return Some(PromoteFailed);
      }
      PromoteEffect(now, f, job, d);
      Act(Build(f, BuildEvent.Promotes));
      err := None;
    }

    /** Publishes the evidence of a staged index and reads it back. */
    method ProvideEvidence(f: nat, luck: Luck, ghost job: Job, ghost d: string, ghost start: nat)
        returns (err: Option<Failure>)
      requires Good() && start < |run| && AtPC(now, f, job, Staged(d)) && NeedsEvidence(job)
        && !PromotesIn(run, start, f)
      modifies this
      ensures Good() && old(run) <= run && !PromotesIn(run, start, f)
      ensures err == if !luck.publish then Some(PublishFailed) else if true !in luck.evidence then
          Some(EvidenceUnverified) else None
      ensures f in now.work.flights
        && AtPC(now, f, job, if err == None then EvidenceVerified(d) else now.work.flights[f].pc)
    {
      hide Run, NeedsEvidence;
      if !luck.publish {
        return Some(PublishFailed);
      }
      Advance(f, Publishes, job, Staged(d), Published(d), start);
      var verified := VerifyPublished(luck.evidence);
      if !verified {
        return Some(EvidenceUnverified);
      }
      Advance(f, VerifiesEvidence, job, Published(d), EvidenceVerified(d), start);
      err := None;
    }

    /** One step of the build `f` from `from` to `to`, and then a pause. */
    method Advance(f: nat, e: BuildEvent, ghost job: Job, ghost from: BuildPC, ghost to: BuildPC, ghost start: nat)
      requires Good() && AtPC(now, f, job, from) && start < |run| && !PromotesIn(run, start, f)
      requires Leads(job, from, e, to) && !to.Promoted?
      modifies this
      ensures Good() && old(run) <= run && AtPC(now, f, job, to) && !PromotesIn(run, start, f)
    {
      hide BuildStep, Initial, Step, Established, Leads;
      RunKeepsInv(conf, run, |run| - 1);
      LeadsTo(now, f, job, from, e, to);
      ghost var before := run;
      Act(Build(f, e));
      Interfere({f}, {});
    }

    /** Answers a request for an Installer image. The schematic must be found and the image name accepted; "latest" is
    the newest eligible version that the registry lists; a version is answered with the digest of an index that was
    promoted for that repository and tag, or for one with the same flight key, and undisturbed with the one its tag is
    on; any other reference, and "latest" where there is no version, goes through. */
    method Manifest(c: nat, repo: Repo, reference: string, found: bool, manager: Manager, text: Version -> string,
                    time: int, listing: Listing, newId: nat, hitVerifies: bool) returns (answer: Answer)
      requires Good() && manager.Valid() && c !in now.work.callers
      modifies this, manager
      ensures Good() && old(run) <= run && manager.Valid()
      ensures answer.UnknownSchematic? <==> !found
      ensures answer.InvalidImage? <==> found && !IsInstallerImage(repo.image)
      ensures answer.NoVersions? <==>
        && found && IsInstallerImage(repo.image) && reference == "latest"
        && old(manager.Stale(time)) && FetchOutcome(listing) != Fetched
      ensures answer.AsIs? && reference != "latest" ==> answer.reference == reference && !IsVersionTag(reference)
      ensures answer.AsIs? && reference == "latest" ==>
        answer.reference == "" && !SomeEligible(manager.options, manager.source)
      ensures answer.Digest? ==> exists tag ::
        && IsVersionTag(tag)
        && (if reference == "latest" then exists v ::
            LatestOf(manager.options, manager.source, v) && tag == "v" + text(v)
            else tag == reference)
        && PromotedFor(Request(repo, tag), answer.d, now.hist)
      ensures
        && old(others) == [] && found && IsInstallerImage(repo.image) && reference != "latest"
            && IsVersionTag(reference)
        && hitVerifies && Request(repo, reference) in old(now).reg.tags
        ==> answer == Digest(old(now).reg.tags[Request(repo, reference)])
    {
      hide Run, IsVersionTag, PromotedFor, LatestOf, SomeEligible, FetchOutcome;
      if !found {
        return UnknownSchematic;
      }
      if !IsInstallerImage(repo.image) {
        return InvalidImage;
      }
      var tag := reference;
      if tag == "latest" {
        var latest := ResolveLatest(manager, time, listing);
        match latest {
          case NoList(outcome) => return NoVersions(outcome);
          case NoStable => tag := "";
          case Latest(v) => tag := "v" + text(v);
        }
        VersionTags(tag);
      }
      answer := VersionManifest(c, Request(repo, tag), newId, hitVerifies);
    }

    /** Answers a request whose tag has been resolved. */
    method VersionManifest(c: nat, request: Request, newId: nat, hitVerifies: bool) returns (answer: Answer)
      requires Good() && c !in now.work.callers
      modifies this
      ensures Good() && old(run) <= run
      ensures answer.AsIs? <==> !IsVersionTag(request.tag)
      ensures answer.AsIs? ==> answer.reference == request.tag
      ensures answer.AsIs? || answer.Digest? || answer.Error?
      ensures answer.Digest? ==> PromotedFor(request, answer.d, now.hist)
      ensures old(others) == [] && IsVersionTag(request.tag) && hitVerifies && request in old(now).reg.tags ==>
        answer == Digest(old(now).reg.tags[request])
    {
      hide Run, CallStep, BuildStep, Untouched, Key, JoinFlight, PromotedFor;
      AskEffect(conf, now, c, id, request);
      Calls(c, Asks(id, request), request);
      if now.work.callers[c].pc.Redirected? {
        return AsIs(request.tag);
      }
      LookUp(c, request, hitVerifies);
      if !now.work.callers[c].pc.Answered? {
        Await(c, request, newId);
      }
      if now.work.callers[c].pc.Answered? {
        AnswerIsPromoted(c);
        return Digest(now.work.callers[c].pc.d);
      }
      answer := Error;
    }

    /** Heads the tag, and verifies the signature of what it is on. */
    method LookUp(c: nat, request: Request, hitVerifies: bool)
      requires Good() && c in now.work.callers && now.work.callers[c] == Caller(id, request, Asked)
      modifies this
      ensures Good() && old(run) <= run && c in now.work.callers && now.work.callers[c].request == request
      ensures old(others) == [] && hitVerifies && request in old(now).reg.tags ==>
        now.work.callers[c].pc == Answered(old(now).reg.tags[request])
    {
      hide Run, CallStep, BuildStep, Untouched, Key;
      TagIsFound(c, request);
      Calls(c, Heads, request);
      if now.work.callers[c].pc.Hit? && Next(conf, now, Call(c, VerifiesHit(hitVerifies))).Some? {
        Calls(c, VerifiesHit(hitVerifies), request);
      }
    }

    /** What a request finds under its tag. */
    lemma TagIsFound(c: nat, request: Request)
      requires Good() && c in now.work.callers && now.work.callers[c] == Caller(id, request, Asked)
      ensures CallStep(conf, now, c, Heads).Some?
      ensures request in now.reg.tags ==> FindsTag(conf, now, c, request)
    {
      RunKeepsInv(conf, run, |run| - 1);
      hide Run, Inv, Key;
      HeadPossible(conf, now, c);
      if request in now.reg.tags { HitAlone(conf, now, c, request); }
    }

    /** Joins a build, and waits for it. */
    method Await(c: nat, request: Request, newId: nat)
      requires Good() && c in now.work.callers && now.work.callers[c].request == request
      modifies this
      ensures Good() && old(run) <= run && c in now.work.callers && now.work.callers[c].request == request
    {
      hide Run, CallStep, BuildStep, Untouched, Key, JoinFlight;
      if now.work.callers[c].pc.Missed? && Next(conf, now, Call(c, Joins(newId))).Some? {
        Calls(c, Joins(newId), request);
      }
      if now.work.callers[c].pc.Waiting? && Next(conf, now, Call(c, Receives)).Some? {
        Calls(c, Receives, request);
      }
    }

    lemma AnswerIsPromoted(c: nat)
      requires Good() && c in now.work.callers && now.work.callers[c].pc.Answered?
      ensures PromotedFor(now.work.callers[c].request, now.work.callers[c].pc.d, now.hist)
    {
      hide Step, Key, WasPromoted;
      AnswerWasVerified(conf, run, |run| - 1, c);
    }

    /** One step of the request `c`, and then a pause. */
    method Calls(c: nat, e: CallEvent, request: Request)
      requires Good() && Next(conf, now, Call(c, e)).Some?
      requires e.Asks? ==> e.request == request
      requires !e.Asks? ==> c in now.work.callers && now.work.callers[c].request == request
      modifies this
      ensures Good() && old(run) <= run
      ensures c in now.work.callers && now.work.callers[c].request == request
      ensures now.work.callers[c] == Next(conf, old(now), Call(c, e)).value.work.callers[c]
      ensures old(others) == [] ==> now == Next(conf, old(now), Call(c, e)).value && others == []
    {
      hide Run;
      CallerKept(conf, now, c, e);
      Act(Call(c, e));
      Interfere({}, {c});
    }
  }

  /** The digest is of an index that was promoted: for the request's own repository and tag, or for one whose request
  shares its flight key. */
  ghost predicate PromotedFor(request: Request, d: string, hist: History) {
    || WasPromoted(hist, request, d)
    || exists other :: Key(other) == Key(request) && WasPromoted(hist, other, d)
  }

  lemma VersionTags(tag: string)
    ensures tag == "" ==> !IsVersionTag(tag)
    ensures "v" <= tag ==> IsVersionTag(tag)
  {
    assert "sha256:"[0] != "v"[0];
  }

  predicate Owned(builds: set<nat>, calls: set<nat>, e: Event) {
    match e
    case Build(f, _) => f in builds
    case Call(c, _) => c in calls
  }

  predicate Untouched(builds: set<nat>, calls: set<nat>, s: State, t: State) {
    && (forall f :: f in builds && f in s.work.flights ==>
        f in t.work.flights && t.work.flights[f] == s.work.flights[f])
    && (forall c :: c in calls && c in s.work.callers ==> c in t.work.callers && t.work.callers[c] == s.work.callers[c])
  }

  lemma NothingTouched(builds: set<nat>, calls: set<nat>, s: State)
    ensures Untouched(builds, calls, s, s)
  {
  }

  lemma OthersLeaveAlone(conf: Config, start: State, s: State, e: Event, builds: set<nat>, calls: set<nat>)
    requires Untouched(builds, calls, start, s) && !Owned(builds, calls, e) && Next(conf, s, e).Some?
    ensures Untouched(builds, calls, start, Next(conf, s, e).value)
  {
    hide Key;
    match e {
      case Build(f, be) => BuildStepKeepsFlights(s, f, be);
      case Call(c, ce) =>
    }
  }

  predicate AtPC(s: State, f: nat, job: Job, pc: BuildPC) {
    f in s.work.flights && s.work.flights[f].job == job && s.work.flights[f].pc == pc
  }

  /** The steps of a build up to its promotion. */
  predicate Leads(job: Job, from: BuildPC, e: BuildEvent, to: BuildPC) {
    match e
    case Stages => from.Built? && to == Staged(from.d)
    case Publishes => from.Staged? && NeedsEvidence(job) && to == Published(from.d)
    case VerifiesEvidence => from.Published? && to == EvidenceVerified(from.d)
    case Signs => (from.EvidenceVerified? || (from.Staged? && !NeedsEvidence(job))) && to == Signed(from.d)
    case VerifiesSignature => from.Signed? && to == SignatureVerified(from.d)
    case _ => false
  }

  /** What was written is there to be read back, so that the step can be taken. */
  lemma LeadsTo(s: State, f: nat, job: Job, from: BuildPC, e: BuildEvent, to: BuildPC)
    requires Inv(s) && AtPC(s, f, job, from) && Leads(job, from, e, to)
    ensures BuildStep(s, f, e).Some? && AtPC(BuildStep(s, f, e).value, f, job, to)
  {
    hide NeedsEvidence, Records, Signers, Origins, Callers;
    assert Established(s.reg, s.hist, job, from);
  }

  lemma PromoteEffect(s: State, f: nat, job: Job, d: string)
    requires AtPC(s, f, job, SignatureVerified(d))
    ensures var t := BuildStep(s, f, BuildEvent.Promotes);
      && t.Some? && AtPC(t.value, f, job, Promoted(d))
      && job.request in t.value.reg.tags && t.value.reg.tags[job.request] == d
  {
  }

  lemma AskEffect(conf: Config, s: State, c: nat, replica: nat, request: Request)
    requires c !in s.work.callers
    ensures var t := CallStep(conf, s, c, Asks(replica, request));
      && t.Some? && c in t.value.work.callers
      && t.value.work.callers[c] == Caller(replica, request, if IsVersionTag(request.tag) then Asked else Redirected)
      && t.value.reg == s.reg
  {
  }

  /** Heading the tag finds what it is on, and its signature can be verified. */
  predicate FindsTag(conf: Config, s: State, c: nat, request: Request) {
    && request in s.reg.tags && CallStep(conf, s, c, Heads).Some?
    && var found := CallStep(conf, s, c, Heads).value;
    && c in found.work.callers && found.work.callers[c].pc == Hit(s.reg.tags[request])
    && CallStep(conf, found, c, VerifiesHit(true)).Some?
    && var t := CallStep(conf, found, c, VerifiesHit(true)).value;
    && c in t.work.callers && t.work.callers[c].pc == Answered(s.reg.tags[request])
  }

  lemma HitAlone(conf: Config, s: State, c: nat, request: Request)
    requires Inv(s) && request in s.reg.tags
    requires c in s.work.callers && s.work.callers[c].request == request && s.work.callers[c].pc.Asked?
    ensures FindsTag(conf, s, c, request)
  {
    hide Signers, Origins, BuildsHold, Callers, Key;
  }

  lemma HeadPossible(conf: Config, s: State, c: nat)
    requires c in s.work.callers && s.work.callers[c].pc.Asked?
    ensures CallStep(conf, s, c, Heads).Some?
  {
  }

  lemma CallerKept(conf: Config, s: State, c: nat, e: CallEvent)
    requires CallStep(conf, s, c, e).Some?
    ensures var t := CallStep(conf, s, c, e).value;
      c in t.work.callers && t.work.callers[c].request == if e.Asks? then e.request else s.work.callers[c].request
  {
    hide Key;
  }
}
