/** The schematic factory (internal/schematic/schematic.go): Put and Get of one id share one flight.

A flight returns an interface value and an error. A read that fails returns the nil interface, but a read whose data
cannot be decoded returns a non-nil interface that holds a nil pointer. */
module SchematicFactory {
  import opened Strings
  import opened Flights

  type Schematic = string
  type Data = string
  type Id = string

  /** Encoding, decoding and hashing of schematics. Encoding can fail; what is decoded after encoding has the same
  id. */
  datatype Codec = Codec(marshal: Schematic -> Option<Data>, unmarshal: Data -> Option<Schematic>, id: Schematic -> Id)

  ghost predicate RoundTrips(codec: Codec) {
    forall c :: codec.marshal(c).Some? ==>
      && codec.unmarshal(codec.marshal(c).value).Some?
      && codec.id(codec.unmarshal(codec.marshal(c).value).value) == codec.id(c)
  }

  type Storage = map<Id, Data>

  /** What decodes, decodes to a schematic with the id it is stored under. */
  ghost predicate Sound(codec: Codec, storage: Storage) {
    forall id :: id in storage && codec.unmarshal(storage[id]).Some? ==>
      codec.id(codec.unmarshal(storage[id]).value) == id
  }

  datatype Error = Canceled | ReadFailed | DecodeFailed | MarshalFailed | WriteFailed | UnexpectedType

  /** An interface value: nil, or a pointer to a schematic, which may itself be nil. */
  datatype Value = NilInterface | NonNil(schematic: Option<Schematic>)

  datatype Result = Result(value: Value, err: Option<Error>)

  datatype PC = PutHeads(c: Schematic) | PutWrites(c: Schematic) | GetReads | GetDecodes(data: Data)

  datatype CallerPC = Calls | Waits(f: nat) | PutDone(err: Option<Error>) | GetDone(got: Option<Schematic>)
  datatype Request = Put(c: Schematic) | Get(id: Id)
  datatype Caller = Caller(request: Request, pc: CallerPC)

  datatype State = State(storage: Storage, group: Group<Id, PC, Result>, callers: map<nat, Caller>)

  function Key(codec: Codec, r: Request): Id { if r.Put? then codec.id(r.c) else r.id }

  // ---------------------------------------------------------------- steps

  datatype Event =
    | Asks(c: nat, request: Request) | Joins(c: nat, newId: nat) | Receives(c: nat)
    | Heads(f: nat, found: bool) | Writes(f: nat, ok: bool) | Reads(f: nat, err: Option<Error>) | Decodes(f: nat)

  function At(s: State, f: nat): Option<PC> {
    if f in s.group.flights && s.group.flights[f].Flying? then Some(s.group.flights[f].pc) else None
  }

  function FlightStep(codec: Codec, s: State, e: Event): Option<State> {
    match e
    case Heads(f, found) =>  // a Head that fails is taken for "not there"
      if At(s, f).Some? && At(s, f).value.PutHeads? && (found ==> s.group.flights[f].key in s.storage) then
        var c := At(s, f).value.c;
        if found then Some(s.(group := Land(s.group, f, Result(NonNil(Some(c)), None))))
        else if codec.marshal(c).None? then
            Some(s.(group := Land(s.group, f, Result(NonNil(Some(c)), Some(MarshalFailed)))))
        else Some(s.(group := Advance(s.group, f, PutWrites(c))))
      else None
    case Writes(f, ok) =>
      if At(s, f).Some? && At(s, f).value.PutWrites? && codec.marshal(At(s, f).value.c).Some? then
        var c := At(s, f).value.c;
        if ok then
          Some(s.(storage := s.storage[s.group.flights[f].key := codec.marshal(c).value],
                  group := Land(s.group, f, Result(NonNil(Some(c)), None))))
        else Some(s.(group := Land(s.group, f, Result(NonNil(Some(c)), Some(WriteFailed)))))
      else None
    case Reads(f, err) =>
      if At(s, f).Some? && At(s, f).value.GetReads? then
        if err.Some? && (err.value.Canceled? || err.value.ReadFailed?) then
          Some(s.(group := Land(s.group, f, Result(NilInterface, err))))
        else if err.None? && s.group.flights[f].key in s.storage then
          Some(s.(group := Advance(s.group, f, GetDecodes(s.storage[s.group.flights[f].key]))))
        else None
      else None
    case Decodes(f) =>
      if At(s, f).Some? && At(s, f).value.GetDecodes? then
        var got := codec.unmarshal(At(s, f).value.data);
        Some(s.(group := Land(s.group, f, Result(NonNil(got), if got.Some? then None else Some(DecodeFailed)))))
      else None
    case _ => None
  }

  /** What a caller does with the result of the flight it waited for. */
  function Conclude(r: Request, result: Result): CallerPC {
    match r
    case Put(_) =>
      if result.value.NilInterface? && result.err.Some? then
        (if result.err.value.Canceled? then PutDone(result.err) else Calls)  // try again
      else PutDone(if result.value.NilInterface? then Some(UnexpectedType) else result.err)
    case Get(_) =>
      if result.err.Some? || result.value.NilInterface? then GetDone(None) else GetDone(result.value.schematic)
  }

  function CallStep(codec: Codec, s: State, e: Event): Option<State> {
    match e
    case Asks(c, request) => if c in s.callers then None
        else Some(s.(callers := s.callers[c := Caller(request, Calls)]))
    case Joins(c, newId) =>
      if c in s.callers && s.callers[c].pc.Calls? then
        var request := s.callers[c].request;
        match Join(s.group, Key(codec, request), newId, if request.Put? then PutHeads(request.c) else GetReads)
        case None => None
        case Some((group, f)) => Some(s.(group := group, callers := s.callers[c := Caller(request, Waits(f))]))
      else None
    case Receives(c) =>
      if c in s.callers && s.callers[c].pc.Waits? then
        var f := s.callers[c].pc.f;
        if f in s.group.flights && s.group.flights[f].Landed? then
          var request := s.callers[c].request;
          Some(s.(callers := s.callers[c := Caller(request, Conclude(request, s.group.flights[f].result))]))
        else None
      else None
    case _ => None
  }

  function Next(codec: Codec, s: State, e: Event): Option<State> {
    match FlightStep(codec, s, e)
    case Some(t) => Some(t)
    case None => CallStep(codec, s, e)
  }

  ghost predicate Step(codec: Codec, s: State, t: State) { exists e :: Next(codec, s, e) == Some(t) }

  ghost predicate Run(codec: Codec, run: seq<State>) {
    && run != []
    && Sound(codec, run[0].storage) && run[0].group == Group(map[], map[]) && run[0].callers == map[]
    && forall i :: 0 <= i < |run| - 1 ==> Step(codec, run[i], run[i + 1])
  }

  // ---------------------------------------------------------------- invariant

  /** A flight without an error returns a schematic with the flight's id, and storage holds that id. A read error comes
  with the nil interface, and no other error does. */
  predicate ResultOK(codec: Codec, storage: Storage, key: Id, r: Result) {
    && (r.err.None? ==>
        r.value.NonNil? && r.value.schematic.Some? && codec.id(r.value.schematic.value) == key && key in storage)
    && r.err != Some(UnexpectedType)
    && (r.err.Some? && (r.err.value.Canceled? || r.err.value.ReadFailed?) <==> r.value.NilInterface?)
  }

  predicate FlightOK(codec: Codec, storage: Storage, flight: Flight<Id, PC, Result>) {
    match flight
    case Landed(key, r) => ResultOK(codec, storage, key, r)
    case Flying(key, pc) =>
      match pc
      case PutHeads(c) => codec.id(c) == key
      case PutWrites(c) => codec.id(c) == key
      case GetReads => true
      case GetDecodes(data) =>
        key in storage
        && (codec.unmarshal(data).Some? ==> codec.id(codec.unmarshal(data).value) == key)
  }

  predicate CallerOK(codec: Codec, storage: Storage, group: Group<Id, PC, Result>, caller: Caller) {
    match caller.pc
    case Calls => true
    case Waits(f) => f in group.flights && group.flights[f].key == Key(codec, caller.request)
    case PutDone(err) =>
      && caller.request.Put?
      && (err.None? ==> codec.id(caller.request.c) in storage)
      && (err.Some? ==> !err.value.ReadFailed? && !err.value.UnexpectedType?)
    case GetDone(got) =>
      caller.request.Get? && (got.Some? ==> codec.id(got.value) == caller.request.id && caller.request.id in storage)
  }

  ghost predicate Inv(codec: Codec, s: State) {
    && Sound(codec, s.storage)
    && Fits(s.group)
    && (forall f :: f in s.group.flights ==> FlightOK(codec, s.storage, s.group.flights[f]))
    && (forall c :: c in s.callers ==> CallerOK(codec, s.storage, s.group, s.callers[c]))
  }

  /** What a step of a flight may do: advance or land that one, and add its id to storage. */
  lemma FlightStepEffect(codec: Codec, s: State, e: Event, f: nat)
    requires RoundTrips(codec) && Sound(codec, s.storage) && FlightStep(codec, s, e).Some?
    requires f in s.group.flights && FlightOK(codec, s.storage, s.group.flights[f])
    ensures var t := FlightStep(codec, s, e).value;
      && f in t.group.flights && FlightOK(codec, t.storage, t.group.flights[f])
      && t.group.flights[f].key == s.group.flights[f].key
      && (s.group.flights[f].Landed? ==> t.group.flights[f] == s.group.flights[f])
  {
    SameFlights(codec, s, e);
    if f != e.f {
      hide Sound, RoundTrips;
      var t := FlightStep(codec, s, e).value;
      assert t.group.flights[f] == s.group.flights[f];
    }
  }

  lemma FlightStepSound(codec: Codec, s: State, e: Event)
    requires RoundTrips(codec) && Inv(codec, s) && FlightStep(codec, s, e).Some?
    ensures Sound(codec, FlightStep(codec, s, e).value.storage)
  {
    assert FlightOK(codec, s.storage, s.group.flights[e.f]);
    hide CallerOK, Fits, Inv;
  }

  lemma FlightStepFits(codec: Codec, s: State, e: Event)
    requires Fits(s.group) && FlightStep(codec, s, e).Some?
    ensures Fits(FlightStep(codec, s, e).value.group)
  {
    hide Fits, Land, Advance;
    var g, pc := s.group, At(s, e.f).value;
    match e {
      case Heads(f, found) =>
        LandFits(g, f, Result(NonNil(Some(pc.c)), None));
        LandFits(g, f, Result(NonNil(Some(pc.c)), Some(MarshalFailed)));
        AdvanceFits(g, f, PutWrites(pc.c));
      case Writes(f, ok) =>
        LandFits(g, f, Result(NonNil(Some(pc.c)), if ok then None else Some(WriteFailed)));
      case Reads(f, err) =>
        if err.Some? {
          LandFits(g, f, Result(NilInterface, err));
        } else {
          AdvanceFits(g, f, GetDecodes(s.storage[g.flights[f].key]));
        }
      case Decodes(f) =>
        var got := codec.unmarshal(pc.data);
        LandFits(g, f, Result(NonNil(got), if got.Some? then None else Some(DecodeFailed)));
    }
  }

  lemma FlightStepKeepsInv(codec: Codec, s: State, e: Event)
    requires RoundTrips(codec) && Inv(codec, s) && FlightStep(codec, s, e).Some?
    ensures Inv(codec, FlightStep(codec, s, e).value)
  {
    hide FlightStep, FlightOK, Sound, Fits, RoundTrips;
    FlightStepSound(codec, s, e);
    FlightStepFits(codec, s, e);
    var t := FlightStep(codec, s, e).value;
    SameFlights(codec, s, e);
    forall f | f in t.group.flights ensures FlightOK(codec, t.storage, t.group.flights[f]) {
      FlightStepEffect(codec, s, e, f);
    }
    forall c | c in t.callers ensures CallerOK(codec, t.storage, t.group, t.callers[c]) {
      var caller := s.callers[c];
      assert CallerOK(codec, s.storage, s.group, caller);
      if caller.pc.Waits? {
        FlightStepEffect(codec, s, e, caller.pc.f);
      }
    }
  }

  lemma SameFlights(codec: Codec, s: State, e: Event)
    requires FlightStep(codec, s, e).Some?
    ensures var t := FlightStep(codec, s, e).value;
      t.group.flights.Keys == s.group.flights.Keys && t.callers == s.callers && s.storage.Keys <= t.storage.Keys
  {
  }

  lemma CallStepKeepsInv(codec: Codec, s: State, e: Event)
    requires Inv(codec, s) && CallStep(codec, s, e).Some?
    ensures Inv(codec, CallStep(codec, s, e).value)
  {
    hide Sound, Fits, ResultOK, FlightOK, Key, Join;
    match e {
      case Joins(c, newId) =>
        var request := s.callers[c].request;
        JoinKeepsInv(codec, s, c, newId);
      case Receives(c) =>
        assert CallerOK(codec, s.storage, s.group, s.callers[c]);
        var f := s.callers[c].pc.f;
        ConclusionOK(codec, s.storage, s.group, s.callers[c].request, f);
      case _ =>
    }
  }

  lemma JoinKeepsInv(codec: Codec, s: State, c: nat, newId: nat)
    requires Inv(codec, s) && CallStep(codec, s, Joins(c, newId)).Some?
    ensures Inv(codec, CallStep(codec, s, Joins(c, newId)).value)
  {
    hide Sound, Fits, ResultOK, Join;
    var request := s.callers[c].request;
    JoinFits(s.group, Key(codec, request), newId, if request.Put? then PutHeads(request.c) else GetReads);
  }

  lemma ConclusionOK(codec: Codec, storage: Storage, group: Group<Id, PC, Result>, request: Request, f: nat)
    requires f in group.flights && group.flights[f].Landed? && group.flights[f].key == Key(codec, request)
    requires FlightOK(codec, storage, group.flights[f])
    ensures CallerOK(codec, storage, group, Caller(request, Conclude(request, group.flights[f].result)))
  {
  }

  lemma {:induction false} RunKeepsInv(codec: Codec, run: seq<State>, i: nat)
    requires RoundTrips(codec) && Run(codec, run) && i < |run|
    ensures Inv(codec, run[i])
  {
    hide FlightStep, CallStep, Sound, RoundTrips;
    if i > 0 {
      RunKeepsInv(codec, run, i - 1);
      assert Step(codec, run[i - 1], run[i - 1 + 1]);
      var e :| Next(codec, run[i - 1], e) == Some(run[i]);
      if FlightStep(codec, run[i - 1], e).Some? {
        FlightStepKeepsInv(codec, run[i - 1], e);
      } else {
        CallStepKeepsInv(codec, run[i - 1], e);
      }
    }
  }

  // ---------------------------------------------------------------- main results

  /** Put reports success only when storage holds the id, whichever flight it joined, and it never reports that somebody
  else's read failed. */
  lemma PutMeansStored(codec: Codec, run: seq<State>, i: nat, c: nat)
    requires RoundTrips(codec) && Run(codec, run) && i < |run|
    requires c in run[i].callers && run[i].callers[c].pc.PutDone?
    ensures var caller := run[i].callers[c];
      && caller.request.Put?
      && (caller.pc.err.None? ==> codec.id(caller.request.c) in run[i].storage)
      && caller.pc.err != Some(ReadFailed) && caller.pc.err != Some(UnexpectedType)
  {
    hide Step, Sound, Fits;
    RunKeepsInv(codec, run, i);
    assert CallerOK(codec, run[i].storage, run[i].group, run[i].callers[c]);
  }

  /** Get returns a schematic with the requested id, which storage holds, even when a Put's flight answered it. */
  lemma GetMeansStored(codec: Codec, run: seq<State>, i: nat, c: nat)
    requires RoundTrips(codec) && Run(codec, run) && i < |run|
    requires c in run[i].callers && run[i].callers[c].pc.GetDone? && run[i].callers[c].pc.got.Some?
    ensures var caller := run[i].callers[c];
      && caller.request.Get?
      && codec.id(caller.pc.got.value) == caller.request.id && caller.request.id in run[i].storage
  {
    hide Step, Sound, Fits;
    RunKeepsInv(codec, run, i);
    assert CallerOK(codec, run[i].storage, run[i].group, run[i].callers[c]);
  }

  /** What is stored stays stored. */
  lemma {:induction false} StorageGrows(codec: Codec, run: seq<State>, i: nat, j: nat)
    requires Run(codec, run) && i <= j < |run|
    ensures run[i].storage.Keys <= run[j].storage.Keys
  {
    hide CallStep, FlightStep;
    if i < j {
      StorageGrows(codec, run, i, j - 1);
      assert Step(codec, run[j - 1], run[j - 1 + 1]);
      var e :| Next(codec, run[j - 1], e) == Some(run[j]);
      if FlightStep(codec, run[j - 1], e).Some? {
        SameFlights(codec, run[j - 1], e);
      } else {
        CallsLeaveStorage(codec, run[j - 1], e);
      }
    }
  }

  lemma CallsLeaveStorage(codec: Codec, s: State, e: Event)
    requires CallStep(codec, s, e).Some?
    ensures CallStep(codec, s, e).value.storage == s.storage
  {
  }

  /** A Put whose flight is over tries again exactly when it had joined a read that failed otherwise than by
  cancellation. In particular it does not when it had joined a read whose data did not decode. */
  lemma RetriesIff(codec: Codec, run: seq<State>, i: nat, c: nat)
    requires RoundTrips(codec) && Run(codec, run) && i < |run|
    requires c in run[i].callers && run[i].callers[c].request.Put? && Next(codec, run[i], Receives(c)).Some?
    ensures var f := run[i].callers[c].pc.f;
      var t := Next(codec, run[i], Receives(c)).value;
      && f in run[i].group.flights && run[i].group.flights[f].Landed?
      && (t.callers[c].pc.Calls? <==> run[i].group.flights[f].result.err == Some(ReadFailed))
      && (!t.callers[c].pc.Calls? ==> t.callers[c].pc == PutDone(run[i].group.flights[f].result.err))
  {
    hide Step, Sound, Fits;
    RunKeepsInv(codec, run, i);
    var f := run[i].callers[c].pc.f;
    assert FlightOK(codec, run[i].storage, run[i].group.flights[f]);
  }

  // ---------------------------------------------------------------- when a Put reports a decoding error

  /** What is stored under the id does not decode. */
  predicate Undecodable(codec: Codec, storage: Storage, id: Id) { id in storage && codec.unmarshal(storage[id]).None? }

  /** Only what did not decode in the beginning can fail to decode later. */
  predicate FlightBlames(codec: Codec, start: Storage, flight: Flight<Id, PC, Result>) {
    match flight
    case Landed(key, r) => r.err == Some(DecodeFailed) ==> Undecodable(codec, start, key)
    case Flying(key, pc) => pc.GetDecodes? && codec.unmarshal(pc.data).None? ==> Undecodable(codec, start, key)
  }

  predicate CallerBlames(codec: Codec, start: Storage, caller: Caller) {
    caller.pc == PutDone(Some(DecodeFailed)) && caller.request.Put? ==>
      Undecodable(codec, start, codec.id(caller.request.c))
  }

  ghost predicate Blames(codec: Codec, start: Storage, s: State) {
    && (forall id :: id in s.storage && codec.unmarshal(s.storage[id]).None? ==> Undecodable(codec, start, id))
    && (forall f :: f in s.group.flights ==> FlightBlames(codec, start, s.group.flights[f]))
    && (forall c :: c in s.callers ==> CallerBlames(codec, start, s.callers[c]))
  }

  lemma FlightStepBlames(codec: Codec, start: Storage, s: State, e: Event)
    requires RoundTrips(codec) && Blames(codec, start, s) && FlightStep(codec, s, e).Some?
    ensures Blames(codec, start, FlightStep(codec, s, e).value)
  {
    var t := FlightStep(codec, s, e).value;
    SameFlights(codec, s, e);
    assert FlightBlames(codec, start, s.group.flights[e.f]);
    assert FlightBlames(codec, start, t.group.flights[e.f]);
    forall f | f in t.group.flights ensures FlightBlames(codec, start, t.group.flights[f]) {
      assert f != e.f ==> t.group.flights[f] == s.group.flights[f];
    }
  }

  lemma CallStepBlames(codec: Codec, start: Storage, s: State, e: Event)
    requires Inv(codec, s) && Blames(codec, start, s) && CallStep(codec, s, e).Some?
    ensures Blames(codec, start, CallStep(codec, s, e).value)
  {
    hide Sound, ResultOK, FlightOK, Undecodable;
    var t := CallStep(codec, s, e).value;
    match e {
      case Joins(c, newId) =>
        var request := s.callers[c].request;
        JoinFits(s.group, Key(codec, request), newId, if request.Put? then PutHeads(request.c) else GetReads);
        hide Join, Fits;
        forall f | f in t.group.flights ensures FlightBlames(codec, start, t.group.flights[f]) {
          assert f in s.group.flights ==> FlightBlames(codec, start, s.group.flights[f]);
        }
      case Receives(c) =>
        hide Fits;
        assert CallerOK(codec, s.storage, s.group, s.callers[c]);
        assert FlightBlames(codec, start, s.group.flights[s.callers[c].pc.f]);
      case _ =>
        hide Fits;
    }
  }

  lemma {:induction false} RunBlames(codec: Codec, run: seq<State>, i: nat)
    requires RoundTrips(codec) && Run(codec, run) && i < |run|
    ensures Blames(codec, run[0].storage, run[i])
  {
    hide FlightStep, CallStep, Sound, RoundTrips, Inv;
    if i > 0 {
      RunBlames(codec, run, i - 1);
      RunKeepsInv(codec, run, i - 1);
      assert Step(codec, run[i - 1], run[i - 1 + 1]);
      var e :| Next(codec, run[i - 1], e) == Some(run[i]);
      if FlightStep(codec, run[i - 1], e).Some? {
        FlightStepBlames(codec, run[0].storage, run[i - 1], e);
      } else {
        CallStepBlames(codec, run[0].storage, run[i - 1], e);
      }
    }
  }

  /** A run in which a Put that joins a read of undecodable data reports the decoding error. */
  function Example(storage: Storage, id: Id, c: Schematic): seq<State>
    requires id in storage
  {
    var start: Group<Id, PC, Result> := Group(map[], map[]);
    var flying: Group<Id, PC, Result> := Group(map[id := 0], map[0 := Flying(id, GetReads)]);
    var read := Advance(flying, 0, GetDecodes(storage[id]));
    var landed := Land(read, 0, Result(NonNil(None), Some(DecodeFailed)));
    var none: map<nat, Caller> := map[];
    var get := none[0 := Caller(Get(id), Calls)];
    var both := get[1 := Caller(Put(c), Calls)];
    var waits := both[0 := Caller(Get(id), Waits(0))];
    var joined := waits[1 := Caller(Put(c), Waits(0))];
    var done := joined[1 := Caller(Put(c), PutDone(Some(DecodeFailed)))];
    [ State(storage, start, none), State(storage, start, get), State(storage, start, both),
     State(storage, flying, waits),
      State(storage, flying, joined), State(storage, read, joined), State(storage, landed, joined),
      State(storage, landed, done) ]
  }

  lemma ExampleCalls(codec: Codec, storage: Storage, c: Schematic)
    requires codec.id(c) in storage
    ensures var r := Example(storage, codec.id(c), c);
      Step(codec, r[0], r[1]) && Step(codec, r[1], r[2]) && Step(codec, r[2], r[3]) && Step(codec, r[3], r[4])
  {
    var id := codec.id(c);
    var r := Example(storage, id, c);
    assert Next(codec, r[0], Asks(0, Get(id))) == Some(r[1]);
    assert Next(codec, r[1], Asks(1, Put(c))) == Some(r[2]);
    assert Next(codec, r[2], Joins(0, 0)) == Some(r[3]);
    assert Next(codec, r[3], Joins(1, 0)) == Some(r[4]);
  }

  lemma ExampleFlight(codec: Codec, storage: Storage, c: Schematic)
    requires Undecodable(codec, storage, codec.id(c))
    ensures var r := Example(storage, codec.id(c), c);
      Step(codec, r[4], r[5]) && Step(codec, r[5], r[6]) && Step(codec, r[6], r[7])
  {
    var r := Example(storage, codec.id(c), c);
    assert Next(codec, r[4], Reads(0, None)) == Some(r[5]);
    assert Next(codec, r[5], Decodes(0)) == Some(r[6]);
    assert Next(codec, r[6], Receives(1)) == Some(r[7]);
  }

  lemma PutReportsDecodingError(codec: Codec, storage: Storage, c: Schematic)
    requires Sound(codec, storage) && Undecodable(codec, storage, codec.id(c))
    ensures var run := Example(storage, codec.id(c), c);
      && Run(codec, run)
      && run[7].callers[1] == Caller(Put(c), PutDone(Some(DecodeFailed)))
      && run[1].storage == storage
  {
    hide Step, Sound;
    ExampleCalls(codec, storage, c);
    ExampleFlight(codec, storage, c);
  }

  /** In some state of the run a Put of `c` has reported a decoding error. */
  ghost predicate PutFailsToDecode(codec: Codec, storage: Storage, c: Schematic, run: seq<State>, i: nat, k: nat) {
    && Run(codec, run) && run[0].storage == storage && i < |run|
    && k in run[i].callers && run[i].callers[k] == Caller(Put(c), PutDone(Some(DecodeFailed)))
  }

  /** A Put can report a decoding error if and only if its id is stored beforehand and what is stored does not decode:
  nothing that a Put itself has written ever makes one fail. */
  lemma DecodingErrorIff(codec: Codec, storage: Storage, c: Schematic)
    requires RoundTrips(codec) && Sound(codec, storage)
    ensures (exists run, i, k :: PutFailsToDecode(codec, storage, c, run, i, k))
        <==> Undecodable(codec, storage, codec.id(c))
  {
    hide RoundTrips, Sound, Step;
    if run: seq<State>, i: nat, k: nat :| PutFailsToDecode(codec, storage, c, run, i, k) {
      RunBlames(codec, run, i);
      assert CallerBlames(codec, storage, run[i].callers[k]);
    }
    if Undecodable(codec, storage, codec.id(c)) {
      PutReportsDecodingError(codec, storage, c);
      assert PutFailsToDecode(codec, storage, c, Example(storage, codec.id(c), c), 7, 1);
    }
  }

  /** No two functions run for one id in any state of any run. */
  lemma OneFlightPerId(codec: Codec, run: seq<State>, i: nat, f: nat, g: nat)
    requires RoundTrips(codec) && Run(codec, run) && i < |run|
    requires var flights := run[i].group.flights;
      f in flights && g in flights && flights[f].Flying? && flights[g].Flying? && flights[f].key == flights[g].key
    ensures f == g
  {
    hide Step, Sound, FlightOK, CallerOK;
    RunKeepsInv(codec, run, i);
    AtMostOnePerKey(run[i].group, f, g);
  }

  // ---------------------------------------------------------------- a request that nobody disturbs

  /** The state after these events, one after the other. */
  function Perform(codec: Codec, s: State, events: seq<Event>): Option<State>
    decreases |events|
  {
    if events == [] then Some(s)
    else
      match Next(codec, s, events[0])
      case None => None
      case Some(t) => Perform(codec, t, events[1..])
  }

  lemma PerformNext(codec: Codec, s: State, e: Event, t: State, rest: seq<Event>)
    requires Next(codec, s, e) == Some(t)
    ensures Perform(codec, s, [e] + rest) == Perform(codec, t, rest)
  {
    hide Next;
    assert ([e] + rest)[0] == e && ([e] + rest)[1..] == rest;
  }

  /** A request up to the flight it starts. */
  function Starting(c: nat, request: Request, f: nat): seq<Event> { [Asks(c, request), Joins(c, f)] }

  function Started(codec: Codec, s: State, c: nat, request: Request, f: nat): State {
    var id := Key(codec, request);
    State(s.storage, Group(s.group.active[id := f],
                           s.group.flights[f := Flying(id, if request.Put? then PutHeads(request.c) else GetReads)]),
          s.callers[c := Caller(request, Waits(f))])
  }

  lemma StartingAlone(codec: Codec, s: State, c: nat, request: Request, f: nat, rest: seq<Event>)
    requires c !in s.callers && f !in s.group.flights && Key(codec, request) !in s.group.active
    ensures Perform(codec, s, Starting(c, request, f) + rest) == Perform(codec, Started(codec, s, c, request, f), rest)
  {
    var a := s.(callers := s.callers[c := Caller(request, Calls)]);
    var e1, e2 := Asks(c, request), Joins(c, f);
    assert Next(codec, s, e1) == Some(a);
    assert a.callers[c := Caller(request, Waits(f))] == s.callers[c := Caller(request, Waits(f))];
    assert Next(codec, a, e2) == Some(Started(codec, s, c, request, f));
    hide Next;
    PerformNext(codec, s, e1, a, [e2] + rest);
    PerformNext(codec, a, e2, Started(codec, s, c, request, f), rest);
    assert Starting(c, request, f) + rest == [e1] + ([e2] + rest);
  }

  /** What a caller gets when its flight has landed. */
  lemma ReceivingAlone(codec: Codec, s: State, c: nat, request: Request, f: nat, result: Result)
    requires c in s.callers && s.callers[c] == Caller(request, Waits(f))
    requires f in s.group.flights && s.group.flights[f] == Landed(Key(codec, request), result)
    ensures Perform(codec, s, [Receives(c)])
         == Some(s.(callers := s.callers[c := Caller(request, Conclude(request, result))]))
  {
    var t := s.(callers := s.callers[c := Caller(request, Conclude(request, result))]);
    assert Next(codec, s, Receives(c)) == Some(t);
    PerformNext(codec, s, Receives(c), t, []);
    assert [Receives(c)] + [] == [Receives(c)];
  }

  /** An undisturbed Put ends without an error: it finds its id stored, or stores what the schematic is encoded as. */
  lemma PutAlone(codec: Codec, s: State, c: nat, cfg: Schematic, f: nat) returns (t: State)
    requires c !in s.callers && f !in s.group.flights && codec.id(cfg) !in s.group.active
    requires codec.id(cfg) in s.storage || codec.marshal(cfg).Some?
    ensures var id := codec.id(cfg);
      && Perform(codec, s, Starting(c, Request.Put(cfg), f)
                           + if id in s.storage then [Heads(f, true)] + [Receives(c)]
                             else [Heads(f, false)] + ([Writes(f, true)] + [Receives(c)])) == Some(t)
      && c in t.callers && t.callers[c] == Caller(Request.Put(cfg), PutDone(None))
      && t.storage == (if id in s.storage then s.storage else s.storage[id := codec.marshal(cfg).value])
      && id !in t.group.active
  {
    var id, request := codec.id(cfg), Request.Put(cfg);
    var started, landed := Started(codec, s, c, request, f), Result(NonNil(Some(cfg)), None);
    if id in s.storage {
      var a := started.(group := Land(started.group, f, landed));
      assert Next(codec, started, Heads(f, true)) == Some(a);
      hide Next;
      StartingAlone(codec, s, c, request, f, [Heads(f, true)] + [Receives(c)]);
      PerformNext(codec, started, Heads(f, true), a, [Receives(c)]);
      ReceivingAlone(codec, a, c, request, f, landed);
      t := a.(callers := a.callers[c := Caller(request, PutDone(None))]);
    } else {
      var a := started.(group := Advance(started.group, f, PutWrites(cfg)));
      var b := a.(storage := s.storage[id := codec.marshal(cfg).value], group := Land(a.group, f, landed));
      assert Next(codec, started, Heads(f, false)) == Some(a);
      assert Next(codec, a, Writes(f, true)) == Some(b);
      hide Next;
      StartingAlone(codec, s, c, request, f, [Heads(f, false)] + ([Writes(f, true)] + [Receives(c)]));
      PerformNext(codec, started, Heads(f, false), a, [Writes(f, true)] + [Receives(c)]);
      PerformNext(codec, a, Writes(f, true), b, [Receives(c)]);
      ReceivingAlone(codec, b, c, request, f, landed);
      t := b.(callers := b.callers[c := Caller(request, PutDone(None))]);
    }
  }

  /** An undisturbed Put that finds nothing, and cannot encode or write its schematic, says so and stores nothing. */
  lemma PutFailsAlone(codec: Codec, s: State, c: nat, cfg: Schematic, f: nat) returns (t: State)
    requires c !in s.callers && f !in s.group.flights && codec.id(cfg) !in s.group.active
    ensures Perform(codec, s, Starting(c, Request.Put(cfg), f)
                              + if codec.marshal(cfg).None? then [Heads(f, false)] + [Receives(c)]
                                else [Heads(f, false)] + ([Writes(f, false)] + [Receives(c)])) == Some(t)
    ensures c in t.callers
    ensures t.callers[c] == Caller(Request.Put(cfg), PutDone(Some(if codec.marshal(cfg).None? then MarshalFailed
                                                                  else WriteFailed)))
    ensures t.storage == s.storage && codec.id(cfg) !in t.group.active
  {
    var request := Request.Put(cfg);
    var error := if codec.marshal(cfg).None? then MarshalFailed else WriteFailed;
    var started, landed := Started(codec, s, c, request, f), Result(NonNil(Some(cfg)), Some(error));
    if codec.marshal(cfg).None? {
      var a := started.(group := Land(started.group, f, landed));
      assert Next(codec, started, Heads(f, false)) == Some(a);
      hide Next;
      StartingAlone(codec, s, c, request, f, [Heads(f, false)] + [Receives(c)]);
      PerformNext(codec, started, Heads(f, false), a, [Receives(c)]);
      ReceivingAlone(codec, a, c, request, f, landed);
      t := a.(callers := a.callers[c := Caller(request, PutDone(Some(error)))]);
    } else {
      var a := started.(group := Advance(started.group, f, PutWrites(cfg)));
      var b := a.(group := Land(a.group, f, landed));
      assert Next(codec, started, Heads(f, false)) == Some(a);
      assert Next(codec, a, Writes(f, false)) == Some(b);
      hide Next;
      StartingAlone(codec, s, c, request, f, [Heads(f, false)] + ([Writes(f, false)] + [Receives(c)]));
      PerformNext(codec, started, Heads(f, false), a, [Writes(f, false)] + [Receives(c)]);
      PerformNext(codec, a, Writes(f, false), b, [Receives(c)]);
      ReceivingAlone(codec, b, c, request, f, landed);
      t := b.(callers := b.callers[c := Caller(request, PutDone(Some(error)))]);
    }
  }

  /** An undisturbed Get that cannot read returns nothing, and the next one starts anew. */
  lemma GetFailsAlone(codec: Codec, s: State, c: nat, id: Id, f: nat, error: Error) returns (t: State)
    requires c !in s.callers && f !in s.group.flights && id !in s.group.active && (error.Canceled? || error.ReadFailed?)
    ensures Perform(codec, s, Starting(c, Request.Get(id), f) + ([Reads(f, Some(error))] + [Receives(c)])) == Some(t)
    ensures c in t.callers && t.callers[c] == Caller(Request.Get(id), GetDone(None))
    ensures t.storage == s.storage && id !in t.group.active
  {
    var request := Request.Get(id);
    var started, landed := Started(codec, s, c, request, f), Result(NilInterface, Some(error));
    var a := started.(group := Land(started.group, f, landed));
    assert Next(codec, started, Reads(f, Some(error))) == Some(a);
    hide Next;
    StartingAlone(codec, s, c, request, f, [Reads(f, Some(error))] + [Receives(c)]);
    PerformNext(codec, started, Reads(f, Some(error)), a, [Receives(c)]);
    ReceivingAlone(codec, a, c, request, f, landed);
    t := a.(callers := a.callers[c := Caller(request, GetDone(None))]);
  }

  /** An undisturbed Get of an id that is stored returns what is stored, if it decodes. */
  lemma GetAlone(codec: Codec, s: State, c: nat, id: Id, f: nat) returns (t: State)
    requires c !in s.callers && f !in s.group.flights && id !in s.group.active && id in s.storage
    ensures Perform(codec, s, Starting(c, Request.Get(id), f)
                              + ([Reads(f, None)] + ([Decodes(f)] + [Receives(c)]))) == Some(t)
    ensures c in t.callers && t.callers[c] == Caller(Request.Get(id), GetDone(codec.unmarshal(s.storage[id])))
    ensures t.storage == s.storage && id !in t.group.active
  {
    var request, got := Request.Get(id), codec.unmarshal(s.storage[id]);
    var started := Started(codec, s, c, request, f);
    var landed := Result(NonNil(got), if got.Some? then None else Some(DecodeFailed));
    var a := started.(group := Advance(started.group, f, GetDecodes(s.storage[id])));
    var b := a.(group := Land(a.group, f, landed));
    assert Next(codec, started, Reads(f, None)) == Some(a);
    assert Next(codec, a, Decodes(f)) == Some(b);
    hide Next;
    StartingAlone(codec, s, c, request, f, [Reads(f, None)] + ([Decodes(f)] + [Receives(c)]));
    PerformNext(codec, started, Reads(f, None), a, [Decodes(f)] + [Receives(c)]);
    PerformNext(codec, a, Decodes(f), b, [Receives(c)]);
    ReceivingAlone(codec, b, c, request, f, landed);
    t := b.(callers := b.callers[c := Caller(request, GetDone(got))]);
  }
}
