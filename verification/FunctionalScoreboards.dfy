/**
 The architectural scoreboards: what an instruction should have written is
 registered when it is accepted, its store is observed one stage before it
 retires, and the verdict falls at retirement. The batch scoreboard knows the
 whole run beforehand and keeps every verdict; the streaming one keeps only
 what is in flight.
 */
module FunctionalScoreboards {
  import opened Wrappers
  import opened Rv32Isa
  import opened ArchitecturalModel
  import Retirement

  datatype ExpectedRetire = ExpectedRetire(
    id: int, regwrite: bool, rd: Option<Reg>, wdata: Option<int>,
    storeAddress: Option<int>, storeData: Option<int>, storeWidth: Option<int>)

  datatype StoreObservation = StoreObservation(id: int, writeEnable: bool, address: int, data: Word)

  datatype CheckName =
    | WRITE_ENABLE | WRITE_RD | WRITE_DATA | UNEXPECTED_ARCHITECTURAL_WRITE
    | UNEXPECTED_STORE | STORE_ENABLE | STORE_ADDRESS_IN_DUT_RANGE | STORE_ADDRESS | STORE_DATA | ARCHITECTURAL_X0

  datatype Check = Check(name: CheckName, expected: int, observed: int) {
    predicate Passed() {
      expected == observed
    }
  }

  datatype Verdict = Verdict(id: int, checks: seq<Check>) {
    predicate Passed() {
      forall c | c in checks :: c.Passed()
    }
  }

  datatype ScoreError = NotContiguous | NoExpectation | DuplicateStore | DuplicateRetire | OutOfOrder | MissingStore | Inconsistent

  const DUT_ADDRESS_LIMIT := 0x1FF

  function Bit(b: bool): int {
    if b then 1 else 0
  }

  /** What an instruction is expected to do, from the record of its architectural step. */
  function ExpectedOf(step: ArchStep): ExpectedRetire {
    var w, s := step.registerWrite, step.store;
    ExpectedRetire(step.index, w.Some?, if w.Some? then Some(w.value.rd) else None,
                   if w.Some? then Some(w.value.value) else None,
                   if s.Some? then Some(s.value.address) else None, if s.Some? then Some(s.value.data) else None,
                   if s.Some? then Some(4) else None)
  }

  // ---------------------------------------------------------------------
  // The verdict on one instruction
  // ---------------------------------------------------------------------

  function WriteChecks(e: ExpectedRetire, r: Retirement.RetireEvent): Result<seq<Check>, ScoreError> {
    if !e.regwrite then Ok([Check(UNEXPECTED_ARCHITECTURAL_WRITE, 0, Bit(r.regwrite && r.rd != 0))])
    else if e.rd.None? || e.wdata.None? then Err(Inconsistent)
    else
      var enabled := Check(WRITE_ENABLE, 1, Bit(r.regwrite));
      Ok(if !r.regwrite then [enabled]
         else [enabled, Check(WRITE_RD, e.rd.value, r.rd), Check(WRITE_DATA, Wrap32(e.wdata.value), r.wdata)])
  }

  function StoreChecks(e: ExpectedRetire, o: StoreObservation): Result<seq<Check>, ScoreError> {
    if e.storeAddress.None? then Ok([Check(UNEXPECTED_STORE, 0, Bit(o.writeEnable))])
    else if e.storeData.None? || e.storeWidth.None? then Err(Inconsistent)
    else
      var enabled := Check(STORE_ENABLE, 1, Bit(o.writeEnable));
      var address := if e.storeAddress.value > DUT_ADDRESS_LIMIT then Check(STORE_ADDRESS_IN_DUT_RANGE, 1, 0)
                     else Check(STORE_ADDRESS, e.storeAddress.value, o.address);
      Ok(if !o.writeEnable then [enabled] else [enabled, address, Check(STORE_DATA, Wrap32(e.storeData.value), o.data)])
  }

  function Judge(e: ExpectedRetire, r: Retirement.RetireEvent, o: StoreObservation, x0: Word): Result<Verdict, ScoreError> {
    match (WriteChecks(e, r), StoreChecks(e, o))
    case (Ok(written), Ok(stored)) => Ok(Verdict(e.id, written + stored + [Check(ARCHITECTURAL_X0, 0, x0)]))
    case (_, _) => Err(Inconsistent)
  }

  /** The write port did to the registers what the step did. */
  predicate SameWrite(step: ArchStep, r: Retirement.RetireEvent) {
    match step.registerWrite
    case None => !r.regwrite || r.rd == 0
    case Some(w) => r.regwrite && r.rd == w.rd && r.wdata == w.value
  }

  /** The memory port did what the step did, at an address the device has. */
  predicate SameStore(step: ArchStep, o: StoreObservation) {
    match step.store
    case None => !o.writeEnable
    case Some(s) => o.writeEnable && s.address < 512 && o.address == s.address && o.data == s.data
  }

  /**
   An instruction that the model executed is always judged, and it passes
   exactly when the observed ports did what the model did and x0 is zero.
   */
  lemma PassesExactlyWhenFaithful(step: ArchStep, r: Retirement.RetireEvent, o: StoreObservation, x0: Word)
    ensures Judge(ExpectedOf(step), r, o, x0).Ok?
    ensures Judge(ExpectedOf(step), r, o, x0).value.Passed() <==> SameWrite(step, r) && SameStore(step, o) && x0 == 0
  {
    hide WriteChecks, StoreChecks, SameWrite, SameStore;
    var e := ExpectedOf(step);
    WritePasses(step, r);
    StorePasses(step, o);
    AllPass(e.id, WriteChecks(e, r).value, StoreChecks(e, o).value, Check(ARCHITECTURAL_X0, 0, x0));
  }

  lemma AllPass(id: int, written: seq<Check>, stored: seq<Check>, zero: Check)
    ensures Verdict(id, written + stored + [zero]).Passed()
       <==> (forall c | c in written :: c.Passed()) && (forall c | c in stored :: c.Passed()) && zero.Passed()
  {
    hide Check.Passed;
    var all := written + stored + [zero];
    assert forall c :: c in all <==> c in written || c in stored || c == zero;
  }

  lemma WritePasses(step: ArchStep, r: Retirement.RetireEvent)
    ensures var w := WriteChecks(ExpectedOf(step), r); w.Ok? && (SameWrite(step, r) <==> forall c | c in w.value :: c.Passed())
  {
    var w := WriteChecks(ExpectedOf(step), r).value;
    assert w[0] in w;
    if |w| == 3 {
      assert w[1] in w && w[2] in w;
    }
  }

  lemma StorePasses(step: ArchStep, o: StoreObservation)
    ensures var s := StoreChecks(ExpectedOf(step), o); s.Ok? && (SameStore(step, o) <==> forall c | c in s.value :: c.Passed())
  {
    var s := StoreChecks(ExpectedOf(step), o).value;
    assert s[0] in s;
    if |s| == 3 {
      assert s[1] in s && s[2] in s;
    }
  }

  // ---------------------------------------------------------------------
  // One call of either scoreboard
  // ---------------------------------------------------------------------

  type Stores = map<int, StoreObservation>

  datatype Call =
    | Register(expected: ExpectedRetire)
    | StoreStage(store: StoreObservation)
    | Retire(retire: Retirement.RetireEvent, x0: Word)

  datatype Batch = Batch(stores: Stores, results: map<int, Verdict>)

  datatype Stream = Stream(
    expected: map<int, ExpectedRetire>, stores: Stores,
    registered: nat, checked: nat, passed: nat, failed: nat, lastRetired: nat)

  predicate Numbered(es: seq<ExpectedRetire>) {
    forall k | 0 <= k < |es| :: es[k].id == k + 1
  }

  /** The batch scoreboard was given the whole run; registering is nothing to it. */
  function BatchStep(es: seq<ExpectedRetire>, s: Batch, call: Call): Option<(Batch, seq<Verdict>)> {
    match call
    case Register(_) => Some((s, []))
    case StoreStage(o) =>
      if !(1 <= o.id <= |es|) || o.id in s.stores then None else Some((s.(stores := s.stores[o.id := o]), []))
    case Retire(r, x0) =>
      if !(1 <= r.id <= |es|) || r.id in s.results || r.id !in s.stores then None
      else
        match Judge(es[r.id - 1], r, s.stores[r.id], x0)
        case Err(_) => None
        case Ok(v) => Some((Batch(s.stores - {r.id}, s.results[r.id := v]), [v]))
  }

  function StreamStep(s: Stream, call: Call): Option<(Stream, seq<Verdict>)> {
    match call
    case Register(e) =>
      if e.id != s.registered + 1 || e.id in s.expected then None
      else Some((s.(expected := s.expected[e.id := e], registered := s.registered + 1), []))
    case StoreStage(o) =>
      if o.id !in s.expected || o.id in s.stores then None else Some((s.(stores := s.stores[o.id := o]), []))
    case Retire(r, x0) =>
      if r.id != s.lastRetired + 1 || r.id !in s.expected || r.id !in s.stores then None
      else
        match Judge(s.expected[r.id], r, s.stores[r.id], x0)
        case Err(_) => None
        case Ok(v) =>
          Some((Stream(s.expected - {r.id}, s.stores - {r.id}, s.registered, s.checked + 1,
                       s.passed + Bit(v.Passed()), s.failed + Bit(!v.Passed()), r.id), [v]))
  }

  // ---------------------------------------------------------------------
  // Whole runs
  // ---------------------------------------------------------------------

  function BatchRun(es: seq<ExpectedRetire>, calls: seq<Call>): Option<(Batch, seq<Verdict>)> {
    if calls == [] then Some((Batch(map[], map[]), []))
    else
      match BatchRun(es, calls[..|calls| - 1])
      case None => None
      case Some((before, log)) =>
        match BatchStep(es, before, calls[|calls| - 1])
        case None => None
        case Some((after, more)) => Some((after, log + more))
  }

  function StreamRun(calls: seq<Call>): Option<(Stream, seq<Verdict>)> {
    if calls == [] then Some((Stream(map[], map[], 0, 0, 0, 0, 0), []))
    else
      match StreamRun(calls[..|calls| - 1])
      case None => None
      case Some((before, log)) =>
        match StreamStep(before, calls[|calls| - 1])
        case None => None
        case Some((after, more)) => Some((after, log + more))
  }

  function Registered(calls: seq<Call>): seq<ExpectedRetire> {
    if calls == [] then []
    else
      var last := calls[|calls| - 1];
      Registered(calls[..|calls| - 1]) + (if last.Register? then [last.expected] else [])
  }

  function Retirements(calls: seq<Call>): nat {
    if calls == [] then 0 else Retirements(calls[..|calls| - 1]) + (if calls[|calls| - 1].Retire? then 1 else 0)
  }

  /** The call is for an instruction in flight: registered in sequence, retired in sequence, stored in between. */
  predicate InFlight(call: Call, registered: nat, retired: nat) {
    match call
    case Register(e) => e.id == registered + 1
    case StoreStage(o) => retired < o.id <= registered
    case Retire(r, _) => r.id == retired + 1 <= registered
  }

  predicate InOrder(calls: seq<Call>) {
    calls == []
    || (InOrder(calls[..|calls| - 1])
        && InFlight(calls[|calls| - 1], |Registered(calls[..|calls| - 1])|, Retirements(calls[..|calls| - 1])))
  }

  function PassedIn(results: map<int, Verdict>): set<int> {
    set id | id in results && results[id].Passed()
  }

  /** Expectations and stores are kept for in-flight instructions only. */
  ghost predicate Retains(expected: map<int, ExpectedRetire>, stores: Stores, es: seq<ExpectedRetire>,
                          registered: nat, retired: nat)
  {
    && registered <= |es|
    && (forall id :: id in expected <==> retired < id <= registered)
    && (forall id | id in expected :: expected[id] == es[id - 1])
    && forall id | id in stores :: retired < id <= registered
  }

  /** The verdicts by instruction are those of the log. */
  ghost predicate Keeps(results: map<int, Verdict>, log: seq<Verdict>, retired: nat) {
    && |results| == |log| == retired
    && (forall id :: id in results <==> 1 <= id <= retired)
    && forall id | id in results :: results[id] == log[id - 1]
  }

  /** Both stand at the same point; the streaming one counts what the batch one would find in its history. */
  ghost predicate Agree(s: Stream, b: Batch, es: seq<ExpectedRetire>, log: seq<Verdict>, registered: nat, retired: nat) {
    && retired <= registered && s.registered == registered && s.lastRetired == s.checked == retired
    && s.stores == b.stores && Retains(s.expected, s.stores, es, registered, retired) && Keeps(b.results, log, retired)
    && s.passed == |PassedIn(b.results)| && s.passed + s.failed == s.checked
  }

  lemma OneMoreVerdict(results: map<int, Verdict>, id: int, v: Verdict)
    requires id !in results
    ensures |PassedIn(results[id := v])| == |PassedIn(results)| + Bit(v.Passed())
  {
    hide Verdict.Passed;
    assert PassedIn(results[id := v]) == PassedIn(results) + (if v.Passed() then {id} else {});
  }

  /** From agreement, the streaming scoreboard takes a call exactly if it is in flight and the batch one takes it. */
  lemma SameStep(s: Stream, b: Batch, es: seq<ExpectedRetire>, log: seq<Verdict>, registered: nat, retired: nat, call: Call)
    requires Agree(s, b, es, log, registered, retired)
    requires call.Register? ==> registered < |es| && es[registered] == call.expected
    ensures StreamStep(s, call).Some? <==> InFlight(call, registered, retired) && BatchStep(es, b, call).Some?
    ensures StreamStep(s, call).Some? ==>
              && BatchStep(es, b, call).value.1 == StreamStep(s, call).value.1
              && Agree(StreamStep(s, call).value.0, BatchStep(es, b, call).value.0, es,
                       log + StreamStep(s, call).value.1,
                       registered + (if call.Register? then 1 else 0), retired + (if call.Retire? then 1 else 0))
  {
    hide Agree, StreamStep, BatchStep, InFlight;
    match call
    case Register(e) => SameRegister(s, b, es, log, registered, retired, e);
    case StoreStage(o) => SameStoreStage(s, b, es, log, registered, retired, o);
    case Retire(r, x0) => SameRetire(s, b, es, log, registered, retired, r, x0);
  }

  lemma SameRegister(s: Stream, b: Batch, es: seq<ExpectedRetire>, log: seq<Verdict>, registered: nat, retired: nat,
                     e: ExpectedRetire)
    requires Agree(s, b, es, log, registered, retired) && registered < |es| && es[registered] == e
    ensures StreamStep(s, Register(e)).Some? <==> InFlight(Register(e), registered, retired)
    ensures BatchStep(es, b, Register(e)) == Some((b, []))
    ensures StreamStep(s, Register(e)).Some? ==>
              StreamStep(s, Register(e)).value.1 == []
              && Agree(StreamStep(s, Register(e)).value.0, b, es, log + [], registered + 1, retired)
  {
    hide PassedIn, Keeps;
    assert log + [] == log;
  }

  lemma SameStoreStage(s: Stream, b: Batch, es: seq<ExpectedRetire>, log: seq<Verdict>, registered: nat, retired: nat,
                       o: StoreObservation)
    requires Agree(s, b, es, log, registered, retired)
    ensures var call := StoreStage(o);
            && (StreamStep(s, call).Some? <==> InFlight(call, registered, retired) && BatchStep(es, b, call).Some?)
            && (StreamStep(s, call).Some? ==>
                  && BatchStep(es, b, call).value.1 == StreamStep(s, call).value.1 == []
                  && Agree(StreamStep(s, call).value.0, BatchStep(es, b, call).value.0, es, log + [], registered, retired))
  {
    hide PassedIn, Keeps;
    assert log + [] == log;
  }

  lemma SameRetire(s: Stream, b: Batch, es: seq<ExpectedRetire>, log: seq<Verdict>, registered: nat, retired: nat,
                   r: Retirement.RetireEvent, x0: Word)
    requires Agree(s, b, es, log, registered, retired)
    ensures var call := Retire(r, x0);
            && (StreamStep(s, call).Some? <==> InFlight(call, registered, retired) && BatchStep(es, b, call).Some?)
            && (StreamStep(s, call).Some? ==>
                  && BatchStep(es, b, call).value.1 == StreamStep(s, call).value.1
                  && Agree(StreamStep(s, call).value.0, BatchStep(es, b, call).value.0, es,
                           log + StreamStep(s, call).value.1, registered, retired + 1))
  {
    hide PassedIn, Judge, Verdict.Passed, Keeps, Retains;
    RetireKnown(s, b, es, log, registered, retired, r.id);
    if StreamStep(s, Retire(r, x0)).Some? {
      var v := StreamStep(s, Retire(r, x0)).value.1[0];
      OneMoreVerdict(b.results, r.id, v);
      KeepsOneMore(b.results, log, retired, v);
      RetainsOneLess(s.expected, s.stores, es, registered, retired);
    }
  }

  lemma RetireKnown(s: Stream, b: Batch, es: seq<ExpectedRetire>, log: seq<Verdict>, registered: nat, retired: nat, id: int)
    requires Agree(s, b, es, log, registered, retired)
    ensures id == retired + 1 ==> (id in s.expected <==> id <= registered) && id !in b.results
    ensures id == retired + 1 && id in s.expected ==> 1 <= id <= |es| && s.expected[id] == es[id - 1]
  {
    hide PassedIn;
  }

  lemma KeepsOneMore(results: map<int, Verdict>, log: seq<Verdict>, retired: nat, v: Verdict)
    requires Keeps(results, log, retired)
    ensures Keeps(results[retired + 1 := v], log + [v], retired + 1)
  {
    assert results[retired + 1 := v].Keys == results.Keys + {retired + 1};
  }

  lemma RetainsOneLess(expected: map<int, ExpectedRetire>, stores: Stores, es: seq<ExpectedRetire>,
                       registered: nat, retired: nat)
    requires Retains(expected, stores, es, registered, retired)
    ensures Retains(expected - {retired + 1}, stores - {retired + 1}, es, registered, retired + 1)
  {
  }

  lemma NothingYet(es: seq<ExpectedRetire>)
    ensures Agree(StreamRun([]).value.0, BatchRun(es, []).value.0, es, [], 0, 0)
  {
  }

  /**
   The streaming scoreboard accepts a run exactly when its calls are in order
   and the batch scoreboard accepts them, and then every verdict and every
   counter is the same.
   */
  lemma {:induction false} SameVerdicts(es: seq<ExpectedRetire>, calls: seq<Call>)
    requires Registered(calls) <= es
    ensures StreamRun(calls).Some? <==> InOrder(calls) && BatchRun(es, calls).Some?
    ensures StreamRun(calls).Some? ==>
              && StreamRun(calls).value.1 == BatchRun(es, calls).value.1
              && Agree(StreamRun(calls).value.0, BatchRun(es, calls).value.0, es, StreamRun(calls).value.1,
                       |Registered(calls)|, Retirements(calls))
  {
    hide StreamStep, BatchStep, InFlight, Agree;
    if calls == [] {
      NothingYet(es);
    } else {
      var front, last := calls[..|calls| - 1], calls[|calls| - 1];
      assert Registered(front) <= es;
      SameVerdicts(es, front);
      if StreamRun(front).Some? {
        var (s, log) := StreamRun(front).value;
        SameStep(s, BatchRun(es, front).value.0, es, log, |Registered(front)|, Retirements(front), last);
      }
    }
  }

  /** Nothing is left behind by a run that retires all it registered, so both call it complete. */
  lemma CompleteTogether(es: seq<ExpectedRetire>, calls: seq<Call>)
    requires Registered(calls) == es && StreamRun(calls).Some?
    ensures BatchRun(es, calls).Some?
    ensures var s, b := StreamRun(calls).value.0, BatchRun(es, calls).value.0;
            (s.checked == s.registered && s.expected == map[] && s.stores == map[]) <==> |b.results| == |es|
  {
    hide StreamRun, BatchRun, Registered, InOrder, PassedIn;
    SameVerdicts(es, calls);
    var s := StreamRun(calls).value.0;
    if s.registered == s.lastRetired {
      assert forall id :: id !in s.expected && id !in s.stores;
      assert s.expected == map[] && s.stores == map[];
    }
  }

  lemma RunsOneMore(es: seq<ExpectedRetire>, calls: seq<Call>, call: Call)
    ensures BatchRun(es, calls).Some? ==>
              match BatchStep(es, BatchRun(es, calls).value.0, call)
              case None => BatchRun(es, calls + [call]).None?
              case Some((after, more)) => BatchRun(es, calls + [call]) == Some((after, BatchRun(es, calls).value.1 + more))
    ensures StreamRun(calls).Some? ==>
              match StreamStep(StreamRun(calls).value.0, call)
              case None => StreamRun(calls + [call]).None?
              case Some((after, more)) => StreamRun(calls + [call]) == Some((after, StreamRun(calls).value.1 + more))
  {
    hide BatchStep, StreamStep;
    assert (calls + [call])[..|calls|] == calls;
  }

  /** The verdict on an instruction is about its own retirement and its own store observation, and right. */
  ghost predicate Rightly(v: Verdict, steps: seq<ArchStep>, calls: seq<Call>) {
    exists r, x0, o :: RightOn(v, steps, calls, r, x0, o)
  }

  ghost predicate RightOn(v: Verdict, steps: seq<ArchStep>, calls: seq<Call>, r: Retirement.RetireEvent, x0: Word,
                          o: StoreObservation)
  {
    && Retire(r, x0) in calls && StoreStage(o) in calls && 1 <= v.id <= |steps| && r.id == v.id == o.id
    && (v.Passed() <==> SameWrite(steps[v.id - 1], r) && SameStore(steps[v.id - 1], o) && x0 == 0)
  }

  ghost predicate AllRight(b: Batch, log: seq<Verdict>, steps: seq<ArchStep>, calls: seq<Call>) {
    && (forall id | id in b.stores :: b.stores[id].id == id && StoreStage(b.stores[id]) in calls)
    && forall v | v in log :: Rightly(v, steps, calls)
  }

  /** What the batch scoreboard is given for a run of the model. */
  function ExpectedRun(steps: seq<ArchStep>): (es: seq<ExpectedRetire>)
    ensures |es| == |steps| && forall k | 0 <= k < |steps| :: es[k] == ExpectedOf(steps[k])
  {
    seq(|steps|, k requires 0 <= k < |steps| => ExpectedOf(steps[k]))
  }

  lemma StaysRight(b: Batch, log: seq<Verdict>, steps: seq<ArchStep>, calls: seq<Call>, call: Call)
    requires AllRight(b, log, steps, calls)
    ensures AllRight(b, log, steps, calls + [call])
  {
    hide SameWrite, SameStore, Verdict.Passed;
    forall v | v in log
      ensures Rightly(v, steps, calls + [call])
    {
      assert Rightly(v, steps, calls);
      var r, x0, o :| RightOn(v, steps, calls, r, x0, o);
      assert RightOn(v, steps, calls + [call], r, x0, o);
    }
  }

  lemma StepIsRight(b: Batch, log: seq<Verdict>, steps: seq<ArchStep>, calls: seq<Call>, call: Call)
    requires AllRight(b, log, steps, calls) && BatchStep(ExpectedRun(steps), b, call).Some?
    requires forall k | 0 <= k < |steps| :: steps[k].index == k + 1
    ensures var (after, more) := BatchStep(ExpectedRun(steps), b, call).value;
            AllRight(after, log + more, steps, calls + [call])
  {
    hide Judge, SameWrite, SameStore, Verdict.Passed, ExpectedOf, Rightly;
    StaysRight(b, log, steps, calls, call);
    assert call in calls + [call];
    if call.Retire? {
      var r, x0, o, step := call.retire, call.x0, b.stores[call.retire.id], steps[call.retire.id - 1];
      PassesExactlyWhenFaithful(step, r, o, x0);
      var v := Judge(ExpectedOf(step), r, o, x0).value;
      JudgedIsNamed(step, r, o, x0);
      assert RightOn(v, steps, calls + [call], r, x0, o);
      OneIsRight(v, steps, calls + [call], r, x0, o);
    }
  }

  lemma OneIsRight(v: Verdict, steps: seq<ArchStep>, calls: seq<Call>, r: Retirement.RetireEvent, x0: Word, o: StoreObservation)
    requires RightOn(v, steps, calls, r, x0, o)
    ensures Rightly(v, steps, calls)
  {
    hide RightOn;
  }

  lemma JudgedIsNamed(step: ArchStep, r: Retirement.RetireEvent, o: StoreObservation, x0: Word)
    ensures Judge(ExpectedOf(step), r, o, x0).Ok? ==> Judge(ExpectedOf(step), r, o, x0).value.id == step.index
  {
  }

  /**
   Over any accepted run of the batch scoreboard on a run of the model: every
   verdict passes exactly if the instruction's own write-back, its own store
   observation and x0 show what the model did.
   */
  lemma {:induction false} RunIsJudgedRightly(steps: seq<ArchStep>, calls: seq<Call>)
    requires (forall k | 0 <= k < |steps| :: steps[k].index == k + 1) && BatchRun(ExpectedRun(steps), calls).Some?
    ensures AllRight(BatchRun(ExpectedRun(steps), calls).value.0, BatchRun(ExpectedRun(steps), calls).value.1, steps, calls)
  {
    hide AllRight, BatchStep, ExpectedRun;
    if calls == [] {
      NothingIsRight(steps);
    } else {
      var front, call := calls[..|calls| - 1], calls[|calls| - 1];
      RunIsJudgedRightly(steps, front);
      var (b, log) := BatchRun(ExpectedRun(steps), front).value;
      StepIsRight(b, log, steps, front, call);
      assert front + [call] == calls;
    }
  }

  lemma NothingIsRight(steps: seq<ArchStep>)
    ensures AllRight(Batch(map[], map[]), [], steps, [])
  {
  }

  /** Only the batch scoreboard accepts a store of an instruction that has retired; nothing ever collects it. */
  lemma LateStore(e: ExpectedRetire, o: StoreObservation, r: Retirement.RetireEvent, x0: Word)
    requires e.id == o.id == r.id == 1 && Judge(e, r, o, x0).Ok?
    ensures var calls := [Register(e), StoreStage(o), Retire(r, x0), StoreStage(o)];
            BatchRun([e], calls).Some? && StreamRun(calls).None?
  {
    hide Judge, Verdict.Passed;
    var one, two := [Register(e)], [Register(e), StoreStage(o)];
    var three := two + [Retire(r, x0)];
    assert [] + [Register(e)] == one && one + [StoreStage(o)] == two;
    RunsOneMore([e], [], Register(e));
    RunsOneMore([e], one, StoreStage(o));
    RunsOneMore([e], two, Retire(r, x0));
    RunsOneMore([e], three, StoreStage(o));
    assert three + [StoreStage(o)] == [Register(e), StoreStage(o), Retire(r, x0), StoreStage(o)];
  }

  // ---------------------------------------------------------------------
  // The two scoreboards
  // ---------------------------------------------------------------------

  class BatchScoreboard {
    const expected: seq<ExpectedRetire>
    var storeById: Stores
    var resultsById: map<int, Verdict>

    function View(): Batch
      reads this
    {
      Batch(storeById, resultsById)
    }

    constructor (expected: seq<ExpectedRetire>)
      requires Numbered(expected)
      ensures this.expected == expected && BatchRun(expected, []) == Some((View(), []))
    {
      this.expected := expected;
      storeById := map[];
      resultsById := map[];
    }

    method ObserveStoreStage(o: StoreObservation) returns (r: Result<(), ScoreError>)
      modifies `storeById
      ensures r.Ok? <==> BatchStep(expected, old(View()), StoreStage(o)).Some?
      ensures r.Ok? ==> BatchStep(expected, old(View()), StoreStage(o)) == Some((View(), []))
      ensures r.Err? ==> View() == old(View())
    {
      if !(1 <= o.id <= |expected|) {
        return Err(NoExpectation);
      }
      if o.id in storeById {
        return Err(DuplicateStore);
      }
      storeById := storeById[o.id := o];
      r := Ok(());
    }

    /** The store is taken out before the verdict, so an inconsistent expectation loses it. */
    method ObserveRetire(e: Retirement.RetireEvent, x0: Word) returns (r: Result<Verdict, ScoreError>)
      modifies this
      ensures r.Ok? <==> BatchStep(expected, old(View()), Retire(e, x0)).Some?
      ensures r.Ok? ==> BatchStep(expected, old(View()), Retire(e, x0)) == Some((View(), [r.value]))
      ensures r.Err? ==>
                && resultsById == old(resultsById)
                && storeById == if r.error == Inconsistent then old(storeById) - {e.id} else old(storeById)
    {
      if !(1 <= e.id <= |expected|) {
        return Err(NoExpectation);
      }
      if e.id in resultsById {
        return Err(DuplicateRetire);
      }
      if e.id !in storeById {
        return Err(MissingStore);
      }
      var o := storeById[e.id];
      storeById := storeById - {e.id};
      var verdict := Judge(expected[e.id - 1], e, o, x0);
      if verdict.Err? {
        return Err(Inconsistent);
      }
      resultsById := resultsById[e.id := verdict.value];
      r := verdict;
    }
  }

  class StreamingScoreboard {
    var expectedById: map<int, ExpectedRetire>
    var storeById: Stores
    var registered: nat
    var checked: nat
    var passed: nat
    var failed: nat
    var lastRetired: nat

    function View(): Stream
      reads this
    {
      Stream(expectedById, storeById, registered, checked, passed, failed, lastRetired)
    }

    constructor ()
      ensures StreamRun([]) == Some((View(), []))
    {
      expectedById, storeById := map[], map[];
      registered, checked, passed, failed, lastRetired := 0, 0, 0, 0, 0;
    }

    method RegisterExpected(e: ExpectedRetire) returns (r: Result<(), ScoreError>)
      modifies this
      ensures r.Ok? <==> StreamStep(old(View()), Register(e)).Some?
      ensures r.Ok? ==> StreamStep(old(View()), Register(e)) == Some((View(), []))
      ensures r.Err? ==> View() == old(View())
    {
      if e.id != registered + 1 || e.id in expectedById {
        return Err(NotContiguous);
      }
      expectedById := expectedById[e.id := e];
      registered := registered + 1;
      r := Ok(());
    }

    method ObserveStoreStage(o: StoreObservation) returns (r: Result<(), ScoreError>)
      modifies `storeById
      ensures r.Ok? <==> StreamStep(old(View()), StoreStage(o)).Some?
      ensures r.Ok? ==> StreamStep(old(View()), StoreStage(o)) == Some((View(), []))
      ensures r.Err? ==> View() == old(View())
    {
      if o.id !in expectedById {
        return Err(NoExpectation);
      }
      if o.id in storeById {
        return Err(DuplicateStore);
      }
      storeById := storeById[o.id := o];
      r := Ok(());
    }

    method ObserveRetire(e: Retirement.RetireEvent, x0: Word) returns (r: Result<Verdict, ScoreError>)
      modifies this
      ensures r.Ok? <==> StreamStep(old(View()), Retire(e, x0)).Some?
      ensures r.Ok? ==> StreamStep(old(View()), Retire(e, x0)) == Some((View(), [r.value]))
      ensures r.Err? ==> View() == old(View())
    {
      if e.id != lastRetired + 1 {
        return Err(ScoreError.OutOfOrder);
      }
      if e.id !in expectedById {
        return Err(NoExpectation);
      }
      if e.id !in storeById {
        return Err(MissingStore);
      }
      var verdict := Judge(expectedById[e.id], e, storeById[e.id], x0);
      if verdict.Err? {
        return Err(Inconsistent);
      }
      storeById := storeById - {e.id};
      expectedById := expectedById - {e.id};
      lastRetired := e.id;
      checked := checked + 1;
      if verdict.value.Passed() {
        passed := passed + 1;
      } else {
        failed := failed + 1;
      }
      r := verdict;
    }
  }
}
