/**
 The timing oracles: one expectation computed from the oracle state, the
 streaming object that emits one at a time, and the batch scheduler that runs
 to the end of the program.
 */
module TimingOracle {
  import opened Wrappers
  import opened Rv32Isa
  import opened Rv32RoundTrip
  import opened Execution
  import opened ArchitecturalModel
  import opened TimingTrace

  datatype Producer = Producer(id: int, accept: int, d: Decoded)

  datatype TimingState = TimingState(
    arch: ArchState, lastWriter: map<Reg, Producer>, nextId: int, nextAccept: int)

  datatype Expectation = Expectation(
    id: int, pc: int, instruction: Word, mnemonic: Mnemonic,
    accept: int, stall: int, retire: int,
    forwardA: int, forwardB: int,
    producerA: Option<int>, producerB: Option<int>,
    ageA: Option<int>, ageB: Option<int>,
    redirect: bool, bubbles: int)

  datatype TimingError =
    | BadProgram | OutsideProgram | Unsupported | EventPcTooWide
    | MaxInstructionsReached | AcceptedMismatch

  /** Every recorded producer is an older instruction that writes the register it is recorded for. */
  ghost predicate Consistent(ts: TimingState) {
    && WellFormed(ts.arch)
    && ts.arch.lastIndex + 1 == ts.nextId && ts.nextId > 0 && ts.nextAccept > 0
    && 0 !in ts.lastWriter
    && forall r | r in ts.lastWriter ::
         && 0 < ts.lastWriter[r].id < ts.nextId && 0 < ts.lastWriter[r].accept < ts.nextAccept
         && Writes(ts.lastWriter[r].d, r)
  }

  ghost predicate IsInitial(ts: TimingState) {
    IsReset(ts.arch) && ts.lastWriter == map[] && ts.nextId == 1 && ts.nextAccept == 1
  }

  /** There is one initial state, so a schedule depends on the program alone. */
  lemma InitialIsUnique(ts: TimingState, ts': TimingState)
    requires IsInitial(ts) && IsInitial(ts')
    ensures ts == ts' && Consistent(ts)
  {
    assert ts.arch.regs == ts'.arch.regs;
  }

  type Writers = map<Reg, Producer>

  function Lookup(writers: Writers, uses: bool, r: Reg): Option<Producer> {
    if uses && r != 0 && r in writers then Some(writers[r]) else None
  }

  predicate NeedsStall(p: Option<Producer>, candidate: int) {
    p.Some? && p.value.d.producerType == MEM_DATA && candidate - p.value.accept == 1
  }

  function AgeAt(p: Option<Producer>, accept: int): Option<int> {
    if p.Some? then Some(accept - p.value.accept) else None
  }

  function IdOf(p: Option<Producer>): Option<int> {
    if p.Some? then Some(p.value.id) else None
  }

  function StallOf(writers: Writers, candidate: int, d: Decoded): int {
    if NeedsStall(Lookup(writers, d.usesRs1, d.rs1), candidate)
       || NeedsStall(Lookup(writers, d.usesRs2, d.rs2), candidate) then 1 else 0
  }

  function BubblesOf(redirect: bool): int {
    if redirect then REDIRECT_BUBBLES else 0
  }

  /** The expectation for the word w, decoded as d and disassembled as i, at the model's PC. */
  function ExpectationFor(ts: TimingState, w: Word, d: Decoded, i: Instr): Expectation
    requires WellFormed(ts.arch) && Legal(i)
  {
    var a, b := Lookup(ts.lastWriter, d.usesRs1, d.rs1), Lookup(ts.lastWriter, d.usesRs2, d.rs2);
    var stall := StallOf(ts.lastWriter, ts.nextAccept, d);
    var accept := ts.nextAccept + stall;
    var redirect := Redirects(ts.arch, i);
    Expectation(ts.nextId, ts.arch.expectedPc, w, d.mnemonic, accept, stall, accept + RETIRE_LATENCY,
                ForwardForAge(AgeAt(a, accept)), ForwardForAge(AgeAt(b, accept)),
                IdOf(a), IdOf(b), AgeAt(a, accept), AgeAt(b, accept), redirect, BubblesOf(redirect))
  }

  /** The oracle state once that instruction is accepted. */
  function StateAfter(ts: TimingState, w: Word, d: Decoded, i: Instr, wrap: bool): (ts': TimingState)
    requires Consistent(ts) && Legal(i)
    ensures Consistent(ts')
  {
    var e := ExpectationFor(ts, w, d, i);
    TimingState(
      Advance(ts.arch, ts.arch.expectedPc, i, wrap),
      if d.writesRd && d.rd != 0 then ts.lastWriter[d.rd := Producer(ts.nextId, e.accept, d)] else ts.lastWriter,
      ts.nextId + 1,
      e.accept + 1 + e.bubbles)
  }

  /** One step over a fixed program image, or the reason there is none. */
  function Next(program: map<int, Word>, ts: TimingState, wrap: bool)
    : (r: Result<(TimingState, Expectation), TimingError>)
    requires Consistent(ts)
    ensures r.Ok? ==> Consistent(r.value.0)
  {
    if ts.arch.expectedPc !in program then Err(OutsideProgram)
    else
      var w := program[ts.arch.expectedPc];
      if DecodeChecked(w).None? then Err(Unsupported)
      else if ts.arch.expectedPc > 0x1FF then Err(EventPcTooWide)
      else
        assert Exact(DecodeChecked(w).value) by { DecodedIsExact(w); }
        var d := DecodeChecked(w).value;
        var i := Disassemble(d);
        Ok((StateAfter(ts, w, d, i, wrap), ExpectationFor(ts, w, d, i)))
  }

  /**
   No producer has a non-positive age, and after the stall no load is consumed
   at age one: the two error branches of the oracle are never taken.
   */
  lemma ErrorsUnreachable(ts: TimingState, d: Decoded)
    requires Consistent(ts)
    ensures var accept := ts.nextAccept + StallOf(ts.lastWriter, ts.nextAccept, d);
            && Resolved(Lookup(ts.lastWriter, d.usesRs1, d.rs1), accept)
            && Resolved(Lookup(ts.lastWriter, d.usesRs2, d.rs2), accept)
  {
  }

  predicate Resolved(p: Option<Producer>, accept: int) {
    p.Some? ==> accept - p.value.accept >= (if p.value.d.producerType == MEM_DATA then 2 else 1)
  }

  // ---------------------------------------------------------------------
  // Streaming oracle
  // ---------------------------------------------------------------------

  /** The checks of the program both oracles start with. */
  predicate WellFormedProgram(program: map<int, Word>) {
    (forall pc | pc in program :: pc >= 0 && pc % 4 == 0) && 0 in program
  }

  /** The source operands of d and the load-use interlock, from the writer table. */
  method ResolveSources(writers: Writers, candidate: int, d: Decoded)
    returns (a: Option<Producer>, b: Option<Producer>, stall: int)
    ensures a == Lookup(writers, d.usesRs1, d.rs1) && b == Lookup(writers, d.usesRs2, d.rs2)
    ensures stall == StallOf(writers, candidate, d)
  {
    a, b, stall := None, None, 0;
    if d.usesRs1 && d.rs1 != 0 && d.rs1 in writers {
      a := Some(writers[d.rs1]);
    }
    if d.usesRs2 && d.rs2 != 0 && d.rs2 in writers {
      b := Some(writers[d.rs2]);
    }
    if NeedsStall(a, candidate) || NeedsStall(b, candidate) {
      stall := 1;
    }
  }

  /**
   Times the instruction w at the model's PC. The errors for an age that is not
   positive and for a load consumed at age one are never raised, so asserted.
   */
  method TimeOne(model: Model, w: Word, d: Decoded, i: Instr, writers: Writers, id: int, nextAccept: int)
    returns (e: Expectation)
    requires model.Valid() && Legal(i)
    requires Consistent(TimingState(model.View(), writers, id, nextAccept))
    ensures e == ExpectationFor(TimingState(model.View(), writers, id, nextAccept), w, d, i)
  {
    var producerA, producerB, stall := ResolveSources(writers, nextAccept, d);
    var accept := nextAccept + stall;
    ErrorsUnreachable(TimingState(model.View(), writers, id, nextAccept), d);
    assert Resolved(producerA, accept) && Resolved(producerB, accept);
    var redirect := Redirects(model.View(), i);
    e := Expectation(id, model.expectedPc, w, d.mnemonic, accept, stall, accept + RETIRE_LATENCY,
                     ForwardForAge(AgeAt(producerA, accept)), ForwardForAge(AgeAt(producerB, accept)),
                     IdOf(producerA), IdOf(producerB), AgeAt(producerA, accept), AgeAt(producerB, accept),
                     redirect, if redirect then REDIRECT_BUBBLES else 0);
  }

  /** Steps the model over one expected instruction; it never refuses and its PC matches. */
  method StepModel(model: Model, e: Expectation, d: Decoded, i: Instr)
    requires model.Valid() && DecodeChecked(e.instruction) == Some(d) && Disassemble(d) == i
    requires e.id == model.lastInstructionIndex + 1 > 0 && e.accept > 0
    requires e.pc == model.expectedPc <= 0x1FF
    modifies model
    ensures model.Valid() && Legal(i)
    ensures model.View() == Advance(old(model.View()), e.pc, i, model.wrap)
  {
    var step := model.Step(Event(e.id, e.accept, e.pc, e.instruction, d, 0, 0, 0));
    assert step.Ok? && step.value.pcMatch;
  }

  class StreamingOracle {
    const model: Model
    var program: map<int, Word>
    var lastWriter: Writers
    var nextInstructionId: int
    var nextAcceptCycle: int
    var generatedCount: int

    ghost predicate Valid()
      reads this, model
    {
      model.Valid() && Consistent(View())
    }

    function View(): TimingState
      reads this, model
    {
      TimingState(model.View(), lastWriter, nextInstructionId, nextAcceptCycle)
    }

    constructor (program: map<int, Word>, wrap: bool)
      requires WellFormedProgram(program)
      ensures this.program == program && generatedCount == 0
      ensures Valid() && fresh(model) && model.wrap == wrap
      ensures IsInitial(View())
    {
      model := new Model(wrap);
      this.program := program;
      lastWriter := map[];
      nextInstructionId := 1;
      nextAcceptCycle := 1;
      generatedCount := 0;
    }

    /** Steps the model and records the writer; the model accepts, at the PC it expects. */
    method Commit(e: Expectation, d: Decoded, i: Instr)
      requires Valid() && model.expectedPc <= 0x1FF
      requires DecodeChecked(e.instruction) == Some(d) && Disassemble(d) == i && Legal(i)
      requires e == ExpectationFor(View(), e.instruction, d, i)
      modifies this, model
      ensures Valid() && program == old(program) && generatedCount == old(generatedCount) + 1
      ensures View() == StateAfter(old(View()), e.instruction, d, i, model.wrap)
    {
      ghost var after := StateAfter(View(), e.instruction, d, i, model.wrap);
      StepModel(model, e, d, i);
      if d.writesRd && d.rd != 0 {
        lastWriter := lastWriter[d.rd := Producer(e.id, e.accept, d)];
      }
      nextAcceptCycle := e.accept + 1 + e.bubbles;
      nextInstructionId := e.id + 1;
      generatedCount := generatedCount + 1;
      assert View() == after;
    }

    /**
     Generates one expectation. It fails only outside the program, on a word
     outside the exact subset or on a PC no event can carry; then nothing changes.
     */
    method NextExpectation() returns (r: Result<Expectation, TimingError>)
      requires Valid()
      modifies this, model
      ensures Valid() && program == old(program)
      ensures var pc := old(model.expectedPc);
              r.Ok? <==> pc in program && DecodeChecked(program[pc]).Some? && pc < 512
      ensures match Next(old(program), old(View()), model.wrap)
              case Ok((ts, e)) =>
                r == Ok(e) && View() == ts && generatedCount == old(generatedCount) + 1
              case Err(x) =>
                r == Err(x) && View() == old(View()) && generatedCount == old(generatedCount)
    {
      var pc := model.expectedPc;
      if pc !in program {
        return Err(OutsideProgram);
      }
      var w := program[pc];
      var decoded := DecodeChecked(w);
      if decoded.None? {
        return Err(Unsupported);
      }
      DecodedIsExact(w);
      var i := Disassemble(decoded.value);
      var e := TimeOne(model, w, decoded.value, i, lastWriter, nextInstructionId, nextAcceptCycle);
      if pc > 0x1FF {
        return Err(EventPcTooWide);
      }
      Commit(e, decoded.value, i);
      r := Ok(e);
    }

    /**
     Generates the expectation for one accepted instruction and compares its
     identity. The oracle has advanced even when the comparison fails.
     */
    method ObserveAccept(ev: Event) returns (r: Result<Expectation, TimingError>)
      requires Valid()
      modifies this, model
      ensures Valid() && program == old(program)
      ensures match Next(old(program), old(View()), model.wrap)
              case Ok((ts, e)) =>
                && View() == ts
                && r == (if ev.index == e.id && ev.pc == e.pc && ev.instruction == e.instruction
                         then Ok(e) else Err(AcceptedMismatch))
              case Err(x) => r == Err(x) && View() == old(View())
    {
      var e :- NextExpectation();
      if ev.index != e.id || ev.pc != e.pc || ev.instruction != e.instruction {
        return Err(AcceptedMismatch);
      }
      r := Ok(e);
    }
  }

  // ---------------------------------------------------------------------
  // Batch scheduler
  // ---------------------------------------------------------------------

  /** The next n expectations a streaming oracle in state ts emits over the program. */
  function StreamRun(program: map<int, Word>, ts: TimingState, n: nat, wrap: bool)
    : (r: Result<(TimingState, seq<Expectation>), TimingError>)
    requires Consistent(ts)
    ensures r.Ok? ==> Consistent(r.value.0) && |r.value.1| == n
  {
    if n == 0 then Ok((ts, []))
    else
      match StreamRun(program, ts, n - 1, wrap)
      case Err(x) => Err(x)
      case Ok(before) =>
        match Next(program, before.0, wrap)
        case Err(x) => Err(x)
        case Ok(step) => Ok((step.0, before.1 + [step.1]))
  }

  /** The outcomes of one step, without the meaning of any word. */
  lemma NextCases(program: map<int, Word>, ts: TimingState, wrap: bool)
    requires Consistent(ts)
    ensures ts.arch.expectedPc !in program ==> Next(program, ts, wrap) == Err(OutsideProgram)
    ensures ts.arch.expectedPc in program ==>
              var w := program[ts.arch.expectedPc];
              match DecodeChecked(w)
              case None => Next(program, ts, wrap) == Err(Unsupported)
              case Some(d) =>
                && Exact(d) && Legal(Disassemble(d))
                && (ts.arch.expectedPc > 0x1FF ==> Next(program, ts, wrap) == Err(EventPcTooWide))
                && (ts.arch.expectedPc <= 0x1FF ==>
                      Next(program, ts, wrap)
                      == Ok((StateAfter(ts, w, d, Disassemble(d), wrap), ExpectationFor(ts, w, d, Disassemble(d)))))
  {
    hide DecodeChecked, Exact, Legal, Disassemble, ExpectationFor, Advance;
    if ts.arch.expectedPc in program {
      var w := program[ts.arch.expectedPc];
      if DecodeChecked(w).Some? {
        DecodedIsExact(w);
        ExactIsLegal(DecodeChecked(w).value);
      }
    }
  }

  lemma EntryFacts(ts: TimingState, w: Word, d: Decoded, i: Instr)
    requires Consistent(ts) && Legal(i)
    ensures var e := ExpectationFor(ts, w, d, i);
            && WellFormed(ts.arch) && e.id == ts.nextId == ts.arch.lastIndex + 1 > 0 && e.accept > 0
            && e.pc == ts.arch.expectedPc && e.instruction == w && e.redirect == Redirects(ts.arch, i)
  {
  }

  /** The batch either ran off the program or stopped for a reason the streaming oracle shares. */
  ghost predicate BatchOutcome(program: map<int, Word>, ts: TimingState, maxInstructions: int,
                               r: Result<seq<Expectation>, TimingError>)
    requires Consistent(ts)
  {
    match r
    case Ok(es) =>
      && |es| <= maxInstructions
      && StreamRun(program, ts, |es|, false).Ok?
      && StreamRun(program, ts, |es|, false).value.1 == es
      && Next(program, StreamRun(program, ts, |es|, false).value.0, false) == Err(OutsideProgram)
    case Err(x) =>
      exists n: nat :: n <= maxInstructions && StoppedAt(program, ts, maxInstructions, n, x)
  }

  ghost predicate StoppedAt(program: map<int, Word>, ts: TimingState, maxInstructions: int, n: nat, x: TimingError)
    requires Consistent(ts)
  {
    && StreamRun(program, ts, n, false).Ok?
    && StreamRun(program, ts, n, false).value.0.arch.expectedPc in program
    && (n == maxInstructions ==> x == MaxInstructionsReached)
    && (n != maxInstructions ==> Next(program, StreamRun(program, ts, n, false).value.0, false) == Err(x))
  }

  /** The whole schedule at once, from the initial state ts. */
  method BuildTimingSchedule(program: map<int, Word>, maxInstructions: int)
    returns (r: Result<seq<Expectation>, TimingError>)
    ensures maxInstructions <= 0 ==> r == Err(BadProgram)
    ensures maxInstructions > 0 && program == map[] ==> r == Ok([])
    ensures maxInstructions > 0 && program != map[] && !WellFormedProgram(program) ==> r == Err(BadProgram)
    ensures maxInstructions > 0 && WellFormedProgram(program) ==>
              exists ts :: IsInitial(ts) && Consistent(ts) && BatchOutcome(program, ts, maxInstructions, r)
  {
    hide Next, ExpectationFor, Advance, Redirects, Exact, Legal, Disassemble, DecodeChecked, Consistent, IsReset;
    if maxInstructions <= 0 || exists pc | pc in program :: pc < 0 || pc % 4 != 0 {
      return Err(BadProgram);
    }
    if program == map[] {
      return Ok([]);
    }
    if 0 !in program {
      return Err(BadProgram);
    }
    var model := new Model(false);
    var lastWriter: Writers := map[];
    var es: seq<Expectation> := [];
    var id, nextAccept := 1, 1;
    ghost var start := TimingState(model.View(), lastWriter, id, nextAccept);
    InitialIsUnique(start, start);
    while model.expectedPc in program
      invariant fresh(model) && model.Valid() && !model.wrap
      invariant |es| <= maxInstructions && id == |es| + 1
      invariant IsInitial(start) && Consistent(start)
      invariant StreamRun(program, start, |es|, false)
             == Ok((TimingState(model.View(), lastWriter, id, nextAccept), es))
      decreases maxInstructions - |es|
    {
      if id > maxInstructions {
        assert StoppedAt(program, start, maxInstructions, |es|, MaxInstructionsReached);
        return Err(MaxInstructionsReached);
      }
      ghost var ts := TimingState(model.View(), lastWriter, id, nextAccept);
      var w := program[model.expectedPc];
      NextCases(program, ts, false);
      var decoded := DecodeChecked(w);
      if decoded.None? {
        assert StoppedAt(program, start, maxInstructions, |es|, Unsupported);
        return Err(Unsupported);
      }
      if model.expectedPc > 0x1FF {
        assert StoppedAt(program, start, maxInstructions, |es|, EventPcTooWide);
        return Err(EventPcTooWide);
      }
      var d := decoded.value;
      DecodedIsExact(w);
      ExactIsLegal(d);
      var i := Disassemble(d);
      var e := TimeOne(model, w, d, i, lastWriter, id, nextAccept);
      EntryFacts(ts, w, d, i);
      StepModel(model, e, d, i);
      es := es + [e];
      if d.writesRd && d.rd != 0 {
        lastWriter := lastWriter[d.rd := Producer(id, e.accept, d)];
      }
      nextAccept := e.accept + 1 + e.bubbles;
      id := id + 1;
      assert TimingState(model.View(), lastWriter, id, nextAccept) == StateAfter(ts, w, d, i, false);
    }
    NextCases(program, TimingState(model.View(), lastWriter, id, nextAccept), false);
    r := Ok(es);
  }
}
