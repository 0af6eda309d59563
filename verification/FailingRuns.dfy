/**
 Programs on which a promise fails: each runs from reset, and what it shows is
 the other side of a condition proved for all runs.
 */
module FailingRuns {
  import opened Wrappers
  import opened Rv32Isa
  import opened Rv32RoundTrip
  import opened Execution
  import opened ArchitecturalModel
  import opened TimingTrace
  import opened TimingOracle
  import opened TimingRefinement
  import opened L1Coverage
  import opened RealizationTheorem
  import opened ObservedRuns
  import opened ArmsAndTargets
  import opened TemplateRealizer
  import opened StreamPlan
  import opened UnboundedProgram
  import opened PlanRun
  import opened WindowRuns
  import opened StreamWindow
  import opened CampaignStep
  import opened StreamPlanner
  import V0 = TimingOracleV0
  import Text = TextAssembler
  import BitStrings

  // ---------------------------------------------------------------------
  // Running a short program
  // ---------------------------------------------------------------------

  /** From the first word on, the path is what the image executes whatever the registers hold. */
  ghost predicate Runs(xs: seq<Exec>, image: seq<Word>) {
    LaidOut(xs, image, |xs|) && xs != [] && xs[0].at == 0 && 1 <= |image| <= IMEM_WORD_CAPACITY
  }

  function StraightPath(code: seq<Instr>): (xs: seq<Exec>)
    ensures |xs| == |code| && forall k | 0 <= k < |code| :: xs[k] == Exec(k, k + 1, code[k])
  {
    seq(|code|, k requires 0 <= k < |code| => Exec(k, k + 1, code[k]))
  }

  lemma StraightRuns(code: seq<Instr>)
    requires 1 <= |code| <= IMEM_WORD_CAPACITY && forall i | i in code :: Sequential(i) && Legal(i)
    ensures Runs(StraightPath(code), WordsOf(code))
  {
    hide Legal, Sequential, WordOf;
    var xs := StraightPath(code);
    forall k | 0 <= k < |xs|
      ensures Flows(xs[k].instr, xs[k].at, NextAt(xs, k, |code|)) && Placed(xs[k], WordsOf(code))
    {
      assert xs[k].instr in code;
    }
  }

  /** From reset the oracle names the path, step by step. */
  lemma {:induction false} PathRuns(xs: seq<Exec>, image: seq<Word>, rs: RefState, n: nat)
    requires Runs(xs, image) && n <= |xs|
    requires IsInitial(rs.ts) && Consistent(rs.ts) && rs.at == 0
    ensures StreamRun(Program(image, 0), rs.ts, n, true).Ok? && RefRun(image, rs, n).Ok?
    ensures var (rs', out) := RefRun(image, rs, n).value;
            && StreamRun(Program(image, 0), rs.ts, n, true).value == (rs'.ts, out)
            && Follow(out, xs) && rs'.ts.nextId == n + 1 && Synced(rs') && rs'.at == CursorAt(xs, n, |image|)
  {
    hide Flows, Placed, RefNext, Next, IsInitial, Synced, Names, Program, Consistent, CursorAfter;
    if n == 0 {
      StartsAtZero(rs);
    } else {
      PathRuns(xs, image, rs, n - 1);
      var before := RefRun(image, rs, n - 1).value.0;
      InImage(xs[n - 1], image);
      PlannedStep(image, before, xs[n - 1], NextAt(xs, n - 1, |image|));
      ProgramHolds(image, 0);
      WindowStep(Program(image, 0), image, 0, before);
    }
  }

  lemma InImage(x: Exec, image: seq<Word>)
    requires Placed(x, image)
    ensures x.at < |image|
  {
  }

  /** The events of a run whose control is observed as expected. */
  function EventsOf(es: seq<Expectation>): (evs: seq<Event>)
    requires forall e | e in es :: DecodeChecked(e.instruction).Some?
  {
    seq(|es|, k requires 0 <= k < |es| =>
      Event(es[k].id, es[k].accept, es[k].pc, es[k].instruction, DecodeChecked(es[k].instruction).value,
            es[k].stall, es[k].forwardA, es[k].forwardB))
  }

  /** The last executed instruction hits the bin, and the table rejects the hit though all is as timed. */
  ghost predicate FailsTable(b: Bin, xs: seq<Exec>, image: seq<Word>, ts: TimingState)
    requires Runs(xs, image) && Consistent(ts)
  {
    var run, last := StreamRun(Program(image, 0), ts, |xs|, true), |xs| - 1;
    && run.Ok? && (forall e | e in run.value.1 :: DecodeChecked(e.instruction).Some?)
    && var evs := EventsOf(run.value.1);
       HitFor(b, WindowOf(evs, last), evs[last]).Some?
       && Exactly(HitFor(b, WindowOf(evs, last), evs[last]).value, evs, last, false)
  }

  /** What instruction k of the run was, decoded. */
  ghost predicate Executes(evs: seq<Event>, tr: Trace, k: nat, i: Instr)
    requires k < |evs| == |tr|
  {
    && At(evs, tr, k) && evs[k].d == tr[k].d && Exact(tr[k].d) && Disassemble(tr[k].d) == i
    && (tr[k].redirect <==> i.Jal? || i.Jalr?)
  }

  /** The events and the trace of such a run, instruction by instruction. */
  lemma RunOf(xs: seq<Exec>, image: seq<Word>, ts: TimingState) returns (evs: seq<Event>, tr: Trace)
    requires Runs(xs, image) && IsInitial(ts) && Consistent(ts)
    ensures var run := StreamRun(Program(image, 0), ts, |xs|, true);
            && run.Ok? && (forall e | e in run.value.1 :: DecodeChecked(e.instruction).Some?)
            && evs == EventsOf(run.value.1) && |evs| == |tr| == |xs|
    ensures forall k | 0 <= k < |xs| :: Executes(evs, tr, k, xs[k].instr)
  {
    hide Runs, IsInitial, Consistent, StreamRun, RefRun, Program, DecodeChecked, Exact, Disassemble, Legal, WordOf, At,
      Matches, Executed;
    var rs := RefState(ts, 0);
    PathRuns(xs, image, rs, |xs|);
    var es := StreamRun(Program(image, 0), ts, |xs|, true).value.1;
    StreamRunIsTimed(Program(image, 0), ts, |xs|, true);
    evs, tr := EventsOf(es), TraceOf(es);
    RunIsExecuted(Program(image, 0), ts, |xs|, true, evs);
    forall k | 0 <= k < |xs|
      ensures Executes(evs, tr, k, xs[k].instr)
    {
      assert Names(es[k], xs[k]) && es[k] in es;
      WordDecodes(xs[k].instr);
    }
  }

  // ---------------------------------------------------------------------
  // Rows of the control table
  // ---------------------------------------------------------------------

  /** What a decoded record says of the operands of its assembly. */
  lemma Operands(d: Decoded)
    requires Exact(d)
    ensures match Disassemble(d)
            case Addi(rd, rs1, _) =>
              && d.mnemonic == ADDI && d.rd == rd && d.rs1 == rs1 && d.writesRd && d.usesRs1 && !d.usesRs2
              && d.producerType == ALU_RESULT
            case Add(rd, rs1, rs2) =>
              d.rd == rd && d.rs1 == rs1 && d.rs2 == rs2 && d.writesRd && d.usesRs1 && d.usesRs2 && d.producerType == ALU_RESULT
            case Lw(rd, rs1, _) =>
              && d.mnemonic == LW && d.rd == rd && d.rs1 == rs1 && d.writesRd && d.usesRs1 && !d.usesRs2
              && d.producerType == MEM_DATA
            case Jal(rd, _) => d.rd == rd && d.writesRd && !d.usesRs1 && !d.usesRs2 && d.producerType == PC_PLUS_4
            case _ => true
    ensures d.consumerType == RS1_ONLY <==> d.usesRs1 && !d.usesRs2
  {
  }

  /** Loads at zero and additions of small constants over legal registers are legal and straight. */
  lemma LegalCodeOf(code: seq<Instr>)
    requires forall i | i in code ::
               match i
               case Addi(rd, rs1, imm) => IsReg(rd) && IsReg(rs1) && 0 <= imm < 2
               case Add(rd, rs1, rs2) => IsReg(rd) && IsReg(rs1) && IsReg(rs2)
               case Lw(rd, rs1, imm) => IsReg(rd) && IsReg(rs1) && imm == 0
               case _ => false
    ensures forall i | i in code :: Sequential(i) && Legal(i)
  {
  }

  /** A jump between producer and consumer: its bubbles move the value past MEM/WB. */
  lemma RedirectedMiddle(ts: TimingState)
    requires IsInitial(ts) && Consistent(ts)
    ensures var xs := [Exec(0, 1, Addi(1, 0, 1)), Exec(1, 2, Jal(0, 12)), Exec(4, 3, Addi(2, 1, 0))];
            var image := WordsOf([Addi(1, 0, 1), Jal(0, 12), Addi(0, 0, 0), Addi(0, 0, 0), Addi(2, 1, 0)]);
            Runs(xs, image) && FailsTable(H03, xs, image, ts)
  {
    hide IsInitial, Consistent, StreamRun, Program, WordOf, DecodeChecked, Exact, Disassemble, At, Exactly, EventsOf, HitFor;
    var xs := [Exec(0, 1, Addi(1, 0, 1)), Exec(1, 2, Jal(0, 12)), Exec(4, 3, Addi(2, 1, 0))];
    var image := WordsOf([Addi(1, 0, 1), Jal(0, 12), Addi(0, 0, 0), Addi(0, 0, 0), Addi(2, 1, 0)]);
    var evs, tr := RunOf(xs, image, ts);
    assert Executes(evs, tr, 0, xs[0].instr) && Executes(evs, tr, 1, xs[1].instr) && Executes(evs, tr, 2, xs[2].instr);
    Operands(tr[0].d);
    Operands(tr[1].d);
    Operands(tr[2].d);
    TwoBack(WindowOf(evs, 2), evs[2]);
    TableAgreesWithOracle(H03, evs, tr, 2);
  }

  /** The value is loaded two back, and the instruction between waited for it. */
  lemma WaitingMiddle(ts: TimingState)
    requires IsInitial(ts) && Consistent(ts)
    ensures var code := [Lw(1, 0, 0), Addi(2, 1, 0), Addi(3, 1, 0)];
            Runs(StraightPath(code), WordsOf(code)) && FailsTable(H08, StraightPath(code), WordsOf(code), ts)
  {
    hide Runs, IsInitial, Consistent, StreamRun, Program, WordOf, DecodeChecked, Exact, Disassemble, At, Exactly, EventsOf,
      HitFor, WordsOf;
    var code := [Lw(1, 0, 0), Addi(2, 1, 0), Addi(3, 1, 0)];
    LegalCodeOf(code);
    StraightRuns(code);
    var evs, tr := RunOf(StraightPath(code), WordsOf(code), ts);
    assert Executes(evs, tr, 0, code[0]);
    assert Executes(evs, tr, 1, code[1]);
    assert Executes(evs, tr, 2, code[2]);
    Operands(tr[0].d);
    Operands(tr[1].d);
    Operands(tr[2].d);
    TwoBack(WindowOf(evs, 2), evs[2]);
    TableAgreesWithOracle(H08, evs, tr, 2);
  }

  /** The consumer itself waits for its other operand. */
  lemma WaitingConsumer(ts: TimingState)
    requires IsInitial(ts) && Consistent(ts)
    ensures var code := [Addi(1, 0, 1), Addi(0, 0, 0), Lw(3, 0, 0), Add(2, 1, 3)];
            Runs(StraightPath(code), WordsOf(code)) && FailsTable(H05, StraightPath(code), WordsOf(code), ts)
  {
    hide Runs, IsInitial, Consistent, StreamRun, Program, WordOf, DecodeChecked, Exact, Disassemble, At, Exactly, EventsOf,
      HitFor, WordsOf;
    var code := [Addi(1, 0, 1), Addi(0, 0, 0), Lw(3, 0, 0), Add(2, 1, 3)];
    LegalCodeOf(code);
    StraightRuns(code);
    var evs, tr := RunOf(StraightPath(code), WordsOf(code), ts);
    assert Executes(evs, tr, 0, code[0]);
    assert Executes(evs, tr, 1, code[1]);
    assert Executes(evs, tr, 2, code[2]);
    assert Executes(evs, tr, 3, code[3]);
    Operands(tr[0].d);
    Operands(tr[1].d);
    Operands(tr[2].d);
    Operands(tr[3].d);
    ThreeBack(WindowOf(evs, 3), evs[3]);
    TableAgreesWithOracle(H05, evs, tr, 3);
  }

  /** Of two writers of the register the newer one is a load. */
  lemma NewestIsLoad(ts: TimingState)
    requires IsInitial(ts) && Consistent(ts)
    ensures var code := [Addi(1, 0, 1), Lw(1, 0, 0), Addi(2, 1, 0)];
            Runs(StraightPath(code), WordsOf(code)) && FailsTable(H17, StraightPath(code), WordsOf(code), ts)
  {
    hide Runs, IsInitial, Consistent, StreamRun, Program, WordOf, DecodeChecked, Exact, Disassemble, At, Exactly, EventsOf,
      HitFor, WordsOf;
    var code := [Addi(1, 0, 1), Lw(1, 0, 0), Addi(2, 1, 0)];
    LegalCodeOf(code);
    StraightRuns(code);
    var evs, tr := RunOf(StraightPath(code), WordsOf(code), ts);
    assert Executes(evs, tr, 0, code[0]);
    assert Executes(evs, tr, 1, code[1]);
    assert Executes(evs, tr, 2, code[2]);
    Operands(tr[0].d);
    Operands(tr[1].d);
    Operands(tr[2].d);
    TwoWriters(WindowOf(evs, 2), evs[2]);
    TableAgreesWithOracle(H17, evs, tr, 2);
  }

  lemma TwoBack(h: History, e: Event)
    requires |h| >= 2 && HasPositive(h, 2) && !(h[|h| - 1].d.writesRd && h[|h| - 1].d.rd == RdAt(h, 2))
    requires e.d.consumerType == RS1_ONLY && e.d.usesRs1 && e.d.rs1 == RdAt(h, 2)
    ensures h[|h| - 2].d.producerType == ALU_RESULT ==> HitFor(H03, h, e).Some?
    ensures h[|h| - 2].d.producerType == MEM_DATA ==> HitFor(H08, h, e).Some?
  {
    assert NearestFrom(h, RdAt(h, 2), 2) == Some(2);
    assert NearestFrom(h, RdAt(h, 2), 1) == Some(2);
  }

  lemma ThreeBack(h: History, e: Event)
    requires |h| == 3 && HasPositive(h, 3) && e.d.usesRs1 && e.d.rs1 == RdAt(h, 3)
    requires !(h[1].d.writesRd && h[1].d.rd == RdAt(h, 3)) && !(h[2].d.writesRd && h[2].d.rd == RdAt(h, 3))
    ensures HitFor(H05, h, e).Some?
  {
    assert NearestFrom(h, RdAt(h, 3), 3) == Some(3);
    assert NearestFrom(h, RdAt(h, 3), 2) == Some(3);
    assert NearestFrom(h, RdAt(h, 3), 1) == Some(3);
    assert |UsedRoles(e, RdAt(h, 3))| >= 1;
  }

  lemma TwoWriters(h: History, e: Event)
    requires |h| >= 2 && HasPositive(h, 1) && HasPositive(h, 2) && RdAt(h, 1) == RdAt(h, 2)
    requires e.d.usesRs1 && e.d.rs1 == RdAt(h, 1)
    ensures HitFor(H17, h, e).Some?
  {
    assert |UsedRoles(e, RdAt(h, 1))| >= 1;
  }

  // ---------------------------------------------------------------------
  // The older oracle and the assembler
  // ---------------------------------------------------------------------

  /** The older oracle accepts the words and gives operand A of word k another path than the cycle-accurate timing. */
  ghost predicate OldOracleErrs(ws: seq<Word>, k: nat) {
    && V0.Accepted(ws) && k < |ws|
    && V0.Timed(k + 1, V0.WordTrace(ws)[k].d, V0.HistoryOf(V0.WordTrace(ws), k)).forwardA != ForwardA(V0.WordTrace(ws), k)
  }

  /** A load consumed by the next two instructions: the older oracle says MEM/WB where the value is in the register file. */
  lemma SharedLoadDisagrees()
    ensures OldOracleErrs(WordsOf([Lw(1, 0, 0), Addi(2, 1, 0), Addi(3, 1, 0)]), 2)
  {
    hide WordOf, DecodeChecked, Exact, Disassemble, V0.Timed, ForwardA;
    var code := [Lw(1, 0, 0), Addi(2, 1, 0), Addi(3, 1, 0)];
    var ws := WordsOf(code);
    WordDecodes(code[0]);
    WordDecodes(code[1]);
    WordDecodes(code[2]);
    assert ws[0] in ws && ws[1] in ws && ws[2] in ws && ws == [ws[0], ws[1], ws[2]];
    var tr := V0.WordTrace(ws);
    Operands(tr[0].d);
    Operands(tr[1].d);
    Operands(tr[2].d);
    ThreeAccepted(ws);
    V0.AcceptedIsStraight(ws);
    V0.AcceptedAt(ws, 2);
    V0.V0Characterised(tr, 2);
  }

  lemma ThreeAccepted(ws: seq<Word>)
    requires |ws| == 3 && forall w | w in ws :: DecodeChecked(w).Some?
    requires forall w | w in ws :: var d := DecodeChecked(w).value; d.usesRs1 && !d.usesRs2 && d.writesRd
    requires var d := DecodeChecked(ws[0]).value; d.mnemonic == LW && d.rs1 == 0 && d.rd == 1 && d.producerType == MEM_DATA
    requires var d := DecodeChecked(ws[1]).value; d.mnemonic == ADDI && d.rs1 == 1 && d.rd == 2 && d.producerType == ALU_RESULT
    requires var d := DecodeChecked(ws[2]).value; d.mnemonic == ADDI && d.rs1 == 1 && d.rd == 3
    ensures V0.Accepted(ws)
  {
    hide DecodeChecked, V0.Accepted, V0.Refusal, V0.Dependencies;
    V0.NothingEmitted();
    assert [] + [ws[0]] == [ws[0]] && [ws[0]] + [ws[1]] == [ws[0], ws[1]] && [ws[0], ws[1]] + [ws[2]] == ws;
    AcceptsOneSource([], ws[0]);
    V0.AcceptedSnoc([], ws[0]);
    AcceptsOneSource([ws[0]], ws[1]);
    V0.AcceptedSnoc([ws[0]], ws[1]);
    AcceptsOneSource([ws[0], ws[1]], ws[2]);
    V0.AcceptedSnoc([ws[0], ws[1]], ws[2]);
  }

  /** An ALU consumer of one loaded or computed value, or a load from a constant address, is never refused. */
  lemma AcceptsOneSource(ws: seq<Word>, w: Word)
    requires DecodeChecked(w).Some? && forall x | x in ws :: DecodeChecked(x).Some?
    requires forall x | x in ws :: DecodeChecked(x).value.producerType in {ALU_RESULT, MEM_DATA}
    requires var d := DecodeChecked(w).value; d.usesRs1 && !d.usesRs2 && (d.mnemonic == ADDI || (d.mnemonic == LW && d.rs1 == 0))
    ensures var d := DecodeChecked(w).value;
            V0.Refusal(d, V0.Dependencies(V0.HistoryOf(V0.WordTrace(ws), |ws|), d)).None?
  {
    hide DecodeChecked, Writes;
    var h := V0.HistoryOf(V0.WordTrace(ws), |ws|);
    forall e | e in h
      ensures e.d.producerType == ALU_RESULT || e.d.producerType == MEM_DATA
    {
      assert exists x :: x in ws && e.d == DecodeChecked(x).value;
    }
  }

  /** The assembler takes an odd jump offset and a negative upper immediate; the encoder refuses both. */
  lemma AssemblerTakesMore()
    ensures Text.Checked(Jal(1, 3)) && Text.Meant(Jal(1, 3)) == Jal(1, 2) && Encode(Jal(1, 3)).Err?
    ensures Text.Checked(Lui(1, -1)) && Text.Meant(Lui(1, -1)) == Lui(1, 0xF_FFFF) && Encode(Lui(1, -1)).Err?
  {
    Text.RangeOf(3, 20);
    Text.RangeOf(-1, 20);
    EncodeDecode(Jal(1, 3));
    EncodeDecode(Lui(1, -1));
    BitStrings.Powers();
  }

  // ---------------------------------------------------------------------
  // Committing inside an entry
  // ---------------------------------------------------------------------

  /** One planned block, one of its instructions accepted: the entry that really follows is refused. */
  method RefusedInsideEntry() returns (t: Tracker, next: Entry, r: Result<(), StreamError>)
    ensures t.Valid() && t.acceptedCount == 1 && t.progress == 1 && |t.blocks| == 1 && Planned(t.blocks[0])
    ensures Planned(next) && Follows(t.blocks[0], next) && t.Continues(next) && r == Err(NotExecutionContiguous)
  {
    hide Planned, EntryOk, Legal, PhysicalPc, WordOf, Sound, LegalVariant;
    var variant := PickVariant(A0, PhysicalPc(0));
    var template := RealizeAt(A0, Target(Some(1), None), variant, 0);
    var block := Assemble(1, 0, 1, template, 0);
    PlannedIsOk(block);
    t := new Tracker();
    FirstContinues(t, block);
    var _ := t.Enqueue(block);
    ReadyForFirst(t, block);
    var word := WordOf(t.Expected().instr);
    WordDecodes(t.Expected().instr);
    var _ := t.Observe(Event(1, 1, PhysicalPc(t.Expected().at), word, DecodeChecked(word).value, 0, 0, 0));
    next := Delimiter(1, block.End(), block.first + block.ExecutedCount());
    DelimiterIsPlanned(next);
    InsideContinues(t, block, next);
    r := t.ValidateEnqueue(next);
  }

  lemma FirstContinues(t: Tracker, e: Entry)
    requires t.Valid() && t.blocks == [] && t.acceptedCount == 0 && e.first == 1
    ensures t.Continues(e) && t.progress == 0
  {
  }

  lemma ReadyForFirst(t: Tracker, e: Entry)
    requires t.Valid() && t.blocks == [e] && t.progress == 0 && t.acceptedCount == 0 && e.ExecutedCount() >= 2
    ensures OffsetsInImage(e) && Legal(t.Expected().instr) && t.nextExpected == 1
  {
    hide Legal;
    SoundHead(t.blocks, t.progress, t.nextExpected, t.acceptedCount, t.done);
    var x := t.Expected();
    assert x.instr in e.Code();
  }

  lemma InsideContinues(t: Tracker, e: Entry, next: Entry)
    requires t.Valid() && t.blocks == [e] && t.progress == 1 && t.acceptedCount == 1 && Follows(e, next)
    ensures t.Continues(next)
  {
    SoundHead(t.blocks, t.progress, t.nextExpected, t.acceptedCount, t.done);
    assert [e][..0] == [];
  }
}
