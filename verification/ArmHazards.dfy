/**
 What the ten arms are for: the instructions each template is made of, and the
 hazard bin that executing it hits, in the template alone and in any plan.
 */
module ArmHazards {
  import opened Wrappers
  import opened Rv32Isa
  import opened Execution
  import opened TimingTrace
  import opened L1Coverage
  import opened RealizationTheorem
  import opened Hazards
  import opened ArmsAndTargets
  import T = TemplateRealizer
  import opened StreamPlan
  import opened HitsAreWitnesses
  import opened PlanRun
  import opened CampaignCoverage
  import opened CampaignState

  /** The bin an arm aims at, by the variant that was drawn. */
  function ArmBin(arm: Arm, v: T.Variant): Bin {
    match arm
    case A0 => if v == T.RS2 then H02 else H01
    case A1 => if v == T.RS2 then H04 else H03
    case A2 => if v == T.RS2 then H07 else H06
    case A3 => if v == T.RS2 then H09 else H08
    case A4 => H10
    case A5 => if v == T.LUI_V then H11 else H13
    case A6 => if v == T.LUI_V then H12 else H14
    case A7 => H15
    case A8 => H16
    case A9 => H17
  }

  /** The arms aim at sixteen of the twenty bins: not at the distant read, nor at the three that name x0 or an unused field. */
  lemma ArmsAimAt(b: Bin, startPc: nat)
    requires startPc % 4 == 0
    ensures (exists arm, v :: T.LegalVariant(arm, startPc, v) && ArmBin(arm, v) == b) <==> b !in {H05, H18, H19, H20}
  {
    var (arm, v) := Aiming(b);
    if b !in {H05, H18, H19, H20} {
      assert T.LegalVariant(arm, startPc, v) && ArmBin(arm, v) == b;
    }
  }

  /** A7 may link through JALR exactly where its absolute target can be encoded, which is everywhere in the window. */
  lemma JalrIsLegal(startPc: nat, r: Reg, at: nat)
    ensures T.LegalVariant(A7, startPc, T.JALR_V) <==> Legal(Jalr(r, 0, startPc + 12))
    ensures T.LegalVariant(A7, PhysicalPc(at), T.JALR_V)
  {
  }

  function Aiming(b: Bin): (Arm, T.Variant) {
    match b
    case H01 => (A0, T.RS1)
    case H02 => (A0, T.RS2)
    case H03 => (A1, T.RS1)
    case H04 => (A1, T.RS2)
    case H06 => (A2, T.RS1)
    case H07 => (A2, T.RS2)
    case H08 => (A3, T.RS1)
    case H09 => (A3, T.RS2)
    case H10 => (A4, T.DUAL)
    case H11 => (A5, T.LUI_V)
    case H12 => (A6, T.LUI_V)
    case H13 => (A5, T.AUIPC_V)
    case H14 => (A6, T.AUIPC_V)
    case H16 => (A8, T.STORE_DATA)
    case H17 => (A9, T.PRIORITY)
    case _ => (A7, T.JAL_V)
  }

  // ---------------------------------------------------------------------
  // What a template is made of
  // ---------------------------------------------------------------------

  /** Instructions that make the target's value, by arm and variant; d2 is the older of A4's two targets. */
  predicate Produces(arm: Arm, v: T.Variant, pc: int, i: Instr, r: Reg, older: bool) {
    match arm
    case A2 => i == Lw(r, 0, 0)
    case A3 => i == Lw(r, 0, 0)
    case A4 => i == Addi(r, 0, if older then 10 else 20)
    case A5 => i == if v == T.LUI_V then Lui(r, 0x12345) else Auipc(r, 0x12345)
    case A6 => i == if v == T.LUI_V then Lui(r, 0x12345) else Auipc(r, 0x12345)
    case A7 => i == if v == T.JAL_V then Jal(r, 12) else Jalr(r, 0, pc + 12)
    case A8 => i == Addi(r, 0, 42)
    case A9 => i == Addi(r, 0, if older then 1 else 2)
    case _ => i == Addi(r, 0, 7)
  }

  /** Instructions that read the target, by arm and variant. */
  predicate Consumes(arm: Arm, v: T.Variant, i: Instr, t: Target) {
    match arm
    case A4 => i.Add? && Some(i.rs1) == t.d1 && Some(i.rs2) == t.d2
    case A8 => i.Sw? && Some(i.rs2) == t.d1 && i.rs1 == 0 && i.imm == 0
    case _ =>
      var r := if t.d1.Some? then t.d1 else t.d2;
      if v == T.RS2 then i.Add? && i.rs1 == 0 && Some(i.rs2) == r
      else i.Addi? && Some(i.rs1) == r && i.imm == (if arm == A9 then 0 else 1)
  }

  /** The executed instructions of a template, in order. */
  function Executions(t: T.Template): (code: seq<Instr>)
    requires forall k | 0 <= k < |t.executed| :: t.executed[k] < |t.code|
    ensures |code| == |t.executed|
  {
    seq(|t.executed|, k requires 0 <= k < |t.executed| => t.code[t.executed[k]])
  }

  /**
   Every realized template: the consumer is executed last and reads the target as
   the arm and the variant say; a producer of the arm's kind is executed one
   before it, two before it, or both.
   */
  lemma TemplateIsOfItsArm(t: T.Template, start: nat)
    requires RealizedAt(t, start)
    ensures forall k | 0 <= k < |t.executed| :: t.executed[k] < |t.code|
    ensures var code := Executions(t);
            && |code| == (if t.arm in {A0, A2, A5, A7, A8} then 2 else 3)
            && Consumes(t.arm, t.variant, code[|code| - 1], t.target)
            && (t.target.d1.Some? ==> Produces(t.arm, t.variant, t.startPc, code[|code| - 2], t.target.d1.value, false))
            && (t.target.d2.Some? ==> Produces(t.arm, t.variant, t.startPc, code[|code| - 3], t.target.d2.value, t.arm == A4))
            && (t.arm == A9 ==> Produces(t.arm, t.variant, t.startPc, code[0], t.target.d1.value, true))
            && (t.arm in {A1, A3, A6} ==> code[1].Lui? && code[1].imm20 == 0x13579 && Some(code[1].rd) != t.target.d2)
  {
    hide Legal, PhysicalPc;
  }

  /** Every word of a template is its consumer, a producer, a shadowed writer or structure, and only one of these. */
  lemma WordsHaveOneUse(t: T.Template, start: nat)
    requires RealizedAt(t, start)
    ensures t.startPc == PhysicalPc(start)
    ensures forall k | 0 <= k < |t.code| ::
              k in t.structural
              <==> k != t.consumer && Some(k) != t.d1Producer && Some(k) != t.d2Producer && k !in t.shadowed
    ensures t.shadowed == if t.arm == A9 then [0] else []
    ensures t.executed != [] && t.consumer == t.executed[|t.executed| - 1]
  {
    hide Legal, PhysicalPc;
  }

  // ---------------------------------------------------------------------
  // What executing it hits
  // ---------------------------------------------------------------------

  /** Instruction n of the trace is this one. */
  ghost predicate Is(tr: Trace, n: nat, i: Instr)
    requires n < |tr|
  {
    Exact(tr[n].d) && Disassemble(tr[n].d) == i
  }

  /** What the decoder says of the instructions templates are made of. */
  lemma OperandsOf(tr: Trace, n: nat, i: Instr)
    requires n < |tr| && Is(tr, n, i)
    ensures var d := tr[n].d;
            match i
            case Addi(rd, rs1, _) =>
              && d.writesRd && d.rd == rd && d.usesRs1 && d.rs1 == rs1 && !d.usesRs2 && d.producerType == ALU_RESULT
            case Add(rd, rs1, rs2) =>
              && d.writesRd && d.rd == rd && d.usesRs1 && d.rs1 == rs1 && d.usesRs2 && d.rs2 == rs2
            case Lw(rd, rs1, _) =>
              && d.writesRd && d.rd == rd && d.usesRs1 && d.rs1 == rs1 && d.producerType == MEM_DATA
            case Sw(rs2, rs1, _) => d.mnemonic == SW && d.usesRs1 && d.rs1 == rs1 && d.usesRs2 && d.rs2 == rs2
            case Lui(rd, _) => d.writesRd && d.rd == rd && d.producerType == IMM
            case Auipc(rd, _) => d.writesRd && d.rd == rd && d.producerType == PC_PLUS_IMM
            case Jal(rd, _) => d.writesRd && d.rd == rd && d.producerType == PC_PLUS_4
            case Jalr(rd, rs1, _) => d.writesRd && d.rd == rd && d.usesRs1 && d.rs1 == rs1 && d.producerType == PC_PLUS_4
            case _ => true
  {
    hide Legal;
  }

  /** The register was written one before n. */
  lemma WrittenOneBefore(tr: Trace, n: nat, r: Reg)
    requires 1 <= n < |tr| && tr[n - 1].d.writesRd && tr[n - 1].d.rd == r != 0
    ensures LastWriter(tr, n, r) == Some(n - 1)
  {
  }

  /** The register was written two before n and not since. */
  lemma WrittenTwoBefore(tr: Trace, n: nat, r: Reg)
    requires 2 <= n < |tr| && tr[n - 2].d.writesRd && tr[n - 2].d.rd == r != 0 && tr[n - 1].d.rd != r
    ensures LastWriter(tr, n, r) == Some(n - 2)
  {
  }

  /** The last instructions through n are the template's. */
  ghost predicate Ends(tr: Trace, n: nat, code: seq<Instr>) {
    |code| <= n + 1 <= |tr| && forall k | 0 <= k < |code| :: Is(tr, n + 1 - |code| + k, code[k])
  }

  lemma EndsAt(tr: Trace, n: nat, code: seq<Instr>, k: nat)
    requires Ends(tr, n, code) && 1 <= k <= |code|
    ensures n + 1 >= k && n < |tr| && Is(tr, n + 1 - k, code[|code| - k])
  {
    hide Is;
    assert Is(tr, n + 1 - |code| + (|code| - k), code[|code| - k]);
  }

  lemma PairHitsItsBin(t: T.Template, start: nat, tr: Trace, n: nat)
    requires RealizedAt(t, start) && (forall k | 0 <= k < |t.executed| :: t.executed[k] < |t.code|)
    requires Ends(tr, n, Executions(t)) && |Executions(t)| == 2
    ensures n < |tr| && Hazard(ArmBin(t.arm, t.variant), tr, n)
  {
    hide RealizedAt, Executions, Is, Ends, LastWriter;
    TemplateIsOfItsArm(t, start);
    TargetsArePositive(t, start);
    var code := Executions(t);
    EndsAt(tr, n, code, 1);
    EndsAt(tr, n, code, 2);
    OperandsOf(tr, n, code[1]);
    OperandsOf(tr, n - 1, code[0]);
    WrittenOneBefore(tr, n, t.target.d1.value);
  }

  lemma TripleHitsItsBin(t: T.Template, start: nat, tr: Trace, n: nat)
    requires RealizedAt(t, start) && (forall k | 0 <= k < |t.executed| :: t.executed[k] < |t.code|)
    requires Ends(tr, n, Executions(t)) && |Executions(t)| == 3
    ensures n < |tr| && Hazard(ArmBin(t.arm, t.variant), tr, n)
  {
    hide RealizedAt, Executions, Is, Ends, LastWriter;
    TemplateIsOfItsArm(t, start);
    TargetsArePositive(t, start);
    var code := Executions(t);
    EndsAt(tr, n, code, 1);
    EndsAt(tr, n, code, 2);
    EndsAt(tr, n, code, 3);
    OperandsOf(tr, n, code[2]);
    OperandsOf(tr, n - 1, code[1]);
    OperandsOf(tr, n - 2, code[0]);
    if t.target.d1.Some? {
      WrittenOneBefore(tr, n, t.target.d1.value);
    }
    if t.target.d2.Some? {
      WrittenTwoBefore(tr, n, t.target.d2.value);
    }
    if t.arm == A9 {
      WrittenOneBefore(tr, n - 1, t.target.d1.value);
    }
  }

  /** Wherever a template has just been executed, its consumer hits the bin of its arm. */
  lemma TemplateHitsItsBin(t: T.Template, start: nat, tr: Trace, n: nat)
    requires RealizedAt(t, start) && (forall k | 0 <= k < |t.executed| :: t.executed[k] < |t.code|)
    requires Ends(tr, n, Executions(t))
    ensures n < |tr| && Hazard(ArmBin(t.arm, t.variant), tr, n)
  {
    hide RealizedAt, Executions, Ends, Hazard, Produces, Consumes;
    TemplateIsOfItsArm(t, start);
    if |Executions(t)| == 2 {
      PairHitsItsBin(t, start, tr, n);
    } else {
      TripleHitsItsBin(t, start, tr, n);
    }
  }

  lemma TargetsArePositive(t: T.Template, start: nat)
    requires RealizedAt(t, start)
    ensures t.target.Valid() && HasShape(t.arm, t.target) && T.LegalVariant(t.arm, PhysicalPc(start), t.variant)
  {
    hide PhysicalPc, T.SingleCode, T.DualCode, T.WithFiller;
  }

  // ---------------------------------------------------------------------
  // In a plan
  // ---------------------------------------------------------------------

  /** The j-th executed word of a planned template, and when the plan executes it. */
  lemma TemplateInPlan(es: seq<Entry>, i: nat, j: nat)
    requires Stream(es) && LegalCode(es) && AllInImage(es) && i < |es| && es[i].Block?
    requires j < |es[i].template.executed|
    ensures forall k | 0 <= k < |es[i].template.executed| :: es[i].template.executed[k] < |es[i].template.code|
    ensures RealizedAt(es[i].template, es[i].start)
    ensures 1 <= es[i].first && es[i].first - 1 + j < |PlanExecs(es)|
    ensures PlanExecs(es)[es[i].first - 1 + j].instr == Executions(es[i].template)[j]
  {
    hide Stream, LegalCode, AllInImage, OffsetsInImage, ExecOf, PlanExecs, ExecutedBy, Planned, RealizedAt;
    var e := es[i];
    EntryFacts(es, i);
    EntryStartsAt(es, i);
    StreamCut(es, i);
    RealizedInPlan(e);
    TemplateIsOfItsArm(e.template, e.start);
    EntryPart(es, i, j);
    ExecAt(e, j);
    assert e.Offsets()[j] == e.template.executed[j];
  }

  lemma RealizedInPlan(e: Entry)
    requires Planned(e) && e.Block?
    ensures RealizedAt(e.template, e.start)
  {
    hide T.Realize, PhysicalPc, BuildWitnesses, T.LegalVariant;
  }

  /** The events are executions of the plan, so the trace's instructions are the planned ones. */
  lemma TraceIsPlanned(xs: seq<Exec>, evs: seq<Event>, tr: Trace, k: nat)
    requires Executed(evs, tr) && |evs| <= |xs| && AllRan(evs, xs[..|evs|]) && k < |evs|
    ensures |evs| == |tr| && Is(tr, k, xs[k].instr)
  {
    hide Exact, Disassemble, RawAgrees;
    assert Ran(evs[k], xs[..|evs|][k]);
  }

  /** A planned template that was executed. */
  lemma TemplateWasExecuted(es: seq<Entry>, i: nat, evs: seq<Event>, tr: Trace)
    requires Stream(es) && LegalCode(es) && AllInImage(es) && i < |es| && es[i].Block?
    requires Executed(evs, tr) && |evs| <= |PlanExecs(es)| && AllRan(evs, PlanExecs(es)[..|evs|])
    requires es[i].first - 1 + |es[i].template.executed| <= |evs|
    ensures |evs| == |tr| && RealizedAt(es[i].template, es[i].start)
    ensures forall k | 0 <= k < |es[i].template.executed| :: es[i].template.executed[k] < |es[i].template.code|
    ensures |es[i].template.executed| >= 2 && es[i].first >= 1
    ensures Ends(tr, es[i].first - 2 + |es[i].template.executed|, Executions(es[i].template))
  {
    hide Stream, LegalCode, AllInImage, PlanExecs, Planned, RealizedAt, Executed, AllRan, Executions, Is;
    var e, t := es[i], es[i].template;
    EntryFacts(es, i);
    RealizedInPlan(e);
    TemplateIsOfItsArm(t, e.start);
    SameLength(evs, tr);
    TemplateInPlan(es, i, 0);
    forall j | 0 <= j < |t.executed|
      ensures Is(tr, e.first - 1 + j, Executions(t)[j])
    {
      TemplateInPlan(es, i, j);
      TraceIsPlanned(PlanExecs(es), evs, tr, e.first - 1 + j);
    }
  }

  /** Instruction n shows the bin of the template's arm and variant, and the classifier reports it. */
  ghost predicate ReportsItsBin(t: T.Template, evs: seq<Event>, tr: Trace, n: int) {
    && 0 <= n < |evs| == |tr| && Hazard(ArmBin(t.arm, t.variant), tr, n)
    && HitOn(ArmBin(t.arm, t.variant), tr, n) in HitsOver(ALL_BINS, WindowOf(evs, n), evs[n])
  }

  /**
   Over any cut of a planned stream the classifier reports, for every template
   executed through its consumer, the hazard bin of its arm and variant there.
   */
  lemma PlanHitsItsBins(es: seq<Entry>, i: nat, evs: seq<Event>, tr: Trace)
    requires Stream(es) && LegalCode(es) && AllInImage(es) && i < |es| && es[i].Block?
    requires Executed(evs, tr) && |evs| <= |PlanExecs(es)| && AllRan(evs, PlanExecs(es)[..|evs|])
    requires es[i].first - 1 + |es[i].template.executed| <= |evs|
    ensures ReportsItsBin(es[i].template, evs, tr, es[i].first - 2 + |es[i].template.executed|)
  {
    hide Stream, LegalCode, AllInImage, PlanExecs, Planned, RealizedAt, Executed, AllRan, Executions, Is, Ends, Hazard,
      HitOn, HitsOver, WindowOf, ArmBin;
    TemplateWasExecuted(es, i, evs, tr);
    var t, n := es[i].template, es[i].first - 2 + |es[i].template.executed|;
    TemplateHitsItsBin(t, es[i].start, tr, n);
    HitsMean(evs, tr, n);
    HitNamesItsBin(ArmBin(t.arm, t.variant), tr, n);
  }
}
