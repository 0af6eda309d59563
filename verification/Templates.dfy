/** Arms, targets, and the bins an arm is rewarded for. */
module ArmsAndTargets {
  import opened Wrappers
  import opened Rv32Isa

  datatype Arm = A0 | A1 | A2 | A3 | A4 | A5 | A6 | A7 | A8 | A9

  datatype Distance = D1 | D2 | D1_D2

  function ArmDistance(arm: Arm): Distance {
    match arm
    case A1 => D2
    case A3 => D2
    case A6 => D2
    case A4 => D1_D2
    case _ => D1
  }

  predicate IsPositive(r: int) {
    1 <= r <= 31
  }

  /** The target register of each distance; a dual target names two distinct ones. */
  datatype Target = Target(d1: Option<Reg>, d2: Option<Reg>) {
    predicate Valid() {
      && (d1.Some? ==> IsPositive(d1.value)) && (d2.Some? ==> IsPositive(d2.value))
      && (d1.Some? && d2.Some? ==> d1.value != d2.value)
    }
  }

  /** One of the 62 intent bins: distance one or two, register x1 to x31. */
  datatype IntentBin = IntentBin(distance: int, register: Reg)

  predicate IsIntentBin(b: IntentBin) {
    (b.distance == 1 || b.distance == 2) && IsPositive(b.register)
  }

  datatype ShapeError = TargetShapeMismatch | NegativeOrUnalignedStart

  /** The bins the arm may be rewarded for, if the target has the arm's shape. */
  function AttributionTargets(arm: Arm, t: Target): (r: Result<set<IntentBin>, ShapeError>)
    requires t.Valid()
    ensures r.Ok? <==> HasShape(arm, t)
    ensures r.Ok? ==> forall b | b in r.value :: IsIntentBin(b)
  {
    match ArmDistance(arm)
    case D1 => if t.d1.None? || t.d2.Some? then Err(TargetShapeMismatch) else Ok({IntentBin(1, t.d1.value)})
    case D2 => if t.d1.Some? || t.d2.None? then Err(TargetShapeMismatch) else Ok({IntentBin(2, t.d2.value)})
    case D1_D2 =>
      if t.d1.None? || t.d2.None? then Err(TargetShapeMismatch)
      else Ok({IntentBin(1, t.d1.value), IntentBin(2, t.d2.value)})
  }

  predicate HasShape(arm: Arm, t: Target) {
    && t.Valid()
    && (t.d1.Some? <==> ArmDistance(arm) != D2)
    && (t.d2.Some? <==> ArmDistance(arm) != D1)
  }
}

/** Source-independent filler instructions and their deterministic schedule. */
module FillerPolicy {
  import opened Wrappers
  import opened Rv32Isa

  const FILLER_LUI_IMM20 := 0x13579
  const TARGETED_PER_FILLER := 4

  /** The lowest positive register that is not protected, from r upwards. */
  function AuxiliaryFrom(protected: set<int>, r: int): (a: Option<Reg>)
    requires 1 <= r <= 32
    ensures a.Some? ==> r <= a.value <= 31 && a.value !in protected
    ensures a.Some? ==> forall q | r <= q < a.value :: q in protected
    ensures a.None? ==> forall q | r <= q <= 31 :: q in protected
    decreases 32 - r
  {
    if r == 32 then None
    else if r !in protected then Some(r)
    else AuxiliaryFrom(protected, r + 1)
  }

  function SelectAuxiliary(protected: set<int>): (a: Option<Reg>)
    ensures a.Some? ==> 1 <= a.value <= 31 && a.value !in protected
    ensures a.Some? ==> forall q | 1 <= q < a.value :: q in protected
    ensures a.None? ==> forall q | 1 <= q <= 31 :: q in protected
  {
    AuxiliaryFrom(protected, 1)
  }

  /** Protecting up to four registers always leaves one. */
  lemma AuxiliaryExists(a: int, b: int, c: int, d: int)
    ensures SelectAuxiliary({a}).Some? && SelectAuxiliary({a, b}).Some?
    ensures SelectAuxiliary({a, b, c}).Some? && SelectAuxiliary({a, b, c, d}).Some?
  {
    forall s: set<int> | s <= {a, b, c, d}
      ensures SelectAuxiliary(s).Some?
    {
      var q := if 1 !in s then 1 else if 2 !in s then 2 else if 3 !in s then 3 else if 4 !in s then 4 else 5;
      assert q !in s;
    }
    assert {a} <= {a, b, c, d} && {a, b} <= {a, b, c, d} && {a, b, c} <= {a, b, c, d};
  }

  /** A LUI reads nothing and writes only the register chosen for it. */
  function FillerInstr(protected: set<int>): (i: Option<Instr>)
    ensures i.Some? ==> i.value.Lui? && Legal(i.value) && 1 <= i.value.rd <= 31 && i.value.rd !in protected
  {
    var a := SelectAuxiliary(protected);
    if a.Some? then Some(Lui(a.value, FILLER_LUI_IMM20)) else None
  }

  /** The cumulative 80:20 schedule of campaign fillers. */
  class Scheduler {
    var targetedInstructionCount: nat
    var scheduledFillerCount: nat

    ghost predicate Valid()
      reads this
    {
      scheduledFillerCount <= targetedInstructionCount / TARGETED_PER_FILLER
    }

    /** Every filler that is due has been scheduled. */
    ghost predicate Settled()
      reads this
    {
      scheduledFillerCount == targetedInstructionCount / TARGETED_PER_FILLER
    }

    constructor ()
      ensures Settled() && targetedInstructionCount == 0
    {
      targetedInstructionCount := 0;
      scheduledFillerCount := 0;
    }

    /** Records one template; the count is settled afterwards, so the accounting error is never raised. */
    method ScheduleAfterTemplate(targeted: int) returns (r: Option<nat>)
      requires Valid()
      modifies this
      ensures Valid() && (r.Some? <==> targeted > 0)
      ensures r.None? ==> targetedInstructionCount == old(targetedInstructionCount)
                          && scheduledFillerCount == old(scheduledFillerCount)
      ensures r.Some? ==>
                && targetedInstructionCount == old(targetedInstructionCount) + targeted
                && Settled() && r.value == scheduledFillerCount - old(scheduledFillerCount)
      ensures r.Some? && old(Settled()) && targeted <= TARGETED_PER_FILLER ==> r.value <= 1
    {
      if targeted <= 0 {
        return None;
      }
      targetedInstructionCount := targetedInstructionCount + targeted;
      var required := targetedInstructionCount / TARGETED_PER_FILLER;
      var due := required - scheduledFillerCount;
      assert due >= 0;
      scheduledFillerCount := scheduledFillerCount + due;
      r := Some(due);
    }
  }
}

/** The ten templates as assembly, and what each promises about its execution. */
module TemplateRealizer {
  import opened Wrappers
  import opened Rv32Isa
  import opened ArmsAndTargets
  import opened FillerPolicy

  const SPECIAL_IMM20 := 0x12345
  const JUMP_LOCAL_TARGET_OFFSET := 12

  datatype Variant = RS1 | RS2 | DUAL | LUI_V | AUIPC_V | JAL_V | JALR_V | STORE_DATA | PRIORITY

  /** Words are kept as assembly; the image is their encoding. */
  datatype Template = Template(
    arm: Arm, variant: Variant, target: Target, startPc: nat,
    code: seq<Instr>,
    executed: seq<nat>, structural: seq<nat>, consumer: nat,
    d1Producer: Option<nat>, d2Producer: Option<nat>, shadowed: seq<nat>)

  /** The choices the caller's random source may make. */
  predicate LegalVariant(arm: Arm, startPc: int, v: Variant) {
    match arm
    case A4 => v == DUAL
    case A5 => v == LUI_V || v == AUIPC_V
    case A6 => v == LUI_V || v == AUIPC_V
    case A7 => v == JAL_V || (v == JALR_V && startPc + JUMP_LOCAL_TARGET_OFFSET <= 0x7FF)
    case A8 => v == STORE_DATA
    case A9 => v == PRIORITY
    case _ => v == RS1 || v == RS2
  }

  function Aux(protected: set<int>): (a: Reg)
    requires SelectAuxiliary(protected).Some?
    ensures 1 <= a <= 31 && a !in protected
  {
    SelectAuxiliary(protected).value
  }

  function Consumer(v: Variant, r: Reg, destination: Reg): Instr {
    if v == RS2 then Add(destination, 0, r) else Addi(destination, r, 1)
  }

  function StructuralFiller(r: Reg, destination: Reg): (i: Instr)
    ensures i.Lui? && Legal(i) && i.rd != r && i.rd != destination
  {
    AuxiliaryExists(r, destination, 0, 0);
    Lui(Aux({r, destination}), FILLER_LUI_IMM20)
  }

  function SpecialProducer(v: Variant, r: Reg): Instr {
    if v == LUI_V then Lui(r, SPECIAL_IMM20) else Auipc(r, SPECIAL_IMM20)
  }

  function LinkProducer(v: Variant, r: Reg, startPc: nat): Instr {
    if v == JAL_V then Jal(r, JUMP_LOCAL_TARGET_OFFSET) else Jalr(r, 0, startPc + JUMP_LOCAL_TARGET_OFFSET)
  }

  /** The jump, two words it flushes, and the consumer it lands on. */
  function LinkCode(v: Variant, r: Reg, startPc: nat, destination: Reg): (code: seq<Instr>)
    requires IsPositive(r) && LegalVariant(A7, startPc, v)
    ensures |code| == 4 && forall k | 0 <= k < |code| :: Legal(code[k])
  {
    AuxiliaryExists(r, destination, 0, 0);
    var first := Aux({r, destination});
    AuxiliaryExists(r, destination, first, 0);
    var second := Aux({r, destination, first});
    [LinkProducer(v, r, startPc), Addi(first, 0, 9), Addi(second, 0, 10), Addi(destination, r, 1)]
  }

  /** The assembly of a single-distance arm with target register r. */
  function SingleCode(arm: Arm, v: Variant, r: Reg, startPc: nat): (code: seq<Instr>)
    requires arm != A4 && IsPositive(r) && LegalVariant(arm, startPc, v)
    ensures 2 <= |code| <= 4 && forall k | 0 <= k < |code| :: Legal(code[k])
  {
    AuxiliaryExists(r, 0, 0, 0);
    var destination := Aux({r});
    match arm
    case A0 => [Addi(r, 0, 7), Consumer(v, r, destination)]
    case A1 => [Addi(r, 0, 7), StructuralFiller(r, destination), Consumer(v, r, destination)]
    case A2 => [Lw(r, 0, 0), Consumer(v, r, destination)]
    case A3 => [Lw(r, 0, 0), StructuralFiller(r, destination), Consumer(v, r, destination)]
    case A5 => [SpecialProducer(v, r), Addi(destination, r, 1)]
    case A6 => [SpecialProducer(v, r), StructuralFiller(r, destination), Addi(destination, r, 1)]
    case A7 => LinkCode(v, r, startPc, destination)
    case A8 => [Addi(r, 0, 42), Sw(r, 0, 0)]
    case A9 => [Addi(r, 0, 1), Addi(r, 0, 2), Addi(destination, r, 0)]
  }

  function DualCode(d1: Reg, d2: Reg): (code: seq<Instr>)
    ensures |code| == 3 && forall k | 0 <= k < |code| :: Legal(code[k])
  {
    AuxiliaryExists(d1, d2, 0, 0);
    [Addi(d2, 0, 10), Addi(d1, 0, 20), Add(Aux({d1, d2}), d1, d2)]
  }

  /** One concrete template; the variant is the random source's choice. */
  function Realize(arm: Arm, t: Target, v: Variant, startPc: int): (r: Result<Template, ShapeError>)
    requires t.Valid() && LegalVariant(arm, startPc, v)
    ensures r.Ok? <==> startPc >= 0 && startPc % 4 == 0 && HasShape(arm, t)
    ensures r.Ok? ==> r.value.arm == arm && r.value.target == t && 2 <= |r.value.code| <= 4
    ensures r.Ok? ==> forall k | 0 <= k < |r.value.code| :: Legal(r.value.code[k])
  {
    if startPc < 0 || startPc % 4 != 0 then Err(NegativeOrUnalignedStart)
    else if AttributionTargets(arm, t).Err? then Err(TargetShapeMismatch)
    else
      match arm
      case A4 =>
        Ok(Template(arm, v, t, startPc, DualCode(t.d1.value, t.d2.value), [0, 1, 2], [], 2, Some(1), Some(0), []))
      case A1 => Ok(WithFiller(arm, v, t, startPc))
      case A3 => Ok(WithFiller(arm, v, t, startPc))
      case A6 => Ok(WithFiller(arm, v, t, startPc))
      case A7 =>
        Ok(Template(arm, v, t, startPc, SingleCode(arm, v, t.d1.value, startPc), [0, 3], [1, 2], 3,
                    Some(0), None, []))
      case A9 =>
        Ok(Template(arm, v, t, startPc, SingleCode(arm, v, t.d1.value, startPc), [0, 1, 2], [], 2,
                    Some(1), None, [0]))
      case _ =>
        Ok(Template(arm, v, t, startPc, SingleCode(arm, v, t.d1.value, startPc), [0, 1], [], 1,
                    Some(0), None, []))
  }

  /** Producer, one independent structural instruction, consumer. */
  function WithFiller(arm: Arm, v: Variant, t: Target, startPc: nat): Template
    requires ArmDistance(arm) == D2 && HasShape(arm, t) && LegalVariant(arm, startPc, v)
  {
    Template(arm, v, t, startPc, SingleCode(arm, v, t.d2.value, startPc), [0, 1, 2], [1], 2, None, Some(0), [])
  }
}
