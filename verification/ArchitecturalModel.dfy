/** One accepted instruction in executed-program order. */
module Execution {
  import opened Rv32Isa

  /**
   The source copies the decoded fields into the event one by one; here they
   stay together in d. Nothing forces d to be the decoding of the instruction
   word: FromDecoder says when it is.
   */
  datatype Event = Event(
    index: int, cycle: int, pc: int, instruction: Word, d: Decoded,
    stallCycles: int, forwardA: int, forwardB: int)
  {
    /** The ranges the event constructor insists on. */
    predicate Admissible() {
      index > 0 && cycle >= 0 && 0 <= pc <= 0x1FF && stallCycles >= 0
      && 0 <= forwardA <= 3 && 0 <= forwardB <= 3
    }

    predicate FromDecoder() {
      DecodeChecked(instruction).Some? && d == DecodeChecked(instruction).value
    }
  }

  /** The architectural source registers, without repetition. */
  function Sources(d: Decoded): seq<Reg> {
    var first := if d.usesRs1 then [d.rs1] else [];
    if d.usesRs2 && d.rs2 !in first then first + [d.rs2] else first
  }
}

/**
 The sequential architectural oracle, as a meaning of instructions over values
 and as the class that interprets raw instruction fields in place.
 */
module ArchitecturalModel {
  import opened Wrappers
  import opened Digits
  import opened Rv32Isa
  import opened Rv32RoundTrip
  import opened Execution

  type Byte = b: int | 0 <= b < 256

  datatype ArchState = ArchState(regs: seq<Word>, mem: map<Word, Byte>, expectedPc: Word, lastIndex: int)

  datatype RegisterWrite = RegisterWrite(index: int, rd: Reg, value: Word)

  datatype Store = Store(index: int, address: Word, data: Word)

  datatype ArchStep = ArchStep(
    index: int, pc: int, instruction: Word,
    expectedPc: Word, pcMatch: bool, nextPc: Word,
    registerWrite: Option<RegisterWrite>, store: Option<Store>)

  datatype ArchError = OutOfOrder | UnsupportedInstruction

  /** Thirty-two registers, of which x0 holds zero. */
  predicate WellFormed(s: ArchState) {
    |s.regs| == 32 && s.regs[0] == 0
  }

  /** Reset: every register and the PC are zero and no byte was written. */
  ghost predicate IsReset(s: ArchState) {
    && WellFormed(s) && (forall r | 0 <= r < 32 :: s.regs[r] == 0)
    && s.mem == map[] && s.expectedPc == 0 && s.lastIndex == 0
  }

  function Wrap32(value: int): Word {
    value % WORD_SPACE
  }

  function Signed32(value: Word): int {
    SignExtend(value, 0x8000_0000)
  }

  // ---------------------------------------------------------------------
  // Little-endian memory, zero where it was never written
  // ---------------------------------------------------------------------

  function ReadByte(mem: map<Word, Byte>, address: int): Byte {
    var a := Wrap32(address);
    if a in mem then mem[a] else 0
  }

  function ReadWord(mem: map<Word, Byte>, address: int): Word {
    ReadByte(mem, address) + ReadByte(mem, address + 1) * 0x100
    + ReadByte(mem, address + 2) * 0x1_0000 + ReadByte(mem, address + 3) * 0x100_0000
  }

  function WriteWord(mem: map<Word, Byte>, address: int, value: Word): map<Word, Byte> {
    mem[Wrap32(address) := value % 0x100]
       [Wrap32(address + 1) := value / 0x100 % 0x100]
       [Wrap32(address + 2) := value / 0x1_0000 % 0x100]
       [Wrap32(address + 3) := value / 0x100_0000 % 0x100]
  }

  lemma WrapNext(a: int, k: int)
    requires 0 <= k < 4
    ensures Wrap32(a + k) == if Wrap32(a) + k < WORD_SPACE then Wrap32(a) + k else Wrap32(a) + k - WORD_SPACE
  {
    var q, r := a / WORD_SPACE, a % WORD_SPACE;
    if r + k < WORD_SPACE {
      QuotientIs(a + k, WORD_SPACE, q, r + k);
    } else {
      QuotientIs(a + k, WORD_SPACE, q + 1, r + k - WORD_SPACE);
    }
  }

  lemma FourBytes(v: Word, q1: int, q2: int, q3: int)
    requires q1 == v / 0x100 && q2 == q1 / 0x100 && q3 == q2 / 0x100
    ensures v / 0x1_0000 == q2 && v / 0x100_0000 == q3 && 0 <= q3 < 0x100
    ensures v == v % 0x100 + q1 % 0x100 * 0x100 + q2 % 0x100 * 0x1_0000 + q3 * 0x100_0000
  {
    QuotientOfQuotient(v, 0x100, 0x100);
    QuotientOfQuotient(v, 0x1_0000, 0x100);
  }

  /** A word read back from where it was written, also across the top of memory. */
  lemma ReadAfterWrite(mem: map<Word, Byte>, address: int, value: Word)
    ensures ReadWord(WriteWord(mem, address, value), address) == value
  {
    WrapNext(address, 1);
    WrapNext(address, 2);
    WrapNext(address, 3);
    var q1 := value / 0x100;
    var q2 := q1 / 0x100;
    FourBytes(value, q1, q2, q2 / 0x100);
    BytesBack(mem, Wrap32(address), Wrap32(address + 1), Wrap32(address + 2), Wrap32(address + 3), address, value);
  }

  lemma BytesBack(mem: map<Word, Byte>, a: Word, b: Word, c: Word, d: Word, address: int, value: Word)
    requires a == Wrap32(address) && b == Wrap32(address + 1)
    requires c == Wrap32(address + 2) && d == Wrap32(address + 3)
    requires a != b && a != c && a != d && b != c && b != d && c != d
    ensures var m := WriteWord(mem, address, value);
            && ReadByte(m, address) == value % 0x100
            && ReadByte(m, address + 1) == value / 0x100 % 0x100
            && ReadByte(m, address + 2) == value / 0x1_0000 % 0x100
            && ReadByte(m, address + 3) == value / 0x100_0000 % 0x100
  {
  }

  /** The lowest byte is at the address itself; no other byte changes. */
  lemma LowestByteFirst(mem: map<Word, Byte>, address: int, value: Word, a: Word)
    ensures var m := WriteWord(mem, address, value);
            var b0, b1, b2, b3 := ReadByte(m, address), ReadByte(m, address + 1), ReadByte(m, address + 2), ReadByte(m, address + 3);
            && value == b0 + b1 * 0x100 + b2 * 0x1_0000 + b3 * 0x100_0000
            && (a !in {Wrap32(address), Wrap32(address + 1), Wrap32(address + 2), Wrap32(address + 3)} ==>
                  (a in m <==> a in mem) && (a in m ==> m[a] == mem[a]))
  {
    hide Wrap32;
    ReadAfterWrite(mem, address, value);
  }

  /** Memory that was never written reads as zero. */
  lemma UnwrittenIsZero(mem: map<Word, Byte>, address: int)
    requires {Wrap32(address), Wrap32(address + 1), Wrap32(address + 2), Wrap32(address + 3)} !! mem.Keys
    ensures ReadWord(mem, address) == 0
  {
    hide Wrap32;
  }

  // ---------------------------------------------------------------------
  // Meaning of one instruction
  // ---------------------------------------------------------------------

  function ReadRegister(s: ArchState, r: Reg): Word
    requires WellFormed(s)
  {
    if r == 0 then 0 else s.regs[r]
  }

  predicate Holds(c: Condition, lhs: Word, rhs: Word) {
    match c
    case Eq => lhs == rhs
    case Ne => lhs != rhs
    case Lt => Signed32(lhs) < Signed32(rhs)
    case Ge => Signed32(lhs) >= Signed32(rhs)
    case Ltu => lhs < rhs
    case Geu => lhs >= rhs
  }

  /**
   Signed order: a value with the sign bit set is below every value without, and
   among values of one sign the order is that of the words.
   */
  lemma SignedOrder(x: Word, y: Word)
    ensures Holds(Lt, x, y) <==> if (x >= 0x8000_0000) == (y >= 0x8000_0000) then x < y else x >= 0x8000_0000
    ensures Holds(Ge, x, y) <==> !Holds(Lt, x, y)
    ensures Holds(Ltu, x, y) <==> x < y
    ensures Holds(Geu, x, y) <==> x >= y
    ensures Holds(Eq, x, y) <==> !Holds(Ltu, x, y) && !Holds(Ltu, y, x)
    ensures Holds(Ne, x, y) <==> !Holds(Eq, x, y)
    ensures BranchTaken(4, x, y) == Some(Holds(Lt, x, y)) && BranchTaken(5, x, y) == Some(Holds(Ge, x, y))
  {
    SignOf(x);
    SignOf(y);
  }

  lemma SignOf(x: Word)
    ensures Signed32(x) == if x >= 0x8000_0000 then x - 0x1_0000_0000 else x
  {
  }

  /** The destination register and the value computed for it. */
  function Computed(s: ArchState, pc: int, i: Instr): Option<(Reg, Word)>
    requires WellFormed(s) && Legal(i)
  {
    match i
    case Add(rd, rs1, rs2) => Some((rd, Wrap32(ReadRegister(s, rs1) + ReadRegister(s, rs2))))
    case Addi(rd, rs1, imm) => Some((rd, Wrap32(ReadRegister(s, rs1) + imm)))
    case Lw(rd, rs1, imm) => Some((rd, ReadWord(s.mem, Wrap32(ReadRegister(s, rs1) + imm))))
    case Lui(rd, imm20) => Some((rd, imm20 * 0x1000))
    case Auipc(rd, imm20) => Some((rd, Wrap32(pc + imm20 * 0x1000)))
    case Jal(rd, _) => Some((rd, Wrap32(pc + 4)))
    case Jalr(rd, _, _) => Some((rd, Wrap32(pc + 4)))
    case Sw(_, _, _) => None
    case Branch(_, _, _, _) => None
  }

  function Stored(s: ArchState, i: Instr): Option<(Word, Word)>
    requires WellFormed(s) && Legal(i)
  {
    match i
    case Sw(rs2, rs1, imm) => Some((Wrap32(ReadRegister(s, rs1) + imm), ReadRegister(s, rs2)))
    case _ => None
  }

  /** Taken branches and jumps leave the sequential path. */
  predicate Redirects(s: ArchState, i: Instr)
    requires WellFormed(s) && Legal(i)
  {
    match i
    case Jal(_, _) => true
    case Jalr(_, _, _) => true
    case Branch(c, rs1, rs2, _) => Holds(c, ReadRegister(s, rs1), ReadRegister(s, rs2))
    case _ => false
  }

  function NextPc(s: ArchState, pc: int, i: Instr): Word
    requires WellFormed(s) && Legal(i)
  {
    match i
    case Jal(_, offset) => Wrap32(pc + offset)
    case Jalr(_, rs1, imm) =>
      var target := Wrap32(ReadRegister(s, rs1) + imm);
      target - target % 2
    case Branch(c, rs1, rs2, offset) =>
      if Holds(c, ReadRegister(s, rs1), ReadRegister(s, rs2)) then Wrap32(pc + offset) else Wrap32(pc + 4)
    case _ => Wrap32(pc + 4)
  }

  /** Instruction addresses stay even: a JALR target loses its lowest bit, whatever the register holds. */
  lemma PcStaysEven(s: ArchState, pc: int, i: Instr)
    requires WellFormed(s) && Legal(i) && pc % 2 == 0
    ensures NextPc(s, pc, i) % 2 == 0
  {
    hide Holds, Wrap32, ReadRegister;
    match i
    case Jal(_, offset) => WrapKeepsEven(pc, offset);
    case Jalr(_, rs1, imm) => LowestBitCleared(Wrap32(ReadRegister(s, rs1) + imm));
    case Branch(_, _, _, offset) =>
      WrapKeepsEven(pc, offset);
      WrapKeepsEven(pc, 4);
    case _ => WrapKeepsEven(pc, 4);
  }

  lemma LowestBitCleared(t: int)
    ensures (t - t % 2) % 2 == 0
  {
  }

  lemma WrapKeepsEven(a: int, b: int)
    requires a % 2 == 0 && b % 2 == 0
    ensures Wrap32(a + b) % 2 == 0
  {
    hide Wrap32;
    SumIsEven(a, b);
    WrapKeepsParity(a + b);
  }

  lemma SumIsEven(a: int, b: int)
    requires a % 2 == 0 && b % 2 == 0
    ensures (a + b) % 2 == 0
  {
    QuotientIs(a + b, 2, a / 2 + b / 2, 0);
  }

  lemma WrapKeepsParity(v: int)
    ensures Wrap32(v) % 2 == v % 2
  {
    var q, r := v / WORD_SPACE, v % WORD_SPACE;
    SplitByTwo(v, q, r);
  }

  lemma SplitByTwo(v: int, q: int, r: int)
    requires v == q * WORD_SPACE + r
    ensures v % 2 == r % 2
  {
    QuotientIs(v, 2, q * 0x8000_0000 + r / 2, r % 2);
  }

  datatype Effect = Effect(result: Option<(Reg, Word)>, store: Option<(Word, Word)>, nextPc: Word)

  function EffectOf(s: ArchState, pc: int, i: Instr): Effect
    requires WellFormed(s) && Legal(i)
  {
    Effect(Computed(s, pc, i), Stored(s, i), NextPc(s, pc, i))
  }

  function WriteBack(s: ArchState, pc: int, i: Instr): seq<Word>
    requires WellFormed(s) && Legal(i)
  {
    var c := Computed(s, pc, i);
    if c.Some? && c.value.0 != 0 then s.regs[c.value.0 := c.value.1] else s.regs
  }

  /** The DUT fetches through a nine-bit PC. */
  const FETCH_SPACE := 0x200

  function FetchPc(pc: Word, wrap: bool): Word {
    if wrap then pc % FETCH_SPACE else pc
  }

  /**
   One executed instruction. The wrap-aware model truncates the next fetch PC;
   register and memory results keep all thirty-two bits.
   */
  function Advance(s: ArchState, pc: int, i: Instr, wrap: bool): (s': ArchState)
    requires WellFormed(s) && Legal(i)
    ensures WellFormed(s')
  {
    var st := Stored(s, i);
    ArchState(
      WriteBack(s, pc, i),
      if st.Some? then WriteWord(s.mem, st.value.0, st.value.1) else s.mem,
      FetchPc(NextPc(s, pc, i), wrap),
      s.lastIndex + 1)
  }

  /** The record of that step. */
  function Report(s: ArchState, ev: Event, i: Instr, wrap: bool): ArchStep
    requires WellFormed(s) && Legal(i)
  {
    var c, st := Computed(s, ev.pc, i), Stored(s, i);
    ArchStep(ev.index, ev.pc, ev.instruction, s.expectedPc, ev.pc == s.expectedPc,
             FetchPc(NextPc(s, ev.pc, i), wrap),
             if c.Some? && c.value.0 != 0 then Some(RegisterWrite(ev.index, c.value.0, c.value.1)) else None,
             if st.Some? then Some(Store(ev.index, st.value.0, st.value.1)) else None)
  }

  /**
   The record of a step is all that changed: the register it names and no other,
   never x0, the word it stored and no other, and the next fetch PC.
   */
  lemma RecordTellsChange(s: ArchState, ev: Event, i: Instr, wrap: bool)
    requires WellFormed(s) && Legal(i)
    ensures var step, after := Report(s, ev, i, wrap), Advance(s, ev.pc, i, wrap);
            && after.expectedPc == step.nextPc && (step.pcMatch <==> ev.pc == s.expectedPc)
            && (forall r | 0 <= r < 32 ::
                  after.regs[r] == match step.registerWrite
                                   case None => s.regs[r]
                                   case Some(w) => if r == w.rd then w.value else s.regs[r])
            && (step.registerWrite.Some? ==> step.registerWrite.value.rd != 0)
            && after.mem == (match step.store
                             case None => s.mem
                             case Some(w) => WriteWord(s.mem, w.address, w.data))
  {
    hide WriteWord, Computed, Stored, NextPc;
  }

  // ---------------------------------------------------------------------
  // The interpreter of raw fields
  // ---------------------------------------------------------------------

  /** The raw comparison selected by funct3, if there is one. */
  function BranchTaken(f3: int, lhs: Word, rhs: Word): Option<bool> {
    if f3 == 0 then Some(lhs == rhs)
    else if f3 == 1 then Some(lhs != rhs)
    else if f3 == 4 then Some(Signed32(lhs) < Signed32(rhs))
    else if f3 == 5 then Some(Signed32(lhs) >= Signed32(rhs))
    else if f3 == 6 then Some(lhs < rhs)
    else if f3 == 7 then Some(lhs >= rhs)
    else None
  }

  /** What the opcode, funct3 and funct7 fields alone select; none when they select nothing. */
  function RawEffect(s: ArchState, pc: int, f: Fields): Option<Effect>
    requires WellFormed(s)
  {
    var next := Wrap32(pc + 4);
    if f.opcode == OP_R then
      if f.funct3 != 0 || f.funct7 != 0 then None
      else Some(Effect(Some((f.rd, Wrap32(ReadRegister(s, f.rs1) + ReadRegister(s, f.rs2)))), None, next))
    else if f.opcode == OP_IMM then
      if f.funct3 != 0 then None
      else Some(Effect(Some((f.rd, Wrap32(ReadRegister(s, f.rs1) + f.immI))), None, next))
    else if f.opcode == OP_LOAD then
      if f.funct3 != 2 then None
      else Some(Effect(Some((f.rd, ReadWord(s.mem, Wrap32(ReadRegister(s, f.rs1) + f.immI)))), None, next))
    else if f.opcode == OP_STORE then
      if f.funct3 != 2 then None
      else Some(Effect(None, Some((Wrap32(ReadRegister(s, f.rs1) + f.immS), ReadRegister(s, f.rs2))), next))
    else if f.opcode == OP_BRANCH then
      var taken := BranchTaken(f.funct3, ReadRegister(s, f.rs1), ReadRegister(s, f.rs2));
      if taken.None? then None
      else Some(Effect(None, None, if taken.value then Wrap32(pc + f.immB) else next))
    else if f.opcode == OP_LUI then
      Some(Effect(Some((f.rd, Wrap32(f.immU))), None, next))
    else if f.opcode == OP_AUIPC then
      Some(Effect(Some((f.rd, Wrap32(pc + f.immU))), None, next))
    else if f.opcode == OP_JAL then
      Some(Effect(Some((f.rd, next)), None, Wrap32(pc + f.immJ)))
    else if f.opcode == OP_JALR then
      if f.funct3 != 0 then None
      else
        var target := Wrap32(ReadRegister(s, f.rs1) + f.immI);
        Some(Effect(Some((f.rd, next)), None, target - target % 2))
    else None
  }

  /** The two readings of the fields f agree. */
  ghost predicate SameEffect(s: ArchState, pc: int, f: Fields)
    requires WellFormed(s)
  {
    var raw, d := RawEffect(s, pc, f), DecodeFields(f);
    if d.None? || d.value.mnemonic == LOAD || d.value.mnemonic == STORE then raw.None?
    else Legal(Disassemble(d.value)) && raw == Some(EffectOf(s, pc, Disassemble(d.value)))
  }

  ghost predicate LegalFields(f: Fields) {
    var d := DecodeFields(f);
    d.None? || d.value.mnemonic == LOAD || d.value.mnemonic == STORE || Legal(Disassemble(d.value))
  }

  lemma DataFieldsAgree(s: ArchState, pc: int, f: Fields)
    requires WellFormed(s) && LegalFields(f) && f.opcode in {OP_R, OP_IMM, OP_LOAD, OP_STORE}
    ensures SameEffect(s, pc, f)
  {
  }

  lemma BranchFieldsAgree(s: ArchState, pc: int, f: Fields)
    requires WellFormed(s) && LegalFields(f) && f.opcode == OP_BRANCH
    ensures SameEffect(s, pc, f)
  {
  }

  lemma UpperFieldsAgree(s: ArchState, pc: int, f: Fields, imm20: int)
    requires WellFormed(s) && LegalFields(f) && f.opcode in {OP_LUI, OP_AUIPC}
    requires f.immU == imm20 * 0x1000 && imm20 == f.immU / 0x1000
    ensures SameEffect(s, pc, f)
  {
    QuotientIs(f.immU, WORD_SPACE, 0, f.immU);
  }

  lemma JumpFieldsAgree(s: ArchState, pc: int, f: Fields)
    requires WellFormed(s) && LegalFields(f)
    requires f.opcode !in {OP_R, OP_IMM, OP_LOAD, OP_STORE, OP_BRANCH, OP_LUI, OP_AUIPC}
    ensures SameEffect(s, pc, f)
  {
  }

  lemma DecodedFieldsAreLegal(w: Word)
    ensures LegalFields(FieldsOf(w))
  {
    if DecodeChecked(w).Some? {
      DecodeEncode(w);
    }
  }

  lemma UpperImmediate(w: Word)
    ensures DecodeUImm(w) == w / 0x1000 * 0x1000 && DecodeUImm(w) / 0x1000 == w / 0x1000
  {
    QuotientIs(DecodeUImm(w), 0x1000, w / 0x1000, 0);
  }

  /**
   The interpreter of raw fields and the meaning of decoded instructions accept
   the same words and do the same with them.
   */
  lemma RawEffectAgrees(s: ArchState, pc: int, w: Word)
    requires WellFormed(s)
    ensures RawEffect(s, pc, FieldsOf(w)).Some? <==> DecodeChecked(w).Some?
    ensures DecodeChecked(w).Some? ==>
              var i := Disassemble(DecodeChecked(w).value);
              Legal(i) && RawEffect(s, pc, FieldsOf(w)).value == EffectOf(s, pc, i)
  {
    DecodedFieldsAreLegal(w);
    UpperImmediate(w);
    FieldsAgree(s, pc, FieldsOf(w), w / 0x1000);
  }

  lemma FieldsAgree(s: ArchState, pc: int, f: Fields, imm20: int)
    requires WellFormed(s) && LegalFields(f)
    requires f.immU == imm20 * 0x1000 && imm20 == f.immU / 0x1000
    ensures SameEffect(s, pc, f)
  {
    if f.opcode in {OP_R, OP_IMM, OP_LOAD, OP_STORE} {
      DataFieldsAgree(s, pc, f);
    } else if f.opcode == OP_BRANCH {
      BranchFieldsAgree(s, pc, f);
    } else if f.opcode in {OP_LUI, OP_AUIPC} {
      UpperFieldsAgree(s, pc, f, imm20);
    } else {
      JumpFieldsAgree(s, pc, f);
    }
  }

  // ---------------------------------------------------------------------
  // The oracle as an object
  // ---------------------------------------------------------------------

  /**
   RV32ArchitecturalModel, and with wrap set its wrap-aware subclass, which
   differs only in truncating the next fetch PC; an event's own PC always fits.
   */
  class Model {
    const wrap: bool
    var registers: seq<Word>
    var memory: map<Word, Byte>
    var expectedPc: Word
    var lastInstructionIndex: int

    ghost predicate Valid()
      reads this
    {
      |registers| == 32 && registers[0] == 0
    }

    function View(): ArchState
      reads this
    {
      ArchState(registers, memory, expectedPc, lastInstructionIndex)
    }

    constructor (wrap: bool)
      ensures Valid() && IsReset(View()) && this.wrap == wrap
    {
      this.wrap := wrap;
      registers := seq(32, _ => 0);
      memory := map[];
      expectedPc := 0;
      lastInstructionIndex := 0;
    }

    function Read(r: Reg): (v: Word)
      requires Valid()
      reads this
      ensures v == ReadRegister(View(), r)
    {
      if r == 0 then 0 else registers[r]
    }

    /**
     Executes one event. On every accepted word the new state is that of the
     decoded instruction; every other event leaves the model as it was.
     */
    method Step(ev: Event) returns (r: Result<ArchStep, ArchError>)
      requires Valid() && ev.Admissible()
      modifies this
      ensures Valid()
      ensures r.Err? ==> View() == old(View())
      ensures r == Err(OutOfOrder) <==> ev.index != old(lastInstructionIndex) + 1
      ensures ev.index == old(lastInstructionIndex) + 1 ==>
                (r.Ok? <==> DecodeChecked(ev.instruction).Some?)
      ensures r.Ok? ==>
                var i := Disassemble(DecodeChecked(ev.instruction).value);
                && Legal(i)
                && View() == Advance(old(View()), ev.pc, i, wrap)
                && r.value == Report(old(View()), ev, i, wrap)
    {
      if ev.index != lastInstructionIndex + 1 {
        return Err(OutOfOrder);
      }
      assert ev.pc < FETCH_SPACE;
      var raw := RawEffect(View(), ev.pc, FieldsOf(ev.instruction));
      RawEffectAgrees(View(), ev.pc, ev.instruction);
      if raw.None? {
        return Err(UnsupportedInstruction);
      }
      var effect := raw.value;
      var write: Option<RegisterWrite> := None;
      if effect.result.Some? && effect.result.value.0 != 0 {
        var (rd, value) := effect.result.value;
        registers := registers[rd := value];
        write := Some(RegisterWrite(ev.index, rd, value));
      }
      var store: Option<Store> := None;
      if effect.store.Some? {
        var (address, data) := effect.store.value;
        memory := WriteWord(memory, address, data);
        store := Some(Store(ev.index, address, data));
      }
      var previousPc := expectedPc;
      expectedPc := FetchPc(effect.nextPc, wrap);
      lastInstructionIndex := ev.index;
      r := Ok(ArchStep(ev.index, ev.pc, ev.instruction, previousPc, ev.pc == previousPc, expectedPc,
                       write, store));
    }
  }
}
