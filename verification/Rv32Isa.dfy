/**
 The RV32I subset of the harness: the arithmetic encoder, the structural
 decoder, and the proof that each undoes the other.

 A word is a natural number below 2^32. A shift left is a product and a shift
 right or a mask is a quotient or a remainder by a power of two; an "or" of
 disjoint fields is their sum.
 */
module Rv32Isa {
  import opened Wrappers

  const WORD_SPACE := 0x1_0000_0000

  type Word = w: int | 0 <= w < 0x1_0000_0000
  type Reg = r: int | 0 <= r < 32

  const OP_R := 0x33
  const OP_IMM := 0x13
  const OP_LOAD := 0x03
  const OP_STORE := 0x23
  const OP_BRANCH := 0x63
  const OP_JAL := 0x6F
  const OP_JALR := 0x67
  const OP_LUI := 0x37
  const OP_AUIPC := 0x17

  datatype Mnemonic =
    | ADD | ADDI | LW | LOAD | SW | STORE | LUI | AUIPC | JAL | JALR
    | BEQ | BNE | BLT | BGE | BLTU | BGEU

  datatype ProducerType = ALU_RESULT | MEM_DATA | PC_PLUS_4 | IMM | PC_PLUS_IMM | NONE

  datatype ConsumerType = RS1_RS2 | RS1_ONLY | NO_GPR_SOURCE

  datatype Decoded = Decoded(
    opcode: int,
    rs1: Reg, rs2: Reg, rd: Reg,
    usesRs1: bool, usesRs2: bool, writesRd: bool,
    producerType: ProducerType, consumerType: ConsumerType,
    mnemonic: Mnemonic, funct3: int, funct7: int, imm: Option<int>)

  datatype EncodeError = BadRegister | ImmediateOutOfRange | ImmediateMisaligned

  // ---------------------------------------------------------------------
  // Encoder
  // ---------------------------------------------------------------------

  /** The six fields every RV32I format shares. */
  function Pack(funct7: int, rs2: int, rs1: int, funct3: int, rd: int, opcode: int): (w: Word)
    requires 0 <= funct7 < 128 && 0 <= rs2 < 32 && 0 <= rs1 < 32
    requires 0 <= funct3 < 8 && 0 <= rd < 32 && 0 <= opcode < 128
  {
    funct7 * 0x200_0000 + rs2 * 0x10_0000 + rs1 * 0x8000 + funct3 * 0x1000 + rd * 0x80 + opcode
  }

  function CheckReg(value: int): (r: Result<Reg, EncodeError>) {
    if 0 <= value <= 31 then Ok(value) else Err(BadRegister)
  }

  /** The two's-complement field of a signed immediate whose sign bit weighs `half`. */
  function SignedImm(value: int, half: int, alignment: int): (r: Result<int, EncodeError>)
    requires half > 0 && alignment > 0
    ensures r.Ok? ==> 0 <= r.value < 2 * half
  {
    if !(-half <= value <= half - 1) then Err(ImmediateOutOfRange)
    else if value % alignment != 0 then Err(ImmediateMisaligned)
    else Ok(value % (2 * half))
  }

  function IFormat(imm12: int, rs1: Reg, funct3: int, rd: Reg, opcode: int): (w: Word)
    requires 0 <= imm12 < 0x1000 && 0 <= funct3 < 8 && 0 <= opcode < 128
  {
    imm12 * 0x10_0000 + rs1 * 0x8000 + funct3 * 0x1000 + rd * 0x80 + opcode
  }

  function EncodeAdd(rd: int, rs1: int, rs2: int): Result<Word, EncodeError> {
    var d :- CheckReg(rd);
    var a :- CheckReg(rs1);
    var b :- CheckReg(rs2);
    Ok(Pack(0, b, a, 0, d, OP_R))
  }

  /** ADDI, LW and JALR differ only in funct3 and opcode. */
  function EncodeI(rd: int, rs1: int, imm: int, funct3: int, opcode: int): Result<Word, EncodeError>
    requires 0 <= funct3 < 8 && 0 <= opcode < 128
  {
    var d :- CheckReg(rd);
    var a :- CheckReg(rs1);
    var imm12 :- SignedImm(imm, 0x800, 1);
    Ok(IFormat(imm12, a, funct3, d, opcode))
  }

  function EncodeSw(rs2: int, rs1: int, imm: int): Result<Word, EncodeError> {
    var a :- CheckReg(rs1);
    var b :- CheckReg(rs2);
    var imm12 :- SignedImm(imm, 0x800, 1);
    Ok(Pack(imm12 / 32 % 128, b, a, 2, imm12 % 32, OP_STORE))
  }

  /** LUI and AUIPC. */
  function EncodeU(rd: int, imm20: int, opcode: int): Result<Word, EncodeError>
    requires 0 <= opcode < 128
  {
    var d :- CheckReg(rd);
    if !(0 <= imm20 <= 0xFFFFF) then Err(ImmediateOutOfRange)
    else Ok(imm20 * 0x1000 + d * 0x80 + opcode)
  }

  function EncodeJal(rd: int, offset: int): Result<Word, EncodeError> {
    var d :- CheckReg(rd);
    var imm21 :- SignedImm(offset, 0x10_0000, 2);
    var bit20 := imm21 / 0x10_0000 % 2;
    var bits10To1 := imm21 / 2 % 0x400;
    var bit11 := imm21 / 0x800 % 2;
    var bits19To12 := imm21 / 0x1000 % 0x100;
    Ok(JumpPack(bit20, bits10To1, bit11, bits19To12, d))
  }

  function JumpPack(bit20: int, bits10To1: int, bit11: int, bits19To12: int, rd: Reg): (w: Word)
    requires 0 <= bit20 < 2 && 0 <= bits10To1 < 0x400 && 0 <= bit11 < 2 && 0 <= bits19To12 < 0x100
  {
    bit20 * 0x8000_0000 + bits10To1 * 0x20_0000 + bit11 * 0x10_0000 + bits19To12 * 0x1000
    + rd * 0x80 + OP_JAL
  }

  function EncodeBranch(rs1: int, rs2: int, offset: int, funct3: int): Result<Word, EncodeError>
    requires 0 <= funct3 < 8
  {
    var a :- CheckReg(rs1);
    var b :- CheckReg(rs2);
    var imm13 :- SignedImm(offset, 0x1000, 2);
    var bit12 := imm13 / 0x1000 % 2;
    var bit11 := imm13 / 0x800 % 2;
    var bits10To5 := imm13 / 32 % 64;
    var bits4To1 := imm13 / 2 % 16;
    Ok(BranchPack(bit12, bit11, bits10To5, bits4To1, a, b, funct3))
  }

  function BranchPack(bit12: int, bit11: int, bits10To5: int, bits4To1: int,
                      rs1: Reg, rs2: Reg, funct3: int): (w: Word)
    requires 0 <= bit12 < 2 && 0 <= bit11 < 2 && 0 <= bits10To5 < 64 && 0 <= bits4To1 < 16
    requires 0 <= funct3 < 8
  {
    bit12 * 0x8000_0000 + bits10To5 * 0x200_0000 + rs2 * 0x10_0000 + rs1 * 0x8000
    + funct3 * 0x1000 + bits4To1 * 0x100 + bit11 * 0x80 + OP_BRANCH
  }

  datatype Condition = Eq | Ne | Lt | Ge | Ltu | Geu

  function ConditionFunct3(c: Condition): (f: int)
    ensures 0 <= f < 8
  {
    match c
    case Eq => 0
    case Ne => 1
    case Lt => 4
    case Ge => 5
    case Ltu => 6
    case Geu => 7
  }

  /** Assembly syntax of the supported subset, operands unchecked. */
  datatype Instr =
    | Add(rd: int, rs1: int, rs2: int)
    | Addi(rd: int, rs1: int, imm: int)
    | Lw(rd: int, rs1: int, imm: int)
    | Sw(rs2: int, rs1: int, imm: int)
    | Lui(rd: int, imm20: int)
    | Auipc(rd: int, imm20: int)
    | Jal(rd: int, offset: int)
    | Jalr(rd: int, rs1: int, imm: int)
    | Branch(cond: Condition, rs1: int, rs2: int, offset: int)

  function Encode(i: Instr): Result<Word, EncodeError> {
    match i
    case Add(rd, rs1, rs2) => EncodeAdd(rd, rs1, rs2)
    case Addi(rd, rs1, imm) => EncodeI(rd, rs1, imm, 0, OP_IMM)
    case Lw(rd, rs1, imm) => EncodeI(rd, rs1, imm, 2, OP_LOAD)
    case Sw(rs2, rs1, imm) => EncodeSw(rs2, rs1, imm)
    case Lui(rd, imm20) => EncodeU(rd, imm20, OP_LUI)
    case Auipc(rd, imm20) => EncodeU(rd, imm20, OP_AUIPC)
    case Jal(rd, offset) => EncodeJal(rd, offset)
    case Jalr(rd, rs1, imm) => EncodeI(rd, rs1, imm, 0, OP_JALR)
    case Branch(c, rs1, rs2, offset) => EncodeBranch(rs1, rs2, offset, ConditionFunct3(c))
  }

  predicate IsReg(r: int) {
    0 <= r < 32
  }

  /** The operand ranges of sections 2.2 and 2.3 of the RISC-V unprivileged ISA. */
  predicate Legal(i: Instr) {
    match i
    case Add(rd, rs1, rs2) => IsReg(rd) && IsReg(rs1) && IsReg(rs2)
    case Addi(rd, rs1, imm) => IsReg(rd) && IsReg(rs1) && -0x800 <= imm < 0x800
    case Lw(rd, rs1, imm) => IsReg(rd) && IsReg(rs1) && -0x800 <= imm < 0x800
    case Sw(rs2, rs1, imm) => IsReg(rs2) && IsReg(rs1) && -0x800 <= imm < 0x800
    case Lui(rd, imm20) => IsReg(rd) && 0 <= imm20 < 0x10_0000
    case Auipc(rd, imm20) => IsReg(rd) && 0 <= imm20 < 0x10_0000
    case Jal(rd, offset) => IsReg(rd) && -0x10_0000 <= offset < 0x10_0000 && offset % 2 == 0
    case Jalr(rd, rs1, imm) => IsReg(rd) && IsReg(rs1) && -0x800 <= imm < 0x800
    case Branch(_, rs1, rs2, offset) =>
      IsReg(rs1) && IsReg(rs2) && -0x1000 <= offset < 0x1000 && offset % 2 == 0
  }

  // ---------------------------------------------------------------------
  // Decoder
  // ---------------------------------------------------------------------

  function SignExtend(value: int, half: int): int
    requires half > 0
  {
    var v := value % (2 * half);
    if v >= half then v - 2 * half else v
  }

  function DecodeIImm(w: Word): int {
    SignExtend(w / 0x10_0000, 0x800)
  }

  function DecodeSImm(w: Word): int {
    SignExtend(w / 0x200_0000 % 128 * 32 + w / 0x80 % 32, 0x800)
  }

  function DecodeBImm(w: Word): int {
    SignExtend(GatherBranch(w / 0x8000_0000 % 2, w / 0x80 % 2, w / 0x200_0000 % 64, w / 0x100 % 16), 0x1000)
  }

  function GatherBranch(bit12: int, bit11: int, bits10To5: int, bits4To1: int): int {
    bit12 * 0x1000 + bit11 * 0x800 + bits10To5 * 32 + bits4To1 * 2
  }

  function DecodeUImm(w: Word): int {
    w - w % 0x1000
  }

  function DecodeJImm(w: Word): int {
    SignExtend(GatherJump(w / 0x8000_0000 % 2, w / 0x1000 % 0x100, w / 0x10_0000 % 2, w / 0x20_0000 % 0x400),
               0x10_0000)
  }

  function GatherJump(bit20: int, bits19To12: int, bit11: int, bits10To1: int): int {
    bit20 * 0x10_0000 + bits19To12 * 0x1000 + bit11 * 0x800 + bits10To1 * 2
  }

  function BranchMnemonic(funct3: int): Option<Mnemonic> {
    if funct3 == 0 then Some(BEQ)
    else if funct3 == 1 then Some(BNE)
    else if funct3 == 4 then Some(BLT)
    else if funct3 == 5 then Some(BGE)
    else if funct3 == 6 then Some(BLTU)
    else if funct3 == 7 then Some(BGEU)
    else None
  }

  /** Every bit field an instruction word can have, whatever its format. */
  datatype Fields = Fields(
    opcode: int, rd: Reg, funct3: int, rs1: Reg, rs2: Reg, funct7: int,
    immI: int, immS: int, immB: int, immU: int, immJ: int)

  function FieldsOf(w: Word): Fields {
    Fields(w % 128, w / 0x80 % 32, w / 0x1000 % 8, w / 0x8000 % 32, w / 0x10_0000 % 32, w / 0x200_0000 % 128,
           DecodeIImm(w), DecodeSImm(w), DecodeBImm(w), DecodeUImm(w), DecodeJImm(w))
  }

  function DecodeFields(f: Fields): (d: Option<Decoded>) {
    if f.opcode == OP_R then
      if f.funct3 == 0 && f.funct7 == 0 then
        Some(Decoded(f.opcode, f.rs1, f.rs2, f.rd, true, true, true, ALU_RESULT, RS1_RS2,
                     ADD, f.funct3, f.funct7, None))
      else None
    else if f.opcode == OP_LOAD then
      Some(Decoded(f.opcode, f.rs1, f.rs2, f.rd, true, false, true, MEM_DATA, RS1_ONLY,
                   if f.funct3 == 2 then LW else LOAD, f.funct3, f.funct7, Some(f.immI)))
    else if f.opcode == OP_STORE then
      Some(Decoded(f.opcode, f.rs1, f.rs2, f.rd, true, true, false, NONE, RS1_RS2,
                   if f.funct3 == 2 then SW else STORE, f.funct3, f.funct7, Some(f.immS)))
    else if f.opcode == OP_IMM then
      if f.funct3 == 0 then
        Some(Decoded(f.opcode, f.rs1, f.rs2, f.rd, true, false, true, ALU_RESULT, RS1_ONLY,
                     ADDI, f.funct3, f.funct7, Some(f.immI)))
      else None
    else if f.opcode == OP_BRANCH then
      var m := BranchMnemonic(f.funct3);
      if m.None? then None
      else Some(Decoded(f.opcode, f.rs1, f.rs2, f.rd, true, true, false, NONE, RS1_RS2,
                        m.value, f.funct3, f.funct7, Some(f.immB)))
    else if f.opcode == OP_JAL then
      Some(Decoded(f.opcode, f.rs1, f.rs2, f.rd, false, false, true, PC_PLUS_4, NO_GPR_SOURCE,
                   JAL, f.funct3, f.funct7, Some(f.immJ)))
    else if f.opcode == OP_JALR then
      if f.funct3 != 0 then None
      else Some(Decoded(f.opcode, f.rs1, f.rs2, f.rd, true, false, true, PC_PLUS_4, RS1_ONLY,
                        JALR, f.funct3, f.funct7, Some(f.immI)))
    else if f.opcode == OP_LUI then
      Some(Decoded(f.opcode, f.rs1, f.rs2, f.rd, false, false, true, IMM, NO_GPR_SOURCE,
                   LUI, f.funct3, f.funct7, Some(f.immU)))
    else if f.opcode == OP_AUIPC then
      Some(Decoded(f.opcode, f.rs1, f.rs2, f.rd, false, false, true, PC_PLUS_IMM, NO_GPR_SOURCE,
                   AUIPC, f.funct3, f.funct7, Some(f.immU)))
    else None
  }

  function Decode(w: Word): (d: Option<Decoded>) {
    DecodeFields(FieldsOf(w))
  }

  /** The exact timing subset: LOAD and STORE of another width are decoded but not timed. */
  function DecodeChecked(w: Word): (d: Option<Decoded>) {
    var d := Decode(w);
    if d.None? || d.value.mnemonic == LOAD || d.value.mnemonic == STORE then None else d
  }

  /** The assembly syntax a decoded record of the exact subset stands for. */
  function Disassemble(d: Decoded): Instr
    requires d.mnemonic != LOAD && d.mnemonic != STORE
    requires d.mnemonic != ADD ==> d.imm.Some?
  {
    match d.mnemonic
    case ADD => Add(d.rd, d.rs1, d.rs2)
    case ADDI => Addi(d.rd, d.rs1, d.imm.value)
    case LW => Lw(d.rd, d.rs1, d.imm.value)
    case SW => Sw(d.rs2, d.rs1, d.imm.value)
    case LUI => Lui(d.rd, d.imm.value / 0x1000)
    case AUIPC => Auipc(d.rd, d.imm.value / 0x1000)
    case JAL => Jal(d.rd, d.imm.value)
    case JALR => Jalr(d.rd, d.rs1, d.imm.value)
    case BEQ => Branch(Eq, d.rs1, d.rs2, d.imm.value)
    case BNE => Branch(Ne, d.rs1, d.rs2, d.imm.value)
    case BLT => Branch(Lt, d.rs1, d.rs2, d.imm.value)
    case BGE => Branch(Ge, d.rs1, d.rs2, d.imm.value)
    case BLTU => Branch(Ltu, d.rs1, d.rs2, d.imm.value)
    case BGEU => Branch(Geu, d.rs1, d.rs2, d.imm.value)
  }

  /**
   What the hazard model may rely on about a decoded record of the exact
   subset: its flags are those of its mnemonic.
   */
  ghost predicate Exact(d: Decoded) {
    && d.mnemonic != LOAD && d.mnemonic != STORE
    && (d.mnemonic != ADD ==> d.imm.Some?)
    && Legal(Disassemble(d))
    && (d.usesRs1 <==> !d.mnemonic.LUI? && !d.mnemonic.AUIPC? && !d.mnemonic.JAL?)
    && (d.usesRs2 <==> d.mnemonic.ADD? || d.mnemonic.SW? || IsBranch(d.mnemonic))
    && (d.writesRd <==> !d.mnemonic.SW? && !IsBranch(d.mnemonic))
    && (d.producerType == ALU_RESULT <==> d.mnemonic.ADD? || d.mnemonic.ADDI?)
    && (d.producerType == MEM_DATA <==> d.mnemonic.LW?)
    && (d.producerType == PC_PLUS_4 <==> d.mnemonic.JAL? || d.mnemonic.JALR?)
    && (d.producerType == IMM <==> d.mnemonic.LUI?)
    && (d.producerType == PC_PLUS_IMM <==> d.mnemonic.AUIPC?)
    && (d.consumerType == RS1_RS2 <==> d.usesRs2)
    && (d.consumerType == RS1_ONLY <==> d.usesRs1 && !d.usesRs2)
  }

  predicate IsBranch(m: Mnemonic) {
    m.BEQ? || m.BNE? || m.BLT? || m.BGE? || m.BLTU? || m.BGEU?
  }

  predicate IsControl(m: Mnemonic) {
    m.JAL? || m.JALR? || IsBranch(m)
  }
}
