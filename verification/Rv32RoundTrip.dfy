/**
 The encoder and the decoder undo each other on the exact subset: every legal
 instruction is recovered from its word, and every word the subset accepts is
 the encoding of the instruction recovered from it.
 */
module Rv32RoundTrip {
  import opened Wrappers
  import opened Digits
  import opened Rv32Isa

  /** The instruction is accepted by the encoder, and its word decodes to it. */
  ghost predicate Recovered(i: Instr) {
    && Encode(i).Ok?
    && DecodeChecked(Encode(i).value).Some?
    && Disassemble(DecodeChecked(Encode(i).value).value) == i
  }

  /** A signed immediate is recovered from its two's-complement field. */
  lemma SignRoundTrip(v: int, half: int)
    requires half > 0 && -half <= v < half
    ensures SignExtend(v % (2 * half), half) == v
  {
    if v >= 0 {
      QuotientIs(v, 2 * half, 0, v);
    } else {
      QuotientIs(v, 2 * half, -1, v + 2 * half);
      QuotientIs(v + 2 * half, 2 * half, 0, v + 2 * half);
    }
  }

  /** A two's-complement field is recovered from the signed immediate it stands for. */
  lemma FieldRoundTrip(u: int, half: int)
    requires half > 0 && 0 <= u < 2 * half
    ensures -half <= SignExtend(u, half) < half
    ensures SignExtend(u, half) % (2 * half) == u
  {
    QuotientIs(u, 2 * half, 0, u);
    if u >= half {
      QuotientIs(u - 2 * half, 2 * half, -1, u);
    }
  }

  /** The fields that every format but U and J has, under an immediate of twelve bits. */
  lemma CommonFields(w: int, high: int, rs1: int, funct3: int, rd: int, opcode: int)
    requires 0 <= rs1 < 32 && 0 <= funct3 < 8 && 0 <= rd < 32 && 0 <= opcode < 128
    requires w == high * 0x10_0000 + rs1 * 0x8000 + funct3 * 0x1000 + rd * 0x80 + opcode
    ensures w % 128 == opcode && w / 0x80 % 32 == rd && w / 0x1000 % 8 == funct3
    ensures w / 0x8000 % 32 == rs1 && w / 0x10_0000 == high
  {
    QuotientIs(w, 128, high * 0x2000 + rs1 * 0x100 + funct3 * 32 + rd, opcode);
    DigitIs(w, 0x80, 32, high * 0x100 + rs1 * 8 + funct3, rd, opcode);
    DigitIs(w, 0x1000, 8, high * 32 + rs1, funct3, rd * 0x80 + opcode);
    DigitIs(w, 0x8000, 32, high, rs1, funct3 * 0x1000 + rd * 0x80 + opcode);
    QuotientIs(w, 0x10_0000, high, rs1 * 0x8000 + funct3 * 0x1000 + rd * 0x80 + opcode);
  }

  /** The seven and five bits above the common fields. */
  lemma HighFields(w: int, funct7: int, rs2: int, low: int)
    requires 0 <= funct7 < 128 && 0 <= rs2 < 32 && 0 <= low < 0x10_0000
    requires w == funct7 * 0x200_0000 + rs2 * 0x10_0000 + low
    ensures w / 0x10_0000 % 32 == rs2 && w / 0x200_0000 % 128 == funct7
  {
    DigitIs(w, 0x10_0000, 32, funct7, rs2, low);
    DigitIs(w, 0x200_0000, 128, 0, funct7, rs2 * 0x10_0000 + low);
  }

  // ---------------------------------------------------------------------
  // Encode, then decode
  // ---------------------------------------------------------------------

  lemma IFields(rd: Reg, rs1: Reg, imm: int, funct3: int, opcode: int)
    requires -0x800 <= imm < 0x800 && 0 <= funct3 < 8 && 0 <= opcode < 128
    ensures var r := EncodeI(rd, rs1, imm, funct3, opcode);
            && r.Ok? && r.value % 128 == opcode && r.value / 0x80 % 32 == rd
            && r.value / 0x1000 % 8 == funct3 && r.value / 0x8000 % 32 == rs1
            && DecodeIImm(r.value) == imm
  {
    SignRoundTrip(imm, 0x800);
    CommonFields(EncodeI(rd, rs1, imm, funct3, opcode).value, imm % 0x1000, rs1, funct3, rd, opcode);
  }

  lemma IRoundTrip(rd: Reg, rs1: Reg, imm: int)
    requires -0x800 <= imm < 0x800
    ensures Recovered(Addi(rd, rs1, imm)) && Recovered(Lw(rd, rs1, imm)) && Recovered(Jalr(rd, rs1, imm))
  {
    IFields(rd, rs1, imm, 0, OP_IMM);
    IFields(rd, rs1, imm, 2, OP_LOAD);
    IFields(rd, rs1, imm, 0, OP_JALR);
  }

  lemma SRoundTrip(rs2: Reg, rs1: Reg, imm: int)
    requires -0x800 <= imm < 0x800
    ensures Recovered(Sw(rs2, rs1, imm))
  {
    SignRoundTrip(imm, 0x800);
    var u := imm % 0x1000;
    StoreWord(u, u / 32, u % 32, rs2, rs1);
    var w := EncodeSw(rs2, rs1, imm).value;
    assert w == Pack(u / 32, rs2, rs1, 2, u % 32, OP_STORE);
    StoreDecodes(w, rs2, rs1, imm);
  }

  lemma StoreDecodes(w: Word, rs2: Reg, rs1: Reg, imm: int)
    requires w % 128 == OP_STORE && w / 0x1000 % 8 == 2
    requires w / 0x8000 % 32 == rs1 && w / 0x10_0000 % 32 == rs2 && DecodeSImm(w) == imm
    ensures DecodeChecked(w).Some? && Disassemble(DecodeChecked(w).value) == Sw(rs2, rs1, imm)
  {
  }

  lemma StoreWord(u: int, hi: int, lo: int, rs2: Reg, rs1: Reg)
    requires 0 <= lo < 32 && 0 <= hi < 128 && u == hi * 32 + lo
    ensures var w := Pack(hi, rs2, rs1, 2, lo, OP_STORE);
            && u / 32 % 128 == hi && u % 32 == lo
            && w % 128 == OP_STORE && w / 0x1000 % 8 == 2 && w / 0x8000 % 32 == rs1
            && w / 0x10_0000 % 32 == rs2 && DecodeSImm(w) == SignExtend(u, 0x800)
  {
    var w := Pack(hi, rs2, rs1, 2, lo, OP_STORE);
    DigitIs(u, 32, 128, 0, hi, lo);
    QuotientIs(u, 32, hi, lo);
    CommonFields(w, hi * 32 + rs2, rs1, 2, lo, OP_STORE);
    HighFields(w, hi, rs2, rs1 * 0x8000 + 2 * 0x1000 + lo * 0x80 + OP_STORE);
  }

  lemma UFields(rd: Reg, imm20: int, opcode: int)
    requires 0 <= imm20 < 0x10_0000 && 0 <= opcode < 128
    ensures var r := EncodeU(rd, imm20, opcode);
            && r.Ok? && r.value % 128 == opcode && r.value / 0x80 % 32 == rd
            && DecodeUImm(r.value) / 0x1000 == imm20
  {
    var w := EncodeU(rd, imm20, opcode).value;
    QuotientIs(w, 128, imm20 * 32 + rd, opcode);
    DigitIs(w, 0x80, 32, imm20, rd, opcode);
    QuotientIs(w, 0x1000, imm20, rd * 0x80 + opcode);
    QuotientIs(imm20 * 0x1000, 0x1000, imm20, 0);
  }

  lemma URoundTrip(rd: Reg, imm20: int)
    requires 0 <= imm20 < 0x10_0000
    ensures Recovered(Lui(rd, imm20)) && Recovered(Auipc(rd, imm20))
  {
    UFields(rd, imm20, OP_LUI);
    UFields(rd, imm20, OP_AUIPC);
  }

  /** A gathered branch immediate and its digits. */
  lemma BranchGather(b12: int, b11: int, b5: int, b1: int)
    requires 0 <= b12 < 2 && 0 <= b5 < 64 && 0 <= b1 < 16 && 0 <= b11 < 2
    ensures var u := GatherBranch(b12, b11, b5, b1);
            && 0 <= u < 0x2000 && u % 2 == 0 && u / 0x1000 % 2 == b12 && u / 0x800 % 2 == b11
            && u / 32 % 64 == b5 && u / 2 % 16 == b1
  {
    var u := GatherBranch(b12, b11, b5, b1);
    DigitIs(u, 0x1000, 2, 0, b12, b11 * 0x800 + b5 * 32 + b1 * 2);
    DigitIs(u, 0x800, 2, b12, b11, b5 * 32 + b1 * 2);
    DigitIs(u, 32, 64, b12 * 2 + b11, b5, b1 * 2);
    DigitIs(u, 2, 16, (b12 * 2 + b11) * 64 + b5, b1, 0);
  }

  /** An even number of thirteen bits is gathered from some digits. */
  lemma BranchScatter(u: int) returns (b12: int, b11: int, b5: int, b1: int)
    requires 0 <= u < 0x2000 && u % 2 == 0
    ensures 0 <= b12 < 2 && 0 <= b5 < 64 && 0 <= b1 < 16 && 0 <= b11 < 2
    ensures u == GatherBranch(b12, b11, b5, b1)
  {
    var q1 := u / 2;
    var q5 := q1 / 16;
    var q11 := q5 / 64;
    b12, b11, b5, b1 := q11 / 2, q11 % 2, q5 % 64, q1 % 16;
  }

  lemma BranchWord(b12: int, b11: int, b5: int, b1: int, rs1: Reg, rs2: Reg, f3: int)
    requires 0 <= b12 < 2 && 0 <= b5 < 64 && 0 <= b1 < 16 && 0 <= b11 < 2 && 0 <= f3 < 8
    ensures var w := BranchPack(b12, b11, b5, b1, rs1, rs2, f3);
            && w % 128 == OP_BRANCH && w / 0x1000 % 8 == f3
            && w / 0x8000 % 32 == rs1 && w / 0x10_0000 % 32 == rs2
            && w / 0x8000_0000 % 2 == b12 && w / 0x80 % 2 == b11
            && w / 0x200_0000 % 64 == b5 && w / 0x100 % 16 == b1
  {
    var w := BranchPack(b12, b11, b5, b1, rs1, rs2, f3);
    var low := rs1 * 0x8000 + f3 * 0x1000 + b1 * 0x100 + b11 * 0x80 + OP_BRANCH;
    CommonFields(w, (b12 * 64 + b5) * 32 + rs2, rs1, f3, b1 * 2 + b11, OP_BRANCH);
    HighFields(w, b12 * 64 + b5, rs2, low);
    DigitIs(w, 0x8000_0000, 2, 0, b12, b5 * 0x200_0000 + rs2 * 0x10_0000 + low);
    DigitIs(w, 0x200_0000, 64, b12, b5, rs2 * 0x10_0000 + low);
    var high := ((b12 * 64 + b5) * 32 + rs2) * 0x100 + rs1 * 8 + f3;
    DigitIs(w, 0x100, 16, high, b1, b11 * 0x80 + OP_BRANCH);
    DigitIs(w, 0x80, 2, high * 16 + b1, b11, OP_BRANCH);
  }

  lemma EvenField(offset: int, half: int)
    requires half > 0 && offset % 2 == 0
    ensures offset % (2 * half) % 2 == 0
  {
    EvenRemainder(offset, offset % (2 * half), offset / (2 * half), half, offset / (2 * half) * half);
  }

  lemma EvenRemainder(offset: int, u: int, k: int, half: int, product: int)
    requires product == k * half && offset % 2 == 0
    requires offset == (2 * half) * k + u
    ensures u % 2 == 0
  {
    assert (2 * half) * k == 2 * product;
  }

  lemma BRoundTrip(c: Condition, rs1: Reg, rs2: Reg, offset: int)
    requires -0x1000 <= offset < 0x1000 && offset % 2 == 0
    ensures Recovered(Branch(c, rs1, rs2, offset))
  {
    SignRoundTrip(offset, 0x1000);
    EvenField(offset, 0x1000);
    var b12, b11, b5, b1 := BranchScatter(offset % 0x2000);
    BranchGather(b12, b11, b5, b1);
    BranchWord(b12, b11, b5, b1, rs1, rs2, ConditionFunct3(c));
  }

  /** A gathered jump immediate and its digits. */
  lemma JumpGather(b20: int, b12: int, b11: int, b1: int)
    requires 0 <= b20 < 2 && 0 <= b12 < 0x100 && 0 <= b11 < 2 && 0 <= b1 < 0x400
    ensures var u := GatherJump(b20, b12, b11, b1);
            && 0 <= u < 0x20_0000 && u % 2 == 0 && u / 0x10_0000 % 2 == b20 && u / 0x1000 % 0x100 == b12
            && u / 0x800 % 2 == b11 && u / 2 % 0x400 == b1
  {
    var u := GatherJump(b20, b12, b11, b1);
    DigitIs(u, 0x10_0000, 2, 0, b20, b12 * 0x1000 + b11 * 0x800 + b1 * 2);
    DigitIs(u, 0x1000, 0x100, b20, b12, b11 * 0x800 + b1 * 2);
    DigitIs(u, 0x800, 2, b20 * 0x100 + b12, b11, b1 * 2);
    DigitIs(u, 2, 0x400, (b20 * 0x100 + b12) * 2 + b11, b1, 0);
  }

  /** An even number of twenty-one bits is gathered from some digits. */
  lemma JumpScatter(u: int) returns (b20: int, b12: int, b11: int, b1: int)
    requires 0 <= u < 0x20_0000 && u % 2 == 0
    ensures 0 <= b20 < 2 && 0 <= b12 < 0x100 && 0 <= b11 < 2 && 0 <= b1 < 0x400
    ensures u == GatherJump(b20, b12, b11, b1)
  {
    var q1 := u / 2;
    var q11 := q1 / 0x400;
    var q12 := q11 / 2;
    b20, b12, b11, b1 := q12 / 0x100, q12 % 0x100, q11 % 2, q1 % 0x400;
  }

  lemma JumpWord(b20: int, b1: int, b11: int, b12: int, rd: Reg)
    requires 0 <= b20 < 2 && 0 <= b1 < 0x400 && 0 <= b11 < 2 && 0 <= b12 < 0x100
    ensures var w := JumpPack(b20, b1, b11, b12, rd);
            && w % 128 == OP_JAL && w / 0x80 % 32 == rd
            && w / 0x8000_0000 % 2 == b20 && w / 0x20_0000 % 0x400 == b1
            && w / 0x10_0000 % 2 == b11 && w / 0x1000 % 0x100 == b12
  {
    var w := JumpPack(b20, b1, b11, b12, rd);
    var low := rd * 0x80 + OP_JAL;
    var high := (b20 * 0x400 + b1) * 2 + b11;
    QuotientIs(w, 128, (high * 0x100 + b12) * 32 + rd, OP_JAL);
    DigitIs(w, 0x80, 32, high * 0x100 + b12, rd, OP_JAL);
    DigitIs(w, 0x1000, 0x100, high, b12, low);
    DigitIs(w, 0x10_0000, 2, b20 * 0x400 + b1, b11, b12 * 0x1000 + low);
    DigitIs(w, 0x20_0000, 0x400, b20, b1, b11 * 0x10_0000 + b12 * 0x1000 + low);
    DigitIs(w, 0x8000_0000, 2, 0, b20, b1 * 0x20_0000 + b11 * 0x10_0000 + b12 * 0x1000 + low);
  }

  lemma JRoundTrip(rd: Reg, offset: int)
    requires -0x10_0000 <= offset < 0x10_0000 && offset % 2 == 0
    ensures Recovered(Jal(rd, offset))
  {
    SignRoundTrip(offset, 0x10_0000);
    EvenField(offset, 0x10_0000);
    var b20, b12, b11, b1 := JumpScatter(offset % 0x20_0000);
    JumpGather(b20, b12, b11, b1);
    JumpWord(b20, b1, b11, b12, rd);
  }

  lemma RRoundTrip(rd: Reg, rs1: Reg, rs2: Reg)
    ensures Recovered(Add(rd, rs1, rs2))
  {
    var w := EncodeAdd(rd, rs1, rs2).value;
    CommonFields(w, rs2, rs1, 0, rd, OP_R);
    HighFields(w, 0, rs2, rs1 * 0x8000 + rd * 0x80 + OP_R);
  }

  /**
   The encoder accepts exactly the legal operands, and the decoder recovers the
   mnemonic, the registers and the signed immediate of everything it accepts.
   */
  lemma EncodeDecode(i: Instr)
    ensures Encode(i).Ok? <==> Legal(i)
    ensures Legal(i) ==> Recovered(i)
  {
    if Legal(i) {
      match i
      case Add(rd, rs1, rs2) => RRoundTrip(rd, rs1, rs2);
      case Addi(rd, rs1, imm) => IRoundTrip(rd, rs1, imm);
      case Lw(rd, rs1, imm) => IRoundTrip(rd, rs1, imm);
      case Sw(rs2, rs1, imm) => SRoundTrip(rs2, rs1, imm);
      case Lui(rd, imm20) => URoundTrip(rd, imm20);
      case Auipc(rd, imm20) => URoundTrip(rd, imm20);
      case Jal(rd, offset) => JRoundTrip(rd, offset);
      case Jalr(rd, rs1, imm) => IRoundTrip(rd, rs1, imm);
      case Branch(c, rs1, rs2, offset) => BRoundTrip(c, rs1, rs2, offset);
    }
  }

  // ---------------------------------------------------------------------
  // Decode, then encode
  // ---------------------------------------------------------------------

  /** The common fields of a word make the word. */
  lemma CommonSum(w: int, q7: int, q12: int, q15: int, q20: int)
    requires q7 == w / 0x80 && q12 == q7 / 32 && q15 == q12 / 8 && q20 == q15 / 32
    ensures w / 0x1000 == q12 && w / 0x8000 == q15 && w / 0x10_0000 == q20
    ensures w == q20 * 0x10_0000 + q15 % 32 * 0x8000 + q12 % 8 * 0x1000 + q7 % 32 * 0x80 + w % 128
  {
    QuotientOfQuotient(w, 0x80, 32);
    QuotientOfQuotient(w, 0x1000, 8);
    QuotientOfQuotient(w, 0x8000, 32);
  }

  lemma WordSum(w: Word)
    ensures w == w / 0x10_0000 * 0x10_0000 + w / 0x8000 % 32 * 0x8000 + w / 0x1000 % 8 * 0x1000
                 + w / 0x80 % 32 * 0x80 + w % 128
    ensures 0 <= w / 0x10_0000 < 0x1000
  {
    var q7 := w / 0x80;
    var q12 := q7 / 32;
    var q15 := q12 / 8;
    CommonSum(w, q7, q12, q15, q15 / 32);
  }

  /** The twelve bits above the common fields are funct7 and rs2. */
  lemma HighSum(w: Word)
    ensures 0 <= w / 0x200_0000 < 128 && w / 0x200_0000 % 128 == w / 0x200_0000
    ensures w / 0x10_0000 == w / 0x200_0000 * 32 + w / 0x10_0000 % 32
  {
    QuotientOfQuotient(w, 0x10_0000, 32);
    QuotientIs(w / 0x200_0000, 128, 0, w / 0x200_0000);
  }

  lemma BranchHalves(w: Word)
    ensures w / 0x200_0000 == w / 0x8000_0000 % 2 * 64 + w / 0x200_0000 % 64
    ensures w / 0x80 % 32 == w / 0x100 % 16 * 2 + w / 0x80 % 2
  {
    QuotientOfQuotient(w, 0x200_0000, 64);
    QuotientOfQuotient(w, 0x80, 2);
    var q := w / 0x80;
    DigitIs(q, 1, 32, q / 2 / 16, q / 2 % 16 * 2 + q % 2, 0);
  }

  /** The checked field of a signed immediate is the field it was read from. */
  lemma SignedImmAgain(u: int, half: int, quarter: int)
    requires half == 2 * quarter && quarter > 0 && 0 <= u < 2 * half && u % 2 == 0
    ensures SignedImm(SignExtend(u, half), half, 2) == Ok(u)
    ensures -half <= SignExtend(u, half) < half && SignExtend(u, half) % 2 == 0
  {
    FieldRoundTrip(u, half);
    QuotientIs(u, 2 * half, 0, u);
    var v := SignExtend(u, half);
    assert v == u || v == u - 4 * quarter;
  }

  lemma EncodeGatheredBranch(b12: int, b11: int, b5: int, b1: int, rs1: Reg, rs2: Reg, f3: int)
    requires 0 <= b12 < 2 && 0 <= b5 < 64 && 0 <= b1 < 16 && 0 <= b11 < 2 && 0 <= f3 < 8
    ensures var imm := SignExtend(GatherBranch(b12, b11, b5, b1), 0x1000);
            && -0x1000 <= imm < 0x1000 && imm % 2 == 0
            && EncodeBranch(rs1, rs2, imm, f3) == Ok(BranchPack(b12, b11, b5, b1, rs1, rs2, f3))
  {
    BranchGather(b12, b11, b5, b1);
    SignedImmAgain(GatherBranch(b12, b11, b5, b1), 0x1000, 0x800);
  }

  lemma BranchWordSum(w: Word, b12: int, b11: int, b5: int, b1: int)
    requires w % 128 == OP_BRANCH
    requires b12 == w / 0x8000_0000 % 2 && b11 == w / 0x80 % 2
    requires b5 == w / 0x200_0000 % 64 && b1 == w / 0x100 % 16
    ensures w == BranchPack(b12, b11, b5, b1, w / 0x8000 % 32, w / 0x10_0000 % 32, w / 0x1000 % 8)
  {
    WordSum(w);
    HighSum(w);
    BranchHalves(w);
  }

  lemma BranchWordAgain(w: Word)
    requires w % 128 == OP_BRANCH
    ensures var imm := DecodeBImm(w);
            && -0x1000 <= imm < 0x1000 && imm % 2 == 0
            && EncodeBranch(w / 0x8000 % 32, w / 0x10_0000 % 32, imm, w / 0x1000 % 8) == Ok(w)
  {
    var b12, b11, b5, b1 := w / 0x8000_0000 % 2, w / 0x80 % 2, w / 0x200_0000 % 64, w / 0x100 % 16;
    BranchWordSum(w, b12, b11, b5, b1);
    EncodeGatheredBranch(b12, b11, b5, b1, w / 0x8000 % 32, w / 0x10_0000 % 32, w / 0x1000 % 8);
  }

  lemma JumpQuotients(w: Word, q7: int, q12: int, q20: int, q21: int)
    requires q7 == w / 0x80 && q12 == q7 / 32 && q20 == q12 / 0x100 && q21 == q20 / 2
    ensures w / 0x1000 == q12 && w / 0x10_0000 == q20 && w / 0x20_0000 == q21 && w / 0x8000_0000 == q21 / 0x400
    ensures 0 <= q21 / 0x400 < 2
  {
    QuotientOfQuotient(w, 0x80, 32);
    QuotientOfQuotient(w, 0x1000, 0x100);
    QuotientOfQuotient(w, 0x10_0000, 2);
    QuotientOfQuotient(w, 0x20_0000, 0x400);
  }

  lemma JumpSum(w: Word, q7: int, q12: int, q20: int, q21: int, q31: int)
    requires q7 == w / 0x80 && q12 == q7 / 32 && q20 == q12 / 0x100 && q21 == q20 / 2 && q31 == q21 / 0x400
    requires w % 128 == OP_JAL && 0 <= q31 < 2
    ensures w == JumpPack(q31, q21 % 0x400, q20 % 2, q12 % 0x100, q7 % 32)
  {
  }

  lemma EncodeGatheredJump(b20: int, b12: int, b11: int, b1: int, rd: Reg)
    requires 0 <= b20 < 2 && 0 <= b12 < 0x100 && 0 <= b11 < 2 && 0 <= b1 < 0x400
    ensures var imm := SignExtend(GatherJump(b20, b12, b11, b1), 0x10_0000);
            && -0x10_0000 <= imm < 0x10_0000 && imm % 2 == 0
            && EncodeJal(rd, imm) == Ok(JumpPack(b20, b1, b11, b12, rd))
  {
    JumpGather(b20, b12, b11, b1);
    SignedImmAgain(GatherJump(b20, b12, b11, b1), 0x10_0000, 0x8_0000);
  }

  lemma JumpWordAgain(w: Word)
    requires w % 128 == OP_JAL
    ensures var imm := DecodeJImm(w);
            && -0x10_0000 <= imm < 0x10_0000 && imm % 2 == 0
            && EncodeJal(w / 0x80 % 32, imm) == Ok(w)
  {
    hide EncodeJal, GatherJump, JumpPack, SignExtend;
    var q7 := w / 0x80;
    var q12 := q7 / 32;
    var q20 := q12 / 0x100;
    var q21 := q20 / 2;
    JumpQuotients(w, q7, q12, q20, q21);
    JumpSum(w, q7, q12, q20, q21, q21 / 0x400);
    EncodeGatheredJump(q21 / 0x400, q12 % 0x100, q20 % 2, q21 % 0x400, q7 % 32);
    assert w / 0x8000_0000 % 2 == q21 / 0x400;
    assert DecodeJImm(w) == SignExtend(GatherJump(q21 / 0x400, q12 % 0x100, q20 % 2, q21 % 0x400), 0x10_0000);
  }

  lemma IWordAgain(w: Word)
    ensures var imm := DecodeIImm(w);
            && -0x800 <= imm < 0x800
            && EncodeI(w / 0x80 % 32, w / 0x8000 % 32, imm, w / 0x1000 % 8, w % 128) == Ok(w)
  {
    WordSum(w);
    FieldRoundTrip(w / 0x10_0000, 0x800);
  }

  lemma SWordAgain(w: Word)
    requires w % 128 == OP_STORE && w / 0x1000 % 8 == 2
    ensures var imm := DecodeSImm(w);
            && -0x800 <= imm < 0x800
            && EncodeSw(w / 0x10_0000 % 32, w / 0x8000 % 32, imm) == Ok(w)
  {
    WordSum(w);
    HighSum(w);
    var hi, lo := w / 0x200_0000 % 128, w / 0x80 % 32;
    FieldRoundTrip(hi * 32 + lo, 0x800);
    QuotientIs(hi * 32 + lo, 32, hi, lo);
  }

  lemma UWordAgain(w: Word)
    ensures var imm20 := DecodeUImm(w) / 0x1000;
            && 0 <= imm20 < 0x10_0000 && EncodeU(w / 0x80 % 32, imm20, w % 128) == Ok(w)
  {
    var q := w / 0x1000;
    QuotientIs(q * 0x1000, 0x1000, q, 0);
    QuotientOfQuotient(w, 0x80, 32);
  }

  lemma RWordAgain(w: Word)
    requires w % 128 == OP_R && w / 0x1000 % 8 == 0 && w / 0x200_0000 % 128 == 0
    ensures EncodeAdd(w / 0x80 % 32, w / 0x8000 % 32, w / 0x10_0000 % 32) == Ok(w)
  {
    WordSum(w);
    HighSum(w);
  }

  lemma UpperWords(w: Word)
    requires DecodeChecked(w).Some? && w % 128 in {OP_LUI, OP_AUIPC}
    ensures Encode(Disassemble(DecodeChecked(w).value)) == Ok(w)
  {
    hide DecodeChecked, Disassemble, Encode, EncodeU, DecodeUImm;
    var imm20 := DecodeUImm(w) / 0x1000;
    UWordAgain(w);
    UpperDecodes(w, imm20);
    UpperEncodes(w / 0x80 % 32, imm20);
  }

  lemma UpperEncodes(rd: int, imm20: int)
    ensures Encode(Lui(rd, imm20)) == EncodeU(rd, imm20, OP_LUI)
    ensures Encode(Auipc(rd, imm20)) == EncodeU(rd, imm20, OP_AUIPC)
  {
    hide EncodeU;
  }

  lemma UpperDecodes(w: Word, imm20: int)
    requires w % 128 in {OP_LUI, OP_AUIPC} && imm20 == DecodeUImm(w) / 0x1000
    ensures DecodeChecked(w).Some?
    ensures Disassemble(DecodeChecked(w).value)
         == if w % 128 == OP_LUI then Lui(w / 0x80 % 32, imm20) else Auipc(w / 0x80 % 32, imm20)
  {
  }

  lemma TwoSources(w: Word)
    requires DecodeChecked(w).Some? && w % 128 in {OP_R, OP_STORE, OP_BRANCH}
    ensures Encode(Disassemble(DecodeChecked(w).value)) == Ok(w)
  {
    if w % 128 == OP_R {
      RWordAgain(w);
    } else if w % 128 == OP_STORE {
      SWordAgain(w);
    } else {
      BranchWordAgain(w);
    }
  }

  /** Every word the exact subset accepts is the encoding of what it decodes to. */
  lemma DecodeEncode(w: Word)
    requires DecodeChecked(w).Some?
    ensures Encode(Disassemble(DecodeChecked(w).value)) == Ok(w)
    ensures Legal(Disassemble(DecodeChecked(w).value))
  {
    if w % 128 in {OP_LUI, OP_AUIPC} {
      UpperWords(w);
    } else if w % 128 == OP_JAL {
      JumpWordAgain(w);
    } else if w % 128 in {OP_R, OP_STORE, OP_BRANCH} {
      TwoSources(w);
    } else {
      IWordAgain(w);
    }
    EncodeDecode(Disassemble(DecodeChecked(w).value));
  }

  /** The checked decoder produces only such records. */
  lemma DecodedIsExact(w: Word)
    requires DecodeChecked(w).Some?
    ensures Exact(DecodeChecked(w).value)
  {
    DecodeEncode(w);
    FlagsFollowMnemonic(FieldsOf(w));
  }

  lemma FlagsFollowMnemonic(f: Fields)
    ensures var d := DecodeFields(f);
            d.Some? && d.value.mnemonic !in {LOAD, STORE} && Legal(Disassemble(d.value)) ==> Exact(d.value)
  {
  }

  lemma ExactIsLegal(d: Decoded)
    requires Exact(d)
    ensures d.mnemonic != LOAD && d.mnemonic != STORE && (d.mnemonic != ADD ==> d.imm.Some?)
    ensures Legal(Disassemble(d))
  {
  }

  lemma WriterHasType(d: Decoded)
    requires Exact(d)
    ensures d.writesRd <==> d.producerType != NONE
  {
  }

  /** Links are made by jumps, and no other writer is control flow. */
  lemma TypeSaysControl(d: Decoded)
    requires Exact(d)
    ensures d.producerType == PC_PLUS_4 <==> d.mnemonic.JAL? || d.mnemonic.JALR?
    ensures d.producerType != NONE && d.producerType != PC_PLUS_4 ==> !IsControl(d.mnemonic)
    ensures d.writesRd <==> d.producerType != NONE
  {
  }

  // ---------------------------------------------------------------------
  // One word of every mnemonic, as the instruction listings give them
  // ---------------------------------------------------------------------

  lemma KnownDataWords()
    ensures Encode(Add(3, 1, 2)) == Ok(0x0020_81B3)
    ensures Encode(Addi(1, 2, 5)) == Ok(0x0051_0093)
    ensures Encode(Lw(5, 1, 8)) == Ok(0x0080_A283)
    ensures Encode(Sw(2, 1, 36)) == Ok(0x0220_A223)
  {
  }

  lemma KnownUpperAndJumpWords()
    ensures Encode(Lui(5, 0x12345)) == Ok(0x1234_52B7)
    ensures Encode(Auipc(5, 0x12345)) == Ok(0x1234_5297)
    ensures Encode(Jal(1, 12)) == Ok(0x00C0_00EF)
    ensures Encode(Jalr(1, 2, 12)) == Ok(0x00C1_00E7)
  {
  }

  lemma KnownBranchWords(c: Condition)
    ensures Encode(Branch(c, 1, 2, 8))
         == Ok(match c
               case Eq => 0x0020_8463
               case Ne => 0x0020_9463
               case Lt => 0x0020_C463
               case Ge => 0x0020_D463
               case Ltu => 0x0020_E463
               case Geu => 0x0020_F463)
  {
    hide BranchPack;
    KnownBranch(ConditionFunct3(c));
  }

  lemma KnownBranch(f3: int)
    requires 0 <= f3 < 8
    ensures EncodeBranch(1, 2, 8, f3) == Ok(0x0020_8463 + f3 * 0x1000)
  {
  }

  /** A negative offset sets the sign at the top and bit eleven at the bottom of the word. */
  lemma KnownBackwardBranch()
    ensures Encode(Branch(Geu, 1, 2, -4)) == Ok(0xFE20_FEE3)
  {
  }
}
