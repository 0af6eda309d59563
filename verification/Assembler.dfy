/**
 The text assembler: words as strings of bits, built by a carry loop and by
 slicing, against the arithmetic encoder.
 */
module BitStrings {

  /** Most significant bit first. */
  type Bits = seq<bool>

  function Pow2(n: nat): (p: nat)
    ensures p >= 1
  {
    if n == 0 then 1 else 2 * Pow2(n - 1)
  }

  function Bit(b: bool): int {
    if b then 1 else 0
  }

  /** What a bit counts n places from the right. */
  function Weight(b: bool, n: nat): nat {
    if b then Pow2(n) else 0
  }

  function Val(s: Bits): (v: nat)
    ensures v < Pow2(|s|)
  {
    if s == [] then 0 else 2 * Val(s[..|s| - 1]) + Bit(s[|s| - 1])
  }

  /** Two's complement: the first bit weighs negatively. */
  function SignedVal(s: Bits): int
    requires s != []
  {
    Val(s[1..]) - Weight(s[0], |s| - 1)
  }

  lemma {:induction false} Concat(a: Bits, b: Bits)
    ensures Val(a + b) == Val(a) * Pow2(|b|) + Val(b)
  {
    hide Val, Pow2;
    if b == [] {
      assert a + b == a;
      Nothing();
    } else {
      var front, last := b[..|b| - 1], b[|b| - 1];
      Concat(a, front);
      assert a + b == a + front + [last] && b == front + [last];
      LastBit(a + front, last);
      LastBit(front, last);
      TwiceAsMuch(|front|);
      Doubled(Val(a), Pow2(|front|));
    }
  }

  lemma LastBit(s: Bits, b: bool)
    ensures Val(s + [b]) == 2 * Val(s) + Bit(b)
  {
    assert (s + [b])[..|s|] == s;
  }

  lemma TwiceAsMuch(n: nat)
    ensures Pow2(n + 1) == 2 * Pow2(n)
  {
  }

  lemma Doubled(x: int, p: int)
    ensures 2 * (x * p) == x * (2 * p)
  {
  }

  lemma Prepend(b: bool, s: Bits)
    ensures Val([b] + s) == Weight(b, |s|) + Val(s)
  {
    hide Pow2;
    Concat([b], s);
    One(b);
  }

  lemma One(b: bool)
    ensures Val([b]) == Bit(b)
  {
    assert [b][..0] == [];
  }

  lemma HeadBit(s: Bits)
    requires s != []
    ensures Val(s) == Weight(s[0], |s| - 1) + Val(s[1..])
    ensures Val(s) == SignedVal(s) + Weight(s[0], |s|)
  {
    Prepend(s[0], s[1..]);
    assert [s[0]] + s[1..] == s;
  }

  /** Python's bin without its prefix: no leading zeros, and one digit for zero. */
  function Bin(n: nat): (s: Bits)
    ensures s != [] && Val(s) == n
  {
    if n < 2 then [n == 1] else Append(Bin(n / 2), n % 2 == 1)
  }

  function Append(s: Bits, b: bool): (t: Bits)
    ensures |t| == |s| + 1 && Val(t) == 2 * Val(s) + Bit(b)
  {
    assert (s + [b])[..|s|] == s;
    s + [b]
  }

  lemma {:induction false} BinLength(n: nat, k: nat)
    requires n < Pow2(k) && k >= 1
    ensures |Bin(n)| <= k
  {
    if n >= 2 {
      BinLength(n / 2, k - 1);
    }
  }

  function Complement(s: Bits): (t: Bits)
    ensures |t| == |s| && forall k | 0 <= k < |s| :: t[k] == !s[k]
  {
    seq(|s|, k requires 0 <= k < |s| => !s[k])
  }

  lemma {:induction false} ComplementVal(s: Bits)
    ensures Val(Complement(s)) == Pow2(|s|) - 1 - Val(s)
  {
    if s != [] {
      ComplementVal(s[..|s| - 1]);
      assert Complement(s)[..|s| - 1] == Complement(s[..|s| - 1]);
    }
  }

  lemma Nothing()
    ensures Val([]) == 0 && Pow2(0) == 1
  {
  }

  /** Invert and add one, with the carry rippling from the right. */
  method NegativeToTwosComplement(s: Bits) returns (r: Bits)
    ensures |r| == |s|
    ensures Val(r) == if Val(s) == 0 then 0 else Pow2(|s|) - Val(s)
  {
    hide Val, Complement;
    var ones := Complement(s);
    ComplementVal(s);
    Nothing();
    r := [];
    var carry := true;
    for k := 0 to |ones|
      invariant |r| == k
      invariant Val(r) + Weight(carry, k) == Val(ones[|ones| - k..]) + 1
    {
      var bit := ones[|ones| - 1 - k];
      Prepend(bit, ones[|ones| - k..]);
      assert [bit] + ones[|ones| - k..] == ones[|ones| - 1 - k..];
      Prepend(true, r);
      Prepend(false, r);
      if carry {
        if !bit {
          r := [true] + r;
          carry := false;
        } else {
          r := [false] + r;
        }
      } else {
        r := [bit] + r;
      }
    }
    assert ones[0..] == ones;
  }

  /** A signed decimal as a sign bit and as many digits as it takes. */
  method Sbin(v: int) returns (s: Bits)
    ensures |s| == |Bin(if v < 0 then -v else v)| + 1 && SignedVal(s) == v
  {
    if v < 0 {
      var magnitude := NegativeToTwosComplement(Bin(-v));
      s := [true] + magnitude;
      assert s[1..] == magnitude;
    } else {
      s := [false] + Bin(v);
      assert s[1..] == Bin(v);
    }
  }

  function Copies(b: bool, n: nat): (s: Bits)
    ensures |s| == n && forall k | 0 <= k < n :: s[k] == b
  {
    seq(n, _ => b)
  }

  /** Sign extension. */
  function Sfill(s: Bits, length: nat): (t: Bits)
    requires s != []
    ensures |t| == if |s| < length then length else |s|
  {
    if |s| < length then Copies(s[0], length - |s|) + s else s
  }

  lemma {:induction false} ExtendOne(s: Bits, n: nat)
    requires s != []
    ensures SignedVal(Copies(s[0], n) + s) == SignedVal(s)
  {
    if n == 0 {
      assert Copies(s[0], 0) + s == s;
    } else {
      hide Val, Pow2;
      ExtendOne(s, n - 1);
      var t := Copies(s[0], n - 1) + s;
      assert Copies(s[0], n) + s == [s[0]] + t && t[0] == s[0];
      assert ([s[0]] + t)[1..] == t;
      HeadBit(t);
    }
  }

  lemma Powers()
    ensures Pow2(1) == 2 && Pow2(3) == 8 && Pow2(4) == 16 && Pow2(5) == 32 && Pow2(6) == 64 && Pow2(7) == 128
    ensures Pow2(8) == 0x100 && Pow2(10) == 0x400 && Pow2(11) == 0x800 && Pow2(12) == 0x1000 && Pow2(13) == 0x2000
    ensures Pow2(19) == 0x8_0000 && Pow2(20) == 0x10_0000 && Pow2(21) == 0x20_0000 && Pow2(25) == 0x200_0000
  {
    assert Pow2(5) == 32;
    assert Pow2(10) == 0x400;
    assert Pow2(15) == 0x8000;
    assert Pow2(20) == 0x10_0000;
  }
}

/** The text assembler over the mnemonics it shares with the arithmetic encoder. */
module TextAssembler {
  import opened Wrappers
  import opened Digits
  import opened Rv32Isa
  import opened Rv32RoundTrip
  import opened BitStrings

  datatype AssemblerError = InvalidRegister | OutOfRange

  /** The assembler's own range: symmetric, so the most negative value is refused. */
  predicate InRange(v: int, length: nat)
    requires length >= 1
  {
    1 - Pow2(length - 1) <= v <= Pow2(length - 1) - 1
  }

  function Rev(s: Bits): (t: Bits)
    ensures |t| == |s| && forall k | 0 <= k < |s| :: t[k] == s[|s| - 1 - k]
  {
    seq(|s|, k requires 0 <= k < |s| => s[|s| - 1 - k])
  }

  /** Slicing the reversed string by bit numbers and reversing back. */
  lemma BitsFromTo(s: Bits, i: nat, j: nat)
    requires i <= j <= |s|
    ensures Rev(Rev(s)[i..j]) == s[|s| - j..|s| - i]
  {
  }

  lemma {:induction false} ZeroesAreZero(n: nat)
    ensures Val(Copies(false, n)) == 0
  {
    if n > 0 {
      ZeroesAreZero(n - 1);
      assert Copies(false, n)[..n - 1] == Copies(false, n - 1);
    }
  }

  /** An unsigned field of fixed width. */
  function Field(n: nat, width: nat): (s: Bits)
    requires n < Pow2(width) && width >= 1
    ensures |s| == width && Val(s) == n
  {
    BinLength(n, width);
    ZeroesAreZero(width - |Bin(n)|);
    Concat(Copies(false, width - |Bin(n)|), Bin(n));
    Copies(false, width - |Bin(n)|) + Bin(n)
  }

  method RegisterField(r: int) returns (s: Result<Bits, AssemblerError>)
    ensures s.Ok? <==> IsReg(r)
    ensures s.Ok? ==> |s.value| == 5 && Val(s.value) == r
  {
    if r < 0 || r > 31 {
      return Err(InvalidRegister);
    }
    Powers();
    s := Ok(Field(r, 5));
  }

  /** A slice from the front, as long as the string allows. */
  function Cut(s: Bits, length: nat): (t: Bits)
    ensures |s| <= length ==> t == s
  {
    if |s| > length then s[..length] else s
  }

  /** A checked immediate, cut to its digits and extended to the width of its field. */
  method ImmediateField(v: int, length: nat, width: nat) returns (s: Result<Bits, AssemblerError>)
    requires 2 <= length <= width
    ensures s.Ok? <==> InRange(v, length)
    ensures s.Ok? ==> |s.value| == width && Val(s.value) == if v < 0 then v + Pow2(width) else v
  {
    hide Val, Pow2, SignedVal;
    if !InRange(v, length) {
      return Err(OutOfRange);
    }
    var digits := Sbin(v);
    BinLength(if v < 0 then -v else v, length - 1);
    assert |digits| <= length;
    var cut := Cut(digits, length);
    SignOf(digits, v);
    ExtendOne(cut, width - |cut|);
    var filled := Sfill(cut, width);
    HeadBit(filled);
    s := Ok(filled);
  }

  /** The first bit of a signed string is the sign. */
  lemma SignOf(s: Bits, v: int)
    requires s != [] && SignedVal(s) == v
    ensures s[0] <==> v < 0
  {
  }

  /** The instruction whose word comes out: jumps and branches drop the lowest bit, upper immediates wrap. */
  function Meant(i: Instr): Instr {
    match i
    case Lui(rd, imm20) => Lui(rd, if imm20 < 0 then imm20 + 0x10_0000 else imm20)
    case Auipc(rd, imm20) => Auipc(rd, if imm20 < 0 then imm20 + 0x10_0000 else imm20)
    case Jal(rd, offset) => Jal(rd, offset - offset % 2)
    case Branch(c, rs1, rs2, offset) => Branch(c, rs1, rs2, offset - offset % 2)
    case _ => i
  }

  /** What the assembler checks before translating. */
  predicate Checked(i: Instr) {
    match i
    case Add(rd, rs1, rs2) => IsReg(rd) && IsReg(rs1) && IsReg(rs2)
    case Addi(rd, rs1, imm) => IsReg(rd) && IsReg(rs1) && InRange(imm, 12)
    case Lw(rd, rs1, imm) => IsReg(rd) && IsReg(rs1) && InRange(imm, 12)
    case Jalr(rd, rs1, imm) => IsReg(rd) && IsReg(rs1) && InRange(imm, 12)
    case Sw(rs2, rs1, imm) => IsReg(rs2) && IsReg(rs1) && InRange(imm, 12)
    case Lui(rd, imm20) => IsReg(rd) && InRange(imm20, 20)
    case Auipc(rd, imm20) => IsReg(rd) && InRange(imm20, 20)
    case Jal(rd, offset) => IsReg(rd) && InRange(offset, 20)
    case Branch(_, rs1, rs2, offset) => IsReg(rs1) && IsReg(rs2) && InRange(offset, 12)
  }

  method AssembleI(rd: int, rs1: int, imm: int, funct3: int, opcode: int) returns (r: Result<Bits, AssemblerError>)
    requires 0 <= funct3 < 8 && 0 <= opcode < 128
    ensures r.Ok? <==> IsReg(rd) && IsReg(rs1) && InRange(imm, 12)
    ensures r.Ok? ==> |r.value| == 32 && EncodeI(rd, rs1, imm, funct3, opcode) == Ok(Val(r.value))
  {
    hide Val, Pow2, InRange;
    Powers();
    RangeOf(imm, 12);
    var d :- RegisterField(rd);
    var a :- RegisterField(rs1);
    var field :- ImmediateField(imm, 12, 12);
    FiveFields(field, a, Field(funct3, 3), d, Field(opcode, 7));
    WrapsTo(imm, 0x1000);
    r := Ok(field + a + Field(funct3, 3) + d + Field(opcode, 7));
  }

  method AssembleR(rd: int, rs1: int, rs2: int) returns (r: Result<Bits, AssemblerError>)
    ensures r.Ok? <==> IsReg(rd) && IsReg(rs1) && IsReg(rs2)
    ensures r.Ok? ==> |r.value| == 32 && EncodeAdd(rd, rs1, rs2) == Ok(Val(r.value))
  {
    hide Val, Pow2;
    Powers();
    var d :- RegisterField(rd);
    var a :- RegisterField(rs1);
    var b :- RegisterField(rs2);
    SixFields(Field(0, 7), b, a, Field(0, 3), d, Field(OP_R, 7));
    r := Ok(Field(0, 7) + b + a + Field(0, 3) + d + Field(OP_R, 7));
  }

  method AssembleU(rd: int, imm20: int, opcode: int) returns (r: Result<Bits, AssemblerError>)
    requires 0 <= opcode < 128
    ensures r.Ok? <==> IsReg(rd) && InRange(imm20, 20)
    ensures r.Ok? ==>
              && |r.value| == 32
              && EncodeU(rd, if imm20 < 0 then imm20 + 0x10_0000 else imm20, opcode) == Ok(Val(r.value))
  {
    hide Val, Pow2, InRange;
    Powers();
    RangeOf(imm20, 20);
    var d :- RegisterField(rd);
    var field :- ImmediateField(imm20, 20, 20);
    Concat(field, d);
    Concat(field + d, Field(opcode, 7));
    r := Ok(field + d + Field(opcode, 7));
  }

  method AssembleS(rs2: int, rs1: int, imm: int) returns (r: Result<Bits, AssemblerError>)
    ensures r.Ok? <==> IsReg(rs2) && IsReg(rs1) && InRange(imm, 12)
    ensures r.Ok? ==> |r.value| == 32 && EncodeSw(rs2, rs1, imm) == Ok(Val(r.value))
  {
    hide Val, Pow2, InRange;
    Powers();
    RangeOf(imm, 12);
    var b :- RegisterField(rs2);
    var a :- RegisterField(rs1);
    var field :- ImmediateField(imm, 12, 12);
    var reversed := Rev(field);
    var high, low := Rev(reversed[5..12]), Rev(reversed[0..5]);
    BitsFromTo(field, 5, 12);
    BitsFromTo(field, 0, 5);
    StoreHalves(field, imm, high, low);
    SixFields(high, b, a, Field(2, 3), low, Field(OP_STORE, 7));
    r := Ok(high + b + a + Field(2, 3) + low + Field(OP_STORE, 7));
  }

  /** The two halves of a store offset are its quotient and remainder by 32. */
  lemma StoreHalves(field: Bits, imm: int, high: Bits, low: Bits)
    requires |field| == 12 && -0x800 < imm < 0x800 && Val(field) == (if imm < 0 then imm + 0x1000 else imm)
    requires high == field[0..7] && low == field[7..12]
    ensures Val(field) == imm % 0x1000 && 0 <= Val(high) < 128 && 0 <= Val(low) < 32
    ensures imm % 0x1000 / 32 % 128 == Val(high) && imm % 0x1000 % 32 == Val(low)
  {
    hide Val, Pow2;
    Powers();
    WrapsTo(imm, 0x1000);
    Concat(high, low);
    assert high + low == field;
    QuotientIs(imm % 0x1000, 32, Val(high), Val(low));
    QuotientIs(Val(high), 128, 0, Val(high));
  }

  lemma FiveFields(a: Bits, b: Bits, c: Bits, d: Bits, e: Bits)
    requires |a| == 12 && |b| == 5 && |c| == 3 && |d| == 5 && |e| == 7
    ensures var s := a + b + c + d + e;
            |s| == 32 && Val(s) == Val(a) * 0x10_0000 + Val(b) * 0x8000 + Val(c) * 0x1000 + Val(d) * 0x80 + Val(e)
  {
    hide Val, Pow2;
    Powers();
    Concat(a, b);
    Concat(a + b, c);
    Concat(a + b + c, d);
    Concat(a + b + c + d, e);
  }

  lemma SixFields(a: Bits, b: Bits, c: Bits, d: Bits, e: Bits, f: Bits)
    requires |a| == 7 && |b| == 5 && |c| == 5 && |d| == 3 && |e| == 5 && |f| == 7
    ensures var s := a + b + c + d + e + f;
            && |s| == 32
            && Val(s) == Val(a) * 0x200_0000 + Val(b) * 0x10_0000 + Val(c) * 0x8000 + Val(d) * 0x1000 + Val(e) * 0x80 + Val(f)
  {
    hide Val, Pow2;
    Powers();
    Concat(a, b);
    Concat(a + b, c);
    Concat(a + b + c, d);
    Concat(a + b + c + d, e);
    Concat(a + b + c + d + e, f);
  }

  method AssembleB(c: Condition, rs1: int, rs2: int, offset: int) returns (r: Result<Bits, AssemblerError>)
    ensures r.Ok? <==> IsReg(rs1) && IsReg(rs2) && InRange(offset, 12)
    ensures r.Ok? ==>
              |r.value| == 32 && EncodeBranch(rs1, rs2, offset - offset % 2, ConditionFunct3(c)) == Ok(Val(r.value))
  {
    hide Val, Pow2, InRange, EncodeBranch;
    Powers();
    RangeOf(offset, 12);
    var a :- RegisterField(rs1);
    var b :- RegisterField(rs2);
    var field :- ImmediateField(offset, 12, 13);
    var reversed := Rev(field);
    var upper := [reversed[12]] + Rev(reversed[5..11]);
    var lower := Rev(reversed[1..5]) + [reversed[11]];
    BitsFromTo(field, 5, 11);
    BitsFromTo(field, 1, 5);
    var f3 := ConditionFunct3(c);
    BranchParts(field, offset, rs1, rs2, f3);
    SixFields(upper, b, a, Field(f3, 3), lower, Field(OP_BRANCH, 7));
    r := Ok(upper + b + a + Field(f3, 3) + lower + Field(OP_BRANCH, 7));
  }

  /** The pieces of a branch offset, as the encoder scatters them. */
  lemma BranchParts(field: Bits, offset: int, rs1: int, rs2: int, f3: int)
    requires |field| == 13 && -0x800 < offset < 0x800 && Val(field) == (if offset < 0 then offset + 0x2000 else offset)
    requires IsReg(rs1) && IsReg(rs2) && 0 <= f3 < 8
    ensures var upper, lower := [field[0]] + field[2..8], field[8..12] + [field[1]];
            EncodeBranch(rs1, rs2, offset - offset % 2, f3)
            == Ok(Val(upper) * 0x200_0000 + rs2 * 0x10_0000 + rs1 * 0x8000 + f3 * 0x1000 + Val(lower) * 0x80 + OP_BRANCH)
  {
    hide Val, Pow2, EncodeBranch, SignExtend;
    Powers();
    var b12, b11, b5, b1, b0 := Bit(field[0]), Bit(field[1]), Val(field[2..8]), Val(field[8..12]), Bit(field[12]);
    assert EncodeBranch(rs1, rs2, offset - offset % 2, f3) == Ok(BranchPack(b12, b11, b5, b1, rs1, rs2, f3)) by {
      BranchDigits(field);
      RoundedBranch(offset, Val(field), b12, b11, b5, b1, b0, rs1, rs2, f3);
    }
    Prepend(field[0], field[2..8]);
    Concat(field[8..12], [field[1]]);
    One(field[1]);
  }

  lemma RoundedBranch(offset: int, value: int, b12: int, b11: int, b5: int, b1: int, b0: int, rs1: Reg, rs2: Reg, f3: int)
    requires -0x800 < offset < 0x800 && value == (if offset < 0 then offset + 0x2000 else offset)
    requires value == GatherBranch(b12, b11, b5, b1) + b0 && 0 <= b0 < 2
    requires 0 <= b12 < 2 && 0 <= b5 < 64 && 0 <= b1 < 16 && 0 <= b11 < 2 && 0 <= f3 < 8
    ensures EncodeBranch(rs1, rs2, offset - offset % 2, f3) == Ok(BranchPack(b12, b11, b5, b1, rs1, rs2, f3))
  {
    hide EncodeBranch, SignExtend, BranchPack, GatherBranch;
    var u := GatherBranch(b12, b11, b5, b1);
    BranchGather(b12, b11, b5, b1);
    EvenPart(offset, value, u, b0, 0x2000);
    SignRoundTrip(offset - offset % 2, 0x1000);
    EncodeGatheredBranch(b12, b11, b5, b1, rs1, rs2, f3);
  }

  lemma BranchDigits(field: Bits)
    requires |field| == 13
    ensures Val(field) == Bit(field[0]) * 0x1000 + Bit(field[1]) * 0x800 + Val(field[2..8]) * 32
                          + Val(field[8..12]) * 2 + Bit(field[12])
    ensures Val(field[2..8]) < 64 && Val(field[8..12]) < 16
  {
    hide Val, Pow2;
    Powers();
    var a, b, c, d, e := [field[0]], [field[1]], field[2..8], field[8..12], [field[12]];
    assert a + b + c + d + e == field;
    Concat(a, b);
    Concat(a + b, c);
    Concat(a + b + c, d);
    Concat(a + b + c + d, e);
    One(field[0]);
    One(field[1]);
    One(field[12]);
  }

  /** Dropping the lowest bit of the field is rounding the offset down to even. */
  lemma EvenPart(offset: int, value: int, u: int, b0: int, space: int)
    requires space == 0x2000 || space == 0x20_0000
    requires -space < 2 * offset < space && value == (if offset < 0 then offset + space else offset)
    requires value == u + b0 && 0 <= b0 < 2 && u % 2 == 0 && u >= 0
    ensures (offset - offset % 2) % space == u
  {
    QuotientIs(value, 2, u / 2, b0);
    QuotientIs(offset, 2, if offset < 0 then u / 2 - space / 2 else u / 2, b0);
    WrapsTo(offset - offset % 2, space);
  }

  method AssembleJ(rd: int, offset: int) returns (r: Result<Bits, AssemblerError>)
    ensures r.Ok? <==> IsReg(rd) && InRange(offset, 20)
    ensures r.Ok? ==> |r.value| == 32 && EncodeJal(rd, offset - offset % 2) == Ok(Val(r.value))
  {
    hide Val, Pow2, InRange, EncodeJal;
    Powers();
    RangeOf(offset, 20);
    var d :- RegisterField(rd);
    var field :- ImmediateField(offset, 20, 21);
    var reversed := Rev(field);
    var imm := [reversed[20]] + Rev(reversed[1..11]) + [reversed[11]] + Rev(reversed[12..20]);
    BitsFromTo(field, 1, 11);
    BitsFromTo(field, 12, 20);
    JumpParts(field, offset, rd);
    Concat(imm, d);
    Concat(imm + d, Field(OP_JAL, 7));
    r := Ok(imm + d + Field(OP_JAL, 7));
  }

  lemma JumpParts(field: Bits, offset: int, rd: int)
    requires |field| == 21 && -0x8_0000 < offset < 0x8_0000
    requires Val(field) == (if offset < 0 then offset + 0x20_0000 else offset) && IsReg(rd)
    ensures var imm := [field[0]] + field[10..20] + [field[9]] + field[1..9];
            EncodeJal(rd, offset - offset % 2) == Ok(Val(imm) * 0x1000 + rd * 0x80 + OP_JAL)
  {
    hide Val, Pow2, EncodeJal, SignExtend;
    Powers();
    var b20, b1, b11, b12, b0 := Bit(field[0]), Val(field[10..20]), Bit(field[9]), Val(field[1..9]), Bit(field[20]);
    assert EncodeJal(rd, offset - offset % 2) == Ok(JumpPack(b20, b1, b11, b12, rd)) by {
      JumpDigits(field);
      RoundedJump(offset, Val(field), b20, b12, b11, b1, b0, rd);
    }
    ScatteredJump(field);
  }

  lemma RoundedJump(offset: int, value: int, b20: int, b12: int, b11: int, b1: int, b0: int, rd: Reg)
    requires -0x8_0000 < offset < 0x8_0000 && value == (if offset < 0 then offset + 0x20_0000 else offset)
    requires value == GatherJump(b20, b12, b11, b1) + b0 && 0 <= b0 < 2
    requires 0 <= b20 < 2 && 0 <= b12 < 0x100 && 0 <= b11 < 2 && 0 <= b1 < 0x400
    ensures EncodeJal(rd, offset - offset % 2) == Ok(JumpPack(b20, b1, b11, b12, rd))
  {
    hide EncodeJal, SignExtend, JumpPack, GatherJump;
    var u := GatherJump(b20, b12, b11, b1);
    JumpGather(b20, b12, b11, b1);
    EvenPart(offset, value, u, b0, 0x20_0000);
    SignRoundTrip(offset - offset % 2, 0x10_0000);
    EncodeGatheredJump(b20, b12, b11, b1, rd);
  }

  lemma JumpDigits(field: Bits)
    requires |field| == 21
    ensures Val(field) == Bit(field[0]) * 0x10_0000 + Val(field[1..9]) * 0x1000 + Bit(field[9]) * 0x800
                          + Val(field[10..20]) * 2 + Bit(field[20])
    ensures Val(field[10..20]) < 0x400 && Val(field[1..9]) < 0x100
  {
    hide Val, Pow2;
    Powers();
    var a, b, c, d, e := [field[0]], field[1..9], [field[9]], field[10..20], [field[20]];
    assert a + b + c + d + e == field;
    Concat(a, b);
    Concat(a + b, c);
    Concat(a + b + c, d);
    Concat(a + b + c + d, e);
    One(field[0]);
    One(field[9]);
    One(field[20]);
  }

  lemma ScatteredJump(field: Bits)
    requires |field| == 21
    ensures Val([field[0]] + field[10..20] + [field[9]] + field[1..9])
         == Bit(field[0]) * 0x8_0000 + Val(field[10..20]) * 0x200 + Bit(field[9]) * 0x100 + Val(field[1..9])
  {
    hide Val, Pow2;
    Powers();
    var a, b, c, d := [field[0]], field[10..20], [field[9]], field[1..9];
    Concat(a, b);
    Concat(a + b, c);
    Concat(a + b + c, d);
    One(field[0]);
    One(field[9]);
  }

  lemma EncodedAsMeant(i: Instr)
    ensures Encode(Meant(i)) ==
            match i
            case Add(rd, rs1, rs2) => EncodeAdd(rd, rs1, rs2)
            case Addi(rd, rs1, imm) => EncodeI(rd, rs1, imm, 0, OP_IMM)
            case Lw(rd, rs1, imm) => EncodeI(rd, rs1, imm, 2, OP_LOAD)
            case Jalr(rd, rs1, imm) => EncodeI(rd, rs1, imm, 0, OP_JALR)
            case Sw(rs2, rs1, imm) => EncodeSw(rs2, rs1, imm)
            case Lui(rd, imm20) => EncodeU(rd, if imm20 < 0 then imm20 + 0x10_0000 else imm20, OP_LUI)
            case Auipc(rd, imm20) => EncodeU(rd, if imm20 < 0 then imm20 + 0x10_0000 else imm20, OP_AUIPC)
            case Jal(rd, offset) => EncodeJal(rd, offset - offset % 2)
            case Branch(c, rs1, rs2, offset) => EncodeBranch(rs1, rs2, offset - offset % 2, ConditionFunct3(c))
  {
    hide EncodeAdd, EncodeI, EncodeSw, EncodeU, EncodeJal, EncodeBranch, ConditionFunct3;
  }

  /** One line of assembly. */
  method TranslateInstruction(i: Instr) returns (r: Result<Bits, AssemblerError>)
    ensures r.Ok? <==> Checked(i)
    ensures r.Ok? ==> |r.value| == 32 && Encode(Meant(i)) == Ok(Val(r.value))
  {
    hide Val, InRange, EncodeAdd, EncodeI, EncodeSw, EncodeU, EncodeJal, EncodeBranch, Encode, Meant, IsReg, ConditionFunct3;
    EncodedAsMeant(i);
    match i
    case Add(rd, rs1, rs2) => r := AssembleR(rd, rs1, rs2);
    case Addi(rd, rs1, imm) => r := AssembleI(rd, rs1, imm, 0, OP_IMM);
    case Lw(rd, rs1, imm) => r := AssembleI(rd, rs1, imm, 2, OP_LOAD);
    case Jalr(rd, rs1, imm) => r := AssembleI(rd, rs1, imm, 0, OP_JALR);
    case Sw(rs2, rs1, imm) => r := AssembleS(rs2, rs1, imm);
    case Lui(rd, imm20) => r := AssembleU(rd, imm20, OP_LUI);
    case Auipc(rd, imm20) => r := AssembleU(rd, imm20, OP_AUIPC);
    case Jal(rd, offset) => r := AssembleJ(rd, offset);
    case Branch(c, rs1, rs2, offset) => r := AssembleB(c, rs1, rs2, offset);
  }

  /** The assembler and the encoder agree exactly on even offsets and non-negative upper immediates. */
  lemma AgreesWithEncoder(i: Instr)
    requires Checked(i)
    ensures Encode(i).Ok? <==> Meant(i) == i
  {
    hide Pow2;
    Powers();
    RangeOf(0, 12);
  }

  lemma WrapsTo(v: int, space: int)
    requires -space < v < space
    ensures v % space == if v < 0 then v + space else v
  {
    QuotientIs(v, space, if v < 0 then -1 else 0, if v < 0 then v + space else v);
  }

  lemma RangeOf(v: int, length: nat)
    requires length >= 1
    ensures InRange(v, length) <==> 0 - Pow2(length - 1) < v < Pow2(length - 1)
  {
  }
}
