/**
 What the hazard bins mean: each of the twenty is hit exactly under a condition
 on the executed trace, told by last writers, producer types and operands.
 */
module Hazards {
  import opened Wrappers
  import opened Rv32Isa
  import opened Rv32RoundTrip
  import opened Execution
  import opened TimingTrace
  import opened L1Coverage
  import opened RealizationTheorem

  /** The operand carries the value that the k-th instruction before n wrote. */
  predicate From(tr: Trace, n: nat, uses: bool, r: Reg, k: nat)
    requires n < |tr|
  {
    uses && r != 0 && 1 <= k <= n && LastWriter(tr, n, r) == Some(n - k)
  }

  predicate Rs1From(tr: Trace, n: nat, k: nat, t: ProducerType)
    requires n < |tr|
  {
    From(tr, n, tr[n].d.usesRs1, tr[n].d.rs1, k) && tr[n - k].d.producerType == t
  }

  predicate Rs2From(tr: Trace, n: nat, k: nat, t: ProducerType)
    requires n < |tr|
  {
    From(tr, n, tr[n].d.usesRs2, tr[n].d.rs2, k) && tr[n - k].d.producerType == t
  }

  /** The two instructions before n both wrote the operand's register. */
  predicate TwiceWritten(tr: Trace, n: nat, uses: bool, r: Reg)
    requires n < |tr|
  {
    From(tr, n, uses, r, 1) && n >= 2 && LastWriter(tr, n - 1, r) == Some(n - 2)
  }

  /** The instruction before n names x0 as its destination, and n reads x0. */
  predicate ReadsDiscarded(tr: Trace, n: nat)
    requires n < |tr|
  {
    n >= 1 && tr[n - 1].d.writesRd && tr[n - 1].d.rd == 0 && Reads(tr[n].d, 0)
  }

  /**
   Instruction n hits the bin. In H20 the field where rs2 would stand names the
   loaded register, though the instruction has no such operand.
   */
  predicate Hazard(b: Bin, tr: Trace, n: nat)
    requires n < |tr|
  {
    var d := tr[n].d;
    match b
    case H01 => Rs1From(tr, n, 1, ALU_RESULT) && !d.usesRs2
    case H02 => Rs2From(tr, n, 1, ALU_RESULT)
    case H03 => Rs1From(tr, n, 2, ALU_RESULT) && !d.usesRs2
    case H04 => Rs2From(tr, n, 2, ALU_RESULT)
    case H05 => From(tr, n, d.usesRs1, d.rs1, 3) || From(tr, n, d.usesRs2, d.rs2, 3)
    case H06 => Rs1From(tr, n, 1, MEM_DATA) && !d.usesRs2
    case H07 => Rs2From(tr, n, 1, MEM_DATA)
    case H08 => Rs1From(tr, n, 2, MEM_DATA) && !d.usesRs2
    case H09 => Rs2From(tr, n, 2, MEM_DATA)
    case H10 =>
      || (Rs1From(tr, n, 1, ALU_RESULT) && Rs2From(tr, n, 2, ALU_RESULT))
      || (Rs1From(tr, n, 2, ALU_RESULT) && Rs2From(tr, n, 1, ALU_RESULT))
    case H11 => Rs1From(tr, n, 1, IMM)
    case H12 => Rs1From(tr, n, 2, IMM)
    case H13 => Rs1From(tr, n, 1, PC_PLUS_IMM)
    case H14 => Rs1From(tr, n, 2, PC_PLUS_IMM)
    case H15 => Rs1From(tr, n, 1, PC_PLUS_4) || Rs2From(tr, n, 1, PC_PLUS_4)
    case H16 => d.mnemonic == SW && Rs2From(tr, n, 1, ALU_RESULT)
    case H17 => TwiceWritten(tr, n, d.usesRs1, d.rs1) || TwiceWritten(tr, n, d.usesRs2, d.rs2)
    case H18 => ReadsDiscarded(tr, n)
    case H19 => ReadsDiscarded(tr, n) && tr[n - 1].d.producerType == MEM_DATA
    case H20 =>
      && n >= 1 && tr[n - 1].d.producerType == MEM_DATA && tr[n - 1].d.rd != 0
      && !d.usesRs2 && d.rs2 == tr[n - 1].d.rd && !(d.usesRs1 && d.rs1 == tr[n - 1].d.rd)
  }

  /** The operands that read the register. */
  function RolesOf(d: Decoded, r: Reg): seq<Role> {
    (if d.usesRs1 && d.rs1 == r then [RS1] else []) + (if d.usesRs2 && d.rs2 == r then [RS2] else [])
  }

  /** The hit of a bin whose hazard instruction n shows: instructions count from one. */
  function HitOn(b: Bin, tr: Trace, n: nat): Hit
    requires n < |tr| && Hazard(b, tr, n)
  {
    var d := tr[n].d;
    match b
    case H02 => Hit(b, n + 1, [n], [RS2])
    case H03 => Hit(b, n + 1, [n - 1], [RS1])
    case H04 => Hit(b, n + 1, [n - 1], [RS2])
    case H05 => Hit(b, n + 1, [n - 2], RolesOf(d, tr[n - 3].d.rd))
    case H07 => Hit(b, n + 1, [n], [RS2])
    case H08 => Hit(b, n + 1, [n - 1], [RS1])
    case H09 => Hit(b, n + 1, [n - 1], [RS2])
    case H10 => Hit(b, n + 1, [n - 1, n], [RS1, RS2])
    case H12 => Hit(b, n + 1, [n - 1], [RS1])
    case H14 => Hit(b, n + 1, [n - 1], [RS1])
    case H15 => Hit(b, n + 1, [n], RolesOf(d, tr[n - 1].d.rd))
    case H16 => Hit(b, n + 1, [n], [RS2])
    case H17 => Hit(b, n + 1, [n - 1, n], RolesOf(d, tr[n - 1].d.rd))
    case H18 => Hit(b, n + 1, [n], RolesOf(d, 0))
    case H19 => Hit(b, n + 1, [n], RolesOf(d, 0))
    case H20 => Hit(b, n + 1, [n], [RAW_RS2_UNUSED])
    case _ => Hit(b, n + 1, [n], [RS1])
  }

  // ---------------------------------------------------------------------
  // Bin by bin
  // ---------------------------------------------------------------------

  /** What the window says of the k-th instruction before n. */
  lemma WindowAt(evs: seq<Event>, tr: Trace, n: nat, k: nat)
    requires Executed(evs, tr) && n < |evs| && 1 <= k <= 3
    ensures |evs| == |tr| && evs[n].d == tr[n].d && evs[n].index == n + 1 && RawAgrees(evs[n])
    ensures k <= n <==> k <= |WindowOf(evs, n)|
    ensures k <= n ==>
              var h := WindowOf(evs, n);
              && h[|h| - k] == evs[n - k] && h[|h| - k].d == tr[n - k].d && h[|h| - k].index == n - k + 1
              && (HasPositive(h, k) <==> tr[n - k].d.writesRd && tr[n - k].d.rd != 0)
              && (HasPositive(h, k) ==> (IsNearest(h, k) <==> LastWriter(tr, n, tr[n - k].d.rd) == Some(n - k)))
  {
    hide Exact, RawAgrees, LastWriter, NearestFrom;
    if k <= n {
      PositiveIsWriter(evs, tr, n, k);
      if tr[n - k].d.rd != 0 {
        NearestIsLastWriter(evs, tr, n, tr[n - k].d.rd);
      }
    }
  }

  /** A last writer is one. */
  lemma LastWrites(tr: Trace, n: nat, r: Reg, k: nat)
    requires n < |tr| && 1 <= k <= n && LastWriter(tr, n, r) == Some(n - k)
    ensures tr[n - k].d.writesRd && tr[n - k].d.rd == r != 0
  {
  }

  lemma OneSourced(evs: seq<Event>, tr: Trace, n: nat)
    requires Executed(evs, tr) && n < |evs|
    ensures |evs| == |tr| && (tr[n].d.consumerType == RS1_ONLY && tr[n].d.usesRs1 <==> tr[n].d.usesRs1 && !tr[n].d.usesRs2)
    ensures tr[n].d.consumerType == RS1_RS2 && tr[n].d.usesRs2 <==> tr[n].d.usesRs2
    ensures tr[n].d.usesRs2 ==> tr[n].d.usesRs1
  {
    hide Legal, Disassemble, RawAgrees;
  }

  lemma Rs1Meaning(b: Bin, evs: seq<Event>, tr: Trace, n: nat, k: nat, t: ProducerType, any: bool)
    requires Executed(evs, tr) && n < |evs| && 1 <= k <= 3
    ensures |evs| == |tr|
    ensures Rs1Hit(b, WindowOf(evs, n), evs[n], k, t, any)
         == if Rs1From(tr, n, k, t) && (any || !tr[n].d.usesRs2) then Some(Hit(b, n + 1, [n - k + 1], [RS1])) else None
  {
    hide Executed, WindowOf, HasPositive, IsNearest, LastWriter, RawAgrees;
    WindowAt(evs, tr, n, k);
    OneSourced(evs, tr, n);
    if Rs1From(tr, n, k, t) {
      LastWrites(tr, n, tr[n].d.rs1, k);
    }
    if k > n {
      BeyondWindow(WindowOf(evs, n), k);
    }
  }

  lemma BeyondWindow(h: History, k: nat)
    requires k > |h|
    ensures !HasPositive(h, k)
  {
  }

  lemma Rs2Meaning(b: Bin, evs: seq<Event>, tr: Trace, n: nat, k: nat, t: ProducerType)
    requires Executed(evs, tr) && n < |evs| && 1 <= k <= 3
    ensures |evs| == |tr|
    ensures Rs2Hit(b, WindowOf(evs, n), evs[n], k, t)
         == if Rs2From(tr, n, k, t) then Some(Hit(b, n + 1, [n - k + 1], [RS2])) else None
  {
    hide Executed, WindowOf, HasPositive, IsNearest, LastWriter, RawAgrees;
    WindowAt(evs, tr, n, k);
    OneSourced(evs, tr, n);
    if Rs2From(tr, n, k, t) {
      LastWrites(tr, n, tr[n].d.rs2, k);
    }
    if k > n {
      BeyondWindow(WindowOf(evs, n), k);
    }
  }

  /** The classifier's answer for one bin is its hazard. */
  ghost predicate Meant(b: Bin, evs: seq<Event>, tr: Trace, n: nat)
    requires n < |evs| == |tr|
  {
    HitFor(b, WindowOf(evs, n), evs[n]) == if Hazard(b, tr, n) then Some(HitOn(b, tr, n)) else None
  }

  lemma OneOperandBins(b: Bin, evs: seq<Event>, tr: Trace, n: nat)
    requires Executed(evs, tr) && n < |evs|
    requires b !in {H05, H10, H15, H16, H17, H18, H19, H20}
    ensures |evs| == |tr| && Meant(b, evs, tr, n)
  {
    hide Executed, WindowOf, Rs1Hit, Rs2Hit, Rs1From, Rs2From, From;
    match b
    case H01 => Rs1Meaning(b, evs, tr, n, 1, ALU_RESULT, false);
    case H02 => Rs2Meaning(b, evs, tr, n, 1, ALU_RESULT);
    case H03 => Rs1Meaning(b, evs, tr, n, 2, ALU_RESULT, false);
    case H04 => Rs2Meaning(b, evs, tr, n, 2, ALU_RESULT);
    case H06 => Rs1Meaning(b, evs, tr, n, 1, MEM_DATA, false);
    case H07 => Rs2Meaning(b, evs, tr, n, 1, MEM_DATA);
    case H08 => Rs1Meaning(b, evs, tr, n, 2, MEM_DATA, false);
    case H09 => Rs2Meaning(b, evs, tr, n, 2, MEM_DATA);
    case H11 => Rs1Meaning(b, evs, tr, n, 1, IMM, true);
    case H12 => Rs1Meaning(b, evs, tr, n, 2, IMM, true);
    case H13 => Rs1Meaning(b, evs, tr, n, 1, PC_PLUS_IMM, true);
    case H14 => Rs1Meaning(b, evs, tr, n, 2, PC_PLUS_IMM, true);
  }

  lemma NearestRoles(evs: seq<Event>, tr: Trace, n: nat, k: nat)
    requires Executed(evs, tr) && n < |evs| && 1 <= k <= 3
    ensures |evs| == |tr|
    ensures HasPositive(WindowOf(evs, n), k) && UsedRoles(evs[n], RdAt(WindowOf(evs, n), k)) != [] && IsNearest(WindowOf(evs, n), k)
       <==> From(tr, n, tr[n].d.usesRs1, tr[n].d.rs1, k) || From(tr, n, tr[n].d.usesRs2, tr[n].d.rs2, k)
    ensures HasPositive(WindowOf(evs, n), k) ==>
              k <= n && UsedRoles(evs[n], RdAt(WindowOf(evs, n), k)) == RolesOf(tr[n].d, tr[n - k].d.rd)
  {
    hide Executed, WindowOf, HasPositive, IsNearest, LastWriter, RawAgrees;
    WindowAt(evs, tr, n, k);
    if k > n {
      BeyondWindow(WindowOf(evs, n), k);
    } else {
      assert |UsedRoles(evs[n], tr[n - k].d.rd)| > 0 <==> Reads(tr[n].d, tr[n - k].d.rd);
      if From(tr, n, tr[n].d.usesRs1, tr[n].d.rs1, k) {
        LastWrites(tr, n, tr[n].d.rs1, k);
      }
      if From(tr, n, tr[n].d.usesRs2, tr[n].d.rs2, k) {
        LastWrites(tr, n, tr[n].d.rs2, k);
      }
    }
  }

  lemma AnyOperandBins(b: Bin, evs: seq<Event>, tr: Trace, n: nat)
    requires Executed(evs, tr) && n < |evs| && (b == H05 || b == H15)
    ensures |evs| == |tr| && Meant(b, evs, tr, n)
  {
    hide Executed, WindowOf, HasPositive, IsNearest, LastWriter, UsedRoles, RolesOf, RawAgrees, From;
    var k := if b == H05 then 3 else 1;
    WindowAt(evs, tr, n, k);
    NearestRoles(evs, tr, n, k);
    FromIsBefore(tr, n, k);
  }

  lemma FromIsBefore(tr: Trace, n: nat, k: nat)
    requires n < |tr|
    ensures From(tr, n, tr[n].d.usesRs1, tr[n].d.rs1, k) || From(tr, n, tr[n].d.usesRs2, tr[n].d.rs2, k) ==> 1 <= k <= n
  {
  }

  lemma DualBin(evs: seq<Event>, tr: Trace, n: nat)
    requires Executed(evs, tr) && n < |evs|
    ensures |evs| == |tr| && Meant(H10, evs, tr, n)
  {
    hide Executed, WindowOf, HasPositive, IsNearest, RawAgrees;
    WindowAt(evs, tr, n, 1);
    WindowAt(evs, tr, n, 2);
    OneSourced(evs, tr, n);
    if n < 1 {
      BeyondWindow(WindowOf(evs, n), 1);
    }
    if n < 2 {
      BeyondWindow(WindowOf(evs, n), 2);
    }
  }

  lemma StoreBin(evs: seq<Event>, tr: Trace, n: nat)
    requires Executed(evs, tr) && n < |evs|
    ensures |evs| == |tr| && Meant(H16, evs, tr, n)
  {
    hide Executed, WindowOf, HasPositive, IsNearest, LastWriter;
    WindowAt(evs, tr, n, 1);
    if n < 1 {
      BeyondWindow(WindowOf(evs, n), 1);
    } else if Rs2From(tr, n, 1, ALU_RESULT) {
      LastWrites(tr, n, tr[n].d.rs2, 1);
    }
  }

  lemma PriorityBin(evs: seq<Event>, tr: Trace, n: nat)
    requires Executed(evs, tr) && n < |evs|
    ensures |evs| == |tr| && Meant(H17, evs, tr, n)
  {
    hide Executed, WindowOf, HasPositive, IsNearest, RawAgrees;
    WindowAt(evs, tr, n, 1);
    WindowAt(evs, tr, n, 2);
    if n < 1 {
      BeyondWindow(WindowOf(evs, n), 1);
    }
    if n < 2 {
      BeyondWindow(WindowOf(evs, n), 2);
    } else {
      assert |UsedRoles(evs[n], tr[n - 1].d.rd)| > 0 <==> Reads(tr[n].d, tr[n - 1].d.rd);
    }
  }

  lemma DiscardedBins(b: Bin, evs: seq<Event>, tr: Trace, n: nat)
    requires Executed(evs, tr) && n < |evs| && (b == H18 || b == H19)
    ensures |evs| == |tr| && Meant(b, evs, tr, n)
  {
    hide Executed, WindowOf, HasPositive, IsNearest, RawAgrees, LastWriter;
    WindowAt(evs, tr, n, 1);
    assert |UsedRoles(evs[n], 0)| > 0 <==> Reads(tr[n].d, 0);
  }

  lemma UnusedFieldBin(evs: seq<Event>, tr: Trace, n: nat)
    requires Executed(evs, tr) && n < |evs|
    ensures |evs| == |tr| && Meant(H20, evs, tr, n)
  {
    hide Executed, WindowOf, HasPositive, IsNearest, LastWriter;
    WindowAt(evs, tr, n, 1);
    if n < 1 {
      BeyondWindow(WindowOf(evs, n), 1);
    } else {
      LoadWrites(evs, tr, n - 1);
    }
  }

  lemma LoadWrites(evs: seq<Event>, tr: Trace, k: nat)
    requires Executed(evs, tr) && k < |evs|
    ensures |evs| == |tr| && (tr[k].d.producerType == MEM_DATA ==> tr[k].d.writesRd)
  {
    hide Legal, Disassemble, RawAgrees;
  }

  lemma BinMeans(b: Bin, evs: seq<Event>, tr: Trace, n: nat)
    requires Executed(evs, tr) && n < |evs|
    ensures |evs| == |tr| && Meant(b, evs, tr, n)
  {
    hide Executed, Meant;
    match b
    case H05 => AnyOperandBins(b, evs, tr, n);
    case H15 => AnyOperandBins(b, evs, tr, n);
    case H10 => DualBin(evs, tr, n);
    case H16 => StoreBin(evs, tr, n);
    case H17 => PriorityBin(evs, tr, n);
    case H18 => DiscardedBins(b, evs, tr, n);
    case H19 => DiscardedBins(b, evs, tr, n);
    case H20 => UnusedFieldBin(evs, tr, n);
    case _ => OneOperandBins(b, evs, tr, n);
  }

  lemma HitNamesItsBin(b: Bin, tr: Trace, n: nat)
    requires n < |tr| && Hazard(b, tr, n)
    ensures HitOn(b, tr, n).bin == b && HitOn(b, tr, n).consumer == n + 1
  {
    hide Hazard;
  }

  lemma {:induction false} HitsOverMean(bins: seq<Bin>, evs: seq<Event>, tr: Trace, n: nat)
    requires Executed(evs, tr) && n < |evs|
    ensures |evs| == |tr|
    ensures forall h :: h in HitsOver(bins, WindowOf(evs, n), evs[n]) <==>
                          h.bin in bins && Hazard(h.bin, tr, n) && h == HitOn(h.bin, tr, n)
  {
    hide Executed, WindowOf, HitFor, Hazard, HitOn;
    SameLength(evs, tr);
    if bins != [] {
      var front, last := bins[..|bins| - 1], bins[|bins| - 1];
      HitsOverMean(front, evs, tr, n);
      BinMeans(last, evs, tr, n);
      if Hazard(last, tr, n) {
        HitNamesItsBin(last, tr, n);
      }
      assert bins == front + [last];
    }
  }

  /**
   What the classifier reports of instruction n of any executed trace: exactly
   the hazards it shows, each with its producers and operands.
   */
  lemma HitsMean(evs: seq<Event>, tr: Trace, n: nat)
    requires Executed(evs, tr) && n < |evs|
    ensures |evs| == |tr|
    ensures forall h :: h in HitsOver(ALL_BINS, WindowOf(evs, n), evs[n]) <==> Hazard(h.bin, tr, n) && h == HitOn(h.bin, tr, n)
  {
    hide Executed, WindowOf, HitsOver, Hazard, HitOn;
    HitsOverMean(ALL_BINS, evs, tr, n);
    EveryBinIsListed();
  }
}
