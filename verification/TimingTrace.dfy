/**
 Pipeline timing as a function of the executed trace alone: which instruction
 wrote each source last, when each instruction is accepted, and what its
 operands forward from. This is the reference the timing oracles, the
 classifiers and the realization tables are compared with.
 */
module TimingTrace {
  import opened Wrappers
  import opened Rv32Isa

  const REDIRECT_BUBBLES := 2
  const RETIRE_LATENCY := 3

  const FORWARD_RF := 0
  const FORWARD_MEM_WB := 1
  const FORWARD_EX_MEM := 2

  /** One executed instruction and whether it left the sequential path. */
  datatype Slot = Slot(d: Decoded, redirect: bool)

  type Trace = seq<Slot>

  predicate Writes(d: Decoded, r: Reg) {
    d.writesRd && d.rd == r && r != 0
  }

  predicate Reads(d: Decoded, r: Reg) {
    (d.usesRs1 && d.rs1 == r) || (d.usesRs2 && d.rs2 == r)
  }

  /** Records of the exact subset, of which only control flow redirects, and jumps always do. */
  ghost predicate Plausible(tr: Trace) {
    forall k | 0 <= k < |tr| ::
      && Exact(tr[k].d)
      && (tr[k].redirect ==> IsControl(tr[k].d.mnemonic))
      && (tr[k].d.mnemonic.JAL? || tr[k].d.mnemonic.JALR? ==> tr[k].redirect)
  }

  /** The newest instruction before n that writes r. */
  function LastWriter(tr: Trace, n: nat, r: Reg): (p: Option<nat>)
    requires n <= |tr|
    ensures p.Some? ==> p.value < n && Writes(tr[p.value].d, r)
    ensures p.Some? ==> forall k | p.value < k < n :: !Writes(tr[k].d, r)
    ensures p.None? ==> forall k | 0 <= k < n :: !Writes(tr[k].d, r)
  {
    if n == 0 then None
    else if Writes(tr[n - 1].d, r) then Some(n - 1)
    else LastWriter(tr, n - 1, r)
  }

  /** An operand taken straight from the load before it. */
  predicate LoadUse(tr: Trace, n: nat)
    requires n < |tr|
  {
    n > 0 && tr[n - 1].d.producerType == MEM_DATA
    && tr[n - 1].d.writesRd && tr[n - 1].d.rd != 0 && Reads(tr[n].d, tr[n - 1].d.rd)
  }

  /** The first cycle in which instruction n could be accepted. */
  function Candidate(tr: Trace, n: nat): (c: int)
    requires n <= |tr|
    ensures c >= n + 1
    decreases n, 0
  {
    if n == 0 then 1 else Accept(tr, n - 1) + 1 + (if tr[n - 1].redirect then REDIRECT_BUBBLES else 0)
  }

  function Stalls(tr: Trace, n: nat): int
    requires n < |tr|
  {
    if LoadUse(tr, n) then 1 else 0
  }

  function Accept(tr: Trace, n: nat): (c: int)
    requires n < |tr|
    ensures c >= n + 1
    decreases n, 1
  {
    Candidate(tr, n) + Stalls(tr, n)
  }

  /** The producer of one source operand, none for an unused source or x0. */
  function ProducerOf(tr: Trace, n: nat, uses: bool, r: Reg): Option<nat>
    requires n <= |tr|
  {
    if uses && r != 0 then LastWriter(tr, n, r) else None
  }

  function AgeOf(tr: Trace, n: nat, p: Option<nat>): Option<int>
    requires n < |tr| && (p.Some? ==> p.value < n)
  {
    if p.None? then None else Some(Accept(tr, n) - Accept(tr, p.value))
  }

  /** Age 1 is in EX/MEM, age 2 in MEM/WB, anything older in the register file. */
  function ForwardForAge(age: Option<int>): int {
    if age == Some(1) then FORWARD_EX_MEM
    else if age == Some(2) then FORWARD_MEM_WB
    else FORWARD_RF
  }

  function ForwardA(tr: Trace, n: nat): int
    requires n < |tr|
  {
    ForwardForAge(AgeOf(tr, n, ProducerOf(tr, n, tr[n].d.usesRs1, tr[n].d.rs1)))
  }

  function ForwardB(tr: Trace, n: nat): int
    requires n < |tr|
  {
    ForwardForAge(AgeOf(tr, n, ProducerOf(tr, n, tr[n].d.usesRs2, tr[n].d.rs2)))
  }

  // ---------------------------------------------------------------------
  // Closed form and order of acceptance
  // ---------------------------------------------------------------------

  function CountStalls(tr: Trace, n: nat): nat
    requires n <= |tr|
  {
    if n == 0 then 0 else CountStalls(tr, n - 1) + Stalls(tr, n - 1)
  }

  function CountRedirects(tr: Trace, n: nat): nat
    requires n <= |tr|
  {
    if n == 0 then 0 else CountRedirects(tr, n - 1) + (if tr[n - 1].redirect then 1 else 0)
  }

  /** Instruction n is accepted after n others, every stall through it and two bubbles a redirect. */
  lemma {:induction false} AcceptClosedForm(tr: Trace, n: nat)
    requires n < |tr|
    ensures Accept(tr, n) == n + 1 + CountStalls(tr, n + 1) + 2 * CountRedirects(tr, n)
  {
    if n > 0 {
      AcceptClosedForm(tr, n - 1);
    }
  }

  lemma {:induction false} AcceptIncreases(tr: Trace, p: nat, n: nat)
    requires p < n < |tr|
    ensures Accept(tr, n) - Accept(tr, p) >= n - p
  {
    if p < n - 1 {
      AcceptIncreases(tr, p, n - 1);
    }
  }

  // ---------------------------------------------------------------------
  // A trace does not depend on what follows
  // ---------------------------------------------------------------------

  lemma {:induction false} LastWriterPrefix(tr: Trace, more: Trace, n: nat, r: Reg)
    requires n <= |tr| && tr <= more
    ensures LastWriter(tr, n, r) == LastWriter(more, n, r)
  {
    if n > 0 {
      LastWriterPrefix(tr, more, n - 1, r);
    }
  }

  lemma {:induction false} AcceptPrefix(tr: Trace, more: Trace, n: nat)
    requires n < |tr| && tr <= more
    ensures Accept(tr, n) == Accept(more, n)
    ensures Stalls(tr, n) == Stalls(more, n)
  {
    if n > 0 {
      AcceptPrefix(tr, more, n - 1);
    }
  }

  // ---------------------------------------------------------------------
  // Stalls and paths by distance
  // ---------------------------------------------------------------------

  /** Nothing keeps instruction n from following its predecessor at once. */
  predicate NoBubbleBefore(tr: Trace, n: nat)
    requires n < |tr|
  {
    n >= 1 && !tr[n - 1].redirect && !LoadUse(tr, n)
  }

  /** The newest writer of the register stands k instructions before n. */
  predicate WrittenBefore(tr: Trace, n: nat, r: Reg, k: nat)
    requires n < |tr|
  {
    1 <= k <= n && LastWriter(tr, n, r) == Some(n - k)
  }

  /**
   The path of an operand, without counting cycles: 2 is EX/MEM, 1 is MEM/WB and
   0 the register file. A value comes from EX/MEM exactly if the instruction
   before wrote it, no load and no jump; from MEM/WB if that one is a load, or
   if the writer stands one further back and all three follow each other at once.
   */
  lemma PathByDistance(tr: Trace, n: nat, r: Reg)
    requires Plausible(tr) && n < |tr| && r != 0 && Reads(tr[n].d, r)
    ensures var path := ForwardForAge(AgeOf(tr, n, LastWriter(tr, n, r)));
            && path in {0, 1, 2}
            && (path == 2 <==> WrittenBefore(tr, n, r, 1) && tr[n - 1].d.producerType !in {MEM_DATA, PC_PLUS_4})
            && (path == 1 <==>
                  || (WrittenBefore(tr, n, r, 1) && tr[n - 1].d.producerType == MEM_DATA)
                  || (WrittenBefore(tr, n, r, 2) && NoBubbleBefore(tr, n) && NoBubbleBefore(tr, n - 1)))
  {
    hide Plausible, LoadUse;
    var p := LastWriter(tr, n, r);
    if p.Some? {
      AcceptIncreases(tr, p.value, n);
      if p.value == n - 1 {
        FromPrevious(tr, n, r);
      } else if p.value == n - 2 {
        FromBeforePrevious(tr, n, r);
      }
    }
  }

  lemma FromPrevious(tr: Trace, n: nat, r: Reg)
    requires Plausible(tr) && 1 <= n < |tr| && Reads(tr[n].d, r) && WrittenBefore(tr, n, r, 1)
    ensures var t := tr[n - 1].d.producerType;
            Accept(tr, n) - Accept(tr, n - 1) == (if t == MEM_DATA then 2 else if t == PC_PLUS_4 then 3 else 1)
  {
  }

  lemma FromBeforePrevious(tr: Trace, n: nat, r: Reg)
    requires Plausible(tr) && 2 <= n < |tr| && WrittenBefore(tr, n, r, 2)
    ensures Accept(tr, n) - Accept(tr, n - 2) == 2 <==> NoBubbleBefore(tr, n) && NoBubbleBefore(tr, n - 1)
  {
    hide LoadUse, Plausible, LastWriter;
    assert Accept(tr, n) == Accept(tr, n - 1) + 1 + (if tr[n - 1].redirect then 2 else 0) + Stalls(tr, n);
    assert Accept(tr, n - 1) == Accept(tr, n - 2) + 1 + (if tr[n - 2].redirect then 2 else 0) + Stalls(tr, n - 1);
  }

  /** The operands' own paths; an operand that is not read, or reads x0, comes from the register file. */
  lemma OperandPaths(tr: Trace, n: nat)
    requires n < |tr|
    ensures var d := tr[n].d;
            && ForwardA(tr, n) == (if d.usesRs1 && d.rs1 != 0 then ForwardForAge(AgeOf(tr, n, LastWriter(tr, n, d.rs1))) else 0)
            && ForwardB(tr, n) == (if d.usesRs2 && d.rs2 != 0 then ForwardForAge(AgeOf(tr, n, LastWriter(tr, n, d.rs2))) else 0)
  {
  }
}
