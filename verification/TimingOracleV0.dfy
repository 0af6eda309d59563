/** The older, distance-based timing oracle, with its two-deep history. */
module TimingOracleV0 {
  import opened Wrappers
  import opened Rv32Isa
  import opened Rv32RoundTrip
  import opened TimingTrace

  datatype Entry = Entry(index: int, d: Decoded)

  /** The newest entry is the last; there are never more than two. */
  type History = seq<Entry>

  const DEPTH := 2

  datatype SourceRole = RoleA | RoleB

  datatype Dependency = Dependency(role: SourceRole, distance: int, producer: Entry)

  datatype Reason = NO_HAZARD | LOAD_D1 | MULTI_FORWARD | LOAD_D2 | ALU_D1 | ALU_D2

  datatype ExpectationV0 = ExpectationV0(
    index: int, mnemonic: Mnemonic, stall: int, forwardA: int, forwardB: int,
    distanceA: Option<int>, distanceB: Option<int>,
    typeA: Option<ProducerType>, typeB: Option<ProducerType>, reason: Reason)

  datatype ErrorV0 = Unsupported | ControlFlowDeferred | ConsumerDeferred | ProducerDeferred | CompositeDeferred

  function NearestWriter(h: History, r: Reg): (distance: Option<nat>)
    ensures distance.Some? ==> 1 <= distance.value <= |h| && r != 0
  {
    if r == 0 then None
    else if |h| >= 1 && Writes(h[|h| - 1].d, r) then Some(1)
    else if |h| >= 2 && Writes(h[|h| - 2].d, r) then Some(2)
    else None
  }

  function DependencyOf(h: History, role: SourceRole, uses: bool, r: Reg): Option<Dependency> {
    var n := NearestWriter(h, r);
    if uses && n.Some? then Some(Dependency(role, n.value, h[|h| - n.value])) else None
  }

  /** In the order they are collected: first RS1, then RS2. */
  function Dependencies(h: History, d: Decoded): (deps: seq<Dependency>)
    ensures |deps| <= 2
  {
    var a, b := DependencyOf(h, RoleA, d.usesRs1, d.rs1), DependencyOf(h, RoleB, d.usesRs2, d.rs2);
    (if a.Some? then [a.value] else []) + (if b.Some? then [b.value] else [])
  }

  predicate IsLoadD1(dep: Dependency) {
    dep.distance == 1 && dep.producer.d.producerType == MEM_DATA
  }

  predicate SupportedProducer(dep: Dependency) {
    dep.producer.d.producerType == ALU_RESULT || dep.producer.d.producerType == MEM_DATA
  }

  function ForwardOf(dep: Dependency): int {
    if dep.producer.d.producerType == ALU_RESULT && dep.distance == 1 then FORWARD_EX_MEM else FORWARD_MEM_WB
  }

  function ReasonOf(deps: seq<Dependency>): Reason
    requires |deps| > 0
  {
    if exists dep | dep in deps :: IsLoadD1(dep) then LOAD_D1
    else if |deps| == 2 && deps[0].producer.index != deps[1].producer.index then MULTI_FORWARD
    else if deps[0].producer.d.producerType == MEM_DATA then LOAD_D2
    else if deps[0].distance == 1 then ALU_D1 else ALU_D2
  }

  /** Why the oracle refuses the instruction, if it does. */
  function Refusal(d: Decoded, deps: seq<Dependency>): Option<ErrorV0> {
    if IsControl(d.mnemonic) then Some(ControlFlowDeferred)
    else if deps == [] then None
    else if d.mnemonic != ADD && d.mnemonic != ADDI then Some(ConsumerDeferred)
    else if exists dep | dep in deps :: !SupportedProducer(dep) then Some(ProducerDeferred)
    else if exists x, y | x in deps && y in deps :: IsLoadD1(x) && x.producer.index != y.producer.index
    then Some(CompositeDeferred)
    else None
  }

  function Timed(index: int, d: Decoded, h: History): ExpectationV0 {
    var deps := Dependencies(h, d);
    var a, b := DependencyOf(h, RoleA, d.usesRs1, d.rs1), DependencyOf(h, RoleB, d.usesRs2, d.rs2);
    var left, right := OperandOf(a), OperandOf(b);
    ExpectationV0(
      index, d.mnemonic, if exists dep | dep in deps :: IsLoadD1(dep) then 1 else 0,
      left.forward, right.forward, left.distance, right.distance, left.producerType, right.producerType,
      if deps == [] then NO_HAZARD else ReasonOf(deps))
  }

  function Push(h: History, e: Entry): (h': History)
    ensures |h| <= DEPTH ==> |h'| <= DEPTH
  {
    if |h| >= DEPTH then h[|h| - DEPTH + 1..] + [e] else h + [e]
  }

  /** The three variables the loop assigns for one operand. */
  datatype Operand = Operand(forward: int, distance: Option<int>, producerType: Option<ProducerType>)

  const Unassigned := Operand(FORWARD_RF, None, None)

  function FromDependency(dep: Dependency): Operand {
    Operand(ForwardOf(dep), Some(dep.distance), Some(dep.producer.d.producerType))
  }

  /** The last dependency of the role decides. */
  function Assigned(deps: seq<Dependency>, role: SourceRole): Operand {
    if deps == [] then Unassigned
    else if deps[|deps| - 1].role == role then FromDependency(deps[|deps| - 1])
    else Assigned(deps[..|deps| - 1], role)
  }

  function OperandOf(dep: Option<Dependency>): Operand {
    if dep.Some? then FromDependency(dep.value) else Unassigned
  }

  lemma AssignedIs(h: History, d: Decoded, deps: seq<Dependency>)
    requires deps == Dependencies(h, d)
    ensures Assigned(deps, RoleA) == OperandOf(DependencyOf(h, RoleA, d.usesRs1, d.rs1))
    ensures Assigned(deps, RoleB) == OperandOf(DependencyOf(h, RoleB, d.usesRs2, d.rs2))
  {
    if |deps| == 2 {
      assert deps[..1] == [deps[0]];
    }
  }

  class Oracle {
    var history: History
    var nextInstructionIndex: int

    constructor ()
      ensures history == [] && nextInstructionIndex == 1
    {
      history := [];
      nextInstructionIndex := 1;
    }

    /** Times one instruction and lets it enter the history; a refused one changes nothing. */
    method Observe(w: Word) returns (r: Result<ExpectationV0, ErrorV0>)
      requires |history| <= DEPTH
      modifies this
      ensures |history| <= DEPTH
      ensures DecodeChecked(w).None? ==> r == Err(Unsupported)
      ensures DecodeChecked(w).Some? ==>
                var d := DecodeChecked(w).value;
                match Refusal(d, Dependencies(old(history), d))
                case Some(x) => r == Err(x)
                case None =>
                  && r == Ok(Timed(old(nextInstructionIndex), d, old(history)))
                  && history == Push(old(history), Entry(old(nextInstructionIndex), d))
                  && nextInstructionIndex == old(nextInstructionIndex) + 1
      ensures r.Err? ==> history == old(history) && nextInstructionIndex == old(nextInstructionIndex)
    {
      hide DecodeChecked;
      var decoded := DecodeChecked(w);
      if decoded.None? {
        return Err(Unsupported);
      }
      r := Resolve(decoded.value);
      if r.Ok? {
        history := Push(history, Entry(nextInstructionIndex, decoded.value));
        nextInstructionIndex := nextInstructionIndex + 1;
      }
    }

    /** The dependency list, its checks, and the loop that assigns forwarding. */
    method Resolve(d: Decoded) returns (r: Result<ExpectationV0, ErrorV0>)
      requires |history| <= DEPTH
      ensures r == match Refusal(d, Dependencies(history, d))
                   case Some(x) => Err(x)
                   case None => Ok(Timed(nextInstructionIndex, d, history))
    {
      hide Refusal, ReasonOf, DependencyOf, FromDependency, Assigned;
      var deps: seq<Dependency> := [];
      var a := DependencyOf(history, RoleA, d.usesRs1, d.rs1);
      if a.Some? {
        deps := deps + [a.value];
      }
      var b := DependencyOf(history, RoleB, d.usesRs2, d.rs2);
      if b.Some? {
        deps := deps + [b.value];
      }
      assert deps == Dependencies(history, d);
      var error, stall := CheckDependencies(d, deps);
      if error.Some? {
        return Err(error.value);
      }
      var left, right := AssignOperands(deps);
      AssignedIs(history, d, deps);
      r := Ok(ExpectationV0(nextInstructionIndex, d.mnemonic, stall, left.forward, right.forward,
                            left.distance, right.distance, left.producerType, right.producerType,
                            if deps == [] then NO_HAZARD else ReasonOf(deps)));
    }
  }

  /** Forwarding, distance and producer type of each operand, one dependency at a time. */
  method AssignOperands(deps: seq<Dependency>) returns (left: Operand, right: Operand)
    ensures left == Assigned(deps, RoleA) && right == Assigned(deps, RoleB)
  {
    left, right := Unassigned, Unassigned;
    for k := 0 to |deps|
      invariant left == Assigned(deps[..k], RoleA) && right == Assigned(deps[..k], RoleB)
    {
      assert deps[..k + 1][..k] == deps[..k];
      var dep := deps[k];
      if dep.role.RoleA? {
        left := FromDependency(dep);
      } else {
        right := FromDependency(dep);
      }
    }
    assert deps[..|deps|] == deps;
  }

  /** Refuses what the oracle does not model, and finds the load-use stall. */
  method CheckDependencies(d: Decoded, deps: seq<Dependency>) returns (error: Option<ErrorV0>, stall: int)
    ensures error == Refusal(d, deps)
    ensures error.None? ==> stall == if exists dep | dep in deps :: IsLoadD1(dep) then 1 else 0
  {
    error, stall := None, 0;
    if IsControl(d.mnemonic) {
      return Some(ControlFlowDeferred), 0;
    }
    if deps == [] {
      return;
    }
    if d.mnemonic != ADD && d.mnemonic != ADDI {
      return Some(ConsumerDeferred), 0;
    }
    if exists dep | dep in deps :: !SupportedProducer(dep) {
      return Some(ProducerDeferred), 0;
    }
    if exists dep | dep in deps :: IsLoadD1(dep) {
      if exists x, y | x in deps && y in deps :: IsLoadD1(x) && x.producer.index != y.producer.index {
        return Some(CompositeDeferred), 0;
      }
      stall := 1;
    }
  }

  // ---------------------------------------------------------------------
  // Against the cycle-accurate timing of the same instructions
  // ---------------------------------------------------------------------

  /** No control flow, numbered from one: what the oracle has accepted. */
  ghost predicate StraightLine(tr: Trace) {
    Plausible(tr) && forall k | 0 <= k < |tr| :: !IsControl(tr[k].d.mnemonic)
  }

  function HistoryOf(tr: Trace, n: nat): (h: History)
    requires n <= |tr|
    ensures |h| == if n < DEPTH then n else DEPTH
  {
    if n == 0 then []
    else if n == 1 then [Entry(1, tr[0].d)]
    else [Entry(n - 1, tr[n - 2].d), Entry(n, tr[n - 1].d)]
  }

  lemma HistorySlides(tr: Trace, n: nat)
    requires n < |tr|
    ensures Push(HistoryOf(tr, n), Entry(n + 1, tr[n].d)) == HistoryOf(tr, n + 1)
  {
  }

  /** The two-deep nearest writer is the last writer at distance at most two. */
  lemma NearestIsLast(tr: Trace, n: nat, r: Reg)
    requires n <= |tr| && r != 0
    ensures NearestWriter(HistoryOf(tr, n), r)
         == match LastWriter(tr, n, r)
            case None => None
            case Some(p) => if n - p <= DEPTH then Some(n - p) else None
  {
  }

  /** The operand comes from a load two back that the instruction between also consumed. */
  predicate SharedLoad(tr: Trace, n: nat, uses: bool, r: Reg)
    requires n < |tr|
  {
    n >= 2 && uses && r != 0 && LastWriter(tr, n, r) == Some(n - 2)
    && tr[n - 2].d.producerType == MEM_DATA && LoadUse(tr, n - 1)
  }

  lemma NoRedirects(tr: Trace, k: nat)
    requires StraightLine(tr) && k < |tr|
    ensures !tr[k].redirect && Exact(tr[k].d)
  {
  }

  /** Acceptance distance at one and two, without redirects. */
  lemma ShortAges(tr: Trace, n: nat)
    requires StraightLine(tr) && n < |tr|
    ensures n >= 1 ==> Accept(tr, n) - Accept(tr, n - 1) == 1 + Stalls(tr, n)
    ensures n >= 2 ==> Accept(tr, n) - Accept(tr, n - 2) == 2 + Stalls(tr, n) + Stalls(tr, n - 1)
  {
    hide Plausible, Exact;
    if n >= 1 {
      NoRedirects(tr, n - 1);
    }
    if n >= 2 {
      NoRedirects(tr, n - 2);
    }
  }

  lemma DependencyMembers(h: History, d: Decoded)
    ensures var a, b := DependencyOf(h, RoleA, d.usesRs1, d.rs1), DependencyOf(h, RoleB, d.usesRs2, d.rs2);
            && (a.Some? ==> a.value in Dependencies(h, d)) && (b.Some? ==> b.value in Dependencies(h, d))
            && forall dep | dep in Dependencies(h, d) :: a == Some(dep) || b == Some(dep)
  {
  }

  /** An accepted instruction that waits for a load takes nothing from anywhere else. */
  lemma AcceptedSources(h: History, d: Decoded, dep: Dependency)
    requires Refusal(d, Dependencies(h, d)).None? && dep in Dependencies(h, d)
    ensures SupportedProducer(dep)
    ensures dep.producer.index == h[|h| - 1].index || Timed(0, d, h).stall == 0
  {
    DependencyMembers(h, d);
  }

  lemma V0StallAgrees(tr: Trace, n: nat)
    requires StraightLine(tr) && n < |tr|
    requires Refusal(tr[n].d, Dependencies(HistoryOf(tr, n), tr[n].d)).None?
    ensures Timed(n + 1, tr[n].d, HistoryOf(tr, n)).stall == Stalls(tr, n)
  {
    hide Plausible, Exact;
    var d, h := tr[n].d, HistoryOf(tr, n);
    var deps := Dependencies(h, d);
    if d.rs1 != 0 {
      NearestIsLast(tr, n, d.rs1);
    }
    if d.rs2 != 0 {
      NearestIsLast(tr, n, d.rs2);
    }
    DependencyMembers(h, d);
  }

  lemma AcceptedDependency(tr: Trace, n: nat, role: SourceRole, uses: bool, r: Reg)
    requires StraightLine(tr) && n < |tr|
    requires role.RoleA? ==> uses == tr[n].d.usesRs1 && r == tr[n].d.rs1
    requires role.RoleB? ==> uses == tr[n].d.usesRs2 && r == tr[n].d.rs2
    requires Refusal(tr[n].d, Dependencies(HistoryOf(tr, n), tr[n].d)).None?
    ensures var dep := DependencyOf(HistoryOf(tr, n), role, uses, r);
            dep.Some? ==> SupportedProducer(dep.value) && (dep.value.distance == 2 ==> Stalls(tr, n) == 0)
  {
    hide Plausible, Exact, Refusal, Dependencies, LoadUse;
    V0StallAgrees(tr, n);
    DependencyMembers(HistoryOf(tr, n), tr[n].d);
    var dep := DependencyOf(HistoryOf(tr, n), role, uses, r);
    if dep.Some? {
      AcceptedSources(HistoryOf(tr, n), tr[n].d, dep.value);
    }
  }

  lemma V0ForwardAgrees(tr: Trace, n: nat, role: SourceRole, uses: bool, r: Reg)
    requires StraightLine(tr) && n < |tr|
    requires role.RoleA? ==> uses == tr[n].d.usesRs1 && r == tr[n].d.rs1
    requires role.RoleB? ==> uses == tr[n].d.usesRs2 && r == tr[n].d.rs2
    requires Refusal(tr[n].d, Dependencies(HistoryOf(tr, n), tr[n].d)).None?
    ensures var v0 := OperandOf(DependencyOf(HistoryOf(tr, n), role, uses, r)).forward;
            var v1 := ForwardForAge(AgeOf(tr, n, ProducerOf(tr, n, uses, r)));
            && (v0 == v1 <==> !SharedLoad(tr, n, uses, r))
            && (SharedLoad(tr, n, uses, r) ==> v0 == FORWARD_MEM_WB && v1 == FORWARD_RF)
  {
    hide StraightLine, Exact, Refusal, Dependencies;
    if uses && r != 0 {
      NearestIsLast(tr, n, r);
      ShortAges(tr, n);
      AcceptedDependency(tr, n, role, uses, r);
      var p := LastWriter(tr, n, r);
      if p.Some? && p.value + 2 < n {
        AcceptIncreases(tr, p.value, n);
      }
    }
  }

  /**
   On every straight-line sequence it accepts, the old oracle agrees with the
   cycle-accurate one on every stall, and on each forwarding path exactly when
   the operand is not a load two back already waited for by the instruction
   between; there the value has reached the register file.
   */
  lemma V0Characterised(tr: Trace, n: nat)
    requires StraightLine(tr) && n < |tr|
    requires Refusal(tr[n].d, Dependencies(HistoryOf(tr, n), tr[n].d)).None?
    ensures var e := Timed(n + 1, tr[n].d, HistoryOf(tr, n));
            && e.stall == Stalls(tr, n)
            && (e.forwardA == ForwardA(tr, n) <==> !SharedLoad(tr, n, tr[n].d.usesRs1, tr[n].d.rs1))
            && (e.forwardB == ForwardB(tr, n) <==> !SharedLoad(tr, n, tr[n].d.usesRs2, tr[n].d.rs2))
  {
    hide StraightLine, Refusal, Dependencies, SharedLoad, AgeOf, ForwardForAge, ForwardOf;
    V0StallAgrees(tr, n);
    V0ForwardAgrees(tr, n, RoleA, tr[n].d.usesRs1, tr[n].d.rs1);
    V0ForwardAgrees(tr, n, RoleB, tr[n].d.usesRs2, tr[n].d.rs2);
  }

  // ---------------------------------------------------------------------
  // What it refuses and what it reports, by the trace
  // ---------------------------------------------------------------------

  /** How far back the operand was written, if at most two instructions. */
  function Near(tr: Trace, n: nat, uses: bool, r: Reg): (k: Option<nat>)
    requires n < |tr|
    ensures k.Some? ==> 1 <= k.value <= 2 && k.value <= n
  {
    if uses && r != 0 && LastWriter(tr, n, r).Some? && n - LastWriter(tr, n, r).value <= 2
    then Some(n - LastWriter(tr, n, r).value) else None
  }

  function NearType(tr: Trace, n: nat, k: Option<nat>): Option<ProducerType>
    requires n < |tr| && (k.Some? ==> k.value <= n)
  {
    if k.Some? then Some(tr[n - k.value].d.producerType) else None
  }

  /** Why instruction n is refused after those before it, if it is. */
  function RefusedAs(tr: Trace, n: nat): Option<ErrorV0>
    requires n < |tr|
  {
    var d := tr[n].d;
    var a, b := Near(tr, n, d.usesRs1, d.rs1), Near(tr, n, d.usesRs2, d.rs2);
    var s, t := NearType(tr, n, a), NearType(tr, n, b);
    if IsControl(d.mnemonic) then Some(ControlFlowDeferred)
    else if a.None? && b.None? then None
    else if d.mnemonic != ADD && d.mnemonic != ADDI then Some(ConsumerDeferred)
    else if !({s, t} <= {None, Some(ALU_RESULT), Some(MEM_DATA)}) then Some(ProducerDeferred)
    else if a.Some? && b.Some? && a != b && tr[n - 1].d.producerType == MEM_DATA then Some(CompositeDeferred)
    else None
  }

  /** The hazard named for an accepted instruction. */
  function ReasonAt(tr: Trace, n: nat): Reason
    requires n < |tr|
  {
    var d := tr[n].d;
    var a, b := Near(tr, n, d.usesRs1, d.rs1), Near(tr, n, d.usesRs2, d.rs2);
    if a.None? && b.None? then NO_HAZARD
    else if LoadUse(tr, n) then LOAD_D1
    else if a.Some? && b.Some? && a != b then MULTI_FORWARD
    else
      var k := if a.Some? then a else b;
      if NearType(tr, n, k) == Some(MEM_DATA) then LOAD_D2
      else if k == Some(1) then ALU_D1 else ALU_D2
  }

  lemma NearDependency(tr: Trace, n: nat, role: SourceRole, uses: bool, r: Reg)
    requires n < |tr|
    ensures var k := Near(tr, n, uses, r);
            DependencyOf(HistoryOf(tr, n), role, uses, r)
            == if k.None? then None else Some(Dependency(role, k.value, Entry(n - k.value + 1, tr[n - k.value].d)))
  {
    if r != 0 {
      NearestIsLast(tr, n, r);
    }
  }

  /** The refusal is that of the trace. */
  lemma RefusalMeans(tr: Trace, n: nat)
    requires n < |tr|
    ensures Refusal(tr[n].d, Dependencies(HistoryOf(tr, n), tr[n].d)) == RefusedAs(tr, n)
  {
    hide DependencyOf, HistoryOf, Near, IsControl;
    var d, h := tr[n].d, HistoryOf(tr, n);
    NearDependency(tr, n, RoleA, d.usesRs1, d.rs1);
    NearDependency(tr, n, RoleB, d.usesRs2, d.rs2);
    DependencyMembers(h, d);
  }

  lemma NearLoadUse(tr: Trace, n: nat)
    requires n < |tr|
    ensures var d := tr[n].d;
            var a, b := Near(tr, n, d.usesRs1, d.rs1), Near(tr, n, d.usesRs2, d.rs2);
            LoadUse(tr, n) <==> (a == Some(1) || b == Some(1)) && tr[n - 1].d.producerType == MEM_DATA
  {
  }

  /** Distances, producer types and the named hazard are those of the trace. */
  ghost predicate Reports(tr: Trace, n: nat, e: ExpectationV0)
    requires n < |tr|
  {
    var d := tr[n].d;
    var a, b := Near(tr, n, d.usesRs1, d.rs1), Near(tr, n, d.usesRs2, d.rs2);
    && e.index == n + 1 && e.mnemonic == d.mnemonic
    && e.distanceA == (if a.Some? then Some(a.value as int) else None) && e.typeA == NearType(tr, n, a)
    && e.distanceB == (if b.Some? then Some(b.value as int) else None) && e.typeB == NearType(tr, n, b)
    && e.reason == ReasonAt(tr, n)
  }

  lemma TimedReports(tr: Trace, n: nat)
    requires n < |tr| && RefusedAs(tr, n).None?
    ensures Reports(tr, n, Timed(n + 1, tr[n].d, HistoryOf(tr, n)))
  {
    hide DependencyOf, HistoryOf, Near, IsControl, LoadUse, ForwardOf;
    var d, h := tr[n].d, HistoryOf(tr, n);
    NearDependency(tr, n, RoleA, d.usesRs1, d.rs1);
    NearDependency(tr, n, RoleB, d.usesRs2, d.rs2);
    DependencyMembers(h, d);
    NearLoadUse(tr, n);
  }

  // ---------------------------------------------------------------------
  // Whole runs of the oracle
  // ---------------------------------------------------------------------

  /** The straight-line trace of a sequence of words. */
  function WordTrace(ws: seq<Word>): (tr: Trace)
    requires forall w | w in ws :: DecodeChecked(w).Some?
    ensures |tr| == |ws| && forall k | 0 <= k < |ws| :: tr[k] == Slot(DecodeChecked(ws[k]).value, false)
  {
    seq(|ws|, k requires 0 <= k < |ws| => Slot(DecodeChecked(ws[k]).value, false))
  }

  /** Every word is decoded, and none is refused after those before it. */
  predicate Accepted(ws: seq<Word>)
    ensures Accepted(ws) ==> forall w | w in ws :: DecodeChecked(w).Some?
  {
    if ws == [] then true
    else
      var front, last := ws[..|ws| - 1], ws[|ws| - 1];
      assert ws == front + [last];
      && Accepted(front) && DecodeChecked(last).Some?
      && var d := DecodeChecked(last).value;
         Refusal(d, Dependencies(HistoryOf(WordTrace(front), |front|), d)).None?
  }

  lemma {:induction false} AcceptedPrefix(ws: seq<Word>, k: nat)
    requires Accepted(ws) && k <= |ws|
    ensures Accepted(ws[..k]) && WordTrace(ws[..k]) == WordTrace(ws)[..k]
    decreases |ws|
  {
    hide DecodeChecked, Refusal, Dependencies;
    if k < |ws| {
      AcceptedPrefix(ws[..|ws| - 1], k);
      assert ws[..|ws| - 1][..k] == ws[..k];
    } else {
      assert ws[..k] == ws;
    }
  }

  /** What was accepted is straight-line, and its history depends on what came before only. */
  lemma AcceptedAt(ws: seq<Word>, k: nat)
    requires Accepted(ws) && k < |ws|
    ensures HistoryOf(WordTrace(ws[..k]), k) == HistoryOf(WordTrace(ws), k)
    ensures var d := WordTrace(ws)[k].d;
            Exact(d) && !IsControl(d.mnemonic) && Refusal(d, Dependencies(HistoryOf(WordTrace(ws), k), d)).None?
  {
    hide DecodeChecked, Dependencies, Exact;
    AcceptedPrefix(ws, k);
    AcceptedPrefix(ws, k + 1);
    assert ws[..k + 1][..k] == ws[..k] && ws[k] in ws;
    DecodedIsExact(ws[k]);
  }

  lemma AcceptedIsStraight(ws: seq<Word>)
    requires Accepted(ws)
    ensures StraightLine(WordTrace(ws))
  {
    hide Accepted, Exact, Refusal, Dependencies, HistoryOf;
    forall k | 0 <= k < |ws|
      ensures Exact(WordTrace(ws)[k].d) && !IsControl(WordTrace(ws)[k].d.mnemonic)
    {
      AcceptedAt(ws, k);
    }
  }

  lemma RefusedPrefix(tr: Trace, more: Trace, n: nat)
    requires tr <= more && n < |tr|
    ensures RefusedAs(tr, n) == RefusedAs(more, n)
  {
    hide LastWriter, IsControl;
    LastWriterPrefix(tr, more, n, tr[n].d.rs1);
    LastWriterPrefix(tr, more, n, tr[n].d.rs2);
  }

  /** A sequence is accepted exactly if every word decodes and none is refused after those before it. */
  lemma {:induction false} AcceptedMeans(ws: seq<Word>)
    requires forall w | w in ws :: DecodeChecked(w).Some?
    ensures Accepted(ws) <==> forall k | 0 <= k < |ws| :: RefusedAs(WordTrace(ws), k).None?
  {
    hide DecodeChecked, Refusal, Dependencies, HistoryOf, RefusedAs;
    if ws != [] {
      var n := |ws| - 1;
      var front, tr := ws[..n], WordTrace(ws);
      AcceptedMeans(front);
      assert WordTrace(front) <= tr;
      RefusalMeans(tr, n);
      SameHistories(tr, n);
      assert WordTrace(front) == tr[..n];
      forall k | 0 <= k < n
        ensures RefusedAs(WordTrace(front), k) == RefusedAs(tr, k)
      {
        RefusedPrefix(WordTrace(front), tr, k);
      }
    }
  }

  /** The old oracle's expectation beside the cycle-accurate timing of the same instruction. */
  ghost predicate V0Agrees(tr: Trace, k: nat, e: ExpectationV0)
    requires k < |tr|
  {
    && Reports(tr, k, e) && e.stall == Stalls(tr, k)
    && (e.forwardA == ForwardA(tr, k) <==> !SharedLoad(tr, k, tr[k].d.usesRs1, tr[k].d.rs1))
    && (e.forwardB == ForwardB(tr, k) <==> !SharedLoad(tr, k, tr[k].d.usesRs2, tr[k].d.rs2))
  }

  ghost predicate EmittedAt(es: seq<ExpectationV0>, tr: Trace, k: nat)
    requires k < |tr| == |es|
  {
    es[k] == Timed(k + 1, tr[k].d, HistoryOf(tr, k))
  }

  /** The expectations of a trace. */
  ghost predicate Emitted(es: seq<ExpectationV0>, tr: Trace) {
    |es| == |tr| && forall k | 0 <= k < |tr| :: EmittedAt(es, tr, k)
  }

  /**
   A fresh oracle over a sequence of words: it refuses exactly sequences that are
   not accepted, and of an accepted one every stall is that of the cycle-accurate
   timing, and every forwarding path unless its operand is a shared load.
   */
  method BuildTimingExpectations(ws: seq<Word>) returns (r: Result<seq<ExpectationV0>, ErrorV0>)
    ensures r.Ok? <==> Accepted(ws)
    ensures r.Ok? ==> |r.value| == |ws| && Emitted(r.value, WordTrace(ws))
    ensures r.Ok? ==> forall k | 0 <= k < |ws| :: V0Agrees(WordTrace(ws), k, r.value[k])
  {
    hide DecodeChecked, Refusal, Dependencies, Timed, V0Agrees, Emitted, HistoryOf, Accepted;
    var oracle := new Oracle();
    var es: seq<ExpectationV0> := [];
    NothingEmitted();
    for k := 0 to |ws|
      invariant Accepted(ws[..k]) && |es| == k && Emitted(es, WordTrace(ws[..k])) && oracle.nextInstructionIndex == k + 1
      invariant oracle.history == HistoryOf(WordTrace(ws[..k]), k)
    {
      var e := oracle.Observe(ws[k]);
      AcceptedSnoc(ws[..k], ws[k]);
      assert ws[..k + 1] == ws[..k] + [ws[k]];
      if e.Err? {
        NotAccepted(ws, k);
        return Err(e.error);
      }
      TraceSnoc(ws[..k], ws[k]);
      EmitsOne(es, WordTrace(ws[..k]), Slot(DecodeChecked(ws[k]).value, false), e.value);
      es := es + [e.value];
    }
    assert ws[..|ws|] == ws;
    forall k | 0 <= k < |ws|
      ensures V0Agrees(WordTrace(ws), k, es[k])
    {
      EmittedAgrees(es, ws, k);
    }
    r := Ok(es);
  }

  lemma NothingEmitted()
    ensures Accepted([]) && Emitted([], WordTrace([])) && HistoryOf(WordTrace([]), 0) == []
  {
  }

  lemma AcceptedSnoc(ws: seq<Word>, w: Word)
    requires Accepted(ws)
    ensures Accepted(ws + [w])
       <==> && DecodeChecked(w).Some?
            && Refusal(DecodeChecked(w).value, Dependencies(HistoryOf(WordTrace(ws), |ws|), DecodeChecked(w).value)).None?
  {
    hide DecodeChecked, Refusal, Dependencies, HistoryOf, WordTrace;
    assert (ws + [w])[..|ws|] == ws;
  }

  lemma TraceSnoc(ws: seq<Word>, w: Word)
    requires (forall x | x in ws :: DecodeChecked(x).Some?) && DecodeChecked(w).Some?
    ensures WordTrace(ws + [w]) == WordTrace(ws) + [Slot(DecodeChecked(w).value, false)]
  {
    hide DecodeChecked;
  }

  lemma EmitsOne(es: seq<ExpectationV0>, tr: Trace, slot: Slot, e: ExpectationV0)
    requires Emitted(es, tr) && e == Timed(|tr| + 1, slot.d, HistoryOf(tr, |tr|))
    ensures Emitted(es + [e], tr + [slot])
    ensures HistoryOf(tr + [slot], |tr| + 1) == Push(HistoryOf(tr, |tr|), Entry(|tr| + 1, slot.d))
  {
    hide Timed, HistoryOf;
    var more := tr + [slot];
    assert more[..|tr|] == tr;
    SameHistories(more, |tr|);
    HistorySlides(more, |tr|);
    forall k | 0 <= k < |more|
      ensures EmittedAt(es + [e], more, k)
    {
      assert k < |tr| ==> EmittedAt(es, tr, k);
    }
  }

  lemma EmittedAgrees(es: seq<ExpectationV0>, ws: seq<Word>, k: nat)
    requires Accepted(ws) && Emitted(es, WordTrace(ws)) && k < |ws|
    ensures V0Agrees(WordTrace(ws), k, es[k])
  {
    hide DecodeChecked, Accepted, Dependencies, Refusal, StraightLine, SharedLoad, Timed, HistoryOf, Reports, RefusedAs;
    assert EmittedAt(es, WordTrace(ws), k);
    AcceptedIsStraight(ws);
    AcceptedAt(ws, k);
    RefusalMeans(WordTrace(ws), k);
    TimedReports(WordTrace(ws), k);
    V0Characterised(WordTrace(ws), k);
  }

  lemma NotAccepted(ws: seq<Word>, k: nat)
    requires k < |ws| && !Accepted(ws[..k + 1])
    ensures !Accepted(ws)
  {
    if Accepted(ws) {
      AcceptedPrefix(ws, k + 1);
    }
  }

  /** Histories up to k do not look at instruction k. */
  lemma SameHistories(tr: Trace, k: nat)
    requires k < |tr|
    ensures forall j | 0 <= j <= k :: HistoryOf(tr, j) == HistoryOf(tr[..k], j)
  {
  }
}
