/**
 What the control checker accepts of any observed control: a hit whose bin is
 realizable passes exactly if stall and forwarding are those of the timing.
 */
module Judgement {
  import opened Wrappers
  import opened Rv32Isa
  import opened Execution
  import opened TimingTrace
  import opened L1Coverage
  import opened RealizationChecker
  import opened RealizationTheorem
  import opened Hazards
  import Join = JoinRuns

  /** Stall and the paths of all matched operands are observed as they are timed; H19 and H20 match no path. */
  predicate ShownAsTimed(hit: Hit, e: Event, tr: Trace, n: nat)
    requires n < |tr|
  {
    && e.stallCycles == Stalls(tr, n)
    && (hit.bin != H19 && hit.bin != H20 ==>
          && (RS1 in hit.sources ==> e.forwardA == ForwardA(tr, n))
          && (RS2 in hit.sources ==> e.forwardB == ForwardB(tr, n)))
  }

  /** The same event with other control. */
  predicate SameButControl(e: Event, e': Event) {
    e'.index == e.index && e'.d == e.d && e'.instruction == e.instruction
  }

  /** The two events show the same of what the hit is checked for. */
  predicate ShowSame(hit: Hit, e: Event, e': Event) {
    && e.stallCycles == e'.stallCycles
    && (hit.bin != H19 && hit.bin != H20 ==>
          && (RS1 in hit.sources ==> e.forwardA == e'.forwardA)
          && (RS2 in hit.sources ==> e.forwardB == e'.forwardB))
  }

  /** The verdict depends on what is shown only, and at most one showing passes. */
  ghost predicate Comparable(hit: Hit, e: Event, events: map<int, Event>, e': Event, events': map<int, Event>) {
    var r, r' := ChecksFor(hit, e, events), ChecksFor(hit, e', events');
    && r.Ok? && r'.Ok?
    && (ShowSame(hit, e, e') ==> (AllPassed(r.value) <==> AllPassed(r'.value)))
    && (AllPassed(r.value) && AllPassed(r'.value) ==> ShowSame(hit, e, e'))
  }

  lemma FixedComparable(hit: Hit, e: Event, events: map<int, Event>, e': Event, events': map<int, Event>, role: Role, path: int)
    requires hit.consumer == e.index && SameButControl(e, e')
    requires FixedForward(hit.bin) == Some((role, path)) && hit.sources == [role] && role != RAW_RS2_UNUSED
    ensures Comparable(hit, e, events, e', events')
  {
    hide ChecksFor;
    OneForwardCheck(hit, e, events, role, path);
    OneForwardCheck(hit, e', events', role, path);
  }

  lemma RolesComparable(hit: Hit, e: Event, events: map<int, Event>, e': Event, events': map<int, Event>, r: Reg, path: int)
    requires hit.consumer == e.index && SameButControl(e, e')
    requires EveryRoleForward(hit.bin) == Some(path) && hit.sources == RolesOf(e.d, r)
    ensures Comparable(hit, e, events, e', events')
  {
    hide ChecksFor;
    EveryRoleCheck(hit, e, events, r, path);
    EveryRoleCheck(hit, e', events', r, path);
  }

  lemma StallComparable(hit: Hit, e: Event, events: map<int, Event>, e': Event, events': map<int, Event>)
    requires hit.consumer == e.index && SameButControl(e, e') && (hit.bin == H19 || hit.bin == H20)
    ensures Comparable(hit, e, events, e', events')
  {
    hide ChecksFor;
    OnlyStallCheck(hit, e, events);
    OnlyStallCheck(hit, e', events');
  }

  /** Of two producers the newer is wanted in EX/MEM, the older in MEM/WB, whichever operand reads which. */
  lemma DualCheckMeans(hit: Hit, e: Event, events: map<int, Event>, newer: Reg, older: Reg)
    requires hit.bin == H10 && hit.consumer == e.index && |hit.producers| == 2
    requires hit.producers[0] in events && events[hit.producers[0]].d.rd == older
    requires hit.producers[1] in events && events[hit.producers[1]].d.rd == newer
    requires e.d.usesRs1 && e.d.usesRs2 && newer != older
    requires (e.d.rs1 == newer && e.d.rs2 == older) || (e.d.rs1 == older && e.d.rs2 == newer)
    ensures ChecksFor(hit, e, events).Ok?
    ensures AllPassed(ChecksFor(hit, e, events).value)
       <==> && e.stallCycles == 0
            && e.forwardA == (if e.d.rs1 == newer then FORWARD_EX_MEM else FORWARD_MEM_WB)
            && e.forwardB == (if e.d.rs2 == newer then FORWARD_EX_MEM else FORWARD_MEM_WB)
  {
    var checks := ChecksFor(hit, e, events).value;
    assert |checks| == 3 && checks[0] in checks && checks[1] in checks && checks[2] in checks;
  }

  lemma {:induction false} DualComparable(evs: seq<Event>, evs': seq<Event>, tr: Trace, n: nat)
    requires Executed(evs, tr) && Executed(evs', tr) && n < |evs| && Hazard(H10, tr, n)
    ensures Comparable(HitOn(H10, tr, n), evs[n], EventTable(evs), evs'[n], EventTable(evs'))
  {
    hide ChecksFor, Exact, RawAgrees, EventTable, LastWriter;
    DualOperands(tr, n);
    EventTableAt(evs, n - 1);
    EventTableAt(evs, n - 2);
    EventTableAt(evs', n - 1);
    EventTableAt(evs', n - 2);
    DualCheckMeans(HitOn(H10, tr, n), evs[n], EventTable(evs), tr[n - 1].d.rd, tr[n - 2].d.rd);
    DualCheckMeans(HitOn(H10, tr, n), evs'[n], EventTable(evs'), tr[n - 1].d.rd, tr[n - 2].d.rd);
  }

  lemma DualOperands(tr: Trace, n: nat)
    requires n < |tr| && Hazard(H10, tr, n)
    ensures n >= 2 && tr[n].d.usesRs1 && tr[n].d.usesRs2 && tr[n - 1].d.rd != tr[n - 2].d.rd
    ensures (tr[n].d.rs1 == tr[n - 1].d.rd && tr[n].d.rs2 == tr[n - 2].d.rd)
         || (tr[n].d.rs1 == tr[n - 2].d.rd && tr[n].d.rs2 == tr[n - 1].d.rd)
  {
  }

  lemma HazardDepth(b: Bin, tr: Trace, n: nat)
    requires n < |tr| && Hazard(b, tr, n)
    ensures n >= 1 && (b == H05 ==> n >= 3)
  {
    hide LastWriter;
  }

  lemma BinComparable(b: Bin, evs: seq<Event>, evs': seq<Event>, tr: Trace, n: nat)
    requires Executed(evs, tr) && Executed(evs', tr) && n < |tr| && Hazard(b, tr, n)
    requires SameButControl(evs[n], evs'[n])
    ensures Comparable(HitOn(b, tr, n), evs[n], EventTable(evs), evs'[n], EventTable(evs'))
  {
    hide Comparable, EventTable, Hazard, Executed, RolesOf, SameButControl;
    AgreesAt(evs, tr, n);
    AgreesAt(evs', tr, n);
    HitNamesItsBin(b, tr, n);
    HazardDepth(b, tr, n);
    var hit, e, events, e', events' := HitOn(b, tr, n), evs[n], EventTable(evs), evs'[n], EventTable(evs');
    match b
    case H01 => FixedComparable(hit, e, events, e', events', RS1, FORWARD_EX_MEM);
    case H02 => FixedComparable(hit, e, events, e', events', RS2, FORWARD_EX_MEM);
    case H03 => FixedComparable(hit, e, events, e', events', RS1, FORWARD_MEM_WB);
    case H04 => FixedComparable(hit, e, events, e', events', RS2, FORWARD_MEM_WB);
    case H06 => FixedComparable(hit, e, events, e', events', RS1, FORWARD_MEM_WB);
    case H07 => FixedComparable(hit, e, events, e', events', RS2, FORWARD_MEM_WB);
    case H08 => FixedComparable(hit, e, events, e', events', RS1, FORWARD_MEM_WB);
    case H09 => FixedComparable(hit, e, events, e', events', RS2, FORWARD_MEM_WB);
    case H11 => FixedComparable(hit, e, events, e', events', RS1, FORWARD_EX_MEM);
    case H12 => FixedComparable(hit, e, events, e', events', RS1, FORWARD_MEM_WB);
    case H13 => FixedComparable(hit, e, events, e', events', RS1, FORWARD_EX_MEM);
    case H14 => FixedComparable(hit, e, events, e', events', RS1, FORWARD_MEM_WB);
    case H16 => FixedComparable(hit, e, events, e', events', RS2, FORWARD_EX_MEM);
    case H05 => RolesComparable(hit, e, events, e', events', tr[n - 3].d.rd, FORWARD_RF);
    case H15 => RolesComparable(hit, e, events, e', events', tr[n - 1].d.rd, FORWARD_RF);
    case H17 => RolesComparable(hit, e, events, e', events', tr[n - 1].d.rd, FORWARD_EX_MEM);
    case H18 => RolesComparable(hit, e, events, e', events', 0, FORWARD_RF);
    case H19 => StallComparable(hit, e, events, e', events');
    case H20 => StallComparable(hit, e, events, e', events');
    case H10 => DualComparable(evs, evs', tr, n);
  }

  lemma AgreesAt(evs: seq<Event>, tr: Trace, n: nat)
    requires Executed(evs, tr) && n < |tr|
    ensures |evs| == |tr| && evs[n].d == tr[n].d && evs[n].index == n + 1
  {
    hide Plausible, RawAgrees;
  }

  /** The event as the timing has it. */
  function Retimed(e: Event, tr: Trace, n: nat): Event
    requires n < |tr|
  {
    e.(stallCycles := Stalls(tr, n), forwardA := ForwardA(tr, n), forwardB := ForwardB(tr, n))
  }

  lemma RetimedIsAt(evs: seq<Event>, tr: Trace, n: nat)
    requires Executed(evs, tr) && n < |evs|
    ensures |evs| == |tr|
    ensures var evs' := evs[n := Retimed(evs[n], tr, n)];
            At(evs', tr, n) && WindowOf(evs', n) == WindowOf(evs, n) && SameButControl(evs[n], evs'[n])
    ensures forall hit: Hit :: ShownAsTimed(hit, evs[n], tr, n) <==> ShowSame(hit, evs[n], Retimed(evs[n], tr, n))
  {
    hide Plausible, Stalls, ForwardA, ForwardB;
  }

  /**
   A hit of any executed instruction, whatever control was observed: no check is
   refused. If the bin is realizable there, the hit passes exactly if it is shown
   as timed; and if it is shown as timed, exactly if the bin is realizable.
   */
  lemma ControlIsJudged(b: Bin, evs: seq<Event>, tr: Trace, n: nat)
    requires Executed(evs, tr) && n < |evs|
    requires HitFor(b, WindowOf(evs, n), evs[n]).Some?
    ensures |evs| == |tr| && n >= 1 && Hazard(b, tr, n)
    ensures var r := ChecksFor(HitOn(b, tr, n), evs[n], EventTable(evs));
            && r.Ok?
            && (Realizable(b, tr, n) ==> (AllPassed(r.value) <==> ShownAsTimed(HitOn(b, tr, n), evs[n], tr, n)))
            && (ShownAsTimed(HitOn(b, tr, n), evs[n], tr, n) ==> (AllPassed(r.value) <==> Realizable(b, tr, n)))
  {
    hide Executed, At, WindowOf, HitFor, Hazard, HitOn, ChecksFor, Realizable, ShownAsTimed, ShowSame, Retimed, EventTable,
      AllPassed, SameButControl;
    RetimedIsAt(evs, tr, n);
    var evs' := evs[n := Retimed(evs[n], tr, n)];
    AtIsExecuted(evs', tr, n);
    BinMeans(b, evs, tr, n);
    BinMeans(b, evs', tr, n);
    HazardDepth(b, tr, n);
    TableAgreesWithOracle(b, evs', tr, n);
    BinComparable(b, evs, evs', tr, n);
  }

  // ---------------------------------------------------------------------
  // The table in numbers
  // ---------------------------------------------------------------------

  /** Every operand of n that names the register takes the path. */
  predicate Via(tr: Trace, n: nat, r: Reg, path: int)
    requires n < |tr|
  {
    && (tr[n].d.usesRs1 && tr[n].d.rs1 == r ==> ForwardA(tr, n) == path)
    && (tr[n].d.usesRs2 && tr[n].d.rs2 == r ==> ForwardB(tr, n) == path)
  }

  /** The stall and the paths that the table fixes: 2 is EX/MEM, 1 is MEM/WB and 0 the register file. */
  predicate Wanted(b: Bin, tr: Trace, n: nat)
    requires n < |tr|
  {
    && Stalls(tr, n) == (if b == H06 || b == H07 then 1 else 0)
    && (b in {H01, H11, H13} ==> ForwardA(tr, n) == 2)
    && (b in {H02, H16} ==> ForwardB(tr, n) == 2)
    && (b in {H03, H06, H08, H12, H14} ==> ForwardA(tr, n) == 1)
    && (b in {H04, H07, H09} ==> ForwardB(tr, n) == 1)
    && (b == H05 && n >= 3 ==> Via(tr, n, tr[n - 3].d.rd, 0))
    && (b == H10 && n >= 2 ==> Via(tr, n, tr[n - 1].d.rd, 2) && Via(tr, n, tr[n - 2].d.rd, 1))
    && (b == H15 && n >= 1 ==> Via(tr, n, tr[n - 1].d.rd, 0))
    && (b == H17 && n >= 1 ==> Via(tr, n, tr[n - 1].d.rd, 2))
    && (b == H18 ==> Via(tr, n, 0, 0))
  }

  /** What PathByDistance says of an operand that reads r. */
  ghost predicate PathKnown(tr: Trace, n: nat, r: Reg, path: int)
    requires n < |tr|
  {
    && path in {0, 1, 2}
    && (r == 0 ==> path == 0)
    && (r != 0 ==> (path == 2 <==> WrittenBefore(tr, n, r, 1) && tr[n - 1].d.producerType !in {MEM_DATA, PC_PLUS_4}))
    && (r != 0 ==>
          (path == 1 <==>
             || (WrittenBefore(tr, n, r, 1) && tr[n - 1].d.producerType == MEM_DATA)
             || (WrittenBefore(tr, n, r, 2) && NoBubbleBefore(tr, n) && NoBubbleBefore(tr, n - 1))))
  }

  lemma PathsKnown(tr: Trace, n: nat)
    requires Plausible(tr) && n < |tr|
    ensures tr[n].d.usesRs1 ==> PathKnown(tr, n, tr[n].d.rs1, ForwardA(tr, n))
    ensures tr[n].d.usesRs2 ==> PathKnown(tr, n, tr[n].d.rs2, ForwardB(tr, n))
  {
    hide Plausible, WrittenBefore, NoBubbleBefore;
    OperandPaths(tr, n);
    if tr[n].d.usesRs1 && tr[n].d.rs1 != 0 {
      PathByDistance(tr, n, tr[n].d.rs1);
    }
    if tr[n].d.usesRs2 && tr[n].d.rs2 != 0 {
      PathByDistance(tr, n, tr[n].d.rs2);
    }
  }

  /** Of the instructions that write a register exactly the jumps redirect. */
  lemma Jumps(tr: Trace, n: nat)
    requires Plausible(tr) && n < |tr|
    ensures forall k: nat | k < n && tr[k].d.writesRd :: tr[k].redirect <==> tr[k].d.producerType == PC_PLUS_4
  {
  }

  lemma FirstRow(b: Bin, tr: Trace, n: nat)
    requires Plausible(tr) && n < |tr| && Hazard(b, tr, n) && b in {H01, H11, H13}
    ensures n >= 1 && (Realizable(b, tr, n) <==> Wanted(b, tr, n))
  {
    hide ForwardA, ForwardB, LastWriter, Plausible;
    PathsKnown(tr, n);
    Jumps(tr, n);
  }

  lemma FirstRs2Row(b: Bin, tr: Trace, n: nat)
    requires Plausible(tr) && n < |tr| && Hazard(b, tr, n) && b in {H02, H16}
    ensures n >= 1 && (Realizable(b, tr, n) <==> Wanted(b, tr, n))
  {
    hide ForwardA, ForwardB, LastWriter, Plausible;
    PathsKnown(tr, n);
    Jumps(tr, n);
  }

  lemma LoadUseRow(b: Bin, tr: Trace, n: nat)
    requires Plausible(tr) && n < |tr| && Hazard(b, tr, n) && b in {H06, H07}
    ensures n >= 1 && (Realizable(b, tr, n) <==> Wanted(b, tr, n))
  {
    hide ForwardA, ForwardB, LastWriter, Plausible;
    PathsKnown(tr, n);
    Jumps(tr, n);
  }

  lemma SecondRow(b: Bin, tr: Trace, n: nat)
    requires Plausible(tr) && n < |tr| && Hazard(b, tr, n) && b in {H03, H04, H12, H14}
    ensures n >= 1 && (Realizable(b, tr, n) <==> Wanted(b, tr, n))
  {
    hide ForwardA, ForwardB, LastWriter, Plausible;
    PathsKnown(tr, n);
    Jumps(tr, n);
  }

  lemma SecondLoadRow(b: Bin, tr: Trace, n: nat)
    requires Plausible(tr) && n < |tr| && Hazard(b, tr, n) && b in {H08, H09}
    ensures n >= 1 && (Realizable(b, tr, n) <==> Wanted(b, tr, n))
  {
    hide ForwardA, ForwardB, LastWriter, Plausible;
    PathsKnown(tr, n);
    Jumps(tr, n);
  }

  lemma ThirdRow(b: Bin, tr: Trace, n: nat)
    requires Plausible(tr) && n < |tr| && Hazard(b, tr, n) && b in {H05}
    ensures n >= 1 && (Realizable(b, tr, n) <==> Wanted(b, tr, n))
  {
    hide ForwardA, ForwardB, LastWriter, Plausible;
    PathsKnown(tr, n);
    Jumps(tr, n);
  }

  lemma BothRow(b: Bin, tr: Trace, n: nat)
    requires Plausible(tr) && n < |tr| && Hazard(b, tr, n) && b in {H10}
    ensures n >= 1 && (Realizable(b, tr, n) <==> Wanted(b, tr, n))
  {
    hide ForwardA, ForwardB, LastWriter, Plausible;
    PathsKnown(tr, n);
    Jumps(tr, n);
  }

  lemma JumpOrTwiceRow(b: Bin, tr: Trace, n: nat)
    requires Plausible(tr) && n < |tr| && Hazard(b, tr, n) && b in {H15, H17}
    ensures n >= 1 && (Realizable(b, tr, n) <==> Wanted(b, tr, n))
  {
    hide ForwardA, ForwardB, LastWriter, Plausible;
    PathsKnown(tr, n);
    Jumps(tr, n);
  }

  lemma DiscardedRow(b: Bin, tr: Trace, n: nat)
    requires Plausible(tr) && n < |tr| && Hazard(b, tr, n) && b in {H18, H19, H20}
    ensures n >= 1 && (Realizable(b, tr, n) <==> Wanted(b, tr, n))
  {
    hide ForwardA, ForwardB, LastWriter, Plausible;
    PathsKnown(tr, n);
    Jumps(tr, n);
  }

  /**
   A bin can be realized exactly where the timing has the stall and the paths
   that its row fixes.
   */
  lemma RealizableInNumbers(b: Bin, tr: Trace, n: nat)
    requires Plausible(tr) && n < |tr| && Hazard(b, tr, n)
    ensures n >= 1 && (Realizable(b, tr, n) <==> Wanted(b, tr, n))
  {
    hide Plausible, Hazard, Realizable, Wanted;
    match b
    case H01 => FirstRow(b, tr, n);
    case H02 => FirstRs2Row(b, tr, n);
    case H06 => LoadUseRow(b, tr, n);
    case H07 => LoadUseRow(b, tr, n);
    case H11 => FirstRow(b, tr, n);
    case H13 => FirstRow(b, tr, n);
    case H16 => FirstRs2Row(b, tr, n);
    case H03 => SecondRow(b, tr, n);
    case H04 => SecondRow(b, tr, n);
    case H12 => SecondRow(b, tr, n);
    case H14 => SecondRow(b, tr, n);
    case H08 => SecondLoadRow(b, tr, n);
    case H09 => SecondLoadRow(b, tr, n);
    case H05 => ThirdRow(b, tr, n);
    case H10 => BothRow(b, tr, n);
    case H15 => JumpOrTwiceRow(b, tr, n);
    case H17 => JumpOrTwiceRow(b, tr, n);
    case H18 => DiscardedRow(b, tr, n);
    case H19 => DiscardedRow(b, tr, n);
    case H20 => DiscardedRow(b, tr, n);
  }

  lemma AtIsExecuted(evs: seq<Event>, tr: Trace, n: nat)
    requires At(evs, tr, n)
    ensures Executed(evs, tr) && n < |evs|
  {
  }

  // ---------------------------------------------------------------------
  // The two objects over a whole trace
  // ---------------------------------------------------------------------

  /** The verdict on one hit of instruction k is right. */
  ghost predicate RightVerdict(hit: Hit, verdict: bool, evs: seq<Event>, tr: Trace, k: nat)
    requires k < |evs| == |tr|
  {
    && k >= 1
    && (Realizable(hit.bin, tr, k) ==> (verdict <==> ShownAsTimed(hit, evs[k], tr, k)))
    && (ShownAsTimed(hit, evs[k], tr, k) ==> (verdict <==> Realizable(hit.bin, tr, k)))
  }

  ghost predicate Judged(hits: seq<Hit>, verdicts: seq<bool>, evs: seq<Event>, tr: Trace, k: nat)
    requires k < |evs| == |tr|
  {
    |hits| == |verdicts| && forall j | 0 <= j < |hits| :: RightVerdict(hits[j], verdicts[j], evs, tr, k)
  }

  /** Exactly the hazards that instruction k shows, each once. */
  ghost predicate Reported(hits: seq<Hit>, tr: Trace, k: nat)
    requires k < |tr|
  {
    && (forall h :: h in hits <==> Hazard(h.bin, tr, k) && h == HitOn(h.bin, tr, k))
    && forall i, j | 0 <= i < j < |hits| :: hits[i].bin != hits[j].bin
  }

  /**
   A fresh collector and the checker over the events of an executed trace,
   whatever control was observed: each instruction's hazards are reported, and
   every hit is judged by what was shown.
   */
  method ClassifyAndCheck(evs: seq<Event>, ghost tr: Trace) returns (found: seq<seq<Hit>>, passed: seq<seq<bool>>)
    requires Executed(evs, tr)
    ensures |found| == |passed| == |evs| == |tr|
    ensures forall k | 0 <= k < |evs| :: Reported(found[k], tr, k)
    ensures forall k | 0 <= k < |evs| :: Judged(found[k], passed[k], evs, tr, k)
  {
    hide HitsOver, Executed, WindowOf, Judged, Reported;
    var collector := new Collector();
    found, passed := [], [];
    SameLength(evs, tr);
    for k := 0 to |evs|
      invariant fresh(collector) && collector.Valid() && collector.history == WindowOf(evs, k)
      invariant collector.lastInstructionIndex == k && |found| == |passed| == k
      invariant forall j | 0 <= j < k :: Reported(found[j], tr, j) && Judged(found[j], passed[j], evs, tr, j)
    {
      AgreesAt(evs, tr, k);
      var hits := collector.Observe(evs[k]);
      WindowSlides(evs, k);
      AllReported(evs, tr, k);
      var verdicts := CheckAll(hits.value, evs, tr, k);
      found, passed := found + [hits.value], passed + [verdicts];
    }
  }

  lemma AllReported(evs: seq<Event>, tr: Trace, k: nat)
    requires Executed(evs, tr) && k < |evs| == |tr|
    ensures Reported(HitsOver(ALL_BINS, WindowOf(evs, k), evs[k]), tr, k)
  {
    hide HitsOver, Executed, WindowOf, Hazard, HitOn;
    HitsMean(evs, tr, k);
    Join.ClassifierHitsAreDistinct(ALL_BINS, WindowOf(evs, k), evs[k]);
  }

  method CheckAll(hits: seq<Hit>, evs: seq<Event>, ghost tr: Trace, k: nat) returns (verdicts: seq<bool>)
    requires Executed(evs, tr) && k < |evs| == |tr| && hits == HitsOver(ALL_BINS, WindowOf(evs, k), evs[k])
    ensures Judged(hits, verdicts, evs, tr, k)
  {
    hide HitsOver, Executed, WindowOf, ChecksFor, EventTable, Judged, RightVerdict, AllPassed;
    verdicts := [];
    NothingJudged(evs, tr, k);
    for j := 0 to |hits|
      invariant Judged(hits[..j], verdicts, evs, tr, k)
    {
      HitIsJudged(evs, tr, k, hits[j]);
      var checks := Check(hits[j], evs[k], EventTable(evs));
      OneMoreJudged(hits[..j], verdicts, evs, tr, k, hits[j], AllPassed(checks.value));
      assert hits[..j + 1] == hits[..j] + [hits[j]];
      verdicts := verdicts + [AllPassed(checks.value)];
    }
    assert hits[..|hits|] == hits;
  }

  lemma HitIsJudged(evs: seq<Event>, tr: Trace, k: nat, hit: Hit)
    requires Executed(evs, tr) && k < |evs| == |tr| && hit in HitsOver(ALL_BINS, WindowOf(evs, k), evs[k])
    ensures ChecksFor(hit, evs[k], EventTable(evs)).Ok?
    ensures RightVerdict(hit, AllPassed(ChecksFor(hit, evs[k], EventTable(evs)).value), evs, tr, k)
  {
    hide HitsOver, Executed, WindowOf, ChecksFor, EventTable, AllPassed, Hazard, HitOn, HitFor, Realizable, ShownAsTimed;
    HitsMean(evs, tr, k);
    BinMeans(hit.bin, evs, tr, k);
    ControlIsJudged(hit.bin, evs, tr, k);
  }

  lemma NothingJudged(evs: seq<Event>, tr: Trace, k: nat)
    requires k < |evs| == |tr|
    ensures Judged([], [], evs, tr, k)
  {
  }

  lemma OneMoreJudged(hits: seq<Hit>, verdicts: seq<bool>, evs: seq<Event>, tr: Trace, k: nat, hit: Hit, verdict: bool)
    requires k < |evs| == |tr| && Judged(hits, verdicts, evs, tr, k) && RightVerdict(hit, verdict, evs, tr, k)
    ensures Judged(hits + [hit], verdicts + [verdict], evs, tr, k)
  {
    hide RightVerdict;
  }
}
