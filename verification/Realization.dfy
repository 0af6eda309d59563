/** The frozen table of what control each hazard bin must show, and its checker. */
module RealizationChecker {
  import opened Wrappers
  import opened Rv32Isa
  import opened Execution
  import opened TimingTrace
  import opened L1Coverage

  datatype CheckName = STALL_CYCLES | FORWARD_RS1 | FORWARD_RS2

  datatype ControlCheck = ControlCheck(name: CheckName, expected: int, observed: int) {
    predicate Passed() {
      expected == observed
    }
  }

  datatype CheckError = WrongConsumer | NotTwoProducers | MissingProducer | OperandsNotExposed | UnsupportedRole

  predicate AllPassed(checks: seq<ControlCheck>) {
    forall c | c in checks :: c.Passed()
  }

  function StallExpected(b: Bin): int {
    if b == H06 || b == H07 then 1 else 0
  }

  /** The rows that fix one source and its forwarding path. */
  function FixedForward(b: Bin): Option<(Role, int)> {
    match b
    case H01 => Some((RS1, FORWARD_EX_MEM))
    case H02 => Some((RS2, FORWARD_EX_MEM))
    case H03 => Some((RS1, FORWARD_MEM_WB))
    case H04 => Some((RS2, FORWARD_MEM_WB))
    case H06 => Some((RS1, FORWARD_MEM_WB))
    case H07 => Some((RS2, FORWARD_MEM_WB))
    case H08 => Some((RS1, FORWARD_MEM_WB))
    case H09 => Some((RS2, FORWARD_MEM_WB))
    case H11 => Some((RS1, FORWARD_EX_MEM))
    case H12 => Some((RS1, FORWARD_MEM_WB))
    case H13 => Some((RS1, FORWARD_EX_MEM))
    case H14 => Some((RS1, FORWARD_MEM_WB))
    case H16 => Some((RS2, FORWARD_EX_MEM))
    case _ => None
  }

  /** The rows that demand one path of every matched source. */
  function EveryRoleForward(b: Bin): Option<int> {
    match b
    case H05 => Some(FORWARD_RF)
    case H15 => Some(FORWARD_RF)
    case H17 => Some(FORWARD_EX_MEM)
    case H18 => Some(FORWARD_RF)
    case _ => None
  }

  function ForwardCheck(e: Event, role: Role, expected: int): Result<ControlCheck, CheckError> {
    match role
    case RS1 => Ok(ControlCheck(FORWARD_RS1, expected, e.forwardA))
    case RS2 => Ok(ControlCheck(FORWARD_RS2, expected, e.forwardB))
    case RAW_RS2_UNUSED => Err(UnsupportedRole)
  }

  function RoleChecks(e: Event, roles: seq<Role>, expected: int): (r: Result<seq<ControlCheck>, CheckError>)
    ensures r.Ok? <==> RAW_RS2_UNUSED !in roles
    ensures r.Ok? ==> |r.value| == |roles|
  {
    if roles == [] then Ok([])
    else
      var rest := RoleChecks(e, roles[..|roles| - 1], expected);
      var last := ForwardCheck(e, roles[|roles| - 1], expected);
      assert roles == roles[..|roles| - 1] + [roles[|roles| - 1]];
      if rest.Err? then rest
      else if last.Err? then Err(last.error)
      else Ok(rest.value + [last.value])
  }

  /** Of two producers, the newer is expected in EX/MEM and the older in MEM/WB. */
  function OrientedCheck(name: CheckName, uses: bool, r: Reg, observed: int, newer: Reg, older: Reg): seq<ControlCheck> {
    if uses && r == newer then [ControlCheck(name, FORWARD_EX_MEM, observed)]
    else if uses && r == older then [ControlCheck(name, FORWARD_MEM_WB, observed)]
    else []
  }

  function DualChecks(hit: Hit, e: Event, events: map<int, Event>): Result<seq<ControlCheck>, CheckError> {
    if |hit.producers| != 2 then Err(NotTwoProducers)
    else if hit.producers[0] !in events || hit.producers[1] !in events then Err(MissingProducer)
    else
      var older, newer := events[hit.producers[0]].d.rd, events[hit.producers[1]].d.rd;
      var both := OrientedCheck(FORWARD_RS1, e.d.usesRs1, e.d.rs1, e.forwardA, newer, older)
                  + OrientedCheck(FORWARD_RS2, e.d.usesRs2, e.d.rs2, e.forwardB, newer, older);
      if |both| != 2 then Err(OperandsNotExposed) else Ok(both)
  }

  function StallCheck(hit: Hit, e: Event): ControlCheck {
    ControlCheck(STALL_CYCLES, StallExpected(hit.bin), e.stallCycles)
  }

  /** Every check of one hit, in the order they are made. */
  function ChecksFor(hit: Hit, e: Event, events: map<int, Event>): Result<seq<ControlCheck>, CheckError> {
    if hit.consumer != e.index then Err(WrongConsumer)
    else
      var stall := [StallCheck(hit, e)];
      var forward :=
        if hit.bin == H10 then DualChecks(hit, e, events)
        else
          match EveryRoleForward(hit.bin)
          case Some(path) => RoleChecks(e, hit.sources, path)
          case None =>
            match FixedForward(hit.bin)
            case None => Ok([])
            case Some((role, path)) =>
              match ForwardCheck(e, role, path)
              case Ok(c) => Ok([c])
              case Err(x) => Err(x);
      if forward.Err? then forward else Ok(stall + forward.value)
  }

  /** Appends one forwarding check to the shared list. */
  method AddForwardCheck(checks: seq<ControlCheck>, e: Event, role: Role, expected: int)
    returns (r: Result<seq<ControlCheck>, CheckError>)
    ensures r == match ForwardCheck(e, role, expected)
                 case Ok(c) => Ok(checks + [c])
                 case Err(x) => Err(x)
  {
    if role == RS1 {
      return Ok(checks + [ControlCheck(FORWARD_RS1, expected, e.forwardA)]);
    }
    if role == RS2 {
      return Ok(checks + [ControlCheck(FORWARD_RS2, expected, e.forwardB)]);
    }
    return Err(UnsupportedRole);
  }

  method AddRoleChecks(checks: seq<ControlCheck>, e: Event, roles: seq<Role>, expected: int)
    returns (r: Result<seq<ControlCheck>, CheckError>)
    ensures r == match RoleChecks(e, roles, expected)
                 case Ok(cs) => Ok(checks + cs)
                 case Err(x) => Err(x)
  {
    var list := checks;
    for k := 0 to |roles|
      invariant RoleChecks(e, roles[..k], expected).Ok?
      invariant list == checks + RoleChecks(e, roles[..k], expected).value
    {
      assert roles[..k + 1][..k] == roles[..k];
      var one := AddForwardCheck(list, e, roles[k], expected);
      if one.Err? {
        RoleError(e, roles, k, expected);
        return one;
      }
      list := one.value;
    }
    assert roles[..|roles|] == roles;
    r := Ok(list);
  }

  /** The first role that cannot be checked is the error of the whole list. */
  lemma {:induction false} RoleError(e: Event, roles: seq<Role>, k: nat, expected: int)
    requires k < |roles| && roles[k] == RAW_RS2_UNUSED && RoleChecks(e, roles[..k], expected).Ok?
    ensures RoleChecks(e, roles, expected) == Err(UnsupportedRole)
  {
    if k == |roles| - 1 {
    } else {
      assert roles[..|roles| - 1][..k] == roles[..k];
      RoleError(e, roles[..|roles| - 1], k, expected);
    }
  }

  method Check(hit: Hit, e: Event, events: map<int, Event>) returns (r: Result<seq<ControlCheck>, CheckError>)
    ensures r == ChecksFor(hit, e, events)
  {
    if hit.consumer != e.index {
      return Err(WrongConsumer);
    }
    var checks := [ControlCheck(STALL_CYCLES, StallExpected(hit.bin), e.stallCycles)];
    var fixed := FixedForward(hit.bin);
    if fixed.Some? {
      checks :- AddForwardCheck(checks, e, fixed.value.0, fixed.value.1);
    }
    if hit.bin == H05 || hit.bin == H15 || hit.bin == H18 {
      checks :- AddRoleChecks(checks, e, hit.sources, FORWARD_RF);
    } else if hit.bin == H17 {
      checks :- AddRoleChecks(checks, e, hit.sources, FORWARD_EX_MEM);
    } else if hit.bin == H10 {
      if |hit.producers| != 2 {
        return Err(NotTwoProducers);
      }
      if hit.producers[0] !in events || hit.producers[1] !in events {
        return Err(MissingProducer);
      }
      var older, newer := events[hit.producers[0]], events[hit.producers[1]];
      var matchedRoles := 0;
      if e.d.usesRs1 && e.d.rs1 == newer.d.rd {
        var one := AddForwardCheck(checks, e, RS1, FORWARD_EX_MEM);
        checks := one.value;
        matchedRoles := matchedRoles + 1;
      } else if e.d.usesRs1 && e.d.rs1 == older.d.rd {
        var one := AddForwardCheck(checks, e, RS1, FORWARD_MEM_WB);
        checks := one.value;
        matchedRoles := matchedRoles + 1;
      }
      if e.d.usesRs2 && e.d.rs2 == newer.d.rd {
        var one := AddForwardCheck(checks, e, RS2, FORWARD_EX_MEM);
        checks := one.value;
        matchedRoles := matchedRoles + 1;
      } else if e.d.usesRs2 && e.d.rs2 == older.d.rd {
        var one := AddForwardCheck(checks, e, RS2, FORWARD_MEM_WB);
        checks := one.value;
        matchedRoles := matchedRoles + 1;
      }
      ghost var both := OrientedCheck(FORWARD_RS1, e.d.usesRs1, e.d.rs1, e.forwardA, newer.d.rd, older.d.rd)
                        + OrientedCheck(FORWARD_RS2, e.d.usesRs2, e.d.rs2, e.forwardB, newer.d.rd, older.d.rd);
      assert checks == [StallCheck(hit, e)] + both && matchedRoles == |both|;
      if matchedRoles != 2 {
        return Err(OperandsNotExposed);
      }
    }
    assert hit.bin.H19? || hit.bin.H20? ==> checks == [StallCheck(hit, e)] + [];
    r := Ok(checks);
  }
}

/**
 The realization table against the timing oracle, on every program: a hit whose
 control is observed as the oracle times it passes exactly under a condition
 that can be read off the instructions before the consumer.
 */
module RealizationTheorem {
  import opened Wrappers
  import opened Rv32Isa
  import opened Rv32RoundTrip
  import opened Execution
  import opened TimingTrace
  import opened L1Coverage
  import opened RealizationChecker

  /** What the raw word says about its opcode and its rs2 field is what was decoded. */
  predicate RawAgrees(e: Event) {
    && (e.instruction % 128 == OP_STORE <==> e.d.mnemonic.SW?)
    && RawRs2(e) == e.d.rs2
  }

  /** The events of an executed trace, numbered from one. */
  ghost predicate Executed(evs: seq<Event>, tr: Trace) {
    && |evs| == |tr| && Plausible(tr)
    && forall k | 0 <= k < |evs| :: evs[k].index == k + 1 && evs[k].d == tr[k].d && RawAgrees(evs[k])
  }

  /** The control of instruction n is observed as the oracle expects it. */
  predicate AsTimed(e: Event, tr: Trace, n: nat)
    requires n < |tr|
  {
    e.stallCycles == Stalls(tr, n) && e.forwardA == ForwardA(tr, n) && e.forwardB == ForwardB(tr, n)
  }

  function WindowOf(evs: seq<Event>, n: nat): (h: History)
    requires n <= |evs|
    ensures |h| == if n < WINDOW then n else WINDOW
    ensures forall k | 0 <= k < |h| :: h[k] == evs[n - |h| + k]
  {
    if n < WINDOW then evs[..n] else evs[n - WINDOW..n]
  }

  /** The window slides with the trace: the collector's history is always the last three events. */
  lemma WindowSlides(evs: seq<Event>, n: nat)
    requires n < |evs|
    ensures Push(WindowOf(evs, n), evs[n]) == WindowOf(evs, n + 1)
  {
    var pushed, next := Push(WindowOf(evs, n), evs[n]), WindowOf(evs, n + 1);
    assert |pushed| == |next|;
    if n < WINDOW {
      assert pushed == evs[..n] + [evs[n]];
    } else {
      assert pushed == evs[n - WINDOW..n][1..] + [evs[n]];
    }
  }

  // ---------------------------------------------------------------------
  // The window sees the last writer
  // ---------------------------------------------------------------------

  lemma PositiveIsWriter(evs: seq<Event>, tr: Trace, n: nat, d: nat)
    requires Executed(evs, tr) && n <= |evs| && 1 <= d <= |WindowOf(evs, n)|
    ensures WindowOf(evs, n)[|WindowOf(evs, n)| - d] == evs[n - d] && evs[n - d].d == tr[n - d].d
    ensures HasPositive(WindowOf(evs, n), d) <==> tr[n - d].d.writesRd && tr[n - d].d.rd != 0
  {
    hide Exact;
    WriterHasType(tr[n - d].d);
  }

  lemma SameLength(evs: seq<Event>, tr: Trace)
    requires Executed(evs, tr)
    ensures |evs| == |tr|
  {
  }

  lemma NearestFromIsLastWriter(evs: seq<Event>, tr: Trace, n: nat, r: Reg, d: nat)
    requires Executed(evs, tr) && n <= |evs| && r != 0 && 1 <= d <= |WindowOf(evs, n)| + 1
    requires forall k | n - d < k < n :: !Writes(tr[k].d, r)
    ensures NearestFrom(WindowOf(evs, n), r, d)
         == match LastWriter(tr, n, r)
            case None => None
            case Some(p) => if n - p <= WINDOW then Some(n - p) else None
    decreases WINDOW + 1 - d
  {
    hide Executed, Exact;
    SameLength(evs, tr);
    var h := WindowOf(evs, n);
    if d <= |h| {
      PositiveIsWriter(evs, tr, n, d);
      if !Writes(tr[n - d].d, r) {
        NearestFromIsLastWriter(evs, tr, n, r, d + 1);
      }
    }
  }

  /** The three-deep nearest writer is the unbounded last writer at distance at most three. */
  lemma NearestIsLastWriter(evs: seq<Event>, tr: Trace, n: nat, r: Reg)
    requires Executed(evs, tr) && n <= |evs| && r != 0
    ensures NearestWriter(WindowOf(evs, n), r)
         == match LastWriter(tr, n, r)
            case None => None
            case Some(p) => if n - p <= WINDOW then Some(n - p) else None
  {
    NearestFromIsLastWriter(evs, tr, n, r, 1);
  }

  /** A nearest producer in the window is the last writer of its register. */
  lemma NearestProducer(evs: seq<Event>, tr: Trace, n: nat, d: nat)
    requires Executed(evs, tr) && n <= |evs|
    requires HasPositive(WindowOf(evs, n), d) && IsNearest(WindowOf(evs, n), d)
    ensures d <= n && tr[n - d].d.writesRd && tr[n - d].d.rd == RdAt(WindowOf(evs, n), d) != 0
    ensures LastWriter(tr, n, RdAt(WindowOf(evs, n), d)) == Some(n - d)
  {
    hide Executed;
    PositiveIsWriter(evs, tr, n, d);
    NearestIsLastWriter(evs, tr, n, RdAt(WindowOf(evs, n), d));
  }

  // ---------------------------------------------------------------------
  // Ages at short distance
  // ---------------------------------------------------------------------

  function Bubbles(tr: Trace, k: nat): int
    requires k < |tr|
  {
    if tr[k].redirect then REDIRECT_BUBBLES else 0
  }

  lemma AgeOne(tr: Trace, n: nat)
    requires 1 <= n < |tr|
    ensures Accept(tr, n) - Accept(tr, n - 1) == 1 + Stalls(tr, n) + Bubbles(tr, n - 1)
  {
  }

  lemma AgeTwo(tr: Trace, n: nat)
    requires 2 <= n < |tr|
    ensures Accept(tr, n) - Accept(tr, n - 2)
         == 2 + Stalls(tr, n) + Stalls(tr, n - 1) + Bubbles(tr, n - 1) + Bubbles(tr, n - 2)
  {
    AgeOne(tr, n);
    AgeOne(tr, n - 1);
  }

  /** Only control flow leaves bubbles behind. */
  lemma NoBubbles(tr: Trace, k: nat)
    requires k < |tr| && Plausible(tr)
    ensures tr[k].d.writesRd && tr[k].d.producerType != PC_PLUS_4 ==> Bubbles(tr, k) == 0
    ensures tr[k].d.producerType == PC_PLUS_4 ==> Bubbles(tr, k) == REDIRECT_BUBBLES
  {
    hide Exact;
    TypeSaysControl(tr[k].d);
  }

  // ---------------------------------------------------------------------
  // When the table is met
  // ---------------------------------------------------------------------

  /**
   The exact condition under which a hit of the bin passes. It reads only the
   instructions already executed and the consumer's own operands.
   */
  predicate Realizable(b: Bin, tr: Trace, n: nat)
    requires 1 <= n < |tr|
  {
    match b
    case H03 => !tr[n - 1].redirect && !LoadUse(tr, n)
    case H04 => !tr[n - 1].redirect && !LoadUse(tr, n)
    case H12 => !tr[n - 1].redirect && !LoadUse(tr, n)
    case H14 => !tr[n - 1].redirect && !LoadUse(tr, n)
    case H08 => !tr[n - 1].redirect && !LoadUse(tr, n) && !LoadUse(tr, n - 1)
    case H09 => !tr[n - 1].redirect && !LoadUse(tr, n) && !LoadUse(tr, n - 1)
    case H05 => !LoadUse(tr, n)
    case H17 => tr[n - 1].d.producerType != MEM_DATA && tr[n - 1].d.producerType != PC_PLUS_4
    case _ => true
  }

  /** The instruction's own event at n, with its window. */
  ghost predicate At(evs: seq<Event>, tr: Trace, n: nat) {
    Executed(evs, tr) && n < |evs| && AsTimed(evs[n], tr, n)
  }

  function PathAt(tr: Trace, n: nat, p: nat): int
    requires p < n < |tr|
  {
    ForwardForAge(Some(Accept(tr, n) - Accept(tr, p)))
  }

  /** A source read from its last writer forwards by that writer's age; x0 never forwards. */
  lemma SourceForwards(evs: seq<Event>, tr: Trace, n: nat, r: Reg)
    requires At(evs, tr, n)
    ensures evs[n].d == tr[n].d
    ensures r == 0 && UsesRs1(evs[n], r) ==> evs[n].forwardA == FORWARD_RF
    ensures r == 0 && UsesRs2(evs[n], r) ==> evs[n].forwardB == FORWARD_RF
    ensures r != 0 && LastWriter(tr, n, r).Some? ==>
              && (UsesRs1(evs[n], r) ==> evs[n].forwardA == PathAt(tr, n, LastWriter(tr, n, r).value))
              && (UsesRs2(evs[n], r) ==> evs[n].forwardB == PathAt(tr, n, LastWriter(tr, n, r).value))
  {
    hide Exact;
  }

  lemma OneForwardCheck(hit: Hit, e: Event, events: map<int, Event>, role: Role, path: int)
    requires hit.consumer == e.index && FixedForward(hit.bin) == Some((role, path)) && role != RAW_RS2_UNUSED
    ensures ChecksFor(hit, e, events).Ok?
    ensures AllPassed(ChecksFor(hit, e, events).value)
       <==> e.stallCycles == StallExpected(hit.bin) && (if role == RS1 then e.forwardA else e.forwardB) == path
  {
    var checks := ChecksFor(hit, e, events).value;
    assert |checks| == 2 && checks[0] in checks && checks[1] in checks;
  }

  lemma OneRole(e: Event, role: Role, path: int)
    requires role != RAW_RS2_UNUSED
    ensures RoleChecks(e, [role], path) == Ok([ForwardCheck(e, role, path).value])
  {
    assert [role][..0] == [] && RoleChecks(e, [], path) == Ok([]);
    assert [] + [ForwardCheck(e, role, path).value] == [ForwardCheck(e, role, path).value];
  }

  lemma RoleChecksPass(e: Event, r: Reg, path: int)
    ensures RoleChecks(e, UsedRoles(e, r), path).Ok?
    ensures AllPassed(RoleChecks(e, UsedRoles(e, r), path).value)
       <==> (UsesRs1(e, r) ==> e.forwardA == path) && (UsesRs2(e, r) ==> e.forwardB == path)
  {
    var roles := UsedRoles(e, r);
    OneRole(e, RS1, path);
    OneRole(e, RS2, path);
    assert [RS1, RS2][..1] == [RS1];
    var checks := RoleChecks(e, roles, path).value;
    assert |checks| > 0 ==> checks[0] in checks;
    assert |checks| > 1 ==> checks[1] in checks;
  }

  lemma EveryRoleCheck(hit: Hit, e: Event, events: map<int, Event>, r: Reg, path: int)
    requires hit.consumer == e.index && hit.sources == UsedRoles(e, r)
    requires EveryRoleForward(hit.bin) == Some(path)
    ensures ChecksFor(hit, e, events).Ok?
    ensures AllPassed(ChecksFor(hit, e, events).value)
       <==> && e.stallCycles == StallExpected(hit.bin)
            && (UsesRs1(e, r) ==> e.forwardA == path) && (UsesRs2(e, r) ==> e.forwardB == path)
  {
    hide RoleChecks, UsedRoles, UsesRs1, UsesRs2, StallExpected;
    RoleChecksPass(e, r, path);
    var checks, roles := ChecksFor(hit, e, events).value, RoleChecks(e, hit.sources, path).value;
    assert checks == [StallCheck(hit, e)] + roles;
    assert StallCheck(hit, e) in checks && forall c | c in roles :: c in checks;
  }

  lemma OnlyStallCheck(hit: Hit, e: Event, events: map<int, Event>)
    requires hit.consumer == e.index && (hit.bin == H19 || hit.bin == H20)
    ensures ChecksFor(hit, e, events).Ok?
    ensures AllPassed(ChecksFor(hit, e, events).value) <==> e.stallCycles == 0
  {
    var checks := ChecksFor(hit, e, events).value;
    assert checks == [StallCheck(hit, e)] + [];
    assert StallCheck(hit, e) in checks;
  }

  // ---------------------------------------------------------------------
  // Bin by bin
  // ---------------------------------------------------------------------

  /** The executed events by instruction index. */
  function EventTable(evs: seq<Event>): map<int, Event> {
    if evs == [] then map[] else EventTable(evs[..|evs| - 1])[|evs| := evs[|evs| - 1]]
  }

  lemma {:induction false} EventTableAt(evs: seq<Event>, k: nat)
    requires k < |evs|
    ensures k + 1 in EventTable(evs) && EventTable(evs)[k + 1] == evs[k]
  {
    if k < |evs| - 1 {
      EventTableAt(evs[..|evs| - 1], k);
    }
  }

  /** The checks of a hit go through, and all pass exactly when the condition holds. */
  ghost predicate Exactly(hit: Hit, evs: seq<Event>, n: nat, condition: bool)
    requires n < |evs|
  {
    var r := ChecksFor(hit, evs[n], EventTable(evs));
    r.Ok? && (AllPassed(r.value) <==> condition)
  }

  /** What a hit through RS1 says of the trace. */
  lemma Rs1HitMeans(b: Bin, evs: seq<Event>, tr: Trace, n: nat, d: nat, t: ProducerType, any: bool)
    requires At(evs, tr, n) && 1 <= d && Rs1Hit(b, WindowOf(evs, n), evs[n], d, t, any).Some?
    ensures d <= n && tr[n - d].d.producerType == t && tr[n - d].d.writesRd && tr[n - d].d.rd != 0
    ensures evs[n].d == tr[n].d && UsesRs1(evs[n], tr[n - d].d.rd)
    ensures LastWriter(tr, n, tr[n - d].d.rd) == Some(n - d)
    ensures evs[n].forwardA == PathAt(tr, n, n - d) && evs[n].stallCycles == Stalls(tr, n)
    ensures Rs1Hit(b, WindowOf(evs, n), evs[n], d, t, any).value.bin == b
    ensures Rs1Hit(b, WindowOf(evs, n), evs[n], d, t, any).value.consumer == evs[n].index
  {
    hide Exact, RawAgrees, PathAt, Stalls, LastWriter, Plausible;
    var h := WindowOf(evs, n);
    PositiveIsWriter(evs, tr, n, d);
    NearestProducer(evs, tr, n, d);
    SourceForwards(evs, tr, n, RdAt(h, d));
  }

  lemma Rs2HitMeans(b: Bin, evs: seq<Event>, tr: Trace, n: nat, d: nat, t: ProducerType)
    requires At(evs, tr, n) && 1 <= d && Rs2Hit(b, WindowOf(evs, n), evs[n], d, t).Some?
    ensures d <= n && tr[n - d].d.producerType == t && tr[n - d].d.writesRd && tr[n - d].d.rd != 0
    ensures evs[n].d == tr[n].d && UsesRs2(evs[n], tr[n - d].d.rd)
    ensures LastWriter(tr, n, tr[n - d].d.rd) == Some(n - d)
    ensures evs[n].forwardB == PathAt(tr, n, n - d) && evs[n].stallCycles == Stalls(tr, n)
    ensures Rs2Hit(b, WindowOf(evs, n), evs[n], d, t).value.bin == b
    ensures Rs2Hit(b, WindowOf(evs, n), evs[n], d, t).value.consumer == evs[n].index
  {
    hide Exact, RawAgrees, PathAt, Stalls, LastWriter, Plausible;
    var h := WindowOf(evs, n);
    PositiveIsWriter(evs, tr, n, d);
    NearestProducer(evs, tr, n, d);
    SourceForwards(evs, tr, n, RdAt(h, d));
  }

  /** Timing of a consumer at distance one from a producer that is not a link. */
  lemma DistanceOne(tr: Trace, n: nat)
    requires Plausible(tr) && 1 <= n < |tr| && Writes(tr[n - 1].d, tr[n - 1].d.rd)
    requires Reads(tr[n].d, tr[n - 1].d.rd)
    ensures tr[n - 1].d.producerType == MEM_DATA ==> Stalls(tr, n) == 1 && PathAt(tr, n, n - 1) == FORWARD_MEM_WB
    ensures tr[n - 1].d.producerType == PC_PLUS_4 ==> Stalls(tr, n) == 0 && PathAt(tr, n, n - 1) == FORWARD_RF
    ensures tr[n - 1].d.producerType != MEM_DATA && tr[n - 1].d.producerType != PC_PLUS_4 ==>
              Stalls(tr, n) == 0 && PathAt(tr, n, n - 1) == FORWARD_EX_MEM
  {
    hide Plausible;
    AgeOne(tr, n);
    NoBubbles(tr, n - 1);
  }

  /** Timing of a consumer at distance two from a producer that is not a link. */
  lemma DistanceTwo(tr: Trace, n: nat)
    requires Plausible(tr) && 2 <= n < |tr| && Writes(tr[n - 2].d, tr[n - 2].d.rd)
    requires tr[n - 2].d.producerType != PC_PLUS_4
    ensures Stalls(tr, n) == 0 && PathAt(tr, n, n - 2) == FORWARD_MEM_WB
       <==> !LoadUse(tr, n) && !LoadUse(tr, n - 1) && !tr[n - 1].redirect
    ensures tr[n - 2].d.producerType != MEM_DATA ==> !LoadUse(tr, n - 1)
  {
    hide Plausible;
    AgeTwo(tr, n);
    NoBubbles(tr, n - 2);
  }

  lemma AtPlausible(evs: seq<Event>, tr: Trace, n: nat)
    requires At(evs, tr, n)
    ensures Plausible(tr) && |evs| == |tr| && n < |tr|
  {
  }

  lemma Rs1AtOne(b: Bin, t: ProducerType, any: bool, evs: seq<Event>, tr: Trace, n: nat)
    requires At(evs, tr, n) && Rs1Hit(b, WindowOf(evs, n), evs[n], 1, t, any).Some?
    requires t != PC_PLUS_4 && FixedForward(b) == Some((RS1, if t == MEM_DATA then FORWARD_MEM_WB else FORWARD_EX_MEM))
    requires StallExpected(b) == if t == MEM_DATA then 1 else 0
    ensures n >= 1 && Exactly(Rs1Hit(b, WindowOf(evs, n), evs[n], 1, t, any).value, evs, n, true)
  {
    hide At, WindowOf, Plausible, Rs1Hit, FixedForward, StallExpected, ChecksFor;
    AtPlausible(evs, tr, n);
    Rs1HitMeans(b, evs, tr, n, 1, t, any);
    OneForwardCheck(Rs1Hit(b, WindowOf(evs, n), evs[n], 1, t, any).value, evs[n], EventTable(evs), RS1,
                    if t == MEM_DATA then FORWARD_MEM_WB else FORWARD_EX_MEM);
    DistanceOne(tr, n);
  }

  lemma Rs1AtTwo(b: Bin, t: ProducerType, any: bool, evs: seq<Event>, tr: Trace, n: nat)
    requires At(evs, tr, n) && Rs1Hit(b, WindowOf(evs, n), evs[n], 2, t, any).Some?
    requires t != PC_PLUS_4 && FixedForward(b) == Some((RS1, FORWARD_MEM_WB)) && StallExpected(b) == 0
    ensures n >= 2 && (t != MEM_DATA ==> !LoadUse(tr, n - 1))
    ensures Exactly(Rs1Hit(b, WindowOf(evs, n), evs[n], 2, t, any).value, evs, n,
                    !LoadUse(tr, n) && !LoadUse(tr, n - 1) && !tr[n - 1].redirect)
  {
    hide At, WindowOf, Plausible, Rs1Hit, FixedForward, StallExpected, ChecksFor, LoadUse;
    AtPlausible(evs, tr, n);
    Rs1HitMeans(b, evs, tr, n, 2, t, any);
    OneForwardCheck(Rs1Hit(b, WindowOf(evs, n), evs[n], 2, t, any).value, evs[n], EventTable(evs), RS1,
                    FORWARD_MEM_WB);
    DistanceTwo(tr, n);
  }

  lemma Rs1Row(b: Bin, evs: seq<Event>, tr: Trace, n: nat)
    requires At(evs, tr, n) && HitFor(b, WindowOf(evs, n), evs[n]).Some?
    requires b == H01 || b == H03 || b == H06 || b == H08 || b == H11 || b == H12 || b == H13 || b == H14
    ensures n >= 1 && Exactly(HitFor(b, WindowOf(evs, n), evs[n]).value, evs, n, Realizable(b, tr, n))
  {
    hide At, WindowOf, Exactly, Rs1Hit, LoadUse;
    match b
    case H01 => Rs1AtOne(b, ALU_RESULT, false, evs, tr, n);
    case H06 => Rs1AtOne(b, MEM_DATA, false, evs, tr, n);
    case H11 => Rs1AtOne(b, IMM, true, evs, tr, n);
    case H13 => Rs1AtOne(b, PC_PLUS_IMM, true, evs, tr, n);
    case H03 => Rs1AtTwo(b, ALU_RESULT, false, evs, tr, n);
    case H08 => Rs1AtTwo(b, MEM_DATA, false, evs, tr, n);
    case H12 => Rs1AtTwo(b, IMM, true, evs, tr, n);
    case H14 => Rs1AtTwo(b, PC_PLUS_IMM, true, evs, tr, n);
  }

  lemma Rs2AtOne(b: Bin, t: ProducerType, evs: seq<Event>, tr: Trace, n: nat)
    requires At(evs, tr, n) && Rs2Hit(b, WindowOf(evs, n), evs[n], 1, t).Some?
    requires t != PC_PLUS_4 && FixedForward(b) == Some((RS2, if t == MEM_DATA then FORWARD_MEM_WB else FORWARD_EX_MEM))
    requires StallExpected(b) == if t == MEM_DATA then 1 else 0
    ensures n >= 1 && Exactly(Rs2Hit(b, WindowOf(evs, n), evs[n], 1, t).value, evs, n, true)
  {
    hide At, WindowOf, Plausible, Rs2Hit, FixedForward, StallExpected, ChecksFor;
    AtPlausible(evs, tr, n);
    Rs2HitMeans(b, evs, tr, n, 1, t);
    OneForwardCheck(Rs2Hit(b, WindowOf(evs, n), evs[n], 1, t).value, evs[n], EventTable(evs), RS2,
                    if t == MEM_DATA then FORWARD_MEM_WB else FORWARD_EX_MEM);
    DistanceOne(tr, n);
  }

  lemma Rs2AtTwo(b: Bin, t: ProducerType, evs: seq<Event>, tr: Trace, n: nat)
    requires At(evs, tr, n) && Rs2Hit(b, WindowOf(evs, n), evs[n], 2, t).Some?
    requires t != PC_PLUS_4 && FixedForward(b) == Some((RS2, FORWARD_MEM_WB)) && StallExpected(b) == 0
    ensures n >= 2 && (t != MEM_DATA ==> !LoadUse(tr, n - 1))
    ensures Exactly(Rs2Hit(b, WindowOf(evs, n), evs[n], 2, t).value, evs, n,
                    !LoadUse(tr, n) && !LoadUse(tr, n - 1) && !tr[n - 1].redirect)
  {
    hide At, WindowOf, Plausible, Rs2Hit, FixedForward, StallExpected, ChecksFor, LoadUse;
    AtPlausible(evs, tr, n);
    Rs2HitMeans(b, evs, tr, n, 2, t);
    OneForwardCheck(Rs2Hit(b, WindowOf(evs, n), evs[n], 2, t).value, evs[n], EventTable(evs), RS2, FORWARD_MEM_WB);
    DistanceTwo(tr, n);
  }

  lemma Rs2Row(b: Bin, evs: seq<Event>, tr: Trace, n: nat)
    requires At(evs, tr, n) && HitFor(b, WindowOf(evs, n), evs[n]).Some?
    requires b == H02 || b == H04 || b == H07 || b == H09
    ensures n >= 1 && Exactly(HitFor(b, WindowOf(evs, n), evs[n]).value, evs, n, Realizable(b, tr, n))
  {
    hide At, WindowOf, Exactly, Rs2Hit, LoadUse;
    match b
    case H02 => Rs2AtOne(b, ALU_RESULT, evs, tr, n);
    case H07 => Rs2AtOne(b, MEM_DATA, evs, tr, n);
    case H04 => Rs2AtTwo(b, ALU_RESULT, evs, tr, n);
    case H09 => Rs2AtTwo(b, MEM_DATA, evs, tr, n);
  }

  lemma StoreUnfolds(h: History, e: Event)
    requires HitFor(H16, h, e).Some?
    ensures Makes(h, 1, ALU_RESULT) && UsesRs2(e, RdAt(h, 1)) && IsNearest(h, 1)
    ensures HitFor(H16, h, e) == HitBy(H16, h, e, 1, [RS2])
  {
    hide IsNearest;
  }

  lemma StoreDataRow(evs: seq<Event>, tr: Trace, n: nat)
    requires At(evs, tr, n) && HitFor(H16, WindowOf(evs, n), evs[n]).Some?
    ensures n >= 1 && Exactly(HitFor(H16, WindowOf(evs, n), evs[n]).value, evs, n, true)
  {
    hide Exact, RawAgrees, ChecksFor, PathAt, Stalls, LastWriter, HitFor, NearestFrom, EventTable;
    var h := WindowOf(evs, n);
    var hit := HitFor(H16, h, evs[n]).value;
    StoreUnfolds(h, evs[n]);
    PositiveIsWriter(evs, tr, n, 1);
    NearestProducer(evs, tr, n, 1);
    SourceForwards(evs, tr, n, RdAt(h, 1));
    OneForwardCheck(hit, evs[n], EventTable(evs), RS2, FORWARD_EX_MEM);
    DistanceOne(tr, n);
  }

  /** Three instructions back is always three cycles back or more. */
  lemma RegisterFileRow(evs: seq<Event>, tr: Trace, n: nat)
    requires At(evs, tr, n) && HitFor(H05, WindowOf(evs, n), evs[n]).Some?
    ensures n >= 1 && Exactly(HitFor(H05, WindowOf(evs, n), evs[n]).value, evs, n, !LoadUse(tr, n))
  {
    hide Exact, RawAgrees, ChecksFor, UsedRoles;
    var h := WindowOf(evs, n);
    PositiveIsWriter(evs, tr, n, 3);
    NearestProducer(evs, tr, n, 3);
    SourceForwards(evs, tr, n, RdAt(h, 3));
    EveryRoleCheck(HitFor(H05, h, evs[n]).value, evs[n], EventTable(evs), RdAt(h, 3), FORWARD_RF);
    AcceptIncreases(tr, n - 3, n);
  }

  lemma LinkRow(evs: seq<Event>, tr: Trace, n: nat)
    requires At(evs, tr, n) && HitFor(H15, WindowOf(evs, n), evs[n]).Some?
    ensures n >= 1 && Exactly(HitFor(H15, WindowOf(evs, n), evs[n]).value, evs, n, true)
  {
    hide At, WindowOf, Plausible, HitFor, ChecksFor, PathAt, Stalls, UsedRoles;
    AtPlausible(evs, tr, n);
    LinkHitMeans(evs, tr, n);
    EveryRoleCheck(HitFor(H15, WindowOf(evs, n), evs[n]).value, evs[n], EventTable(evs), tr[n - 1].d.rd, FORWARD_RF);
    DistanceOne(tr, n);
  }

  /** What a hit of the link bin says of the trace. */
  lemma LinkHitMeans(evs: seq<Event>, tr: Trace, n: nat)
    requires At(evs, tr, n) && HitFor(H15, WindowOf(evs, n), evs[n]).Some?
    ensures 1 <= n && tr[n - 1].d.producerType == PC_PLUS_4 && tr[n - 1].d.writesRd && tr[n - 1].d.rd != 0
    ensures var hit, r := HitFor(H15, WindowOf(evs, n), evs[n]).value, tr[n - 1].d.rd;
            && hit.bin == H15 && hit.consumer == evs[n].index && hit.sources == UsedRoles(evs[n], r)
            && evs[n].d == tr[n].d && Reads(tr[n].d, r) && evs[n].stallCycles == Stalls(tr, n)
            && (UsesRs1(evs[n], r) ==> evs[n].forwardA == PathAt(tr, n, n - 1))
            && (UsesRs2(evs[n], r) ==> evs[n].forwardB == PathAt(tr, n, n - 1))
  {
    hide Exact, RawAgrees, PathAt, Stalls, LastWriter;
    var h := WindowOf(evs, n);
    PositiveIsWriter(evs, tr, n, 1);
    NearestProducer(evs, tr, n, 1);
    SourceForwards(evs, tr, n, RdAt(h, 1));
  }

  lemma RolesAreRead(e: Event, r: Reg)
    requires UsedRoles(e, r) != []
    ensures Reads(e.d, r)
  {
  }

  lemma PriorityRow(evs: seq<Event>, tr: Trace, n: nat)
    requires At(evs, tr, n) && HitFor(H17, WindowOf(evs, n), evs[n]).Some?
    ensures n >= 1 && Exactly(HitFor(H17, WindowOf(evs, n), evs[n]).value, evs, n, Realizable(H17, tr, n))
  {
    hide Exact, RawAgrees, ChecksFor, UsedRoles;
    var h := WindowOf(evs, n);
    PositiveIsWriter(evs, tr, n, 1);
    SourceForwards(evs, tr, n, RdAt(h, 1));
    RolesAreRead(evs[n], RdAt(h, 1));
    EveryRoleCheck(HitFor(H17, h, evs[n]).value, evs[n], EventTable(evs), RdAt(h, 1), FORWARD_EX_MEM);
    DistanceOne(tr, n);
  }

  lemma X0Rows(b: Bin, evs: seq<Event>, tr: Trace, n: nat)
    requires At(evs, tr, n) && (b == H18 || b == H19) && HitFor(b, WindowOf(evs, n), evs[n]).Some?
    ensures n >= 1 && Exactly(HitFor(b, WindowOf(evs, n), evs[n]).value, evs, n, true)
  {
    hide Exact, RawAgrees, ChecksFor;
    var hit := HitFor(b, WindowOf(evs, n), evs[n]).value;
    SourceForwards(evs, tr, n, 0);
    assert Stalls(tr, n) == 0;
    if b == H18 {
      EveryRoleCheck(hit, evs[n], EventTable(evs), 0, FORWARD_RF);
    } else {
      OnlyStallCheck(hit, evs[n], EventTable(evs));
    }
  }

  lemma FalseDependencyRow(evs: seq<Event>, tr: Trace, n: nat)
    requires At(evs, tr, n) && HitFor(H20, WindowOf(evs, n), evs[n]).Some?
    ensures n >= 1 && Exactly(HitFor(H20, WindowOf(evs, n), evs[n]).value, evs, n, true)
  {
    hide Exact, RawAgrees, ChecksFor;
    PositiveIsWriter(evs, tr, n, 1);
    assert !Reads(tr[n].d, tr[n - 1].d.rd);
    assert Stalls(tr, n) == 0;
    OnlyStallCheck(HitFor(H20, WindowOf(evs, n), evs[n]).value, evs[n], EventTable(evs));
  }

  lemma DualUnfolds(h: History, e: Event)
    requires HitFor(H10, h, e).Some?
    ensures DualSource(h, e) && HitFor(H10, h, e) == BothHit(H10, h, e, [RS1, RS2])
  {
  }

  /** What a hit of the dual bin says of the trace. */
  lemma DualHitMeans(evs: seq<Event>, tr: Trace, n: nat)
    requires At(evs, tr, n) && HitFor(H10, WindowOf(evs, n), evs[n]).Some?
    ensures 2 <= n && Plausible(tr) && evs[n].d == tr[n].d && evs[n].stallCycles == Stalls(tr, n)
    ensures forall k | n - 2 <= k < n ::
              tr[k].d == evs[k].d && tr[k].d.producerType == ALU_RESULT && Writes(tr[k].d, tr[k].d.rd)
    ensures var hit, newer, older := HitFor(H10, WindowOf(evs, n), evs[n]).value, tr[n - 1].d.rd, tr[n - 2].d.rd;
            && hit.bin == H10 && hit.consumer == evs[n].index && hit.producers == [n - 1, n]
            && newer != older && tr[n].d.usesRs1 && tr[n].d.usesRs2
            && ((tr[n].d.rs1 == newer && tr[n].d.rs2 == older) || (tr[n].d.rs1 == older && tr[n].d.rs2 == newer))
  {
    hide Exact, RawAgrees, Stalls, ForwardA, ForwardB, HitFor, LastWriter, NearestFrom;
    DualUnfolds(WindowOf(evs, n), evs[n]);
    PositiveIsWriter(evs, tr, n, 1);
    PositiveIsWriter(evs, tr, n, 2);
  }

  lemma DualTiming(evs: seq<Event>, tr: Trace, n: nat)
    requires At(evs, tr, n) && HitFor(H10, WindowOf(evs, n), evs[n]).Some?
    ensures 2 <= n && evs[n].stallCycles == 0
    ensures evs[n].d.rs1 == tr[n - 1].d.rd ==> evs[n].forwardA == FORWARD_EX_MEM && evs[n].forwardB == FORWARD_MEM_WB
    ensures evs[n].d.rs1 == tr[n - 2].d.rd ==> evs[n].forwardA == FORWARD_MEM_WB && evs[n].forwardB == FORWARD_EX_MEM
  {
    hide At, WindowOf, HitFor, Plausible, PathAt, Stalls;
    AtPlausible(evs, tr, n);
    DualHitMeans(evs, tr, n);
    var newer, older := tr[n - 1].d.rd, tr[n - 2].d.rd;
    SourceForwards(evs, tr, n, newer);
    SourceForwards(evs, tr, n, older);
    assert LastWriter(tr, n, newer) == Some(n - 1);
    assert LastWriter(tr, n - 1, older) == Some(n - 2);
    DistanceOne(tr, n);
    DualDistanceTwo(tr, n);
  }

  /** Nothing slips in between two results of the ALU. */
  lemma DualDistanceTwo(tr: Trace, n: nat)
    requires Plausible(tr) && 2 <= n < |tr| && Reads(tr[n].d, tr[n - 2].d.rd)
    requires forall k | n - 2 <= k < n :: tr[k].d.producerType == ALU_RESULT && Writes(tr[k].d, tr[k].d.rd)
    ensures PathAt(tr, n, n - 2) == FORWARD_MEM_WB
  {
    hide Plausible, PathAt;
    DistanceTwo(tr, n);
    NoBubbles(tr, n - 1);
  }

  lemma DualRow(evs: seq<Event>, tr: Trace, n: nat)
    requires At(evs, tr, n) && HitFor(H10, WindowOf(evs, n), evs[n]).Some?
    ensures n >= 1 && Exactly(HitFor(H10, WindowOf(evs, n), evs[n]).value, evs, n, true)
  {
    hide At, WindowOf, HitFor, Plausible, ChecksFor, Stalls, EventTable;
    AtPlausible(evs, tr, n);
    DualHitMeans(evs, tr, n);
    DualTiming(evs, tr, n);
    EventTableAt(evs, n - 1);
    EventTableAt(evs, n - 2);
    DualChecksPass(HitFor(H10, WindowOf(evs, n), evs[n]).value, evs[n], EventTable(evs), tr[n - 1].d.rd, tr[n - 2].d.rd);
  }

  lemma DualChecksPass(hit: Hit, e: Event, events: map<int, Event>, newer: Reg, older: Reg)
    requires hit.bin == H10 && hit.consumer == e.index && |hit.producers| == 2
    requires hit.producers[0] in events && events[hit.producers[0]].d.rd == older
    requires hit.producers[1] in events && events[hit.producers[1]].d.rd == newer
    requires e.d.usesRs1 && e.d.usesRs2 && newer != older && e.stallCycles == 0
    requires (e.d.rs1 == newer && e.d.rs2 == older && e.forwardA == FORWARD_EX_MEM && e.forwardB == FORWARD_MEM_WB)
          || (e.d.rs1 == older && e.d.rs2 == newer && e.forwardA == FORWARD_MEM_WB && e.forwardB == FORWARD_EX_MEM)
    ensures ChecksFor(hit, e, events).Ok? && AllPassed(ChecksFor(hit, e, events).value)
  {
  }

  /**
   Every hit of every bin, on every executed trace: the checker raises nothing,
   and it passes the hit exactly when Realizable says so.
   */
  lemma TableAgreesWithOracle(b: Bin, evs: seq<Event>, tr: Trace, n: nat)
    requires At(evs, tr, n) && HitFor(b, WindowOf(evs, n), evs[n]).Some?
    ensures n >= 1 && Exactly(HitFor(b, WindowOf(evs, n), evs[n]).value, evs, n, Realizable(b, tr, n))
  {
    hide At, WindowOf, Exactly, HitFor, LoadUse;
    match b
    case H02 => Rs2Row(b, evs, tr, n);
    case H04 => Rs2Row(b, evs, tr, n);
    case H07 => Rs2Row(b, evs, tr, n);
    case H09 => Rs2Row(b, evs, tr, n);
    case H05 => RegisterFileRow(evs, tr, n);
    case H10 => DualRow(evs, tr, n);
    case H15 => LinkRow(evs, tr, n);
    case H16 => StoreDataRow(evs, tr, n);
    case H17 => PriorityRow(evs, tr, n);
    case H18 => X0Rows(b, evs, tr, n);
    case H19 => X0Rows(b, evs, tr, n);
    case H20 => FalseDependencyRow(evs, tr, n);
    case _ => Rs1Row(b, evs, tr, n);
  }
}
