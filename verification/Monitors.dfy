/**
 The performance monitors: an expectation is registered when its instruction is
 accepted, and the verdict falls when it retires. The batch monitor knows all
 expectations beforehand and keeps every verdict; the streaming one keeps the
 instructions in flight and scalar counters.
 */
module PerformanceMonitors {
  import opened Wrappers
  import TimingOracle
  import opened Retirement

  type Expectation = TimingOracle.Expectation

  datatype PerformanceResult = PerformanceResult(id: int, expected: int, observed: int, delta: int)

  datatype PerformanceError = NotContiguous | NoExpectation | Duplicate | OutOfOrder

  function ResultOf(e: Expectation, r: RetireEvent): PerformanceResult {
    PerformanceResult(r.id, e.retire, r.cycle, r.cycle - e.retire)
  }

  function Max(a: int, b: int): int {
    if a >= b then a else b
  }

  // ---------------------------------------------------------------------
  // What a history of verdicts comes to
  // ---------------------------------------------------------------------

  type Results = map<int, PerformanceResult>

  datatype Counters = Counters(
    checked: nat, passed: nat, failed: nat, late: nat, early: nat, excess: int, maxExcess: int, earlyCycles: int)

  const ZERO := Counters(0, 0, 0, 0, 0, 0, 0, 0)

  function Passed(m: Results): set<int> {
    set id | id in m && m[id].delta == 0
  }

  function Late(m: Results): set<int> {
    set id | id in m && m[id].delta > 0
  }

  function Early(m: Results): set<int> {
    set id | id in m && m[id].delta < 0
  }

  ghost function Excesses(m: Results, n: nat): seq<int>
    requires Kept(m, n)
  {
    seq(n, k requires 0 <= k < n => Max(0, m[k + 1].delta))
  }

  ghost function EarlyCycles(m: Results, n: nat): seq<int>
    requires Kept(m, n)
  {
    seq(n, k requires 0 <= k < n => Max(0, -m[k + 1].delta))
  }

  function Total(xs: seq<int>): int {
    if xs == [] then 0 else Total(xs[..|xs| - 1]) + xs[|xs| - 1]
  }

  /** The greatest element, zero if there is none. */
  predicate Greatest(m: int, xs: seq<int>) {
    (forall x | x in xs :: x <= m) && (if xs == [] then m == 0 else m in xs)
  }

  /** Verdicts are kept for exactly the first n instructions. */
  ghost predicate Kept(m: Results, n: nat) {
    |m| == n && forall id :: id in m <==> 1 <= id <= n
  }

  /** The counters are the aggregates of the history. */
  ghost predicate Summarises(c: Counters, m: Results, n: nat) {
    && Kept(m, n) && c.checked == n
    && c.passed == |Passed(m)| && c.failed == n - |Passed(m)| && c.late == |Late(m)| && c.early == |Early(m)|
    && c.excess == Total(Excesses(m, n)) && Greatest(c.maxExcess, Excesses(m, n))
    && c.earlyCycles == Total(EarlyCycles(m, n))
  }

  /** A history has one summary. */
  lemma SummaryIsUnique(c: Counters, c': Counters, m: Results, n: nat)
    requires Summarises(c, m, n) && Summarises(c', m, n)
    ensures c == c'
  {
    hide Total, Excesses, EarlyCycles;
  }

  /** Every verdict that is not a pass is late or early. */
  lemma FailedAreLateOrEarly(c: Counters, m: Results, n: nat)
    requires Summarises(c, m, n)
    ensures c.failed == c.late + c.early
  {
    hide Total, Excesses, EarlyCycles;
    assert m.Keys == Passed(m) + Late(m) + Early(m);
    assert |m.Keys| == |m|;
  }

  /** The counter updates of one verdict. */
  function Counted(c: Counters, d: int): Counters {
    if d == 0 then c.(checked := c.checked + 1, passed := c.passed + 1)
    else if d > 0 then
      c.(checked := c.checked + 1, failed := c.failed + 1, late := c.late + 1,
         excess := c.excess + d, maxExcess := Max(c.maxExcess, d))
    else c.(checked := c.checked + 1, failed := c.failed + 1, early := c.early + 1, earlyCycles := c.earlyCycles - d)
  }

  lemma OneMoreKept(m: Results, n: nat, r: PerformanceResult)
    requires Kept(m, n)
    ensures Kept(m[n + 1 := r], n + 1)
  {
    assert m[n + 1 := r].Keys == m.Keys + {n + 1};
  }

  /** Updating the scalars is summarising the longer history. */
  lemma OneMoreVerdict(c: Counters, m: Results, n: nat, r: PerformanceResult)
    requires Summarises(c, m, n)
    ensures Summarises(Counted(c, r.delta), m[n + 1 := r], n + 1)
  {
    hide Total, Greatest, Kept, Passed, Late, Early, Excesses, EarlyCycles;
    NotYetKept(m, n);
    OneMoreKept(m, n, r);
    OneMorePassed(m, n + 1, r);
    OneMoreLate(m, n + 1, r);
    OneMoreEarly(m, n + 1, r);
    OneMoreExcess(m, n, r);
    OneMoreEarliness(m, n, r);
    TotalAppend(Excesses(m, n), Max(0, r.delta));
    TotalAppend(EarlyCycles(m, n), Max(0, -r.delta));
    NeverNegative(c.maxExcess, m, n);
    GreatestAppend(c.maxExcess, Excesses(m, n), Max(0, r.delta));
  }

  lemma NotYetKept(m: Results, n: nat)
    requires Kept(m, n)
    ensures n + 1 !in m
  {
  }

  lemma OneMorePassed(m: Results, id: int, r: PerformanceResult)
    requires id !in m
    ensures |Passed(m[id := r])| == |Passed(m)| + (if r.delta == 0 then 1 else 0)
  {
    assert Passed(m[id := r]) == Passed(m) + (if r.delta == 0 then {id} else {});
  }

  lemma OneMoreLate(m: Results, id: int, r: PerformanceResult)
    requires id !in m
    ensures |Late(m[id := r])| == |Late(m)| + (if r.delta > 0 then 1 else 0)
  {
    assert Late(m[id := r]) == Late(m) + (if r.delta > 0 then {id} else {});
  }

  lemma OneMoreEarly(m: Results, id: int, r: PerformanceResult)
    requires id !in m
    ensures |Early(m[id := r])| == |Early(m)| + (if r.delta < 0 then 1 else 0)
  {
    assert Early(m[id := r]) == Early(m) + (if r.delta < 0 then {id} else {});
  }

  lemma OneMoreExcess(m: Results, n: nat, r: PerformanceResult)
    requires Kept(m, n) && Kept(m[n + 1 := r], n + 1)
    ensures Excesses(m[n + 1 := r], n + 1) == Excesses(m, n) + [Max(0, r.delta)]
  {
    hide Max;
  }

  lemma OneMoreEarliness(m: Results, n: nat, r: PerformanceResult)
    requires Kept(m, n) && Kept(m[n + 1 := r], n + 1)
    ensures EarlyCycles(m[n + 1 := r], n + 1) == EarlyCycles(m, n) + [Max(0, -r.delta)]
  {
    hide Max;
  }

  lemma TotalAppend(xs: seq<int>, x: int)
    ensures Total(xs + [x]) == Total(xs) + x
  {
    assert (xs + [x])[..|xs|] == xs;
  }

  lemma GreatestAppend(m: int, xs: seq<int>, x: int)
    requires Greatest(m, xs) && m >= 0 && x >= 0
    ensures Greatest(Max(m, x), xs + [x])
  {
    assert forall y :: y in xs + [x] <==> y in xs || y == x;
  }

  lemma NeverNegative(greatest: int, m: Results, n: nat)
    requires Kept(m, n) && Greatest(greatest, Excesses(m, n))
    ensures greatest >= 0
  {
  }

  // ---------------------------------------------------------------------
  // One call of either monitor
  // ---------------------------------------------------------------------

  datatype Call = Register(expectation: Expectation) | Retire(retire: RetireEvent)

  datatype Batch = Batch(results: Results, last: nat)

  datatype Stream = Stream(expected: map<int, Expectation>, registered: nat, counters: Counters, last: nat)

  predicate Numbered(es: seq<Expectation>) {
    forall k | 0 <= k < |es| :: es[k].id == k + 1
  }

  /** The batch monitor was given all expectations; registering is nothing to it. */
  function BatchStep(es: seq<Expectation>, s: Batch, call: Call): Option<(Batch, seq<PerformanceResult>)> {
    match call
    case Register(_) => Some((s, []))
    case Retire(r) =>
      if !(1 <= r.id <= |es|) || r.id in s.results || r.id != s.last + 1 then None
      else var v := ResultOf(es[r.id - 1], r); Some((Batch(s.results[r.id := v], r.id), [v]))
  }

  function StreamStep(s: Stream, call: Call): Option<(Stream, seq<PerformanceResult>)> {
    match call
    case Register(e) =>
      if e.id != s.registered + 1 || e.id in s.expected then None
      else Some((s.(expected := s.expected[e.id := e], registered := s.registered + 1), []))
    case Retire(r) =>
      if r.id !in s.expected || r.id != s.last + 1 then None
      else
        var v := ResultOf(s.expected[r.id], r);
        Some((Stream(s.expected - {r.id}, s.registered, Counted(s.counters, v.delta), r.id), [v]))
  }

  // ---------------------------------------------------------------------
  // Whole runs
  // ---------------------------------------------------------------------

  function BatchRun(es: seq<Expectation>, calls: seq<Call>): Option<(Batch, seq<PerformanceResult>)> {
    if calls == [] then Some((Batch(map[], 0), []))
    else
      match BatchRun(es, calls[..|calls| - 1])
      case None => None
      case Some((before, log)) =>
        match BatchStep(es, before, calls[|calls| - 1])
        case None => None
        case Some((after, more)) => Some((after, log + more))
  }

  function StreamRun(calls: seq<Call>): Option<(Stream, seq<PerformanceResult>)> {
    if calls == [] then Some((Stream(map[], 0, ZERO, 0), []))
    else
      match StreamRun(calls[..|calls| - 1])
      case None => None
      case Some((before, log)) =>
        match StreamStep(before, calls[|calls| - 1])
        case None => None
        case Some((after, more)) => Some((after, log + more))
  }

  function Registered(calls: seq<Call>): seq<Expectation> {
    if calls == [] then []
    else
      var last := calls[|calls| - 1];
      Registered(calls[..|calls| - 1]) + (if last.Register? then [last.expectation] else [])
  }

  /** Registered in sequence, and retired only once registered. */
  predicate InTime(calls: seq<Call>) {
    calls == []
    || (InTime(calls[..|calls| - 1])
        && match calls[|calls| - 1]
           case Register(e) => e.id == |Registered(calls[..|calls| - 1])| + 1
           case Retire(r) => r.id <= |Registered(calls[..|calls| - 1])|)
  }

  /** Expectations are kept for in-flight instructions only. */
  ghost predicate InFlight(expected: map<int, Expectation>, es: seq<Expectation>, registered: nat, retired: nat) {
    && retired <= registered <= |es|
    && (forall id :: id in expected <==> retired < id <= registered)
    && forall id | id in expected :: expected[id] == es[id - 1]
  }

  /** Both stand at the same point; the streaming counters summarise the history the batch monitor kept. */
  ghost predicate Agree(s: Stream, b: Batch, es: seq<Expectation>, log: seq<PerformanceResult>, registered: nat) {
    && s.registered == registered && s.last == b.last == |log| && InFlight(s.expected, es, registered, s.last)
    && Summarises(s.counters, b.results, b.last)
    && forall id | id in b.results :: b.results[id] == log[id - 1]
  }

  lemma SameRegister(s: Stream, b: Batch, es: seq<Expectation>, log: seq<PerformanceResult>, registered: nat, e: Expectation)
    requires Agree(s, b, es, log, registered) && registered < |es| && es[registered] == e
    ensures StreamStep(s, Register(e)).Some? <==> e.id == registered + 1
    ensures StreamStep(s, Register(e)).Some? ==>
              && StreamStep(s, Register(e)).value.1 == [] && BatchStep(es, b, Register(e)) == Some((b, []))
              && Agree(StreamStep(s, Register(e)).value.0, b, es, log + [], registered + 1)
  {
    hide Summarises;
    assert log + [] == log;
  }

  lemma SameRetire(s: Stream, b: Batch, es: seq<Expectation>, log: seq<PerformanceResult>, registered: nat, r: RetireEvent)
    requires Agree(s, b, es, log, registered)
    ensures StreamStep(s, Retire(r)).Some? <==> r.id <= registered && BatchStep(es, b, Retire(r)).Some?
    ensures StreamStep(s, Retire(r)).Some? ==>
              && BatchStep(es, b, Retire(r)).value.1 == StreamStep(s, Retire(r)).value.1
              && Agree(StreamStep(s, Retire(r)).value.0, BatchStep(es, b, Retire(r)).value.0, es,
                       log + StreamStep(s, Retire(r)).value.1, registered)
  {
    hide Summarises, ResultOf, Counted, InFlight, Kept;
    SummaryKeeps(s.counters, b.results, b.last);
    NotYetKept(b.results, b.last);
    FlightHead(s.expected, es, registered, s.last, r.id);
    if StreamStep(s, Retire(r)).Some? {
      OneMoreVerdict(s.counters, b.results, b.last, StreamStep(s, Retire(r)).value.1[0]);
      FlightLess(s.expected, es, registered, s.last);
      SummaryKeepsLog(b.results, b.last);
    }
  }

  lemma FlightHead(expected: map<int, Expectation>, es: seq<Expectation>, registered: nat, retired: nat, id: int)
    requires InFlight(expected, es, registered, retired)
    ensures id == retired + 1 ==> (id in expected <==> id <= registered)
    ensures id == retired + 1 && id in expected ==> 1 <= id <= |es| && expected[id] == es[id - 1]
    ensures registered <= |es|
  {
  }

  lemma FlightLess(expected: map<int, Expectation>, es: seq<Expectation>, registered: nat, retired: nat)
    requires InFlight(expected, es, registered, retired) && retired < registered
    ensures InFlight(expected - {retired + 1}, es, registered, retired + 1)
  {
  }

  lemma SummaryKeepsLog(m: Results, n: nat)
    requires Kept(m, n)
    ensures forall id | id in m :: 1 <= id <= n
  {
  }

  lemma SummaryKeeps(c: Counters, m: Results, n: nat)
    requires Summarises(c, m, n)
    ensures Kept(m, n)
  {
  }

  lemma NothingYet(es: seq<Expectation>)
    ensures Agree(StreamRun([]).value.0, BatchRun(es, []).value.0, es, [], 0)
  {
    assert Passed(map[]) == {} && Late(map[]) == {} && Early(map[]) == {};
  }

  /**
   Over any calls, several instructions in flight and refused calls included: the
   streaming monitor accepts the run exactly when expectations are registered in
   sequence, before they retire, and the batch monitor accepts it. Then verdicts
   and aggregates are the same, and only what is in flight is kept.
   */
  lemma {:induction false} SameResults(es: seq<Expectation>, calls: seq<Call>)
    requires Registered(calls) <= es
    ensures StreamRun(calls).Some? <==> InTime(calls) && BatchRun(es, calls).Some?
    ensures StreamRun(calls).Some? ==>
              && StreamRun(calls).value.1 == BatchRun(es, calls).value.1
              && Agree(StreamRun(calls).value.0, BatchRun(es, calls).value.0, es, StreamRun(calls).value.1,
                       |Registered(calls)|)
  {
    hide StreamStep, BatchStep, Agree;
    if calls == [] {
      NothingYet(es);
    } else {
      var front, last := calls[..|calls| - 1], calls[|calls| - 1];
      assert Registered(front) <= es;
      SameResults(es, front);
      if StreamRun(front).Some? {
        var (s, log) := StreamRun(front).value;
        match last
        case Register(e) => SameRegister(s, BatchRun(es, front).value.0, es, log, |Registered(front)|, e);
        case Retire(r) => SameRetire(s, BatchRun(es, front).value.0, es, log, |Registered(front)|, r);
      } else {
        BatchRegisters(es, front, last);
      }
    }
  }

  lemma BatchRegisters(es: seq<Expectation>, calls: seq<Call>, call: Call)
    ensures BatchRun(es, calls).None? ==> BatchRun(es, calls + [call]).None?
  {
    assert (calls + [call])[..|calls|] == calls;
  }

  lemma {:induction false} IntervalSize(ids: set<nat>, lo: nat, hi: nat)
    requires lo <= hi && forall id :: id in ids <==> lo < id <= hi
    ensures |ids| == hi - lo
    decreases hi - lo
  {
    if lo < hi {
      assert hi in ids;
      IntervalSize(ids - {hi}, lo, hi - 1);
    } else {
      assert ids == {};
    }
  }

  /** Retained state is the instructions in flight, however long the run. */
  lemma OnlyInFlight(calls: seq<Call>)
    requires StreamRun(calls).Some?
    ensures var s := StreamRun(calls).value.0; |s.expected| == s.registered - s.last
  {
    hide StreamRun, Summarises;
    SameResults(Registered(calls), calls);
    var s := StreamRun(calls).value.0;
    IntervalSize(s.expected.Keys, s.last, s.registered);
  }

  /** Some retirement in the run is what the verdict is about. */
  ghost predicate Tells(v: PerformanceResult, es: seq<Expectation>, calls: seq<Call>) {
    && 1 <= v.id <= |es|
    && exists r :: Retire(r) in calls && r.id == v.id && TellsOf(v, es[v.id - 1].retire, r.cycle)
  }

  /** Late by the cycles after the expected one, early by the cycles before it. */
  predicate TellsOf(v: PerformanceResult, expected: int, observed: int) {
    && v.expected == expected && v.observed == observed
    && (v.delta > 0 <==> observed > expected) && (v.delta < 0 <==> observed < expected)
    && Max(v.delta, -v.delta) == if observed > expected then observed - expected else expected - observed
  }

  /** Every verdict of an accepted run is about an observed retirement of its instruction, and tells its delay. */
  lemma {:induction false} VerdictsTellDelay(es: seq<Expectation>, calls: seq<Call>)
    requires BatchRun(es, calls).Some?
    ensures forall v | v in BatchRun(es, calls).value.1 :: Tells(v, es, calls)
  {
    hide TellsOf;
    if calls != [] {
      var front, call := calls[..|calls| - 1], calls[|calls| - 1];
      VerdictsTellDelay(es, front);
      assert call in calls && forall c | c in front :: c in calls;
      forall v | v in BatchRun(es, front).value.1
        ensures Tells(v, es, calls)
      {
        assert Tells(v, es, front);
      }
      if call.Retire? {
        OneVerdict(es[call.retire.id - 1], call.retire);
      }
    }
  }

  lemma OneVerdict(e: Expectation, r: RetireEvent)
    ensures ResultOf(e, r).id == r.id && TellsOf(ResultOf(e, r), e.retire, r.cycle)
  {
  }

  // ---------------------------------------------------------------------
  // The two monitors
  // ---------------------------------------------------------------------

  class BatchMonitor {
    const expectations: seq<Expectation>
    var resultsById: Results
    var lastObserved: nat

    function View(): Batch
      reads this
    {
      Batch(resultsById, lastObserved)
    }

    constructor (expectations: seq<Expectation>)
      requires Numbered(expectations)
      ensures this.expectations == expectations && BatchRun(expectations, []) == Some((View(), []))
    {
      this.expectations := expectations;
      resultsById := map[];
      lastObserved := 0;
    }

    method ObserveRetire(r: RetireEvent) returns (o: Result<PerformanceResult, PerformanceError>)
      modifies this
      ensures o.Ok? <==> BatchStep(expectations, old(View()), Retire(r)).Some?
      ensures o.Ok? ==> BatchStep(expectations, old(View()), Retire(r)) == Some((View(), [o.value]))
      ensures o.Err? ==> View() == old(View())
    {
      if !(1 <= r.id <= |expectations|) {
        return Err(NoExpectation);
      }
      if r.id in resultsById {
        return Err(Duplicate);
      }
      if r.id != lastObserved + 1 {
        return Err(OutOfOrder);
      }
      var result := ResultOf(expectations[r.id - 1], r);
      resultsById := resultsById[r.id := result];
      lastObserved := r.id;
      o := Ok(result);
    }

    /** The aggregate properties: counts by comprehension, sums and the maximum by going over the history. */
    method Summary() returns (c: Counters)
      requires Kept(resultsById, lastObserved)
      ensures Summarises(c, resultsById, lastObserved)
    {
      hide Passed, Late, Early, Total, Greatest, Excesses, EarlyCycles, Kept;
      var excess, greatest, early := 0, 0, 0;
      ghost var excesses, earlies := Excesses(resultsById, lastObserved), EarlyCycles(resultsById, lastObserved);
      FirstSlices(resultsById, lastObserved);
      for k := 0 to lastObserved
        invariant |excesses| == |earlies| == lastObserved
        invariant excess == Total(excesses[..k]) && early == Total(earlies[..k])
        invariant greatest >= 0 && Greatest(greatest, excesses[..k])
      {
        NextSlices(resultsById, lastObserved, k);
        var d := resultsById[k + 1].delta;
        TotalAppend(excesses[..k], Max(0, d));
        TotalAppend(earlies[..k], Max(0, -d));
        GreatestAppend(greatest, excesses[..k], Max(0, d));
        excess, greatest, early := excess + Max(0, d), Max(greatest, Max(0, d)), early + Max(0, -d);
      }
      assert excesses[..lastObserved] == excesses && earlies[..lastObserved] == earlies;
      PassedAreKept(resultsById, lastObserved);
      c := Counters(|resultsById|, |Passed(resultsById)|, |resultsById| - |Passed(resultsById)|, |Late(resultsById)|,
                    |Early(resultsById)|, excess, greatest, early);
    }
  }

  lemma FirstSlices(m: Results, n: nat)
    requires Kept(m, n)
    ensures |Excesses(m, n)| == |EarlyCycles(m, n)| == n
    ensures Excesses(m, n)[..0] == EarlyCycles(m, n)[..0] == [] && Total([]) == 0 && Greatest(0, [])
  {
  }

  lemma NextSlices(m: Results, n: nat, k: nat)
    requires Kept(m, n) && k < n
    ensures k + 1 in m && |Excesses(m, n)| == |EarlyCycles(m, n)| == n
    ensures Excesses(m, n)[..k + 1] == Excesses(m, n)[..k] + [Max(0, m[k + 1].delta)]
    ensures EarlyCycles(m, n)[..k + 1] == EarlyCycles(m, n)[..k] + [Max(0, -m[k + 1].delta)]
  {
    hide Max;
  }

  lemma PassedAreKept(m: Results, n: nat)
    requires Kept(m, n)
    ensures |Passed(m)| <= |m| == n
  {
    assert m.Keys == Passed(m) + (m.Keys - Passed(m));
  }

  class StreamingMonitor {
    var expectedById: map<int, Expectation>
    var registered: nat
    var counters: Counters
    var lastObserved: nat

    function View(): Stream
      reads this
    {
      Stream(expectedById, registered, counters, lastObserved)
    }

    constructor ()
      ensures StreamRun([]) == Some((View(), []))
    {
      expectedById := map[];
      registered := 0;
      counters := ZERO;
      lastObserved := 0;
    }

    method RegisterExpectation(e: Expectation) returns (r: Result<(), PerformanceError>)
      modifies this
      ensures r.Ok? <==> StreamStep(old(View()), Register(e)).Some?
      ensures r.Ok? ==> StreamStep(old(View()), Register(e)) == Some((View(), []))
      ensures r.Err? ==> View() == old(View())
    {
      if e.id != registered + 1 {
        return Err(NotContiguous);
      }
      if e.id in expectedById {
        return Err(Duplicate);
      }
      expectedById := expectedById[e.id := e];
      registered := registered + 1;
      r := Ok(());
    }

    method ObserveRetire(r: RetireEvent) returns (o: Result<PerformanceResult, PerformanceError>)
      modifies this
      ensures o.Ok? <==> StreamStep(old(View()), Retire(r)).Some?
      ensures o.Ok? ==> StreamStep(old(View()), Retire(r)) == Some((View(), [o.value]))
      ensures o.Err? ==> View() == old(View())
    {
      if r.id !in expectedById {
        return Err(NoExpectation);
      }
      if r.id != lastObserved + 1 {
        return Err(OutOfOrder);
      }
      var result := ResultOf(expectedById[r.id], r);
      expectedById := expectedById - {r.id};
      lastObserved := r.id;
      Count(result);
      o := Ok(result);
    }

    method Count(result: PerformanceResult)
      modifies `counters
      ensures counters == Counted(old(counters), result.delta)
    {
      var c, d := counters, result.delta;
      counters := c.(checked := c.checked + 1);
      if d == 0 {
        counters := counters.(passed := c.passed + 1);
      } else {
        counters := counters.(failed := c.failed + 1);
      }
      if d > 0 {
        counters := counters.(late := c.late + 1, excess := c.excess + d, maxExcess := Max(c.maxExcess, d));
      } else if d < 0 {
        counters := counters.(early := c.early + 1, earlyCycles := c.earlyCycles - d);
      }
    }
  }

  /** Both objects over one accepted run: the same verdicts, and the scalars are the batch's aggregates. */
  method CompareMonitors(es: seq<Expectation>, calls: seq<Call>)
    returns (batch: seq<PerformanceResult>, streamed: seq<PerformanceResult>, summary: Counters, counters: Counters)
    requires Numbered(es) && Registered(calls) <= es && InTime(calls) && BatchRun(es, calls).Some?
    ensures StreamRun(calls).Some?
    ensures batch == streamed == StreamRun(calls).value.1 && summary == counters
    ensures Summarises(summary, BatchRun(es, calls).value.0.results, |batch|)
  {
    hide StreamStep, BatchStep, Summarises;
    var b := new BatchMonitor(es);
    var s := new StreamingMonitor();
    batch, streamed := [], [];
    SameResults(es, calls);
    for k := 0 to |calls|
      invariant fresh(b) && fresh(s) && b.expectations == es
      invariant BatchRun(es, calls[..k]) == Some((b.View(), batch)) && StreamRun(calls[..k]) == Some((s.View(), streamed))
    {
      RunsThrough(es, calls, k);
      match calls[k]
      case Register(e) =>
        NothingRegistered(es, b.View(), e);
        var _ := s.RegisterExpectation(e);
      case Retire(r) =>
        var one := b.ObserveRetire(r);
        var two := s.ObserveRetire(r);
        batch, streamed := batch + [one.value], streamed + [two.value];
    }
    assert calls[..|calls|] == calls;
    SummaryKeeps(s.counters, b.resultsById, b.lastObserved);
    summary := b.Summary();
    counters := s.counters;
    SummaryIsUnique(summary, counters, b.resultsById, b.lastObserved);
  }

  lemma NothingRegistered(es: seq<Expectation>, b: Batch, e: Expectation)
    ensures BatchStep(es, b, Register(e)) == Some((b, []))
    ensures forall log: seq<PerformanceResult> :: log + [] == log
  {
  }

  /** An accepted run was accepted at every call. */
  lemma {:induction false} RunsThrough(es: seq<Expectation>, calls: seq<Call>, k: nat)
    requires k < |calls| && BatchRun(es, calls).Some? && StreamRun(calls).Some?
    ensures BatchRun(es, calls[..k]).Some? && StreamRun(calls[..k]).Some?
    ensures var (b, log) := BatchRun(es, calls[..k]).value;
            && BatchStep(es, b, calls[k]).Some?
            && BatchRun(es, calls[..k + 1])
               == Some((BatchStep(es, b, calls[k]).value.0, log + BatchStep(es, b, calls[k]).value.1))
    ensures var (s, log) := StreamRun(calls[..k]).value;
            && StreamStep(s, calls[k]).Some?
            && StreamRun(calls[..k + 1])
               == Some((StreamStep(s, calls[k]).value.0, log + StreamStep(s, calls[k]).value.1))
    decreases |calls|
  {
    hide StreamStep, BatchStep;
    if k + 1 < |calls| {
      var front := calls[..|calls| - 1];
      RunsThrough(es, front, k);
      assert front[..k] == calls[..k] && front[..k + 1] == calls[..k + 1] && front[k] == calls[k];
    } else {
      assert calls[..k + 1] == calls;
    }
  }
}
