/** Identity tags through the last three stages: each accepted instruction retires once, three cycles later. */
module Retirement {
  import opened Wrappers
  import opened Rv32Isa
  import opened TimingTrace
  import opened TimingOracle
  import opened TimingRefinement

  datatype RetireEvent = RetireEvent(cycle: nat, regwrite: bool, rd: Reg, wdata: Word, id: int)

  datatype RetireError = WriteWithoutTag | OrderViolation

  /** The observed write-back port in one cycle. */
  datatype Port = Port(regwrite: bool, rd: Reg, wdata: Word)

  class RetireMonitor {
    var b: Option<int>
    var c: Option<int>
    var d: Option<int>
    var lastRetired: nat
    var retiredCount: nat

    constructor ()
      ensures b.None? && c.None? && d.None? && lastRetired == 0 && retiredCount == 0
    {
      b, c, d := None, None, None;
      lastRetired, retiredCount := 0, 0;
    }

    /** Rising edge: the tags move on and the accepted instruction enters. */
    method AdvancePipeline(accepted: Option<int>)
      modifies this
      ensures d == old(c) && c == old(b) && b == accepted
      ensures lastRetired == old(lastRetired) && retiredCount == old(retiredCount)
    {
      d := c;
      c := b;
      b := accepted;
    }

    /** Falling edge: a valid tag retires once; asking again before the next advance finds none. */
    method ObserveFallingEdge(cycle: nat, port: Port) returns (r: Result<Option<RetireEvent>, RetireError>)
      modifies `d, `lastRetired, `retiredCount
      ensures match old(d)
              case None => r == (if port.regwrite then Err(WriteWithoutTag) else Ok(None)) && d.None?
              case Some(id) =>
                if id != old(lastRetired) + 1 then r == Err(OrderViolation) && d == old(d)
                else r == Ok(Some(RetireEvent(cycle, port.regwrite, port.rd, port.wdata, id))) && d.None?
      ensures r.Ok? && r.value.Some? ==> lastRetired == old(lastRetired) + 1 && retiredCount == old(retiredCount) + 1
      ensures r.Err? || r.value.None? ==> lastRetired == old(lastRetired) && retiredCount == old(retiredCount)
    {
      if d.None? {
        if port.regwrite {
          return Err(WriteWithoutTag);
        }
        return Ok(None);
      }
      if d.value != lastRetired + 1 {
        return Err(OrderViolation);
      }
      lastRetired := d.value;
      retiredCount := retiredCount + 1;
      r := Ok(Some(RetireEvent(cycle, port.regwrite, port.rd, port.wdata, d.value)));
      d := None;
    }
  }

  // ---------------------------------------------------------------------
  // Whole accept streams
  // ---------------------------------------------------------------------

  /** How many instructions were accepted before cycle n. */
  function AcceptedBefore(accepts: seq<Option<int>>, n: int): nat
    requires n <= |accepts|
    decreases if n <= 0 then 0 else n
  {
    if n <= 0 then 0 else AcceptedBefore(accepts, n - 1) + (if accepts[n - 1].Some? then 1 else 0)
  }

  /** Accepted instructions are numbered one by one; other cycles are bubbles. */
  predicate ContiguousAccepts(accepts: seq<Option<int>>) {
    forall t | 0 <= t < |accepts| && accepts[t].Some? :: accepts[t].value == AcceptedBefore(accepts, t) + 1
  }

  /** What enters the pipeline in cycle t, before the first cycle nothing. */
  function AcceptAt(accepts: seq<Option<int>>, t: int): Option<int>
    requires t < |accepts|
  {
    if t < 0 then None else accepts[t]
  }

  /** The write-back port asserts a write only for an instruction that retires. */
  predicate CleanPorts(accepts: seq<Option<int>>, ports: seq<Port>) {
    |ports| == |accepts| && forall t | 0 <= t < |ports| && ports[t].regwrite :: AcceptAt(accepts, t - 3).Some?
  }

  /**
   Every cycle observes, then advances. No protocol error is reachable; the
   instruction accepted in a cycle retires exactly three cycles later, and
   nothing else ever retires.
   */
  method RunMonitor(m: RetireMonitor, accepts: seq<Option<int>>, ports: seq<Port>)
    returns (retired: seq<Option<RetireEvent>>)
    requires m.b.None? && m.c.None? && m.d.None? && m.lastRetired == 0 && m.retiredCount == 0
    requires ContiguousAccepts(accepts) && CleanPorts(accepts, ports)
    modifies m
    ensures |retired| == |accepts|
    ensures forall t | 0 <= t < |retired| ::
              match AcceptAt(accepts, t - 3)
              case None => retired[t].None?
              case Some(id) => retired[t] == Some(RetireEvent(t, ports[t].regwrite, ports[t].rd, ports[t].wdata, id))
    ensures m.retiredCount == m.lastRetired == AcceptedBefore(accepts, |accepts| - 3)
  {
    retired := [];
    for t := 0 to |accepts|
      invariant |retired| == t
      invariant m.b == AcceptAt(accepts, t - 1) && m.c == AcceptAt(accepts, t - 2)
      invariant m.d == AcceptAt(accepts, t - 3)
      invariant m.retiredCount == m.lastRetired == AcceptedBefore(accepts, t - 3)
      invariant forall u | 0 <= u < t ::
                  match AcceptAt(accepts, u - 3)
                  case None => retired[u].None?
                  case Some(id) => retired[u] == Some(RetireEvent(u, ports[u].regwrite, ports[u].rd, ports[u].wdata, id))
    {
      var seen := m.ObserveFallingEdge(t, ports[t]);
      assert seen.Ok?;
      retired := retired + [seen.value];
      m.AdvancePipeline(accepts[t]);
    }
  }

  // ---------------------------------------------------------------------
  // The oracle's retirement cycles
  // ---------------------------------------------------------------------

  /** The accept stream the oracle expects: instruction k + 1 in its accept cycle, bubbles elsewhere. */
  ghost predicate AcceptsOf(es: seq<Expectation>, accepts: seq<Option<int>>) {
    && (forall k | 0 <= k < |es| :: 0 <= es[k].accept < |accepts| && accepts[es[k].accept] == Some(es[k].id))
    && forall t | 0 <= t < |accepts| && accepts[t].Some? ::
         1 <= accepts[t].value <= |es| && es[accepts[t].value - 1].accept == t
  }

  /** Every instruction the oracle times retires in its retire cycle. */
  lemma {:induction false} ExpectedRetirement(program: map<int, Word>, ts: TimingState, n: nat, wrap: bool,
                                              accepts: seq<Option<int>>, k: nat)
    requires IsInitial(ts) && Consistent(ts) && StreamRun(program, ts, n, wrap).Ok? && k < n
    requires AcceptsOf(StreamRun(program, ts, n, wrap).value.1, accepts)
    ensures var e := StreamRun(program, ts, n, wrap).value.1[k];
            && e.retire == e.accept + 3
            && AcceptAt(accepts, e.retire - 3) == Some(e.id)
    ensures ContiguousAccepts(accepts)
  {
    hide IsInitial, Consistent, Next, Plausible, Matches, StreamRun, AcceptsOf, ContiguousAccepts, AcceptAt;
    StreamRunIsTimed(program, ts, n, wrap);
    var es := StreamRun(program, ts, n, wrap).value.1;
    var tr := TraceOf(es);
    RetiresThreeLater(es, tr, accepts, k);
    AcceptsAreContiguous(es, tr, accepts);
  }

  lemma RetiresThreeLater(es: seq<Expectation>, tr: Trace, accepts: seq<Option<int>>, k: nat)
    requires AcceptsOf(es, accepts) && |tr| == |es| && k < |es| && Matches(es[k], tr, k)
    ensures es[k].retire == es[k].accept + 3 && es[k].accept < |accepts|
    ensures AcceptAt(accepts, es[k].retire - 3) == Some(es[k].id)
  {
  }

  lemma AcceptsAreContiguous(es: seq<Expectation>, tr: Trace, accepts: seq<Option<int>>)
    requires AcceptsOf(es, accepts) && |tr| == |es| && forall j | 0 <= j < |es| :: Matches(es[j], tr, j)
    ensures ContiguousAccepts(accepts)
  {
    hide Matches;
    forall t | 0 <= t < |accepts| && accepts[t].Some?
      ensures accepts[t].value == AcceptedBefore(accepts, t) + 1
    {
      CountAccepts(es, tr, accepts, accepts[t].value - 1);
    }
  }

  /** Before the accept cycle of instruction k exactly k were accepted. */
  lemma {:induction false} CountAccepts(es: seq<Expectation>, tr: Trace, accepts: seq<Option<int>>, k: nat)
    requires AcceptsOf(es, accepts) && |tr| == |es| && k < |es|
    requires forall j | 0 <= j < |es| :: Matches(es[j], tr, j)
    ensures AcceptedBefore(accepts, es[k].accept) == k
  {
    hide Matches;
    AcceptCycles(es, tr, k);
    if k == 0 {
      NoneBetween(es, tr, accepts, 0, es[0].accept, 0);
    } else {
      AcceptCycles(es, tr, k - 1);
      CountAccepts(es, tr, accepts, k - 1);
      NoneBetween(es, tr, accepts, es[k - 1].accept + 1, es[k].accept, k);
    }
  }

  lemma AcceptCycles(es: seq<Expectation>, tr: Trace, k: nat)
    requires |tr| == |es| && k < |es| && Matches(es[k], tr, k) && (k > 0 ==> Matches(es[k - 1], tr, k - 1))
    ensures es[k].accept >= 1 && es[k].id == k + 1 && es[k].accept == Accept(tr, k)
    ensures k > 0 ==> es[k - 1].accept < es[k].accept
  {
    if k > 0 {
      AcceptIncreases(tr, k - 1, k);
    }
  }

  /** No accept lies strictly between two consecutive ones. */
  lemma {:induction false} NoneBetween(es: seq<Expectation>, tr: Trace, accepts: seq<Option<int>>, lo: int, hi: int, k: nat)
    requires AcceptsOf(es, accepts) && |tr| == |es| && k < |es| && (forall j | 0 <= j < |es| :: Matches(es[j], tr, j))
    requires 0 <= lo <= hi <= es[k].accept && lo == (if k == 0 then 0 else es[k - 1].accept + 1)
    ensures AcceptedBefore(accepts, hi) == AcceptedBefore(accepts, lo)
    decreases hi - lo
  {
    hide Matches;
    if lo < hi {
      NoneBetween(es, tr, accepts, lo, hi - 1, k);
      BubbleBetween(es, tr, accepts, hi - 1, k);
    }
  }

  lemma AcceptOrder(es: seq<Expectation>, tr: Trace, i: nat, j: nat)
    requires |tr| == |es| && i < j < |es| && Matches(es[i], tr, i) && Matches(es[j], tr, j)
    ensures es[i].accept < es[j].accept
  {
    AcceptIncreases(tr, i, j);
  }

  lemma BubbleBetween(es: seq<Expectation>, tr: Trace, accepts: seq<Option<int>>, t: int, k: nat)
    requires AcceptsOf(es, accepts) && |tr| == |es| && k < |es| && (forall j | 0 <= j < |es| :: Matches(es[j], tr, j))
    requires 0 <= t < es[k].accept && (k > 0 ==> es[k - 1].accept < t)
    ensures t < |accepts| && accepts[t].None?
  {
    hide Matches;
    if accepts[t].Some? {
      var j: nat := accepts[t].value - 1;
      assert es[j].accept == t;
      if j > k {
        AcceptOrder(es, tr, k, j);
      } else if j < k - 1 {
        AcceptOrder(es, tr, j, k - 1);
      }
    }
  }
}
