/**
 The dependency views over whole runs: on every program the timing oracle can
 run, the control table, the collector's producers and the source checks say of
 the observed events what the oracle says.
 */
module ObservedRuns {
  import opened Wrappers
  import opened Rv32Isa
  import opened Rv32RoundTrip
  import opened Execution
  import opened ArchitecturalModel
  import opened TimingTrace
  import opened TimingOracle
  import opened TimingRefinement
  import opened L1Coverage
  import opened RealizationChecker
  import opened RealizationTheorem
  import opened DependencyViews
  import L2 = L2Coverage

  /** The event is the accepted instruction of the expectation, decoded, with its control as expected. */
  predicate ObservedAs(ev: Event, e: Expectation) {
    && ev.index == e.id && ev.pc == e.pc && ev.instruction == e.instruction && ev.FromDecoder()
    && ev.stallCycles == e.stall && ev.forwardA == e.forwardA && ev.forwardB == e.forwardB
  }

  ghost predicate AllObserved(evs: seq<Event>, es: seq<Expectation>) {
    |evs| == |es| && forall k | 0 <= k < |es| :: ObservedAs(evs[k], es[k])
  }

  lemma DecodedRawAgrees(ev: Event)
    requires ev.FromDecoder()
    ensures RawAgrees(ev)
  {
    RawFields(ev.instruction, FieldsOf(ev.instruction));
  }

  lemma RawFields(w: Word, f: Fields)
    requires f == FieldsOf(w) && DecodeFields(f).Some? && DecodeFields(f).value.mnemonic != STORE
    ensures w % 128 == OP_STORE <==> DecodeFields(f).value.mnemonic.SW?
    ensures w / 0x10_0000 % 32 == DecodeFields(f).value.rs2
  {
    hide DecodeIImm, DecodeSImm, DecodeBImm, DecodeUImm, DecodeJImm;
  }

  /** A run's observed events are an executed trace, timed as the trace. */
  lemma RunIsExecuted(program: map<int, Word>, ts: TimingState, n: nat, wrap: bool, evs: seq<Event>)
    requires IsInitial(ts) && Consistent(ts) && StreamRun(program, ts, n, wrap).Ok?
    requires AllObserved(evs, StreamRun(program, ts, n, wrap).value.1)
    ensures forall e | e in StreamRun(program, ts, n, wrap).value.1 :: DecodeChecked(e.instruction).Some?
    ensures var es := StreamRun(program, ts, n, wrap).value.1;
            && Executed(evs, TraceOf(es)) && (forall k | 0 <= k < n :: Matches(es[k], TraceOf(es), k))
            && forall k | 0 <= k < n :: At(evs, TraceOf(es), k)
  {
    hide IsInitial, Consistent, Next, Plausible, Linked, Matches, RawAgrees, DecodeChecked;
    StreamRunIsTimed(program, ts, n, wrap);
    var es := StreamRun(program, ts, n, wrap).value.1;
    var tr := TraceOf(es);
    forall k | 0 <= k < n
      ensures evs[k].index == k + 1 && evs[k].d == tr[k].d && RawAgrees(evs[k]) && AsTimed(evs[k], tr, k)
    {
      assert ObservedAs(evs[k], es[k]) && es[k] in es;
      DecodedRawAgrees(evs[k]);
      MatchedControl(es[k], tr, k);
    }
  }

  lemma MatchedControl(e: Expectation, tr: Trace, k: nat)
    requires k < |tr| && Matches(e, tr, k)
    ensures e.id == k + 1 && e.stall == Stalls(tr, k) && e.forwardA == ForwardA(tr, k) && e.forwardB == ForwardB(tr, k)
  {
  }

  /**
   On every program: a hazard bin hit by an instruction whose control is
   observed as the oracle expects passes the fixed table exactly under the bin's
   condition on the two instructions before it.
   */
  lemma ControlTableOnEveryProgram(program: map<int, Word>, ts: TimingState, n: nat, wrap: bool, evs: seq<Event>,
                                   b: Bin, k: nat)
    requires IsInitial(ts) && Consistent(ts) && StreamRun(program, ts, n, wrap).Ok? && k < n
    requires AllObserved(evs, StreamRun(program, ts, n, wrap).value.1)
    requires HitFor(b, WindowOf(evs, k), evs[k]).Some?
    ensures forall e | e in StreamRun(program, ts, n, wrap).value.1 :: DecodeChecked(e.instruction).Some?
    ensures k >= 1
    ensures Exactly(HitFor(b, WindowOf(evs, k), evs[k]).value, evs, k,
                    Realizable(b, TraceOf(StreamRun(program, ts, n, wrap).value.1), k))
  {
    hide IsInitial, Consistent, Next, Executed, Matches, At, HitFor, Exactly, Realizable, WindowOf, ObservedAs, StreamRun;
    RunIsExecuted(program, ts, n, wrap, evs);
    TableAgreesWithOracle(b, evs, TraceOf(StreamRun(program, ts, n, wrap).value.1), k);
  }

  /** The collector's writer table after k observed events. */
  function WritersThrough(evs: seq<Event>, k: nat): L2.Writers
    requires k <= |evs|
  {
    if k == 0 then map[] else L2.WritersAfter(WritersThrough(evs, k - 1), evs[k - 1])
  }

  lemma {:induction false} TableIsLastWriter(evs: seq<Event>, tr: Trace, k: nat)
    requires Executed(evs, tr) && k <= |tr|
    ensures WritersOf(WritersThrough(evs, k), tr, k)
  {
    hide WritersOf, L2.WritersAfter, Plausible, RawAgrees;
    if k == 0 {
      NoWriters(tr);
    } else {
      TableIsLastWriter(evs, tr, k - 1);
      WritersStep(WritersThrough(evs, k - 1), tr, k - 1, evs[k - 1]);
    }
  }

  lemma NoWriters(tr: Trace)
    ensures WritersOf(map[], tr, 0)
  {
  }

  /** On every program: every L2 hit names the producer the oracle times, and its control check passes. */
  lemma SourceControlOnEveryProgram(program: map<int, Word>, ts: TimingState, n: nat, wrap: bool, evs: seq<Event>,
                                    k: nat, hit: L2.L2Hit)
    requires IsInitial(ts) && Consistent(ts) && StreamRun(program, ts, n, wrap).Ok? && k < n
    requires AllObserved(evs, StreamRun(program, ts, n, wrap).value.1)
    requires hit in L2.HitsOf(WritersThrough(evs, k), evs[k])
    ensures var e := StreamRun(program, ts, n, wrap).value.1[k];
            && SourceControl(hit, evs[k], e).Ok? && ControlPassed(SourceControl(hit, evs[k], e).value)
            && forall c | c in SourceControl(hit, evs[k], e).value.1 :: Some(c.producerExpected) == c.producerObserved
  {
    hide IsInitial, Consistent, Next, Matches, At, WritersOf, L2.HitsOf, SourceControl, ControlPassed, StreamRun;
    hide Plausible, RawAgrees, DecodeChecked, WritersThrough;
    RunIsExecuted(program, ts, n, wrap, evs);
    var es := StreamRun(program, ts, n, wrap).value.1;
    TableIsLastWriter(evs, TraceOf(es), k);
    assert ObservedAs(evs[k], es[k]);
    ProducersAgree(WritersThrough(evs, k), TraceOf(es), k, evs[k], es[k], hit);
  }
}
