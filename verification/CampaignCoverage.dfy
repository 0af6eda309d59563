/**
 What the dependency collector reports over a planned campaign: exactly the
 planned witnesses whose consumer was executed.
 */
module CampaignCoverage {
  import opened Wrappers
  import opened Rv32Isa
  import opened Rv32RoundTrip
  import opened Execution
  import opened TimingOracle
  import opened StreamPlan
  import opened HitsAreWitnesses
  import opened PlanRun
  import opened WindowRuns
  import L2 = L2Coverage

  function Indices(writers: L2.Writers): WriterIndex {
    map r | r in writers :: writers[r].index
  }

  function KeyOfHit(h: L2.L2Hit): Key {
    Key(h.distance, h.register, h.producer, h.consumer)
  }

  function KeysOfHits(hits: seq<L2.L2Hit>): (keys: seq<Key>)
    ensures |keys| == |hits|
  {
    seq(|hits|, k requires 0 <= k < |hits| => KeyOfHit(hits[k]))
  }

  /** The event is the execution of the planned instruction. */
  ghost predicate Ran(e: Event, x: Exec) {
    e.index == x.index && Exact(e.d) && Disassemble(e.d) == x.instr
  }

  /** The decoder's flags name the sources and the destination of the assembly. */
  lemma FlagsAreOperands(d: Decoded)
    requires Exact(d)
    ensures Legal(Disassemble(d)) && Sources(d) == SourcesOf(Disassemble(d))
    ensures DestinationOf(Disassemble(d)) == if d.writesRd && d.rd != 0 then Some(d.rd) else None
  {
  }

  lemma KeysOfJoin(a: seq<L2.L2Hit>, b: seq<L2.L2Hit>)
    ensures KeysOfHits(a + b) == KeysOfHits(a) + KeysOfHits(b)
  {
  }

  lemma OneSource(writers: L2.Writers, e: Event, r: Reg)
    ensures var h := L2.HitFor(writers, e, r);
            KeysOfHits(if h.Some? then [h.value] else []) == KeyFor(Indices(writers), e.index, r)
  {
  }

  /** One instruction's hits are its dependencies, first operand first. */
  lemma HitsAreKeys(writers: L2.Writers, e: Event, x: Exec)
    requires Ran(e, x)
    ensures Legal(x.instr) && KeysOfHits(L2.HitsOf(writers, e)) == KeysAt(Indices(writers), x.index, x.instr)
  {
    hide Exact, Disassemble, Legal, L2.HitFor, KeyFor, SourcesOf, DestinationOf, Sources;
    FlagsAreOperands(e.d);
    var s := Sources(e.d);
    L2.SourcesAreDistinct(e.d);
    if |s| == 0 {
      assert s == [];
    } else if |s| == 1 {
      OneSource(writers, e, s[0]);
      KeysOfJoin(L2.HitsFrom(writers, e, s[..0]), Found(writers, e, s[0]));
      assert s[..0] == [];
    } else {
      OneSource(writers, e, s[0]);
      OneSource(writers, e, s[1]);
      assert s[..1][..0] == [] && s[..1] == [s[0]];
      KeysOfJoin(L2.HitsFrom(writers, e, []), Found(writers, e, s[0]));
      KeysOfJoin(L2.HitsFrom(writers, e, s[..1]), Found(writers, e, s[1]));
    }
  }

  function Found(writers: L2.Writers, e: Event, r: Reg): seq<L2.L2Hit> {
    var h := L2.HitFor(writers, e, r);
    if h.Some? then [h.value] else []
  }

  lemma WritersAreAfter(writers: L2.Writers, e: Event, x: Exec)
    requires Ran(e, x)
    ensures Legal(x.instr) && Indices(L2.WritersAfter(writers, e)) == After(Indices(writers), x.index, x.instr)
  {
    hide Exact, Disassemble, Legal, SourcesOf, DestinationOf;
    FlagsAreOperands(e.d);
  }

  /** The hits of a run of events, in order. */
  function Collected(writers: L2.Writers, events: seq<Event>): seq<L2.L2Hit>
    decreases |events|
  {
    if events == [] then []
    else L2.HitsOf(writers, events[0]) + Collected(L2.WritersAfter(writers, events[0]), events[1..])
  }

  ghost predicate AllRan(events: seq<Event>, xs: seq<Exec>) {
    |events| == |xs| && forall k | 0 <= k < |xs| :: Ran(events[k], xs[k])
  }

  lemma {:induction false} CollectedKeys(writers: L2.Writers, events: seq<Event>, xs: seq<Exec>)
    requires AllRan(events, xs) && AllLegal(xs)
    ensures KeysOfHits(Collected(writers, events)) == KeysThrough(Indices(writers), xs)
    decreases |xs|
  {
    hide Ran, L2.HitsOf, KeysAt, After, L2.WritersAfter, Indices, Legal;
    if xs != [] {
      HitsAreKeys(writers, events[0], xs[0]);
      WritersAreAfter(writers, events[0], xs[0]);
      CollectedKeys(L2.WritersAfter(writers, events[0]), events[1..], xs[1..]);
      KeysOfJoin(L2.HitsOf(writers, events[0]), Collected(L2.WritersAfter(writers, events[0]), events[1..]));
    }
  }

  /**
   Over a planned stream cut after any number of executed instructions, and
   from any earlier writers, the collector reports exactly the planned
   witnesses whose consumer was executed: none missing, none incidental, each
   with its own producer and consumer.
   */
  lemma CampaignHitsAreWitnesses(es: seq<Entry>, writers: L2.Writers, events: seq<Event>)
    requires Stream(es) && LegalCode(es) && AllInImage(es)
    requires |events| <= |PlanExecs(es)| && AllRan(events, PlanExecs(es)[..|events|])
    ensures KeysOfHits(Collected(writers, events)) == EndingBefore(PlanKeys(es), |events| + 1)
  {
    hide Planned, LegalCode, AllInImage, PlanExecs, PlanKeys, ImageOf, AllRan, KeysThrough, Contiguous, KeysOfHits,
      Collected, Placed, FlowsThrough, Indices;
    StreamLayout(es);
    CutMakesExecutedWitnesses(es, Indices(writers), 1, |events|);
    CollectedKeys(writers, events, PlanExecs(es)[..|events|]);
  }

  /** Events that report what the oracle expects are executions of the plan. */
  lemma ExpectedEventsRan(out: seq<Expectation>, events: seq<Event>, xs: seq<Exec>)
    requires Follow(out, xs) && |events| == |out|
    requires forall k | 0 <= k < |out| ::
               && events[k].index == out[k].id && events[k].instruction == out[k].instruction
               && events[k].FromDecoder()
    ensures AllRan(events, xs[..|events|])
  {
    hide DecodeChecked, Disassemble, Exact, Legal, WordOf;
    forall k | 0 <= k < |events|
      ensures Ran(events[k], xs[..|events|][k])
    {
      assert Names(out[k], xs[k]);
      WordDecodes(xs[k].instr);
    }
  }

  /**
   The campaign end to end: a planned stream run through the 128-word window by
   any tame interleaving of appends, releases and steps is covered exactly as
   planned, whatever arms, targets and variants were chosen and wherever it was
   cut.
   */
  lemma WindowedCampaign(es: seq<Entry>, w: Window, ops: seq<Op>, writers: L2.Writers, events: seq<Event>)
    requires Fresh(w) && w.Valid() && Stream(es) && LegalCode(es) && AllInImage(es)
    requires Run(w, ops).Some? && Run(w, ops).value.0.image <= ImageOf(es) && Tame(w, ops)
    requires var out := Run(w, ops).value.1;
             && |events| == |out|
             && forall k | 0 <= k < |out| ::
                  && events[k].index == out[k].id && events[k].instruction == out[k].instruction
                  && events[k].FromDecoder()
    ensures |events| <= |PlanExecs(es)|
    ensures KeysOfHits(Collected(writers, events)) == EndingBefore(PlanKeys(es), |events| + 1)
  {
    hide Stream, LegalCode, AllInImage, PlanExecs, PlanKeys, ImageOf, Run, Tame, AllRan, Safe, OnPlan, Names, Fresh,
      KeysOfHits, Collected;
    WindowRunsThePlan(es, w, ops);
    ExpectedEventsRan(Run(w, ops).value.1, events, PlanExecs(es));
    CampaignHitsAreWitnesses(es, writers, events);
  }
}
