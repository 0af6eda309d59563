/**
 The 62-bin dependency collector: a positive RAW dependency at distance one or
 two, attributed to the last architectural writer.
 */
module L2Coverage {
  import opened Wrappers
  import opened Rv32Isa
  import opened Execution

  const L2_BIN_COUNT := 62

  datatype WriterRecord = WriterRecord(index: int, register: Reg, producerType: ProducerType)

  datatype L2Hit = L2Hit(
    bin: int, distance: int, register: Reg, producer: int, consumer: int,
    producerType: ProducerType, consumerType: ConsumerType)

  type Writers = map<Reg, WriterRecord>

  function BinIndex(distance: int, register: int): (b: int)
    requires (distance == 1 || distance == 2) && 1 <= register <= 31
    ensures 0 <= b < L2_BIN_COUNT
  {
    (distance - 1) * 31 + (register - 1)
  }

  /** Distinct dependencies have distinct bins. */
  lemma BinIndexInjective(d: int, r: int, d': int, r': int)
    requires (d == 1 || d == 2) && 1 <= r <= 31 && (d' == 1 || d' == 2) && 1 <= r' <= 31
    requires BinIndex(d, r) == BinIndex(d', r')
    ensures d == d' && r == r'
  {
  }

  /** Bins run through the registers at distance one, then at distance two, without a gap. */
  lemma BinsInOrder(d: int, r: int, d': int, r': int)
    requires (d == 1 || d == 2) && 1 <= r <= 31 && (d' == 1 || d' == 2) && 1 <= r' <= 31
    ensures BinIndex(d, r) < BinIndex(d', r') <==> d < d' || (d == d' && r < r')
    ensures BinIndex(1, 1) == 0 && BinIndex(1, 31) == 30 && BinIndex(2, 1) == 31 && BinIndex(2, 31) == 61
  {
    hide BinIndex;
    BinFirsts(d, r);
    BinFirsts(d', r');
    BinFirsts(1, 1);
    BinFirsts(1, 31);
    BinFirsts(2, 1);
    BinFirsts(2, 31);
  }

  lemma BinFirsts(d: int, r: int)
    requires (d == 1 || d == 2) && 1 <= r <= 31
    ensures BinIndex(d, r) == (if d == 1 then 0 else 31) + r - 1
  {
  }

  /** The dependency of one source register, if it is positive and close enough. */
  function HitFor(writers: Writers, e: Event, r: Reg): Option<L2Hit> {
    if r == 0 || r !in writers then None
    else
      var w := writers[r];
      var distance := e.index - w.index;
      if distance != 1 && distance != 2 then None
      else Some(L2Hit(BinIndex(distance, r), distance, r, w.index, e.index, w.producerType, e.d.consumerType))
  }

  function HitsFrom(writers: Writers, e: Event, sources: seq<Reg>): (hits: seq<L2Hit>) {
    if sources == [] then []
    else
      var last := HitFor(writers, e, sources[|sources| - 1]);
      HitsFrom(writers, e, sources[..|sources| - 1]) + (if last.Some? then [last.value] else [])
  }

  /** All dependencies of one executed instruction, first operand first. */
  function HitsOf(writers: Writers, e: Event): seq<L2Hit> {
    HitsFrom(writers, e, Sources(e.d))
  }

  /** The writer table after the instruction: it reads before it writes. */
  function WritersAfter(writers: Writers, e: Event): Writers {
    if e.d.writesRd && e.d.rd != 0 then writers[e.d.rd := WriterRecord(e.index, e.d.rd, e.d.producerType)]
    else writers
  }

  /** Every hit over the sources comes from one of them. */
  lemma {:induction false} HitHasSource(writers: Writers, e: Event, sources: seq<Reg>, hit: L2Hit)
    requires hit in HitsFrom(writers, e, sources)
    ensures hit.register in sources && HitFor(writers, e, hit.register) == Some(hit)
  {
    var front := sources[..|sources| - 1];
    if hit in HitsFrom(writers, e, front) {
      HitHasSource(writers, e, front, hit);
    }
  }

  lemma {:induction false} SourceIsHit(writers: Writers, e: Event, sources: seq<Reg>, r: Reg)
    requires r in sources && HitFor(writers, e, r).Some?
    ensures HitFor(writers, e, r).value in HitsFrom(writers, e, sources)
  {
    hide HitFor;
    if r != sources[|sources| - 1] {
      SourceIsHit(writers, e, sources[..|sources| - 1], r);
    }
  }

  /** Within one instruction no bin is hit twice. */
  lemma NewBin(writers: Writers, e: Event, sources: seq<Reg>, k: nat)
    requires k < |sources| && HitFor(writers, e, sources[k]).Some?
    requires forall i, j | 0 <= i < j < |sources| :: sources[i] != sources[j]
    ensures HitFor(writers, e, sources[k]).value.bin !in BinsOf(HitsFrom(writers, e, sources[..k]))
  {
    var hit := HitFor(writers, e, sources[k]).value;
    forall other | other in HitsFrom(writers, e, sources[..k])
      ensures other.bin != hit.bin
    {
      HitHasSource(writers, e, sources[..k], other);
      if other.bin == hit.bin {
        BinIndexInjective(hit.distance, hit.register, other.distance, other.register);
        assert false;
      }
    }
  }

  class Collector {
    var intentSeen: seq<bool>
    var intentHitCount: seq<nat>
    var lastWriter: Writers
    var lastInstructionIndex: int

    /** A bin was seen exactly when it was counted. */
    ghost predicate Valid()
      reads this
    {
      && |intentSeen| == |intentHitCount| == L2_BIN_COUNT
      && forall b | 0 <= b < L2_BIN_COUNT :: intentSeen[b] <==> intentHitCount[b] > 0
    }

    constructor ()
      ensures Valid() && lastWriter == map[] && lastInstructionIndex == 0
      ensures forall b | 0 <= b < L2_BIN_COUNT :: !intentSeen[b]
    {
      intentSeen := seq(L2_BIN_COUNT, _ => false);
      intentHitCount := seq(L2_BIN_COUNT, _ => 0);
      lastWriter := map[];
      lastInstructionIndex := 0;
    }

    /** Counts the bin of one hit. */
    method Count(b: int)
      requires Valid() && 0 <= b < L2_BIN_COUNT
      modifies `intentSeen, `intentHitCount
      ensures Valid()
      ensures intentHitCount == old(intentHitCount)[b := old(intentHitCount)[b] + 1]
      ensures intentSeen == old(intentSeen)[b := true]
    {
      intentHitCount := intentHitCount[b := intentHitCount[b] + 1];
      intentSeen := intentSeen[b := true];
    }

    /** Every source in turn. The skip of repeated bins is never taken, so asserted. */
    method Classify(e: Event) returns (hits: seq<L2Hit>)
      requires Valid()
      modifies `intentSeen, `intentHitCount
      ensures Valid() && hits == HitsOf(lastWriter, e)
      ensures Counted(old(intentHitCount), intentHitCount, BinsOf(hits))
    {
      hide HitFor, BinIndex;
      var sources := Sources(e.d);
      SourcesAreDistinct(e.d);
      hits := [];
      for k := 0 to |sources|
        invariant Valid()
        invariant hits == HitsFrom(lastWriter, e, sources[..k])
        invariant Counted(old(intentHitCount), intentHitCount, BinsOf(hits))
      {
        assert sources[..k + 1][..k] == sources[..k];
        var found := HitFor(lastWriter, e, sources[k]);
        if found.Some? {
          NewBin(lastWriter, e, sources, k);
          BinInRange(lastWriter, e, sources[k]);
          BinsAppended(hits, found.value);
          assert found.value.bin !in BinsOf(hits);
          hits := hits + [found.value];
          Count(found.value.bin);
        }
      }
      assert sources[..|sources|] == sources;
    }

    /** Classifies one executed instruction and updates the writer table. Out of order nothing changes. */
    method Observe(e: Event) returns (r: Option<seq<L2Hit>>)
      requires Valid()
      modifies this
      ensures Valid()
      ensures r.Some? <==> e.index == old(lastInstructionIndex) + 1
      ensures r.None? ==>
                && intentSeen == old(intentSeen) && intentHitCount == old(intentHitCount)
                && lastWriter == old(lastWriter) && lastInstructionIndex == old(lastInstructionIndex)
      ensures r.Some? ==>
                && r.value == HitsOf(old(lastWriter), e)
                && lastWriter == WritersAfter(old(lastWriter), e) && lastInstructionIndex == e.index
                && Counted(old(intentHitCount), intentHitCount, BinsOf(r.value))
    {
      if e.index != lastInstructionIndex + 1 {
        return None;
      }
      var hits := Classify(e);
      if e.d.writesRd && e.d.rd != 0 {
        lastWriter := lastWriter[e.d.rd := WriterRecord(e.index, e.d.rd, e.d.producerType)];
      }
      lastInstructionIndex := e.index;
      r := Some(hits);
    }
  }

  /** Exactly the given bins were counted, once each. */
  ghost predicate Counted(before: seq<nat>, after: seq<nat>, bins: set<int>) {
    && |before| == |after| == L2_BIN_COUNT
    && forall b | 0 <= b < L2_BIN_COUNT :: after[b] == before[b] + (if b in bins then 1 else 0)
  }

  lemma BinInRange(writers: Writers, e: Event, r: Reg)
    requires HitFor(writers, e, r).Some?
    ensures 0 <= HitFor(writers, e, r).value.bin < L2_BIN_COUNT
  {
  }

  lemma BinsAppended(hits: seq<L2Hit>, hit: L2Hit)
    ensures BinsOf(hits + [hit]) == BinsOf(hits) + {hit.bin}
  {
    forall b | b in BinsOf(hits) + {hit.bin}
      ensures b in BinsOf(hits + [hit])
    {
      if b == hit.bin {
        assert hit in hits + [hit];
      } else {
        var h :| h in hits && h.bin == b;
        assert h in hits + [hit];
      }
    }
  }

  function BinsOf(hits: seq<L2Hit>): set<int> {
    set hit | hit in hits :: hit.bin
  }

  lemma SourcesAreDistinct(d: Decoded)
    ensures forall i, j | 0 <= i < j < |Sources(d)| :: Sources(d)[i] != Sources(d)[j]
    ensures |Sources(d)| <= 2
    ensures forall r: Reg :: r in Sources(d) <==> (d.usesRs1 && d.rs1 == r) || (d.usesRs2 && d.rs2 == r)
  {
  }
}

/** The collector's dependencies are those of the timing oracle. */
module DependencyViews {
  import opened Wrappers
  import opened Rv32Isa
  import opened Execution
  import opened TimingTrace
  import opened TimingOracle
  import opened TimingRefinement
  import L2 = L2Coverage

  /** The writer table after n instructions of the trace. */
  ghost predicate WritersOf(writers: L2.Writers, tr: Trace, n: nat)
    requires n <= |tr|
  {
    forall r: Reg | r != 0 ::
      match LastWriter(tr, n, r)
      case None => r !in writers
      case Some(p) => r in writers && writers[r] == L2.WriterRecord(p + 1, r, tr[p].d.producerType)
  }

  /** Observing instruction n keeps the table the last-writer relation. */
  lemma WritersStep(writers: L2.Writers, tr: Trace, n: nat, e: Event)
    requires n < |tr| && WritersOf(writers, tr, n) && e.index == n + 1 && e.d == tr[n].d
    ensures WritersOf(L2.WritersAfter(writers, e), tr, n + 1)
  {
    var after := L2.WritersAfter(writers, e);
    forall r: Reg | r != 0
      ensures match LastWriter(tr, n + 1, r)
              case None => r !in after
              case Some(p) => r in after && after[r] == L2.WriterRecord(p + 1, r, tr[p].d.producerType)
    {
    }
  }

  /** The checks of one source operand of one L2 hit. */
  datatype SourceCheck = SourceCheck(
    producerExpected: int, producerObserved: Option<int>, forwardExpected: int, forwardObserved: int)

  datatype L2ControlError =
    | WrongConsumer | WrongExpectation | InconsistentDistance | WrongPc | WrongInstruction | NotASource

  /** check_l2_source_control: the stall comparison and the checks of every role that reads the register. */
  function SourceControl(hit: L2.L2Hit, consumer: Event, e: Expectation)
    : Result<(bool, seq<SourceCheck>), L2ControlError>
  {
    if hit.consumer != consumer.index then Err(WrongConsumer)
    else if e.id != consumer.index then Err(WrongExpectation)
    else if consumer.index - hit.producer != hit.distance then Err(InconsistentDistance)
    else if e.pc != consumer.pc then Err(WrongPc)
    else if e.instruction != consumer.instruction then Err(WrongInstruction)
    else
      var a := if consumer.d.usesRs1 && consumer.d.rs1 == hit.register
               then [SourceCheck(hit.producer, e.producerA, e.forwardA, consumer.forwardA)] else [];
      var b := if consumer.d.usesRs2 && consumer.d.rs2 == hit.register
               then [SourceCheck(hit.producer, e.producerB, e.forwardB, consumer.forwardB)] else [];
      if a + b == [] then Err(NotASource) else Ok((e.stall == consumer.stallCycles, a + b))
  }

  predicate ControlPassed(control: (bool, seq<SourceCheck>)) {
    control.0 && forall c | c in control.1 ::
      Some(c.producerExpected) == c.producerObserved && c.forwardExpected == c.forwardObserved
  }

  lemma RecordedWriter(writers: L2.Writers, tr: Trace, n: nat, r: Reg)
    requires n <= |tr| && WritersOf(writers, tr, n) && r != 0 && r in writers
    ensures LastWriter(tr, n, r) == Some(writers[r].index - 1)
    ensures writers[r].producerType == tr[writers[r].index - 1].d.producerType
  {
    hide LastWriter;
  }

  lemma CollectedProducer(writers: L2.Writers, tr: Trace, n: nat, consumer: Event, hit: L2.L2Hit)
    requires n < |tr| && WritersOf(writers, tr, n) && consumer.index == n + 1 && consumer.d == tr[n].d
    requires hit in L2.HitsOf(writers, consumer)
    ensures hit.register != 0 && hit.consumer == n + 1
    ensures LastWriter(tr, n, hit.register) == Some(hit.producer - 1) && n + 1 - hit.producer == hit.distance
    ensures Reads(consumer.d, hit.register) && hit.consumerType == consumer.d.consumerType
    ensures hit.producerType == tr[hit.producer - 1].d.producerType
  {
    hide LastWriter, Sources, WritersOf, L2.HitsFrom, Writes, Exact;
    L2.HitHasSource(writers, consumer, Sources(consumer.d), hit);
    L2.SourcesAreDistinct(consumer.d);
    RecordedWriter(writers, tr, n, hit.register);
  }

  /** A register is reported exactly if the instruction reads it and one of the two before it was its last writer. */
  lemma CollectedExactly(writers: L2.Writers, tr: Trace, n: nat, consumer: Event, r: Reg)
    requires n < |tr| && WritersOf(writers, tr, n) && consumer.index == n + 1 && consumer.d == tr[n].d
    ensures (exists hit :: hit in L2.HitsOf(writers, consumer) && hit.register == r)
       <==> r != 0 && Reads(tr[n].d, r) && LastWriter(tr, n, r).Some? && n - LastWriter(tr, n, r).value <= 2
  {
    hide LastWriter, L2.HitsFrom;
    if hit :| hit in L2.HitsOf(writers, consumer) && hit.register == r {
      CollectedProducer(writers, tr, n, consumer, hit);
      L2.HitHasSource(writers, consumer, Sources(consumer.d), hit);
    }
    if r != 0 && Reads(tr[n].d, r) && LastWriter(tr, n, r).Some? && n - LastWriter(tr, n, r).value <= 2 {
      assert r in Sources(consumer.d) && L2.HitFor(writers, consumer, r).Some?;
      L2.SourceIsHit(writers, consumer, Sources(consumer.d), r);
    }
  }

  /**
   On every executed trace the dependency the collector reports is the one the
   oracle times: the check raises nothing, producer identities always agree, and
   a hit passes exactly when stall and forwarding are observed as expected.
   */
  lemma ProducersAgree(writers: L2.Writers, tr: Trace, n: nat, consumer: Event, e: Expectation, hit: L2.L2Hit)
    requires n < |tr| && WritersOf(writers, tr, n) && Matches(e, tr, n)
    requires consumer.index == n + 1 && consumer.d == tr[n].d
    requires consumer.pc == e.pc && consumer.instruction == e.instruction
    requires hit in L2.HitsOf(writers, consumer)
    ensures LastWriter(tr, n, hit.register) == Some(hit.producer - 1) && n + 1 - hit.producer == hit.distance
    ensures hit.producerType == tr[hit.producer - 1].d.producerType && hit.consumerType == consumer.d.consumerType
    ensures SourceControl(hit, consumer, e).Ok?
    ensures forall c | c in SourceControl(hit, consumer, e).value.1 ::
              Some(c.producerExpected) == c.producerObserved
    ensures ControlPassed(SourceControl(hit, consumer, e).value) <==>
              && consumer.stallCycles == e.stall
              && (consumer.d.usesRs1 && consumer.d.rs1 == hit.register ==> consumer.forwardA == e.forwardA)
              && (consumer.d.usesRs2 && consumer.d.rs2 == hit.register ==> consumer.forwardB == e.forwardB)
  {
    hide WritersOf, L2.HitsOf, Stalls, Accept, ForwardForAge;
    CollectedProducer(writers, tr, n, consumer, hit);
    var checks := SourceControl(hit, consumer, e).value.1;
    assert |checks| > 0 ==> checks[0] in checks;
    assert |checks| > 1 ==> checks[1] in checks;
  }
}
