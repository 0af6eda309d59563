/**
 The L1 hazard classifier: which of the twenty hazard bins one executed
 instruction hits, given the three executed before it.
 */
module L1Coverage {
  import opened Wrappers
  import opened Rv32Isa
  import opened Execution

  datatype Bin =
    | H01 | H02 | H03 | H04 | H05 | H06 | H07 | H08 | H09 | H10
    | H11 | H12 | H13 | H14 | H15 | H16 | H17 | H18 | H19 | H20

  datatype Role = RS1 | RS2 | RAW_RS2_UNUSED

  datatype Hit = Hit(bin: Bin, consumer: int, producers: seq<int>, sources: seq<Role>)

  /** The newest entry is the last; there are never more than three. */
  type History = seq<Event>

  const WINDOW := 3

  predicate IsPositiveProducer(e: Event) {
    e.d.writesRd && e.d.rd != 0 && e.d.producerType != NONE
  }

  predicate HasPositive(h: History, distance: int) {
    1 <= distance <= |h| && IsPositiveProducer(h[|h| - distance])
  }

  /** The positive producer at the distance makes a value of the type. */
  predicate Makes(h: History, distance: int, t: ProducerType) {
    HasPositive(h, distance) && h[|h| - distance].d.producerType == t
  }

  function RdAt(h: History, distance: int): Reg
    requires HasPositive(h, distance)
  {
    h[|h| - distance].d.rd
  }

  /** The distance of the nearest positive writer of r in the window. */
  function NearestWriter(h: History, r: Reg): (distance: Option<nat>) {
    if r == 0 then None else NearestFrom(h, r, 1)
  }

  function NearestFrom(h: History, r: Reg, distance: nat): (found: Option<nat>)
    requires distance >= 1
    ensures found.Some? ==> distance <= found.value <= |h|
    decreases |h| - distance
  {
    if distance > |h| then None
    else if HasPositive(h, distance) && RdAt(h, distance) == r then Some(distance)
    else NearestFrom(h, r, distance + 1)
  }

  predicate IsNearest(h: History, distance: int)
    requires HasPositive(h, distance)
  {
    NearestWriter(h, RdAt(h, distance)) == Some(distance)
  }

  predicate UsesRs1(e: Event, r: Reg) {
    e.d.usesRs1 && e.d.rs1 == r
  }

  predicate UsesRs2(e: Event, r: Reg) {
    e.d.usesRs2 && e.d.rs2 == r
  }

  function UsedRoles(e: Event, r: Reg): seq<Role> {
    (if UsesRs1(e, r) then [RS1] else []) + (if UsesRs2(e, r) then [RS2] else [])
  }

  function RawRs2(e: Event): Reg {
    e.instruction / 0x10_0000 % 32
  }

  function HitBy(b: Bin, h: History, e: Event, distance: int, roles: seq<Role>): Option<Hit>
    requires 1 <= distance <= |h|
  {
    Some(Hit(b, e.index, [h[|h| - distance].index], roles))
  }

  /** A producer of type t at the distance, read as RS1 by a consumer of the class. */
  function Rs1Hit(b: Bin, h: History, e: Event, distance: int, t: ProducerType, anyConsumer: bool): Option<Hit> {
    if Makes(h, distance, t) && (anyConsumer || e.d.consumerType == RS1_ONLY)
       && UsesRs1(e, RdAt(h, distance)) && IsNearest(h, distance)
    then HitBy(b, h, e, distance, [RS1]) else None
  }

  function Rs2Hit(b: Bin, h: History, e: Event, distance: int, t: ProducerType): Option<Hit> {
    if Makes(h, distance, t) && e.d.consumerType == RS1_RS2
       && UsesRs2(e, RdAt(h, distance)) && IsNearest(h, distance)
    then HitBy(b, h, e, distance, [RS2]) else None
  }

  /** Two distinct ALU producers feed the two sources, in either orientation. */
  predicate DualSource(h: History, e: Event) {
    && Makes(h, 1, ALU_RESULT) && Makes(h, 2, ALU_RESULT) && RdAt(h, 1) != RdAt(h, 2)
    && e.d.consumerType == RS1_RS2 && e.d.usesRs1 && e.d.usesRs2
    && ((e.d.rs1 == RdAt(h, 1) && e.d.rs2 == RdAt(h, 2)) || (e.d.rs1 == RdAt(h, 2) && e.d.rs2 == RdAt(h, 1)))
  }

  function BothHit(b: Bin, h: History, e: Event, roles: seq<Role>): Option<Hit>
    requires |h| >= 2
  {
    Some(Hit(b, e.index, [h[|h| - 2].index, h[|h| - 1].index], roles))
  }

  /** The previous instruction names x0 as its destination. */
  predicate WritesX0(h: History) {
    |h| >= 1 && h[|h| - 1].d.writesRd && h[|h| - 1].d.rd == 0
  }

  /** The hit of one bin, if the instruction makes it. */
  function HitFor(b: Bin, h: History, e: Event): Option<Hit> {
    match b
    case H01 => Rs1Hit(b, h, e, 1, ALU_RESULT, false)
    case H02 => Rs2Hit(b, h, e, 1, ALU_RESULT)
    case H03 => Rs1Hit(b, h, e, 2, ALU_RESULT, false)
    case H04 => Rs2Hit(b, h, e, 2, ALU_RESULT)
    case H05 =>
      if HasPositive(h, 3) && UsedRoles(e, RdAt(h, 3)) != [] && IsNearest(h, 3)
      then HitBy(b, h, e, 3, UsedRoles(e, RdAt(h, 3))) else None
    case H06 => Rs1Hit(b, h, e, 1, MEM_DATA, false)
    case H07 => Rs2Hit(b, h, e, 1, MEM_DATA)
    case H08 => Rs1Hit(b, h, e, 2, MEM_DATA, false)
    case H09 => Rs2Hit(b, h, e, 2, MEM_DATA)
    case H10 => if DualSource(h, e) then BothHit(b, h, e, [RS1, RS2]) else None
    case H11 => Rs1Hit(b, h, e, 1, IMM, true)
    case H12 => Rs1Hit(b, h, e, 2, IMM, true)
    case H13 => Rs1Hit(b, h, e, 1, PC_PLUS_IMM, true)
    case H14 => Rs1Hit(b, h, e, 2, PC_PLUS_IMM, true)
    case H15 =>
      if Makes(h, 1, PC_PLUS_4) && UsedRoles(e, RdAt(h, 1)) != [] && IsNearest(h, 1)
      then HitBy(b, h, e, 1, UsedRoles(e, RdAt(h, 1))) else None
    case H16 =>
      if Makes(h, 1, ALU_RESULT) && e.instruction % 128 == OP_STORE
         && UsesRs2(e, RdAt(h, 1)) && IsNearest(h, 1)
      then HitBy(b, h, e, 1, [RS2]) else None
    case H17 =>
      if HasPositive(h, 1) && HasPositive(h, 2) && RdAt(h, 1) == RdAt(h, 2) && UsedRoles(e, RdAt(h, 1)) != []
      then BothHit(b, h, e, UsedRoles(e, RdAt(h, 1))) else None
    case H18 =>
      if WritesX0(h) && UsedRoles(e, 0) != [] then HitBy(b, h, e, 1, UsedRoles(e, 0)) else None
    case H19 =>
      if WritesX0(h) && h[|h| - 1].d.producerType == MEM_DATA && UsedRoles(e, 0) != []
      then HitBy(b, h, e, 1, UsedRoles(e, 0)) else None
    case H20 =>
      if Makes(h, 1, MEM_DATA) && !e.d.usesRs2 && RawRs2(e) == RdAt(h, 1) && RdAt(h, 1) !in Sources(e.d)
      then HitBy(b, h, e, 1, [RAW_RS2_UNUSED]) else None
  }

  lemma HitNamesBin(b: Bin, h: History, e: Event)
    ensures HitFor(b, h, e).Some? ==> HitFor(b, h, e).value.bin == b && HitFor(b, h, e).value.consumer == e.index
  {
  }

  const ALL_BINS: seq<Bin> :=
    [H01, H02, H03, H04, H05, H06, H07, H08, H09, H10, H11, H12, H13, H14, H15, H16, H17, H18, H19, H20]

  /** All hits of one instruction over the given bins, in bin order. */
  function HitsOver(bins: seq<Bin>, h: History, e: Event): seq<Hit> {
    if bins == [] then []
    else
      var last := HitFor(bins[|bins| - 1], h, e);
      HitsOver(bins[..|bins| - 1], h, e) + (if last.Some? then [last.value] else [])
  }

  function Push(h: History, e: Event): (h': History)
    ensures |h| <= WINDOW ==> |h'| <= WINDOW
  {
    if |h| >= WINDOW then h[|h| - WINDOW + 1..] + [e] else h + [e]
  }

  function CountHits(hits: seq<Hit>, b: Bin): nat {
    if hits == [] then 0 else CountHits(hits[..|hits| - 1], b) + (if hits[|hits| - 1].bin == b then 1 else 0)
  }

  lemma CountAppended(hits: seq<Hit>, hit: Option<Hit>)
    ensures forall b: Bin ::
              CountHits(hits + (if hit.Some? then [hit.value] else []), b)
              == CountHits(hits, b) + (if hit.Some? && hit.value.bin == b then 1 else 0)
  {
    if hit.Some? {
      assert (hits + [hit.value])[..|hits|] == hits;
    } else {
      assert hits + [] == hits;
    }
  }

  class Collector {
    var intentHitCount: map<Bin, nat>
    var history: History
    var lastInstructionIndex: int

    ghost predicate Valid()
      reads this
    {
      |history| <= WINDOW && forall b: Bin :: b in intentHitCount
    }

    constructor ()
      ensures Valid() && history == [] && lastInstructionIndex == 0
      ensures forall b: Bin :: intentHitCount[b] == 0
    {
      intentHitCount := map b: Bin | b in ALL_BINS :: 0;
      history := [];
      lastInstructionIndex := 0;
      new;
      EveryBinIsListed();
    }

    /** Records one bin if the instruction hits it. */
    method Add(hit: Option<Hit>, hits: seq<Hit>) returns (hits': seq<Hit>)
      requires Valid()
      modifies `intentHitCount
      ensures Valid()
      ensures hits' == hits + (if hit.Some? then [hit.value] else [])
      ensures forall b: Bin ::
                intentHitCount[b] == old(intentHitCount[b]) + (if hit.Some? && hit.value.bin == b then 1 else 0)
    {
      hits' := hits;
      if hit.Some? {
        var b := hit.value.bin;
        hits' := hits + [hit.value];
        intentHitCount := intentHitCount[b := intentHitCount[b] + 1];
      }
    }

    /**
     Classifies one executed instruction, bin by bin, then lets it enter the
     window. Out of order it changes nothing.
     */
    method Observe(e: Event) returns (r: Option<seq<Hit>>)
      requires Valid()
      modifies this
      ensures Valid()
      ensures r.Some? <==> e.index == old(lastInstructionIndex) + 1
      ensures r.None? ==> history == old(history) && lastInstructionIndex == old(lastInstructionIndex)
                          && intentHitCount == old(intentHitCount)
      ensures r.Some? ==>
                && r.value == HitsOver(ALL_BINS, old(history), e)
                && history == Push(old(history), e) && lastInstructionIndex == e.index
                && forall b: Bin :: intentHitCount[b] == old(intentHitCount[b]) + CountHits(r.value, b)
    {
      hide HitFor;
      if e.index != lastInstructionIndex + 1 {
        return None;
      }
      var hits: seq<Hit> := [];
      for k := 0 to |ALL_BINS|
        invariant Valid() && history == old(history)
        invariant hits == HitsOver(ALL_BINS[..k], history, e)
        invariant forall b: Bin :: intentHitCount[b] == old(intentHitCount[b]) + CountHits(hits, b)
      {
        var hit := HitFor(ALL_BINS[k], history, e);
        CountAppended(hits, hit);
        hits := Add(hit, hits);
        assert ALL_BINS[..k + 1][..k] == ALL_BINS[..k];
      }
      assert ALL_BINS[..|ALL_BINS|] == ALL_BINS;
      history := Push(history, e);
      lastInstructionIndex := e.index;
      r := Some(hits);
    }
  }

  function Position(b: Bin): (k: nat)
    ensures k < |ALL_BINS| && ALL_BINS[k] == b
  {
    match b
    case H01 => 0 case H02 => 1 case H03 => 2 case H04 => 3 case H05 => 4
    case H06 => 5 case H07 => 6 case H08 => 7 case H09 => 8 case H10 => 9
    case H11 => 10 case H12 => 11 case H13 => 12 case H14 => 13 case H15 => 14
    case H16 => 15 case H17 => 16 case H18 => 17 case H19 => 18 case H20 => 19
  }

  lemma EveryBinIsListed()
    ensures forall b: Bin :: b in ALL_BINS
  {
    forall b: Bin
      ensures b in ALL_BINS
    {
      assert ALL_BINS[Position(b)] == b;
    }
  }
}
