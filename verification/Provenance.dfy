/**
 Executing planned entries produces exactly their planned dependencies: from
 any earlier writers, no witness is missed and no incidental hit appears.
 */
module HitsAreWitnesses {
  import opened Wrappers
  import opened Rv32Isa
  import opened ArmsAndTargets
  import opened FillerPolicy
  import opened TemplateRealizer
  import opened StreamPlan

  /** The index of the last writer of each register. */
  type WriterIndex = map<Reg, int>

  /** The architectural sources of an instruction, without repetition. */
  function SourcesOf(i: Instr): seq<Reg>
    requires Legal(i)
  {
    match i
    case Add(_, rs1, rs2) => if rs1 == rs2 then [rs1] else [rs1, rs2]
    case Addi(_, rs1, _) => [rs1]
    case Lw(_, rs1, _) => [rs1]
    case Sw(rs2, rs1, _) => if rs1 == rs2 then [rs1] else [rs1, rs2]
    case Jalr(_, rs1, _) => [rs1]
    case Branch(_, rs1, rs2, _) => if rs1 == rs2 then [rs1] else [rs1, rs2]
    case _ => []
  }

  function DestinationOf(i: Instr): Option<Reg>
    requires Legal(i)
  {
    match i
    case Sw(_, _, _) => None
    case Branch(_, _, _, _) => None
    case _ => if i.rd == 0 then None else Some(i.rd)
  }

  function KeyFor(w: WriterIndex, index: int, r: Reg): seq<Key> {
    if r != 0 && r in w && (index - w[r] == 1 || index - w[r] == 2) then [Key(index - w[r], r, w[r], index)] else []
  }

  /** The dependencies of one executed instruction, first operand first. */
  function KeysAt(w: WriterIndex, index: int, i: Instr): seq<Key>
    requires Legal(i)
  {
    var s := SourcesOf(i);
    (if |s| >= 1 then KeyFor(w, index, s[0]) else []) + (if |s| >= 2 then KeyFor(w, index, s[1]) else [])
  }

  function After(w: WriterIndex, index: int, i: Instr): WriterIndex
    requires Legal(i)
  {
    if DestinationOf(i).Some? then w[DestinationOf(i).value := index] else w
  }

  predicate AllLegal(xs: seq<Exec>) {
    forall k | 0 <= k < |xs| :: Legal(xs[k].instr)
  }

  function KeysThrough(w: WriterIndex, xs: seq<Exec>): seq<Key>
    requires AllLegal(xs)
    decreases |xs|
  {
    if xs == [] then []
    else KeysAt(w, xs[0].index, xs[0].instr) + KeysThrough(After(w, xs[0].index, xs[0].instr), xs[1..])
  }

  function WritersThrough(w: WriterIndex, xs: seq<Exec>): WriterIndex
    requires AllLegal(xs)
    decreases |xs|
  {
    if xs == [] then w else WritersThrough(After(w, xs[0].index, xs[0].instr), xs[1..])
  }

  lemma {:induction false} KeysConcat(w: WriterIndex, xs: seq<Exec>, ys: seq<Exec>)
    requires AllLegal(xs) && AllLegal(ys)
    ensures AllLegal(xs + ys)
    ensures KeysThrough(w, xs + ys) == KeysThrough(w, xs) + KeysThrough(WritersThrough(w, xs), ys)
    ensures WritersThrough(w, xs + ys) == WritersThrough(WritersThrough(w, xs), ys)
    decreases |xs|
  {
    hide KeysAt, After, Legal;
    if xs == [] {
      assert xs + ys == ys;
    } else {
      KeysConcat(After(w, xs[0].index, xs[0].instr), xs[1..], ys);
      assert (xs + ys)[1..] == xs[1..] + ys && (xs + ys)[0] == xs[0];
    }
  }

  // ---------------------------------------------------------------------
  // The shapes a template can have
  // ---------------------------------------------------------------------

  /** Reads x0 at most. */
  predicate ReadsNothing(i: Instr) {
    Legal(i) && (SourcesOf(i) == [] || SourcesOf(i) == [0])
  }

  /** Reads r once and otherwise x0 at most. */
  predicate ReadsOnly(i: Instr, r: Reg) {
    Legal(i) && r != 0 && (SourcesOf(i) == [r] || SourcesOf(i) == [0, r])
  }

  lemma NothingRead(w: WriterIndex, index: int, i: Instr)
    requires ReadsNothing(i)
    ensures KeysAt(w, index, i) == []
  {
    hide SourcesOf;
  }

  lemma Steps(w: WriterIndex, x: Exec, rest: seq<Exec>)
    requires Legal(x.instr) && AllLegal(rest)
    ensures AllLegal([x] + rest)
    ensures KeysThrough(w, [x] + rest)
         == KeysAt(w, x.index, x.instr) + KeysThrough(After(w, x.index, x.instr), rest)
  {
    assert ([x] + rest)[1..] == rest;
  }

  lemma OneStep(w: WriterIndex, x: Exec)
    requires Legal(x.instr)
    ensures KeysThrough(w, [x]) == KeysAt(w, x.index, x.instr)
  {
    Steps(w, x, []);
    assert [x] + [] == [x];
  }

  /** Producer, then consumer. */
  lemma ProducerConsumer(w: WriterIndex, p: Exec, c: Exec, r: Reg)
    requires ReadsNothing(p.instr) && DestinationOf(p.instr) == Some(r) && ReadsOnly(c.instr, r)
    requires c.index == p.index + 1
    ensures AllLegal([p, c]) && KeysThrough(w, [p, c]) == [Key(1, r, p.index, c.index)]
  {
    NothingRead(w, p.index, p.instr);
    OneStep(After(w, p.index, p.instr), c);
    Steps(w, p, [c]);
    assert [p] + [c] == [p, c];
  }

  /** Producer, an instruction that leaves the register alone, then consumer. */
  lemma ProducerGapConsumer(w: WriterIndex, p: Exec, g: Exec, c: Exec, r: Reg)
    requires ReadsNothing(p.instr) && DestinationOf(p.instr) == Some(r) && ReadsOnly(c.instr, r)
    requires ReadsNothing(g.instr) && DestinationOf(g.instr) != Some(r)
    requires g.index == p.index + 1 && c.index == p.index + 2
    ensures AllLegal([p, g, c]) && KeysThrough(w, [p, g, c]) == [Key(2, r, p.index, c.index)]
  {
    var w1 := After(w, p.index, p.instr);
    NothingRead(w, p.index, p.instr);
    NothingRead(w1, g.index, g.instr);
    OneStep(After(w1, g.index, g.instr), c);
    Steps(w1, g, [c]);
    Steps(w, p, [g, c]);
    assert [p] + [g, c] == [p, g, c] && [g] + [c] == [g, c];
  }

  /** Two producers; the newer one is consumed. */
  lemma ShadowedProducer(w: WriterIndex, o: Exec, p: Exec, c: Exec, r: Reg)
    requires ReadsNothing(o.instr) && ReadsNothing(p.instr) && DestinationOf(p.instr) == Some(r)
    requires ReadsOnly(c.instr, r) && p.index == o.index + 1 && c.index == p.index + 1
    ensures AllLegal([o, p, c]) && KeysThrough(w, [o, p, c]) == [Key(1, r, p.index, c.index)]
  {
    NothingRead(w, o.index, o.instr);
    ProducerConsumer(After(w, o.index, o.instr), p, c, r);
    Steps(w, o, [p, c]);
    assert [o] + [p, c] == [o, p, c];
  }

  /** Two producers of distinct registers; both are consumed. */
  lemma DualProducer(w: WriterIndex, o: Exec, p: Exec, c: Exec, d1: Reg, d2: Reg)
    requires ReadsNothing(o.instr) && DestinationOf(o.instr) == Some(d2)
    requires ReadsNothing(p.instr) && DestinationOf(p.instr) == Some(d1) && d1 != d2
    requires Legal(c.instr) && SourcesOf(c.instr) == [d1, d2]
    requires p.index == o.index + 1 && c.index == p.index + 1
    ensures AllLegal([o, p, c])
    ensures KeysThrough(w, [o, p, c]) == [Key(1, d1, p.index, c.index), Key(2, d2, o.index, c.index)]
  {
    hide KeysThrough, Legal;
    var w1 := After(w, o.index, o.instr);
    NothingRead(w, o.index, o.instr);
    NothingRead(w1, p.index, p.instr);
    OneStep(After(w1, p.index, p.instr), c);
    Steps(w1, p, [c]);
    Steps(w, o, [p, c]);
    assert [o] + [p, c] == [o, p, c] && [p] + [c] == [p, c];
  }

  // ---------------------------------------------------------------------
  // Each arm
  // ---------------------------------------------------------------------

  /** The executed words of a template alone. */
  function TemplateExecs(t: Template, start: nat, first: nat): (xs: seq<Exec>)
    requires forall k | 0 <= k < |t.executed| :: t.executed[k] < |t.code|
    ensures |xs| == |t.executed|
  {
    seq(|t.executed|, k requires 0 <= k < |t.executed| =>
      Exec(start + t.executed[k], first + k, t.code[t.executed[k]]))
  }

  /** The template makes exactly its witnesses' dependencies, whoever wrote before. */
  ghost predicate MakesItsWitnesses(t: Template, start: nat, id: nat, first: nat, w: WriterIndex) {
    && (forall k | 0 <= k < |t.executed| :: t.executed[k] < |t.code|)
    && AllLegal(TemplateExecs(t, start, first))
    && BuildWitnesses(t, id, first).Some?
    && KeysThrough(w, TemplateExecs(t, start, first)) == KeysOf(BuildWitnesses(t, id, first).value)
  }

  lemma Positions()
    ensures PositionOf([0, 1], 0) == Some(0) && PositionOf([0, 1], 1) == Some(1)
    ensures PositionOf([0, 1, 2], 0) == Some(0) && PositionOf([0, 1, 2], 1) == Some(1)
    ensures PositionOf([0, 1, 2], 2) == Some(2)
    ensures PositionOf([0, 3], 0) == Some(0) && PositionOf([0, 3], 3) == Some(1)
  {
    var s: seq<nat> := [0, 1, 2];
    assert s[..2] == [0, 1] && [0, 1][..1] == [0] && [0, 3][..1] == [0];
  }

  /** Witnesses of a template with one producer. */
  lemma SingleWitness(t: Template, id: nat, first: nat)
    requires HasShape(t.arm, t.target) && t.arm != A4
    requires t.d1Producer.Some? != t.d2Producer.Some?
    requires t.d1Producer.Some? <==> ArmDistance(t.arm) == D1
    requires var p := if t.d1Producer.Some? then t.d1Producer.value else t.d2Producer.value;
             var a, b := PositionOf(t.executed, p), PositionOf(t.executed, t.consumer);
             a.Some? && b.Some? && b.value - a.value == if t.d1Producer.Some? then 1 else 2
    ensures BuildWitnesses(t, id, first).Some?
    ensures var p := PositionOf(t.executed, if t.d1Producer.Some? then t.d1Producer.value else t.d2Producer.value).value;
            var c := PositionOf(t.executed, t.consumer).value;
            KeysOf(BuildWitnesses(t, id, first).value)
            == [if t.d1Producer.Some? then Key(1, t.target.d1.value, first + p, first + c)
                else Key(2, t.target.d2.value, first + p, first + c)]
  {
    hide PositionOf;
  }

  /** A0, A2, A5, A7, A8: the producer is consumed by the next executed instruction. */
  lemma DistanceOneArm(t: Template, start: nat, id: nat, first: nat, w: WriterIndex)
    requires RealizedAt(t, start) && (t.arm == A0 || t.arm == A2 || t.arm == A5 || t.arm == A7 || t.arm == A8)
    ensures MakesItsWitnesses(t, start, id, first, w)
  {
    hide PositionOf, BuildWitnesses, PhysicalPc, KeysThrough, AllLegal;
    Positions();
    var r := t.target.d1.value;
    var last := t.executed[1];
    var p, c := Exec(start, first, t.code[0]), Exec(start + last, first + 1, t.code[last]);
    ProducerConsumer(w, p, c, r);
    assert TemplateExecs(t, start, first) == [p, c];
    SingleWitness(t, id, first);
  }

  /** A1, A3, A6: one independent instruction stands between. */
  lemma DistanceTwoArm(t: Template, start: nat, id: nat, first: nat, w: WriterIndex)
    requires RealizedAt(t, start) && ArmDistance(t.arm) == D2
    ensures MakesItsWitnesses(t, start, id, first, w)
  {
    hide PositionOf, BuildWitnesses, PhysicalPc, KeysThrough, AllLegal;
    Positions();
    var r := t.target.d2.value;
    var p, g, c := Exec(start, first, t.code[0]), Exec(start + 1, first + 1, t.code[1]),
                   Exec(start + 2, first + 2, t.code[2]);
    ProducerGapConsumer(w, p, g, c, r);
    assert TemplateExecs(t, start, first) == [p, g, c];
    SingleWitness(t, id, first);
  }

  /** A9: only the newer of two writers is consumed. */
  lemma PriorityArm(t: Template, start: nat, id: nat, first: nat, w: WriterIndex)
    requires RealizedAt(t, start) && t.arm == A9
    ensures MakesItsWitnesses(t, start, id, first, w)
  {
    hide PositionOf, BuildWitnesses, PhysicalPc, KeysThrough, AllLegal;
    Positions();
    var r := t.target.d1.value;
    var o, p, c := Exec(start, first, t.code[0]), Exec(start + 1, first + 1, t.code[1]),
                   Exec(start + 2, first + 2, t.code[2]);
    ShadowedProducer(w, o, p, c, r);
    assert TemplateExecs(t, start, first) == [o, p, c];
    SingleWitness(t, id, first);
  }

  predicate IsDual(t: Template) {
    && t.arm == A4 && t.target.d1.Some? && t.target.d2.Some? && t.target.d1.value != t.target.d2.value
    && IsPositive(t.target.d1.value) && IsPositive(t.target.d2.value)
    && t.executed == [0, 1, 2] && t.consumer == 2 && t.d1Producer == Some(1) && t.d2Producer == Some(0)
    && |t.code| == 3
  }

  lemma DualShape(t: Template, start: nat)
    requires RealizedAt(t, start) && t.arm == A4
    ensures IsDual(t)
    ensures ReadsNothing(t.code[0]) && DestinationOf(t.code[0]) == Some(t.target.d2.value)
    ensures ReadsNothing(t.code[1]) && DestinationOf(t.code[1]) == Some(t.target.d1.value)
    ensures Legal(t.code[2]) && SourcesOf(t.code[2]) == [t.target.d1.value, t.target.d2.value]
  {
    hide PhysicalPc;
  }

  lemma DualWitnesses(t: Template, id: nat, first: nat)
    requires IsDual(t)
    ensures BuildWitnesses(t, id, first).Some?
    ensures KeysOf(BuildWitnesses(t, id, first).value)
         == [Key(1, t.target.d1.value, first + 1, first + 2), Key(2, t.target.d2.value, first, first + 2)]
  {
    hide PositionOf;
    Positions();
  }

  /** A4: one dependency at each distance. */
  lemma DualArm(t: Template, start: nat, id: nat, first: nat, w: WriterIndex)
    requires RealizedAt(t, start) && t.arm == A4
    ensures MakesItsWitnesses(t, start, id, first, w)
  {
    hide PositionOf, RealizedAt, KeysThrough, AllLegal, BuildWitnesses, Legal;
    DualShape(t, start);
    DualWitnesses(t, id, first);
    var d1, d2 := t.target.d1.value, t.target.d2.value;
    var o, p, c := Exec(start, first, t.code[0]), Exec(start + 1, first + 1, t.code[1]),
                   Exec(start + 2, first + 2, t.code[2]);
    DualProducer(w, o, p, c, d1, d2);
    assert TemplateExecs(t, start, first) == [o, p, c];
  }

  lemma EveryArm(t: Template, start: nat, id: nat, first: nat, w: WriterIndex)
    requires RealizedAt(t, start)
    ensures MakesItsWitnesses(t, start, id, first, w)
  {
    hide RealizedAt, MakesItsWitnesses;
    match t.arm
    case A4 => DualArm(t, start, id, first, w);
    case A9 => PriorityArm(t, start, id, first, w);
    case A1 => DistanceTwoArm(t, start, id, first, w);
    case A3 => DistanceTwoArm(t, start, id, first, w);
    case A6 => DistanceTwoArm(t, start, id, first, w);
    case _ => DistanceOneArm(t, start, id, first, w);
  }

  // ---------------------------------------------------------------------
  // Whole plans
  // ---------------------------------------------------------------------

  predicate AllInImage(es: seq<Entry>) {
    forall e | e in es :: OffsetsInImage(e)
  }

  /** The executed words of a plan, in order. */
  function PlanExecs(es: seq<Entry>): seq<Exec>
    requires AllInImage(es)
  {
    if es == [] then [] else PlanExecs(es[..|es| - 1]) + ExecOf(es[|es| - 1])
  }

  /** The planned dependencies of a plan, in order. */
  function PlanKeys(es: seq<Entry>): seq<Key> {
    if es == [] then [] else PlanKeys(es[..|es| - 1]) + KeysOf(es[|es| - 1].Witnesses())
  }

  lemma FillerMakesNothing(e: Entry, w: WriterIndex)
    requires Planned(e) && e.Block? && e.fillers != []
    ensures var x := Exec(e.start + |e.template.code|, e.first + |e.template.executed|, e.fillers[0]);
            AllLegal([x]) && KeysThrough(w, [x]) == []
  {
    hide Realize, LegalVariant, BuildWitnesses, PhysicalPc;
    assert e.fillers[0] in e.fillers;
    var x := Exec(e.start + |e.template.code|, e.first + |e.template.executed|, e.fillers[0]);
    NothingRead(w, x.index, x.instr);
    OneStep(w, x);
  }

  lemma DelimiterMakesNothing(e: Entry, w: WriterIndex)
    requires e.Delimiter?
    ensures OffsetsInImage(e) && AllLegal(ExecOf(e)) && KeysThrough(w, ExecOf(e)) == []
  {
    assert e.Offsets() == [0] && e.Code() == [DELIMITER];
    var xs := ExecOf(e);
    assert |xs| == 1 && xs[0] == Exec(e.start, e.first, DELIMITER);
    assert xs == [Exec(e.start, e.first, DELIMITER)];
    NothingRead(w, e.first, DELIMITER);
    OneStep(w, Exec(e.start, e.first, DELIMITER));
  }

  lemma BlockSplits(e: Entry)
    requires Planned(e) && e.Block?
    ensures OffsetsInImage(e) && forall k | 0 <= k < |e.template.executed| :: e.template.executed[k] < |e.template.code|
    ensures ExecOf(e) == TemplateExecs(e.template, e.start, e.first)
         + (if e.fillers == [] then []
            else [Exec(e.start + |e.template.code|, e.first + |e.template.executed|, e.fillers[0])])
  {
    hide BuildWitnesses, PhysicalPc, Realize, Legal, LegalVariant;
    PlannedShape(e);
    RealizedFlows(e.template, e.start);
  }

  /** Executing one planned entry makes its planned dependencies and no other. */
  lemma EntryMakesItsWitnesses(e: Entry, w: WriterIndex)
    requires Planned(e)
    ensures OffsetsInImage(e) && AllLegal(ExecOf(e)) && KeysThrough(w, ExecOf(e)) == KeysOf(e.Witnesses())
  {
    hide BuildWitnesses, PhysicalPc, Realize, Legal, LegalVariant, KeysThrough, WritersThrough, TemplateExecs, ExecOf;
    if e.Delimiter? {
      DelimiterMakesNothing(e, w);
    } else {
      BlockSplits(e);
      EveryArm(e.template, e.start, e.id, e.first, w);
      var xs := TemplateExecs(e.template, e.start, e.first);
      if e.fillers != [] {
        FillerMakesNothing(e, WritersThrough(w, xs));
        KeysConcat(w, xs, [Exec(e.start + |e.template.code|, e.first + |e.template.executed|, e.fillers[0])]);
      } else {
        assert xs + [] == xs;
      }
    }
  }

  /** A whole campaign makes exactly the planned dependencies, whatever was written before it. */
  lemma {:induction false} PlanMakesItsWitnesses(es: seq<Entry>, w: WriterIndex)
    requires forall e | e in es :: Planned(e)
    ensures AllInImage(es)
    ensures AllLegal(PlanExecs(es)) && KeysThrough(w, PlanExecs(es)) == PlanKeys(es)
  {
    hide Planned, ExecOf, OffsetsInImage, AllLegal, KeysThrough, WritersThrough;
    if es == [] {
      EmptyRun(w);
    } else {
      var front, last := es[..|es| - 1], es[|es| - 1];
      PlanMakesItsWitnesses(front, w);
      EntryMakesItsWitnesses(last, WritersThrough(w, PlanExecs(front)));
      assert forall e | e in es :: e in front || e == last;
      KeysConcat(w, PlanExecs(front), ExecOf(last));
    }
  }

  lemma EmptyRun(w: WriterIndex)
    ensures AllLegal([]) && KeysThrough(w, []) == []
  {
  }

  /** Every dependency ends at the instruction that made it. */
  lemma {:induction false} KeyConsumers(w: WriterIndex, xs: seq<Exec>, first: int, key: Key)
    requires AllLegal(xs) && (forall k | 0 <= k < |xs| :: xs[k].index == first + k)
    requires key in KeysThrough(w, xs)
    ensures first <= key.consumer < first + |xs|
    decreases |xs|
  {
    hide SourcesOf, After, Legal;
    if key !in KeysAt(w, xs[0].index, xs[0].instr) {
      KeyConsumers(After(w, xs[0].index, xs[0].instr), xs[1..], first + 1, key);
    }
  }

  /** The planned dependencies that end before a cut, in order. */
  function EndingBefore(keys: seq<Key>, cut: int): (r: seq<Key>) {
    if keys == [] then []
    else EndingBefore(keys[..|keys| - 1], cut) + (if keys[|keys| - 1].consumer < cut then [keys[|keys| - 1]] else [])
  }

  lemma {:induction false} EndingBeforeSplit(a: seq<Key>, b: seq<Key>, cut: int)
    requires (forall k | k in a :: k.consumer < cut) && (forall k | k in b :: k.consumer >= cut)
    ensures EndingBefore(a + b, cut) == a
  {
    hide EndingBefore;
    if b != [] {
      EndingBeforeSplit(a, b[..|b| - 1], cut);
      EndingBeforeLast(a + b[..|b| - 1], b[|b| - 1], cut);
      assert a + b == a + b[..|b| - 1] + [b[|b| - 1]];
    } else if a != [] {
      var front := a[..|a| - 1];
      EndingBeforeSplit(front, [], cut);
      EndingBeforeLast(front, a[|a| - 1], cut);
      assert front + [] == front && a + [] == a == front + [a[|a| - 1]];
    } else {
      assert a + b == [];
      NoneEndingBefore(cut);
    }
  }

  lemma EndingBeforeLast(keys: seq<Key>, k: Key, cut: int)
    ensures EndingBefore(keys + [k], cut) == EndingBefore(keys, cut) + (if k.consumer < cut then [k] else [])
  {
    assert (keys + [k])[..|keys|] == keys;
  }

  lemma NoneEndingBefore(cut: int)
    ensures EndingBefore([], cut) == []
  {
  }

  /**
   Stopping after any number of executed instructions, also inside a block,
   leaves exactly the planned dependencies whose consumer was executed.
   */
  lemma CutMakesExecutedWitnesses(es: seq<Entry>, w: WriterIndex, first: int, n: nat)
    requires forall e | e in es :: Planned(e)
    requires AllInImage(es) && n <= |PlanExecs(es)|
    requires forall k | 0 <= k < |PlanExecs(es)| :: PlanExecs(es)[k].index == first + k
    ensures AllLegal(PlanExecs(es)[..n])
    ensures KeysThrough(w, PlanExecs(es)[..n]) == EndingBefore(PlanKeys(es), first + n)
  {
    hide Planned, ExecOf, OffsetsInImage, KeysThrough, WritersThrough, PlanExecs, PlanKeys, Legal;
    PlanMakesItsWitnesses(es, w);
    var xs := PlanExecs(es);
    var a, b := xs[..n], xs[n..];
    assert a + b == xs;
    KeysConcat(w, a, b);
    var w1 := WritersThrough(w, a);
    forall k | k in KeysThrough(w, a)
      ensures k.consumer < first + n
    {
      KeyConsumers(w, a, first, k);
    }
    forall k | k in KeysThrough(w1, b)
      ensures k.consumer >= first + n
    {
      KeyConsumers(w1, b, first + n, k);
    }
    EndingBeforeSplit(KeysThrough(w, a), KeysThrough(w1, b), first + n);
  }
}
