/**
 One accepted instruction of a planned campaign, from its hits to the freed
 block: every hit is a planned one, every planned one is hit, nothing is pruned.
 */
module CampaignStep {
  import opened Wrappers
  import opened Rv32Isa
  import opened Execution
  import opened ArmsAndTargets
  import opened TemplateRealizer
  import opened StreamPlan
  import opened HitsAreWitnesses
  import opened PlanRun
  import opened CampaignCoverage
  import opened Attribution
  import opened Rewards
  import opened EpochCoordinator
  import opened StreamWindow
  import opened RuntimeWindow
  import L2 = L2Coverage

  // ---------------------------------------------------------------------
  // What the planner builds, the window accepts
  // ---------------------------------------------------------------------

  lemma WitnessFacts(t: Template, id: nat, first: nat, ws: seq<Witness>)
    requires BuildWitnesses(t, id, first) == Some(ws)
    ensures DistinctKeys(ws) && |ws| == if t.arm == A4 then 2 else 1
    ensures forall w | w in ws ::
              && w.arm == t.arm && w.id == id && first <= w.producer && w.consumer < first + |t.executed|
              && w.consumer - w.producer == w.distance
              && (w.distance == 1 || w.distance == 2) && IsPositive(w.register)
              && (if w.distance == 1 then t.target.d1 else t.target.d2) == Some(w.register)
  {
    hide PositionOf;
  }

  /** The bins of the witnesses are exactly the bins the arm is rewarded for. */
  lemma WitnessBins(t: Template, id: nat, first: nat, ws: seq<Witness>)
    requires BuildWitnesses(t, id, first) == Some(ws) && HasShape(t.arm, t.target)
    ensures (set w | w in ws :: BinOf(KeyOf(w))) == AttributionTargets(t.arm, t.target).value
    ensures forall w | w in ws :: w.arm == t.arm && w.id == id && w.consumer - w.producer == w.distance
  {
    hide BuildWitnesses;
    WitnessFacts(t, id, first, ws);
    var bins := set w | w in ws :: BinOf(KeyOf(w));
    assert ws[0] in ws && BinOf(KeyOf(ws[0])) in bins;
    if t.arm == A4 {
      assert ws[1] in ws && BinOf(KeyOf(ws[1])) in bins;
      assert KeyOf(ws[0]) != KeyOf(ws[1]);
      DualBins(t, id, first, ws);
    }
  }

  lemma DualBins(t: Template, id: nat, first: nat, ws: seq<Witness>)
    requires BuildWitnesses(t, id, first) == Some(ws) && t.arm == A4
    ensures |ws| == 2 && ws[0].distance != ws[1].distance
  {
    hide PositionOf;
  }

  /** Planned entries meet what the window asks of an entry, and their witnesses what the epoch asks of a witness. */
  lemma PlannedIsOk(e: Entry)
    requires Planned(e)
    ensures EntryOk(e) && DistinctKeys(e.Witnesses())
    ensures e.Block? ==> forall w | w in e.Witnesses() ::
              Eligible(w, e.template.arm, AttributionTargets(e.template.arm, e.template.target).value)
  {
    hide Realize, LegalVariant, BuildWitnesses, PhysicalPc, Legal;
    PlannedShape(e);
    if e.Block? {
      WitnessFacts(e.template, e.id, e.first, e.provenance);
      WitnessBins(e.template, e.id, e.first, e.provenance);
    }
  }

  /** In the epoch it was planned for, an entry that continues the plan is refused only for space. */
  lemma PlannedIsAdmitted(w: Window, e: Entry)
    requires w.Valid() && Planned(e)
    requires e.Block? ==>
               && w.coordinator.tracker != null
               && w.coordinator.tracker.arm == e.template.arm && w.coordinator.tracker.target == e.template.target
    ensures w.Registers(e)
  {
    hide Planned;
    PlannedIsOk(e);
  }

  // ---------------------------------------------------------------------
  // The hits of one event
  // ---------------------------------------------------------------------

  lemma {:induction false} MembersEndingBefore(keys: seq<Key>, cut: int, k: Key)
    ensures k in EndingBefore(keys, cut) <==> k in keys && k.consumer < cut
  {
    if keys != [] {
      MembersEndingBefore(keys[..|keys| - 1], cut, k);
    }
  }

  /** The hits of instruction n are the planned dependencies that end at n. */
  lemma EventHitsArePlanned(es: seq<Entry>, writers: WriterIndex, n: nat, k: Key)
    requires Stream(es) && LegalCode(es) && AllInImage(es) && n < |PlanExecs(es)|
    requires AllLegal(PlanExecs(es)) && AllLegal(PlanExecs(es)[..n])
    ensures var x := PlanExecs(es)[n];
            k in KeysAt(WritersThrough(writers, PlanExecs(es)[..n]), x.index, x.instr)
            <==> k in PlanKeys(es) && k.consumer == n + 1
  {
    hide Planned, LegalCode, AllInImage, PlanExecs, PlanKeys, Contiguous, KeysThrough, WritersThrough, KeysAt, Placed,
      FlowsThrough, ImageOf, Legal;
    StreamLayout(es);
    var xs := PlanExecs(es);
    CutMakesExecutedWitnesses(es, writers, 1, n);
    CutMakesExecutedWitnesses(es, writers, 1, n + 1);
    assert xs[..n + 1] == xs[..n] + [xs[n]];
    KeysConcat(writers, xs[..n], [xs[n]]);
    OneStep(WritersThrough(writers, xs[..n]), xs[n]);
    MembersEndingBefore(PlanKeys(es), n + 1, k);
    MembersEndingBefore(PlanKeys(es), n + 2, k);
    ConsumerIsNow(WritersThrough(writers, xs[..n]), xs[n].index, xs[n].instr, k);
  }

  lemma ConsumerIsNow(w: WriterIndex, index: int, i: Instr, k: Key)
    requires Legal(i)
    ensures k in KeysAt(w, index, i) ==> k.consumer == index
  {
  }

  lemma {:induction false} PlanKeyIsIn(es: seq<Entry>, k: Key)
    ensures k in PlanKeys(es) <==> KeyIn(es, k)
  {
    if es != [] {
      var front, last := es[..|es| - 1], es[|es| - 1];
      PlanKeyIsIn(front, k);
      KeyInAppend(front, last, k);
      assert front + [last] == es;
      KeysOfMember(last.Witnesses(), k);
    }
  }

  lemma KeysOfMember(ws: seq<Witness>, k: Key)
    ensures k in KeysOf(ws) <==> KeyOfWitnesses(ws, k)
  {
    if k in KeysOf(ws) {
      var j :| 0 <= j < |ws| && KeysOf(ws)[j] == k;
      assert ws[j] in ws;
    }
    if KeyOfWitnesses(ws, k) {
      var w :| w in ws && KeyOf(w) == k;
      var j :| 0 <= j < |ws| && ws[j] == w;
      assert KeysOf(ws)[j] == k;
    }
  }

  // ---------------------------------------------------------------------
  // One accepted event
  // ---------------------------------------------------------------------

  function Bins(hits: seq<Key>): set<IntentBin> {
    set h | h in hits :: BinOf(h)
  }

  predicate Distinct(hits: seq<Key>) {
    forall i, j | 0 <= i < j < |hits| :: hits[i] != hits[j]
  }

  function Taken(byKey: map<Key, Witness>, hits: seq<Key>): map<Key, Witness> {
    map k | k in byKey && k !in hits :: byKey[k]
  }

  /** Registers the hits of one event; each consumes its own witness. */
  method RegisterHits(c: Coordinator, hits: seq<Key>)
    requires c.Valid() && c.tracker != null && Distinct(hits)
    requires forall h | h in hits :: h in c.registry.byKey && IsIntentBin(BinOf(h))
    modifies c`seen, c.registry, c.tracker
    ensures c.Valid() && c.history == old(c.history)
    ensures c.registry.byKey == Taken(old(c.registry.byKey), hits)
    ensures c.tracker.observed == old(c.tracker.observed) + Bins(hits)
    ensures c.tracker.attributable == old(c.tracker.attributable) + Bins(hits)
    ensures c.seen == old(c.seen) + Bins(hits)
  {
    hide Coordinator.Valid, IsIntentBin;
    for k := 0 to |hits|
      invariant c.Valid() && c.tracker == old(c.tracker) && c.history == old(c.history)
      invariant c.registry.byKey == Taken(old(c.registry.byKey), hits[..k])
      invariant c.tracker.observed == old(c.tracker.observed) + Bins(hits[..k])
      invariant c.tracker.attributable == old(c.tracker.attributable) + Bins(hits[..k])
      invariant c.seen == old(c.seen) + Bins(hits[..k])
    {
      assert hits[k] in hits && hits[k] !in hits[..k];
      OneMoreHit(old(c.registry.byKey), hits, k);
      var matched := c.RegisterL2Hit(hits[k]);
      assert matched.Ok? && matched.value.Some?;
    }
    assert hits[..|hits|] == hits;
  }

  lemma OneMoreHit(byKey: map<Key, Witness>, hits: seq<Key>, k: nat)
    requires k < |hits|
    ensures Taken(byKey, hits[..k]) - {hits[k]} == Taken(byKey, hits[..k + 1])
    ensures Bins(hits[..k]) + {BinOf(hits[k])} == Bins(hits[..k + 1])
    ensures Bins(hits[..0]) == {} && Taken(byKey, hits[..0]) == byKey
  {
    assert hits[..k + 1] == hits[..k] + [hits[k]];
    forall b | b in Bins(hits[..k]) + {BinOf(hits[k])}
      ensures b in Bins(hits[..k + 1])
    {
      if b == BinOf(hits[k]) {
        assert hits[k] in hits[..k + 1];
      } else {
        var h :| h in hits[..k] && BinOf(h) == b;
        assert h in hits[..k + 1];
      }
    }
  }

  lemma TakenLeavesTheRest(byKey: map<Key, Witness>, es: seq<Entry>, next: int, hits: seq<Key>)
    requires Exactly(byKey, es, next) && forall k :: k in hits <==> KeyIn(es, k) && k.consumer == next
    ensures ExactlyBeyond(Taken(byKey, hits), es, next)
    ensures Future(Taken(byKey, hits), next) == Taken(byKey, hits)
    ensures forall h | h in hits :: h in byKey
  {
    hide KeyIn;
  }

  lemma TakenStaysLive(byKey: map<Key, Witness>, hits: seq<Key>, es: seq<Entry>, progress: nat, next: int, accepted: int,
                       committed: int)
    requires Live(byKey, es, progress, next, accepted, committed)
    ensures Live(Taken(byKey, hits), es, progress, next, accepted, committed)
  {
  }

  /**
   One accepted event with the hits its plan foresees: each hit consumes its own
   witness, so every observed bin is attributed, and the prune that follows
   finds nothing to drop.
   */
  method AcceptEvent(w: Window, ev: Event, hits: seq<Key>) returns (released: Option<Released>)
    requires w.Valid() && w.PendingExactly() && !w.terminated && w.coordinator.tracker != null
    requires ev.index > 0 && w.tracker.Accepts(ev)
    requires Distinct(hits) && (forall h | h in hits :: IsIntentBin(BinOf(h)))
    requires forall k :: k in hits <==> KeyIn(w.ring.blocks, k) && k.consumer == ev.index
    modifies w.ring, w.tracker, w.coordinator, w.coordinator.registry, w.coordinator.tracker
    ensures w.Valid() && w.PendingExactly() && !w.terminated && w.tracker.nextExpected == ev.index + 1
    ensures w.tracker.acceptedCount == old(w.tracker.acceptedCount) + 1 && w.committed == old(w.committed)
    ensures released.Some? <==> old(w.tracker.progress) + 1 == old(w.tracker.blocks)[0].ExecutedCount()
    ensures released.Some? ==>
              released.value.entry == old(w.ring.blocks)[0] && w.ring.blocks == old(w.ring.blocks)[1..] && w.tracker.progress == 0
    ensures released.None? ==> w.ring.blocks == old(w.ring.blocks) && w.tracker.progress == old(w.tracker.progress) + 1
    ensures w.coordinator.registry.byKey == Taken(old(w.coordinator.registry.byKey), hits)
    ensures w.coordinator.tracker == old(w.coordinator.tracker) && w.coordinator.history == old(w.coordinator.history)
    ensures w.coordinator.tracker.observed == old(w.coordinator.tracker.observed) + Bins(hits)
    ensures w.coordinator.tracker.attributable == old(w.coordinator.tracker.attributable) + Bins(hits)
    ensures w.coordinator.seen == old(w.coordinator.seen) + Bins(hits)
  {
    hide Coordinator.Valid, Live, Exactly, ExactlyBeyond, KeyIn, Tracker.Accepts, Sound, Taken, Future, Bins, IsIntentBin,
      Words, Executions;
    AcceptsFacts(w.tracker, ev);
    ghost var before := w.coordinator.registry.byKey;
    TakenLeavesTheRest(before, w.ring.blocks, ev.index, hits);
    TakenStaysLive(before, hits, w.tracker.blocks, w.tracker.progress, w.tracker.nextExpected, w.tracker.acceptedCount,
                   w.committed);
    RegisterHits(w.coordinator, hits);
    var finalized := w.FinalizeAcceptedEvent(ev);
    released := finalized.value;
  }
}
