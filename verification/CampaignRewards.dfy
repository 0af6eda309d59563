/** What executing the plan earns: a completed template has all bins of its arm attributed. */
module CampaignRewards {
  import opened Wrappers
  import opened Rv32Isa
  import opened ArmsAndTargets
  import opened TemplateRealizer
  import opened RegisterPolicy
  import opened StreamPlan
  import opened Rewards
  import opened EpochCoordinator
  import opened StreamWindow
  import opened RuntimeWindow
  import opened CampaignStep

  /** What resident entries have executed of their planned dependencies is attributed. */
  ghost predicate Attributed(blocks: seq<Entry>, accepted: int, attributable: set<IntentBin>) {
    forall k | KeyIn(blocks, k) && k.consumer <= accepted :: BinOf(k) in attributable
  }

  /** Resident templates belong to the running epoch. */
  predicate OfEpoch(blocks: seq<Entry>, arm: Arm, target: Target) {
    forall b | b in blocks && b.Block? :: b.template.arm == arm && b.template.target == target
  }

  predicate HasBlock(blocks: seq<Entry>) {
    exists b :: b in blocks && b.Block?
  }

  ghost predicate AllProductive(es: seq<EpochResult>) {
    forall e | e in es :: Productive(e)
  }

  /** No epoch covered a bin that its arm was not rewarded for. */
  predicate NothingIncidental(es: seq<EpochResult>) {
    forall e | e in es :: e.globalNew == e.attributableNew
  }

  /** Instructions that the finished epochs executed, taken together. */
  function InstructionsOf(es: seq<EpochResult>): nat {
    if es == [] then 0 else InstructionsOf(es[..|es| - 1]) + es[|es| - 1].executed
  }

  /** The running epoch has a target from the policy, and once it completed a template, all of its arm's bins. */
  ghost predicate Earning(t: RewardTracker?, blocks: seq<Entry>, accepted: int, earned: bool)
    reads t
  {
    t != null ==> Earns(t, t.attributable, blocks, accepted, earned)
  }

  ghost predicate Earns(t: RewardTracker, attributable: set<IntentBin>, blocks: seq<Entry>, accepted: int, earned: bool) {
    && Attributed(blocks, accepted, attributable) && OfEpoch(blocks, t.arm, t.target)
    && GoodTarget(t.arm, CoveredRegisters(t.covered), t.target)
    && (earned ==> attributable == t.targets)
  }

  lemma EarningEarns(t: RewardTracker, blocks: seq<Entry>, accepted: int, earned: bool)
    requires Earning(t, blocks, accepted, earned)
    ensures Earns(t, t.attributable, blocks, accepted, earned)
  {
  }

  lemma AttributedAppend(blocks: seq<Entry>, accepted: int, attributable: set<IntentBin>, e: Entry)
    requires Attributed(blocks, accepted, attributable) && EntryOk(e) && e.first > accepted
    ensures Attributed(blocks + [e], accepted, attributable)
  {
    hide KeyIn;
    forall k | KeyIn(blocks + [e], k) && k.consumer <= accepted
      ensures BinOf(k) in attributable
    {
      KeyInAppend(blocks, e, k);
    }
  }

  lemma AttributedExecute(blocks: seq<Entry>, accepted: int, attributable: set<IntentBin>, hits: seq<Key>)
    requires Attributed(blocks, accepted, attributable) && blocks != []
    requires forall k :: k in hits <==> KeyIn(blocks, k) && k.consumer == accepted + 1
    ensures Attributed(blocks, accepted + 1, attributable + Bins(hits))
    ensures Attributed(blocks[1..], accepted + 1, attributable + Bins(hits))
  {
    hide KeyOfWitnesses;
    forall k | KeyIn(blocks, k) && k.consumer <= accepted + 1
      ensures BinOf(k) in attributable + Bins(hits)
    {
    }
    forall k | KeyIn(blocks[1..], k)
      ensures KeyIn(blocks, k)
    {
    }
  }

  lemma NoBlockNoKey(blocks: seq<Entry>, accepted: int, attributable: set<IntentBin>)
    requires !HasBlock(blocks)
    ensures Attributed(blocks, accepted, attributable)
  {
  }

  /** A template whose instructions were all executed has every bin of its arm attributed. */
  lemma CompletedEarns(blocks: seq<Entry>, accepted: int, attributable: set<IntentBin>)
    requires blocks != [] && blocks[0].Block? && Planned(blocks[0]) && Attributed(blocks, accepted, attributable)
    requires accepted == blocks[0].first + blocks[0].ExecutedCount() - 1
    ensures HasShape(blocks[0].template.arm, blocks[0].template.target)
    ensures AttributionTargets(blocks[0].template.arm, blocks[0].template.target).value <= attributable
  {
    hide LegalVariant, BuildWitnesses, PhysicalPc, Legal, KeyOf;
    var e := blocks[0];
    PlannedIsOk(e);
    WitnessBins(e.template, e.id, e.first, e.provenance);
    forall w | w in e.provenance
      ensures BinOf(KeyOf(w)) in attributable
    {
      ConsumerOf(w);
      assert w in e.Witnesses() && KeyOfWitnesses(e.Witnesses(), KeyOf(w));
      assert KeyIn(blocks, KeyOf(w));
    }
  }

  lemma ConsumerOf(w: Witness)
    ensures KeyOf(w).consumer == w.consumer
  {
  }

  /** All of the arm's bins, and never more. */
  lemma EarnedAll(c: Coordinator)
    requires c.Valid() && c.tracker != null
    requires AttributionTargets(c.tracker.arm, c.tracker.target).value <= c.tracker.attributable
    ensures c.tracker.attributable == c.tracker.targets
  {
    hide Chained, CoveredAfter, Eligible, IsIntentBin, AttributionTargets;
  }

  /** An epoch that completed a template is productive. */
  lemma EarnedIsProductive(c: Coordinator, result: EpochResult, arm: Arm, target: Target, targets: set<IntentBin>)
    requires c.Valid() && c.history != [] && c.history[|c.history| - 1] == result
    requires result.arm == arm && result.target == target && result.attributable == targets
    requires HasShape(arm, target) && AttributionTargets(arm, target) == Ok(targets)
    requires GoodTarget(arm, CoveredRegisters(result.covered), target)
    ensures Productive(result)
  {
    hide CoveredAfter, Eligible, IsIntentBin, AttributionTargets, CoveredRegisters, GoodTarget, HasShape;
    assert Settled(c.history[|c.history| - 1]);
  }

  // ---------------------------------------------------------------------
  // The books of the finished epochs
  // ---------------------------------------------------------------------

  /** Without incidental coverage every newly covered bin is rewarded, once. */
  lemma AllRewarded(es: seq<EpochResult>, start: set<IntentBin>)
    requires Chained(es, start) && NothingIncidental(es)
    ensures |start| as real + WeightedReward(es) == |CoveredAfter(es, start)| as real
  {
    hide Settled, CoveredAfter;
    NewBinsAddUp(es, start);
    WeighedAsNew(es, start);
  }

  lemma {:induction false} WeighedAsNew(es: seq<EpochResult>, start: set<IntentBin>)
    requires Chained(es, start) && NothingIncidental(es)
    ensures WeightedReward(es) == NewCount(es) as real
  {
    hide Settled, CoveredAfter, NothingIncidental;
    if es != [] {
      var front := es[..|es| - 1];
      ChainedPrefix(es, start);
      OneIncidental(front, es[|es| - 1]);
      assert es == front + [es[|es| - 1]];
      WeighedAsNew(front, start);
      EpochWeight(es[|es| - 1]);
    }
  }

  lemma OneIncidental(es: seq<EpochResult>, e: EpochResult)
    ensures NothingIncidental(es + [e]) <==> NothingIncidental(es) && e.globalNew == e.attributableNew
  {
    assert forall x :: x in es + [e] <==> x in es || x == e;
  }

  lemma OneMore(es: seq<EpochResult>, e: EpochResult)
    ensures InstructionsOf(es + [e]) == InstructionsOf(es) + e.executed
  {
    assert (es + [e])[..|es|] == es;
  }

  lemma OneProductive(es: seq<EpochResult>, e: EpochResult)
    ensures AllProductive(es + [e]) <==> AllProductive(es) && Productive(e)
  {
    hide Productive;
    assert forall x :: x in es + [e] <==> x in es || x == e;
  }

  /** Thirty-one epochs of one single-distance kind cover every register at that distance. */
  lemma Closes(c: Coordinator, d: Distance)
    requires c.Valid() && AllProductive(c.history) && d != D1_D2 && ArmCount(c.history, d) >= 31
    ensures Saturated(c.seen, if d == D1 then 1 else 2)
  {
    hide Productive, CoveredAfter, Eligible, IsIntentBin, Settled;
    Saturation(c.history, {}, d);
    assert CoveredAfter(c.history, {}) <= c.seen;
  }
}
