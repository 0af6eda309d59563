/** Whole campaigns: the machine driven to exactly n accepted instructions, and what its epochs come to. */
module CampaignRun {
  import opened Wrappers
  import opened TimingOracle
  import opened ArmsAndTargets
  import opened StreamPlan
  import opened HitsAreWitnesses
  import opened PlanRun
  import opened CampaignCoverage
  import opened FillerPolicy
  import opened Rewards
  import opened EpochCoordinator
  import opened StreamWindow
  import opened RuntimeWindow
  import opened CampaignStep
  import opened CampaignState
  import opened CampaignRewards
  import opened StreamPlanner
  import opened IntraEpochFeeder
  import opened CampaignMachine
  import W = WrapAwareOracle
  import L2 = L2Coverage

  /** The epoch is completely planned and its successor's delimiter is reserved. */
  predicate Turning(p: Planner)
    reads p
  {
    p.Complete() && p.pending.Some?
  }

  /** A sound campaign with an epoch under way and room for a block and a delimiter. */
  ghost predicate Ready(c: Campaign)
    reads c, c.planner, c.planner.scheduler, c.window, c.window.ring, c.window.tracker, c.window.coordinator,
          c.window.coordinator.registry, c.window.coordinator.tracker, c.oracle, c.oracle.core, c.oracle.core.model,
          c.collector
  {
    && c.Valid() && c.planner.epoch.Some? && c.planner.nominal >= 2 && c.window.ring.capacity >= RefillThreshold(true)
    && c.place.accepted <= c.acceptedBefore + c.planner.plannedExecuted
  }

  /**
   Since `start` instructions were accepted, the oracle named the planned
   instructions one by one, and the collector's hits were exactly the planned
   dependencies that end in them.
   */
  ghost predicate Delivered(p: Place, start: nat, es: seq<Expectation>, hits: seq<L2.L2Hit>) {
    && start + |es| == p.accepted <= |Execs(p.planned)|
    && (forall j | 0 <= j < |es| :: Names(es[j], Execs(p.planned)[start + j]))
    && forall k :: k in KeysOfHits(hits) <==> k in PlanKeys(p.planned) && start < k.consumer <= p.accepted
  }

  /**
   One move in the drivers' order: refill at entry boundaries while there is
   room, turn the epoch once all it planned was accepted, else accept.
   A move without an acceptance fills the ring or ends the turning.
   */
  method Move(c: Campaign, arm: Arm, budget: nat) returns (e: Option<Expectation>, hits: seq<L2.L2Hit>)
    requires Ready(c) && c.place.accepted < budget
    modifies c, c.planner, c.planner.scheduler, c.window, c.window.ring, c.window.tracker, c.window.coordinator,
             c.window.coordinator.registry, c.window.coordinator.tracker, c.oracle, c.oracle.core, c.oracle.core.model,
             c.collector
    ensures Ready(c) && c.acceptedBefore <= old(c.place.accepted)
    ensures c.window.coordinator.tracker == old(c.window.coordinator.tracker) || fresh(c.window.coordinator.tracker)
    ensures e.Some? ==>
              && old(c.place).gone < |old(c.place).planned| && c.place == Moved(old(c.place))
              && (exists x :: IsNext(old(c.place), x) && Names(e.value, x))
              && (forall k :: k in KeysOfHits(hits) <==>
                                KeyIn(old(c.window.ring.blocks), k) && k.consumer == old(c.place).accepted + 1)
              && c.window.coordinator.seen == old(c.window.coordinator.seen) + Bins(KeysOfHits(hits))
    ensures e.None? ==>
              && c.window.coordinator.seen == old(c.window.coordinator.seen)
              && c.place.accepted == old(c.place.accepted) && old(c.place).planned <= c.place.planned
              && (c.window.ring.usedWords > old(c.window.ring.usedWords)
                  || (c.window.ring.usedWords == old(c.window.ring.usedWords) && old(Turning(c.planner)) && !Turning(c.planner)))
  {
    hide Campaign.Valid, IsNext, Names, Ring.Valid, KeyIn, KeysOfHits, Bins, Reports;
    ReadyFacts(c);
    AcceptedWithinPlan(c);
    var free := c.window.ring.capacity - c.window.ring.usedWords;
    if Turning(c.planner) && c.window.tracker.acceptedCount == c.acceptedBefore + c.planner.plannedExecuted {
      var _, _ := c.TurnEpoch(arm);
      return None, [];
    }
    if c.window.tracker.progress == 0
       && (if c.planner.Complete() then DelimiterDue(c.planner, free, true, Some(budget)) else free >= RefillThreshold(true)) {
      var _ := c.Refill(true, Some(budget));
      return None, [];
    }
    var ev := NextEvent(c);
    var settled := c.Accept(ev);
    assert settled.Ok?;
    AcceptedWithinPlan(c);
    e, hits := Some(settled.value.expectation), settled.value.hits;
  }

  lemma ReadyFacts(c: Campaign)
    requires Ready(c)
    ensures c.Valid() && c.window.coordinator.tracker != null && c.planner.plannedExecuted > 0
    ensures c.window.ring.usedWords <= c.window.ring.capacity <= IMEM_WORD_CAPACITY
    ensures c.window.ring.blocks == [] ==>
              && c.window.tracker.progress == 0 && c.window.ring.usedWords == 0
              && c.planner.nextIndex == c.place.accepted + 1
  {
    hide Aligned, Earning, AllProductive, NothingIncidental, Coordinator.Valid, W.Oracle.Valid, L2.Collector.Valid,
      Window.PendingExactly, ExecutedBy, EndOf;
    WindowFacts(c.window);
    PlannerFacts(c.planner);
    AlignedResident(c.place, c.window.ring.blocks, c.window.tracker.progress, c.window.tracker.acceptedCount,
                    c.oracle.image, c.oracle.nextRelease, c.oracle.at, c.oracle.core.nextInstructionId,
                    c.collector.lastWriter, c.collector.lastInstructionIndex);
  }

  /** Where a ready campaign stands. */
  lemma ReadyPlace(c: Campaign)
    requires Ready(c)
    ensures c.window.ring.usedWords <= c.window.ring.capacity && c.window.tracker.acceptedCount == c.place.accepted
    ensures Placeable(c.place) && c.place.accepted <= |Execs(c.place.planned)| && c.place.gone <= |c.place.planned|
    ensures c.window.ring.blocks == c.place.planned[c.place.gone..]
  {
    hide Earning, AllProductive, NothingIncidental, Coordinator.Valid, W.Oracle.Valid, L2.Collector.Valid,
      Window.PendingExactly, Planner.Valid, Placeable, Execs, EndOf, CursorAt, Image, Wrote;
    WindowFacts(c.window);
    PlaceBounds(c.place);
  }

  lemma DeliveredLonger(p: Place, q: Place, start: nat, es: seq<Expectation>, hits: seq<L2.L2Hit>)
    requires Delivered(p, start, es, hits) && Placeable(p) && Placeable(q)
    requires p.planned <= q.planned && p.accepted == q.accepted
    ensures Delivered(q, start, es, hits)
  {
    hide Placeable, Execs, PlanKeys, KeysOfHits, Names;
    forall k: Key
      ensures Execs(p.planned) <= Execs(q.planned)
      ensures k.consumer <= p.accepted ==> (k in PlanKeys(p.planned) <==> k in PlanKeys(q.planned))
    {
      PlanGrows(p, q, k);
    }
    PlanGrows(p, q, Key(0, 0, 0, 0));
  }

  lemma DeliveredNext(p: Place, start: nat, es: seq<Expectation>, hits: seq<L2.L2Hit>, x: Exec, e: Expectation,
                      more: seq<L2.L2Hit>)
    requires Delivered(p, start, es, hits) && Placeable(p) && p.gone < |p.planned| && IsNext(p, x) && Names(e, x)
    requires forall k :: k in KeysOfHits(more) <==> KeyIn(p.planned[p.gone..], k) && k.consumer == p.accepted + 1
    ensures Delivered(Moved(p), start, es + [e], hits + more)
  {
    hide Placeable, Execs, PlanKeys, KeysOfHits, Names, KeyIn;
    KeysOfJoin(hits, more);
    forall k: Key | k.consumer == p.accepted + 1
      ensures k in PlanKeys(p.planned) <==> KeyIn(p.planned[p.gone..], k)
    {
      ResidentKeys(p, k);
    }
  }

  /**
   From any point on the campaign reaches exactly n accepted instructions,
   whatever arms are selected and variants are drawn, along the plan.
   */
  method RunTo(c: Campaign, n: nat) returns (es: seq<Expectation>, hits: seq<L2.L2Hit>)
    requires Ready(c) && c.place.accepted <= n
    modifies c, c.planner, c.planner.scheduler, c.window, c.window.ring, c.window.tracker, c.window.coordinator,
             c.window.coordinator.registry, c.window.coordinator.tracker, c.oracle, c.oracle.core, c.oracle.core.model,
             c.collector
    ensures Ready(c) && c.place.accepted == n && Delivered(c.place, old(c.place.accepted), es, hits)
    ensures old(c.acceptedBefore) < n ==> c.acceptedBefore < n
    ensures c.window.coordinator.seen == old(c.window.coordinator.seen) + Bins(KeysOfHits(hits))
    ensures c.window.coordinator.tracker == old(c.window.coordinator.tracker) || fresh(c.window.coordinator.tracker)
  {
    hide Ready, Turning, Delivered, IsNext, Names, KeysOfHits, KeyIn, Placeable, Execs, Bins;
    es, hits := [], [];
    BinsJoin([], []);
    ReadyPlace(c);
    NothingDelivered(c.place);
    while c.window.tracker.acceptedCount < n
      invariant Ready(c) && c.window.tracker.acceptedCount == c.place.accepted <= n
      invariant old(c.acceptedBefore) < n ==> c.acceptedBefore < n
      invariant Delivered(c.place, old(c.place.accepted), es, hits)
      invariant c.window.coordinator.seen == old(c.window.coordinator.seen) + Bins(KeysOfHits(hits))
      invariant c.window.coordinator.tracker == old(c.window.coordinator.tracker) || fresh(c.window.coordinator.tracker)
      decreases n - c.window.tracker.acceptedCount, c.window.ring.capacity - c.window.ring.usedWords, Turning(c.planner)
    {
      ghost var before := c.place;
      var arm: Arm := *;
      ReadyPlace(c);
      var e, more := Move(c, arm, n);
      ReadyPlace(c);
      if e.Some? {
        ghost var x :| IsNext(before, x) && Names(e.value, x);
        DeliveredNext(before, old(c.place.accepted), es, hits, x, e.value, more);
        BinsJoin(hits, more);
        es, hits := es + [e.value], hits + more;
      } else {
        DeliveredLonger(before, c.place, old(c.place.accepted), es, hits);
      }
    }
  }

  lemma BinsJoin(hits: seq<L2.L2Hit>, more: seq<L2.L2Hit>)
    ensures Bins(KeysOfHits(hits + more)) == Bins(KeysOfHits(hits)) + Bins(KeysOfHits(more))
    ensures Bins(KeysOfHits([])) == {}
  {
    KeysOfJoin(hits, more);
  }

  lemma NothingDelivered(p: Place)
    requires p.accepted <= |Execs(p.planned)|
    ensures Delivered(p, p.accepted, [], [])
  {
    hide Execs, PlanKeys;
  }

  /** An empty window, no coverage, and the first epoch begun with some arm. */
  method StartCampaign(capacity: nat, nominal: nat, first: Arm) returns (c: Campaign)
    requires 6 <= capacity <= 128 && nominal >= 2
    ensures Ready(c) && c.place.accepted == 0 && c.acceptedBefore == 0 && c.window.coordinator.seen == {}
    ensures c.planner.earlier == 0
    ensures fresh(c) && fresh(c.planner) && fresh(c.planner.scheduler) && fresh(c.window) && fresh(c.window.ring)
    ensures fresh(c.window.tracker) && fresh(c.window.coordinator) && fresh(c.window.coordinator.registry)
    ensures c.window.coordinator.tracker != null && fresh(c.window.coordinator.tracker)
    ensures fresh(c.oracle) && fresh(c.oracle.core) && fresh(c.oracle.core.model) && fresh(c.collector)
  {
    hide Ready, Campaign.Valid, Coordinator.Valid, Planner.Valid, Begun;
    var coordinator := new Coordinator();
    EmptyRegistry(coordinator);
    var scheduler := new Scheduler();
    var planner := new Planner(coordinator, scheduler, nominal);
    FirstDelimiter(planner);
    var begun := planner.BeginEpoch(first);
    assert [] + [FIRST] == [FIRST];
    BeganFor(coordinator, first, begun.value);
    var ring := new Ring(capacity);
    var tracker := new Tracker();
    c := new Campaign(planner, ring, tracker);
    StartsReady(c);
  }

  /**
   A campaign from nothing to exactly n accepted instructions and its hard stop:
   the oracle named the planned instructions and no others, the hits were the
   planned dependencies that end in them, nothing stays resident or pending, the
   epochs were divided by n instructions in all, and their rewards, each taken
   back to a count, add up to the coverage.
   */
  method RunCampaign(n: nat, capacity: nat, nominal: nat, first: Arm)
    returns (c: Campaign, es: seq<Expectation>, hits: seq<L2.L2Hit>)
    requires n > 0 && 6 <= capacity <= 128 && nominal >= 2
    ensures |es| == n && Delivered(c.place, 0, es, hits) && c.place.accepted == n
    ensures c.planner.terminated && c.window.ring.blocks == [] && c.oracle.nextRelease == c.oracle.nextAppend
    ensures c.window.coordinator.registry.byKey == map[]
    ensures c.window.coordinator.seen == Bins(KeysOfHits(hits)) && |c.window.coordinator.seen| <= 62
    ensures WeightedReward(c.window.coordinator.history) == |Bins(KeysOfHits(hits))| as real
    ensures InstructionsOf(c.window.coordinator.history) == n
    ensures BackgroundFillers(c.place.planned) == TemplateWords(c.place.planned) / 4
  {
    hide Ready, Delivered, Campaign.Valid, Coordinator.Valid, Planner.Valid, W.Oracle.Valid, WeightedReward,
      NothingIncidental, Bins, KeysOfHits, TemplateWords, BackgroundFillers;
    c := StartCampaign(capacity, nominal, first);
    es, hits := RunTo(c, n);
    CountDelivered(c.place, 0, es, hits);
    ReadyFacts(c);
    var _, _ := c.Stop();
    FinalBooks(c.window.coordinator);
    PlanIsMixed(c.planner);
  }

  lemma FinalBooks(c: Coordinator)
    requires c.Valid() && c.tracker == null && NothingIncidental(c.history)
    ensures WeightedReward(c.history) == |c.seen| as real && |c.seen| <= 62
  {
    hide WeightedReward, NothingIncidental, CoveredAfter, Settled, Eligible, IsIntentBin;
    RewardConservation(c.history, {});
    AllRewarded(c.history, {});
  }

  lemma EmptyRegistry(c: Coordinator)
    requires c.Valid() && c.tracker == null
    ensures c.registry.byKey == map[]
  {
  }

  lemma FirstDelimiter(p: Planner)
    requires p.Valid() && p.planned == [] && p.nextEpochToBegin == 0 && p.pending.None? && !p.terminated
    ensures p.NextDelimiter() == FIRST
  {
  }

  lemma StartsReady(c: Campaign)
    requires c.Valid() && c.planner.epoch.Some? && c.planner.nominal >= 2 && c.window.ring.capacity >= RefillThreshold(true)
    requires c.place.accepted == 0
    ensures Ready(c) && c.window.coordinator == c.planner.coordinator
  {
    hide Aligned, Earning, AllProductive, NothingIncidental, Coordinator.Valid, W.Oracle.Valid, L2.Collector.Valid,
      Window.PendingExactly, Window.Valid, Planner.Valid, InstructionsOf, HasBlock;
  }

  lemma CountDelivered(p: Place, start: nat, es: seq<Expectation>, hits: seq<L2.L2Hit>)
    requires Delivered(p, start, es, hits)
    ensures |es| == p.accepted - start
  {
    hide Execs, PlanKeys;
  }

  // ---------------------------------------------------------------------
  // What the epochs come to
  // ---------------------------------------------------------------------

  /**
   At every point of a campaign the finished epochs were rewarded for exactly
   what they covered: one bin each time, at most 62 in all.
   */
  lemma CampaignBooks(c: Campaign)
    requires c.Valid()
    ensures var coordinator := c.window.coordinator;
            && WeightedReward(coordinator.history) == |CoveredAfter(coordinator.history, {})| as real
            && |CoveredAfter(coordinator.history, {})| <= 62
            && CoveredAfter(coordinator.history, {}) <= coordinator.seen
            && (coordinator.tracker == null ==> coordinator.seen == CoveredAfter(coordinator.history, {}))
  {
    hide Aligned, Earning, NothingIncidental, CoveredAfter, WeightedReward, Eligible, IsIntentBin, Settled;
    WindowFacts(c.window);
    RewardConservation(c.window.coordinator.history, {});
    AllRewarded(c.window.coordinator.history, {});
  }

  /** Once 31 epochs of D1 arms have ended, every register is covered at distance one; of D2 arms, at distance two. */
  lemma CampaignCloses(c: Campaign, d: Distance)
    requires c.Valid() && c.planner.nominal >= 2 && d != D1_D2 && ArmCount(c.window.coordinator.history, d) >= 31
    ensures Saturated(c.window.coordinator.seen, if d == D1 then 1 else 2)
  {
    hide Aligned, Earning, NothingIncidental, CoveredAfter, Coordinator.Valid, ArmCount, Saturated, AllProductive;
    WindowFacts(c.window);
    Closes(c.window.coordinator, d);
  }
}
