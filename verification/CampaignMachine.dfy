/**
 The whole campaign: planner, feeder, ring, tracker, registry, wrapping oracle
 and collector, driven in the order the drivers fix. No call of any of them
 fails, and all of them stay at the same place of the plan.
 */
module CampaignMachine {
  import opened Wrappers
  import opened Rv32Isa
  import opened Execution
  import opened TimingOracle
  import opened ArmsAndTargets
  import opened StreamPlan
  import opened HitsAreWitnesses
  import opened UnboundedProgram
  import opened PlanRun
  import opened CampaignCoverage
  import opened Attribution
  import opened Rewards
  import opened EpochCoordinator
  import opened StreamWindow
  import opened RuntimeWindow
  import opened CampaignStep
  import opened CampaignState
  import opened CampaignRewards
  import opened RegisterPolicy
  import opened StreamPlanner
  import opened IntraEpochFeeder
  import W = WrapAwareOracle
  import L2 = L2Coverage

  const FIRST := Delimiter(0, 0, 1)

  /** No two entries a planner plans share a key: completions are never confused. */
  lemma KeysAreUnique(p: Planner, i: nat, j: nat)
    requires p.Valid() && i < j < |p.planned|
    ensures KeyOfEntry(p.planned[i]) != KeyOfEntry(p.planned[j])
  {
    hide Numbered, Stream, TemplateWords, BackgroundFillers;
    NumbersAreUnique(p.planned, p.nextId, p.nextBoundaryEpoch, i, j);
  }

  /** Window, oracle and collector stand at the same place of the plan. */
  ghost predicate Aligned(p: Place, blocks: seq<Entry>, progress: nat, accepted: nat, image: seq<Word>, release: nat,
                          at: int, nextId: int, writers: L2.Writers, observed: int)
  {
    && p.progress == progress && p.accepted == accepted == observed && nextId == accepted + 1
    && InStep(p, blocks, image, release, at, Indices(writers))
  }

  lemma AlignedAppend(p: Place, blocks: seq<Entry>, progress: nat, accepted: nat, image: seq<Word>, release: nat,
                      at: int, nextId: int, writers: L2.Writers, observed: int, e: Entry)
    requires Aligned(p, blocks, progress, accepted, image, release, at, nextId, writers, observed)
    requires Planned(e) && e.start == EndOf(p.planned) && e.first == ExecutedBy(p.planned) + 1
    ensures forall i | i in e.Code() :: Legal(i)
    ensures Aligned(p.(planned := p.planned + [e]), blocks + [e], progress, accepted, image + WordsOf(e.Code()), release,
                    at, nextId, writers, observed)
    ensures |image| == e.start && |image| - release == Words(blocks) && e.first == accepted + 1 - progress + Executions(blocks)
    ensures blocks != [] ==> blocks[|blocks| - 1].End() == e.start
  {
    hide InStep, Planned, EndOf, ExecutedBy, Words, Executions, Legal, WordsOf;
    ResidentFacts(p, blocks, image, release, at, Indices(writers));
    AppendKeeps(p, blocks, image, release, at, Indices(writers), e);
  }

  /** What the next move of the whole campaign is. */
  lemma AlignedNext(p: Place, blocks: seq<Entry>, progress: nat, accepted: nat, image: seq<Word>, release: nat,
                    at: int, nextId: int, writers: L2.Writers, observed: int) returns (x: Exec, next: nat)
    requires Aligned(p, blocks, progress, accepted, image, release, at, nextId, writers, observed) && blocks != []
    ensures p.gone < |p.planned| && p.planned[p.gone] == blocks[0] && p.planned[p.gone..] == blocks
    ensures Placeable(p) && Wrote(Indices(writers), Execs(p.planned)[..p.accepted])
    ensures IsNext(p, x) && x.index == nextId == accepted + 1 == observed + 1 && p.accepted == accepted
    ensures Placed(x, image) && at == x.at * 4 && Flows(x.instr, x.at, next) && release <= x.at < release + 5
    ensures OffsetsInImage(blocks[0]) && progress < blocks[0].ExecutedCount() && x == ExecOf(blocks[0])[progress]
    ensures Planned(blocks[0]) && Legal(x.instr) && blocks[0].start == release
    ensures blocks[0].End() <= |image| && blocks[0].WordCount() >= 1
    ensures next * 4 == CursorAt(Execs(p.planned), p.accepted + 1, EndOf(p.planned))
  {
    hide Placeable, Execs, Image, Stream, LegalCode, AllInImage, ExecOf, OffsetsInImage, Flows, Legal, WordOf, Planned;
    PlaceBounds(p);
    x, next := NextPlanned(p, at);
    HeadOf(p);
    PlannedShape(blocks[0]);
    ImageLength(p);
    EndsInside(p);
  }

  lemma EndsInside(p: Place)
    requires Placeable(p) && p.gone < |p.planned|
    ensures p.planned[p.gone].End() <= EndOf(p.planned)
  {
    hide Stream, LegalCode, AllInImage, Words, Executions, Contiguous, Planned, Placeable;
    HeadOf(p);
    var blocks := p.planned[p.gone..];
    SuffixContiguous(p.planned, p.gone);
    ContiguousSums(blocks);
    HeadSums(blocks);
    assert blocks[|blocks| - 1] == p.planned[|p.planned| - 1];
  }

  /** The next instruction, once executed, leaves everything aligned one further. */
  lemma AlignedExecute(p: Place, blocks: seq<Entry>, progress: nat, accepted: nat, image: seq<Word>, release: nat,
                       at: int, nextId: int, writers: L2.Writers, observed: int, x: Exec, next: nat, ev: Event,
                       blocks': seq<Entry>, progress': nat, release': nat)
    requires Aligned(p, blocks, progress, accepted, image, release, at, nextId, writers, observed) && blocks != []
    requires p.gone < |p.planned| && p.planned[p.gone] == blocks[0] && Placeable(p) && IsNext(p, x) && Legal(x.instr)
    requires p.planned[p.gone..] == blocks
    requires at == x.at * 4 && Flows(x.instr, x.at, next) && Ran(ev, x)
    requires next * 4 == CursorAt(Execs(p.planned), p.accepted + 1, EndOf(p.planned))
    requires var last := progress + 1 == blocks[0].ExecutedCount();
             && blocks' == (if last then blocks[1..] else blocks) && progress' == (if last then 0 else progress + 1)
             && release' == if last then blocks[0].End() else release
    ensures Aligned(Moved(p), blocks', progress', accepted + 1, image, release', next * 4, nextId + 1,
                    L2.WritersAfter(writers, ev), observed + 1)
  {
    hide Placeable, Execs, Image, Flows, Ran, Legal, Wrote, Indices, L2.WritersAfter, InStep, EndOf, CursorAt;
    PlaceBounds(p);
    ReleasedTo(p, blocks, image, release, at, Indices(writers));
    ExecuteKeeps(p, image, release, at, Indices(writers), x);
    WritersAreAfter(writers, ev, x);
    if progress + 1 == blocks[0].ExecutedCount() {
      assert p.planned[p.gone + 1..] == blocks[1..];
      EndOfCut(p.planned, p.gone);
    }
  }

  lemma EndOfCut(es: seq<Entry>, k: nat)
    requires k < |es|
    ensures EndOf(es[..k + 1]) == es[k].End()
  {
  }

  lemma ReleasedTo(p: Place, blocks: seq<Entry>, image: seq<Word>, release: int, at: int, writers: WriterIndex)
    requires InStep(p, blocks, image, release, at, writers) && p.gone <= |p.planned|
    ensures release == EndOf(p.planned[..p.gone])
  {
    hide Placeable, Execs, Image, Wrote, EndOf, CursorAt;
  }

  /** The pipeline accepted this instruction where it is, decoded as it reads, with any control. */
  ghost predicate Reports(ev: Event, x: Exec) {
    && Legal(x.instr)
    && ev.index == x.index && ev.pc == PhysicalPc(x.at) && ev.instruction == WordOf(x.instr)
    && DecodeChecked(ev.instruction) == Some(ev.d)
  }

  /** What one accepted instruction came to. */
  datatype Settlement = Settlement(expectation: Expectation, hits: seq<L2.L2Hit>, released: Option<Released>)

  class Campaign {
    const planner: Planner
    const window: Window
    const oracle: W.Oracle
    const collector: L2.Collector
    /** Instructions accepted before the running epoch began. */
    var acceptedBefore: nat
    ghost var place: Place
    /** The running epoch has executed a whole template. */
    ghost var earned: bool

    /** Every part is sound and stands at the same place of the plan. */
    ghost predicate Valid()
      reads this, planner, planner.scheduler, window, window.ring, window.tracker,
            window.coordinator, window.coordinator.registry, window.coordinator.tracker,
            oracle, oracle.core, oracle.core.model, collector
    {
      Sound() && Here() && place.planned == planner.planned && Owes()
    }

    ghost predicate Sound()
      reads this, planner, planner.scheduler, window, window.ring, window.tracker,
            window.coordinator, window.coordinator.registry, window.coordinator.tracker,
            oracle, oracle.core, oracle.core.model, collector
    {
      && planner.Valid() && window.Valid() && !window.terminated && oracle.Valid() && collector.Valid()
      && window.coordinator == planner.coordinator && window.PendingExactly() && InEpoch() && Counts()
      && !planner.terminated && planner.nextEpochToBegin > 0
      && Earning(window.coordinator.tracker, window.ring.blocks, window.tracker.acceptedCount, earned)
      && (planner.nominal >= 2 ==> AllProductive(window.coordinator.history))
      && NothingIncidental(window.coordinator.history)
    }

    /** The finished epochs executed everything before the running one, which starts with its own delimiter. */
    ghost predicate Counts()
      reads this, planner, window, window.tracker, window.coordinator
    {
      && InstructionsOf(window.coordinator.history) == acceptedBefore <= window.tracker.acceptedCount
      && (planner.epoch.Some? ==> planner.active.Some? && planner.active.value.first == acceptedBefore + 1)
    }

    /** Once the running epoch has planned more than its delimiter, a template is resident or was completed. */
    ghost predicate Owes()
      reads this, planner, window, window.ring
    {
      planner.epoch.Some? && planner.plannedExecuted > 1 ==> earned || HasBlock(window.ring.blocks)
    }

    ghost predicate Here()
      reads this, window, window.ring, window.tracker, oracle, oracle.core, collector
    {
      Aligned(place, window.ring.blocks, window.tracker.progress, window.tracker.acceptedCount,
              oracle.image, oracle.nextRelease, oracle.at, oracle.core.nextInstructionId,
              collector.lastWriter, collector.lastInstructionIndex)
    }

    /** The coordinator runs the epoch that is being planned, and every bin it observed was attributed. */
    ghost predicate InEpoch()
      reads this, planner, window, window.coordinator, window.coordinator.tracker
    {
      && (planner.epoch.Some? ==>
            && window.coordinator.tracker != null
            && window.coordinator.tracker.arm == planner.epoch.value.arm
            && window.coordinator.tracker.target == planner.epoch.value.target)
      && (window.coordinator.tracker != null ==>
            window.coordinator.tracker.observed == window.coordinator.tracker.attributable)
    }

    /** Starts with the delimiter of the first epoch committed and nothing executed. */
    constructor (planner: Planner, ring: Ring, tracker: Tracker)
      requires planner.Valid() && planner.planned == [FIRST] && planner.epoch.Some? && planner.plannedExecuted == 1
      requires planner.active == Some(FIRST)
      requires planner.coordinator.Valid() && planner.coordinator.registry.byKey == map[]
      requires planner.coordinator.history == []
      requires Begun(planner.coordinator, planner.epoch.value.arm, planner.epoch.value)
      requires ring.Valid() && ring.capacity > 0 && ring.blocks == []
      requires tracker.Valid() && tracker.blocks == [] && tracker.acceptedCount == 0
      modifies ring, tracker, planner.coordinator.registry
      ensures Valid() && place == Place([FIRST], 0, 0, 0) && this.planner == planner && acceptedBefore == 0
      ensures window.ring == ring && window.tracker == tracker
      ensures fresh(window) && fresh(oracle) && fresh(oracle.core) && fresh(oracle.core.model) && fresh(collector)
    {
      hide Aligned, Planned, Window.Valid, Planner.Valid, W.Oracle.Valid, L2.Collector.Valid, Legal, W.FragmentFits,
        W.PhysicalPcs, Words, Executions, EndOf, ExecutedBy, WordsOf, Coordinator.Valid, RewardTracker.Valid;
      LegalDelimiter();
      var w := FirstWindow(planner.coordinator, ring, tracker);
      var program := Fragment(0, WordsOf([DELIMITER]));
      oracle := new W.Oracle(program);
      collector := new L2.Collector();
      window := w;
      this.planner := planner;
      place := Place([FIRST], 0, 0, 0);
      acceptedBefore, earned := 0, false;
      CanTerminate(planner);
      BegunFresh(planner.coordinator, planner.epoch.value.arm, planner.epoch.value, [FIRST], 0);
      new;
      FirstPlace();
      FirstAligned();
    }

    /** Plans one entry and makes it resident everywhere, at an entry boundary. */
    method Refill(preseed: bool, budget: Option<int>) returns (r: Result<Option<Entry>, FeederError>)
      requires Valid() && window.tracker.progress == 0
      modifies this, planner, planner.scheduler, window, window.ring, window.tracker, window.coordinator.registry,
               oracle, oracle.core
      ensures Valid() && place.accepted == old(place.accepted) && place.gone == old(place.gone)
      ensures r.Ok? && r.value.Some? ==>
                && place.planned == old(place.planned) + [r.value.value]
                && window.ring.blocks == old(window.ring.blocks) + [r.value.value]
      ensures (r.Err? || r.value.None?) ==> place == old(place) && window.ring.blocks == old(window.ring.blocks)
      ensures r.Ok? && r.value.Some? ==> window.ring.usedWords > old(window.ring.usedWords)
      ensures r.Err? <==> old(planner.epoch).None? || (budget.Some? && budget.value <= 0)
      ensures planner.epoch == old(planner.epoch) && acceptedBefore == old(acceptedBefore)
      ensures planner.plannedExecuted >= old(planner.plannedExecuted)
      ensures r.Ok? ==>
                (r.value.Some? <==>
                   var free := old(window.ring.capacity - window.ring.usedWords);
                   old(DelimiterDue(planner, free, preseed, budget))
                   || (!old(planner.Complete()) && free >= (if preseed then 6 else 5)))
    {
      hide Aligned, Planned, Window.Valid, Planner.Valid, W.Oracle.Valid, L2.Collector.Valid, Window.PendingExactly,
        EndOf, ExecutedBy, Words, Coordinator.Valid, RewardTracker.Valid, Ring.Valid, Tracker.Valid;
      WindowFacts(window);
      PlannerFacts(planner);
      var free := window.ring.capacity - window.ring.usedWords;
      r := PlanNextCapacitySafeEntry(planner, free, preseed, budget);
      assert r.Err? ==> r.error == BadFreeWords || r.error == BadBudget || r.error == FeederError.NoActiveEpoch;
      if r.Err? || r.value.None? {
        return;
      }
      var e := r.value.value;
      Admit(e);
    }

    /** Patches, mirrors and commits a freshly planned entry; none of the three refuses. */
    method Admit(e: Entry)
      requires Sound() && Here() && window.tracker.progress == 0
      requires Planned(e) && planner.planned == place.planned + [e]
      requires e.start == EndOf(place.planned) && e.first == ExecutedBy(place.planned) + 1
      requires e.WordCount() + window.ring.usedWords <= window.ring.capacity
      requires e.Block? ==>
                 && planner.epoch.Some? && e.template.arm == planner.epoch.value.arm
                 && e.template.target == planner.epoch.value.target
      requires e.Delimiter? ==> Owes()
      modifies this, window, window.ring, window.tracker, window.coordinator.registry, oracle, oracle.core
      ensures Valid() && place == old(place).(planned := old(place).planned + [e])
      ensures window.ring.blocks == old(window.ring.blocks) + [e] && window.ring.usedWords > old(window.ring.usedWords)
      ensures acceptedBefore == old(acceptedBefore)
    {
      hide Aligned, Planned, Window.Valid, Planner.Valid, W.Oracle.Valid, L2.Collector.Valid, Window.PendingExactly,
        Window.Registers, EntryOk, Legal, Words, Executions, EndOf, ExecutedBy, WordsOf, Coordinator.Valid,
        RewardTracker.Valid, Registered, Eligible, DistinctKeys, Ring.Valid, Tracker.Valid, Ring.Admits, Tracker.Continues,
        Earning, AllProductive, NothingIncidental, InstructionsOf, Bins;
      EntryWords(e);
      WindowFacts(window);
      AlignedAppend(place, window.ring.blocks, window.tracker.progress, window.tracker.acceptedCount,
                    oracle.image, oracle.nextRelease, oracle.at, oracle.core.nextInstructionId,
                    collector.lastWriter, collector.lastInstructionIndex, e);
      PlannedIsAdmitted(window, e);
      Continuing(window, e);
      Mirror(oracle, e);
      var committed := window.CommitPatchedBlock(e);
      assert committed.Ok?;
      place := place.(planned := place.planned + [e]);
      EarningAppend(window.coordinator.tracker, old(window.ring.blocks), window.tracker.acceptedCount, earned, e);
      WindowFacts(window);
      AppendSums(old(window.ring.blocks), e);
    }

    /**
     One instruction the pipeline accepted, whatever its stalls and forwarding. It
     is refused exactly if it is not the planned one, and only the oracle has moved
     then. Otherwise the collector finds exactly its planned dependencies, each is
     attributed, and a completed entry is freed everywhere.
     */
    method Accept(ev: Event) returns (r: Result<Settlement, TimingError>)
      requires Valid() && window.ring.blocks != [] && window.coordinator.tracker != null
      requires DecodeChecked(ev.instruction) == Some(ev.d)
      modifies this, window.ring, window.tracker, window.coordinator, window.coordinator.registry,
               window.coordinator.tracker, oracle, oracle.core, oracle.core.model, collector
      ensures exists x :: IsNext(old(place), x) && (r.Ok? <==> Reports(ev, x)) && (r.Ok? ==> Names(r.value.expectation, x))
      ensures r.Err? ==>
                && r.error == AcceptedMismatch && unchanged(this) && unchanged(window.ring) && unchanged(window.tracker)
                && unchanged(window.coordinator) && unchanged(window.coordinator.registry)
                && unchanged(window.coordinator.tracker) && unchanged(collector) && oracle.Valid()
      ensures r.Ok? ==>
                var hits, released := r.value.hits, r.value.released;
                && Valid() && old(place).gone < |old(place).planned| && place == Moved(old(place))
                && window.coordinator.tracker == old(window.coordinator.tracker)
                && window.coordinator.tracker.observed == old(window.coordinator.tracker.observed) + Bins(KeysOfHits(hits))
                && window.coordinator.tracker.attributable
                   == old(window.coordinator.tracker.attributable) + Bins(KeysOfHits(hits))
                && window.coordinator.registry.byKey == Taken(old(window.coordinator.registry.byKey), KeysOfHits(hits))
                && window.coordinator.seen == old(window.coordinator.seen) + Bins(KeysOfHits(hits))
                && (forall k :: k in KeysOfHits(hits) <==>
                                  KeyIn(old(window.ring.blocks), k) && k.consumer == old(place).accepted + 1)
                && (released.Some? ==> released.value.entry == old(window.ring.blocks)[0])
                && (released.Some? && released.value.entry.Block? ==>
                      window.coordinator.tracker.attributable == window.coordinator.tracker.targets)
      ensures acceptedBefore == old(acceptedBefore)
    {
      hide Aligned, Planned, Window.Valid, Planner.Valid, W.Oracle.Valid, L2.Collector.Valid, Window.PendingExactly,
        EndOf, ExecutedBy, Words, Coordinator.Valid, RewardTracker.Valid, Ring.Valid, Tracker.Valid, Placeable, Execs,
        Legal, Taken, Bins, KeyIn, KeysOfHits, Names, IsNext, Reports, DecodeChecked, Earning, Earns, AllProductive,
        NothingIncidental, HasBlock;
      WindowFacts(window);
      EarningEarns(window.coordinator.tracker, window.ring.blocks, window.tracker.acceptedCount, earned);
      ghost var x: Exec;
      r, x := ExecuteNext(window, collector, oracle, ev, place);
      if r.Err? {
        return;
      }
      var released := r.value.released;
      place, earned := Moved(place), earned || (released.Some? && released.value.entry.Block?);
      CompletedTracker(window, old(window.ring.blocks), old(window.tracker.progress), old(window.tracker.acceptedCount),
                       old(window.coordinator.tracker.attributable), KeysOfHits(r.value.hits), old(earned), released.Some?,
                       earned);
      assert Sound();
      assert Here();
    }

    /**
     Ends an epoch once as many instructions were accepted as it planned, and
     begins the next: only the next delimiter is resident then. The epoch is
     divided by what it executed, and whatever it covered was attributed to its arm.
     */
    method TurnEpoch(arm: Arm) returns (result: EpochResult, plan: EpochPlan)
      requires Valid() && planner.Complete() && planner.pending.Some?
      requires window.tracker.acceptedCount == acceptedBefore + planner.plannedExecuted
      modifies this`earned, this`acceptedBefore, planner, window.coordinator, window.coordinator.tracker
      ensures Valid() && planner.planned == old(planner.planned) && planner.epoch == Some(plan) && plan.arm == arm
      ensures old(window.ring.blocks) == [old(planner.pending).value] && place.progress == 0
      ensures window.coordinator.history == old(window.coordinator.history) + [result]
      ensures result.executed == old(planner.plannedExecuted) && result.globalNew == result.attributableNew
      ensures result.executed == InstructionsOf(window.coordinator.history) - InstructionsOf(old(window.coordinator.history))
      ensures planner.nominal >= 2 ==> Productive(result)
      ensures planner.pending.None? && planner.plannedExecuted == 1 && acceptedBefore == place.accepted
      ensures place == old(place) && window.coordinator.tracker != null && fresh(window.coordinator.tracker)
      ensures window.coordinator.seen == old(window.coordinator.seen)
    {
      hide Aligned, Planned, Window.Valid, Planner.Valid, W.Oracle.Valid, L2.Collector.Valid, Window.PendingExactly,
        Coordinator.Valid, RewardTracker.Valid, Begun, Settled, Productive, GoodTarget, Attributed, OfEpoch, AllProductive,
        NothingIncidental, InstructionsOf;
      OnlyDelimiterLeft(this);
      assert !HasBlock(window.ring.blocks);
      result := FinishIn(window, planner.plannedExecuted);
      OneProductive(old(window.coordinator.history), result);
      OneIncidental(old(window.coordinator.history), result);
      OneMore(old(window.coordinator.history), result);
      var closed := planner.ClosePlanningEpoch();
      assert closed.Ok?;
      plan := BeginIn(window, planner, arm);
      acceptedBefore, earned := window.tracker.acceptedCount, false;
      BegunFresh(window.coordinator, arm, plan, window.ring.blocks, window.tracker.acceptedCount);
    }

    /**
     Stops the campaign after any executed instruction, also inside an entry:
     discards the unexecuted suffix, if there is one, frees its words and settles
     the last epoch. Accepted and discarded instructions add up to the plan,
     nothing stays resident or pending, and every covered bin was rewarded.
     */
    method Stop() returns (suffix: Option<Suffix>, result: EpochResult)
      requires Valid() && acceptedBefore < place.accepted && window.coordinator.tracker != null
      modifies window, window.ring, window.tracker, window.coordinator, window.coordinator.registry,
               window.coordinator.tracker, oracle`owner, oracle`words, oracle`nextRelease, oracle.core`program,
               planner`epoch, planner`active, planner`pending, planner`plannedExecuted, planner`terminated
      ensures planner.terminated && window.ring.blocks == [] && oracle.Valid() && oracle.nextRelease == oracle.nextAppend
      ensures planner.Valid() && place == old(place) && planner.planned == place.planned
      ensures suffix.Some? <==> old(window.ring.blocks) != []
      ensures suffix.Some? ==>
                && suffix.value.acceptedCount == old(place.accepted) && suffix.value.headAccepted == old(place.progress)
                && suffix.value.acceptedCount + suffix.value.discardedExpected == ExecutedBy(planner.planned)
                && suffix.value.discardedExpected > 0
                && suffix.value.firstWord == old(oracle.nextRelease)
                && suffix.value.reclaimedWords == old(oracle.nextAppend - oracle.nextRelease)
                && suffix.value.discardedWitnesses == |old(window.coordinator.registry.byKey)|
                && forall k | k in old(window.coordinator.registry.byKey) :: k.consumer > suffix.value.acceptedCount
      ensures suffix.None? ==> old(place.accepted) == ExecutedBy(planner.planned)
      ensures window.coordinator.Valid() && window.coordinator.tracker == null
      ensures window.coordinator.registry.byKey == map[] && window.coordinator.seen == old(window.coordinator.seen)
      ensures window.coordinator.history == old(window.coordinator.history) + [result]
      ensures result.executed == old(place.accepted) - acceptedBefore && NothingIncidental(window.coordinator.history)
      ensures InstructionsOf(window.coordinator.history) == old(place.accepted)
    {
      hide Aligned, Planned, Window.Valid, Planner.Valid, W.Oracle.Valid, L2.Collector.Valid, Window.PendingExactly,
        Coordinator.Valid, RewardTracker.Valid, EndOf, ExecutedBy, Words, Executions, Contiguous, Earning, AllProductive,
        NothingIncidental, InstructionsOf;
      var executed := window.tracker.acceptedCount - acceptedBefore;
      WindowFacts(window);
      AlignedResident(place, window.ring.blocks, window.tracker.progress, window.tracker.acceptedCount,
                      oracle.image, oracle.nextRelease, oracle.at, oracle.core.nextInstructionId,
                      collector.lastWriter, collector.lastInstructionIndex);
      OracleFacts(oracle);
      if window.ring.blocks == [] {
        NothingPending(window);
        suffix := None;
      } else {
        var stopped := DiscardAndFree(window, oracle);
        suffix := Some(stopped);
      }
      var terminated := planner.TerminateCampaignPlanning();
      assert terminated.Ok?;
      result := CloseBooks(window.coordinator, executed);
      OneIncidental(old(window.coordinator.history), result);
      OneMore(old(window.coordinator.history), result);
    }
  }

  // ---------------------------------------------------------------------
  // Glue
  // ---------------------------------------------------------------------

  lemma SlotIsNew(first: nat, k: nat)
    requires k < IMEM_WORD_CAPACITY
    ensures W.SlotsOf(first, k + 1) == W.SlotsOf(first, k) + {PhysicalPc(first + k)}
    ensures forall w | first <= w < first + k :: PhysicalPc(w) != PhysicalPc(first + k)
  {
    hide PhysicalPc, OwnerOf;
    OwnerIsUnique(first + k, first);
    forall w | first <= w < first + k
      ensures PhysicalPc(w) != PhysicalPc(first + k)
    {
      OwnerIsUnique(w, first);
    }
  }

  lemma FragmentShape(f: map<int, Word>, first: nat, words: seq<Word>)
    requires |words| <= IMEM_WORD_CAPACITY && f.Keys == W.SlotsOf(first, |words|)
    requires forall w | first <= w < first + |words| :: PhysicalPc(w) in f && f[PhysicalPc(w)] == words[w - first]
    ensures |f| == |words| && W.PhysicalPcs(f) && W.FragmentFits(first, f) && W.InOrder(f, first, |f|) == words
  {
    W.SlotsAreDistinct(first, |words|);
    assert |f.Keys| == |words|;
  }

  /** Consecutive words by physical PC. */
  method Fragment(first: nat, words: seq<Word>) returns (f: map<int, Word>)
    requires 1 <= |words| <= IMEM_WORD_CAPACITY
    ensures f != map[] && |f| == |words| && W.PhysicalPcs(f) && W.FragmentFits(first, f)
    ensures W.InOrder(f, first, |f|) == words
  {
    hide PhysicalPc, W.SlotsOf, W.FragmentFits, W.PhysicalPcs;
    f := map[];
    NoSlots(first);
    for k := 0 to |words|
      invariant f.Keys == W.SlotsOf(first, k)
      invariant forall w | first <= w < first + k :: PhysicalPc(w) in f && f[PhysicalPc(w)] == words[w - first]
    {
      SlotIsNew(first, k);
      f := f[PhysicalPc(first + k) := words[k]];
    }
    FragmentShape(f, first, words);
  }

  /** Mirrors an entry that was patched into the window; there is room for it. */
  method Mirror(o: W.Oracle, e: Entry)
    requires o.Valid() && |o.image| == e.start && e.End() <= o.nextRelease + IMEM_WORD_CAPACITY
    requires (forall i | i in e.Code() :: Legal(i)) && 1 <= e.WordCount() <= MAX_STREAM_BLOCK_WORDS
    modifies o`owner, o`words, o`image, o`nextAppend, o.core`program
    ensures o.Valid() && o.image == old(o.image) + WordsOf(e.Code())
  {
    hide Legal, W.FragmentFits, W.PhysicalPcs, WordsOf, W.Oracle.Valid;
    OracleFacts(o);
    var words := WordsOf(e.Code());
    var fragment := Fragment(e.start, words);
    var appended := o.AppendProgram(fragment, e.start);
    assert appended.Ok?;
  }

  /** The oracle's next expectation is the planned instruction, and it cannot fail. */
  method Expect(o: W.Oracle, ghost x: Exec, ghost next: nat) returns (e: Expectation)
    requires o.Valid() && Placed(x, o.image) && o.at == x.at * 4 && Flows(x.instr, x.at, next)
    requires o.core.nextInstructionId == x.index && o.nextRelease <= x.at < o.nextRelease + 5
    modifies o`at, o.core, o.core.model
    ensures o.Valid() && Names(e, x) && o.at == next * 4 && o.core.nextInstructionId == x.index + 1
  {
    hide Placed, Flows, W.Oracle.Valid, RefNext, Next, Consistent, Synced, Names;
    OracleFacts(o);
    PlannedStep(o.image, o.Ref(), x, next);
    var r := o.NextExpectation();
    e := r.value;
  }

  /** Observes the instruction and settles its hits: all planned, all attributed, nothing pruned. */
  method Settle(w: Window, c: L2.Collector, ev: Event, ghost p: Place, ghost x: Exec)
    returns (hits: seq<L2.L2Hit>, released: Option<Released>)
    requires w.Valid() && w.PendingExactly() && !w.terminated && w.coordinator.tracker != null && c.Valid()
    requires Placeable(p) && p.gone < |p.planned| && p.planned[p.gone..] == w.ring.blocks && IsNext(p, x) && Reports(ev, x)
    requires Wrote(Indices(c.lastWriter), Execs(p.planned)[..p.accepted])
    requires Ran(ev, x) && ev.index == x.index && Legal(x.instr)
    requires x.index == p.accepted + 1 == w.tracker.acceptedCount + 1 == c.lastInstructionIndex + 1
    requires OffsetsInImage(w.ring.blocks[0]) && w.tracker.progress < w.ring.blocks[0].ExecutedCount()
    requires x == ExecOf(w.ring.blocks[0])[w.tracker.progress]
    modifies w.ring, w.tracker, w.coordinator, w.coordinator.registry, w.coordinator.tracker, c
    ensures w.Valid() && w.PendingExactly() && !w.terminated && c.Valid()
    ensures c.lastWriter == L2.WritersAfter(old(c.lastWriter), ev) && c.lastInstructionIndex == x.index
    ensures w.tracker.acceptedCount == old(w.tracker.acceptedCount) + 1
    ensures var last := old(w.tracker.progress) + 1 == old(w.ring.blocks)[0].ExecutedCount();
            && (released.Some? <==> last)
            && (released.Some? ==> released.value.entry == old(w.ring.blocks)[0])
            && w.ring.blocks == (if last then old(w.ring.blocks)[1..] else old(w.ring.blocks))
            && w.tracker.progress == if last then 0 else old(w.tracker.progress) + 1
    ensures forall k :: k in KeysOfHits(hits) <==> KeyIn(old(w.ring.blocks), k) && k.consumer == x.index
    ensures w.coordinator.tracker == old(w.coordinator.tracker) && w.coordinator.history == old(w.coordinator.history)
    ensures w.coordinator.tracker.observed == old(w.coordinator.tracker.observed) + Bins(KeysOfHits(hits))
    ensures w.coordinator.tracker.attributable == old(w.coordinator.tracker.attributable) + Bins(KeysOfHits(hits))
    ensures w.coordinator.registry.byKey == Taken(old(w.coordinator.registry.byKey), KeysOfHits(hits))
    ensures w.coordinator.seen == old(w.coordinator.seen) + Bins(KeysOfHits(hits))
  {
    hide Window.Valid, L2.Collector.Valid, Window.PendingExactly, Coordinator.Valid, RewardTracker.Valid, Placeable, Execs,
      Legal, WordOf, DecodeChecked, Disassemble, Exact, Taken, Bins, KeyIn, L2.HitsOf, KeysOfHits, Indices, Wrote, ExecOf,
      OffsetsInImage, Reports, IsNext, Tracker.Accepts, Ran, Distinct, IsIntentBin, L2.WritersAfter, L2.Counted;
    ghost var writers := c.lastWriter;
    var observed := c.Observe(ev);
    hits := observed.value;
    forall k
      ensures k in KeysOfHits(hits) <==> KeyIn(w.ring.blocks, k) && k.consumer == ev.index
    {
      NextHits(p, writers, x, ev, k);
    }
    HitKeys(writers, ev, x);
    ReportIsAccepted(w, ev, x);
    WindowFacts(w);
    released := AcceptEvent(w, ev, KeysOfHits(hits));
  }

  /** Frees a completed entry in the oracle; it is always the oldest there. */
  method Free(o: W.Oracle, e: Entry)
    requires o.Valid() && e.start == o.nextRelease && e.End() <= |o.image| && e.WordCount() >= 1
    modifies o`owner, o`words, o`nextRelease, o.core`program
    ensures o.Valid() && o.nextRelease == e.End()
  {
    hide W.Oracle.Valid;
    OracleFacts(o);
    var freed := o.ReleaseLogicalWords(e.start, e.WordCount());
    assert freed.Ok?;
  }

  /** Expect, compare, settle and free: the instruction x moves every part, and any other the oracle alone. */
  method Execute(w: Window, c: L2.Collector, o: W.Oracle, ev: Event, ghost p: Place, ghost x: Exec, ghost next: nat)
    returns (r: Result<Settlement, TimingError>)
    requires DecodeChecked(ev.instruction) == Some(ev.d)
    requires o.Valid() && Placed(x, o.image) && o.at == x.at * 4 && Flows(x.instr, x.at, next)
    requires o.core.nextInstructionId == x.index && o.nextRelease <= x.at < o.nextRelease + 5
    requires w.Valid() && w.PendingExactly() && !w.terminated && w.coordinator.tracker != null && c.Valid()
    requires Placeable(p) && p.gone < |p.planned| && p.planned[p.gone..] == w.ring.blocks && IsNext(p, x)
    requires Wrote(Indices(c.lastWriter), Execs(p.planned)[..p.accepted])
    requires x.index == p.accepted + 1 == w.tracker.acceptedCount + 1 == c.lastInstructionIndex + 1
    requires OffsetsInImage(w.ring.blocks[0]) && w.tracker.progress < w.ring.blocks[0].ExecutedCount()
    requires x == ExecOf(w.ring.blocks[0])[w.tracker.progress]
    requires w.ring.blocks[0].start == o.nextRelease && w.ring.blocks[0].End() <= |o.image|
    requires w.ring.blocks[0].WordCount() >= 1
    modifies w.ring, w.tracker, w.coordinator, w.coordinator.registry, w.coordinator.tracker, c,
             o`at, o`owner, o`words, o`nextRelease, o.core, o.core.model
    ensures o.Valid() && (r.Ok? <==> Reports(ev, x))
    ensures r.Err? ==>
              && r.error == AcceptedMismatch && unchanged(w.ring) && unchanged(w.tracker) && unchanged(w.coordinator)
              && unchanged(w.coordinator.registry) && unchanged(w.coordinator.tracker) && unchanged(c)
    ensures r.Ok? ==>
              var last := old(w.tracker.progress) + 1 == old(w.ring.blocks)[0].ExecutedCount();
              && Names(r.value.expectation, x) && Ran(ev, x)
              && o.at == next * 4 && o.core.nextInstructionId == x.index + 1
              && w.Valid() && w.PendingExactly() && !w.terminated && c.Valid()
              && c.lastWriter == L2.WritersAfter(old(c.lastWriter), ev) && c.lastInstructionIndex == x.index
              && w.tracker.acceptedCount == old(w.tracker.acceptedCount) + 1
              && (r.value.released.Some? <==> last)
              && (r.value.released.Some? ==> r.value.released.value.entry == old(w.ring.blocks)[0])
              && w.ring.blocks == (if last then old(w.ring.blocks)[1..] else old(w.ring.blocks))
              && w.tracker.progress == (if last then 0 else old(w.tracker.progress) + 1)
              && o.nextRelease == (if last then old(w.ring.blocks)[0].End() else old(o.nextRelease))
              && (forall k :: k in KeysOfHits(r.value.hits) <==> KeyIn(old(w.ring.blocks), k) && k.consumer == x.index)
              && w.coordinator.tracker == old(w.coordinator.tracker) && w.coordinator.history == old(w.coordinator.history)
              && w.coordinator.tracker.observed == old(w.coordinator.tracker.observed) + Bins(KeysOfHits(r.value.hits))
              && w.coordinator.tracker.attributable
                 == old(w.coordinator.tracker.attributable) + Bins(KeysOfHits(r.value.hits))
              && w.coordinator.registry.byKey == Taken(old(w.coordinator.registry.byKey), KeysOfHits(r.value.hits))
              && w.coordinator.seen == old(w.coordinator.seen) + Bins(KeysOfHits(r.value.hits))
  {
    hide Window.Valid, W.Oracle.Valid, L2.Collector.Valid, Window.PendingExactly, Coordinator.Valid, RewardTracker.Valid,
      Placeable, Execs, Legal, Flows, Taken, Bins, KeyIn, KeysOfHits, Indices, Wrote, Placed, ExecOf, OffsetsInImage,
      Names, IsNext, Ran, L2.WritersAfter, DecodeChecked, Reports;
    var e := Expect(o, x, next);
    NamesReports(e, ev, x);
    if ev.index != e.id || ev.pc != e.pc || ev.instruction != e.instruction {
      return Err(AcceptedMismatch);
    }
    var hits, released := Settle(w, c, ev, p, x);
    if released.Some? {
      Free(o, released.value.entry);
    }
    r := Ok(Settlement(e, hits, released));
  }

  /** What a pipeline that executes the plan accepts next, whatever its stalls and forwarding. */
  method NextEvent(c: Campaign) returns (ev: Event)
    requires c.Valid() && c.window.ring.blocks != []
    ensures DecodeChecked(ev.instruction) == Some(ev.d) && forall x | IsNext(c.place, x) :: Reports(ev, x)
  {
    hide Aligned, Window.Valid, Planner.Valid, W.Oracle.Valid, L2.Collector.Valid, Window.PendingExactly, Coordinator.Valid,
      Placeable, Execs, Legal, Flows, Placed, ExecOf, OffsetsInImage, DecodeChecked, Exact, Disassemble, Earning,
      AllProductive, NothingIncidental, InstructionsOf, Wrote, CursorAt, EndOf, Planned, WordOf;
    WindowFacts(c.window);
    ghost var x, next := AlignedNext(c.place, c.window.ring.blocks, c.window.tracker.progress,
                                     c.window.tracker.acceptedCount, c.oracle.image, c.oracle.nextRelease, c.oracle.at,
                                     c.oracle.core.nextInstructionId, c.collector.lastWriter,
                                     c.collector.lastInstructionIndex);
    var expected := c.window.tracker.Expected();
    var word := WordOf(expected.instr);
    WordDecodes(expected.instr);
    var cycle: int, stall: int, forwardA: int, forwardB: int := *, *, *, *;
    ev := Event(expected.index, cycle, PhysicalPc(expected.at), word, DecodeChecked(word).value, stall, forwardA, forwardB);
  }

  /** The event is the expected instruction exactly if it agrees in what is compared. */
  lemma NamesReports(e: Expectation, ev: Event, x: Exec)
    requires Names(e, x) && DecodeChecked(ev.instruction) == Some(ev.d)
    ensures Legal(x.instr)
    ensures Reports(ev, x) <==> ev.index == e.id && ev.pc == e.pc && ev.instruction == e.instruction
    ensures Reports(ev, x) ==> Ran(ev, x) && ev.index == x.index
  {
    hide DecodeChecked, Disassemble, Exact, Legal, WordOf;
    WordDecodes(x.instr);
  }

  /** The next planned instruction moves everything one place further; any other event moves the oracle alone. */
  method ExecuteNext(w: Window, c: L2.Collector, o: W.Oracle, ev: Event, ghost p: Place)
    returns (r: Result<Settlement, TimingError>, ghost x: Exec)
    requires DecodeChecked(ev.instruction) == Some(ev.d)
    requires o.Valid() && w.Valid() && w.PendingExactly() && !w.terminated && w.coordinator.tracker != null && c.Valid()
    requires w.ring.blocks != []
    requires Aligned(p, w.ring.blocks, w.tracker.progress, w.tracker.acceptedCount, o.image, o.nextRelease, o.at,
                     o.core.nextInstructionId, c.lastWriter, c.lastInstructionIndex)
    modifies w.ring, w.tracker, w.coordinator, w.coordinator.registry, w.coordinator.tracker, c,
             o`at, o`owner, o`words, o`nextRelease, o.core, o.core.model
    ensures p.gone < |p.planned| && IsNext(p, x) && p.accepted == old(w.tracker.acceptedCount)
    ensures o.Valid() && (r.Ok? <==> Reports(ev, x))
    ensures r.Err? ==>
              && r.error == AcceptedMismatch && unchanged(w.ring) && unchanged(w.tracker) && unchanged(w.coordinator)
              && unchanged(w.coordinator.registry) && unchanged(w.coordinator.tracker) && unchanged(c)
    ensures r.Ok? ==>
              var hits, released := r.value.hits, r.value.released;
              && Names(r.value.expectation, x) && w.Valid() && w.PendingExactly() && !w.terminated && c.Valid()
              && Aligned(Moved(p), w.ring.blocks, w.tracker.progress, w.tracker.acceptedCount, o.image, o.nextRelease,
                         o.at, o.core.nextInstructionId, c.lastWriter, c.lastInstructionIndex)
              && Planned(old(w.ring.blocks)[0]) && old(w.tracker.progress) < old(w.ring.blocks)[0].ExecutedCount()
              && w.tracker.acceptedCount == old(w.tracker.acceptedCount) + 1
              && (released.Some? <==> old(w.tracker.progress) + 1 == old(w.ring.blocks)[0].ExecutedCount())
              && (released.Some? ==> released.value.entry == old(w.ring.blocks)[0])
              && w.ring.blocks == (if released.Some? then old(w.ring.blocks)[1..] else old(w.ring.blocks))
              && (forall k :: k in KeysOfHits(hits) <==> KeyIn(old(w.ring.blocks), k) && k.consumer == p.accepted + 1)
              && w.coordinator.tracker == old(w.coordinator.tracker) && w.coordinator.history == old(w.coordinator.history)
              && w.coordinator.tracker.observed == old(w.coordinator.tracker.observed) + Bins(KeysOfHits(hits))
              && w.coordinator.tracker.attributable == old(w.coordinator.tracker.attributable) + Bins(KeysOfHits(hits))
              && w.coordinator.registry.byKey == Taken(old(w.coordinator.registry.byKey), KeysOfHits(hits))
              && w.coordinator.seen == old(w.coordinator.seen) + Bins(KeysOfHits(hits))
  {
    hide Window.Valid, W.Oracle.Valid, L2.Collector.Valid, Window.PendingExactly, Coordinator.Valid, RewardTracker.Valid,
      Placeable, Execs, Legal, Flows, Taken, Bins, KeyIn, KeysOfHits, Indices, Wrote, Placed, ExecOf, OffsetsInImage,
      Names, IsNext, Ran, L2.WritersAfter, Aligned, EndOf, Planned, Reports, DecodeChecked;
    ghost var next: nat;
    x, next := AlignedNext(p, w.ring.blocks, w.tracker.progress, w.tracker.acceptedCount, o.image, o.nextRelease, o.at,
                           o.core.nextInstructionId, c.lastWriter, c.lastInstructionIndex);
    ghost var writers := c.lastWriter;
    r := Execute(w, c, o, ev, p, x, next);
    if r.Ok? {
      AlignedExecute(p, old(w.ring.blocks), old(w.tracker.progress), old(w.tracker.acceptedCount), old(o.image),
                     old(o.nextRelease), old(o.at), old(o.core.nextInstructionId), writers, old(c.lastInstructionIndex),
                     x, next, ev, w.ring.blocks, w.tracker.progress, o.nextRelease);
    }
  }

  /** Hit keys of one instruction are distinct bins of the intent space. */
  lemma HitKeys(writers: L2.Writers, ev: Event, x: Exec)
    requires Ran(ev, x)
    ensures Distinct(KeysOfHits(L2.HitsOf(writers, ev)))
    ensures forall h | h in KeysOfHits(L2.HitsOf(writers, ev)) :: IsIntentBin(BinOf(h))
  {
    hide Exact, Disassemble, L2.HitsOf, Indices, SourcesOf, Legal;
    HitsAreKeys(writers, ev, x);
    DistinctSources(x.instr);
  }

  lemma DistinctSources(i: Instr)
    requires Legal(i)
    ensures |SourcesOf(i)| <= 2 && (|SourcesOf(i)| == 2 ==> SourcesOf(i)[0] != SourcesOf(i)[1])
  {
  }

  /** The tracker accepts exactly what the oracle expects. */
  lemma ReportIsAccepted(w: Window, ev: Event, x: Exec)
    requires w.Valid() && !w.terminated && w.ring.blocks != [] && Reports(ev, x) && Legal(x.instr)
    requires OffsetsInImage(w.ring.blocks[0]) && w.tracker.progress < w.ring.blocks[0].ExecutedCount()
    requires x == ExecOf(w.ring.blocks[0])[w.tracker.progress] && x.index == w.tracker.acceptedCount + 1
    ensures w.tracker.Accepts(ev)
  {
    hide OffsetsInImage, ExecOf, WordOf, Legal, PhysicalPc, DecodeChecked;
    WindowFacts(w);
  }

  lemma NothingPending(w: Window)
    requires w.Valid() && w.PendingExactly() && forall b | b in w.ring.blocks :: b.Delimiter?
    ensures w.coordinator.registry.byKey == map[]
  {
    hide Coordinator.Valid, KeyIn;
    forall k
      ensures !KeyIn(w.ring.blocks, k)
    {
      DelimitersHoldNoKey(w.ring.blocks, k);
    }
  }

  lemma DelimitersHoldNoKey(es: seq<Entry>, k: Key)
    requires forall e | e in es :: e.Delimiter?
    ensures !KeyIn(es, k)
  {
  }

  /** Discards everything resident, in the window and in the oracle. */
  method DiscardAndFree(w: Window, o: W.Oracle) returns (suffix: Suffix)
    requires w.Valid() && !w.terminated && w.ring.blocks != [] && w.tracker.acceptedCount > 0 && w.coordinator.tracker != null
    requires o.Valid() && o.nextRelease == w.ring.blocks[0].start && o.nextAppend == w.ring.blocks[|w.ring.blocks| - 1].End()
    modifies w, w.ring, w.tracker, w.coordinator.registry, o`owner, o`words, o`nextRelease, o.core`program
    ensures w.ring.blocks == [] && w.coordinator.registry.byKey == map[] && w.coordinator.Valid()
    ensures o.Valid() && o.nextRelease == o.nextAppend
    ensures suffix.acceptedCount == old(w.tracker.acceptedCount) && suffix.headAccepted == old(w.tracker.progress)
    ensures suffix.discardedExpected == Executions(old(w.ring.blocks)) - old(w.tracker.progress) > 0
    ensures suffix.firstWord == old(o.nextRelease) && suffix.reclaimedWords == old(o.nextAppend - o.nextRelease)
    ensures suffix.discardedWitnesses == |old(w.coordinator.registry.byKey)|
    ensures forall k | k in old(w.coordinator.registry.byKey) :: k.consumer > suffix.acceptedCount
  {
    hide Window.Valid, W.Oracle.Valid, Coordinator.Valid, Words, Executions;
    WindowFacts(w);
    PendingAhead(w);
    var stopped := w.DiscardUnexecutedSuffix(w.tracker.acceptedCount);
    suffix := stopped.value;
    var freed := o.ReleaseLogicalWords(suffix.firstWord, suffix.reclaimedWords);
    assert freed.Ok?;
    SoundCoordinator(w);
  }

  /** When as many instructions were accepted as the epoch planned, its successor's delimiter is all that is resident. */
  lemma OnlyDelimiterLeft(c: Campaign)
    requires c.Valid() && c.planner.epoch.Some? && c.planner.pending.Some?
    requires c.window.tracker.acceptedCount == c.acceptedBefore + c.planner.plannedExecuted
    ensures c.window.ring.blocks == [c.planner.pending.value] && c.place.progress == 0
    ensures c.planner.pending.value.Delimiter? && c.planner.pending.value.first == c.place.accepted + 1
    ensures c.place.accepted == c.window.tracker.acceptedCount && c.planner.plannedExecuted > 0
  {
    hide Earning, AllProductive, NothingIncidental, Coordinator.Valid, W.Oracle.Valid, L2.Collector.Valid, Aligned,
      Window.PendingExactly, Stream, InstructionsOf, Window.Valid;
    WindowFacts(c.window);
    AlignedResident(c.place, c.window.ring.blocks, c.window.tracker.progress, c.window.tracker.acceptedCount,
                    c.oracle.image, c.oracle.nextRelease, c.oracle.at, c.oracle.core.nextInstructionId,
                    c.collector.lastWriter, c.collector.lastInstructionIndex);
    var blocks := c.window.ring.blocks;
    assert ExecutedBy(c.place.planned) == c.planner.pending.value.first;
    assert blocks != [];
    HeadUnfinished(c.window);
    AlignedLast(c.place, blocks, c.window.tracker.progress, c.window.tracker.acceptedCount, c.oracle.image,
                c.oracle.nextRelease, c.oracle.at, c.oracle.core.nextInstructionId, c.collector.lastWriter,
                c.collector.lastInstructionIndex);
    OneLeft(blocks, c.window.tracker.progress);
  }

  /** Of the running epoch no more is ever accepted than it planned and the delimiter after it. */
  lemma AcceptedWithinPlan(c: Campaign)
    requires c.Valid() && c.planner.epoch.Some?
    ensures c.acceptedBefore <= c.place.accepted == c.window.tracker.acceptedCount
    ensures c.place.accepted <= c.acceptedBefore + c.planner.plannedExecuted + (if c.planner.pending.Some? then 1 else 0)
    ensures c.window.ring.blocks == [] ==>
              c.place.accepted == c.acceptedBefore + c.planner.plannedExecuted + (if c.planner.pending.Some? then 1 else 0)
    ensures c.planner.pending.Some? ==> c.planner.Complete()
  {
    hide Earning, AllProductive, NothingIncidental, Coordinator.Valid, W.Oracle.Valid, L2.Collector.Valid, Aligned,
      Window.PendingExactly, Stream, InstructionsOf, Window.Valid;
    WindowFacts(c.window);
    AlignedResident(c.place, c.window.ring.blocks, c.window.tracker.progress, c.window.tracker.acceptedCount,
                    c.oracle.image, c.oracle.nextRelease, c.oracle.at, c.oracle.core.nextInstructionId,
                    c.collector.lastWriter, c.collector.lastInstructionIndex);
    if c.window.ring.blocks != [] {
      HeadUnfinished(c.window);
      HeadSums(c.window.ring.blocks);
    }
  }

  lemma AlignedLast(p: Place, blocks: seq<Entry>, progress: nat, accepted: nat, image: seq<Word>, release: nat,
                    at: int, nextId: int, writers: L2.Writers, observed: int)
    requires Aligned(p, blocks, progress, accepted, image, release, at, nextId, writers, observed) && blocks != []
    ensures p.planned != [] && blocks[|blocks| - 1] == p.planned[|p.planned| - 1]
  {
    hide Placeable, Image, EndOf, Execs, CursorAt, Wrote;
    PlaceBounds(p);
  }

  lemma OneLeft(blocks: seq<Entry>, progress: nat)
    requires blocks != [] && blocks[|blocks| - 1].ExecutedCount() == 1 && progress < blocks[0].ExecutedCount()
    requires Executions(blocks) == progress + 1
    ensures blocks == [blocks[0]] && progress == 0
  {
    var before := blocks[..|blocks| - 1];
    if before != [] {
      HeadSums(before);
    }
  }

  lemma HeadUnfinished(w: Window)
    requires w.Valid() && !w.terminated && w.ring.blocks != []
    ensures w.tracker.progress < w.ring.blocks[0].ExecutedCount()
  {
    hide Executions, Words, Contiguous, Coordinator.Valid;
    SoundHead(w.tracker.blocks, w.tracker.progress, w.tracker.nextExpected, w.tracker.acceptedCount, w.tracker.done);
  }

  lemma SoundCoordinator(w: Window)
    requires w.Valid()
    ensures w.coordinator.Valid()
  {
  }

  /** Settles the running epoch, of which nothing is pending and every observed bin was attributed. */
  method CloseBooks(c: Coordinator, executed: nat) returns (result: EpochResult)
    requires c.Valid() && c.registry.byKey == map[] && executed > 0
    requires c.tracker != null && c.tracker.observed == c.tracker.attributable
    modifies c, c.tracker
    ensures c.Valid() && c.tracker == null && c.history == old(c.history) + [result] && c.seen == old(c.seen)
    ensures result.executed == executed && result.globalNew == result.attributableNew
    ensures result.arm == old(c.tracker.arm) && result.target == old(c.tracker.target)
    ensures result.covered == old(c.tracker.covered) && result.attributable == old(c.tracker.attributable)
  {
    hide Coordinator.Valid, RewardTracker.Valid, Settled;
    var finished := c.FinishEpoch(executed);
    result := finished.value;
    AllAttributed(c, result);
  }

  /** Settles the running epoch; the window is not touched by it. */
  method FinishIn(w: Window, executed: nat) returns (result: EpochResult)
    requires w.Valid() && !w.terminated && w.PendingExactly() && executed > 0
    requires forall b | b in w.ring.blocks :: b.Delimiter?
    requires w.coordinator.tracker != null && w.coordinator.tracker.observed == w.coordinator.tracker.attributable
    modifies w.coordinator, w.coordinator.tracker
    ensures w.Valid() && w.PendingExactly() && w.coordinator.Valid() && w.coordinator.tracker == null
    ensures w.coordinator.history == old(w.coordinator.history) + [result] && w.coordinator.seen == old(w.coordinator.seen)
    ensures result.executed == executed && result.globalNew == result.attributableNew
    ensures old(EpochEarns(w.coordinator)) ==> Productive(result)
  {
    hide Coordinator.Valid, RewardTracker.Valid, Ring.Valid, Tracker.Valid, Live, Exactly, Settled, GoodTarget, Productive,
      CoveredRegisters, HasShape, AttributionTargets;
    NothingPending(w);
    ghost var tracker := w.coordinator.tracker;
    ghost var targets := tracker.targets;
    TargetsOf(w.coordinator);
    ghost var earns := EpochEarns(w.coordinator);
    result := CloseBooks(w.coordinator, executed);
    if earns {
      EarnedIsProductive(w.coordinator, result, tracker.arm, tracker.target, targets);
    }
  }

  /** The running epoch has earned all bins of its arm. */
  ghost predicate EpochEarns(c: Coordinator)
    reads c, c.tracker
  {
    c.tracker != null && c.tracker.attributable == c.tracker.targets
    && GoodTarget(c.tracker.arm, CoveredRegisters(c.tracker.covered), c.tracker.target)
  }

  lemma TargetsOf(c: Coordinator)
    requires c.Valid() && c.tracker != null
    ensures HasShape(c.tracker.arm, c.tracker.target)
    ensures AttributionTargets(c.tracker.arm, c.tracker.target) == Ok(c.tracker.targets)
  {
    hide Chained, CoveredAfter, Eligible, IsIntentBin;
  }

  /** Begins the next epoch at its reserved delimiter; the window is not touched by it. */
  method BeginIn(w: Window, p: Planner, arm: Arm) returns (plan: EpochPlan)
    requires w.Valid() && !w.terminated && w.PendingExactly() && p.Valid() && p.coordinator == w.coordinator
    requires w.coordinator.tracker == null && p.epoch.None? && p.pending.Some? && !p.terminated
    modifies p, w.coordinator
    ensures w.Valid() && w.PendingExactly() && p.Valid() && !p.terminated && p.plannedExecuted == 1
    ensures p.planned == old(p.planned) && p.epoch == Some(plan) && plan.arm == arm && Begun(w.coordinator, arm, plan)
    ensures p.nextEpochToBegin == old(p.nextEpochToBegin) + 1 && w.coordinator.history == old(w.coordinator.history)
    ensures w.coordinator.tracker != null && fresh(w.coordinator.tracker) && p.pending.None? && p.active == old(p.pending)
    ensures w.coordinator.seen == old(w.coordinator.seen)
  {
    hide Coordinator.Valid, RewardTracker.Valid, Ring.Valid, Tracker.Valid, Live, Exactly, Planner.Valid, Begun;
    var begun := p.BeginEpoch(arm);
    plan := begun.value;
    CanTerminate(p);
    BeganFor(w.coordinator, arm, plan);
    PlannerFacts(p);
  }

  lemma BeganFor(c: Coordinator, arm: Arm, plan: EpochPlan)
    requires Begun(c, arm, plan)
    ensures plan.arm == arm && c.tracker != null
  {
  }

  /** Attributed bins are all the observed ones, so all new coverage is rewarded. */
  lemma AllAttributed(c: Coordinator, result: EpochResult)
    requires c.Valid() && c.history != [] && c.history[|c.history| - 1] == result && result.observed == result.attributable
    ensures result.globalNew == result.attributableNew
  {
    assert Settled(c.history[|c.history| - 1]);
  }

  lemma BegunFresh(c: Coordinator, arm: Arm, plan: EpochPlan, blocks: seq<Entry>, accepted: int)
    requires Begun(c, arm, plan) && !HasBlock(blocks)
    ensures c.tracker != null && c.tracker.arm == plan.arm == arm && c.tracker.target == plan.target
    ensures c.tracker.observed == c.tracker.attributable && Earning(c.tracker, blocks, accepted, false)
  {
    hide GoodTarget;
    NoBlockNoKey(blocks, accepted, c.tracker.attributable);
  }

  /** One executed instruction keeps the books; one that completes a template earns all bins of its arm. */
  lemma CompletedTracker(w: Window, blocks: seq<Entry>, progress: nat, accepted: nat, before: set<IntentBin>,
                         hits: seq<Key>, earned: bool, last: bool, earned': bool)
    requires w.Valid() && !w.terminated && w.coordinator.tracker != null && blocks != [] && Planned(blocks[0])
    requires Earns(w.coordinator.tracker, before, blocks, accepted, earned)
    requires w.coordinator.tracker.attributable == before + Bins(hits)
    requires forall k :: k in hits <==> KeyIn(blocks, k) && k.consumer == accepted + 1
    requires progress < blocks[0].ExecutedCount() && accepted + 1 == blocks[0].first + progress
    requires last <==> progress + 1 == blocks[0].ExecutedCount()
    requires w.ring.blocks == (if last then blocks[1..] else blocks) && w.tracker.acceptedCount == accepted + 1
    requires earned' == (earned || (last && blocks[0].Block?))
    ensures Earning(w.coordinator.tracker, w.ring.blocks, w.tracker.acceptedCount, earned')
    ensures last && blocks[0].Block? ==> w.coordinator.tracker.attributable == w.coordinator.tracker.targets
    ensures earned || HasBlock(blocks) ==> earned' || HasBlock(w.ring.blocks)
  {
    hide Planned, GoodTarget, Attributed, KeyIn, Bins, CoveredRegisters, Coordinator.Valid, AttributionTargets, HasShape,
      Window.Valid, Ring.Valid, Tracker.Valid;
    var t := w.coordinator.tracker;
    WindowFacts(w);
    AttributedExecute(blocks, accepted, before, hits);
    NeverMore(w.coordinator);
    if progress + 1 == blocks[0].ExecutedCount() {
      if blocks[0].Block? {
        CompletedEarns(blocks, accepted + 1, t.attributable);
        assert blocks[0] in blocks;
        EarnedAll(w.coordinator);
      }
      assert forall b | b in blocks :: b == blocks[0] || b in blocks[1..];
    }
  }

  lemma NeverMore(c: Coordinator)
    requires c.Valid() && c.tracker != null
    ensures c.tracker.attributable <= c.tracker.targets
  {
    hide Chained, CoveredAfter, Eligible, IsIntentBin, AttributionTargets;
  }

  lemma EarningAppend(t: RewardTracker?, blocks: seq<Entry>, accepted: int, earned: bool, e: Entry)
    requires Earning(t, blocks, accepted, earned) && EntryOk(e) && e.first > accepted
    requires t != null && e.Block? ==> e.template.arm == t.arm && e.template.target == t.target
    ensures Earning(t, blocks + [e], accepted, earned)
    ensures HasBlock(blocks + [e]) <==> e.Block? || HasBlock(blocks)
  {
    hide EntryOk, GoodTarget, Attributed;
    if t != null {
      AttributedAppend(blocks, accepted, t.attributable, e);
    }
    assert e in blocks + [e] && forall b | b in blocks :: b in blocks + [e];
  }

  lemma PendingAhead(w: Window)
    requires w.Valid() && !w.terminated
    ensures forall k | k in w.coordinator.registry.byKey :: k.consumer > w.tracker.acceptedCount
    ensures w.committed == w.tracker.acceptedCount + Executions(w.ring.blocks) - w.tracker.progress
  {
    hide Coordinator.Valid, Executions;
    WindowFacts(w);
    LiveFacts(w.coordinator.registry.byKey, w.tracker.blocks, w.tracker.progress, w.tracker.nextExpected,
              w.tracker.acceptedCount, w.committed);
  }

  lemma AlignedResident(p: Place, blocks: seq<Entry>, progress: nat, accepted: nat, image: seq<Word>, release: nat,
                        at: int, nextId: int, writers: L2.Writers, observed: int)
    requires Aligned(p, blocks, progress, accepted, image, release, at, nextId, writers, observed)
    ensures p.progress == progress && p.accepted == accepted && |image| - release == Words(blocks)
    ensures ExecutedBy(p.planned) == accepted - progress + Executions(blocks)
    ensures blocks == [] ==> p.accepted == ExecutedBy(p.planned) && |image| == release
    ensures blocks != [] ==> release == blocks[0].start && |image| == blocks[|blocks| - 1].End()
  {
    hide InStep, EndOf, ExecutedBy, Words, Executions;
    ResidentFacts(p, blocks, image, release, at, Indices(writers));
    if blocks != [] {
      StartsAtRelease(p, blocks, image, release, at, Indices(writers));
    } else {
      NothingLeft(p, image, release, at, Indices(writers));
    }
  }

  lemma NothingLeft(p: Place, image: seq<Word>, release: int, at: int, writers: WriterIndex)
    requires InStep(p, [], image, release, at, writers)
    ensures p.accepted == ExecutedBy(p.planned) && Words([]) == 0
  {
    hide Execs, Image, Wrote, EndOf, ExecutedBy, Stream, LegalCode, AllInImage;
    assert p.planned[..p.gone] == p.planned;
  }

  lemma StartsAtRelease(p: Place, blocks: seq<Entry>, image: seq<Word>, release: int, at: int, writers: WriterIndex)
    requires InStep(p, blocks, image, release, at, writers) && blocks != []
    ensures blocks[0].start == release
  {
    hide Execs, Image, Wrote, EndOf, ExecutedBy, Stream, LegalCode, AllInImage;
    EntryStartsAt(p.planned, p.gone);
  }

  lemma CanTerminate(p: Planner)
    requires p.Valid()
    ensures p.epoch.Some? ==> !p.terminated && p.nextEpochToBegin > 0
    ensures p.terminated ==> p.epoch.None? && p.pending.None?
  {
    hide Planned, Stream;
  }

  lemma NoSlots(first: nat)
    ensures W.SlotsOf(first, 0) == {}
  {
  }

  lemma EmptyWindow(w: Window)
    requires w.Valid() && !w.terminated && w.ring.blocks == [] && w.tracker.acceptedCount == 0 && w.ring.capacity > 0
    requires w.coordinator.registry.byKey == map[]
    ensures w.ring.Admits(FIRST) && w.tracker.Continues(FIRST) && w.tracker.progress == 0 && w.Registers(FIRST)
    ensures w.PendingExactly()
  {
    SoundHead(w.tracker.blocks, w.tracker.progress, w.tracker.nextExpected, w.tracker.acceptedCount, w.tracker.done);
  }

  lemma LegalDelimiter()
    ensures Legal(DELIMITER)
  {
  }

  /** A window that holds the first delimiter. */
  method FirstWindow(c: Coordinator, ring: Ring, tracker: Tracker) returns (w: Window)
    requires c.Valid() && c.registry.byKey == map[] && c.tracker != null
    requires ring.Valid() && ring.capacity > 0 && ring.blocks == []
    requires tracker.Valid() && tracker.blocks == [] && tracker.acceptedCount == 0
    modifies ring, tracker, c.registry
    ensures fresh(w) && w.coordinator == c && w.ring == ring && w.tracker == tracker
    ensures w.Valid() && !w.terminated && w.PendingExactly() && ring.blocks == [FIRST]
    ensures tracker.progress == 0 && tracker.acceptedCount == 0
  {
    hide Window.Valid, Planned, EntryOk, Coordinator.Valid, RewardTracker.Valid, Ring.Valid, Tracker.Valid, Ring.Admits,
      Tracker.Continues, Window.Registers, Window.PendingExactly, Registered;
    DelimiterIsPlanned(FIRST);
    EntryWords(FIRST);
    w := new Window(c, ring, tracker);
    EmptyWindow(w);
    var committed := w.CommitPatchedBlock(FIRST);
    assert committed.Ok?;
  }

  /** Nothing executed of a stream that is one delimiter. */
  lemma FirstPlace()
    ensures InStep(Place([FIRST], 0, 0, 0), [FIRST], WordsOf([DELIMITER]), 0, 0, Indices(map[]))
  {
    hide WordsOf, Legal, InStep, EntryOk, EndOf, ExecutedBy, Planned;
    assert Indices(map[]) == map[];
    DelimiterIsPlanned(FIRST);
    NothingLaidOut();
    EmptyPlace();
    AppendKeeps(Place([], 0, 0, 0), [], [], 0, 0, map[], FIRST);
    assert FIRST.Code() == [DELIMITER];
    assert [] + [FIRST] == [FIRST] && [] + WordsOf([DELIMITER]) == WordsOf([DELIMITER]);
  }

  lemma FirstAligned()
    requires Legal(DELIMITER) && InStep(Place([FIRST], 0, 0, 0), [FIRST], WordsOf([DELIMITER]), 0, 0, Indices(map[]))
    ensures Aligned(Place([FIRST], 0, 0, 0), [FIRST], 0, 0, WordsOf([DELIMITER]), 0, 0, 1, map[], 0)
  {
    hide InStep, WordsOf;
  }

  lemma EmptyPlace()
    ensures InStep(Place([], 0, 0, 0), [], [], 0, 0, map[])
  {
  }

  lemma EntryWords(e: Entry)
    requires Planned(e)
    ensures EntryOk(e) && (forall i | i in e.Code() :: Legal(i)) && 1 <= e.WordCount() <= MAX_STREAM_BLOCK_WORDS
  {
    hide Planned, Legal, EntryOk;
    PlannedShape(e);
    PlannedIsOk(e);
  }

  /** An entry that continues the plan and fits is admitted by ring and tracker. */
  lemma Continuing(w: Window, e: Entry)
    requires w.Valid() && !w.terminated && w.tracker.progress == 0
    requires e.WordCount() + w.ring.usedWords <= w.ring.capacity
    requires e.first == w.tracker.acceptedCount + 1 + Executions(w.ring.blocks)
    requires w.ring.blocks != [] ==> w.ring.blocks[|w.ring.blocks| - 1].End() == e.start
    ensures w.ring.Admits(e) && w.tracker.Continues(e)
  {
    SoundHead(w.tracker.blocks, w.tracker.progress, w.tracker.nextExpected, w.tracker.acceptedCount, w.tracker.done);
  }

  lemma PlannerFacts(p: Planner)
    requires p.Valid()
    ensures p.nextWord == EndOf(p.planned) && p.nextIndex == ExecutedBy(p.planned) + 1
    ensures p.epoch.Some? ==> p.plannedExecuted > 0
  {
    hide Planned, Stream;
  }

  lemma WindowFacts(w: Window)
    requires w.Valid() && !w.terminated
    ensures w.ring.Valid() && w.ring.usedWords == Words(w.ring.blocks) <= w.ring.capacity <= IMEM_WORD_CAPACITY
    ensures w.ring.blocks == w.tracker.blocks && w.tracker.Valid() && w.coordinator.Valid()
    ensures w.tracker.nextExpected == w.tracker.acceptedCount + 1
    ensures w.ring.blocks != [] ==> w.ring.blocks[0].first + w.tracker.progress == w.tracker.acceptedCount + 1
  {
    SoundHead(w.tracker.blocks, w.tracker.progress, w.tracker.nextExpected, w.tracker.acceptedCount, w.tracker.done);
  }

  lemma OracleFacts(o: W.Oracle)
    requires o.Valid()
    ensures o.nextAppend == |o.image| && Synced(o.Ref()) && Consistent(o.core.View())
  {
  }
}
