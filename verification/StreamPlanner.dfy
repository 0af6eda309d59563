/** The planner of one campaign: delimiters and template blocks, one after the other in the unbounded image. */
module StreamPlanner {
  import opened Wrappers
  import opened Rv32Isa
  import opened ArmsAndTargets
  import opened FillerPolicy
  import opened TemplateRealizer
  import opened RegisterPolicy
  import opened StreamPlan
  import opened HitsAreWitnesses
  import opened PlanRun
  import opened Rewards
  import opened EpochCoordinator

  const MAX_BACKGROUND_FILLERS_PER_TEMPLATE := 1

  datatype PlannerError =
    | BoundaryPending | CampaignTerminated | InsidePayload | AlreadyActive | MissingBoundary | NotActive
    | PlanComplete | NotComplete | NothingBegun | EpochRefused(epoch: EpochError)

  datatype EpochPlan = EpochPlan(arm: Arm, target: Target)

  lemma StreamExtends(es: seq<Entry>, e: Entry)
    requires Stream(es) && Planned(e) && e.start == EndOf(es) && e.first == ExecutedBy(es) + 1
    ensures Stream(es + [e]) && EndOf(es + [e]) == e.End() && ExecutedBy(es + [e]) == e.first + e.ExecutedCount() - 1
  {
    hide Planned;
    var more := es + [e];
    forall k | 0 < k < |more|
      ensures Follows(more[k - 1], more[k])
    {
      assert k < |es| ==> Follows(es[k - 1], es[k]);
    }
  }

  /** A block executes two to four instructions and takes two to five words. */
  lemma BlockBounds(e: Entry)
    requires Planned(e) && e.Block?
    ensures 2 <= e.ExecutedCount() <= 4 && e.ExecutedCount() <= e.WordCount() <= 5
  {
    hide LegalVariant, BuildWitnesses, PhysicalPc, Legal;
    PlannedShape(e);
    assert e.template.executed == [0, 1] || e.template.executed == [0, 1, 2] || e.template.executed == [0, 3];
  }

  /** Words of the planned templates, flushed ones included. */
  function TemplateWords(es: seq<Entry>): nat {
    if es == [] then 0
    else
      var last := es[|es| - 1];
      TemplateWords(es[..|es| - 1]) + (if last.Block? then |last.template.code| else 0)
  }

  /** Fillers planned between templates. */
  function BackgroundFillers(es: seq<Entry>): nat {
    if es == [] then 0
    else
      var last := es[|es| - 1];
      BackgroundFillers(es[..|es| - 1]) + (if last.Block? then |last.fillers| else 0)
  }

  /** Template instances are numbered from one and delimiters from epoch zero; id and epoch are the next of either. */
  ghost predicate Numbered(es: seq<Entry>, id: int, epoch: int) {
    if es == [] then id == 1 && epoch == 0
    else
      var front, last := es[..|es| - 1], es[|es| - 1];
      if last.Block? then last.id == id - 1 && Numbered(front, id - 1, epoch)
      else last.epoch == epoch - 1 && Numbered(front, id, epoch - 1)
  }

  /** No two entries of a plan share their template instance or their epoch. */
  lemma {:induction false} NumbersAreFresh(es: seq<Entry>, id: int, epoch: int, i: nat)
    requires Numbered(es, id, epoch) && i < |es|
    ensures if es[i].Block? then es[i].id < id else es[i].epoch < epoch
  {
    if i < |es| - 1 {
      var last := es[|es| - 1];
      NumbersAreFresh(es[..|es| - 1], if last.Block? then id - 1 else id, if last.Block? then epoch else epoch - 1, i);
    }
  }

  lemma {:induction false} NumbersAreUnique(es: seq<Entry>, id: int, epoch: int, i: nat, j: nat)
    requires Numbered(es, id, epoch) && i < j < |es|
    ensures es[i].Block? && es[j].Block? ==> es[i].id != es[j].id
    ensures es[i].Delimiter? && es[j].Delimiter? ==> es[i].epoch != es[j].epoch
  {
    var last := es[|es| - 1];
    var front, id', epoch' := es[..|es| - 1], if last.Block? then id - 1 else id, if last.Block? then epoch else epoch - 1;
    if j < |es| - 1 {
      NumbersAreUnique(front, id', epoch', i, j);
    } else {
      NumbersAreFresh(front, id', epoch', i);
    }
  }

  lemma OneMoreNumbered(es: seq<Entry>, id: int, epoch: int, e: Entry)
    requires Numbered(es, id, epoch) && (if e.Block? then e.id == id else e.epoch == epoch)
    ensures Numbered(es + [e], if e.Block? then id + 1 else id, if e.Block? then epoch else epoch + 1)
  {
    assert (es + [e])[..|es|] == es;
  }

  lemma OneMorePlanned(es: seq<Entry>, e: Entry)
    ensures TemplateWords(es + [e]) == TemplateWords(es) + (if e.Block? then |e.template.code| else 0)
    ensures BackgroundFillers(es + [e]) == BackgroundFillers(es) + (if e.Block? then |e.fillers| else 0)
  {
    assert (es + [e])[..|es|] == es;
  }

  /** The coordinator runs the epoch the plan is for. */
  ghost predicate Begun(c: Coordinator, arm: Arm, plan: EpochPlan)
    reads c, c.tracker
  {
    && plan.arm == arm && c.tracker != null && c.tracker.arm == arm && c.tracker.target == plan.target
    && c.tracker.covered == c.seen && c.tracker.observed == {} && c.tracker.attributable == {}
    && GoodTarget(arm, CoveredRegisters(c.seen), plan.target)
  }

  class Planner {
    const coordinator: Coordinator
    const scheduler: Scheduler
    const nominal: nat
    /** Template words the scheduler had recorded before this campaign. */
    ghost const earlier: nat
    var nextWord: nat
    var nextIndex: nat
    var nextId: nat
    var nextBoundaryEpoch: nat
    var nextEpochToBegin: nat
    var pending: Option<Entry>
    var active: Option<Entry>
    var epoch: Option<EpochPlan>
    var plannedExecuted: nat
    var terminated: bool
    /** Everything planned so far. */
    ghost var planned: seq<Entry>

    ghost predicate Valid()
      reads this, scheduler
    {
      && nominal > 0 && scheduler.Settled() && Mixed() && Numbered(planned, nextId, nextBoundaryEpoch)
      && Stream(planned) && nextWord == EndOf(planned) && nextIndex == ExecutedBy(planned) + 1
      && (!terminated ==> nextBoundaryEpoch == nextEpochToBegin + (if pending.Some? then 1 else 0))
      && (pending.Some? ==> pending.value.Delimiter? && pending.value.epoch == nextEpochToBegin)
      && (epoch.Some? ==> HasShape(epoch.value.arm, epoch.value.target) && active.Some? && nextEpochToBegin > 0)
      && (epoch.Some? <==> plannedExecuted > 0)
      && plannedExecuted <= nominal + 3
      && (terminated ==> epoch.None? && pending.None?)
      && (epoch.Some? ==> nextIndex == active.value.first + plannedExecuted + (if pending.Some? then 1 else 0))
      && (pending.Some? ==>
            && planned != [] && planned[|planned| - 1] == pending.value && nextIndex == pending.value.first + 1
            && (epoch.Some? ==> Complete()))
    }

    /** The schedule is that of the plan. */
    ghost predicate Mixed()
      reads this, scheduler
    {
      && scheduler.targetedInstructionCount == earlier + TemplateWords(planned)
      && scheduler.scheduledFillerCount == earlier / 4 + BackgroundFillers(planned)
    }

    constructor (coordinator: Coordinator, scheduler: Scheduler, nominal: nat)
      requires nominal > 0 && scheduler.Settled()
      ensures Valid() && epoch.None? && pending.None? && !terminated && planned == [] && nextEpochToBegin == 0
      ensures this.coordinator == coordinator && this.scheduler == scheduler && this.nominal == nominal
      ensures earlier == scheduler.targetedInstructionCount
    {
      earlier := scheduler.targetedInstructionCount;
      this.coordinator := coordinator;
      this.scheduler := scheduler;
      this.nominal := nominal;
      nextWord, nextIndex, nextId := 0, 1, 1;
      nextBoundaryEpoch, nextEpochToBegin := 0, 0;
      pending, active, epoch := None, None, None;
      plannedExecuted := 0;
      terminated := false;
      planned := [];
    }

    predicate Complete()
      reads this
    {
      epoch.Some? && plannedExecuted >= nominal
    }

    /** The delimiter the planner would reserve now. */
    function NextDelimiter(): Entry
      reads this
    {
      Delimiter(nextBoundaryEpoch, nextWord, nextIndex)
    }

    /** Reserves the delimiter of the next epoch; nothing else but the two cursors moves. */
    method PlanNextBoundaryDelimiter() returns (r: Result<Entry, PlannerError>)
      requires Valid()
      modifies `nextWord, `nextIndex, `nextBoundaryEpoch, `pending, `planned
      ensures Valid()
      ensures r.Ok? <==> old(pending).None? && !terminated && (epoch.Some? ==> old(Complete()))
      ensures r.Err? ==> unchanged(this)
      ensures r.Ok? ==>
                && r.value == old(NextDelimiter()) && pending == Some(r.value)
                && planned == old(planned) + [r.value] && nextWord == old(nextWord) + 1 && nextIndex == old(nextIndex) + 1
    {
      hide Planned, Stream, EndOf, ExecutedBy, TemplateWords, BackgroundFillers, Numbered;
      if pending.Some? {
        return Err(BoundaryPending);
      }
      if terminated {
        return Err(CampaignTerminated);
      }
      if epoch.Some? && !Complete() {
        return Err(InsidePayload);
      }
      var delimiter := NextDelimiter();
      DelimiterIsPlanned(delimiter);
      StreamExtends(planned, delimiter);
      OneMorePlanned(planned, delimiter);
      OneMoreNumbered(planned, nextId, nextBoundaryEpoch, delimiter);
      nextWord := nextWord + delimiter.WordCount();
      nextIndex := nextIndex + delimiter.ExecutedCount();
      nextBoundaryEpoch := nextBoundaryEpoch + 1;
      pending := Some(delimiter);
      planned := planned + [delimiter];
      r := Ok(delimiter);
    }

    /** Begins the epoch the pending delimiter was reserved for; its owner is always right. */
    method BeginAtPending(arm: Arm) returns (r: Result<EpochPlan, PlannerError>)
      requires Valid() && coordinator.Valid() && !terminated && epoch.None? && pending.Some?
      modifies `epoch, `active, `pending, `plannedExecuted, `nextEpochToBegin, coordinator
      ensures Valid() && coordinator.Valid() && coordinator.history == old(coordinator.history)
      ensures coordinator.seen == old(coordinator.seen)
      ensures r.Ok? <==> old(coordinator.tracker) == null
      ensures r.Err? ==> epoch.None? && pending == old(pending) && coordinator.tracker == old(coordinator.tracker)
      ensures r.Ok? ==>
                && epoch == Some(r.value) && plannedExecuted == 1 && pending.None? && active == old(pending)
                && Begun(coordinator, arm, r.value) && fresh(coordinator.tracker)
                && nextEpochToBegin == old(nextEpochToBegin) + 1
    {
      hide Stream, EndOf, ExecutedBy, Coordinator.Valid, GoodTarget, HasShape, CoveredRegisters, TemplateWords,
        BackgroundFillers, Numbered;
      assert pending.value.epoch == nextEpochToBegin;
      var target := coordinator.BeginEpoch(arm);
      if target.Err? {
        return Err(EpochRefused(target.error));
      }
      GoodTargetShape(arm, CoveredRegisters(coordinator.seen), target.value);
      epoch := Some(EpochPlan(arm, target.value));
      active := pending;
      pending := None;
      plannedExecuted := active.value.ExecutedCount();
      nextEpochToBegin := nextEpochToBegin + 1;
      r := Ok(epoch.value);
    }

    /** Only the first epoch may reserve its delimiter here; every later one must find it reserved. */
    method BeginEpoch(arm: Arm) returns (r: Result<EpochPlan, PlannerError>)
      requires Valid() && coordinator.Valid()
      modifies this, coordinator
      ensures Valid() && coordinator.Valid() && coordinator.history == old(coordinator.history)
      ensures coordinator.seen == old(coordinator.seen)
      ensures terminated == old(terminated)
      ensures r.Ok? <==>
                && !terminated && old(epoch).None? && (old(pending).Some? || old(nextEpochToBegin) == 0)
                && old(coordinator.tracker) == null
      ensures r.Err? ==> epoch == old(epoch) && coordinator.tracker == old(coordinator.tracker)
      ensures r.Ok? ==>
                && epoch == Some(r.value) && plannedExecuted == 1 && pending.None?
                && Begun(coordinator, arm, r.value) && fresh(coordinator.tracker)
                && nextEpochToBegin == old(nextEpochToBegin) + 1
                && active == Some(if old(pending).Some? then old(pending).value else old(NextDelimiter()))
                && planned == old(planned) + (if old(pending).Some? then [] else [active.value])
    {
      hide Stream, EndOf, ExecutedBy, Coordinator.Valid, Begun, HasShape;
      if terminated {
        return Err(CampaignTerminated);
      }
      if epoch.Some? {
        return Err(AlreadyActive);
      }
      if pending.None? {
        if nextEpochToBegin != 0 {
          return Err(MissingBoundary);
        }
        var first := PlanNextBoundaryDelimiter();
        assert first.Ok?;
      }
      r := BeginAtPending(arm);
    }

    /** One template, with the variant the random source picks, and the filler the schedule has due after it. */
    method MixedBlock() returns (block: Entry)
      requires Valid() && epoch.Some?
      modifies scheduler
      ensures block.Block? && Planned(block)
      ensures block.start == nextWord && block.first == nextIndex && block.id == nextId
      ensures block.template.arm == epoch.value.arm && block.template.target == epoch.value.target
      ensures 2 <= block.ExecutedCount() <= 4 && block.WordCount() <= 5
      ensures scheduler.Settled()
      ensures scheduler.targetedInstructionCount == old(scheduler.targetedInstructionCount) + |block.template.code|
      ensures scheduler.scheduledFillerCount == old(scheduler.scheduledFillerCount) + |block.fillers|
    {
      hide Stream, EndOf, ExecutedBy, Realize, PhysicalPc, LegalVariant, BuildWitnesses, Planned, Legal, RealizedAt, HasShape,
        TemplateWords, BackgroundFillers, Numbered;
      var arm, target := epoch.value.arm, epoch.value.target;
      var variant := PickVariant(arm, PhysicalPc(nextWord));
      var template := RealizeAt(arm, target, variant, nextWord);
      var due := scheduler.ScheduleAfterTemplate(|template.code|);
      // the cumulative schedule never asks for a burst
      assert due.value <= MAX_BACKGROUND_FILLERS_PER_TEMPLATE;
      block := Assemble(nextId, nextWord, nextIndex, template, due.value);
    }

    /** Plans one block of a template and the filler due after it. */
    method BuildNextBlock() returns (r: Result<Entry, PlannerError>)
      requires Valid()
      modifies `nextWord, `nextIndex, `nextId, `plannedExecuted, `planned, scheduler
      ensures Valid()
      ensures r.Ok? <==> !terminated && epoch.Some? && !old(Complete())
      ensures r.Err? ==> unchanged(this)
      ensures r.Ok? ==>
                && r.value.Block? && Planned(r.value) && planned == old(planned) + [r.value]
                && r.value.start == old(nextWord) && r.value.first == old(nextIndex) && r.value.id == old(nextId)
                && r.value.template.arm == epoch.value.arm && r.value.template.target == epoch.value.target
                && plannedExecuted == old(plannedExecuted) + r.value.ExecutedCount() >= old(plannedExecuted) + 2
                && old(plannedExecuted) < nominal && plannedExecuted <= nominal + 3
                && |r.value.fillers|
                   == (earlier + TemplateWords(planned)) / 4 - (earlier + TemplateWords(old(planned))) / 4
                && r.value.WordCount() <= 5
    {
      hide Stream, EndOf, ExecutedBy, Planned, Legal, HasShape, TemplateWords, BackgroundFillers, Numbered;
      if terminated {
        return Err(CampaignTerminated);
      }
      if epoch.None? {
        return Err(NotActive);
      }
      if Complete() {
        return Err(PlanComplete);
      }
      var block := MixedBlock();
      StreamExtends(planned, block);
      OneMorePlanned(planned, block);
      OneMoreNumbered(planned, nextId, nextBoundaryEpoch, block);
      nextWord := nextWord + block.WordCount();
      nextIndex := nextIndex + block.ExecutedCount();
      nextId := nextId + 1;
      plannedExecuted := plannedExecuted + block.ExecutedCount();
      planned := planned + [block];
      r := Ok(block);
    }

    /** Closes the planner's side of a completely planned epoch. */
    method ClosePlanningEpoch() returns (r: Result<(), PlannerError>)
      requires Valid()
      modifies `epoch, `active, `plannedExecuted
      ensures Valid()
      ensures r.Ok? <==> !terminated && old(Complete())
      ensures r.Ok? ==> epoch.None? && nominal <= old(plannedExecuted) <= nominal + 3
      ensures r.Err? ==> unchanged(this)
    {
      hide Stream, TemplateWords, BackgroundFillers, Numbered;
      if terminated {
        return Err(CampaignTerminated);
      }
      if epoch.None? {
        return Err(NotActive);
      }
      if !Complete() {
        return Err(NotComplete);
      }
      epoch, active, plannedExecuted := None, None, 0;
      r := Ok(());
    }

    /** Ends planning for good; the cursors and the plan stay. */
    method TerminateCampaignPlanning() returns (r: Result<(), PlannerError>)
      requires Valid()
      modifies `epoch, `active, `pending, `plannedExecuted, `terminated
      ensures Valid()
      ensures r.Ok? <==> !old(terminated) && (old(epoch).Some? || old(pending).Some? || nextEpochToBegin > 0)
      ensures r.Ok? ==> terminated && epoch.None? && pending.None?
      ensures r.Err? ==> unchanged(this)
    {
      hide Stream, TemplateWords, BackgroundFillers, Numbered;
      if terminated {
        return Err(CampaignTerminated);
      }
      if epoch.None? && pending.None? && nextEpochToBegin == 0 {
        return Err(NothingBegun);
      }
      epoch, active, plannedExecuted := None, None, 0;
      pending := None;
      terminated := true;
      r := Ok(());
    }
  }

  /** Four template words to one filler, at every point of the plan. */
  lemma PlanIsMixed(p: Planner)
    requires p.Valid()
    ensures BackgroundFillers(p.planned) == (p.earlier + TemplateWords(p.planned)) / 4 - p.earlier / 4
  {
    hide Planned, Stream;
  }

  /** A filler reads nothing and leaves the target registers alone. */
  lemma FillersStayOut(e: Entry, f: Instr)
    requires Planned(e) && e.Block? && f in e.fillers
    ensures f.Lui? && f.imm20 == 0x13579 && 1 <= f.rd <= 31
    ensures Some(f.rd) != e.template.target.d1 && Some(f.rd) != e.template.target.d2
  {
    hide Realize, LegalVariant, BuildWitnesses, PhysicalPc;
  }

  lemma GoodTargetShape(arm: Arm, c: Covered, t: Target)
    requires GoodTarget(arm, c, t)
    ensures HasShape(arm, t)
  {
  }

  lemma DelimiterIsPlanned(e: Entry)
    requires e.Delimiter?
    ensures Planned(e) && e.WordCount() == 1 && e.ExecutedCount() == 1
  {
  }

  /** The random source's choice among the legal variants. */
  method PickVariant(arm: Arm, pc: nat) returns (v: Variant)
    ensures LegalVariant(arm, pc, v)
  {
    VariantExists(arm, pc);
    v :| LegalVariant(arm, pc, v);
  }

  lemma VariantExists(arm: Arm, pc: nat)
    ensures exists v :: LegalVariant(arm, pc, v)
  {
    var v := match arm case A4 => DUAL case A5 => LUI_V case A6 => LUI_V case A7 => JAL_V
                       case A8 => STORE_DATA case A9 => PRIORITY case _ => RS1;
    assert LegalVariant(arm, pc, v);
  }

  function RealizeAt(arm: Arm, target: Target, v: Variant, start: nat): (t: Template)
    requires HasShape(arm, target) && LegalVariant(arm, PhysicalPc(start), v)
    ensures Realize(arm, target, v, PhysicalPc(start)) == Ok(t) && RealizedAt(t, start)
    ensures t.arm == arm && t.target == target && t.variant == v && 2 <= |t.code| <= 4
  {
    Realize(arm, target, v, PhysicalPc(start)).value
  }

  lemma WitnessesExist(t: Template, start: nat, id: nat, first: nat)
    requires RealizedAt(t, start)
    ensures BuildWitnesses(t, id, first).Some?
  {
    hide RealizedAt, BuildWitnesses, KeysThrough, AllLegal;
    EveryArm(t, start, id, first, map[]);
  }

  /** A template with its due fillers and its witnesses, which always exist. */
  method Assemble(id: nat, start: nat, first: nat, t: Template, due: nat) returns (e: Entry)
    requires RealizedAt(t, start) && due <= MAX_BACKGROUND_FILLERS_PER_TEMPLATE
    ensures Planned(e) && e.Block? && e.id == id && e.start == start && e.first == first && e.template == t
    ensures |e.fillers| == due && 2 <= e.ExecutedCount() && e.WordCount() <= MAX_STREAM_BLOCK_WORDS
    ensures e.ExecutedCount() <= 4
  {
    hide Realize, PhysicalPc, LegalVariant, BuildWitnesses, Planned, RealizedAt;
    BackgroundFillerExists(t.target);
    var filler := FillerInstr(PositiveTargets(t.target)).value;
    WitnessesExist(t, start, id, first);
    var witnesses := BuildWitnesses(t, id, first).value;
    e := Block(id, start, first, t, if due == 0 then [] else [filler], witnesses);
    BlockIsPlanned(e);
    BlockBounds(e);
  }

  lemma BlockIsPlanned(e: Entry)
    requires e.Block? && RealizedAt(e.template, e.start) && |e.fillers| <= 1
    requires forall f | f in e.fillers :: Some(f) == FillerInstr(PositiveTargets(e.template.target))
    requires BuildWitnesses(e.template, e.id, e.first) == Some(e.provenance)
    ensures Planned(e)
  {
    hide Realize, LegalVariant, BuildWitnesses, PhysicalPc, FillerInstr, PositiveTargets;
  }
}
