/** Admission of one planned entry at a time, decided before the planner moves. */
module IntraEpochFeeder {
  import opened Wrappers
  import opened Rv32Isa
  import opened StreamPlan
  import opened StreamPlanner

  const EBD_RESERVE_WORDS := 1

  datatype FeederError = BadFreeWords | BadBudget | NoActiveEpoch

  /** The free words without which no payload block may be planned. */
  function RefillThreshold(preseed: bool): nat {
    MAX_STREAM_BLOCK_WORDS + (if preseed then EBD_RESERVE_WORDS else 0)
  }

  /** The payload is complete and the next delimiter may be reserved now. */
  predicate DelimiterDue(p: Planner, free: int, preseed: bool, budget: Option<int>)
    reads p
  {
    && p.Complete() && preseed && p.pending.None? && free >= 1
    && (budget.Some? ==> p.nextIndex <= budget.value)
  }

  /**
   Plans at most one entry. What it plans always fits; a payload block leaves
   room for the delimiter that follows it; no delimiter starts past the budget.
   The planner moves exactly when an entry is returned.
   */
  method PlanNextCapacitySafeEntry(p: Planner, free: int, preseed: bool, budget: Option<int>)
    returns (r: Result<Option<Entry>, FeederError>)
    requires p.Valid()
    modifies p, p.scheduler
    ensures p.Valid()
    ensures r == Err(BadFreeWords) <==> !(0 <= free <= 128)
    ensures r == Err(BadBudget) <==> 0 <= free <= 128 && budget.Some? && budget.value <= 0
    ensures r == Err(NoActiveEpoch) <==>
              0 <= free <= 128 && (budget.Some? ==> budget.value > 0) && old(p.epoch).None?
    ensures p.epoch == old(p.epoch) && p.active == old(p.active) && p.terminated == old(p.terminated)
    ensures p.nextEpochToBegin == old(p.nextEpochToBegin)
    ensures r.Ok? ==>
              (r.value.Some? <==>
                 old(DelimiterDue(p, free, preseed, budget)) || (!old(p.Complete()) && free >= (if preseed then 6 else 5)))
    ensures r.Ok? && r.value.Some? ==>
              var e := r.value.value;
              && Planned(e) && p.planned == old(p.planned) + [e]
              && e.start == old(p.nextWord) && e.first == old(p.nextIndex)
              && (e.Delimiter? <==> old(p.Complete()))
              && (e.Delimiter? ==> e.WordCount() == 1 <= free && (budget.Some? ==> e.first <= budget.value))
              && (e.Block? ==>
                    && e.WordCount() + (if preseed then 1 else 0) <= free
                    && p.epoch.Some? && e.template.arm == p.epoch.value.arm && e.template.target == p.epoch.value.target
                    && p.plannedExecuted >= old(p.plannedExecuted) + 2)
    ensures (r.Err? || r.value.None?) ==> p.planned == old(p.planned) && p.nextWord == old(p.nextWord)
    ensures r.Err? || r.value.None? || r.value.value.Delimiter? ==> p.plannedExecuted == old(p.plannedExecuted)
  {
    hide Planner.Valid, Planned;
    if !(0 <= free <= IMEM_WORD_CAPACITY) {
      return Err(BadFreeWords);
    }
    if budget.Some? && budget.value <= 0 {
      return Err(BadBudget);
    }
    if p.epoch.None? {
      return Err(NoActiveEpoch);
    }
    NotTerminated(p);
    if p.Complete() {
      if !preseed || p.pending.Some? {
        return Ok(None);
      }
      if budget.Some? && p.nextIndex > budget.value {
        return Ok(None);
      }
      if free < EBD_RESERVE_WORDS {
        return Ok(None);
      }
      var delimiter := p.PlanNextBoundaryDelimiter();
      DelimiterIsPlanned(delimiter.value);
      assert delimiter.value.WordCount() == EBD_RESERVE_WORDS <= free;
      assert budget.Some? ==> delimiter.value.first <= budget.value;
      return Ok(Some(delimiter.value));
    }
    if free < RefillThreshold(preseed) {
      return Ok(None);
    }
    var block := p.BuildNextBlock();
    assert block.value.WordCount() <= MAX_STREAM_BLOCK_WORDS;
    assert block.value.WordCount() <= free - (if preseed then EBD_RESERVE_WORDS else 0);
    r := Ok(Some(block.value));
  }

  lemma NotTerminated(p: Planner)
    requires p.Valid() && p.epoch.Some?
    ensures !p.terminated
  {
    hide Planned;
  }
}
