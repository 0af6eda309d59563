# Adaptive coverage harness for an RV32I pipeline, modelled and proved in Dafny

The harness drives a five-stage RV32I pipeline with an unbounded stream of planned
instructions through a 512-byte instruction memory, and judges every accepted
instruction: was it fetched and timed as expected, which hazard and dependency bins
did it hit, was the hit realized, and which planned dependency does it belong to.
This project models the pure state machines of that harness, the pipeline being an
event stream, and proves what they promise each other.

`dafny verify dfyconfig.toml` checks everything.

## How the model is laid out

* **Instruction set.** `Rv32Isa`, `Rv32RoundTrip`, `ArchitecturalModel`: encoder, decoder
  and the interpreter, over the formats of chapter 2 of the RISC-V Instruction Set
  Manual, Volume I (Unprivileged ISA). `Assembler` is the bit-string assembler.
* **Timing.** `TimingTrace` defines acceptance, stalls and forwarding over a trace of
  executed instructions, without any oracle. The streaming oracle, the batch schedule
  (`TimingOracle`, `TimingRefinement`) and the distance-based oracle (`TimingOracleV0`)
  are each compared with it.
* **Hazards and dependencies.** `L1Coverage`, `Realization` and `L2Coverage` are the
  three-deep hazard classifier, the fixed control table and the last-writer collector.
  `Hazards` says what each of the twenty bins means on an executed trace, `Judgement` what
  the checker accepts of arbitrary observed control. `ObservedRuns` states the agreement
  with the timing oracle for every program.
* **Plan.** `Templates`, `StreamPlan`, `Provenance` and `Campaign`: templates of the ten
  arms, planned entries, their dependencies, and the plan as the instruction set
  executes it. `ArmHazards` says which hazard bin each arm and variant hits, in any plan. A
  random draw is any legal choice.
* **Window.** `WrapAwareOracle`, `WindowRuns`, `StreamWindow`, `RuntimeWindow` and
  `Attribution`: the wrapping oracle, the program ring, the accepted-stream tracker, the
  window over both, and the witness registry.
* **Epochs.** `RegisterPolicy`, `Epochs`, `StreamPlanner`, `IntraEpochFeeder`: target
  selection, rewards, the epoch coordinator, the planner and the capacity feeder.
* **The composed campaign.** `CampaignStep`, `CampaignState`, `CampaignRewards`,
  `CampaignMachine` and `CampaignRun` put all of these into one machine, moved in the
  order the drivers fix, and run it from nothing to exactly n accepted instructions.
* **Inputs that fail.** `FailingRuns` runs short programs on which a promise fails, the other
  side of a condition proved for all runs.
* **Evidence.** `L2Evidence`, `L2Checker` and `LiveCoverage` join evidence that arrives in
  any order; `RetireMonitor`, `Monitors` and `FunctionalScoreboards` are the retirement
  monitor and the streaming monitors beside the batch ones.

An object whose methods update fields in the source is a class here; a raised exception
is an `Err` result, and a contract says exactly when it occurs. A method that is compared
with whole runs promises that its new state is a function of the old one, and the lemmas
are about that function.

## What turned out to hold only under a condition

* The enqueue check of the tracker adds whole entries to a cursor that already moved into
  the first of them. It is right exactly at entry boundaries; inside an entry it refuses
  the true continuation and takes a gap (`Tracker.ValidateEnqueue`, `Tracker.Enqueue`;
  `FailingRuns.RefusedInsideEntry`).
* The wrapping oracle answers as the unbounded image exactly while no step is taken a lap
  ahead of the release cursor onto a slot that is still resident; there it emits the old
  word again (`WindowRuns.RefinesExactlyWhenClear`, `WindowRuns.LapAhead`). The campaign
  never gets there (`WindowRuns.WindowRunsThePlan`).
* Eight of the twenty fixed control rows pass, with all as timed, only under a condition on the instructions
  before the consumer (`RealizationTheorem.TableAgreesWithOracle`; programs that fail are
  `FailingRuns.RedirectedMiddle`, `WaitingMiddle`, `WaitingConsumer` and `NewestIsLoad`).
* The distance-based oracle gives the wrong forwarding path exactly for an operand from a
  load two back that the instruction between also waited for
  (`TimingOracleV0.V0Characterised`, `FailingRuns.SharedLoadDisagrees`).
* The assembler checks a symmetric range, drops the lowest bit of branch and jump offsets
  and wraps negative upper immediates; it agrees with the encoder exactly on even offsets
  and non-negative upper immediates (`TextAssembler.AgreesWithEncoder`,
  `FailingRuns.AssemblerTakesMore`).
* The checker counts an attempt before it may raise, so attempts are conserved over calls
  that return (`L2EvidenceChecker.Checker.RegisterHit`).
* The batch scoreboard accepts a store observation of an instruction that has already
  retired; the streaming one refuses it. They agree exactly on runs whose calls are in
  order (`FunctionalScoreboards.SameVerdicts`, `FunctionalScoreboards.LateStore`). The
  performance monitors agree under the same kind of order (`PerformanceMonitors.SameResults`).
* A hit that reaches the live join after its consumer retired is resolved exactly if another
  hit of that consumer is unresolved; otherwise the retirement is already forgotten
  (`JoinRuns.LateIntentResolves`, `JoinRuns.LateIntentIsStranded`).
* Pruning the checker's evidence changes no answer as long as hits are registered before a
  prune has passed their consumer (`EvidenceRuns.StreamPruneIsTransparent`).

## Model

| member | source | states |
|---|---|---|
| CampaignRun.RunCampaign | research/week10/rtl/test_adaptive_campaign.py:4381-5460 | from an empty window and no coverage, a campaign reaches exactly n accepted instructions for any arms, variants, stalls, forwarding and ring capacity of at least six; the oracle named the planned instructions one by one, the hits were exactly the planned dependencies ending in them, after the stop nothing is resident or pending, the plan carries one background filler for every four template words, the epochs were divided by n instructions in all, and the rewards times their denominators add up to the covered bins, at most 62 |
| CampaignRun.RunTo | research/week10/rtl/test_adaptive_campaign.py:4715-5175 | from any sound state the machine terminates at exactly n accepted instructions, having executed the plan and hit its dependencies and no others |
| CampaignRun.Move | research/week10/rtl/test_adaptive_campaign.py:4715-4815 | every move keeps the machine sound, and one that accepts nothing fills the ring or ends an epoch: a drained ring always makes progress |
| CampaignRun.CampaignBooks | research/week10/adaptive/reward_engine.py:330-405 | at every point of a campaign the finished epochs were rewarded for exactly the bins they covered, once each |
| CampaignRun.CampaignCloses | research/week10/adaptive/register_policy.py:179-253 | after 31 epochs of D1 arms the running campaign has covered every register at distance one, of D2 arms at distance two |
| CampaignMachine.Campaign.Accept | research/week10/adaptive/campaign_runner.py:1368-1419 | one accepted instruction, whatever its stalls and forwarding: it is refused exactly if it is not the planned one, and then the oracle alone has moved; otherwise planner, ring, tracker, registry, wrapping oracle and collector stay at the same place of the plan, its hits are exactly the resident planned dependencies ending in it, each is attributed, and a completed template has earned all bins of its arm |
| CampaignMachine.Campaign.Refill | research/week10/adaptive/intra_epoch_feeder.py:95-280 | at an entry boundary exactly the entries the capacity rule allows are planned, and what is planned is admitted by ring, tracker, registry and oracle |
| CampaignMachine.Campaign.Admit | research/week10/adaptive/campaign_runner.py:1329-1366 | patching, mirroring and committing a freshly planned entry never fails |
| CampaignMachine.Campaign.TurnEpoch | research/week10/rtl/test_adaptive_campaign.py:5320-5365 | when as many instructions were accepted as the epoch planned, the next delimiter is all that is resident; the epoch is divided by exactly those instructions, its global new coverage equals the attributed one, it was productive if its nominal size is at least two, and the next epoch begins |
| CampaignMachine.AcceptedWithinPlan | research/week10/rtl/test_adaptive_campaign.py:5320-5341 | at every point the running epoch was accepted no further than it planned and the delimiter after it, and exactly that far when nothing is resident |
| CampaignMachine.KeysAreUnique | research/week10/adaptive/campaign_runner.py:1957-2085 | template instances and boundary epochs are numbered so that no two entries of a plan share a key |
| CampaignMachine.Campaign.Stop | research/week10/adaptive/campaign_runner.py:1421-1640 | stopping after any instruction, also inside an entry, conserves: accepted plus discarded is the plan, reclaimed words are the append minus the release cursor, every discarded witness ends later, and the last epoch settles over what it executed, so that all epochs together executed what was accepted |
| CampaignMachine.Campaign.constructor | research/week10/adaptive/campaign_runner.py:1275-1312 | the machine starts sound with the first delimiter resident everywhere |
| CampaignRewards.CompletedEarns | research/week10/adaptive/provenance.py:146-313 | a template whose instructions were all executed has every bin of its arm attributed |
| CampaignRewards.AllRewarded | research/week10/adaptive/reward_engine.py:330-405 | without incidental coverage the rewards add up to the growth of coverage exactly |
| CampaignRewards.Closes | research/week10/adaptive/register_policy.py:179-253 | a coordinator whose epochs were all productive has saturated a distance after 31 of its arms |
| WindowRuns.WindowRefinesImage | research/week10/adaptive/wrap_aware_timing_oracle.py:218-477 | any interleaving of appends, releases and steps with the cursor in the window emits what the same timing rules emit on the unbounded image |
| WindowRuns.RefinesExactlyWhenClear | research/week10/adaptive/wrap_aware_timing_oracle.py:126-477 | over any interleaving that frees only executed or flushed words, every step answers as the unbounded image does exactly if none is taken a lap ahead of the release cursor onto a slot still resident; then the outputs are those of the image |
| WindowRuns.AnswersExactlyWhenClear | research/week10/adaptive/wrap_aware_timing_oracle.py:126-152 | the same of one step, refusals included |
| WindowRuns.LapAhead | research/week10/adaptive/wrap_aware_timing_oracle.py:126-152 | 128 delimiters executed with nothing freed: the next step emits word zero again where the unbounded program has ended |
| WindowRuns.WindowRunsThePlan | research/week10/adaptive/wrap_aware_timing_oracle.py:218-477 | a planned stream run through 128 words, freeing only executed or flushed words, names the planned instructions in order and never leaves the window |
| WindowRuns.ProgramIsUnique | research/week10/adaptive/wrap_aware_timing_oracle.py:41-124 | the physical program is determined by the image and the release cursor |
| UnboundedProgram.WindowStep | research/week9/benchmark/streaming_timing.py:107-309 | one step of the wrapping oracle is one step over the unbounded image, errors included |
| UnboundedProgram.SameFetch | research/week10/adaptive/wrap_aware_timing_oracle.py:126-152 | within a lap of the release cursor the physical slot answers as the logical word does, also where neither has a word |
| UnboundedProgram.StepStaysSynced | research/week10/adaptive/wrap_aware_architectural_model.py:80-133 | truncating the next fetch to nine bits is moving the logical cursor modulo 512 |
| WrapAwareOracle.Oracle.AppendProgram | research/week10/adaptive/wrap_aware_timing_oracle.py:218-341 | exactly which fragments are accepted; an accepted one extends the image in logical order, a refused one changes nothing |
| WrapAwareOracle.Oracle.ReleaseLogicalWords | research/week10/adaptive/wrap_aware_timing_oracle.py:343-477 | exactly which releases are accepted; the corruption errors are unreachable and residents stay the words from release to append cursor |
| WrapAwareOracle.Oracle.NextExpectation | research/week10/adaptive/wrap_aware_timing_oracle.py:41-57 | the inherited step, tied to the unbounded reference whenever the cursor is in the window |
| WrapAwareOracle.ValidateFragment | research/week10/adaptive/wrap_aware_timing_oracle.py:480-524 | accepts exactly fragments whose slots are those of consecutive words, and says why not |
| WrapAwareOracle.SlotIsFree | research/week10/adaptive/wrap_aware_timing_oracle.py:218-341 | a physical slot is unowned exactly when its next logical word still fits the window |
| WrapAwareOracle.SlotsAreDistinct | research/week10/adaptive/campaign_runner.py:93-118 | up to 128 consecutive logical words never share a slot |
| WrapAwareOracle.ResidentCount | research/week10/adaptive/wrap_aware_timing_oracle.py:154-171 | residents number the append minus the release cursor, at most 128 |
| PlanRun.RunFollowsPlan | research/week10/adaptive/campaign_runner.py:1957-2085 | from reset the instruction set executes exactly the planned words of any planned stream, in order, flushed words and delimiters included |
| PlanRun.StreamLayout | research/week10/adaptive/campaign_runner.py:396-470 | every planned instruction is where the image says, numbered consecutively, and leads to the next |
| PlanRun.FlowStep | research/week5/impl/architectural_model.py:223-456 | planned control flow does not depend on register contents |
| PlanRun.DelimiterWord | research/week10/adaptive/campaign_runner.py:52-69 | the planned delimiter encodes to the frozen boundary word |
| HitsAreWitnesses.EveryArm | research/week10/adaptive/template_realizer.py:421-943 | each of the ten arms makes exactly the dependencies it declares, from any writer history |
| HitsAreWitnesses.EntryMakesItsWitnesses | research/week10/adaptive/provenance.py:146-313 | executing one planned entry, fillers included, makes its witnesses' dependencies and no other |
| HitsAreWitnesses.PlanMakesItsWitnesses | research/week10/adaptive/provenance.py:146-313 | so does every planned stream |
| HitsAreWitnesses.CutMakesExecutedWitnesses | research/week10/adaptive/provenance.py:518-582 | stopping anywhere leaves exactly the dependencies whose consumer was executed |
| CampaignCoverage.CampaignHitsAreWitnesses | research/week5/impl/coverage_model.py:117-188 | over any cut of a planned stream the collector reports exactly the planned witness keys, in order |
| CampaignCoverage.WindowedCampaign | research/week10/adaptive/wrap_aware_timing_oracle.py:218-477 | the same through the 128-word window, for events that report what the oracle expects |
| CampaignStep.EventHitsArePlanned | research/week10/adaptive/provenance.py:421-464 | the dependencies of instruction n are the planned keys ending at n |
| CampaignStep.WitnessBins | research/week10/adaptive/reward_engine.py:46-119 | the bins of a template's witnesses are exactly the bins its arm may be rewarded for |
| CampaignStep.PlannedIsAdmitted | research/week10/adaptive/campaign_runner.py:2087-2116 | in its own epoch a planned entry's witnesses are always registered |
| CampaignStep.AcceptEvent | research/week10/adaptive/campaign_runner.py:1368-1419 | with the planned hits of one event, each consumes its own witness and the prune that follows finds nothing |
| CampaignState.NextHits | research/week5/impl/coverage_model.py:117-188 | the collector's hits for the next planned instruction are the resident planned keys ending there |
| CampaignState.PlanGrows | research/week10/adaptive/campaign_runner.py:1957-2085 | planning more leaves executed instructions and ended dependencies as they were |
| TimingRefinement.StreamingRefinesBatch | research/week7/timing_oracle_v1.py:235-462 | the n-th streaming expectation is the n-th of the batch schedule, and there the stream runs off the program as the batch did |
| TimingRefinement.StreamRunIsTimed | research/week9/benchmark/streaming_timing.py:107-309 | on every program the emitted expectations are the timing of the trace they execute: producers, ages, stalls and forwarding |
| TimingRefinement.AcceptanceFormula | research/week9/benchmark/streaming_timing.py:107-309 | acceptance is one cycle an instruction, one a stall, two a redirect |
| TimingTrace.AcceptClosedForm | research/week7/timing_oracle_v1.py:294-462 | the same closed form over traces |
| TimingOracle.BuildTimingSchedule | research/week7/timing_oracle_v1.py:235-462 | the loop returns the run of the streaming steps to the end of the program, or stops for the reason they stop |
| TimingOracle.StreamingOracle.NextExpectation | research/week9/benchmark/streaming_timing.py:107-309 | one step of the reference, with everything unchanged on an error |
| TimingOracle.StreamingOracle.ObserveAccept | research/week9/benchmark/streaming_timing.py:311-358 | compares identity after stepping; the oracle has advanced even when it refuses |
| TimingOracle.ErrorsUnreachable | research/week9/benchmark/streaming_timing.py:126-237 | no producer age is non-positive and no load is consumed at age one after the stall |
| TimingOracleV0.V0Characterised | research/week6/timing_oracle.py:183-375 | on every accepted sequence stalls agree, and each forwarding path agrees exactly when the operand is not a shared load |
| TimingOracleV0.BuildTimingExpectations | research/week6/timing_oracle.py:391-402 | a fresh oracle refuses exactly the sequences that are not accepted, and of an accepted one every stall is that of the cycle-accurate timing and every path unless its operand is a shared load |
| TimingOracleV0.RefusalMeans | research/week6/timing_oracle.py:183-375 | over a trace: which instructions are refused and why, by the last writers at distance one and two and their kinds |
| TimingOracleV0.AcceptedMeans | research/week6/timing_oracle.py:183-402 | a sequence is accepted exactly if no instruction of it is refused over its trace |
| TimingOracleV0.NearestIsLast | research/week6/timing_oracle.py:142-162 | the two-deep search finds the last writer at distance at most two |
| TimingOracleV0.Oracle.Observe | research/week6/timing_oracle.py:183-389 | times or refuses one instruction by the recorded rules; a refusal leaves the history alone |
| RealizationTheorem.TableAgreesWithOracle | research/week5/impl/realization_checker.py:71-370 | for every bin and executed trace the checker raises nothing and passes the hit exactly under the bin's condition |
| RealizationTheorem.NearestIsLastWriter | research/week5/impl/l1_coverage.py:93-135 | the three-deep nearest writer is the unbounded last writer at distance at most three |
| RealizationChecker.Check | research/week5/impl/realization_checker.py:163-370 | the checks of one hit in order, or the error of the first that cannot be made; what they demand is stated by Judgement.ControlIsJudged |
| Judgement.ControlIsJudged | research/week5/impl/realization_checker.py:71-370 | over an executed trace with arbitrary observed control no check of a hit is refused; where the bin is realizable the hit passes exactly if the stall and the path of every matched operand are those of the timing, for H19 and H20 the stall alone |
| Judgement.RealizableInNumbers | research/week5/impl/realization_checker.py:71-160 | a bin is realizable exactly where the timing of the trace has the stall and the numbered forwarding paths that its row fixes |
| Judgement.ClassifyAndCheck | research/week5/impl/l1_coverage.py:167-502 | a fresh collector and the checker over the events of any executed trace, whatever control was observed: exactly the hazards of every instruction are reported, once each, and every hit is judged by what was shown |
| TimingTrace.PathByDistance | research/week9/benchmark/streaming_timing.py:126-237 | an operand comes from EX/MEM exactly if the instruction before wrote it, no load and no jump; from MEM/WB if that one is a load, or if its writer stands one further back with no bubble between the three |
| L1Coverage.Collector.Observe | research/week5/impl/l1_coverage.py:167-502 | the hits are those of all twenty bins, each counted once, and the window slides; out of order nothing changes. When a bin is hit is stated by Hazards.HitsMean |
| Hazards.HitsMean | research/week5/impl/l1_coverage.py:167-502 | over an executed trace the collector's hits at an instruction are exactly the hazards it shows, with their producers and operands: each of the twenty bins by last writers, producer types, operands, x0 and the raw rs2 field |
| Hazards.BinMeans | research/week5/impl/l1_coverage.py:167-502 | the same of one bin, in both directions |
| ObservedRuns.RunIsExecuted | research/week9/benchmark/streaming_timing.py:311-358 | events observed as expected are an executed trace |
| ObservedRuns.ControlTableOnEveryProgram | research/week5/impl/realization_checker.py:71-370 | the table's exact conditions, for every program the oracle runs |
| ObservedRuns.SourceControlOnEveryProgram | research/week10/l2_realization.py:115-217 | on every program each L2 hit names the producer the oracle times and passes its control check |
| FailingRuns.RedirectedMiddle | research/week5/impl/realization_checker.py:71-370 | a program from reset whose H03 hit fails although all is as timed: a jump stands between |
| FailingRuns.WaitingMiddle | research/week5/impl/realization_checker.py:71-370 | one whose H08 hit fails: the instruction between waited for the same load |
| FailingRuns.WaitingConsumer | research/week5/impl/realization_checker.py:71-370 | one whose H05 hit fails: the consumer waits for its other operand |
| FailingRuns.NewestIsLoad | research/week5/impl/realization_checker.py:71-370 | one whose H17 hit fails: the newer writer is a load |
| FailingRuns.SharedLoadDisagrees | research/week6/timing_oracle.py:183-375 | a load consumed by the next two instructions: accepted by the distance-based oracle, with a forwarding path that the cycle-accurate timing does not give |
| FailingRuns.AssemblerTakesMore | verif/assembler.py:346-516 | an odd jump offset and a negative upper immediate that the assembler takes and the encoder refuses |
| FailingRuns.RefusedInsideEntry | research/week10/adaptive/campaign_runner.py:943-1007 | a tracker reached by one enqueue and one observation refuses the entry that really follows |
| DependencyViews.ProducersAgree | research/week10/l2_realization.py:115-217 | the collector's producer is the oracle's for every role, and a hit passes exactly when stall and matching forwards are as timed |
| DependencyViews.CollectedExactly | research/week5/impl/coverage_model.py:117-188 | on any executed trace a register is reported exactly if the instruction reads it, it is not x0, and one of the two instructions before is its last writer |
| L2Coverage.Collector.Observe | research/week5/impl/coverage_model.py:117-188 | reads before it writes, counts exactly the bins hit, changes nothing out of order |
| L2Coverage.BinIndexInjective | research/week5/impl/coverage_model.py:15-33 | distinct dependencies have distinct bins |
| L2Coverage.BinsInOrder | research/week5/impl/coverage_model.py:15-33 | distance one takes bins 0 to 30 and distance two 31 to 61, both in the order of the registers |
| Rv32RoundTrip.EncodeDecode | research/week5/impl/rv32_encode.py:15-209 | the encoder accepts exactly the legal operands and the decoder recovers them, B and J scrambling included |
| Rv32RoundTrip.DecodeEncode | research/week5/impl/isa_decode.py:82-212 | every word of the exact subset is the encoding of what it decodes to |
| Rv32RoundTrip.DecodedIsExact | research/week5/impl/isa_decode.py:64-212 | the flags of a decoded record are those of its mnemonic |
| Rv32RoundTrip.KnownDataWords | research/week5/impl/rv32_encode.py:15-209 | the words of one ADD, ADDI, LW and SW, bit for bit |
| Rv32RoundTrip.KnownUpperAndJumpWords | research/week5/impl/rv32_encode.py:15-209 | those of one LUI, AUIPC, JAL and JALR |
| Rv32RoundTrip.KnownBranchWords | research/week5/impl/rv32_encode.py:15-209 | those of the six branches |
| ArchitecturalModel.RawEffectAgrees | research/week5/impl/architectural_model.py:223-456 | the interpreter of raw fields accepts what the decoder accepts and does the same |
| ArchitecturalModel.Model.Step | research/week5/impl/architectural_model.py:210-456 | one event moves the model by the decoded instruction's meaning; refused events change nothing |
| ArchitecturalModel.ReadAfterWrite | research/week5/impl/architectural_model.py:174-208 | a stored word is read back, also across the top of memory |
| ArchitecturalModel.LowestByteFirst | research/week5/impl/architectural_model.py:174-208 | a stored word lies lowest byte first, and no other byte changes |
| ArchitecturalModel.UnwrittenIsZero | research/week5/impl/architectural_model.py:174-208 | memory that was never written reads as zero |
| ArchitecturalModel.SignedOrder | research/week5/impl/architectural_model.py:344-347 | BLT and BGE order words by sign bit and then magnitude, BLTU and BGEU by magnitude alone |
| ArchitecturalModel.RecordTellsChange | research/week5/impl/architectural_model.py:210-456 | the record of a step is all that changed: one register and never x0, one stored word, the next fetch PC |
| ArchitecturalModel.PcStaysEven | research/week5/impl/architectural_model.py:223-456 | instruction addresses stay even, JALR through any register content included |
| TextAssembler.TranslateInstruction | verif/assembler.py:346-516 | accepts exactly the checked operands and yields the 32 bits of the instruction it means |
| TextAssembler.AgreesWithEncoder | verif/assembler.py:346-516 | agrees with the arithmetic encoder exactly on even offsets and non-negative upper immediates |
| BitStrings.NegativeToTwosComplement | verif/assembler.py:304-322 | the ripple-carry loop computes the two's complement |
| BitStrings.Sbin | verif/assembler.py:325-332 | a signed decimal becomes a bit string of that signed value |
| Attribution.Registry.RegisterMany | research/week10/adaptive/provenance.py:384-419 | all or none, exactly when keys are distinct and new |
| Attribution.Registry.ConsumeMatch | research/week10/adaptive/provenance.py:421-464 | takes out the witness with exactly this key, else nothing |
| Attribution.Registry.Prune | research/week10/adaptive/provenance.py:466-516 | drops exactly the witnesses whose consumer is not future, and counts them |
| Attribution.Registry.DiscardFutureAfter | research/week10/adaptive/provenance.py:518-582 | empties the registry exactly if every pending consumer is later |
| StreamWindow.Tracker.ValidateEnqueue | research/week10/adaptive/campaign_runner.py:943-995 | exactly what it accepts and which error it gives otherwise; right at entry boundaries, and it refuses the true continuation inside an entry |
| StreamWindow.Tracker.Enqueue | research/week10/adaptive/campaign_runner.py:997-1007 | enqueues exactly what the check accepts; the tracker stays sound exactly at an entry boundary, for inside an entry the check accepts a gap |
| StreamWindow.Tracker.Observe | research/week10/adaptive/campaign_runner.py:1009-1131 | accepts exactly the next planned execution; completed ranges tile the accepted instructions from one without gap or overlap |
| StreamWindow.Ring.ReleaseOldest | research/week10/adaptive/campaign_runner.py:616-714 | frees exactly the oldest entry |
| StreamWindow.Ring.Append | research/week10/adaptive/campaign_runner.py:564-614 | accepts exactly what fits and continues the layout |
| StreamWindow.ContiguousSums | research/week10/adaptive/campaign_runner.py:512-534 | contiguous entries take up exactly the words and instructions between their ends |
| RuntimeWindow.Window.CommitPatchedBlock | research/week10/adaptive/campaign_runner.py:1329-1366 | exactly when it commits, at an entry boundary or inside one; ring, tracker and registry move together or not at all, exactly the planned dependencies ahead stay pending, and the window stays sound exactly at a boundary |
| RuntimeWindow.Window.FinalizeAcceptedEvent | research/week10/adaptive/campaign_runner.py:1368-1419 | prunes, advances and frees a completed entry, which is always the ring's oldest |
| RuntimeWindow.Window.DiscardUnexecutedSuffix | research/week10/adaptive/campaign_runner.py:1421-1640 | exactly when it ends the campaign; conservation of instructions, words and witnesses; no cleanup error is reachable |
| StreamPlanner.Planner.BuildNextBlock | research/week10/adaptive/campaign_runner.py:1957-2085 | plans exactly while the payload is incomplete, one block of at most five words that continues the stream, never more than three instructions past the nominal size, and with exactly the filler that keeps one for every four template words of the whole plan |
| StreamPlanner.PlanIsMixed | research/week10/adaptive/filler_policy.py:169-205 | at every point of planning the background fillers among the planned entries number a quarter of the template words, counted over the plan itself |
| StreamPlanner.FillersStayOut | research/week10/adaptive/filler_policy.py:115-138 | a background filler is the fixed LUI, to a register that is neither x0 nor a target |
| StreamPlanner.Planner.PlanNextBoundaryDelimiter | research/week10/adaptive/campaign_runner.py:1841-1895 | reserves the next delimiter exactly once, after the payload |
| StreamPlanner.Planner.BeginEpoch | research/week10/adaptive/campaign_runner.py:1897-1955 | begins exactly at a reserved delimiter, with a target of the selected arm |
| StreamPlanner.Planner.ClosePlanningEpoch | research/week10/adaptive/campaign_runner.py:2118-2143 | closes only a complete plan, of nominal to nominal plus three instructions |
| StreamPlanner.Planner.TerminateCampaignPlanning | research/week10/adaptive/campaign_runner.py:2145-2184 | ends planning for good and keeps the plan |
| StreamPlanner.BlockBounds | research/week10/adaptive/campaign_runner.py:252-470 | two to four executed instructions, two to five words |
| IntraEpochFeeder.PlanNextCapacitySafeEntry | research/week10/adaptive/intra_epoch_feeder.py:95-280 | exactly when an entry is planned; it always fits, a payload block leaves room for the delimiter, no delimiter starts past the budget |
| FillerPolicy.Scheduler.ScheduleAfterTemplate | research/week10/adaptive/filler_policy.py:169-205 | the schedule stays settled and one template never has more than one filler due |
| FillerPolicy.AuxiliaryExists | research/week10/adaptive/filler_policy.py:91-110 | protecting up to four registers leaves one for the filler |
| TemplateRealizer.Realize | research/week10/adaptive/template_realizer.py:278-369 | realizes exactly targets of the arm's shape, as two to four legal instructions; which ones is stated by ArmHazards.TemplateIsOfItsArm |
| ArmHazards.TemplateIsOfItsArm | research/week10/adaptive/template_realizer.py:421-943 | for every realized template: the producer at each declared distance is the ALU, load, upper-immediate or jump instruction of its arm and variant, and the last executed instruction reads the targets through the operand the variant names, as store data for A8 and through both sources for A4 |
| ArmHazards.WordsHaveOneUse | research/week10/adaptive/template_realizer.py:278-369 | every word of a template is its consumer, a producer, a shadowed writer or structure, and only one of these |
| ArmHazards.ArmsAimAt | research/week10/adaptive/template_library.py:66-254 | the arms and legal variants aim at exactly sixteen of the twenty hazard bins |
| ArmHazards.JalrIsLegal | research/week10/adaptive/template_realizer.py:781-805 | A7 may link through JALR exactly where its target can be encoded, which is everywhere in the window |
| ArmHazards.TemplateHitsItsBin | research/week10/adaptive/template_library.py:66-254 | wherever a template has just been executed, its consumer shows the hazard of its arm and variant |
| ArmHazards.PlanHitsItsBins | research/week10/adaptive/template_library.py:66-254 | in any cut of a planned stream every executed template hits the bin of its arm and variant, the delimiters and fillers around it notwithstanding |
| RegisterPolicy.BestPairs | research/week10/adaptive/register_policy.py:194-253 | the nested loop finds all pairs of maximal score and no others |
| RegisterPolicy.Select | research/week10/adaptive/register_policy.py:138-253 | the target has the arm's shape and is new whenever one is left |
| RegisterPolicy.DualProgress | research/week10/adaptive/register_policy.py:194-253 | a chosen pair has a new target while either distance has one, and two when distinct ones remain |
| Rewards.RewardTracker.Finalize | research/week10/adaptive/reward_engine.py:330-405 | settles once, with the new bins and the reward of the attributed ones |
| Rewards.NeverRewardedTwice | research/week10/adaptive/epoch_coordinator.py:501-548 | new bins of different epochs are disjoint |
| Rewards.NewBinsAddUp | research/week10/adaptive/epoch_coordinator.py:501-548 | new bins of all epochs number the growth of global coverage |
| Rewards.RewardConservation | research/week10/adaptive/reward_engine.py:330-405 | rewards times their denominators are at most 62 minus what was covered at the start |
| Rewards.ProductiveCoversNew | research/week10/adaptive/register_policy.py:179-253 | a productive epoch covers a new bin whenever its arm's distance, either for A4, has one left |
| Rewards.ClosureProgress | research/week10/adaptive/register_policy.py:179-192 | n productive epochs of one single-distance kind cover n registers, or all |
| Rewards.Saturation | research/week10/adaptive/register_policy.py:179-192 | thirty-one of them cover all |
| EpochCoordinator.Coordinator.BeginEpoch | research/week10/adaptive/epoch_coordinator.py:238-286 | begins exactly when none is active, with a target as new as the coverage allows; stale witnesses are unreachable |
| EpochCoordinator.Coordinator.RegisterL2Hit | research/week10/adaptive/epoch_coordinator.py:345-407 | covers globally always, attributes exactly planned dependencies |
| EpochCoordinator.Coordinator.RegisterAttributionWitnesses | research/week10/adaptive/epoch_coordinator.py:288-343 | accepts exactly new witnesses of the active arm, all or none |
| EpochCoordinator.Coordinator.FinishEpoch | research/week10/adaptive/epoch_coordinator.py:501-548 | settles exactly when nothing is pending; the history stays chained |
| EvidenceRuns.RunAccounts | research/week10/l2_realization.py:346-531 | with distinct hits and consistent evidence no order is refused, and at every point exactly the hits with complete evidence are resolved, as it says |
| EvidenceRuns.Confluence | research/week10/l2_realization.py:346-531 | two orders of the same calls end in the same state, counters included, with the same outcomes |
| EvidenceRuns.RunConserves | research/week10/l2_realization.py:387-434 | attempts are validated, rejected or pending, and no pending hit has all its evidence |
| EvidenceRuns.RunIsGrounded | research/week10/l2_realization.py:346-568 | over any accepted run, prunes included, every outcome rests on evidence that was given: validated if all of it passed, rejected if some failed or the control did |
| EvidenceRuns.PruneForgets | research/week10/l2_realization.py:533-568 | a prune forgets exactly the evidence more than five instructions back that no pending hit needs |
| EvidenceRuns.PruneIsTransparent | research/week10/l2_realization.py:533-568 | a checker pruned along the way answers as one never pruned, if later hits lie above the pruned floor |
| EvidenceRuns.StreamPruneIsTransparent | research/week10/l2_realization.py:533-568 | the margin of five is enough: with every hit registered while its consumer is later than every prune, pruning changes no answer |
| L2EvidenceChecker.CollectedHitIsOfParticipants | research/week10/l2_realization.py:279-344 | what the collector reports and the checker requires of it concerns two instructions at most two apart |
| L2EvidenceChecker.RequiredChecks | research/week10/l2_realization.py:279-344 | a hit needs exactly the PC, store, write-back and next-PC evidence of producer and consumer, and the x0 evidence of a consumer that names x0 as its destination; or the reason why the two are not its participants |
| L2EvidenceChecker.ValidatedHasAllEvidence | research/week10/l2_realization.py:279-531 | over any run, prunes included, a hit returned as validated passed its control check and had every one of these recorded as passed before |
| L2EvidenceChecker.Checker.RegisterHit | research/week10/l2_realization.py:436-491 | refines the joined step with exactly the checks of RequiredChecks; the attempt counts even when the call fails |
| L2EvidenceChecker.Checker.RecordArchitecturalResult | research/week10/l2_realization.py:493-531 | refines the joined step, whatever order consumers are tried in |
| L2EvidenceChecker.Checker.PruneResults | research/week10/l2_realization.py:533-568 | keeps exactly recent evidence and what a pending hit needs |
| JoinRuns.RunAccounts | research/week9/live_coverage_coordinator.py:279-472 | for any proper order, hits registered late included, nothing is refused or ambiguous, exactly the complete hits have a record, and performance is kept only for waiting consumers |
| JoinRuns.JoinConfluence | research/week9/live_coverage_coordinator.py:232-472 | two proper orders emit the same records and end in the same state |
| JoinRuns.JoinDrains | research/week9/live_coverage_coordinator.py:220-277 | when all evidence is in, nothing is retained and every hit has exactly one record |
| JoinRuns.RecordsAreGenuine | research/week9/live_coverage_coordinator.py:220-277 | over any run every record joins a registered hit with a validation, an attribution and a retirement that were given for it and that agree |
| JoinRuns.LateIntentResolves | research/week9/live_coverage_coordinator.py:220-313 | a hit registered after its consumer retired is resolved exactly if another hit of the consumer was unresolved then |
| JoinRuns.LateIntentIsStranded | research/week9/live_coverage_coordinator.py:220-313 | calls after which it is not: the consumer's only other hit was complete |
| JoinRuns.ClassifierHitsAreDistinct | research/week9/live_coverage_coordinator.py:175-218 | the classifier's hits have distinct bins, so a validation is never ambiguous |
| LiveCoverageCoordinator.Coordinator.RegisterL1Intent | research/week9/live_coverage_coordinator.py:279-313 | refines the join's step |
| LiveCoverageCoordinator.Coordinator.RecordValidation | research/week9/live_coverage_coordinator.py:315-368 | refines the join's step; a contradicting retirement leaves the validation noted, any other error nothing |
| LiveCoverageCoordinator.Coordinator.RecordHazard | research/week9/live_coverage_coordinator.py:370-407 | refines the join's step; a contradicting retirement leaves the attribution noted, any other error nothing |
| LiveCoverageCoordinator.Coordinator.RecordPerformance | research/week9/live_coverage_coordinator.py:409-472 | refines the join's step, whatever order the consumer's hits are tried in; a contradiction leaves the retirement noted and the hits completed before it gone, any other error nothing |
| Retirement.RunMonitor | research/week7/retire_monitor.py:159-237 | over any contiguous accept stream with bubbles each tag retires once, in order, exactly three cycles later, and no protocol error is reachable |
| Retirement.ExpectedRetirement | research/week7/retire_monitor.py:159-237 | every instruction the oracle times retires in its retire cycle |
| PerformanceMonitors.CompareMonitors | research/week9/benchmark/streaming_timing.py:360-566 | both monitor objects over any accepted run: the same verdicts, and the batch summary equals the streaming scalars |
| PerformanceMonitors.SameResults | research/week9/benchmark/streaming_timing.py:442-566 | over any calls, several instructions in flight: the streaming monitor accepts a run exactly when its calls are in time and the batch one accepts it; verdicts and aggregates are then the same and exactly the instructions in flight are kept |
| PerformanceMonitors.VerdictsTellDelay | research/week8/performance_monitor.py:142-228 | a verdict is late exactly if the instruction retired after the expected cycle, early if before, by the difference of the two |
| PerformanceMonitors.OneMoreVerdict | research/week9/benchmark/streaming_timing.py:485-566 | updating the scalars by one verdict is summarising the longer history |
| PerformanceMonitors.OnlyInFlight | research/week9/benchmark/streaming_timing.py:424-440 | after any accepted run it retains one expectation for each instruction in flight |
| PerformanceMonitors.BatchMonitor.Summary | research/week8/performance_monitor.py:84-140 | the counts of passed, failed, late and early verdicts of the kept history, the sums of the delays and of the earliness, and the greatest delay |
| PerformanceMonitors.SummaryIsUnique | research/week8/performance_monitor.py:84-140 | a history has one summary |
| PerformanceMonitors.FailedAreLateOrEarly | research/week8/performance_monitor.py:84-140 | failed verdicts are the late and the early ones |
| FunctionalScoreboards.SameVerdicts | research/week9/benchmark/streaming_functional.py:94-419 | the streaming scoreboard accepts a run exactly when its calls are in order and the batch one accepts them; verdicts and counters are then the same and only in-flight state is kept |
| FunctionalScoreboards.CompleteTogether | research/week9/benchmark/streaming_functional.py:79-92 | when all of a run was registered both call it complete together, with nothing left behind |
| FunctionalScoreboards.LateStore | research/week8/functional_scoreboard.py:135-162 | a store after its own retirement is accepted by the batch scoreboard only |
| FunctionalScoreboards.PassesExactlyWhenFaithful | research/week8/functional_scoreboard.py:164-356 | an instruction passes exactly when its ports did what the architectural step did, within the device's addresses, and x0 is zero |
| FunctionalScoreboards.RunIsJudgedRightly | research/week8/functional_scoreboard.py:95-356 | over any accepted run on a run of the model every verdict passes exactly if the instruction's own write-back, its own store observation and x0 show what the model did |
| FunctionalScoreboards.StreamingScoreboard.ObserveRetire | research/week9/benchmark/streaming_functional.py:181-419 | refines the streaming step; an error changes nothing |
| FunctionalScoreboards.BatchScoreboard.ObserveRetire | research/week8/functional_scoreboard.py:164-356 | refines the batch step; an inconsistent expectation loses its store observation |

## Left out

- The cocotb drivers, clocks, resets and memory patching; only their call order is kept, in `CampaignRun`.
- CSV and JSON writers, wall-clock telemetry, checkpoints and throughput metrics: input and output.
- Seeds and random generators: a draw is any member of the candidate set.
- Bandit values and arm selection: the arm of every epoch is arbitrary.
- Rewards are rational numbers; rounding to doubles is not modelled.
- `research/week5/impl/validated_coverage.py`: the same join as the L2 checker, with three-deep participants, a margin of four instead of five and counters per bin.
- `promote_validated` and the metadata of the L2 collector: they only set flags of bins the checker already validated.
- The compatibility path of the ring's release by template instance: it frees the same oldest entry.
- Delimiters and planner positions other than a stream that starts at logical word zero and instruction one, as the campaigns do.
- The immediate decoders repeated in `research/week5/impl/architectural_model.py`: equal to those of the decoder, which are used for both.
- Shift instructions, line parsing and file output of the assembler.
- Orders of iteration over dictionaries and sets: any order.
- What follows a refused instruction: the driver stops the campaign there.
