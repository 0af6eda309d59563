/** One epoch's reward, and the books kept over all epochs. */
module Rewards {
  import opened Wrappers
  import opened Rv32Isa
  import opened ArmsAndTargets
  import opened RegisterPolicy

  datatype RewardError = AlreadyFinalized | OutsideTargets | NotPositive

  /** A finished epoch. Rewards are rational: the double the source computes is left out. */
  datatype EpochResult = EpochResult(
    arm: Arm, target: Target, executed: nat, targets: set<IntentBin>, covered: set<IntentBin>,
    observed: set<IntentBin>, attributable: set<IntentBin>,
    globalNew: set<IntentBin>, attributableNew: set<IntentBin>, reward: real)

  /** What finalize makes of the observations. */
  predicate Settled(e: EpochResult) {
    && e.executed > 0
    && e.attributable <= e.observed && e.attributable <= e.targets
    && e.globalNew == e.observed - e.covered
    && e.attributableNew == e.attributable - e.covered
    && e.reward == 1000.0 * |e.attributableNew| as real / e.executed as real
    && e.target.Valid() && AttributionTargets(e.arm, e.target) == Ok(e.targets)
  }

  class RewardTracker {
    const arm: Arm
    const target: Target
    const targets: set<IntentBin>
    const covered: set<IntentBin>
    var observed: set<IntentBin>
    var attributable: set<IntentBin>
    var finalized: bool

    /** Attributed bins were observed and belong to the arm. */
    ghost predicate Valid()
      reads this
    {
      && target.Valid() && AttributionTargets(arm, target) == Ok(targets)
      && attributable <= observed && attributable <= targets
    }

    constructor (arm: Arm, target: Target, covered: set<IntentBin>)
      requires HasShape(arm, target)
      ensures Valid() && !finalized && observed == {} && attributable == {}
      ensures this.arm == arm && this.target == target && this.covered == covered
      ensures Ok(targets) == AttributionTargets(arm, target)
    {
      this.arm := arm;
      this.target := target;
      this.covered := covered;
      targets := AttributionTargets(arm, target).value;
      observed := {};
      attributable := {};
      finalized := false;
    }

    method RecordIntentHit(b: IntentBin) returns (r: Result<(), RewardError>)
      requires Valid()
      modifies `observed
      ensures Valid() && (r.Ok? <==> !finalized)
      ensures observed == if r.Ok? then old(observed) + {b} else old(observed)
    {
      if finalized {
        return Err(AlreadyFinalized);
      }
      observed := observed + {b};
      r := Ok(());
    }

    method RecordAttributableIntentHit(b: IntentBin) returns (r: Result<(), RewardError>)
      requires Valid()
      modifies `observed, `attributable
      ensures Valid() && (r.Ok? <==> !finalized && b in targets)
      ensures observed == if r.Ok? then old(observed) + {b} else old(observed)
      ensures attributable == if r.Ok? then old(attributable) + {b} else old(attributable)
    {
      if finalized {
        return Err(AlreadyFinalized);
      }
      if b !in targets {
        return Err(OutsideTargets);
      }
      observed := observed + {b};
      attributable := attributable + {b};
      r := Ok(());
    }

    method Finalize(executed: int) returns (r: Result<EpochResult, RewardError>)
      requires Valid()
      modifies `finalized
      ensures Valid() && (r.Ok? <==> !old(finalized) && executed > 0)
      ensures r.Err? ==> finalized == old(finalized)
      ensures r.Ok? ==>
                && finalized && Settled(r.value) && r.value.executed == executed
                && r.value.arm == arm && r.value.target == target && r.value.covered == covered
                && r.value.observed == observed && r.value.attributable == attributable
    {
      if finalized {
        return Err(AlreadyFinalized);
      }
      if executed <= 0 {
        return Err(NotPositive);
      }
      var globalNew := observed - covered;
      var attributableNew := (attributable - covered) * targets;
      assert attributableNew == attributable - covered;
      finalized := true;
      r := Ok(EpochResult(arm, target, executed, targets, covered, observed, attributable, globalNew, attributableNew,
                          1000.0 * |attributableNew| as real / executed as real));
    }
  }

  // ---------------------------------------------------------------------
  // All epochs
  // ---------------------------------------------------------------------

  /** Each epoch starts from what was covered when the one before it ended. */
  ghost predicate Chained(es: seq<EpochResult>, start: set<IntentBin>) {
    && (forall k | 0 <= k < |es| :: Settled(es[k]))
    && forall k | 0 <= k < |es| :: es[k].covered == CoveredAfter(es[..k], start)
  }

  /** The global intent coverage after the epochs. */
  function CoveredAfter(es: seq<EpochResult>, start: set<IntentBin>): set<IntentBin> {
    if es == [] then start else CoveredAfter(es[..|es| - 1], start) + es[|es| - 1].observed
  }

  lemma ChainedPrefix(es: seq<EpochResult>, start: set<IntentBin>)
    requires Chained(es, start) && es != []
    ensures Chained(es[..|es| - 1], start) && es[|es| - 1].covered == CoveredAfter(es[..|es| - 1], start)
    ensures Settled(es[|es| - 1])
  {
    hide Settled, CoveredAfter;
    var front := es[..|es| - 1];
    forall k | 0 <= k < |front|
      ensures Settled(front[k]) && front[k].covered == CoveredAfter(front[..k], start)
    {
      assert front[..k] == es[..k];
    }
  }

  /** Coverage never shrinks. */
  lemma {:induction false} CoverageGrows(es: seq<EpochResult>, start: set<IntentBin>, j: nat)
    requires j <= |es|
    ensures CoveredAfter(es[..j], start) <= CoveredAfter(es, start)
  {
    if j < |es| {
      CoverageGrows(es[..|es| - 1], start, j);
      assert es[..|es| - 1][..j] == es[..j];
    } else {
      assert es[..j] == es;
    }
  }

  /** No bin is rewarded in two epochs. */
  lemma NeverRewardedTwice(es: seq<EpochResult>, start: set<IntentBin>, j: nat, k: nat)
    requires Chained(es, start) && j < k < |es|
    ensures es[j].globalNew !! es[k].globalNew && es[j].attributableNew !! es[k].attributableNew
    ensures es[k].globalNew !! start
  {
    assert Settled(es[j]) && Settled(es[k]);
    CoverageGrows(es[..k], start, j + 1);
    assert es[..k][..j + 1] == es[..j + 1] && es[..j + 1][..j] == es[..j];
    CoverageGrows(es[..k], start, 0);
    assert es[..k][..0] == [];
  }

  function NewCount(es: seq<EpochResult>): nat {
    if es == [] then 0 else NewCount(es[..|es| - 1]) + |es[|es| - 1].globalNew|
  }

  /** The new bins of the epochs add up to the growth of the global coverage. */
  lemma {:induction false} NewBinsAddUp(es: seq<EpochResult>, start: set<IntentBin>)
    requires Chained(es, start)
    ensures |start| + NewCount(es) == |CoveredAfter(es, start)|
  {
    hide AttributionTargets;
    if es != [] {
      ChainedPrefix(es, start);
      NewBinsAddUp(es[..|es| - 1], start);
      var before, last := CoveredAfter(es[..|es| - 1], start), es[|es| - 1];
      assert before + last.observed == before + last.globalNew && before !! last.globalNew;
    }
  }

  /** Rewards weighted by the instructions they were divided by. */
  function WeightedReward(es: seq<EpochResult>): real {
    if es == [] then 0.0
    else WeightedReward(es[..|es| - 1]) + es[|es| - 1].reward * es[|es| - 1].executed as real / 1000.0
  }

  lemma EpochWeight(e: EpochResult)
    requires Settled(e)
    ensures e.reward * e.executed as real / 1000.0 == |e.attributableNew| as real
    ensures |e.attributableNew| <= |e.globalNew|
  {
    hide AttributionTargets;
    var n, d := |e.attributableNew| as real, e.executed as real;
    assert e.reward * d == 1000.0 * n;
    Subset(e.attributableNew, e.globalNew);
  }

  lemma Subset<T>(a: set<T>, b: set<T>)
    requires a <= b
    ensures |a| <= |b|
  {
    assert b == a + (b - a);
  }

  lemma {:induction false} RewardIsBounded(es: seq<EpochResult>, start: set<IntentBin>)
    requires Chained(es, start)
    ensures WeightedReward(es) <= NewCount(es) as real
  {
    hide Settled;
    if es != [] {
      ChainedPrefix(es, start);
      RewardIsBounded(es[..|es| - 1], start);
      EpochWeight(es[|es| - 1]);
    }
  }

  /** The bins of one distance with a register below n. */
  function BinsBelow(distance: int, n: nat): set<IntentBin>
    requires n <= 32
  {
    set r: Reg | 1 <= r < n :: IntentBin(distance, r)
  }

  lemma {:induction false} BinsBelowCount(distance: int, n: nat)
    requires 1 <= n <= 32
    ensures |BinsBelow(distance, n)| == n - 1
  {
    if n == 1 {
      assert BinsBelow(distance, 1) == {};
    } else {
      BinsBelowCount(distance, n - 1);
      assert BinsBelow(distance, n) == BinsBelow(distance, n - 1) + {IntentBin(distance, n - 1)};
    }
  }

  /** There are 62 bins to cover. */
  lemma BinsAreBounded(bins: set<IntentBin>)
    requires forall b | b in bins :: IsIntentBin(b)
    ensures |bins| <= 62
  {
    BinsBelowCount(1, 32);
    BinsBelowCount(2, 32);
    var all := BinsBelow(1, 32) + BinsBelow(2, 32);
    forall b | b in bins
      ensures b in all
    {
      assert b == IntentBin(b.distance, b.register);
    }
    Subset(bins, all);
  }

  lemma {:induction false} CoverageIsIntent(es: seq<EpochResult>, start: set<IntentBin>, b: IntentBin)
    requires forall c | c in start :: IsIntentBin(c)
    requires forall k | 0 <= k < |es| :: forall c | c in es[k].observed :: IsIntentBin(c)
    requires b in CoveredAfter(es, start)
    ensures IsIntentBin(b)
  {
    if es != [] && b !in es[|es| - 1].observed {
      CoverageIsIntent(es[..|es| - 1], start, b);
    }
  }

  /** Over a whole campaign no more than 62 bins are rewarded, and less what was covered at its start. */
  lemma RewardConservation(es: seq<EpochResult>, start: set<IntentBin>)
    requires Chained(es, start) && forall c | c in start :: IsIntentBin(c)
    requires forall k | 0 <= k < |es| :: forall c | c in es[k].observed :: IsIntentBin(c)
    ensures |start| + NewCount(es) == |CoveredAfter(es, start)| <= 62
    ensures WeightedReward(es) <= 62.0 - |start| as real
  {
    hide CoveredAfter, Settled, IsIntentBin, WeightedReward;
    NewBinsAddUp(es, start);
    RewardIsBounded(es, start);
    forall b | b in CoveredAfter(es, start)
      ensures IsIntentBin(b)
    {
      CoverageIsIntent(es, start, b);
    }
    BinsAreBounded(CoveredAfter(es, start));
  }

  // ---------------------------------------------------------------------
  // Coverage closure
  // ---------------------------------------------------------------------

  function RegistersOf(bins: set<IntentBin>, distance: int): set<Reg> {
    set b | b in bins && b.distance == distance :: b.register
  }

  /** The per-distance view the register policy is given. */
  function CoveredRegisters(bins: set<IntentBin>): Covered {
    Covered(RegistersOf(bins, 1), RegistersOf(bins, 2))
  }

  /** The target came from the policy and a whole template was executed, so its bins were hit. */
  ghost predicate Productive(e: EpochResult) {
    Settled(e) && GoodTarget(e.arm, CoveredRegisters(e.covered), e.target) && e.attributable == e.targets
  }

  lemma RegisterCovered(bins: set<IntentBin>, distance: int, r: Reg)
    ensures r in RegistersOf(bins, distance) <==> IntentBin(distance, r) in bins
  {
    if IntentBin(distance, r) in bins {
      assert IntentBin(distance, r).register == r;
    }
    if r in RegistersOf(bins, distance) {
      var b :| b in bins && b.distance == distance && b.register == r;
      assert b == IntentBin(distance, r);
    }
  }

  /** A productive epoch covers something new whenever its arm's distance has something left to cover. */
  lemma ProductiveCoversNew(e: EpochResult)
    requires Productive(e)
    ensures ArmDistance(e.arm) != D2 && ArmDistance(e.arm) != D1_D2 && Uncovered(CoveredRegisters(e.covered).d1) != {} ==>
              IntentBin(1, e.target.d1.value) in e.attributableNew
    ensures ArmDistance(e.arm) == D2 && Uncovered(CoveredRegisters(e.covered).d2) != {} ==>
              IntentBin(2, e.target.d2.value) in e.attributableNew
    ensures ArmDistance(e.arm) == D1_D2
            && (Uncovered(CoveredRegisters(e.covered).d1) != {} || Uncovered(CoveredRegisters(e.covered).d2) != {}) ==>
              e.attributableNew != {}
  {
    hide Uncovered, CoveredRegisters, Score;
    var c := CoveredRegisters(e.covered);
    if e.target.d1.Some? {
      CoveredBins(e.covered, 1, e.target.d1.value);
    }
    if e.target.d2.Some? {
      CoveredBins(e.covered, 2, e.target.d2.value);
    }
    if ArmDistance(e.arm) == D1_D2 {
      DualProgress(c, (e.target.d1.value, e.target.d2.value));
      assert IntentBin(1, e.target.d1.value) in e.targets && IntentBin(2, e.target.d2.value) in e.targets;
    }
  }

  lemma CoveredBins(bins: set<IntentBin>, distance: int, r: Reg)
    requires distance == 1 || distance == 2
    ensures r in (if distance == 1 then CoveredRegisters(bins).d1 else CoveredRegisters(bins).d2)
            <==> IntentBin(distance, r) in bins
  {
    RegisterCovered(bins, distance, r);
  }

  function ArmCount(es: seq<EpochResult>, d: Distance): nat {
    if es == [] then 0 else ArmCount(es[..|es| - 1], d) + (if ArmDistance(es[|es| - 1].arm) == d then 1 else 0)
  }

  /** The covered registers of one distance, as bins. */
  function Of(bins: set<IntentBin>, distance: int): set<IntentBin> {
    set b | b in bins && b.distance == distance && IsPositive(b.register)
  }

  lemma OneMoreBin(before: set<IntentBin>, after: set<IntentBin>, distance: int, b: IntentBin)
    requires before <= after && b in after && b !in before && b.distance == distance && IsPositive(b.register)
    ensures |Of(after, distance)| >= |Of(before, distance)| + 1
  {
    assert Of(before, distance) + {b} <= Of(after, distance);
    Subset(Of(before, distance) + {b}, Of(after, distance));
  }

  lemma AllCovered(bins: set<IntentBin>, distance: int)
    requires Uncovered(RegistersOf(bins, distance)) == {}
    ensures |Of(bins, distance)| >= 31
  {
    BinsBelowCount(distance, 32);
    forall b | b in BinsBelow(distance, 32)
      ensures b in Of(bins, distance)
    {
      RegisterCovered(bins, distance, b.register);
      assert b.register !in Uncovered(RegistersOf(bins, distance));
    }
    Subset(BinsBelow(distance, 32), Of(bins, distance));
  }

  predicate Saturated(bins: set<IntentBin>, distance: int) {
    forall r: Reg | 1 <= r <= 31 :: IntentBin(distance, r) in bins
  }

  lemma FullMeansAll(bins: set<IntentBin>, distance: int)
    requires |Of(bins, distance)| >= 31
    ensures Saturated(bins, distance)
  {
    BinsBelowCount(distance, 32);
    var all := BinsBelow(distance, 32);
    forall b | b in Of(bins, distance)
      ensures b in all
    {
      assert b == IntentBin(distance, b.register);
    }
    if !(all <= Of(bins, distance)) {
      var missing :| missing in all && missing !in Of(bins, distance);
      Subset(Of(bins, distance), all - {missing});
      assert false;
    }
    forall r: Reg | 1 <= r <= 31
      ensures IntentBin(distance, r) in bins
    {
      assert IntentBin(distance, r) in all;
    }
  }

  /** n productive epochs of one single-distance kind cover n registers, or all of them. */
  lemma {:induction false} ClosureProgress(es: seq<EpochResult>, start: set<IntentBin>, d: Distance)
    requires Chained(es, start) && (forall k | 0 <= k < |es| :: Productive(es[k])) && d != D1_D2
    ensures var distance := if d == D1 then 1 else 2;
            |Of(CoveredAfter(es, start), distance)| >= if ArmCount(es, d) <= 31 then ArmCount(es, d) else 31
  {
    hide Settled, GoodTarget, Of, Uncovered, RegistersOf, AttributionTargets;
    var distance := if d == D1 then 1 else 2;
    if es != [] {
      var front, last := es[..|es| - 1], es[|es| - 1];
      ChainedPrefix(es, start);
      ClosureProgress(front, start, d);
      var before, after := CoveredAfter(front, start), CoveredAfter(es, start);
      EpochStep(before, after, last, d);
    }
  }

  lemma EpochStep(before: set<IntentBin>, after: set<IntentBin>, e: EpochResult, d: Distance)
    requires Productive(e) && e.covered == before && after == before + e.observed && d != D1_D2
    ensures var distance := if d == D1 then 1 else 2;
            && |Of(after, distance)| >= |Of(before, distance)|
            && (ArmDistance(e.arm) == d && |Of(before, distance)| < 31 ==>
                  |Of(after, distance)| >= |Of(before, distance)| + 1)
  {
    hide Uncovered, RegistersOf, AttributionTargets, GoodTarget, GoodSingle, GoodPair;
    var distance := if d == D1 then 1 else 2;
    Subset(Of(before, distance), Of(after, distance));
    if ArmDistance(e.arm) == d && |Of(before, distance)| < 31 {
      if Uncovered(RegistersOf(before, distance)) == {} {
        AllCovered(before, distance);
        assert false;
      }
      ProductiveCoversNew(e);
      ProductiveShape(e);
      var b := IntentBin(distance, if d == D1 then e.target.d1.value else e.target.d2.value);
      OneMoreBin(before, after, distance, b);
    }
  }

  lemma ProductiveShape(e: EpochResult)
    requires Productive(e)
    ensures HasShape(e.arm, e.target)
  {
  }

  /** Thirty-one productive epochs of D1 arms saturate distance one; of D2 arms, distance two. */
  lemma Saturation(es: seq<EpochResult>, start: set<IntentBin>, d: Distance)
    requires Chained(es, start) && (forall k | 0 <= k < |es| :: Productive(es[k])) && d != D1_D2
    requires ArmCount(es, d) >= 31
    ensures Saturated(CoveredAfter(es, start), if d == D1 then 1 else 2)
  {
    hide Productive, CoveredAfter, Of;
    ClosureProgress(es, start, d);
    FullMeansAll(CoveredAfter(es, start), if d == D1 then 1 else 2);
  }
}

/** The epoch lifecycle: select, register planned witnesses, observe hits, settle the reward. */
module EpochCoordinator {
  import opened Wrappers
  import opened Rv32Isa
  import opened ArmsAndTargets
  import opened RegisterPolicy
  import opened StreamPlan
  import opened Attribution
  import opened Rewards

  datatype EpochError =
    | EpochActive | StaleWitnesses | NoActiveEpoch | ArmMismatch | OutsideArmTargets | NotABin
    | BadWitnesses(registry: RegistryError) | BadCount

  function BinOf(k: Key): IntentBin {
    IntentBin(k.distance, k.register)
  }

  /** A witness the active arm may be rewarded for. */
  predicate Eligible(w: Witness, arm: Arm, targets: set<IntentBin>) {
    w.arm == arm && BinOf(KeyOf(w)) in targets
  }

  class Coordinator {
    const registry: Registry
    /** Global live intent coverage. */
    var seen: set<IntentBin>
    var tracker: RewardTracker?
    /** The epochs that were finished. */
    ghost var history: seq<EpochResult>

    /** Outside an epoch nothing is pending; inside one, everything pending belongs to its arm. */
    ghost predicate Valid()
      reads this, registry, tracker
    {
      && registry.Valid() && Chained(history, {})
      && (forall b | b in seen :: IsIntentBin(b))
      && (forall k | 0 <= k < |history| :: forall b | b in history[k].observed :: IsIntentBin(b))
      && (tracker == null ==> registry.byKey == map[] && seen == CoveredAfter(history, {}))
      && (tracker != null ==>
            && tracker.Valid() && !tracker.finalized && tracker.covered == CoveredAfter(history, {})
            && seen == tracker.covered + tracker.observed
            && forall k | k in registry.byKey :: Eligible(registry.byKey[k], tracker.arm, tracker.targets))
    }

    constructor ()
      ensures Valid() && tracker == null && seen == {} && history == [] && fresh(registry)
    {
      registry := new Registry();
      seen := {};
      tracker := null;
      history := [];
    }

    /** Starts an epoch for the selected arm, with a target that is new if any is left. */
    method BeginEpoch(arm: Arm) returns (r: Result<Target, EpochError>)
      requires Valid()
      modifies this
      ensures Valid() && seen == old(seen) && history == old(history)
      ensures r.Ok? <==> old(tracker) == null
      ensures r.Err? ==> tracker == old(tracker) && r == Err(EpochActive)
      ensures r.Ok? ==>
                && tracker != null && fresh(tracker) && tracker.arm == arm && tracker.target == r.value
                && GoodTarget(arm, CoveredRegisters(seen), r.value)
                && tracker.covered == seen && tracker.observed == {} && tracker.attributable == {}
    {
      if tracker != null {
        return Err(EpochActive);
      }
      // without an epoch no witness is pending, so the stale-witness error is unreachable
      assert |registry.byKey| == 0;
      var target := Select(arm, CoveredRegisters(seen));
      tracker := new RewardTracker(arm, target, seen);
      r := Ok(target);
    }

    method RegisterAttributionWitnesses(ws: seq<Witness>) returns (r: Result<(), EpochError>)
      requires Valid()
      modifies registry
      ensures Valid()
      ensures r.Ok? <==>
                && tracker != null && (forall w | w in ws :: Eligible(w, tracker.arm, tracker.targets))
                && DistinctKeys(ws) && NoneRegistered(old(registry.byKey), ws)
      ensures registry.byKey == if r.Ok? then Registered(old(registry.byKey), ws) else old(registry.byKey)
    {
      hide Registered, Eligible, DistinctKeys, NoneRegistered, Chained, CoveredAfter, IsIntentBin;
      if tracker == null {
        return Err(NoActiveEpoch);
      }
      var problem := FirstIneligible(ws, tracker.arm, tracker.targets);
      if problem.Some? {
        return Err(problem.value);
      }
      RegisteredAreEligible(registry.byKey, ws, tracker.arm, tracker.targets);
      var many := registry.RegisterMany(ws);
      if many.Err? {
        return Err(BadWitnesses(many.error));
      }
      r := Ok(());
    }

    /**
     One live hit: always covered globally, attributed only when it is exactly a
     planned dependency. A matched witness always belongs to the active arm.
     */
    method RegisterL2Hit(hit: Key) returns (r: Result<Option<Witness>, EpochError>)
      requires Valid()
      modifies `seen, registry, tracker
      ensures Valid() && history == old(history)
      ensures r.Ok? <==> tracker != null && IsIntentBin(BinOf(hit))
      ensures r.Err? ==> seen == old(seen) && registry.byKey == old(registry.byKey)
      ensures r.Ok? ==>
                && seen == old(seen) + {BinOf(hit)} && registry.byKey == old(registry.byKey) - {hit}
                && r.value == (if hit in old(registry.byKey) then Some(old(registry.byKey)[hit]) else None)
                && tracker.observed == old(tracker.observed) + {BinOf(hit)}
                && tracker.attributable
                   == old(tracker.attributable) + (if hit in old(registry.byKey) then {BinOf(hit)} else {})
    {
      if tracker == null {
        return Err(NoActiveEpoch);
      }
      if !IsIntentBin(BinOf(hit)) {
        return Err(NotABin);
      }
      seen := seen + {BinOf(hit)};
      var recorded := tracker.RecordIntentHit(BinOf(hit));
      assert recorded.Ok?;
      var w := registry.ConsumeMatch(hit);
      if w.Some? {
        assert w.value.arm == tracker.arm;
        var attributed := tracker.RecordAttributableIntentHit(BinOf(hit));
        assert attributed.Ok?;
      }
      r := Ok(w);
    }

    method PruneValidationState(latest: int) returns (r: Result<nat, RegistryError>)
      requires Valid()
      modifies registry
      ensures Valid() && (r.Ok? <==> latest > 0)
      ensures registry.byKey == if r.Ok? then Future(old(registry.byKey), latest) else old(registry.byKey)
      ensures r.Ok? ==> r.value == |old(registry.byKey)| - |registry.byKey|
    {
      r := registry.Prune(latest);
    }

    method DiscardUnexecutedAttributionWitnesses(last: int) returns (r: Result<nat, EpochError>)
      requires Valid()
      modifies registry
      ensures Valid()
      ensures r.Ok? <==> tracker != null && last > 0 && forall k | k in old(registry.byKey) :: k.consumer > last
      ensures r.Ok? ==> registry.byKey == map[] && r.value == |old(registry.byKey)|
      ensures r.Err? ==> registry.byKey == old(registry.byKey)
    {
      if tracker == null {
        return Err(NoActiveEpoch);
      }
      var n := registry.DiscardFutureAfter(last);
      if n.Err? {
        return Err(BadWitnesses(n.error));
      }
      r := Ok(n.value);
    }

    /** Settles the epoch; witnesses must have been hit, pruned or discarded before. */
    method FinishEpoch(executed: int) returns (r: Result<EpochResult, EpochError>)
      requires Valid()
      modifies this, tracker
      ensures Valid() && seen == old(seen)
      ensures r.Ok? <==> old(tracker) != null && old(registry.byKey) == map[] && executed > 0
      ensures r.Err? ==> tracker == old(tracker) && history == old(history)
      ensures r.Ok? ==>
                && tracker == null && history == old(history) + [r.value] && r.value.executed == executed
                && r.value.arm == old(tracker.arm) && r.value.target == old(tracker.target)
                && r.value.covered == old(tracker.covered)
                && r.value.observed == old(tracker.observed) && r.value.attributable == old(tracker.attributable)
    {
      hide CoveredAfter;
      if tracker == null {
        return Err(NoActiveEpoch);
      }
      if |registry.byKey| != 0 {
        return Err(StaleWitnesses);
      }
      var result := tracker.Finalize(executed);
      if result.Err? {
        return Err(BadCount);
      }
      HistoryGrows(history, result.value);
      history := history + [result.value];
      tracker := null;
      r := Ok(result.value);
    }
  }

  method FirstIneligible(ws: seq<Witness>, arm: Arm, targets: set<IntentBin>) returns (r: Option<EpochError>)
    ensures r.None? <==> forall w | w in ws :: Eligible(w, arm, targets)
  {
    for k := 0 to |ws|
      invariant forall j | 0 <= j < k :: Eligible(ws[j], arm, targets)
    {
      assert ws[k] in ws;
      if ws[k].arm != arm {
        return Some(ArmMismatch);
      }
      if BinOf(KeyOf(ws[k])) !in targets {
        return Some(OutsideArmTargets);
      }
    }
    r := None;
  }

  lemma {:induction false} RegisteredAreEligible(byKey: map<Key, Witness>, ws: seq<Witness>,
                                                 arm: Arm, targets: set<IntentBin>)
    requires forall k | k in byKey :: Eligible(byKey[k], arm, targets)
    requires forall w | w in ws :: Eligible(w, arm, targets)
    ensures forall k | k in Registered(byKey, ws) :: Eligible(Registered(byKey, ws)[k], arm, targets)
  {
    hide Eligible;
    if ws != [] {
      RegisteredAreEligible(byKey, ws[..|ws| - 1], arm, targets);
    }
  }

  lemma HistoryGrows(es: seq<EpochResult>, e: EpochResult)
    requires Chained(es, {}) && Settled(e) && e.covered == CoveredAfter(es, {})
    ensures Chained(es + [e], {}) && CoveredAfter(es + [e], {}) == CoveredAfter(es, {}) + e.observed
  {
    hide Settled;
    var more := es + [e];
    assert more[..|es|] == es;
    forall k | 0 <= k < |more|
      ensures Settled(more[k]) && more[k].covered == CoveredAfter(more[..k], {})
    {
      assert k < |es| ==> more[..k] == es[..k];
    }
  }
}
