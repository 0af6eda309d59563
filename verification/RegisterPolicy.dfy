/** Uncovered-first choice of target registers. A random draw is any element of its candidates. */
module RegisterPolicy {
  import opened Wrappers
  import opened Rv32Isa
  import opened ArmsAndTargets

  datatype Covered = Covered(d1: set<Reg>, d2: set<Reg>)

  function Uncovered(covered: set<Reg>): set<Reg> {
    set r: Reg | 1 <= r <= 31 && r !in covered
  }

  function Positive(): set<Reg> {
    Uncovered({})
  }

  type Pair = (Reg, Reg)

  predicate IsPair(p: Pair) {
    IsPositive(p.0) && IsPositive(p.1) && p.0 != p.1
  }

  /** How many of the two targets are new. */
  function Score(c: Covered, p: Pair): nat {
    (if p.0 !in c.d1 then 1 else 0) + (if p.1 !in c.d2 then 1 else 0)
  }

  /** The target a single-distance arm may get. */
  predicate GoodSingle(covered: set<Reg>, r: Reg) {
    IsPositive(r) && (Uncovered(covered) != {} ==> r !in covered)
  }

  /** The pair A4 may get: no distinct pair has more new targets. */
  ghost predicate GoodPair(c: Covered, p: Pair) {
    IsPair(p) && forall q: Pair | IsPair(q) :: Score(c, q) <= Score(c, p)
  }

  /** What the policy may choose for the arm. */
  ghost predicate GoodTarget(arm: Arm, c: Covered, t: Target) {
    && HasShape(arm, t)
    && match ArmDistance(arm)
       case D1 => GoodSingle(c.d1, t.d1.value)
       case D2 => GoodSingle(c.d2, t.d2.value)
       case D1_D2 => GoodPair(c, (t.d1.value, t.d2.value))
  }

  method SelectSingle(covered: set<Reg>) returns (r: Reg)
    ensures GoodSingle(covered, r)
  {
    var uncovered := Uncovered(covered);
    assert 1 in Positive();
    var candidates := if uncovered != {} then uncovered else Positive();
    r :| r in candidates;
  }

  /** The pairs that come before (d1, d2) in the order of the two loops. */
  predicate Before(p: Pair, d1: int, d2: int) {
    p.0 < d1 || (p.0 == d1 && p.1 < d2)
  }

  /** best is the highest score so far and pairs are exactly the pairs that have it. */
  ghost predicate BestOf(c: Covered, best: int, pairs: seq<Pair>, d1: int, d2: int) {
    && (forall p: Pair | IsPair(p) && Before(p, d1, d2) :: Score(c, p) <= best)
    && (forall p: Pair :: p in pairs <==> IsPair(p) && Before(p, d1, d2) && Score(c, p) == best)
    && (best >= 0 ==> pairs != [])
  }

  lemma NextPair(c: Covered, best: int, pairs: seq<Pair>, d1: Reg, d2: Reg)
    requires BestOf(c, best, pairs, d1, d2) && IsPair((d1, d2))
    ensures var s := Score(c, (d1, d2));
            && (s > best ==> BestOf(c, s, [(d1, d2)], d1, d2 + 1))
            && (s == best ==> BestOf(c, best, pairs + [(d1, d2)], d1, d2 + 1))
            && (s < best ==> BestOf(c, best, pairs, d1, d2 + 1))
  {
    forall p: Pair | IsPair(p)
      ensures Before(p, d1, d2 + 1) <==> Before(p, d1, d2) || p == (d1, d2)
    {
    }
  }

  lemma SkipPair(c: Covered, best: int, pairs: seq<Pair>, d1: int, d2: int)
    requires BestOf(c, best, pairs, d1, d2) && d1 == d2
    ensures BestOf(c, best, pairs, d1, d2 + 1)
  {
    assert forall p: Pair | IsPair(p) :: Before(p, d1, d2 + 1) <==> Before(p, d1, d2);
  }

  lemma NextRow(c: Covered, best: int, pairs: seq<Pair>, d1: int)
    requires BestOf(c, best, pairs, d1, 32)
    ensures BestOf(c, best, pairs, d1 + 1, 1)
  {
    assert forall p: Pair | IsPair(p) :: Before(p, d1 + 1, 1) <==> Before(p, d1, 32);
  }

  /** The maximal distinct pairs, all of them, by comparing every pair. */
  method BestPairs(c: Covered) returns (pairs: seq<Pair>)
    ensures pairs != [] && forall p: Pair :: p in pairs <==> GoodPair(c, p)
  {
    hide BestOf, Score, Before;
    var best: int := -1;
    pairs := [];
    NothingYet(c);
    for d1: int := 1 to 32
      invariant BestOf(c, best, pairs, d1, 1)
    {
      for d2: int := 1 to 32
        invariant BestOf(c, best, pairs, d1, d2)
      {
        if d1 == d2 {
          SkipPair(c, best, pairs, d1, d2);
        } else {
          NextPair(c, best, pairs, d1, d2);
          var score := Score(c, (d1, d2));
          if score > best {
            best := score;
            pairs := [(d1, d2)];
          } else if score == best {
            pairs := pairs + [(d1, d2)];
          }
        }
      }
      NextRow(c, best, pairs, d1);
    }
    AllCompared(c, best, pairs);
  }

  lemma NothingYet(c: Covered)
    ensures BestOf(c, -1, [], 1, 1)
  {
  }

  /** Every pair was compared, so the missing-pair error is unreachable and the pairs are the maximal ones. */
  lemma AllCompared(c: Covered, best: int, pairs: seq<Pair>)
    requires BestOf(c, best, pairs, 32, 1)
    ensures pairs != [] && forall p: Pair :: p in pairs <==> GoodPair(c, p)
  {
    assert IsPair((1, 2)) && Before((1, 2), 32, 1);
    assert pairs[0] in pairs;
    forall p: Pair
      ensures p in pairs <==> GoodPair(c, p)
    {
      if GoodPair(c, p) {
        assert Score(c, pairs[0]) <= Score(c, p);
      }
    }
  }

  method SelectDual(c: Covered) returns (t: Target)
    ensures t.Valid() && t.d1.Some? && t.d2.Some? && GoodPair(c, (t.d1.value, t.d2.value))
  {
    var pairs := BestPairs(c);
    assert pairs[0] in pairs;
    var p :| p in pairs;
    t := Target(Some(p.0), Some(p.1));
  }

  method Select(arm: Arm, c: Covered) returns (t: Target)
    ensures GoodTarget(arm, c, t)
  {
    match ArmDistance(arm)
    case D1 =>
      var r := SelectSingle(c.d1);
      t := Target(Some(r), None);
    case D2 =>
      var r := SelectSingle(c.d2);
      t := Target(None, Some(r));
    case D1_D2 =>
      t := SelectDual(c);
  }

  /** A4 always gets a new target while either distance has one, and two when distinct ones remain. */
  lemma DualProgress(c: Covered, p: Pair)
    requires GoodPair(c, p)
    ensures Uncovered(c.d1) != {} || Uncovered(c.d2) != {} ==> p.0 !in c.d1 || p.1 !in c.d2
    ensures (exists q: Pair :: IsPair(q) && q.0 !in c.d1 && q.1 !in c.d2) ==> p.0 !in c.d1 && p.1 !in c.d2
  {
    if r :| r in Uncovered(c.d1) {
      var q: Pair := (r, if r == 1 then 2 else 1);
      assert IsPair(q) && Score(c, q) >= 1;
    }
    if r :| r in Uncovered(c.d2) {
      var q: Pair := (if r == 1 then 2 else 1, r);
      assert IsPair(q) && Score(c, q) >= 1;
    }
  }
}
