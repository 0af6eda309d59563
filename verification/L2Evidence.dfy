/**
 Joining hits with architectural evidence that arrives in any order: what a
 call changes, as functions of the joined state, and what whole runs come to.
 */
module EvidenceRuns {
  import opened Wrappers
  import opened Rv32Isa
  import L2 = L2Coverage

  datatype Kind = PC | STORE_KIND | WRITEBACK | NEXT_PC | X0

  datatype Check = Check(id: int, kind: Kind)

  datatype Pending = Pending(hit: L2.L2Hit, required: seq<Check>)

  datatype Outcome = Outcome(
    hit: L2.L2Hit, controlPassed: bool, architecturalPassed: Option<bool>, validated: bool, failed: seq<Check>)

  type Results = map<Check, bool>

  datatype State = State(results: Results, pending: set<Pending>, attempts: int, validated: int, rejected: int)

  /** All evidence the hit needs is there. */
  predicate Ready(results: Results, p: Pending) {
    forall c | c in p.required :: c in results
  }

  /** The required checks that did not pass, in order. */
  function Failed(results: Results, required: seq<Check>): (f: seq<Check>)
    requires forall c | c in required :: c in results
    ensures forall c | c in f :: c in required && !results[c]
    ensures f == [] <==> forall c | c in required :: results[c]
  {
    if required == [] then []
    else
      var last := required[|required| - 1];
      assert last in required;
      assert forall c | c in required :: c == last || c in required[..|required| - 1];
      Failed(results, required[..|required| - 1]) + (if results[last] then [] else [last])
  }

  function OutcomeOf(results: Results, p: Pending): Outcome
    requires Ready(results, p)
  {
    var f := Failed(results, p.required);
    Outcome(p.hit, true, Some(f == []), f == [], f)
  }

  function ControlRejection(hit: L2.L2Hit): Outcome {
    Outcome(hit, false, None, false, [])
  }

  function Resolvable(results: Results, pending: set<Pending>): set<Pending> {
    set p | p in pending && Ready(results, p)
  }

  function Passing(results: Results, pending: set<Pending>): set<Pending> {
    set p | p in pending && Ready(results, p) && OutcomeOf(results, p).validated
  }

  function OutcomesOf(results: Results, pending: set<Pending>): set<Outcome> {
    set p | p in pending && Ready(results, p) :: OutcomeOf(results, p)
  }

  /** Everything resolvable leaves the pending hits, validated or rejected. */
  function Finalize(s: State): (State, set<Outcome>) {
    var done, passing := Resolvable(s.results, s.pending), Passing(s.results, s.pending);
    (State(s.results, s.pending - done, s.attempts, s.validated + |passing|, s.rejected + |done| - |passing|),
     OutcomesOf(s.results, s.pending))
  }

  datatype Ev = Hit(pending: Pending, control: bool) | Evidence(check: Check, passed: bool) | Prune(latest: int)

  function KeepFrom(latest: int): int {
    if latest - 5 > 1 then latest - 5 else 1
  }

  /** Evidence kept by a prune: recent, or of an instruction that a pending hit still needs. */
  predicate Kept(s: State, latest: int, id: int) {
    id >= KeepFrom(latest) || exists p, c :: p in s.pending && c in p.required && c.id == id
  }

  /** One call that returns normally, with the outcomes it returns. */
  ghost function Step(s: State, ev: Ev): Option<(State, set<Outcome>)> {
    match ev
    case Hit(p, control) =>
      if !control then
        Some((s.(attempts := s.attempts + 1, rejected := s.rejected + 1), {ControlRejection(p.hit)}))
      else if exists q :: q in s.pending && q.hit == p.hit then None
      else if Ready(s.results, p) then
        var o := OutcomeOf(s.results, p);
        Some((State(s.results, s.pending, s.attempts + 1,
                    s.validated + (if o.validated then 1 else 0), s.rejected + (if o.validated then 0 else 1)), {o}))
      else Some((s.(pending := s.pending + {p}, attempts := s.attempts + 1), {}))
    case Evidence(c, passed) =>
      if c.id <= 0 then None
      else if c in s.results then
        if s.results[c] != passed then None else Some((s, {}))
      else Some(Finalize(s.(results := s.results[c := passed])))
    case Prune(latest) =>
      if latest <= 0 then None
      else Some((s.(results := map c | c in s.results && Kept(s, latest, c.id) :: s.results[c]), {}))
  }

  // ---------------------------------------------------------------------
  // What every call keeps
  // ---------------------------------------------------------------------

  /** Every attempt is validated, rejected or pending, and nothing pending could be resolved. */
  ghost predicate Conserved(s: State) {
    && s.attempts == s.validated + s.rejected + |s.pending|
    && forall p | p in s.pending :: !Ready(s.results, p)
  }

  lemma SubsetCount<T>(a: set<T>, b: set<T>)
    requires a <= b
    ensures |b - a| == |b| - |a|
  {
    assert b == a + (b - a);
  }

  lemma HitConserves(s: State, p: Pending, control: bool)
    requires Conserved(s) && Step(s, Hit(p, control)).Some?
    ensures Conserved(Step(s, Hit(p, control)).value.0)
  {
    hide OutcomeOf, Ready;
  }

  lemma EvidenceConserves(s: State, c: Check, passed: bool)
    requires Conserved(s) && Step(s, Evidence(c, passed)).Some?
    ensures Conserved(Step(s, Evidence(c, passed)).value.0)
  {
    hide OutcomeOf, Ready, Passing, OutcomesOf;
    if c !in s.results {
      SubsetCount(Resolvable(s.results[c := passed], s.pending), s.pending);
    }
  }

  lemma PruneConserves(s: State, latest: int)
    requires Conserved(s) && latest > 0
    ensures Conserved(Step(s, Prune(latest)).value.0)
  {
    hide OutcomeOf, Kept;
  }

  lemma StepConserves(s: State, ev: Ev)
    requires Conserved(s) && Step(s, ev).Some?
    ensures Conserved(Step(s, ev).value.0)
  {
    hide Step, Conserved;
    match ev
    case Hit(p, control) => HitConserves(s, p, control);
    case Evidence(c, passed) => EvidenceConserves(s, c, passed);
    case Prune(latest) =>
      PositiveLatest(s, latest);
      PruneConserves(s, latest);
  }

  /**
   A prune forgets exactly the evidence more than five instructions back that no
   pending hit needs, and touches nothing else.
   */
  lemma PruneForgets(s: State, latest: int)
    requires latest > 0 && forall c | c in s.results :: c.id > 0
    ensures Step(s, Prune(latest)).Some?
    ensures var (after, outcomes) := Step(s, Prune(latest)).value;
            && after.(results := s.results) == s && outcomes == {}
            && forall c: Check ::
                 && (c in after.results <==>
                       c in s.results && (latest - c.id <= 5 || exists p, d :: p in s.pending && d in p.required && d.id == c.id))
                 && (c in after.results ==> after.results[c] == s.results[c])
  {
  }

  lemma PositiveLatest(s: State, latest: int)
    ensures Step(s, Prune(latest)).Some? <==> latest > 0
  {
  }

  // ---------------------------------------------------------------------
  // Runs
  // ---------------------------------------------------------------------

  /** The state after the calls and everything they returned. */
  ghost function Run(s: State, evs: seq<Ev>): Option<(State, set<Outcome>)> {
    if evs == [] then Some((s, {}))
    else
      match Run(s, evs[..|evs| - 1])
      case None => None
      case Some((before, log)) =>
        match Step(before, evs[|evs| - 1])
        case None => None
        case Some((after, more)) => Some((after, log + more))
  }

  const EMPTY := State(map[], {}, 0, 0, 0)

  lemma {:induction false} RunConserves(evs: seq<Ev>)
    requires Run(EMPTY, evs).Some?
    ensures Conserved(Run(EMPTY, evs).value.0)
  {
    hide Step, Conserved;
    if evs == [] {
      EmptyIsConserved();
    } else {
      RunConserves(evs[..|evs| - 1]);
      StepConserves(Run(EMPTY, evs[..|evs| - 1]).value.0, evs[|evs| - 1]);
    }
  }

  lemma EmptyIsConserved()
    ensures Conserved(EMPTY)
  {
  }

  /** No hit is registered twice. */
  predicate DistinctHits(evs: seq<Ev>) {
    forall i, j | 0 <= i < j < |evs| && evs[i].Hit? && evs[j].Hit? :: evs[i].pending.hit != evs[j].pending.hit
  }

  /** No two pieces of evidence contradict each other, and all carry a real instruction. */
  predicate Consistent(evs: seq<Ev>) {
    && (forall i, j | 0 <= i < |evs| && 0 <= j < |evs| && evs[i].Evidence? && evs[j].Evidence? ::
          evs[i].check == evs[j].check ==> evs[i].passed == evs[j].passed)
    && forall i | 0 <= i < |evs| && evs[i].Evidence? :: evs[i].check.id > 0
  }

  predicate Unpruned(evs: seq<Ev>) {
    forall i | 0 <= i < |evs| :: !evs[i].Prune?
  }

  /** The results are exactly the evidence that was given. */
  ghost predicate Holds(results: Results, evs: seq<Ev>) {
    forall c, v :: Evidence(c, v) in evs <==> c in results && results[c] == v
  }

  /** Exactly the unresolved hits are pending. */
  ghost predicate Waits(pending: set<Pending>, results: Results, evs: seq<Ev>) {
    forall p :: p in pending <==> Hit(p, true) in evs && !Ready(results, p)
  }

  /** The outcome a registered hit has once its evidence is complete. */
  ghost predicate Deserves(results: Results, ev: Ev, o: Outcome) {
    ev.Hit? && (if ev.control then Ready(results, ev.pending) && o == OutcomeOf(results, ev.pending)
                else o == ControlRejection(ev.pending.hit))
  }

  /** Exactly the deserved outcomes were returned. */
  ghost predicate Logged(log: set<Outcome>, results: Results, evs: seq<Ev>) {
    forall o :: o in log <==> exists ev :: ev in evs && Deserves(results, ev, o)
  }

  ghost predicate Accounted(s: State, log: set<Outcome>, evs: seq<Ev>) {
    Holds(s.results, evs) && Waits(s.pending, s.results, evs) && Logged(log, s.results, evs)
  }

  lemma {:induction false} SameFailed(a: Results, b: Results, required: seq<Check>)
    requires forall c | c in required :: c in a && c in b && a[c] == b[c]
    ensures Failed(a, required) == Failed(b, required)
  {
    if required != [] {
      SameFailed(a, b, required[..|required| - 1]);
    }
  }

  /** More evidence does not change an outcome. */
  lemma OutcomeStays(a: Results, b: Results, p: Pending)
    requires Ready(a, p) && (forall c | c in a :: c in b && b[c] == a[c])
    ensures Ready(b, p) && OutcomeOf(b, p) == OutcomeOf(a, p)
  {
    SameFailed(a, b, p.required);
  }

  lemma HitAccounts(s: State, log: set<Outcome>, evs: seq<Ev>, p: Pending, control: bool)
    requires Accounted(s, log, evs) && DistinctHits(evs + [Hit(p, control)])
    ensures Step(s, Hit(p, control)).Some?
    ensures var (after, more) := Step(s, Hit(p, control)).value; Accounted(after, log + more, evs + [Hit(p, control)])
  {
    hide Ready, OutcomeOf, ControlRejection;
    var ev := Hit(p, control);
    forall q | q in s.pending
      ensures q.hit != p.hit
    {
      var j :| 0 <= j < |evs| && evs[j] == Hit(q, true);
      assert (evs + [ev])[j].Hit? && (evs + [ev])[|evs|].Hit?;
    }
    Extended(log, s.results, evs, ev, Step(s, ev).value.1);
  }

  lemma Extended(log: set<Outcome>, results: Results, evs: seq<Ev>, ev: Ev, more: set<Outcome>)
    requires Logged(log, results, evs) && forall o :: o in more <==> Deserves(results, ev, o)
    ensures Logged(log + more, results, evs + [ev])
  {
    hide Deserves;
    forall o
      ensures o in log + more <==> exists x :: x in evs + [ev] && Deserves(results, x, o)
    {
      if o in more {
        assert ev in evs + [ev];
      } else if o in log {
        var x :| x in evs && Deserves(results, x, o);
        assert x in evs + [ev];
      }
    }
  }

  lemma EvidenceAccounts(s: State, log: set<Outcome>, evs: seq<Ev>, c: Check, passed: bool)
    requires Accounted(s, log, evs) && Consistent(evs + [Evidence(c, passed)])
    ensures Step(s, Evidence(c, passed)).Some?
    ensures var (after, more) := Step(s, Evidence(c, passed)).value;
            Accounted(after, log + more, evs + [Evidence(c, passed)])
  {
    hide OutcomeOf;
    var ev := Evidence(c, passed);
    assert (evs + [ev])[|evs|] == ev;
    if c in s.results {
      assert Evidence(c, s.results[c]) in evs;
      var j :| 0 <= j < |evs| && evs[j] == Evidence(c, s.results[c]);
      assert (evs + [ev])[j] == evs[j];
      Extended(log, s.results, evs, ev, {});
      assert log + {} == log;
    } else {
      NewEvidence(s, log, evs, c, passed);
    }
  }

  lemma NewEvidence(s: State, log: set<Outcome>, evs: seq<Ev>, c: Check, passed: bool)
    requires Accounted(s, log, evs) && c !in s.results && c.id > 0
    ensures var (after, more) := Step(s, Evidence(c, passed)).value;
            Accounted(after, log + more, evs + [Evidence(c, passed)])
  {
    hide OutcomeOf, ControlRejection, Ready;
    var ev := Evidence(c, passed);
    var results := s.results[c := passed];
    var more := OutcomesOf(results, s.pending);
    Monotone(s.results, results, c, passed);
    assert Holds(results, evs + [ev]);
    forall o
      ensures o in log + more <==> exists x :: x in evs + [ev] && Deserves(results, x, o)
    {
      if o in more {
        var p :| p in s.pending && Ready(results, p) && OutcomeOf(results, p) == o;
        assert Hit(p, true) in evs + [ev] && Deserves(results, Hit(p, true), o);
      } else if o in log {
        var x :| x in evs && Deserves(s.results, x, o);
        assert x in evs + [ev] && Deserves(results, x, o);
      }
      if x :| x in evs + [ev] && Deserves(results, x, o) {
        assert x in evs;
        if x.control && !Ready(s.results, x.pending) {
          assert x == Hit(x.pending, true);
          assert x.pending in s.pending;
        } else {
          assert Deserves(s.results, x, o);
        }
      }
    }
  }

  lemma Monotone(a: Results, b: Results, c: Check, passed: bool)
    requires c !in a && b == a[c := passed]
    ensures forall p | Ready(a, p) :: Ready(b, p) && OutcomeOf(b, p) == OutcomeOf(a, p)
  {
    hide OutcomeOf, Ready;
    forall p | Ready(a, p)
      ensures Ready(b, p) && OutcomeOf(b, p) == OutcomeOf(a, p)
    {
      OutcomeStays(a, b, p);
    }
  }

  lemma PrefixOk(evs: seq<Ev>)
    requires evs != [] && DistinctHits(evs) && Consistent(evs) && Unpruned(evs)
    ensures DistinctHits(evs[..|evs| - 1]) && Consistent(evs[..|evs| - 1]) && Unpruned(evs[..|evs| - 1])
    ensures !evs[|evs| - 1].Prune? && evs[..|evs| - 1] + [evs[|evs| - 1]] == evs
  {
  }

  /**
   With distinct hits and consistent evidence no order of arrival is refused,
   and at every point exactly the resolvable hits have been resolved, each with
   the outcome its evidence gives it.
   */
  lemma {:induction false} RunAccounts(evs: seq<Ev>)
    requires DistinctHits(evs) && Consistent(evs) && Unpruned(evs)
    ensures Run(EMPTY, evs).Some? && Accounted(Run(EMPTY, evs).value.0, Run(EMPTY, evs).value.1, evs)
  {
    hide Step, Accounted, DistinctHits, Consistent, Unpruned;
    if evs == [] {
      NothingAccounted();
    } else {
      PrefixOk(evs);
      var front, ev := evs[..|evs| - 1], evs[|evs| - 1];
      RunAccounts(front);
      var (s, log) := Run(EMPTY, front).value;
      match ev
      case Hit(p, control) => HitAccounts(s, log, front, p, control);
      case Evidence(c, passed) => EvidenceAccounts(s, log, front, c, passed);
    }
  }

  lemma NothingAccounted()
    ensures Accounted(EMPTY, {}, [])
  {
  }

  lemma SameAccount(s: State, log: set<Outcome>, evs: seq<Ev>, s': State, log': set<Outcome>, evs': seq<Ev>)
    requires Accounted(s, log, evs) && Accounted(s', log', evs') && forall ev :: ev in evs <==> ev in evs'
    ensures s.results == s'.results && s.pending == s'.pending && log == log'
  {
    hide Ready, Deserves;
    forall c
      ensures c in s.results <==> c in s'.results
      ensures c in s.results ==> s.results[c] == s'.results[c]
    {
      if c in s.results {
        assert Evidence(c, s.results[c]) in evs';
      }
      if c in s'.results {
        assert Evidence(c, s'.results[c]) in evs;
      }
    }
    assert s.results == s'.results;
  }

  // ---------------------------------------------------------------------
  // The counters
  // ---------------------------------------------------------------------

  function ValidatedIn(log: set<Outcome>): set<Outcome> {
    set o | o in log && o.validated
  }

  /** The counters count the outcomes. */
  predicate Tallied(s: State, log: set<Outcome>) {
    s.validated == |ValidatedIn(log)| && s.rejected == |log| - |ValidatedIn(log)|
  }

  predicate OwnHits(ps: set<Pending>) {
    forall p, q | p in ps && q in ps && p.hit == q.hit :: p == q
  }

  lemma JoinTally(log: set<Outcome>, more: set<Outcome>)
    requires log !! more
    ensures |log + more| == |log| + |more|
    ensures |ValidatedIn(log + more)| == |ValidatedIn(log)| + |ValidatedIn(more)|
  {
    assert ValidatedIn(log + more) == ValidatedIn(log) + ValidatedIn(more);
  }

  lemma {:induction false} CountOutcomes(results: Results, ps: set<Pending>)
    requires OwnHits(ps)
    ensures |OutcomesOf(results, ps)| == |Resolvable(results, ps)|
    ensures |ValidatedIn(OutcomesOf(results, ps))| == |Passing(results, ps)|
  {
    hide Ready, OutcomeOf, OutcomesOf, Resolvable, Passing, ValidatedIn;
    if ps == {} {
      NoneResolvable(results);
    } else {
      var p :| p in ps;
      var rest := ps - {p};
      CountOutcomes(results, rest);
      assert ps == rest + {p};
      OneMore(results, rest, p);
      if Ready(results, p) {
        var o := OutcomeOf(results, p);
        FreshOutcome(results, rest, p);
        OneValidated(o);
        JoinTally(OutcomesOf(results, rest), {o});
        NotCounted(results, rest, p);
      }
    }
  }

  lemma NoneResolvable(results: Results)
    ensures OutcomesOf(results, {}) == {} && Resolvable(results, {}) == {} && Passing(results, {}) == {}
    ensures ValidatedIn({}) == {}
  {
  }

  lemma FreshOutcome(results: Results, rest: set<Pending>, p: Pending)
    requires OwnHits(rest + {p}) && p !in rest && Ready(results, p)
    ensures OutcomeOf(results, p) !in OutcomesOf(results, rest)
  {
    hide Ready, OutcomeOf;
    forall q | q in rest && Ready(results, q)
      ensures OutcomeOf(results, q) != OutcomeOf(results, p)
    {
      OutcomeNamesHit(results, p);
      OutcomeNamesHit(results, q);
      assert q in rest + {p} && p in rest + {p};
    }
  }

  lemma OneValidated(o: Outcome)
    ensures ValidatedIn({o}) == if o.validated then {o} else {}
  {
  }

  lemma NotCounted(results: Results, rest: set<Pending>, p: Pending)
    requires p !in rest
    ensures p !in Resolvable(results, rest) && p !in Passing(results, rest)
  {
  }

  lemma OneMore(results: Results, rest: set<Pending>, p: Pending)
    requires p !in rest
    ensures var ps := rest + {p};
            if Ready(results, p) then
              && OutcomesOf(results, ps) == OutcomesOf(results, rest) + {OutcomeOf(results, p)}
              && Resolvable(results, ps) == Resolvable(results, rest) + {p}
              && Passing(results, ps)
                 == Passing(results, rest) + (if OutcomeOf(results, p).validated then {p} else {})
            else
              && OutcomesOf(results, ps) == OutcomesOf(results, rest)
              && Resolvable(results, ps) == Resolvable(results, rest) && Passing(results, ps) == Passing(results, rest)
  {
    hide Ready, OutcomeOf;
  }

  lemma OutcomeNamesHit(results: Results, p: Pending)
    requires Ready(results, p)
    ensures OutcomeOf(results, p).hit == p.hit && OutcomeOf(results, p).controlPassed
  {
  }

  lemma SameHitSameEvent(evs: seq<Ev>, a: Ev, b: Ev)
    requires DistinctHits(evs) && a in evs && b in evs && a.Hit? && b.Hit? && a.pending.hit == b.pending.hit
    ensures a == b
  {
    var i :| 0 <= i < |evs| && evs[i] == a;
    var j :| 0 <= j < |evs| && evs[j] == b;
  }

  lemma DeservedNamesHit(results: Results, ev: Ev, o: Outcome)
    requires Deserves(results, ev, o)
    ensures ev.Hit? && o.hit == ev.pending.hit
  {
  }

  lemma HitTallies(s: State, log: set<Outcome>, evs: seq<Ev>, p: Pending, control: bool)
    requires Accounted(s, log, evs) && Tallied(s, log) && DistinctHits(evs + [Hit(p, control)])
    requires Step(s, Hit(p, control)).Some?
    ensures var (after, more) := Step(s, Hit(p, control)).value; Tallied(after, log + more)
  {
    hide Ready, OutcomeOf, Deserves, Holds, Waits, DistinctHits;
    var (_, more) := Step(s, Hit(p, control)).value;
    forall o | o in log && o in more
      ensures false
    {
      var x :| x in evs && Deserves(s.results, x, o);
      DeservedNamesHit(s.results, x, o);
      if control {
        OutcomeNamesHit(s.results, p);
      }
      NewHit(evs, x, p, control);
    }
    JoinTally(log, more);
    if more != {} {
      var o :| o in more;
      assert ValidatedIn(more) == if o.validated then {o} else {};
    } else {
      assert ValidatedIn(more) == {};
    }
  }

  lemma NewHit(evs: seq<Ev>, x: Ev, p: Pending, control: bool)
    requires DistinctHits(evs + [Hit(p, control)]) && x in evs && x.Hit?
    ensures x.pending.hit != p.hit
  {
    var more := evs + [Hit(p, control)];
    var i :| 0 <= i < |evs| && evs[i] == x;
    assert more[i] == x && more[|evs|] == Hit(p, control);
  }

  lemma EvidenceTallies(s: State, log: set<Outcome>, evs: seq<Ev>, c: Check, passed: bool)
    requires Accounted(s, log, evs) && Tallied(s, log) && DistinctHits(evs)
    requires Step(s, Evidence(c, passed)).Some?
    ensures var (after, more) := Step(s, Evidence(c, passed)).value; Tallied(after, log + more)
  {
    hide Ready, OutcomeOf, Deserves, Holds, DistinctHits, Resolvable, Passing;
    var (_, more) := Step(s, Evidence(c, passed)).value;
    if c in s.results {
      assert log + {} == log;
    } else {
      var results := s.results[c := passed];
      forall p, q | p in s.pending && q in s.pending && p.hit == q.hit
        ensures p == q
      {
        SameHitSameEvent(evs, Hit(p, true), Hit(q, true));
      }
      forall o | o in log && o in more
        ensures false
      {
        var p :| p in s.pending && Ready(results, p) && OutcomeOf(results, p) == o;
        OutcomeNamesHit(results, p);
        var x :| x in evs && Deserves(s.results, x, o);
        DeservedNamesHit(s.results, x, o);
        SameHitSameEvent(evs, Hit(p, true), x);
        DeservedIsReady(s.results, p, o);
        assert false;
      }
      CountOutcomes(results, s.pending);
      JoinTally(log, more);
    }
  }

  lemma DeservedIsReady(results: Results, p: Pending, o: Outcome)
    requires Deserves(results, Hit(p, true), o)
    ensures Ready(results, p)
  {
  }

  lemma {:induction false} RunTallies(evs: seq<Ev>)
    requires DistinctHits(evs) && Consistent(evs) && Unpruned(evs)
    ensures Run(EMPTY, evs).Some? && Tallied(Run(EMPTY, evs).value.0, Run(EMPTY, evs).value.1)
  {
    hide Step, Accounted, DistinctHits, Consistent, Unpruned, Tallied;
    RunAccounts(evs);
    if evs == [] {
      NothingTallied();
    } else {
      PrefixOk(evs);
      var front, ev := evs[..|evs| - 1], evs[|evs| - 1];
      RunTallies(front);
      RunAccounts(front);
      var (s, log) := Run(EMPTY, front).value;
      match ev
      case Hit(p, control) => HitTallies(s, log, front, p, control);
      case Evidence(c, passed) => EvidenceTallies(s, log, front, c, passed);
    }
  }

  lemma NothingTallied()
    ensures Tallied(EMPTY, {})
  {
    assert ValidatedIn({}) == {};
  }

  /**
   Confluence: two arrival orders of the same distinct hits and the same
   consistent evidence end in the same state, counters included, having
   returned the same outcomes.
   */
  lemma Confluence(evs: seq<Ev>, evs': seq<Ev>)
    requires DistinctHits(evs) && Consistent(evs) && Unpruned(evs)
    requires DistinctHits(evs') && Consistent(evs') && Unpruned(evs')
    requires forall ev :: ev in evs <==> ev in evs'
    ensures Run(EMPTY, evs).Some? && Run(EMPTY, evs) == Run(EMPTY, evs')
  {
    hide Step, Run, Accounted, DistinctHits, Consistent, Unpruned;
    RunAccounts(evs);
    RunAccounts(evs');
    var (s, log) := Run(EMPTY, evs).value;
    var (s', log') := Run(EMPTY, evs').value;
    SameAccount(s, log, evs, s', log', evs');
    RunTallies(evs);
    RunTallies(evs');
    RunConserves(evs);
    RunConserves(evs');
  }

  // ---------------------------------------------------------------------
  // What an outcome rests on
  // ---------------------------------------------------------------------

  /** The call registered the hit of the outcome, and the evidence given bears the outcome out. */
  ghost predicate Bears(ev: Ev, o: Outcome, evs: seq<Ev>) {
    && ev.Hit? && o.hit == ev.pending.hit && o.controlPassed == ev.control
    && o.architecturalPassed == (if ev.control then Some(o.validated) else None)
    && (o.validated <==> ev.control && o.failed == [])
    && (forall c | c in o.failed :: ev.control && c in ev.pending.required)
    && (ev.control ==> forall c | c in ev.pending.required ::
          if c in o.failed then Evidence(c, false) in evs else Evidence(c, true) in evs)
  }

  ghost predicate Grounded(s: State, log: set<Outcome>, evs: seq<Ev>) {
    && (forall c | c in s.results :: Evidence(c, s.results[c]) in evs)
    && (forall p | p in s.pending :: Hit(p, true) in evs)
    && forall o | o in log :: exists ev :: ev in evs && Bears(ev, o, evs)
  }

  lemma StaysGrounded(s: State, log: set<Outcome>, evs: seq<Ev>, ev: Ev)
    requires Grounded(s, log, evs)
    ensures Grounded(s, log, evs + [ev])
  {
    forall o | o in log
      ensures exists x :: x in evs + [ev] && Bears(x, o, evs + [ev])
    {
      var x :| x in evs && Bears(x, o, evs);
      assert x in evs + [ev];
    }
  }

  lemma ReadyIsGrounded(results: Results, p: Pending, evs: seq<Ev>)
    requires Ready(results, p) && forall c | c in results :: Evidence(c, results[c]) in evs
    ensures Bears(Hit(p, true), OutcomeOf(results, p), evs)
  {
    var f := Failed(results, p.required);
    assert f != [] ==> f[0] in f;
    forall c | c in p.required
      ensures if c in f then Evidence(c, false) in evs else Evidence(c, true) in evs
    {
      FailedAre(results, p.required, c);
      assert Evidence(c, results[c]) in evs;
    }
  }

  lemma {:induction false} FailedAre(results: Results, required: seq<Check>, c: Check)
    requires (forall x | x in required :: x in results) && c in required
    ensures c in Failed(results, required) <==> !results[c]
  {
    if c in required[..|required| - 1] {
      FailedAre(results, required[..|required| - 1], c);
    }
  }

  lemma FinalizeIsGrounded(s: State, log: set<Outcome>, evs: seq<Ev>)
    requires Grounded(s, log, evs)
    ensures Grounded(Finalize(s).0, log + Finalize(s).1, evs)
  {
    hide Ready, OutcomeOf, Bears;
    forall o | o in Finalize(s).1
      ensures exists x :: x in evs && Bears(x, o, evs)
    {
      var p :| p in s.pending && Ready(s.results, p) && OutcomeOf(s.results, p) == o;
      ReadyIsGrounded(s.results, p, evs);
    }
  }

  lemma StepIsGrounded(s: State, log: set<Outcome>, evs: seq<Ev>, ev: Ev)
    requires Grounded(s, log, evs) && Step(s, ev).Some?
    ensures Grounded(Step(s, ev).value.0, log + Step(s, ev).value.1, evs + [ev])
  {
    hide Ready, OutcomeOf, Finalize, Kept;
    StaysGrounded(s, log, evs, ev);
    assert ev in evs + [ev];
    match ev
    case Hit(p, control) =>
      if !control {
        assert Bears(ev, ControlRejection(p.hit), evs + [ev]);
      } else if Ready(s.results, p) {
        ReadyIsGrounded(s.results, p, evs + [ev]);
      }
    case Evidence(c, passed) =>
      if c !in s.results {
        FinalizeIsGrounded(s.(results := s.results[c := passed]), log, evs + [ev]);
      }
    case Prune(latest) =>
  }

  /**
   Whatever the calls, pruned or not, repeated or refused later: a validated hit
   was registered with passing control and all its checks were recorded as passed,
   a hit rejected after its control passed has a check recorded as failed, and a
   hit with failing control is never validated.
   */
  lemma {:induction false} RunIsGrounded(evs: seq<Ev>)
    requires Run(EMPTY, evs).Some?
    ensures Grounded(Run(EMPTY, evs).value.0, Run(EMPTY, evs).value.1, evs)
  {
    hide Step, Grounded;
    if evs == [] {
      NothingGrounded();
    } else {
      var front, ev := evs[..|evs| - 1], evs[|evs| - 1];
      RunIsGrounded(front);
      StepIsGrounded(Run(EMPTY, front).value.0, Run(EMPTY, front).value.1, front, ev);
      assert front + [ev] == evs;
    }
  }

  lemma NothingGrounded()
    ensures Grounded(EMPTY, {}, [])
  {
  }

  // ---------------------------------------------------------------------
  // Pruning
  // ---------------------------------------------------------------------

  /** A pruned state differs only in evidence below the floor that no pending hit needs. */
  ghost predicate Similar(s: State, t: State, floor: int) {
    && t.pending == s.pending
    && t.attempts == s.attempts && t.validated == s.validated && t.rejected == s.rejected
    && (forall c | c in t.results :: c in s.results && s.results[c] == t.results[c])
    && (forall c | c in s.results && c !in t.results :: c.id < floor)
    && forall p, c | p in s.pending && c in p.required && c in s.results :: c in t.results
  }

  lemma SimilarReady(s: State, t: State, floor: int, p: Pending)
    requires Similar(s, t, floor) && (p in s.pending || forall c | c in p.required :: c.id >= floor)
    ensures Ready(s.results, p) <==> Ready(t.results, p)
    ensures Ready(s.results, p) ==> OutcomeOf(s.results, p) == OutcomeOf(t.results, p)
  {
    if Ready(s.results, p) {
      forall c | c in p.required
        ensures c in t.results
      {
      }
      OutcomeStays(t.results, s.results, p);
    }
  }

  lemma SimilarHit(s: State, t: State, floor: int, p: Pending, control: bool)
    requires Similar(s, t, floor) && (forall c | c in p.required :: c.id >= floor)
    requires Step(s, Hit(p, control)).Some?
    ensures Step(t, Hit(p, control)).Some? && Step(t, Hit(p, control)).value.1 == Step(s, Hit(p, control)).value.1
    ensures Similar(Step(s, Hit(p, control)).value.0, Step(t, Hit(p, control)).value.0, floor)
  {
    hide OutcomeOf, Ready;
    SimilarReady(s, t, floor, p);
  }

  lemma SimilarFinalize(s: State, t: State, floor: int)
    requires Similar(s, t, floor)
    ensures Finalize(s).1 == Finalize(t).1 && Similar(Finalize(s).0, Finalize(t).0, floor)
  {
    hide OutcomeOf, Ready;
    forall p | p in s.pending
      ensures Ready(s.results, p) <==> Ready(t.results, p)
      ensures Ready(s.results, p) ==> OutcomeOf(s.results, p) == OutcomeOf(t.results, p)
    {
      SimilarReady(s, t, floor, p);
    }
    assert Resolvable(s.results, s.pending) == Resolvable(t.results, t.pending);
    assert Passing(s.results, s.pending) == Passing(t.results, t.pending);
    assert OutcomesOf(s.results, s.pending) == OutcomesOf(t.results, t.pending);
  }

  /** Evidence that was already pruned finds nobody waiting for it. */
  lemma StaleEvidence(s: State, t: State, floor: int, c: Check)
    requires Similar(s, t, floor) && Conserved(t) && c in s.results && c !in t.results
    ensures var after := Finalize(t.(results := t.results[c := s.results[c]]));
            after.1 == {} && Similar(s, after.0, floor)
  {
    hide OutcomeOf;
    var results := t.results[c := s.results[c]];
    forall p | p in t.pending
      ensures !Ready(results, p)
    {
      var missing :| missing in p.required && missing !in t.results;
      assert missing != c;
    }
    assert Resolvable(results, t.pending) == {} && Passing(results, t.pending) == {};
    assert OutcomesOf(results, t.pending) == {};
    assert t.pending - {} == t.pending;
  }

  lemma SimilarEvidence(s: State, t: State, floor: int, c: Check, passed: bool)
    requires Similar(s, t, floor) && Conserved(t) && Step(s, Evidence(c, passed)).Some?
    ensures Step(t, Evidence(c, passed)).Some?
    ensures Step(t, Evidence(c, passed)).value.1 == Step(s, Evidence(c, passed)).value.1
    ensures Similar(Step(s, Evidence(c, passed)).value.0, Step(t, Evidence(c, passed)).value.0, floor)
  {
    hide Finalize, Conserved;
    if c in s.results && c !in t.results {
      StaleEvidence(s, t, floor, c);
    } else if c !in s.results {
      SimilarFinalize(s.(results := s.results[c := passed]), t.(results := t.results[c := passed]), floor);
    }
  }

  lemma SimilarPrune(s: State, t: State, floor: int, latest: int)
    requires Similar(s, t, floor) && latest > 0
    ensures Step(t, Prune(latest)).Some? && Step(t, Prune(latest)).value.1 == {}
    ensures Similar(s, Step(t, Prune(latest)).value.0, if floor > KeepFrom(latest) then floor else KeepFrom(latest))
  {
    hide KeepFrom;
  }

  /** The same calls without the prunes. */
  function WithoutPrunes(evs: seq<Ev>): seq<Ev> {
    if evs == [] then []
    else WithoutPrunes(evs[..|evs| - 1]) + (if evs[|evs| - 1].Prune? then [] else [evs[|evs| - 1]])
  }

  /** Below the floor evidence may have been dropped. */
  function Floor(evs: seq<Ev>): int {
    if evs == [] then 0
    else
      var before, ev := Floor(evs[..|evs| - 1]), evs[|evs| - 1];
      if ev.Prune? && KeepFrom(ev.latest) > before then KeepFrom(ev.latest) else before
  }

  /** Prunes are legal and no later hit needs an instruction below them. */
  predicate Timely(evs: seq<Ev>) {
    evs == []
    || (&& Timely(evs[..|evs| - 1])
        && match evs[|evs| - 1]
           case Hit(p, _) => forall c | c in p.required :: c.id >= Floor(evs[..|evs| - 1])
           case Evidence(_, _) => true
           case Prune(latest) => latest > 0)
  }

  /** A checker pruned along the way answers every call as one that never was. */
  lemma {:induction false} PruneIsTransparent(evs: seq<Ev>)
    requires Timely(evs) && Run(EMPTY, WithoutPrunes(evs)).Some?
    ensures Run(EMPTY, evs).Some?
    ensures var (s, log) := Run(EMPTY, WithoutPrunes(evs)).value;
            var (t, log') := Run(EMPTY, evs).value;
            log == log' && Similar(s, t, Floor(evs))
  {
    hide Step, Similar, KeepFrom;
    if evs == [] {
      SimilarToItself(EMPTY);
    } else {
      var front, ev := evs[..|evs| - 1], evs[|evs| - 1];
      var all := WithoutPrunes(evs);
      if ev.Prune? {
        assert all == WithoutPrunes(front);
      } else {
        assert all[..|all| - 1] == WithoutPrunes(front);
      }
      PruneIsTransparent(front);
      RunConserves(front);
      var (s, log) := Run(EMPTY, WithoutPrunes(front)).value;
      var (t, _) := Run(EMPTY, front).value;
      match ev
      case Hit(p, control) => SimilarHit(s, t, Floor(front), p, control);
      case Evidence(c, passed) => SimilarEvidence(s, t, Floor(front), c, passed);
      case Prune(latest) =>
        SimilarPrune(s, t, Floor(front), latest);
        assert log + {} == log;
    }
  }

  lemma SimilarToItself(s: State)
    ensures Similar(s, s, 0)
  {
  }

  /** The hit needs evidence of its two participants only, one or two instructions apart. */
  predicate OfParticipants(p: Pending) {
    && 1 <= p.hit.producer && p.hit.consumer - 2 <= p.hit.producer < p.hit.consumer
    && forall c | c in p.required :: c.id == p.hit.producer || c.id == p.hit.consumer
  }

  /** The last instruction any prune was told of, zero before the first. */
  function LatestPruned(evs: seq<Ev>): (latest: int)
    ensures latest >= 0
  {
    if evs == [] then 0
    else
      var before, ev := LatestPruned(evs[..|evs| - 1]), evs[|evs| - 1];
      if ev.Prune? && ev.latest > before then ev.latest else before
  }

  /** Hits come in as their consumers are executed: none belongs to an instruction a prune was already told of. */
  predicate InStreamOrder(evs: seq<Ev>) {
    evs == []
    || (&& InStreamOrder(evs[..|evs| - 1])
        && match evs[|evs| - 1]
           case Hit(p, _) => OfParticipants(p) && p.hit.consumer > LatestPruned(evs[..|evs| - 1])
           case Evidence(_, _) => true
           case Prune(latest) => latest > 0)
  }

  lemma {:induction false} FloorIsOfLatest(evs: seq<Ev>)
    requires InStreamOrder(evs)
    ensures Floor(evs) == if LatestPruned(evs) == 0 then 0 else KeepFrom(LatestPruned(evs))
  {
    if evs != [] {
      FloorIsOfLatest(evs[..|evs| - 1]);
    }
  }

  /** The margin of five is enough: no hit that is still to come needs what a prune may drop. */
  lemma {:induction false} StreamOrderIsTimely(evs: seq<Ev>)
    requires InStreamOrder(evs)
    ensures Timely(evs)
  {
    if evs != [] {
      StreamOrderIsTimely(evs[..|evs| - 1]);
      FloorIsOfLatest(evs[..|evs| - 1]);
    }
  }

  /** In stream order, pruning after any instructions changes no answer. */
  lemma StreamPruneIsTransparent(evs: seq<Ev>)
    requires InStreamOrder(evs) && DistinctHits(WithoutPrunes(evs)) && Consistent(WithoutPrunes(evs))
    ensures Run(EMPTY, evs).Some? && Run(EMPTY, WithoutPrunes(evs)).Some?
    ensures var (s, log) := Run(EMPTY, WithoutPrunes(evs)).value;
            var (t, log') := Run(EMPTY, evs).value;
            log == log' && Similar(s, t, Floor(evs))
  {
    hide Run, Similar, Floor, InStreamOrder, Accounted;
    NothingPruned(evs);
    RunAccounts(WithoutPrunes(evs));
    StreamOrderIsTimely(evs);
    PruneIsTransparent(evs);
  }

  lemma {:induction false} NothingPruned(evs: seq<Ev>)
    ensures Unpruned(WithoutPrunes(evs))
  {
    if evs != [] {
      NothingPruned(evs[..|evs| - 1]);
    }
  }
}
