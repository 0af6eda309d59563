/** The checker object: nested result tables, pending hits by consumer, and its three counters. */
module L2EvidenceChecker {
  import opened Wrappers
  import opened Rv32Isa
  import opened Execution
  import opened EvidenceRuns
  import L2 = L2Coverage

  datatype EvidenceError =
    | WrongProducer | WrongConsumer | ProducerWritesNothing | WrongRegister | ZeroProducer
    | DuplicatePending | BadInstructionId | Conflicting | BadLatest

  function KindsOf(e: Event): seq<Kind> {
    [PC, STORE_KIND, WRITEBACK, NEXT_PC] + (if e.d.writesRd && e.d.rd == 0 then [X0] else [])
  }

  function ChecksOf(e: Event): (cs: seq<Check>)
    ensures forall c | c in cs :: c.id == e.index
  {
    seq(|KindsOf(e)|, k requires 0 <= k < |KindsOf(e)| => Check(e.index, KindsOf(e)[k]))
  }

  /** Those of the checks that were not seen before, in order. */
  function Unseen(cs: seq<Check>, seen: seq<Check>): (r: seq<Check>)
    ensures forall c :: c in r <==> c in cs && c !in seen
  {
    if cs == [] then []
    else
      var last := cs[|cs| - 1];
      assert forall c :: c in cs <==> c in cs[..|cs| - 1] || c == last;
      Unseen(cs[..|cs| - 1], seen) + (if last in seen then [] else [last])
  }

  /** The evidence of both participants, without repetition. */
  function RequiredChecks(hit: L2.L2Hit, producer: Event, consumer: Event): (r: Result<seq<Check>, EvidenceError>)
    ensures r.Ok? ==> forall c | c in r.value :: c.id == hit.producer || c.id == hit.consumer
    ensures r.Ok? ==> forall c :: c in r.value <==> Needed(c, producer, consumer)
  {
    if producer.index != hit.producer then Err(WrongProducer)
    else if consumer.index != hit.consumer then Err(WrongConsumer)
    else if !producer.d.writesRd then Err(ProducerWritesNothing)
    else if producer.d.rd != hit.register then Err(WrongRegister)
    else if producer.d.rd == 0 then Err(ZeroProducer)
    else
      ChecksAreNeeded(producer);
      ChecksAreNeeded(consumer);
      Ok(ChecksOf(producer) + Unseen(ChecksOf(consumer), ChecksOf(producer)))
  }

  /**
   The evidence a positive dependency calls for: PC, store, write-back and next
   PC of both participants, and that x0 stays zero if the consumer writes it.
   */
  predicate Needed(c: Check, producer: Event, consumer: Event) {
    if c.kind == X0 then c.id == consumer.index && consumer.d.writesRd && consumer.d.rd == 0
    else c.kind in {PC, STORE_KIND, WRITEBACK, NEXT_PC} && (c.id == producer.index || c.id == consumer.index)
  }

  lemma ChecksAreNeeded(e: Event)
    ensures forall c :: c in ChecksOf(e) <==>
                          c.id == e.index && (c.kind in {PC, STORE_KIND, WRITEBACK, NEXT_PC}
                                              || (c.kind == X0 && e.d.writesRd && e.d.rd == 0))
  {
    var kinds, checks := KindsOf(e), ChecksOf(e);
    forall c
      ensures c in checks <==> c.id == e.index && c.kind in kinds
    {
      if c.id == e.index && c.kind in kinds {
        var k :| 0 <= k < |kinds| && kinds[k] == c.kind;
        assert checks[k] == c;
      }
    }
  }

  /**
   A hit reported as validated had passing control, and of both its participants
   PC, store, write-back and next PC were recorded as passed, and x0 if written.
   */
  lemma ValidatedHasAllEvidence(evs: seq<Ev>, o: Outcome) returns (producer: Event, consumer: Event)
    requires Run(EMPTY, evs).Some? && o in Run(EMPTY, evs).value.1 && o.validated
    requires forall p | Hit(p, true) in evs :: FromEvents(p)
    ensures o.controlPassed && producer.index == o.hit.producer && consumer.index == o.hit.consumer
    ensures producer.d.writesRd && producer.d.rd == o.hit.register
    ensures forall c | Needed(c, producer, consumer) :: Evidence(c, true) in evs
    ensures forall id, kind | id in {o.hit.producer, o.hit.consumer} && kind in {PC, STORE_KIND, WRITEBACK, NEXT_PC} ::
              Evidence(Check(id, kind), true) in evs
  {
    hide Run;
    RunIsGrounded(evs);
    var ev :| ev in evs && Bears(ev, o, evs);
    assert ev == Hit(ev.pending, true);
    producer, consumer :| RequiredChecks(ev.pending.hit, producer, consumer) == Ok(ev.pending.required);
    forall id, kind | id in {o.hit.producer, o.hit.consumer} && kind in {PC, STORE_KIND, WRITEBACK, NEXT_PC}
      ensures Evidence(Check(id, kind), true) in evs
    {
      assert Needed(Check(id, kind), producer, consumer);
    }
  }

  /** The hit was registered with the events of its participants. */
  ghost predicate FromEvents(p: Pending) {
    exists producer, consumer :: RequiredChecks(p.hit, producer, consumer) == Ok(p.required)
  }

  /** What the collector reports and the checker registers needs its participants only. */
  lemma CollectedHitIsOfParticipants(writers: L2.Writers, producer: Event, consumer: Event, hit: L2.L2Hit)
    requires hit in L2.HitsOf(writers, consumer) && hit.producer >= 1 && RequiredChecks(hit, producer, consumer).Ok?
    ensures OfParticipants(Pending(hit, RequiredChecks(hit, producer, consumer).value))
  {
    hide L2.HitsFrom, ChecksOf;
    L2.HitHasSource(writers, consumer, Sources(consumer.d), hit);
  }

  type Tables = map<int, map<Kind, bool>>

  function Flat(t: Tables): Results {
    map id, k | id in t && k in t[id] :: Check(id, k) := t[id][k]
  }

  lemma FlatLookup(t: Tables, c: Check)
    ensures c in Flat(t) <==> c.id in t && c.kind in t[c.id]
    ensures c in Flat(t) ==> Flat(t)[c] == t[c.id][c.kind]
  {
    if c.id in t && c.kind in t[c.id] {
      assert Check(c.id, c.kind) in Flat(t);
    }
  }

  type Waiting = map<int, seq<Pending>>

  function Items(items: seq<Pending>): set<Pending> {
    set p | p in items
  }

  function All(w: Waiting): set<Pending> {
    set c, p | c in w && p in w[c] :: p
  }

  predicate Apart(items: seq<Pending>) {
    forall i, j | 0 <= i < j < |items| :: items[i].hit != items[j].hit
  }

  /** Hits wait under their own consumer, without repetition. */
  predicate Sorted(w: Waiting) {
    forall c | c in w :: w[c] != [] && Apart(w[c]) && forall p | p in w[c] :: p.hit.consumer == c
  }

  lemma NothingKept()
    ensures Flat(map[]) == map[] && All(map[]) == {} && Sorted(map[])
  {
  }

  class Checker {
    var results: Tables
    var waiting: Waiting
    var attempts: int
    var validated: int
    var rejected: int

    ghost predicate Valid()
      reads this
    {
      Sorted(waiting) && Conserved(View())
    }

    function View(): State
      reads this
    {
      State(Flat(results), All(waiting), attempts, validated, rejected)
    }

    constructor ()
      ensures Valid() && View() == EMPTY
    {
      hide Flat, All, Sorted, Conserved;
      results := map[];
      waiting := map[];
      attempts, validated, rejected := 0, 0, 0;
      new;
      NothingKept();
      EmptyIsConserved();
    }

    /** Resolves one waiting hit if its evidence is complete, and counts it. */
    method Evaluate(p: Pending) returns (o: Option<Outcome>)
      modifies `validated, `rejected
      ensures o == if Ready(Flat(results), p) then Some(OutcomeOf(Flat(results), p)) else None
      ensures validated == old(validated) + (if o.Some? && o.value.validated then 1 else 0)
      ensures rejected == old(rejected) + (if o.Some? && !o.value.validated then 1 else 0)
    {
      hide Flat, Failed;
      for k := 0 to |p.required|
        modifies {}
        invariant forall j | 0 <= j < k :: p.required[j] in Flat(results)
      {
        var c := p.required[k];
        FlatLookup(results, c);
        if c.id !in results || c.kind !in results[c.id] {
          assert c in p.required;
          return None;
        }
      }
      var outcome := OutcomeOf(Flat(results), p);
      if outcome.validated {
        validated := validated + 1;
      } else {
        rejected := rejected + 1;
      }
      o := Some(outcome);
    }

    /** Resolves what can be resolved of one consumer's hits. */
    method TryFinalizeConsumer(consumer: int) returns (outcomes: seq<Outcome>)
      requires Sorted(waiting)
      modifies `waiting, `validated, `rejected
      ensures Sorted(waiting)
      ensures var items := if consumer in old(waiting) then Items(old(waiting)[consumer]) else {};
              && All(waiting) == All(old(waiting)) - Resolvable(Flat(results), items)
              && Returned(outcomes) == OutcomesOf(Flat(results), items)
              && validated == old(validated) + |Passing(Flat(results), items)|
              && rejected == old(rejected) + |Resolvable(Flat(results), items)| - |Passing(Flat(results), items)|
      ensures forall c | c != consumer :: (c in waiting <==> c in old(waiting))
      ensures forall c | c != consumer && c in waiting :: waiting[c] == old(waiting)[c]
    {
      hide Flat, Ready, OutcomeOf, Resolvable, Passing, OutcomesOf, All, Apart;
      if consumer !in waiting {
        NothingWaiting(Flat(results));
        return [];
      }
      var items := waiting[consumer];
      outcomes := [];
      var remaining: seq<Pending> := [];
      NothingWaiting(Flat(results));
      for k := 0 to |items|
        modifies `validated, `rejected
        invariant Split(Flat(results), items[..k], remaining, outcomes)
        invariant validated == old(validated) + |Passing(Flat(results), Items(items[..k]))|
        invariant rejected == old(rejected) + |Resolvable(Flat(results), Items(items[..k]))|
                              - |Passing(Flat(results), Items(items[..k]))|
      {
        var o := Evaluate(items[k]);
        SplitOne(Flat(results), items, k, remaining, outcomes);
        if o.None? {
          remaining := remaining + [items[k]];
        } else {
          outcomes := outcomes + [o.value];
        }
      }
      assert items[..|items|] == items;
      ConsumerDone(Flat(results), waiting, consumer, remaining, outcomes);
      if remaining != [] {
        waiting := waiting[consumer := remaining];
      } else {
        waiting := waiting - {consumer};
      }
    }

    /** Resolves what can be resolved, consumer by consumer in any order. */
    method TryFinalizeAll() returns (outcomes: seq<Outcome>)
      requires Sorted(waiting)
      modifies `waiting, `validated, `rejected
      ensures Sorted(waiting)
      ensures (View(), Returned(outcomes)) == Finalize(old(View()))
    {
      hide Flat, Ready, OutcomeOf, Resolvable, Passing, OutcomesOf, All, Apart, Items;
      var todo := waiting.Keys;
      outcomes := [];
      ghost var seen: set<Pending> := {};
      NothingWaiting(Flat(results));
      NothingSeen(waiting, todo);
      while todo != {}
        invariant Sorted(waiting) && todo <= old(waiting).Keys
        invariant forall c | c in todo :: c in waiting && waiting[c] == old(waiting)[c]
        invariant seen == All(map c | c in old(waiting) && c !in todo :: old(waiting)[c])
        invariant All(waiting) == All(old(waiting)) - Resolvable(Flat(results), seen)
        invariant Returned(outcomes) == OutcomesOf(Flat(results), seen)
        invariant validated == old(validated) + |Passing(Flat(results), seen)|
        invariant rejected == old(rejected) + |Resolvable(Flat(results), seen)| - |Passing(Flat(results), seen)|
        decreases todo
      {
        HasElement(todo);
        var c :| c in todo;
        ConsumerSeen(old(waiting), todo, c);
        JoinSets(Flat(results), seen, Items(old(waiting)[c]));
        var more := TryFinalizeConsumer(c);
        assert Returned(outcomes + more) == Returned(outcomes) + Returned(more);
        outcomes := outcomes + more;
        seen := seen + Items(old(waiting)[c]);
        todo := todo - {c};
      }
      assert (map c | c in old(waiting) && c !in todo :: old(waiting)[c]) == old(waiting);
    }

    /**
     Registers one hit with its control verdict. The attempt is counted even if
     the call then fails; a call that returns does what the joined state says.
     */
    method RegisterHit(hit: L2.L2Hit, controlPassed: bool, producer: Event, consumer: Event)
      returns (r: Result<seq<Outcome>, EvidenceError>)
      requires Valid()
      modifies this
      ensures Sorted(waiting) && attempts == old(attempts) + 1
      ensures r.Err? ==> View() == old(View()).(attempts := attempts)
      ensures !controlPassed ==> r.Ok?
      ensures controlPassed ==>
                (r.Ok? <==> RequiredChecks(hit, producer, consumer).Ok?
                            && !exists q :: q in old(All(waiting)) && q.hit == hit)
      ensures r.Ok? ==>
                && Valid()
                && var required := if controlPassed then RequiredChecks(hit, producer, consumer).value else [];
                   Step(old(View()), Hit(Pending(hit, required), controlPassed)) == Some((View(), Returned(r.value)))
    {
      hide Flat, Ready, OutcomeOf, Resolvable, Passing, OutcomesOf, All, Apart, Items, Sorted, Conserved, RequiredChecks,
        ControlRejection;
      attempts := attempts + 1;
      if !controlPassed {
        rejected := rejected + 1;
        HitConserves(old(View()), Pending(hit, []), false);
        r := Ok([ControlRejection(hit)]);
        assert Returned(r.value) == {ControlRejection(hit)};
        return;
      }
      var required := RequiredChecks(hit, producer, consumer);
      if required.Err? {
        return Err(required.error);
      }
      var c := hit.consumer;
      NoneResolved(old(View()));
      DuplicateIsWaiting(waiting, hit);
      if c in waiting && exists q :: q in waiting[c] && q.hit == hit {
        return Err(DuplicatePending);
      }
      var p := Pending(hit, required.value);
      HitConserves(old(View()), p, true);
      NewItem(waiting, p);
      OnlyTheNewOne(Flat(results), waiting, p);
      InAndOut(All(waiting), p);
      waiting := waiting[c := (if c in waiting then waiting[c] else []) + [p]];
      var outcomes := TryFinalizeConsumer(c);
      r := Ok(outcomes);
    }

    /** Records one piece of evidence; repeating it changes nothing, contradicting it is an error. */
    method RecordArchitecturalResult(id: int, kind: Kind, passed: bool) returns (r: Result<seq<Outcome>, EvidenceError>)
      requires Valid()
      modifies this
      ensures Valid()
      ensures r.Err? ==> View() == old(View())
      ensures r.Ok? <==> Step(old(View()), Evidence(Check(id, kind), passed)).Some?
      ensures r.Ok? ==>
                Step(old(View()), Evidence(Check(id, kind), passed)) == Some((View(), Returned(r.value)))
    {
      hide Ready, OutcomeOf, Resolvable, Passing, OutcomesOf, All, Apart, Items, Sorted, Conserved, Flat, Finalize;
      if id <= 0 {
        return Err(BadInstructionId);
      }
      var kinds := if id in results then results[id] else map[];
      FlatLookup(results, Check(id, kind));
      if kind in kinds {
        if kinds[kind] != passed {
          return Err(Conflicting);
        }
        r := Ok([]);
        assert Returned(r.value) == {};
        return;
      }
      FlatAdded(results, id, kind, passed);
      EvidenceConserves(View(), Check(id, kind), passed);
      results := results[id := kinds[kind := passed]];
      var outcomes := TryFinalizeAll();
      r := Ok(outcomes);
    }

    /** Drops old evidence no waiting hit needs. */
    method PruneResults(latest: int) returns (r: Result<(), EvidenceError>)
      requires Valid()
      modifies `results
      ensures Valid() && (r.Ok? <==> latest > 0)
      ensures r.Err? ==> results == old(results)
      ensures r.Ok? ==> Step(old(View()), Prune(latest)) == Some((View(), {}))
    {
      hide Sorted, Conserved, Flat, All;
      if latest <= 0 {
        return Err(BadLatest);
      }
      var retained := set p, c | p in All(waiting) && c in p.required :: c.id;
      var keepFrom := KeepFrom(latest);
      PruneConserves(View(), latest);
      ghost var s := View();
      var todo := results.Keys;
      while todo != {}
        invariant todo <= results.Keys
        invariant forall id :: id in results <==> id in old(results) && (id in todo || id >= keepFrom || id in retained)
        invariant forall id | id in results :: results[id] == old(results)[id]
        decreases todo
      {
        HasElement(todo);
        var id :| id in todo;
        todo := todo - {id};
        if id < keepFrom && id !in retained {
          results := results - {id};
        }
      }
      FlatPruned(old(results), results, s, latest, retained);
      r := Ok(());
    }
  }

  function Returned(outcomes: seq<Outcome>): set<Outcome> {
    set o | o in outcomes
  }

  lemma OneReturned(outcomes: seq<Outcome>, o: Outcome)
    ensures Returned(outcomes + [o]) == Returned(outcomes) + {o}
  {
  }

  lemma NothingWaiting(results: Results)
    ensures Resolvable(results, {}) == {} && Passing(results, {}) == {} && OutcomesOf(results, {}) == {}
    ensures Split(results, [], [], []) && Items([]) == {}
  {
  }

  /** What a pass over the items leaves behind and returns. */
  ghost predicate Split(results: Results, items: seq<Pending>, remaining: seq<Pending>, outcomes: seq<Outcome>) {
    && (forall p :: p in remaining <==> p in items && !Ready(results, p)) && Apart(remaining)
    && Returned(outcomes) == OutcomesOf(results, Items(items))
  }

  lemma ApartMeansNew(items: seq<Pending>, k: nat)
    requires Apart(items) && k < |items|
    ensures items[k] !in Items(items[..k]) && Items(items[..k + 1]) == Items(items[..k]) + {items[k]}
    ensures forall p | p in items[..k] :: p.hit != items[k].hit
  {
    assert items[..k + 1] == items[..k] + [items[k]];
  }

  lemma RemainingGrows(results: Results, items: seq<Pending>, k: nat, remaining: seq<Pending>)
    requires k < |items| && Apart(items) && !Ready(results, items[k])
    requires (forall p :: p in remaining <==> p in items[..k] && !Ready(results, p)) && Apart(remaining)
    ensures forall p :: p in remaining + [items[k]] <==> p in items[..k + 1] && !Ready(results, p)
    ensures Apart(remaining + [items[k]])
  {
    hide Ready;
    ApartMeansNew(items, k);
    assert items[..k + 1] == items[..k] + [items[k]];
    forall i | 0 <= i < |remaining|
      ensures remaining[i].hit != items[k].hit
    {
      assert remaining[i] in remaining;
    }
  }

  lemma SplitOne(results: Results, items: seq<Pending>, k: nat, remaining: seq<Pending>, outcomes: seq<Outcome>)
    requires k < |items| && Apart(items) && Split(results, items[..k], remaining, outcomes)
    ensures var p := items[k];
            if Ready(results, p) then
              && Split(results, items[..k + 1], remaining, outcomes + [OutcomeOf(results, p)])
              && |Resolvable(results, Items(items[..k + 1]))| == |Resolvable(results, Items(items[..k]))| + 1
              && |Passing(results, Items(items[..k + 1]))|
                 == |Passing(results, Items(items[..k]))| + (if OutcomeOf(results, p).validated then 1 else 0)
            else
              && Split(results, items[..k + 1], remaining + [p], outcomes)
              && |Resolvable(results, Items(items[..k + 1]))| == |Resolvable(results, Items(items[..k]))|
              && |Passing(results, Items(items[..k + 1]))| == |Passing(results, Items(items[..k]))|
  {
    hide Ready, OutcomeOf, Resolvable, Passing, OutcomesOf, Apart, Items, Returned;
    var p := items[k];
    ApartMeansNew(items, k);
    OneMore(results, Items(items[..k]), p);
    NotCounted(results, Items(items[..k]), p);
    assert items[..k + 1] == items[..k] + [p];
    if Ready(results, p) {
      OneReturned(outcomes, OutcomeOf(results, p));
    } else {
      RemainingGrows(results, items, k, remaining);
    }
  }

  /** The waiting hits once one consumer's pass is written back. */
  lemma ConsumerDone(results: Results, w: Waiting, consumer: int, remaining: seq<Pending>, outcomes: seq<Outcome>)
    requires Sorted(w) && consumer in w && Split(results, w[consumer], remaining, outcomes)
    ensures var after := if remaining != [] then w[consumer := remaining] else w - {consumer};
            Sorted(after) && All(after) == All(w) - Resolvable(results, Items(w[consumer]))
  {
    hide Ready, OutcomesOf, Apart;
    var after := if remaining != [] then w[consumer := remaining] else w - {consumer};
    forall p
      ensures p in All(after) <==> p in All(w) && p !in Resolvable(results, Items(w[consumer]))
    {
      AllMember(w, p);
      AllMember(after, p);
    }
  }

  /** A hit can only wait under its own consumer. */
  lemma AllMember(w: Waiting, p: Pending)
    requires forall c | c in w :: forall q | q in w[c] :: q.hit.consumer == c
    ensures p in All(w) <==> p.hit.consumer in w && p in w[p.hit.consumer]
  {
    if p.hit.consumer in w && p in w[p.hit.consumer] {
      var c := p.hit.consumer;
      assert c in w && p in w[c];
    }
  }

  lemma InAndOut(all: set<Pending>, p: Pending)
    requires p !in all
    ensures all + {p} - {p} == all && all + {p} - {} == all + {p}
  {
  }

  lemma HasElement(s: set<int>)
    ensures s == {} || exists x :: x in s
  {
    if forall x :: x !in s {
      assert s == {};
    }
  }

  lemma NothingSeen(w: Waiting, todo: set<int>)
    requires todo == w.Keys
    ensures All(map c | c in w && c !in todo :: w[c]) == {}
  {
  }

  lemma NoneResolved(s: State)
    requires Conserved(s)
    ensures forall p | p in s.pending :: !Ready(s.results, p)
  {
    hide Ready;
  }

  lemma ConsumerSeen(w: Waiting, todo: set<int>, c: int)
    requires Sorted(w) && c in todo && todo <= w.Keys
    ensures var seen := All(map d | d in w && d !in todo :: w[d]);
            && All(map d | d in w && d !in todo - {c} :: w[d]) == seen + Items(w[c])
            && seen !! Items(w[c])
  {
    hide Apart;
    var before := map d | d in w && d !in todo :: w[d];
    var after := map d | d in w && d !in todo - {c} :: w[d];
    forall p
      ensures p in All(after) <==> p in All(before) || p in Items(w[c])
      ensures !(p in All(before) && p in Items(w[c]))
    {
      AllMember(before, p);
      AllMember(after, p);
    }
  }

  lemma JoinSets(results: Results, a: set<Pending>, b: set<Pending>)
    requires a !! b
    ensures OutcomesOf(results, a + b) == OutcomesOf(results, a) + OutcomesOf(results, b)
    ensures Resolvable(results, a + b) == Resolvable(results, a) + Resolvable(results, b)
    ensures |Resolvable(results, a + b)| == |Resolvable(results, a)| + |Resolvable(results, b)|
    ensures |Passing(results, a + b)| == |Passing(results, a)| + |Passing(results, b)|
  {
    hide Ready, OutcomeOf;
    assert Resolvable(results, a + b) == Resolvable(results, a) + Resolvable(results, b);
    assert Passing(results, a + b) == Passing(results, a) + Passing(results, b);
  }

  lemma DuplicateIsWaiting(w: Waiting, hit: L2.L2Hit)
    requires Sorted(w)
    ensures (exists q :: q in All(w) && q.hit == hit)
            <==> hit.consumer in w && exists q :: q in w[hit.consumer] && q.hit == hit
  {
    hide Apart;
    if q :| q in All(w) && q.hit == hit {
      AllMember(w, q);
    }
    if hit.consumer in w {
      if q :| q in w[hit.consumer] && q.hit == hit {
        AllMember(w, q);
      }
    }
  }

  lemma NewItem(w: Waiting, p: Pending)
    requires Sorted(w) && !exists q :: q in All(w) && q.hit == p.hit
    ensures var c := p.hit.consumer;
            var items := (if c in w then w[c] else []) + [p];
            Sorted(w[c := items]) && All(w[c := items]) == All(w) + {p} && p !in All(w)
  {
    var c := p.hit.consumer;
    var items := (if c in w then w[c] else []) + [p];
    if c in w {
      forall i | 0 <= i < |w[c]|
        ensures w[c][i].hit != p.hit
      {
        AllMember(w, w[c][i]);
      }
    }
    var after := w[c := items];
    forall q
      ensures q in All(after) <==> q in All(w) || q == p
    {
      AllMember(w, q);
      AllMember(after, q);
    }
  }

  /** Of the consumer's hits at most the new one can be resolvable. */
  lemma OnlyTheNewOne(results: Results, w: Waiting, p: Pending)
    requires Sorted(w) && p !in All(w) && forall q | q in All(w) :: !Ready(results, q)
    ensures var c := p.hit.consumer;
            var items := Items((if c in w then w[c] else []) + [p]);
            && OutcomesOf(results, items) == (if Ready(results, p) then {OutcomeOf(results, p)} else {})
            && Resolvable(results, items) == (if Ready(results, p) then {p} else {})
            && Passing(results, items) == (if Ready(results, p) && OutcomeOf(results, p).validated then {p} else {})
  {
    hide Ready, OutcomeOf, Apart;
    var c := p.hit.consumer;
    var items := (if c in w then w[c] else []) + [p];
    forall q | q in items && q != p
      ensures !Ready(results, q)
    {
      AllMember(w, q);
    }
    assert p in items;
  }

  lemma FlatAdded(t: Tables, id: int, kind: Kind, passed: bool)
    requires !(id in t && kind in t[id])
    ensures Flat(t[id := (if id in t then t[id] else map[])[kind := passed]]) == Flat(t)[Check(id, kind) := passed]
  {
    hide Flat;
    var after := t[id := (if id in t then t[id] else map[])[kind := passed]];
    forall c
      ensures c in Flat(after) <==> c in Flat(t) || c == Check(id, kind)
      ensures c in Flat(after) ==> Flat(after)[c] == (if c == Check(id, kind) then passed else Flat(t)[c])
    {
      FlatLookup(t, c);
      FlatLookup(after, c);
    }
  }

  lemma FlatPruned(before: Tables, after: Tables, s: State, latest: int, retained: set<int>)
    requires latest > 0 && s.results == Flat(before)
    requires forall id :: id in retained <==> exists p, c :: p in s.pending && c in p.required && c.id == id
    requires forall id :: id in after <==> id in before && (id >= KeepFrom(latest) || id in retained)
    requires forall id | id in after :: after[id] == before[id]
    ensures Flat(after) == map c | c in s.results && Kept(s, latest, c.id) :: s.results[c]
  {
    hide Flat;
    forall c
      ensures c in Flat(after) <==> c in s.results && Kept(s, latest, c.id)
      ensures c in Flat(after) ==> Flat(after)[c] == s.results[c]
    {
      FlatLookup(before, c);
      FlatLookup(after, c);
    }
  }
}
