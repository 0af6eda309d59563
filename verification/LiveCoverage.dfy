/**
 The three-way join of the live coverage coordinator: validation, hazard and
 performance evidence arrive in any order and make one record per hit.
 */
module JoinRuns {
  import opened Wrappers
  import Execution
  import opened L1Coverage

  datatype Validation = Validation(
    bin: Bin, consumer: int, producers: seq<int>, controlPassed: bool, architecturalPassed: Option<bool>, validated: bool)

  datatype Hazard = Hazard(hit: Hit, expectedRetire: int, observedRetire: int, passed: bool)

  datatype Performance = Performance(id: int, expectedRetire: int, observedRetire: int)

  datatype Partial = Partial(validation: Option<Validation>, hazard: Option<Hazard>)

  datatype Record = Record(hit: Hit, validation: Validation, hazard: Hazard, performance: Performance)

  datatype State = State(pending: map<Hit, Partial>, performance: map<int, Performance>)

  datatype Ev =
    | Intent(hit: Hit) | Validated(validation: Validation) | Attributed(hazard: Hazard) | Retired(performance: Performance)

  const EMPTY := State(map[], map[])

  /** Validation evidence carries no matched sources. */
  predicate Names(v: Validation, h: Hit) {
    v.bin == h.bin && v.consumer == h.consumer && v.producers == h.producers
  }

  predicate SameRetire(z: Hazard, p: Performance) {
    z.expectedRetire == p.expectedRetire && z.observedRetire == p.observedRetire
  }

  function HitsOf(s: State, consumer: int): set<Hit> {
    set h | h in s.pending && h.consumer == consumer
  }

  /** Performance is kept only while its consumer has a pending hit. */
  function Released(s: State, consumer: int): State {
    if HitsOf(s, consumer) == {} then s.(performance := s.performance - {consumer}) else s
  }

  predicate Joined(s: State, h: Hit) {
    && h in s.pending && s.pending[h].validation.Some? && s.pending[h].hazard.Some?
    && h.consumer in s.performance
  }

  function RecordOf(s: State, h: Hit): Record
    requires Joined(s, h)
  {
    Record(h, s.pending[h].validation.value, s.pending[h].hazard.value, s.performance[h.consumer])
  }

  /** The hits among hs that are complete leave, each with its record. */
  function Finalize(s: State, consumer: int): (State, set<Record>) {
    var done := set h | h in s.pending && h.consumer == consumer && Joined(s, h);
    (Released(s.(pending := s.pending - done), consumer), set h | h in done :: RecordOf(s, h))
  }

  /** One call that returns normally, with the records it emits. */
  ghost function Step(s: State, ev: Ev): Option<(State, set<Record>)> {
    match ev
    case Intent(h) =>
      if h in s.pending then None else Some((s.(pending := s.pending[h := Partial(None, None)]), {}))
    case Validated(v) =>
      var matches := set h | h in s.pending && Names(v, h);
      if |matches| != 1 then None
      else
        var h :| h in matches;
        if s.pending[h].validation.Some? then None
        else
          var after := s.(pending := s.pending[h := s.pending[h].(validation := Some(v))]);
          if RetireMismatch(after, h) then None else Some(Finalize(after, h.consumer))
    case Attributed(z) =>
      if z.hit !in s.pending || s.pending[z.hit].hazard.Some? then None
      else
        var after := s.(pending := s.pending[z.hit := s.pending[z.hit].(hazard := Some(z))]);
        if RetireMismatch(after, z.hit) then None else Some(Finalize(after, z.hit.consumer))
    case Retired(p) =>
      if HitsOf(s, p.id) == {} || p.id in s.performance then None
      else
        var after := s.(performance := s.performance[p.id := p]);
        if exists h :: h in HitsOf(s, p.id) && RetireMismatch(after, h) then None
        else Some(Finalize(after, p.id))
  }

  /** A complete hit whose two timing layers speak of different retirements. */
  predicate RetireMismatch(s: State, h: Hit) {
    Joined(s, h) && !SameRetire(s.pending[h].hazard.value, s.performance[h.consumer])
  }

  ghost function Run(s: State, evs: seq<Ev>): Option<(State, set<Record>)> {
    if evs == [] then Some((s, {}))
    else
      match Run(s, evs[..|evs| - 1])
      case None => None
      case Some((before, log)) =>
        match Step(before, evs[|evs| - 1])
        case None => None
        case Some((after, more)) => Some((after, log + more))
  }

  // ---------------------------------------------------------------------
  // What has arrived
  // ---------------------------------------------------------------------

  function ValidationOf(evs: seq<Ev>, h: Hit): (v: Option<Validation>)
    ensures v.Some? ==> Validated(v.value) in evs && v.value.bin == h.bin && v.value.consumer == h.consumer
    ensures v.None? ==> forall x | x in evs && x.Validated? :: !(x.validation.bin == h.bin && x.validation.consumer == h.consumer)
  {
    if evs == [] then None
    else
      var last := evs[|evs| - 1];
      assert last in evs && forall x | x in evs :: x == last || x in evs[..|evs| - 1];
      if last.Validated? && last.validation.bin == h.bin && last.validation.consumer == h.consumer
      then Some(last.validation) else ValidationOf(evs[..|evs| - 1], h)
  }

  function HazardOf(evs: seq<Ev>, h: Hit): (z: Option<Hazard>)
    ensures z.Some? ==> Attributed(z.value) in evs && z.value.hit == h
    ensures z.None? ==> forall x | x in evs && x.Attributed? :: x.hazard.hit != h
  {
    if evs == [] then None
    else
      var last := evs[|evs| - 1];
      assert last in evs && forall x | x in evs :: x == last || x in evs[..|evs| - 1];
      if last.Attributed? && last.hazard.hit == h then Some(last.hazard) else HazardOf(evs[..|evs| - 1], h)
  }

  function PerformanceOf(evs: seq<Ev>, consumer: int): (p: Option<Performance>)
    ensures p.Some? ==> Retired(p.value) in evs && p.value.id == consumer
    ensures p.None? ==> forall x | x in evs && x.Retired? :: x.performance.id != consumer
  {
    if evs == [] then None
    else
      var last := evs[|evs| - 1];
      assert last in evs && forall x | x in evs :: x == last || x in evs[..|evs| - 1];
      if last.Retired? && last.performance.id == consumer then Some(last.performance)
      else PerformanceOf(evs[..|evs| - 1], consumer)
  }

  /** All three kinds of evidence for the hit have arrived. */
  predicate Complete(evs: seq<Ev>, h: Hit) {
    ValidationOf(evs, h).Some? && HazardOf(evs, h).Some? && PerformanceOf(evs, h.consumer).Some?
  }

  /** No hit of this bin and consumer was registered. */
  ghost predicate NewHit(evs: seq<Ev>, h: Hit) {
    forall g | Intent(g) in evs :: !(g.bin == h.bin && g.consumer == h.consumer)
  }

  /** A hit of the consumer that still misses evidence. */
  ghost predicate Unresolved(evs: seq<Ev>, consumer: int) {
    exists g :: Intent(g) in evs && g.consumer == consumer && !Complete(evs, g)
  }

  /**
   The event may follow: registered hits only, nothing twice, retirements that
   agree. A hit may be registered after its consumer retired as long as another
   hit of that consumer is unresolved.
   */
  ghost predicate MayFollow(evs: seq<Ev>, ev: Ev) {
    match ev
    case Intent(h) =>
      && NewHit(evs, h)
      && (PerformanceOf(evs, h.consumer).Some? ==> Unresolved(evs, h.consumer))
    case Validated(v) => exists h :: Intent(h) in evs && Names(v, h) && ValidationOf(evs, h).None?
    case Attributed(z) =>
      && Intent(z.hit) in evs && HazardOf(evs, z.hit).None?
      && (PerformanceOf(evs, z.hit.consumer).Some? ==> SameRetire(z, PerformanceOf(evs, z.hit.consumer).value))
    case Retired(p) =>
      && (exists h :: Intent(h) in evs && h.consumer == p.id) && PerformanceOf(evs, p.id).None?
      && forall h | Intent(h) in evs && h.consumer == p.id && HazardOf(evs, h).Some? ::
           SameRetire(HazardOf(evs, h).value, p)
  }

  ghost predicate Proper(evs: seq<Ev>) {
    evs == [] || (Proper(evs[..|evs| - 1]) && MayFollow(evs[..|evs| - 1], evs[|evs| - 1]))
  }

  // ---------------------------------------------------------------------
  // What a run comes to
  // ---------------------------------------------------------------------

  /** Exactly the incomplete hits are pending, with what has arrived for them. */
  ghost predicate Waits(s: State, evs: seq<Ev>) {
    forall h :: (h in s.pending <==> Intent(h) in evs && !Complete(evs, h))
                && (h in s.pending ==> s.pending[h] == Partial(ValidationOf(evs, h), HazardOf(evs, h)))
  }

  /** Performance is retained exactly while its consumer has a pending hit. */
  ghost predicate Retains(s: State, evs: seq<Ev>) {
    forall c :: (c in s.performance <==> PerformanceOf(evs, c).Some? && HitsOf(s, c) != {})
                && (c in s.performance ==> PerformanceOf(evs, c) == Some(s.performance[c]))
  }

  function FullRecord(evs: seq<Ev>, h: Hit): Record
    requires Complete(evs, h)
  {
    Record(h, ValidationOf(evs, h).value, HazardOf(evs, h).value, PerformanceOf(evs, h.consumer).value)
  }

  /** Exactly the complete hits have a record, each one. */
  ghost predicate Logged(log: set<Record>, evs: seq<Ev>) {
    forall r :: r in log <==> Intent(r.hit) in evs && Complete(evs, r.hit) && r == FullRecord(evs, r.hit)
  }

  ghost predicate Accounted(s: State, log: set<Record>, evs: seq<Ev>) {
    Waits(s, evs) && Retains(s, evs) && Logged(log, evs)
  }

  lemma Extend(evs: seq<Ev>, ev: Ev)
    ensures forall x :: x in evs + [ev] <==> x in evs || x == ev
    ensures forall h :: ValidationOf(evs + [ev], h) ==
              if ev.Validated? && ev.validation.bin == h.bin && ev.validation.consumer == h.consumer
              then Some(ev.validation) else ValidationOf(evs, h)
    ensures forall h :: HazardOf(evs + [ev], h) ==
              if ev.Attributed? && ev.hazard.hit == h then Some(ev.hazard) else HazardOf(evs, h)
    ensures forall c :: PerformanceOf(evs + [ev], c) ==
              if ev.Retired? && ev.performance.id == c then Some(ev.performance) else PerformanceOf(evs, c)
  {
    assert (evs + [ev])[..|evs|] == evs;
  }

  /** The classifier never reports a bin twice for one instruction. */
  ghost predicate UniqueIntents(evs: seq<Ev>) {
    forall g, h | Intent(g) in evs && Intent(h) in evs && g.bin == h.bin && g.consumer == h.consumer :: g == h
  }

  /** The two timing layers agree on every hit that has both. */
  ghost predicate RetiresAgree(evs: seq<Ev>) {
    forall h | Intent(h) in evs && HazardOf(evs, h).Some? && PerformanceOf(evs, h.consumer).Some? ::
      SameRetire(HazardOf(evs, h).value, PerformanceOf(evs, h.consumer).value)
  }

  /** Evidence only exists for registered hits. */
  ghost predicate Registered(evs: seq<Ev>) {
    && (forall h | HazardOf(evs, h).Some? :: Intent(h) in evs)
    && forall c | PerformanceOf(evs, c).Some? :: exists h :: Intent(h) in evs && h.consumer == c
  }

  /** Validation evidence named a registered hit of its bin and consumer. */
  ghost predicate Named(evs: seq<Ev>) {
    forall v | Validated(v) in evs :: exists h :: Intent(h) in evs && Names(v, h)
  }

  ghost predicate Orderly(evs: seq<Ev>) {
    UniqueIntents(evs) && RetiresAgree(evs) && Registered(evs) && Named(evs)
  }

  lemma StaysOrderly(evs: seq<Ev>, ev: Ev)
    requires Orderly(evs) && MayFollow(evs, ev)
    ensures Orderly(evs + [ev])
  {
    hide ValidationOf, HazardOf, PerformanceOf;
    Extend(evs, ev);
  }

  lemma {:induction false} ProperIsOrderly(evs: seq<Ev>)
    requires Proper(evs)
    ensures Orderly(evs)
  {
    hide Orderly, MayFollow;
    if evs == [] {
      NothingIsOrderly();
    } else {
      ProperIsOrderly(evs[..|evs| - 1]);
      StaysOrderly(evs[..|evs| - 1], evs[|evs| - 1]);
      assert evs[..|evs| - 1] + [evs[|evs| - 1]] == evs;
    }
  }

  lemma NothingIsOrderly()
    ensures Orderly([])
  {
  }

  /** The state once evidence of consumer c was noted but not yet joined. */
  ghost predicate Noted(s: State, c: int, log: set<Record>, evs: seq<Ev>) {
    && Retains(s, evs)
    && (forall h | h in s.pending ::
          Intent(h) in evs && s.pending[h] == Partial(ValidationOf(evs, h), HazardOf(evs, h)))
    && (forall h | h in s.pending && h.consumer != c :: !Complete(evs, h))
    && (forall h | Intent(h) in evs && h !in s.pending :: Complete(evs, h))
    && forall r :: r in log <==>
         Intent(r.hit) in evs && r.hit !in s.pending && Complete(evs, r.hit) && r == FullRecord(evs, r.hit)
  }

  lemma JoinedIsComplete(s: State, c: int, log: set<Record>, evs: seq<Ev>, h: Hit)
    requires Noted(s, c, log, evs) && h in s.pending
    ensures Joined(s, h) <==> Complete(evs, h)
    ensures Joined(s, h) ==> RecordOf(s, h) == FullRecord(evs, h)
  {
    hide ValidationOf, HazardOf, PerformanceOf;
    assert h in HitsOf(s, h.consumer);
  }

  lemma ReleasedRetains(s: State, done: set<Hit>, c: int, evs: seq<Ev>)
    requires Retains(s, evs) && forall h | h in done :: h.consumer == c
    ensures Retains(Released(s.(pending := s.pending - done), c), evs)
  {
    hide PerformanceOf;
    var after := s.(pending := s.pending - done);
    forall d | d != c
      ensures HitsOf(after, d) == HitsOf(s, d)
    {
    }
  }

  lemma FinalizeAccounts(s: State, c: int, log: set<Record>, evs: seq<Ev>)
    requires Noted(s, c, log, evs)
    ensures var (after, more) := Finalize(s, c); Accounted(after, log + more, evs)
  {
    hide ValidationOf, HazardOf, PerformanceOf, Complete, Joined, RecordOf, FullRecord, Retains, Released;
    var done := set h | h in s.pending && h.consumer == c && Joined(s, h);
    forall h | h in s.pending
      ensures Joined(s, h) <==> Complete(evs, h)
      ensures Joined(s, h) ==> RecordOf(s, h) == FullRecord(evs, h)
    {
      JoinedIsComplete(s, c, log, evs, h);
    }
    ReleasedRetains(s, done, c, evs);
    ReleasedKeepsPending(s.(pending := s.pending - done), c);
    RecordNamesHit(evs);
    var more := set h | h in done :: RecordOf(s, h);
    forall r
      ensures r in log + more <==> Intent(r.hit) in evs && Complete(evs, r.hit) && r == FullRecord(evs, r.hit)
    {
      if r in more {
        var h :| h in done && RecordOf(s, h) == r;
      }
      if Intent(r.hit) in evs && Complete(evs, r.hit) && r == FullRecord(evs, r.hit) && r.hit in s.pending {
        assert r.hit in done;
      }
    }
  }

  lemma ReleasedKeepsPending(s: State, c: int)
    ensures Released(s, c).pending == s.pending
  {
  }

  lemma RecordNamesHit(evs: seq<Ev>)
    ensures forall h | Complete(evs, h) :: FullRecord(evs, h).hit == h
  {
    hide ValidationOf, HazardOf, PerformanceOf;
  }

  // ---------------------------------------------------------------------
  // One arrival
  // ---------------------------------------------------------------------

  lemma ValidationHasIntent(evs: seq<Ev>, h: Hit)
    requires Named(evs)
    ensures ValidationOf(evs, h).Some? ==> exists g :: Intent(g) in evs && g.bin == h.bin && g.consumer == h.consumer
  {
    hide ValidationOf;
  }

  /** What arrived for one hit says nothing about the others. */
  lemma OthersUnchanged(evs: seq<Ev>, ev: Ev, h: Hit)
    requires UniqueIntents(evs) && Intent(h) in evs
    requires (ev.Validated? && Names(ev.validation, h)) || (ev.Attributed? && ev.hazard.hit == h)
    ensures forall g :: Intent(g) in evs + [ev] <==> Intent(g) in evs
    ensures forall g | Intent(g) in evs && g != h ::
              && ValidationOf(evs + [ev], g) == ValidationOf(evs, g) && HazardOf(evs + [ev], g) == HazardOf(evs, g)
              && Complete(evs + [ev], g) == Complete(evs, g)
              && (Complete(evs, g) ==> FullRecord(evs + [ev], g) == FullRecord(evs, g))
    ensures forall c :: PerformanceOf(evs + [ev], c) == PerformanceOf(evs, c)
  {
    hide ValidationOf, HazardOf, PerformanceOf;
    Extend(evs, ev);
  }

  /** Noting evidence for one pending hit leaves everything else accounted for. */
  lemma OneNoted(s: State, log: set<Record>, evs: seq<Ev>, ev: Ev, h: Hit, partial: Partial)
    requires Orderly(evs) && Accounted(s, log, evs) && Intent(h) in evs && h in s.pending
    requires (ev.Validated? && Names(ev.validation, h)) || (ev.Attributed? && ev.hazard.hit == h)
    requires partial == Partial(ValidationOf(evs + [ev], h), HazardOf(evs + [ev], h))
    ensures Noted(s.(pending := s.pending[h := partial]), h.consumer, log, evs + [ev])
  {
    hide ValidationOf, HazardOf, PerformanceOf, Complete, FullRecord, RetiresAgree, Registered, Named, SameRetire;
    OthersUnchanged(evs, ev, h);
    var after := s.(pending := s.pending[h := partial]);
    assert forall c :: HitsOf(after, c) == HitsOf(s, c);
  }

  lemma IntentAddsNothing(evs: seq<Ev>, h: Hit)
    requires Orderly(evs) && MayFollow(evs, Intent(h))
    ensures var more := evs + [Intent(h)];
            && (forall g :: Intent(g) in more <==> Intent(g) in evs || g == h)
            && (forall g :: ValidationOf(more, g) == ValidationOf(evs, g) && HazardOf(more, g) == HazardOf(evs, g))
            && (forall c :: PerformanceOf(more, c) == PerformanceOf(evs, c))
            && (forall g :: Complete(more, g) == Complete(evs, g))
            && (forall g | Complete(evs, g) :: FullRecord(more, g) == FullRecord(evs, g))
    ensures Intent(h) !in evs && !Complete(evs, h) && ValidationOf(evs, h).None? && HazardOf(evs, h).None?
  {
    hide ValidationOf, HazardOf, PerformanceOf;
    Extend(evs, Intent(h));
    ValidationHasIntent(evs, h);
  }

  lemma IntentAccounts(s: State, log: set<Record>, evs: seq<Ev>, h: Hit)
    requires Orderly(evs) && Accounted(s, log, evs) && MayFollow(evs, Intent(h))
    ensures Step(s, Intent(h)).Some?
    ensures var (after, more) := Step(s, Intent(h)).value; Accounted(after, log + more, evs + [Intent(h)])
  {
    hide ValidationOf, HazardOf, PerformanceOf, Complete, FullRecord, Orderly, MayFollow;
    IntentAddsNothing(evs, h);
    PerformanceIsKept(s, log, evs, h);
    var after := Step(s, Intent(h)).value.0;
    forall c
      ensures HitsOf(after, c) == if c == h.consumer then HitsOf(s, c) + {h} else HitsOf(s, c)
    {
    }
    assert log + {} == log;
  }

  lemma PerformanceIsKept(s: State, log: set<Record>, evs: seq<Ev>, h: Hit)
    requires Accounted(s, log, evs) && MayFollow(evs, Intent(h))
    ensures PerformanceOf(evs, h.consumer).Some? ==> h.consumer in s.performance
  {
    hide ValidationOf, HazardOf, PerformanceOf, Complete, FullRecord;
    if PerformanceOf(evs, h.consumer).Some? {
      var g :| Intent(g) in evs && g.consumer == h.consumer && !Complete(evs, g);
      assert g in HitsOf(s, h.consumer);
    }
  }

  lemma ValidatedAccounts(s: State, log: set<Record>, evs: seq<Ev>, v: Validation)
    requires Orderly(evs) && Accounted(s, log, evs) && MayFollow(evs, Validated(v))
    ensures Step(s, Validated(v)).Some?
    ensures var (after, more) := Step(s, Validated(v)).value; Accounted(after, log + more, evs + [Validated(v)])
  {
    hide ValidationOf, HazardOf, PerformanceOf, Finalize, HitsOf, Orderly, Accounted, Noted, RetireMismatch;
    var h :| Intent(h) in evs && Names(v, h) && ValidationOf(evs, h).None?;
    OneMatch(s, log, evs, v, h);
    ValidatedNoted(s, log, evs, v, h);
    FinalizeAccounts(s.(pending := s.pending[h := s.pending[h].(validation := Some(v))]), h.consumer, log,
                     evs + [Validated(v)]);
  }

  /** Bin and consumer identify the hit, so the validation is never ambiguous. */
  lemma OneMatch(s: State, log: set<Record>, evs: seq<Ev>, v: Validation, h: Hit)
    requires Orderly(evs) && Accounted(s, log, evs) && Intent(h) in evs && Names(v, h) && ValidationOf(evs, h).None?
    ensures (set g | g in s.pending && Names(v, g)) == {h} && h in s.pending && s.pending[h].validation.None?
  {
    hide ValidationOf, HazardOf, PerformanceOf;
  }

  lemma ValidatedNoted(s: State, log: set<Record>, evs: seq<Ev>, v: Validation, h: Hit)
    requires Orderly(evs) && Accounted(s, log, evs) && Intent(h) in evs && Names(v, h) && ValidationOf(evs, h).None?
    requires h in s.pending
    ensures var after := s.(pending := s.pending[h := s.pending[h].(validation := Some(v))]);
            Noted(after, h.consumer, log, evs + [Validated(v)]) && !RetireMismatch(after, h)
  {
    hide ValidationOf, HazardOf, PerformanceOf, Noted, Complete;
    Extend(evs, Validated(v));
    OneNoted(s, log, evs, Validated(v), h, s.pending[h].(validation := Some(v)));
  }

  lemma AttributedAccounts(s: State, log: set<Record>, evs: seq<Ev>, z: Hazard)
    requires Orderly(evs) && Accounted(s, log, evs) && MayFollow(evs, Attributed(z))
    ensures Step(s, Attributed(z)).Some?
    ensures var (after, more) := Step(s, Attributed(z)).value; Accounted(after, log + more, evs + [Attributed(z)])
  {
    hide ValidationOf, HazardOf, PerformanceOf, Finalize, HitsOf, Orderly, RetireMismatch, Accounted, Noted, MayFollow;
    var h := z.hit;
    AttributedNoted(s, log, evs, z);
    FinalizeAccounts(s.(pending := s.pending[h := s.pending[h].(hazard := Some(z))]), h.consumer, log,
                     evs + [Attributed(z)]);
  }

  lemma AttributedNoted(s: State, log: set<Record>, evs: seq<Ev>, z: Hazard)
    requires Orderly(evs) && Accounted(s, log, evs) && MayFollow(evs, Attributed(z))
    ensures z.hit in s.pending && s.pending[z.hit].hazard.None?
    ensures var after := s.(pending := s.pending[z.hit := s.pending[z.hit].(hazard := Some(z))]);
            Noted(after, z.hit.consumer, log, evs + [Attributed(z)]) && !RetireMismatch(after, z.hit)
  {
    hide ValidationOf, HazardOf, PerformanceOf, Noted;
    Extend(evs, Attributed(z));
    OneNoted(s, log, evs, Attributed(z), z.hit, s.pending[z.hit].(hazard := Some(z)));
  }

  lemma RetiredAccounts(s: State, log: set<Record>, evs: seq<Ev>, p: Performance)
    requires Orderly(evs) && Accounted(s, log, evs) && MayFollow(evs, Retired(p))
    ensures Step(s, Retired(p)).Some?
    ensures var (after, more) := Step(s, Retired(p)).value; Accounted(after, log + more, evs + [Retired(p)])
  {
    hide ValidationOf, HazardOf, PerformanceOf, Finalize, Orderly, RetireMismatch, Accounted, Noted, MayFollow;
    RetiredNoted(s, log, evs, p);
    FinalizeAccounts(s.(performance := s.performance[p.id := p]), p.id, log, evs + [Retired(p)]);
  }

  /** A retirement adds nothing to hits of other consumers, and changes no complete one. */
  lemma RetirementIsOwn(evs: seq<Ev>, p: Performance)
    requires PerformanceOf(evs, p.id).None?
    ensures var more := evs + [Retired(p)];
            && (forall g :: Intent(g) in more <==> Intent(g) in evs)
            && (forall g :: ValidationOf(more, g) == ValidationOf(evs, g) && HazardOf(more, g) == HazardOf(evs, g))
            && (forall c | c != p.id :: PerformanceOf(more, c) == PerformanceOf(evs, c))
            && PerformanceOf(more, p.id) == Some(p)
            && (forall g: Hit | g.consumer != p.id || Complete(evs, g) :: Complete(more, g) == Complete(evs, g))
            && (forall g | Complete(evs, g) :: FullRecord(more, g) == FullRecord(evs, g) && g.consumer != p.id)
  {
    hide ValidationOf, HazardOf, PerformanceOf;
    Extend(evs, Retired(p));
  }

  lemma RetiredNoted(s: State, log: set<Record>, evs: seq<Ev>, p: Performance)
    requires Orderly(evs) && Accounted(s, log, evs) && MayFollow(evs, Retired(p))
    ensures HitsOf(s, p.id) != {} && p.id !in s.performance
    ensures var after := s.(performance := s.performance[p.id := p]);
            && Noted(after, p.id, log, evs + [Retired(p)])
            && forall h | h in HitsOf(s, p.id) :: !RetireMismatch(after, h)
  {
    hide ValidationOf, HazardOf, PerformanceOf, Complete, FullRecord, Orderly;
    RetirementIsOwn(evs, p);
    ConsumerIsPending(s, log, evs, p);
    var after := s.(performance := s.performance[p.id := p]);
    assert forall c :: HitsOf(after, c) == HitsOf(s, c);
  }

  lemma ConsumerIsPending(s: State, log: set<Record>, evs: seq<Ev>, p: Performance)
    requires Accounted(s, log, evs) && MayFollow(evs, Retired(p))
    ensures HitsOf(s, p.id) != {}
  {
    hide ValidationOf, HazardOf, PerformanceOf;
    var h :| Intent(h) in evs && h.consumer == p.id;
    assert h in HitsOf(s, p.id);
  }

  /**
   Whatever the order, nothing is refused, ambiguity never arises, and at every
   point exactly the complete hits have their record, exactly the others are
   pending, and performance is kept only for consumers that still wait.
   */
  lemma {:induction false} RunAccounts(evs: seq<Ev>)
    requires Proper(evs)
    ensures Run(EMPTY, evs).Some? && Accounted(Run(EMPTY, evs).value.0, Run(EMPTY, evs).value.1, evs)
  {
    hide Step, Accounted, MayFollow, Orderly, Run;
    if evs == [] {
      NothingArrived();
    } else {
      var front, ev := evs[..|evs| - 1], evs[|evs| - 1];
      RunAccounts(front);
      ProperIsOrderly(front);
      assert front + [ev] == evs;
      StepAccounts(Run(EMPTY, front).value.0, Run(EMPTY, front).value.1, front, ev);
      RunLast(EMPTY, front, ev);
    }
  }

  lemma RunLast(s: State, evs: seq<Ev>, ev: Ev)
    requires Run(s, evs).Some? && Step(Run(s, evs).value.0, ev).Some?
    ensures Run(s, evs + [ev]).Some?
    ensures Run(s, evs + [ev]).value.0 == Step(Run(s, evs).value.0, ev).value.0
    ensures Run(s, evs + [ev]).value.1 == Run(s, evs).value.1 + Step(Run(s, evs).value.0, ev).value.1
  {
    hide Step;
    assert (evs + [ev])[..|evs|] == evs;
  }

  lemma StepAccounts(s: State, log: set<Record>, evs: seq<Ev>, ev: Ev)
    requires Orderly(evs) && Accounted(s, log, evs) && MayFollow(evs, ev)
    ensures Step(s, ev).Some?
    ensures Accounted(Step(s, ev).value.0, log + Step(s, ev).value.1, evs + [ev])
  {
    hide Step, Accounted, MayFollow, Orderly;
    match ev
    case Intent(h) => IntentAccounts(s, log, evs, h);
    case Validated(v) => ValidatedAccounts(s, log, evs, v);
    case Attributed(z) => AttributedAccounts(s, log, evs, z);
    case Retired(p) => RetiredAccounts(s, log, evs, p);
  }

  lemma NothingArrived()
    ensures Run(EMPTY, []) == Some((EMPTY, {})) && Accounted(EMPTY, {}, [])
  {
  }

  // ---------------------------------------------------------------------
  // Orders of arrival
  // ---------------------------------------------------------------------

  /** Every kind of evidence arrives once for its hit or consumer. */
  ghost predicate Single(evs: seq<Ev>) {
    && (forall v, v' | Validated(v) in evs && Validated(v') in evs && v.bin == v'.bin && v.consumer == v'.consumer :: v == v')
    && (forall z, z' | Attributed(z) in evs && Attributed(z') in evs && z.hit == z'.hit :: z == z')
    && forall p, p' | Retired(p) in evs && Retired(p') in evs && p.id == p'.id :: p == p'
  }

  lemma StaysSingle(evs: seq<Ev>, ev: Ev)
    requires Single(evs) && MayFollow(evs, ev)
    ensures Single(evs + [ev])
  {
    hide ValidationOf, HazardOf, PerformanceOf;
    Extend(evs, ev);
  }

  lemma {:induction false} ProperIsSingle(evs: seq<Ev>)
    requires Proper(evs)
    ensures Single(evs)
  {
    hide Single, MayFollow;
    if evs == [] {
      NothingIsSingle();
    } else {
      ProperIsSingle(evs[..|evs| - 1]);
      StaysSingle(evs[..|evs| - 1], evs[|evs| - 1]);
      assert evs[..|evs| - 1] + [evs[|evs| - 1]] == evs;
    }
  }

  lemma NothingIsSingle()
    ensures Single([])
  {
  }

  lemma SameEvidence(evs: seq<Ev>, evs': seq<Ev>)
    requires Single(evs) && Single(evs') && forall ev :: ev in evs <==> ev in evs'
    ensures forall h :: ValidationOf(evs, h) == ValidationOf(evs', h) && HazardOf(evs, h) == HazardOf(evs', h)
    ensures forall c :: PerformanceOf(evs, c) == PerformanceOf(evs', c)
    ensures forall h :: Complete(evs, h) == Complete(evs', h)
    ensures forall h | Complete(evs, h) :: FullRecord(evs, h) == FullRecord(evs', h)
  {
    hide ValidationOf, HazardOf, PerformanceOf;
  }

  /** Two proper arrival orders of the same events emit the same records and end in the same state. */
  lemma JoinConfluence(evs: seq<Ev>, evs': seq<Ev>)
    requires Proper(evs) && Proper(evs') && forall ev :: ev in evs <==> ev in evs'
    ensures Run(EMPTY, evs).Some? && Run(EMPTY, evs) == Run(EMPTY, evs')
  {
    hide Run, Proper, ValidationOf, HazardOf, PerformanceOf, Complete, FullRecord, Single;
    RunAccounts(evs);
    RunAccounts(evs');
    ProperIsSingle(evs);
    ProperIsSingle(evs');
    SameEvidence(evs, evs');
    var (s, log) := Run(EMPTY, evs).value;
    var (s', log') := Run(EMPTY, evs').value;
    SameAccount(s, log, evs, s', log', evs');
  }

  lemma SameAccount(s: State, log: set<Record>, evs: seq<Ev>, s': State, log': set<Record>, evs': seq<Ev>)
    requires Accounted(s, log, evs) && Accounted(s', log', evs') && forall ev :: ev in evs <==> ev in evs'
    requires forall h :: ValidationOf(evs, h) == ValidationOf(evs', h) && HazardOf(evs, h) == HazardOf(evs', h)
    requires forall c :: PerformanceOf(evs, c) == PerformanceOf(evs', c)
    requires forall h :: Complete(evs, h) == Complete(evs', h)
    requires forall h | Complete(evs, h) :: FullRecord(evs, h) == FullRecord(evs', h)
    ensures s == s' && log == log'
  {
    hide ValidationOf, HazardOf, PerformanceOf, Complete, FullRecord;
    assert s.pending == s'.pending;
    forall c
      ensures c in s.performance <==> c in s'.performance
      ensures c in s.performance ==> s.performance[c] == s'.performance[c]
    {
      assert HitsOf(s, c) == HitsOf(s', c);
    }
    assert s.performance == s'.performance;
    assert forall r :: r in log <==> r in log';
  }

  /** Once everything has arrived nothing is retained, and every hit has exactly one record. */
  lemma JoinDrains(evs: seq<Ev>)
    requires Proper(evs) && forall h | Intent(h) in evs :: Complete(evs, h)
    ensures Run(EMPTY, evs).Some? && Run(EMPTY, evs).value.0 == EMPTY
    ensures forall h | Intent(h) in evs :: FullRecord(evs, h) in Run(EMPTY, evs).value.1
    ensures forall r, r' | r in Run(EMPTY, evs).value.1 && r' in Run(EMPTY, evs).value.1 && r.hit == r'.hit :: r == r'
  {
    hide Run, Proper, ValidationOf, HazardOf, PerformanceOf, Complete, FullRecord;
    RunAccounts(evs);
    RecordNamesHit(evs);
    var (s, log) := Run(EMPTY, evs).value;
    assert s.pending == map[];
    forall c
      ensures c !in s.performance
    {
      assert HitsOf(s, c) == {};
    }
    assert s.performance == map[];
  }

  // ---------------------------------------------------------------------
  // What a record joins
  // ---------------------------------------------------------------------

  /** All four parts were reported, are about one hit of one consumer, and tell one retirement. */
  ghost predicate Genuine(r: Record, evs: seq<Ev>) {
    && Intent(r.hit) in evs && Validated(r.validation) in evs && Attributed(r.hazard) in evs && Retired(r.performance) in evs
    && r.validation.bin == r.hit.bin && r.validation.consumer == r.hit.consumer
    && r.validation.producers == r.hit.producers
    && r.hazard.hit == r.hit && r.performance.id == r.hit.consumer
    && r.hazard.expectedRetire == r.performance.expectedRetire && r.hazard.observedRetire == r.performance.observedRetire
  }

  /** What is kept was reported, for the hit or the consumer it is kept for. */
  ghost predicate Backed(s: State, evs: seq<Ev>) {
    && (forall h | h in s.pending ::
          && Intent(h) in evs
          && (s.pending[h].validation.Some? ==>
                Validated(s.pending[h].validation.value) in evs && Names(s.pending[h].validation.value, h))
          && (s.pending[h].hazard.Some? ==>
                Attributed(s.pending[h].hazard.value) in evs && s.pending[h].hazard.value.hit == h))
    && forall c | c in s.performance :: Retired(s.performance[c]) in evs && s.performance[c].id == c
  }

  ghost predicate Sourced(s: State, evs: seq<Ev>) {
    Backed(s, evs) && forall h | h in s.pending :: !Joined(s, h)
  }

  /** Only hits of one consumer may be complete, and none of them is contradictory. */
  ghost predicate Settling(s: State, evs: seq<Ev>, consumer: int) {
    Backed(s, evs) && forall h | h in s.pending && Joined(s, h) :: h.consumer == consumer && !RetireMismatch(s, h)
  }

  lemma SettlesGenuine(s: State, evs: seq<Ev>, consumer: int)
    requires Settling(s, evs, consumer)
    ensures Sourced(Finalize(s, consumer).0, evs)
    ensures forall r | r in Finalize(s, consumer).1 :: Genuine(r, evs)
  {
    forall r | r in Finalize(s, consumer).1
      ensures Genuine(r, evs)
    {
      var h :| h in s.pending && h.consumer == consumer && Joined(s, h) && RecordOf(s, h) == r;
      assert !RetireMismatch(s, h);
    }
    var after := Finalize(s, consumer).0;
    forall h | h in after.pending
      ensures !Joined(after, h)
    {
      assert Joined(after, h) ==> Joined(s, h);
    }
  }

  lemma StepSettles(s: State, evs: seq<Ev>, ev: Ev)
    requires Sourced(s, evs) && Step(s, ev).Some?
    ensures Sourced(Step(s, ev).value.0, evs + [ev])
    ensures forall r | r in Step(s, ev).value.1 :: Genuine(r, evs + [ev])
  {
    hide Finalize, Genuine, RetireMismatch;
    assert ev in evs + [ev] && forall x | x in evs :: x in evs + [ev];
    match ev
    case Intent(h) =>
    case Validated(v) => ValidationSettles(s, evs, v);
    case Attributed(z) => HazardSettles(s, evs, z);
    case Retired(p) => RetirementSettles(s, evs, p);
  }

  lemma ValidationSettles(s: State, evs: seq<Ev>, v: Validation)
    requires Sourced(s, evs) && Step(s, Validated(v)).Some?
    ensures Sourced(Step(s, Validated(v)).value.0, evs + [Validated(v)])
    ensures forall r | r in Step(s, Validated(v)).value.1 :: Genuine(r, evs + [Validated(v)])
  {
    hide Finalize, Genuine, SameRetire;
    assert forall x | x in evs :: x in evs + [Validated(v)];
    forall h | h in s.pending && Names(v, h) && s.pending[h].validation.None?
      ensures var after := s.(pending := s.pending[h := s.pending[h].(validation := Some(v))]);
              !RetireMismatch(after, h) ==>
                && Sourced(Finalize(after, h.consumer).0, evs + [Validated(v)])
                && forall r | r in Finalize(after, h.consumer).1 :: Genuine(r, evs + [Validated(v)])
    {
      var after := s.(pending := s.pending[h := s.pending[h].(validation := Some(v))]);
      if !RetireMismatch(after, h) {
        OthersAtRest(s, h, s.pending[h].(validation := Some(v)));
        SettlesGenuine(after, evs + [Validated(v)], h.consumer);
      }
    }
  }

  lemma OthersAtRest(s: State, h: Hit, partial: Partial)
    requires h in s.pending
    ensures var after := s.(pending := s.pending[h := partial]);
            forall g | g in after.pending && g != h :: Joined(after, g) <==> Joined(s, g)
  {
  }

  lemma HazardSettles(s: State, evs: seq<Ev>, z: Hazard)
    requires Sourced(s, evs) && Step(s, Attributed(z)).Some?
    ensures Sourced(Step(s, Attributed(z)).value.0, evs + [Attributed(z)])
    ensures forall r | r in Step(s, Attributed(z)).value.1 :: Genuine(r, evs + [Attributed(z)])
  {
    hide Finalize, Genuine, SameRetire;
    assert forall x | x in evs :: x in evs + [Attributed(z)];
    var after := s.(pending := s.pending[z.hit := s.pending[z.hit].(hazard := Some(z))]);
    OthersAtRest(s, z.hit, s.pending[z.hit].(hazard := Some(z)));
    SettlesGenuine(after, evs + [Attributed(z)], z.hit.consumer);
  }

  lemma RetirementSettles(s: State, evs: seq<Ev>, p: Performance)
    requires Sourced(s, evs) && Step(s, Retired(p)).Some?
    ensures Sourced(Step(s, Retired(p)).value.0, evs + [Retired(p)])
    ensures forall r | r in Step(s, Retired(p)).value.1 :: Genuine(r, evs + [Retired(p)])
  {
    hide Finalize, Genuine, SameRetire;
    assert forall x | x in evs :: x in evs + [Retired(p)];
    var after := s.(performance := s.performance[p.id := p]);
    forall h | h in after.pending
      ensures Joined(after, h) ==> h.consumer == p.id && !RetireMismatch(after, h)
    {
      if h.consumer == p.id {
        assert h in HitsOf(s, p.id);
      } else {
        assert Joined(after, h) <==> Joined(s, h);
      }
    }
    SettlesGenuine(after, evs + [Retired(p)], p.id);
  }

  /** Whatever the order of calls, every record that is emitted is genuine. */
  lemma {:induction false} RecordsAreGenuine(evs: seq<Ev>)
    requires Run(EMPTY, evs).Some?
    ensures Sourced(Run(EMPTY, evs).value.0, evs)
    ensures forall r | r in Run(EMPTY, evs).value.1 :: Genuine(r, evs)
  {
    hide Step, Sourced;
    if evs == [] {
      NothingSourced();
    } else {
      var front, ev := evs[..|evs| - 1], evs[|evs| - 1];
      RecordsAreGenuine(front);
      StepSettles(Run(EMPTY, front).value.0, front, ev);
      assert front + [ev] == evs && forall x | x in front :: x in evs;
    }
  }

  lemma NothingSourced()
    ensures Sourced(EMPTY, [])
  {
  }

  // ---------------------------------------------------------------------
  // Hits registered after their consumer retired
  // ---------------------------------------------------------------------

  lemma ProperGrows(evs: seq<Ev>, ev: Ev)
    requires Proper(evs) && MayFollow(evs, ev)
    ensures Proper(evs + [ev])
  {
    hide MayFollow;
    assert (evs + [ev])[..|evs|] == evs;
  }

  /** All evidence of a hit may follow its registration. */
  lemma EvidenceMayFollow(evs: seq<Ev>, h: Hit, v: Validation, z: Hazard)
    requires Orderly(evs) && MayFollow(evs, Intent(h)) && Names(v, h) && z.hit == h
    requires PerformanceOf(evs, h.consumer).Some? && SameRetire(z, PerformanceOf(evs, h.consumer).value)
    ensures var late := evs + [Intent(h)];
            && MayFollow(late, Validated(v)) && MayFollow(late + [Validated(v)], Attributed(z))
            && Complete(late + [Validated(v)] + [Attributed(z)], h)
  {
    hide ValidationOf, HazardOf, PerformanceOf, Orderly;
    IntentAddsNothing(evs, h);
    Extend(evs, Intent(h));
    Extend(evs + [Intent(h)], Validated(v));
    Extend(evs + [Intent(h)] + [Validated(v)], Attributed(z));
  }

  /** Without a retained retirement the evidence of the consumer's only hit completes nothing. */
  lemma Stranded(s: State, h: Hit, v: Validation, z: Hazard)
    requires HitsOf(s, h.consumer) == {} && h.consumer !in s.performance && Names(v, h) && z.hit == h
    ensures h !in s.pending
    ensures var late := s.(pending := s.pending[h := Partial(None, None)]);
            var validated := s.(pending := s.pending[h := Partial(Some(v), None)]);
            && Step(s, Intent(h)) == Some((late, {})) && Step(late, Validated(v)) == Some((validated, {}))
            && Step(validated, Attributed(z)) == Some((s.(pending := s.pending[h := Partial(Some(v), Some(z))]), {}))
  {
    hide Finalize, RetireMismatch;
    assert h in s.pending ==> h in HitsOf(s, h.consumer);
    var late := s.(pending := s.pending[h := Partial(None, None)]);
    OnlyPending(s, h, Partial(None, None));
    OnlyPending(s, h, Partial(Some(v), None));
    OnlyPending(s, h, Partial(Some(v), Some(z)));
    assert (set g | g in late.pending && Names(v, g)) == {h} by {
      assert forall g | g in late.pending && Names(v, g) :: g in HitsOf(late, h.consumer);
    }
    ValidatedStep(late, h, v);
    assert late.pending[h := Partial(Some(v), None)] == s.pending[h := Partial(Some(v), None)];
    assert s.pending[h := Partial(Some(v), None)][h := Partial(Some(v), Some(z))] == s.pending[h := Partial(Some(v), Some(z))];
  }

  lemma OnlyPending(s: State, h: Hit, partial: Partial)
    requires HitsOf(s, h.consumer) == {} && h.consumer !in s.performance
    ensures var after := s.(pending := s.pending[h := partial]);
            HitsOf(after, h.consumer) == {h} && !RetireMismatch(after, h) && Finalize(after, h.consumer) == (after, {})
  {
    hide RecordOf;
    var after := s.(pending := s.pending[h := partial]);
    forall g | g in HitsOf(after, h.consumer)
      ensures g == h
    {
      assert g in s.pending ==> g in HitsOf(s, h.consumer);
    }
    assert h in HitsOf(after, h.consumer);
    var done := set g | g in after.pending && g.consumer == h.consumer && Joined(after, g);
    assert done == {};
    assert Finalize(after, h.consumer).1 == {};
    assert after.pending - done == after.pending;
  }

  /** A validation that names one pending hit is noted for it. */
  lemma ValidatedStep(s: State, h: Hit, v: Validation)
    requires (set g | g in s.pending && Names(v, g)) == {h} && s.pending[h].validation.None?
    ensures var after := s.(pending := s.pending[h := s.pending[h].(validation := Some(v))]);
            !RetireMismatch(after, h) ==> Step(s, Validated(v)) == Some(Finalize(after, h.consumer))
  {
    hide Finalize, RetireMismatch, Names;
    assert h in {h};
  }

  /**
   A hit registered after its consumer retired is resolved by its other evidence
   exactly if another hit of the consumer was unresolved then. Otherwise the
   retirement was already given up, and the hit keeps waiting for it.
   */
  lemma LateIntentResolves(evs: seq<Ev>, h: Hit, v: Validation, z: Hazard)
    requires Proper(evs) && NewHit(evs, h) && Names(v, h) && z.hit == h
    requires PerformanceOf(evs, h.consumer).Some? && SameRetire(z, PerformanceOf(evs, h.consumer).value)
    ensures var r := Run(EMPTY, evs + [Intent(h)] + [Validated(v)] + [Attributed(z)]);
            r.Some? && (h !in r.value.0.pending <==> Unresolved(evs, h.consumer))
  {
    hide ValidationOf, HazardOf, PerformanceOf, Complete, FullRecord, Orderly, Run, Step, Proper, Names;
    var late, validated := evs + [Intent(h)], evs + [Intent(h)] + [Validated(v)];
    RunAccounts(evs);
    if Unresolved(evs, h.consumer) {
      ProperIsOrderly(evs);
      EvidenceMayFollow(evs, h, v, z);
      ProperGrows(evs, Intent(h));
      ProperGrows(late, Validated(v));
      ProperGrows(validated, Attributed(z));
      RunAccounts(validated + [Attributed(z)]);
    } else {
      var s := Run(EMPTY, evs).value.0;
      assert forall g | g in HitsOf(s, h.consumer) :: Intent(g) in evs && !Complete(evs, g);
      assert HitsOf(s, h.consumer) == {};
      Stranded(s, h, v, z);
      RunLast(EMPTY, evs, Intent(h));
      RunLast(EMPTY, late, Validated(v));
      RunLast(EMPTY, validated, Attributed(z));
    }
  }

  /** It happens: one hit of the consumer is complete and gone before the other is registered. */
  lemma LateIntentIsStranded(g: Hit, v: Validation, z: Hazard, p: Performance, h: Hit)
    requires g.consumer == h.consumer == p.id && g.bin != h.bin
    requires Names(v, g) && z.hit == g && SameRetire(z, p)
    ensures var evs := [Intent(g)] + [Validated(v)] + [Attributed(z)] + [Retired(p)];
            && Proper(evs) && NewHit(evs, h) && PerformanceOf(evs, h.consumer) == Some(p)
            && !Unresolved(evs, h.consumer)
  {
    hide ValidationOf, HazardOf, PerformanceOf, Proper, MayFollow;
    var timed := [Intent(g)] + [Validated(v)] + [Attributed(z)];
    TwoTimings(g, v, z);
    Extend(timed, Retired(p));
    RetirementMayFollow(timed, g, z, p);
    ProperGrows(timed, Retired(p));
  }

  lemma TwoTimings(g: Hit, v: Validation, z: Hazard)
    requires Names(v, g) && z.hit == g
    ensures var evs := [Intent(g)] + [Validated(v)] + [Attributed(z)];
            && Proper(evs) && (forall h :: Intent(h) in evs <==> h == g)
            && ValidationOf(evs, g) == Some(v) && HazardOf(evs, g) == Some(z) && forall c :: PerformanceOf(evs, c).None?
  {
    hide ValidationOf, HazardOf, PerformanceOf, Proper, Complete;
    NothingIsProper();
    Extend([], Intent(g));
    assert [] + [Intent(g)] == [Intent(g)];
    ProperGrows([], Intent(g));
    Extend([Intent(g)], Validated(v));
    ProperGrows([Intent(g)], Validated(v));
    Extend([Intent(g)] + [Validated(v)], Attributed(z));
    ProperGrows([Intent(g)] + [Validated(v)], Attributed(z));
  }

  lemma RetirementMayFollow(evs: seq<Ev>, g: Hit, z: Hazard, p: Performance)
    requires (forall h :: Intent(h) in evs <==> h == g) && HazardOf(evs, g) == Some(z) && PerformanceOf(evs, p.id).None?
    requires g.consumer == p.id && SameRetire(z, p)
    ensures MayFollow(evs, Retired(p))
  {
    hide HazardOf, PerformanceOf;
  }

  lemma NothingIsProper()
    ensures Proper([])
    ensures forall h :: ValidationOf([], h).None? && HazardOf([], h).None?
    ensures forall c :: PerformanceOf([], c).None?
  {
  }

  /** The classifier's hits of one instruction never share a bin. */
  lemma {:induction false} ClassifierHitsAreDistinct(bins: seq<Bin>, h: History, e: Execution.Event)
    requires forall i, j | 0 <= i < j < |bins| :: bins[i] != bins[j]
    ensures var hits := HitsOver(bins, h, e);
            && (forall i, j | 0 <= i < j < |hits| :: hits[i].bin != hits[j].bin)
            && forall x | x in hits :: x.bin in bins && x.consumer == e.index
  {
    hide HitFor;
    if bins != [] {
      ClassifierHitsAreDistinct(bins[..|bins| - 1], h, e);
      HitNamesBin(bins[|bins| - 1], h, e);
      var before := HitsOver(bins[..|bins| - 1], h, e);
      forall i | 0 <= i < |before|
        ensures before[i].bin != bins[|bins| - 1]
      {
        assert before[i] in before;
      }
    }
  }
}

/** The coordinator object: each call is one step of the join. */
module LiveCoverageCoordinator {
  import opened Wrappers
  import opened L1Coverage
  import opened JoinRuns

  datatype JoinError =
    | DuplicateIntent | NoSuchHit | AmbiguousIdentity | DuplicateEvidence | InconsistentRetire

  /** At rest no pending hit has all its evidence. */
  ghost predicate AtRest(s: State) {
    forall h | h in s.pending :: !Joined(s, h)
  }

  function WithPartial(s: State, h: Hit, partial: Partial): State {
    s.(pending := s.pending[h := partial])
  }

  function CompleteOf(s: State, hs: set<Hit>): set<Hit> {
    set h | h in hs && Joined(s, h)
  }

  /**
   The consumer's hits were tried up to one whose two timings contradict each
   other: the retirement stays noted, and complete hits tried before have left,
   their records lost with the call.
   */
  ghost predicate StoppedAt(start: State, now: State, consumer: int) {
    exists tried, h ::
      && tried <= HitsOf(start, consumer) && h in HitsOf(start, consumer) - tried && RetireMismatch(start, h)
      && (forall g | g in tried :: !RetireMismatch(start, g))
      && now == start.(pending := start.pending - CompleteOf(start, tried))
  }

  class Coordinator {
    var pending: map<Hit, Partial>
    var performance: map<int, Performance>

    ghost predicate Valid()
      reads this
    {
      AtRest(View())
    }

    function View(): State
      reads this
    {
      State(pending, performance)
    }

    constructor ()
      ensures Valid() && View() == EMPTY
    {
      pending := map[];
      performance := map[];
    }

    method MaybeReleasePerformance(consumer: int)
      modifies `performance
      ensures View() == Released(old(View()), consumer)
    {
      if (set h | h in pending && h.consumer == consumer) == {} {
        performance := performance - {consumer};
      }
    }

    /** Emits the record of one hit if all its evidence is there and agrees. */
    method TryFinalize(h: Hit) returns (r: Result<seq<Record>, JoinError>)
      modifies this
      ensures r.Err? <==> old(RetireMismatch(View(), h))
      ensures r.Err? ==> r.error == InconsistentRetire && View() == old(View())
      ensures !old(Joined(View(), h)) ==> r == Ok([]) && View() == old(View())
      ensures r.Ok? && old(Joined(View(), h)) ==>
                && r.value == [RecordOf(old(View()), h)]
                && View() == Released(old(View()).(pending := old(pending) - {h}), h.consumer)
    {
      if h !in pending || pending[h].validation.None? || pending[h].hazard.None? || h.consumer !in performance {
        return Ok([]);
      }
      var record := Record(h, pending[h].validation.value, pending[h].hazard.value, performance[h.consumer]);
      if !SameRetire(record.hazard, record.performance) {
        return Err(InconsistentRetire);
      }
      pending := pending - {h};
      MaybeReleasePerformance(h.consumer);
      r := Ok([record]);
    }

    method RegisterL1Intent(h: Hit) returns (r: Result<(), JoinError>)
      requires Valid()
      modifies this
      ensures Valid() && (r.Ok? <==> Step(old(View()), Intent(h)).Some?)
      ensures r.Ok? ==> Step(old(View()), Intent(h)) == Some((View(), {}))
      ensures r.Err? ==> View() == old(View())
    {
      if h in pending {
        return Err(DuplicateIntent);
      }
      pending := pending[h := Partial(None, None)];
      r := Ok(());
    }

    method RecordValidation(v: Validation) returns (r: Result<seq<Record>, JoinError>)
      requires Valid()
      modifies this
      ensures r.Ok? <==> Step(old(View()), Validated(v)).Some?
      ensures r.Ok? ==> Valid() && Step(old(View()), Validated(v)) == Some((View(), set x | x in r.value))
      ensures r.Err? && r.error != InconsistentRetire ==> View() == old(View())
      ensures r == Err(InconsistentRetire) ==>
                exists h :: && h in old(pending) && Names(v, h) && old(pending)[h].validation.None?
                            && View() == WithPartial(old(View()), h, old(pending)[h].(validation := Some(v)))
                            && RetireMismatch(View(), h)
    {
      hide Finalize, AtRest, Joined, RecordOf, RetireMismatch, Released;
      var matches := set h | h in pending && Names(v, h);
      if |matches| == 0 {
        return Err(NoSuchHit);
      }
      if |matches| != 1 {
        return Err(AmbiguousIdentity);
      }
      OneElement(matches);
      var h :| h in matches;
      if pending[h].validation.Some? {
        return Err(DuplicateEvidence);
      }
      OneJoins(View(), h, pending[h].(validation := Some(v)));
      pending := pending[h := pending[h].(validation := Some(v))];
      r := TryFinalize(h);
      if r.Ok? {
        OneEmitted(r.value);
      }
    }

    method RecordHazard(z: Hazard) returns (r: Result<seq<Record>, JoinError>)
      requires Valid()
      modifies this
      ensures r.Ok? <==> Step(old(View()), Attributed(z)).Some?
      ensures r.Ok? ==> Valid() && Step(old(View()), Attributed(z)) == Some((View(), set x | x in r.value))
      ensures r.Err? && r.error != InconsistentRetire ==> View() == old(View())
      ensures r == Err(InconsistentRetire) ==>
                && z.hit in old(pending) && old(pending)[z.hit].hazard.None?
                && View() == WithPartial(old(View()), z.hit, old(pending)[z.hit].(hazard := Some(z)))
                && RetireMismatch(View(), z.hit)
    {
      hide Finalize, AtRest, Joined, RecordOf, RetireMismatch, Released;
      if z.hit !in pending {
        return Err(NoSuchHit);
      }
      if pending[z.hit].hazard.Some? {
        return Err(DuplicateEvidence);
      }
      OneJoins(View(), z.hit, pending[z.hit].(hazard := Some(z)));
      pending := pending[z.hit := pending[z.hit].(hazard := Some(z))];
      r := TryFinalize(z.hit);
      if r.Ok? {
        OneEmitted(r.value);
      }
    }

    /** One retirement can complete every hit of its consumer; they are tried in any order. */
    method RecordPerformance(p: Performance) returns (r: Result<seq<Record>, JoinError>)
      requires Valid()
      modifies this
      ensures r.Ok? <==> Step(old(View()), Retired(p)).Some?
      ensures r.Ok? ==> Valid() && Step(old(View()), Retired(p)) == Some((View(), set x | x in r.value))
      ensures r.Err? && r.error != InconsistentRetire ==> View() == old(View())
      ensures r == Err(InconsistentRetire) ==>
                StoppedAt(old(View()).(performance := old(performance)[p.id := p]), View(), p.id)
    {
      hide Finalize, AtRest, Joined, RecordOf, RetireMismatch, Released, HitsOf;
      var keys := HitsOf(View(), p.id);
      if keys == {} {
        return Err(NoSuchHit);
      }
      if p.id in performance {
        return Err(DuplicateEvidence);
      }
      performance := performance[p.id := p];
      ghost var start := View();
      KeysAreConsumers(old(View()), start, p.id);
      StartTrying(start, p.id, keys);
      var records: seq<Record> := [];
      var todo := keys;
      while todo != {}
        invariant todo <= keys && Tried(start, View(), p.id, keys - todo, todo)
        invariant (set x | x in records) == RecordsOf(start, keys - todo)
        invariant forall h | h in keys - todo :: !RetireMismatch(start, h)
        decreases todo
      {
        SomeKey(todo);
        var h :| h in todo;
        TryOne(start, View(), p.id, keys, todo, h);
        var one := TryFinalize(h);
        if one.Err? {
          StopsHere(start, View(), p.id, keys, todo, h);
          return Err(one.error);
        }
        OneEmitted(one.value);
        assert (set x | x in records + one.value) == (set x | x in records) + (set x | x in one.value);
        records := records + one.value;
        todo := todo - {h};
      }
      assert keys - todo == keys;
      AllTried(start, View(), p.id, keys);
      RetirementLeavesRest(old(View()), start, p.id, keys);
      MaybeReleasePerformance(p.id);
      r := Ok(records);
    }
  }

  /** The records of the complete hits among hs. */
  function RecordsOf(s: State, hs: set<Hit>): set<Record> {
    set h | h in hs && Joined(s, h) :: RecordOf(s, h)
  }

  /** Where trying the consumer's hits has got to. */
  ghost predicate Tried(start: State, now: State, consumer: int, tried: set<Hit>, todo: set<Hit>) {
    && tried + todo == HitsOf(start, consumer) && tried !! todo && consumer in start.performance
    && now == Released(start.(pending := start.pending - CompleteOf(start, tried)), consumer)
  }

  lemma KeysAreConsumers(before: State, start: State, consumer: int)
    requires consumer in start.performance
    requires start == before.(performance := before.performance[consumer := start.performance[consumer]])
    ensures HitsOf(before, consumer) == HitsOf(start, consumer)
  {
  }

  lemma StartTrying(start: State, consumer: int, keys: set<Hit>)
    requires keys == HitsOf(start, consumer) && keys != {} && consumer in start.performance
    ensures Tried(start, start, consumer, keys - keys, keys) && RecordsOf(start, keys - keys) == {}
  {
    hide Joined, RecordOf;
    assert keys - keys == {};
    assert CompleteOf(start, {}) == {};
    assert start.pending - {} == start.pending;
  }

  lemma SomeKey(hs: set<Hit>)
    ensures hs == {} || exists h :: h in hs
  {
    if forall h :: h !in hs {
      assert hs == {};
    }
  }

  lemma TryOne(start: State, now: State, consumer: int, keys: set<Hit>, todo: set<Hit>, h: Hit)
    requires todo <= keys && h in todo && Tried(start, now, consumer, keys - todo, todo)
    ensures h.consumer == consumer
    ensures Joined(now, h) <==> Joined(start, h)
    ensures Joined(now, h) ==> RecordOf(now, h) == RecordOf(start, h)
    ensures RetireMismatch(now, h) <==> RetireMismatch(start, h)
    ensures var next := if Joined(now, h) then Released(now.(pending := now.pending - {h}), consumer) else now;
            Tried(start, next, consumer, keys - (todo - {h}), todo - {h})
    ensures RecordsOf(start, keys - (todo - {h}))
         == RecordsOf(start, keys - todo) + (if Joined(start, h) then {RecordOf(start, h)} else {})
  {
    var tried := keys - todo;
    assert h in HitsOf(start, consumer) && h !in CompleteOf(start, tried);
    assert h in HitsOf(start.(pending := start.pending - CompleteOf(start, tried)), consumer);
    assert keys - (todo - {h}) == tried + {h};
    GrowsByOne(start, tried, h);
    if Joined(start, h) {
      assert start.pending - CompleteOf(start, tried) - {h} == start.pending - (CompleteOf(start, tried) + {h});
    }
  }

  lemma StopsHere(start: State, now: State, consumer: int, keys: set<Hit>, todo: set<Hit>, h: Hit)
    requires todo <= keys && h in todo && Tried(start, now, consumer, keys - todo, todo) && RetireMismatch(start, h)
    requires forall g | g in keys - todo :: !RetireMismatch(start, g)
    ensures StoppedAt(start, now, consumer)
  {
    hide Joined, RetireMismatch;
    var left := start.(pending := start.pending - CompleteOf(start, keys - todo));
    assert h in HitsOf(start, consumer) && h !in CompleteOf(start, keys - todo);
    assert h in HitsOf(left, consumer);
  }

  lemma GrowsByOne(s: State, tried: set<Hit>, h: Hit)
    ensures CompleteOf(s, tried + {h}) == CompleteOf(s, tried) + (if Joined(s, h) then {h} else {})
    ensures RecordsOf(s, tried + {h}) == RecordsOf(s, tried) + (if Joined(s, h) then {RecordOf(s, h)} else {})
  {
    hide Joined, RecordOf;
  }

  lemma AllTried(start: State, now: State, consumer: int, keys: set<Hit>)
    requires Tried(start, now, consumer, keys, {})
    ensures Finalize(start, consumer) == (now, RecordsOf(start, keys)) && Released(now, consumer) == now
  {
    hide RecordOf;
    var done := set h | h in start.pending && h.consumer == consumer && Joined(start, h);
    assert keys + {} == keys;
    assert done == CompleteOf(start, keys);
    assert (set h | h in done :: RecordOf(start, h)) == RecordsOf(start, keys);
    var left := start.(pending := start.pending - done);
    assert HitsOf(Released(left, consumer), consumer) == HitsOf(left, consumer);
    assert left.performance - {consumer} - {consumer} == left.performance - {consumer};
  }

  lemma RetirementLeavesRest(before: State, start: State, consumer: int, keys: set<Hit>)
    requires AtRest(before) && keys == HitsOf(start, consumer) && consumer in start.performance
    requires start == before.(performance := before.performance[consumer := start.performance[consumer]])
    ensures AtRest(Finalize(start, consumer).0)
  {
    hide RecordOf;
    var after := Finalize(start, consumer).0;
    forall h | h in after.pending
      ensures !Joined(after, h)
    {
      assert !Joined(before, h);
    }
  }

  lemma OneEmitted(rs: seq<Record>)
    ensures |rs| <= 1 ==> (set x | x in rs) == if rs == [] then {} else {rs[0]}
  {
  }

  lemma OneElement<T>(s: set<T>)
    requires |s| == 1
    ensures exists x :: x in s && s == {x}
  {
    var x :| x in s;
    assert |s - {x}| == 0;
    assert s == {x};
  }

  /** Evidence for one pending hit can complete no other. */
  lemma OneJoins(s: State, h: Hit, partial: Partial)
    requires AtRest(s) && h in s.pending
    ensures var after := s.(pending := s.pending[h := partial]);
            if Joined(after, h) then
              && Finalize(after, h.consumer)
                 == (Released(after.(pending := after.pending - {h}), h.consumer), {RecordOf(after, h)})
              && AtRest(Released(after.(pending := after.pending - {h}), h.consumer))
            else Finalize(after, h.consumer) == (after, {}) && AtRest(after)
  {
    hide RecordOf;
    var after := s.(pending := s.pending[h := partial]);
    var done := set g | g in after.pending && g.consumer == h.consumer && Joined(after, g);
    forall g | g in s.pending && g != h
      ensures !Joined(after, g)
    {
      assert !Joined(s, g);
    }
    if Joined(after, h) {
      assert done == {h};
      assert (set g | g in done :: RecordOf(after, g)) == {RecordOf(after, h)};
    } else {
      assert done == {};
      assert Finalize(after, h.consumer).1 == {};
      assert after.pending - done == after.pending;
      assert h in HitsOf(after, h.consumer);
    }
  }
}
