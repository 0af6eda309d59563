/** Ring, tracker and witness registry over one stream: commit, finalize, terminate. */
module RuntimeWindow {
  import opened Wrappers
  import opened Rv32Isa
  import opened Execution
  import opened ArmsAndTargets
  import opened StreamPlan
  import opened HitsAreWitnesses
  import opened PlanRun
  import opened Attribution
  import opened Rewards
  import opened EpochCoordinator
  import opened StreamWindow

  datatype WindowError =
    | Terminated | RingRefused(ring: RingError) | StreamMismatch(stream: StreamError)
    | WitnessesRefused(epoch: EpochError) | BadLastIndex | NothingResident | IndexMismatch

  datatype Suffix = Suffix(
    entries: seq<Entry>, firstWord: nat, reclaimedWords: nat, firstUnexecuted: int, acceptedCount: nat,
    headAccepted: nat, discardedExpected: int, discardedWitnesses: nat)

  datatype Released = Released(entry: Entry, accepted: AcceptedBlock)

  /** Every pending witness has its consumer ahead, and inside the committed plan. */
  predicate AllAhead(byKey: map<Key, Witness>, next: int, end: int) {
    forall k | k in byKey :: next <= k.consumer < end
  }

  lemma {:induction false} RegisteredAhead(byKey: map<Key, Witness>, ws: seq<Witness>, next: int, end: int)
    requires AllAhead(byKey, next, end) && forall w | w in ws :: next <= w.consumer < end
    ensures AllAhead(Registered(byKey, ws), next, end)
  {
    if ws != [] {
      RegisteredAhead(byKey, ws[..|ws| - 1], next, end);
    }
  }

  lemma WitnessesAhead(byKey: map<Key, Witness>, e: Entry, next: int)
    requires EntryOk(e) && e.first >= next && AllAhead(byKey, next, e.first)
    ensures AllAhead(Registered(byKey, e.Witnesses()), next, e.first + e.ExecutedCount())
    ensures NoneRegistered(byKey, e.Witnesses())
  {
    hide Registered;
    RegisteredAhead(byKey, e.Witnesses(), next, e.first + e.ExecutedCount());
  }

  // ---------------------------------------------------------------------
  // Exactly the planned dependencies are pending
  // ---------------------------------------------------------------------

  predicate KeyOfWitnesses(ws: seq<Witness>, k: Key) {
    exists w :: w in ws && KeyOf(w) == k
  }

  predicate KeyIn(es: seq<Entry>, k: Key) {
    exists e :: e in es && KeyOfWitnesses(e.Witnesses(), k)
  }

  /** The registry holds the planned dependencies of the resident entries that end at or after next, and no other. */
  ghost predicate Exactly(byKey: map<Key, Witness>, es: seq<Entry>, next: int) {
    forall k :: k in byKey <==> KeyIn(es, k) && k.consumer >= next
  }

  lemma KeyInAppend(es: seq<Entry>, e: Entry, k: Key)
    ensures KeyIn(es + [e], k) <==> KeyIn(es, k) || KeyOfWitnesses(e.Witnesses(), k)
  {
    hide KeyOfWitnesses;
    if KeyIn(es, k) {
      var x :| x in es && KeyOfWitnesses(x.Witnesses(), k);
      assert x in es + [e];
    }
    assert e in es + [e];
  }

  lemma ExactlyAfterCommit(byKey: map<Key, Witness>, es: seq<Entry>, next: int, e: Entry)
    requires Exactly(byKey, es, next) && EntryOk(e) && e.first >= next
    ensures Exactly(Registered(byKey, e.Witnesses()), es + [e], next)
  {
    var after := Registered(byKey, e.Witnesses());
    forall k
      ensures k in after <==> KeyIn(es + [e], k) && k.consumer >= next
    {
      KeyInAppend(es, e, k);
    }
  }

  /** The hits of the next instruction may already be consumed. */
  ghost predicate ExactlyBeyond(byKey: map<Key, Witness>, es: seq<Entry>, next: int) {
    forall k: Key | k.consumer > next :: k in byKey <==> KeyIn(es, k)
  }

  lemma ExactlyAfterPrune(byKey: map<Key, Witness>, es: seq<Entry>, next: int)
    requires ExactlyBeyond(byKey, es, next)
    ensures Exactly(Future(byKey, next), es, next + 1)
  {
  }

  lemma ExactlyWithoutHead(byKey: map<Key, Witness>, es: seq<Entry>, next: int)
    requires Exactly(byKey, es, next) && es != [] && EntryOk(es[0]) && es[0].first + es[0].ExecutedCount() == next
    ensures Exactly(byKey, es[1..], next)
  {
    forall k: Key | k.consumer >= next
      ensures KeyIn(es, k) <==> KeyIn(es[1..], k)
    {
      if KeyIn(es, k) {
        var e :| e in es && KeyOfWitnesses(e.Witnesses(), k);
        var w :| w in e.Witnesses() && KeyOf(w) == k;
        assert e != es[0];
        assert e in es[1..];
      }
    }
  }

  // ---------------------------------------------------------------------
  // What commit and finalize keep
  // ---------------------------------------------------------------------

  /** Witnesses lie ahead in the committed plan, of which accepted and pending instructions make up the whole. */
  ghost predicate Live(byKey: map<Key, Witness>, es: seq<Entry>, progress: nat, next: int, accepted: int, committed: int) {
    AllAhead(byKey, next, committed + 1) && committed == accepted + Executions(es) - progress
  }

  lemma LiveCommit(byKey: map<Key, Witness>, es: seq<Entry>, next: int, accepted: int, committed: int, e: Entry)
    requires Live(byKey, es, 0, next, accepted, committed) && EntryOk(e)
    requires e.first == next + Executions(es) && next == accepted + 1
    ensures NoneRegistered(byKey, e.Witnesses())
    ensures Live(Registered(byKey, e.Witnesses()), es + [e], 0, next, accepted, committed + e.ExecutedCount())
    ensures Exactly(byKey, es, next) ==> Exactly(Registered(byKey, e.Witnesses()), es + [e], next)
    ensures e.Witnesses() == [] ==> Registered(byKey, e.Witnesses()) == byKey
  {
    hide EntryOk, NoneRegistered, Exactly;
    WitnessesAhead(byKey, e, next);
    AppendSums(es, e);
    if Exactly(byKey, es, next) {
      ExactlyAfterCommit(byKey, es, next, e);
    }
  }

  /** Wherever the check takes an entry, its witnesses are new. */
  lemma LiveAhead(byKey: map<Key, Witness>, es: seq<Entry>, progress: nat, next: int, accepted: int, committed: int, e: Entry)
    requires Live(byKey, es, progress, next, accepted, committed) && EntryOk(e)
    requires e.first == next + Executions(es) && next == accepted + 1
    ensures NoneRegistered(byKey, e.Witnesses())
    ensures e.Witnesses() == [] ==> Registered(byKey, e.Witnesses()) == byKey
  {
    hide EntryOk, NoneRegistered, Executions;
    WitnessesAhead(byKey, e, next);
  }

  lemma LiveStep(byKey: map<Key, Witness>, es: seq<Entry>, progress: nat, next: int, accepted: int, committed: int)
    requires Live(byKey, es, progress, next, accepted, committed)
    ensures Live(Future(byKey, next), es, progress + 1, next + 1, accepted + 1, committed)
    ensures ExactlyBeyond(byKey, es, next) ==> Exactly(Future(byKey, next), es, next + 1)
  {
    hide Exactly, ExactlyBeyond;
    if ExactlyBeyond(byKey, es, next) {
      ExactlyAfterPrune(byKey, es, next);
    }
  }

  lemma LiveComplete(byKey: map<Key, Witness>, es: seq<Entry>, progress: nat, next: int, accepted: int, committed: int)
    requires Live(byKey, es, progress, next, accepted, committed) && es != [] && EntryOk(es[0])
    requires progress + 1 == es[0].ExecutedCount() && es[0].first == next - progress
    ensures Live(Future(byKey, next), es[1..], 0, next + 1, accepted + 1, committed)
    ensures ExactlyBeyond(byKey, es, next) ==> Exactly(Future(byKey, next), es[1..], next + 1)
  {
    hide Exactly, ExactlyBeyond, EntryOk;
    LiveStep(byKey, es, progress, next, accepted, committed);
    HeadSums(es);
    if ExactlyBeyond(byKey, es, next) {
      ExactlyWithoutHead(Future(byKey, next), es, next + 1);
    }
  }

  lemma LiveFacts(byKey: map<Key, Witness>, es: seq<Entry>, progress: nat, next: int, accepted: int, committed: int)
    requires Live(byKey, es, progress, next, accepted, committed)
    ensures forall k | k in byKey :: k.consumer >= next
    ensures committed == accepted + Executions(es) - progress
  {
  }

  class Window {
    const coordinator: Coordinator
    const ring: Ring
    const tracker: Tracker
    var terminated: bool
    /** Planned instructions of all committed entries. */
    ghost var committed: int

    /** Ring and tracker hold the same entries; nothing pending belongs to the past. */
    ghost predicate Valid()
      reads this, ring, tracker, coordinator, coordinator.registry, coordinator.tracker
    {
      && coordinator.Valid() && ring.Valid() && ring.blocks == tracker.blocks
      && (!terminated ==>
            && tracker.Valid()
            && Live(coordinator.registry.byKey, tracker.blocks, tracker.progress, tracker.nextExpected,
                    tracker.acceptedCount, committed))
      && (terminated ==> ring.blocks == [] && coordinator.registry.byKey == map[])
    }

    constructor (coordinator: Coordinator, ring: Ring, tracker: Tracker)
      requires coordinator.Valid() && coordinator.registry.byKey == map[]
      requires ring.Valid() && ring.blocks == [] && tracker.Valid() && tracker.blocks == [] && tracker.acceptedCount == 0
      ensures Valid() && !terminated && committed == 0
      ensures this.coordinator == coordinator && this.ring == ring && this.tracker == tracker
    {
      this.coordinator := coordinator;
      this.ring := ring;
      this.tracker := tracker;
      terminated := false;
      committed := 0;
      NothingYet(tracker);
    }

    /** The coordinator would register the entry's witnesses. */
    ghost predicate Registers(e: Entry)
      reads this, coordinator, coordinator.registry, coordinator.tracker
    {
      e.Witnesses() == []
      || (&& coordinator.tracker != null
          && (forall w | w in e.Witnesses() :: Eligible(w, coordinator.tracker.arm, coordinator.tracker.targets))
          && DistinctKeys(e.Witnesses()))
    }

    /** Exactly the planned dependencies ahead are pending. */
    ghost predicate PendingExactly()
      reads this, ring, tracker, coordinator, coordinator.registry
    {
      Exactly(coordinator.registry.byKey, ring.blocks, tracker.nextExpected)
    }

    /**
     Commits an entry whose words were patched. Everything is validated before
     anything changes, so a refusal leaves ring, tracker and registry alone. What
     is committed inside an entry leaves a gap: the window stays sound exactly
     when drivers commit at entry boundaries.
     */
    method CommitPatchedBlock(e: Entry) returns (r: Result<(), WindowError>)
      requires Valid() && EntryOk(e)
      modifies this, ring, tracker, coordinator.registry
      ensures terminated == old(terminated)
      ensures r.Ok? <==> !terminated && old(ring.Admits(e)) && old(tracker.Takes(e)) && old(Registers(e))
      ensures Valid() <==> r.Err? || tracker.progress == 0
      ensures Valid() && old(PendingExactly()) ==> PendingExactly()
      ensures r.Ok? ==>
                && ring.blocks == old(ring.blocks) + [e] && committed == old(committed) + e.ExecutedCount()
                && coordinator.registry.byKey == Registered(old(coordinator.registry.byKey), e.Witnesses())
      ensures r.Err? ==>
                && ring.blocks == old(ring.blocks) && committed == old(committed)
                && coordinator.registry.byKey == old(coordinator.registry.byKey)
      ensures tracker.nextExpected == old(tracker.nextExpected) && tracker.progress == old(tracker.progress)
              && tracker.acceptedCount == old(tracker.acceptedCount)
    {
      hide Sound, EntryOk, Eligible, DistinctKeys, NoneRegistered, Registered, Coordinator.Valid, Executions, Words,
        Live, Ring.Admits, Tracker.Continues, Tracker.Takes, Contiguous, Exactly;
      if terminated {
        return Err(Terminated);
      }
      TrackerFacts(tracker);
      var fits := ring.ValidateAppend(e);
      if fits.Err? {
        return Err(RingRefused(fits.error));
      }
      var continues := tracker.ValidateEnqueue(e);
      if continues.Err? {
        return Err(StreamMismatch(continues.error));
      }
      TakesAt(tracker, e);
      LiveAhead(coordinator.registry.byKey, tracker.blocks, tracker.progress, tracker.nextExpected, tracker.acceptedCount,
                committed, e);
      if tracker.progress == 0 {
        LiveCommit(coordinator.registry.byKey, tracker.blocks, tracker.nextExpected, tracker.acceptedCount, committed, e);
      }
      if e.Witnesses() != [] {
        var registered := coordinator.RegisterAttributionWitnesses(e.Witnesses());
        if registered.Err? {
          return Err(WitnessesRefused(registered.error));
        }
      }
      var appended := ring.Append(e);
      var enqueued := tracker.Enqueue(e);
      assert appended.Ok? && enqueued.Ok?;
      committed := committed + e.ExecutedCount();
      r := Ok(());
    }

    /**
     Finalizes one accepted event whose hits were all registered: prunes, moves
     the tracker and frees a completed entry, which is always the ring's oldest.
     */
    method FinalizeAcceptedEvent(ev: Event) returns (r: Result<Option<Released>, WindowError>)
      requires Valid() && ev.index > 0
      modifies ring, tracker, coordinator.registry
      ensures terminated == old(terminated) && committed == old(committed)
      ensures Valid()
      ensures r.Ok? <==> !terminated && old(tracker.Accepts(ev))
      ensures r.Err? ==>
                && ring.blocks == old(ring.blocks) && tracker.nextExpected == old(tracker.nextExpected)
                && tracker.progress == old(tracker.progress) && tracker.acceptedCount == old(tracker.acceptedCount)
      ensures r.Ok? ==>
                && tracker.nextExpected == ev.index + 1 && tracker.acceptedCount == old(tracker.acceptedCount) + 1
                && tracker.progress == (if r.value.Some? then 0 else old(tracker.progress) + 1)
                && coordinator.registry.byKey == Future(old(coordinator.registry.byKey), ev.index)
                && (r.value.Some? <==> old(tracker.progress) + 1 == old(tracker.blocks)[0].ExecutedCount())
      ensures r.Ok? && old(ExactlyBeyond(coordinator.registry.byKey, ring.blocks, tracker.nextExpected)) ==>
                PendingExactly()
      ensures r.Ok? && r.value.Some? ==>
                && r.value.value == Released(old(ring.blocks)[0], CompletionOf(old(ring.blocks)[0]))
                && ring.blocks == old(ring.blocks)[1..] && tracker.done == old(tracker.done) + [r.value.value.accepted]
      ensures r.Ok? && r.value.None? ==> ring.blocks == old(ring.blocks) && tracker.done == old(tracker.done)
    {
      hide Sound, EntryOk, Coordinator.Valid, Executions, Words, Tracker.Accepts, Exactly, ExactlyBeyond, Contiguous, Live,
        Future;
      if terminated {
        return Err(Terminated);
      }
      AcceptsFacts(tracker, ev);
      TrackerFacts(tracker);
      if old(tracker.Accepts(ev)) {
        ghost var byKey := coordinator.registry.byKey;
        LiveStep(byKey, ring.blocks, tracker.progress, ev.index, tracker.acceptedCount, committed);
        if tracker.progress + 1 == ring.blocks[0].ExecutedCount() {
          LiveComplete(byKey, ring.blocks, tracker.progress, ev.index, tracker.acceptedCount, committed);
        }
      }
      FewerAhead(coordinator.registry.byKey, tracker.blocks, tracker.progress, tracker.nextExpected,
                 tracker.acceptedCount, committed, ev.index);
      var pruned := coordinator.PruneValidationState(ev.index);
      var completed := tracker.Observe(ev);
      if completed.Err? {
        return Err(StreamMismatch(completed.error));
      }
      if completed.value.None? {
        return Ok(None);
      }
      var released := ring.ReleaseOldest(completed.value.value.key);
      assert released.Ok?;
      r := Ok(Some(Released(released.value, completed.value.value)));
    }

    /**
     Ends the campaign after exactly `last` executed instructions, also inside
     an entry. Of the source's consistency errors only those listed can occur.
     */
    method DiscardUnexecutedSuffix(last: int) returns (r: Result<Suffix, WindowError>)
      requires Valid()
      modifies this, ring, tracker, coordinator.registry
      ensures Valid()
      ensures r.Ok? <==>
                !old(terminated) && last > 0 && old(ring.blocks) != [] && old(tracker.nextExpected) == last + 1
                && coordinator.tracker != null
      ensures r.Ok? <==> terminated && !old(terminated)
      ensures tracker.acceptedCount == old(tracker.acceptedCount) && tracker.nextExpected == old(tracker.nextExpected)
      ensures r.Err? ==> ring.blocks == old(ring.blocks) && coordinator.registry.byKey == old(coordinator.registry.byKey)
      ensures r.Ok? ==>
                && r.value.entries == old(ring.blocks)
                && r.value.acceptedCount == last == tracker.acceptedCount && r.value.firstUnexecuted == last + 1
                && r.value.headAccepted == old(tracker.progress) && r.value.discardedExpected > 0
                && r.value.acceptedCount + r.value.discardedExpected == old(committed)
                && r.value.firstWord == old(ring.blocks)[0].start
                && r.value.firstWord + r.value.reclaimedWords == old(ring.blocks)[|old(ring.blocks)| - 1].End()
                && r.value.reclaimedWords == old(ring.usedWords) > 0
                && r.value.discardedWitnesses == |old(coordinator.registry.byKey)|
                && ring.blocks == [] && coordinator.registry.byKey == map[]
    {
      hide Sound, EntryOk, Coordinator.Valid, Executions, Words, Live;
      if terminated {
        return Err(Terminated);
      }
      LiveFacts(coordinator.registry.byKey, tracker.blocks, tracker.progress, tracker.nextExpected,
                tracker.acceptedCount, committed);
      if last <= 0 {
        return Err(BadLastIndex);
      }
      if ring.blocks == [] {
        return Err(NothingResident);
      }
      if tracker.nextExpected != last + 1 {
        return Err(IndexMismatch);
      }
      TrackerFacts(tracker);
      ContiguousSums(ring.blocks);
      HeadSums(ring.blocks);
      var reclaimed, expected := Totals(ring.blocks);
      assert reclaimed == ring.usedWords;
      HeadHasWords(tracker);
      var head := tracker.progress;
      var discarded := expected - head;
      assert discarded > 0;
      var first := ring.blocks[0].start;
      var witnesses := coordinator.DiscardUnexecutedAttributionWitnesses(last);
      if witnesses.Err? {
        return Err(WitnessesRefused(witnesses.error));
      }
      var fromTracker := tracker.DiscardPendingForTermination();
      var fromRing := ring.DiscardAllForTermination();
      assert fromTracker.Ok? && fromRing.Ok? && fromTracker.value == fromRing.value;
      terminated := true;
      r := Ok(Suffix(fromRing.value, first, reclaimed, tracker.nextExpected, tracker.acceptedCount, head, discarded,
                     witnesses.value));
    }
  }

  lemma HeadHasWords(t: Tracker)
    requires t.Valid() && t.blocks != []
    ensures t.blocks[0].WordCount() >= 1
  {
    assert t.blocks[0] in t.blocks;
  }

  lemma NothingYet(t: Tracker)
    requires t.Valid() && t.blocks == [] && t.acceptedCount == 0
    ensures Live(map[], t.blocks, t.progress, t.nextExpected, t.acceptedCount, 0)
  {
  }

  /** An event out of order may prune too, but never adds a witness. */
  lemma FewerAhead(byKey: map<Key, Witness>, es: seq<Entry>, progress: nat, next: int, accepted: int, committed: int,
                   latest: int)
    requires Live(byKey, es, progress, next, accepted, committed)
    ensures Live(Future(byKey, latest), es, progress, next, accepted, committed)
  {
  }

  /** The two sums over the resident entries. */
  method Totals(es: seq<Entry>) returns (words: nat, executions: nat)
    ensures words == Words(es) && executions == Executions(es)
  {
    words, executions := 0, 0;
    for k := 0 to |es|
      invariant words == Words(es[..k]) && executions == Executions(es[..k])
    {
      PrefixSums(es, k);
      words := words + es[k].WordCount();
      executions := executions + es[k].ExecutedCount();
    }
    assert es[..|es|] == es;
  }

  lemma PrefixSums(es: seq<Entry>, k: nat)
    requires k < |es|
    ensures Words(es[..k + 1]) == Words(es[..k]) + es[k].WordCount()
    ensures Executions(es[..k + 1]) == Executions(es[..k]) + es[k].ExecutedCount()
    ensures Words(es[..0]) == 0 && Executions(es[..0]) == 0
  {
    assert es[..k + 1] == es[..k] + [es[k]];
    AppendSums(es[..k], es[k]);
  }

  lemma TrackerFacts(t: Tracker)
    requires t.Valid()
    ensures t.nextExpected == t.acceptedCount + 1 && Contiguous(t.blocks) && (t.blocks == [] ==> t.progress == 0)
    ensures t.blocks != [] ==>
              && EntryOk(t.blocks[0])
              && t.progress < t.blocks[0].ExecutedCount() && t.blocks[0].first == t.nextExpected - t.progress
  {
    SoundHead(t.blocks, t.progress, t.nextExpected, t.acceptedCount, t.done);
  }

  lemma TakesAt(t: Tracker, e: Entry)
    ensures t.Takes(e) ==> e.first == t.nextExpected + Executions(t.blocks)
    ensures t.progress == 0 ==> (t.Takes(e) <==> t.Continues(e))
  {
  }

  lemma AcceptsFacts(t: Tracker, ev: Event)
    requires t.Valid()
    ensures t.Accepts(ev) ==> t.blocks != [] && ev.index == t.nextExpected
  {
  }
}
