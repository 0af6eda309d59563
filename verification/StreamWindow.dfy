/** The bounded program ring, the accepted-stream tracker and the window that keeps them together. */
module StreamWindow {
  import opened Wrappers
  import opened Rv32Isa
  import opened Execution
  import opened ArmsAndTargets
  import opened StreamPlan
  import opened HitsAreWitnesses
  import opened PlanRun
  import opened Attribution
  import opened Rewards
  import opened EpochCoordinator

  /** What a planned entry guarantees by construction. */
  ghost predicate EntryOk(e: Entry) {
    && 1 <= e.ExecutedCount() && 1 <= e.WordCount() && OffsetsInImage(e)
    && (forall i | i in e.Code() :: Legal(i))
    && forall w | w in e.Witnesses() :: e.first <= w.consumer < e.first + e.ExecutedCount()
  }

  ghost predicate AllOk(es: seq<Entry>) {
    forall e | e in es :: EntryOk(e)
  }

  datatype EntryKey = EntryKey(isTemplate: bool, id: nat)

  function KeyOfEntry(e: Entry): EntryKey {
    if e.Delimiter? then EntryKey(false, e.epoch) else EntryKey(true, e.id)
  }

  function Words(es: seq<Entry>): nat {
    if es == [] then 0 else Words(es[..|es| - 1]) + es[|es| - 1].WordCount()
  }

  function Executions(es: seq<Entry>): nat {
    if es == [] then 0 else Executions(es[..|es| - 1]) + es[|es| - 1].ExecutedCount()
  }

  lemma AppendSums(es: seq<Entry>, e: Entry)
    ensures Words(es + [e]) == Words(es) + e.WordCount() && Executions(es + [e]) == Executions(es) + e.ExecutedCount()
  {
    assert (es + [e])[..|es|] == es;
  }

  lemma {:induction false} HeadSums(es: seq<Entry>)
    requires es != []
    ensures Words(es) == es[0].WordCount() + Words(es[1..])
    ensures Executions(es) == es[0].ExecutedCount() + Executions(es[1..])
  {
    if |es| == 1 {
      assert es[..0] == [] && es[1..] == [];
    } else {
      HeadSums(es[..|es| - 1]);
      assert es[..|es| - 1][1..] == es[1..][..|es| - 2];
    }
  }

  /** Contiguous entries take up exactly the words and the instructions between their ends. */
  lemma {:induction false} ContiguousSums(es: seq<Entry>)
    requires es != [] && Contiguous(es)
    ensures Words(es) == es[|es| - 1].End() - es[0].start
    ensures Executions(es) == es[|es| - 1].first + es[|es| - 1].ExecutedCount() - es[0].first
  {
    var front := es[..|es| - 1];
    if |es| == 1 {
      assert front == [];
    } else {
      forall k | 0 < k < |front|
        ensures Follows(front[k - 1], front[k])
      {
        assert Follows(es[k - 1], es[k]);
      }
      ContiguousSums(front);
      assert Follows(es[|es| - 2], es[|es| - 1]);
    }
  }

  lemma ContiguousParts(es: seq<Entry>)
    requires es != [] && Contiguous(es)
    ensures Contiguous(es[1..]) && (|es| > 1 ==> Follows(es[0], es[1]))
  {
    var rest := es[1..];
    forall k | 0 < k < |rest|
      ensures Follows(rest[k - 1], rest[k])
    {
      assert Follows(es[k], es[k + 1]);
    }
    if |es| > 1 {
      assert Follows(es[1 - 1], es[1]);
    }
  }

  // ---------------------------------------------------------------------
  // Ring
  // ---------------------------------------------------------------------

  datatype RingError = NoFreeSpace | LayoutNotContiguous | EmptyRing | NotOldest

  class Ring {
    const capacity: nat
    var blocks: seq<Entry>
    var usedWords: nat

    ghost predicate Valid()
      reads this
    {
      usedWords == Words(blocks) <= capacity <= IMEM_WORD_CAPACITY
    }

    constructor (capacity: nat)
      requires 0 < capacity <= IMEM_WORD_CAPACITY
      ensures Valid() && blocks == [] && this.capacity == capacity
    {
      this.capacity := capacity;
      blocks := [];
      usedWords := 0;
    }

    /** The entry fits and continues the layout of the newest one. */
    predicate Admits(e: Entry)
      reads this
    {
      e.WordCount() + usedWords <= capacity && (blocks != [] ==> e.start == blocks[|blocks| - 1].End())
    }

    method ValidateAppend(e: Entry) returns (r: Result<(), RingError>)
      requires Valid()
      ensures r.Ok? <==> Admits(e)
      ensures r == Err(NoFreeSpace) <==> e.WordCount() > capacity - usedWords
    {
      if e.WordCount() > capacity - usedWords {
        return Err(NoFreeSpace);
      }
      if blocks != [] && e.start != blocks[|blocks| - 1].End() {
        return Err(LayoutNotContiguous);
      }
      r := Ok(());
    }

    method Append(e: Entry) returns (r: Result<(), RingError>)
      requires Valid()
      modifies this
      ensures Valid() && (r.Ok? <==> old(Admits(e)))
      ensures blocks == if r.Ok? then old(blocks) + [e] else old(blocks)
    {
      var admitted := ValidateAppend(e);
      if admitted.Err? {
        return admitted;
      }
      AppendSums(blocks, e);
      blocks := blocks + [e];
      usedWords := usedWords + e.WordCount();
      r := Ok(());
    }

    /** Frees the oldest entry; the word count never underflows. */
    method ReleaseOldest(key: EntryKey) returns (r: Result<Entry, RingError>)
      requires Valid()
      modifies this
      ensures Valid()
      ensures r.Ok? <==> old(blocks) != [] && KeyOfEntry(old(blocks)[0]) == key
      ensures r.Ok? ==> r.value == old(blocks)[0] && blocks == old(blocks)[1..]
      ensures r.Err? ==> blocks == old(blocks)
    {
      if blocks == [] {
        return Err(EmptyRing);
      }
      var oldest := blocks[0];
      if KeyOfEntry(oldest) != key {
        return Err(NotOldest);
      }
      HeadSums(blocks);
      blocks := blocks[1..];
      usedWords := usedWords - oldest.WordCount();
      r := Ok(oldest);
    }

    /** Reclaims everything; the word accounting is consistent, so that error is unreachable. */
    method DiscardAllForTermination() returns (r: Result<seq<Entry>, RingError>)
      requires Valid()
      modifies this
      ensures Valid() && blocks == []
      ensures r.Ok? <==> old(blocks) != []
      ensures r.Ok? ==> r.value == old(blocks)
    {
      if blocks == [] {
        return Err(EmptyRing);
      }
      assert Words(blocks) == usedWords;
      r := Ok(blocks);
      blocks := [];
      usedWords := 0;
    }
  }

  // ---------------------------------------------------------------------
  // Tracker
  // ---------------------------------------------------------------------

  datatype StreamError =
    | NotLogicallyContiguous | NotExecutionContiguous | NoPlannedEntry | WrongIndex | WrongPc | WrongWord

  datatype AcceptedBlock = AcceptedBlock(key: EntryKey, first: int, last: int, count: nat)

  /** The completion record of an entry. */
  function CompletionOf(e: Entry): AcceptedBlock {
    AcceptedBlock(KeyOfEntry(e), e.first, e.first + e.ExecutedCount() - 1, e.ExecutedCount())
  }

  /** The ranges follow one another from instruction one up to the next one, without gap or overlap. */
  predicate Tiles(done: seq<AcceptedBlock>, next: int) {
    && (done == [] ==> next == 1)
    && (forall k | 0 <= k < |done| ::
          && 1 <= done[k].count && done[k].last - done[k].first + 1 == done[k].count
          && done[k].first == (if k == 0 then 1 else done[k - 1].last + 1))
    && (done != [] ==> next == done[|done| - 1].last + 1)
  }

  /** The pending entries continue the completed ones, and the head is partly executed. */
  ghost predicate Sound(blocks: seq<Entry>, progress: nat, next: nat, accepted: nat, done: seq<AcceptedBlock>) {
    && AllOk(blocks) && Contiguous(blocks)
    && next == accepted + 1
    && Tiles(done, next - progress)
    && (blocks == [] ==> progress == 0)
    && (blocks != [] ==> progress < blocks[0].ExecutedCount() && blocks[0].first == next - progress)
  }

  lemma SoundHead(blocks: seq<Entry>, progress: nat, next: nat, accepted: nat, done: seq<AcceptedBlock>)
    requires Sound(blocks, progress, next, accepted, done)
    ensures AllOk(blocks) && Contiguous(blocks) && next == accepted + 1
    ensures blocks == [] ==> progress == 0
    ensures blocks != [] ==>
              && EntryOk(blocks[0]) && progress < blocks[0].ExecutedCount()
              && blocks[0].first == next - progress && OffsetsInImage(blocks[0])
              && forall i | i in blocks[0].Code() :: Legal(i)
  {
    hide Contiguous, Tiles, Legal;
    if blocks != [] {
      assert blocks[0] in blocks;
    }
  }

  lemma SoundEnqueue(blocks: seq<Entry>, progress: nat, next: nat, accepted: nat, done: seq<AcceptedBlock>, e: Entry)
    requires Sound(blocks, progress, next, accepted, done) && EntryOk(e)
    requires blocks != [] ==> e.start == blocks[|blocks| - 1].End()
    requires e.first == next - progress + Executions(blocks)
    requires blocks == [] ==> progress == 0
    ensures Sound(blocks + [e], progress, next, accepted, done)
  {
    hide EntryOk, Tiles, Words, Executions, Contiguous;
    EntryRuns(e);
    NoExecutions();
    if blocks != [] {
      ContiguousSums(blocks);
      ContiguousExtend(blocks, e);
    } else {
      assert blocks + [e] == [e];
      AloneIsContiguous(e);
    }
  }

  lemma ContiguousExtend(blocks: seq<Entry>, e: Entry)
    requires blocks != [] && Contiguous(blocks) && Follows(blocks[|blocks| - 1], e)
    ensures Contiguous(blocks + [e])
  {
    hide Follows;
    forall k | 0 < k < |blocks + [e]|
      ensures Follows((blocks + [e])[k - 1], (blocks + [e])[k])
    {
      assert k < |blocks| ==> Follows(blocks[k - 1], blocks[k]);
    }
  }

  lemma AloneIsContiguous(e: Entry)
    ensures Contiguous([e])
  {
  }

  /** An entry numbered past the true continuation leaves a gap. */
  lemma GapIsUnsound(blocks: seq<Entry>, progress: nat, next: nat, accepted: nat, done: seq<AcceptedBlock>, e: Entry)
    requires Sound(blocks, progress, next, accepted, done) && blocks != [] && progress > 0
    requires e.first == next + Executions(blocks)
    ensures !Sound(blocks + [e], progress, next, accepted, done)
  {
    hide EntryOk, Tiles, Executions;
    ContiguousSums(blocks);
    var more, n := blocks + [e], |blocks|;
    assert !Follows(more[n - 1], more[n]);
  }

  lemma EntryRuns(e: Entry)
    requires EntryOk(e)
    ensures e.ExecutedCount() >= 1
  {
  }

  lemma NoExecutions()
    ensures Executions([]) == 0 && Words([]) == 0
  {
  }

  lemma SoundComplete(blocks: seq<Entry>, progress: nat, next: nat, accepted: nat, done: seq<AcceptedBlock>)
    requires Sound(blocks, progress, next, accepted, done) && blocks != []
    requires progress + 1 == blocks[0].ExecutedCount()
    ensures Sound(blocks[1..], 0, next + 1, accepted + 1, done + [CompletionOf(blocks[0])])
  {
    hide EntryOk;
    ContiguousParts(blocks);
    if |blocks| > 1 {
      assert blocks[1] in blocks;
      EntryRuns(blocks[1]);
    }
  }

  lemma SoundStep(blocks: seq<Entry>, progress: nat, next: nat, accepted: nat, done: seq<AcceptedBlock>)
    requires Sound(blocks, progress, next, accepted, done) && blocks != []
    requires progress + 1 < blocks[0].ExecutedCount()
    ensures Sound(blocks, progress + 1, next + 1, accepted + 1, done)
  {
    hide EntryOk, Contiguous;
  }

  class Tracker {
    var blocks: seq<Entry>
    var progress: nat
    var nextExpected: nat
    var acceptedCount: nat
    ghost var done: seq<AcceptedBlock>

    ghost predicate Valid()
      reads this
    {
      Sound(blocks, progress, nextExpected, acceptedCount, done)
    }

    constructor ()
      ensures Valid() && blocks == [] && acceptedCount == 0 && done == []
    {
      blocks := [];
      progress := 0;
      nextExpected := 1;
      acceptedCount := 0;
      done := [];
    }

    /** The place the plan really continues at. */
    predicate Continues(e: Entry)
      reads this
    {
      && (blocks != [] ==> e.start == blocks[|blocks| - 1].End())
      && e.first == nextExpected - progress + Executions(blocks)
    }

    /** The place the check takes for it: whole entries added to a cursor that has moved into the first of them. */
    predicate Takes(e: Entry)
      reads this
    {
      && (blocks != [] ==> e.start == blocks[|blocks| - 1].End())
      && e.first == nextExpected + Executions(blocks)
    }

    /** The two places are the same at entry boundaries, and never inside an entry. */
    method ValidateEnqueue(e: Entry) returns (r: Result<(), StreamError>)
      requires Valid()
      ensures r.Ok? <==> Takes(e)
      ensures r == Err(NotLogicallyContiguous) <==> blocks != [] && e.start != blocks[|blocks| - 1].End()
      ensures progress == 0 ==> (r.Ok? <==> Continues(e))
      ensures progress > 0 && Continues(e) ==> r == Err(NotExecutionContiguous)
    {
      if blocks != [] && e.start != blocks[|blocks| - 1].End() {
        return Err(NotLogicallyContiguous);
      }
      var expected := nextExpected;
      for k := 0 to |blocks|
        invariant expected == nextExpected + Executions(blocks[..k])
      {
        assert blocks[..k + 1][..k] == blocks[..k];
        expected := expected + blocks[k].ExecutedCount();
      }
      assert blocks[..|blocks|] == blocks;
      if e.first != expected {
        return Err(NotExecutionContiguous);
      }
      r := Ok(());
    }

    /**
     Accepts an entry that continues the plan exactly at entry boundaries. Inside
     an entry the true continuation is refused, and what is accepted instead
     leaves a gap in the stream.
     */
    method Enqueue(e: Entry) returns (r: Result<(), StreamError>)
      requires Valid() && EntryOk(e)
      modifies `blocks
      ensures r.Ok? <==> old(Takes(e))
      ensures r.Ok? && progress == 0 ==> old(Continues(e))
      ensures blocks == if r.Ok? then old(blocks) + [e] else old(blocks)
      ensures Valid() <==> r.Err? || progress == 0
    {
      hide EntryOk, Sound, Executions;
      SoundHead(blocks, progress, nextExpected, acceptedCount, done);
      var checked := ValidateEnqueue(e);
      if checked.Err? {
        return checked;
      }
      if progress == 0 {
        SoundEnqueue(blocks, progress, nextExpected, acceptedCount, done, e);
      } else {
        GapIsUnsound(blocks, progress, nextExpected, acceptedCount, done, e);
      }
      blocks := blocks + [e];
      r := Ok(());
    }

    /** The execution the plan expects next. */
    function Expected(): Exec
      requires blocks != [] && OffsetsInImage(blocks[0]) && progress < blocks[0].ExecutedCount()
      reads this
    {
      ExecOf(blocks[0])[progress]
    }

    /** The event is the next planned execution. */
    ghost predicate Accepts(ev: Event)
      reads this
    {
      && blocks != [] && OffsetsInImage(blocks[0]) && progress < blocks[0].ExecutedCount()
      && Legal(Expected().instr)
      && ev.index == nextExpected && ev.pc == PhysicalPc(Expected().at)
      && ev.instruction == WordOf(Expected().instr)
    }

    /** Consumes one accepted instruction; a completed entry leaves with its range. */
    method Observe(ev: Event) returns (r: Result<Option<AcceptedBlock>, StreamError>)
      requires Valid()
      modifies this
      ensures Valid() && (r.Ok? <==> old(Accepts(ev)))
      ensures r.Err? ==> unchanged(this)
      ensures r.Ok? ==> nextExpected == old(nextExpected) + 1 && acceptedCount == old(acceptedCount) + 1
      ensures r.Ok? ==> (r.value.Some? <==> old(progress) + 1 == old(blocks)[0].ExecutedCount())
      ensures r.Ok? && r.value.None? ==>
                blocks == old(blocks) && done == old(done) && progress == old(progress) + 1
      ensures r.Ok? && r.value.Some? ==>
                && r.value.value == CompletionOf(old(blocks)[0])
                && blocks == old(blocks)[1..] && done == old(done) + [r.value.value] && progress == 0
    {
      hide Sound, EntryOk, Legal, PhysicalPc, AllOk, Contiguous, WordOf;
      if blocks == [] {
        return Err(NoPlannedEntry);
      }
      if ev.index != nextExpected {
        return Err(WrongIndex);
      }
      var entry := blocks[0];
      SoundHead(blocks, progress, nextExpected, acceptedCount, done);
      // the progress never runs past the entry
      assert progress < entry.ExecutedCount();
      var at := entry.Offsets()[progress];
      if ev.pc != PhysicalPc(entry.start + at) {
        return Err(WrongPc);
      }
      assert entry.Code()[at] in entry.Code();
      if ev.instruction != WordOf(entry.Code()[at]) {
        return Err(WrongWord);
      }
      if progress + 1 < entry.ExecutedCount() {
        SoundStep(blocks, progress, nextExpected, acceptedCount, done);
      } else {
        SoundComplete(blocks, progress, nextExpected, acceptedCount, done);
      }
      acceptedCount := acceptedCount + 1;
      nextExpected := nextExpected + 1;
      progress := progress + 1;
      if progress != entry.ExecutedCount() {
        return Ok(None);
      }
      blocks := blocks[1..];
      progress := 0;
      done := done + [CompletionOf(entry)];
      r := Ok(Some(CompletionOf(entry)));
    }

    /** Forgets the unexecuted suffix; nothing that was accepted changes. */
    method DiscardPendingForTermination() returns (r: Result<seq<Entry>, StreamError>)
      requires Valid()
      modifies `blocks, `progress
      ensures r.Ok? <==> old(blocks) != []
      ensures blocks == [] && progress == 0
      ensures r.Ok? ==> r.value == old(blocks)
    {
      if blocks == [] {
        return Err(NoPlannedEntry);
      }
      // the head is never complete here
      assert progress < blocks[0].ExecutedCount();
      r := Ok(blocks);
      blocks := [];
      progress := 0;
    }
  }
}
