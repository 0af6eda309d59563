/**
 Where a running campaign stands: planned stream, window, oracle and collector
 seen as values, and what each move of the campaign keeps.
 */
module CampaignState {
  import opened Wrappers
  import opened Rv32Isa
  import opened Execution
  import opened ArchitecturalModel
  import opened TimingOracle
  import opened StreamPlan
  import opened HitsAreWitnesses
  import opened UnboundedProgram
  import opened PlanRun
  import opened CampaignCoverage
  import opened StreamWindow
  import opened RuntimeWindow
  import opened CampaignStep
  import StreamPlanner
  import L2 = L2Coverage

  /** The first `gone` entries were executed and freed, the head in part; `accepted` instructions in all. */
  datatype Place = Place(planned: seq<Entry>, gone: nat, progress: nat, accepted: nat)

  ghost function Execs(es: seq<Entry>): seq<Exec> {
    if AllInImage(es) then PlanExecs(es) else []
  }

  ghost function Image(es: seq<Entry>): seq<Word> {
    if LegalCode(es) then ImageOf(es) else []
  }

  ghost predicate Placeable(p: Place) {
    && Stream(p.planned) && LegalCode(p.planned) && AllInImage(p.planned) && p.gone <= |p.planned|
    && p.accepted == ExecutedBy(p.planned[..p.gone]) + p.progress
    && (if p.gone == |p.planned| then p.progress == 0 else p.progress < p.planned[p.gone].ExecutedCount())
  }

  /** The collector's table is that of the instructions executed so far. */
  ghost predicate Wrote(writers: WriterIndex, xs: seq<Exec>) {
    AllLegal(xs) && writers == WritersThrough(map[], xs)
  }

  ghost predicate InStep(p: Place, blocks: seq<Entry>, image: seq<Word>, release: int, at: int, writers: WriterIndex) {
    && Placeable(p)
    && blocks == p.planned[p.gone..] && image == Image(p.planned) && release == EndOf(p.planned[..p.gone])
    && p.accepted <= |Execs(p.planned)| && at == CursorAt(Execs(p.planned), p.accepted, EndOf(p.planned))
    && Wrote(writers, Execs(p.planned)[..p.accepted])
  }

  lemma PlacedExecs(p: Place)
    requires Placeable(p)
    ensures AllInImage(p.planned) && LegalCode(p.planned)
    ensures Execs(p.planned) == PlanExecs(p.planned) && Image(p.planned) == ImageOf(p.planned)
  {
    hide Stream, LegalCode, AllInImage, PlanExecs, ImageOf;
  }

  // ---------------------------------------------------------------------
  // The next planned instruction
  // ---------------------------------------------------------------------

  lemma {:induction false} StreamCut(es: seq<Entry>, k: nat)
    requires Stream(es) && LegalCode(es) && AllInImage(es) && k <= |es|
    ensures Stream(es[..k]) && LegalCode(es[..k]) && AllInImage(es[..k])
    decreases |es|
  {
    hide Stream, LegalCode, AllInImage, PlanExecs, ImageOf;
    if k < |es| {
      StreamPrefix(es);
      LastEntry(es);
      StreamCut(es[..|es| - 1], k);
      assert es[..|es| - 1][..k] == es[..k];
    } else {
      assert es[..k] == es;
    }
  }

  lemma {:induction false} ExecsPrefix(es: seq<Entry>, m: nat)
    requires Stream(es) && LegalCode(es) && AllInImage(es) && m <= |es|
    ensures AllInImage(es[..m]) && PlanExecs(es[..m]) <= PlanExecs(es)
    decreases |es|
  {
    hide Stream, LegalCode, AllInImage, PlanExecs, ImageOf, ExecOf, OffsetsInImage;
    if m == |es| {
      assert es[..m] == es;
    } else {
      StreamPrefix(es);
      LastEntry(es);
      ExecsPrefix(es[..|es| - 1], m);
      assert es[..m] == es[..|es| - 1][..m];
    }
  }

  /** Entry k executes its own part of the plan. */
  lemma EntryPart(es: seq<Entry>, k: nat, j: nat)
    requires Stream(es) && LegalCode(es) && AllInImage(es) && k < |es|
    requires Stream(es[..k]) && OffsetsInImage(es[k]) && j < es[k].ExecutedCount()
    ensures 0 <= ExecutedBy(es[..k]) && ExecutedBy(es[..k]) + j < |PlanExecs(es)|
    ensures PlanExecs(es)[ExecutedBy(es[..k]) + j] == ExecOf(es[k])[j]
  {
    hide Stream, LegalCode, AllInImage, OffsetsInImage, ExecOf, PlanExecs, ImageOf, LaidOut, ExecutedBy, EndOf;
    var before, through := es[..k], es[..k + 1];
    StreamCut(es, k);
    StreamCut(es, k + 1);
    ExecsPrefix(es, k + 1);
    assert through[..|through| - 1] == before;
    LastEntry(through);
    StreamLayout(before);
    LaidOutCount(PlanExecs(before), ImageOf(before), ExecutedBy(before));
  }

  lemma EntryFacts(es: seq<Entry>, k: nat)
    requires Stream(es) && AllInImage(es) && k < |es|
    ensures OffsetsInImage(es[k]) && Planned(es[k])
  {
    hide Planned, OffsetsInImage;
    assert es[k] in es;
  }

  /** The execution the plan expects next. */
  ghost predicate IsNext(p: Place, x: Exec) {
    p.accepted < |Execs(p.planned)| && Execs(p.planned)[p.accepted] == x
  }

  /** The next instruction is the head's, where the image says, under the cursor, and leads on. */
  lemma NextPlanned(p: Place, at: int) returns (x: Exec, next: nat)
    requires Placeable(p) && p.gone < |p.planned| && at == CursorAt(Execs(p.planned), p.accepted, EndOf(p.planned))
    ensures IsNext(p, x) && x.index == p.accepted + 1 && Placed(x, Image(p.planned))
    ensures OffsetsInImage(p.planned[p.gone]) && x == ExecOf(p.planned[p.gone])[p.progress]
    ensures at == x.at * 4 && Flows(x.instr, x.at, next)
    ensures next * 4 == CursorAt(Execs(p.planned), p.accepted + 1, EndOf(p.planned))
    ensures EndOf(p.planned[..p.gone]) <= x.at < EndOf(p.planned[..p.gone]) + 5
  {
    hide Placeable, OffsetsInImage, ExecOf, PlanExecs, ImageOf, Placed, Flows, Planned, ExecutedBy, EndOf, Execs, Image,
      Stream, LegalCode, AllInImage;
    PlacedExecs(p);
    HeadOf(p);
    EntryPart(p.planned, p.gone, p.progress);
    EntrySpan(p.planned[p.gone], p.progress);
    x := PlanExecs(p.planned)[p.accepted];
    next := LeadsOn(p.planned, p.accepted);
  }

  /** What is known of the entry under execution. */
  lemma HeadOf(p: Place)
    requires Placeable(p) && p.gone < |p.planned|
    ensures Stream(p.planned) && LegalCode(p.planned) && AllInImage(p.planned) && Stream(p.planned[..p.gone])
    ensures p.accepted == ExecutedBy(p.planned[..p.gone]) + p.progress && p.progress < p.planned[p.gone].ExecutedCount()
    ensures OffsetsInImage(p.planned[p.gone]) && Planned(p.planned[p.gone])
    ensures p.planned[p.gone].start == EndOf(p.planned[..p.gone])
  {
    hide Stream, LegalCode, AllInImage, OffsetsInImage, Planned;
    StreamCut(p.planned, p.gone);
    EntryFacts(p.planned, p.gone);
    EntryStartsAt(p.planned, p.gone);
  }

  /** Instruction number n of a stream is laid out and leads to the next. */
  lemma LeadsOn(es: seq<Entry>, n: nat) returns (next: nat)
    requires Stream(es) && LegalCode(es) && AllInImage(es) && n < |PlanExecs(es)|
    ensures var xs := PlanExecs(es);
            && xs[n].index == n + 1 && Placed(xs[n], ImageOf(es)) && Flows(xs[n].instr, xs[n].at, next)
            && CursorAt(xs, n, EndOf(es)) == xs[n].at * 4 && CursorAt(xs, n + 1, EndOf(es)) == next * 4
  {
    hide Stream, LegalCode, AllInImage, PlanExecs, ImageOf, Placed, Flows, EndOf, ExecutedBy;
    StreamLayout(es);
    next := NextAt(PlanExecs(es), n, EndOf(es));
    assert Flows(PlanExecs(es)[n].instr, PlanExecs(es)[n].at, next);
  }

  lemma EntryStartsAt(es: seq<Entry>, k: nat)
    requires Stream(es) && k < |es|
    ensures es[k].start == EndOf(es[..k]) && es[k].first == ExecutedBy(es[..k]) + 1
  {
    hide Planned;
    if k > 0 {
      assert Follows(es[k - 1], es[k]);
      assert es[..k][|es[..k]| - 1] == es[k - 1];
    }
  }

  lemma EntrySpan(e: Entry, j: nat)
    requires Planned(e) && OffsetsInImage(e) && j < e.ExecutedCount()
    ensures e.start <= ExecOf(e)[j].at < e.start + 5
  {
    hide Planned;
    PlannedShape(e);
  }

  // ---------------------------------------------------------------------
  // What is resident
  // ---------------------------------------------------------------------

  lemma SuffixContiguous(es: seq<Entry>, k: nat)
    requires Stream(es) && k <= |es|
    ensures Contiguous(es[k..])
  {
    hide Planned;
    var rest := es[k..];
    forall j | 0 < j < |rest|
      ensures Follows(rest[j - 1], rest[j])
    {
      assert Follows(es[k + j - 1], es[k + j]);
    }
  }

  /** The resident entries reach from the release cursor to the append cursor. */
  lemma ResidentSums(p: Place)
    requires Placeable(p)
    ensures p.gone <= |p.planned|
    ensures var blocks := p.planned[p.gone..];
            && EndOf(p.planned) - EndOf(p.planned[..p.gone]) == Words(blocks)
            && ExecutedBy(p.planned) == p.accepted - p.progress + Executions(blocks)
            && (blocks != [] ==> blocks[|blocks| - 1].End() == EndOf(p.planned))
  {
    hide Planned, Stream, LegalCode, AllInImage, Contiguous;
    var blocks := p.planned[p.gone..];
    if p.gone < |p.planned| {
      SuffixContiguous(p.planned, p.gone);
      ContiguousSums(blocks);
      EntryStartsAt(p.planned, p.gone);
    } else {
      assert p.planned[..p.gone] == p.planned && blocks == [];
    }
  }

  lemma ResidentFacts(p: Place, blocks: seq<Entry>, image: seq<Word>, release: int, at: int, writers: WriterIndex)
    requires InStep(p, blocks, image, release, at, writers)
    ensures |image| == EndOf(p.planned) && |image| - release == Words(blocks)
    ensures ExecutedBy(p.planned) == p.accepted - p.progress + Executions(blocks)
    ensures blocks != [] ==> blocks[|blocks| - 1].End() == EndOf(p.planned)
  {
    hide Placeable, LaidOut, EndOf, ExecutedBy, Words, Executions;
    ResidentSums(p);
    ImageLength(p);
  }

  lemma ImageLength(p: Place)
    requires Placeable(p)
    ensures |Image(p.planned)| == EndOf(p.planned)
  {
    hide Stream, LegalCode, AllInImage, PlanExecs, ImageOf, LaidOut;
    PlacedExecs(p);
    StreamLayout(p.planned);
  }

  // ---------------------------------------------------------------------
  // Moves
  // ---------------------------------------------------------------------

  /** One more entry adds its executions and its words behind the others. */
  lemma ExecsExtend(p: Place, e: Entry)
    requires Placeable(p) && Placeable(p.(planned := p.planned + [e]))
    requires OffsetsInImage(e) && forall i | i in e.Code() :: Legal(i)
    ensures Execs(p.planned + [e]) == Execs(p.planned) + ExecOf(e)
    ensures Image(p.planned + [e]) == Image(p.planned) + WordsOf(e.Code())
  {
    hide Stream, LegalCode, AllInImage, OffsetsInImage, ExecOf, PlanExecs, ImageOf, WordsOf, Legal;
    var more := p.planned + [e];
    PlacedExecs(p);
    PlacedExecs(p.(planned := more));
    assert more[..|more| - 1] == p.planned;
    LastEntry(more);
  }

  lemma ExecsCount(p: Place)
    requires Placeable(p)
    ensures |Execs(p.planned)| == ExecutedBy(p.planned)
  {
    hide Stream, LegalCode, AllInImage, PlanExecs, ImageOf, LaidOut;
    PlacedExecs(p);
    StreamLayout(p.planned);
    LaidOutCount(PlanExecs(p.planned), ImageOf(p.planned), ExecutedBy(p.planned));
  }

  /** Planning one more entry. */
  lemma AppendKeeps(p: Place, blocks: seq<Entry>, image: seq<Word>, release: int, at: int, writers: WriterIndex, e: Entry)
    requires InStep(p, blocks, image, release, at, writers)
    requires Planned(e) && e.start == EndOf(p.planned) && e.first == ExecutedBy(p.planned) + 1
    ensures forall i | i in e.Code() :: Legal(i)
    ensures InStep(p.(planned := p.planned + [e]), blocks + [e], image + WordsOf(e.Code()), release, at, writers)
  {
    hide Stream, LegalCode, AllInImage, OffsetsInImage, ExecOf, Execs, Image, Planned, WordsOf, Placeable, Wrote, Legal,
      CursorAt, FlowsThrough, EndOf, ExecutedBy;
    var more := p.planned + [e];
    PlaceBounds(p);
    PlannedShape(e);
    PlannedFlows(e);
    StaysPlaceable(p, e);
    ExecsExtend(p, e);
    ExecsCount(p);
    assert more[..p.gone] == p.planned[..p.gone];
    assert Execs(more)[..p.accepted] == Execs(p.planned)[..p.accepted];
    CursorStays(Execs(p.planned), ExecOf(e), p.accepted, EndOf(p.planned), EndOf(more));
  }

  /** The cursor is at the next planned word, or at the end, where a longer plan goes on. */
  lemma CursorStays(xs: seq<Exec>, more: seq<Exec>, n: nat, end: nat, end': nat)
    requires n <= |xs| && more != [] && more[0].at == end
    ensures CursorAt(xs, n, end) == CursorAt(xs + more, n, end')
  {
  }

  lemma PlaceBounds(p: Place)
    requires Placeable(p)
    ensures p.gone <= |p.planned|
  {
    hide Stream, LegalCode, AllInImage;
  }

  lemma StaysPlaceable(p: Place, e: Entry)
    requires Placeable(p) && Planned(e) && e.start == EndOf(p.planned) && e.first == ExecutedBy(p.planned) + 1
    ensures Placeable(p.(planned := p.planned + [e]))
  {
    hide Stream, LegalCode, AllInImage, OffsetsInImage, Planned;
    var more := p.planned + [e];
    StreamPlanner.StreamExtends(p.planned, e);
    StreamShape(more);
    assert more[..p.gone] == p.planned[..p.gone];
    PlannedExecutes(e);
  }

  lemma PlannedExecutes(e: Entry)
    requires Planned(e)
    ensures e.ExecutedCount() >= 1
  {
    hide Planned;
    PlannedShape(e);
  }

  /** The place after one more executed instruction. */
  function Moved(p: Place): Place
    requires p.gone < |p.planned|
  {
    if p.progress + 1 == p.planned[p.gone].ExecutedCount() then Place(p.planned, p.gone + 1, 0, p.accepted + 1)
    else Place(p.planned, p.gone, p.progress + 1, p.accepted + 1)
  }

  lemma MovedPlaceable(p: Place)
    requires Placeable(p) && p.gone < |p.planned|
    ensures Placeable(Moved(p)) && Moved(p).gone <= |p.planned|
  {
    hide Stream, LegalCode, AllInImage, Planned;
    EntryStartsAt(p.planned, p.gone);
    if p.progress + 1 == p.planned[p.gone].ExecutedCount() {
      var cut := p.planned[..p.gone + 1];
      assert cut[|cut| - 1] == p.planned[p.gone];
      if p.gone + 1 < |p.planned| {
        EntryFacts(p.planned, p.gone + 1);
        PlannedExecutes(p.planned[p.gone + 1]);
      }
    }
  }

  /** Executing the next planned instruction x. */
  lemma ExecuteKeeps(p: Place, image: seq<Word>, release: int, at: int, writers: WriterIndex, x: Exec)
    requires p.gone < |p.planned| && InStep(p, p.planned[p.gone..], image, release, at, writers)
    requires IsNext(p, x) && Legal(x.instr)
    ensures Moved(p).gone <= |p.planned|
    ensures InStep(Moved(p), p.planned[Moved(p).gone..], image, EndOf(p.planned[..Moved(p).gone]),
                   CursorAt(Execs(p.planned), p.accepted + 1, EndOf(p.planned)), After(writers, x.index, x.instr))
  {
    hide Placeable, Execs, Image, EndOf, KeysThrough, WritersThrough, After, Legal;
    MovedPlaceable(p);
    var xs := Execs(p.planned);
    assert xs[..p.accepted + 1] == xs[..p.accepted] + [x];
    WritersOfOne(writers, x);
    KeysConcat(map[], xs[..p.accepted], [x]);
  }

  lemma WritersOfOne(w: WriterIndex, x: Exec)
    requires Legal(x.instr)
    ensures AllLegal([x]) && WritersThrough(w, [x]) == After(w, x.index, x.instr)
  {
    assert [x][1..] == [];
  }

  // ---------------------------------------------------------------------
  // Longer plans
  // ---------------------------------------------------------------------

  /** Planning more leaves what was executed, and the dependencies that ended, as they were. */
  lemma PlanGrows(p: Place, q: Place, k: Key)
    requires Placeable(p) && Placeable(q) && p.planned <= q.planned && p.accepted <= |Execs(p.planned)|
    ensures Execs(p.planned) <= Execs(q.planned)
    ensures k.consumer <= p.accepted ==> (k in PlanKeys(p.planned) <==> k in PlanKeys(q.planned))
  {
    hide Stream, LegalCode, AllInImage, PlanExecs, ImageOf, PlanKeys, EndingBefore, KeysThrough, ExecutedBy, EndOf;
    PlacedExecs(p);
    PlacedExecs(q);
    ExecsPrefix(q.planned, |p.planned|);
    assert q.planned[..|p.planned|] == p.planned;
    var n := p.accepted;
    assert PlanExecs(p.planned)[..n] == PlanExecs(q.planned)[..n];
    EndedKeys(p.planned, n);
    EndedKeys(q.planned, n);
    MembersEndingBefore(PlanKeys(p.planned), n + 1, k);
    MembersEndingBefore(PlanKeys(q.planned), n + 1, k);
  }

  lemma EndedKeys(es: seq<Entry>, n: nat)
    requires Stream(es) && LegalCode(es) && AllInImage(es) && n <= |PlanExecs(es)|
    ensures AllLegal(PlanExecs(es)[..n])
    ensures KeysThrough(map[], PlanExecs(es)[..n]) == EndingBefore(PlanKeys(es), n + 1)
  {
    hide Stream, LegalCode, AllInImage, PlanExecs, ImageOf, PlanKeys, EndingBefore, KeysThrough, Planned;
    StreamIsPlanned(es);
    StreamLayout(es);
    CutMakesExecutedWitnesses(es, map[], 1, n);
  }

  // ---------------------------------------------------------------------
  // The hits of the next instruction
  // ---------------------------------------------------------------------

  /** Keys that end at or after the next instruction belong to resident entries. */
  lemma ResidentKeys(p: Place, k: Key)
    requires Placeable(p) && k.consumer > p.accepted
    ensures k in PlanKeys(p.planned) <==> KeyIn(p.planned[p.gone..], k)
  {
    hide Stream, LegalCode, AllInImage, Planned, PlanKeys, KeyOfWitnesses;
    PlanKeyIsIn(p.planned, k);
    var blocks := p.planned[p.gone..];
    if KeyIn(p.planned, k) {
      var e :| e in p.planned && KeyOfWitnesses(e.Witnesses(), k);
      var j :| 0 <= j < |p.planned| && p.planned[j] == e;
      if j < p.gone {
        FreedKeysEnded(p, j, k);
      } else {
        assert blocks[j - p.gone] == e;
      }
    }
    if KeyIn(blocks, k) {
      var e :| e in blocks && KeyOfWitnesses(e.Witnesses(), k);
      assert e in p.planned;
    }
  }

  lemma FreedKeysEnded(p: Place, j: nat, k: Key)
    requires Placeable(p) && j < p.gone && KeyOfWitnesses(p.planned[j].Witnesses(), k)
    ensures k.consumer <= p.accepted
  {
    hide Stream, LegalCode, AllInImage, Planned;
    StreamCut(p.planned, p.gone);
    EntryFacts(p.planned, j);
    PlannedIsOk(p.planned[j]);
    EntryEnds(p.planned[..p.gone], j);
    assert p.planned[..p.gone][j] == p.planned[j];
  }

  lemma {:induction false} EntryEnds(es: seq<Entry>, j: nat)
    requires Stream(es) && j < |es|
    ensures es[j].first + es[j].ExecutedCount() <= ExecutedBy(es) + 1
    decreases |es|
  {
    hide Stream, Planned;
    if j < |es| - 1 {
      StreamPrefix(es);
      EntryEnds(es[..|es| - 1], j);
      PlannedExecutes(es[|es| - 1]);
    }
  }

  /** The dependencies of the next instruction are exactly the resident planned keys that end there. */
  lemma NextKeys(p: Place, writers: WriterIndex, x: Exec, k: Key)
    requires Placeable(p) && p.gone < |p.planned| && IsNext(p, x) && Legal(x.instr) && x.index == p.accepted + 1
    requires Wrote(writers, Execs(p.planned)[..p.accepted])
    ensures k in KeysAt(writers, x.index, x.instr) <==> KeyIn(p.planned[p.gone..], k) && k.consumer == p.accepted + 1
  {
    hide Stream, LegalCode, AllInImage, PlanExecs, PlanKeys, ImageOf, Planned, KeysThrough, WritersThrough, KeysAt, KeyIn,
      EndOf, ExecutedBy, Legal;
    PlacedExecs(p);
    StreamIsPlanned(p.planned);
    PlanMakesItsWitnesses(p.planned, map[]);
    EventHitsArePlanned(p.planned, map[], p.accepted, k);
    if k.consumer == p.accepted + 1 {
      ResidentKeys(p, k);
    }
  }

  /** The collector's hits for the event that executes it are those keys. */
  lemma NextHits(p: Place, writers: L2.Writers, x: Exec, ev: Event, k: Key)
    requires Placeable(p) && p.gone < |p.planned| && IsNext(p, x) && Legal(x.instr) && x.index == p.accepted + 1
    requires Wrote(Indices(writers), Execs(p.planned)[..p.accepted]) && Ran(ev, x)
    ensures k in KeysOfHits(L2.HitsOf(writers, ev)) <==> KeyIn(p.planned[p.gone..], k) && k.consumer == ev.index
  {
    hide Placeable, Execs, Wrote, KeysAt, L2.HitsOf, KeysOfHits, KeyIn, Indices, Legal, Exact, Disassemble;
    NextKeys(p, Indices(writers), x, k);
    HitsAreKeys(writers, ev, x);
  }

  lemma StreamIsPlanned(es: seq<Entry>)
    requires Stream(es)
    ensures forall e | e in es :: Planned(e)
  {
    hide Planned;
  }
}
