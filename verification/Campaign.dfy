/** The image of a plan and the run of the unbounded machine over it. */
module PlanRun {
  import opened Wrappers
  import opened Digits
  import opened Rv32Isa
  import opened Rv32RoundTrip
  import opened ArchitecturalModel
  import opened TimingOracle
  import opened StreamPlan
  import opened HitsAreWitnesses
  import opened UnboundedProgram

  function WordOf(i: Instr): (w: Word)
    requires Legal(i)
  {
    EncodeDecode(i);
    Encode(i).value
  }

  /** The delimiter is BNE x0,x0,+4, the frozen word of an epoch boundary. */
  lemma DelimiterWord()
    ensures Encode(DELIMITER) == Ok(0x0000_1263)
  {
    assert BranchPack(0, 0, 0, 2, 0, 0, 1) == 0x1263;
  }

  lemma WordDecodes(i: Instr)
    requires Legal(i)
    ensures DecodeChecked(WordOf(i)).Some? && Exact(DecodeChecked(WordOf(i)).value)
    ensures Disassemble(DecodeChecked(WordOf(i)).value) == i
  {
    hide Exact, Disassemble, DecodeChecked, Encode;
    EncodeDecode(i);
    Encoded(i);
    DecodedIsExact(WordOf(i));
  }

  lemma Encoded(i: Instr)
    requires Legal(i)
    ensures Encode(i) == Ok(WordOf(i))
  {
    hide Exact, Disassemble, DecodeChecked, Encode;
    EncodeDecode(i);
  }

  function WordsOf(code: seq<Instr>): (ws: seq<Word>)
    requires forall i | i in code :: Legal(i)
    ensures |ws| == |code| && forall k | 0 <= k < |code| :: ws[k] == WordOf(code[k])
  {
    seq(|code|, k requires 0 <= k < |code| => WordOf(code[k]))
  }

  ghost predicate LegalCode(es: seq<Entry>) {
    forall e | e in es :: forall i | i in e.Code() :: Legal(i)
  }

  /** The logical program image of a plan. */
  ghost function ImageOf(es: seq<Entry>): seq<Word>
    requires LegalCode(es)
  {
    if es == [] then [] else ImageOf(es[..|es| - 1]) + WordsOf(es[|es| - 1].Code())
  }

  /** A stream the planner built from the first logical word and the first instruction on. */
  ghost predicate Stream(es: seq<Entry>) {
    && (forall e | e in es :: Planned(e)) && Contiguous(es)
    && (es != [] ==> es[0].start == 0 && es[0].first == 1)
  }

  function EndOf(es: seq<Entry>): nat {
    if es == [] then 0 else es[|es| - 1].End()
  }

  function ExecutedBy(es: seq<Entry>): int {
    if es == [] then 0 else es[|es| - 1].first + es[|es| - 1].ExecutedCount() - 1
  }

  lemma StreamPrefix(es: seq<Entry>)
    requires Stream(es) && es != []
    ensures Stream(es[..|es| - 1]) && Planned(es[|es| - 1])
    ensures es[|es| - 1].start == EndOf(es[..|es| - 1]) && es[|es| - 1].first == ExecutedBy(es[..|es| - 1]) + 1
  {
    hide Planned;
    var front := es[..|es| - 1];
    forall k | 0 < k < |front|
      ensures Follows(front[k - 1], front[k])
    {
      assert Follows(es[k - 1], es[k]);
    }
    if |es| > 1 {
      assert Follows(es[|es| - 2], es[|es| - 1]);
    }
  }

  lemma StreamShape(es: seq<Entry>)
    requires Stream(es)
    ensures LegalCode(es) && AllInImage(es)
  {
    hide Planned, Legal;
    forall e | e in es
      ensures OffsetsInImage(e) && forall i | i in e.Code() :: Legal(i)
    {
      PlannedShape(e);
    }
  }

  /** The instruction is where the image says. */
  ghost predicate Placed(x: Exec, image: seq<Word>) {
    x.at < |image| && Legal(x.instr) && image[x.at] == WordOf(x.instr)
  }

  /** What the executed words of a plan are, and that each leads to the next. */
  ghost predicate LaidOut(xs: seq<Exec>, image: seq<Word>, count: int) {
    && |xs| == count && FlowsThrough(xs, |image|)
    && forall k | 0 <= k < |xs| :: xs[k].index == k + 1 && Placed(xs[k], image)
  }

  lemma EntryLayout(e: Entry)
    requires Planned(e)
    ensures OffsetsInImage(e) && ExecOf(e) != [] && ExecOf(e)[0].at == e.start && FlowsThrough(ExecOf(e), e.End())
    ensures forall i | i in e.Code() :: Legal(i)
    ensures forall x | x in ExecOf(e) :: e.start <= x.at < e.End() && x.instr == e.Code()[x.at - e.start]
    ensures forall k | 0 <= k < |ExecOf(e)| :: ExecOf(e)[k].index == e.first + k
  {
    hide Planned, Legal, ExecOf, OffsetsInImage, FlowsThrough;
    PlannedShape(e);
    PlannedFlows(e);
    forall k | 0 <= k < |ExecOf(e)|
      ensures var x := ExecOf(e)[k]; e.start <= x.at < e.End() && x.instr == e.Code()[x.at - e.start] && x.index == e.first + k
    {
      ExecAt(e, k);
    }
  }

  lemma PlacedByEntry(x: Exec, image: seq<Word>, e: Entry)
    requires (forall i | i in e.Code() :: Legal(i)) && e.start == |image|
    requires e.start <= x.at < e.End() && x.instr == e.Code()[x.at - e.start]
    ensures Placed(x, image + WordsOf(e.Code()))
  {
    hide Legal, WordOf;
    assert x.instr in e.Code();
  }

  lemma StaysPlaced(x: Exec, image: seq<Word>, more: seq<Word>)
    requires Placed(x, image)
    ensures Placed(x, image + more)
  {
    hide Legal, WordOf;
  }

  lemma JoinFlows(xs: seq<Exec>, ys: seq<Exec>, mid: nat, end: nat)
    requires FlowsThrough(xs, mid) && FlowsThrough(ys, end) && ys != [] && ys[0].at == mid
    ensures FlowsThrough(xs + ys, end)
  {
    hide Flows;
    forall k | 0 <= k < |xs + ys|
      ensures Flows((xs + ys)[k].instr, (xs + ys)[k].at, NextAt(xs + ys, k, end))
    {
      if k < |xs| {
        assert Flows(xs[k].instr, xs[k].at, NextAt(xs, k, mid));
      } else {
        assert Flows(ys[k - |xs|].instr, ys[k - |xs|].at, NextAt(ys, k - |xs|, end));
      }
    }
  }

  lemma LayoutsJoin(xs: seq<Exec>, image: seq<Word>, count: nat, ys: seq<Exec>, code: seq<Word>)
    requires LaidOut(xs, image, count) && FlowsThrough(ys, |image| + |code|)
    requires ys != [] && ys[0].at == |image|
    requires forall k | 0 <= k < |ys| :: ys[k].index == count + 1 + k && Placed(ys[k], image + code)
    ensures LaidOut(xs + ys, image + code, count + |ys|)
  {
    hide Placed, FlowsThrough;
    JoinFlows(xs, ys, |image|, |image| + |code|);
    forall k | 0 <= k < |xs|
      ensures Placed(xs[k], image + code)
    {
      StaysPlaced(xs[k], image, code);
    }
  }

  /** The words of an entry, behind the image they are appended to. */
  lemma EntryPlaced(e: Entry, image: seq<Word>)
    requires Planned(e) && e.start == |image|
    ensures OffsetsInImage(e) && ExecOf(e) != [] && ExecOf(e)[0].at == |image| && |ExecOf(e)| == e.ExecutedCount()
    ensures forall i | i in e.Code() :: Legal(i)
    ensures var code := WordsOf(e.Code());
            && e.End() == |image| + |code| && FlowsThrough(ExecOf(e), |image| + |code|)
            && forall k | 0 <= k < |ExecOf(e)| ::
                 ExecOf(e)[k].index == e.first + k && Placed(ExecOf(e)[k], image + code)
  {
    hide Planned, Legal, FlowsThrough, Placed, ExecOf, OffsetsInImage, WordOf, WordsOf;
    EntryLayout(e);
    forall k | 0 <= k < |ExecOf(e)|
      ensures Placed(ExecOf(e)[k], image + WordsOf(e.Code()))
    {
      assert ExecOf(e)[k] in ExecOf(e);
      PlacedByEntry(ExecOf(e)[k], image, e);
    }
  }

  lemma LastEntry(es: seq<Entry>)
    requires es != [] && LegalCode(es) && AllInImage(es)
    ensures LegalCode(es[..|es| - 1]) && AllInImage(es[..|es| - 1])
    ensures forall i | i in es[|es| - 1].Code() :: Legal(i)
    ensures OffsetsInImage(es[|es| - 1])
    ensures PlanExecs(es) == PlanExecs(es[..|es| - 1]) + ExecOf(es[|es| - 1])
    ensures ImageOf(es) == ImageOf(es[..|es| - 1]) + WordsOf(es[|es| - 1].Code())
    ensures EndOf(es) == es[|es| - 1].End() && ExecutedBy(es) == es[|es| - 1].first - 1 + es[|es| - 1].ExecutedCount()
    ensures |es| == 1 ==> es[..|es| - 1] == []
  {
    hide Legal, OffsetsInImage, ExecOf, WordsOf;
  }

  lemma {:induction false} StreamLayout(es: seq<Entry>)
    requires Stream(es) && LegalCode(es) && AllInImage(es)
    ensures |ImageOf(es)| == EndOf(es) && LaidOut(PlanExecs(es), ImageOf(es), ExecutedBy(es))
    ensures es != [] ==> PlanExecs(es) != [] && PlanExecs(es)[0].at == 0
  {
    hide Planned, Legal, LaidOut, WordsOf, Stream, FlowsThrough, Placed, ExecOf, AllInImage, OffsetsInImage,
      LegalCode, PlanExecs, ImageOf, EndOf, ExecutedBy;
    if es == [] {
      NothingLaidOut();
    } else {
      var front, last := es[..|es| - 1], es[|es| - 1];
      StreamPrefix(es);
      LastEntry(es);
      StreamLayout(front);
      LaidOutCount(PlanExecs(front), ImageOf(front), ExecutedBy(front));
      EntryPlaced(last, ImageOf(front));
      LayoutsJoin(PlanExecs(front), ImageOf(front), ExecutedBy(front), ExecOf(last), WordsOf(last.Code()));
      if |es| == 1 {
        NothingLaidOut();
      }
    }
  }

  lemma LaidOutCount(xs: seq<Exec>, image: seq<Word>, count: int)
    requires LaidOut(xs, image, count)
    ensures |xs| == count
  {
  }

  lemma NothingLaidOut()
    ensures EndOf([]) == 0 && ExecutedBy([]) == 0 && PlanExecs([]) == [] && ImageOf([]) == []
    ensures LaidOut(PlanExecs([]), ImageOf([]), 0)
  {
  }

  // ---------------------------------------------------------------------
  // The run
  // ---------------------------------------------------------------------

  /** Planned control flow does not depend on what the registers hold. */
  lemma FlowStep(s: ArchState, i: Instr, at: nat, next: nat)
    requires WellFormed(s) && Legal(i) && Flows(i, at, next)
    ensures Displacement(s, at * 4, i) == (next - at) * 4
    ensures Redirects(s, i) <==> i.Jal? || i.Jalr?
  {
    match i
    case Jalr(_, _, imm) =>
      CursorSlot(at * 4);
      assert at * 4 % FETCH_SPACE == PhysicalPc(at);
      QuotientIs(imm, WORD_SPACE, 0, imm);
      var t := NextPc(s, PhysicalPc(at), i);
      assert t == imm;
      QuotientIs(t - at * 4, FETCH_SPACE, -(at / IMEM_WORD_CAPACITY), 12);
    case _ =>
  }

  /** The expectation names the planned instruction; of those only the jumps redirect. */
  ghost predicate Names(e: Expectation, x: Exec) {
    && Legal(x.instr)
    && e.id == x.index && e.pc == PhysicalPc(x.at) && e.instruction == WordOf(x.instr)
    && (e.redirect <==> x.instr.Jal? || x.instr.Jalr?)
  }

  ghost predicate Follow(es: seq<Expectation>, xs: seq<Exec>) {
    |es| <= |xs| && forall k | 0 <= k < |es| :: Names(es[k], xs[k])
  }

  function CursorAt(xs: seq<Exec>, n: nat, end: nat): int {
    4 * (if n < |xs| then xs[n].at else end)
  }

  /** One step at a planned word executes it and moves to the next. */
  lemma PlannedStep(image: seq<Word>, rs: RefState, x: Exec, next: nat)
    requires Consistent(rs.ts) && Synced(rs) && rs.at == x.at * 4 && rs.ts.nextId == x.index
    requires Placed(x, image) && Flows(x.instr, x.at, next)
    ensures RefNext(image, rs).Ok?
    ensures var (rs', e) := RefNext(image, rs).value;
            Synced(rs') && rs'.at == next * 4 && rs'.ts.nextId == x.index + 1 && Names(e, x)
  {
    hide DecodeChecked, Disassemble, Legal, Displacement, Flows, WordOf, Redirects, Advance;
    CursorSlot(rs.at);
    WordDecodes(x.instr);
    assert rs.at / 4 == x.at;
    FlowStep(rs.ts.arch, x.instr, x.at, next);
    RefNextStaysSynced(image, rs);
  }

  /** One instruction more of a laid out plan. */
  lemma FollowsOneMore(xs: seq<Exec>, image: seq<Word>, count: int, rs: RefState, out: seq<Expectation>, k: nat)
    requires LaidOut(xs, image, count) && k < |xs| && |out| == k && Follow(out, xs)
    requires Consistent(rs.ts) && Synced(rs) && rs.ts.nextId == k + 1 && rs.at == CursorAt(xs, k, |image|)
    ensures RefNext(image, rs).Ok?
    ensures var (rs', e) := RefNext(image, rs).value;
            && Follow(out + [e], xs) && rs'.ts.nextId == k + 2
            && Synced(rs') && rs'.at == CursorAt(xs, k + 1, |image|)
  {
    hide Flows, Placed, RefNext, Synced, Names, Consistent;
    assert Flows(xs[k].instr, xs[k].at, NextAt(xs, k, |image|));
    PlannedStep(image, rs, xs[k], NextAt(xs, k, |image|));
  }

  /** From reset the unbounded machine executes the plan, whatever the arms, targets and variants. */
  lemma {:induction false} RunFollowsPlan(es: seq<Entry>, rs: RefState, n: nat)
    requires Stream(es) && LegalCode(es) && AllInImage(es) && n <= |PlanExecs(es)|
    requires IsInitial(rs.ts) && Consistent(rs.ts) && rs.at == 0
    ensures RefRun(ImageOf(es), rs, n).Ok?
    ensures var (rs', out) := RefRun(ImageOf(es), rs, n).value;
            && Follow(out, PlanExecs(es)) && rs'.ts.nextId == n + 1
            && Synced(rs') && rs'.at == CursorAt(PlanExecs(es), n, EndOf(es))
  {
    hide Stream, Planned, Flows, Placed, OffsetsInImage, LegalCode, RefNext, IsInitial, Synced, Names,
      PlanExecs, ImageOf, Consistent, AllInImage, LaidOut, Follow, EndOf, ExecutedBy;
    StreamLayout(es);
    var xs, image := PlanExecs(es), ImageOf(es);
    if n > 0 {
      RunFollowsPlan(es, rs, n - 1);
      var (before, out) := RefRun(image, rs, n - 1).value;
      FollowsOneMore(xs, image, ExecutedBy(es), before, out, n - 1);
    } else {
      StartsAtZero(rs);
      NothingFollows(xs);
      PlanStartsAtZero(es);
    }
  }

  lemma NothingFollows(xs: seq<Exec>)
    ensures Follow([], xs)
  {
  }

  lemma PlanStartsAtZero(es: seq<Entry>)
    requires Stream(es) && LegalCode(es) && AllInImage(es)
    ensures CursorAt(PlanExecs(es), 0, EndOf(es)) == 0
  {
    hide Stream, LegalCode, AllInImage;
    StreamLayout(es);
  }

  lemma StartsAtZero(rs: RefState)
    requires IsInitial(rs.ts) && rs.at == 0
    ensures Synced(rs) && rs.ts.nextId == 1
  {
  }
}
