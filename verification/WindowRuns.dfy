/**
 Whole runs of the bounded oracle: appends, releases and steps in any order.
 What it emits is what the unbounded program emits, and on a planned stream
 that is the plan.
 */
module WindowRuns {
  import opened Wrappers
  import opened Rv32Isa
  import opened ArchitecturalModel
  import opened TimingOracle
  import opened StreamPlan
  import opened HitsAreWitnesses
  import opened UnboundedProgram
  import opened WrapAwareOracle
  import opened PlanRun

  datatype Op = Append(words: seq<Word>) | Release(count: nat) | Step

  /** What the oracle's fields stand for: the image so far, how much of it was freed, and the timing state. */
  datatype Window = Window(image: seq<Word>, release: nat, rs: RefState) {
    ghost predicate Valid() {
      release <= |image| <= release + IMEM_WORD_CAPACITY && Consistent(rs.ts) && Synced(rs)
    }

    predicate InWindow() {
      release * 4 <= rs.at < (release + IMEM_WORD_CAPACITY) * 4
    }
  }

  /** Nothing appended, nothing executed. */
  ghost predicate Fresh(w: Window) {
    w.image == [] && w.release == 0 && IsInitial(w.rs.ts) && Consistent(w.rs.ts) && w.rs.at == 0
  }

  /** The physical program of a window. */
  function Program(image: seq<Word>, release: nat): (p: map<int, Word>)
    requires release <= |image|
  {
    map pc | pc in SlotsOf(release, |image| - release) && release <= OwnerOf(pc, release) < |image| ::
      image[OwnerOf(pc, release)]
  }

  lemma ProgramHolds(image: seq<Word>, release: nat)
    requires release <= |image| <= release + IMEM_WORD_CAPACITY
    ensures Holding(Program(image, release), image, release)
  {
    hide PhysicalPc, OwnerOf;
    forall k | release <= k < |image|
      ensures PhysicalPc(k) in SlotsOf(release, |image| - release) && OwnerOf(PhysicalPc(k), release) == k
    {
      OwnerIsUnique(k, release);
    }
  }

  /** The window determines the program, so the oracle's own program is this one. */
  lemma ProgramIsUnique(program: map<int, Word>, image: seq<Word>, release: nat)
    requires Holding(program, image, release)
    ensures program == Program(image, release)
  {
    hide PhysicalPc, OwnerOf;
    ProgramHolds(image, release);
    var other := Program(image, release);
    forall pc | pc in program || pc in other
      ensures pc in program && pc in other && program[pc] == other[pc]
    {
      OwnerHasPc(pc, release);
    }
  }

  /** One successful operation, with what it emits. */
  ghost function Apply(w: Window, op: Op): (r: Option<(Window, seq<Expectation>)>)
    requires w.Valid()
    ensures r.Some? ==> r.value.0.Valid()
  {
    match op
    case Append(words) =>
      if words == [] || |w.image| + |words| > w.release + IMEM_WORD_CAPACITY then None
      else Some((Window(w.image + words, w.release, w.rs), []))
    case Release(count) =>
      if count == 0 || w.release + count > |w.image| then None
      else Some((Window(w.image, w.release + count, w.rs), []))
    case Step =>
      var program := Program(w.image, w.release);
      CursorAfterIsSynced(program, w.rs);
      match Next(program, w.rs.ts, true)
      case Err(_) => None
      case Ok((ts, e)) => Some((Window(w.image, w.release, RefState(ts, CursorAfter(program, w.rs))), [e]))
  }

  ghost function Run(w: Window, ops: seq<Op>): (r: Option<(Window, seq<Expectation>)>)
    requires w.Valid()
    ensures r.Some? ==> r.value.0.Valid()
  {
    if ops == [] then Some((w, []))
    else
      match Run(w, ops[..|ops| - 1])
      case None => None
      case Some((before, es)) =>
        match Apply(before, ops[|ops| - 1])
        case None => None
        case Some((after, more)) => Some((after, es + more))
  }

  /** Every step is taken with the cursor in the window. */
  ghost predicate Safe(w: Window, ops: seq<Op>)
    requires w.Valid()
  {
    ops == []
    || (Safe(w, ops[..|ops| - 1])
        && (ops[|ops| - 1].Step? && Run(w, ops[..|ops| - 1]).Some? ==> Run(w, ops[..|ops| - 1]).value.0.InWindow()))
  }

  // ---------------------------------------------------------------------
  // Refinement
  // ---------------------------------------------------------------------

  lemma LongerImageStep(image: seq<Word>, more: seq<Word>, rs: RefState)
    requires Consistent(rs.ts) && image <= more && RefNext(image, rs).Ok?
    ensures RefNext(more, rs) == RefNext(image, rs)
  {
    hide DecodeChecked, Disassemble, Legal, Displacement, ExpectationFor, StateAfter;
  }

  /** Words appended later do not change what was executed. */
  lemma {:induction false} LongerImage(image: seq<Word>, more: seq<Word>, rs: RefState, n: nat)
    requires Consistent(rs.ts) && image <= more && RefRun(image, rs, n).Ok?
    ensures RefRun(more, rs, n) == RefRun(image, rs, n)
  {
    hide RefNext;
    if n > 0 {
      LongerImage(image, more, rs, n - 1);
      LongerImageStep(image, more, RefRun(image, rs, n - 1).value.0);
    }
  }

  lemma StepOfWindow(w: Window)
    requires w.Valid() && w.InWindow() && Apply(w, Step).Some?
    ensures RefNext(w.image, w.rs).Ok?
    ensures var (rs, e) := RefNext(w.image, w.rs).value; Apply(w, Step) == Some((Window(w.image, w.release, rs), [e]))
  {
    hide Next, RefNext, CursorAfter, Program, Holding;
    ProgramHolds(w.image, w.release);
    WindowStep(Program(w.image, w.release), w.image, w.release, w.rs);
  }

  /** Any interleaving of appends, releases and steps emits what the unbounded image emits. */
  lemma {:induction false} WindowRefinesImage(w: Window, ops: seq<Op>)
    requires w.Valid() && Safe(w, ops) && Run(w, ops).Some?
    ensures var (after, es) := Run(w, ops).value;
            w.image <= after.image && RefRun(after.image, w.rs, |es|) == Ok((after.rs, es))
  {
    hide Next, RefNext, CursorAfter, Program;
    if ops != [] {
      var front, op := ops[..|ops| - 1], ops[|ops| - 1];
      WindowRefinesImage(w, front);
      var (before, es) := Run(w, front).value;
      if op.Step? {
        StepOfWindow(before);
        assert Run(w, ops).value.1[..|es|] == es;
      } else {
        var after := Run(w, ops).value.0;
        assert es + [] == es;
        LongerImage(before.image, after.image, w.rs, |es|);
      }
    }
  }

  // ---------------------------------------------------------------------
  // A lap ahead
  // ---------------------------------------------------------------------

  /** The physical program answers the next step as the image does. */
  ghost predicate Answers(w: Window)
    requires w.Valid()
  {
    match RefNext(w.image, w.rs)
    case Ok((rs, e)) => Next(Program(w.image, w.release), w.rs.ts, true) == Ok((rs.ts, e))
    case Err(x) => Next(Program(w.image, w.release), w.rs.ts, true) == Err(x)
  }

  /** The cursor is in the window, or the slot it wraps to is free. */
  ghost predicate Clear(w: Window)
    requires w.Valid()
  {
    w.InWindow() || w.rs.at % FETCH_SPACE !in Program(w.image, w.release)
  }

  /** Past everything freed, exactly a clear step is answered as the image answers it. */
  lemma AnswersExactlyWhenClear(w: Window)
    requires w.Valid() && w.release * 4 <= w.rs.at
    ensures Answers(w) <==> Clear(w)
  {
    hide DecodeChecked, Disassemble, Displacement, ExpectationFor, StateAfter, Holding, Program, CursorAfter;
    ProgramHolds(w.image, w.release);
    if w.InWindow() {
      WindowStep(Program(w.image, w.release), w.image, w.release, w.rs);
    } else {
      assert Fetch(w.image, w.rs.at) == None;
    }
  }

  /** Only executed or flushed words are freed before a step. */
  ghost predicate Behind(w: Window, ops: seq<Op>)
    requires w.Valid()
  {
    ops == []
    || (&& Behind(w, ops[..|ops| - 1])
        && match Run(w, ops[..|ops| - 1])
           case None => true
           case Some((before, _)) => ops[|ops| - 1].Step? ==> before.release * 4 <= before.rs.at)
  }

  /** Every step, refused ones included, is answered as the image of its time answers it. */
  ghost predicate AllAnswered(w: Window, ops: seq<Op>)
    requires w.Valid()
  {
    ops == []
    || (&& AllAnswered(w, ops[..|ops| - 1])
        && match Run(w, ops[..|ops| - 1])
           case None => true
           case Some((before, _)) => ops[|ops| - 1].Step? ==> Answers(before))
  }

  ghost predicate AllClear(w: Window, ops: seq<Op>)
    requires w.Valid()
  {
    ops == []
    || (&& AllClear(w, ops[..|ops| - 1])
        && match Run(w, ops[..|ops| - 1])
           case None => true
           case Some((before, _)) => ops[|ops| - 1].Step? ==> Clear(before))
  }

  /**
   Over any interleaving that frees only executed or flushed words, the oracle
   behaves like the unbounded image exactly if no step is taken a lap ahead of
   the release cursor onto a slot that is still resident. If it succeeds too, it
   emits what the unbounded image emits.
   */
  lemma {:induction false} RefinesExactlyWhenClear(w: Window, ops: seq<Op>)
    requires w.Valid() && Behind(w, ops)
    ensures AllAnswered(w, ops) <==> AllClear(w, ops)
    ensures Run(w, ops).Some? ==> (AllClear(w, ops) <==> Safe(w, ops))
    ensures Run(w, ops).Some? && AllClear(w, ops) ==>
              var (after, es) := Run(w, ops).value;
              w.image <= after.image && RefRun(after.image, w.rs, |es|) == Ok((after.rs, es))
  {
    hide Answers, Next, RefNext, RefRun, CursorAfter, Program, Apply;
    if ops != [] {
      var front, op := ops[..|ops| - 1], ops[|ops| - 1];
      RefinesExactlyWhenClear(w, front);
      if Run(w, front).Some? && op.Step? {
        var before := Run(w, front).value.0;
        AnswersExactlyWhenClear(before);
        if Apply(before, op).Some? {
          StepNeedsWord(before);
        }
      }
    }
    if Run(w, ops).Some? && AllClear(w, ops) {
      WindowRefinesImage(w, ops);
    }
  }

  lemma StepNeedsWord(w: Window)
    requires w.Valid() && Apply(w, Step).Some?
    ensures w.rs.at % FETCH_SPACE in Program(w.image, w.release)
  {
    hide DecodeChecked, Disassemble, Displacement, ExpectationFor, StateAfter, Program, CursorAfter;
  }

  function Steps(n: nat): seq<Op> {
    seq(n, _ => Step)
  }

  /** A planned stream that fits the window, appended at once and stepped without a release. */
  lemma {:induction false} StepsThroughPlan(es: seq<Entry>, w: Window, n: nat)
    requires Fresh(w) && w.Valid() && Stream(es) && LegalCode(es) && AllInImage(es) && n <= |PlanExecs(es)|
    requires 1 <= |ImageOf(es)| <= IMEM_WORD_CAPACITY
    ensures RefRun(ImageOf(es), w.rs, n).Ok?
    ensures var (rs, out) := RefRun(ImageOf(es), w.rs, n).value;
            Run(w, [Append(ImageOf(es))] + Steps(n)) == Some((Window(ImageOf(es), 0, rs), out))
  {
    hide Stream, LegalCode, AllInImage, PlanExecs, ImageOf, RefNext, Next, CursorAfter, Program, FlowsThrough, IsInitial,
      Consistent, Synced, Names, EndOf, ExecutedBy;
    var image, ops := ImageOf(es), [Append(ImageOf(es))] + Steps(n);
    RunFollowsPlan(es, w.rs, n);
    if n == 0 {
      assert ops == [Append(image)];
      AppendedAtOnce(w, image);
    } else {
      StepsThroughPlan(es, w, n - 1);
      RunFollowsPlan(es, w.rs, n - 1);
      StreamLayout(es);
      assert ops[..|ops| - 1] == [Append(image)] + Steps(n - 1);
      var (before, out) := Run(w, ops[..|ops| - 1]).value;
      assert Placed(PlanExecs(es)[n - 1], image);
      assert before.InWindow();
      StepsInWindow(before);
    }
  }

  lemma AppendedAtOnce(w: Window, image: seq<Word>)
    requires Fresh(w) && w.Valid() && 1 <= |image| <= IMEM_WORD_CAPACITY
    ensures Run(w, [Append(image)]) == Some((Window(image, 0, w.rs), []))
  {
    var ops, none: seq<Expectation> := [Append(image)], [];
    assert ops[..|ops| - 1] == [] && w.image + image == image && none + none == none;
  }

  lemma StepsInWindow(w: Window)
    requires w.Valid() && w.InWindow() && RefNext(w.image, w.rs).Ok?
    ensures var (rs, e) := RefNext(w.image, w.rs).value; Apply(w, Step) == Some((Window(w.image, w.release, rs), [e]))
  {
    hide Next, RefNext, CursorAfter, Program, Holding;
    ProgramHolds(w.image, w.release);
    WindowStep(Program(w.image, w.release), w.image, w.release, w.rs);
  }

  function Delimiters(n: nat): seq<Entry> {
    seq(n, k requires 0 <= k < n => Delimiter(k, k, k + 1))
  }

  lemma {:induction false} DelimiterImage(n: nat)
    ensures Stream(Delimiters(n)) && LegalCode(Delimiters(n)) && AllInImage(Delimiters(n))
    ensures |ImageOf(Delimiters(n))| == n == |PlanExecs(Delimiters(n))| == EndOf(Delimiters(n))
    ensures forall k | 0 <= k < n :: ImageOf(Delimiters(n))[k] == WordOf(DELIMITER)
  {
    hide Legal, WordOf, PlanExecs, LaidOut;
    var es := Delimiters(n);
    LegalFiller();
    DelimiterStream(n);
    StreamLayout(es);
    LaidOutCount(PlanExecs(es), ImageOf(es), ExecutedBy(es));
    if n > 0 {
      hide Stream, LegalCode, AllInImage;
      DelimiterImage(n - 1);
      assert es[..n - 1] == Delimiters(n - 1);
    }
  }

  lemma DelimiterStream(n: nat)
    ensures Stream(Delimiters(n)) && LegalCode(Delimiters(n)) && AllInImage(Delimiters(n))
    ensures EndOf(Delimiters(n)) == ExecutedBy(Delimiters(n)) == n
  {
    hide Legal;
    LegalFiller();
  }

  lemma LegalFiller()
    ensures Legal(DELIMITER)
  {
  }

  /**
   128 straight-line words appended and executed with nothing released: the next
   step re-emits the first word, where the unbounded program has ended.
   */
  lemma LapAhead(w: Window)
    requires Fresh(w) && w.Valid()
    ensures var image := ImageOf(Delimiters(IMEM_WORD_CAPACITY));
            var ops := [Append(image)] + Steps(IMEM_WORD_CAPACITY);
            && Run(w, ops).Some?
            && var before := Run(w, ops).value.0;
               && before.release == 0 && RefNext(before.image, before.rs) == Err(OutsideProgram)
               && Apply(before, Step).Some? && Apply(before, Step).value.1[0].instruction == image[0]
  {
    hide Stream, LegalCode, AllInImage, PlanExecs, ImageOf, IsInitial, Names, WordOf, Legal, Disassemble, DecodeChecked,
      Displacement, StateAfter, Run, RefRun;
    var n, es := IMEM_WORD_CAPACITY, Delimiters(IMEM_WORD_CAPACITY);
    DelimiterImage(n);
    StepsThroughPlan(es, w, n);
    RunFollowsPlan(es, w.rs, n);
    var before := Run(w, [Append(ImageOf(es))] + Steps(n)).value.0;
    LegalFiller();
    WordDecodes(DELIMITER);
    FirstSlot(ImageOf(es));
    assert before.rs.at == 4 * n == FETCH_SPACE && before.rs.ts.arch.expectedPc == 0;
  }

  lemma FirstSlot(image: seq<Word>)
    requires 1 <= |image| <= IMEM_WORD_CAPACITY
    ensures 0 in Program(image, 0) && Program(image, 0)[0] == image[0]
  {
    hide Program, OwnerOf;
    ProgramHolds(image, 0);
    OwnerIsUnique(0, 0);
    assert PhysicalPc(0) == 0;
  }

  // ---------------------------------------------------------------------
  // Planned streams
  // ---------------------------------------------------------------------

  /** Only executed or flushed words are freed, and the cursor never runs a lap ahead of them. */
  ghost predicate Tame(w: Window, ops: seq<Op>)
    requires w.Valid()
  {
    ops == []
    || (&& Tame(w, ops[..|ops| - 1])
        && match Run(w, ops[..|ops| - 1])
           case None => true
           case Some((before, _)) =>
             match ops[|ops| - 1]
             case Append(_) => true
             case Release(count) => (before.release + count) * 4 <= before.rs.at
             case Step => before.rs.at < (before.release + IMEM_WORD_CAPACITY) * 4)
  }

  lemma Forward(xs: seq<Exec>, end: nat, n: nat)
    requires FlowsThrough(xs, end) && n < |xs|
    ensures CursorAt(xs, n + 1, end) > CursorAt(xs, n, end)
  {
    assert Flows(xs[n].instr, xs[n].at, NextAt(xs, n, end));
  }

  /** The run so far is the plan so far, and the cursor is past everything freed. */
  ghost predicate OnPlan(es: seq<Entry>, w: Window, after: Window, out: seq<Expectation>)
    requires LegalCode(es) && AllInImage(es) && Consistent(w.rs.ts)
  {
    && |out| <= |PlanExecs(es)|
    && RefRun(ImageOf(es), w.rs, |out|) == Ok((after.rs, out))
    && after.release * 4 <= after.rs.at
  }

  lemma StepOnPlan(es: seq<Entry>, w: Window, before: Window, out: seq<Expectation>)
    requires Fresh(w) && Stream(es) && LegalCode(es) && AllInImage(es)
    requires before.Valid() && before.InWindow() && OnPlan(es, w, before, out)
    requires Apply(before, Step).Some? && before.image <= ImageOf(es)
    ensures var (after, e) := Apply(before, Step).value; OnPlan(es, w, after, out + e)
  {
    hide RefNext, CursorAfter, Program, Next, Stream, LegalCode, AllInImage, PlanExecs, ImageOf, Flows, FlowsThrough, IsInitial,
      Synced, Consistent, Names, EndOf, ExecutedBy;
    StepOfWindow(before);
    LongerImageStep(before.image, ImageOf(es), before.rs);
    RunFollowsPlan(es, w.rs, |out|);
    StreamLayout(es);
    if |out| == |PlanExecs(es)| {
      EndHasNoWord(ImageOf(es), before.rs);
      assert false;
    }
    RunFollowsPlan(es, w.rs, |out| + 1);
    Forward(PlanExecs(es), EndOf(es), |out|);
  }

  lemma EndHasNoWord(image: seq<Word>, rs: RefState)
    requires Consistent(rs.ts) && rs.at == 4 * |image|
    ensures RefNext(image, rs).Err?
  {
  }

  /**
   A planned stream run through the 128-word window, with words appended in any
   portions and freed once executed or flushed: every expectation names the
   planned instruction, in order, with its physical PC and its word.
   */
  lemma {:induction false} WindowRunsThePlan(es: seq<Entry>, w: Window, ops: seq<Op>)
    requires Fresh(w) && w.Valid() && Stream(es) && LegalCode(es) && AllInImage(es)
    requires Run(w, ops).Some? && Run(w, ops).value.0.image <= ImageOf(es) && Tame(w, ops)
    ensures Safe(w, ops)
    ensures OnPlan(es, w, Run(w, ops).value.0, Run(w, ops).value.1)
    ensures Follow(Run(w, ops).value.1, PlanExecs(es))
  {
    hide Apply, Stream, LegalCode, AllInImage, PlanExecs, ImageOf, Fresh, OnPlan;
    if ops == [] {
      StartOnPlan(es, w);
    } else {
      var front, op := ops[..|ops| - 1], ops[|ops| - 1];
      var (before, out) := Run(w, front).value;
      OtherOps(before, op);
      WindowRunsThePlan(es, w, front);
      PastFreed(es, w, before, out);
      if op.Step? {
        StepOnPlan(es, w, before, out);
      } else {
        StaysOnPlan(es, w, before, Run(w, ops).value.0, out);
        assert out + [] == out;
      }
    }
    OnPlanFollows(es, w, Run(w, ops).value.0, Run(w, ops).value.1);
  }

  lemma StartOnPlan(es: seq<Entry>, w: Window)
    requires Fresh(w) && LegalCode(es) && AllInImage(es)
    ensures OnPlan(es, w, w, [])
  {
    hide LegalCode, AllInImage, PlanExecs, ImageOf;
  }

  lemma PastFreed(es: seq<Entry>, w: Window, before: Window, out: seq<Expectation>)
    requires LegalCode(es) && AllInImage(es) && Consistent(w.rs.ts) && OnPlan(es, w, before, out)
    ensures before.release * 4 <= before.rs.at
  {
    hide LegalCode, AllInImage;
  }

  lemma StaysOnPlan(es: seq<Entry>, w: Window, before: Window, after: Window, out: seq<Expectation>)
    requires LegalCode(es) && AllInImage(es) && Consistent(w.rs.ts) && OnPlan(es, w, before, out)
    requires after.rs == before.rs && after.release * 4 <= after.rs.at
    ensures OnPlan(es, w, after, out)
  {
    hide LegalCode, AllInImage;
  }

  lemma OnPlanFollows(es: seq<Entry>, w: Window, after: Window, out: seq<Expectation>)
    requires Fresh(w) && Stream(es) && LegalCode(es) && AllInImage(es) && OnPlan(es, w, after, out)
    ensures Follow(out, PlanExecs(es))
  {
    hide Stream, LegalCode, AllInImage, PlanExecs, ImageOf, Follow, Synced, IsInitial, CursorAt;
    RunFollowsPlan(es, w.rs, |out|);
  }

  /** An operation only extends the image; an append or a release leaves the machine where it was. */
  lemma OtherOps(w: Window, op: Op)
    requires w.Valid() && Apply(w, op).Some?
    ensures var (after, es) := Apply(w, op).value;
            && w.image <= after.image
            && (!op.Step? ==> es == [] && after.rs == w.rs)
            && after.release == (if op.Release? then w.release + op.count else w.release)
  {
    hide Next, CursorAfter, Program;
  }
}
