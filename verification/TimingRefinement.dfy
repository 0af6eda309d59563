/**
 Every run of a timing oracle is the timing of its own executed trace: the
 writer table is the last-writer relation, the interlock is adjacency to a
 load, and acceptance follows the closed form. The streaming and the batch
 oracle emit the same expectations.
 */
module TimingRefinement {
  import opened Wrappers
  import opened Rv32Isa
  import opened Rv32RoundTrip
  import opened ArchitecturalModel
  import opened TimingTrace
  import opened TimingOracle

  function RecordOf(tr: Trace, p: nat): Producer
    requires p < |tr|
  {
    Producer(p + 1, Accept(tr, p), tr[p].d)
  }

  /** The oracle state is the summary of the trace executed so far. */
  ghost predicate Linked(ts: TimingState, tr: Trace) {
    && Consistent(ts)
    && ts.nextId == |tr| + 1
    && ts.nextAccept == Candidate(tr, |tr|)
    && forall r: Reg | r != 0 ::
         var p := LastWriter(tr, |tr|, r);
         if p.Some? then r in ts.lastWriter && ts.lastWriter[r] == RecordOf(tr, p.value)
         else r !in ts.lastWriter
  }

  /** Producer, age and forwarding of one operand are those of the trace. */
  ghost predicate SourceMatches(producer: Option<int>, age: Option<int>, forward: int,
                                tr: Trace, n: nat, uses: bool, r: Reg)
    requires n < |tr|
  {
    var p := ProducerOf(tr, n, uses, r);
    && producer == (if p.Some? then Some(p.value + 1) else None)
    && age == AgeOf(tr, n, p) && forward == ForwardForAge(AgeOf(tr, n, p))
  }

  /** The expectation is the timing of instruction n of the trace. */
  ghost predicate Matches(e: Expectation, tr: Trace, n: nat)
    requires n < |tr|
  {
    && e.id == n + 1 && e.mnemonic == tr[n].d.mnemonic
    && e.accept == Accept(tr, n) && e.stall == Stalls(tr, n) && e.retire == Accept(tr, n) + RETIRE_LATENCY
    && SourceMatches(e.producerA, e.ageA, e.forwardA, tr, n, tr[n].d.usesRs1, tr[n].d.rs1)
    && SourceMatches(e.producerB, e.ageB, e.forwardB, tr, n, tr[n].d.usesRs2, tr[n].d.rs2)
    && e.redirect == tr[n].redirect && e.bubbles == BubblesOf(tr[n].redirect)
  }

  lemma LinkedIsConsistent(ts: TimingState, tr: Trace)
    requires Linked(ts, tr)
    ensures Consistent(ts)
  {
  }

  /** What the writer table answers for one operand is the trace's producer. */
  lemma LookupIsProducer(ts: TimingState, tr: Trace, more: Trace, uses: bool, r: Reg)
    requires Linked(ts, tr) && tr <= more
    ensures var p := ProducerOf(more, |tr|, uses, r);
            Lookup(ts.lastWriter, uses, r) == (if p.Some? then Some(RecordOf(more, p.value)) else None)
  {
    LastWriterPrefix(tr, more, |tr|, r);
    var p := LastWriter(tr, |tr|, r);
    if p.Some? {
      AcceptPrefix(tr, more, p.value);
    }
  }

  lemma LoadFallsThrough(more: Trace, k: nat)
    requires k < |more| && Plausible(more) && more[k].d.producerType == MEM_DATA
    ensures !more[k].redirect
  {
    hide Legal, Disassemble;
  }

  /** The cycle test of the interlock holds exactly for the instruction just before. */
  lemma InterlockIsAdjacency(more: Trace, n: nat, uses: bool, r: Reg)
    requires n < |more| && Plausible(more)
    ensures var p := ProducerOf(more, n, uses, r);
            p.Some? && more[p.value].d.producerType == MEM_DATA && Candidate(more, n) - Accept(more, p.value) == 1
            <==>
            uses && r != 0 && n > 0 && more[n - 1].d.producerType == MEM_DATA && Writes(more[n - 1].d, r)
  {
    hide Exact, Plausible, Stalls;
    var p := ProducerOf(more, n, uses, r);
    if p.Some? && more[p.value].d.producerType == MEM_DATA {
      if p.value + 1 < n {
        hide Writes;
        AcceptIncreases(more, p.value, n - 1);
        assert Candidate(more, n) > Accept(more, p.value) + 1;
        assert LastWriter(more, n, r) != Some(n - 1);
      } else {
        LoadFallsThrough(more, n - 1);
      }
    }
  }

  lemma OperandInterlock(ts: TimingState, tr: Trace, more: Trace, uses: bool, r: Reg)
    requires Linked(ts, tr) && tr < more && Plausible(more)
    ensures NeedsStall(Lookup(ts.lastWriter, uses, r), ts.nextAccept)
       <==> uses && r != 0 && |tr| > 0 && more[|tr| - 1].d.producerType == MEM_DATA && Writes(more[|tr| - 1].d, r)
  {
    hide Plausible, Lookup, Accept, Candidate, ProducerOf, Writes, LastWriter;
    LookupIsProducer(ts, tr, more, uses, r);
    CandidatePrefix(tr, more);
    InterlockIsAdjacency(more, |tr|, uses, r);
    LinkedCandidate(ts, tr);
  }

  lemma LinkedCandidate(ts: TimingState, tr: Trace)
    requires Linked(ts, tr)
    ensures ts.nextAccept == Candidate(tr, |tr|)
  {
  }

  lemma StallIsLoadUse(ts: TimingState, tr: Trace, slot: Slot)
    requires Linked(ts, tr) && Plausible(tr + [slot])
    ensures StallOf(ts.lastWriter, ts.nextAccept, slot.d) == Stalls(tr + [slot], |tr|)
  {
    hide Plausible, Linked, Lookup, NeedsStall;
    OperandInterlock(ts, tr, tr + [slot], slot.d.usesRs1, slot.d.rs1);
    OperandInterlock(ts, tr, tr + [slot], slot.d.usesRs2, slot.d.rs2);
  }

  lemma CandidatePrefix(tr: Trace, more: Trace)
    requires tr <= more
    ensures Candidate(tr, |tr|) == Candidate(more, |tr|)
  {
    if |tr| > 0 {
      AcceptPrefix(tr, more, |tr| - 1);
    }
  }

  ghost function SlotFor(ts: TimingState, d: Decoded, i: Instr): Slot
    requires WellFormed(ts.arch) && Legal(i)
  {
    Slot(d, Redirects(ts.arch, i))
  }

  lemma OnlyControlRedirects(ts: TimingState, d: Decoded, i: Instr)
    requires WellFormed(ts.arch) && Exact(d) && i == Disassemble(d)
    ensures var slot := SlotFor(ts, d, i);
            && (slot.redirect ==> IsControl(d.mnemonic))
            && (d.mnemonic.JAL? || d.mnemonic.JALR? ==> slot.redirect)
  {
  }

  lemma StaysPlausible(ts: TimingState, tr: Trace, d: Decoded, i: Instr)
    requires WellFormed(ts.arch) && Plausible(tr) && Exact(d) && i == Disassemble(d)
    ensures Plausible(tr + [SlotFor(ts, d, i)])
  {
    hide Exact, Disassemble, Legal, Redirects;
    ExactIsLegal(d);
    OnlyControlRedirects(ts, d, i);
  }

  lemma SourceStep(ts: TimingState, tr: Trace, more: Trace, uses: bool, r: Reg, accept: int)
    requires Linked(ts, tr) && tr < more && accept == Accept(more, |tr|)
    ensures var p := Lookup(ts.lastWriter, uses, r);
            SourceMatches(IdOf(p), AgeAt(p, accept), ForwardForAge(AgeAt(p, accept)), more, |tr|, uses, r)
  {
    LookupIsProducer(ts, tr, more, uses, r);
  }

  lemma StepMatches(ts: TimingState, tr: Trace, w: Word, d: Decoded, i: Instr)
    requires Linked(ts, tr) && Plausible(tr) && Exact(d) && i == Disassemble(d)
    ensures Matches(ExpectationFor(ts, w, d, i), tr + [SlotFor(ts, d, i)], |tr|)
  {
    hide Exact, Disassemble, Legal, Redirects, Plausible, SourceMatches, ForwardForAge, AgeAt, IdOf, StallOf;
    ExactIsLegal(d);
    var slot := SlotFor(ts, d, i);
    var more := tr + [slot];
    StaysPlausible(ts, tr, d, i);
    StallIsLoadUse(ts, tr, slot);
    CandidatePrefix(tr, more);
    var accept := ExpectationFor(ts, w, d, i).accept;
    SourceStep(ts, tr, more, d.usesRs1, d.rs1, accept);
    SourceStep(ts, tr, more, d.usesRs2, d.rs2, accept);
  }

  lemma StepLinks(ts: TimingState, tr: Trace, w: Word, d: Decoded, i: Instr, wrap: bool)
    requires Linked(ts, tr) && Plausible(tr) && Exact(d) && i == Disassemble(d)
    ensures Linked(StateAfter(ts, w, d, i, wrap), tr + [SlotFor(ts, d, i)])
  {
    hide Exact, Disassemble, Legal, Redirects, Plausible, Advance, SourceMatches, ForwardForAge, AgeAt, IdOf, StallOf;
    ExactIsLegal(d);
    StepMatches(ts, tr, w, d, i);
    var more := tr + [SlotFor(ts, d, i)];
    var ts' := StateAfter(ts, w, d, i, wrap);
    forall r: Reg | r != 0
      ensures var p := LastWriter(more, |more|, r);
              if p.Some? then r in ts'.lastWriter && ts'.lastWriter[r] == RecordOf(more, p.value)
              else r !in ts'.lastWriter
    {
      LookupIsProducer(ts, tr, more, true, r);
    }
  }

  // ---------------------------------------------------------------------
  // Whole runs
  // ---------------------------------------------------------------------

  /** The trace a sequence of expectations executed. */
  function TraceOf(es: seq<Expectation>): (tr: Trace)
    requires forall e | e in es :: DecodeChecked(e.instruction).Some?
    ensures |tr| == |es|
    ensures forall k | 0 <= k < |es| :: tr[k] == Slot(DecodeChecked(es[k].instruction).value, es[k].redirect)
  {
    seq(|es|, k requires 0 <= k < |es| => Slot(DecodeChecked(es[k].instruction).value, es[k].redirect))
  }

  ghost predicate TimedBy(ts: TimingState, es: seq<Expectation>) {
    && (forall e | e in es :: DecodeChecked(e.instruction).Some?)
    && var tr := TraceOf(es);
       Plausible(tr) && Linked(ts, tr) && forall k | 0 <= k < |es| :: Matches(es[k], tr, k)
  }

  lemma InitialTimed(ts: TimingState)
    requires IsInitial(ts) && Consistent(ts)
    ensures TimedBy(ts, [])
  {
    assert TraceOf([]) == [];
  }

  lemma MatchesPrefix(e: Expectation, tr: Trace, more: Trace, n: nat)
    requires n < |tr| && tr <= more && Matches(e, tr, n)
    ensures Matches(e, more, n)
  {
    AcceptPrefix(tr, more, n);
    SourcePrefix(tr, more, n, tr[n].d.usesRs1, tr[n].d.rs1);
    SourcePrefix(tr, more, n, tr[n].d.usesRs2, tr[n].d.rs2);
  }

  lemma SourcePrefix(tr: Trace, more: Trace, n: nat, uses: bool, r: Reg)
    requires n < |tr| && tr <= more
    ensures ProducerOf(tr, n, uses, r) == ProducerOf(more, n, uses, r)
    ensures AgeOf(tr, n, ProducerOf(tr, n, uses, r)) == AgeOf(more, n, ProducerOf(tr, n, uses, r))
  {
    AcceptPrefix(tr, more, n);
    LastWriterPrefix(tr, more, n, r);
    var p := LastWriter(tr, n, r);
    if p.Some? {
      AcceptPrefix(tr, more, p.value);
    }
  }

  lemma TimedByExtends(ts: TimingState, es: seq<Expectation>, w: Word, d: Decoded, i: Instr, wrap: bool)
    requires TimedBy(ts, es) && Exact(d) && i == Disassemble(d) && Legal(i) && DecodeChecked(w) == Some(d)
    ensures TimedBy(StateAfter(ts, w, d, i, wrap), es + [ExpectationFor(ts, w, d, i)])
  {
    hide Exact, Disassemble, Legal, Redirects, DecodeChecked, Advance, Linked, Matches, Plausible;
    hide ExpectationFor, StateAfter;
    LinkedIsConsistent(ts, TraceOf(es));
    EntryFacts(ts, w, d, i);
    var e := ExpectationFor(ts, w, d, i);
    var tr, more := TraceOf(es), TraceOf(es + [e]);
    assert more == tr + [SlotFor(ts, d, i)];
    StepMatches(ts, tr, w, d, i);
    StepLinks(ts, tr, w, d, i, wrap);
    StaysPlausible(ts, tr, d, i);
    forall k | 0 <= k < |es|
      ensures Matches(es[k], more, k)
    {
      MatchesPrefix(es[k], tr, more, k);
    }
  }

  /** Whatever program it runs, a fresh oracle emits the timing of the trace it executes. */
  lemma {:induction false} StreamRunIsTimed(program: map<int, Word>, ts: TimingState, n: nat, wrap: bool)
    requires IsInitial(ts) && Consistent(ts)
    ensures StreamRun(program, ts, n, wrap).Ok? ==>
              TimedBy(StreamRun(program, ts, n, wrap).value.0, StreamRun(program, ts, n, wrap).value.1)
  {
    hide Next, Linked, Plausible, Matches, Exact, Legal, Disassemble, DecodeChecked, IsReset, Advance;
    if n == 0 {
      InitialTimed(ts);
    } else if StreamRun(program, ts, n, wrap).Ok? {
      StreamRunIsTimed(program, ts, n - 1, wrap);
      var before := StreamRun(program, ts, n - 1, wrap).value;
      NextCases(program, before.0, wrap);
      var w := program[before.0.arch.expectedPc];
      var d := DecodeChecked(w).value;
      ExactIsLegal(d);
      TimedByExtends(before.0, before.1, w, d, Disassemble(d), wrap);
    }
  }

  /** The number of stalls in the expectations before n, and of redirects. */
  function StallSum(es: seq<Expectation>): int {
    if es == [] then 0 else StallSum(es[..|es| - 1]) + es[|es| - 1].stall
  }

  function RedirectCount(es: seq<Expectation>): nat {
    if es == [] then 0 else RedirectCount(es[..|es| - 1]) + (if es[|es| - 1].redirect then 1 else 0)
  }

  lemma {:induction false} CountsAgree(es: seq<Expectation>, tr: Trace, n: nat)
    requires n <= |es| == |tr| && forall k | 0 <= k < |es| :: Matches(es[k], tr, k)
    ensures StallSum(es[..n]) == CountStalls(tr, n) && RedirectCount(es[..n]) == CountRedirects(tr, n)
  {
    if n > 0 {
      CountsAgree(es, tr, n - 1);
      assert es[..n][..n - 1] == es[..n - 1];
    }
  }

  /** Acceptance is one cycle an instruction, one a stall and two a redirect. */
  lemma AcceptanceFormula(program: map<int, Word>, ts: TimingState, n: nat, wrap: bool, k: nat)
    requires IsInitial(ts) && Consistent(ts) && StreamRun(program, ts, n, wrap).Ok? && k < n
    ensures var es := StreamRun(program, ts, n, wrap).value.1;
            es[k].accept == k + 1 + StallSum(es[..k + 1]) + 2 * RedirectCount(es[..k])
  {
    hide Next, IsInitial, Consistent, StallSum, RedirectCount, TimedBy;
    StreamRunIsTimed(program, ts, n, wrap);
    TimedAcceptance(StreamRun(program, ts, n, wrap).value.0, StreamRun(program, ts, n, wrap).value.1, k);
  }

  lemma TimedAcceptance(ts: TimingState, es: seq<Expectation>, k: nat)
    requires TimedBy(ts, es) && k < |es|
    ensures es[k].accept == k + 1 + StallSum(es[..k + 1]) + 2 * RedirectCount(es[..k])
  {
    hide Linked, Plausible, Accept, StallSum, RedirectCount, CountStalls, CountRedirects, SourceMatches, DecodeChecked;
    var tr := TraceOf(es);
    CountsAgree(es, tr, k + 1);
    CountsAgree(es, tr, k);
    AcceptClosedForm(tr, k);
    assert Matches(es[k], tr, k);
  }

  /** Earlier expectations do not depend on how far the stream is run. */
  lemma {:induction false} StreamRunPrefix(program: map<int, Word>, ts: TimingState, k: nat, n: nat, wrap: bool)
    requires Consistent(ts) && k <= n && StreamRun(program, ts, n, wrap).Ok?
    ensures StreamRun(program, ts, k, wrap).Ok?
    ensures StreamRun(program, ts, k, wrap).value.1 == StreamRun(program, ts, n, wrap).value.1[..k]
  {
    hide Next;
    if k < n {
      StreamRunPrefix(program, ts, k, n - 1, wrap);
    }
  }

  /**
   The streaming oracle refines the batch: up to the end of the schedule its
   n-th expectation is the n-th of the schedule, and there it runs off the
   program as the batch does.
   */
  lemma StreamingRefinesBatch(program: map<int, Word>, ts: TimingState, maxInstructions: int,
                              es: seq<Expectation>, n: nat)
    requires Consistent(ts) && BatchOutcome(program, ts, maxInstructions, Ok(es))
    ensures n < |es| ==>
              && StreamRun(program, ts, n, false).Ok?
              && Next(program, StreamRun(program, ts, n, false).value.0, false).Ok?
              && Next(program, StreamRun(program, ts, n, false).value.0, false).value.1 == es[n]
    ensures n > |es| ==> StreamRun(program, ts, n, false).Err?
  {
    hide Next;
    if n < |es| {
      StreamRunPrefix(program, ts, n + 1, |es|, false);
    } else if n > |es| && StreamRun(program, ts, n, false).Ok? {
      StreamRunPrefix(program, ts, |es| + 1, n, false);
    }
  }
}
