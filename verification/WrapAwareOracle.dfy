/**
 The same timing rules on an unbounded logical program. Its cursor is a byte
 address that is never reduced: only the PC an instruction reports and computes
 with is the nine-bit one.
 */
module UnboundedProgram {
  import opened Wrappers
  import opened Digits
  import opened Rv32Isa
  import opened Rv32RoundTrip
  import opened ArchitecturalModel
  import opened TimingOracle
  import opened StreamPlan

  datatype RefState = RefState(ts: TimingState, at: int)

  /** The PC is the cursor seen through nine bits. */
  predicate Synced(rs: RefState) {
    rs.ts.arch.expectedPc == rs.at % FETCH_SPACE
  }

  /**
   How far an instruction moves the cursor. A register-indirect target is an
   address in the window, so it names the nearest such word from here on.
   */
  function Displacement(s: ArchState, at: int, i: Instr): int
    requires WellFormed(s) && Legal(i)
  {
    match i
    case Jal(_, offset) => offset
    case Jalr(_, _, _) => (NextPc(s, at % FETCH_SPACE, i) - at) % FETCH_SPACE
    case Branch(_, _, _, offset) => if Redirects(s, i) then offset else 4
    case _ => 4
  }

  /** The word under the cursor. */
  function Fetch(image: seq<Word>, at: int): Option<Word> {
    if 0 <= at && at % 4 == 0 && at / 4 < |image| then Some(image[at / 4]) else None
  }

  /** One step over the unbounded image. */
  function RefNext(image: seq<Word>, rs: RefState): (r: Result<(RefState, Expectation), TimingError>)
    requires Consistent(rs.ts)
    ensures r.Ok? ==> Consistent(r.value.0.ts)
  {
    var w := Fetch(image, rs.at);
    if w.None? then Err(OutsideProgram)
    else if DecodeChecked(w.value).None? then Err(Unsupported)
    else
      assert Exact(DecodeChecked(w.value).value) by { DecodedIsExact(w.value); }
      var d := DecodeChecked(w.value).value;
      var i := Disassemble(d);
      Ok((RefState(StateAfter(rs.ts, w.value, d, i, true), rs.at + Displacement(rs.ts.arch, rs.at, i)),
          ExpectationFor(rs.ts, w.value, d, i)))
  }

  function RefRun(image: seq<Word>, rs: RefState, n: nat): (r: Result<(RefState, seq<Expectation>), TimingError>)
    requires Consistent(rs.ts)
    ensures r.Ok? ==> Consistent(r.value.0.ts) && |r.value.1| == n
  {
    if n == 0 then Ok((rs, []))
    else
      match RefRun(image, rs, n - 1)
      case Err(x) => Err(x)
      case Ok(before) =>
        match RefNext(image, before.0)
        case Err(x) => Err(x)
        case Ok(step) => Ok((step.0, before.1 + [step.1]))
  }

  // ---------------------------------------------------------------------
  // The cursor and the nine-bit PC stay together
  // ---------------------------------------------------------------------

  /** Reducing to thirty-two bits first does not change the low nine. */
  lemma LowBitsOfWrapped(v: int)
    ensures Wrap32(v) % FETCH_SPACE == v % FETCH_SPACE
  {
    var q, r := v / WORD_SPACE, v % WORD_SPACE;
    QuotientIs(v, FETCH_SPACE, q * 0x80_0000 + r / FETCH_SPACE, r % FETCH_SPACE);
  }

  lemma SameResidue(at: int, pc: int, k: int)
    requires pc == at % FETCH_SPACE
    ensures (pc + k) % FETCH_SPACE == (at + k) % FETCH_SPACE
  {
    var q := at / FETCH_SPACE;
    var q', r' := (pc + k) / FETCH_SPACE, (pc + k) % FETCH_SPACE;
    QuotientIs(at + k, FETCH_SPACE, q + q', r');
  }

  lemma Residual(at: int, t: int)
    ensures (at + (t - at) % FETCH_SPACE) % FETCH_SPACE == t % FETCH_SPACE
  {
    var q, r := (t - at) / FETCH_SPACE, (t - at) % FETCH_SPACE;
    var q', r' := t / FETCH_SPACE, t % FETCH_SPACE;
    QuotientIs(at + r, FETCH_SPACE, q' - q, r');
  }

  /** The next fetch PC is the moved cursor seen through nine bits. */
  lemma StepStaysSynced(s: ArchState, at: int, i: Instr)
    requires WellFormed(s) && Legal(i) && s.expectedPc == at % FETCH_SPACE
    ensures FetchPc(NextPc(s, s.expectedPc, i), true) == (at + Displacement(s, at, i)) % FETCH_SPACE
  {
    hide Holds, Legal;
    var pc := s.expectedPc;
    LowBitsOfWrapped(pc + 4);
    SameResidue(at, pc, 4);
    match i
    case Jal(_, offset) =>
      LowBitsOfWrapped(pc + offset);
      SameResidue(at, pc, offset);
    case Jalr(_, _, _) => Residual(at, NextPc(s, pc, i));
    case Branch(_, _, _, offset) =>
      LowBitsOfWrapped(pc + offset);
      SameResidue(at, pc, offset);
    case _ =>
  }

  lemma RefNextStaysSynced(image: seq<Word>, rs: RefState)
    requires Consistent(rs.ts) && Synced(rs)
    ensures RefNext(image, rs).Ok? ==> Synced(RefNext(image, rs).value.0)
  {
    hide DecodeChecked, Disassemble, Legal, Displacement, ExpectationFor, Redirects, NextPc, FetchPc;
    if RefNext(image, rs).Ok? {
      var w := Fetch(image, rs.at).value;
      DecodedIsExact(w);
      var i := Disassemble(DecodeChecked(w).value);
      StepStaysSynced(rs.ts.arch, rs.at, i);
    }
  }

  /** The cursor once the instruction at the PC was executed; it stays when there is none. */
  ghost function CursorAfter(program: map<int, Word>, rs: RefState): int
    requires Consistent(rs.ts)
  {
    if Next(program, rs.ts, true).Err? then rs.at
    else
      DecodedIsExact(program[rs.ts.arch.expectedPc]);
      var i := Disassemble(DecodeChecked(program[rs.ts.arch.expectedPc]).value);
      rs.at + Displacement(rs.ts.arch, rs.at, i)
  }

  lemma CursorAfterIsSynced(program: map<int, Word>, rs: RefState)
    requires Consistent(rs.ts) && Synced(rs)
    ensures match Next(program, rs.ts, true)
            case Ok((ts, _)) => Synced(RefState(ts, CursorAfter(program, rs)))
            case Err(_) => CursorAfter(program, rs) == rs.at
  {
    hide DecodeChecked, Disassemble, Legal, Displacement, ExpectationFor, Redirects, NextPc, FetchPc;
    if Next(program, rs.ts, true).Ok? {
      var w := program[rs.ts.arch.expectedPc];
      DecodedIsExact(w);
      StepStaysSynced(rs.ts.arch, rs.at, Disassemble(DecodeChecked(w).value));
    }
  }

  // ---------------------------------------------------------------------
  // A resident window of the image
  // ---------------------------------------------------------------------

  /** The logical word in the window from `release` on that a physical PC holds. */
  function OwnerOf(pc: int, release: int): int {
    release + (pc / 4 - release) % IMEM_WORD_CAPACITY
  }

  lemma OwnerIsUnique(logical: nat, release: nat)
    requires release <= logical < release + IMEM_WORD_CAPACITY
    ensures OwnerOf(PhysicalPc(logical), release) == logical
  {
    var q, r := logical / IMEM_WORD_CAPACITY, logical % IMEM_WORD_CAPACITY;
    QuotientIs(PhysicalPc(logical), 4, r, 0);
    QuotientIs(r - release, IMEM_WORD_CAPACITY, -q, logical - release);
  }

  lemma OwnerHasPc(pc: int, release: nat)
    requires 0 <= pc < FETCH_SPACE && pc % 4 == 0
    ensures release <= OwnerOf(pc, release) < release + IMEM_WORD_CAPACITY
    ensures PhysicalPc(OwnerOf(pc, release)) == pc
  {
    var k := (pc / 4 - release) / IMEM_WORD_CAPACITY;
    QuotientIs(OwnerOf(pc, release), IMEM_WORD_CAPACITY, -k, pc / 4);
  }

  /** The physical program holds exactly the words from `release` to the end of the image. */
  ghost predicate Holding(program: map<int, Word>, image: seq<Word>, release: nat) {
    && release <= |image| <= release + IMEM_WORD_CAPACITY
    && (forall pc | pc in program ::
          && 0 <= pc < FETCH_SPACE && pc % 4 == 0 && release <= OwnerOf(pc, release) < |image|
          && program[pc] == image[OwnerOf(pc, release)])
    && forall k | release <= k < |image| :: PhysicalPc(k) in program
  }

  /** The PC of an aligned cursor in the window is the slot of its word. */
  lemma CursorSlot(at: int)
    requires at >= 0
    ensures at % 4 == 0 ==> at % FETCH_SPACE == PhysicalPc(at / 4)
    ensures at % FETCH_SPACE % 4 == at % 4
  {
    var q, r := at / FETCH_SPACE, at % FETCH_SPACE;
    var q', r' := r / 4, r % 4;
    QuotientIs(at, 4, q * IMEM_WORD_CAPACITY + q', r');
    QuotientIs(at / 4, IMEM_WORD_CAPACITY, q, q');
  }

  /** Within the window the physical program answers as the image does, also where neither has a word. */
  lemma SameFetch(program: map<int, Word>, image: seq<Word>, release: nat, at: int)
    requires Holding(program, image, release) && release * 4 <= at < (release + IMEM_WORD_CAPACITY) * 4
    ensures Fetch(image, at) == if at % FETCH_SPACE in program then Some(program[at % FETCH_SPACE]) else None
  {
    hide OwnerOf, PhysicalPc;
    CursorSlot(at);
    if at % 4 == 0 {
      var k := at / 4;
      OwnerIsUnique(k, release);
      assert at % FETCH_SPACE == PhysicalPc(k);
    }
  }

  /** Within the window one step of the wrapping oracle is one step over the image. */
  lemma WindowStep(program: map<int, Word>, image: seq<Word>, release: nat, rs: RefState)
    requires Consistent(rs.ts) && Synced(rs) && Holding(program, image, release)
    requires release * 4 <= rs.at < (release + IMEM_WORD_CAPACITY) * 4
    ensures match RefNext(image, rs)
            case Ok((rs', e)) =>
              Next(program, rs.ts, true) == Ok((rs'.ts, e)) && Synced(rs') && CursorAfter(program, rs) == rs'.at
            case Err(x) => Next(program, rs.ts, true) == Err(x)
  {
    hide DecodeChecked, Disassemble, Legal, Displacement, ExpectationFor, StateAfter, Fetch, Holding;
    SameFetch(program, image, release, rs.at);
    RefNextStaysSynced(image, rs);
  }
}

/**
 The bounded oracle: 128 physical slots with logical owners, appended at one
 end of the image and released at the other.
 */
module WrapAwareOracle {
  import opened Wrappers
  import opened Digits
  import opened Rv32Isa
  import opened ArchitecturalModel
  import opened TimingOracle
  import opened StreamPlan
  import opened UnboundedProgram

  datatype WindowError =
    | EmptyExtension | BadPhysicalPc | NegativeIndex | AppendOrder | FragmentTooLong | FragmentMismatch | LiveSlot
    | BadCount | ReleaseOrder | NotResident

  /** The program, the owner of each slot and the words by logical index describe one window of the image. */
  ghost predicate Resident(program: map<int, Word>, owner: map<int, int>, words: map<int, Word>,
                           image: seq<Word>, release: nat)
  {
    && Holding(program, image, release)
    && owner.Keys == program.Keys && (forall pc | pc in owner :: owner[pc] == OwnerOf(pc, release))
    && forall k :: (k in words <==> release <= k < |image|) && (k in words ==> words[k] == image[k])
  }

  lemma OwnerAfterRelease(pc: int, release: nat)
    requires 0 <= pc < FETCH_SPACE && pc % 4 == 0
    ensures pc != PhysicalPc(release) ==> OwnerOf(pc, release + 1) == OwnerOf(pc, release)
    ensures pc == PhysicalPc(release) ==> OwnerOf(pc, release + 1) == release + IMEM_WORD_CAPACITY
  {
    OwnerHasPc(pc, release);
    var o := OwnerOf(pc, release);
    if o > release {
      OwnerIsUnique(o, release + 1);
    } else {
      var q, r := release / IMEM_WORD_CAPACITY, release % IMEM_WORD_CAPACITY;
      QuotientIs(release + IMEM_WORD_CAPACITY, IMEM_WORD_CAPACITY, q + 1, r);
      assert PhysicalPc(release + IMEM_WORD_CAPACITY) == PhysicalPc(release);
      OwnerIsUnique(release + IMEM_WORD_CAPACITY, release + 1);
    }
  }

  /** A slot is free exactly when its next word would still fit. */
  lemma SlotIsFree(program: map<int, Word>, owner: map<int, int>, words: map<int, Word>,
                   image: seq<Word>, release: nat, logical: nat)
    requires Resident(program, owner, words, image, release)
    requires |image| <= logical < |image| + IMEM_WORD_CAPACITY
    ensures PhysicalPc(logical) !in owner <==> logical < release + IMEM_WORD_CAPACITY
  {
    hide OwnerOf, PhysicalPc;
    if logical < release + IMEM_WORD_CAPACITY {
      OwnerIsUnique(logical, release);
    } else {
      var k := logical - IMEM_WORD_CAPACITY;
      NextLap(k);
      assert PhysicalPc(k) in program;
    }
  }

  lemma NextLap(k: nat)
    ensures PhysicalPc(k + IMEM_WORD_CAPACITY) == PhysicalPc(k)
  {
    QuotientIs(k + IMEM_WORD_CAPACITY, IMEM_WORD_CAPACITY, k / IMEM_WORD_CAPACITY + 1, k % IMEM_WORD_CAPACITY);
  }

  lemma AppendOne(program: map<int, Word>, owner: map<int, int>, words: map<int, Word>,
                  image: seq<Word>, release: nat, w: Word)
    requires Resident(program, owner, words, image, release) && |image| < release + IMEM_WORD_CAPACITY
    ensures var k := |image|;
            Resident(program[PhysicalPc(k) := w], owner[PhysicalPc(k) := k], words[k := w], image + [w], release)
  {
    hide OwnerOf, PhysicalPc;
    OwnerIsUnique(|image|, release);
  }

  lemma ReleaseOne(program: map<int, Word>, owner: map<int, int>, words: map<int, Word>,
                   image: seq<Word>, release: nat)
    requires Resident(program, owner, words, image, release) && release < |image|
    ensures release in words && PhysicalPc(release) in program && PhysicalPc(release) in owner
    ensures owner[PhysicalPc(release)] == release && program[PhysicalPc(release)] == words[release]
    ensures Resident(program - {PhysicalPc(release)}, owner - {PhysicalPc(release)}, words - {release},
                     image, release + 1)
  {
    hide OwnerOf, PhysicalPc;
    OwnerIsUnique(release, release);
    forall pc | pc in program
      ensures pc != PhysicalPc(release) ==>
                OwnerOf(pc, release + 1) == OwnerOf(pc, release) && OwnerOf(pc, release) != release
    {
      OwnerAfterRelease(pc, release);
      OwnerHasPc(pc, release);
    }
    forall k | release < k < |image|
      ensures PhysicalPc(k) != PhysicalPc(release)
    {
      OwnerIsUnique(k, release);
    }
  }

  /** The slots of n consecutive logical words. */
  function SlotsOf(first: nat, n: nat): set<int> {
    set k | first <= k < first + n :: PhysicalPc(k)
  }

  /** Up to 128 consecutive words never share a slot. */
  lemma {:induction false} SlotsAreDistinct(first: nat, n: nat)
    requires n <= IMEM_WORD_CAPACITY
    ensures |SlotsOf(first, n)| == n
  {
    hide PhysicalPc, OwnerOf;
    if n > 0 {
      SlotsAreDistinct(first, n - 1);
      var last := first + n - 1;
      assert SlotsOf(first, n) == SlotsOf(first, n - 1) + {PhysicalPc(last)};
      forall k | first <= k < last
        ensures PhysicalPc(k) != PhysicalPc(last)
      {
        OwnerIsUnique(k, first);
        OwnerIsUnique(last, first);
      }
    }
  }

  /** At most 128 words are resident, one a slot. */
  lemma ResidentCount(program: map<int, Word>, owner: map<int, int>, words: map<int, Word>,
                      image: seq<Word>, release: nat)
    requires Resident(program, owner, words, image, release)
    ensures |program| == |image| - release <= IMEM_WORD_CAPACITY
  {
    hide PhysicalPc, OwnerOf;
    var n := |image| - release;
    forall pc | pc in program
      ensures pc in SlotsOf(release, n)
    {
      OwnerHasPc(pc, release);
    }
    assert program.Keys == SlotsOf(release, n);
    SlotsAreDistinct(release, n);
  }

  /** A fragment in logical order; it may cross the end of the window. */
  function InOrder(words: map<int, Word>, first: nat, n: nat): (s: seq<Word>)
    requires SlotsOf(first, n) <= words.Keys
    ensures |s| == n
  {
    seq(n, k requires 0 <= k < n => assert PhysicalPc(first + k) in SlotsOf(first, n); words[PhysicalPc(first + k)])
  }

  /** _validate_fragment: exactly the slots of consecutive words, without aliasing. */
  predicate FragmentFits(first: nat, words: map<int, Word>) {
    |words| <= IMEM_WORD_CAPACITY && words.Keys == SlotsOf(first, |words|)
  }

  predicate PhysicalPcs(words: map<int, Word>) {
    forall pc | pc in words :: 0 <= pc <= 508 && pc % 4 == 0
  }

  method ValidateFragment(first: nat, words: map<int, Word>) returns (error: Option<WindowError>)
    ensures error.None? <==> FragmentFits(first, words)
    ensures error.Some? ==> error.value == (if |words| > IMEM_WORD_CAPACITY then FragmentTooLong else FragmentMismatch)
  {
    if |words| > IMEM_WORD_CAPACITY {
      return Some(FragmentTooLong);
    }
    var expected := SlotsOf(first, |words|);
    // the slots of one fragment never alias
    SlotsAreDistinct(first, |words|);
    assert |expected| == |words|;
    if words.Keys != expected {
      return Some(FragmentMismatch);
    }
    error := None;
  }

  class Oracle {
    const core: StreamingOracle
    var owner: map<int, int>
    var words: map<int, Word>
    var nextAppend: nat
    var nextRelease: nat
    /** The unbounded program so far and the cursor on it. */
    ghost var image: seq<Word>
    ghost var at: int

    ghost predicate Valid()
      reads this, core, core.model
    {
      && core.Valid() && core.model.wrap
      && Resident(core.program, owner, words, image, nextRelease)
      && nextAppend == |image| && Synced(Ref())
    }

    ghost function Ref(): RefState
      reads this, core, core.model
    {
      RefState(core.View(), at)
    }

    /** The cursor is on a word that was not released, less than a lap ahead. */
    ghost predicate InWindow()
      reads this
    {
      nextRelease * 4 <= at < (nextRelease + IMEM_WORD_CAPACITY) * 4
    }

    constructor (program: map<int, Word>)
      requires |program| > 0 && FragmentFits(0, program)
      ensures Valid() && fresh(core) && fresh(core.model) && InWindow()
      ensures nextRelease == 0 && at == 0 && image == InOrder(program, 0, |program|)
      ensures IsInitial(core.View())
    {
      hide PhysicalPc, OwnerOf, Resident, Holding, SlotsOf, Consistent;
      FragmentStartsAtZero(program);
      FirstResident(program);
      core := new StreamingOracle(program, true);
      nextAppend := |program|;
      nextRelease := 0;
      at := 0;
      image := InOrder(program, 0, |program|);
      owner := map pc | pc in program :: pc / 4;
      words := map k | 0 <= k < |program| :: program[k * 4];
    }

    /** Appends a fragment after all of it was checked; on an error nothing changes. */
    method AppendProgram(fragment: map<int, Word>, first: int) returns (r: Result<(), WindowError>)
      requires Valid()
      modifies `owner, `words, `image, `nextAppend, core`program
      ensures Valid()
      ensures r.Ok? <==>
                && fragment != map[] && PhysicalPcs(fragment) && first == old(nextAppend)
                && FragmentFits(old(nextAppend), fragment)
                && old(nextAppend) + |fragment| <= old(nextRelease) + IMEM_WORD_CAPACITY
      ensures r.Ok? ==> image == old(image) + InOrder(fragment, old(nextAppend), |fragment|)
      ensures r.Err? ==> unchanged(this) && unchanged(core)
    {
      hide Holding, Resident, OwnerOf, PhysicalPc, Synced, Consistent;
      if !PhysicalPcs(fragment) {
        return Err(BadPhysicalPc);
      }
      if |fragment| == 0 {
        return Err(EmptyExtension);
      }
      if first < 0 {
        return Err(NegativeIndex);
      }
      if first != nextAppend {
        return Err(AppendOrder);
      }
      var problem := ValidateFragment(first, fragment);
      if problem.Some? {
        return Err(problem.value);
      }
      var n := |fragment|;
      ghost var ordered := InOrder(fragment, nextAppend, n);
      var additions: seq<(int, int, Word)> := [];
      for k := 0 to n
        modifies {}
        invariant |additions| == k
        invariant forall j | 0 <= j < k :: additions[j] == (first + j, PhysicalPc(first + j), ordered[j])
        invariant k > 0 ==> nextAppend + k <= nextRelease + IMEM_WORD_CAPACITY
      {
        var pc := PhysicalPc(first + k);
        SlotIsFree(core.program, owner, words, image, nextRelease, first + k);
        if pc in owner {
          return Err(LiveSlot);
        }
        assert pc in SlotsOf(first, n);
        additions := additions + [(first + k, pc, fragment[pc])];
      }
      // free slots are enough: the capacity check that follows never fails
      ResidentCount(core.program, owner, words, image, nextRelease);
      assert |core.program| + |additions| <= IMEM_WORD_CAPACITY;
      ghost var before := image;
      for k := 0 to n
        modifies `owner, `words, `image, core`program
        invariant image == before + ordered[..k]
        invariant Resident(core.program, owner, words, image, nextRelease)
      {
        AppendOne(core.program, owner, words, image, nextRelease, ordered[k]);
        var (logical, pc, w) := additions[k];
        core.program := core.program[pc := w];
        owner := owner[pc := logical];
        words := words[logical := w];
        image := image + [w];
      }
      nextAppend := nextAppend + n;
      r := Ok(());
    }

    /** Frees the oldest words, of which none was corrupted; on an error nothing changes. */
    method ReleaseLogicalWords(first: int, count: int) returns (r: Result<(), WindowError>)
      requires Valid()
      modifies `owner, `words, `nextRelease, core`program
      ensures Valid()
      ensures r.Ok? <==> count > 0 && first == old(nextRelease) && old(nextRelease) + count <= nextAppend
      ensures r.Ok? ==> nextRelease == old(nextRelease) + count
      ensures r.Err? ==> unchanged(this) && unchanged(core)
    {
      hide Holding, Resident, OwnerOf, PhysicalPc, Synced, Consistent;
      if first < 0 {
        return Err(NegativeIndex);
      }
      if count <= 0 {
        return Err(BadCount);
      }
      if first != nextRelease {
        return Err(ReleaseOrder);
      }
      ResidentCount(core.program, owner, words, image, nextRelease);
      var releases: seq<(int, int)> := [];
      for k := 0 to count
        modifies {}
        invariant |releases| == k && first + k <= nextAppend
        invariant forall j | 0 <= j < k :: releases[j] == (first + j, PhysicalPc(first + j))
      {
        WordsOf(core.program, owner, words, image, nextRelease, first + k);
        if first + k !in words {
          return Err(NotResident);
        }
        var pc := PhysicalPc(first + k);
        // neither the owner nor the word of a resident slot can be corrupted
        assert pc in owner && owner[pc] == first + k;
        assert pc in core.program && core.program[pc] == words[first + k];
        releases := releases + [(first + k, pc)];
      }
      for k := 0 to count
        modifies `owner, `words, core`program
        invariant Resident(core.program, owner, words, image, first + k)
      {
        ReleaseOne(core.program, owner, words, image, first + k);
        var (logical, pc) := releases[k];
        core.program := core.program - {pc};
        owner := owner - {pc};
        words := words - {logical};
      }
      nextRelease := nextRelease + count;
      r := Ok(());
    }

    /**
     The inherited step. With the cursor in the window it is the step over the
     unbounded image, so it also fails exactly where that step fails.
     */
    method NextExpectation() returns (r: Result<Expectation, TimingError>)
      requires Valid()
      modifies `at, core, core.model
      ensures Valid()
      ensures match Next(old(core.program), old(core.View()), true)
              case Ok((ts, e)) => r == Ok(e) && core.View() == ts
              case Err(x) => r == Err(x) && core.View() == old(core.View())
      ensures old(InWindow()) ==>
                match RefNext(image, old(Ref()))
                case Ok((rs, e)) => r == Ok(e) && Ref() == rs
                case Err(x) => r == Err(x) && Ref() == old(Ref())
    {
      hide Next, RefNext, Holding, OwnerOf, PhysicalPc, Consistent, Synced;
      ghost var before := Ref();
      if InWindow() {
        WindowStep(core.program, image, nextRelease, before);
      }
      CursorAfterIsSynced(core.program, before);
      ghost var resident := core.program;
      r := core.NextExpectation();
      at := CursorAfter(resident, before);
    }
  }

  lemma WordsOf(program: map<int, Word>, owner: map<int, int>, words: map<int, Word>,
                image: seq<Word>, release: nat, k: int)
    requires Resident(program, owner, words, image, release) && k >= release
    ensures k in words <==> k < |image|
    ensures k in words ==>
              && PhysicalPc(k) in owner && owner[PhysicalPc(k)] == k
              && PhysicalPc(k) in program && program[PhysicalPc(k)] == words[k]
  {
    hide OwnerOf, PhysicalPc;
    if k < |image| {
      OwnerIsUnique(k, release);
    }
  }

  lemma FirstLap(k: nat)
    requires k < IMEM_WORD_CAPACITY
    ensures PhysicalPc(k) == k * 4 && OwnerOf(k * 4, 0) == k
  {
    OwnerIsUnique(k, 0);
  }

  lemma FragmentStartsAtZero(program: map<int, Word>)
    requires |program| > 0 && FragmentFits(0, program)
    ensures WellFormedProgram(program)
    ensures forall k | 0 <= k < |program| :: k * 4 in program && PhysicalPc(k) == k * 4
    ensures forall pc | pc in program :: 0 <= pc < FETCH_SPACE && pc % 4 == 0 && OwnerOf(pc, 0) == pc / 4 < |program|
  {
    hide PhysicalPc, OwnerOf;
    forall k: nat | k < |program|
      ensures PhysicalPc(k) == k * 4 && k * 4 in program && OwnerOf(k * 4, 0) == k
    {
      FirstLap(k);
      assert PhysicalPc(k) in SlotsOf(0, |program|);
    }
    assert 0 * 4 in program;
    forall pc | pc in program
      ensures 0 <= pc < FETCH_SPACE && pc % 4 == 0 && OwnerOf(pc, 0) == pc / 4 < |program|
    {
      var k: nat :| k < |program| && pc == PhysicalPc(k);
    }
  }

  lemma FirstResident(program: map<int, Word>)
    requires |program| > 0 && FragmentFits(0, program)
    ensures forall k | 0 <= k < |program| :: k * 4 in program
    ensures Resident(program, map pc | pc in program :: pc / 4,
                     map k | 0 <= k < |program| :: program[k * 4], InOrder(program, 0, |program|), 0)
  {
    hide PhysicalPc, OwnerOf, SlotsOf;
    FragmentStartsAtZero(program);
    var image := InOrder(program, 0, |program|);
    assert forall k | 0 <= k < |program| :: image[k] == program[k * 4];
  }
}
