/** Planned stream entries, their provenance, and what executing them means. */
module StreamPlan {
  import opened Wrappers
  import opened Rv32Isa
  import opened ArmsAndTargets
  import opened FillerPolicy
  import opened TemplateRealizer

  const IMEM_WORD_CAPACITY := 128
  const MAX_STREAM_BLOCK_WORDS := 5

  /** The physical byte PC of a logical program word. */
  function PhysicalPc(logical: nat): (pc: nat)
    ensures pc < 512 && pc % 4 == 0
  {
    logical % IMEM_WORD_CAPACITY * 4
  }

  /** Branch not taken on x0: one executed instruction that reads and writes nothing. */
  const DELIMITER := Branch(Ne, 0, 0, 4)

  /** Exact provenance of one intended dependency, in executed instruction indices. */
  datatype Witness = Witness(arm: Arm, id: nat, distance: int, register: Reg, producer: int, consumer: int)

  datatype Key = Key(distance: int, register: Reg, producer: int, consumer: int)

  function KeyOf(w: Witness): Key {
    Key(w.distance, w.register, w.producer, w.consumer)
  }

  function KeysOf(ws: seq<Witness>): (keys: seq<Key>)
    ensures |keys| == |ws|
  {
    seq(|ws|, k requires 0 <= k < |ws| => KeyOf(ws[k]))
  }

  /** The position of a word among the executed ones. */
  function PositionOf(executed: seq<nat>, word: nat): (p: Option<nat>)
    ensures p.Some? ==> p.value < |executed| && executed[p.value] == word
    ensures p.None? ==> word !in executed
  {
    if executed == [] then None
    else if executed[|executed| - 1] == word then Some(|executed| - 1)
    else PositionOf(executed[..|executed| - 1], word)
  }

  /** One witness, if the producer is executed at the declared distance before the consumer. */
  function WitnessAt(t: Template, id: nat, first: nat, distance: int, register: Option<Reg>, producer: nat)
    : Option<Witness>
  {
    var p, c := PositionOf(t.executed, producer), PositionOf(t.executed, t.consumer);
    if register.None? || p.None? || c.None? || c.value - p.value != distance || !IsPositive(register.value) then None
    else Some(Witness(t.arm, id, distance, register.value, first + p.value, first + c.value))
  }

  /** The intended dependencies of one template: two for A4, one for every other arm. */
  function BuildWitnesses(t: Template, id: nat, first: nat): Option<seq<Witness>> {
    var d1 := if t.d1Producer.Some? then WitnessAt(t, id, first, 1, t.target.d1, t.d1Producer.value) else None;
    var d2 := if t.d2Producer.Some? then WitnessAt(t, id, first, 2, t.target.d2, t.d2Producer.value) else None;
    if (t.d1Producer.Some? && d1.None?) || (t.d2Producer.Some? && d2.None?) then None
    else
      var ws := (if d1.Some? then [d1.value] else []) + (if d2.Some? then [d2.value] else []);
      if |ws| != (if t.arm == A4 then 2 else 1) then None else Some(ws)
  }

  /** An epoch-boundary delimiter, or a template with the fillers due after it. */
  datatype Entry =
    | Delimiter(epoch: nat, start: nat, first: nat)
    | Block(id: nat, start: nat, first: nat, template: Template, fillers: seq<Instr>, provenance: seq<Witness>)
  {
    function Code(): seq<Instr> {
      if Delimiter? then [DELIMITER] else template.code + fillers
    }

    function WordCount(): nat {
      |Code()|
    }

    /** The offsets of the words that are executed; the flushed words of a jump are absent. */
    function Offsets(): seq<nat> {
      if Delimiter? then [0] else template.executed + FillerOffsets(|template.code|, |fillers|)
    }

    function ExecutedCount(): nat {
      |Offsets()|
    }

    function End(): nat {
      start + WordCount()
    }

    function Witnesses(): seq<Witness> {
      if Delimiter? then [] else provenance
    }
  }

  function FillerOffsets(base: nat, count: nat): (o: seq<nat>)
    ensures |o| == count && forall k | 0 <= k < count :: o[k] == base + k
  {
    seq(count, k requires 0 <= k < count => base + k)
  }

  function PositiveTargets(t: Target): set<int> {
    (if t.d1.Some? then {t.d1.value as int} else {}) + (if t.d2.Some? then {t.d2.value as int} else {})
  }

  lemma BackgroundFillerExists(t: Target)
    ensures FillerInstr(PositiveTargets(t)).Some?
  {
    var a: int, b: int := if t.d1.Some? then t.d1.value else 0, if t.d2.Some? then t.d2.value else 0;
    AuxiliaryExists(a, b, 0, 0);
    if t.d1.Some? && t.d2.Some? {
      assert PositiveTargets(t) == {a, b};
    } else if t.d1.Some? {
      assert PositiveTargets(t) == {a};
    } else if t.d2.Some? {
      AuxiliaryExists(b, b, 0, 0);
      assert PositiveTargets(t) == {b};
    } else {
      assert 1 !in PositiveTargets(t);
    }
  }

  /** What the planner builds at the given place for some legal choice of variant. */
  ghost predicate Planned(e: Entry) {
    match e
    case Delimiter(_, _, _) => true
    case Block(id, start, first, t, fillers, ws) =>
      && t.target.Valid() && LegalVariant(t.arm, PhysicalPc(start), t.variant)
      && Realize(t.arm, t.target, t.variant, PhysicalPc(start)) == Ok(t)
      && |fillers| <= 1 && (forall f | f in fillers :: Some(f) == FillerInstr(PositiveTargets(t.target)))
      && BuildWitnesses(t, id, first) == Some(ws)
  }

  /** Entries follow one another in the image and in execution order. */
  ghost predicate Contiguous(es: seq<Entry>) {
    forall k | 0 < k < |es| :: Follows(es[k - 1], es[k])
  }

  predicate Follows(e: Entry, next: Entry) {
    next.start == e.End() && next.first == e.first + e.ExecutedCount()
  }

  // ---------------------------------------------------------------------
  // Executed instructions
  // ---------------------------------------------------------------------

  /** Instruction number `index`, fetched from logical word `at`. */
  datatype Exec = Exec(at: nat, index: nat, instr: Instr)

  predicate OffsetsInImage(e: Entry) {
    forall k | 0 <= k < e.ExecutedCount() :: e.Offsets()[k] < e.WordCount()
  }

  function ExecOf(e: Entry): (xs: seq<Exec>)
    requires OffsetsInImage(e)
    ensures |xs| == e.ExecutedCount()
  {
    seq(e.ExecutedCount(), k requires 0 <= k < e.ExecutedCount() =>
      Exec(e.start + e.Offsets()[k], e.first + k, e.Code()[e.Offsets()[k]]))
  }

  /** Every planned entry has a legal image of at most five words and executes some of them. */
  lemma PlannedShape(e: Entry)
    requires Planned(e)
    ensures 1 <= e.ExecutedCount() <= e.WordCount() <= MAX_STREAM_BLOCK_WORDS && OffsetsInImage(e)
    ensures forall i | i in e.Code() :: Legal(i)
  {
    if e.Block? {
      assert e.template.executed == [0, 1] || e.template.executed == [0, 1, 2] || e.template.executed == [0, 3];
      assert |e.template.executed| <= |e.template.code|;
    } else {
      assert Legal(DELIMITER);
    }
  }

  // ---------------------------------------------------------------------
  // Control flow: each executed word leads to the next
  // ---------------------------------------------------------------------

  /** Instructions that always fall through, whatever the registers hold. */
  predicate Sequential(i: Instr) {
    i.Add? || i.Addi? || i.Lw? || i.Sw? || i.Lui? || i.Auipc? || (i.Branch? && i.cond == Ne && i.rs1 == i.rs2)
  }

  /** From any register contents, executing i at logical word `at` continues at logical word `next`. */
  predicate Flows(i: Instr, at: nat, next: nat) {
    || (Sequential(i) && next == at + 1)
    || (i.Jal? && next == at + 3 && i.offset == 12)
    || (i.Jalr? && next == at + 3 && i.rs1 == 0 && i.imm == PhysicalPc(at) + 12)
  }

  ghost predicate FlowsThrough(xs: seq<Exec>, end: nat) {
    forall k | 0 <= k < |xs| :: Flows(xs[k].instr, xs[k].at, NextAt(xs, k, end))
  }

  function NextAt(xs: seq<Exec>, k: nat, end: nat): nat {
    if k + 1 < |xs| then xs[k + 1].at else end
  }

  /** A template's executed words lead one to the next and out of its image. */
  ghost predicate TemplateFlows(t: Template, start: nat) {
    forall k | 0 <= k < |t.executed| ::
      && t.executed[k] < |t.code|
      && Flows(t.code[t.executed[k]], start + t.executed[k],
               start + (if k + 1 < |t.executed| then t.executed[k + 1] else |t.code|))
  }

  ghost predicate RealizedAt(t: Template, start: nat) {
    && t.target.Valid() && LegalVariant(t.arm, PhysicalPc(start), t.variant)
    && Realize(t.arm, t.target, t.variant, PhysicalPc(start)) == Ok(t)
  }

  lemma LinkShape(t: Template, start: nat)
    requires RealizedAt(t, start) && t.arm == A7
    ensures t.executed == [0, 3] && |t.code| == 4 && t.target.d1.Some? && Sequential(t.code[3])
    ensures t.code[0] == LinkProducer(t.variant, t.target.d1.value, PhysicalPc(start))
  {
    hide PhysicalPc, Legal;
  }

  lemma LinkFlows(t: Template, start: nat)
    requires RealizedAt(t, start) && t.arm == A7
    ensures t.executed == [0, 3] && |t.code| == 4 && TemplateFlows(t, start)
  {
    hide PhysicalPc, RealizedAt;
    LinkShape(t, start);
    assert Flows(t.code[0], start, start + 3) && Flows(t.code[3], start + 3, start + 4);
  }

  lemma StraightFlows(t: Template, start: nat)
    requires RealizedAt(t, start) && t.arm != A7
    ensures t.executed == (if |t.code| == 2 then [0, 1] else [0, 1, 2]) && 2 <= |t.code| <= 3
    ensures forall i | i in t.code :: Sequential(i)
  {
    hide PhysicalPc, Legal;
  }

  lemma RealizedFlows(t: Template, start: nat)
    requires RealizedAt(t, start)
    ensures TemplateFlows(t, start) && |t.executed| >= 2 && t.executed[0] == 0
  {
    hide RealizedAt, PhysicalPc;
    if t.arm == A7 {
      LinkFlows(t, start);
    } else {
      StraightFlows(t, start);
    }
  }

  /** The k-th executed word and where it stands. */
  lemma ExecAt(e: Entry, k: nat)
    requires OffsetsInImage(e) && k < e.ExecutedCount()
    ensures var x, o := ExecOf(e)[k], e.Offsets()[k];
            x.at == e.start + o < e.End() && x.index == e.first + k && x.instr == e.Code()[o]
  {
  }

  lemma WordFlows(e: Entry, k: nat)
    requires e.Block? && OffsetsInImage(e) && k < e.ExecutedCount() && TemplateFlows(e.template, e.start)
    requires |e.fillers| <= 1 && forall f | f in e.fillers :: Sequential(f)
    ensures Flows(ExecOf(e)[k].instr, ExecOf(e)[k].at, NextAt(ExecOf(e), k, e.End()))
  {
    hide ExecOf, OffsetsInImage, TemplateFlows;
    ExecAt(e, k);
    if k + 1 < e.ExecutedCount() {
      ExecAt(e, k + 1);
    }
    if k < |e.template.executed| {
      TemplateWordFlows(e.template, e.start, k);
    } else {
      assert e.fillers[0] in e.fillers;
    }
  }

  lemma TemplateWordFlows(t: Template, start: nat, k: nat)
    requires TemplateFlows(t, start) && k < |t.executed|
    ensures t.executed[k] < |t.code|
    ensures Flows(t.code[t.executed[k]], start + t.executed[k],
                  start + if k + 1 < |t.executed| then t.executed[k + 1] else |t.code|)
  {
    hide Flows;
  }

  lemma FillersFallThrough(e: Entry)
    requires Planned(e) && e.Block?
    ensures |e.fillers| <= 1 && forall f | f in e.fillers :: Sequential(f)
  {
    hide Realize, PhysicalPc, LegalVariant, BuildWitnesses, PositiveTargets;
  }

  lemma PlannedFlows(e: Entry)
    requires Planned(e)
    ensures OffsetsInImage(e) && ExecOf(e) != [] && ExecOf(e)[0].at == e.start
    ensures FlowsThrough(ExecOf(e), e.End())
  {
    hide Realize, PhysicalPc, Legal, LegalVariant, OffsetsInImage, ExecOf, Flows, TemplateFlows, BuildWitnesses, FillerInstr;
    PlannedShape(e);
    ExecAt(e, 0);
    if e.Block? {
      RealizedFlows(e.template, e.start);
      assert e.Offsets()[0] == e.template.executed[0];
      FillersFallThrough(e);
      forall k | 0 <= k < e.ExecutedCount()
        ensures Flows(ExecOf(e)[k].instr, ExecOf(e)[k].at, NextAt(ExecOf(e), k, e.End()))
      {
        WordFlows(e, k);
      }
    } else {
      DelimiterFlows(e);
    }
  }

  lemma DelimiterFlows(e: Entry)
    requires e.Delimiter? && OffsetsInImage(e)
    ensures FlowsThrough(ExecOf(e), e.End())
  {
    assert ExecOf(e) == [Exec(e.start, e.first, DELIMITER)];
  }
}
