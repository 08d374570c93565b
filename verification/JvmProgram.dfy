/** The generated class as a whole: its match method answers whether the pattern matches. */
module JvmProgram {
  import opened Labels
  import opened ByrdIr
  import opened Jvm
  import opened JvmEmitter
  import opened Lowering
  import opened LoweringProof
  import opened LoweredProgram
  import Denotation
  import Runs

  // ----- slots of a lowered node -----

  function SlotsOf(node: Node, a: Label, k: nat): set<TmpLabel> {
    match node
    case Seq(l, r) => var p := SeqPortsOf(a, k); SlotsOf(l, p.la, k + 4) + SlotsOf(r, p.ra, Next(l, k + 4))
    case Alt(l, r) => var p := AltPortsOf(a, k); {p.slot} + SlotsOf(l, p.la, k + 7) + SlotsOf(r, p.ra, Next(l, k + 7))
    case _ => {}
  }

  predicate OwnedApart(slots: set<TmpLabel>, lo: nat, hi: nat) {
    && (forall t :: t in slots ==> Owned(t, lo, hi))
    && (forall t, t' :: t in slots && t' in slots && Serial(t) == Serial(t') ==> t == t')
  }

  lemma OwnedApartUnion(x: set<TmpLabel>, y: set<TmpLabel>, lo: nat, mid: nat, hi: nat)
    requires OwnedApart(x, lo, mid) && OwnedApart(y, mid, hi) && lo <= mid <= hi
    ensures OwnedApart(x + y, lo, hi)
  {
  }

  lemma OwnedApartOne(t: TmpLabel, k: nat)
    requires Serial(t) == k + 1
    ensures OwnedApart({t}, k, k + 7)
  {
  }

  lemma OwnedApartWider(x: set<TmpLabel>, lo: nat, hi: nat, lo': nat)
    requires OwnedApart(x, lo, hi) && lo' <= lo
    ensures OwnedApart(x, lo', hi)
  {
  }

  lemma OwnedApartPair(x: set<TmpLabel>, y: set<TmpLabel>, k: nat, lo: nat, mid: nat, hi: nat)
    requires OwnedApart(x, lo, mid) && OwnedApart(y, mid, hi) && k <= lo <= mid <= hi
    ensures OwnedApart(x + y, k, hi)
  {
    OwnedApartWider(x, lo, mid, k);
    OwnedApartUnion(x, y, k, mid, hi);
  }

  lemma OwnedApartThree(t: TmpLabel, x: set<TmpLabel>, y: set<TmpLabel>, k: nat, mid: nat, hi: nat)
    requires Serial(t) == k + 1 && OwnedApart(x, k + 7, mid) && OwnedApart(y, mid, hi) && k + 7 <= mid <= hi
    ensures OwnedApart({t} + x + y, k, hi)
  {
    OwnedApartOne(t, k);
    OwnedApartUnion({t}, x, k, k + 7, mid);
    OwnedApartUnion({t} + x, y, k, mid, hi);
  }

  /** Slots have different counters. */
  lemma {:induction false} SlotsApart(node: Node, a: Label, k: nat)
    ensures OwnedApart(SlotsOf(node, a, k), k, Next(node, k))
    decreases node, 1
  {
    if node.Seq? {
      SeqSlotsApart(node, a, k);
    } else if node.Alt? {
      AltSlotsApart(node, a, k);
    }
  }

  lemma {:induction false} SeqSlotsApart(node: Node, a: Label, k: nat)
    requires node.Seq?
    ensures OwnedApart(SlotsOf(node, a, k), k, Next(node, k))
    decreases node, 0
  {
    var p, mid := SeqPortsOf(a, k), Next(node.left, k + 4);
    SlotsApart(node.left, p.la, k + 4);
    SlotsApart(node.right, p.ra, mid);
    OwnedApartPair(SlotsOf(node.left, p.la, k + 4), SlotsOf(node.right, p.ra, mid), k, k + 4, mid, Next(node, k));
  }

  lemma {:induction false} AltSlotsApart(node: Node, a: Label, k: nat)
    requires node.Alt?
    ensures OwnedApart(SlotsOf(node, a, k), k, Next(node, k))
    decreases node, 0
  {
    var p, mid := AltPortsOf(a, k), Next(node.left, k + 7);
    SlotsApart(node.left, p.la, k + 7);
    SlotsApart(node.right, p.ra, mid);
    OwnedApartThree(p.slot, SlotsOf(node.left, p.la, k + 7), SlotsOf(node.right, p.ra, mid), k, mid, Next(node, k));
  }

  /** And so different Java identifiers: renaming keeps the counters. */
  lemma {:induction false} IdentifiersApart(node: Node, a: Label, k: nat)
    ensures forall t, t' :: t in SlotsOf(node, a, k) && t' in SlotsOf(node, a, k) && JavaId(t) == JavaId(t') ==> t == t'
  {
    SlotsApart(node, a, k);
    forall t, t' | t in SlotsOf(node, a, k) && t' in SlotsOf(node, a, k) && JavaId(t) == JavaId(t') ensures t == t' {
      JavaIdKeepsSerial(t);
      JavaIdKeepsSerial(t');
    }
  }

  lemma StoresIntoParts(x: seq<Chunk>, y: seq<Chunk>, z: seq<Chunk>, slots: set<TmpLabel>)
    requires StoresInto(x, slots) && StoresInto(y, slots) && StoresInto(z, slots)
    ensures StoresInto(x + y + z, slots)
  {
  }

  lemma StoresIntoMore(x: seq<Chunk>, slots: set<TmpLabel>, more: set<TmpLabel>)
    requires StoresInto(x, slots) && slots <= more
    ensures StoresInto(x, more)
  {
  }

  lemma SeqStoresInto(p: SeqPorts, a: Label, b: Label, x: seq<Chunk>, y: seq<Chunk>, sx: set<TmpLabel>,
      sy: set<TmpLabel>)
    requires StoresInto(x, sx) && StoresInto(y, sy)
    ensures StoresInto(SeqWiring(a, b, p) + x + y, sx + sy)
  {
    StoresIntoMore(x, sx, sx + sy);
    StoresIntoMore(y, sy, sx + sy);
    StoresIntoParts(SeqWiring(a, b, p), x, y, sx + sy);
  }

  lemma AltStoresInto(p: AltPorts, a: Label, b: Label, g: Label, x: seq<Chunk>, y: seq<Chunk>, sx: set<TmpLabel>,
      sy: set<TmpLabel>)
    requires StoresInto(x, sx) && StoresInto(y, sy)
    ensures StoresInto(AltWiring(a, b, g, p) + x + y, {p.slot} + sx + sy)
  {
    var all := {p.slot} + sx + sy;
    StoresIntoMore(x, sx, all);
    StoresIntoMore(y, sy, all);
    StoresIntoParts(AltWiring(a, b, g, p), x, y, all);
  }

  lemma {:induction false} LowerStoresInto(node: Node, a: Label, b: Label, g: Label, o: Label, k: nat)
    ensures StoresInto(Lower(node, a, b, g, o, k), SlotsOf(node, a, k))
    decreases node
  {
    match node
    case Seq(l, r) =>
      var p := SeqPortsOf(a, k);
      var kr := Next(l, k + 4);
      LowerStoresInto(l, p.la, p.lb, p.ra, o, k + 4);
      LowerStoresInto(r, p.ra, p.rb, g, p.lb, kr);
      SeqStoresInto(p, a, b, Lower(l, p.la, p.lb, p.ra, o, k + 4), Lower(r, p.ra, p.rb, g, p.lb, kr),
                    SlotsOf(l, p.la, k + 4), SlotsOf(r, p.ra, kr));
    case Alt(l, r) =>
      var p := AltPortsOf(a, k);
      var kr := Next(l, k + 7);
      LowerStoresInto(l, p.la, p.lb, p.lg, p.ra, k + 7);
      LowerStoresInto(r, p.ra, p.rb, p.rg, o, kr);
      AltStoresInto(p, a, b, g, Lower(l, p.la, p.lb, p.lg, p.ra, k + 7), Lower(r, p.ra, p.rb, p.rg, o, kr),
                    SlotsOf(l, p.la, k + 7), SlotsOf(r, p.ra, kr));
    case _ =>
  }

  /** What the numbering relies on: distinct block names, slots whose Java identifiers stay
      apart, and final labels that name no block. */
  predicate WellNamed(chunks: seq<Chunk>) {
    && Distinct(chunks) && NamedApart(CollectAll(map[], chunks))
    && SUCCEED != CONCEDE && SUCCEED !in CodeOf(chunks) && CONCEDE !in CodeOf(chunks)
  }

  /** Renaming slots to Java identifiers keeps them apart, because it keeps their counters. */
  lemma RootIsWellNamed(node: Node, k: nat)
    ensures WellNamed(RootChunks(node, k))
  {
    var chunks := RootChunks(node, k);
    var tt := CollectAll(map[], chunks);
    RootNamesArePlain();
    LowerIsDistinct(node, ROOT_ALPHA, ROOT_BETA, SUCCEED, CONCEDE, k);
    NamesOfLower(node, ROOT_ALPHA, ROOT_BETA, SUCCEED, CONCEDE, k);
    var slots := SlotsOf(node, ROOT_ALPHA, k);
    LowerStoresInto(node, ROOT_ALPHA, ROOT_BETA, SUCCEED, CONCEDE, k);
    CollectAllSlots(map[], chunks, slots);
    IdentifiersApart(node, ROOT_ALPHA, k);
  }

  // ----- the program -----

  /** The cases are the blocks under an injective numbering. */
  ghost predicate Numbered(cases: seq<Case>, chunks: seq<Chunk>, ids: LabelIds) {
    && Injective(ids) && |cases| == |chunks|
    && forall i :: 0 <= i < |chunks| ==> Encodes(chunks[i], cases[i], ids, CollectAll(map[], chunks))
  }

  ghost predicate Implements(prog: JProgram, chunks: seq<Chunk>, ids: LabelIds) {
    && Numbered(prog.cases, chunks, ids)
    && ROOT_ALPHA in ids && SUCCEED in ids && CONCEDE in ids
    && prog.root == ids[ROOT_ALPHA] && prog.success == ids[SUCCEED] && prog.failure == ids[CONCEDE]
    && (forall t :: t in CollectAll(map[], chunks) ==> JavaId(t) in prog.locals && prog.locals[JavaId(t)] == -1)
  }

  lemma {:induction false} FindEncoded(chunks: seq<Chunk>, cases: seq<Case>, i: nat, ids: LabelIds, tt: Targets)
    requires |cases| == |chunks| && i < |chunks| && Distinct(chunks) && Injective(ids)
    requires forall n :: 0 <= n < |chunks| ==> Encodes(chunks[n], cases[n], ids, tt)
    ensures FindCase(cases, cases[i].id) == Denotation.Some(cases[i].stmts)
    decreases |chunks|
  {
    assert Encodes(chunks[0], cases[0], ids, tt) && Encodes(chunks[i], cases[i], ids, tt);
    if i > 0 {
      assert chunks[0].name != chunks[i].name;
      FindEncoded(chunks[1..], cases[1..], i - 1, ids, tt);
    }
  }

  /** One step: the switch takes the step of the label machine, or both stop. */
  lemma StepsAgree(cases: seq<Case>, chunks: seq<Chunk>, ids: LabelIds, subject: string, m: Machine, j: JState)
    requires Numbered(cases, chunks, ids) && WellNamed(chunks) && m.pc in CodeOf(chunks)
    requires Mirrors(m, j, ids, CollectAll(map[], chunks))
    ensures FindCase(cases, j.state).Some?
    ensures BothOrNeither(Step(CodeOf(chunks), subject, m), JBlock(subject, FindCase(cases, j.state).value, j),
                          ids, CollectAll(map[], chunks))
  {
    var tt := CollectAll(map[], chunks);
    CollectAllCovers(map[], chunks);
    var i :| 0 <= i < |chunks| && chunks[i].name == m.pc && chunks[i].insns == CodeOf(chunks)[m.pc];
    assert Encodes(chunks[i], cases[i], ids, tt);
    FindEncoded(chunks, cases, i, ids, tt);
    BlocksAgree(subject, chunks[i].insns, m, j, ids, tt);
  }

  /** One turn of the match method's loop; it leaves the loop at a final state. */
  function Turn(prog: JProgram, subject: string, j: JState): Denotation.Option<JState> {
    if j.state == prog.success || j.state == prog.failure then Denotation.None
    else
      var stmts := FindCase(prog.cases, j.state);
      if stmts.None? then Denotation.None else JBlock(subject, stmts.value, j)
  }

  /** The answer of the match method, if it has returned after `k` turns. */
  function JMatch(prog: JProgram, subject: string, j: JState, k: nat): Denotation.Option<bool>
    decreases k
  {
    if j.state == prog.success then Denotation.Some(true)
    else if j.state == prog.failure then Denotation.Some(false)
    else if k == 0 || Turn(prog, subject, j).None? then Denotation.None
    else JMatch(prog, subject, Turn(prog, subject, j).value, k - 1)
  }

  function Turns(prog: JProgram, subject: string): Runs.Stepper<JState> {
    (j: JState) => Turn(prog, subject, j)
  }

  lemma {:induction false} MatchIsRun(prog: JProgram, subject: string, j: JState, k: nat, j': JState)
    requires Runs.Run(Turns(prog, subject), j, k) == Denotation.Some(j')
    requires j'.state == prog.success || j'.state == prog.failure
    ensures JMatch(prog, subject, j, k) == Denotation.Some(j'.state == prog.success)
    decreases k
  {
    if k > 0 {
      MatchIsRun(prog, subject, Turn(prog, subject, j).value, k - 1, j');
    }
  }

  lemma {:induction false} TurnAgrees(prog: JProgram, chunks: seq<Chunk>, ids: LabelIds, subject: string, m: Machine,
                                      j: JState)
    requires Implements(prog, chunks, ids) && WellNamed(chunks) && Mirrors(m, j, ids, CollectAll(map[], chunks))
    requires Step(CodeOf(chunks), subject, m).Some?
    ensures Turn(prog, subject, j).Some?
    ensures Mirrors(Step(CodeOf(chunks), subject, m).value, Turn(prog, subject, j).value, ids,
                    CollectAll(map[], chunks))
  {
    StepsAgree(prog.cases, chunks, ids, subject, m, j);
  }

  /** Any run of the label machine that ends at a final label is answered by the switch. */
  lemma RunsAgree(prog: JProgram, chunks: seq<Chunk>, ids: LabelIds, subject: string, m: Machine, j: JState, k: nat,
                  m': Machine)
    requires Implements(prog, chunks, ids) && WellNamed(chunks)
    requires Mirrors(m, j, ids, CollectAll(map[], chunks))
    requires Runs.Run(Stepper(CodeOf(chunks), subject), m, k) == Denotation.Some(m')
    requires m'.pc == SUCCEED || m'.pc == CONCEDE
    ensures JMatch(prog, subject, j, k) == Denotation.Some(m'.pc == SUCCEED)
  {
    var before, after := Stepper(CodeOf(chunks), subject), Turns(prog, subject);
    var sim := (x: Machine, y: JState) => Mirrors(x, y, ids, CollectAll(map[], chunks));
    forall x, y | sim(x, y) && before(x).Some? ensures after(y).Some? && sim(before(x).value, after(y).value) {
      TurnAgrees(prog, chunks, ids, subject, x, y);
    }
    var j' := Runs.Lockstep(before, after, sim, m, j, k, m');
    MatchIsRun(prog, subject, j, k, j');
  }

  lemma {:induction false} CaseIsBlock(cases: seq<Case>, chunks: seq<Chunk>, ids: LabelIds, tt: Targets, l: Label)
    requires Injective(ids) && |cases| == |chunks| && l in ids && FindCase(cases, ids[l]).Some?
    requires forall i :: 0 <= i < |chunks| ==> Encodes(chunks[i], cases[i], ids, tt)
    ensures l in CodeOf(chunks)
  {
    assert Encodes(chunks[0], cases[0], ids, tt);
    if cases[0].id != ids[l] {
      CaseIsBlock(cases[1..], chunks[1..], ids, tt, l);
    }
  }

  lemma {:induction false} FinalAgrees(prog: JProgram, chunks: seq<Chunk>, ids: LabelIds, m: Machine, j: JState)
    requires Implements(prog, chunks, ids) && Mirrors(m, j, ids, CollectAll(map[], chunks))
    ensures j.state == prog.success ==> m.pc == SUCCEED
    ensures j.state == prog.failure ==> m.pc == CONCEDE
  {
  }

  /** A turn of the switch is a step of the label machine. */
  lemma {:induction false} TurnIsStep(prog: JProgram, chunks: seq<Chunk>, ids: LabelIds, subject: string, m: Machine,
                                      j: JState)
    requires Implements(prog, chunks, ids) && WellNamed(chunks) && Mirrors(m, j, ids, CollectAll(map[], chunks))
    requires Turn(prog, subject, j).Some?
    ensures Step(CodeOf(chunks), subject, m).Some?
    ensures Mirrors(Step(CodeOf(chunks), subject, m).value, Turn(prog, subject, j).value, ids,
                    CollectAll(map[], chunks))
  {
    CaseIsBlock(prog.cases, chunks, ids, CollectAll(map[], chunks), m.pc);
    StepsAgree(prog.cases, chunks, ids, subject, m, j);
  }

  /** An answer is given where the loop is left. */
  lemma {:induction false} AnswerIsRun(prog: JProgram, subject: string, j: JState, k: nat, answer: bool)
      returns (n: nat, j': JState)
    requires JMatch(prog, subject, j, k) == Denotation.Some(answer)
    ensures Runs.Run(Turns(prog, subject), j, n) == Denotation.Some(j')
    ensures j'.state == if answer then prog.success else prog.failure
    decreases k
  {
    if j.state == prog.success || j.state == prog.failure {
      n, j' := 0, j;
    } else {
      n, j' := AnswerIsRun(prog, subject, Turn(prog, subject, j).value, k - 1, answer);
      n := n + 1;
    }
  }

  /** And an answer of the switch comes from a run of the label machine to that final label. */
  lemma {:induction false} AnswersAgree(prog: JProgram, chunks: seq<Chunk>, ids: LabelIds, subject: string, m: Machine,
                                        j: JState, k: nat, answer: bool) returns (m': Machine)
    requires Implements(prog, chunks, ids) && WellNamed(chunks)
    requires Mirrors(m, j, ids, CollectAll(map[], chunks))
    requires JMatch(prog, subject, j, k) == Denotation.Some(answer)
    ensures Reaches(CodeOf(chunks), subject, m, m') && m'.pc == if answer then SUCCEED else CONCEDE
  {
    var before, after := Turns(prog, subject), Stepper(CodeOf(chunks), subject);
    var sim := (y: JState, x: Machine) => Mirrors(x, y, ids, CollectAll(map[], chunks));
    forall y, x | sim(y, x) && before(y).Some? ensures after(x).Some? && sim(before(y).value, after(x).value) {
      TurnIsStep(prog, chunks, ids, subject, x, y);
    }
    var n, j' := AnswerIsRun(prog, subject, j, k, answer);
    m' := Runs.Lockstep(before, after, sim, j, m, n, j');
    FinalAgrees(prog, chunks, ids, m', j');
  }

  // ----- the compiled pattern -----

  /** Whether the pattern matches at the start of the subject. */
  function MatchesAtStart(node: Node, subject: string): bool {
    Denotation.FirstEnd(Denotation.Ends(Denotation.Env(subject, 0, map[]), 0, Meaning(node), 0)).Some?
  }

  /** The match method, called on `subject`, returns `answer`. */
  ghost predicate Returns(prog: JProgram, subject: string, answer: bool) {
    exists k: nat :: JMatch(prog, subject, JState(prog.root, 0, prog.locals), k) == Denotation.Some(answer)
  }

  /** The match method of the generated class returns true exactly when the pattern matches
      at the start of the subject, and it does return; whatever the counter was at. */
  lemma GeneratedProgramDecides(prog: JProgram, node: Node, c: nat, ids: LabelIds, subject: string)
    requires Implements(prog, RootChunks(node, c), ids) && AsciiLits(node)
    ensures Returns(prog, subject, MatchesAtStart(node, subject))
  {
    var chunks := RootChunks(node, c);
    var m := RootReaches(node, c, subject);
    var start := Machine(ROOT_ALPHA, 0, map[]);
    var k: nat :| Runs.Run(Stepper(CodeOf(chunks), subject), start, k) == Denotation.Some(m);
    RootIsWellNamed(node, c);
    RunsAgree(prog, chunks, ids, subject, start, JState(prog.root, 0, prog.locals), k, m);
  }

  /** compile_to_java: lowers the pattern, the counter going on from where earlier patterns left
      it, and emits the class, whose match method decides every subject. */
  method CompileToJava(node: Node, counter: nat) returns (prog: JProgram, counter': nat)
    ensures counter' == Next(node, counter)
    ensures AsciiLits(node) ==> forall subject: string :: Returns(prog, subject, MatchesAtStart(node, subject))
    ensures exists ids :: Implements(prog, RootChunks(node, counter), ids)
  {
    var lowerer := new Lowerer(counter);
    lowerer.Emit(node, ROOT_ALPHA, ROOT_BETA, SUCCEED, CONCEDE);
    counter' := lowerer.counter;
    assert lowerer.out == RootChunks(node, counter);
    prog := Generate(lowerer.out);
    EverySubjectDecided(prog, node, counter);
  }

  lemma EverySubjectDecided(prog: JProgram, node: Node, c: nat)
    requires exists ids :: Implements(prog, RootChunks(node, c), ids)
    ensures AsciiLits(node) ==> forall subject: string :: Returns(prog, subject, MatchesAtStart(node, subject))
  {
    var ids :| Implements(prog, RootChunks(node, c), ids);
    if AsciiLits(node) {
      forall subject: string ensures Returns(prog, subject, MatchesAtStart(node, subject)) {
        GeneratedProgramDecides(prog, node, c, ids, subject);
      }
    }
  }

  method Generate(chunks: seq<Chunk>) returns (prog: JProgram)
    ensures exists ids :: Implements(prog, chunks, ids)
  {
    var em := new Emitter();
    em.EmitChunks(chunks);
    ghost var before := em.lmap.ids;
    var success := em.lmap.Get(SUCCEED);
    var failure := em.lmap.Get(CONCEDE);
    var root := em.lmap.Get(ROOT_ALPHA);
    ghost var ids := em.lmap.ids;
    forall i | 0 <= i < |chunks| ensures Encodes(chunks[i], em.cases[i], ids, em.tmpTargets) {
      EncodesStable(chunks[i], em.cases[i], before, ids, em.tmpTargets);
    }
    var locals := map t | t in em.tmpTargets.Keys :: JavaId(t) := -1;
    prog := JProgram(em.cases, locals, root, success, failure);
    assert Implements(prog, chunks, ids);
  }
}
