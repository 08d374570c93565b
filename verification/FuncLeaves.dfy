/** What a piece of a generated function delivers, and the pieces without parts. */
module FuncLeaves {
  import opened Denotation
  import opened FuncIr
  import opened FuncEmitter
  import opened FuncSpec
  import opened FuncFrames
  import opened FuncArena

  // ----- what a piece delivers -----

  /** The recursion has gone deeper than `d` below the activation. */
  predicate Deep(sp: Spot, d: nat, m: Machine) {
    |m.stack| > |sp.below| + 1 + d
  }

  /** The piece is not left any more: it recurses too deep, or the arena has overflowed. */
  predicate Over(c: Ctx, sp: Spot, d: nat, m: Machine) {
    Deep(sp, d, m) || Full(c.prog, m)
  }

  predicate Lost(st: Stream) {
    st.ends == [] && st.cut
  }

  /** The piece, entered at `i`, has `st` to deliver: it is at its success label with the first
      end and suspended, or at its failure label with cursor and arena as when it was entered,
      or recursing deeper than the stream says, with a frame for every level. */
  predicate Arrives(c: Ctx, d: nat, sp: Spot, p: Piece, i: nat, st: Stream, m: Machine, lo: nat, trail: Trail) {
    if st.ends != [] then
      && AtPort(c, sp, m, p.g) && m.delta == st.ends[0]
      && Suspended(c, d, p, i, st.ends[0], Stream(st.ends[1..], st.cut), m.heap, sp.z, lo, m.pos, trail)
    else if st.cut then Deep(sp, d, m) && lo + HEADER_SIZE * (d + 1) <= ARENA_SIZE
    else AtPort(c, sp, m, p.o) && m.delta == i && m.pos == lo
  }

  /** That, or the arena has overflowed on the way. */
  ghost predicate Delivers(c: Ctx, d: nat, sp: Spot, p: Piece, i: nat, st: Stream, m: Machine, lo: nat, trail: Trail) {
    Spills(c, d, p.node, i, lo, m) || Arrives(c, d, sp, p, i, st, m, lo, trail)
  }

  /** A run of the piece: it keeps to itself unless it recurses too deep or the arena overflows. */
  ghost predicate Goes(c: Ctx, d: nat, sp: Spot, lo: nat, p: Piece, m: Machine, m': Machine) {
    Reaches(c.prog, c.subject, m, m') && (Over(c, sp, d, m') || Keeps(m, m', sp.z, lo, p))
  }

  /** The piece is part of the activation's function, and its targets exist. */
  ghost predicate Placed(c: Ctx, sp: Spot, p: Piece, lo: nat) {
    && Closed(c.graph, p.node) && NidBelow(p) && sp.z < lo
    && sp.name in c.prog.bodies && p.g in c.prog.bodies[sp.name] && p.o in c.prog.bodies[sp.name]
    && Wired(c.prog.bodies[sp.name], p) && Quiet(c.prog.bodies[sp.name])
  }

  /** At a label nothing overflows. */
  lemma NotOver(c: Ctx, d: nat, sp: Spot, m: Machine, l: Label)
    requires AtPort(c, sp, m, l) && Quiet(c.prog.bodies[sp.name])
    ensures |m.stack| == |sp.below| + 1 && !Over(c, sp, d, m)
  {
  }

  predicate Entering(c: Ctx, sp: Spot, p: Piece, lo: nat, i: nat, m: Machine) {
    && AtPort(c, sp, m, P(p.nid, Alpha)) && sp.z in m.heap
    && i <= |c.subject| && m.delta == i && m.pos == lo
  }

  predicate Resuming(c: Ctx, d: nat, sp: Spot, p: Piece, lo: nat, i: nat, e: nat, rest: Stream, trail: Trail,
      m: Machine) {
    && AtPort(c, sp, m, P(p.nid, Beta)) && m.delta == e
    && Suspended(c, d, p, i, e, rest, m.heap, sp.z, lo, m.pos, trail)
  }

  /** The piece is suspended up to the arena position. */
  predicate Paused(c: Ctx, d: nat, sp: Spot, p: Piece, lo: nat, i: nat, e: nat, rest: Stream, trail: Trail,
      m: Machine) {
    Suspended(c, d, p, i, e, rest, m.heap, sp.z, lo, m.pos, trail)
  }

  // ----- code of a block -----

  lemma FlattenOne(a: Line)
    ensures Flatten([a]) == a
  {
    assert Flatten([a][1..]) == [];
  }

  lemma FlattenTwo(a: Line, b: Line)
    ensures Flatten([a, b]) == a + b
  {
    assert [a, b][1..] == [b];
    FlattenOne(b);
  }

  lemma FlattenThree(a: Line, b: Line, e: Line)
    ensures Flatten([a, b, e]) == a + b + e
  {
    assert [a, b, e][1..] == [b, e];
    FlattenTwo(b, e);
  }

  lemma FlattenFour(a: Line, b: Line, e: Line, f: Line)
    ensures Flatten([a, b, e, f]) == a + b + e + f
  {
    assert [a, b, e, f][1..] == [b, e, f];
    FlattenThree(b, e, f);
  }

  lemma CodeOf(c: Ctx, sp: Spot, m: Machine, b: Block, code: seq<Stmt>)
    requires AtPort(c, sp, m, b.name) && Has(c.prog.bodies[sp.name], b) && Flatten(b.lines) == code
    ensures AtCode(sp, m, code)
  {
  }

  // ----- the one end of a leaf -----

  /** The single end a leaf delivers when its test does not jump. */
  function LeafStream(jump: bool, e: nat): Stream {
    if jump then Nothing else Unit(e)
  }

  lemma LeafFails(c: Ctx, d: nat, sp: Spot, p: Piece, i: nat, m: Machine, lo: nat)
    requires AtPort(c, sp, m, p.o) && m.delta == i && m.pos == lo
    ensures Arrives(c, d, sp, p, i, Nothing, m, lo, AtLeaf)
  {
  }

  lemma LeafEnds(c: Ctx, d: nat, sp: Spot, p: Piece, i: nat, e: nat, m: Machine, lo: nat)
    requires p.node.Lit? || p.node.Len? || p.node.Pos? || p.node.Rpos?
    requires AtPort(c, sp, m, p.g) && m.delta == e && m.pos == lo && i <= |c.subject| && e <= |c.subject|
        && sp.z in m.heap
    requires p.node.Lit? || p.node.Len? ==> IntOf(m.heap[sp.z], Field(p.nid, SavedCursor)) == i
    requires LeafMatch(c.subject, p.node, i, e)
    ensures Arrives(c, d, sp, p, i, Unit(e), m, lo, AtLeaf)
  {
    assert [e][1..] == [];
  }

  // ----- literals -----

  lemma LitCode(s: string, nid: Nid, g: Label, o: Label)
    ensures var saved := Field(nid, SavedCursor);
            && Flatten(LitBlocks(s, nid, g, o)[0].lines)
               == [IfGoto(PastEnd(|s|), o), IfGoto(NotLit(s), o), Do(SaveDelta(saved)), Do(AddDelta(|s|)), Goto(g)]
            && Flatten(LitBlocks(s, nid, g, o)[1].lines) == [Do(LoadDelta(saved)), Goto(o)]
  {
    var saved := Field(nid, SavedCursor);
    FlattenThree([IfGoto(PastEnd(|s|), o)], [IfGoto(NotLit(s), o)], [Do(SaveDelta(saved)), Do(AddDelta(|s|)), Goto(g)]);
    FlattenOne([Do(LoadDelta(saved)), Goto(o)]);
  }

  lemma LitEnds(c: Ctx, d: nat, s: string, i: nat)
    requires i <= |c.subject|
    ensures EndsOf(c, d, Node.Lit(s), i) == LeafStream(!HasAt(c.subject, i, s), i + |s|)
  {
  }

  lemma MatchLit(c: Ctx, sp: Spot, lo: nat, p: Piece, m: Machine, code: seq<Stmt>, s: string, i: nat)
      returns (m': Machine)
    requires code == [IfGoto(PastEnd(|s|), p.o), IfGoto(NotLit(s), p.o), Do(SaveDelta(Field(p.nid, SavedCursor))),
        Do(AddDelta(|s|)), Goto(p.g)]
    requires AtCode(sp, m, code) && Targets(c, sp, p) && sp.z in m.heap && m.delta == i
    ensures Moves(c, sp.z, lo, p, m, m') && m'.pos == m.pos
    ensures if HasAt(c.subject, i, s) then AtPort(c, sp, m', p.g) && m'.delta == i + |s|
        && IntOf(m'.heap[sp.z], Field(p.nid, SavedCursor)) == i
            else AtPort(c, sp, m', p.o) && m'.delta == i
  {
    var m1 := IfStep(c, sp, lo, p, m, PastEnd(|s|), p.o, code);
    m' := m1;
    if i + |s| <= |c.subject| {
      var m2 := IfStep(c, sp, lo, p, m1, NotLit(s), p.o, code[1..]);
      MovesThen(c, sp.z, lo, p, m, m1, m2);
      m' := m2;
      if HasAt(c.subject, i, s) {
        m' := SaveAndGo(c, sp, lo, p, m2, |s|, code[1..][1..]);
        MovesThen(c, sp.z, lo, p, m, m2, m');
      }
    }
  }

  lemma EnterLit(c: Ctx, d: nat, sp: Spot, p: Piece, lo: nat, i: nat, m: Machine) returns (m': Machine)
    requires p.node.Lit? && Placed(c, sp, p, lo) && Entering(c, sp, p, lo, i, m)
    ensures Moves(c, sp.z, lo, p, m, m')
    ensures Arrives(c, d, sp, p, i, EndsOf(c, d, p.node, i), m', lo, AtLeaf)
  {
    var s := p.node.s;
    LitCode(s, p.nid, p.g, p.o);
    var b := LitBlocks(s, p.nid, p.g, p.o)[0];
    CodeOf(c, sp, m, b, Flatten(b.lines));
    m' := MatchLit(c, sp, lo, p, m, Flatten(b.lines), s, i);
    LitEnds(c, d, s, i);
    if HasAt(c.subject, i, s) {
      LeafEnds(c, d, sp, p, i, i + |s|, m', lo);
    } else {
      LeafFails(c, d, sp, p, i, m', lo);
    }
  }

  /** Saves the cursor, advances it by `n` and goes to the success label. */
  lemma SaveAndGo(c: Ctx, sp: Spot, lo: nat, p: Piece, m: Machine, n: int, code: seq<Stmt>) returns (m': Machine)
    requires AtCode(sp, m, code) && sp.z in m.heap && sp.name in c.prog.bodies && p.g in c.prog.bodies[sp.name]
    requires code == [Do(SaveDelta(Field(p.nid, SavedCursor))), Do(AddDelta(n)), Goto(p.g)]
    ensures Moves(c, sp.z, lo, p, m, m') && AtPort(c, sp, m', p.g)
    ensures m'.delta == m.delta + n && m'.pos == m.pos && IntOf(m'.heap[sp.z], Field(p.nid, SavedCursor)) == m.delta
  {
    var m1 := DoStep(c, sp, lo, p, m, SaveDelta(Field(p.nid, SavedCursor)), code);
    var m2 := DoStep(c, sp, lo, p, m1, AddDelta(n), code[1..]);
    MovesThen(c, sp.z, lo, p, m, m1, m2);
    m' := GotoStep(c, sp, lo, p, m2, p.g, code[1..][1..]);
    MovesThen(c, sp.z, lo, p, m, m2, m');
  }

  /** Restores the saved cursor and goes to the failure label. */
  lemma RestoreAndFail(c: Ctx, sp: Spot, lo: nat, p: Piece, m: Machine, code: seq<Stmt>) returns (m': Machine)
    requires AtCode(sp, m, code) && sp.z in m.heap && sp.name in c.prog.bodies && p.o in c.prog.bodies[sp.name]
    requires code == [Do(LoadDelta(Field(p.nid, SavedCursor))), Goto(p.o)]
    ensures Moves(c, sp.z, lo, p, m, m') && AtPort(c, sp, m', p.o)
    ensures m'.delta == IntOf(m.heap[sp.z], Field(p.nid, SavedCursor)) && m'.pos == m.pos
  {
    var m1 := DoStep(c, sp, lo, p, m, LoadDelta(Field(p.nid, SavedCursor)), code);
    m' := GotoStep(c, sp, lo, p, m1, p.o, code[1..]);
    MovesThen(c, sp.z, lo, p, m, m1, m');
  }

  lemma ResumeLit(c: Ctx, d: nat, sp: Spot, p: Piece, lo: nat, i: nat, e: nat, rest: Stream, trail: Trail, m: Machine)
      returns (m': Machine)
    requires p.node.Lit? && Placed(c, sp, p, lo) && Resuming(c, d, sp, p, lo, i, e, rest, trail, m)
    ensures Moves(c, sp.z, lo, p, m, m') && Arrives(c, d, sp, p, i, rest, m', lo, trail)
  {
    LitCode(p.node.s, p.nid, p.g, p.o);
    var b := LitBlocks(p.node.s, p.nid, p.g, p.o)[1];
    CodeOf(c, sp, m, b, Flatten(b.lines));
    m' := RestoreAndFail(c, sp, lo, p, m, Flatten(b.lines));
  }

  // ----- LEN -----

  lemma LenCode(n: int, nid: Nid, g: Label, o: Label)
    ensures var saved := Field(nid, SavedCursor);
            && Flatten(LenBlocks(n, nid, g, o)[0].lines)
               == [IfGoto(PastEnd(n), o), Do(SaveDelta(saved)), Do(AddDelta(n)), Goto(g)]
            && Flatten(LenBlocks(n, nid, g, o)[1].lines) == [Do(LoadDelta(saved)), Goto(o)]
  {
    var saved := Field(nid, SavedCursor);
    FlattenTwo([IfGoto(PastEnd(n), o)], [Do(SaveDelta(saved)), Do(AddDelta(n)), Goto(g)]);
    FlattenOne([Do(LoadDelta(saved)), Goto(o)]);
  }

  lemma LenEnds(c: Ctx, d: nat, n: nat, i: nat)
    requires 0 <= n && i <= |c.subject|
    ensures EndsOf(c, d, Node.Len(n), i) == LeafStream(i + n > |c.subject|, i + n)
  {
  }

  lemma EnterLen(c: Ctx, d: nat, sp: Spot, p: Piece, lo: nat, i: nat, m: Machine) returns (m': Machine)
    requires p.node.Len? && Placed(c, sp, p, lo) && Entering(c, sp, p, lo, i, m)
    ensures Moves(c, sp.z, lo, p, m, m')
    ensures Arrives(c, d, sp, p, i, EndsOf(c, d, p.node, i), m', lo, AtLeaf)
  {
    var n := p.node.n;
    LenCode(n, p.nid, p.g, p.o);
    var code := Flatten(LenBlocks(n, p.nid, p.g, p.o)[0].lines);
    CodeOf(c, sp, m, LenBlocks(n, p.nid, p.g, p.o)[0], code);
    var m1 := IfStep(c, sp, lo, p, m, PastEnd(n), p.o, code);
    m' := m1;
    LenEnds(c, d, n, i);
    if i + n <= |c.subject| {
      m' := SaveAndGo(c, sp, lo, p, m1, n, code[1..]);
      MovesThen(c, sp.z, lo, p, m, m1, m');
      LeafEnds(c, d, sp, p, i, i + n, m', lo);
    } else {
      LeafFails(c, d, sp, p, i, m', lo);
    }
  }

  lemma ResumeLen(c: Ctx, d: nat, sp: Spot, p: Piece, lo: nat, i: nat, e: nat, rest: Stream, trail: Trail, m: Machine)
      returns (m': Machine)
    requires p.node.Len? && Placed(c, sp, p, lo) && Resuming(c, d, sp, p, lo, i, e, rest, trail, m)
    ensures Moves(c, sp.z, lo, p, m, m') && Arrives(c, d, sp, p, i, rest, m', lo, trail)
  {
    LenCode(p.node.n, p.nid, p.g, p.o);
    var b := LenBlocks(p.node.n, p.nid, p.g, p.o)[1];
    CodeOf(c, sp, m, b, Flatten(b.lines));
    m' := RestoreAndFail(c, sp, lo, p, m, Flatten(b.lines));
  }

  // ----- POS and RPOS -----

  function PosTest(node: Node): Op
    requires node.Pos? || node.Rpos?
  {
    if node.Pos? then NotAt(node.n) else NotAtFromEnd(node.n)
  }

  lemma PosCode(test: Op, nid: Nid, g: Label, o: Label)
    ensures Flatten(PosBlocks(test, nid, g, o)[0].lines) == [IfGoto(test, o), Goto(g)]
    ensures Flatten(PosBlocks(test, nid, g, o)[1].lines) == [Goto(o)]
  {
    FlattenOne([IfGoto(test, o), Goto(g)]);
    FlattenOne([Goto(o)]);
  }

  lemma PosEnds(c: Ctx, d: nat, node: Node, i: nat, fr: Frame, empty: bool)
    requires (node.Pos? || node.Rpos?) && i <= |c.subject|
    ensures EndsOf(c, d, node, i) == LeafStream(Apply(PosTest(node), c.subject, fr, i, empty).jump, i)
  {
  }

  predicate Targets(c: Ctx, sp: Spot, p: Piece) {
    sp.name in c.prog.bodies && p.g in c.prog.bodies[sp.name] && p.o in c.prog.bodies[sp.name]
  }

  lemma TestAndGo(c: Ctx, sp: Spot, lo: nat, p: Piece, m: Machine, test: Op, code: seq<Stmt>) returns (m': Machine)
    requires AtCode(sp, m, code) && code == [IfGoto(test, p.o), Goto(p.g)] && Targets(c, sp, p)
    requires sp.z in m.heap && (test.NotAt? || test.NotAtFromEnd?)
    ensures Moves(c, sp.z, lo, p, m, m') && m'.delta == m.delta && m'.pos == m.pos
    ensures AtPort(c, sp, m', if Apply(test, c.subject, m.heap[sp.z], m.delta, Top(m).empty).jump then p.o else p.g)
  {
    var m1 := IfStep(c, sp, lo, p, m, test, p.o, code);
    m' := m1;
    if !Apply(test, c.subject, m.heap[sp.z], m.delta, Top(m).empty).jump {
      m' := GotoStep(c, sp, lo, p, m1, p.g, code[1..]);
      MovesThen(c, sp.z, lo, p, m, m1, m');
    }
  }

  lemma EnterPos(c: Ctx, d: nat, sp: Spot, p: Piece, lo: nat, i: nat, m: Machine) returns (m': Machine)
    requires (p.node.Pos? || p.node.Rpos?) && Placed(c, sp, p, lo) && Entering(c, sp, p, lo, i, m)
    ensures Moves(c, sp.z, lo, p, m, m')
    ensures Arrives(c, d, sp, p, i, EndsOf(c, d, p.node, i), m', lo, AtLeaf)
  {
    var test := PosTest(p.node);
    PosCode(test, p.nid, p.g, p.o);
    CodeOf(c, sp, m, PosBlocks(test, p.nid, p.g, p.o)[0], [IfGoto(test, p.o), Goto(p.g)]);
    m' := TestAndGo(c, sp, lo, p, m, test, [IfGoto(test, p.o), Goto(p.g)]);
    PosEnds(c, d, p.node, i, m.heap[sp.z], Top(m).empty);
    if Apply(test, c.subject, m.heap[sp.z], i, Top(m).empty).jump {
      LeafFails(c, d, sp, p, i, m', lo);
    } else {
      LeafEnds(c, d, sp, p, i, i, m', lo);
    }
  }

  lemma ResumePos(c: Ctx, d: nat, sp: Spot, p: Piece, lo: nat, i: nat, e: nat, rest: Stream, trail: Trail, m: Machine)
      returns (m': Machine)
    requires (p.node.Pos? || p.node.Rpos?) && Placed(c, sp, p, lo) && Resuming(c, d, sp, p, lo, i, e, rest, trail, m)
    ensures Moves(c, sp.z, lo, p, m, m') && Arrives(c, d, sp, p, i, rest, m', lo, trail)
  {
    var test := PosTest(p.node);
    PosCode(test, p.nid, p.g, p.o);
    CodeOf(c, sp, m, PosBlocks(test, p.nid, p.g, p.o)[1], [Goto(p.o)]);
    m' := GotoStep(c, sp, lo, p, m, p.o, [Goto(p.o)]);
  }

  // ----- SPAN -----

  lemma SpanCode(cs: string, nid: Nid, g: Label, o: Label)
    ensures var saved := Field(nid, SavedCursor);
            && Flatten(SpanBlocks(cs, nid, g, o)[0].lines) == [IfGoto(SpanScan(cs, saved), o), Goto(g)]
            && Flatten(SpanBlocks(cs, nid, g, o)[1].lines) == [IfGoto(SpanBack(saved), o), Do(AddDelta(-1)), Goto(g)]
  {
    var saved := Field(nid, SavedCursor);
    FlattenTwo([IfGoto(SpanScan(cs, saved), o)], [Goto(g)]);
    FlattenTwo([IfGoto(SpanBack(saved), o)], [Do(AddDelta(-1)), Goto(g)]);
  }

  /** A span suspended at `e` has every shorter run still to deliver. */
  lemma SpanArrives(c: Ctx, d: nat, sp: Spot, p: Piece, i: nat, e: nat, m: Machine, lo: nat, trail: Trail)
    requires p.node.Span? && i <= |c.subject| && i <= e <= RunEnd(c.subject, p.node.charset, i)
    requires sp.z in m.heap && m.delta == e && m.pos == lo
    requires if i < e then AtPort(c, sp, m, p.g) && IntOf(m.heap[sp.z], Field(p.nid, SavedCursor)) == i
        else AtPort(c, sp, m, p.o)
    ensures Arrives(c, d, sp, p, i, Stream(DownTo(e, i), false), m, lo, trail)
  {
    if i < e {
      DownToFirst(e, i);
    }
  }

  lemma SpanEnds(c: Ctx, d: nat, cs: string, i: nat)
    requires i <= |c.subject|
    ensures EndsOf(c, d, Node.Span(cs), i) == Stream(DownTo(RunEnd(c.subject, cs, i), i), false)
  {
  }

  lemma EnterSpan(c: Ctx, d: nat, sp: Spot, p: Piece, lo: nat, i: nat, m: Machine) returns (m': Machine)
    requires p.node.Span? && Placed(c, sp, p, lo) && Entering(c, sp, p, lo, i, m)
    ensures Moves(c, sp.z, lo, p, m, m')
    ensures Arrives(c, d, sp, p, i, EndsOf(c, d, p.node, i), m', lo, AtLeaf)
  {
    var cs, saved := p.node.charset, Field(p.nid, SavedCursor);
    SpanCode(cs, p.nid, p.g, p.o);
    var code := Flatten(SpanBlocks(cs, p.nid, p.g, p.o)[0].lines);
    CodeOf(c, sp, m, SpanBlocks(cs, p.nid, p.g, p.o)[0], code);
    var m1 := IfStep(c, sp, lo, p, m, SpanScan(cs, saved), p.o, code);
    m' := m1;
    var e := RunEnd(c.subject, cs, i);
    if i < e {
      m' := GotoStep(c, sp, lo, p, m1, p.g, code[1..]);
      MovesThen(c, sp.z, lo, p, m, m1, m');
    }
    SpanEnds(c, d, cs, i);
    SpanArrives(c, d, sp, p, i, e, m', lo, AtLeaf);
  }

  lemma DownToFirst(n: nat, i: nat)
    requires i < n
    ensures DownTo(n, i) != [] && DownTo(n, i)[0] == n && DownTo(n, i)[1..] == DownTo(n - 1, i)
  {
  }

  /** Gives back one character, or fails with the saved cursor when only one is left. */
  lemma GiveBack(c: Ctx, sp: Spot, lo: nat, p: Piece, m: Machine, code: seq<Stmt>, i: nat, e: nat) returns (m': Machine)
    requires code == [IfGoto(SpanBack(Field(p.nid, SavedCursor)), p.o), Do(AddDelta(-1)), Goto(p.g)]
    requires AtCode(sp, m, code) && Targets(c, sp, p) && sp.z in m.heap && m.delta == e && i < e
    requires IntOf(m.heap[sp.z], Field(p.nid, SavedCursor)) == i
    ensures Moves(c, sp.z, lo, p, m, m') && m'.delta == e - 1 && m'.pos == m.pos && m'.heap == m.heap
    ensures AtPort(c, sp, m', if e == i + 1 then p.o else p.g)
  {
    var m1 := IfStep(c, sp, lo, p, m, code[0].op, p.o, code);
    m' := m1;
    if e > i + 1 {
      m' := OneLess(c, sp, lo, p, m1);
      MovesThen(c, sp.z, lo, p, m, m1, m');
    }
  }

  lemma OneLess(c: Ctx, sp: Spot, lo: nat, p: Piece, m: Machine) returns (m': Machine)
    requires AtCode(sp, m, [Do(AddDelta(-1)), Goto(p.g)]) && Targets(c, sp, p) && sp.z in m.heap
    ensures Moves(c, sp.z, lo, p, m, m') && m'.delta == m.delta - 1 && m'.pos == m.pos && m'.heap == m.heap
    ensures AtPort(c, sp, m', p.g)
  {
    var code := [Do(AddDelta(-1)), Goto(p.g)];
    var m1 := DoStep(c, sp, lo, p, m, AddDelta(-1), code);
    m' := GotoStep(c, sp, lo, p, m1, p.g, code[1..]);
    MovesThen(c, sp.z, lo, p, m, m1, m');
  }

  lemma ResumeSpan(c: Ctx, d: nat, sp: Spot, p: Piece, lo: nat, i: nat, e: nat, rest: Stream, trail: Trail,
      m: Machine) returns (m': Machine)
    requires p.node.Span? && Placed(c, sp, p, lo) && Resuming(c, d, sp, p, lo, i, e, rest, trail, m)
    ensures Moves(c, sp.z, lo, p, m, m') && Arrives(c, d, sp, p, i, rest, m', lo, trail)
  {
    SpanCode(p.node.charset, p.nid, p.g, p.o);
    var b := SpanBlocks(p.node.charset, p.nid, p.g, p.o)[1];
    CodeOf(c, sp, m, b, Flatten(b.lines));
    m' := GiveBack(c, sp, lo, p, m, Flatten(b.lines), i, e);
    SpanArrives(c, d, sp, p, i, e - 1, m', lo, trail);
  }

  // ----- any leaf -----

  predicate IsPrimitive(node: Node) {
    node.Lit? || node.Len? || node.Pos? || node.Rpos? || node.Span?
  }

  lemma EnterPrimitive(c: Ctx, d: nat, sp: Spot, p: Piece, lo: nat, i: nat, m: Machine) returns (m': Machine)
    requires IsPrimitive(p.node) && Placed(c, sp, p, lo) && Entering(c, sp, p, lo, i, m)
    ensures Moves(c, sp.z, lo, p, m, m')
    ensures Arrives(c, d, sp, p, i, EndsOf(c, d, p.node, i), m', lo, AtLeaf)
  {
    if p.node.Lit? { m' := EnterLit(c, d, sp, p, lo, i, m); }
    else if p.node.Len? { m' := EnterLen(c, d, sp, p, lo, i, m); }
    else if p.node.Span? { m' := EnterSpan(c, d, sp, p, lo, i, m); }
    else { m' := EnterPos(c, d, sp, p, lo, i, m); }
  }

  lemma ResumePrimitive(c: Ctx, d: nat, sp: Spot, p: Piece, lo: nat, i: nat, e: nat, rest: Stream, trail: Trail,
      m: Machine)
    returns (m': Machine)
    requires IsPrimitive(p.node) && Placed(c, sp, p, lo) && Resuming(c, d, sp, p, lo, i, e, rest, trail, m)
    ensures Moves(c, sp.z, lo, p, m, m') && Arrives(c, d, sp, p, i, rest, m', lo, trail)
  {
    if p.node.Lit? { m' := ResumeLit(c, d, sp, p, lo, i, e, rest, trail, m); }
    else if p.node.Len? { m' := ResumeLen(c, d, sp, p, lo, i, e, rest, trail, m); }
    else if p.node.Span? { m' := ResumeSpan(c, d, sp, p, lo, i, e, rest, trail, m); }
    else { m' := ResumePos(c, d, sp, p, lo, i, e, rest, trail, m); }
  }
}
