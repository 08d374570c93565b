/** Runs of a piece of a generated function, by its structure and the depth of its references. */
module FuncRuns {
  import opened Denotation
  import opened FuncIr
  import opened FuncEmitter
  import opened FuncSpec
  import opened FuncArena
  import opened FuncFrames
  import opened FuncLeaves
  import opened FuncParts
  import opened FuncCalls
  import Runs

  /** Entered at alpha, a piece delivers the first of its ends, or fails with cursor and arena unmoved. */
  lemma {:induction false} Enter(c: Ctx, d: nat, sp: Spot, p: Piece, lo: nat, i: nat, m: Machine)
      returns (m': Machine, trail: Trail)
    requires Compiled(c) && Placed(c, sp, p, lo) && Entering(c, sp, p, lo, i, m)
    ensures Goes(c, d, sp, lo, p, m, m')
    ensures Delivers(c, d, sp, p, i, EndsOf(c, d, p.node, i), m', lo, trail)
    decreases d, p.node, 2, 0, 0
  {
    if IsPrimitive(p.node) {
      m' := EnterPrimitive(c, d, sp, p, lo, i, m);
      trail := AtLeaf;
      GoesBy(c, d, sp, lo, p, m, m');
    } else if p.node.Cat? {
      m', trail := EnterCat(c, d, sp, p, lo, i, m);
    } else if p.node.Alt? {
      m', trail := EnterAlt(c, d, sp, p, lo, i, m);
    } else {
      m', trail := EnterRef(c, d, sp, p, lo, i, m);
    }
  }

  /** Resumed at beta, a piece delivers the next of its ends, or fails with cursor and arena as when it was entered. */
  lemma {:induction false} Resume(c: Ctx, d: nat, sp: Spot, p: Piece, lo: nat, i: nat, e: nat, rest: Stream,
      trail: Trail, m: Machine)
    returns (m': Machine, trail': Trail)
    requires Compiled(c) && Placed(c, sp, p, lo) && Resuming(c, d, sp, p, lo, i, e, rest, trail, m)
    ensures Goes(c, d, sp, lo, p, m, m')
    ensures Delivers(c, d, sp, p, i, rest, m', lo, trail')
    decreases d, p.node, 2, 0, 0
  {
    if IsPrimitive(p.node) {
      m' := ResumePrimitive(c, d, sp, p, lo, i, e, rest, trail, m);
      trail' := trail;
      GoesBy(c, d, sp, lo, p, m, m');
    } else if p.node.Cat? {
      m', trail' := ResumeCat(c, d, sp, p, lo, i, e, rest, trail, m);
    } else if p.node.Alt? {
      m', trail' := ResumeAlt(c, d, sp, p, lo, i, e, rest, trail, m);
    } else {
      m', trail' := ResumeRef(c, d, sp, p, lo, i, e, rest, trail, m);
    }
  }

  // ----- references -----

  lemma {:induction false} EnterRef(c: Ctx, d: nat, sp: Spot, p: Piece, lo: nat, i: nat, m: Machine)
      returns (m': Machine, trail: Trail)
    requires p.node.Ref? && Compiled(c) && Placed(c, sp, p, lo) && Entering(c, sp, p, lo, i, m)
    ensures Goes(c, d, sp, lo, p, m, m')
    ensures Delivers(c, d, sp, p, i, EndsOf(c, d, p.node, i), m', lo, trail)
    decreases d, p.node, 1, 0, 0
  {
    RootPorts(c, p.node.name);
    var m1 := ToCall(c, sp, p, lo, i, m);
    GoesBy(c, d, sp, lo, p, m, m1);
    RefEnds(c, d, p.node.name, i);
    if lo + Total(c.prog.sizes[p.node.name]) > ARENA_SIZE {
      CallSpills(c, d, sp, p, lo, i, m1);
      m', trail := m1, AtLeaf;
    } else {
      m', trail := EnterOpened(c, d, sp, p, lo, i, m1);
      GoesThen(c, d, sp, lo, p, m, m1, m');
    }
  }

  lemma RootPorts(c: Ctx, name: string)
    requires Compiled(c) && name in c.graph
    ensures Known(c, name) && P(Root, Alpha) in c.prog.bodies[name] && P(Root, Beta) in c.prog.bodies[name]
  {
    HasPorts(c.prog.bodies[name], RootPiece(c, name));
  }

  /** The frame fits: the callee is entered, unless that is too deep already. */
  lemma {:induction false} EnterOpened(c: Ctx, d: nat, sp: Spot, p: Piece, lo: nat, i: nat, m: Machine)
      returns (m': Machine, trail: Trail)
    requires p.node.Ref? && Compiled(c) && Placed(c, sp, p, lo) && Known(c, p.node.name)
    requires AtCode(sp, m, [Call(p.node.name, ChildField(p), 0)] + CallTail(p)) && m.pos == lo && m.delta == i
    requires sp.z in m.heap && ChildOf(m.heap[sp.z], ChildField(p)) == None && i <= |c.subject|
    requires lo + Total(c.prog.sizes[p.node.name]) <= ARENA_SIZE
    ensures Goes(c, d, sp, lo, p, m, m')
    ensures Delivers(c, d, sp, p, i, EndsOf(c, d, p.node, i), m', lo, trail)
    decreases d, p.node, 0, 0, 1
  {
    var name := p.node.name;
    RootPorts(c, name);
    RefEnds(c, d, name, i);
    var m1, below := OpenStep(c, sp, p, lo, name, m);
    GoesBy(c, d, sp, lo, p, m, m1);
    if d == 0 {
      m', trail := m1, AtLeaf;
    } else {
      m', trail := EnterCallee(c, d, sp, p, lo, below, i, m1);
      GoesThen(c, d, sp, lo, p, m, m1, m');
    }
  }

  lemma RootIsQuiet(c: Ctx, name: string)
    requires Compiled(c) && name in c.graph
    ensures name in c.prog.bodies && Quiet(c.prog.bodies[name])
  {
  }

  lemma {:induction false} EnterCallee(c: Ctx, d: nat, sp: Spot, p: Piece, lo: nat, below: seq<Activation>, i: nat,
      m: Machine)
    returns (m': Machine, trail: Trail)
    requires p.node.Ref? && d > 0 && Compiled(c) && Placed(c, sp, p, lo) && Known(c, p.node.name)
        && Waiting(sp, p, below)
    requires Linked(c, sp, p, p.node.name, lo, m) && AtPort(c, Callee(sp, p, below, p.node.name, lo), m, P(Root, Alpha))
    requires i <= |c.subject| && m.delta == i && m.pos == lo + Total(c.prog.sizes[p.node.name])
    ensures Goes(c, d, sp, lo, p, m, m')
    ensures Delivers(c, d, sp, p, i, EndsOf(c, d - 1, c.graph[p.node.name], i), m', lo, trail)
    decreases d, p.node, 0, 0, 0
  {
    var name := p.node.name;
    PlacedInRef(c, sp, p, lo, below);
    var m1, t1 := Enter(c, d - 1, Callee(sp, p, below, name, lo), RootPiece(c, name),
                        lo + Total(c.prog.sizes[name]), i, m);
    m', trail := FromCallee(c, d, sp, p, lo, below, i, EndsOf(c, d - 1, c.graph[name], i), m, m1, t1);
  }

  /** The callee has run from `m0` to `m`: back to the caller, unless the run is over. */
  lemma FromCallee(c: Ctx, d: nat, sp: Spot, p: Piece, lo: nat, below: seq<Activation>, i: nat, st: Stream,
                   m0: Machine, m: Machine, child: Trail)
    returns (m': Machine, trail: Trail)
    requires p.node.Ref? && d > 0 && Compiled(c) && Placed(c, sp, p, lo) && Known(c, p.node.name)
        && Waiting(sp, p, below)
    requires i <= |c.subject| && Within(st, |c.subject|) && Linked(c, sp, p, p.node.name, lo, m0)
    requires Goes(c, d - 1, Callee(sp, p, below, p.node.name, lo), lo + Total(c.prog.sizes[p.node.name]),
                  RootPiece(c, p.node.name), m0, m)
    requires Delivers(c, d - 1, Callee(sp, p, below, p.node.name, lo), RootPiece(c, p.node.name), i, st, m,
                      lo + Total(c.prog.sizes[p.node.name]), child)
    ensures Goes(c, d, sp, lo, p, m0, m') && Delivers(c, d, sp, p, i, st, m', lo, trail)
  {
    CalleeGoes(c, d, sp, p, lo, below, m0, m);
    if Spills(c, d - 1, c.graph[p.node.name], i, lo + Total(c.prog.sizes[p.node.name]), m) {
      CalleeSpills(c, d, p, i, lo, m);
      m', trail := m, child;
    } else {
      m', trail := LeaveCallee(c, d, sp, p, lo, below, i, st, m, child);
      GoesThen(c, d, sp, lo, p, m0, m, m');
    }
  }

  lemma LeaveCallee(c: Ctx, d: nat, sp: Spot, p: Piece, lo: nat, below: seq<Activation>, i: nat, st: Stream,
                    m: Machine, child: Trail)
    returns (m': Machine, trail: Trail)
    requires p.node.Ref? && d > 0 && Compiled(c) && Placed(c, sp, p, lo) && Known(c, p.node.name)
        && Waiting(sp, p, below)
    requires i <= |c.subject| && Within(st, |c.subject|)
    requires !Over(c, sp, d, m) ==> Linked(c, sp, p, p.node.name, lo, m)
    requires Arrives(c, d - 1, Callee(sp, p, below, p.node.name, lo), RootPiece(c, p.node.name), i, st, m,
                     lo + Total(c.prog.sizes[p.node.name]), child)
    ensures Goes(c, d, sp, lo, p, m, m') && (m' == m || !Over(c, sp, d, m))
    ensures Arrives(c, d, sp, p, i, st, m', lo, trail)
  {
    if Lost(st) {
      m', trail := m, child;
      Runs.ReachesSelf(Stepper(c.prog, c.subject), m);
    } else {
      RootIsQuiet(c, p.node.name);
      NotOver(c, d - 1, Callee(sp, p, below, p.node.name, lo), m,
              P(Root, if st.ends == [] then MatchFail else MatchOk));
      m' := Return(c, d, sp, p, lo, below, i, st, m, child);
      trail := InChild(child);
      GoesBy(c, d, sp, lo, p, m, m');
    }
  }

  lemma {:induction false} ResumeRef(c: Ctx, d: nat, sp: Spot, p: Piece, lo: nat, i: nat, e: nat, rest: Stream,
      trail: Trail, m: Machine)
    returns (m': Machine, trail': Trail)
    requires p.node.Ref? && Compiled(c) && Placed(c, sp, p, lo) && Resuming(c, d, sp, p, lo, i, e, rest, trail, m)
    ensures Goes(c, d, sp, lo, p, m, m')
    ensures Delivers(c, d, sp, p, i, rest, m', lo, trail')
    decreases d, p.node, 1, 0, 0
  {
    var name := p.node.name;
    RootPorts(c, name);
    var m1, below := Reopen(c, sp, p, lo, m);
    GoesBy(c, d, sp, lo, p, m, m1);
    PlacedInRef(c, sp, p, lo, below);
    var m2, t2 := Resume(c, d - 1, Callee(sp, p, below, name, lo), RootPiece(c, name), lo + Total(c.prog.sizes[name]),
        i, e, rest, trail.child, m1);
    m', trail' := FromCallee(c, d, sp, p, lo, below, i, rest, m1, m2, t2);
    GoesThen(c, d, sp, lo, p, m, m1, m');
  }

  // ----- sequences -----

  /** The sequence has not entered its right part, or has, in frame `sp.z`. */
  predicate Notes(sp: Spot, m: Machine, f: Field, v: int) {
    sp.z in m.heap && IntOf(m.heap[sp.z], f) == v
  }

  lemma {:induction false} EnterCat(c: Ctx, d: nat, sp: Spot, p: Piece, lo: nat, i: nat, m: Machine)
      returns (m': Machine, trail: Trail)
    requires p.node.Cat? && Compiled(c) && Placed(c, sp, p, lo) && Entering(c, sp, p, lo, i, m)
    ensures Goes(c, d, sp, lo, p, m, m')
    ensures Delivers(c, d, sp, p, i, EndsOf(c, d, p.node, i), m', lo, trail)
    decreases d, p.node, 1, 0, 0
  {
    PlacedInCat(c, sp, p, lo, lo);
    var f := Field(p.nid, Entered);
    var m1 := NoteAndGo(c, sp, lo, p, m, CatAlpha(p.nid, Sub(p.k + 1)), f, 0, P(Sub(p.k + 1), Alpha));
    GoesBy(c, d, sp, lo, p, m, m1);
    var m2, t2 := Enter(c, d, sp, CatLeft(p), lo, i, m1);
    CatEnds(c, d, p.node.left, p.node.right, i);
    m', trail := ThenRightPart(c, d, sp, p, lo, i, EndsOf(c, d, p.node.left, i), t2, m1, m2);
    GoesThen(c, d, sp, lo, p, m, m1, m');
  }

  /** The left part has run from `m0` to `m`. */
  lemma {:induction false} ThenRightPart(c: Ctx, d: nat, sp: Spot, p: Piece, lo: nat, i: nat, st: Stream, left: Trail,
      m0: Machine, m: Machine)
    returns (m': Machine, trail: Trail)
    requires p.node.Cat? && Compiled(c) && Placed(c, sp, p, lo) && i <= |c.subject| && Within(st, |c.subject|)
    requires Goes(c, d, sp, lo, CatLeft(p), m0, m) && Delivers(c, d, sp, CatLeft(p), i, st, m, lo, left)
    requires Notes(sp, m0, Field(p.nid, Entered), 0)
    ensures Goes(c, d, sp, lo, p, m0, m')
    ensures Delivers(c, d, sp, p, i, EndsFrom(c, d, st, p.node.right), m', lo, trail)
    decreases d, p.node, 0, |st.ends|, 3
  {
    PartGoes(c, d, sp, p, CatLeft(p), lo, lo, m0, m);
    m', trail := AfterLeft(c, d, sp, p, lo, i, st, left, m);
    GoesThen(c, d, sp, lo, p, m0, m, m');
  }

  /** The left part has run: the right part is tried from its ends, unless the run is over. */
  lemma {:induction false} AfterLeft(c: Ctx, d: nat, sp: Spot, p: Piece, lo: nat, i: nat, st: Stream, left: Trail,
      m: Machine)
    returns (m': Machine, trail: Trail)
    requires p.node.Cat? && Compiled(c) && Placed(c, sp, p, lo) && i <= |c.subject| && Within(st, |c.subject|)
    requires Delivers(c, d, sp, CatLeft(p), i, st, m, lo, left)
    requires Over(c, sp, d, m) || Notes(sp, m, Field(p.nid, Entered), 0)
    ensures Goes(c, d, sp, lo, p, m, m') && (m' == m || !Over(c, sp, d, m))
    ensures Delivers(c, d, sp, p, i, EndsFrom(c, d, st, p.node.right), m', lo, trail)
    decreases d, p.node, 0, |st.ends|, 2
  {
    if Spills(c, d, p.node.left, i, lo, m) {
      LeftSpills(c, d, p, i, lo, m);
      m', trail := m, left;
      Runs.ReachesSelf(Stepper(c.prog, c.subject), m);
    } else {
      m', trail := GoOnRight(c, d, sp, p, lo, i, st, left, m);
    }
  }

  /** The left part has delivered the first of `st`: the right part is tried from each end of `st` in turn. */
  lemma {:induction false} GoOnRight(c: Ctx, d: nat, sp: Spot, p: Piece, lo: nat, i: nat, st: Stream, left: Trail,
      m: Machine)
    returns (m': Machine, trail: Trail)
    requires p.node.Cat? && Compiled(c) && Placed(c, sp, p, lo) && i <= |c.subject| && Within(st, |c.subject|)
    requires Arrives(c, d, sp, CatLeft(p), i, st, m, lo, left)
    requires Over(c, sp, d, m) || Notes(sp, m, Field(p.nid, Entered), 0)
    ensures Goes(c, d, sp, lo, p, m, m') && (m' == m || !Over(c, sp, d, m))
    ensures Delivers(c, d, sp, p, i, EndsFrom(c, d, st, p.node.right), m', lo, trail)
    decreases d, p.node, 0, |st.ends|, 1
  {
    if Lost(st) {
      m', trail := m, left;
      EndsFromNone(c, d, st, p.node.right);
      Runs.ReachesSelf(Stepper(c.prog, c.subject), m);
    } else {
      NotOver(c, d, sp, m, P(p.nid, if st.ends == [] then Beta else LiOk));
      if st.ends == [] {
        EndsFromNone(c, d, st, p.node.right);
        m' := FailCat(c, d, sp, p, lo, m);
        trail := left;
      } else {
        m', trail := TryRight(c, d, sp, p, lo, i, st, left, m);
      }
    }
  }

  lemma FailCat(c: Ctx, d: nat, sp: Spot, p: Piece, lo: nat, m: Machine) returns (m': Machine)
    requires p.node.Cat? && Placed(c, sp, p, lo) && AtPort(c, sp, m, P(p.nid, Beta))
        && Notes(sp, m, Field(p.nid, Entered), 0)
    ensures Goes(c, d, sp, lo, p, m, m') && AtPort(c, sp, m', p.o) && m'.delta == m.delta && m'.pos == m.pos
  {
    PlacedInCat(c, sp, p, lo, lo);
    var op, l := IntIsSet(Field(p.nid, Entered)), P(Sub(p.k + 2), Beta);
    FlattenTwo([IfGoto(op, l)], [Goto(p.o)]);
    var code := [IfGoto(op, l), Goto(p.o)];
    CodeOf(c, sp, m, CatBeta(p.nid, Sub(p.k + 2), p.o), code);
    var m1 := IfStep(c, sp, lo, p, m, op, l, code);
    m' := GotoStep(c, sp, lo, p, m1, p.o, code[1..]);
    MovesThen(c, sp.z, lo, p, m, m1, m');
    GoesBy(c, d, sp, lo, p, m, m');
  }

  lemma {:induction false} TryRight(c: Ctx, d: nat, sp: Spot, p: Piece, lo: nat, i: nat, st: Stream, left: Trail,
      m: Machine)
    returns (m': Machine, trail: Trail)
    requires p.node.Cat? && Compiled(c) && Placed(c, sp, p, lo) && i <= |c.subject| && Within(st, |c.subject|)
        && st.ends != []
    requires Arrives(c, d, sp, CatLeft(p), i, st, m, lo, left)
    ensures Goes(c, d, sp, lo, p, m, m')
    ensures Delivers(c, d, sp, p, i, EndsFrom(c, d, st, p.node.right), m', lo, trail)
    decreases d, p.node, 0, |st.ends|, 0
  {
    var cur, restL, mid := st.ends[0], Stream(st.ends[1..], st.cut), m.pos;
    var m1 := ToRightPart(c, d, sp, p, lo, i, cur, restL, left, m);
    GoesBy(c, d, sp, lo, p, m, m1);
    EndsFromFirst(c, d, st, p.node.right);
    PlacedInCat(c, sp, p, lo, mid);
    var m2, t2 := Enter(c, d, sp, CatRight(p), mid, cur, m1);
    m', trail := LeaveRightPart(c, d, sp, p, lo, mid, i, cur, restL, EndsOf(c, d, p.node.right, cur), left, t2, m1, m2);
    GoesThen(c, d, sp, lo, p, m, m1, m');
  }

  /** The left part stays suspended and the right part is about to be entered. */
  lemma ToRightPart(c: Ctx, d: nat, sp: Spot, p: Piece, lo: nat, i: nat, cur: nat, restL: Stream, left: Trail,
      m: Machine) returns (m': Machine)
    requires p.node.Cat? && Placed(c, sp, p, lo) && AtPort(c, sp, m, P(p.nid, LiOk)) && m.delta == cur
    requires Paused(c, d, sp, CatLeft(p), lo, i, cur, restL, left, m)
    ensures Moves(c, sp.z, lo, p, m, m') && Entering(c, sp, CatRight(p), m.pos, cur, m')
    ensures Suspended(c, d, CatLeft(p), i, cur, restL, m'.heap, sp.z, lo, m.pos, left)
    ensures Notes(sp, m', Field(p.nid, Entered), 1)
  {
    CatBlocksOf(c.prog.bodies[sp.name], p);
    m' := NoteEntered(c, d, sp, p, lo, i, cur, restL, left, m, CatLiOk(p.nid, Sub(p.k + 2)), 1,
                      P(Sub(p.k + 2), Alpha));
  }

  lemma CatBlocksOf(body: Body, p: Piece)
    requires p.node.Cat? && Wired(body, p)
    ensures Has(body, CatLiOk(p.nid, Sub(p.k + 2))) && Has(body, CatRiFail(p.nid, Sub(p.k + 1)))
    ensures P(Sub(p.k + 2), Alpha) in body && P(Sub(p.k + 1), Beta) in body
  {
    WiredCat(body, p);
  }

  /** A block that notes how far the sequence is, while its left part is suspended. */
  lemma NoteEntered(c: Ctx, d: nat, sp: Spot, p: Piece, lo: nat, i: nat, cur: nat, restL: Stream, left: Trail,
                    m: Machine, b: Block, v: int, l: Label) returns (m': Machine)
    requires p.node.Cat? && NidBelow(p) && sp.z < lo && AtPort(c, sp, m, b.name)
    requires Has(c.prog.bodies[sp.name], b) && b.lines == [[Do(SetInt(Field(p.nid, Entered), v)), Goto(l)]]
    requires l in c.prog.bodies[sp.name]
    requires Paused(c, d, sp, CatLeft(p), lo, i, cur, restL, left, m)
    ensures Moves(c, sp.z, lo, p, m, m') && AtPort(c, sp, m', l) && m'.delta == m.delta && m'.pos == m.pos
    ensures Suspended(c, d, CatLeft(p), i, cur, restL, m'.heap, sp.z, lo, m.pos, left)
    ensures Notes(sp, m', Field(p.nid, Entered), v)
  {
    var f := Field(p.nid, Entered);
    PartsOwned(p);
    m' := NoteAndGo(c, sp, lo, p, m, b, f, v, l);
    SuspendedPastNote(c, d, CatLeft(p), i, cur, restL, m.heap, sp.z, lo, m.pos, left, f, v);
  }

  /** The right part has run from `m0` to `m` while the left part was suspended. */
  lemma {:induction false} LeaveRightPart(c: Ctx, d: nat, sp: Spot, p: Piece, lo: nat, mid: nat, i: nat, cur: nat,
      restL: Stream, stR: Stream, left: Trail, right: Trail, m0: Machine, m: Machine)
    returns (m': Machine, trail: Trail)
    requires p.node.Cat? && Compiled(c) && Placed(c, sp, p, lo) && lo <= mid
    requires i <= |c.subject| && cur <= |c.subject| && Within(restL, |c.subject|) && Within(stR, |c.subject|)
    requires Suspended(c, d, CatLeft(p), i, cur, restL, m0.heap, sp.z, lo, mid, left)
        && IntOf(m0.heap[sp.z], Field(p.nid, Entered)) != 0
    requires Goes(c, d, sp, mid, CatRight(p), m0, m) && Delivers(c, d, sp, CatRight(p), cur, stR, m, mid, right)
    ensures Goes(c, d, sp, lo, p, m0, m')
    ensures Delivers(c, d, sp, p, i, Append(stR, EndsFrom(c, d, restL, p.node.right)), m', lo, trail)
    decreases d, p.node, 0, |restL.ends|, 7
  {
    PartGoes(c, d, sp, p, CatRight(p), mid, lo, m0, m);
    m', trail := m, right;
    if Spills(c, d, p.node.right, cur, mid, m) {
      RightSpills(c, d, p, i, cur, restL, m0.heap, sp.z, lo, mid, left, m);
    } else if Lost(stR) {
      AppendNone(stR, EndsFrom(c, d, restL, p.node.right));
    } else {
      NotOver(c, d, sp, m, if stR.ends == [] then P(p.nid, RiFail) else p.g);
      LeftKept(c, d, sp, p, lo, mid, i, cur, restL, left, m0, m);
      m', trail := LeavePair(c, d, sp, p, lo, mid, i, cur, restL, stR, left, right, m);
      GoesThen(c, d, sp, lo, p, m0, m, m');
    }
  }

  /** A run of the right part leaves the left part suspended. */
  lemma LeftKept(c: Ctx, d: nat, sp: Spot, p: Piece, lo: nat, mid: nat, i: nat, cur: nat, restL: Stream, left: Trail,
                 m0: Machine, m: Machine)
    requires p.node.Cat? && NidBelow(p) && sp.z < lo <= mid
    requires Suspended(c, d, CatLeft(p), i, cur, restL, m0.heap, sp.z, lo, mid, left)
    requires Goes(c, d, sp, mid, CatRight(p), m0, m) && !Over(c, sp, d, m)
    ensures Suspended(c, d, CatLeft(p), i, cur, restL, m.heap, sp.z, lo, mid, left)
  {
    PartsOwned(p);
    SuspendedKept(c, d, CatLeft(p), i, cur, restL, m0, sp.z, lo, mid, left, m, mid, CatRight(p));
  }

  /** The right part, entered at `cur`, has delivered the first of `stR`, or has none and the left part is resumed. */
  lemma {:induction false} LeavePair(c: Ctx, d: nat, sp: Spot, p: Piece, lo: nat, mid: nat, i: nat, cur: nat,
      restL: Stream, stR: Stream, left: Trail, right: Trail, m: Machine)
    returns (m': Machine, trail: Trail)
    requires p.node.Cat? && Compiled(c) && Placed(c, sp, p, lo) && !Lost(stR)
    requires i <= |c.subject| && cur <= |c.subject| && Within(restL, |c.subject|) && Within(stR, |c.subject|)
    requires Suspended(c, d, CatLeft(p), i, cur, restL, m.heap, sp.z, lo, mid, left)
    requires Arrives(c, d, sp, CatRight(p), cur, stR, m, mid, right) && IntOf(m.heap[sp.z], Field(p.nid, Entered)) != 0
    ensures Goes(c, d, sp, lo, p, m, m')
    ensures Delivers(c, d, sp, p, i, Append(stR, EndsFrom(c, d, restL, p.node.right)), m', lo, trail)
    decreases d, p.node, 0, |restL.ends|, 6
  {
    var more := EndsFrom(c, d, restL, p.node.right);
    if stR.ends == [] {
      AppendNone(stR, more);
      m', trail := BackLeft(c, d, sp, p, lo, mid, i, cur, restL, left, m);
    } else {
      m' := m;
      trail := PairSuspended(c, d, sp, p, lo, mid, i, cur, restL, stR, left, right, m);
      PairGoes(c, d, sp, p, lo, m);
    }
  }

  lemma PairGoes(c: Ctx, d: nat, sp: Spot, p: Piece, lo: nat, m: Machine)
    requires sp.z in m.heap
    ensures Goes(c, d, sp, lo, p, m, m)
  {
    Runs.ReachesSelf(Stepper(c.prog, c.subject), m);
  }

  /** Both parts are suspended, and so is the sequence. */
  lemma PairSuspended(c: Ctx, d: nat, sp: Spot, p: Piece, lo: nat, mid: nat, i: nat, cur: nat, restL: Stream,
                      stR: Stream, left: Trail, right: Trail, m: Machine) returns (trail: Trail)
    requires p.node.Cat? && i <= |c.subject| && cur <= |c.subject| && lo <= mid && stR.ends != []
    requires Within(restL, |c.subject|) && Within(stR, |c.subject|)
    requires Suspended(c, d, CatLeft(p), i, cur, restL, m.heap, sp.z, lo, mid, left)
    requires Arrives(c, d, sp, CatRight(p), cur, stR, m, mid, right) && IntOf(m.heap[sp.z], Field(p.nid, Entered)) != 0
    ensures Arrives(c, d, sp, p, i, Append(stR, EndsFrom(c, d, restL, p.node.right)), m, lo, trail)
  {
    var e, rest := stR.ends[0], Stream(stR.ends[1..], stR.cut);
    trail := InCat(cur, mid, restL, rest, left, right);
    AppendFirst(stR, EndsFrom(c, d, restL, p.node.right));
    SuspendInCat(c, d, p, i, e, m.heap, sp.z, lo, m.pos, trail);
  }

  /** The right part has failed: the left part is resumed. */
  lemma {:induction false} BackLeft(c: Ctx, d: nat, sp: Spot, p: Piece, lo: nat, mid: nat, i: nat, cur: nat,
      restL: Stream, left: Trail, m: Machine)
    returns (m': Machine, trail: Trail)
    requires p.node.Cat? && Compiled(c) && Placed(c, sp, p, lo) && i <= |c.subject| && Within(restL, |c.subject|)
    requires Suspended(c, d, CatLeft(p), i, cur, restL, m.heap, sp.z, lo, mid, left)
    requires AtPort(c, sp, m, P(p.nid, RiFail)) && m.delta == cur && m.pos == mid
    ensures Goes(c, d, sp, lo, p, m, m')
    ensures Delivers(c, d, sp, p, i, EndsFrom(c, d, restL, p.node.right), m', lo, trail)
    decreases d, p.node, 0, |restL.ends|, 5
  {
    var m1 := ToLeftPart(c, d, sp, p, lo, i, cur, restL, left, m);
    GoesBy(c, d, sp, lo, p, m, m1);
    m', trail := LeftAgain(c, d, sp, p, lo, i, cur, restL, left, m1);
    GoesThen(c, d, sp, lo, p, m, m1, m');
  }

  lemma {:induction false} LeftAgain(c: Ctx, d: nat, sp: Spot, p: Piece, lo: nat, i: nat, cur: nat, restL: Stream,
      left: Trail, m: Machine)
    returns (m': Machine, trail: Trail)
    requires p.node.Cat? && Compiled(c) && Placed(c, sp, p, lo) && i <= |c.subject| && Within(restL, |c.subject|)
    requires Resuming(c, d, sp, CatLeft(p), lo, i, cur, restL, left, m) && Notes(sp, m, Field(p.nid, Entered), 0)
    ensures Goes(c, d, sp, lo, p, m, m')
    ensures Delivers(c, d, sp, p, i, EndsFrom(c, d, restL, p.node.right), m', lo, trail)
    decreases d, p.node, 0, |restL.ends|, 4
  {
    PlacedInCat(c, sp, p, lo, lo);
    var m1, t1 := Resume(c, d, sp, CatLeft(p), lo, i, cur, restL, left, m);
    m', trail := ThenRightPart(c, d, sp, p, lo, i, restL, t1, m, m1);
  }

  lemma ToLeftPart(c: Ctx, d: nat, sp: Spot, p: Piece, lo: nat, i: nat, cur: nat, restL: Stream, left: Trail,
      m: Machine) returns (m': Machine)
    requires p.node.Cat? && Placed(c, sp, p, lo) && AtPort(c, sp, m, P(p.nid, RiFail)) && m.delta == cur
    requires Paused(c, d, sp, CatLeft(p), lo, i, cur, restL, left, m)
    ensures Moves(c, sp.z, lo, p, m, m') && Notes(sp, m', Field(p.nid, Entered), 0)
    ensures Resuming(c, d, sp, CatLeft(p), lo, i, cur, restL, left, m')
  {
    CatBlocksOf(c.prog.bodies[sp.name], p);
    m' := NoteEntered(c, d, sp, p, lo, i, cur, restL, left, m, CatRiFail(p.nid, Sub(p.k + 1)), 0,
                      P(Sub(p.k + 1), Beta));
  }

  lemma ToRight(c: Ctx, sp: Spot, p: Piece, lo: nat, m: Machine) returns (m': Machine)
    requires p.node.Cat? && Placed(c, sp, p, lo) && AtPort(c, sp, m, P(p.nid, Beta))
    requires sp.z in m.heap && IntOf(m.heap[sp.z], Field(p.nid, Entered)) != 0
    ensures Moves(c, sp.z, lo, p, m, m') && AtPort(c, sp, m', P(Sub(p.k + 2), Beta))
    ensures m'.heap == m.heap && m'.delta == m.delta && m'.pos == m.pos
  {
    PlacedInCat(c, sp, p, lo, lo);
    var op, l := IntIsSet(Field(p.nid, Entered)), P(Sub(p.k + 2), Beta);
    FlattenTwo([IfGoto(op, l)], [Goto(p.o)]);
    var code := [IfGoto(op, l), Goto(p.o)];
    CodeOf(c, sp, m, CatBeta(p.nid, Sub(p.k + 2), p.o), code);
    m' := IfStep(c, sp, lo, p, m, op, l, code);
  }

  lemma {:induction false} ResumeCat(c: Ctx, d: nat, sp: Spot, p: Piece, lo: nat, i: nat, e: nat, rest: Stream,
      trail: Trail, m: Machine)
    returns (m': Machine, trail': Trail)
    requires p.node.Cat? && Compiled(c) && Placed(c, sp, p, lo) && Resuming(c, d, sp, p, lo, i, e, rest, trail, m)
    ensures Goes(c, d, sp, lo, p, m, m')
    ensures Delivers(c, d, sp, p, i, rest, m', lo, trail')
    decreases d, p.node, 1, 0, 1
  {
    var m1 := ToRight(c, sp, p, lo, m);
    GoesBy(c, d, sp, lo, p, m, m1);
    CatPaused(c, d, sp, p, lo, i, e, rest, trail, m, m1);
    m', trail' := ResumeRight(c, d, sp, p, lo, i, e, trail, m1);
    GoesThen(c, d, sp, lo, p, m, m1, m');
  }

  /** Both parts of the sequence are suspended, one above the other. */
  predicate PairPaused(c: Ctx, d: nat, sp: Spot, p: Piece, lo: nat, i: nat, e: nat, trail: Trail, m: Machine)
    requires p.node.Cat?
  {
    && trail.InCat? && lo <= trail.mid && i <= |c.subject| && trail.m <= |c.subject|
    && Within(trail.restL, |c.subject|) && Within(trail.restR, |c.subject|)
    && Suspended(c, d, CatLeft(p), i, trail.m, trail.restL, m.heap, sp.z, lo, trail.mid, trail.left)
    && Suspended(c, d, CatRight(p), trail.m, e, trail.restR, m.heap, sp.z, trail.mid, m.pos, trail.right)
    && IntOf(m.heap[sp.z], Field(p.nid, Entered)) != 0
  }

  lemma CatPaused(c: Ctx, d: nat, sp: Spot, p: Piece, lo: nat, i: nat, e: nat, rest: Stream, trail: Trail, m: Machine,
                  m': Machine)
    requires p.node.Cat? && Paused(c, d, sp, p, lo, i, e, rest, trail, m) && m'.heap == m.heap && m'.pos == m.pos
    ensures PairPaused(c, d, sp, p, lo, i, e, trail, m')
    ensures rest == Append(trail.restR, EndsFrom(c, d, trail.restL, p.node.right))
  {
    SuspendedWithin(c, d, CatLeft(p), i, trail.m, trail.restL, m.heap, sp.z, lo, trail.mid, trail.left);
  }

  lemma {:induction false} ResumeRight(c: Ctx, d: nat, sp: Spot, p: Piece, lo: nat, i: nat, e: nat, trail: Trail,
      m: Machine)
    returns (m': Machine, trail': Trail)
    requires p.node.Cat? && Compiled(c) && Placed(c, sp, p, lo) && PairPaused(c, d, sp, p, lo, i, e, trail, m)
    requires AtPort(c, sp, m, P(Sub(p.k + 2), Beta)) && m.delta == e
    ensures Goes(c, d, sp, lo, p, m, m')
    ensures Delivers(c, d, sp, p, i, Append(trail.restR, EndsFrom(c, d, trail.restL, p.node.right)), m', lo, trail')
    decreases d, p.node, 1, 0, 0
  {
    PlacedInCat(c, sp, p, lo, trail.mid);
    var m1, t1 := Resume(c, d, sp, CatRight(p), trail.mid, trail.m, e, trail.restR, trail.right, m);
    m', trail' := LeaveRightPart(c, d, sp, p, lo, trail.mid, i, trail.m, trail.restL, trail.restR, trail.left, t1, m,
        m1);
  }

  // ----- alternations -----

  lemma {:induction false} EnterAlt(c: Ctx, d: nat, sp: Spot, p: Piece, lo: nat, i: nat, m: Machine)
      returns (m': Machine, trail: Trail)
    requires p.node.Alt? && Compiled(c) && Placed(c, sp, p, lo) && Entering(c, sp, p, lo, i, m)
    ensures Goes(c, d, sp, lo, p, m, m')
    ensures Delivers(c, d, sp, p, i, EndsOf(c, d, p.node, i), m', lo, trail)
    decreases d, p.node, 1, 0, 0
  {
    PlacedInAlt(c, sp, p, lo);
    var m1 := NoteAndGo(c, sp, lo, p, m, AltAlpha(p.nid, Sub(p.k + 1)), Field(p.nid, Arm), 1, P(Sub(p.k + 1), Alpha));
    GoesBy(c, d, sp, lo, p, m, m1);
    var m2, t2 := Enter(c, d, sp, AltLeft(p), lo, i, m1);
    AltEnds(c, d, p.node.left, p.node.right, i);
    m', trail := ThenLeft(c, d, sp, p, lo, i, EndsOf(c, d, p.node.left, i), t2, m1, m2);
    GoesThen(c, d, sp, lo, p, m, m1, m');
  }

  /** The left arm has run from `m0` to `m`. */
  lemma {:induction false} ThenLeft(c: Ctx, d: nat, sp: Spot, p: Piece, lo: nat, i: nat, st: Stream, left: Trail,
      m0: Machine, m: Machine)
    returns (m': Machine, trail: Trail)
    requires p.node.Alt? && Compiled(c) && Placed(c, sp, p, lo) && i <= |c.subject| && Within(st, |c.subject|)
    requires Goes(c, d, sp, lo, AltLeft(p), m0, m) && Delivers(c, d, sp, AltLeft(p), i, st, m, lo, left)
    ensures Goes(c, d, sp, lo, p, m0, m')
    ensures Delivers(c, d, sp, p, i, Append(st, EndsOf(c, d, p.node.right, i)), m', lo, trail)
    decreases d, p.node, 0, 0, 2
  {
    PartGoes(c, d, sp, p, AltLeft(p), lo, lo, m0, m);
    m', trail := LeaveLeft(c, d, sp, p, lo, i, st, left, m);
    GoesThen(c, d, sp, lo, p, m0, m, m');
  }

  /** The left arm has run, and then the right arm if it had no ends. */
  lemma {:induction false} LeaveLeft(c: Ctx, d: nat, sp: Spot, p: Piece, lo: nat, i: nat, st: Stream, left: Trail,
      m: Machine)
    returns (m': Machine, trail: Trail)
    requires p.node.Alt? && Compiled(c) && Placed(c, sp, p, lo) && i <= |c.subject| && Within(st, |c.subject|)
    requires Delivers(c, d, sp, AltLeft(p), i, st, m, lo, left) && (Over(c, sp, d, m) || sp.z in m.heap)
    ensures Goes(c, d, sp, lo, p, m, m') && (m' == m || !Over(c, sp, d, m))
    ensures Delivers(c, d, sp, p, i, Append(st, EndsOf(c, d, p.node.right, i)), m', lo, trail)
    decreases d, p.node, 0, 0, 1
  {
    m', trail := m, left;
    if Spills(c, d, p.node.left, i, lo, m) {
      ArmSpills(c, d, p, i, lo, m);
      Runs.ReachesSelf(Stepper(c.prog, c.subject), m);
    } else if Lost(st) {
      AppendNone(st, EndsOf(c, d, p.node.right, i));
      Runs.ReachesSelf(Stepper(c.prog, c.subject), m);
    } else {
      NotOver(c, d, sp, m, P(p.nid, if st.ends == [] then Lo else Lg));
      if st.ends != [] {
        m', trail := LeaveAtLeft(c, d, sp, p, lo, i, st, left, m);
      } else {
        AppendNone(st, EndsOf(c, d, p.node.right, i));
        m', trail := TryOther(c, d, sp, p, lo, i, m);
      }
    }
  }

  /** The left arm has no ends: the right arm is entered. */
  lemma {:induction false} TryOther(c: Ctx, d: nat, sp: Spot, p: Piece, lo: nat, i: nat, m: Machine)
    returns (m': Machine, trail: Trail)
    requires p.node.Alt? && Compiled(c) && Placed(c, sp, p, lo) && i <= |c.subject| && sp.z in m.heap
    requires AtPort(c, sp, m, P(p.nid, Lo)) && m.delta == i && m.pos == lo
    ensures Goes(c, d, sp, lo, p, m, m')
    ensures Delivers(c, d, sp, p, i, EndsOf(c, d, p.node.right, i), m', lo, trail)
    decreases d, p.node, 0, 0, 0
  {
    PlacedInAlt(c, sp, p, lo);
    var m1 := NoteAndGo(c, sp, lo, p, m, AltArm(p.nid, Lo, 2, P(Sub(p.k + 2), Alpha)), Field(p.nid, Arm), 2,
        P(Sub(p.k + 2), Alpha));
    GoesBy(c, d, sp, lo, p, m, m1);
    var m2, t2 := Enter(c, d, sp, AltRight(p), lo, i, m1);
    m', trail := ThenRight(c, d, sp, p, lo, i, EndsOf(c, d, p.node.right, i), t2, m1, m2);
    GoesThen(c, d, sp, lo, p, m, m1, m');
  }

  lemma LeaveAtLeft(c: Ctx, d: nat, sp: Spot, p: Piece, lo: nat, i: nat, st: Stream, left: Trail, m: Machine)
    returns (m': Machine, trail: Trail)
    requires p.node.Alt? && Placed(c, sp, p, lo) && i <= |c.subject| && Within(st, |c.subject|) && st.ends != []
    requires Arrives(c, d, sp, AltLeft(p), i, st, m, lo, left)
    ensures Goes(c, d, sp, lo, p, m, m')
    ensures Arrives(c, d, sp, p, i, Append(st, EndsOf(c, d, p.node.right, i)), m', lo, trail)
  {
    PlacedInAlt(c, sp, p, lo);
    var f := Field(p.nid, Arm);
    m' := NoteAndGo(c, sp, lo, p, m, AltArm(p.nid, Lg, 1, p.g), f, 1, p.g);
    GoesBy(c, d, sp, lo, p, m, m');
    trail := InLeft(Stream(st.ends[1..], st.cut), left);
    SuspendedPastNote(c, d, AltLeft(p), i, st.ends[0], trail.restL, m.heap, sp.z, lo, m.pos, left, f, 1);
    SuspendInLeft(c, d, p, i, st.ends[0], m'.heap, sp.z, lo, m.pos, trail);
    AppendFirst(st, EndsOf(c, d, p.node.right, i));
  }

  lemma LeaveRight(c: Ctx, d: nat, sp: Spot, p: Piece, lo: nat, i: nat, st: Stream, right: Trail, m: Machine)
    returns (m': Machine, trail: Trail)
    requires p.node.Alt? && Placed(c, sp, p, lo) && i <= |c.subject| && Within(st, |c.subject|)
    requires Delivers(c, d, sp, AltRight(p), i, st, m, lo, right) && (Over(c, sp, d, m) || sp.z in m.heap)
    ensures Goes(c, d, sp, lo, p, m, m') && (m' == m || !Over(c, sp, d, m))
    ensures Delivers(c, d, sp, p, i, st, m', lo, trail)
  {
    m', trail := m, right;
    if Spills(c, d, p.node.right, i, lo, m) {
      ArmSpills(c, d, p, i, lo, m);
      Runs.ReachesSelf(Stepper(c.prog, c.subject), m);
    } else if st.ends == [] {
      Runs.ReachesSelf(Stepper(c.prog, c.subject), m);
    } else {
      NotOver(c, d, sp, m, P(p.nid, Rg));
      m', trail := LeaveAtRight(c, d, sp, p, lo, i, st, right, m);
    }
  }

  /** The right arm has run from `m0` to `m`. */
  lemma ThenRight(c: Ctx, d: nat, sp: Spot, p: Piece, lo: nat, i: nat, st: Stream, right: Trail, m0: Machine,
      m: Machine)
    returns (m': Machine, trail: Trail)
    requires p.node.Alt? && Placed(c, sp, p, lo) && i <= |c.subject| && Within(st, |c.subject|)
    requires Goes(c, d, sp, lo, AltRight(p), m0, m) && Delivers(c, d, sp, AltRight(p), i, st, m, lo, right)
    ensures Goes(c, d, sp, lo, p, m0, m') && Delivers(c, d, sp, p, i, st, m', lo, trail)
  {
    PartGoes(c, d, sp, p, AltRight(p), lo, lo, m0, m);
    m', trail := LeaveRight(c, d, sp, p, lo, i, st, right, m);
    GoesThen(c, d, sp, lo, p, m0, m, m');
  }

  lemma LeaveAtRight(c: Ctx, d: nat, sp: Spot, p: Piece, lo: nat, i: nat, st: Stream, right: Trail, m: Machine)
    returns (m': Machine, trail: Trail)
    requires p.node.Alt? && Placed(c, sp, p, lo) && i <= |c.subject| && Within(st, |c.subject|) && st.ends != []
    requires Arrives(c, d, sp, AltRight(p), i, st, m, lo, right)
    ensures Goes(c, d, sp, lo, p, m, m') && Arrives(c, d, sp, p, i, st, m', lo, trail)
  {
    PlacedInAlt(c, sp, p, lo);
    var f, rest := Field(p.nid, Arm), Stream(st.ends[1..], st.cut);
    m' := NoteAndGo(c, sp, lo, p, m, AltArm(p.nid, Rg, 2, p.g), f, 2, p.g);
    GoesBy(c, d, sp, lo, p, m, m');
    trail := InRight(right);
    SuspendedPastNote(c, d, AltRight(p), i, st.ends[0], rest, m.heap, sp.z, lo, m.pos, right, f, 2);
    SuspendInRight(c, d, p, i, st.ends[0], rest, m'.heap, sp.z, lo, m.pos, trail);
  }

  function BetaCode(p: Piece): seq<Stmt> {
    var f := Field(p.nid, Arm);
    [IfGoto(IntIs(f, 1), P(Sub(p.k + 1), Beta)), IfGoto(IntIs(f, 2), P(Sub(p.k + 2), Beta)), Goto(p.o)]
  }

  lemma AtBeta(c: Ctx, sp: Spot, p: Piece, lo: nat, m: Machine)
    requires p.node.Alt? && Placed(c, sp, p, lo) && AtPort(c, sp, m, P(p.nid, Beta))
    ensures AtCode(sp, m, BetaCode(p)) && AltCode(c.prog.bodies[sp.name], p)
  {
    PlacedInAlt(c, sp, p, lo);
    var code := BetaCode(p);
    FlattenThree([code[0]], [code[1]], [code[2]]);
    CodeOf(c, sp, m, AltBeta(p.nid, Sub(p.k + 1), Sub(p.k + 2), p.o), code);
  }

  /** Beta goes to the arm noted in the frame. */
  lemma ToArm(c: Ctx, sp: Spot, p: Piece, lo: nat, m: Machine, q: Piece) returns (m': Machine)
    requires p.node.Alt? && AtCode(sp, m, BetaCode(p)) && sp.name in c.prog.bodies
    requires q == AltLeft(p) || q == AltRight(p)
    requires P(AltLeft(p).nid, Beta) in c.prog.bodies[sp.name] && P(AltRight(p).nid, Beta) in c.prog.bodies[sp.name]
    requires Notes(sp, m, Field(p.nid, Arm), if q == AltLeft(p) then 1 else 2)
    ensures Moves(c, sp.z, lo, p, m, m') && AtPort(c, sp, m', P(q.nid, Beta))
    ensures m'.heap == m.heap && m'.delta == m.delta && m'.pos == m.pos
  {
    var f := Field(p.nid, Arm);
    m' := IfStep(c, sp, lo, p, m, IntIs(f, 1), P(AltLeft(p).nid, Beta), BetaCode(p));
    if q != AltLeft(p) {
      var m1 := m';
      m' := IfStep(c, sp, lo, p, m1, IntIs(f, 2), P(AltRight(p).nid, Beta), BetaCode(p)[1..]);
      MovesThen(c, sp.z, lo, p, m, m1, m');
    }
  }

  lemma {:induction false} ResumeAlt(c: Ctx, d: nat, sp: Spot, p: Piece, lo: nat, i: nat, e: nat, rest: Stream,
      trail: Trail, m: Machine)
    returns (m': Machine, trail': Trail)
    requires p.node.Alt? && Compiled(c) && Placed(c, sp, p, lo) && Resuming(c, d, sp, p, lo, i, e, rest, trail, m)
    ensures Goes(c, d, sp, lo, p, m, m')
    ensures Delivers(c, d, sp, p, i, rest, m', lo, trail')
    decreases d, p.node, 1, 0, 1
  {
    AtBeta(c, sp, p, lo, m);
    if trail.InLeft? {
      m', trail' := ResumeLeftArm(c, d, sp, p, lo, i, e, trail.restL, trail.left, m);
    } else {
      m', trail' := ResumeRightArm(c, d, sp, p, lo, i, e, rest, trail.right, m);
    }
  }

  /** At its beta, with the arena as it was, a suspended piece can be resumed. */
  lemma StillSuspended(c: Ctx, d: nat, sp: Spot, q: Piece, lo: nat, i: nat, e: nat, rest: Stream, trail: Trail,
                       m: Machine, m': Machine)
    requires Paused(c, d, sp, q, lo, i, e, rest, trail, m) && AtPort(c, sp, m', P(q.nid, Beta))
    requires m'.heap == m.heap && m'.pos == m.pos && m'.delta == e
    ensures Resuming(c, d, sp, q, lo, i, e, rest, trail, m')
  {
  }

  lemma {:induction false} ResumeLeftArm(c: Ctx, d: nat, sp: Spot, p: Piece, lo: nat, i: nat, e: nat, restL: Stream,
      left: Trail, m: Machine)
    returns (m': Machine, trail': Trail)
    requires p.node.Alt? && Compiled(c) && Placed(c, sp, p, lo) && AtCode(sp, m, BetaCode(p)) && m.delta == e
    requires Paused(c, d, sp, AltLeft(p), lo, i, e, restL, left, m)
    requires Notes(sp, m, Field(p.nid, Arm), 1) && i <= |c.subject| && Within(restL, |c.subject|)
    ensures Goes(c, d, sp, lo, p, m, m')
    ensures Delivers(c, d, sp, p, i, Append(restL, EndsOf(c, d, p.node.right, i)), m', lo, trail')
    decreases d, p.node, 1, 0, 0
  {
    PlacedInAlt(c, sp, p, lo);
    var m1 := ToArm(c, sp, p, lo, m, AltLeft(p));
    GoesBy(c, d, sp, lo, p, m, m1);
    StillSuspended(c, d, sp, AltLeft(p), lo, i, e, restL, left, m, m1);
    var m2, t2 := Resume(c, d, sp, AltLeft(p), lo, i, e, restL, left, m1);
    m', trail' := ThenLeft(c, d, sp, p, lo, i, restL, t2, m1, m2);
    GoesThen(c, d, sp, lo, p, m, m1, m');
  }

  lemma {:induction false} ResumeRightArm(c: Ctx, d: nat, sp: Spot, p: Piece, lo: nat, i: nat, e: nat, rest: Stream,
      right: Trail, m: Machine)
    returns (m': Machine, trail': Trail)
    requires p.node.Alt? && Compiled(c) && Placed(c, sp, p, lo) && AtCode(sp, m, BetaCode(p)) && m.delta == e
    requires Paused(c, d, sp, AltRight(p), lo, i, e, rest, right, m)
    requires Notes(sp, m, Field(p.nid, Arm), 2) && i <= |c.subject| && Within(rest, |c.subject|)
    ensures Goes(c, d, sp, lo, p, m, m')
    ensures Delivers(c, d, sp, p, i, rest, m', lo, trail')
    decreases d, p.node, 1, 0, 0
  {
    PlacedInAlt(c, sp, p, lo);
    var m1 := ToArm(c, sp, p, lo, m, AltRight(p));
    GoesBy(c, d, sp, lo, p, m, m1);
    StillSuspended(c, d, sp, AltRight(p), lo, i, e, rest, right, m, m1);
    var m2, t2 := Resume(c, d, sp, AltRight(p), lo, i, e, rest, right, m1);
    m', trail' := ThenRight(c, d, sp, p, lo, i, rest, t2, m1, m2);
    GoesThen(c, d, sp, lo, p, m, m1, m');
  }
}
