/** A reference in a generated function: the call, its frame in the arena, and the return. */
module FuncCalls {
  import opened Denotation
  import opened FuncIr
  import opened FuncEmitter
  import opened FuncSpec
  import opened FuncArena
  import opened FuncFrames
  import opened FuncLeaves
  import Runs

  function ChildField(p: Piece): Field {
    Field(p.nid, ChildFrame)
  }

  /** What follows a call. */
  function CallTail(p: Piece): seq<Stmt> {
    [IfGoto(CallWasEmpty, p.o), Goto(p.g)]
  }

  lemma RefCode(name: string, p: Piece)
    ensures Flatten(RefBlocks(name, p.nid, p.g, p.o)[0].lines)
         == [Do(ClearChild(ChildField(p))), Call(name, ChildField(p), 0)] + CallTail(p)
    ensures Flatten(RefBlocks(name, p.nid, p.g, p.o)[1].lines) == [Call(name, ChildField(p), 1)] + CallTail(p)
  {
    var f := ChildField(p);
    FlattenFour([Do(ClearChild(f))], [Call(name, f, 0)], [IfGoto(CallWasEmpty, p.o)], [Goto(p.g)]);
    FlattenThree([Call(name, f, 1)], [IfGoto(CallWasEmpty, p.o)], [Goto(p.g)]);
  }

  /** The stack of a caller that waits for its callee. */
  predicate Waiting(sp: Spot, p: Piece, below: seq<Activation>) {
    && |below| == |sp.below| + 1 && below[..|sp.below|] == sp.below
    && below[|sp.below|].name == sp.name && below[|sp.below|].z == sp.z && below[|sp.below|].zz == sp.zz
    && below[|sp.below|].code == CallTail(p)
  }

  /** The callee's activation: its frame is the lowest of the caller's free part of the arena. */
  function Callee(sp: Spot, p: Piece, below: seq<Activation>, name: string, lo: nat): Spot {
    Spot(below, name, lo + HEADER_SIZE, ChildSlot(sp.z, ChildField(p)))
  }

  predicate Known(c: Ctx, name: string) {
    name in c.graph && name in c.starts && name in c.prog.bodies && name in c.prog.sizes
  }

  /** The callee's frame is in the arena and in the caller's slot. */
  predicate Linked(c: Ctx, sp: Spot, p: Piece, name: string, lo: nat, m: Machine)
    requires name in c.prog.sizes
  {
    && sp.z in m.heap && ChildOf(m.heap[sp.z], ChildField(p)) == Some(lo + HEADER_SIZE)
    && IsFrame(m.heap, lo + HEADER_SIZE, c.prog.sizes[name])
  }

  lemma RefEnds(c: Ctx, d: nat, name: string, i: nat)
    requires i <= |c.subject| && name in c.graph
    ensures EndsOf(c, d, Node.Ref(name), i) == if d == 0 then Stream([], true) else EndsOf(c, d - 1, c.graph[name], i)
  {
  }

  lemma PlacedInRef(c: Ctx, sp: Spot, p: Piece, lo: nat, below: seq<Activation>)
    requires p.node.Ref? && Placed(c, sp, p, lo) && Compiled(c)
    ensures Known(c, p.node.name)
    ensures Placed(c, Callee(sp, p, below, p.node.name, lo), RootPiece(c, p.node.name),
        lo + Total(c.prog.sizes[p.node.name]))
  {
  }

  // ----- entry 0 -----

  lemma OpenStep(c: Ctx, sp: Spot, p: Piece, lo: nat, name: string, m: Machine)
      returns (m': Machine, below: seq<Activation>)
    requires AtCode(sp, m, [Call(name, ChildField(p), 0)] + CallTail(p)) && sp.z in m.heap && sp.z < lo
    requires Known(c, name) && lo + Total(c.prog.sizes[name]) <= ARENA_SIZE && m.pos == lo
    requires P(Root, Alpha) in c.prog.bodies[name] && ChildOf(m.heap[sp.z], ChildField(p)) == None
    ensures Waiting(sp, p, below) && Moves(c, sp.z, lo, p, m, m') && Linked(c, sp, p, name, lo, m')
    ensures AtPort(c, Callee(sp, p, below, name, lo), m', P(Root, Alpha))
    ensures m'.delta == m.delta && m'.pos == lo + Total(c.prog.sizes[name])
  {
    below := m.stack[..|sp.below|] + [Top(m).(code := CallTail(p))];
    assert ([Call(name, ChildField(p), 0)] + CallTail(p))[1..] == CallTail(p);
    var next := WithTop(m, Top(m).(code := CallTail(p)));
    assert next.stack == below;
    var f := ChildField(p);
    var addr := lo + HEADER_SIZE;
    var fr := Frame(map[], map[], None, c.prog.sizes[name]);
    var caller := m.heap[sp.z].(children := m.heap[sp.z].children[f := addr]);
    m' := Invoke(c.prog, next, name, ChildSlot(sp.z, f), 0).value;
    assert m'.heap == m.heap[addr := fr][sp.z := caller];
    assert Step(c.prog, c.subject, m) == Some(m');
    Runs.ReachesStep(Stepper(c.prog, c.subject), m, m');
    LinkKeeps(m, m', sp.z, lo, p, fr);
  }

  /** Only the new frame is new, and the caller's field leads to it. */
  lemma LinkKeeps(m: Machine, m': Machine, z: nat, lo: nat, p: Piece, fr: Frame)
    requires z in m.heap && z < lo && m'.outer == m.outer && m'.outerEmpty == m.outerEmpty
    requires var caller := m.heap[z].(children := m.heap[z].children[ChildField(p) := lo + HEADER_SIZE]);
             m'.heap == m.heap[lo + HEADER_SIZE := fr][z := caller]
    ensures Keeps(m, m', z, lo, p)
  {
  }

  lemma ToCall(c: Ctx, sp: Spot, p: Piece, lo: nat, i: nat, m: Machine) returns (m': Machine)
    requires p.node.Ref? && Placed(c, sp, p, lo) && Entering(c, sp, p, lo, i, m)
    ensures Moves(c, sp.z, lo, p, m, m') && AtCode(sp, m', [Call(p.node.name, ChildField(p), 0)] + CallTail(p))
    ensures m'.delta == i && m'.pos == lo && sp.z in m'.heap && ChildOf(m'.heap[sp.z], ChildField(p)) == None
  {
    var name := p.node.name;
    RefCode(name, p);
    var b := RefBlocks(name, p.nid, p.g, p.o)[0];
    var code := Flatten(b.lines);
    CodeOf(c, sp, m, b, code);
    m' := DoStep(c, sp, lo, p, m, ClearChild(ChildField(p)), code);
    assert code[1..] == [Call(name, ChildField(p), 0)] + CallTail(p);
  }

  /** At the call, with no room for the frame. */
  lemma CallSpills(c: Ctx, d: nat, sp: Spot, p: Piece, lo: nat, i: nat, m: Machine)
    requires p.node.Ref? && AtCode(sp, m, [Call(p.node.name, ChildField(p), 0)] + CallTail(p)) && sp.z in m.heap
    requires Known(c, p.node.name) && m.pos == lo && lo + Total(c.prog.sizes[p.node.name]) > ARENA_SIZE
    ensures Spills(c, d, p.node, i, lo, m)
  {
    assert Top(m).code[0] == Call(p.node.name, ChildField(p), 0);
  }

  /** Overflow in the callee. */
  lemma CalleeSpills(c: Ctx, d: nat, p: Piece, i: nat, lo: nat, m: Machine)
    requires p.node.Ref? && d > 0 && Known(c, p.node.name)
    requires Spills(c, d - 1, c.graph[p.node.name], i, lo + Total(c.prog.sizes[p.node.name]), m)
    ensures Spills(c, d, p.node, i, lo, m)
  {
  }

  // ----- entry 1 -----

  lemma Reopen(c: Ctx, sp: Spot, p: Piece, lo: nat, m: Machine) returns (m': Machine, below: seq<Activation>)
    requires p.node.Ref? && Placed(c, sp, p, lo) && AtPort(c, sp, m, P(p.nid, Beta)) && sp.z in m.heap
    requires Known(c, p.node.name) && P(Root, Beta) in c.prog.bodies[p.node.name] && Linked(c, sp, p, p.node.name, lo,
        m)
    ensures Waiting(sp, p, below) && Moves(c, sp.z, lo, p, m, m') && Linked(c, sp, p, p.node.name, lo, m')
    ensures AtPort(c, Callee(sp, p, below, p.node.name, lo), m', P(Root, Beta))
    ensures m'.delta == m.delta && m'.pos == m.pos && m'.heap == m.heap
  {
    var name := p.node.name;
    RefCode(name, p);
    var b := RefBlocks(name, p.nid, p.g, p.o)[1];
    CodeOf(c, sp, m, b, [Call(name, ChildField(p), 1)] + CallTail(p));
    below := m.stack[..|sp.below|] + [Top(m).(code := CallTail(p))];
    assert ([Call(name, ChildField(p), 1)] + CallTail(p))[1..] == CallTail(p);
    m' := Step(c.prog, c.subject, m).value;
    assert m'.stack[..|below|] == below;
    Runs.ReachesStep(Stepper(c.prog, c.subject), m, m');
  }

  // ----- the callee's run, seen by the caller -----

  lemma CalleeGoes(c: Ctx, d: nat, sp: Spot, p: Piece, lo: nat, below: seq<Activation>, m: Machine, m': Machine)
    requires p.node.Ref? && d > 0 && Known(c, p.node.name) && Waiting(sp, p, below) && sp.z < lo
    requires Linked(c, sp, p, p.node.name, lo, m)
    requires Goes(c, d - 1, Callee(sp, p, below, p.node.name, lo), lo + Total(c.prog.sizes[p.node.name]),
        RootPiece(c, p.node.name), m, m')
    ensures Goes(c, d, sp, lo, p, m, m')
    ensures !Over(c, sp, d, m') ==> Linked(c, sp, p, p.node.name, lo, m')
  {
  }

  // ----- the return -----

  /** The activation below the callee goes on, knowing whether the answer was empty. */
  lemma TailStep(c: Ctx, sp: Spot, p: Piece, lo: nat, m: Machine) returns (m': Machine)
    requires AtCode(sp, m, CallTail(p)) && sp.z in m.heap && Targets(c, sp, p)
    ensures Moves(c, sp.z, lo, p, m, m') && m'.heap == m.heap && m'.delta == m.delta && m'.pos == m.pos
    ensures AtPort(c, sp, m', if Top(m).empty then p.o else p.g)
  {
    m' := IfStep(c, sp, lo, p, m, CallWasEmpty, p.o, CallTail(p));
    if !Top(m).empty {
      var m1 := m';
      m' := GotoStep(c, sp, lo, p, m1, p.g, CallTail(p)[1..]);
      MovesThen(c, sp.z, lo, p, m, m1, m');
    }
  }

  lemma ReturnEnd(c: Ctx, sp: Spot, p: Piece, lo: nat, below: seq<Activation>, name: string, m: Machine)
      returns (m': Machine)
    requires Waiting(sp, p, below) && Known(c, name) && Targets(c, sp, p) && Linked(c, sp, p, name, lo, m)
    requires AtPort(c, Callee(sp, p, below, name, lo), m, P(Root, MatchOk))
    requires Has(c.prog.bodies[name], Block(P(Root, MatchOk), [[ReturnOk]]))
    ensures Moves(c, sp.z, lo, p, m, m') && AtPort(c, sp, m', p.g)
    ensures m'.heap == m.heap && m'.delta == m.delta && m'.pos == m.pos
  {
    FlattenOne([ReturnOk]);
    var m1 := Step(c.prog, c.subject, m).value;
    assert m.stack[..|m.stack| - 1] == below;
    assert AtCode(sp, m1, CallTail(p)) && !Top(m1).empty;
    Runs.ReachesStep(Stepper(c.prog, c.subject), m, m1);
    assert Moves(c, sp.z, lo, p, m, m1);
    m' := TailStep(c, sp, p, lo, m1);
    MovesThen(c, sp.z, lo, p, m, m1, m');
  }

  /** The callee leaves: its frame is gone from the arena, the cursor is as it was. */
  lemma ReturnNone(c: Ctx, sp: Spot, p: Piece, lo: nat, below: seq<Activation>, name: string, m: Machine)
      returns (m': Machine)
    requires Waiting(sp, p, below) && Known(c, name) && Targets(c, sp, p) && Linked(c, sp, p, name, lo, m) && sp.z < lo
    requires AtPort(c, Callee(sp, p, below, name, lo), m, P(Root, MatchFail)) && m.pos == lo + Total(c.prog.sizes[name])
    requires Has(c.prog.bodies[name], Block(P(Root, MatchFail), [[ReturnFail]]))
    ensures Moves(c, sp.z, lo, p, m, m') && AtPort(c, sp, m', p.o)
    ensures m'.delta == m.delta && m'.pos == lo
  {
    FlattenOne([ReturnFail]);
    var f := ChildField(p);
    var caller := m.heap[sp.z].(children := m.heap[sp.z].children - {f});
    var left := Exit(m, ChildSlot(sp.z, f));
    assert left == m.(heap := m.heap[sp.z := caller], pos := lo);
    var m1 := Step(c.prog, c.subject, m).value;
    assert m.stack[..|m.stack| - 1] == below;
    assert AtCode(sp, m1, CallTail(p)) && Top(m1).empty;
    Runs.ReachesStep(Stepper(c.prog, c.subject), m, m1);
    KeepsFrame(m, m1, sp.z, caller, lo, p);
    m' := TailStep(c, sp, p, lo, m1);
    MovesThen(c, sp.z, lo, p, m, m1, m');
  }

  lemma SuspendInChild(c: Ctx, d: nat, sp: Spot, p: Piece, i: nat, e: nat, rest: Stream, m: Machine, lo: nat, hi: nat,
      child: Trail)
    requires p.node.Ref? && d > 0 && Known(c, p.node.name) && Linked(c, sp, p, p.node.name, lo, m)
    requires i <= |c.subject| && e <= |c.subject| && Within(rest, |c.subject|)
    requires Suspended(c, d - 1, RootPiece(c, p.node.name), i, e, rest, m.heap, lo + HEADER_SIZE,
                       lo + Total(c.prog.sizes[p.node.name]), hi, child)
    ensures Suspended(c, d, p, i, e, rest, m.heap, sp.z, lo, hi, InChild(child))
  {
  }

  lemma Return(c: Ctx, d: nat, sp: Spot, p: Piece, lo: nat, below: seq<Activation>, i: nat, st: Stream, m: Machine,
      child: Trail)
    returns (m': Machine)
    requires p.node.Ref? && d > 0 && Compiled(c) && Known(c, p.node.name) && Waiting(sp, p, below) && Targets(c, sp, p)
    requires Linked(c, sp, p, p.node.name, lo, m) && sp.z < lo && i <= |c.subject| && Within(st, |c.subject|)
        && !Lost(st)
    requires Arrives(c, d - 1, Callee(sp, p, below, p.node.name, lo), RootPiece(c, p.node.name), i, st, m,
                      lo + Total(c.prog.sizes[p.node.name]), child)
    ensures Moves(c, sp.z, lo, p, m, m') && Arrives(c, d, sp, p, i, st, m', lo, InChild(child))
  {
    if st.ends == [] {
      m' := ReturnNone(c, sp, p, lo, below, p.node.name, m);
    } else {
      m' := ReturnEnd(c, sp, p, lo, below, p.node.name, m);
      SuspendInChild(c, d, sp, p, i, st.ends[0], Stream(st.ends[1..], st.cut), m', lo, m'.pos, child);
    }
  }
}
