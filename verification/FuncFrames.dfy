/** Framing: what a run leaves alone, and single statements of the machine. */
module FuncFrames {
  import opened Denotation
  import opened FuncIr
  import opened FuncSpec
  import Runs

  // ----- suspended nodes and changes elsewhere -----

  ghost predicate Apart(p: Piece, q: Piece) {
    forall f: Field :: !(Owned(f, p) && Owned(f, q))
  }

  ghost predicate SameOwned(x: Frame, y: Frame, p: Piece) {
    forall f: Field :: Owned(f, p) ==> IntOf(x, f) == IntOf(y, f) && ChildOf(x, f) == ChildOf(y, f)
  }

  lemma PartsOwned(p: Piece)
    requires NidBelow(p) && (p.node.Cat? || p.node.Alt?)
    ensures var l, r := if p.node.Cat? then CatLeft(p) else AltLeft(p), if p.node.Cat? then CatRight(p)
        else AltRight(p);
            && NidBelow(l) && NidBelow(r) && Apart(l, r)
            && (forall f: Field :: Owned(f, l) || Owned(f, r) ==> Owned(f, p) && f.nid != p.nid)
  {
  }

  /** A suspended node depends on its own fields and on its own part of the arena only. */
  lemma {:induction false} SuspendedFrame(c: Ctx, d: nat, p: Piece, i: nat, e: nat, rest: Stream, heap: map<nat, Frame>,
                                          z: nat, lo: nat, hi: nat, trail: Trail, heap': map<nat, Frame>)
    requires NidBelow(p) && Suspended(c, d, p, i, e, rest, heap, z, lo, hi, trail)
    requires z in heap' && SameOwned(heap[z], heap'[z], p)
    requires forall a: nat :: a in heap && lo <= a < hi ==> a in heap' && heap'[a] == heap[a]
    ensures Suspended(c, d, p, i, e, rest, heap', z, lo, hi, trail)
    decreases d, p.node
  {
    if p.node.Cat? {
      PartsOwned(p);
      assert Owned(Field(p.nid, Entered), p);
      SuspendedFrame(c, d, CatLeft(p), i, trail.m, trail.restL, heap, z, lo, trail.mid, trail.left, heap');
      SuspendedFrame(c, d, CatRight(p), trail.m, e, trail.restR, heap, z, trail.mid, hi, trail.right, heap');
    } else if p.node.Alt? {
      PartsOwned(p);
      assert Owned(Field(p.nid, Arm), p);
      if trail.InLeft? {
        SuspendedFrame(c, d, AltLeft(p), i, e, trail.restL, heap, z, lo, hi, trail.left, heap');
      } else {
        SuspendedFrame(c, d, AltRight(p), i, e, rest, heap, z, lo, hi, trail.right, heap');
      }
    } else if p.node.Ref? {
      var name := p.node.name;
      var z' := lo + HEADER_SIZE;
      assert Owned(Field(p.nid, ChildFrame), p);
      assert lo <= z' < lo + Total(c.prog.sizes[name]) <= hi;
      SuspendedFrame(c, d - 1, RootPiece(c, name), i, e, rest, heap, z', lo + Total(c.prog.sizes[name]), hi,
          trail.child, heap');
    } else {
      assert Owned(Field(p.nid, SavedCursor), p);
    }
  }

  /** A suspended node survives a run above it that keeps to other fields. */
  lemma SuspendedKept(c: Ctx, d: nat, p: Piece, i: nat, e: nat, rest: Stream, x: Machine, z: nat, lo: nat, hi: nat,
      trail: Trail, y: Machine, base: nat, q: Piece)
    requires NidBelow(p) && Suspended(c, d, p, i, e, rest, x.heap, z, lo, hi, trail)
    requires Keeps(x, y, z, base, q) && hi <= base && z < lo && Apart(p, q)
    ensures Suspended(c, d, p, i, e, rest, y.heap, z, lo, hi, trail)
  {
    SuspendedFrame(c, d, p, i, e, rest, x.heap, z, lo, hi, trail, y.heap);
  }

  lemma KeepsThen(x: Machine, y: Machine, w: Machine, z: nat, lo: nat, p: Piece)
    requires Keeps(x, y, z, lo, p) && Keeps(y, w, z, lo, p)
    ensures Keeps(x, w, z, lo, p)
  {
  }

  lemma KeepsWider(x: Machine, y: Machine, z: nat, base: nat, q: Piece, lo: nat, p: Piece)
    requires Keeps(x, y, z, base, q) && lo <= base
    requires forall f: Field :: Owned(f, q) ==> Owned(f, p)
    ensures Keeps(x, y, z, lo, p)
  {
  }

  // ----- single statements -----

  /** An activation: what lies below it on the stack, its function, its frame and its slot. */
  datatype Spot = Spot(below: seq<Activation>, name: string, z: nat, zz: Slot)

  predicate AtCode(sp: Spot, m: Machine, code: seq<Stmt>) {
    && |m.stack| == |sp.below| + 1 && m.stack[..|sp.below|] == sp.below
    && Top(m).name == sp.name && Top(m).z == sp.z && Top(m).zz == sp.zz && Top(m).code == code
  }

  predicate AtPort(c: Ctx, sp: Spot, m: Machine, l: Label) {
    sp.name in c.prog.bodies && l in c.prog.bodies[sp.name] && AtCode(sp, m, c.prog.bodies[sp.name][l])
  }

  /** A run that stays in the activation's frame, and there in the piece's fields. */
  ghost predicate Moves(c: Ctx, z: nat, lo: nat, p: Piece, m: Machine, m': Machine) {
    Reaches(c.prog, c.subject, m, m') && Keeps(m, m', z, lo, p)
  }

  lemma MovesThen(c: Ctx, z: nat, lo: nat, p: Piece, a: Machine, b: Machine, e: Machine)
    requires Moves(c, z, lo, p, a, b) && Moves(c, z, lo, p, b, e)
    ensures Moves(c, z, lo, p, a, e)
  {
    Runs.ReachesTransitive(Stepper(c.prog, c.subject), a, b, e);
    KeepsThen(a, b, e, z, lo, p);
  }

  function FieldOf(op: Op): Option<Field> {
    if op.SetInt? || op.SaveDelta? || op.ClearChild? || op.SpanScan? then Some(op.f) else None
  }

  /** The operation writes no field but the piece's own. */
  predicate Writes(op: Op, nid: Nid) {
    FieldOf(op).Some? ==> FieldOf(op).value.nid == nid
  }

  lemma ApplyKeeps(op: Op, subject: string, fr: Frame, delta: int, empty: bool, p: Piece)
    requires Writes(op, p.nid)
    ensures SameButOwned(fr, Apply(op, subject, fr, delta, empty).fr, p)
  {
  }

  /** One operation: the frame and the cursor change as it says, the arena position does not. */
  ghost predicate Applied(c: Ctx, sp: Spot, lo: nat, p: Piece, m: Machine, op: Op, m': Machine)
    requires m.stack != [] && sp.z in m.heap
  {
    var e := Apply(op, c.subject, m.heap[sp.z], m.delta, Top(m).empty);
    m'.heap == m.heap[sp.z := e.fr] && m'.delta == e.delta && m'.pos == m.pos && Moves(c, sp.z, lo, p, m, m')
  }

  lemma KeepsFrame(m: Machine, m': Machine, z: nat, fr: Frame, lo: nat, p: Piece)
    requires z in m.heap && m'.heap == m.heap[z := fr] && SameButOwned(m.heap[z], fr, p)
    requires m'.outer == m.outer && m'.outerEmpty == m.outerEmpty
    ensures Keeps(m, m', z, lo, p)
  {
  }

  /** One step that applies an operation. */
  lemma AppliedBy(c: Ctx, sp: Spot, lo: nat, p: Piece, m: Machine, op: Op, m': Machine)
    requires m.stack != [] && sp.z in m.heap && Writes(op, p.nid)
    requires Step(c.prog, c.subject, m) == Some(m')
    requires var e := Apply(op, c.subject, m.heap[sp.z], m.delta, Top(m).empty);
             m'.heap == m.heap[sp.z := e.fr] && m'.delta == e.delta && m'.pos == m.pos
    requires m'.outer == m.outer && m'.outerEmpty == m.outerEmpty
    ensures Applied(c, sp, lo, p, m, op, m')
  {
    ApplyKeeps(op, c.subject, m.heap[sp.z], m.delta, Top(m).empty, p);
    KeepsFrame(m, m', sp.z, m'.heap[sp.z], lo, p);
    Runs.ReachesStep(Stepper(c.prog, c.subject), m, m');
  }

  lemma DoStep(c: Ctx, sp: Spot, lo: nat, p: Piece, m: Machine, op: Op, code: seq<Stmt>) returns (m': Machine)
    requires AtCode(sp, m, code) && code != [] && code[0] == Do(op) && sp.z in m.heap && Writes(op, p.nid)
    ensures AtCode(sp, m', code[1..]) && Applied(c, sp, lo, p, m, op, m') && Top(m').empty == Top(m).empty
  {
    m' := Step(c.prog, c.subject, m).value;
    AppliedBy(c, sp, lo, p, m, op, m');
  }

  lemma GotoStep(c: Ctx, sp: Spot, lo: nat, p: Piece, m: Machine, l: Label, code: seq<Stmt>) returns (m': Machine)
    requires AtCode(sp, m, code) && code != [] && code[0] == Goto(l) && sp.z in m.heap
    requires sp.name in c.prog.bodies && l in c.prog.bodies[sp.name]
    ensures AtPort(c, sp, m', l) && Moves(c, sp.z, lo, p, m, m')
    ensures m'.heap == m.heap && m'.delta == m.delta && m'.pos == m.pos
  {
    m' := Step(c.prog, c.subject, m).value;
    Runs.ReachesStep(Stepper(c.prog, c.subject), m, m');
  }

  /** A test that may jump. */
  lemma IfStep(c: Ctx, sp: Spot, lo: nat, p: Piece, m: Machine, op: Op, l: Label, code: seq<Stmt>) returns (m': Machine)
    requires AtCode(sp, m, code) && code != [] && code[0] == IfGoto(op, l) && sp.z in m.heap && Writes(op, p.nid)
    requires sp.name in c.prog.bodies && l in c.prog.bodies[sp.name]
    ensures Applied(c, sp, lo, p, m, op, m')
    ensures if Apply(op, c.subject, m.heap[sp.z], m.delta, Top(m).empty).jump then AtPort(c, sp, m', l)
        else AtCode(sp, m', code[1..])
  {
    m' := Step(c.prog, c.subject, m).value;
    AppliedBy(c, sp, lo, p, m, op, m');
  }
}
