/** How much of the arena a derivation takes: the frames of a suspended node, and the frames a
    run may ask for; and when the arena overflows. */
module FuncArena {
  import Denotation
  import opened FuncIr
  import opened FuncSpec

  // ----- suspended nodes -----

  /** The trail is that of a node suspended between `i` and `e`. */
  predicate Shape(src: Source, d: nat, node: Node, i: nat, e: nat, trail: Trail)
    decreases d, node
  {
    && i <= |src.subject| && e <= |src.subject|
    && match node
       case Cat(l, r) =>
         && trail.InCat?
         && Shape(src, d, l, i, trail.m, trail.left) && Shape(src, d, r, trail.m, e, trail.right)
       case Alt(l, r) =>
         if trail.InLeft? then Shape(src, d, l, i, e, trail.left)
         else trail.InRight? && Shape(src, d, r, i, e, trail.right)
       case Ref(name) =>
         trail.InChild? && d > 0 && name in src.graph && Shape(src, d - 1, src.graph[name], i, e, trail.child)
       case _ => LeafMatch(src.subject, node, i, e)
  }

  function FrameSize(src: Source, name: string): nat {
    if name in src.sizes then Total(src.sizes[name]) else 0
  }

  /** Bytes of the arena the suspended node keeps. */
  function SizeOf(src: Source, d: nat, node: Node, trail: Trail): nat
    decreases d, node
  {
    match node
    case Cat(l, r) => if trail.InCat? then SizeOf(src, d, l, trail.left) + SizeOf(src, d, r, trail.right) else 0
    case Alt(l, r) =>
      if trail.InLeft? then SizeOf(src, d, l, trail.left)
      else if trail.InRight? then SizeOf(src, d, r, trail.right) else 0
    case Ref(name) =>
      if trail.InChild? && d > 0 && name in src.graph then
        FrameSize(src, name) + SizeOf(src, d - 1, src.graph[name], trail.child)
      else 0
    case _ => 0
  }

  lemma {:induction false} SuspendedShape(c: Ctx, d: nat, p: Piece, i: nat, e: nat, rest: Denotation.Stream,
                                          heap: map<nat, Frame>, z: nat, lo: nat, hi: nat, trail: Trail)
    requires Suspended(c, d, p, i, e, rest, heap, z, lo, hi, trail)
    ensures Shape(SourceOf(c), d, p.node, i, e, trail) && hi == lo + SizeOf(SourceOf(c), d, p.node, trail)
    decreases d, p.node
  {
    if p.node.Cat? {
      SuspendedShape(c, d, CatLeft(p), i, trail.m, trail.restL, heap, z, lo, trail.mid, trail.left);
      SuspendedShape(c, d, CatRight(p), trail.m, e, trail.restR, heap, z, trail.mid, hi, trail.right);
    } else if p.node.Alt? {
      if trail.InLeft? {
        SuspendedShape(c, d, AltLeft(p), i, e, trail.restL, heap, z, lo, hi, trail.left);
      } else {
        SuspendedShape(c, d, AltRight(p), i, e, rest, heap, z, lo, hi, trail.right);
      }
    } else if p.node.Ref? {
      var name := p.node.name;
      SuspendedShape(c, d - 1, RootPiece(c, name), i, e, rest, heap, lo + HEADER_SIZE,
                     lo + FrameSize(SourceOf(c), name), hi, trail.child);
    }
  }

  // ----- frames a run asks for -----

  /** A run of the node, entered at cursor `i` with the arena position at `lo`, may enter a
      frame that ends at `want`: past the frames of what is suspended to its left. */
  ghost predicate Asks(src: Source, d: nat, node: Node, i: nat, lo: nat, want: nat)
    decreases d, node
  {
    match node
    case Cat(l, r) =>
      || Asks(src, d, l, i, lo, want)
      || exists e: nat, left :: Shape(src, d, l, i, e, left) && Asks(src, d, r, e, lo + SizeOf(src, d, l, left), want)
    case Alt(l, r) => Asks(src, d, l, i, lo, want) || Asks(src, d, r, i, lo, want)
    case Ref(name) =>
      && name in src.graph && name in src.sizes
      && (want == lo + Total(src.sizes[name])
          || (d > 0 && Asks(src, d - 1, src.graph[name], i, lo + Total(src.sizes[name]), want)))
    case _ => false
  }

  /** Where the frame ends that the next statement enters; 0 when it enters none. */
  function Wanted(prog: Program, m: Machine): nat {
    if m.stack != [] && Top(m).z in m.heap && OpensFrame(Top(m).code) && Top(m).code[0].callee in prog.sizes then
      m.pos + Total(prog.sizes[Top(m).code[0].callee])
    else 0
  }

  /** The machine is at a call whose frame does not fit: the program is aborted. */
  predicate Full(prog: Program, m: Machine) {
    Wanted(prog, m) > ARENA_SIZE
  }

  lemma FullStops(prog: Program, subject: string, m: Machine)
    requires Full(prog, m)
    ensures Step(prog, subject, m) == Denotation.None
  {
  }

  /** The run has overflowed, at a frame that the node's run may ask for. */
  ghost predicate Spills(c: Ctx, d: nat, node: Node, i: nat, lo: nat, m: Machine) {
    Full(c.prog, m) && Asks(SourceOf(c), d, node, i, lo, Wanted(c.prog, m))
  }
}
