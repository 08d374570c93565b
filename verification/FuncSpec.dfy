/** What the generated functions are to deliver: the ends of each node, the state of a
    suspended node in the arena, and what a run may change. */
module FuncSpec {
  import opened Denotation
  import opened FuncIr
  import opened FuncEmitter

  // ----- meaning -----

  function Meaning(node: Node): Pattern {
    match node
    case Lit(s) => Literal(s)
    case Len(n) => Denotation.Len(n)
    case Pos(n) => Denotation.Pos(n)
    case Rpos(n) => RPos(n)
    case Span(cs) => SpanRetreat(cs)
    case Cat(l, r) => Sigma([Meaning(l), Meaning(r)])
    case Alt(l, r) => Pi([Meaning(l), Meaning(r)])
    case Ref(name) => Denotation.Ref(name)
  }

  type Graph = map<string, Node>

  function MeaningOf(graph: Graph): map<string, Pattern> {
    map name | name in graph :: Meaning(graph[name])
  }

  /** What is compiled, and what it is run on: the patterns, the sizes of their structs, the subject. */
  datatype Source = Source(graph: Graph, sizes: map<string, Size>, subject: string)

  /** Ends of `node` from `i`, references followed at most `d` deep. */
  function EndsIn(src: Source, d: nat, node: Node, i: nat): (r: Stream)
    requires i <= |src.subject|
    ensures Within(r, |src.subject|)
  {
    Ends(Env(src.subject, 0, MeaningOf(src.graph)), d, Meaning(node), i)
  }

  /** The compiled graph: its program, the subject, and the counter each function starts at. */
  datatype Ctx = Ctx(prog: Program, graph: Graph, subject: string, starts: map<string, nat>)

  function SourceOf(c: Ctx): Source {
    Source(c.graph, c.prog.sizes, c.subject)
  }

  function EnvOf(c: Ctx): Env {
    Env(c.subject, 0, MeaningOf(c.graph))
  }

  /** Ends of `node` from `i`, references followed at most `d` deep. */
  function EndsOf(c: Ctx, d: nat, node: Node, i: nat): (r: Stream)
    requires i <= |c.subject|
    ensures Within(r, |c.subject|)
  {
    Ends(EnvOf(c), d, Meaning(node), i)
  }

  /** Ends of `node` from each end of `a`. */
  function EndsFrom(c: Ctx, d: nat, a: Stream, node: Node): (r: Stream)
    requires Within(a, |c.subject|)
    ensures Within(r, |c.subject|)
  {
    Extend(EnvOf(c), d, a, [Meaning(node)])
  }

  /** References lead to patterns of the graph, and lengths are not negative. */
  predicate Closed(graph: Graph, node: Node) {
    match node
    case Len(n) => n >= 0
    case Cat(l, r) => Closed(graph, l) && Closed(graph, r)
    case Alt(l, r) => Closed(graph, l) && Closed(graph, r)
    case Ref(name) => name in graph
    case _ => true
  }

  // ----- the code -----

  function Flatten(lines: seq<Line>): seq<Stmt> {
    if lines == [] then [] else lines[0] + Flatten(lines[1..])
  }

  predicate Has(body: Body, b: Block) {
    b.name in body && body[b.name] == Flatten(b.lines)
  }

  predicate HasAll(body: Body, bs: seq<Block>) {
    forall i :: 0 <= i < |bs| ==> Has(body, bs[i])
  }

  /** An emitted node: its identifier, where it goes on success and on failure, and the counter. */
  datatype Piece = Piece(node: Node, nid: Nid, g: Label, o: Label, k: nat)

  function CatLeft(p: Piece): Piece
    requires p.node.Cat?
  {
    Piece(p.node.left, Sub(p.k + 1), P(p.nid, LiOk), P(p.nid, Beta), p.k + 2)
  }

  function CatRight(p: Piece): Piece
    requires p.node.Cat?
  {
    Piece(p.node.right, Sub(p.k + 2), p.g, P(p.nid, RiFail), Next(p.node.left, p.k + 2))
  }

  function AltLeft(p: Piece): Piece
    requires p.node.Alt?
  {
    Piece(p.node.left, Sub(p.k + 1), P(p.nid, Lg), P(p.nid, Lo), p.k + 2)
  }

  function AltRight(p: Piece): Piece
    requires p.node.Alt?
  {
    Piece(p.node.right, Sub(p.k + 2), P(p.nid, Rg), p.o, Next(p.node.left, p.k + 2))
  }

  /** The function body has the blocks of the piece. */
  predicate Wired(body: Body, p: Piece)
    decreases p.node
  {
    match p.node
    case Lit(s) => HasAll(body, LitBlocks(s, p.nid, p.g, p.o))
    case Len(n) => HasAll(body, LenBlocks(n, p.nid, p.g, p.o))
    case Pos(n) => HasAll(body, PosBlocks(NotAt(n), p.nid, p.g, p.o))
    case Rpos(n) => HasAll(body, PosBlocks(NotAtFromEnd(n), p.nid, p.g, p.o))
    case Span(cs) => HasAll(body, SpanBlocks(cs, p.nid, p.g, p.o))
    case Ref(name) => HasAll(body, RefBlocks(name, p.nid, p.g, p.o))
    case Cat(l, r) =>
      && Has(body, CatAlpha(p.nid, Sub(p.k + 1))) && Has(body, CatLiOk(p.nid, Sub(p.k + 2)))
      && Has(body, CatRiFail(p.nid, Sub(p.k + 1))) && Has(body, CatBeta(p.nid, Sub(p.k + 2), p.o))
      && Wired(body, CatLeft(p)) && Wired(body, CatRight(p))
    case Alt(l, r) =>
      && Has(body, AltAlpha(p.nid, Sub(p.k + 1))) && Has(body, AltArm(p.nid, Lg, 1, p.g))
      && Has(body, AltArm(p.nid, Lo, 2, P(Sub(p.k + 2), Alpha))) && Has(body, AltArm(p.nid, Rg, 2, p.g))
      && Has(body, AltBeta(p.nid, Sub(p.k + 1), Sub(p.k + 2), p.o))
      && Wired(body, AltLeft(p)) && Wired(body, AltRight(p))
  }

  function RootPiece(c: Ctx, name: string): Piece
    requires name in c.graph && name in c.starts
  {
    Piece(c.graph[name], Root, P(Root, MatchOk), P(Root, MatchFail), c.starts[name])
  }

  /** The code opens with a call that needs a frame. */
  predicate OpensFrame(code: seq<Stmt>) {
    code != [] && code[0].Call? && code[0].entry == 0
  }

  /** No block does. */
  predicate Quiet(body: Body) {
    forall l :: l in body ==> !OpensFrame(body[l])
  }

  /** Every pattern of the graph is closed and has its function, with the two return labels. */
  ghost predicate Compiled(c: Ctx) {
    forall name :: name in c.graph ==>
      && Closed(c.graph, c.graph[name])
      && name in c.starts && name in c.prog.bodies && name in c.prog.sizes
      && Wired(c.prog.bodies[name], RootPiece(c, name)) && Quiet(c.prog.bodies[name])
      && Has(c.prog.bodies[name], Block(P(Root, MatchOk), [[ReturnOk]]))
      && Has(c.prog.bodies[name], Block(P(Root, MatchFail), [[ReturnFail]]))
  }

  // ----- suspended nodes -----

  /** A node without parts matches from `i` to `e`. */
  predicate LeafMatch(subject: string, node: Node, i: nat, e: nat) {
    && i <= |subject|
    && match node
       case Lit(s) => HasAt(subject, i, s) && e == i + |s|
       case Len(n) => e == i + n && e <= |subject|
       case Pos(n) => i == n && e == i
       case Rpos(n) => i == |subject| - n && e == i
       case Span(cs) => i < e <= RunEnd(subject, cs, i)
       case _ => false
  }

  /** How far a suspended node has got. */
  datatype Trail =
    | AtLeaf
    | InCat(m: nat, mid: nat, restL: Stream, restR: Stream, left: Trail, right: Trail)
    | InLeft(restL: Stream, left: Trail)
    | InRight(right: Trail)
    | InChild(child: Trail)

  /** The piece, entered at `i`, has delivered `e` and has `rest` still to deliver. Its fields
      in frame `z`, and the frames from `lo` to `hi` of the arena, say how to go on. */
  predicate Suspended(c: Ctx, d: nat, p: Piece, i: nat, e: nat, rest: Stream,
                      heap: map<nat, Frame>, z: nat, lo: nat, hi: nat, trail: Trail)
    decreases d, p.node
  {
    && z in heap && i <= |c.subject| && e <= |c.subject| && Within(rest, |c.subject|)
    && lo <= hi
    && match p.node
       case Lit(_) =>
         && lo == hi && IntOf(heap[z], Field(p.nid, SavedCursor)) == i && LeafMatch(c.subject, p.node, i, e)
         && rest == Nothing
       case Len(_) =>
         && lo == hi && IntOf(heap[z], Field(p.nid, SavedCursor)) == i && LeafMatch(c.subject, p.node, i, e)
         && rest == Nothing
       case Pos(_) => lo == hi && LeafMatch(c.subject, p.node, i, e) && rest == Nothing
       case Rpos(_) => lo == hi && LeafMatch(c.subject, p.node, i, e) && rest == Nothing
       case Span(_) =>
         && lo == hi && IntOf(heap[z], Field(p.nid, SavedCursor)) == i && LeafMatch(c.subject, p.node, i, e)
         && rest == Stream(DownTo(e - 1, i), false)
       case Cat(_, r) =>
         && trail.InCat? && IntOf(heap[z], Field(p.nid, Entered)) != 0
         && trail.m <= |c.subject| && Within(trail.restL, |c.subject|) && Within(trail.restR, |c.subject|)
         && Suspended(c, d, CatLeft(p), i, trail.m, trail.restL, heap, z, lo, trail.mid, trail.left)
         && Suspended(c, d, CatRight(p), trail.m, e, trail.restR, heap, z, trail.mid, hi, trail.right)
         && rest == Append(trail.restR, EndsFrom(c, d, trail.restL, r))
       case Alt(_, r) =>
         if trail.InLeft? then
           && IntOf(heap[z], Field(p.nid, Arm)) == 1
           && Suspended(c, d, AltLeft(p), i, e, trail.restL, heap, z, lo, hi, trail.left)
           && rest == Append(trail.restL, EndsOf(c, d, r, i))
         else
           && trail.InRight? && IntOf(heap[z], Field(p.nid, Arm)) == 2
           && Suspended(c, d, AltRight(p), i, e, rest, heap, z, lo, hi, trail.right)
       case Ref(name) =>
         && trail.InChild? && d > 0 && name in c.graph && name in c.starts && name in c.prog.sizes
         && ChildOf(heap[z], Field(p.nid, ChildFrame)) == Some(lo + HEADER_SIZE)
         && IsFrame(heap, lo + HEADER_SIZE, c.prog.sizes[name])
         && Suspended(c, d - 1, RootPiece(c, name), i, e, rest, heap, lo + HEADER_SIZE,
                      lo + Total(c.prog.sizes[name]), hi, trail.child)
  }

  /** A frame of the given size whose slot held nothing before. */
  predicate IsFrame(heap: map<nat, Frame>, addr: nat, size: nat) {
    addr in heap && heap[addr].size == size && heap[addr].prev == None
  }

  // ----- what a run changes -----

  /** Fields of the piece: its own, and those with a counter it has drawn. */
  predicate Owned(f: Field, p: Piece) {
    f.nid == p.nid || (f.nid.Sub? && p.k < f.nid.k <= Next(p.node, p.k))
  }

  predicate NidBelow(p: Piece) {
    p.nid.Sub? ==> p.nid.k <= p.k
  }

  /** Only fields of the piece have changed in a frame. */
  ghost predicate SameButOwned(x: Frame, y: Frame, p: Piece) {
    && x.prev == y.prev && x.size == y.size
    && forall f: Field :: !Owned(f, p) ==> IntOf(x, f) == IntOf(y, f) && ChildOf(x, f) == ChildOf(y, f)
  }

  /** Below `lo` the arena is as it was, but for fields of the piece in frame `z`. */
  ghost predicate Keeps(x: Machine, y: Machine, z: nat, lo: nat, p: Piece) {
    && x.outer == y.outer && x.outerEmpty == y.outerEmpty
    && (forall a: nat :: a in x.heap && a < lo && a != z ==> a in y.heap && y.heap[a] == x.heap[a])
    && z in x.heap && z in y.heap && SameButOwned(x.heap[z], y.heap[z], p)
  }
}
