/** Sequences and alternations of a generated function: their blocks, their ends, and how they suspend. */
module FuncParts {
  import opened Denotation
  import opened FuncIr
  import opened FuncEmitter
  import opened FuncSpec
  import opened FuncArena
  import opened FuncFrames
  import opened FuncLeaves
  import Laws
  import Runs

  // ----- runs -----

  lemma GoesBy(c: Ctx, d: nat, sp: Spot, lo: nat, p: Piece, m: Machine, m': Machine)
    requires Moves(c, sp.z, lo, p, m, m')
    ensures Goes(c, d, sp, lo, p, m, m')
  {
  }

  lemma GoesThen(c: Ctx, d: nat, sp: Spot, lo: nat, p: Piece, a: Machine, b: Machine, e: Machine)
    requires Goes(c, d, sp, lo, p, a, b) && Goes(c, d, sp, lo, p, b, e) && (e == b || !Deep(sp, d, b))
    ensures Goes(c, d, sp, lo, p, a, e)
  {
    Runs.ReachesTransitive(Stepper(c.prog, c.subject), a, b, e);
    if Full(c.prog, b) {
      NothingAfter(c, b, e);
    } else if !Over(c, sp, d, e) && e != b {
      KeepsThen(a, b, e, sp.z, lo, p);
    }
  }

  /** From an overflow nothing else is reached. */
  lemma NothingAfter(c: Ctx, m: Machine, m': Machine)
    requires Full(c.prog, m) && Reaches(c.prog, c.subject, m, m')
    ensures m' == m
  {
    FullStops(c.prog, c.subject, m);
    var k: nat :| Runs.Run(Stepper(c.prog, c.subject), m, k) == Some(m');
  }

  lemma GoesWider(c: Ctx, d: nat, sp: Spot, base: nat, q: Piece, lo: nat, p: Piece, m: Machine, m': Machine)
    requires Goes(c, d, sp, base, q, m, m') && lo <= base
    requires forall f: Field :: Owned(f, q) ==> Owned(f, p)
    ensures Goes(c, d, sp, lo, p, m, m')
  {
    if !Over(c, sp, d, m') {
      KeepsWider(m, m', sp.z, base, q, lo, p);
    }
  }

  // ----- blocks that note a number and go on -----

  function Noted(heap: map<nat, Frame>, z: nat, f: Field, v: int): map<nat, Frame>
    requires z in heap
  {
    heap[z := heap[z].(ints := heap[z].ints[f := v])]
  }

  lemma NoteAndGo(c: Ctx, sp: Spot, lo: nat, p: Piece, m: Machine, b: Block, f: Field, v: int, l: Label)
      returns (m': Machine)
    requires AtPort(c, sp, m, b.name) && sp.z in m.heap && Has(c.prog.bodies[sp.name], b)
    requires b.lines == [[Do(SetInt(f, v)), Goto(l)]] && f.nid == p.nid && l in c.prog.bodies[sp.name]
    ensures Moves(c, sp.z, lo, p, m, m') && AtPort(c, sp, m', l)
    ensures m'.delta == m.delta && m'.pos == m.pos && m'.heap == Noted(m.heap, sp.z, f, v)
  {
    FlattenOne([Do(SetInt(f, v)), Goto(l)]);
    var code := [Do(SetInt(f, v)), Goto(l)];
    var m1 := DoStep(c, sp, lo, p, m, SetInt(f, v), code);
    m' := GotoStep(c, sp, lo, p, m1, l, code[1..]);
    MovesThen(c, sp.z, lo, p, m, m1, m');
  }

  lemma SuspendedPastNote(c: Ctx, d: nat, q: Piece, i: nat, e: nat, rest: Stream, heap: map<nat, Frame>,
                          z: nat, lo: nat, hi: nat, trail: Trail, f: Field, v: int)
    requires NidBelow(q) && Suspended(c, d, q, i, e, rest, heap, z, lo, hi, trail) && z < lo && !Owned(f, q)
    ensures Suspended(c, d, q, i, e, rest, Noted(heap, z, f, v), z, lo, hi, trail)
  {
    SuspendedFrame(c, d, q, i, e, rest, heap, z, lo, hi, trail, Noted(heap, z, f, v));
  }

  // ----- ends -----

  /** What a node without parts matches, said of the characters of the subject. SPAN gives its
      longest run first and then one character less each time, down to one. */
  ghost predicate LeafMatches(node: Node, s: string, i: nat, st: Stream)
    requires i <= |s|
  {
    match node
    case Lit(w) => st == if i + |w| <= |s| && s[i..i + |w|] == w then Stream([i + |w|], false) else Nothing
    case Len(n) => st == if n >= 0 && i + n <= |s| then Stream([i + n], false) else Nothing
    case Pos(n) => st == if i == n then Stream([i], false) else Nothing
    case Rpos(n) => st == if |s| - i == n then Stream([i], false) else Nothing
    case Span(cs) => exists e: nat :: SpanMatches(cs, s, i, e, st)
    case _ => true
  }

  /** The longest run ends at `e`; the ends are e, e-1, ..., i+1. */
  predicate SpanMatches(cs: string, s: string, i: nat, e: nat, st: Stream) {
    && i <= e <= |s| && (forall k :: i <= k < e ==> s[k] in cs) && (e < |s| ==> s[e] !in cs)
    && !st.cut && |st.ends| == e - i && forall k :: 0 <= k < e - i ==> st.ends[k] == e - k
  }

  lemma {:induction false} LeafIs(c: Ctx, d: nat, node: Node, i: nat)
    requires i <= |c.subject|
    ensures LeafMatches(node, c.subject, i, EndsOf(c, d, node, i))
  {
    if node.Span? {
      var e := RunEnd(c.subject, node.charset, i);
      assert SpanMatches(node.charset, c.subject, i, e, EndsOf(c, d, node, i));
    }
  }

  lemma CatEnds(c: Ctx, d: nat, l: Node, r: Node, i: nat)
    requires i <= |c.subject|
    ensures EndsOf(c, d, Cat(l, r), i) == EndsFrom(c, d, EndsOf(c, d, l, i), r)
  {
    var parts := [Meaning(l), Meaning(r)];
    assert parts[1..] == [Meaning(r)];
    assert Ends(EnvOf(c), d, Sigma(parts), i) == EndsSeq(EnvOf(c), d, parts, i);
  }

  lemma AltEnds(c: Ctx, d: nat, l: Node, r: Node, i: nat)
    requires i <= |c.subject|
    ensures EndsOf(c, d, Alt(l, r), i) == Append(EndsOf(c, d, l, i), EndsOf(c, d, r, i))
  {
    Laws.AltTwo(EnvOf(c), d, Meaning(l), Meaning(r), i);
  }

  lemma EndsFromNone(c: Ctx, d: nat, st: Stream, r: Node)
    requires st.ends == []
    ensures EndsFrom(c, d, st, r) == st
  {
  }

  lemma EndsFromFirst(c: Ctx, d: nat, st: Stream, r: Node)
    requires Within(st, |c.subject|) && st.ends != []
    ensures EndsFrom(c, d, st, r)
         == Append(EndsOf(c, d, r, st.ends[0]), EndsFrom(c, d, Stream(st.ends[1..], st.cut), r))
  {
    Laws.SeqOne(EnvOf(c), d, Meaning(r), st.ends[0]);
  }

  lemma AppendFirst(a: Stream, b: Stream)
    requires a.ends != []
    ensures Append(a, b).ends != [] && Append(a, b).ends[0] == a.ends[0]
    ensures Stream(Append(a, b).ends[1..], Append(a, b).cut) == Append(Stream(a.ends[1..], a.cut), b)
  {
  }

  lemma AppendNone(a: Stream, b: Stream)
    requires a.ends == []
    ensures Append(a, b) == if a.cut then a else b
  {
  }

  // ----- overflow in a part -----

  lemma LeftSpills(c: Ctx, d: nat, p: Piece, i: nat, lo: nat, m: Machine)
    requires p.node.Cat? && Spills(c, d, p.node.left, i, lo, m)
    ensures Spills(c, d, p.node, i, lo, m)
  {
  }

  /** Overflow while the left part is suspended up to `mid`. */
  lemma RightSpills(c: Ctx, d: nat, p: Piece, i: nat, cur: nat, restL: Stream, heap: map<nat, Frame>, z: nat, lo: nat,
                    mid: nat, left: Trail, m: Machine)
    requires p.node.Cat? && Suspended(c, d, CatLeft(p), i, cur, restL, heap, z, lo, mid, left)
    requires Spills(c, d, p.node.right, cur, mid, m)
    ensures Spills(c, d, p.node, i, lo, m)
  {
    SuspendedShape(c, d, CatLeft(p), i, cur, restL, heap, z, lo, mid, left);
  }

  lemma ArmSpills(c: Ctx, d: nat, p: Piece, i: nat, lo: nat, m: Machine)
    requires p.node.Alt? && (Spills(c, d, p.node.left, i, lo, m) || Spills(c, d, p.node.right, i, lo, m))
    ensures Spills(c, d, p.node, i, lo, m)
  {
  }

  // ----- suspending -----

  lemma SuspendedWithin(c: Ctx, d: nat, p: Piece, i: nat, e: nat, rest: Stream, heap: map<nat, Frame>,
                        z: nat, lo: nat, hi: nat, trail: Trail)
    requires Suspended(c, d, p, i, e, rest, heap, z, lo, hi, trail)
    ensures z in heap && i <= |c.subject| && e <= |c.subject| && Within(rest, |c.subject|)
    ensures lo <= hi
  {
  }

  lemma SuspendInCat(c: Ctx, d: nat, p: Piece, i: nat, e: nat, heap: map<nat, Frame>, z: nat, lo: nat, hi: nat,
      trail: Trail)
    requires p.node.Cat? && trail.InCat? && z in heap && i <= |c.subject| && e <= |c.subject| && lo <= trail.mid <= hi
    requires IntOf(heap[z], Field(p.nid, Entered)) != 0
    requires trail.m <= |c.subject| && Within(trail.restL, |c.subject|) && Within(trail.restR, |c.subject|)
    requires Suspended(c, d, CatLeft(p), i, trail.m, trail.restL, heap, z, lo, trail.mid, trail.left)
    requires Suspended(c, d, CatRight(p), trail.m, e, trail.restR, heap, z, trail.mid, hi, trail.right)
    ensures Suspended(c, d, p, i, e, Append(trail.restR, EndsFrom(c, d, trail.restL, p.node.right)), heap, z, lo, hi,
        trail)
  {
  }

  lemma SuspendInLeft(c: Ctx, d: nat, p: Piece, i: nat, e: nat, heap: map<nat, Frame>, z: nat, lo: nat, hi: nat,
      trail: Trail)
    requires p.node.Alt? && trail.InLeft? && z in heap && i <= |c.subject| && e <= |c.subject|
        && Within(trail.restL, |c.subject|)
    requires IntOf(heap[z], Field(p.nid, Arm)) == 1
    requires Suspended(c, d, AltLeft(p), i, e, trail.restL, heap, z, lo, hi, trail.left)
    ensures Suspended(c, d, p, i, e, Append(trail.restL, EndsOf(c, d, p.node.right, i)), heap, z, lo, hi, trail)
  {
  }

  lemma SuspendInRight(c: Ctx, d: nat, p: Piece, i: nat, e: nat, rest: Stream, heap: map<nat, Frame>,
                       z: nat, lo: nat, hi: nat, trail: Trail)
    requires p.node.Alt? && trail.InRight? && z in heap && i <= |c.subject| && e <= |c.subject|
        && Within(rest, |c.subject|)
    requires IntOf(heap[z], Field(p.nid, Arm)) == 2
    requires Suspended(c, d, AltRight(p), i, e, rest, heap, z, lo, hi, trail.right)
    ensures Suspended(c, d, p, i, e, rest, heap, z, lo, hi, trail)
  {
  }

  // ----- the parts of a sequence and of an alternation -----

  lemma HasFirst(body: Body, bs: seq<Block>)
    requires HasAll(body, bs) && |bs| == 2
    ensures Has(body, bs[0]) && Has(body, bs[1])
  {
  }

  /** Every piece has its alpha and its beta. */
  lemma HasPorts(body: Body, p: Piece)
    requires Wired(body, p)
    ensures P(p.nid, Alpha) in body && P(p.nid, Beta) in body
  {
    if p.node.Lit? { HasFirst(body, LitBlocks(p.node.s, p.nid, p.g, p.o)); }
    else if p.node.Len? { HasFirst(body, LenBlocks(p.node.n, p.nid, p.g, p.o)); }
    else if p.node.Pos? { HasFirst(body, PosBlocks(NotAt(p.node.n), p.nid, p.g, p.o)); }
    else if p.node.Rpos? { HasFirst(body, PosBlocks(NotAtFromEnd(p.node.n), p.nid, p.g, p.o)); }
    else if p.node.Span? { HasFirst(body, SpanBlocks(p.node.charset, p.nid, p.g, p.o)); }
    else if p.node.Ref? { HasFirst(body, RefBlocks(p.node.name, p.nid, p.g, p.o)); }
  }

  /** The four blocks of a sequence, and the ports of its parts. */
  predicate CatCode(body: Body, p: Piece) {
    && Has(body, CatAlpha(p.nid, Sub(p.k + 1))) && Has(body, CatLiOk(p.nid, Sub(p.k + 2)))
    && Has(body, CatRiFail(p.nid, Sub(p.k + 1))) && Has(body, CatBeta(p.nid, Sub(p.k + 2), p.o))
    && P(Sub(p.k + 1), Alpha) in body && P(Sub(p.k + 1), Beta) in body
    && P(Sub(p.k + 2), Alpha) in body && P(Sub(p.k + 2), Beta) in body
  }

  /** The five blocks of an alternation, and the ports of its arms. */
  predicate AltCode(body: Body, p: Piece) {
    && Has(body, AltAlpha(p.nid, Sub(p.k + 1))) && Has(body, AltArm(p.nid, Lg, 1, p.g))
    && Has(body, AltArm(p.nid, Lo, 2, P(Sub(p.k + 2), Alpha))) && Has(body, AltArm(p.nid, Rg, 2, p.g))
    && Has(body, AltBeta(p.nid, Sub(p.k + 1), Sub(p.k + 2), p.o))
    && P(Sub(p.k + 1), Alpha) in body && P(Sub(p.k + 1), Beta) in body
    && P(Sub(p.k + 2), Alpha) in body && P(Sub(p.k + 2), Beta) in body
  }

  lemma WiredCat(body: Body, p: Piece)
    requires p.node.Cat? && Wired(body, p)
    ensures CatCode(body, p) && Wired(body, CatLeft(p)) && Wired(body, CatRight(p))
  {
    HasPorts(body, CatLeft(p));
    HasPorts(body, CatRight(p));
  }

  lemma WiredAlt(body: Body, p: Piece)
    requires p.node.Alt? && Wired(body, p)
    ensures AltCode(body, p) && Wired(body, AltLeft(p)) && Wired(body, AltRight(p))
  {
    HasPorts(body, AltLeft(p));
    HasPorts(body, AltRight(p));
  }

  lemma PlacedInCat(c: Ctx, sp: Spot, p: Piece, lo: nat, mid: nat)
    requires p.node.Cat? && Placed(c, sp, p, lo) && lo <= mid
    ensures Placed(c, sp, CatLeft(p), lo) && Placed(c, sp, CatRight(p), mid)
    ensures CatCode(c.prog.bodies[sp.name], p) && Apart(CatLeft(p), CatRight(p))
  {
    PartsOwned(p);
    WiredCat(c.prog.bodies[sp.name], p);
  }

  lemma PlacedInAlt(c: Ctx, sp: Spot, p: Piece, lo: nat)
    requires p.node.Alt? && Placed(c, sp, p, lo)
    ensures Placed(c, sp, AltLeft(p), lo) && Placed(c, sp, AltRight(p), lo)
    ensures AltCode(c.prog.bodies[sp.name], p) && Apart(AltLeft(p), AltRight(p))
  {
    PartsOwned(p);
    WiredAlt(c.prog.bodies[sp.name], p);
  }

  /** A run of a part is a run of the whole. */
  lemma PartGoes(c: Ctx, d: nat, sp: Spot, p: Piece, q: Piece, base: nat, lo: nat, m: Machine, m': Machine)
    requires NidBelow(p) && lo <= base
    requires (p.node.Cat? && (q == CatLeft(p) || q == CatRight(p)))
        || (p.node.Alt? && (q == AltLeft(p) || q == AltRight(p)))
    requires Goes(c, d, sp, base, q, m, m')
    ensures Goes(c, d, sp, lo, p, m, m')
    ensures !Over(c, sp, d, m') ==> forall kind :: IntOf(m'.heap[sp.z], Field(p.nid, kind)) == IntOf(m.heap[sp.z],
        Field(p.nid, kind))
  {
    PartsOwned(p);
    GoesWider(c, d, sp, base, q, lo, p, m, m');
    forall kind ensures !Owned(Field(p.nid, kind), q) {
      assert Owned(Field(p.nid, kind), q) ==> Field(p.nid, kind).nid != p.nid;
    }
  }
}
