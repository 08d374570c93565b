/** The functions generated for a whole graph: their labels are distinct, so each body can be
    read as a map, and the program is the one the runs are about. */
module FuncProgram {
  import opened FuncIr
  import opened FuncEmitter
  import opened FuncSpec

  predicate Distinct(bs: seq<Block>) {
    forall i, j :: 0 <= i < j < |bs| ==> bs[i].name != bs[j].name
  }

  function BodyOf(bs: seq<Block>): (body: Body)
    ensures forall l :: l in body ==> exists i :: 0 <= i < |bs| && bs[i].name == l && body[l] == Flatten(bs[i].lines)
    ensures forall i :: 0 <= i < |bs| ==> bs[i].name in body
  {
    if bs == [] then map[] else BodyOf(bs[1..])[bs[0].name := Flatten(bs[0].lines)]
  }

  lemma BodyHas(bs: seq<Block>, i: nat)
    requires Distinct(bs) && i < |bs|
    ensures Has(BodyOf(bs), bs[i])
  {
  }

  // ----- labels of one function are distinct -----

  /** The blocks belong to the node `nid` or to one whose counter lies in (lo, hi]. */
  predicate Named(bs: seq<Block>, nid: Nid, lo: nat, hi: nat) {
    forall i :: 0 <= i < |bs| ==> bs[i].name.nid == nid || (bs[i].name.nid.Sub? && lo < bs[i].name.nid.k <= hi)
  }

  predicate Own(bs: seq<Block>, nid: Nid) {
    forall i :: 0 <= i < |bs| ==> bs[i].name.nid == nid
  }

  lemma MergeNamed(a: seq<Block>, x: seq<Block>, b: seq<Block>, y: seq<Block>, e: seq<Block>, nid: Nid, k: nat,
      kr: nat, hi: nat)
    requires Own(a, nid) && Own(b, nid) && Own(e, nid) && k + 2 <= kr <= hi
    requires Named(x, Sub(k + 1), k + 2, kr) && Named(y, Sub(k + 2), kr, hi)
    ensures Named(a + x + b + y + e, nid, k, hi)
  {
  }

  predicate Disjoint(a: seq<Block>, b: seq<Block>) {
    forall i, j :: 0 <= i < |a| && 0 <= j < |b| ==> a[i].name != b[j].name
  }

  lemma Join(a: seq<Block>, b: seq<Block>)
    requires Distinct(a) && Distinct(b) && Disjoint(a, b)
    ensures Distinct(a + b)
  {
  }

  lemma DisjointJoin(a: seq<Block>, b: seq<Block>, x: seq<Block>)
    requires Disjoint(a, x) && Disjoint(b, x)
    ensures Disjoint(a + b, x)
  {
  }

  lemma MergeDistinct(a: seq<Block>, x: seq<Block>, b: seq<Block>, y: seq<Block>, e: seq<Block>, nid: Nid, k: nat,
      kr: nat, hi: nat)
    requires Own(a, nid) && Own(b, nid) && Own(e, nid) && k + 2 <= kr <= hi && (nid.Sub? ==> nid.k <= k)
    requires Named(x, Sub(k + 1), k + 2, kr) && Named(y, Sub(k + 2), kr, hi)
    requires Distinct(a) && Distinct(b) && Distinct(e) && Disjoint(a, b) && Disjoint(a, e) && Disjoint(b, e)
    requires Distinct(x) && Distinct(y)
    ensures Distinct(a + x + b + y + e)
  {
    Join(a, x);
    DisjointJoin(a, x, b);
    Join(a + x, b);
    DisjointJoin(a, x, y);
    DisjointJoin(a + x, b, y);
    Join(a + x + b, y);
    DisjointJoin(a, x, e);
    DisjointJoin(a + x, b, e);
    DisjointJoin(a + x + b, y, e);
    Join(a + x + b + y, e);
  }

  lemma {:induction false} BlocksNamed(node: Node, nid: Nid, g: Label, o: Label, k: nat)
    ensures Named(Blocks(node, nid, g, o, k), nid, k, Next(node, k))
    decreases node
  {
    var li, ri := Sub(k + 1), Sub(k + 2);
    match node
    case Cat(l, r) =>
      BlocksNamed(l, li, P(nid, LiOk), P(nid, Beta), k + 2);
      BlocksNamed(r, ri, g, P(nid, RiFail), Next(l, k + 2));
      MergeNamed([CatAlpha(nid, li)], Blocks(l, li, P(nid, LiOk), P(nid, Beta), k + 2), [CatLiOk(nid, ri)],
                 Blocks(r, ri, g, P(nid, RiFail), Next(l, k + 2)), [CatRiFail(nid, li), CatBeta(nid, ri, o)],
                 nid, k, Next(l, k + 2), Next(node, k));
    case Alt(l, r) =>
      BlocksNamed(l, li, P(nid, Lg), P(nid, Lo), k + 2);
      BlocksNamed(r, ri, P(nid, Rg), o, Next(l, k + 2));
      MergeNamed([AltAlpha(nid, li)], Blocks(l, li, P(nid, Lg), P(nid, Lo), k + 2),
                 [AltArm(nid, Lg, 1, g), AltArm(nid, Lo, 2, P(ri, Alpha))],
                 Blocks(r, ri, P(nid, Rg), o, Next(l, k + 2)), [AltArm(nid, Rg, 2, g), AltBeta(nid, li, ri, o)],
                 nid, k, Next(l, k + 2), Next(node, k));
    case _ =>
  }

  lemma {:induction false} CatDistinct(l: Node, r: Node, nid: Nid, g: Label, o: Label, k: nat)
    requires nid.Sub? ==> nid.k <= k
    requires Distinct(Blocks(l, Sub(k + 1), P(nid, LiOk), P(nid, Beta), k + 2))
    requires Distinct(Blocks(r, Sub(k + 2), g, P(nid, RiFail), Next(l, k + 2)))
    ensures Distinct(Blocks(Cat(l, r), nid, g, o, k))
  {
    var li, ri := Sub(k + 1), Sub(k + 2);
    BlocksNamed(l, li, P(nid, LiOk), P(nid, Beta), k + 2);
    BlocksNamed(r, ri, g, P(nid, RiFail), Next(l, k + 2));
    MergeDistinct([CatAlpha(nid, li)], Blocks(l, li, P(nid, LiOk), P(nid, Beta), k + 2), [CatLiOk(nid, ri)],
                  Blocks(r, ri, g, P(nid, RiFail), Next(l, k + 2)), [CatRiFail(nid, li), CatBeta(nid, ri, o)],
                  nid, k, Next(l, k + 2), Next(Cat(l, r), k));
  }

  lemma {:induction false} AltDistinct(l: Node, r: Node, nid: Nid, g: Label, o: Label, k: nat)
    requires nid.Sub? ==> nid.k <= k
    requires Distinct(Blocks(l, Sub(k + 1), P(nid, Lg), P(nid, Lo), k + 2))
    requires Distinct(Blocks(r, Sub(k + 2), P(nid, Rg), o, Next(l, k + 2)))
    ensures Distinct(Blocks(Alt(l, r), nid, g, o, k))
  {
    var li, ri := Sub(k + 1), Sub(k + 2);
    BlocksNamed(l, li, P(nid, Lg), P(nid, Lo), k + 2);
    BlocksNamed(r, ri, P(nid, Rg), o, Next(l, k + 2));
    MergeDistinct([AltAlpha(nid, li)], Blocks(l, li, P(nid, Lg), P(nid, Lo), k + 2),
                  [AltArm(nid, Lg, 1, g), AltArm(nid, Lo, 2, P(ri, Alpha))],
                  Blocks(r, ri, P(nid, Rg), o, Next(l, k + 2)), [AltArm(nid, Rg, 2, g), AltBeta(nid, li, ri, o)],
                  nid, k, Next(l, k + 2), Next(Alt(l, r), k));
  }

  lemma {:induction false} BlocksDistinct(node: Node, nid: Nid, g: Label, o: Label, k: nat)
    requires nid.Sub? ==> nid.k <= k
    ensures Distinct(Blocks(node, nid, g, o, k))
    decreases node
  {
    match node
    case Cat(l, r) =>
      BlocksDistinct(l, Sub(k + 1), P(nid, LiOk), P(nid, Beta), k + 2);
      BlocksDistinct(r, Sub(k + 2), g, P(nid, RiFail), Next(l, k + 2));
      CatDistinct(l, r, nid, g, o, k);
    case Alt(l, r) =>
      BlocksDistinct(l, Sub(k + 1), P(nid, Lg), P(nid, Lo), k + 2);
      BlocksDistinct(r, Sub(k + 2), P(nid, Rg), o, Next(l, k + 2));
      AltDistinct(l, r, nid, g, o, k);
    case _ =>
  }

  // ----- a body with the blocks of a node is wired for it -----

  lemma HasAllParts(body: Body, a: seq<Block>, b: seq<Block>)
    requires HasAll(body, a + b)
    ensures HasAll(body, a) && HasAll(body, b)
  {
    forall i | 0 <= i < |a| ensures Has(body, a[i]) {
      assert (a + b)[i] == a[i];
    }
    forall i | 0 <= i < |b| ensures Has(body, b[i]) {
      assert (a + b)[|a| + i] == b[i];
    }
  }

  lemma HasAllFive(body: Body, a: seq<Block>, x: seq<Block>, b: seq<Block>, y: seq<Block>, e: seq<Block>)
    requires HasAll(body, a + x + b + y + e)
    ensures HasAll(body, a) && HasAll(body, x) && HasAll(body, b) && HasAll(body, y) && HasAll(body, e)
  {
    HasAllParts(body, a + x + b + y, e);
    HasAllParts(body, a + x + b, y);
    HasAllParts(body, a + x, b);
    HasAllParts(body, a, x);
  }

  function PieceBlocks(p: Piece): seq<Block> {
    Blocks(p.node, p.nid, p.g, p.o, p.k)
  }

  lemma {:induction false} BlocksWire(body: Body, p: Piece)
    requires HasAll(body, PieceBlocks(p))
    ensures Wired(body, p)
    decreases p.node
  {
    var li, ri := Sub(p.k + 1), Sub(p.k + 2);
    if p.node.Cat? {
      var own := [CatRiFail(p.nid, li), CatBeta(p.nid, ri, p.o)];
      HasAllFive(body, [CatAlpha(p.nid, li)], PieceBlocks(CatLeft(p)), [CatLiOk(p.nid, ri)], PieceBlocks(CatRight(p)),
          own);
      assert Has(body, [CatAlpha(p.nid, li)][0]) && Has(body, [CatLiOk(p.nid, ri)][0]) && Has(body, own[0])
          && Has(body, own[1]);
      BlocksWire(body, CatLeft(p));
      BlocksWire(body, CatRight(p));
    } else if p.node.Alt? {
      var mid := [AltArm(p.nid, Lg, 1, p.g), AltArm(p.nid, Lo, 2, P(ri, Alpha))];
      var own := [AltArm(p.nid, Rg, 2, p.g), AltBeta(p.nid, li, ri, p.o)];
      HasAllFive(body, [AltAlpha(p.nid, li)], PieceBlocks(AltLeft(p)), mid, PieceBlocks(AltRight(p)), own);
      assert Has(body, [AltAlpha(p.nid, li)][0]) && Has(body, mid[0]) && Has(body, mid[1]) && Has(body, own[0])
          && Has(body, own[1]);
      BlocksWire(body, AltLeft(p));
      BlocksWire(body, AltRight(p));
    }
  }

  // ----- a whole function -----

  const EXITS: seq<Block> := [Block(P(Root, MatchOk), [[ReturnOk]]), Block(P(Root, MatchFail), [[ReturnFail]])]

  /** The blocks emitted for a pattern of the graph. */
  function Emitted(node: Node, k: nat): seq<Block> {
    Blocks(node, Root, P(Root, MatchOk), P(Root, MatchFail), k)
  }

  predicate NoExits(bs: seq<Block>) {
    forall i :: 0 <= i < |bs| ==> bs[i].name.port != MatchOk && bs[i].name.port != MatchFail
  }

  lemma NoExitsFive(a: seq<Block>, x: seq<Block>, b: seq<Block>, y: seq<Block>, e: seq<Block>)
    requires NoExits(a) && NoExits(x) && NoExits(b) && NoExits(y) && NoExits(e)
    ensures NoExits(a + x + b + y + e)
  {
  }

  /** No emitted block is called like an exit. */
  lemma {:induction false} ExitsApart(node: Node, nid: Nid, g: Label, o: Label, k: nat)
    ensures NoExits(Blocks(node, nid, g, o, k))
    decreases node
  {
    var li, ri := Sub(k + 1), Sub(k + 2);
    match node
    case Cat(l, r) =>
      ExitsApart(l, li, P(nid, LiOk), P(nid, Beta), k + 2);
      ExitsApart(r, ri, g, P(nid, RiFail), Next(l, k + 2));
      NoExitsFive([CatAlpha(nid, li)], Blocks(l, li, P(nid, LiOk), P(nid, Beta), k + 2), [CatLiOk(nid, ri)],
                  Blocks(r, ri, g, P(nid, RiFail), Next(l, k + 2)), [CatRiFail(nid, li), CatBeta(nid, ri, o)]);
    case Alt(l, r) =>
      ExitsApart(l, li, P(nid, Lg), P(nid, Lo), k + 2);
      ExitsApart(r, ri, P(nid, Rg), o, Next(l, k + 2));
      NoExitsFive([AltAlpha(nid, li)], Blocks(l, li, P(nid, Lg), P(nid, Lo), k + 2),
                  [AltArm(nid, Lg, 1, g), AltArm(nid, Lo, 2, P(ri, Alpha))],
                  Blocks(r, ri, P(nid, Rg), o, Next(l, k + 2)), [AltArm(nid, Rg, 2, g), AltBeta(nid, li, ri, o)]);
    case _ =>
  }

  // ----- no block opens with a call that needs a frame -----

  predicate OpensCalm(b: Block) {
    b.lines != [] && b.lines[0] != [] && !OpensFrame(b.lines[0])
  }

  predicate AllCalm(bs: seq<Block>) {
    forall i :: 0 <= i < |bs| ==> OpensCalm(bs[i])
  }

  lemma AllCalmFive(a: seq<Block>, x: seq<Block>, b: seq<Block>, y: seq<Block>, e: seq<Block>)
    requires AllCalm(a) && AllCalm(x) && AllCalm(b) && AllCalm(y) && AllCalm(e)
    ensures AllCalm(a + x + b + y + e)
  {
  }

  lemma LeafCalm(node: Node, nid: Nid, g: Label, o: Label, k: nat)
    requires !node.Cat? && !node.Alt?
    ensures AllCalm(Blocks(node, nid, g, o, k))
  {
  }

  lemma {:induction false} BlocksCalm(node: Node, nid: Nid, g: Label, o: Label, k: nat)
    ensures AllCalm(Blocks(node, nid, g, o, k))
    decreases node
  {
    var li, ri := Sub(k + 1), Sub(k + 2);
    match node
    case Cat(l, r) =>
      BlocksCalm(l, li, P(nid, LiOk), P(nid, Beta), k + 2);
      BlocksCalm(r, ri, g, P(nid, RiFail), Next(l, k + 2));
      AllCalmFive([CatAlpha(nid, li)], Blocks(l, li, P(nid, LiOk), P(nid, Beta), k + 2), [CatLiOk(nid, ri)],
                  Blocks(r, ri, g, P(nid, RiFail), Next(l, k + 2)), [CatRiFail(nid, li), CatBeta(nid, ri, o)]);
    case Alt(l, r) =>
      BlocksCalm(l, li, P(nid, Lg), P(nid, Lo), k + 2);
      BlocksCalm(r, ri, P(nid, Rg), o, Next(l, k + 2));
      AllCalmFive([AltAlpha(nid, li)], Blocks(l, li, P(nid, Lg), P(nid, Lo), k + 2),
                  [AltArm(nid, Lg, 1, g), AltArm(nid, Lo, 2, P(ri, Alpha))],
                  Blocks(r, ri, P(nid, Rg), o, Next(l, k + 2)), [AltArm(nid, Rg, 2, g), AltBeta(nid, li, ri, o)]);
    case _ => LeafCalm(node, nid, g, o, k);
  }

  lemma {:induction false} CalmIsQuiet(bs: seq<Block>)
    requires AllCalm(bs)
    ensures Quiet(BodyOf(bs))
  {
    forall l | l in BodyOf(bs) ensures !OpensFrame(BodyOf(bs)[l]) {
      var i :| 0 <= i < |bs| && bs[i].name == l && BodyOf(bs)[l] == Flatten(bs[i].lines);
      assert OpensCalm(bs[i]);
    }
  }

  lemma FunctionIsQuiet(node: Node, k: nat)
    ensures Quiet(BodyOf(Emitted(node, k) + EXITS))
  {
    BlocksCalm(node, Root, P(Root, MatchOk), P(Root, MatchFail), k);
    assert AllCalm(EXITS);
    CalmIsQuiet(Emitted(node, k) + EXITS);
  }

  lemma FunctionIsWired(node: Node, k: nat)
    ensures Distinct(Emitted(node, k) + EXITS)
    ensures Wired(BodyOf(Emitted(node, k) + EXITS), Piece(node, Root, P(Root, MatchOk), P(Root, MatchFail), k))
    ensures Has(BodyOf(Emitted(node, k) + EXITS), EXITS[0]) && Has(BodyOf(Emitted(node, k) + EXITS), EXITS[1])
  {
    var bs := Emitted(node, k);
    BlocksDistinct(node, Root, P(Root, MatchOk), P(Root, MatchFail), k);
    ExitsApart(node, Root, P(Root, MatchOk), P(Root, MatchFail), k);
    Join(bs, EXITS);
    var body := BodyOf(bs + EXITS);
    forall i | 0 <= i < |bs + EXITS| ensures Has(body, (bs + EXITS)[i]) {
      BodyHas(bs + EXITS, i);
    }
    HasAllParts(body, bs, EXITS);
    BlocksWire(body, Piece(node, Root, P(Root, MatchOk), P(Root, MatchFail), k));
  }
}
