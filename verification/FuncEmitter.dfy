/** FuncEmitter.emit_node of archive/backend/emit_c.py: the labelled lines of one function. */
module FuncEmitter {
  import opened FuncIr

  /** One line of the generated C, which may hold several statements. */
  type Line = seq<Stmt>

  datatype Block = Block(name: Label, lines: seq<Line>)

  /** The counter after emitting `node`, when it stands at `k` before. */
  function Next(node: Node, k: nat): (n: nat)
    ensures n >= k
  {
    match node
    case Cat(l, r) => Next(r, Next(l, k + 2))
    case Alt(l, r) => Next(r, Next(l, k + 2))
    case _ => k
  }

  function P(nid: Nid, port: Port): Label {
    Label(nid, port)
  }

  function LitBlocks(s: string, nid: Nid, g: Label, o: Label): seq<Block> {
    var saved := Field(nid, SavedCursor);
    [Block(P(nid, Alpha), [[IfGoto(PastEnd(|s|), o)], [IfGoto(NotLit(s), o)], [Do(SaveDelta(saved)), Do(AddDelta(|s|)),
        Goto(g)]]),
     Block(P(nid, Beta), [[Do(LoadDelta(saved)), Goto(o)]])]
  }

  function LenBlocks(n: int, nid: Nid, g: Label, o: Label): seq<Block> {
    var saved := Field(nid, SavedCursor);
    [Block(P(nid, Alpha), [[IfGoto(PastEnd(n), o)], [Do(SaveDelta(saved)), Do(AddDelta(n)), Goto(g)]]),
     Block(P(nid, Beta), [[Do(LoadDelta(saved)), Goto(o)]])]
  }

  function PosBlocks(test: Op, nid: Nid, g: Label, o: Label): seq<Block> {
    [Block(P(nid, Alpha), [[IfGoto(test, o), Goto(g)]]),
     Block(P(nid, Beta), [[Goto(o)]])]
  }

  function SpanBlocks(cs: string, nid: Nid, g: Label, o: Label): seq<Block> {
    var saved := Field(nid, SavedCursor);
    [Block(P(nid, Alpha), [[IfGoto(SpanScan(cs, saved), o)], [Goto(g)]]),
     Block(P(nid, Beta), [[IfGoto(SpanBack(saved), o)], [Do(AddDelta(-1)), Goto(g)]])]
  }

  function RefBlocks(name: string, nid: Nid, g: Label, o: Label): seq<Block> {
    var child := Field(nid, ChildFrame);
    [Block(P(nid, Alpha), [[Do(ClearChild(child))], [Call(name, child, 0)], [IfGoto(CallWasEmpty, o)], [Goto(g)]]),
     Block(P(nid, Beta), [[Call(name, child, 1)], [IfGoto(CallWasEmpty, o)], [Goto(g)]])]
  }

  function CatAlpha(nid: Nid, li: Nid): Block {
    Block(P(nid, Alpha), [[Do(SetInt(Field(nid, Entered), 0)), Goto(P(li, Alpha))]])
  }

  function CatLiOk(nid: Nid, ri: Nid): Block {
    Block(P(nid, LiOk), [[Do(SetInt(Field(nid, Entered), 1)), Goto(P(ri, Alpha))]])
  }

  /** The right part failed: the left part is resumed. */
  function CatRiFail(nid: Nid, li: Nid): Block {
    Block(P(nid, RiFail), [[Do(SetInt(Field(nid, Entered), 0)), Goto(P(li, Beta))]])
  }

  /** Resumes the right part if it has been entered; also where the left part fails to. */
  function CatBeta(nid: Nid, ri: Nid, o: Label): Block {
    Block(P(nid, Beta), [[IfGoto(IntIsSet(Field(nid, Entered)), P(ri, Beta))], [Goto(o)]])
  }

  function CatBlocks(nid: Nid, li: Nid, ri: Nid, o: Label, left: seq<Block>, right: seq<Block>): seq<Block> {
    [CatAlpha(nid, li)] + left + [CatLiOk(nid, ri)] + right + [CatRiFail(nid, li), CatBeta(nid, ri, o)]
  }

  function AltAlpha(nid: Nid, li: Nid): Block {
    Block(P(nid, Alpha), [[Do(SetInt(Field(nid, Arm), 1)), Goto(P(li, Alpha))]])
  }

  /** Leaves arm `v`: notes it and goes on. */
  function AltArm(nid: Nid, port: Port, v: int, target: Label): Block {
    Block(P(nid, port), [[Do(SetInt(Field(nid, Arm), v)), Goto(target)]])
  }

  function AltBeta(nid: Nid, li: Nid, ri: Nid, o: Label): Block {
    Block(P(nid, Beta), [[IfGoto(IntIs(Field(nid, Arm), 1), P(li, Beta))],
        [IfGoto(IntIs(Field(nid, Arm), 2), P(ri, Beta))], [Goto(o)]])
  }

  function AltBlocks(nid: Nid, li: Nid, ri: Nid, g: Label, o: Label, left: seq<Block>, right: seq<Block>): seq<Block> {
    [AltAlpha(nid, li)] + left + [AltArm(nid, Lg, 1, g), AltArm(nid, Lo, 2, P(ri, Alpha))]
    + right + [AltArm(nid, Rg, 2, g), AltBeta(nid, li, ri, o)]
  }

  /** The blocks of `node` in the order they are emitted. */
  function Blocks(node: Node, nid: Nid, g: Label, o: Label, k: nat): seq<Block> {
    match node
    case Lit(s) => LitBlocks(s, nid, g, o)
    case Len(n) => LenBlocks(n, nid, g, o)
    case Pos(n) => PosBlocks(NotAt(n), nid, g, o)
    case Rpos(n) => PosBlocks(NotAtFromEnd(n), nid, g, o)
    case Span(cs) => SpanBlocks(cs, nid, g, o)
    case Ref(name) => RefBlocks(name, nid, g, o)
    case Cat(l, r) =>
      var li, ri := Sub(k + 1), Sub(k + 2);
      CatBlocks(nid, li, ri, o, Blocks(l, li, P(nid, LiOk), P(nid, Beta), k + 2),
                Blocks(r, ri, g, P(nid, RiFail), Next(l, k + 2)))
    case Alt(l, r) =>
      var li, ri := Sub(k + 1), Sub(k + 2);
      AltBlocks(nid, li, ri, g, o, Blocks(l, li, P(nid, Lg), P(nid, Lo), k + 2),
                Blocks(r, ri, P(nid, Rg), o, Next(l, k + 2)))
  }

  /** The emitter: a counter shared by all functions, and the lines of the one under way. */
  class Emitter {
    var counter: nat
    var body: seq<Block>

    constructor ()
      ensures counter == 0 && body == []
    {
      counter := 0;
      body := [];
    }

    method Fresh() returns (nid: Nid)
      modifies this`counter
      ensures counter == old(counter) + 1 && nid == Sub(counter)
    {
      counter := counter + 1;
      nid := Sub(counter);
    }

    /** A label line and the lines below it. */
    method L(name: Label, lines: seq<Line>)
      modifies this`body
      ensures body == old(body) + [Block(name, lines)]
    {
      body := body + [Block(name, lines)];
    }

    method Add(b: Block)
      modifies this`body
      ensures body == old(body) + [b]
    {
      L(b.name, b.lines);
    }

    /** The blocks of one function, named after its pattern. */
    method EmitFunction(node: Node) returns (blocks: seq<Block>)
      modifies this
      ensures blocks == Blocks(node, Root, P(Root, MatchOk), P(Root, MatchFail), old(counter))
      ensures counter == Next(node, old(counter))
    {
      body := [];
      EmitNode(node, Root, P(Root, MatchOk), P(Root, MatchFail));
      blocks := body;
    }

    method EmitNode(node: Node, nid: Nid, g: Label, o: Label)
      modifies this
      ensures body == old(body) + Blocks(node, nid, g, o, old(counter))
      ensures counter == Next(node, old(counter))
      decreases node, 1
    {
      match node
      case Lit(s) => EmitLit(s, nid, g, o);
      case Len(n) =>
        var saved := Field(nid, SavedCursor);
        L(P(nid, Alpha), [[IfGoto(PastEnd(n), o)], [Do(SaveDelta(saved)), Do(AddDelta(n)), Goto(g)]]);
        L(P(nid, Beta), [[Do(LoadDelta(saved)), Goto(o)]]);
      case Pos(n) =>
        L(P(nid, Alpha), [[IfGoto(NotAt(n), o), Goto(g)]]);
        L(P(nid, Beta), [[Goto(o)]]);
      case Rpos(n) =>
        L(P(nid, Alpha), [[IfGoto(NotAtFromEnd(n), o), Goto(g)]]);
        L(P(nid, Beta), [[Goto(o)]]);
      case Span(cs) => EmitSpan(cs, nid, g, o);
      case Ref(name) => EmitRef(name, nid, g, o);
      case Cat(l, r) => EmitCat(node, nid, g, o);
      case Alt(l, r) => EmitAlt(node, nid, g, o);
    }

    method EmitLit(s: string, nid: Nid, g: Label, o: Label)
      modifies this`body
      ensures body == old(body) + LitBlocks(s, nid, g, o)
    {
      var saved := Field(nid, SavedCursor);
      L(P(nid, Alpha), [[IfGoto(PastEnd(|s|), o)], [IfGoto(NotLit(s), o)], [Do(SaveDelta(saved)), Do(AddDelta(|s|)),
          Goto(g)]]);
      L(P(nid, Beta), [[Do(LoadDelta(saved)), Goto(o)]]);
    }

    method EmitSpan(cs: string, nid: Nid, g: Label, o: Label)
      modifies this`body
      ensures body == old(body) + SpanBlocks(cs, nid, g, o)
    {
      var saved := Field(nid, SavedCursor);
      L(P(nid, Alpha), [[IfGoto(SpanScan(cs, saved), o)], [Goto(g)]]);
      L(P(nid, Beta), [[IfGoto(SpanBack(saved), o)], [Do(AddDelta(-1)), Goto(g)]]);
    }

    method EmitRef(name: string, nid: Nid, g: Label, o: Label)
      modifies this`body
      ensures body == old(body) + RefBlocks(name, nid, g, o)
    {
      var child := Field(nid, ChildFrame);
      L(P(nid, Alpha), [[Do(ClearChild(child))], [Call(name, child, 0)], [IfGoto(CallWasEmpty, o)], [Goto(g)]]);
      L(P(nid, Beta), [[Call(name, child, 1)], [IfGoto(CallWasEmpty, o)], [Goto(g)]]);
    }

    method EmitCat(node: Node, nid: Nid, g: Label, o: Label)
      requires node.Cat?
      modifies this
      ensures body == old(body) + Blocks(node, nid, g, o, old(counter))
      ensures counter == Next(node, old(counter))
      decreases node, 0
    {
      var li := Fresh();
      var ri := Fresh();
      Add(CatAlpha(nid, li));
      ghost var x := Blocks(node.left, li, P(nid, LiOk), P(nid, Beta), counter);
      EmitNode(node.left, li, P(nid, LiOk), P(nid, Beta));
      Add(CatLiOk(nid, ri));
      ghost var y := Blocks(node.right, ri, g, P(nid, RiFail), counter);
      EmitNode(node.right, ri, g, P(nid, RiFail));
      Add(CatRiFail(nid, li));
      Add(CatBeta(nid, ri, o));
      RegroupCat(old(body), nid, li, ri, o, x, y);
    }

    method EmitAlt(node: Node, nid: Nid, g: Label, o: Label)
      requires node.Alt?
      modifies this
      ensures body == old(body) + Blocks(node, nid, g, o, old(counter))
      ensures counter == Next(node, old(counter))
      decreases node, 0
    {
      var li := Fresh();
      var ri := Fresh();
      Add(AltAlpha(nid, li));
      ghost var x := Blocks(node.left, li, P(nid, Lg), P(nid, Lo), counter);
      EmitNode(node.left, li, P(nid, Lg), P(nid, Lo));
      Add(AltArm(nid, Lg, 1, g));
      Add(AltArm(nid, Lo, 2, P(ri, Alpha)));
      ghost var y := Blocks(node.right, ri, P(nid, Rg), o, counter);
      EmitNode(node.right, ri, P(nid, Rg), o);
      Add(AltArm(nid, Rg, 2, g));
      Add(AltBeta(nid, li, ri, o));
      RegroupAlt(old(body), nid, li, ri, g, o, x, y);
    }
  }

  lemma RegroupCat(w: seq<Block>, nid: Nid, li: Nid, ri: Nid, o: Label, x: seq<Block>, y: seq<Block>)
    ensures w + [CatAlpha(nid, li)] + x + [CatLiOk(nid, ri)] + y + [CatRiFail(nid, li)] + [CatBeta(nid, ri, o)]
         == w + CatBlocks(nid, li, ri, o, x, y)
  {
  }

  lemma RegroupAlt(w: seq<Block>, nid: Nid, li: Nid, ri: Nid, g: Label, o: Label, x: seq<Block>, y: seq<Block>)
    ensures w + [AltAlpha(nid, li)] + x + [AltArm(nid, Lg, 1, g)] + [AltArm(nid, Lo, 2, P(ri, Alpha))] + y
          + [AltArm(nid, Rg, 2, g)] + [AltBeta(nid, li, ri, o)]
         == w + AltBlocks(nid, li, ri, g, o, x, y)
  {
  }
}
