/** The four-port lowering of archive/ir/lower.py. */
module Lowering {
  import opened Labels
  import opened ByrdIr

  // ----- the names a node takes from the counter -----

  /** A fresh name: `tag` is appended to the name of the node's alpha port. */
  function Fresh(alpha: Label, tag: string, n: nat): (l: Label)
    requires EndsPlain(tag)
    ensures Serial(l) == n
  {
    Name(alpha + tag, n)
  }

  datatype SeqPorts = SeqPorts(la: Label, lb: Label, ra: Label, rb: Label)

  function SeqPortsOf(alpha: Label, k: nat): SeqPorts {
    SeqPorts(Fresh(alpha, "_Lα", k + 1), Fresh(alpha, "_Lβ", k + 2), Fresh(alpha, "_Rα", k + 3),
        Fresh(alpha, "_Rβ", k + 4))
  }

  datatype AltPorts = AltPorts(slot: TmpLabel, la: Label, lb: Label, ra: Label, rb: Label, lg: Label, rg: Label)

  function AltPortsOf(alpha: Label, k: nat): AltPorts {
    AltPorts(Fresh(alpha, "_T", k + 1), Fresh(alpha, "_Lα", k + 2), Fresh(alpha, "_Lβ", k + 3),
             Fresh(alpha, "_Rα", k + 4), Fresh(alpha, "_Rβ", k + 5), Fresh(alpha, "_Lγ", k + 6),
                 Fresh(alpha, "_Rγ", k + 7))
  }

  /** The counter after lowering `node`, when it stands at `k` before. */
  function Next(node: Node, k: nat): (n: nat)
    ensures n >= k
  {
    match node
    case Seq(l, r) => Next(r, Next(l, k + 4))
    case Alt(l, r) => Next(r, Next(l, k + 7))
    case _ => k
  }

  /** alpha enters the left part; beta resumes the right one, which fails into the left. */
  function SeqWiring(a: Label, b: Label, p: SeqPorts): seq<Chunk> {
    [Chunk(a, [Goto(p.la)]), Chunk(b, [Goto(p.rb)])]
  }

  /** beta jumps to the resume port of the arm that succeeded last, kept in a slot. */
  function AltWiring(a: Label, b: Label, g: Label, p: AltPorts): seq<Chunk> {
    [Chunk(a, [Goto(p.la)]), Chunk(b, [IndirectGoto(p.slot)]),
     Chunk(p.lg, [MoveLabel(p.slot, p.lb), Goto(g)]), Chunk(p.rg, [MoveLabel(p.slot, p.rb), Goto(g)])]
  }

  /** The blocks of `node` with the given ports, in the order they are emitted. */
  function Lower(node: Node, a: Label, b: Label, g: Label, o: Label, k: nat): seq<Chunk> {
    match node
    case Lit(s) => [Chunk(a, [LitCheck(s, Utf8Len(s), g, o)]), Chunk(b, [LitRetreat(Utf8Len(s), o)])]
    case Any(cs) => [Chunk(a, [AnyCheck(cs, g, o)]), Chunk(b, [AnyRetreat(o)])]
    case Notany(cs) => [Chunk(a, [NotanyCheck(cs, g, o)]), Chunk(b, [NotanyRetreat(o)])]
    case Pos(n) => [Chunk(a, [PosCheck(n, g, o)]), Chunk(b, [Goto(o)])]
    case Rpos(n) => [Chunk(a, [RposCheck(n, g, o)]), Chunk(b, [Goto(o)])]
    case Seq(l, r) =>
      var p := SeqPortsOf(a, k);
      SeqWiring(a, b, p)
      + Lower(l, p.la, p.lb, p.ra, o, k + 4)
      + Lower(r, p.ra, p.rb, g, p.lb, Next(l, k + 4))
    case Alt(l, r) =>
      var p := AltPortsOf(a, k);
      AltWiring(a, b, g, p)
      + Lower(l, p.la, p.lb, p.lg, p.ra, k + 7)
      + Lower(r, p.ra, p.rb, p.rg, o, Next(l, k + 7))
  }

  /** The recursive emitter: it draws names from a counter and appends blocks to one list. */
  class Lowerer {
    var counter: nat
    var out: seq<Chunk>

    /** A new list of chunks; the counter goes on from where it was. */
    constructor (counter: nat)
      ensures this.counter == counter && out == []
    {
      this.counter := counter;
      out := [];
    }

    method Draw(alpha: Label, tag: string) returns (l: Label)
      requires EndsPlain(tag)
      modifies this`counter
      ensures counter == old(counter) + 1 && l == Fresh(alpha, tag, counter)
    {
      counter := counter + 1;
      l := Fresh(alpha, tag, counter);
    }

    method Put(name: Label, insns: seq<Insn>)
      modifies this`out
      ensures out == old(out) + [Chunk(name, insns)]
    {
      out := out + [Chunk(name, insns)];
    }

    method Emit(node: Node, a: Label, b: Label, g: Label, o: Label)
      modifies this
      ensures out == old(out) + Lower(node, a, b, g, o, old(counter))
      ensures counter == Next(node, old(counter))
      decreases node, 1
    {
      match node
      case Lit(s) =>
        var n := Utf8Len(s);
        Put(a, [LitCheck(s, n, g, o)]);
        Put(b, [LitRetreat(n, o)]);
      case Any(cs) =>
        Put(a, [AnyCheck(cs, g, o)]);
        Put(b, [AnyRetreat(o)]);
      case Notany(cs) =>
        Put(a, [NotanyCheck(cs, g, o)]);
        Put(b, [NotanyRetreat(o)]);
      case Pos(n) =>
        Put(a, [PosCheck(n, g, o)]);
        Put(b, [Goto(o)]);
      case Rpos(n) =>
        Put(a, [RposCheck(n, g, o)]);
        Put(b, [Goto(o)]);
      case Seq(l, r) =>
        EmitSeq(node, a, b, g, o);
      case Alt(l, r) =>
        EmitAlt(node, a, b, g, o);
    }

    method DrawSeqPorts(a: Label) returns (p: SeqPorts)
      modifies this`counter
      ensures p == SeqPortsOf(a, old(counter)) && counter == old(counter) + 4
    {
      var la := Draw(a, "_Lα");
      var lb := Draw(a, "_Lβ");
      var ra := Draw(a, "_Rα");
      var rb := Draw(a, "_Rβ");
      p := SeqPorts(la, lb, ra, rb);
    }

    method DrawAltPorts(a: Label) returns (p: AltPorts)
      modifies this`counter
      ensures p == AltPortsOf(a, old(counter)) && counter == old(counter) + 7
    {
      var t := Draw(a, "_T");
      var la := Draw(a, "_Lα");
      var lb := Draw(a, "_Lβ");
      var ra := Draw(a, "_Rα");
      var rb := Draw(a, "_Rβ");
      var lg := Draw(a, "_Lγ");
      var rg := Draw(a, "_Rγ");
      p := AltPorts(t, la, lb, ra, rb, lg, rg);
    }

    method PutSeqWiring(a: Label, b: Label, p: SeqPorts)
      modifies this`out
      ensures out == old(out) + SeqWiring(a, b, p)
    {
      Put(a, [Goto(p.la)]);
      Put(b, [Goto(p.rb)]);
    }

    method PutAltWiring(a: Label, b: Label, g: Label, p: AltPorts)
      modifies this`out
      ensures out == old(out) + AltWiring(a, b, g, p)
    {
      Put(a, [Goto(p.la)]);
      Put(b, [IndirectGoto(p.slot)]);
      Put(p.lg, [MoveLabel(p.slot, p.lb), Goto(g)]);
      Put(p.rg, [MoveLabel(p.slot, p.rb), Goto(g)]);
    }

    method EmitSeq(node: Node, a: Label, b: Label, g: Label, o: Label)
      requires node.Seq?
      modifies this
      ensures out == old(out) + Lower(node, a, b, g, o, old(counter))
      ensures counter == Next(node, old(counter))
      decreases node, 0
    {
      ghost var k := counter;
      var p := DrawSeqPorts(a);
      PutSeqWiring(a, b, p);
      Emit(node.left, p.la, p.lb, p.ra, o);
      Emit(node.right, p.ra, p.rb, g, p.lb);
      Regroup(old(out), SeqWiring(a, b, p), Lower(node.left, p.la, p.lb, p.ra, o, k + 4),
              Lower(node.right, p.ra, p.rb, g, p.lb, Next(node.left, k + 4)));
    }

    method EmitAlt(node: Node, a: Label, b: Label, g: Label, o: Label)
      requires node.Alt?
      modifies this
      ensures out == old(out) + Lower(node, a, b, g, o, old(counter))
      ensures counter == Next(node, old(counter))
      decreases node, 0
    {
      ghost var k := counter;
      var p := DrawAltPorts(a);
      PutAltWiring(a, b, g, p);
      Emit(node.left, p.la, p.lb, p.lg, p.ra);
      Emit(node.right, p.ra, p.rb, p.rg, o);
      Regroup(old(out), AltWiring(a, b, g, p), Lower(node.left, p.la, p.lb, p.lg, p.ra, k + 7),
              Lower(node.right, p.ra, p.rb, p.rg, o, Next(node.left, k + 7)));
    }
  }

  lemma Regroup(w: seq<Chunk>, x: seq<Chunk>, y: seq<Chunk>, z: seq<Chunk>)
    ensures w + x + y + z == w + (x + y + z)
  {
  }
}
