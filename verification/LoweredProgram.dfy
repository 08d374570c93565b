/** A whole lowered program: its block names are distinct, so it can be read as a map,
    and run from the root ports it decides whether the pattern matches. */
module LoweredProgram {
  import opened Labels
  import opened ByrdIr
  import opened Lowering
  import opened LoweringProof
  import opened LoweringRuns
  import Denotation

  predicate Distinct(chunks: seq<Chunk>) {
    forall i, j :: 0 <= i < j < |chunks| ==> chunks[i].name != chunks[j].name
  }

  function CodeOf(chunks: seq<Chunk>): (code: Code)
    ensures forall l :: l in code ==> exists i :: 0 <= i < |chunks| && chunks[i].name == l && chunks[i].insns == code[l]
    ensures forall i :: 0 <= i < |chunks| ==> chunks[i].name in code
  {
    if chunks == [] then map[] else CodeOf(chunks[1..])[chunks[0].name := chunks[0].insns]
  }

  lemma CodeHasChunk(chunks: seq<Chunk>, i: nat)
    requires Distinct(chunks) && i < |chunks|
    ensures Has(CodeOf(chunks), chunks[i].name, chunks[i].insns)
  {
  }

  /** Every block is called `a` or `b`, or has a name drawn between `lo` and `hi`. */
  predicate Named(chunks: seq<Chunk>, a: Label, b: Label, lo: nat, hi: nat) {
    forall i :: 0 <= i < |chunks| ==>
      chunks[i].name == a || chunks[i].name == b || lo < Serial(chunks[i].name) <= hi
  }

  lemma NamedWider(chunks: seq<Chunk>, a: Label, b: Label, lo: nat, hi: nat, a': Label, b': Label, lo': nat, hi': nat)
    requires Named(chunks, a, b, lo, hi)
    requires lo' <= lo && hi <= hi' && lo' < Serial(a) <= hi' && lo' < Serial(b) <= hi'
    ensures Named(chunks, a', b', lo', hi')
  {
  }

  lemma NamedParts(x: seq<Chunk>, y: seq<Chunk>, z: seq<Chunk>, a: Label, b: Label, lo: nat, hi: nat)
    requires Named(x, a, b, lo, hi) && Named(y, a, b, lo, hi) && Named(z, a, b, lo, hi)
    ensures Named(x + y + z, a, b, lo, hi)
  {
  }

  /** The ports of a sequence carry the counters k+1 to k+4, those of an alternation k+1 to k+7. */
  predicate SeqSerials(p: SeqPorts, k: nat) {
    Serial(p.la) == k + 1 && Serial(p.lb) == k + 2 && Serial(p.ra) == k + 3 && Serial(p.rb) == k + 4
  }

  predicate AltSerials(p: AltPorts, k: nat) {
    && Serial(p.la) == k + 2 && Serial(p.lb) == k + 3 && Serial(p.ra) == k + 4 && Serial(p.rb) == k + 5
    && Serial(p.lg) == k + 6 && Serial(p.rg) == k + 7
  }

  lemma NamesOfSeq(p: SeqPorts, a: Label, b: Label, k: nat, kr: nat, hi: nat, left: seq<Chunk>, right: seq<Chunk>)
    requires SeqSerials(p, k) && k + 4 <= kr <= hi
    requires Named(left, p.la, p.lb, k + 4, kr) && Named(right, p.ra, p.rb, kr, hi)
    ensures Named(SeqWiring(a, b, p) + left + right, a, b, k, hi)
  {
    NamedWider(left, p.la, p.lb, k + 4, kr, a, b, k, hi);
    NamedWider(right, p.ra, p.rb, kr, hi, a, b, k, hi);
    NamedParts(SeqWiring(a, b, p), left, right, a, b, k, hi);
  }

  lemma NamesOfAlt(p: AltPorts, a: Label, b: Label, g: Label, k: nat, kr: nat, hi: nat, left: seq<Chunk>,
      right: seq<Chunk>)
    requires AltSerials(p, k) && k + 7 <= kr <= hi
    requires Named(left, p.la, p.lb, k + 7, kr) && Named(right, p.ra, p.rb, kr, hi)
    ensures Named(AltWiring(a, b, g, p) + left + right, a, b, k, hi)
  {
    NamedWider(left, p.la, p.lb, k + 7, kr, a, b, k, hi);
    NamedWider(right, p.ra, p.rb, kr, hi, a, b, k, hi);
    NamedParts(AltWiring(a, b, g, p), left, right, a, b, k, hi);
  }

  /** A block of a node is its alpha, its beta, or has a name drawn from the counter. */
  lemma {:induction false} NamesOfLower(node: Node, a: Label, b: Label, g: Label, o: Label, k: nat)
    ensures Named(Lower(node, a, b, g, o, k), a, b, k, Next(node, k))
    decreases node
  {
    match node
    case Seq(l, r) =>
      var p := SeqPortsOf(a, k);
      var kr := Next(l, k + 4);
      NamesOfLower(l, p.la, p.lb, p.ra, o, k + 4);
      NamesOfLower(r, p.ra, p.rb, g, p.lb, kr);
      NamesOfSeq(p, a, b, k, kr, Next(r, kr), Lower(l, p.la, p.lb, p.ra, o, k + 4), Lower(r, p.ra, p.rb, g, p.lb, kr));
    case Alt(l, r) =>
      var p := AltPortsOf(a, k);
      var kr := Next(l, k + 7);
      NamesOfLower(l, p.la, p.lb, p.lg, p.ra, k + 7);
      NamesOfLower(r, p.ra, p.rb, p.rg, o, kr);
      NamesOfAlt(p, a, b, g, k, kr, Next(r, kr), Lower(l, p.la, p.lb, p.lg, p.ra, k + 7), Lower(r, p.ra, p.rb, p.rg, o,
          kr));
    case _ =>
  }

  lemma DistinctParts(wiring: seq<Chunk>, left: seq<Chunk>, right: seq<Chunk>)
    requires Distinct(wiring) && Distinct(left) && Distinct(right)
    requires forall i, j :: 0 <= i < |wiring| && 0 <= j < |left| ==> wiring[i].name != left[j].name
    requires forall i, j :: 0 <= i < |wiring| && 0 <= j < |right| ==> wiring[i].name != right[j].name
    requires forall i, j :: 0 <= i < |left| && 0 <= j < |right| ==> left[i].name != right[j].name
    ensures Distinct(wiring + left + right)
  {
  }

  lemma SeqIsDistinct(p: SeqPorts, a: Label, b: Label, k: nat, kr: nat, hi: nat, left: seq<Chunk>, right: seq<Chunk>)
    requires SeqSerials(p, k) && k + 4 <= kr && a != b && Serial(a) <= k && Serial(b) <= k
    requires Distinct(left) && Distinct(right)
    requires Named(left, p.la, p.lb, k + 4, kr) && Named(right, p.ra, p.rb, kr, hi)
    ensures Distinct(SeqWiring(a, b, p) + left + right)
  {
    DistinctParts(SeqWiring(a, b, p), left, right);
  }

  lemma AltIsDistinct(p: AltPorts, a: Label, b: Label, g: Label, k: nat, kr: nat, hi: nat, left: seq<Chunk>,
      right: seq<Chunk>)
    requires AltSerials(p, k) && k + 7 <= kr && a != b && Serial(a) <= k && Serial(b) <= k
    requires Distinct(left) && Distinct(right)
    requires Named(left, p.la, p.lb, k + 7, kr) && Named(right, p.ra, p.rb, kr, hi)
    ensures Distinct(AltWiring(a, b, g, p) + left + right)
  {
    DistinctParts(AltWiring(a, b, g, p), left, right);
  }

  /** Fresh names never collide: each carries its own counter. */
  lemma {:induction false} LowerIsDistinct(node: Node, a: Label, b: Label, g: Label, o: Label, k: nat)
    requires a != b && Serial(a) <= k && Serial(b) <= k
    ensures Distinct(Lower(node, a, b, g, o, k))
    decreases node
  {
    match node
    case Seq(l, r) =>
      var p := SeqPortsOf(a, k);
      var kr := Next(l, k + 4);
      LowerIsDistinct(l, p.la, p.lb, p.ra, o, k + 4);
      LowerIsDistinct(r, p.ra, p.rb, g, p.lb, kr);
      NamesOfLower(l, p.la, p.lb, p.ra, o, k + 4);
      NamesOfLower(r, p.ra, p.rb, g, p.lb, kr);
      SeqIsDistinct(p, a, b, k, kr, Next(r, kr), Lower(l, p.la, p.lb, p.ra, o, k + 4), Lower(r, p.ra, p.rb, g, p.lb,
          kr));
    case Alt(l, r) =>
      var p := AltPortsOf(a, k);
      var kr := Next(l, k + 7);
      LowerIsDistinct(l, p.la, p.lb, p.lg, p.ra, k + 7);
      LowerIsDistinct(r, p.ra, p.rb, p.rg, o, kr);
      NamesOfLower(l, p.la, p.lb, p.lg, p.ra, k + 7);
      NamesOfLower(r, p.ra, p.rb, p.rg, o, kr);
      AltIsDistinct(p, a, b, g, k, kr, Next(r, kr), Lower(l, p.la, p.lb, p.lg, p.ra, k + 7), Lower(r, p.ra, p.rb, p.rg,
          o, kr));
    case _ =>
  }

  ghost predicate HasAll(code: Code, chunks: seq<Chunk>) {
    forall i :: 0 <= i < |chunks| ==> Has(code, chunks[i].name, chunks[i].insns)
  }

  lemma HasParts(code: Code, wiring: seq<Chunk>, left: seq<Chunk>, right: seq<Chunk>)
    requires HasAll(code, wiring + left + right)
    ensures HasAll(code, wiring) && HasAll(code, left) && HasAll(code, right)
  {
    var all := wiring + left + right;
    forall i | 0 <= i < |wiring| ensures Has(code, wiring[i].name, wiring[i].insns) {
      assert all[i] == wiring[i];
    }
    forall i | 0 <= i < |left| ensures Has(code, left[i].name, left[i].insns) {
      assert all[|wiring| + i] == left[i];
    }
    forall i | 0 <= i < |right| ensures Has(code, right[i].name, right[i].insns) {
      assert all[|wiring| + |left| + i] == right[i];
    }
  }

  /** Code that has the emitted blocks is wired for the node, whatever else it has. */
  lemma {:induction false} LowerIsWired(code: Code, node: Node, a: Label, b: Label, g: Label, o: Label, k: nat)
    requires HasAll(code, Lower(node, a, b, g, o, k))
    ensures Wired(code, node, a, b, g, o, k)
    decreases node
  {
    var chunks := Lower(node, a, b, g, o, k);
    match node
    case Seq(l, r) =>
      var p := SeqPortsOf(a, k);
      var wiring := SeqWiring(a, b, p);
      HasParts(code, wiring, Lower(l, p.la, p.lb, p.ra, o, k + 4), Lower(r, p.ra, p.rb, g, p.lb, Next(l, k + 4)));
      assert Has(code, wiring[0].name, wiring[0].insns) && Has(code, wiring[1].name, wiring[1].insns);
      LowerIsWired(code, l, p.la, p.lb, p.ra, o, k + 4);
      LowerIsWired(code, r, p.ra, p.rb, g, p.lb, Next(l, k + 4));
    case Alt(l, r) =>
      var p := AltPortsOf(a, k);
      var wiring := AltWiring(a, b, g, p);
      HasParts(code, wiring, Lower(l, p.la, p.lb, p.lg, p.ra, k + 7), Lower(r, p.ra, p.rb, p.rg, o, Next(l, k + 7)));
      assert Has(code, wiring[0].name, wiring[0].insns) && Has(code, wiring[1].name, wiring[1].insns);
      assert Has(code, wiring[2].name, wiring[2].insns) && Has(code, wiring[3].name, wiring[3].insns);
      LowerIsWired(code, l, p.la, p.lb, p.lg, p.ra, k + 7);
      LowerIsWired(code, r, p.ra, p.rb, p.rg, o, Next(l, k + 7));
    case _ =>
      assert Has(code, chunks[0].name, chunks[0].insns) && Has(code, chunks[1].name, chunks[1].insns);
  }

  // ----- the root program -----

  const ROOT_ALPHA := "root_alpha"
  const ROOT_BETA := "root_beta"
  const SUCCEED := "SUCCEED"
  const CONCEDE := "CONCEDE"

  /** The blocks of a root pattern, lowered when the counter is at `k`. */
  function RootChunks(node: Node, k: nat): seq<Chunk> {
    Lower(node, ROOT_ALPHA, ROOT_BETA, SUCCEED, CONCEDE, k)
  }

  lemma RootNamesArePlain()
    ensures Serial(ROOT_ALPHA) == 0 && Serial(ROOT_BETA) == 0 && Serial(SUCCEED) == 0 && Serial(CONCEDE) == 0
    ensures ROOT_ALPHA != ROOT_BETA && SUCCEED != CONCEDE
    ensures SUCCEED != ROOT_ALPHA && SUCCEED != ROOT_BETA && CONCEDE != ROOT_ALPHA && CONCEDE != ROOT_BETA
  {
    assert ROOT_ALPHA[0] == 'r' && ROOT_BETA[0] == 'r' && SUCCEED[0] == 'S' && CONCEDE[0] == 'C';
    assert ROOT_ALPHA[5] == 'a' && ROOT_BETA[5] == 'b';
  }

  /** From the root's alpha the program reaches SUCCEED at the first end of the pattern,
      or CONCEDE at the start when there is none. */
  lemma RootReaches(node: Node, k: nat, s: string) returns (m: Machine)
    requires AsciiLits(node)
    ensures Reaches(CodeOf(RootChunks(node, k)), s, Machine(ROOT_ALPHA, 0, map[]), m)
    ensures m.pc == if Results(s, node, 0) != [] then SUCCEED else CONCEDE
    ensures m.delta == if Results(s, node, 0) != [] then Results(s, node, 0)[0] else 0
  {
    RootNamesArePlain();
    var chunks := RootChunks(node, k);
    var code := CodeOf(chunks);
    LowerIsDistinct(node, ROOT_ALPHA, ROOT_BETA, SUCCEED, CONCEDE, k);
    forall i | 0 <= i < |chunks| ensures Has(code, chunks[i].name, chunks[i].insns) {
      CodeHasChunk(chunks, i);
    }
    LowerIsWired(code, node, ROOT_ALPHA, ROOT_BETA, SUCCEED, CONCEDE, k);
    var trail;
    m, trail := Enter(code, s, node, ROOT_ALPHA, ROOT_BETA, SUCCEED, CONCEDE, k, 0, Machine(ROOT_ALPHA, 0, map[]));
  }

  // ----- literals that are not ASCII -----

  /** The check goes to gamma past the literal when it stands at `i`, and to omega otherwise. */
  predicate LitBlockIsRight(w: string, s: string, i: nat, a: Label, g: Label, o: Label)
    requires i <= |s|
  {
    var list := Results(s, Lit(w), i);
    Block(s, [LitCheck(w, Utf8Len(w), g, o)], Machine(a, i, map[])) ==
    Denotation.Some(if list != [] then Machine(g, list[0], map[]) else Machine(o, i, map[]))
  }

  lemma AsciiLitIsRight(w: string, s: string, i: nat, a: Label, g: Label, o: Label)
    requires i <= |s| && IsAscii(w)
    ensures LitBlockIsRight(w, s, i, a, g, o)
  {
    Utf8LenOfAscii(w);
  }

  lemma OtherLitIsWrong(w: string, a: Label, g: Label, o: Label)
    requires !IsAscii(w) && g != o
    ensures !LitBlockIsRight(w, w, 0, a, g, o)
  {
    Utf8LenOfAscii(w);
    assert w[0..0 + |w|] == w;
  }

  /** A literal's check is right on every subject exactly when the literal is ASCII: the
      length used is the one in UTF-8, while the subject is indexed by characters. */
  lemma LitIsRightIffAscii(w: string, a: Label, g: Label, o: Label)
    requires g != o
    ensures IsAscii(w) <==> forall s: string, i: nat :: i <= |s| ==> LitBlockIsRight(w, s, i, a, g, o)
  {
    if IsAscii(w) {
      forall s: string, i: nat | i <= |s| ensures LitBlockIsRight(w, s, i, a, g, o) {
        AsciiLitIsRight(w, s, i, a, g, o);
      }
    } else {
      OtherLitIsWrong(w, a, g, o);
    }
  }

  /** A concrete case: the one-character literal é does not match the subject é. */
  lemma AccentIsMissed(a: Label, g: Label, o: Label)
    requires g != o
    ensures Results("\U{e9}", Lit("\U{e9}"), 0) == [1] && !LitBlockIsRight("\U{e9}", "\U{e9}", 0, a, g, o)
  {
    var w := "\U{e9}";
    assert w[1..] == [];
    assert w[0..0 + |w|] == w;
    assert Utf8Len(w) == 2;
  }
}
