/** The lowered blocks enumerate the ends of the pattern, one for each entry. */
module LoweringProof {
  import Denotation
  import Laws
  import opened Labels
  import opened ByrdIr
  import opened Lowering

  // ----- the ends of a node -----

  function Meaning(node: Node): Denotation.Pattern {
    match node
    case Lit(s) => Denotation.Literal(s)
    case Any(cs) => Denotation.Any(cs)
    case Notany(cs) => Denotation.NotAny(cs)
    case Pos(n) => Denotation.Pos(n)
    case Rpos(n) => Denotation.RPos(n)
    case Seq(l, r) => Denotation.Sigma([Meaning(l), Meaning(r)])
    case Alt(l, r) => Denotation.Pi([Meaning(l), Meaning(r)])
  }

  /** The successive end cursors of `node` from `i`. */
  function Results(s: string, node: Node, i: nat): (r: seq<nat>)
    requires i <= |s|
    ensures forall k :: 0 <= k < |r| ==> r[k] <= |s|
  {
    Denotation.Ends(Denotation.Env(s, 0, map[]), 0, Meaning(node), i).ends
  }

  /** The ends of `node` from each cursor of `xs` in turn. */
  function Chain(s: string, node: Node, xs: seq<nat>): (r: seq<nat>)
    requires forall k :: 0 <= k < |xs| ==> xs[k] <= |s|
    ensures forall k :: 0 <= k < |r| ==> r[k] <= |s|
  {
    if xs == [] then [] else Results(s, node, xs[0]) + Chain(s, node, xs[1..])
  }

  lemma {:induction false} NoCut(s: string, node: Node, i: nat)
    requires i <= |s|
    ensures !Denotation.Ends(Denotation.Env(s, 0, map[]), 0, Meaning(node), i).cut
    decreases node, 1
  {
    var env := Denotation.Env(s, 0, map[]);
    match node
    case Seq(l, r) =>
      NoCut(s, l, i);
      Laws.SeqTwo(env, 0, Meaning(l), Meaning(r), i);
      ChainIsExtend(s, r, Denotation.Ends(env, 0, Meaning(l), i));
    case Alt(l, r) =>
      NoCut(s, l, i);
      NoCut(s, r, i);
      Laws.AltTwo(env, 0, Meaning(l), Meaning(r), i);
    case _ =>
  }

  lemma {:induction false} ChainIsExtend(s: string, node: Node, a: Denotation.Stream)
    requires Denotation.Within(a, |s|) && !a.cut
    ensures Denotation.Extend(Denotation.Env(s, 0, map[]), 0, a, [Meaning(node)])
         == Denotation.Stream(Chain(s, node, a.ends), false)
    decreases node, 2, |a.ends|
  {
    if a.ends != [] {
      NoCut(s, node, a.ends[0]);
      Laws.SeqOne(Denotation.Env(s, 0, map[]), 0, Meaning(node), a.ends[0]);
      ChainIsExtend(s, node, Denotation.Stream(a.ends[1..], false));
    }
  }

  /** What a node without parts matches, said of the characters of the subject. */
  predicate LeafMatches(node: Node, s: string, i: nat, ends: seq<nat>)
    requires i <= |s|
  {
    match node
    case Lit(w) => ends == if i + |w| <= |s| && s[i..i + |w|] == w then [i + |w|] else []
    case Any(cs) => ends == if i < |s| && s[i] in cs then [i + 1] else []
    case Notany(cs) => ends == if i < |s| && s[i] !in cs then [i + 1] else []
    case Pos(n) => ends == if i == n then [i] else []
    case Rpos(n) => ends == if |s| - i == n then [i] else []
    case _ => true
  }

  lemma {:induction false} LeafIs(s: string, node: Node, i: nat)
    requires i <= |s|
    ensures LeafMatches(node, s, i, Results(s, node, i))
  {
  }

  lemma ResultsOfSeq(s: string, l: Node, r: Node, i: nat)
    requires i <= |s|
    ensures Results(s, Seq(l, r), i) == Chain(s, r, Results(s, l, i))
  {
    var env := Denotation.Env(s, 0, map[]);
    Laws.SeqTwo(env, 0, Meaning(l), Meaning(r), i);
    NoCut(s, l, i);
    ChainIsExtend(s, r, Denotation.Ends(env, 0, Meaning(l), i));
  }

  lemma ResultsOfAlt(s: string, l: Node, r: Node, i: nat)
    requires i <= |s|
    ensures Results(s, Alt(l, r), i) == Results(s, l, i) + Results(s, r, i)
  {
    Laws.AltTwo(Denotation.Env(s, 0, map[]), 0, Meaning(l), Meaning(r), i);
    NoCut(s, l, i);
  }

  /** All literals of the node are ASCII, so their length in UTF-8 is their length. */
  predicate AsciiLits(node: Node) {
    match node
    case Lit(s) => IsAscii(s)
    case Seq(l, r) => AsciiLits(l) && AsciiLits(r)
    case Alt(l, r) => AsciiLits(l) && AsciiLits(r)
    case _ => true
  }

  // ----- the code around a node -----

  predicate Has(code: Code, name: Label, insns: seq<Insn>) {
    name in code && code[name] == insns
  }

  /** `code` has the blocks of `node` with these ports; what else it has does not matter. */
  predicate Wired(code: Code, node: Node, a: Label, b: Label, g: Label, o: Label, k: nat) {
    match node
    case Lit(s) => Has(code, a, [LitCheck(s, Utf8Len(s), g, o)]) && Has(code, b, [LitRetreat(Utf8Len(s), o)])
    case Any(cs) => Has(code, a, [AnyCheck(cs, g, o)]) && Has(code, b, [AnyRetreat(o)])
    case Notany(cs) => Has(code, a, [NotanyCheck(cs, g, o)]) && Has(code, b, [NotanyRetreat(o)])
    case Pos(n) => Has(code, a, [PosCheck(n, g, o)]) && Has(code, b, [Goto(o)])
    case Rpos(n) => Has(code, a, [RposCheck(n, g, o)]) && Has(code, b, [Goto(o)])
    case Seq(l, r) =>
      var p := SeqPortsOf(a, k);
      && Has(code, a, [Goto(p.la)]) && Has(code, b, [Goto(p.rb)])
      && Wired(code, l, p.la, p.lb, p.ra, o, k + 4)
      && Wired(code, r, p.ra, p.rb, g, p.lb, Next(l, k + 4))
    case Alt(l, r) =>
      var p := AltPortsOf(a, k);
      && Has(code, a, [Goto(p.la)]) && Has(code, b, [IndirectGoto(p.slot)])
      && Has(code, p.lg, [MoveLabel(p.slot, p.lb), Goto(g)]) && Has(code, p.rg, [MoveLabel(p.slot, p.rb), Goto(g)])
      && Wired(code, l, p.la, p.lb, p.lg, p.ra, k + 7)
      && Wired(code, r, p.ra, p.rb, p.rg, o, Next(l, k + 7))
  }

  /** The slots whose counter is above `lo` and not above `hi`. */
  predicate Owned(t: TmpLabel, lo: nat, hi: nat) {
    lo < Serial(t) <= hi
  }

  /** Nothing but the slots owned between `lo` and `hi` has changed. */
  ghost predicate OnlyOwned(before: map<TmpLabel, Label>, after: map<TmpLabel, Label>, lo: nat, hi: nat) {
    forall t: TmpLabel :: !Owned(t, lo, hi) ==>
      (t in before <==> t in after) && (t in before ==> before[t] == after[t])
  }

  /** How far a suspended node has got: for a sequence the cursor between its parts and
      what each has left, for an alternation the arm that delivered. */
  datatype Trail =
    | AtLeaf
    | InSeq(m: nat, restL: seq<nat>, restR: seq<nat>, left: Trail, right: Trail)
    | InLeft(restL: seq<nat>, left: Trail)
    | InRight(right: Trail)

  predicate AllWithin(xs: seq<nat>, n: nat) {
    forall j :: 0 <= j < |xs| ==> xs[j] <= n
  }

  /** `node`, entered at `i`, has delivered `e` and has `rest` still to deliver; its slots
      say where to resume. */
  predicate Suspended(s: string, node: Node, a: Label, k: nat, i: nat, e: nat, rest: seq<nat>,
                      slots: map<TmpLabel, Label>, trail: Trail)
    decreases node
  {
    match node
    case Lit(w) => e == i + Utf8Len(w) && rest == []
    case Any(_) => e == i + 1 && rest == []
    case Notany(_) => e == i + 1 && rest == []
    case Pos(_) => e == i && rest == []
    case Rpos(_) => e == i && rest == []
    case Seq(l, r) =>
      var p := SeqPortsOf(a, k);
      && trail.InSeq? && trail.m <= |s| && AllWithin(trail.restL, |s|)
      && Suspended(s, l, p.la, k + 4, i, trail.m, trail.restL, slots, trail.left)
      && Suspended(s, r, p.ra, Next(l, k + 4), trail.m, e, trail.restR, slots, trail.right)
      && rest == trail.restR + Chain(s, r, trail.restL)
    case Alt(l, r) =>
      var p := AltPortsOf(a, k);
      && i <= |s| && p.slot in slots
      && (trail.InLeft? ==>
            && slots[p.slot] == p.lb && rest == trail.restL + Results(s, r, i)
            && Suspended(s, l, p.la, k + 7, i, e, trail.restL, slots, trail.left))
      && (!trail.InLeft? ==>
            && trail.InRight? && slots[p.slot] == p.rb
            && Suspended(s, r, p.ra, Next(l, k + 7), i, e, rest, slots, trail.right))
  }

  /** Leaving a node: at gamma with the first of `list` and the rest suspended, or at
      omega with the cursor back at `i`. */
  predicate Delivers(s: string, node: Node, a: Label, g: Label, o: Label, k: nat, i: nat, list: seq<nat>,
                     m: Machine, trail: Trail)
  {
    if list == [] then m.pc == o && m.delta == i
    else m.pc == g && m.delta == list[0] && Suspended(s, node, a, k, i, list[0], list[1..], m.slots, trail)
  }

  /** A suspended node does not notice changes to slots that are not its own. */
  lemma {:induction false} SuspendedFrame(s: string, node: Node, a: Label, k: nat, i: nat, e: nat, rest: seq<nat>,
                                          before: map<TmpLabel, Label>, trail: Trail,
                                          after: map<TmpLabel, Label>, lo: nat, hi: nat)
    requires Suspended(s, node, a, k, i, e, rest, before, trail)
    requires OnlyOwned(before, after, lo, hi) && (hi <= k || Next(node, k) <= lo)
    ensures Suspended(s, node, a, k, i, e, rest, after, trail)
    decreases node
  {
    match node
    case Seq(l, r) =>
      var p := SeqPortsOf(a, k);
      SuspendedFrame(s, l, p.la, k + 4, i, trail.m, trail.restL, before, trail.left, after, lo, hi);
      SuspendedFrame(s, r, p.ra, Next(l, k + 4), trail.m, e, trail.restR, before, trail.right, after, lo, hi);
    case Alt(l, r) =>
      var p := AltPortsOf(a, k);
      assert !Owned(p.slot, lo, hi);
      if trail.InLeft? {
        SuspendedFrame(s, l, p.la, k + 7, i, e, trail.restL, before, trail.left, after, lo, hi);
      } else {
        SuspendedFrame(s, r, p.ra, Next(l, k + 7), i, e, rest, before, trail.right, after, lo, hi);
      }
    case _ =>
  }

  lemma SuspendInSeq(s: string, node: Node, a: Label, k: nat, i: nat, e: nat, slots: map<TmpLabel, Label>, trail: Trail)
    requires node.Seq? && trail.InSeq? && trail.m <= |s| && AllWithin(trail.restL, |s|)
    requires var p := SeqPortsOf(a, k);
             && Suspended(s, node.left, p.la, k + 4, i, trail.m, trail.restL, slots, trail.left)
             && Suspended(s, node.right, p.ra, Next(node.left, k + 4), trail.m, e, trail.restR, slots, trail.right)
    ensures Suspended(s, node, a, k, i, e, trail.restR + Chain(s, node.right, trail.restL), slots, trail)
  {
  }

  lemma SuspendInLeft(s: string, node: Node, a: Label, k: nat, i: nat, e: nat, slots: map<TmpLabel, Label>,
      trail: Trail)
    requires node.Alt? && trail.InLeft? && i <= |s|
    requires var p := AltPortsOf(a, k);
             && p.slot in slots && slots[p.slot] == p.lb
             && Suspended(s, node.left, p.la, k + 7, i, e, trail.restL, slots, trail.left)
    ensures Suspended(s, node, a, k, i, e, trail.restL + Results(s, node.right, i), slots, trail)
  {
  }

  lemma SuspendInRight(s: string, node: Node, a: Label, k: nat, i: nat, e: nat, rest: seq<nat>,
                       slots: map<TmpLabel, Label>, trail: Trail)
    requires node.Alt? && trail.InRight? && i <= |s|
    requires var p := AltPortsOf(a, k);
             && p.slot in slots && slots[p.slot] == p.rb
             && Suspended(s, node.right, p.ra, Next(node.left, k + 7), i, e, rest, slots, trail.right)
    ensures Suspended(s, node, a, k, i, e, rest, slots, trail)
  {
  }
}
