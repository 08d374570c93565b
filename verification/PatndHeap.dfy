/** The pattern constructors on the heap: nodes are shared, and children are appended in
    place to the node under construction only. */
module PatndHeap {
  import opened Denotation
  import opened Patnd

  function Inner(kind: Kind, children: seq<Tree>): Tree {
    if kind == XCat then CatTree(children) else OrTree(children)
  }

  /** What an operand contributes to a node of the given kind. */
  function Parts(kind: Kind, t: Tree): seq<Tree> {
    if kind == XCat then CatParts(t) else OrParts(t)
  }

  lemma OneMore(before: seq<Tree>, parts: seq<Tree>, i: nat)
    requires i < |parts|
    ensures before + parts[..i] + [parts[i]] == before + parts[..i + 1]
  {
  }

  class PatNode {
    const kind: Kind
    const text: string
    const num: int
    var children: seq<PatNode>
    ghost var tree: Tree
    ghost var repr: set<PatNode>

    /** The node and everything it shares stand for `tree`. */
    ghost predicate Valid()
      reads this, repr
      decreases repr
    {
      && this in repr
      && (forall k :: 0 <= k < |children| ==>
            children[k] in repr && children[k].repr <= repr && this !in children[k].repr && children[k].Valid())
      && (IsTip(kind) ==> tree == Tip(kind, text, num))
      && (!IsTip(kind) ==>
            tree == Inner(kind, Trees()))
    }

    ghost function Trees(): (ts: seq<Tree>)
      reads this, children
      ensures |ts| == |children| && forall k :: 0 <= k < |ts| ==> ts[k] == children[k].tree
    {
      seq(|children|, k requires 0 <= k < |children| reads this, children => children[k].tree)
    }

    /** spat_new, with the argument a leaf constructor fills in. */
    constructor (kind: Kind, text: string, num: int)
      ensures Valid() && fresh(repr) && children == []
      ensures this.kind == kind && this.text == text && this.num == num
      ensures tree == if IsTip(kind) then Tip(kind, text, num) else Inner(kind, [])
    {
      this.kind := kind;
      this.text := text;
      this.num := num;
      children := [];
      repr := {this};
      tree := if IsTip(kind) then Tip(kind, text, num) else Inner(kind, []);
    }

    /** patnd_append_child: extends the child array of this node in place. */
    method AppendChild(child: PatNode)
      requires Valid() && !IsTip(kind) && child.Valid() && this !in child.repr
      modifies this
      ensures Valid() && repr == old(repr) + child.repr
      ensures children == old(children) + [child]
      ensures tree == Inner(kind, old(tree).children + [child.tree])
    {
      ghost var before := Trees();
      children := children + [child];
      repr := repr + child.repr;
      assert Trees() == before + [child.tree];
      tree := Inner(kind, Trees());
    }

    /** Takes over the children of a node of the same kind. */
    method AbsorbChildren(operand: PatNode)
      requires Valid() && !IsTip(kind) && operand.Valid() && operand.kind == kind && this !in operand.repr
      modifies this
      ensures Valid() && repr <= old(repr) + operand.repr
      ensures tree == Inner(kind, old(tree).children + operand.tree.children)
    {
      ghost var before, parts := tree.children, operand.Trees();
      for i := 0 to |operand.children|
        invariant Valid() && repr <= old(repr) + operand.repr
        invariant operand.Valid() && operand.Trees() == parts
        invariant tree == Inner(kind, before + parts[..i])
      {
        var child := operand.children[i];
        assert child.Valid() && child.repr <= operand.repr && child.tree == parts[i];
        AppendChild(child);
        OneMore(before, parts, i);
      }
      assert parts[..|parts|] == parts;
    }

    /** Appends the children of `operand` if it is a node of this kind, else `operand` itself. */
    method Absorb(operand: PatNode)
      requires Valid() && !IsTip(kind) && operand.Valid() && this !in operand.repr
      modifies this
      ensures Valid() && repr <= old(repr) + operand.repr
      ensures tree == Inner(kind, old(tree).children + Parts(kind, operand.tree))
    {
      if operand.kind == kind {
        AbsorbChildren(operand);
      } else {
        AppendChild(operand);
      }
    }
  }

  /** A SNOBOL4 value as pat_to_patnd sees it; of an integer or a real, how it is printed. */
  datatype Descr = PatVal(node: PatNode) | StrVal(text: string) | NumVal(printed: string) | NulVal | OtherVal

  ghost predicate ValidDescr(v: Descr)
    reads if v.PatVal? then {v.node} + v.node.repr else {}
  {
    v.PatVal? ==> v.node.Valid()
  }

  /** The tree a value is read as; strings and numbers become literals. */
  ghost function TreeOf(v: Descr): Option<Tree>
    reads if v.PatVal? then {v.node} else {}
  {
    match v
    case PatVal(node) => Some(node.tree)
    case StrVal(text) => Some(Tip(XChr, text, 0))
    case NumVal(printed) => Some(Tip(XChr, printed, 0))
    case NulVal => Some(Tip(XChr, "", 0))
    case OtherVal => None
  }

  method PatToPatnd(v: Descr) returns (p: PatNode?)
    requires ValidDescr(v)
    ensures p == null <==> TreeOf(v) == None
    ensures p != null ==> p.Valid() && Some(p.tree) == TreeOf(v)
    ensures p != null ==> if v.PatVal? then p == v.node else fresh(p.repr)
  {
    match v
    case PatVal(node) => p := node;
    case StrVal(text) => p := new PatNode(XChr, text, 0);
    case NumVal(printed) => p := new PatNode(XChr, printed, 0);
    case NulVal => p := new PatNode(XChr, "", 0);
    case OtherVal => p := null;
  }

  /** What the constructor of the given kind returns for operands that may be missing. */
  function Combined(kind: Kind, l: Option<Tree>, r: Option<Tree>): Tree {
    if l.None? then (if r.None? then Tip(XEps, "", 0) else r.value)
    else if r.None? then l.value
    else Inner(kind, Parts(kind, l.value) + Parts(kind, r.value))
  }

  method Join(kind: Kind, l: PatNode, r: PatNode) returns (p: PatNode)
    requires !IsTip(kind) && l.Valid() && r.Valid()
    ensures p.Valid() && fresh(p)
    ensures p.tree == Inner(kind, Parts(kind, l.tree) + Parts(kind, r.tree))
  {
    ghost var a, b := Parts(kind, l.tree), Parts(kind, r.tree);
    p := new PatNode(kind, "", 0);
    p.Absorb(l);
    assert p.tree == Inner(kind, a) by { assert [] + a == a; }
    p.Absorb(r);
    assert p.tree == Inner(kind, a + b);
  }

  /** Builds a node of the given kind from two operands, absorbing those of the same kind.
      Nothing that existed before is modified, so shared operands keep their meaning. */
  method Combine(kind: Kind, left: Descr, right: Descr) returns (p: PatNode)
    requires !IsTip(kind) && ValidDescr(left) && ValidDescr(right)
    ensures p.Valid()
    ensures p.tree == Combined(kind, TreeOf(left), TreeOf(right))
  {
    var l := PatToPatnd(left);
    var r := PatToPatnd(right);
    if l == null {
      if r != null {
        return r;
      }
      p := new PatNode(XEps, "", 0);
      return;
    }
    if r == null {
      return l;
    }
    p := Join(kind, l, r);
  }

  // ----- what the constructors return -----

  /** What a value matches as an operand; nothing, if it is no pattern. */
  ghost function Reading(v: Descr): Option<Pattern>
    reads if v.PatVal? then {v.node} else {}
  {
    match v
    case PatVal(node) => Some(Meaning(node.tree))
    case StrVal(text) => Some(Literal(text))
    case NumVal(printed) => Some(Literal(printed))
    case NulVal => Some(Literal(""))
    case OtherVal => None
  }

  ghost predicate Flat(v: Descr)
    reads if v.PatVal? then {v.node} else {}
  {
    v.PatVal? ==> IsFlat(v.node.tree)
  }

  /** The sequence of two operands, or the one there is, or the empty match. */
  function InSequence(l: Option<Pattern>, r: Option<Pattern>): Pattern {
    if l.Some? && r.Some? then Sigma([l.value, r.value]) else OnlyOne(l, r)
  }

  function InChoice(l: Option<Pattern>, r: Option<Pattern>): Pattern {
    if l.Some? && r.Some? then Pi([l.value, r.value]) else OnlyOne(l, r)
  }

  function OnlyOne(l: Option<Pattern>, r: Option<Pattern>): Pattern {
    if l.Some? then l.value else if r.Some? then r.value else Epsilon
  }

  /** The tree matches as the pattern does: the same ends in the same order, everywhere. */
  ghost predicate MatchesAs(t: Tree, p: Pattern) {
    forall env: Env, d: nat, i: nat :: i <= |env.s| ==> Ends(env, d, Materialised(t, 0), i) == Ends(env, d, p, i)
  }

  function ReadingOf(t: Option<Tree>): Option<Pattern> {
    if t.Some? then Some(Meaning(t.value)) else None
  }

  lemma {:induction false} CatMatchesAt(l: Option<Tree>, r: Option<Tree>, env: Env, d: nat, i: nat)
    requires i <= |env.s|
    ensures Ends(env, d, Materialised(Combined(XCat, l, r), 0), i)
         == Ends(env, d, InSequence(ReadingOf(l), ReadingOf(r)), i)
  {
    MaterialisedEnds(env, d, Combined(XCat, l, r), i);
    if l.Some? && r.Some? {
      CatOfTwo(env, d, l.value, r.value, i);
    }
  }

  lemma {:induction false} AltMatchesAt(l: Option<Tree>, r: Option<Tree>, env: Env, d: nat, i: nat)
    requires i <= |env.s| && (l.Some? ==> IsFlat(l.value)) && (r.Some? ==> IsFlat(r.value))
    ensures Ends(env, d, Materialised(Combined(XOr, l, r), 0), i)
         == Ends(env, d, InChoice(ReadingOf(l), ReadingOf(r)), i)
  {
    MaterialisedEnds(env, d, Combined(XOr, l, r), i);
    if l.Some? && r.Some? {
      AltOfTwo(env, d, l.value, r.value, i);
    }
  }

  lemma {:induction false} CombinedIsFlat(kind: Kind, l: Option<Tree>, r: Option<Tree>)
    requires !IsTip(kind) && (l.Some? ==> IsFlat(l.value)) && (r.Some? ==> IsFlat(r.value))
    ensures IsFlat(Combined(kind, l, r))
  {
  }

  /** What pat_cat and pat_alt build matches as the sequence and as the choice of what was given. */
  lemma {:induction false} CatMatches(l: Option<Tree>, r: Option<Tree>)
    ensures MatchesAs(Combined(XCat, l, r), InSequence(ReadingOf(l), ReadingOf(r)))
  {
    forall env: Env, d: nat, i: nat | i <= |env.s|
      ensures Ends(env, d, Materialised(Combined(XCat, l, r), 0), i)
           == Ends(env, d, InSequence(ReadingOf(l), ReadingOf(r)), i)
    {
      CatMatchesAt(l, r, env, d, i);
    }
  }

  lemma {:induction false} AltMatches(l: Option<Tree>, r: Option<Tree>)
    requires (l.Some? ==> IsFlat(l.value)) && (r.Some? ==> IsFlat(r.value))
    ensures MatchesAs(Combined(XOr, l, r), InChoice(ReadingOf(l), ReadingOf(r)))
  {
    forall env: Env, d: nat, i: nat | i <= |env.s|
      ensures Ends(env, d, Materialised(Combined(XOr, l, r), 0), i)
           == Ends(env, d, InChoice(ReadingOf(l), ReadingOf(r)), i)
    {
      AltMatchesAt(l, r, env, d, i);
    }
  }

  /** pat_cat: matches the left operand, then the right one. A nest of calls builds the tree of
      the nest, of which FlattenThenFold speaks. */
  method PatCat(left: Descr, right: Descr) returns (p: PatNode)
    requires ValidDescr(left) && ValidDescr(right)
    ensures p.Valid() && p.tree == Combined(XCat, TreeOf(left), TreeOf(right))
    ensures MatchesAs(p.tree, InSequence(Reading(left), Reading(right)))
    ensures Flat(left) && Flat(right) ==> IsFlat(p.tree)
    ensures forall a: Expr, b: Expr :: TreeOf(left) == Some(Built(a)) && TreeOf(right) == Some(Built(b)) ==>
              p.tree == Built(CatExpr(a, b))
  {
    p := Combine(XCat, left, right);
    CatMatches(TreeOf(left), TreeOf(right));
    if Flat(left) && Flat(right) {
      CombinedIsFlat(XCat, TreeOf(left), TreeOf(right));
    }
  }

  /** pat_alt: matches the left operand or the right one, the left one first. */
  method PatAlt(left: Descr, right: Descr) returns (p: PatNode)
    requires ValidDescr(left) && ValidDescr(right)
    ensures p.Valid() && p.tree == Combined(XOr, TreeOf(left), TreeOf(right))
    ensures Flat(left) && Flat(right) ==>
              IsFlat(p.tree) && MatchesAs(p.tree, InChoice(Reading(left), Reading(right)))
    ensures forall a: Expr, b: Expr :: TreeOf(left) == Some(Built(a)) && TreeOf(right) == Some(Built(b)) ==>
              p.tree == Built(AltExpr(a, b))
  {
    p := Combine(XOr, left, right);
    if Flat(left) && Flat(right) {
      CombinedIsFlat(XOr, TreeOf(left), TreeOf(right));
      AltMatches(TreeOf(left), TreeOf(right));
    }
  }

  lemma FoldedFrom(kind: Kind, ps: seq<Pattern>, i: nat)
    requires i < |ps|
    ensures Folded(kind, ps[i..])
         == if i == |ps| - 1 then ps[i] else Paired(kind, ps[i], Folded(kind, ps[i + 1..]))
  {
    assert ps[i..][1..] == ps[i + 1..];
  }

  /** Materialises a node. */
  method Materialise(sp: PatNode, scanStart: nat) returns (p: Pattern)
    requires sp.Valid()
    ensures p == Materialised(sp.tree, scanStart)
    decreases sp.repr, 1
  {
    if IsTip(sp.kind) {
      p := TipAt(sp.kind, sp.text, sp.num, scanStart);
    } else if sp.children == [] {
      p := Epsilon;
    } else {
      p := FoldChildren(sp, scanStart);
    }
  }

  /** Folds the materialised children of a sequence or alternation from the right. */
  method FoldChildren(sp: PatNode, scanStart: nat) returns (p: Pattern)
    requires sp.Valid() && !IsTip(sp.kind) && sp.children != []
    ensures p == Folded(sp.kind, MaterialisedAll(sp.Trees(), scanStart))
    decreases sp.repr, 0
  {
    ghost var ps := MaterialisedAll(sp.Trees(), scanStart);
    var i := |sp.children| - 1;
    p := Materialise(sp.children[i], scanStart);
    FoldedFrom(sp.kind, ps, i);
    while i > 0
      invariant 0 <= i < |ps| == |sp.children|
      invariant p == Folded(sp.kind, ps[i..])
    {
      i := i - 1;
      var child := Materialise(sp.children[i], scanStart);
      FoldedFrom(sp.kind, ps, i);
      p := Paired(sp.kind, child, p);
    }
    assert ps[0..] == ps;
  }
}
