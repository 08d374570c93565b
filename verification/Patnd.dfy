/** Pattern construction of archive/backend/snobol4_pattern_with_engine.c: flattening
    constructors over shared nodes, and materialisation into engine patterns. */
module Patnd {
  import opened Denotation
  import opened Laws

  /** Node kinds of PATND_t that this model covers. */
  datatype Kind =
    | XChr | XSpnc | XBrkc | XAnyc | XNnyc | XLnth | XPosi | XRpsi | XTb | XRtb
    | XFarb | XStar | XFnce | XFail | XAbrt | XEps | XCat | XOr

  /** The value a node stands for. */
  datatype Tree =
    | Tip(kind: Kind, text: string, num: int)
    | CatTree(children: seq<Tree>)
    | OrTree(children: seq<Tree>)

  // ----- what trees mean -----

  predicate IsTip(k: Kind) {
    k != XCat && k != XOr
  }

  function TipPattern(kind: Kind, text: string, num: int): Pattern {
    match kind
    case XChr => Literal(text)
    case XSpnc => Span(text)
    case XBrkc => Break(text)
    case XAnyc => Any(text)
    case XNnyc => NotAny(text)
    case XLnth => Len(num)
    case XPosi => Pos(num)
    case XRpsi => RPos(num)
    case XTb => Tab(num)
    case XRtb => RTab(num)
    case XFarb => Arb
    case XStar => Rem
    case XFnce => Fence
    case XFail => Fail
    case XAbrt => Abort
    case _ => Epsilon
  }

  /** The n-ary reading of a tree. An alternation without arms matches the empty string. */
  function Meaning(t: Tree): Pattern {
    match t
    case Tip(kind, text, num) => TipPattern(kind, text, num)
    case CatTree(cs) => Sigma(Meanings(cs))
    case OrTree(cs) => if cs == [] then Epsilon else Pi(Meanings(cs))
  }

  function Meanings(ts: seq<Tree>): (ps: seq<Pattern>)
    ensures |ps| == |ts| && forall k :: 0 <= k < |ts| ==> ps[k] == Meaning(ts[k])
  {
    if ts == [] then [] else [Meaning(ts[0])] + Meanings(ts[1..])
  }

  /** The children a flattening constructor takes over from an operand. */
  function CatParts(t: Tree): seq<Tree> {
    if t.CatTree? then t.children else [t]
  }

  function OrParts(t: Tree): seq<Tree> {
    if t.OrTree? then t.children else [t]
  }

  /** No sequence directly under a sequence, no alternation directly under an alternation. */
  predicate IsFlat(t: Tree) {
    match t
    case Tip(_, _, _) => true
    case CatTree(cs) => forall k :: 0 <= k < |cs| ==> !cs[k].CatTree? && IsFlat(cs[k])
    case OrTree(cs) => cs != [] && forall k :: 0 <= k < |cs| ==> !cs[k].OrTree? && IsFlat(cs[k])
  }

  // ----- materialisation -----

  /** POS is moved by the scan offset, and cannot match when that takes it below zero. */
  function TipAt(kind: Kind, text: string, num: int, scanStart: nat): Pattern {
    if kind == XPosi then (if num - scanStart < 0 then Fail else Pos(num - scanStart))
    else TipPattern(kind, text, num)
  }

  /** The engine pattern of a tree: sequences and alternations as right-folded pairs. */
  function Materialised(t: Tree, scanStart: nat): Pattern {
    match t
    case Tip(kind, text, num) => TipAt(kind, text, num, scanStart)
    case CatTree(cs) => if cs == [] then Epsilon else Folded(XCat, MaterialisedAll(cs, scanStart))
    case OrTree(cs) => if cs == [] then Epsilon else Folded(XOr, MaterialisedAll(cs, scanStart))
  }

  function MaterialisedAll(ts: seq<Tree>, scanStart: nat): (ps: seq<Pattern>)
    ensures |ps| == |ts| && forall k :: 0 <= k < |ts| ==> ps[k] == Materialised(ts[k], scanStart)
  {
    if ts == [] then [] else [Materialised(ts[0], scanStart)] + MaterialisedAll(ts[1..], scanStart)
  }

  /** make_seq and make_alt. */
  function Paired(kind: Kind, p: Pattern, q: Pattern): Pattern {
    if kind == XCat then Sigma([p, q]) else Pi([p, q])
  }

  function Folded(kind: Kind, ps: seq<Pattern>): Pattern
    requires ps != []
  {
    if |ps| == 1 then ps[0] else Paired(kind, ps[0], Folded(kind, ps[1..]))
  }

  lemma {:induction false} FoldSeqEnds(env: Env, d: nat, ps: seq<Pattern>, i: nat)
    requires ps != [] && i <= |env.s|
    ensures Ends(env, d, Folded(XCat, ps), i) == EndsSeq(env, d, ps, i)
    decreases |ps|, 0
  {
    if |ps| == 1 {
      SeqOne(env, d, ps[0], i);
      assert ps == [ps[0]];
    } else {
      var rest := Folded(XCat, ps[1..]);
      SeqTwo(env, d, ps[0], rest, i);
      FoldSeqExtend(env, d, Ends(env, d, ps[0], i), ps[1..]);
    }
  }

  lemma {:induction false} FoldSeqExtend(env: Env, d: nat, a: Stream, ps: seq<Pattern>)
    requires ps != [] && Within(a, |env.s|)
    ensures Extend(env, d, a, [Folded(XCat, ps)]) == Extend(env, d, a, ps)
    decreases |ps|, |a.ends| + 1
  {
    if a.ends != [] {
      SeqOne(env, d, Folded(XCat, ps), a.ends[0]);
      FoldSeqEnds(env, d, ps, a.ends[0]);
      FoldSeqExtend(env, d, Stream(a.ends[1..], a.cut), ps);
    }
  }

  lemma {:induction false} FoldAltEnds(env: Env, d: nat, ps: seq<Pattern>, i: nat)
    requires ps != [] && i <= |env.s|
    ensures Ends(env, d, Folded(XOr, ps), i) == EndsAlt(env, d, ps, i)
    decreases |ps|
  {
    if |ps| == 1 {
      AltOne(env, d, ps[0], i);
      assert ps == [ps[0]];
    } else {
      AltTwo(env, d, ps[0], Folded(XOr, ps[1..]), i);
      FoldAltEnds(env, d, ps[1..], i);
    }
  }

  /** Folding to the right keeps the ordered ends of every tree. */
  lemma {:induction false} MaterialisedEnds(env: Env, d: nat, t: Tree, i: nat)
    requires i <= |env.s|
    ensures Ends(env, d, Materialised(t, 0), i) == Ends(env, d, Meaning(t), i)
    decreases t, 1
  {
    if !t.Tip? && t.children != [] {
      var ps := MaterialisedAll(t.children, 0);
      forall k, j: nat | 0 <= k < |ps| && j <= |env.s|
        ensures Ends(env, d, ps[k], j) == Ends(env, d, Meanings(t.children)[k], j)
      {
        MaterialisedEnds(env, d, t.children[k], j);
      }
      if t.CatTree? {
        FoldSeqEnds(env, d, ps, i);
        SeqCongruence(env, d, ps, Meanings(t.children), i);
      } else {
        FoldAltEnds(env, d, ps, i);
        AltCongruence(env, d, ps, Meanings(t.children), i);
      }
    }
  }

  // ----- what leaves match -----

  /** Matching a leaf on `s` from `i`, positions counted from `base`, gives exactly these ends. */
  ghost predicate TipMatches(kind: Kind, text: string, num: int, s: string, base: nat, i: nat, st: Stream)
    requires i <= |s|
  {
    match kind
    case XChr => st == if i + |text| <= |s| && s[i..i + |text|] == text then Stream([i + |text|], false) else Nothing
    case XSpnc =>
      if i < |s| && s[i] in text then
        exists e: nat ::
          && i < e <= |s| && st == Stream([e], false)
          && (forall k :: i <= k < e ==> s[k] in text) && (e < |s| ==> s[e] !in text)
      else st == Nothing
    case XBrkc =>
      if exists k :: i <= k < |s| && s[k] in text then
        exists e: nat ::
          i <= e < |s| && st == Stream([e], false) && s[e] in text && forall k :: i <= k < e ==> s[k] !in text
      else st == Nothing
    case XAnyc => st == if i < |s| && s[i] in text then Stream([i + 1], false) else Nothing
    case XNnyc => st == if i < |s| && s[i] !in text then Stream([i + 1], false) else Nothing
    case XLnth => st == if num >= 0 && i + num <= |s| then Stream([i + num], false) else Nothing
    case XPosi => st == if base + i == num then Stream([i], false) else Nothing
    case XRpsi => st == if |s| - i == num then Stream([i], false) else Nothing
    case XTb => st == if base + i <= num <= base + |s| then Stream([num - base], false) else Nothing
    case XRtb => st == if num >= 0 && i + num <= |s| then Stream([|s| - num], false) else Nothing
    case XFarb => !st.cut && |st.ends| == |s| - i + 1 && forall k :: 0 <= k < |st.ends| ==> st.ends[k] == i + k
    case XStar => st == Stream([|s|], false)
    case XFnce => st == Stream([i], true)
    case XFail => st == Nothing
    case XAbrt => st == Stream([], true)
    case _ => st == Stream([i], false)
  }

  /** The ends of each kind of leaf, said of the characters of the subject. */
  lemma {:induction false} TipEnds(kind: Kind, text: string, num: int, env: Env, d: nat, i: nat)
    requires i <= |env.s|
    ensures TipMatches(kind, text, num, env.s, env.base, i, Ends(env, d, Materialised(Tip(kind, text, num), 0), i))
  {
  }

  /** A sequence or alternation without children matches the empty string. */
  lemma {:induction false} EmptyTreeEnds(env: Env, d: nat, i: nat)
    requires i <= |env.s|
    ensures Ends(env, d, Materialised(CatTree([]), 0), i) == Stream([i], false)
    ensures Ends(env, d, Materialised(OrTree([]), 0), i) == Stream([i], false)
  {
  }

  // ----- expressions of constructor calls -----

  /** A nest of constructor calls: a leaf, pat_cat or pat_alt. */
  datatype Expr = Atom(kind: Kind, text: string, num: int) | CatExpr(l: Expr, r: Expr) | AltExpr(l: Expr, r: Expr)

  /** The tree the constructors build. */
  function Built(e: Expr): Tree {
    match e
    case Atom(kind, text, num) => Tip(kind, text, num)
    case CatExpr(l, r) => CatTree(CatParts(Built(l)) + CatParts(Built(r)))
    case AltExpr(l, r) => OrTree(OrParts(Built(l)) + OrParts(Built(r)))
  }

  /** What was written: one binary node per call. */
  function Written(e: Expr): Pattern {
    match e
    case Atom(kind, text, num) => TipPattern(kind, text, num)
    case CatExpr(l, r) => Sigma([Written(l), Written(r)])
    case AltExpr(l, r) => Pi([Written(l), Written(r)])
  }

  lemma {:induction false} MeaningsAppend(a: seq<Tree>, b: seq<Tree>)
    ensures Meanings(a + b) == Meanings(a) + Meanings(b)
  {
    if a == [] {
      assert a + b == b;
    } else {
      assert (a + b)[1..] == a[1..] + b;
      MeaningsAppend(a[1..], b);
    }
  }

  lemma CatPartsEnds(env: Env, d: nat, t: Tree, i: nat)
    requires i <= |env.s|
    ensures EndsSeq(env, d, Meanings(CatParts(t)), i) == Ends(env, d, Meaning(t), i)
  {
    if !t.CatTree? {
      SeqOne(env, d, Meaning(t), i);
      assert Meanings([t]) == [Meaning(t)];
    }
  }

  lemma OrPartsEnds(env: Env, d: nat, t: Tree, i: nat)
    requires i <= |env.s| && IsFlat(t)
    ensures EndsAlt(env, d, Meanings(OrParts(t)), i) == Ends(env, d, Meaning(t), i)
  {
    if !t.OrTree? {
      AltOne(env, d, Meaning(t), i);
      assert Meanings([t]) == [Meaning(t)];
    }
  }

  lemma {:induction false} BuiltIsFlat(e: Expr)
    ensures IsFlat(Built(e))
  {
    match e
    case Atom(_, _, _) =>
    case CatExpr(l, r) =>
      BuiltIsFlat(l);
      BuiltIsFlat(r);
    case AltExpr(l, r) =>
      BuiltIsFlat(l);
      BuiltIsFlat(r);
  }

  /** Flattening keeps the ordered ends of every nest of constructor calls. */
  lemma {:induction false} BuiltEnds(env: Env, d: nat, e: Expr, i: nat)
    requires i <= |env.s|
    ensures Ends(env, d, Meaning(Built(e)), i) == Ends(env, d, Written(e), i)
    decreases e, 0
  {
    match e
    case Atom(_, _, _) =>
    case CatExpr(l, r) =>
      BuiltEnds(env, d, l, i);
      BuiltExtend(env, d, Ends(env, d, Written(l), i), r);
      SeqTwo(env, d, Written(l), Written(r), i);
      CatBuiltEnds(env, d, Built(l), Built(r), i);
    case AltExpr(l, r) =>
      BuiltIsFlat(l);
      BuiltIsFlat(r);
      BuiltEnds(env, d, l, i);
      BuiltEnds(env, d, r, i);
      AltTwo(env, d, Written(l), Written(r), i);
      AltBuiltEnds(env, d, Built(l), Built(r), i);
  }

  lemma CatBuiltEnds(env: Env, d: nat, l: Tree, r: Tree, i: nat)
    requires i <= |env.s|
    ensures Ends(env, d, Meaning(CatTree(CatParts(l) + CatParts(r))), i)
         == Extend(env, d, Ends(env, d, Meaning(l), i), Meanings(CatParts(r)))
  {
    MeaningsAppend(CatParts(l), CatParts(r));
    SeqSplits(env, d, Meanings(CatParts(l)), Meanings(CatParts(r)), i);
    CatPartsEnds(env, d, l, i);
  }

  lemma {:induction false} CatPartsExtend(env: Env, d: nat, a: Stream, t: Tree)
    requires Within(a, |env.s|)
    ensures Extend(env, d, a, Meanings(CatParts(t))) == Extend(env, d, a, [Meaning(t)])
    decreases |a.ends|
  {
    if a.ends != [] {
      CatPartsEnds(env, d, t, a.ends[0]);
      SeqOne(env, d, Meaning(t), a.ends[0]);
      CatPartsExtend(env, d, Stream(a.ends[1..], a.cut), t);
    }
  }

  /** Two trees one after the other, flattened: the ends of the sequence of the two. */
  lemma CatOfTwo(env: Env, d: nat, l: Tree, r: Tree, i: nat)
    requires i <= |env.s|
    ensures Ends(env, d, Meaning(CatTree(CatParts(l) + CatParts(r))), i)
         == Ends(env, d, Sigma([Meaning(l), Meaning(r)]), i)
  {
    CatBuiltEnds(env, d, l, r, i);
    CatPartsExtend(env, d, Ends(env, d, Meaning(l), i), r);
    SeqTwo(env, d, Meaning(l), Meaning(r), i);
  }

  /** Two trees to choose from, flattened: the ends of the alternation of the two. */
  lemma AltOfTwo(env: Env, d: nat, l: Tree, r: Tree, i: nat)
    requires i <= |env.s| && IsFlat(l) && IsFlat(r)
    ensures Ends(env, d, Meaning(OrTree(OrParts(l) + OrParts(r))), i)
         == Ends(env, d, Pi([Meaning(l), Meaning(r)]), i)
  {
    AltBuiltEnds(env, d, l, r, i);
    AltTwo(env, d, Meaning(l), Meaning(r), i);
  }

  lemma AltBuiltEnds(env: Env, d: nat, l: Tree, r: Tree, i: nat)
    requires i <= |env.s| && IsFlat(l) && IsFlat(r)
    ensures Ends(env, d, Meaning(OrTree(OrParts(l) + OrParts(r))), i)
         == Append(Ends(env, d, Meaning(l), i), Ends(env, d, Meaning(r), i))
  {
    MeaningsAppend(OrParts(l), OrParts(r));
    AltSplits(env, d, Meanings(OrParts(l)), Meanings(OrParts(r)), i);
    OrPartsEnds(env, d, l, i);
    OrPartsEnds(env, d, r, i);
  }

  lemma {:induction false} BuiltExtend(env: Env, d: nat, a: Stream, e: Expr)
    requires Within(a, |env.s|)
    ensures Extend(env, d, a, Meanings(CatParts(Built(e)))) == Extend(env, d, a, [Written(e)])
    decreases e, |a.ends| + 1
  {
    if a.ends != [] {
      CatPartsEnds(env, d, Built(e), a.ends[0]);
      BuiltEnds(env, d, e, a.ends[0]);
      SeqOne(env, d, Written(e), a.ends[0]);
      BuiltExtend(env, d, Stream(a.ends[1..], a.cut), e);
    }
  }

  /** Flatten, then fold: the materialised pattern has the ordered ends of what was written. */
  lemma FlattenThenFold(env: Env, d: nat, e: Expr, i: nat)
    requires i <= |env.s|
    ensures IsFlat(Built(e))
    ensures Ends(env, d, Materialised(Built(e), 0), i) == Ends(env, d, Written(e), i)
  {
    BuiltIsFlat(e);
    MaterialisedEnds(env, d, Built(e), i);
    BuiltEnds(env, d, e, i);
  }
}
