/** Laws of the denotation: how sequences and alternations split, and what a shift of
    the subject does to the ends. */
module Laws {
  import opened Denotation

  // ----- splitting sequences and alternations -----

  lemma AppendNothing(a: Stream)
    ensures Append(a, Nothing) == a && Append(Nothing, a) == a
  {
    assert a.ends + [] == a.ends && [] + a.ends == a.ends;
  }

  lemma AppendAssociative(a: Stream, b: Stream, c: Stream)
    ensures Append(Append(a, b), c) == Append(a, Append(b, c))
  {
    assert a.ends + b.ends + c.ends == a.ends + (b.ends + c.ends);
  }

  lemma {:induction false} ExtendNil(env: Env, d: nat, a: Stream)
    requires Within(a, |env.s|)
    ensures Extend(env, d, a, []) == a
    decreases |a.ends|
  {
    if a.ends != [] {
      var tail := Stream(a.ends[1..], a.cut);
      ExtendNil(env, d, tail);
      assert [a.ends[0]] + a.ends[1..] == a.ends;
    }
  }

  lemma {:induction false} ExtendAppend(env: Env, d: nat, a: Stream, b: Stream, cs: seq<Pattern>)
    requires Within(a, |env.s|) && Within(b, |env.s|)
    ensures Within(Append(a, b), |env.s|)
    ensures Extend(env, d, Append(a, b), cs) == Append(Extend(env, d, a, cs), Extend(env, d, b, cs))
    decreases |a.ends|
  {
    if a.ends == [] {
      if !a.cut {
        assert Append(a, b) == b by { AppendNothing(b); }
        AppendNothing(Extend(env, d, b, cs));
      }
    } else if a.cut {
      ExtendCut(env, d, a, cs);
    } else {
      var tail := Stream(a.ends[1..], a.cut);
      ExtendAppend(env, d, tail, b, cs);
      assert (a.ends + b.ends)[1..] == a.ends[1..] + b.ends;
      AppendAssociative(EndsSeq(env, d, cs, a.ends[0]), Extend(env, d, tail, cs), Extend(env, d, b, cs));
    }
  }

  lemma {:induction false} ExtendCut(env: Env, d: nat, a: Stream, cs: seq<Pattern>)
    requires Within(a, |env.s|) && a.cut
    ensures Extend(env, d, a, cs).cut
    decreases |a.ends|
  {
    if a.ends != [] {
      ExtendCut(env, d, Stream(a.ends[1..], a.cut), cs);
    }
  }

  /** A sequence of patterns can be run in two parts. */
  lemma {:induction false} SeqSplits(env: Env, d: nat, cs: seq<Pattern>, ds: seq<Pattern>, i: nat)
    requires i <= |env.s|
    ensures EndsSeq(env, d, cs + ds, i) == Extend(env, d, EndsSeq(env, d, cs, i), ds)
    decreases cs, 0, 0
  {
    if cs == [] {
      assert cs + ds == ds;
      assert Stream(Unit(i).ends[1..], false) == Nothing;
      AppendNothing(EndsSeq(env, d, ds, i));
    } else {
      assert (cs + ds)[1..] == cs[1..] + ds;
      ExtendSplits(env, d, Ends(env, d, cs[0], i), cs[1..], ds);
    }
  }

  lemma {:induction false} ExtendSplits(env: Env, d: nat, a: Stream, cs: seq<Pattern>, ds: seq<Pattern>)
    requires Within(a, |env.s|)
    ensures Extend(env, d, a, cs + ds) == Extend(env, d, Extend(env, d, a, cs), ds)
    decreases cs, 1, |a.ends|
  {
    if a.ends != [] {
      var tail := Stream(a.ends[1..], a.cut);
      SeqSplits(env, d, cs, ds, a.ends[0]);
      ExtendSplits(env, d, tail, cs, ds);
      ExtendAppend(env, d, EndsSeq(env, d, cs, a.ends[0]), Extend(env, d, tail, cs), ds);
    }
  }

  lemma {:induction false} AltSplits(env: Env, d: nat, cs: seq<Pattern>, ds: seq<Pattern>, i: nat)
    requires i <= |env.s|
    ensures EndsAlt(env, d, cs + ds, i) == Append(EndsAlt(env, d, cs, i), EndsAlt(env, d, ds, i))
    decreases |cs|
  {
    if cs == [] {
      assert cs + ds == ds;
      AppendNothing(EndsAlt(env, d, ds, i));
    } else {
      assert (cs + ds)[1..] == cs[1..] + ds;
      AltSplits(env, d, cs[1..], ds, i);
      AppendAssociative(Ends(env, d, cs[0], i), EndsAlt(env, d, cs[1..], i), EndsAlt(env, d, ds, i));
    }
  }

  lemma SeqOne(env: Env, d: nat, p: Pattern, i: nat)
    requires i <= |env.s|
    ensures EndsSeq(env, d, [p], i) == Ends(env, d, p, i)
  {
    assert [p][1..] == [];
    ExtendNil(env, d, Ends(env, d, p, i));
  }

  lemma AltOne(env: Env, d: nat, p: Pattern, i: nat)
    requires i <= |env.s|
    ensures EndsAlt(env, d, [p], i) == Ends(env, d, p, i)
  {
    assert [p][1..] == [];
    AppendNothing(Ends(env, d, p, i));
  }

  /** Two patterns in sequence: the second from each end of the first. */
  lemma SeqTwo(env: Env, d: nat, p: Pattern, q: Pattern, i: nat)
    requires i <= |env.s|
    ensures Ends(env, d, Sigma([p, q]), i) == Extend(env, d, Ends(env, d, p, i), [q])
  {
    assert [p, q][1..] == [q];
  }

  lemma AltTwo(env: Env, d: nat, p: Pattern, q: Pattern, i: nat)
    requires i <= |env.s|
    ensures Ends(env, d, Pi([p, q]), i) == Append(Ends(env, d, p, i), Ends(env, d, q, i))
  {
    assert [p, q][1..] == [q];
    AltOne(env, d, q, i);
  }

  // ----- replacing sub-patterns by equivalent ones -----

  /** `ps` and `qs` have the same ends, pattern by pattern. */
  ghost predicate SameEnds(env: Env, d: nat, ps: seq<Pattern>, qs: seq<Pattern>) {
    && |ps| == |qs|
    && forall k, i: nat :: 0 <= k < |ps| && i <= |env.s| ==> Ends(env, d, ps[k], i) == Ends(env, d, qs[k], i)
  }

  lemma {:induction false} SeqCongruence(env: Env, d: nat, ps: seq<Pattern>, qs: seq<Pattern>, i: nat)
    requires i <= |env.s| && SameEnds(env, d, ps, qs)
    ensures EndsSeq(env, d, ps, i) == EndsSeq(env, d, qs, i)
    decreases |ps|, 0, 0
  {
    if ps != [] {
      ExtendCongruence(env, d, Ends(env, d, ps[0], i), ps[1..], qs[1..]);
    }
  }

  lemma {:induction false} ExtendCongruence(env: Env, d: nat, a: Stream, ps: seq<Pattern>, qs: seq<Pattern>)
    requires Within(a, |env.s|) && SameEnds(env, d, ps, qs)
    ensures Extend(env, d, a, ps) == Extend(env, d, a, qs)
    decreases |ps|, 1, |a.ends|
  {
    if a.ends != [] {
      SeqCongruence(env, d, ps, qs, a.ends[0]);
      ExtendCongruence(env, d, Stream(a.ends[1..], a.cut), ps, qs);
    }
  }

  lemma {:induction false} AltCongruence(env: Env, d: nat, ps: seq<Pattern>, qs: seq<Pattern>, i: nat)
    requires i <= |env.s| && SameEnds(env, d, ps, qs)
    ensures EndsAlt(env, d, ps, i) == EndsAlt(env, d, qs, i)
    decreases |ps|
  {
    if ps != [] {
      AltCongruence(env, d, ps[1..], qs[1..], i);
    }
  }

  // ----- shifting the subject -----

  function Shift(st: Stream, k: nat): Stream {
    Stream(seq(|st.ends|, j requires 0 <= j < |st.ends| => st.ends[j] + k), st.cut)
  }

  lemma ShiftAppend(a: Stream, b: Stream, k: nat)
    ensures Shift(Append(a, b), k) == Append(Shift(a, k), Shift(b, k))
  {
    assert Shift(Append(a, b), k).ends == Append(Shift(a, k), Shift(b, k)).ends;
  }

  /** The environment an attempt at offset `k` runs in: the rest of the subject. */
  function From(env: Env, k: nat): Env
    requires k <= |env.s|
  {
    env.(s := env.s[k..], base := env.base + k)
  }

  lemma {:induction false} ShiftRun(s: string, cs: string, k: nat, i: nat)
    requires k + i <= |s|
    ensures RunEnd(s, cs, i + k) == RunEnd(s[k..], cs, i) + k
    ensures BreakEnd(s, cs, i + k) == BreakEnd(s[k..], cs, i) + k
    decreases |s| - i
  {
    if k + i < |s| {
      ShiftRun(s, cs, k, i + 1);
    }
  }

  lemma ShiftLeaf(env: Env, k: nat, p: Pattern, i: nat)
    requires k + i <= |env.s| && IsLeaf(p)
    ensures var e := LeafEnd(From(env, k), p, i);
            LeafEnd(env, p, i + k) == if e.Some? then Some(e.value + k) else None
  {
    if p.Span? || p.Break? {
      ShiftRun(env.s, p.chars, k, i);
    } else if p.Literal? {
      ShiftLiteral(env.s, k, p.s, i);
    }
  }

  lemma ShiftLiteral(s: string, k: nat, w: string, i: nat)
    requires k + i <= |s|
    ensures HasAt(s, i + k, w) == HasAt(s[k..], i, w)
  {
    assert i + k + |w| <= |s| ==> s[k..][i..i + |w|] == s[i + k..i + k + |w|];
  }

  /** Matching the rest of the subject finds the ends of the whole one, POS and TAB
      included: positions count from the start of the whole subject. */
  lemma {:induction false} ShiftEnds(env: Env, k: nat, d: nat, p: Pattern, i: nat)
    requires k + i <= |env.s|
    ensures Ends(env, d, p, i + k) == Shift(Ends(From(env, k), d, p, i), k)
    decreases d, p, 0, 0
  {
    var sub := From(env, k);
    if IsLeaf(p) {
      ShiftLeaf(env, k, p, i);
    } else {
      match p
      case Sigma(cs) => ShiftSeq(env, k, d, cs, i);
      case Pi(cs) => ShiftAlt(env, k, d, cs, i);
      case Opt(c) =>
        ShiftEnds(env, k, d, c, i);
        ShiftAppend(Unit(i), Ends(sub, d, c, i), k);
        assert Shift(Unit(i), k) == Unit(i + k);
      case Arb =>
      case Abort =>
      case Fence =>
      case SpanRetreat(cs) => ShiftRun(env.s, cs, k, i);
      case Ref(name) =>
        if name in env.graph && d > 0 {
          ShiftEnds(env, k, d - 1, env.graph[name], i);
        }
    }
  }

  lemma {:induction false} ShiftSeq(env: Env, k: nat, d: nat, cs: seq<Pattern>, i: nat)
    requires k + i <= |env.s|
    ensures EndsSeq(env, d, cs, i + k) == Shift(EndsSeq(From(env, k), d, cs, i), k)
    decreases d, cs, 0, 0
  {
    if cs == [] {
      assert Shift(Unit(i), k) == Unit(i + k);
    } else {
      ShiftEnds(env, k, d, cs[0], i);
      ShiftExtend(env, k, d, Ends(From(env, k), d, cs[0], i), cs[1..]);
    }
  }

  lemma {:induction false} ShiftExtend(env: Env, k: nat, d: nat, a: Stream, cs: seq<Pattern>)
    requires k <= |env.s| && Within(a, |env.s| - k)
    ensures Within(Shift(a, k), |env.s|)
    ensures Extend(env, d, Shift(a, k), cs) == Shift(Extend(From(env, k), d, a, cs), k)
    decreases d, cs, 1, |a.ends|
  {
    var b := Shift(a, k);
    if a.ends == [] {
      assert b == a;
    } else {
      var tail := Stream(a.ends[1..], a.cut);
      assert Shift(tail, k) == Stream(b.ends[1..], b.cut);
      ShiftSeq(env, k, d, cs, a.ends[0]);
      ShiftExtend(env, k, d, tail, cs);
      ShiftAppend(EndsSeq(From(env, k), d, cs, a.ends[0]), Extend(From(env, k), d, tail, cs), k);
    }
  }

  lemma {:induction false} ShiftAlt(env: Env, k: nat, d: nat, cs: seq<Pattern>, i: nat)
    requires k + i <= |env.s|
    ensures EndsAlt(env, d, cs, i + k) == Shift(EndsAlt(From(env, k), d, cs, i), k)
    decreases d, cs, 0, 0
  {
    if cs != [] {
      ShiftEnds(env, k, d, cs[0], i);
      ShiftAlt(env, k, d, cs[1..], i);
      ShiftAppend(Ends(From(env, k), d, cs[0], i), EndsAlt(From(env, k), d, cs[1..], i), k);
    }
  }

  // ----- compositions, by the lists of ends -----

  /** A choice: the ends of the one pattern, then those of the other, unless the first is cut. */
  lemma {:induction false} ChoiceEnds(env: Env, d: nat, p: Pattern, q: Pattern, i: nat)
    requires i <= |env.s|
    ensures var a, b := Ends(env, d, p, i), Ends(env, d, q, i);
            Ends(env, d, Pi([p, q]), i) == if a.cut then a else Stream(a.ends + b.ends, b.cut)
    ensures Ends(env, d, Pi([]), i) == Stream([], false)
  {
    AltTwo(env, d, p, q, i);
  }

  /** A sequence: from each end of the one pattern in turn the ends of the other, until one is cut. */
  lemma {:induction false} SequenceEnds(env: Env, d: nat, p: Pattern, q: Pattern, i: nat)
    requires i <= |env.s|
    ensures InTurn(env, d, q, Ends(env, d, p, i), Ends(env, d, Sigma([p, q]), i))
    ensures Ends(env, d, Sigma([]), i) == Stream([i], false)
  {
    SeqTwo(env, d, p, q, i);
    ExtendInTurn(env, d, q, Ends(env, d, p, i));
  }

  ghost predicate InTurn(env: Env, d: nat, q: Pattern, a: Stream, st: Stream)
    requires Within(a, |env.s|)
    decreases |a.ends|
  {
    if a.ends == [] then st == a
    else
      var first := Ends(env, d, q, a.ends[0]);
      if first.cut then st == first
      else
        && |first.ends| <= |st.ends| && st.ends[..|first.ends|] == first.ends
        && InTurn(env, d, q, Stream(a.ends[1..], a.cut), Stream(st.ends[|first.ends|..], st.cut))
  }

  lemma {:induction false} ExtendInTurn(env: Env, d: nat, q: Pattern, a: Stream)
    requires Within(a, |env.s|)
    ensures InTurn(env, d, q, a, Extend(env, d, a, [q]))
    decreases |a.ends|
  {
    if a.ends != [] {
      var first, rest := Ends(env, d, q, a.ends[0]), Extend(env, d, Stream(a.ends[1..], a.cut), [q]);
      SeqOne(env, d, q, a.ends[0]);
      ExtendInTurn(env, d, q, Stream(a.ends[1..], a.cut));
      if !first.cut {
        assert (first.ends + rest.ends)[|first.ends|..] == rest.ends;
      }
    }
  }

  /** An optional pattern: the empty match, then the ends of the pattern. */
  lemma {:induction false} OptionalEnds(env: Env, d: nat, p: Pattern, i: nat)
    requires i <= |env.s|
    ensures Ends(env, d, Opt(p), i).ends == [i] + Ends(env, d, p, i).ends
    ensures Ends(env, d, Opt(p), i).cut == Ends(env, d, p, i).cut
  {
  }

  // ----- no pattern matches backwards -----

  predicate NotBefore(st: Stream, i: nat) {
    forall k :: 0 <= k < |st.ends| ==> i <= st.ends[k]
  }

  /** Every end is at the cursor or beyond. */
  lemma {:induction false} EndsAreAhead(env: Env, d: nat, p: Pattern, i: nat)
    requires i <= |env.s|
    ensures NotBefore(Ends(env, d, p, i), i)
    decreases d, p, 0, 0
  {
    if !IsLeaf(p) {
      match p
      case Sigma(cs) => SeqIsAhead(env, d, cs, i);
      case Pi(cs) => AltIsAhead(env, d, cs, i);
      case Opt(c) => EndsAreAhead(env, d, c, i);
      case Ref(name) =>
        if name in env.graph && d > 0 {
          EndsAreAhead(env, d - 1, env.graph[name], i);
        }
      case _ =>
    }
  }

  lemma {:induction false} SeqIsAhead(env: Env, d: nat, cs: seq<Pattern>, i: nat)
    requires i <= |env.s|
    ensures NotBefore(EndsSeq(env, d, cs, i), i)
    decreases d, cs, 0, 0
  {
    if cs != [] {
      EndsAreAhead(env, d, cs[0], i);
      ExtendIsAhead(env, d, Ends(env, d, cs[0], i), cs[1..], i);
    }
  }

  lemma {:induction false} ExtendIsAhead(env: Env, d: nat, a: Stream, cs: seq<Pattern>, i: nat)
    requires i <= |env.s| && Within(a, |env.s|) && NotBefore(a, i)
    ensures NotBefore(Extend(env, d, a, cs), i)
    decreases d, cs, 1, |a.ends|
  {
    if a.ends != [] {
      SeqIsAhead(env, d, cs, a.ends[0]);
      ExtendIsAhead(env, d, Stream(a.ends[1..], a.cut), cs, i);
    }
  }

  lemma {:induction false} AltIsAhead(env: Env, d: nat, cs: seq<Pattern>, i: nat)
    requires i <= |env.s|
    ensures NotBefore(EndsAlt(env, d, cs, i), i)
    decreases d, cs, 0, 0
  {
    if cs != [] {
      EndsAreAhead(env, d, cs[0], i);
      AltIsAhead(env, d, cs[1..], i);
    }
  }
}
