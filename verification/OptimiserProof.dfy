/** What the optimiser does to one body: every goto that is left leads where the chain of
    bare gotos led, and to a block that is still there. */
module OptimiserProof {
  import opened Denotation
  import opened FuncIr
  import opened FuncEmitter
  import opened FuncSpec
  import opened FuncProgram
  import opened Optimiser
  import FuncLeaves

  /** `n` bare gotos lead from `l` to `e`. */
  predicate Forwards(body: Body, l: Label, n: nat, e: Label)
    decreases n
  {
    if n == 0 then l == e
    else l in body && |body[l]| == 1 && body[l][0].Goto? && Forwards(body, body[l][0].target, n - 1, e)
  }

  /** Jumps to `t` become jumps to the end of its chain, whose block is kept and rewritten. */
  ghost predicate Kept(body: Body, body': Body, r: Redirects, t: Label) {
    var e := Redirected(r, t);
    && t in body && e in body && e in body' && body'[e] == Rewrite(r, body[e])
    && exists n: nat :: Forwards(body, t, n, e)
  }

  ghost predicate KeptPort(body: Body, body': Body, r: Redirects, port: Port) {
    P(Root, port) in body && P(Root, port) in body' && body'[P(Root, port)] == Rewrite(r, body[P(Root, port)])
  }

  ghost predicate Optimises(body: Body, body': Body, r: Redirects) {
    && (forall l, t :: l in body && Names(body[l], t) ==> Kept(body, body', r, t))
    && KeptPort(body, body', r, Alpha) && KeptPort(body, body', r, Beta)
  }

  /** Every goto of the body names a block of the body, as a C compiler demands. */
  ghost predicate Targeted(body: Body) {
    forall l, t :: l in body && Names(body[l], t) ==> t in body
  }

  // ----- chains -----

  lemma {:induction false} FlattenBare(lines: seq<Line>)
    requires BareGoto(lines).Some?
    ensures Flatten(lines) == [Goto(BareGoto(lines).value)]
  {
    assert lines[1..] == [];
  }

  lemma IndexOf(bs: seq<Block>, i: nat)
    requires Distinct(bs) && i < |bs|
    ensures bs[i].name in Index(bs) && Index(bs)[bs[i].name] == bs[i].lines
  {
  }

  ghost predicate Agrees(index: map<Label, seq<Line>>, body: Body) {
    forall l :: l in index ==> l in body && body[l] == Flatten(index[l])
  }

  lemma {:induction false} IndexAgrees(bs: seq<Block>)
    requires Distinct(bs + EXITS)
    ensures Distinct(bs) && Agrees(Index(bs), BodyOf(bs + EXITS))
  {
    forall i, j | 0 <= i < j < |bs| ensures bs[i].name != bs[j].name {
      assert (bs + EXITS)[i].name != (bs + EXITS)[j].name;
    }
    IndexKeys(bs);
    forall l | l in Index(bs) ensures l in BodyOf(bs + EXITS) && BodyOf(bs + EXITS)[l] == Flatten(Index(bs)[l]) {
      var i :| 0 <= i < |bs| && bs[i].name == l;
      IndexOf(bs, i);
      assert (bs + EXITS)[i] == bs[i];
      BodyHas(bs + EXITS, i);
    }
  }

  /** A resolved label ends a chain of bare gotos, all of them in the body. */
  lemma {:induction false} ResolveForwards(index: map<Label, seq<Line>>, body: Body, l: Label, seen: set<Label>)
      returns (n: nat)
    requires Agrees(index, body) && Targeted(body) && l in body
    ensures Forwards(body, l, n, Resolve(index, l, seen)) && Resolve(index, l, seen) in body
    decreases |index.Keys - seen|
  {
    n := 0;
    if l !in seen && l in index && BareGoto(index[l]).Some? {
      FlattenBare(index[l]);
      SeenGrows(index.Keys, seen, l);
      var next := BareGoto(index[l]).value;
      assert Target(body[l][0]) == Some(next);
      assert Names(body[l], next);
      n := ResolveForwards(index, body, next, seen + {l});
      n := n + 1;
    }
  }

  // ----- rewriting -----

  lemma {:induction false} RewriteJoin(r: Redirects, a: seq<Stmt>, b: seq<Stmt>)
    ensures Rewrite(r, a + b) == Rewrite(r, a) + Rewrite(r, b)
  {
  }

  lemma {:induction false} RewriteFlatten(r: Redirects, lines: seq<Line>)
    ensures Flatten(RewriteLines(r, lines)) == Rewrite(r, Flatten(lines))
  {
    if lines != [] {
      RewriteFlatten(r, lines[1..]);
      RewriteJoin(r, lines[0], Flatten(lines[1..]));
      assert RewriteLines(r, lines)[1..] == RewriteLines(r, lines[1..]);
    }
  }

  lemma {:induction false} CountNames(code: seq<Stmt>, l: Label)
    requires Names(code, l)
    ensures Count(code, l) > 0
  {
    var n := |code| - 1;
    if Target(code[n]) != Some(l) {
      var i :| 0 <= i < |code| && Target(code[i]) == Some(l);
      assert code[..n][i] == code[i];
      CountNames(code[..n], l);
    }
  }

  lemma {:induction false} CountInNames(bs: seq<Block>, i: nat, l: Label)
    requires i < |bs| && Names(Flatten(bs[i].lines), l)
    ensures CountIn(bs, l) > 0
  {
    var n := |bs| - 1;
    if i == n {
      CountNames(Flatten(bs[n].lines), l);
    } else {
      CountInNames(bs[..n], i, l);
    }
  }

  // ----- what stays -----

  lemma {:induction false} LiveKeeps(all: seq<Block>, entry: set<Label>, r: Redirects, some: seq<Block>, i: nat)
      returns (j: nat)
    requires i < |some| && !IsDead(all, entry, r, some[i])
    ensures j < |Live(all, entry, r, some)| && Live(all, entry, r, some)[j] == some[i]
  {
    var n := |some| - 1;
    if i == n {
      j := |Live(all, entry, r, some[..n])|;
    } else {
      j := LiveKeeps(all, entry, r, some[..n], i);
    }
  }

  /** Where the block at `j` of the result comes from; positions keep their order. */
  lemma {:induction false} LiveFrom(all: seq<Block>, entry: set<Label>, r: Redirects, some: seq<Block>, j: nat)
      returns (i: nat)
    requires j < |Live(all, entry, r, some)|
    ensures j <= i < |some| && Live(all, entry, r, some)[j] == some[i] && !IsDead(all, entry, r, some[i])
  {
    var n := |some| - 1;
    if j < |Live(all, entry, r, some[..n])| {
      i := LiveFrom(all, entry, r, some[..n], j);
    } else {
      i := n;
      LiveShrinks(all, entry, r, some[..n]);
    }
  }

  lemma {:induction false} LiveShrinks(all: seq<Block>, entry: set<Label>, r: Redirects, some: seq<Block>)
    ensures |Live(all, entry, r, some)| <= |some|
  {
    if some != [] {
      LiveShrinks(all, entry, r, some[..|some| - 1]);
    }
  }

  lemma {:induction false} LiveDistinct(all: seq<Block>, entry: set<Label>, r: Redirects, some: seq<Block>)
    requires Distinct(some)
    ensures Distinct(Live(all, entry, r, some))
    decreases |some|
  {
    if some != [] {
      var n := |some| - 1;
      var live := Live(all, entry, r, some[..n]);
      LiveDistinct(all, entry, r, some[..n]);
      forall i | 0 <= i < |live| ensures live[i].name != some[n].name {
        var k := LiveFrom(all, entry, r, some[..n], i);
      }
      Join(live, [some[n]]);
    }
  }

  /** The parts of a function are distinct when all of it is. */
  lemma {:induction false} DistinctParts(a: seq<Block>, b: seq<Block>)
    requires Distinct(a + b)
    ensures Distinct(a) && Distinct(b) && Disjoint(a, b)
  {
    forall i, j | 0 <= i < j < |a| ensures a[i].name != a[j].name {
      assert (a + b)[i] == a[i] && (a + b)[j] == a[j];
    }
    forall i, j | 0 <= i < j < |b| ensures b[i].name != b[j].name {
      assert (a + b)[|a| + i] == b[i] && (a + b)[|a| + j] == b[j];
    }
    forall i, j | 0 <= i < |a| && 0 <= j < |b| ensures a[i].name != b[j].name {
      assert (a + b)[i] == a[i] && (a + b)[|a| + j] == b[j];
    }
  }

  /** The optimised function: the blocks that are left, rewritten, and the exits. */
  function OptimisedBody(bs: seq<Block>, entry: set<Label>): Body {
    BodyOf(Optimised(bs, entry) + EXITS)
  }

  lemma {:induction false} OptimisedDistinct(bs: seq<Block>, entry: set<Label>)
    requires Distinct(bs + EXITS)
    ensures Distinct(Optimised(bs, entry) + EXITS)
  {
    DistinctParts(bs, EXITS);
    var r := RedirectsOf(Index(bs));
    var rewritten := RewriteBlocks(r, bs);
    LiveDistinct(rewritten, entry, r, rewritten);
    var live := Optimised(bs, entry);
    forall i, j | 0 <= i < |live| && 0 <= j < |EXITS| ensures live[i].name != EXITS[j].name {
      var k := LiveFrom(rewritten, entry, r, rewritten, i);
    }
    Join(live, EXITS);
  }

  /** A block that is not dead is still there, rewritten. */
  lemma {:induction false} BlockStays(bs: seq<Block>, entry: set<Label>, i: nat)
    requires Distinct(bs + EXITS) && i < |bs|
    requires var r := RedirectsOf(Index(bs)); Incoming(RewriteBlocks(r, bs), entry, r, bs[i].name) > 0
    ensures var r, l := RedirectsOf(Index(bs)),
        bs[i].name; var body := BodyOf(bs + EXITS); var body' := OptimisedBody(bs, entry);
            l in body && l in body' && body'[l] == Rewrite(r, body[l])
  {
    var r := RedirectsOf(Index(bs));
    var rewritten := RewriteBlocks(r, bs);
    var j := LiveKeeps(rewritten, entry, r, rewritten, i);
    OptimisedDistinct(bs, entry);
    assert (Optimised(bs, entry) + EXITS)[j] == rewritten[i];
    BodyHas(Optimised(bs, entry) + EXITS, j);
    assert (bs + EXITS)[i] == bs[i];
    BodyHas(bs + EXITS, i);
    RewriteFlatten(r, bs[i].lines);
  }

  lemma {:induction false} ExitCode(r: Redirects, j: nat)
    requires j < |EXITS|
    ensures var code := Flatten(EXITS[j].lines); Rewrite(r, code) == code && forall t :: !Names(code, t)
  {
    FuncLeaves.FlattenOne([ReturnOk]);
    FuncLeaves.FlattenOne([ReturnFail]);
  }

  lemma {:induction false} ExitStays(bs: seq<Block>, entry: set<Label>, j: nat)
    requires Distinct(bs + EXITS) && j < |EXITS|
    ensures var l := EXITS[j].name; var body := BodyOf(bs + EXITS); var body' := OptimisedBody(bs, entry);
            l in body && l in body' && body'[l] == Rewrite(RedirectsOf(Index(bs)), body[l])
  {
    var out := Optimised(bs, entry);
    OptimisedDistinct(bs, entry);
    ExitCode(RedirectsOf(Index(bs)), j);
    HasExit(bs, j);
    HasExit(out, j);
  }

  lemma {:induction false} HasExit(bs: seq<Block>, j: nat)
    requires Distinct(bs + EXITS) && j < |EXITS|
    ensures Has(BodyOf(bs + EXITS), EXITS[j])
  {
    assert (bs + EXITS)[|bs| + j] == EXITS[j];
    BodyHas(bs + EXITS, |bs| + j);
  }

  lemma {:induction false} BlockOf(bs: seq<Block>, l: Label) returns (i: nat)
    requires l in BodyOf(bs + EXITS)
    ensures i < |bs + EXITS| && (bs + EXITS)[i].name == l
  {
    i :| 0 <= i < |bs + EXITS| && (bs + EXITS)[i].name == l;
  }

  /** A label that some block names: the end of its chain stays. */
  lemma {:induction false} NamedIsKept(bs: seq<Block>, entry: set<Label>, i: nat, t: Label)
    requires Distinct(bs + EXITS) && Targeted(BodyOf(bs + EXITS)) && i < |bs| && Names(Flatten(bs[i].lines), t)
    ensures Kept(BodyOf(bs + EXITS), OptimisedBody(bs, entry), RedirectsOf(Index(bs)), t)
  {
    NamedIsInBody(bs, i, t);
    var n := ChainOf(bs, t);
    EndStays(bs, entry, i, t);
  }

  lemma {:induction false} NamedIsInBody(bs: seq<Block>, i: nat, t: Label)
    requires Distinct(bs + EXITS) && Targeted(BodyOf(bs + EXITS)) && i < |bs| && Names(Flatten(bs[i].lines), t)
    ensures t in BodyOf(bs + EXITS)
  {
    assert (bs + EXITS)[i] == bs[i];
    BodyHas(bs + EXITS, i);
  }

  lemma {:induction false} ChainOf(bs: seq<Block>, t: Label) returns (n: nat)
    requires Distinct(bs + EXITS) && Targeted(BodyOf(bs + EXITS)) && t in BodyOf(bs + EXITS)
    ensures Forwards(BodyOf(bs + EXITS), t, n, Redirected(RedirectsOf(Index(bs)), t))
    ensures Redirected(RedirectsOf(Index(bs)), t) in BodyOf(bs + EXITS)
  {
    IndexAgrees(bs);
    n := ResolveForwards(Index(bs), BodyOf(bs + EXITS), t, {});
    if t !in RedirectsOf(Index(bs)) {
      n := 0;
    }
  }

  lemma {:induction false} IsNamed(bs: seq<Block>, r: Redirects, entry: set<Label>, i: nat, t: Label)
    requires i < |bs| && Names(Flatten(bs[i].lines), t)
    ensures Incoming(RewriteBlocks(r, bs), entry, r, Redirected(r, t)) > 0
  {
    RewriteFlatten(r, bs[i].lines);
    RewriteNames(r, Flatten(bs[i].lines), t);
    CountInNames(RewriteBlocks(r, bs), i, Redirected(r, t));
  }

  /** Where a label of the whole function stands: among the blocks or among the exits. */
  lemma {:induction false} BlockOrExit(bs: seq<Block>, l: Label) returns (isExit: bool, i: nat)
    requires l in BodyOf(bs + EXITS)
    ensures if isExit then i < |EXITS| && EXITS[i].name == l else i < |bs| && bs[i].name == l
  {
    i := BlockOf(bs, l);
    isExit := i >= |bs|;
    if isExit {
      assert (bs + EXITS)[i] == EXITS[i - |bs|];
      i := i - |bs|;
    }
  }

  lemma {:induction false} EndStays(bs: seq<Block>, entry: set<Label>, i: nat, t: Label)
    requires Distinct(bs + EXITS) && i < |bs| && Names(Flatten(bs[i].lines), t)
    requires Redirected(RedirectsOf(Index(bs)), t) in BodyOf(bs + EXITS)
    ensures var r := RedirectsOf(Index(bs)); var e := Redirected(r, t); var body' := OptimisedBody(bs, entry);
            e in body' && body'[e] == Rewrite(r, BodyOf(bs + EXITS)[e])
  {
    var r := RedirectsOf(Index(bs));
    var isExit, at := BlockOrExit(bs, Redirected(r, t));
    if isExit {
      ExitStays(bs, entry, at);
    } else {
      IsNamed(bs, r, entry, i, t);
      BlockStays(bs, entry, at);
    }
  }

  lemma {:induction false} RewriteNames(r: Redirects, code: seq<Stmt>, t: Label)
    requires Names(code, t)
    ensures Names(Rewrite(r, code), Redirected(r, t))
  {
    var i :| 0 <= i < |code| && Target(code[i]) == Some(t);
    assert Target(Rewrite(r, code)[i]) == Some(Redirected(r, t));
  }

  lemma {:induction false} EntryStays(bs: seq<Block>, entry: set<Label>, l: Label)
    requires Distinct(bs + EXITS) && l in entry && exists i :: 0 <= i < |bs| && bs[i].name == l
    ensures var body := BodyOf(bs + EXITS); var body' := OptimisedBody(bs, entry);
            l in body && l in body' && body'[l] == Rewrite(RedirectsOf(Index(bs)), body[l])
  {
    var i :| 0 <= i < |bs| && bs[i].name == l;
    BlockStays(bs, entry, i);
  }

  /** The optimised function against the function, for any blocks a C compiler accepts
      whose two entry labels are protected. */
  lemma {:induction false} PassOptimises(bs: seq<Block>, entry: set<Label>)
    requires Distinct(bs + EXITS) && Targeted(BodyOf(bs + EXITS))
    requires forall port | port in {Alpha, Beta} ::
      P(Root, port) in entry && exists i :: 0 <= i < |bs| && bs[i].name == P(Root, port)
    ensures Optimises(BodyOf(bs + EXITS), OptimisedBody(bs, entry), RedirectsOf(Index(bs)))
  {
    var body := BodyOf(bs + EXITS);
    EntryStays(bs, entry, P(Root, Alpha));
    EntryStays(bs, entry, P(Root, Beta));
    forall l, t | l in body && Names(body[l], t) ensures Kept(body, OptimisedBody(bs, entry), RedirectsOf(Index(bs)),
        t) {
      var i := BlockOf(bs, l);
      BodyHas(bs + EXITS, i);
      if i < |bs| {
        NamedIsKept(bs, entry, i, t);
      } else {
        ExitCode(map[], i - |bs|);
      }
    }
  }

  /** No goto that is left names a label that is gone. */
  lemma {:induction false} NoDanglingGoto(bs: seq<Block>, entry: set<Label>, i: nat, t: Label)
    requires Distinct(bs + EXITS) && Targeted(BodyOf(bs + EXITS))
    requires i < |Optimised(bs, entry)| && Names(Flatten(Optimised(bs, entry)[i].lines), t)
    ensures t in OptimisedBody(bs, entry)
  {
    var r := RedirectsOf(Index(bs));
    var k := LiveFrom(RewriteBlocks(r, bs), entry, r, RewriteBlocks(r, bs), i);
    RewriteFlatten(r, bs[k].lines);
    var s := NamedBefore(r, Flatten(bs[k].lines), t);
    NamedIsKept(bs, entry, k, s);
  }

  lemma {:induction false} NamedBefore(r: Redirects, code: seq<Stmt>, t: Label) returns (s: Label)
    requires Names(Rewrite(r, code), t)
    ensures Names(code, s) && t == Redirected(r, s)
  {
    var j :| 0 <= j < |code| && Target(Rewrite(r, code)[j]) == Some(t);
    s := Target(code[j]).value;
  }
}
