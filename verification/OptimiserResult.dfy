/** What the optimiser makes of one body, said of its blocks alone: where each goto leads
    afterwards, and which blocks are left. */
module OptimiserResult {
  import opened Denotation
  import opened FuncIr
  import opened FuncEmitter
  import FuncSpec
  import opened Optimiser

  // ----- chains of bare gotos -----

  /** The last block called `l` holds one goto, to `t`, and nothing else. */
  predicate Leads(bs: seq<Block>, l: Label, t: Label) {
    exists i :: 0 <= i < |bs| && IsLast(bs, l, i) && bs[i].lines == [[Goto(t)]]
  }

  predicate IsLast(bs: seq<Block>, l: Label, i: nat)
    requires i < |bs|
  {
    bs[i].name == l && forall j :: i < j < |bs| ==> bs[j].name != l
  }

  /** `n` bare gotos lead from `l` to `e`. */
  ghost predicate LeadsOn(bs: seq<Block>, l: Label, n: nat, e: Label)
    decreases n
  {
    if n == 0 then l == e else exists t :: Leads(bs, l, t) && LeadsOn(bs, t, n - 1, e)
  }

  /** Bare gotos lead from the label back to it. */
  ghost predicate Circles(bs: seq<Block>, l: Label) {
    exists n: nat :: n > 0 && LeadsOn(bs, l, n, l)
  }

  /** A chain ends at a label that is no bare goto, and at one that leads back to itself. */
  ghost predicate Ends(bs: seq<Block>, l: Label) {
    Circles(bs, l) || forall t :: !Leads(bs, l, t)
  }

  /** The chain from `l` comes to `e` after `n` gotos, and has not ended before. */
  ghost predicate EndsAfter(bs: seq<Block>, l: Label, n: nat, e: Label) {
    LeadsOn(bs, l, n, e) && Ends(bs, e) && forall k: nat, x :: k < n && LeadsOn(bs, l, k, x) ==> !Ends(bs, x)
  }

  ghost predicate EndsAt(bs: seq<Block>, l: Label, e: Label) {
    exists n: nat :: EndsAfter(bs, l, n, e)
  }

  // ----- the result -----

  /** Gotos lead to the end of the chain; nothing else is changed. */
  ghost predicate StmtThreaded(bs: seq<Block>, s: Stmt, s': Stmt) {
    match s
    case Goto(t) => s'.Goto? && EndsAt(bs, t, s'.target)
    case IfGoto(op, t) => s'.IfGoto? && s'.op == op && EndsAt(bs, t, s'.target)
    case _ => s' == s
  }

  ghost predicate LineThreaded(bs: seq<Block>, line: Line, line': Line) {
    |line'| == |line| && forall i :: 0 <= i < |line| ==> StmtThreaded(bs, line[i], line'[i])
  }

  ghost predicate BlockThreaded(bs: seq<Block>, b: Block, b': Block) {
    && b'.name == b.name && |b'.lines| == |b.lines|
    && forall i :: 0 <= i < |b.lines| ==> LineThreaded(bs, b.lines[i], b'.lines[i])
  }

  ghost predicate AllThreaded(bs: seq<Block>, mid: seq<Block>) {
    |mid| == |bs| && forall i :: 0 <= i < |bs| ==> BlockThreaded(bs, bs[i], mid[i])
  }

  /** A goto in one of the blocks names the label. */
  predicate GotoTo(bs: seq<Block>, l: Label) {
    exists i, j, k ::
      && 0 <= i < |bs| && 0 <= j < |bs[i].lines| && 0 <= k < |bs[i].lines[j]|
      && (bs[i].lines[j][k] == Goto(l) || (bs[i].lines[j][k].IfGoto? && bs[i].lines[j][k].target == l))
  }

  /** A chain that starts elsewhere ends there. */
  ghost predicate EndsChain(bs: seq<Block>, l: Label) {
    exists i :: 0 <= i < |bs| && bs[i].name != l && EndsAt(bs, bs[i].name, l)
  }

  /** What is left: blocks of two or more lines, protected ones, ends of chains, and those named by a goto. */
  ghost predicate Stays(bs: seq<Block>, mid: seq<Block>, entry: set<Label>, b: Block) {
    |b.lines| > 1 || b.name in entry || EndsChain(bs, b.name) || GotoTo(mid, b.name)
  }

  /** `out` is the blocks of `mid` at the positions `at`, in order. */
  predicate Picks(mid: seq<Block>, at: seq<nat>, out: seq<Block>) {
    && |out| == |at|
    && (forall j :: 0 <= j < |at| ==> at[j] < |mid| && out[j] == mid[at[j]])
    && Rising(at)
  }

  predicate Rising(at: seq<nat>) {
    forall j, k :: 0 <= j < k < |at| ==> at[j] < at[k]
  }

  /** The pass over `bs` gives `out`: the blocks with their gotos threaded, those that stay, in order. */
  ghost predicate Passes(bs: seq<Block>, entry: set<Label>, mid: seq<Block>, at: seq<nat>, out: seq<Block>) {
    && AllThreaded(bs, mid) && Picks(mid, at, out)
    && forall i: nat :: i < |mid| ==> (i in at <==> Stays(bs, mid, entry, mid[i]))
  }

  // ----- chains in the index -----

  function Next(index: map<Label, seq<Line>>, l: Label): Option<Label> {
    if l in index then BareGoto(index[l]) else None
  }

  function After(index: map<Label, seq<Line>>, l: Label, n: nat): Option<Label>
    decreases n
  {
    if n == 0 then Some(l) else if Next(index, l).None? then None else After(index, Next(index, l).value, n - 1)
  }

  lemma {:induction false} IndexIsLast(bs: seq<Block>, l: Label)
    ensures forall i :: 0 <= i < |bs| && IsLast(bs, l, i) ==> l in Index(bs) && Index(bs)[l] == bs[i].lines
    ensures l in Index(bs) ==>
      exists i :: 0 <= i < |bs| && IsLast(bs, l, i) && bs[i].lines == Index(bs)[l]
  {
    if bs != [] {
      var n := |bs| - 1;
      IndexIsLast(bs[..n], l);
      if bs[n].name == l {
        assert IsLast(bs, l, n);
      } else if l in Index(bs) {
        var i :| 0 <= i < n && IsLast(bs[..n], l, i) && bs[..n][i].lines == Index(bs[..n])[l];
        forall j | i < j < |bs| ensures bs[j].name != l {
          assert j < n ==> bs[..n][j] == bs[j];
        }
        assert IsLast(bs, l, i);
      }
      forall i | 0 <= i < |bs| && IsLast(bs, l, i) ensures l in Index(bs) && Index(bs)[l] == bs[i].lines {
        assert i < n ==> IsLast(bs[..n], l, i) && bs[..n][i] == bs[i];
      }
    }
  }

  lemma {:induction false} NextIsLeads(bs: seq<Block>, l: Label, t: Label)
    ensures Next(Index(bs), l) == Some(t) <==> Leads(bs, l, t)
  {
    IndexIsLast(bs, l);
    if Next(Index(bs), l) == Some(t) {
      var lines := Index(bs)[l];
      assert lines[0] == [Goto(t)];
      assert lines == [[Goto(t)]];
    }
  }

  lemma {:induction false} AfterIsLeadsOn(bs: seq<Block>, l: Label, n: nat, e: Label)
    ensures After(Index(bs), l, n) == Some(e) <==> LeadsOn(bs, l, n, e)
    decreases n
  {
    if n > 0 {
      var next := Next(Index(bs), l);
      if next.Some? {
        NextIsLeads(bs, l, next.value);
        AfterIsLeadsOn(bs, next.value, n - 1, e);
      }
      if t :| Leads(bs, l, t) && LeadsOn(bs, t, n - 1, e) {
        NextIsLeads(bs, l, t);
      }
    }
  }

  lemma {:induction false} AfterAdds(index: map<Label, seq<Line>>, l: Label, m: nat, n: nat)
    ensures After(index, l, m + n)
         == if After(index, l, m).None? then None else After(index, After(index, l, m).value, n)
    decreases m
  {
    if m > 0 && Next(index, l).Some? {
      AfterAdds(index, Next(index, l).value, m - 1, n);
    }
  }

  predicate Ring(index: map<Label, seq<Line>>, l: Label, n: nat) {
    n > 0 && After(index, l, n) == Some(l)
  }

  ghost predicate Stops(index: map<Label, seq<Line>>, l: Label) {
    Next(index, l).None? || exists n: nat :: Ring(index, l, n)
  }

  /** A label on a ring is met again as far on as one likes. */
  lemma {:induction false} RingGoesOn(index: map<Label, seq<Line>>, l: Label, n: nat, bound: nat) returns (i: nat)
    requires Ring(index, l, n)
    ensures i >= bound && After(index, l, i) == Some(l)
    decreases bound
  {
    if bound <= n {
      i := n;
    } else {
      i := RingGoesOn(index, l, n, bound - n);
      AfterAdds(index, l, n, i);
      i := n + i;
    }
  }

  /** A chain that comes back to its `k`th label at the `n`th meets no others later. */
  lemma {:induction false} RoundAgain(index: map<Label, seq<Line>>, t: Label, k: nat, n: nat, i: nat) returns (j: nat)
    requires k < n && k <= i && After(index, t, k).Some? && After(index, t, n) == After(index, t, k)
    ensures k <= j < n && After(index, t, i) == After(index, t, j)
    decreases i
  {
    if i < n {
      j := i;
    } else {
      AfterAdds(index, t, n, i - n);
      AfterAdds(index, t, k, i - n);
      j := RoundAgain(index, t, k, n, k + (i - n));
    }
  }

  /** The walk from `t` has met the labels of `seen`, each once, and is at `l` after `n` gotos. */
  ghost predicate Walked(index: map<Label, seq<Line>>, t: Label, n: nat, l: Label, seen: set<Label>) {
    && After(index, t, n) == Some(l)
    && (forall k: nat :: k < n ==> After(index, t, k).Some? && After(index, t, k).value in seen)
    && (forall x :: x in seen ==> exists k: nat :: k < n && After(index, t, k) == Some(x))
    && (forall j: nat, k: nat :: j < k < n ==> After(index, t, j) != After(index, t, k))
  }

  /** Before the walk meets a label again, no label on it is on a ring. */
  lemma {:induction false} NoRingBefore(index: map<Label, seq<Line>>, t: Label, n: nat, l: Label, seen: set<Label>,
                                        k: nat, j: nat)
    requires Walked(index, t, n, l, seen) && j < k < n && After(index, t, k) == Some(l)
    ensures !Stops(index, After(index, t, j).value)
  {
    var x := After(index, t, j).value;
    AfterAdds(index, t, j, 1);
    assert After(index, t, j + 1).Some? && Next(index, x).Some?;
    if m: nat :| Ring(index, x, m) {
      var far := RingGoesOn(index, x, m, k);
      AfterAdds(index, t, j, far);
      var i := RoundAgain(index, t, k, n, j + far);
    }
  }

  /** Nor is one when the walk comes to a label that leads nowhere. */
  lemma {:induction false} NoRingAhead(index: map<Label, seq<Line>>, t: Label, n: nat, l: Label, j: nat)
    requires After(index, t, n) == Some(l) && Next(index, l).None? && j < n && After(index, t, j).Some?
    ensures !Stops(index, After(index, t, j).value)
  {
    var x := After(index, t, j).value;
    AfterAdds(index, t, j, n - j);
    AfterAdds(index, t, n, 1);
    assert Next(index, x).Some?;
    if m: nat :| Ring(index, x, m) {
      var far := RingGoesOn(index, x, m, n + 1 - j);
      AfterAdds(index, t, j, far);
      AfterAdds(index, t, n + 1, j + far - (n + 1));
    }
  }

  ghost predicate StopsAfter(index: map<Label, seq<Line>>, t: Label, n: nat, e: Label) {
    && After(index, t, n) == Some(e) && Stops(index, e)
    && forall k: nat :: k < n ==> After(index, t, k).Some? && !Stops(index, After(index, t, k).value)
  }

  lemma {:induction false} WalkOn(index: map<Label, seq<Line>>, t: Label, n: nat, l: Label, seen: set<Label>)
    requires Walked(index, t, n, l, seen) && l !in seen && Next(index, l).Some?
    ensures Walked(index, t, n + 1, Next(index, l).value, seen + {l})
  {
    AfterAdds(index, t, n, 1);
    assert After(index, l, 1) == Next(index, l);
    forall x | x in seen + {l} ensures exists k: nat :: k < n + 1 && After(index, t, k) == Some(x) {
      if x in seen {
        var k: nat :| k < n && After(index, t, k) == Some(x);
      }
    }
  }

  lemma {:induction false} MetAgain(index: map<Label, seq<Line>>, t: Label, n: nat, l: Label, seen: set<Label>)
      returns (m: nat)
    requires Walked(index, t, n, l, seen) && l in seen
    ensures StopsAfter(index, t, m, l)
  {
    m :| m < n && After(index, t, m) == Some(l);
    AfterAdds(index, t, m, n - m);
    assert Ring(index, l, n - m);
    forall j: nat | j < m ensures !Stops(index, After(index, t, j).value) {
      NoRingBefore(index, t, n, l, seen, m, j);
    }
  }

  lemma {:induction false} NeverMet(index: map<Label, seq<Line>>, t: Label, n: nat, l: Label, seen: set<Label>)
    requires Walked(index, t, n, l, seen) && Next(index, l).None?
    ensures StopsAfter(index, t, n, l)
  {
    forall j: nat | j < n ensures !Stops(index, After(index, t, j).value) {
      NoRingAhead(index, t, n, l, j);
    }
  }

  lemma {:induction false} ResolveStops(index: map<Label, seq<Line>>, t: Label, n: nat, l: Label, seen: set<Label>)
      returns (m: nat)
    requires Walked(index, t, n, l, seen)
    ensures StopsAfter(index, t, m, Resolve(index, l, seen))
    decreases |index.Keys - seen|, 1
  {
    if l in seen {
      m := MetAgain(index, t, n, l, seen);
    } else if Next(index, l).None? {
      NeverMet(index, t, n, l, seen);
      m := n;
    } else {
      WalkOn(index, t, n, l, seen);
      m := ResolveOn(index, t, n, l, seen);
    }
  }

  lemma {:induction false} ResolveOn(index: map<Label, seq<Line>>, t: Label, n: nat, l: Label, seen: set<Label>)
      returns (m: nat)
    requires l !in seen && Next(index, l).Some? && Walked(index, t, n + 1, Next(index, l).value, seen + {l})
    ensures StopsAfter(index, t, m, Resolve(index, l, seen))
    decreases |index.Keys - seen|, 0
  {
    SeenGrows(index.Keys, seen, l);
    m := ResolveStops(index, t, n + 1, Next(index, l).value, seen + {l});
  }

  /** Where a chain stops, said of the blocks. */
  lemma {:induction false} StopsIsEnds(bs: seq<Block>, l: Label)
    ensures Stops(Index(bs), l) <==> Ends(bs, l)
  {
    forall t ensures Next(Index(bs), l) == Some(t) <==> Leads(bs, l, t) {
      NextIsLeads(bs, l, t);
    }
    forall n: nat ensures Ring(Index(bs), l, n) <==> n > 0 && LeadsOn(bs, l, n, l) {
      AfterIsLeadsOn(bs, l, n, l);
    }
    assert Next(Index(bs), l).Some? ==> Leads(bs, l, Next(Index(bs), l).value);
    if Circles(bs, l) {
      var n: nat :| n > 0 && LeadsOn(bs, l, n, l);
      assert Ring(Index(bs), l, n);
    }
  }

  lemma {:induction false} ResolveIsEnd(bs: seq<Block>, l: Label)
    ensures EndsAt(bs, l, Resolve(Index(bs), l, {}))
  {
    var index := Index(bs);
    var e := Resolve(index, l, {});
    var n := ResolveStops(index, l, 0, l, {});
    AfterIsLeadsOn(bs, l, n, e);
    StopsIsEnds(bs, e);
    forall k: nat, x | k < n && LeadsOn(bs, l, k, x) ensures !Ends(bs, x) {
      AfterIsLeadsOn(bs, l, k, x);
      StopsIsEnds(bs, x);
    }
    assert EndsAfter(bs, l, n, e);
  }

  /** There is one end at most. */
  lemma {:induction false} OneEnd(bs: seq<Block>, l: Label, d: Label, e: Label)
    requires EndsAt(bs, l, d) && EndsAt(bs, l, e)
    ensures d == e
  {
    var m: nat :| EndsAfter(bs, l, m, d);
    var n: nat :| EndsAfter(bs, l, n, e);
    AfterIsLeadsOn(bs, l, m, d);
    AfterIsLeadsOn(bs, l, n, e);
  }

  /** With its redirect, or without one, a label leads to the end of its chain. */
  lemma {:induction false} RedirectedIsEnd(bs: seq<Block>, l: Label)
    ensures EndsAt(bs, l, Redirected(RedirectsOf(Index(bs)), l))
  {
    ResolveIsEnd(bs, l);
  }

  // ----- the pass -----

  lemma {:induction false} RewritesThread(bs: seq<Block>, mid: seq<Block>)
    requires mid == RewriteBlocks(RedirectsOf(Index(bs)), bs)
    ensures AllThreaded(bs, mid)
  {
    var r := RedirectsOf(Index(bs));
    forall i | 0 <= i < |bs| ensures BlockThreaded(bs, bs[i], mid[i]) {
      forall j | 0 <= j < |bs[i].lines| ensures LineThreaded(bs, bs[i].lines[j], mid[i].lines[j]) {
        forall k | 0 <= k < |bs[i].lines[j]| ensures StmtThreaded(bs, bs[i].lines[j][k], mid[i].lines[j][k]) {
          var s := bs[i].lines[j][k];
          if s.Goto? || s.IfGoto? {
            RedirectedIsEnd(bs, s.target);
          }
        }
      }
    }
  }

  lemma {:induction false} CountIsNamed(code: seq<Stmt>, l: Label)
    ensures Count(code, l) > 0 <==> Names(code, l)
  {
    if code != [] {
      var n := |code| - 1;
      CountIsNamed(code[..n], l);
      if Names(code[..n], l) {
        var i :| 0 <= i < n && Target(code[..n][i]) == Some(l);
        assert Target(code[i]) == Some(l);
      }
      if Names(code, l) {
        var i :| 0 <= i < |code| && Target(code[i]) == Some(l);
        assert i < n ==> Target(code[..n][i]) == Some(l);
      }
    }
  }

  predicate NamesIn(lines: seq<Line>, l: Label) {
    exists j, k :: 0 <= j < |lines| && 0 <= k < |lines[j]| && Target(lines[j][k]) == Some(l)
  }

  lemma {:induction false} FlattenNames(lines: seq<Line>, l: Label)
    ensures Names(FuncSpec.Flatten(lines), l) <==> NamesIn(lines, l)
  {
    if lines != [] {
      var line, rest := lines[0], FuncSpec.Flatten(lines[1..]);
      FlattenNames(lines[1..], l);
      NamesJoin(line, rest, l);
      if NamesIn(lines[1..], l) {
        var j, k :| 0 <= j < |lines| - 1 && 0 <= k < |lines[1..][j]| && Target(lines[1..][j][k]) == Some(l);
        assert lines[j + 1] == lines[1..][j];
      }
      if NamesIn(lines, l) {
        var j, k :| 0 <= j < |lines| && 0 <= k < |lines[j]| && Target(lines[j][k]) == Some(l);
        assert j > 0 ==> lines[1..][j - 1] == lines[j];
      }
    }
  }

  lemma {:induction false} NamesJoin(a: seq<Stmt>, b: seq<Stmt>, l: Label)
    ensures Names(a + b, l) <==> Names(a, l) || Names(b, l)
  {
    if Names(b, l) {
      var i :| 0 <= i < |b| && Target(b[i]) == Some(l);
      assert (a + b)[|a| + i] == b[i];
    }
    if Names(a, l) {
      var i :| 0 <= i < |a| && Target(a[i]) == Some(l);
      assert (a + b)[i] == a[i];
    }
  }

  lemma {:induction false} CountInIsGoto(bs: seq<Block>, l: Label)
    ensures CountIn(bs, l) > 0 <==> GotoTo(bs, l)
  {
    if bs != [] {
      var n := |bs| - 1;
      CountInIsGoto(bs[..n], l);
      CountIsNamed(FuncSpec.Flatten(bs[n].lines), l);
      FlattenNames(bs[n].lines, l);
      GotoToLast(bs, l);
    }
  }

  lemma {:induction false} GotoToLast(bs: seq<Block>, l: Label)
    requires bs != []
    ensures var n := |bs| - 1; GotoTo(bs, l) <==> GotoTo(bs[..n], l) || NamesIn(bs[n].lines, l)
  {
    var n := |bs| - 1;
    assert forall i :: 0 <= i < n ==> bs[..n][i] == bs[i];
    if NamesIn(bs[n].lines, l) {
      var j, k :| 0 <= j < |bs[n].lines| && 0 <= k < |bs[n].lines[j]| && Target(bs[n].lines[j][k]) == Some(l);
      assert bs[n].lines[j][k] == Goto(l) || (bs[n].lines[j][k].IfGoto? && bs[n].lines[j][k].target == l);
    }
    if GotoTo(bs[..n], l) {
      var i, j, k :|
        && 0 <= i < n && 0 <= j < |bs[..n][i].lines| && 0 <= k < |bs[..n][i].lines[j]|
        && (bs[..n][i].lines[j][k] == Goto(l)
            || (bs[..n][i].lines[j][k].IfGoto? && bs[..n][i].lines[j][k].target == l));
      assert bs[i].lines[j][k] == bs[..n][i].lines[j][k];
    }
    if GotoTo(bs, l) {
      var i, j, k :|
        && 0 <= i < |bs| && 0 <= j < |bs[i].lines| && 0 <= k < |bs[i].lines[j]|
        && (bs[i].lines[j][k] == Goto(l) || (bs[i].lines[j][k].IfGoto? && bs[i].lines[j][k].target == l));
      assert Target(bs[i].lines[j][k]) == Some(l);
      assert i < n ==> bs[..n][i].lines[j][k] == bs[i].lines[j][k];
    }
  }

  lemma {:induction false} RedirectEndsChain(bs: seq<Block>, l: Label)
    ensures l in RedirectsOf(Index(bs)).Values <==> EndsChain(bs, l)
  {
    var index := Index(bs);
    IndexKeys(bs);
    if l in RedirectsOf(index).Values {
      var k :| k in RedirectsOf(index) && RedirectsOf(index)[k] == l;
      ResolveIsEnd(bs, k);
    }
    if EndsChain(bs, l) {
      var i :| 0 <= i < |bs| && bs[i].name != l && EndsAt(bs, bs[i].name, l);
      ResolveIsEnd(bs, bs[i].name);
      OneEnd(bs, bs[i].name, l, Resolve(index, bs[i].name, {}));
      assert IsRedirected(index, bs[i].name);
      assert RedirectsOf(index)[bs[i].name] == l;
    }
  }

  lemma {:induction false} DeadIsGone(bs: seq<Block>, mid: seq<Block>, entry: set<Label>, b: Block)
    ensures IsDead(mid, entry, RedirectsOf(Index(bs)), b) <==> !Stays(bs, mid, entry, b)
  {
    RedirectEndsChain(bs, b.name);
    CountInIsGoto(mid, b.name);
  }

  /** Positions in the front are positions in the whole, and one more may follow. */
  lemma {:induction false} PicksMore(some: seq<Block>, at: seq<nat>, out: seq<Block>)
    requires some != [] && Picks(some[..|some| - 1], at, out)
    ensures Picks(some, at, out) && Picks(some, at + [|some| - 1], out + [some[|some| - 1]])
    ensures forall i: nat :: i in at ==> i < |some| - 1
  {
  }

  lemma {:induction false} LivePicks(all: seq<Block>, entry: set<Label>, r: Redirects, some: seq<Block>)
      returns (at: seq<nat>)
    ensures Picks(some, at, Live(all, entry, r, some))
    ensures forall i: nat :: i < |some| ==> (i in at <==> !IsDead(all, entry, r, some[i]))
  {
    if some == [] {
      at := [];
    } else {
      var n := |some| - 1;
      at := LivePicks(all, entry, r, some[..n]);
      PicksMore(some, at, Live(all, entry, r, some[..n]));
      if !IsDead(all, entry, r, some[n]) {
        at := at + [n];
      }
    }
  }

  /** The whole pass, for every body and every set of protected labels. */
  lemma {:induction false} OptimisedPasses(bs: seq<Block>, entry: set<Label>) returns (mid: seq<Block>, at: seq<nat>)
    ensures Passes(bs, entry, mid, at, Optimised(bs, entry))
  {
    var r := RedirectsOf(Index(bs));
    mid := RewriteBlocks(r, bs);
    RewritesThread(bs, mid);
    at := LivePicks(mid, entry, r, mid);
    forall i: nat | i < |mid| ensures i in at <==> Stays(bs, mid, entry, mid[i]) {
      DeadIsGone(bs, mid, entry, mid[i]);
    }
  }

  /** A goto that is left leads to no bare goto, unless that one leads back to itself. */
  lemma {:induction false} LeftGotoIsThreaded(bs: seq<Block>, entry: set<Label>, mid: seq<Block>, at: seq<nat>,
                                              out: seq<Block>, i: nat, j: nat, k: nat, e: Label)
    requires Passes(bs, entry, mid, at, out)
    requires i < |out| && j < |out[i].lines| && k < |out[i].lines[j]| && Target(out[i].lines[j][k]) == Some(e)
    ensures Circles(bs, e) || forall t :: !Leads(bs, e, t)
  {
    var b := bs[at[i]];
    assert BlockThreaded(bs, b, out[i]);
    assert LineThreaded(bs, b.lines[j], out[i].lines[j]);
    assert StmtThreaded(bs, b.lines[j][k], out[i].lines[j][k]);
  }

  // ----- there is one result only -----

  lemma {:induction false} LinesThreadOnce(bs: seq<Block>, line: Line, x: Line, y: Line)
    requires LineThreaded(bs, line, x) && LineThreaded(bs, line, y)
    ensures x == y
  {
    forall i | 0 <= i < |line| ensures x[i] == y[i] {
      assert StmtThreaded(bs, line[i], x[i]) && StmtThreaded(bs, line[i], y[i]);
      if line[i].Goto? || line[i].IfGoto? {
        OneEnd(bs, line[i].target, x[i].target, y[i].target);
      }
    }
  }

  lemma {:induction false} BlocksThreadOnce(bs: seq<Block>, x: seq<Block>, y: seq<Block>)
    requires AllThreaded(bs, x) && AllThreaded(bs, y)
    ensures x == y
  {
    forall i | 0 <= i < |bs| ensures x[i] == y[i] {
      assert BlockThreaded(bs, bs[i], x[i]) && BlockThreaded(bs, bs[i], y[i]);
      forall j | 0 <= j < |bs[i].lines| ensures x[i].lines[j] == y[i].lines[j] {
        LinesThreadOnce(bs, bs[i].lines[j], x[i].lines[j], y[i].lines[j]);
      }
      assert x[i].lines == y[i].lines;
    }
  }

  lemma {:induction false} RisingOnce(x: seq<nat>, y: seq<nat>)
    requires Rising(x) && Rising(y) && forall i :: i in x <==> i in y
    ensures x == y
  {
    assert y != [] ==> y[0] in y;
    if x != [] {
      assert x[0] in y && y[|y| - 1] in x && x[|x| - 1] in y;
      var m, n := |x| - 1, |y| - 1;
      assert x[m] == y[n];
      forall i ensures i in x[..m] <==> i in y[..n] {
        assert i in x[..m] <==> i in x && i != x[m];
        assert i in y[..n] <==> i in y && i != y[n];
      }
      RisingOnce(x[..m], y[..n]);
      assert x == x[..m] + [x[m]] && y == y[..n] + [y[n]];
    }
  }

  lemma {:induction false} PassesOnce(bs: seq<Block>, entry: set<Label>, mid: seq<Block>, at: seq<nat>, out: seq<Block>,
                                      mid': seq<Block>, at': seq<nat>, out': seq<Block>)
    requires Passes(bs, entry, mid, at, out) && Passes(bs, entry, mid', at', out')
    ensures out == out'
  {
    BlocksThreadOnce(bs, mid, mid');
    forall i ensures i in at <==> i in at' {
      assert i in at || i in at' ==> i < |mid|;
    }
    RisingOnce(at, at');
  }
}
