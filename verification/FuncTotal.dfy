/** Patterns without left recursion: their streams of ends are complete at a depth that depends
    on the subject's length only. */
module FuncTotal {
  import opened Denotation
  import opened FuncIr
  import opened FuncSpec
  import opened FuncParts
  import opened FuncCalls
  import Laws

  /** Why a graph has no left recursion: the patterns that may match without consuming, and a
      rank below `top` that falls along every reference reachable without consuming. */
  datatype Order = Order(nullable: set<string>, rank: map<string, nat>, top: nat)

  /** The node may match without consuming. */
  predicate Nullable(o: Order, node: Node) {
    match node
    case Lit(s) => s == ""
    case Len(n) => n == 0
    case Pos(_) => true
    case Rpos(_) => true
    case Span(_) => false
    case Cat(l, r) => Nullable(o, l) && Nullable(o, r)
    case Alt(l, r) => Nullable(o, l) || Nullable(o, r)
    case Ref(name) => name in o.nullable
  }

  /** References the node may follow before it has consumed anything rank below `k`. */
  predicate LeftBelow(o: Order, node: Node, k: nat) {
    match node
    case Cat(l, r) => LeftBelow(o, l, k) && (Nullable(o, l) ==> LeftBelow(o, r, k))
    case Alt(l, r) => LeftBelow(o, l, k) && LeftBelow(o, r, k)
    case Ref(name) => name in o.rank && o.rank[name] < k
    case _ => true
  }

  predicate NoLeftRecursion(o: Order, graph: Graph) {
    && o.rank.Keys == graph.Keys
    && (forall name :: name in graph ==> o.rank[name] < o.top && LeftBelow(o, graph[name], o.rank[name]))
    && (forall name :: name in graph && Nullable(o, graph[name]) ==> name in o.nullable)
  }

  // ----- ends lie ahead -----

  /** Every end is at `i` or beyond, and beyond if `strict`. */
  predicate Ahead(st: Stream, i: nat, strict: bool) {
    forall k :: 0 <= k < |st.ends| ==> i <= st.ends[k] && (strict ==> i < st.ends[k])
  }

  lemma {:induction false} AheadAppend(a: Stream, b: Stream, i: nat, strict: bool)
    requires Ahead(a, i, strict) && Ahead(b, i, strict)
    ensures Ahead(Append(a, b), i, strict)
  {
  }

  lemma {:induction false} EndsLieAhead(o: Order, c: Ctx, d: nat, node: Node, i: nat)
    requires NoLeftRecursion(o, c.graph) && Closed(c.graph, node) && i <= |c.subject|
    requires forall name :: name in c.graph ==> Closed(c.graph, c.graph[name])
    ensures Ahead(EndsOf(c, d, node, i), i, !Nullable(o, node))
    decreases d, node, 0
  {
    match node
    case Cat(l, r) =>
      EndsLieAhead(o, c, d, l, i);
      CatEnds(c, d, l, r, i);
      ExtendLiesAhead(o, c, d, EndsOf(c, d, l, i), l, r, i);
    case Alt(l, r) =>
      EndsLieAhead(o, c, d, l, i);
      EndsLieAhead(o, c, d, r, i);
      AltEnds(c, d, l, r, i);
      AheadAppend(EndsOf(c, d, l, i), EndsOf(c, d, r, i), i, !Nullable(o, node));
    case Ref(name) =>
      RefEnds(c, d, name, i);
      if d > 0 {
        EndsLieAhead(o, c, d - 1, c.graph[name], i);
      }
    case _ =>
  }

  lemma {:induction false} ExtendLiesAhead(o: Order, c: Ctx, d: nat, st: Stream, l: Node, r: Node, i: nat)
    requires NoLeftRecursion(o, c.graph) && Closed(c.graph, r) && Within(st, |c.subject|) && i <= |c.subject|
    requires forall name :: name in c.graph ==> Closed(c.graph, c.graph[name])
    requires Ahead(st, i, !Nullable(o, l))
    ensures Ahead(EndsFrom(c, d, st, r), i, !Nullable(o, l) || !Nullable(o, r))
    decreases d, r, 1, |st.ends|
  {
    if st.ends == [] {
      EndsFromNone(c, d, st, r);
    } else {
      var rest := Stream(st.ends[1..], st.cut);
      EndsFromFirst(c, d, st, r);
      EndsLieAhead(o, c, d, r, st.ends[0]);
      ExtendLiesAhead(o, c, d, rest, l, r, i);
      AheadAppend(EndsOf(c, d, r, st.ends[0]), EndsFrom(c, d, rest, r), i, !Nullable(o, l) || !Nullable(o, r));
    }
  }

  // ----- the depth that suffices -----

  /** `top` for every character from `i` on: (n - i) * top. */
  function Room(o: Order, n: nat, i: nat): nat
    requires i <= n
    decreases n - i
  {
    if i == n then 0 else o.top + Room(o, n, i + 1)
  }

  /** Depth that suffices from cursor `i` for references that rank below `k`. */
  function Enough(o: Order, n: nat, i: nat, k: nat): nat
    requires i <= n
  {
    Room(o, n, i) + k
  }

  lemma {:induction false} FurtherIsEnough(o: Order, n: nat, i: nat, j: nat)
    requires i < j <= n
    ensures Room(o, n, j) + o.top <= Room(o, n, i)
    decreases j
  {
    if i + 1 < j {
      FurtherIsEnough(o, n, i, j - 1);
    }
  }

  /** At that depth the stream is complete. */
  lemma {:induction false} EnoughIsComplete(o: Order, c: Ctx, d: nat, node: Node, i: nat, k: nat)
    requires NoLeftRecursion(o, c.graph) && Closed(c.graph, node) && i <= |c.subject|
    requires forall name :: name in c.graph ==> Closed(c.graph, c.graph[name])
    requires LeftBelow(o, node, k) && k <= o.top && d >= Enough(o, |c.subject|, i, k)
    ensures !EndsOf(c, d, node, i).cut
    decreases d, node, 0
  {
    match node
    case Cat(l, r) =>
      EnoughIsComplete(o, c, d, l, i, k);
      EndsLieAhead(o, c, d, l, i);
      CatEnds(c, d, l, r, i);
      ExtendIsComplete(o, c, d, EndsOf(c, d, l, i), l, r, i, k);
    case Alt(l, r) =>
      EnoughIsComplete(o, c, d, l, i, k);
      EnoughIsComplete(o, c, d, r, i, k);
      AltEnds(c, d, l, r, i);
    case Ref(name) =>
      RefEnds(c, d, name, i);
      EnoughIsComplete(o, c, d - 1, c.graph[name], i, o.rank[name]);
    case _ =>
  }

  lemma {:induction false} LeftBelowTop(o: Order, graph: Graph, node: Node)
    requires NoLeftRecursion(o, graph) && Closed(graph, node)
    ensures LeftBelow(o, node, o.top)
    decreases node
  {
    match node
    case Cat(l, r) => LeftBelowTop(o, graph, l); LeftBelowTop(o, graph, r);
    case Alt(l, r) => LeftBelowTop(o, graph, l); LeftBelowTop(o, graph, r);
    case _ =>
  }

  lemma {:induction false} ExtendIsComplete(o: Order, c: Ctx, d: nat, st: Stream, l: Node, r: Node, i: nat, k: nat)
    requires NoLeftRecursion(o, c.graph) && Closed(c.graph, r) && Within(st, |c.subject|) && i <= |c.subject|
    requires forall name :: name in c.graph ==> Closed(c.graph, c.graph[name])
    requires Ahead(st, i, !Nullable(o, l)) && !st.cut
    requires (Nullable(o, l) ==> LeftBelow(o, r, k)) && k <= o.top && d >= Enough(o, |c.subject|, i, k)
    ensures !EndsFrom(c, d, st, r).cut
    decreases d, r, 1, |st.ends|
  {
    if st.ends == [] {
      EndsFromNone(c, d, st, r);
    } else {
      var e := st.ends[0];
      EndsFromFirst(c, d, st, r);
      if e > i {
        LeftBelowTop(o, c.graph, r);
        FurtherIsEnough(o, |c.subject|, i, e);
        EnoughIsComplete(o, c, d, r, e, o.top);
      } else {
        EnoughIsComplete(o, c, d, r, e, k);
      }
      ExtendIsComplete(o, c, d, Stream(st.ends[1..], st.cut), l, r, i, k);
    }
  }

  // ----- a complete stream does not depend on the depth -----

  lemma {:induction false} DeeperIsSame(c: Ctx, d: nat, d': nat, node: Node, i: nat)
    requires i <= |c.subject| && d <= d' && Closed(c.graph, node) && !EndsOf(c, d, node, i).cut
    requires forall name :: name in c.graph ==> Closed(c.graph, c.graph[name])
    ensures EndsOf(c, d', node, i) == EndsOf(c, d, node, i)
    decreases d, node, 0
  {
    match node
    case Cat(l, r) =>
      CatEnds(c, d, l, r, i);
      CatEnds(c, d', l, r, i);
      if EndsOf(c, d, l, i).cut {
        Laws.ExtendCut(EnvOf(c), d, EndsOf(c, d, l, i), [Meaning(r)]);
      }
      DeeperIsSame(c, d, d', l, i);
      ExtendDeeper(c, d, d', EndsOf(c, d, l, i), r);
    case Alt(l, r) =>
      AltEnds(c, d, l, r, i);
      AltEnds(c, d', l, r, i);
      DeeperIsSame(c, d, d', l, i);
      DeeperIsSame(c, d, d', r, i);
    case Ref(name) =>
      RefEnds(c, d, name, i);
      RefEnds(c, d', name, i);
      DeeperIsSame(c, d - 1, d' - 1, c.graph[name], i);
    case _ =>
  }

  lemma {:induction false} ExtendDeeper(c: Ctx, d: nat, d': nat, st: Stream, r: Node)
    requires Within(st, |c.subject|) && d <= d' && Closed(c.graph, r) && !EndsFrom(c, d, st, r).cut
    requires forall name :: name in c.graph ==> Closed(c.graph, c.graph[name])
    ensures EndsFrom(c, d', st, r) == EndsFrom(c, d, st, r)
    decreases d, r, 1, |st.ends|
  {
    if st.ends == [] {
      EndsFromNone(c, d, st, r);
      EndsFromNone(c, d', st, r);
    } else {
      EndsFromFirst(c, d, st, r);
      EndsFromFirst(c, d', st, r);
      DeeperIsSame(c, d, d', r, st.ends[0]);
      ExtendDeeper(c, d, d', Stream(st.ends[1..], st.cut), r);
    }
  }

  lemma {:induction false} RootIsComplete(o: Order, c: Ctx, d: nat, name: string, i: nat)
    requires NoLeftRecursion(o, c.graph) && name in c.graph && i <= |c.subject| && d >= Enough(o, |c.subject|, i, o.top)
    requires forall name :: name in c.graph ==> Closed(c.graph, c.graph[name])
    ensures !EndsOf(c, d, c.graph[name], i).cut
  {
    LeftBelowTop(o, c.graph, c.graph[name]);
    EnoughIsComplete(o, c, d, c.graph[name], i, o.top);
  }
}
