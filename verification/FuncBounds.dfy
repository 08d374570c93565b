/** How much of the arena a pattern without left recursion needs: a constant and a constant per
    character of the subject. With that much, the generated functions enumerate every end. */
module FuncBounds {
  import Denotation
  import opened FuncIr
  import opened FuncSpec
  import opened FuncArena
  import opened FuncSession
  import opened FuncGenerator
  import opened FuncTotal

  function Max(x: nat, y: nat): nat {
    if x < y then y else x
  }

  /** Bytes a suspended node keeps that has consumed nothing, its references ranking below `k`. */
  function Still(o: Order, src: Source, node: Node, k: nat): nat
    decreases k, node
  {
    match node
    case Cat(l, r) =>
      if Nullable(o, node) then Still(o, src, l, k) + Still(o, src, r, k) else 0
    case Alt(l, r) => Max(Still(o, src, l, k), Still(o, src, r, k))
    case Ref(name) =>
      if name in src.graph && name in src.sizes && name in o.rank && o.rank[name] < k then
        Total(src.sizes[name]) + Still(o, src, src.graph[name], o.rank[name])
      else 0
    case _ => 0
  }

  /** Bytes taken up to the first character that is consumed, and beside it. */
  function Front(o: Order, src: Source, node: Node, k: nat): nat
    decreases k, node
  {
    match node
    case Cat(l, r) =>
      Max(if Nullable(o, l) then Still(o, src, l, k) + Front(o, src, r, k) else 0,
          Front(o, src, l, k) + Still(o, src, r, o.top))
    case Alt(l, r) => Max(Front(o, src, l, k), Front(o, src, r, k))
    case Ref(name) =>
      if name in src.graph && name in src.sizes && name in o.rank && o.rank[name] < k then
        Total(src.sizes[name]) + Front(o, src, src.graph[name], o.rank[name])
      else 0
    case _ => 0
  }

  /** Bytes that each further character may cost: the most any right part of the node starts with. */
  function PerChar(o: Order, src: Source, node: Node): nat {
    match node
    case Cat(l, r) =>
      Max(Front(o, src, r, o.top), Max(PerChar(o, src, l), PerChar(o, src, r)))
    case Alt(l, r) => Max(PerChar(o, src, l), PerChar(o, src, r))
    case _ => 0
  }

  function PerCharOf(o: Order, src: Source, names: seq<string>): nat {
    if names == [] then 0
    else
      Max(if names[0] in src.graph then PerChar(o, src, src.graph[names[0]]) else 0, PerCharOf(o, src, names[1..]))
  }

  lemma {:induction false} PerCharCovers(o: Order, src: Source, names: seq<string>,
                                         name: string)
    requires name in src.graph && name in names
    ensures PerChar(o, src, src.graph[name]) <= PerCharOf(o, src, names)
  {
    if names[0] != name {
      PerCharCovers(o, src, names[1..], name);
    }
  }

  /** `each` bytes for each of `n` characters. */
  function Bytes(each: nat, n: nat): nat {
    if n == 0 then 0 else each + Bytes(each, n - 1)
  }

  lemma {:induction false} BytesSplit(each: nat, m: nat, n: nat)
    ensures Bytes(each, m + n) == Bytes(each, m) + Bytes(each, n)
  {
    if m > 0 {
      BytesSplit(each, m - 1, n);
      assert m + n - 1 == m - 1 + n;
    }
  }

  lemma {:induction false} BytesIsProduct(each: nat, n: nat)
    ensures Bytes(each, n) == each * n
  {
    if n > 0 {
      BytesIsProduct(each, n - 1);
    }
  }

  /** The graph without left recursion, compiled, each character costing at most `each`. */
  ghost predicate Fair(o: Order, src: Source, each: nat) {
    && NoLeftRecursion(o, src.graph)
    && forall name :: name in src.graph ==>
      && Closed(src.graph, src.graph[name]) && name in src.sizes
      && PerChar(o, src, src.graph[name]) <= each
  }

  /** What a node suspended between `i` and `e` may keep. */
  function Kept(o: Order, src: Source, node: Node, k: nat, each: nat, i: nat, e: nat): nat {
    if e <= i then Still(o, src, node, k)
    else Front(o, src, node, k) + Bytes(each, e - i - 1)
  }

  lemma {:induction false} PairIsBounded(o: Order, src: Source, node: Node, k: nat, each: nat, i: nat, m: nat, e: nat)
    requires node.Cat? && i <= m <= e && PerChar(o, src, node) <= each
    requires m == i ==> Nullable(o, node.left)
    requires e == m ==> Nullable(o, node.right)
    ensures Kept(o, src, node.left, k, each, i, m) + Kept(o, src, node.right, if m == i then k else o.top, each, m, e)
         <= Kept(o, src, node, k, each, i, e)
  {
    if i < m < e {
      BytesSplit(each, m - i - 1, e - m);
      assert m - i - 1 + (e - m) == e - i - 1;
    }
  }

  /** The frames a suspended node keeps. */
  lemma {:induction false} SizeIsBounded(o: Order, src: Source, d: nat, node: Node, i: nat, e: nat, trail: Trail,
                                         k: nat, each: nat)
    requires Fair(o, src, each) && Closed(src.graph, node) && PerChar(o, src, node) <= each
    requires LeftBelow(o, node, k) && Shape(src, d, node, i, e, trail)
    ensures i <= e && (e == i ==> Nullable(o, node))
    ensures SizeOf(src, d, node, trail) <= Kept(o, src, node, k, each, i, e)
    decreases d, node
  {
    if node.Cat? {
      SizeIsBounded(o, src, d, node.left, i, trail.m, trail.left, k, each);
      var k' := if trail.m == i then k else o.top;
      LeftBelowTop(o, src.graph, node.right);
      SizeIsBounded(o, src, d, node.right, trail.m, e, trail.right, k', each);
      PairIsBounded(o, src, node, k, each, i, trail.m, e);
    } else if node.Alt? {
      if trail.InLeft? {
        SizeIsBounded(o, src, d, node.left, i, e, trail.left, k, each);
      } else {
        SizeIsBounded(o, src, d, node.right, i, e, trail.right, k, each);
      }
    } else if node.Ref? {
      SizeIsBounded(o, src, d - 1, src.graph[node.name], i, e, trail.child, o.rank[node.name], each);
    }
  }

  /** The frames a run asks for. */
  lemma {:induction false} AsksAreBounded(o: Order, src: Source, d: nat, node: Node, i: nat, lo: nat, want: nat, k: nat,
                                          each: nat)
    requires Fair(o, src, each) && Closed(src.graph, node) && PerChar(o, src, node) <= each
    requires LeftBelow(o, node, k) && i <= |src.subject| && Asks(src, d, node, i, lo, want)
    ensures want <= lo + Front(o, src, node, k) + Bytes(each, |src.subject| - i)
    decreases d, node, 1
  {
    if node.Cat? {
      if Asks(src, d, node.left, i, lo, want) {
        AsksAreBounded(o, src, d, node.left, i, lo, want, k, each);
      } else {
        var e: nat, left :| Shape(src, d, node.left, i, e, left)
            && Asks(src, d, node.right, e, lo + SizeOf(src, d, node.left, left), want);
        RightAsks(o, src, d, node, i, lo, want, k, each, e, left);
      }
    } else if node.Alt? {
      if Asks(src, d, node.left, i, lo, want) {
        AsksAreBounded(o, src, d, node.left, i, lo, want, k, each);
      } else {
        AsksAreBounded(o, src, d, node.right, i, lo, want, k, each);
      }
    } else if want != lo + Total(src.sizes[node.name]) {
      var name := node.name;
      AsksAreBounded(o, src, d - 1, src.graph[name], i, lo + Total(src.sizes[name]), want, o.rank[name], each);
    }
  }

  lemma {:induction false} RightAsks(o: Order, src: Source, d: nat, node: Node, i: nat, lo: nat, want: nat, k: nat,
                                     each: nat, e: nat, left: Trail)
    requires Fair(o, src, each) && Closed(src.graph, node) && PerChar(o, src, node) <= each
    requires node.Cat? && LeftBelow(o, node, k) && i <= |src.subject| && Shape(src, d, node.left, i, e, left)
    requires Asks(src, d, node.right, e, lo + SizeOf(src, d, node.left, left), want)
    ensures want <= lo + Front(o, src, node, k) + Bytes(each, |src.subject| - i)
    decreases d, node, 0
  {
    var mid := lo + SizeOf(src, d, node.left, left);
    SizeIsBounded(o, src, d, node.left, i, e, left, k, each);
    if e == i {
      AsksAreBounded(o, src, d, node.right, e, mid, want, k, each);
    } else {
      LeftBelowTop(o, src.graph, node.right);
      AsksAreBounded(o, src, d, node.right, e, mid, want, o.top, each);
    }
    FrontIsEnough(o, src, node, k, each, i, e);
  }

  lemma {:induction false} FrontIsEnough(o: Order, src: Source, node: Node, k: nat, each: nat, i: nat, e: nat)
    requires node.Cat? && i <= e <= |src.subject| && PerChar(o, src, node) <= each
    requires e == i ==> Nullable(o, node.left)
    ensures Kept(o, src, node.left, k, each, i, e)
          + Front(o, src, node.right, if e == i then k else o.top) + Bytes(each, |src.subject| - e)
         <= Front(o, src, node, k) + Bytes(each, |src.subject| - i)
  {
    if e > i {
      BytesSplit(each, e - i - 1, |src.subject| - e + 1);
      assert e - i - 1 + (|src.subject| - e + 1) == |src.subject| - i;
    }
  }

  // ----- the generated file -----

  /** Arena bytes that suffice for a call of the pattern with `n` characters ahead. */
  function Suffices(o: Order, src: Source, names: seq<string>, name: string, n: nat): nat {
    Front(o, src, Node.Ref(name), o.top) + PerCharOf(o, src, names) * n
  }

  lemma {:induction false} AskedIsBounded(o: Order, src: Source, names: seq<string>, d: nat, name: string, i: nat,
                                          lo: nat)
    requires Generates(src, names) && NoLeftRecursion(o, src.graph) && name in src.graph && i <= |src.subject|
    ensures Below(Asked(src, d, name, i, lo), lo + Suffices(o, src, names, name, |src.subject| - i))
  {
    var each := PerCharOf(o, src, names);
    forall other | other in src.graph ensures PerChar(o, src, src.graph[other]) <= each {
      PerCharCovers(o, src, names, other);
    }
    forall want | want in Asked(src, d, name, i, lo)
      ensures want <= lo + Suffices(o, src, names, name, |src.subject| - i)
    {
      AsksAreBounded(o, src, d, Node.Ref(name), i, lo, want, o.top, each);
      BytesIsProduct(each, |src.subject| - i);
    }
  }

  /** What the call of a pattern in the graph yields, the references in it followed to depth `d`. */
  ghost predicate YieldsAt(prog: Program, src: Source, d: nat, name: string, i: nat, m: Machine)
    requires name in src.graph && i <= |src.subject|
  {
    Yields(prog, src.subject, name, m, 0, EndsIn(src, d, src.graph[name], i), i, m.pos, d + 1,
           Asked(src, d + 1, name, i, m.pos))
  }

  /** Without left recursion, at the depth `Enough` or any greater, the stream of ends is
      complete: the generated function delivers every end and then answers empty, cursor and
      arena restored, or overflows the arena. */
  lemma {:induction false} GeneratedSourceIsTotal(o: Order, src: Source, names: seq<string>, d: nat, name: string,
                                                  i: nat, m: Machine)
    requires Generates(src, names) && NoLeftRecursion(o, src.graph) && name in src.graph && i <= |src.subject|
    requires d >= Enough(o, |src.subject|, i, o.top) && m.stack == [] && m.outer == Denotation.None && m.delta == i
    ensures !EndsIn(src, d, src.graph[name], i).cut
    ensures YieldsAt(Generated(src, names), src, d, name, i, m)
  {
    RootIsComplete(o, Ctx(Program(map[], src.sizes), src.graph, src.subject, map[]), d, name, i);
    GeneratedSourceYields(src, names, d, name, i, m);
  }

  lemma {:induction false} RoomSuffices(prog: Program, src: Source, d: nat, name: string, i: nat, m: Machine,
                                        limit: nat)
    requires name in src.graph && i <= |src.subject|
    requires YieldsAt(prog, src, d, name, i, m) && Below(Asked(src, d + 1, name, i, m.pos), limit)
    ensures YieldsWithin(prog, src.subject, name, m, EndsIn(src, d, src.graph[name], i), i, d + 1,
                         limit)
  {
  }

  lemma {:induction false} BoundSuffices(prog: Program, o: Order, src: Source, names: seq<string>, d: nat, name: string,
                                         i: nat, m: Machine)
    requires Generates(src, names) && NoLeftRecursion(o, src.graph) && name in src.graph && i <= |src.subject|
    requires YieldsAt(prog, src, d, name, i, m)
    ensures YieldsWithin(prog, src.subject, name, m, EndsIn(src, d, src.graph[name], i), i, d + 1,
                         m.pos + Suffices(o, src, names, name, |src.subject| - i))
  {
    AskedIsBounded(o, src, names, d + 1, name, i, m.pos);
    RoomSuffices(prog, src, d, name, i, m, m.pos + Suffices(o, src, names, name, |src.subject| - i));
  }

  /** The frames it enters end within a constant and a constant per character of the subject: if
      the arena has that room, it does not overflow (see FuncSession.NoOverflow). */
  lemma {:induction false} LinearArenaSuffices(o: Order, src: Source, names: seq<string>, d: nat, name: string, i: nat,
                                               m: Machine)
    requires Generates(src, names) && NoLeftRecursion(o, src.graph) && name in src.graph && i <= |src.subject|
    requires d >= Enough(o, |src.subject|, i, o.top) && m.stack == [] && m.outer == Denotation.None && m.delta == i
    ensures YieldsWithin(Generated(src, names), src.subject, name, m, EndsIn(src, d, src.graph[name], i), i, d + 1,
                         m.pos + Suffices(o, src, names, name, |src.subject| - i))
  {
    GeneratedSourceIsTotal(o, src, names, d, name, i, m);
    BoundSuffices(Generated(src, names), o, src, names, d, name, i, m);
  }
}
