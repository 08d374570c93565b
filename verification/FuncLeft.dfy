/** Every call ends, at the latest where its nested calls have filled the arena. A pattern whose
    leftmost path comes back to it never gets any other answer. */
module FuncLeft {
  import opened Denotation
  import opened FuncIr
  import opened FuncSpec
  import opened FuncLeaves
  import opened FuncParts
  import opened FuncCalls
  import opened FuncSession
  import opened FuncGenerator

  /** The frames of that many nested calls do not fit the arena. */
  predicate TooDeep(depth: nat) {
    16 * depth > 4_194_304
  }

  ghost predicate Overflown(prog: Program, subject: string, m: Machine, name: string, entry: nat) {
    exists want :: Overflows(prog, subject, m, name, entry, want)
  }

  /** The calls yield the stream, with nested calls no deeper than the arena allows. */
  ghost predicate Settles(prog: Program, subject: string, name: string, m: Machine, entry: nat, st: Stream, i: nat,
      base: nat)
  {
    exists depth: nat, asks: iset<nat> ::
      TooDeep(depth) && Yields(prog, subject, name, m, entry, st, i, base, depth, asks)
  }

  /** So each call delivers the next end, or the empty answer after the last of a complete stream,
      or overflows; after the last end of a cut stream it overflows. */
  lemma {:induction false} NextCallEnds(prog: Program, subject: string, name: string, m: Machine, entry: nat,
                                        st: Stream, i: nat, base: nat)
    requires Settles(prog, subject, name, m, entry, st, i, base)
    ensures
      || Overflown(prog, subject, m, name, entry)
      || if st.ends != [] then
           exists m' ::
             && Returns(prog, subject, m, name, entry, m') && !m'.outerEmpty && m'.delta == st.ends[0]
             && Settles(prog, subject, name, m', 1, Stream(st.ends[1..], st.cut), i, base)
         else
           && !st.cut
           && exists m' ::
             && Returns(prog, subject, m, name, entry, m') && m'.outerEmpty
             && m'.delta == i && m'.pos == base && m'.outer == None
  {
    var depth: nat, asks: iset<nat> :|
      TooDeep(depth) && Yields(prog, subject, name, m, entry, st, i, base, depth, asks);
    if want :| want in asks && Overflows(prog, subject, m, name, entry, want) {
      assert Overflown(prog, subject, m, name, entry);
    } else if st.ends != [] {
      var m' :| && Returns(prog, subject, m, name, entry, m') && !m'.outerEmpty && m'.delta == st.ends[0]
                && Yields(prog, subject, name, m', 1, Stream(st.ends[1..], st.cut), i, base, depth, asks);
      assert Settles(prog, subject, name, m', 1, Stream(st.ends[1..], st.cut), i, base);
    }
  }

  /** For every graph, recursive in whatever way, and every subject: each call returns or
      overflows the arena (see NextCallEnds), as the stream says that is followed to a depth for
      which the arena is too small. */
  lemma {:induction false} EveryCallEnds(src: Source, names: seq<string>, d: nat, name: string, i: nat, m: Machine)
    requires Generates(src, names) && name in src.graph && i <= |src.subject| && TooDeep(d + 1)
    requires m.stack == [] && m.outer == None && m.delta == i
    ensures Settles(Generated(src, names), src.subject, name, m, 0, EndsIn(src, d, src.graph[name], i), i, m.pos)
  {
    GeneratedSourceYields(src, names, d, name, i, m);
  }

  // ----- left recursion -----

  /** The reference a node follows before it does anything else: down the left parts. */
  function Leftmost(node: Node): Option<string> {
    match node
    case Cat(l, _) => Leftmost(l)
    case Alt(l, _) => Leftmost(l)
    case Ref(name) => Some(name)
    case _ => None
  }

  /** The pattern reached from `name` after `n` steps along leftmost references. */
  function Along(graph: Graph, name: string, n: nat): Option<string>
    decreases n
  {
    if n == 0 then Some(name)
    else if name !in graph || Leftmost(graph[name]).None? then None
    else Along(graph, Leftmost(graph[name]).value, n - 1)
  }

  /** The leftmost path comes back to where it started. */
  ghost predicate ComesBack(graph: Graph, name: string) {
    exists n: nat :: n > 0 && Along(graph, name, n) == Some(name)
  }

  lemma {:induction false} AlongTwice(graph: Graph, name: string, m: nat, n: nat)
    requires Along(graph, name, m).Some?
    ensures Along(graph, name, m + n) == Along(graph, Along(graph, name, m).value, n)
    decreases m
  {
    if m > 0 {
      AlongTwice(graph, Leftmost(graph[name]).value, m - 1, n);
    }
  }

  /** A path that comes back goes on without end. */
  lemma {:induction false} ComesBackAgain(graph: Graph, name: string, n: nat, steps: nat)
    requires n > 0 && Along(graph, name, n) == Some(name)
    ensures Along(graph, name, steps).Some?
    decreases steps
  {
    if steps >= n {
      ComesBackAgain(graph, name, n, steps - n);
      AlongTwice(graph, name, n, steps - n);
    } else {
      AlongPrefix(graph, name, steps, n - steps);
    }
  }

  lemma {:induction false} AlongPrefix(graph: Graph, name: string, m: nat, n: nat)
    requires Along(graph, name, m + n).Some?
    ensures Along(graph, name, m).Some?
    decreases m
  {
    if m > 0 {
      AlongPrefix(graph, Leftmost(graph[name]).value, m - 1, n);
    }
  }

  lemma {:induction false} LeftmostLost(c: Ctx, d: nat, node: Node, i: nat)
    requires i <= |c.subject| && Leftmost(node).Some? && Lost(EndsOf(c, d, Node.Ref(Leftmost(node).value), i))
    ensures Lost(EndsOf(c, d, node, i))
    decreases node
  {
    match node
    case Cat(l, r) =>
      LeftmostLost(c, d, l, i);
      CatEnds(c, d, l, r, i);
      EndsFromNone(c, d, EndsOf(c, d, l, i), r);
    case Alt(l, r) =>
      LeftmostLost(c, d, l, i);
      AltEnds(c, d, l, r, i);
      AppendNone(EndsOf(c, d, l, i), EndsOf(c, d, r, i));
    case _ =>
  }

  /** As far as the path goes, no end is found, on any subject. */
  lemma {:induction false} PathIsLost(c: Ctx, d: nat, name: string, i: nat)
    requires i <= |c.subject| && Along(c.graph, name, d + 1).Some?
    ensures Lost(EndsOf(c, d, Node.Ref(name), i))
    decreases d
  {
    RefEnds(c, d, name, i);
    if d > 0 {
      PathIsLost(c, d - 1, Leftmost(c.graph[name]).value, i);
      LeftmostLost(c, d - 1, c.graph[name], i);
    }
  }

  /** A pattern whose leftmost path comes back to it: whatever the subject and the cursor, a call
      overflows the arena and never returns. */
  lemma {:induction false} LeftRecursionOverflows(src: Source, names: seq<string>, name: string, i: nat, m: Machine)
    requires Generates(src, names) && name in src.graph && i <= |src.subject| && ComesBack(src.graph, name)
    requires m.stack == [] && m.outer == None && m.delta == i
    ensures Overflown(Generated(src, names), src.subject, m, name, 0)
    ensures forall m' :: !Returns(Generated(src, names), src.subject, m, name, 0, m')
  {
    var prog := Generated(src, names);
    AnyCallOverflows(src, names, ARENA_SIZE, name, i, m);
    var want :| Overflows(prog, src.subject, m, name, 0, want);
    forall m' ensures !Returns(prog, src.subject, m, name, 0, m') {
      OverflowIsFinal(prog, src.subject, m, name, 0, want, m');
    }
  }

  lemma {:induction false} AnyCallOverflows(src: Source, names: seq<string>, d: nat, name: string, i: nat, m: Machine)
    requires Generates(src, names) && name in src.graph && i <= |src.subject| && TooDeep(d + 1)
    requires ComesBack(src.graph, name) && m.stack == [] && m.outer == None && m.delta == i
    ensures Overflown(Generated(src, names), src.subject, m, name, 0)
  {
    NeverFound(src, d, name, i);
    EveryCallEnds(src, names, d, name, i, m);
    NextCallEnds(Generated(src, names), src.subject, name, m, 0, EndsIn(src, d, src.graph[name], i), i, m.pos);
  }

  lemma {:induction false} NeverFound(src: Source, d: nat, name: string, i: nat)
    requires name in src.graph && i <= |src.subject| && ComesBack(src.graph, name)
    ensures Lost(EndsIn(src, d, src.graph[name], i))
  {
    var c := Ctx(Program(map[], src.sizes), src.graph, src.subject, map[]);
    var n: nat :| n > 0 && Along(src.graph, name, n) == Some(name);
    ComesBackAgain(src.graph, name, n, d + 2);
    PathIsLost(c, d + 1, name, i);
    RefEnds(c, d + 1, name, i);
  }
}
