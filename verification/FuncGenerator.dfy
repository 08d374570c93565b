/** FuncEmitter.generate_source of archive/backend/emit_c.py: all functions of a graph, emitted,
    optimised and given their shells; and what they then yield. */
module FuncGenerator {
  import opened Denotation
  import opened FuncIr
  import opened FuncEmitter
  import opened FuncSpec
  import opened FuncArena
  import opened FuncProgram
  import opened FuncSession
  import opened Optimiser
  import opened OptimiserProof
  import OptimiserRuns
  import OptimiserResult

  // ----- emitted gotos name emitted labels -----

  predicate LabelsIn(bs: seq<Block>, all: set<Label>) {
    forall i :: 0 <= i < |bs| ==> bs[i].name in all
  }

  predicate LineLeads(line: Line, all: set<Label>) {
    forall j :: 0 <= j < |line| ==> Target(line[j]).Some? ==> Target(line[j]).value in all
  }

  lemma {:induction false} LinesLead(lines: seq<Line>, all: set<Label>, t: Label)
    requires forall i :: 0 <= i < |lines| ==> LineLeads(lines[i], all)
    requires Names(Flatten(lines), t)
    ensures t in all
  {
    if lines != [] {
      var i :| 0 <= i < |Flatten(lines)| && Target(Flatten(lines)[i]) == Some(t);
      if i >= |lines[0]| {
        assert Target(Flatten(lines[1..])[i - |lines[0]|]) == Some(t);
        LinesLead(lines[1..], all, t);
      }
    }
  }

  /** Every goto of the block names a label of `all`. */
  predicate Clear(b: Block, all: set<Label>) {
    forall i :: 0 <= i < |b.lines| ==> LineLeads(b.lines[i], all)
  }

  predicate ClearAll(bs: seq<Block>, all: set<Label>) {
    forall i :: 0 <= i < |bs| ==> Clear(bs[i], all)
  }

  lemma {:induction false} LeafClear(node: Node, nid: Nid, g: Label, o: Label, k: nat, all: set<Label>)
    requires !node.Cat? && !node.Alt? && g in all && o in all
    ensures ClearAll(Blocks(node, nid, g, o, k), all)
  {
  }

  lemma {:induction false} AlphaAndBeta(node: Node, nid: Nid, g: Label, o: Label, k: nat, all: set<Label>)
    requires LabelsIn(Blocks(node, nid, g, o, k), all)
    ensures P(nid, Alpha) in all && P(nid, Beta) in all
  {
    var bs := Blocks(node, nid, g, o, k);
    assert bs[0].name == P(nid, Alpha) && bs[|bs| - 1].name == P(nid, Beta);
  }

  lemma {:induction false} InFive(a: seq<Block>, x: seq<Block>, b: seq<Block>, y: seq<Block>, e: seq<Block>,
      all: set<Label>)
    requires LabelsIn(a + x + b + y + e, all)
    ensures LabelsIn(a, all) && LabelsIn(x, all) && LabelsIn(b, all) && LabelsIn(y, all) && LabelsIn(e, all)
  {
    InParts(a + x + b + y, e, all);
    InParts(a + x + b, y, all);
    InParts(a + x, b, all);
    InParts(a, x, all);
  }

  lemma {:induction false} InParts(a: seq<Block>, b: seq<Block>, all: set<Label>)
    requires LabelsIn(a + b, all)
    ensures LabelsIn(a, all) && LabelsIn(b, all)
  {
    forall i | 0 <= i < |a| ensures a[i].name in all {
      assert (a + b)[i] == a[i];
    }
    forall i | 0 <= i < |b| ensures b[i].name in all {
      assert (a + b)[|a| + i] == b[i];
    }
  }

  lemma {:induction false} ClearFive(a: seq<Block>, x: seq<Block>, b: seq<Block>, y: seq<Block>, e: seq<Block>,
      all: set<Label>)
    requires ClearAll(a, all) && ClearAll(x, all) && ClearAll(b, all) && ClearAll(y, all) && ClearAll(e, all)
    ensures ClearAll(a + x + b + y + e, all)
  {
  }

  lemma {:induction false} BlocksClear(node: Node, nid: Nid, g: Label, o: Label, k: nat, all: set<Label>)
    requires g in all && o in all && LabelsIn(Blocks(node, nid, g, o, k), all)
    ensures ClearAll(Blocks(node, nid, g, o, k), all)
    decreases node
  {
    var li, ri := Sub(k + 1), Sub(k + 2);
    AlphaAndBeta(node, nid, g, o, k, all);
    match node
    case Cat(l, r) =>
      var x, y := Blocks(l, li, P(nid, LiOk), P(nid, Beta), k + 2), Blocks(r, ri, g, P(nid, RiFail), Next(l, k + 2));
      var a, b, e := [CatAlpha(nid, li)], [CatLiOk(nid, ri)], [CatRiFail(nid, li), CatBeta(nid, ri, o)];
      InFive(a, x, b, y, e, all);
      assert b[0].name in all && e[0].name in all;
      AlphaAndBeta(l, li, P(nid, LiOk), P(nid, Beta), k + 2, all);
      AlphaAndBeta(r, ri, g, P(nid, RiFail), Next(l, k + 2), all);
      BlocksClear(l, li, P(nid, LiOk), P(nid, Beta), k + 2, all);
      BlocksClear(r, ri, g, P(nid, RiFail), Next(l, k + 2), all);
      ClearFive(a, x, b, y, e, all);
    case Alt(l, r) =>
      var x, y := Blocks(l, li, P(nid, Lg), P(nid, Lo), k + 2), Blocks(r, ri, P(nid, Rg), o, Next(l, k + 2));
      var a, b, e := [AltAlpha(nid, li)], [AltArm(nid, Lg, 1, g), AltArm(nid, Lo, 2, P(ri, Alpha))],
                     [AltArm(nid, Rg, 2, g), AltBeta(nid, li, ri, o)];
      InFive(a, x, b, y, e, all);
      assert b[0].name in all && b[1].name in all && e[0].name in all;
      AlphaAndBeta(l, li, P(nid, Lg), P(nid, Lo), k + 2, all);
      AlphaAndBeta(r, ri, P(nid, Rg), o, Next(l, k + 2), all);
      BlocksClear(l, li, P(nid, Lg), P(nid, Lo), k + 2, all);
      BlocksClear(r, ri, P(nid, Rg), o, Next(l, k + 2), all);
      ClearFive(a, x, b, y, e, all);
    case _ =>
      LeafClear(node, nid, g, o, k, all);
  }

  lemma {:induction false} FunctionIsTargeted(node: Node, k: nat)
    ensures Targeted(BodyOf(Emitted(node, k) + EXITS))
  {
    var bs := Emitted(node, k);
    var body := BodyOf(bs + EXITS);
    FunctionIsWired(node, k);
    forall i | 0 <= i < |bs| ensures bs[i].name in body.Keys {
      assert (bs + EXITS)[i] == bs[i];
    }
    BlocksClear(node, Root, P(Root, MatchOk), P(Root, MatchFail), k, body.Keys);
    forall l, t | l in body && Names(body[l], t) ensures t in body {
      TargetIn(bs, l, t);
    }
  }

  lemma {:induction false} TargetIn(bs: seq<Block>, l: Label, t: Label)
    requires Distinct(bs + EXITS) && ClearAll(bs, BodyOf(bs + EXITS).Keys)
    requires l in BodyOf(bs + EXITS) && Names(BodyOf(bs + EXITS)[l], t)
    ensures t in BodyOf(bs + EXITS)
  {
    var isExit, i := BlockOrExit(bs, l);
    if isExit {
      ExitCode(map[], i);
      HasExit(bs, i);
    } else {
      assert (bs + EXITS)[i] == bs[i];
      BodyHas(bs + EXITS, i);
      LinesLead(bs[i].lines, BodyOf(bs + EXITS).Keys, t);
    }
  }

  // ----- emitted blocks do not fall through -----

  /** The block's last statement is an unconditional jump. */
  predicate Jumps(b: Block) {
    b.lines != [] && var line := b.lines[|b.lines| - 1]; line != [] && line[|line| - 1].Goto?
  }

  predicate JumpAll(bs: seq<Block>) {
    forall i :: 0 <= i < |bs| ==> Jumps(bs[i])
  }

  lemma {:induction false} JumpFive(a: seq<Block>, x: seq<Block>, b: seq<Block>, y: seq<Block>, e: seq<Block>)
    requires JumpAll(a) && JumpAll(x) && JumpAll(b) && JumpAll(y) && JumpAll(e)
    ensures JumpAll(a + x + b + y + e)
  {
  }

  /** No emitted block falls through to the next. */
  lemma LeafJumps(node: Node, nid: Nid, g: Label, o: Label, k: nat)
    requires !node.Cat? && !node.Alt?
    ensures JumpAll(Blocks(node, nid, g, o, k))
  {
  }

  lemma {:induction false} BlocksJump(node: Node, nid: Nid, g: Label, o: Label, k: nat)
    ensures JumpAll(Blocks(node, nid, g, o, k))
    decreases node
  {
    var li, ri := Sub(k + 1), Sub(k + 2);
    match node
    case Cat(l, r) =>
      BlocksJump(l, li, P(nid, LiOk), P(nid, Beta), k + 2);
      BlocksJump(r, ri, g, P(nid, RiFail), Next(l, k + 2));
      JumpFive([CatAlpha(nid, li)], Blocks(l, li, P(nid, LiOk), P(nid, Beta), k + 2), [CatLiOk(nid, ri)],
               Blocks(r, ri, g, P(nid, RiFail), Next(l, k + 2)), [CatRiFail(nid, li), CatBeta(nid, ri, o)]);
    case Alt(l, r) =>
      BlocksJump(l, li, P(nid, Lg), P(nid, Lo), k + 2);
      BlocksJump(r, ri, P(nid, Rg), o, Next(l, k + 2));
      JumpFive([AltAlpha(nid, li)], Blocks(l, li, P(nid, Lg), P(nid, Lo), k + 2),
               [AltArm(nid, Lg, 1, g), AltArm(nid, Lo, 2, P(ri, Alpha))],
               Blocks(r, ri, P(nid, Rg), o, Next(l, k + 2)), [AltArm(nid, Rg, 2, g), AltBeta(nid, li, ri, o)]);
    case _ => LeafJumps(node, nid, g, o, k);
  }

  /** The pass takes no jump from the end of a block. */
  lemma {:induction false} OptimisedJumps(bs: seq<Block>, entry: set<Label>)
    requires JumpAll(bs)
    ensures JumpAll(Optimised(bs, entry))
  {
    var r := RedirectsOf(Index(bs));
    forall i | 0 <= i < |Optimised(bs, entry)| ensures Jumps(Optimised(bs, entry)[i]) {
      var k := LiveFrom(RewriteBlocks(r, bs), entry, r, RewriteBlocks(r, bs), i);
      assert Jumps(bs[k]);
    }
  }

  // ----- the generator -----

  /** Labels the pass must not drop. */
  const ENTRIES: set<Label> := {P(Root, Alpha), P(Root, Beta), P(Root, MatchOk), P(Root, MatchFail)}

  /** The names of the graph, each once, in the order they were added. */
  predicate Lists(names: seq<string>, graph: Graph) {
    && NoRepeats(names)
    && (forall i :: 0 <= i < |names| ==> names[i] in graph)
    && (forall name :: name in graph ==> name in names)
  }

  predicate NoRepeats(names: seq<string>) {
    names == [] || (names[|names| - 1] !in names[..|names| - 1] && NoRepeats(names[..|names| - 1]))
  }

  lemma {:induction false} NamesDiffer(names: seq<string>)
    requires NoRepeats(names)
    ensures forall i, j :: 0 <= i < j < |names| ==> names[i] != names[j]
  {
    if names != [] {
      var rest := names[..|names| - 1];
      NamesDiffer(rest);
      forall i, j | 0 <= i < j < |names| ensures names[i] != names[j] {
        assert names[i] == rest[i] && (j < |rest| ==> names[j] == rest[j]);
      }
    }
  }

  /** The counter when the functions of `names` have been emitted. */
  function CounterAfter(names: seq<string>, graph: Graph): nat
    requires forall i :: 0 <= i < |names| ==> names[i] in graph
  {
    if names == [] then 0 else Next(graph[names[|names| - 1]], CounterAfter(names[..|names| - 1], graph))
  }

  /** The counter at which each function starts. */
  function StartsOf(names: seq<string>, graph: Graph): map<string, nat>
    requires forall i :: 0 <= i < |names| ==> names[i] in graph
  {
    if names == [] then map[]
    else
      var n := |names| - 1;
      StartsOf(names[..n], graph)[names[n] := CounterAfter(names[..n], graph)]
  }

  lemma {:induction false} StartsCover(names: seq<string>, graph: Graph)
    requires forall i :: 0 <= i < |names| ==> names[i] in graph
    ensures forall name :: name in StartsOf(names, graph) <==> name in names
  {
    if names != [] {
      var n := |names| - 1;
      StartsCover(names[..n], graph);
      assert names == names[..n] + [names[n]];
    }
  }

  function EmittedBodies(names: seq<string>, graph: Graph): map<string, seq<Block>>
    requires forall i :: 0 <= i < |names| ==> names[i] in graph
  {
    var starts := StartsOf(names, graph);
    map name | name in starts && name in graph :: Emitted(graph[name], starts[name])
  }

  function OptimiseEach(bodies: map<string, seq<Block>>): map<string, seq<Block>> {
    map name | name in bodies :: Optimised(bodies[name], ENTRIES)
  }

  function OptimisedBodies(names: seq<string>, graph: Graph): map<string, seq<Block>>
    requires forall i :: 0 <= i < |names| ==> names[i] in graph
  {
    OptimiseEach(EmittedBodies(names, graph))
  }

  lemma {:induction false} EmittedNext(names: seq<string>, i: nat, graph: Graph)
    requires Lists(names, graph) && i < |names|
    ensures CounterAfter(names[..i + 1], graph) == Next(graph[names[i]], CounterAfter(names[..i], graph))
    ensures EmittedBodies(names[..i + 1], graph)
         == EmittedBodies(names[..i], graph)[names[i] := Emitted(graph[names[i]], CounterAfter(names[..i], graph))]
  {
    assert names[..i + 1][..i] == names[..i];
  }

  method EmitAll(graph: Graph, names: seq<string>) returns (bodies: map<string, seq<Block>>)
    requires Lists(names, graph)
    ensures bodies == EmittedBodies(names, graph)
  {
    var e := new Emitter();
    bodies := map[];
    for i := 0 to |names|
      invariant e.counter == CounterAfter(names[..i], graph)
      invariant bodies == EmittedBodies(names[..i], graph)
    {
      EmittedNext(names, i, graph);
      var blocks := e.EmitFunction(graph[names[i]]);
      bodies := bodies[names[i] := blocks];
    }
    assert names[..|names|] == names;
  }

  /** All functions, emitted and then optimised one by one. */
  method GenerateSource(graph: Graph, names: seq<string>) returns (bodies: map<string, seq<Block>>)
    requires Lists(names, graph)
    ensures bodies == OptimisedBodies(names, graph)
  {
    bodies := EmitAll(graph, names);
    StartsCover(names, graph);
    NamesDiffer(names);
    bodies := OptimizeAll(bodies, names);
  }

  method OptimizeAll(emitted: map<string, seq<Block>>, names: seq<string>) returns (bodies: map<string, seq<Block>>)
    requires forall i, j :: 0 <= i < j < |names| ==> names[i] != names[j]
    requires forall name :: name in emitted <==> name in names
    ensures bodies == OptimiseEach(emitted)
  {
    bodies := emitted;
    for i := 0 to |names|
      invariant Halfway(bodies, emitted, names[..i])
    {
      var live := OptimizeBody(bodies[names[i]], ENTRIES);
      HalfwayNext(bodies, emitted, names, i, live);
      bodies := bodies[names[i] := live];
    }
    assert names[..|names|] == names;
    HalfwayDone(bodies, emitted, names);
  }

  lemma {:induction false} HalfwayDone(bodies: map<string, seq<Block>>, emitted: map<string, seq<Block>>,
      names: seq<string>)
    requires Halfway(bodies, emitted, names) && forall name :: name in emitted ==> name in names
    ensures bodies == OptimiseEach(emitted)
  {
  }

  /** The bodies of the names that are done are optimised, the others as emitted. */
  predicate Halfway(bodies: map<string, seq<Block>>, emitted: map<string, seq<Block>>, done: seq<string>) {
    && bodies.Keys == emitted.Keys
    && forall name :: name in bodies ==> bodies[name] == if name in done then Optimised(emitted[name], ENTRIES)
        else emitted[name]
  }

  lemma {:induction false} HalfwayNext(bodies: map<string, seq<Block>>, emitted: map<string, seq<Block>>,
      names: seq<string>, i: nat, live: seq<Block>)
    requires i < |names| && names[i] in emitted && names[i] !in names[..i] && Halfway(bodies, emitted, names[..i])
    requires live == Optimised(bodies[names[i]], ENTRIES)
    ensures Halfway(bodies[names[i] := live], emitted, names[..i + 1])
  {
    assert names[..i + 1] == names[..i] + [names[i]];
  }

  // ----- the programs -----

  /** The C file: each body with its two return labels, and the structs' sizes. */
  function ProgramOf(bodies: map<string, seq<Block>>, sizes: map<string, Size>): Program {
    Program(map name | name in bodies :: BodyOf(bodies[name] + EXITS), sizes)
  }

  /** The C file that is written: the optimised functions. */
  function Generated(src: Source, names: seq<string>): Program
    requires forall i :: 0 <= i < |names| ==> names[i] in src.graph
  {
    ProgramOf(OptimisedBodies(names, src.graph), src.sizes)
  }

  /** The whole graph is well-formed and every function has a struct. */
  ghost predicate Generates(src: Source, names: seq<string>) {
    && Lists(names, src.graph)
    && forall name :: name in src.graph ==> Closed(src.graph, src.graph[name]) && name in src.sizes
  }

  function CtxOf(src: Source, names: seq<string>): Ctx
    requires forall i :: 0 <= i < |names| ==> names[i] in src.graph
  {
    Ctx(ProgramOf(EmittedBodies(names, src.graph), src.sizes), src.graph, src.subject, StartsOf(names, src.graph))
  }

  lemma {:induction false} EmittedCompiles(src: Source, names: seq<string>)
    requires Generates(src, names)
    ensures Compiled(CtxOf(src, names))
  {
    var graph := src.graph;
    StartsCover(names, graph);
    var starts := StartsOf(names, graph);
    forall name | name in graph
      ensures Wired(BodyOf(Emitted(graph[name], starts[name]) + EXITS), Piece(graph[name], Root, P(Root, MatchOk),
          P(Root, MatchFail), starts[name]))
      ensures Has(BodyOf(Emitted(graph[name], starts[name]) + EXITS), EXITS[0])
          && Has(BodyOf(Emitted(graph[name], starts[name]) + EXITS), EXITS[1])
      ensures Quiet(BodyOf(Emitted(graph[name], starts[name]) + EXITS))
    {
      FunctionIsWired(graph[name], starts[name]);
      FunctionIsQuiet(graph[name], starts[name]);
    }
  }

  function PassOf(bodies: map<string, seq<Block>>, sizes: map<string, Size>, subject: string): OptimiserRuns.Pass {
    OptimiserRuns.Pass(ProgramOf(bodies, sizes), ProgramOf(OptimiseEach(bodies), sizes),
                       map name | name in bodies :: RedirectsOf(Index(bodies[name])), subject)
  }

  lemma {:induction false} FunctionIsOptimised(node: Node, k: nat)
    ensures Optimises(BodyOf(Emitted(node, k) + EXITS), OptimisedBody(Emitted(node, k), ENTRIES),
        RedirectsOf(Index(Emitted(node, k))))
  {
    var bs := Emitted(node, k);
    FunctionIsWired(node, k);
    FunctionIsTargeted(node, k);
    assert bs[0].name == P(Root, Alpha) && bs[|bs| - 1].name == P(Root, Beta);
    PassOptimises(bs, ENTRIES);
  }

  lemma {:induction false} OptimisedAt(bodies: map<string, seq<Block>>, sizes: map<string, Size>, name: string)
    requires name in bodies
    ensures var prog := ProgramOf(OptimiseEach(bodies), sizes);
            name in prog.bodies && prog.bodies[name] == OptimisedBody(bodies[name], ENTRIES)
  {
    ProgramAt(OptimiseEach(bodies), sizes, name);
  }

  lemma {:induction false} ProgramAt(bodies: map<string, seq<Block>>, sizes: map<string, Size>, name: string)
    requires name in bodies
    ensures name in ProgramOf(bodies, sizes).bodies
        && ProgramOf(bodies, sizes).bodies[name] == BodyOf(bodies[name] + EXITS)
  {
  }

  lemma {:induction false} GraphIsOptimised(graph: Graph, names: seq<string>, sizes: map<string, Size>, subject: string)
    requires Lists(names, graph)
    ensures OptimiserRuns.Valid(PassOf(EmittedBodies(names, graph), sizes, subject))
  {
    var bodies, starts := EmittedBodies(names, graph), StartsOf(names, graph);
    var o := PassOf(bodies, sizes, subject);
    forall name | name in o.prog.bodies ensures Optimises(o.prog.bodies[name], o.prog'.bodies[name],
        o.redirects[name]) {
      ProgramAt(bodies, sizes, name);
      OptimisedAt(bodies, sizes, name);
      FunctionIsOptimised(graph[name], starts[name]);
    }
  }

  lemma {:induction false} OptimisedOf(graph: Graph, names: seq<string>, name: string)
    requires Lists(names, graph) && name in graph
    ensures name in EmittedBodies(names, graph) && name in OptimisedBodies(names, graph)
    ensures OptimisedBodies(names, graph)[name] == Optimised(EmittedBodies(names, graph)[name], ENTRIES)
  {
    StartsCover(names, graph);
  }

  /** Each function's blocks, as emitted, have gone through the pass, its ports and the two
      return labels protected. */
  lemma {:induction false} EveryBodyPasses(graph: Graph, names: seq<string>, name: string)
      returns (mid: seq<Block>, at: seq<nat>)
    requires Lists(names, graph) && name in graph
    ensures name in EmittedBodies(names, graph) && name in OptimisedBodies(names, graph)
    ensures OptimiserResult.Passes(EmittedBodies(names, graph)[name], ENTRIES, mid, at,
                                   OptimisedBodies(names, graph)[name])
  {
    OptimisedOf(graph, names, name);
    mid, at := OptimiserResult.OptimisedPasses(EmittedBodies(names, graph)[name], ENTRIES);
  }

  // ----- what the generated file yields -----

  lemma {:induction false} StartsAlike(o: OptimiserRuns.Pass, m: Machine, name: string, entry: nat, m1: Machine)
      returns (m1': Machine)
    requires OptimiserRuns.Valid(o) && m.stack == [] && Starts(o.prog, m, name, entry, m1)
    ensures Starts(o.prog', m, name, entry, m1') && OptimiserRuns.Sim(o, m1, m1')
  {
    OptimiserRuns.SimInvoke(o, m, m, name, OuterSlot, entry);
    m1' := Invoke(o.prog', m, name, OuterSlot, entry).value;
  }

  lemma {:induction false} ReturnsAlike(o: OptimiserRuns.Pass, m: Machine, name: string, entry: nat, m': Machine)
    requires OptimiserRuns.Valid(o) && m.stack == [] && Returns(o.prog, o.subject, m, name, entry, m')
    ensures Returns(o.prog', o.subject, m, name, entry, m')
  {
    var m1 :| Starts(o.prog, m, name, entry, m1) && Reaches(o.prog, o.subject, m1, m');
    var m1' := StartsAlike(o, m, name, entry, m1);
    OptimiserRuns.ReturnsAlike(o, m1, m1', m');
  }

  lemma {:induction false} AbortsAlike(o: OptimiserRuns.Pass, m: Machine, name: string, entry: nat, want: nat)
    requires OptimiserRuns.Valid(o) && m.stack == [] && Aborts(o.prog, o.subject, m, name, entry, want)
    requires want > ARENA_SIZE
    ensures Aborts(o.prog', o.subject, m, name, entry, want)
  {
    var m1, full :| Starts(o.prog, m, name, entry, m1) && Reaches(o.prog, o.subject, m1, full)
        && Wanted(o.prog, full) == want;
    var m1' := StartsAlike(o, m, name, entry, m1);
    var full' := OptimiserRuns.FullAlike(o, m1, m1', full);
    assert Reaches(o.prog', o.subject, m1', full');
  }

  lemma {:induction false} OverflowsAlike(o: OptimiserRuns.Pass, m: Machine, name: string, entry: nat, want: nat)
    requires OptimiserRuns.Valid(o) && m.stack == [] && Overflows(o.prog, o.subject, m, name, entry, want)
    ensures Overflows(o.prog', o.subject, m, name, entry, want)
  {
    if Aborts(o.prog, o.subject, m, name, entry, want) {
      AbortsAlike(o, m, name, entry, want);
    } else {
      assert o.prog'.sizes == o.prog.sizes;
    }
  }

  lemma {:induction false} NestsAlike(o: OptimiserRuns.Pass, m: Machine, name: string, entry: nat, depth: nat)
    requires OptimiserRuns.Valid(o) && m.stack == [] && Nests(o.prog, o.subject, m, name, entry, depth)
    ensures Nests(o.prog', o.subject, m, name, entry, depth)
  {
    var m1, deep :| Starts(o.prog, m, name, entry, m1) && Reaches(o.prog, o.subject, m1, deep) && |deep.stack| > depth;
    var m1' := StartsAlike(o, m, name, entry, m1);
    var deep' := OptimiserRuns.DeepAlike(o, m1, m1', deep);
    assert Reaches(o.prog', o.subject, m1', deep');
  }

  /** The optimised program yields what the original yields. */
  lemma {:induction false} YieldsAlike(o: OptimiserRuns.Pass, name: string, m: Machine, entry: nat, st: Stream, i: nat,
      base: nat, depth: nat, asks: iset<nat>)
    requires OptimiserRuns.Valid(o) && m.stack == []
    requires Yields(o.prog, o.subject, name, m, entry, st, i, base, depth, asks)
    ensures Yields(o.prog', o.subject, name, m, entry, st, i, base, depth, asks)
    decreases |st.ends|
  {
    if want :| want in asks && Overflows(o.prog, o.subject, m, name, entry, want) {
      OverflowsAlike(o, m, name, entry, want);
    } else if st.ends != [] {
      var m' :| && Returns(o.prog, o.subject, m, name, entry, m') && !m'.outerEmpty && m'.delta == st.ends[0]
                && Yields(o.prog, o.subject, name, m', 1, Stream(st.ends[1..], st.cut), i, base, depth, asks);
      ReturnsAlike(o, m, name, entry, m');
      YieldsAlike(o, name, m', 1, Stream(st.ends[1..], st.cut), i, base, depth, asks);
    } else if st.cut {
      NestsAlike(o, m, name, entry, depth);
    } else {
      var m' :| Returns(o.prog, o.subject, m, name, entry, m') && m'.outerEmpty && m'.delta == i && m'.pos == base
          && m'.outer == None;
      ReturnsAlike(o, m, name, entry, m');
    }
  }

  /** The generated file, for every graph, subject and arena position: called with entry 0 and
      then with entry 1 again and again, a function leaves the cursor at the ends of its pattern
      in turn, then answers empty with the cursor and the arena position it was called with; if
      the recursion is deeper than `d` before that, the calls nest deeper than `d` too. Unless a
      call overflows the arena: then at a frame that the derivation asks for. */
  lemma {:induction false} GeneratedSourceYields(src: Source, names: seq<string>, d: nat, name: string, i: nat,
                                                 m: Machine)
    requires Generates(src, names) && name in src.graph && i <= |src.subject|
    requires m.stack == [] && m.outer == None && m.delta == i
    ensures Yields(Generated(src, names), src.subject, name, m, 0, EndsIn(src, d, src.graph[name], i), i, m.pos, d + 1,
                   Asked(src, d + 1, name, i, m.pos))
  {
    EmittedCompiles(src, names);
    FunctionYields(CtxOf(src, names), d, name, i, m);
    GraphIsOptimised(src.graph, names, src.sizes, src.subject);
    YieldsAlike(PassOf(EmittedBodies(names, src.graph), src.sizes, src.subject), name, m, 0,
                EndsIn(src, d, src.graph[name], i), i, m.pos, d + 1, Asked(src, d + 1, name, i, m.pos));
  }
}
