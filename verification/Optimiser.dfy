/** FuncEmitter._optimize_body of archive/backend/emit_c.py: gotos to bare gotos are redirected,
    then small blocks that nothing names any more are dropped. */
module Optimiser {
  import opened Denotation
  import opened FuncIr
  import opened FuncEmitter
  import opened FuncSpec

  type Redirects = map<Label, Label>

  function Target(s: Stmt): Option<Label> {
    if s.Goto? || s.IfGoto? then Some(s.target) else None
  }

  /** Some statement of the code may jump to `l`. */
  predicate Names(code: seq<Stmt>, l: Label) {
    exists i :: 0 <= i < |code| && Target(code[i]) == Some(l)
  }

  // ----- copy propagation -----

  function Index(bs: seq<Block>): map<Label, seq<Line>> {
    if bs == [] then map[] else Index(bs[..|bs| - 1])[bs[|bs| - 1].name := bs[|bs| - 1].lines]
  }

  /** Where a block leads that holds nothing but a goto. */
  function BareGoto(lines: seq<Line>): Option<Label> {
    if |lines| == 1 && |lines[0]| == 1 && lines[0][0].Goto? then Some(lines[0][0].target) else None
  }

  /** The end of the chain of bare gotos from `l`; a label met again ends it too. */
  function Resolve(index: map<Label, seq<Line>>, l: Label, seen: set<Label>): Label
    decreases |index.Keys - seen|
  {
    if l in seen || l !in index then l
    else
      var next := BareGoto(index[l]);
      if next.None? then l
      else
        SeenGrows(index.Keys, seen, l);
        Resolve(index, next.value, seen + {l})
  }

  lemma {:induction false} SeenGrows(keys: set<Label>, seen: set<Label>, l: Label)
    requires l in keys && l !in seen
    ensures |keys - (seen + {l})| < |keys - seen|
  {
    assert keys - seen == (keys - (seen + {l})) + {l};
  }

  predicate IsRedirected(index: map<Label, seq<Line>>, l: Label) {
    l in index && BareGoto(index[l]).Some? && Resolve(index, l, {}) != l
  }

  function RedirectsOf(index: map<Label, seq<Line>>): Redirects {
    map l | l in index && IsRedirected(index, l) :: Resolve(index, l, {})
  }

  function Redirected(r: Redirects, l: Label): Label {
    if l in r then r[l] else l
  }

  function RewriteStmt(r: Redirects, s: Stmt): Stmt {
    match s
    case Goto(l) => Goto(Redirected(r, l))
    case IfGoto(op, l) => IfGoto(op, Redirected(r, l))
    case _ => s
  }

  function Rewrite(r: Redirects, code: seq<Stmt>): (out: seq<Stmt>)
    ensures |out| == |code| && forall i :: 0 <= i < |code| ==> out[i] == RewriteStmt(r, code[i])
  {
    if code == [] then [] else [RewriteStmt(r, code[0])] + Rewrite(r, code[1..])
  }

  function RewriteLines(r: Redirects, lines: seq<Line>): (out: seq<Line>)
    ensures |out| == |lines| && forall i :: 0 <= i < |lines| ==> out[i] == Rewrite(r, lines[i])
  {
    if lines == [] then [] else [Rewrite(r, lines[0])] + RewriteLines(r, lines[1..])
  }

  function RewriteBlocks(r: Redirects, bs: seq<Block>): (out: seq<Block>)
    ensures |out| == |bs|
    ensures forall i :: 0 <= i < |bs| ==> out[i] == Block(bs[i].name, RewriteLines(r, bs[i].lines))
  {
    if bs == [] then [] else [Block(bs[0].name, RewriteLines(r, bs[0].lines))] + RewriteBlocks(r, bs[1..])
  }

  // ----- dead labels -----

  /** How many gotos of the code name `l`. */
  function Count(code: seq<Stmt>, l: Label): nat {
    if code == [] then 0 else Count(code[..|code| - 1], l) + if Target(code[|code| - 1]) == Some(l) then 1 else 0
  }

  function CountIn(bs: seq<Block>, l: Label): nat {
    if bs == [] then 0 else CountIn(bs[..|bs| - 1], l) + Count(Flatten(bs[|bs| - 1].lines), l)
  }

  /** Protected labels, ends of redirected chains, and labels named by a goto are used. */
  function Incoming(bs: seq<Block>, entry: set<Label>, r: Redirects, l: Label): nat {
    (if l in entry then 999 else if l in r.Values then 1 else 0) + CountIn(bs, l)
  }

  predicate IsDead(bs: seq<Block>, entry: set<Label>, r: Redirects, b: Block) {
    Incoming(bs, entry, r, b.name) == 0 && b.name !in entry && |b.lines| <= 1
  }

  /** The blocks of `some` that are not dead among `all`. */
  function Live(all: seq<Block>, entry: set<Label>, r: Redirects, some: seq<Block>): seq<Block> {
    if some == [] then []
    else
      var b := some[|some| - 1];
      Live(all, entry, r, some[..|some| - 1]) + if IsDead(all, entry, r, b) then [] else [b]
  }

  function Optimised(bs: seq<Block>, entry: set<Label>): seq<Block> {
    var r := RedirectsOf(Index(bs));
    var rewritten := RewriteBlocks(r, bs);
    Live(rewritten, entry, r, rewritten)
  }

  /** The pass over one body, table by table. */
  method OptimizeBody(blocks: seq<Block>, entry: set<Label>) returns (live: seq<Block>)
    ensures live == Optimised(blocks, entry)
  {
    var index := BuildIndex(blocks);
    var redirect := BuildRedirects(blocks, index);
    var rewritten := RewriteAll(blocks, redirect);
    live := DropDead(rewritten, entry, redirect);
  }

  method RewriteAll(blocks: seq<Block>, redirect: Redirects) returns (rewritten: seq<Block>)
    ensures rewritten == RewriteBlocks(redirect, blocks)
  {
    rewritten := [];
    for k := 0 to |blocks|
      invariant |rewritten| == k
      invariant forall i :: 0 <= i < k ==> rewritten[i] == Block(blocks[i].name,
          RewriteLines(redirect, blocks[i].lines))
    {
      rewritten := rewritten + [Block(blocks[k].name, RewriteLines(redirect, blocks[k].lines))];
    }
  }

  method DropDead(blocks: seq<Block>, entry: set<Label>, redirect: Redirects) returns (live: seq<Block>)
    ensures live == Live(blocks, entry, redirect, blocks)
  {
    var incoming := CountIncoming(blocks, entry, redirect);
    live := [];
    for k := 0 to |blocks|
      invariant live == Live(blocks, entry, redirect, blocks[..k])
    {
      var b := blocks[k];
      assert blocks[..k + 1][..k] == blocks[..k];
      if !(incoming[b.name] == 0 && b.name !in entry && |b.lines| <= 1) {
        live := live + [b];
      }
    }
    assert blocks[..|blocks|] == blocks;
  }

  method BuildIndex(blocks: seq<Block>) returns (index: map<Label, seq<Line>>)
    ensures index == Index(blocks)
  {
    index := map[];
    for k := 0 to |blocks|
      invariant index == Index(blocks[..k])
    {
      assert blocks[..k + 1][..k] == blocks[..k];
      index := index[blocks[k].name := blocks[k].lines];
    }
    assert blocks[..|blocks|] == blocks;
  }

  lemma IndexKeys(bs: seq<Block>)
    ensures forall l :: l in Index(bs) <==> exists i :: 0 <= i < |bs| && bs[i].name == l
  {
  }

  method BuildRedirects(blocks: seq<Block>, index: map<Label, seq<Line>>) returns (redirect: Redirects)
    requires index == Index(blocks)
    ensures redirect == RedirectsOf(index)
  {
    redirect := map[];
    IndexKeys(blocks);
    for k := 0 to |blocks|
      invariant forall l :: l in redirect <==> IsRedirected(index, l) && exists i :: 0 <= i < k && blocks[i].name == l
      invariant forall l :: l in redirect ==> redirect[l] == Resolve(index, l, {})
    {
      var l := blocks[k].name;
      if BareGoto(index[l]).Some? {
        var final := Resolve(index, l, {});
        if final != l {
          redirect := redirect[l := final];
        }
      }
    }
  }

  /** A number for every label of a block: 999 if protected, 1 if a chain ends there, and one per goto. */
  method CountIncoming(blocks: seq<Block>, entry: set<Label>, redirect: Redirects) returns (incoming: map<Label, nat>)
    ensures forall i :: 0 <= i < |blocks| ==>
      blocks[i].name in incoming && incoming[blocks[i].name] == Incoming(blocks, entry, redirect, blocks[i].name)
  {
    incoming := map i | 0 <= i < |blocks| :: blocks[i].name := if blocks[i].name in entry then 999
        else if blocks[i].name in redirect.Values then 1 else 0;
    ghost var start := incoming;
    for k := 0 to |blocks|
      invariant incoming.Keys == start.Keys
      invariant forall l :: l in incoming ==> incoming[l] == start[l] + CountIn(blocks[..k], l)
    {
      assert blocks[..k + 1][..k] == blocks[..k];
      incoming := CountGotos(incoming, Flatten(blocks[k].lines));
    }
    assert blocks[..|blocks|] == blocks;
  }

  method CountGotos(before: map<Label, nat>, code: seq<Stmt>) returns (incoming: map<Label, nat>)
    ensures incoming.Keys == before.Keys
    ensures forall l :: l in incoming ==> incoming[l] == before[l] + Count(code, l)
  {
    incoming := before;
    for j := 0 to |code|
      invariant incoming.Keys == before.Keys
      invariant forall l :: l in incoming ==> incoming[l] == before[l] + Count(code[..j], l)
    {
      assert code[..j + 1][..j] == code[..j];
      var t := Target(code[j]);
      if t.Some? && t.value in incoming {
        incoming := incoming[t.value := incoming[t.value] + 1];
      }
    }
    assert code[..|code|] == code;
  }
}
