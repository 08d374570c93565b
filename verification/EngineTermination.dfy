/** The engine stops without its iteration cap: a potential over the current node, Psi
    and every entry of Omega falls at each step, although alternations leave entries
    behind that retry arms already tried. */
module EngineTermination {
  import opened Denotation
  import opened EngineStep
  import opened EngineValue
  import EngineProof

  function Size(p: Pattern): (n: nat)
    ensures n >= 1
    decreases p, 0
  {
    if p.Sigma? || p.Pi? then 1 + SizeAll(p.children)
    else if p.Opt? then 4 + Size(p.child)
    else 1
  }

  function SizeAll(ps: seq<Pattern>): nat
    decreases ps, 0
  {
    if ps == [] then 0 else 2 + Size(ps[0]) + SizeAll(ps[1..])
  }

  /** Size of what node `p` has left from child index `c` on. */
  function Left(p: Pattern, c: nat): (n: nat)
    ensures n >= 1
  {
    if p.Sigma? || p.Pi? then 1 + (if c <= |p.children| then SizeAll(p.children[c..]) else 0)
    else if p.Opt? then (if c == 0 then 4 + Size(p.child) else if c == 1 then 3 + Size(p.child) else 1)
    else 1
  }

  function LeftAll(psi: seq<Frame>): nat {
    if psi == [] then 0 else 1 + Left(Top(psi).node, Top(psi).ctx + 1) + LeftAll(Below(psi))
  }

  lemma LeftBelow(psi: seq<Frame>, f: Frame)
    ensures LeftAll(psi + [f]) == 1 + Left(f.node, f.ctx + 1) + LeftAll(psi)
  {
    assert Below(psi + [f]) == psi;
  }

  lemma LeftOfChild(f: Frame)
    requires IsFrame(f)
    ensures Left(f.node, f.ctx) >= 2 + Left(f.node, f.ctx + 1) + Left(ChildAt(f), 0)
  {
    if f.node.Opt? {
      LeftAtEntry(f.node.child);
    } else {
      assert f.node.children[f.ctx..][1..] == f.node.children[f.ctx + 1..];
      LeftAtEntry(f.node.children[f.ctx]);
    }
  }

  lemma LeftAtEntry(p: Pattern)
    ensures Left(p, 0) == Size(p)
  {
    if p.Sigma? || p.Pi? {
      assert p.children[0..] == p.children;
    }
  }

  /** Steps still to come, at most, when node `p` is entered at cursor `i` with child
      index `c` and everything it leads to is tried. */
  function Entering(env: Env, p: Pattern, c: nat, i: nat, psi: seq<Frame>): nat
    requires i <= |env.s|
    decreases LeftAll(psi) + Left(p, c), (if i + c <= |env.s| then 1 + |env.s| - (i + c) else 0), 1
  {
    var f := Frame(p, c);
    if p.Arb? then
      if i + c <= |env.s| then
        1 + Succeeding(env, psi, i + c) + 1 + Entering(env, p, c + 1, i, psi)
      else 1
    else if p.Pi? && IsFrame(f) then
      LeftBelow(psi, f); LeftOfChild(f);
      1 + Entering(env, ChildAt(f), 0, i, psi + [f]) + 1 + Entering(env, p, c + 1, i, psi)
    else if p.Sigma? && IsFrame(f) then
      LeftBelow(psi, f); LeftOfChild(f);
      1 + Entering(env, ChildAt(f), 0, i, psi + [f])
    else if p.Sigma? then 1 + Succeeding(env, psi, i)
    else if p.Opt? && c == 0 then 1 + Succeeding(env, psi, i) + 1 + Entering(env, p, 1, i, psi)
    else if p.Opt? && c == 1 then
      LeftBelow(psi, f); LeftOfChild(f);
      1 + Entering(env, p.child, 0, i, psi + [f]) + 1 + Entering(env, p, 2, i, psi)
    else if p.Fence? then 2 + Succeeding(env, psi, i)
    else if IsLeaf(p) then
      var e := LeafEnd(env, p, i);
      1 + if e.Some? then Succeeding(env, psi, e.value) else Conceding(env, psi, i)
    else 1
  }

  /** Steps still to come when the innermost node has succeeded at cursor `e`. */
  function Succeeding(env: Env, psi: seq<Frame>, e: nat): nat
    requires e <= |env.s|
    decreases LeftAll(psi), 0, 0
  {
    if psi == [] then 0
    else
      var f := Top(psi);
      if f.node.Sigma? then 1 + Entering(env, f.node, f.ctx + 1, e, Below(psi))
      else 1 + Succeeding(env, Below(psi), e)
  }

  /** Steps still to come when the innermost node, entered at `i`, has conceded. */
  function Conceding(env: Env, psi: seq<Frame>, i: nat): nat
    requires i <= |env.s|
    decreases LeftAll(psi), 0, 0
  {
    if psi == [] then 0
    else
      var f := Top(psi);
      if f.node.Pi? then 1 + Entering(env, f.node, f.ctx + 1, i, Below(psi))
      else if f.node.Opt? then 1 + Conceding(env, Below(psi), i)
      else 1
  }

  /** Steps still to come when a saved choice is resumed. */
  function Resuming(env: Env, p: Pattern, c: nat, i: nat, psi: seq<Frame>): nat
    requires i <= |env.s|
  {
    if p.Fence? then 1 else 1 + Entering(env, p, c + 1, i, psi)
  }

  function AllResuming(env: Env, omega: seq<Choice>): nat {
    if omega == [] then 0
    else
      var e := Top(omega);
      AllResuming(env, Below(omega))
      + if e.z.node.Some? && e.z.start <= |env.s| then Resuming(env, e.z.node.value, e.z.ctx, e.z.start, e.psi) else 0
  }

  function CurrentPotential(env: Env, c: Config): nat
    requires c.z.node.Some? && c.z.start <= |env.s| && c.z.cur <= |env.s|
  {
    var p := c.z.node.value;
    match c.a
    case Proceed => Entering(env, p, c.z.ctx, c.z.start, c.psi)
    case Succeed => Succeeding(env, c.psi + [Frame(p, c.z.ctx)], c.z.cur)
    case Concede => Conceding(env, c.psi + [Frame(p, c.z.ctx)], c.z.start)
    case Recede => Resuming(env, p, c.z.ctx, c.z.start, c.psi)
  }

  function Potential(env: Env, c: Config): nat {
    if c.z.node.Some? && c.z.start <= |env.s| && c.z.cur <= |env.s|
    then CurrentPotential(env, c) + AllResuming(env, c.omega)
    else 0
  }

  lemma UpPotential(env: Env, root: Pattern, c: Config, a: Signal)
    requires InOrder(env, c.z) && IsPath(root, c.psi, c.z.node.value) && (a.Succeed? || a.Concede?)
    ensures Potential(env, Up(c).(a := a))
         <= (if a.Succeed? then Succeeding(env, c.psi, c.z.cur) else Conceding(env, c.psi, c.z.start))
            + AllResuming(env, c.omega)
  {
    if c.psi != [] {
      assert Below(c.psi) + [Top(c.psi)] == c.psi;
    }
  }

  lemma PopPotential(env: Env, root: Pattern, c: Config)
    requires SavedOk(env, root, c.omega)
    ensures Potential(env, OmegaPop(c).(a := Recede)) == AllResuming(env, c.omega)
  {
  }

  lemma PushPotential(env: Env, c: Config)
    requires c.z.node.Some? && c.z.start <= |env.s|
    ensures AllResuming(env, OmegaPush(c).omega)
         == AllResuming(env, c.omega) + Resuming(env, c.z.node.value, c.z.ctx, c.z.start, c.psi)
  {
    var omega := OmegaPush(c).omega;
    assert Below(omega) == c.omega && Top(omega) == Choice(c.z, c.psi);
  }

  lemma SuccessFalls(env: Env, root: Pattern, c: Config)
    requires Live(env, root, c) && c.a.Succeed?
    ensures Potential(env, Step(env.s, c)) < Potential(env, c)
  {
    var f := Frame(c.z.node.value, c.z.ctx);
    assert Below(c.psi + [f]) == c.psi;
    UpPotential(env, root, c, Succeed);
  }

  lemma ConcessionFalls(env: Env, root: Pattern, c: Config)
    requires Live(env, root, c) && c.a.Concede?
    ensures Potential(env, Step(env.s, c)) < Potential(env, c)
  {
    var f := Frame(c.z.node.value, c.z.ctx);
    assert Below(c.psi + [f]) == c.psi;
    UpPotential(env, root, c, Concede);
    PopPotential(env, root, c);
  }

  lemma ResumingFalls(env: Env, root: Pattern, c: Config)
    requires Live(env, root, c) && c.a.Recede?
    ensures Potential(env, Step(env.s, c)) < Potential(env, c)
  {
  }

  lemma PiFalls(env: Env, root: Pattern, c: Config)
    requires Live(env, root, c) && c.a.Proceed? && c.z.node.value.Pi?
    ensures Potential(env, StepPi(c, c.z.node.value.children)) < Potential(env, c)
  {
    PopPotential(env, root, c);
    PushPotential(env, c);
  }

  lemma SigmaFalls(env: Env, root: Pattern, c: Config)
    requires Live(env, root, c) && c.a.Proceed? && c.z.node.value.Sigma?
    ensures Potential(env, StepSigma(c, c.z.node.value.children)) < Potential(env, c)
  {
    UpPotential(env, root, c, Succeed);
  }

  lemma OptFalls(env: Env, root: Pattern, c: Config)
    requires Live(env, root, c) && c.a.Proceed? && c.z.node.value.Opt?
    ensures Potential(env, StepOpt(c, c.z.node.value.child)) < Potential(env, c)
  {
    PopPotential(env, root, c);
    PushPotential(env, c);
    UpPotential(env, root, OmegaPush(c), Succeed);
  }

  lemma FenceFalls(env: Env, root: Pattern, c: Config)
    requires Live(env, root, c) && c.a.Proceed? && c.z.node.value.Fence?
    ensures Potential(env, StepFence(c)) < Potential(env, c)
  {
    PushPotential(env, c);
    UpPotential(env, root, OmegaPush(c), Succeed);
  }

  lemma EnteringArb(env: Env, p: Pattern, k: nat, i: nat, psi: seq<Frame>)
    requires p.Arb? && i + k <= |env.s|
    ensures Entering(env, p, k, i, psi) == 1 + Succeeding(env, psi, i + k) + Resuming(env, p, k, i, psi)
  {
  }

  lemma ArbSaves(env: Env, root: Pattern, c: Config, moved: Config)
    requires Live(env, root, c) && c.a.Proceed? && c.z.node.value.Arb? && c.z.start + c.z.ctx <= |env.s|
    requires moved == c.(z := MovedTo(c.z, c.z.cur + c.z.ctx))
    ensures Potential(env, Up(OmegaPush(moved)).(a := Succeed)) < Potential(env, c)
  {
    EnteringArb(env, c.z.node.value, c.z.ctx, c.z.start, c.psi);
    PushPotential(env, moved);
    UpPotential(env, root, OmegaPush(moved), Succeed);
  }

  lemma ArbFalls(env: Env, root: Pattern, c: Config)
    requires Live(env, root, c) && c.a.Proceed? && c.z.node.value.Arb?
    ensures Potential(env, StepArb(c)) < Potential(env, c)
  {
    if c.z.start + c.z.ctx <= |env.s| {
      var moved := c.(z := MovedTo(c.z, c.z.cur + c.z.ctx));
      assert StepArb(c) == Up(OmegaPush(moved)).(a := Succeed);
      ArbSaves(env, root, c, moved);
    } else {
      PopPotential(env, root, c);
    }
  }

  lemma EnteringFalls(env: Env, root: Pattern, c: Config)
    requires Live(env, root, c) && c.a.Proceed?
    ensures Potential(env, Step(env.s, c)) < Potential(env, c)
  {
    var p := c.z.node.value;
    if IsLeaf(p) {
      LeafFalls(env, root, c);
    } else if p.Pi? {
      PiFalls(env, root, c);
    } else if p.Sigma? {
      SigmaFalls(env, root, c);
    } else if p.Opt? {
      OptFalls(env, root, c);
    } else if p.Arb? {
      ArbFalls(env, root, c);
    } else if p.Fence? {
      FenceFalls(env, root, c);
    }
  }

  lemma LeafFalls(env: Env, root: Pattern, c: Config)
    requires Live(env, root, c) && c.a.Proceed? && IsLeaf(c.z.node.value)
    ensures Potential(env, Step(env.s, c)) < Potential(env, c)
  {
    EngineProof.ScanIsLeafEnd(env, c.z.node.value, c.z);
    var r := ScanLeaf(env.s, c.z.node.value, c.z);
    UpPotential(env, root, c.(z := MovedTo(c.z, r.cur)), if r.ok then Succeed else Concede);
  }

  lemma StepFalls(env: Env, root: Pattern, c: Config)
    requires Live(env, root, c)
    ensures Step(env.s, c).z.node.Some? ==> Live(env, root, Step(env.s, c))
    ensures Potential(env, Step(env.s, c)) < Potential(env, c)
  {
    EngineProof.StepDelivers(env, root, c);
    match c.a
    case Proceed => EnteringFalls(env, root, c);
    case Succeed => SuccessFalls(env, root, c);
    case Concede => ConcessionFalls(env, root, c);
    case Recede => ResumingFalls(env, root, c);
  }

  // ----- patterns without choices -----

  /** Scanners and sequences of them, nested as deep as one likes. */
  predicate Straight(p: Pattern) {
    IsLeaf(p) || (p.Sigma? && forall k :: 0 <= k < |p.children| ==> Straight(p.children[k]))
  }

  predicate AllStraight(psi: seq<Frame>) {
    forall k :: 0 <= k < |psi| ==> psi[k].node.Sigma? && Straight(psi[k].node)
  }

  /** The engine goes through such a pattern once: its potential is at most its size. */
  lemma {:induction false} EnteringStraight(env: Env, p: Pattern, c: nat, i: nat, psi: seq<Frame>)
    requires i <= |env.s| && Straight(p) && AllStraight(psi)
    ensures Entering(env, p, c, i, psi) <= Left(p, c) + LeftAll(psi)
    decreases LeftAll(psi) + Left(p, c), 1
  {
    var f := Frame(p, c);
    if p.Sigma? && IsFrame(f) {
      LeftBelow(psi, f);
      LeftOfChild(f);
      EnteringStraight(env, ChildAt(f), 0, i, psi + [f]);
    } else if p.Sigma? {
      SucceedingStraight(env, psi, i);
    } else if LeafEnd(env, p, i).Some? {
      SucceedingStraight(env, psi, LeafEnd(env, p, i).value);
    }
  }

  lemma {:induction false} SucceedingStraight(env: Env, psi: seq<Frame>, e: nat)
    requires e <= |env.s| && AllStraight(psi)
    ensures Succeeding(env, psi, e) <= LeftAll(psi)
    decreases LeftAll(psi), 0
  {
    if psi != [] {
      EnteringStraight(env, Top(psi).node, Top(psi).ctx + 1, e, Below(psi));
    }
  }
}
