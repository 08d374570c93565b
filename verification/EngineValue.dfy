/** What a configuration of the engine can still deliver, and the invariant of its run. */
module EngineValue {
  import opened Denotation
  import opened EngineStep

  /** The first result in backtracking order: none, a halt, or a match ending at `end`. */
  datatype Outcome = Miss | Halt | Hit(end: nat)

  function OrElse(x: Outcome, y: Outcome): Outcome {
    if x.Miss? then y else x
  }

  function Verdict(x: Outcome): Option<nat> {
    if x.Hit? then Some(x.end) else None
  }

  /** `p` and all its sub-patterns are of node types this model covers. */
  predicate InFragment(p: Pattern)
    decreases p
  {
    && !p.SpanRetreat? && !p.Ref?
    && (p.Sigma? || p.Pi? ==> forall k :: 0 <= k < |p.children| ==> InFragment(p.children[k]))
    && (p.Opt? ==> InFragment(p.child))
  }

  /** Results node `p` still has when entered at cursor `i` with child index `c`. */
  function Remaining(env: Env, p: Pattern, c: nat, i: nat): (r: Stream)
    requires i <= |env.s|
    ensures Within(r, |env.s|)
  {
    if p.Sigma? then (if c <= |p.children| then EndsSeq(env, 0, p.children[c..], i) else Nothing)
    else if p.Pi? then (if c <= |p.children| then EndsAlt(env, 0, p.children[c..], i) else Nothing)
    else if p.Opt? then
      (if c == 0 then Ends(env, 0, p, i) else if c == 1 then Ends(env, 0, p.child, i) else Nothing)
    else if p.Arb? then (if i + c <= |env.s| then Stream(UpFrom(i + c, |env.s|), false) else Nothing)
    else Ends(env, 0, p, i)
  }

  function Top<T>(s: seq<T>): T
    requires s != []
  {
    s[|s| - 1]
  }

  function Below<T>(s: seq<T>): seq<T>
    requires s != []
  {
    s[..|s| - 1]
  }

  /** First result after the innermost node succeeded at cursor `e`. */
  function SuccVal(env: Env, psi: seq<Frame>, e: nat): Outcome
    requires e <= |env.s|
    decreases |psi|, 0
  {
    if psi == [] then Hit(e)
    else
      var f := Top(psi);
      if f.node.Sigma? then Thread(env, Remaining(env, f.node, f.ctx + 1, e), Below(psi))
      else SuccVal(env, Below(psi), e)
  }

  /** First result when the innermost node delivers the stream `st`. */
  function Thread(env: Env, st: Stream, psi: seq<Frame>): Outcome
    requires Within(st, |env.s|)
    decreases |psi|, |st.ends| + 1
  {
    if st.ends == [] then (if st.cut then Halt else Miss)
    else OrElse(SuccVal(env, psi, st.ends[0]), Thread(env, Stream(st.ends[1..], st.cut), psi))
  }

  /** First result reached without Omega after a node entered at `i` conceded. */
  function ConcVal(env: Env, psi: seq<Frame>, i: nat): Outcome
    requires i <= |env.s|
    decreases |psi|
  {
    if psi == [] then Miss
    else
      var f := Top(psi);
      if f.node.Pi? then Thread(env, Remaining(env, f.node, f.ctx + 1, i), Below(psi))
      else if f.node.Opt? then ConcVal(env, Below(psi), i)
      else Miss
  }

  /** First result of resuming node `p`, saved with child index `c` at cursor `i`. */
  function ResumeVal(env: Env, p: Pattern, c: nat, i: nat, psi: seq<Frame>): Outcome
    requires i <= |env.s|
  {
    if p.Fence? then Halt else Thread(env, Remaining(env, p, c + 1, i), psi)
  }

  /** First result of resuming a saved choice. */
  function ChoiceVal(env: Env, e: Choice): Outcome {
    if e.z.node.Some? && e.z.start <= |env.s| then ResumeVal(env, e.z.node.value, e.z.ctx, e.z.start, e.psi)
    else Miss
  }

  /** First result of backtracking into Omega. */
  function OmegaVal(env: Env, omega: seq<Choice>): Outcome {
    if omega == [] then Miss else OrElse(ChoiceVal(env, Top(omega)), OmegaVal(env, Below(omega)))
  }

  /** A frame the engine can return to: a node with children, at a child it has. */
  predicate IsFrame(f: Frame) {
    if f.node.Sigma? || f.node.Pi? then f.ctx < |f.node.children| else f.node.Opt? && f.ctx == 1
  }

  function ChildAt(f: Frame): Pattern
    requires IsFrame(f)
  {
    if f.node.Opt? then f.node.child else f.node.children[f.ctx]
  }

  /** Psi is the exact path of (node, child index) pairs from `root` to `node`. */
  predicate IsPath(root: Pattern, psi: seq<Frame>, node: Pattern)
    decreases |psi|
  {
    if psi == [] then node == root
    else
      var f := Top(psi);
      IsFrame(f) && InFragment(f.node) && node == ChildAt(f) && IsPath(root, Below(psi), f.node)
  }

  /** Conceding to the alternation below finds nothing that Omega would not find first.
      This is what makes the entries an alternation leaves behind harmless. */
  predicate MayConcede(env: Env, psi: seq<Frame>, i: nat, omega: seq<Choice>)
    requires i <= |env.s|
    decreases |psi|
  {
    if psi == [] then OmegaVal(env, omega) == Miss
    else
      var f := Top(psi);
      if f.node.Pi? then ConcVal(env, psi, i) == Miss || ConcVal(env, psi, i) == OmegaVal(env, omega)
      else f.node.Opt? ==> MayConcede(env, Below(psi), i, omega)
  }

  predicate CanConcede(p: Pattern) {
    IsLeaf(p) || p.Opt?
  }

  /** A node that can be resumed, at a child index at which the engine saves it. */
  predicate IsResumable(p: Pattern, c: nat) {
    (p.Pi? && c < |p.children|) || (p.Opt? && c <= 1) || p.Arb? || p.Fence?
  }

  predicate InOrder(env: Env, z: State) {
    Coherent(env.s, z) && !z.fenced && z.scanStart == env.base && z.node.Some? && InFragment(z.node.value)
  }

  /** Every saved choice lies on a path from the root, and may concede onto those below it. */
  ghost predicate SavedOk(env: Env, root: Pattern, omega: seq<Choice>) {
    omega != [] ==>
      var e := Top(omega);
      && InOrder(env, e.z) && IsResumable(e.z.node.value, e.z.ctx)
      && IsPath(root, e.psi, e.z.node.value)
      && (CanConcede(e.z.node.value) ==> MayConcede(env, e.psi, e.z.start, Below(omega)))
      && SavedOk(env, root, Below(omega))
  }

  /** Child indices a node can hold when it is entered. */
  predicate EntryCtx(p: Pattern, c: nat) {
    if p.Sigma? || p.Pi? then c <= |p.children|
    else if p.Opt? then c <= 2
    else p.Arb? || c == 0
  }

  /** The signal is one the node handles, and conceding is harmless where it can happen. */
  ghost predicate SignalOk(env: Env, c: Config)
    requires c.z.node.Some? && c.z.start <= |env.s|
  {
    var p := c.z.node.value;
    match c.a
    case Proceed =>
      && EntryCtx(p, c.z.ctx) && c.z.cur == c.z.start
      && (CanConcede(p) ==> MayConcede(env, c.psi, c.z.start, c.omega))
    case Succeed => IsFrame(Frame(p, c.z.ctx))
    case Concede =>
      && IsFrame(Frame(p, c.z.ctx))
      && MayConcede(env, c.psi + [Frame(p, c.z.ctx)], c.z.start, c.omega)
    case Recede =>
      && IsResumable(p, c.z.ctx)
      && (CanConcede(p) ==> MayConcede(env, c.psi, c.z.start, c.omega))
  }

  /** What holds of a running configuration: pointers in range, Psi the exact path to
      the node, the signal one that the node handles, and concessions harmless. */
  ghost predicate Live(env: Env, root: Pattern, c: Config) {
    && InOrder(env, c.z)
    && IsPath(root, c.psi, c.z.node.value)
    && SavedOk(env, root, c.omega)
    && SignalOk(env, c)
  }

  /** First result the node under way delivers, before Omega is consulted. */
  function CurrentVal(env: Env, c: Config): Outcome
    requires c.z.node.Some? && c.z.start <= |env.s| && c.z.cur <= |env.s|
  {
    var p := c.z.node.value;
    match c.a
    case Proceed => Thread(env, Remaining(env, p, c.z.ctx, c.z.start), c.psi)
    case Succeed => SuccVal(env, c.psi + [Frame(p, c.z.ctx)], c.z.cur)
    case Concede => ConcVal(env, c.psi + [Frame(p, c.z.ctx)], c.z.start)
    case Recede => ResumeVal(env, p, c.z.ctx, c.z.start, c.psi)
  }

  /** The first result still obtainable from a running configuration. */
  function Val(env: Env, c: Config): Outcome
    requires c.z.node.Some? && c.z.start <= |env.s| && c.z.cur <= |env.s|
  {
    OrElse(CurrentVal(env, c), OmegaVal(env, c.omega))
  }

  /** What the engine reports once PI is null. */
  function Reported(c: Config): Option<nat> {
    if c.a.Succeed? then Some(c.z.cur) else None
  }

  /** `c` is running in order with first result `v`, or has stopped and reports `v`. */
  ghost predicate Delivers(env: Env, root: Pattern, c: Config, v: Option<nat>) {
    if c.z.node.Some? then Live(env, root, c) && Verdict(Val(env, c)) == v
    else Reported(c) == v
  }
}
