/** One turn of the dispatch loop of archive/backend/engine.c, on values.

    The C names map to these fields: SIGMA startPtr, DELTA start, OMEGA limit,
    sigma curPtr, delta cur, PI node. A pointer into the subject is its offset,
    a null PI is None. */
module EngineStep {
  import opened Denotation

  datatype Signal = Proceed | Succeed | Concede | Recede

  datatype State = State(
    startPtr: nat,
    start: nat,
    limit: nat,
    curPtr: nat,
    cur: nat,
    node: Option<Pattern>,
    fenced: bool,
    yielded: bool,
    ctx: nat,
    scanStart: nat)

  /** An entry of Psi: a node to return to and the child it was running. */
  datatype Frame = Frame(node: Pattern, ctx: nat)

  /** An entry of Omega: a saved state and its own copy of Psi. */
  datatype Choice = Choice(z: State, psi: seq<Frame>)

  /** Everything the loop keeps. The last element is the top of each stack. */
  datatype Config = Config(a: Signal, z: State, psi: seq<Frame>, omega: seq<Choice>)

  datatype MatchResult = MatchResult(matched: bool, start: nat, end: nat)

  const NullState := State(0, 0, 0, 0, 0, None, false, false, 0, 0)

  /** Pointers and offsets agree and stay inside the subject. */
  predicate Coherent(s: string, z: State) {
    && z.start <= z.cur <= z.limit == |s|
    && z.startPtr == z.start
    && z.curPtr == z.cur
  }

  // ----- stacks and navigation -----

  function OmegaPush(c: Config): Config {
    c.(omega := c.omega + [Choice(c.z, c.psi)])
  }

  /** Restores the newest choice with its own Psi; with no choice left the state is cleared. */
  function OmegaPop(c: Config): Config {
    if c.omega == [] then c.(z := NullState, psi := [])
    else
      var top := c.omega[|c.omega| - 1];
      c.(z := top.z, psi := top.psi, omega := c.omega[..|c.omega| - 1])
  }

  function Down(c: Config, child: Pattern): Config
    requires c.z.node.Some?
  {
    c.(psi := c.psi + [Frame(c.z.node.value, c.z.ctx)],
       z := c.z.(curPtr := c.z.startPtr, cur := c.z.start, node := Some(child), ctx := 0))
  }

  function Up(c: Config): Config {
    if c.psi == [] then c.(z := c.z.(node := None))
    else
      var top := c.psi[|c.psi| - 1];
      c.(psi := c.psi[..|c.psi| - 1], z := c.z.(node := Some(top.node), ctx := top.ctx))
  }

  function StayNext(z: State): State {
    z.(curPtr := z.startPtr, cur := z.start, yielded := false, ctx := z.ctx + 1)
  }

  function MoveNext(z: State): State {
    z.(startPtr := z.curPtr, start := z.cur, yielded := false, ctx := z.ctx + 1)
  }

  // ----- leaf scanners -----

  datatype Scan = Scan(ok: bool, cur: nat)

  function ScanMove(z: State, delta: int): Scan {
    if delta >= 0 && z.start + delta <= z.limit then Scan(true, z.cur + delta) else Scan(false, z.cur)
  }

  /** Outcome of a leaf scanner and where it leaves the cursor, also when it fails. */
  function ScanLeaf(s: string, p: Pattern, z: State): (r: Scan)
    requires Coherent(s, z) && IsLeaf(p)
    ensures z.cur <= r.cur
  {
    match p
    case Literal(w) => if HasAt(s, z.cur, w) then Scan(true, z.cur + |w|) else Scan(false, z.cur)
    case Any(cs) => var ok := z.cur < z.limit && s[z.curPtr] in cs; Scan(ok, if ok then z.cur + 1 else z.cur)
    case NotAny(cs) => var ok := z.cur < z.limit && s[z.curPtr] !in cs; Scan(ok, if ok then z.cur + 1 else z.cur)
    case Span(cs) => var e := RunEnd(s, cs, z.cur); Scan(e > z.cur, e)
    case Break(cs) => var e := BreakEnd(s, cs, z.cur); Scan(e < z.limit, e)
    case Len(n) => ScanMove(z, n)
    case Pos(n) => Scan(n == z.start + z.scanStart, z.cur)
    case RPos(n) => Scan(n == z.limit - z.start, z.cur)
    case Tab(n) => ScanMove(z, n - z.start - z.scanStart)
    case RTab(n) => ScanMove(z, z.limit - z.start - n)
    case Rem => ScanMove(z, z.limit - z.start)
    case Epsilon => Scan(true, z.cur)
    case Fail => Scan(false, z.cur)
  }

  /** Pointer and offset advance together. */
  function MovedTo(z: State, cur: nat): State
    requires z.cur <= cur
  {
    z.(curPtr := z.curPtr + (cur - z.cur), cur := cur)
  }

  // ----- the dispatch -----

  /** The `default` arm: give up. */
  function Unhandled(c: Config): Config {
    c.(a := Concede, z := c.z.(node := None))
  }

  function StepPi(c: Config, cs: seq<Pattern>): Config
    requires c.z.node.Some?
  {
    match c.a
    case Proceed =>
      if c.z.ctx < |cs| then Down(OmegaPush(c), cs[c.z.ctx]).(a := Proceed) else OmegaPop(c).(a := Recede)
    case Succeed => Up(c).(a := Succeed)
    case Concede => c.(a := Proceed, z := StayNext(c.z))
    case Recede =>
      if c.z.ctx < |cs| then c.(a := Proceed, z := StayNext(c.z)) else Up(c).(a := Concede)
  }

  function StepSigma(c: Config, cs: seq<Pattern>): Config
    requires c.z.node.Some?
  {
    match c.a
    case Proceed =>
      if c.z.ctx < |cs| then Down(c, cs[c.z.ctx]).(a := Proceed) else Up(c).(a := Succeed)
    case Succeed => c.(a := Proceed, z := MoveNext(c.z))
    case Concede => OmegaPop(c).(a := Recede)
    case Recede => Unhandled(c)
  }

  function StepOpt(c: Config, child: Pattern): Config
    requires c.z.node.Some?
  {
    match c.a
    case Proceed =>
      if c.z.ctx == 0 then Up(OmegaPush(c)).(a := Succeed)
      else if c.z.ctx == 1 then Down(OmegaPush(c), child).(a := Proceed)
      else OmegaPop(c).(a := Recede)
    case Succeed => Up(c).(a := Succeed)
    case Concede => Up(c).(a := Concede)
    case Recede =>
      if !c.z.fenced then c.(a := Proceed, z := StayNext(c.z)) else Up(c).(a := Concede)
  }

  function StepArb(c: Config): Config {
    match c.a
    case Proceed =>
      if c.z.start + c.z.ctx <= c.z.limit then
        var moved := c.(z := MovedTo(c.z, c.z.cur + c.z.ctx));
        Up(OmegaPush(moved)).(a := Succeed)
      else OmegaPop(c).(a := Recede)
    case Recede =>
      if !c.z.fenced then c.(a := Proceed, z := StayNext(c.z)) else Up(c).(a := Concede)
    case _ => Unhandled(c)
  }

  /** FENCE without a sub-pattern: succeeds once, and ends the match when backed into. */
  function StepFence(c: Config): Config {
    match c.a
    case Proceed => Up(OmegaPush(c)).(a := Succeed)
    case Recede => c.(z := c.z.(node := None))
    case _ => Unhandled(c)
  }

  function StepLeaf(s: string, c: Config, p: Pattern): Config
    requires Coherent(s, c.z) && IsLeaf(p)
  {
    if c.a.Proceed? then
      var r := ScanLeaf(s, p, c.z);
      var moved := c.(z := MovedTo(c.z, r.cur));
      Up(moved).(a := if r.ok then Succeed else Concede)
    else Unhandled(c)
  }

  /** A node of the modelled fragment; the rest of the node types are not part of this model. */
  predicate IsEngineNode(p: Pattern) {
    !p.SpanRetreat? && !p.Ref?
  }

  function Step(s: string, c: Config): Config
    requires c.z.node.Some? && Coherent(s, c.z) && IsEngineNode(c.z.node.value)
  {
    var p := c.z.node.value;
    if IsLeaf(p) then StepLeaf(s, c, p)
    else if p.Pi? then StepPi(c, p.children)
    else if p.Sigma? then StepSigma(c, p.children)
    else if p.Opt? then StepOpt(c, p.child)
    else if p.Arb? then StepArb(c)
    else if p.Fence? then StepFence(c)
    else Unhandled(c)  // ABORT ends the match the same way
  }

  function Init(root: Pattern, s: string, scanStart: nat): Config {
    Config(Proceed, NullState.(limit := |s|, node := Some(root), scanStart := scanStart), [], [])
  }
}
