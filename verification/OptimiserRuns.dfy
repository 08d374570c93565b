/** The optimised program against the original: each of its steps is one or more steps of the
    original, so both end the same way, and go round the same cycles. */
module OptimiserRuns {
  import opened Denotation
  import opened FuncIr
  import opened FuncSpec
  import opened FuncArena
  import opened Optimiser
  import opened OptimiserProof
  import Runs

  /** A program, the program after the pass, and the redirects of each function. */
  datatype Pass = Pass(prog: Program, prog': Program, redirects: map<string, Redirects>, subject: string)

  ghost predicate Valid(o: Pass) {
    && o.prog'.sizes == o.prog.sizes
    && o.prog'.bodies.Keys == o.prog.bodies.Keys && o.redirects.Keys == o.prog.bodies.Keys
    && forall name :: name in o.prog.bodies ==> Optimises(o.prog.bodies[name], o.prog'.bodies[name], o.redirects[name])
  }

  /** Every label the code may jump to is kept by the pass. */
  ghost predicate Sound(o: Pass, name: string, code: seq<Stmt>)
    requires Valid(o) && name in o.prog.bodies
  {
    forall t :: Names(code, t) ==> Kept(o.prog.bodies[name], o.prog'.bodies[name], o.redirects[name], t)
  }

  ghost predicate SimAct(o: Pass, a: Activation, a': Activation)
    requires Valid(o)
  {
    && a.name in o.prog.bodies && Sound(o, a.name, a.code)
    && a' == a.(code := Rewrite(o.redirects[a.name], a.code))
  }

  /** Same cursor, arena and frames; each activation is about to run the rewritten code. */
  ghost predicate Sim(o: Pass, m: Machine, m': Machine)
    requires Valid(o)
  {
    && |m'.stack| == |m.stack| && m' == m.(stack := m'.stack)
    && forall k :: 0 <= k < |m.stack| ==> SimAct(o, m.stack[k], m'.stack[k])
  }

  function Before(o: Pass): Runs.Stepper<Machine> {
    Stepper(o.prog, o.subject)
  }

  function After(o: Pass): Runs.Stepper<Machine> {
    Stepper(o.prog', o.subject)
  }

  // ----- simulation and the stack -----

  lemma {:induction false} SimWithTop(o: Pass, m: Machine, m': Machine, a: Activation, a': Activation)
    requires Valid(o) && Sim(o, m, m') && m.stack != [] && SimAct(o, a, a')
    ensures Sim(o, WithTop(m, a), WithTop(m', a'))
  {
  }

  lemma {:induction false} SimPush(o: Pass, m: Machine, m': Machine, a: Activation, a': Activation)
    requires Valid(o) && Sim(o, m, m') && SimAct(o, a, a')
    ensures Sim(o, m.(stack := m.stack + [a]), m'.(stack := m'.stack + [a']))
  {
  }

  lemma {:induction false} SimPop(o: Pass, m: Machine, m': Machine)
    requires Valid(o) && Sim(o, m, m') && m.stack != []
    ensures Sim(o, m.(stack := m.stack[..|m.stack| - 1]), m'.(stack := m'.stack[..|m'.stack| - 1]))
  {
  }

  lemma {:induction false} SimAnswer(o: Pass, m: Machine, m': Machine, empty: bool)
    requires Valid(o) && Sim(o, m, m')
    ensures Sim(o, Answer(m, empty), Answer(m', empty))
  {
    if m.stack != [] {
      SimWithTop(o, m, m', Top(m).(empty := empty), Top(m').(empty := empty));
    }
  }

  lemma {:induction false} RewriteTail(r: Redirects, code: seq<Stmt>)
    requires code != []
    ensures Rewrite(r, code)[0] == RewriteStmt(r, code[0]) && Rewrite(r, code)[1..] == Rewrite(r, code[1..])
  {
  }

  lemma {:induction false} SoundTail(o: Pass, name: string, code: seq<Stmt>)
    requires Valid(o) && name in o.prog.bodies && code != [] && Sound(o, name, code)
    ensures Sound(o, name, code[1..])
  {
    forall t | Names(code[1..], t) ensures Names(code, t) {
      var i :| 0 <= i < |code[1..]| && Target(code[1..][i]) == Some(t);
      assert Target(code[i + 1]) == Some(t);
    }
  }

  lemma {:induction false} SoundBlock(o: Pass, name: string, l: Label)
    requires Valid(o) && name in o.prog.bodies && l in o.prog.bodies[name]
    ensures Sound(o, name, o.prog.bodies[name][l])
  {
    assert Optimises(o.prog.bodies[name], o.prog'.bodies[name], o.redirects[name]);
  }

  /** The state after the first statement of the top activation, if it does not jump. */
  function Past(m: Machine): Machine
    requires m.stack != [] && Top(m).code != []
  {
    WithTop(m, Top(m).(code := Top(m).code[1..]))
  }

  lemma {:induction false} SimPast(o: Pass, m: Machine, m': Machine)
    requires Valid(o) && Sim(o, m, m') && m.stack != [] && Top(m).code != []
    ensures Top(m').code != [] && Sim(o, Past(m), Past(m'))
    ensures Top(m').code[0] == RewriteStmt(o.redirects[Top(m).name], Top(m).code[0])
  {
    var a := Top(m);
    RewriteTail(o.redirects[a.name], a.code);
    SoundTail(o, a.name, a.code);
    SimWithTop(o, m, m', a.(code := a.code[1..]), Top(m').(code := Top(m').code[1..]));
  }

  // ----- calls and returns -----

  /** Both steps are possible and lead to related states, or neither is possible. */
  ghost predicate SimBoth(o: Pass, x: Option<Machine>, x': Option<Machine>)
    requires Valid(o)
  {
    x.Some? == x'.Some? && (x.Some? ==> Sim(o, x.value, x'.value))
  }

  lemma {:induction false} SimInvoke(o: Pass, m: Machine, m': Machine, name: string, zz: Slot, entry: nat)
    requires Valid(o) && Sim(o, m, m')
    ensures SimBoth(o, Invoke(o.prog, m, name, zz, entry), Invoke(o.prog', m', name, zz, entry))
  {
    if name in o.prog.sizes {
      if entry == 0 {
        SimOpen(o, m, m', name, zz);
      } else if ReadSlot(m, zz).None? {
        SimAnswer(o, m, m', true);
      } else {
        SimPushCall(o, m, m', name, zz, ReadSlot(m, zz).value, Beta);
      }
    }
  }

  /** Pushes the callee once its frame is there. */
  function PushOn(prog: Program, entered: Option<Machine>, name: string, zz: Slot, z: nat): Option<Machine> {
    if entered.None? then None else Push(prog, entered.value, name, zz, z, Alpha)
  }

  lemma {:induction false} InvokeOpens(prog: Program, m: Machine, name: string, zz: Slot)
    requires name in prog.sizes
    ensures Invoke(prog, m, name, zz, 0) == PushOn(prog, FuncIr.Enter(m, zz, prog.sizes[name]), name, zz,
        m.pos + HEADER_SIZE)
  {
  }

  lemma {:induction false} SimPushOn(o: Pass, e: Option<Machine>, e': Option<Machine>, name: string, zz: Slot, z: nat)
    requires Valid(o) && SimBoth(o, e, e')
    ensures SimBoth(o, PushOn(o.prog, e, name, zz, z), PushOn(o.prog', e', name, zz, z))
  {
    if e.Some? {
      SimPushCall(o, e.value, e'.value, name, zz, z, Alpha);
    }
  }

  lemma {:induction false} SimOpen(o: Pass, m: Machine, m': Machine, name: string, zz: Slot)
    requires Valid(o) && Sim(o, m, m') && name in o.prog.sizes
    ensures SimBoth(o, Invoke(o.prog, m, name, zz, 0), Invoke(o.prog', m', name, zz, 0))
  {
    SimEnter(o, m, m', zz, o.prog.sizes[name]);
    InvokeOpens(o.prog, m, name, zz);
    InvokeOpens(o.prog', m', name, zz);
    SimOpened(o, FuncIr.Enter(m, zz, o.prog.sizes[name]), FuncIr.Enter(m', zz, o.prog.sizes[name]), name, zz,
              m.pos + HEADER_SIZE, Invoke(o.prog, m, name, zz, 0), Invoke(o.prog', m', name, zz, 0));
  }

  lemma {:induction false} SimOpened(o: Pass, e: Option<Machine>, e': Option<Machine>, name: string, zz: Slot, z: nat,
      x: Option<Machine>, x': Option<Machine>)
    requires Valid(o) && SimBoth(o, e, e')
    requires x == PushOn(o.prog, e, name, zz, z) && x' == PushOn(o.prog', e', name, zz, z)
    ensures SimBoth(o, x, x')
  {
    SimPushOn(o, e, e', name, zz, z);
  }

  lemma {:induction false} SimEnter(o: Pass, m: Machine, m': Machine, zz: Slot, size: Size)
    requires Valid(o) && Sim(o, m, m')
    ensures SimBoth(o, FuncIr.Enter(m, zz, size), FuncIr.Enter(m', zz, size))
  {
  }

  lemma {:induction false} SimPushCall(o: Pass, m: Machine, m': Machine, name: string, zz: Slot, z: nat, port: Port)
    requires Valid(o) && Sim(o, m, m') && port in {Alpha, Beta}
    ensures SimBoth(o, Push(o.prog, m, name, zz, z, port), Push(o.prog', m', name, zz, z, port))
  {
    if name in o.prog.bodies {
      var body, body' := o.prog.bodies[name], o.prog'.bodies[name];
      assert Optimises(body, body', o.redirects[name]);
      assert KeptPort(body, body', o.redirects[name], port);
      SoundBlock(o, name, Label(Root, port));
      SimPush(o, m, m', Activation(name, z, zz, body[Label(Root, port)], false),
          Activation(name, z, zz, body'[Label(Root, port)], false));
    }
  }

  lemma {:induction false} SimExit(o: Pass, m: Machine, m': Machine, zz: Slot)
    requires Valid(o) && Sim(o, m, m')
    ensures Sim(o, Exit(m, zz), Exit(m', zz))
  {
  }

  // ----- jumps -----

  /** A block of one bare goto: one step, touching nothing but the code. */
  lemma {:induction false} FollowOne(o: Pass, m: Machine, l: Label, next: Label)
    requires Valid(o) && m.stack != [] && Top(m).z in m.heap && Top(m).name in o.prog.bodies
    requires var body := o.prog.bodies[Top(m).name]; l in body && body[l] == [Goto(next)] && next in body
    ensures Jump(o.prog, m, l).Some? && Jump(o.prog, m, next).Some?
    ensures Step(o.prog, o.subject, Jump(o.prog, m, l).value) == Jump(o.prog, m, next)
    ensures |Jump(o.prog, m, l).value.stack| == |m.stack|
  {
    var w := Jump(o.prog, m, l).value;
    assert WithTop(w, Top(m)) == WithTop(m, Top(m));
  }

  /** From the first block of a chain the original glides to the last. */
  lemma {:induction false} Follow(o: Pass, m: Machine, l: Label, n: nat, e: Label)
    requires Valid(o) && m.stack != [] && Top(m).z in m.heap && Top(m).name in o.prog.bodies
    requires var body := o.prog.bodies[Top(m).name]; l in body && e in body && Forwards(body, l, n, e)
    ensures Jump(o.prog, m, l).Some? && Runs.Run(Before(o), Jump(o.prog, m, l).value, n) == Jump(o.prog, m, e)
    ensures forall j :: 0 <= j <= n ==>
      var w := Runs.Run(Before(o), Jump(o.prog, m, l).value, j); w.Some? && |w.value.stack| == |m.stack|
    decreases n
  {
    if n > 0 {
      var next := o.prog.bodies[Top(m).name][l][0].target;
      assert n > 1 ==> next in o.prog.bodies[Top(m).name];
      FollowOne(o, m, l, next);
      Follow(o, m, next, n - 1, e);
      GlideFrom(o, Jump(o.prog, m, l).value, Jump(o.prog, m, next).value, n - 1, |m.stack|);
    }
  }

  lemma {:induction false} GlideFrom(o: Pass, w: Machine, next: Machine, n: nat, depth: nat)
    requires Step(o.prog, o.subject, w) == Some(next) && |w.stack| == depth
    requires forall j :: 0 <= j <= n ==> var x := Runs.Run(Before(o), next, j); x.Some? && |x.value.stack| == depth
    ensures forall j :: 0 <= j <= n + 1 ==> var x := Runs.Run(Before(o), w, j); x.Some? && |x.value.stack| == depth
    ensures Runs.Run(Before(o), w, n + 1) == Runs.Run(Before(o), next, n)
  {
    forall j | 0 <= j <= n + 1 ensures var x := Runs.Run(Before(o), w, j); x.Some? && |x.value.stack| == depth {
      if j > 0 {
        assert Runs.Run(Before(o), w, j) == Runs.Run(Before(o), next, j - 1);
      }
    }
  }

  /** The original is `n` steps on, at `w`; the call depth is that of `w` all along. */
  ghost predicate Glides(o: Pass, m: Machine, n: nat, w: Machine) {
    && Runs.Run(Before(o), m, n) == Some(w)
    && forall j :: 1 <= j <= n ==> var x := Runs.Run(Before(o), m, j); x.Some? && |x.value.stack| == |w.stack|
  }

  /** One step of the optimised program and the steps of the original that it stands for. */
  ghost predicate Matches(o: Pass, m: Machine, m': Machine, n: nat, w: Machine)
    requires Valid(o)
  {
    && Step(o.prog', o.subject, m').Some? && Glides(o, m, n + 1, w)
    && Sim(o, w, Step(o.prog', o.subject, m').value)
  }

  lemma {:induction false} GlideOne(o: Pass, m: Machine, w: Machine)
    requires Step(o.prog, o.subject, m) == Some(w)
    ensures Glides(o, m, 1, w)
  {
    assert Runs.Run(Before(o), w, 0) == Some(w);
    assert Runs.Run(Before(o), m, 1) == Some(w);
  }

  lemma {:induction false} GlideOn(o: Pass, m: Machine, next: Machine, n: nat, w: Machine)
    requires Step(o.prog, o.subject, m) == Some(next) && Runs.Run(Before(o), next, n) == Some(w)
    requires forall j :: 0 <= j <= n ==> var x := Runs.Run(Before(o), next, j); x.Some? && |x.value.stack| == |w.stack|
    ensures Glides(o, m, n + 1, w)
  {
    forall j | 1 <= j <= n + 1 ensures var x := Runs.Run(Before(o), m, j); x.Some? && |x.value.stack| == |w.stack| {
      assert Runs.Run(Before(o), m, j) == Runs.Run(Before(o), next, j - 1);
    }
  }

  lemma {:induction false} SimJump(o: Pass, m: Machine, m': Machine, e: Label)
    requires Valid(o) && Sim(o, m, m') && m.stack != []
    requires var body, body' := o.prog.bodies[Top(m).name], o.prog'.bodies[Top(m).name];
             e in body && e in body' && body'[e] == Rewrite(o.redirects[Top(m).name], body[e])
    ensures Jump(o.prog, m, e).Some? && Jump(o.prog', m', e).Some?
    ensures Sim(o, Jump(o.prog, m, e).value, Jump(o.prog', m', e).value)
  {
    var a := Top(m);
    SoundBlock(o, a.name, e);
    SimWithTop(o, m, m', a.(code := o.prog.bodies[a.name][e]), Top(m').(code := o.prog'.bodies[a.name][e]));
  }

  /** Both jump: `m0` is where the original's step to `t` starts from, `m` what it makes of the frame. */
  lemma {:induction false} JumpMatches(o: Pass, m0: Machine, m0': Machine, m: Machine, m': Machine, t: Label)
      returns (n: nat, w: Machine)
    requires Valid(o) && Sim(o, m, m') && m.stack != [] && Top(m).z in m.heap
    requires var name := Top(m).name; Kept(o.prog.bodies[name], o.prog'.bodies[name], o.redirects[name], t)
    requires Step(o.prog, o.subject, m0) == Jump(o.prog, m, t)
    requires Step(o.prog', o.subject, m0') == Jump(o.prog', m', Redirected(o.redirects[Top(m).name], t))
    ensures Matches(o, m0, m0', n, w)
  {
    var name := Top(m).name;
    var e := Redirected(o.redirects[name], t);
    n :| Forwards(o.prog.bodies[name], t, n, e);
    Follow(o, m, t, n, e);
    SimJump(o, m, m', e);
    w := Jump(o.prog, m, e).value;
    GlideOn(o, m0, Jump(o.prog, m, t).value, n, w);
  }

  lemma {:induction false} KeptTarget(o: Pass, a: Activation)
    requires Valid(o) && a.name in o.prog.bodies && Sound(o, a.name, a.code) && a.code != [] && Target(a.code[0]).Some?
    ensures Kept(o.prog.bodies[a.name], o.prog'.bodies[a.name], o.redirects[a.name], Target(a.code[0]).value)
  {
    assert Names(a.code, Target(a.code[0]).value);
  }

  /** The state after an operation of the top activation. */
  function Done(m: Machine, op: Op, subject: string): Machine
    requires m.stack != [] && Top(m).code != [] && Top(m).z in m.heap
  {
    var e := Apply(op, subject, m.heap[Top(m).z], m.delta, Top(m).empty);
    Past(m).(heap := m.heap[Top(m).z := e.fr], delta := e.delta)
  }

  predicate Runnable(m: Machine) {
    m.stack != [] && Top(m).code != [] && Top(m).z in m.heap
  }

  lemma {:induction false} DoMatches(o: Pass, m: Machine, m': Machine) returns (n: nat, w: Machine)
    requires Valid(o) && Sim(o, m, m') && Runnable(m) && Top(m).code[0].Do?
    ensures Matches(o, m, m', n, w)
  {
    SimPast(o, m, m');
    var op := Top(m).code[0].op;
    n, w := 0, Done(m, op, o.subject);
    assert Sim(o, w, Done(m', op, o.subject));
    GlideOne(o, m, w);
  }

  lemma {:induction false} IfMatches(o: Pass, m: Machine, m': Machine) returns (n: nat, w: Machine)
    requires Valid(o) && Sim(o, m, m') && Runnable(m) && Top(m).code[0].IfGoto?
    ensures Matches(o, m, m', n, w)
  {
    SimPast(o, m, m');
    var op, t := Top(m).code[0].op, Top(m).code[0].target;
    var d, d' := Done(m, op, o.subject), Done(m', op, o.subject);
    assert Sim(o, d, d');
    if Apply(op, o.subject, m.heap[Top(m).z], m.delta, Top(m).empty).jump {
      KeptTarget(o, Top(m));
      n, w := JumpMatches(o, m, m', d, d', t);
    } else {
      n, w := 0, d;
      GlideOne(o, m, d);
    }
  }

  lemma {:induction false} GotoMatches(o: Pass, m: Machine, m': Machine) returns (n: nat, w: Machine)
    requires Valid(o) && Sim(o, m, m') && Runnable(m) && Top(m).code[0].Goto?
    ensures Matches(o, m, m', n, w)
  {
    SimPast(o, m, m');
    KeptTarget(o, Top(m));
    n, w := JumpMatches(o, m, m', m, m', Top(m).code[0].target);
  }

  lemma {:induction false} CallMatches(o: Pass, m: Machine, m': Machine) returns (n: nat, w: Machine)
    requires Valid(o) && Sim(o, m, m') && Runnable(m) && Top(m).code[0].Call?
    requires Step(o.prog, o.subject, m).Some? || Step(o.prog', o.subject, m').Some?
    ensures Matches(o, m, m', n, w)
  {
    SimPast(o, m, m');
    var s := Top(m).code[0];
    SimInvoke(o, Past(m), Past(m'), s.callee, ChildSlot(Top(m).z, s.f), s.entry);
    n, w := 0, Step(o.prog, o.subject, m).value;
    GlideOne(o, m, w);
  }

  lemma {:induction false} EndMatches(o: Pass, m: Machine, m': Machine) returns (n: nat, w: Machine)
    requires Valid(o) && Sim(o, m, m') && Runnable(m) && Top(m).code[0].ReturnOk?
    ensures Matches(o, m, m', n, w)
  {
    SimPast(o, m, m');
    n, w := 0, Step(o.prog, o.subject, m).value;
    GlideOne(o, m, w);
    SimPop(o, m, m');
    SimAnswer(o, m.(stack := m.stack[..|m.stack| - 1]), m'.(stack := m'.stack[..|m'.stack| - 1]), false);
  }

  lemma {:induction false} FailMatches(o: Pass, m: Machine, m': Machine) returns (n: nat, w: Machine)
    requires Valid(o) && Sim(o, m, m') && Runnable(m) && Top(m).code[0].ReturnFail?
    ensures Matches(o, m, m', n, w)
  {
    SimPast(o, m, m');
    n, w := 0, Failed(m, Top(m).zz);
    GlideOne(o, m, w);
    SimFailed(o, m, m', Top(m).zz);
  }

  /** The state after a callee has failed and left. */
  function Failed(m: Machine, zz: Slot): Machine
    requires m.stack != []
  {
    Answer(Exit(m, zz).(stack := m.stack[..|m.stack| - 1]), true)
  }

  lemma {:induction false} SimFailed(o: Pass, m: Machine, m': Machine, zz: Slot)
    requires Valid(o) && Sim(o, m, m') && m.stack != []
    ensures Sim(o, Failed(m, zz), Failed(m', zz))
  {
    SimExit(o, m, m', zz);
    SimPop(o, Exit(m, zz), Exit(m', zz));
    SimAnswer(o, Exit(m, zz).(stack := m.stack[..|m.stack| - 1]), Exit(m', zz).(stack := m'.stack[..|m'.stack| - 1]),
        true);
  }

  lemma {:induction false} AnyMatches(o: Pass, m: Machine, m': Machine) returns (n: nat, w: Machine)
    requires Valid(o) && Sim(o, m, m') && Runnable(m)
    requires Step(o.prog, o.subject, m).Some? || Step(o.prog', o.subject, m').Some?
    ensures Matches(o, m, m', n, w)
  {
    var s := Top(m).code[0];
    if s.Do? { n, w := DoMatches(o, m, m'); }
    else if s.IfGoto? { n, w := IfMatches(o, m, m'); }
    else if s.Goto? { n, w := GotoMatches(o, m, m'); }
    else if s.Call? { n, w := CallMatches(o, m, m'); }
    else if s.ReturnOk? { n, w := EndMatches(o, m, m'); }
    else { n, w := FailMatches(o, m, m'); }
  }

  // ----- the simulation -----

  ghost function Related(o: Pass): (Machine, Machine) -> bool {
    (m: Machine, m': Machine) => Valid(o) && Sim(o, m, m')
  }

  function Depth(): Machine -> nat {
    (m: Machine) => |m.stack|
  }

  /** The optimised program moves exactly when the original does, and then to a state the original reaches. */
  lemma {:induction false} StepMatches(o: Pass, m: Machine, m': Machine)
    requires Valid(o) && Sim(o, m, m')
    ensures Step(o.prog', o.subject, m').Some? == Step(o.prog, o.subject, m).Some?
    ensures Step(o.prog', o.subject, m').Some? ==> exists n: nat, w :: Matches(o, m, m', n, w)
  {
    if m.stack != [] && Top(m).code != [] {
      SimPast(o, m, m');
    }
    if Runnable(m) && (Step(o.prog, o.subject, m).Some? || Step(o.prog', o.subject, m').Some?) {
      var n, w := AnyMatches(o, m, m');
      MatchMoves(o, m, m', n, w);
    }
  }

  lemma {:induction false} MatchMoves(o: Pass, m: Machine, m': Machine, n: nat, w: Machine)
    requires Valid(o) && Matches(o, m, m', n, w)
    ensures Step(o.prog, o.subject, m).Some?
  {
    assert Runs.Run(Before(o), m, 1).Some?;
  }

  lemma {:induction false} MatchesRun(o: Pass, m: Machine, m': Machine, n: nat, w: Machine)
    requires Valid(o) && Matches(o, m, m', n, w)
    ensures Runs.Matches(Before(o), After(o), Related(o), Depth(), m, m', n, w)
  {
  }

  lemma {:induction false} PassSimulates(o: Pass)
    requires Valid(o)
    ensures Runs.Simulates(Before(o), After(o), Related(o), Depth())
  {
    forall m, m' | Related(o)(m, m')
      ensures Depth()(m) == Depth()(m') && After(o)(m').Some? == Before(o)(m).Some?
      ensures After(o)(m').Some? ==> exists n: nat, w :: Runs.Matches(Before(o), After(o), Related(o), Depth(), m, m',
          n, w)
    {
      StepMatches(o, m, m');
      if After(o)(m').Some? {
        var n: nat, w :| Matches(o, m, m', n, w);
        MatchesRun(o, m, m', n, w);
      }
    }
  }

  /** Two machines that have left every function are related exactly when they are the same. */
  lemma {:induction false} LeftAlike(o: Pass, m: Machine, m': Machine)
    requires Valid(o) && (m.stack == [] || m'.stack == [])
    ensures Sim(o, m, m') <==> m' == m
  {
  }

  /** From related states, the original returns in a state exactly when the optimised program returns in it. */
  lemma {:induction false} ReturnsAlike(o: Pass, m: Machine, m': Machine, end: Machine)
    requires Valid(o) && Sim(o, m, m') && end.stack == []
    ensures Runs.Reaches(Before(o), m, end) <==> Runs.Reaches(After(o), m', end)
  {
    PassSimulates(o);
    if Runs.Reaches(Before(o), m, end) {
      var k: nat :| Runs.Run(Before(o), m, k) == Some(end);
      var end' := Runs.StopsAlike(Before(o), After(o), Related(o), Depth(), m, m', k, end);
      LeftAlike(o, end, end');
    }
    if Runs.Reaches(After(o), m', end) {
      var k: nat :| Runs.Run(After(o), m', k) == Some(end);
      var end0 := Runs.ReachesAlike(Before(o), After(o), Related(o), Depth(), m, m', k, end);
      LeftAlike(o, end0, end);
    }
  }

  /** The optimised program reaches every call depth the original reaches. */
  lemma {:induction false} DeepAlike(o: Pass, m: Machine, m': Machine, deep: Machine) returns (deep': Machine)
    requires Valid(o) && Sim(o, m, m') && Runs.Reaches(Before(o), m, deep)
    ensures Runs.Reaches(After(o), m', deep') && |deep'.stack| == |deep.stack|
  {
    PassSimulates(o);
    var k: nat :| Runs.Run(Before(o), m, k) == Some(deep);
    deep' := Runs.LevelsAlike(Before(o), After(o), Related(o), Depth(), m, m', k, deep);
  }

  /** Related states come to the same frame. */
  lemma {:induction false} WantedAlike(o: Pass, m: Machine, m': Machine)
    requires Valid(o) && Sim(o, m, m')
    ensures Wanted(o.prog', m') == Wanted(o.prog, m)
  {
    if m.stack != [] {
      var k := |m.stack| - 1;
      assert SimAct(o, m.stack[k], m'.stack[k]);
      RewriteOpens(o.redirects[Top(m).name], Top(m).code);
    }
  }

  lemma {:induction false} RewriteOpens(r: Redirects, code: seq<Stmt>)
    ensures OpensFrame(Rewrite(r, code)) == OpensFrame(code)
    ensures OpensFrame(code) ==> Rewrite(r, code)[0] == code[0]
  {
    if code != [] {
      RewriteTail(r, code);
    }
  }

  /** Where the original overflows the arena, the optimised program does, at the same frame. */
  lemma {:induction false} FullAlike(o: Pass, m: Machine, m': Machine, full: Machine) returns (full': Machine)
    requires Valid(o) && Sim(o, m, m') && Runs.Reaches(Before(o), m, full) && Full(o.prog, full)
    ensures Runs.Reaches(After(o), m', full') && Wanted(o.prog', full') == Wanted(o.prog, full)
  {
    PassSimulates(o);
    FullStops(o.prog, o.subject, full);
    var k: nat :| Runs.Run(Before(o), m, k) == Some(full);
    full' := Runs.StopsAlike(Before(o), After(o), Related(o), Depth(), m, m', k, full);
    WantedAlike(o, full, full');
  }
}
