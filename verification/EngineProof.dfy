/** Every step of the engine keeps the first result still obtainable. */
module EngineProof {
  import opened Denotation
  import opened EngineStep
  import opened EngineValue

  // ----- streams through frames -----

  lemma {:induction false} ThreadAppend(env: Env, a: Stream, b: Stream, psi: seq<Frame>)
    requires Within(a, |env.s|) && Within(b, |env.s|)
    ensures Within(Append(a, b), |env.s|)
    ensures Thread(env, Append(a, b), psi) == OrElse(Thread(env, a, psi), Thread(env, b, psi))
    decreases |a.ends|
  {
    if a.ends == [] {
      assert a.cut || Append(a, b) == b;
    } else {
      ThreadAppend(env, Stream(a.ends[1..], a.cut), b, psi);
      if !a.cut {
        assert (a.ends + b.ends)[1..] == a.ends[1..] + b.ends;
      } else {
        ThreadCut(env, a, psi);
      }
    }
  }

  lemma {:induction false} ThreadCut(env: Env, a: Stream, psi: seq<Frame>)
    requires Within(a, |env.s|) && a.cut
    ensures !Thread(env, a, psi).Miss?
    decreases |a.ends|
  {
    if a.ends != [] {
      ThreadCut(env, Stream(a.ends[1..], a.cut), psi);
    }
  }

  /** A stream delivered to a sequence is continued by the rest of the sequence. */
  lemma {:induction false} ThreadSigma(env: Env, a: Stream, psi: seq<Frame>, f: Frame)
    requires Within(a, |env.s|) && IsFrame(f) && f.node.Sigma?
    ensures Thread(env, a, psi + [f]) == Thread(env, Extend(env, 0, a, f.node.children[f.ctx + 1..]), psi)
    decreases |a.ends|
  {
    assert Below(psi + [f]) == psi;
    if a.ends != [] {
      var tail := Stream(a.ends[1..], a.cut);
      ThreadSigma(env, tail, psi, f);
      ThreadAppend(env, Remaining(env, f.node, f.ctx + 1, a.ends[0]),
                   Extend(env, 0, tail, f.node.children[f.ctx + 1..]), psi);
    }
  }

  /** Alternation and optional pass successes on unchanged. */
  lemma {:induction false} ThreadThrough(env: Env, a: Stream, psi: seq<Frame>, f: Frame)
    requires Within(a, |env.s|) && !f.node.Sigma?
    ensures Thread(env, a, psi + [f]) == Thread(env, a, psi)
    decreases |a.ends|
  {
    assert Below(psi + [f]) == psi;
    if a.ends != [] {
      ThreadThrough(env, Stream(a.ends[1..], a.cut), psi, f);
    }
  }

  lemma {:induction false} ConcedeAddsNothing(env: Env, psi: seq<Frame>, i: nat, omega: seq<Choice>)
    requires i <= |env.s|
    requires MayConcede(env, psi, i, omega)
    ensures OrElse(ConcVal(env, psi, i), OmegaVal(env, omega)) == OmegaVal(env, omega)
    decreases |psi|
  {
    if psi != [] && Top(psi).node.Opt? {
      ConcedeAddsNothing(env, Below(psi), i, omega);
    }
  }

  // ----- moves between nodes -----

  /** Everything in `Live` that does not depend on the signal. */
  ghost predicate Here(env: Env, root: Pattern, c: Config) {
    InOrder(env, c.z) && IsPath(root, c.psi, c.z.node.value) && SavedOk(env, root, c.omega)
  }

  lemma UpSucceed(env: Env, root: Pattern, c: Config)
    requires Here(env, root, c)
    ensures Delivers(env, root, Up(c).(a := Succeed),
        Verdict(OrElse(SuccVal(env, c.psi, c.z.cur), OmegaVal(env, c.omega))))
  {
    if c.psi != [] {
      assert Below(c.psi) + [Top(c.psi)] == c.psi;
    }
  }

  lemma UpConcede(env: Env, root: Pattern, c: Config)
    requires Here(env, root, c) && MayConcede(env, c.psi, c.z.start, c.omega)
    ensures Delivers(env, root, Up(c).(a := Concede), Verdict(OmegaVal(env, c.omega)))
  {
    ConcedeAddsNothing(env, c.psi, c.z.start, c.omega);
    if c.psi != [] {
      assert Below(c.psi) + [Top(c.psi)] == c.psi;
    }
  }

  lemma PopRecede(env: Env, root: Pattern, c: Config)
    requires SavedOk(env, root, c.omega)
    ensures Delivers(env, root, OmegaPop(c).(a := Recede), Verdict(OmegaVal(env, c.omega)))
  {
  }

  lemma PushKeepsSaved(env: Env, root: Pattern, c: Config)
    requires Here(env, root, c) && IsResumable(c.z.node.value, c.z.ctx)
    requires CanConcede(c.z.node.value) ==> MayConcede(env, c.psi, c.z.start, c.omega)
    ensures SavedOk(env, root, OmegaPush(c).omega)
    ensures OmegaVal(env, OmegaPush(c).omega)
         == OrElse(ResumeVal(env, c.z.node.value, c.z.ctx, c.z.start, c.psi), OmegaVal(env, c.omega))
  {
    var omega := OmegaPush(c).omega;
    assert Below(omega) == c.omega && Top(omega) == Choice(c.z, c.psi);
  }

  // ----- one step -----

  lemma RemainingAtEntry(env: Env, p: Pattern, i: nat)
    requires i <= |env.s|
    ensures Remaining(env, p, 0, i) == Ends(env, 0, p, i)
  {
    if p.Sigma? || p.Pi? {
      assert p.children[0..] == p.children;
    }
  }

  lemma ThreadUnit(env: Env, e: nat, psi: seq<Frame>)
    requires e <= |env.s|
    ensures Thread(env, Unit(e), psi) == SuccVal(env, psi, e)
  {
    assert Thread(env, Stream(Unit(e).ends[1..], false), psi) == Miss;
  }

  /** Descending into a child of a sequence or alternation, or of an optional's second arm. */
  lemma EnterChild(env: Env, root: Pattern, c: Config, child: Pattern)
    requires Here(env, root, c) && IsFrame(Frame(c.z.node.value, c.z.ctx))
    requires var p := c.z.node.value; child == if p.Opt? then p.child else p.children[c.z.ctx]
    requires CanConcede(child) ==> MayConcede(env, c.psi + [Frame(c.z.node.value, c.z.ctx)], c.z.start, c.omega)
    ensures Delivers(env, root, Down(c, child).(a := Proceed),
        Verdict(OrElse(Thread(env, Ends(env, 0, child, c.z.start), c.psi + [Frame(c.z.node.value, c.z.ctx)]),
        OmegaVal(env, c.omega))))
  {
    var d := Down(c, child).(a := Proceed);
    var f := Frame(c.z.node.value, c.z.ctx);
    assert d.psi == c.psi + [f] && d.omega == c.omega;
    assert Below(d.psi) == c.psi && Top(d.psi) == f;
    RemainingAtEntry(env, child, c.z.start);
    assert Live(env, root, d) by {
      assert InFragment(child);
      assert IsPath(root, d.psi, child);
    }
  }

  lemma PiArms(env: Env, p: Pattern, c: nat, i: nat)
    requires p.Pi? && c < |p.children| && i <= |env.s|
    ensures Remaining(env, p, c, i) == Append(Ends(env, 0, p.children[c], i), Remaining(env, p, c + 1, i))
  {
    assert p.children[c..][1..] == p.children[c + 1..];
  }

  /** What an alternation yields from arm `c` on, seen from inside that arm. */
  lemma PiSplits(env: Env, f: Frame, i: nat, psi: seq<Frame>)
    requires IsFrame(f) && f.node.Pi? && i <= |env.s|
    ensures Thread(env, Remaining(env, f.node, f.ctx, i), psi)
         == OrElse(Thread(env, Ends(env, 0, f.node.children[f.ctx], i), psi + [f]),
                   ResumeVal(env, f.node, f.ctx, i, psi))
    ensures ConcVal(env, psi + [f], i) == ResumeVal(env, f.node, f.ctx, i, psi)
  {
    var first := Ends(env, 0, f.node.children[f.ctx], i);
    PiArms(env, f.node, f.ctx, i);
    ThreadAppend(env, first, Remaining(env, f.node, f.ctx + 1, i), psi);
    ThreadThrough(env, first, psi, f);
    assert Below(psi + [f]) == psi;
  }

  lemma PiDescends(env: Env, root: Pattern, c: Config)
    requires Live(env, root, c) && c.z.node.value.Pi? && c.a.Proceed? && c.z.ctx < |c.z.node.value.children|
    ensures Delivers(env, root, StepPi(c, c.z.node.value.children), Verdict(Val(env, c)))
  {
    var f := Frame(c.z.node.value, c.z.ctx);
    var child := f.node.children[f.ctx];
    var pushed := OmegaPush(c);
    PiValue(env, root, c);
    PiMayConcede(env, f, c.z.start, c.psi, pushed.omega, OmegaVal(env, c.omega));
    EnterChild(env, root, pushed, child);
  }

  lemma PiValue(env: Env, root: Pattern, c: Config)
    requires Here(env, root, c) && c.z.node.value.Pi? && c.a.Proceed? && c.z.ctx < |c.z.node.value.children|
    ensures var f := Frame(c.z.node.value, c.z.ctx);
            && SavedOk(env, root, OmegaPush(c).omega)
            && OmegaVal(env, OmegaPush(c).omega)
            == OrElse(ResumeVal(env, f.node, f.ctx, c.z.start, c.psi), OmegaVal(env, c.omega))
            && Val(env, c) == OrElse(Thread(env, Ends(env, 0, f.node.children[f.ctx], c.z.start), c.psi + [f]),
                                     OmegaVal(env, OmegaPush(c).omega))
  {
    PiSplits(env, Frame(c.z.node.value, c.z.ctx), c.z.start, c.psi);
    PushKeepsSaved(env, root, c);
  }

  /** The entry an alternation has just saved covers what an arm of it concedes to. */
  lemma PiMayConcede(env: Env, f: Frame, i: nat, psi: seq<Frame>, omega: seq<Choice>, older: Outcome)
    requires IsFrame(f) && f.node.Pi? && i <= |env.s|
    requires OmegaVal(env, omega) == OrElse(ResumeVal(env, f.node, f.ctx, i, psi), older)
    ensures MayConcede(env, psi + [f], i, omega)
  {
    assert Top(psi + [f]) == f && Below(psi + [f]) == psi;
  }

  lemma PiExhausted(env: Env, root: Pattern, c: Config)
    requires Live(env, root, c) && c.z.node.value.Pi? && c.a.Proceed? && c.z.ctx >= |c.z.node.value.children|
    ensures Delivers(env, root, StepPi(c, c.z.node.value.children), Verdict(Val(env, c)))
  {
    assert CurrentVal(env, c) == Miss;
    PopRecede(env, root, c);
  }

  /** An arm conceded or is resumed: the next arm is entered. */
  lemma PiAdvances(env: Env, root: Pattern, c: Config)
    requires Live(env, root, c) && c.z.node.value.Pi? && (c.a.Concede? || c.a.Recede?)
    ensures Delivers(env, root, StepPi(c, c.z.node.value.children), Verdict(Val(env, c)))
  {
    var f := Frame(c.z.node.value, c.z.ctx);
    assert Below(c.psi + [f]) == c.psi;
    var d := StepPi(c, c.z.node.value.children);
    assert Live(env, root, d);
  }

  /** Success of a child goes up through an alternation or an optional. */
  lemma SuccessPasses(env: Env, root: Pattern, c: Config)
    requires Live(env, root, c) && !c.z.node.value.Sigma? && c.a.Succeed?
    ensures Delivers(env, root, Up(c).(a := Succeed), Verdict(Val(env, c)))
  {
    var f := Frame(c.z.node.value, c.z.ctx);
    assert Below(c.psi + [f]) == c.psi;
    UpSucceed(env, root, c);
  }

  lemma SigmaSplits(env: Env, f: Frame, i: nat, psi: seq<Frame>)
    requires IsFrame(f) && f.node.Sigma? && i <= |env.s|
    ensures Thread(env, Remaining(env, f.node, f.ctx, i), psi)
         == Thread(env, Ends(env, 0, f.node.children[f.ctx], i), psi + [f])
  {
    var cs := f.node.children;
    assert cs[f.ctx..][1..] == cs[f.ctx + 1..];
    ThreadSigma(env, Ends(env, 0, cs[f.ctx], i), psi, f);
  }

  lemma SigmaDescends(env: Env, root: Pattern, c: Config)
    requires Live(env, root, c) && c.z.node.value.Sigma? && c.a.Proceed? && c.z.ctx < |c.z.node.value.children|
    ensures Delivers(env, root, StepSigma(c, c.z.node.value.children), Verdict(Val(env, c)))
  {
    var f := Frame(c.z.node.value, c.z.ctx);
    SigmaSplits(env, f, c.z.start, c.psi);
    EnterChild(env, root, c, f.node.children[f.ctx]);
  }

  lemma SigmaCompletes(env: Env, root: Pattern, c: Config)
    requires Live(env, root, c) && c.z.node.value.Sigma? && c.a.Proceed? && c.z.ctx >= |c.z.node.value.children|
    ensures Delivers(env, root, StepSigma(c, c.z.node.value.children), Verdict(Val(env, c)))
  {
    assert c.z.node.value.children[c.z.ctx..] == [];
    ThreadUnit(env, c.z.start, c.psi);
    UpSucceed(env, root, c);
  }

  /** A child succeeded: the sequence moves its start and goes on with the next child. */
  lemma SigmaMovesOn(env: Env, root: Pattern, c: Config)
    requires Live(env, root, c) && c.z.node.value.Sigma? && c.a.Succeed?
    ensures Delivers(env, root, StepSigma(c, c.z.node.value.children), Verdict(Val(env, c)))
  {
    var f := Frame(c.z.node.value, c.z.ctx);
    assert Below(c.psi + [f]) == c.psi;
    var d := StepSigma(c, c.z.node.value.children);
    assert Live(env, root, d);
  }

  lemma SigmaBacktracks(env: Env, root: Pattern, c: Config)
    requires Live(env, root, c) && c.z.node.value.Sigma? && c.a.Concede?
    ensures Delivers(env, root, StepSigma(c, c.z.node.value.children), Verdict(Val(env, c)))
  {
    PopRecede(env, root, c);
  }

  /** Saving the current node for later and succeeding at the cursor. */
  lemma SaveAndSucceed(env: Env, root: Pattern, c: Config)
    requires Here(env, root, c) && IsResumable(c.z.node.value, c.z.ctx)
    requires CanConcede(c.z.node.value) ==> MayConcede(env, c.psi, c.z.start, c.omega)
    ensures Delivers(env, root, Up(OmegaPush(c)).(a := Succeed),
        Verdict(OrElse(SuccVal(env, c.psi, c.z.cur), OrElse(ResumeVal(env, c.z.node.value, c.z.ctx, c.z.start, c.psi),
        OmegaVal(env, c.omega)))))
  {
    PushKeepsSaved(env, root, c);
    UpSucceed(env, root, OmegaPush(c));
  }

  /** The empty arm of an optional comes first; its state is saved to try the other arm. */
  lemma OptEmptyArm(env: Env, root: Pattern, c: Config)
    requires Live(env, root, c) && c.z.node.value.Opt? && c.a.Proceed? && c.z.ctx == 0
    ensures Delivers(env, root, StepOpt(c, c.z.node.value.child), Verdict(Val(env, c)))
  {
    var i := c.z.start;
    assert Val(env, c)
        == OrElse(SuccVal(env, c.psi, i),
                  OrElse(ResumeVal(env, c.z.node.value, 0, i, c.psi), OmegaVal(env, c.omega))) by {
      ThreadAppend(env, Unit(i), Ends(env, 0, c.z.node.value.child, i), c.psi);
      ThreadUnit(env, i, c.psi);
    }
    assert Here(env, root, c);
    assert StepOpt(c, c.z.node.value.child) == Up(OmegaPush(c)).(a := Succeed);
    SaveAndSucceed(env, root, c);
  }

  lemma OptSecondArm(env: Env, root: Pattern, c: Config)
    requires Live(env, root, c) && c.z.node.value.Opt? && c.a.Proceed? && c.z.ctx == 1
    ensures Delivers(env, root, StepOpt(c, c.z.node.value.child), Verdict(Val(env, c)))
  {
    var f := Frame(c.z.node.value, 1);
    var child := c.z.node.value.child;
    PushKeepsSaved(env, root, c);
    var pushed := OmegaPush(c);
    assert OmegaVal(env, pushed.omega) == OmegaVal(env, c.omega);
    SameOmegaVal(env, c.psi, c.z.start, c.omega, pushed.omega);
    assert Below(c.psi + [f]) == c.psi;
    assert MayConcede(env, c.psi + [f], c.z.start, pushed.omega);
    ThreadThrough(env, Ends(env, 0, child, c.z.start), c.psi, f);
    EnterChild(env, root, pushed, child);
  }

  lemma {:induction false} SameOmegaVal(env: Env, psi: seq<Frame>, i: nat, omega: seq<Choice>, omega': seq<Choice>)
    requires i <= |env.s|
    requires MayConcede(env, psi, i, omega) && OmegaVal(env, omega) == OmegaVal(env, omega')
    ensures MayConcede(env, psi, i, omega')
    decreases |psi|
  {
    if psi != [] && Top(psi).node.Opt? {
      SameOmegaVal(env, Below(psi), i, omega, omega');
    }
  }

  lemma OptExhausted(env: Env, root: Pattern, c: Config)
    requires Live(env, root, c) && c.z.node.value.Opt? && c.a.Proceed? && c.z.ctx == 2
    ensures Delivers(env, root, StepOpt(c, c.z.node.value.child), Verdict(Val(env, c)))
  {
    assert CurrentVal(env, c) == Miss;
    PopRecede(env, root, c);
  }

  lemma OptConcedes(env: Env, root: Pattern, c: Config)
    requires Live(env, root, c) && c.z.node.value.Opt? && c.a.Concede?
    ensures Delivers(env, root, StepOpt(c, c.z.node.value.child), Verdict(Val(env, c)))
  {
    var f := Frame(c.z.node.value, c.z.ctx);
    assert Below(c.psi + [f]) == c.psi;
    ConcedeAddsNothing(env, c.psi, c.z.start, c.omega);
    UpConcede(env, root, c);
  }

  lemma OptResumes(env: Env, root: Pattern, c: Config)
    requires Live(env, root, c) && c.z.node.value.Opt? && c.a.Recede?
    ensures Delivers(env, root, StepOpt(c, c.z.node.value.child), Verdict(Val(env, c)))
  {
    var d := StepOpt(c, c.z.node.value.child);
    assert Live(env, root, d);
  }

  /** ARB succeeds at the shortest extent left and saves itself for the next one. */
  lemma ArbYields(env: Env, root: Pattern, c: Config)
    requires Live(env, root, c) && c.z.node.value.Arb? && c.a.Proceed? && c.z.start + c.z.ctx <= |env.s|
    ensures Delivers(env, root, StepArb(c), Verdict(Val(env, c)))
  {
    assert c.z.limit == |env.s|;
    ArbSaved(env, root, c, c.(z := MovedTo(c.z, c.z.cur + c.z.ctx)), Verdict(Val(env, c)));
  }

  lemma ArbSaved(env: Env, root: Pattern, c: Config, moved: Config, v: Option<nat>)
    requires Live(env, root, c) && c.z.node.value.Arb? && c.a.Proceed? && c.z.start + c.z.ctx <= |env.s|
    requires moved == c.(z := MovedTo(c.z, c.z.cur + c.z.ctx)) && v == Verdict(Val(env, c))
    ensures Delivers(env, root, Up(OmegaPush(moved)).(a := Succeed), v)
  {
    ArbValue(env, root, c);
    ArbMoved(env, root, c, moved);
    SaveAndSucceed(env, root, moved);
  }

  lemma ArbMoved(env: Env, root: Pattern, c: Config, moved: Config)
    requires Live(env, root, c) && c.z.node.value.Arb? && c.a.Proceed? && c.z.start + c.z.ctx <= |env.s|
    requires moved == c.(z := MovedTo(c.z, c.z.cur + c.z.ctx))
    ensures Here(env, root, moved) && moved.z.node == c.z.node && moved.z.start == c.z.start && moved.z.ctx == c.z.ctx
    ensures moved.z.cur == c.z.cur + c.z.ctx && moved.psi == c.psi && moved.omega == c.omega
  {
  }

  lemma ArbValue(env: Env, root: Pattern, c: Config)
    requires Live(env, root, c) && c.z.node.value.Arb? && c.a.Proceed? && c.z.start + c.z.ctx <= |env.s|
    ensures Val(env, c)
         == OrElse(SuccVal(env, c.psi, c.z.cur + c.z.ctx),
                   OrElse(ResumeVal(env, c.z.node.value, c.z.ctx, c.z.start, c.psi), OmegaVal(env, c.omega)))
  {
    ArbSplits(env, c.z.node.value, c.z.ctx, c.z.start, c.psi);
  }

  lemma ArbExhausted(env: Env, root: Pattern, c: Config)
    requires Live(env, root, c) && c.z.node.value.Arb? && c.a.Proceed? && c.z.start + c.z.ctx > |env.s|
    ensures Delivers(env, root, StepArb(c), Verdict(Val(env, c)))
  {
    assert CurrentVal(env, c) == Miss;
    PopRecede(env, root, c);
  }

  lemma ArbSplits(env: Env, p: Pattern, c: nat, start: nat, psi: seq<Frame>)
    requires p.Arb? && start + c <= |env.s|
    ensures Thread(env, Remaining(env, p, c, start), psi)
         == OrElse(SuccVal(env, psi, start + c), ResumeVal(env, p, c, start, psi))
  {
    var i, n := start + c, |env.s|;
    assert UpFrom(i, n)[1..] == UpFrom(i + 1, n);
    assert Remaining(env, p, c, start).ends[1..] == UpFrom(i + 1, n);
    if i == n {
      assert UpFrom(i + 1, n) == [];
    }
  }

  lemma ArbResumes(env: Env, root: Pattern, c: Config)
    requires Live(env, root, c) && c.z.node.value.Arb? && c.a.Recede?
    ensures Delivers(env, root, StepArb(c), Verdict(Val(env, c)))
  {
    var d := StepArb(c);
    assert Live(env, root, d);
  }

  lemma FenceDelivers(env: Env, root: Pattern, c: Config)
    requires Live(env, root, c) && c.z.node.value.Fence?
    ensures Delivers(env, root, StepFence(c), Verdict(Val(env, c)))
  {
    if c.a.Proceed? {
      var i := c.z.start;
      assert Ends(env, 0, Fence, i) == Stream([i], true);
      assert Stream([i], true).ends[1..] == [];
      assert Thread(env, Stream([i], true), c.psi)
          == OrElse(SuccVal(env, c.psi, i), Thread(env, Stream([], true), c.psi));
      SaveAndSucceed(env, root, c);
    }
  }

  lemma ScanIsLeafEnd(env: Env, p: Pattern, z: State)
    requires Coherent(env.s, z) && IsLeaf(p) && z.cur == z.start && z.scanStart == env.base
    ensures var r := ScanLeaf(env.s, p, z);
            && z.cur <= r.cur <= |env.s|
            && LeafEnd(env, p, z.start) == if r.ok then Some(r.cur) else None
  {
  }

  lemma LeafDelivers(env: Env, root: Pattern, c: Config)
    requires Live(env, root, c) && IsLeaf(c.z.node.value)
    ensures Delivers(env, root, StepLeaf(env.s, c, c.z.node.value), Verdict(Val(env, c)))
  {
    var p := c.z.node.value;
    if c.a.Proceed? {
      ScanIsLeafEnd(env, p, c.z);
      var r := ScanLeaf(env.s, p, c.z);
      var moved := c.(z := MovedTo(c.z, r.cur));
      if r.ok {
        ThreadUnit(env, r.cur, c.psi);
        UpSucceed(env, root, moved);
      } else {
        UpConcede(env, root, moved);
      }
    }
  }

  /** Safety over whole runs: a running configuration is coherent and handled by the
      dispatch, and one step keeps the first result it can still deliver. */
  lemma StepDelivers(env: Env, root: Pattern, c: Config)
    requires Live(env, root, c)
    ensures Delivers(env, root, Step(env.s, c), Verdict(Val(env, c)))
  {
    var p := c.z.node.value;
    if IsLeaf(p) {
      LeafDelivers(env, root, c);
    } else if p.Fence? {
      FenceDelivers(env, root, c);
    } else if p.Pi? {
      if c.a.Succeed? {
        SuccessPasses(env, root, c);
      } else if !c.a.Proceed? {
        PiAdvances(env, root, c);
      } else if c.z.ctx < |p.children| {
        PiDescends(env, root, c);
      } else {
        PiExhausted(env, root, c);
      }
    } else if p.Sigma? {
      match c.a
      case Proceed =>
        if c.z.ctx < |p.children| {
          SigmaDescends(env, root, c);
        } else {
          SigmaCompletes(env, root, c);
        }
      case Succeed => SigmaMovesOn(env, root, c);
      case Concede => SigmaBacktracks(env, root, c);
      case Recede =>
    } else if p.Opt? {
      OptDelivers(env, root, c);
    } else if p.Arb? {
      match c.a
      case Proceed =>
        if c.z.start + c.z.ctx <= |env.s| {
          ArbYields(env, root, c);
        } else {
          ArbExhausted(env, root, c);
        }
      case Recede => ArbResumes(env, root, c);
      case _ =>
    }
  }

  lemma OptDelivers(env: Env, root: Pattern, c: Config)
    requires Live(env, root, c) && c.z.node.value.Opt?
    ensures Delivers(env, root, StepOpt(c, c.z.node.value.child), Verdict(Val(env, c)))
  {
    match c.a
    case Proceed =>
      if c.z.ctx == 0 {
        OptEmptyArm(env, root, c);
      } else if c.z.ctx == 1 {
        OptSecondArm(env, root, c);
      } else {
        OptExhausted(env, root, c);
      }
    case Succeed => SuccessPasses(env, root, c);
    case Concede => OptConcedes(env, root, c);
    case Recede => OptResumes(env, root, c);
  }
}
