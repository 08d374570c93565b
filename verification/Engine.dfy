/** engine_match_ex of archive/backend/engine.c: the dispatch loop over real stacks. */
module Engine {
  import opened Denotation
  import opened EngineStep
  import opened EngineStacks
  import opened EngineValue
  import EngineProof
  import EngineTermination

  const MAX_ITERATIONS: nat := 10_000_000

  function Report(c: Config): MatchResult {
    if c.a.Succeed? then MatchResult(true, 0, c.z.cur) else MatchResult(false, 0, 0)
  }

  function Answer(end: Option<nat>): MatchResult {
    if end.Some? then MatchResult(true, 0, end.value) else MatchResult(false, 0, 0)
  }

  /** Where the loop goes from `c`: to a configuration in order, closer to the end of the run. */
  lemma TurnIsSound(env: Env, root: Pattern, c: Config, k: nat)
    requires c.z.node.Some? && Live(env, root, c) && k > 0
    ensures Step(env.s, c).z.node.Some? ==> Live(env, root, Step(env.s, c))
    ensures EngineTermination.Potential(env, Step(env.s, c)) < EngineTermination.Potential(env, c)
    ensures After(env, root, c, k) == After(env, root, Step(env.s, c), k - 1)
    ensures Step(env.s, c).a.Succeed? ==> Step(env.s, c).z.cur <= |env.s|
  {
    EngineTermination.StepFalls(env, root, c);
    SuccessIsWithin(env, root, c);
  }

  lemma SuccessIsWithin(env: Env, root: Pattern, c: Config)
    requires c.z.node.Some? && Live(env, root, c)
    ensures Step(env.s, c).a.Succeed? ==> Step(env.s, c).z.cur <= |env.s|
  {
    if IsLeaf(c.z.node.value) && c.a.Proceed? {
      EngineProof.ScanIsLeafEnd(env, c.z.node.value, c.z);
    }
  }

  /** The configuration `k` turns of the loop later, or the one it stopped in. */
  ghost function After(env: Env, root: Pattern, c: Config, k: nat): Config
    requires c.z.node.Some? ==> Live(env, root, c)
    decreases k
  {
    if k == 0 || c.z.node.None? then c
    else
      EngineTermination.StepFalls(env, root, c);
      After(env, root, Step(env.s, c), k - 1)
  }

  /** The initial configuration delivers the first of the pattern's ends. */
  lemma InitDelivers(env: Env, root: Pattern)
    requires InFragment(root)
    ensures Delivers(env, root, Init(root, env.s, env.base), FirstEnd(Ends(env, 0, root, 0)))
    ensures Live(env, root, Init(root, env.s, env.base))
  {
    EngineProof.RemainingAtEntry(env, root, 0);
    ThreadedFirst(env, Ends(env, 0, root, 0));
  }

  lemma ThreadedFirst(env: Env, st: Stream)
    requires Within(st, |env.s|)
    ensures Verdict(Thread(env, st, [])) == FirstEnd(st)
  {
  }

  /** Every run: after any number of turns the engine is either in order, with the same
      first result still obtainable, or has stopped and reports it. */
  lemma {:induction false} EveryRunDelivers(env: Env, root: Pattern, c: Config, k: nat, v: Option<nat>)
    requires c.z.node.Some? ==> Live(env, root, c)
    requires Delivers(env, root, c, v)
    ensures Delivers(env, root, After(env, root, c, k), v)
    decreases k
  {
    if k > 0 && c.z.node.Some? {
      EngineProof.StepDelivers(env, root, c);
      EngineTermination.StepFalls(env, root, c);
      EveryRunDelivers(env, root, Step(env.s, c), k - 1, v);
    }
  }

  /** No run is longer than the potential of the configuration it starts from. */
  lemma {:induction false} RunsStop(env: Env, root: Pattern, c: Config, k: nat)
    requires c.z.node.Some? ==> Live(env, root, c)
    requires EngineTermination.Potential(env, c) <= k
    ensures After(env, root, c, k).z.node.None?
    decreases k
  {
    if c.z.node.Some? {
      EngineTermination.StepFalls(env, root, c);
      RunsStop(env, root, Step(env.s, c), k - 1);
    }
  }

  /** The run of the pattern stops within `k` turns. */
  ghost predicate StopsWithin(env: Env, root: Pattern, k: nat)
    requires InFragment(root)
  {
    InitDelivers(env, root);
    After(env, root, Init(root, env.s, env.base), k).z.node.None?
  }

  /** A run that stops within `k` turns reports exactly the first of the pattern's ends. */
  lemma EngineIsExact(env: Env, root: Pattern, k: nat)
    requires InFragment(root) && StopsWithin(env, root, k)
    ensures Capped(env, root, k) == Answer(FirstEnd(Ends(env, 0, root, 0)))
  {
    InitDelivers(env, root);
    EveryRunDelivers(env, root, Init(root, env.s, env.base), k, FirstEnd(Ends(env, 0, root, 0)));
  }

  /** What at most `k` turns from the start report. */
  ghost function Capped(env: Env, root: Pattern, k: nat): MatchResult
    requires InFragment(root)
  {
    InitDelivers(env, root);
    Report(After(env, root, Init(root, env.s, env.base), k))
  }

  /** As many turns as the potential of the start are always enough. */
  lemma PotentialIsEnough(env: Env, root: Pattern, k: nat)
    requires InFragment(root)
    requires EngineTermination.Potential(env, Init(root, env.s, env.base)) <= k
    ensures StopsWithin(env, root, k)
  {
    InitDelivers(env, root);
    RunsStop(env, root, Init(root, env.s, env.base), k);
  }

  /** A pattern without choices stops within as many turns as it is large: the limit is no
      obstacle up to a size of ten million. */
  lemma {:induction false} StraightStops(env: Env, root: Pattern)
    requires InFragment(root) && EngineTermination.Straight(root) && EngineTermination.Size(root) <= 10_000_000
    ensures StopsWithin(env, root, 10_000_000)
  {
    EngineTermination.EnteringStraight(env, root, 0, 0, []);
    EngineTermination.LeftAtEntry(root);
    PotentialIsEnough(env, root, 10_000_000);
  }

  class Machine {
    const subject: string
    const psi: PsiStack
    const omega: OmegaStack
    var z: State
    var a: Signal

    ghost predicate Valid()
      reads this, psi, psi.entries, omega, omega.entries,
            set k | 0 <= k < omega.count <= omega.entries.Length :: omega.entries[k].snap
    {
      psi.Valid() && omega.Valid(psi)
    }

    ghost function Abs(): Config
      reads this, psi, omega
    {
      Config(a, z, psi.contents, omega.contents)
    }

    constructor (root: Pattern, subject: string, scanStart: nat)
      ensures Valid() && fresh(psi) && fresh(psi.entries) && fresh(omega) && fresh(omega.entries)
      ensures this.subject == subject && Abs() == Init(root, subject, scanStart)
    {
      this.subject := subject;
      var p := new PsiStack();
      psi := p;
      omega := new OmegaStack(p);
      a := Proceed;
      z := NullState.(limit := |subject|, node := Some(root), scanStart := scanStart);
    }

    // ----- navigation -----

    method ZDown(child: Pattern)
      requires Valid() && z.node.Some?
      modifies this, psi, psi.entries
      ensures Valid() && (psi.entries == old(psi.entries) || fresh(psi.entries))
      ensures Abs() == Down(old(Abs()), child)
    {
      psi.Push(Frame(z.node.value, z.ctx));
      z := z.(curPtr := z.startPtr, cur := z.start, node := Some(child), ctx := 0);
    }

    method ZUp()
      requires Valid()
      modifies this, psi
      ensures Valid() && psi.entries == old(psi.entries)
      ensures Abs() == Up(old(Abs()))
    {
      var f := psi.Pop();
      if f.Some? {
        z := z.(node := Some(f.value.node), ctx := f.value.ctx);
      } else {
        z := z.(node := None);
      }
    }

    method Save()
      requires Valid()
      modifies omega, omega.entries
      ensures Valid() && (omega.entries == old(omega.entries) || fresh(omega.entries))
      ensures Abs() == OmegaPush(old(Abs()))
    {
      omega.Push(z, psi);
    }

    method Backtrack()
      requires Valid()
      modifies this, psi, psi.entries, omega, omega.entries
      ensures Valid() && omega.entries == old(omega.entries)
      ensures psi.entries == old(psi.entries) || fresh(psi.entries)
      ensures Abs() == OmegaPop(old(Abs()))
    {
      z := omega.Pop(psi);
    }

    method SaveAndZUp()
      requires Valid()
      modifies this, psi, omega, omega.entries
      ensures Valid() && psi.entries == old(psi.entries)
      ensures omega.entries == old(omega.entries) || fresh(omega.entries)
      ensures Abs() == Up(OmegaPush(old(Abs())))
    {
      Save();
      ZUp();
    }

    method SaveAndZDown(child: Pattern)
      requires Valid() && z.node.Some?
      modifies this, psi, psi.entries, omega, omega.entries
      ensures Valid() && (psi.entries == old(psi.entries) || fresh(psi.entries))
      ensures omega.entries == old(omega.entries) || fresh(omega.entries)
      ensures Abs() == Down(OmegaPush(old(Abs())), child)
    {
      Save();
      ZDown(child);
    }

    // ----- leaf scanners -----

    method Move(delta: int) returns (ok: bool)
      requires z.cur == z.start
      modifies this`z
      ensures ok == ScanMove(old(z), delta).ok
      ensures z == MovedTo(old(z), ScanMove(old(z), delta).cur)
    {
      if delta >= 0 && z.start + delta <= z.limit {
        z := z.(curPtr := z.curPtr + delta, cur := z.cur + delta);
        return true;
      }
      return false;
    }

    /** Is the character under the cursor in `chars`? The set is walked as the C string it is. */
    method InSet(chars: string) returns (found: bool)
      requires Coherent(subject, z) && z.cur < z.limit
      ensures found == (subject[z.curPtr] in chars)
    {
      var c := 0;
      while c < |chars|
        invariant 0 <= c <= |chars|
        invariant subject[z.curPtr] !in chars[..c]
      {
        if subject[z.curPtr] == chars[c] {
          return true;
        }
        c := c + 1;
      }
      return false;
    }

    method ScanSpan(chars: string) returns (ok: bool)
      requires Coherent(subject, z)
      modifies this`z
      ensures var e := RunEnd(subject, chars, old(z.cur)); ok == (e > old(z.cur)) && z == MovedTo(old(z), e)
    {
      ghost var e := RunEnd(subject, chars, z.cur);
      var start := z.cur;
      while z.cur < z.limit
        invariant Coherent(subject, z) && start <= z.cur
        invariant z == MovedTo(old(z), z.cur)
        invariant RunEnd(subject, chars, z.cur) == e
        decreases z.limit - z.cur
      {
        var found := InSet(chars);
        if !found {
          break;
        }
        z := z.(curPtr := z.curPtr + 1, cur := z.cur + 1);
      }
      return z.cur > start;
    }

    method ScanBreak(chars: string) returns (ok: bool)
      requires Coherent(subject, z)
      modifies this`z
      ensures var e := BreakEnd(subject, chars, old(z.cur)); ok == (e < old(z.limit)) && z == MovedTo(old(z), e)
    {
      ghost var e := BreakEnd(subject, chars, z.cur);
      while z.cur < z.limit
        invariant Coherent(subject, z) && old(z.cur) <= z.cur
        invariant z == MovedTo(old(z), z.cur)
        invariant BreakEnd(subject, chars, z.cur) == e
        decreases z.limit - z.cur
      {
        var found := InSet(chars);
        if found {
          return true;
        }
        z := z.(curPtr := z.curPtr + 1, cur := z.cur + 1);
      }
      return false;
    }

    method ScanOne(chars: string, wanted: bool) returns (ok: bool)
      requires Coherent(subject, z)
      modifies this`z
      ensures ok == (old(z.cur) < old(z.limit) && (subject[old(z.curPtr)] in chars) == wanted)
      ensures z == MovedTo(old(z), if ok then old(z.cur) + 1 else old(z.cur))
    {
      if z.cur >= z.limit {
        return false;
      }
      var found := InSet(chars);
      if found == wanted {
        z := z.(curPtr := z.curPtr + 1, cur := z.cur + 1);
        return true;
      }
      return false;
    }

    method ScanLiteral(w: string) returns (ok: bool)
      requires Coherent(subject, z)
      modifies this`z
      ensures ok == HasAt(subject, old(z.cur), w)
      ensures z == MovedTo(old(z), if ok then old(z.cur) + |w| else old(z.cur))
    {
      if z.cur + |w| > z.limit || subject[z.curPtr..z.curPtr + |w|] != w {
        return false;
      }
      z := z.(curPtr := z.curPtr + |w|, cur := z.cur + |w|);
      return true;
    }

    method Scan(p: Pattern) returns (ok: bool)
      requires Coherent(subject, z) && z.cur == z.start && IsLeaf(p)
      modifies this`z
      ensures ok == ScanLeaf(subject, p, old(z)).ok
      ensures z == MovedTo(old(z), ScanLeaf(subject, p, old(z)).cur)
    {
      if p.Literal? {
        ok := ScanLiteral(p.s);
      } else if p.Any? {
        ok := ScanOne(p.chars, true);
      } else if p.NotAny? {
        ok := ScanOne(p.chars, false);
      } else if p.Span? {
        ok := ScanSpan(p.chars);
      } else if p.Break? {
        ok := ScanBreak(p.chars);
      } else if p.Len? {
        ok := Move(p.n);
      } else if p.Pos? {
        ok := p.n == z.start + z.scanStart;
      } else if p.RPos? {
        ok := p.n == z.limit - z.start;
      } else if p.Tab? {
        ok := Move(p.n - z.start - z.scanStart);
      } else if p.RTab? {
        ok := Move(z.limit - z.start - p.n);
      } else if p.Rem? {
        ok := Move(z.limit - z.start);
      } else {
        ok := p.Epsilon?;
      }
    }

    // ----- the dispatch -----

    method TurnPi(cs: seq<Pattern>)
      requires Valid() && z.node.Some?
      modifies this, psi, psi.entries, omega, omega.entries
      ensures Valid() && (psi.entries == old(psi.entries) || fresh(psi.entries))
      ensures omega.entries == old(omega.entries) || fresh(omega.entries)
      ensures Abs() == StepPi(old(Abs()), cs)
    {
      match a
      case Proceed =>
        if z.ctx < |cs| {
          a := Proceed;
          SaveAndZDown(cs[z.ctx]);
        } else {
          a := Recede;
          Backtrack();
        }
      case Succeed =>
        a := Succeed;
        ZUp();
      case Concede =>
        a := Proceed;
        z := StayNext(z);
      case Recede =>
        if z.ctx < |cs| {
          a := Proceed;
          z := StayNext(z);
        } else {
          a := Concede;
          ZUp();
        }
    }

    method TurnSigma(cs: seq<Pattern>)
      requires Valid() && z.node.Some?
      modifies this, psi, psi.entries, omega, omega.entries
      ensures Valid() && (psi.entries == old(psi.entries) || fresh(psi.entries))
      ensures omega.entries == old(omega.entries) || fresh(omega.entries)
      ensures Abs() == StepSigma(old(Abs()), cs)
    {
      match a
      case Proceed =>
        if z.ctx < |cs| {
          a := Proceed;
          ZDown(cs[z.ctx]);
        } else {
          a := Succeed;
          ZUp();
        }
      case Succeed =>
        a := Proceed;
        z := MoveNext(z);
      case Concede =>
        a := Recede;
        Backtrack();
      case Recede =>
        a, z := Concede, z.(node := None);
    }

    /** Goes on with the next child index, unless a fence forbids it. */
    method Retry()
      requires Valid()
      modifies this, psi
      ensures Valid() && psi.entries == old(psi.entries)
      ensures var c := old(Abs());
              Abs() == if !c.z.fenced then c.(a := Proceed, z := StayNext(c.z)) else Up(c).(a := Concede)
    {
      if !z.fenced {
        a := Proceed;
        z := StayNext(z);
      } else {
        a := Concede;
        ZUp();
      }
    }

    method EnterOpt(child: Pattern)
      requires Valid() && z.node.Some? && a.Proceed?
      modifies this, psi, psi.entries, omega, omega.entries
      ensures Valid() && (psi.entries == old(psi.entries) || fresh(psi.entries))
      ensures omega.entries == old(omega.entries) || fresh(omega.entries)
      ensures Abs() == StepOpt(old(Abs()), child)
    {
      if z.ctx == 0 {
        a := Succeed;
        SaveAndZUp();
      } else if z.ctx == 1 {
        SaveAndZDown(child);
      } else {
        a := Recede;
        Backtrack();
      }
    }

    method TurnOpt(child: Pattern)
      requires Valid() && z.node.Some?
      modifies this, psi, psi.entries, omega, omega.entries
      ensures Valid() && (psi.entries == old(psi.entries) || fresh(psi.entries))
      ensures omega.entries == old(omega.entries) || fresh(omega.entries)
      ensures Abs() == StepOpt(old(Abs()), child)
    {
      match a
      case Proceed =>
        EnterOpt(child);
      case Succeed =>
        a := Succeed;
        ZUp();
      case Concede =>
        a := Concede;
        ZUp();
      case Recede =>
        Retry();
    }

    method TurnArb()
      requires Valid() && z.node.Some?
      modifies this, psi, psi.entries, omega, omega.entries
      ensures Valid() && (psi.entries == old(psi.entries) || fresh(psi.entries))
      ensures omega.entries == old(omega.entries) || fresh(omega.entries)
      ensures Abs() == StepArb(old(Abs()))
    {
      match a
      case Proceed =>
        if z.start + z.ctx <= z.limit {
          z := z.(curPtr := z.curPtr + z.ctx, cur := z.cur + z.ctx);
          a := Succeed;
          SaveAndZUp();
        } else {
          a := Recede;
          Backtrack();
        }
      case Recede =>
        Retry();
      case _ =>
        a, z := Concede, z.(node := None);
    }

    method TurnFence()
      requires Valid() && z.node.Some?
      modifies this, psi, psi.entries, omega, omega.entries
      ensures Valid() && (psi.entries == old(psi.entries) || fresh(psi.entries))
      ensures omega.entries == old(omega.entries) || fresh(omega.entries)
      ensures Abs() == StepFence(old(Abs()))
    {
      match a
      case Proceed =>
        a := Succeed;
        SaveAndZUp();
      case Recede =>
        z := z.(node := None);
      case _ =>
        a, z := Concede, z.(node := None);
    }

    method TurnLeaf(p: Pattern)
      requires Valid() && z.node == Some(p) && Coherent(subject, z) && IsLeaf(p)
      requires a.Proceed? ==> z.cur == z.start
      modifies this, psi, psi.entries, omega, omega.entries
      ensures Valid() && (psi.entries == old(psi.entries) || fresh(psi.entries))
      ensures omega.entries == old(omega.entries) || fresh(omega.entries)
      ensures Abs() == StepLeaf(subject, old(Abs()), p)
    {
      if a.Proceed? {
        var ok := Scan(p);
        a := if ok then Succeed else Concede;
        ZUp();
      } else {
        a, z := Concede, z.(node := None);
      }
    }

    /** One turn of the loop. */
    method Turn()
      requires Valid() && z.node.Some? && Coherent(subject, z) && IsEngineNode(z.node.value)
      requires a.Proceed? ==> z.cur == z.start
      modifies this, psi, psi.entries, omega, omega.entries
      ensures Valid() && (psi.entries == old(psi.entries) || fresh(psi.entries))
      ensures omega.entries == old(omega.entries) || fresh(omega.entries)
      ensures Abs() == Step(subject, old(Abs()))
    {
      var p := z.node.value;
      if IsLeaf(p) {
        TurnLeaf(p);
      } else if p.Pi? {
        TurnPi(p.children);
      } else if p.Sigma? {
        TurnSigma(p.children);
      } else if p.Opt? {
        TurnOpt(p.child);
      } else if p.Arb? {
        TurnArb();
      } else if p.Fence? {
        TurnFence();
      } else {
        a, z := Concede, z.(node := None);
      }
    }
  }

  /** Runs `root` on `subject`, whose first character is at `scanStart` of the whole subject.
      The result is the one reached after at most 10,000,000 turns; it is exact whenever
      the run stops within these (see PotentialIsEnough and StraightStops). */
  method EngineMatchEx(root: Pattern, subject: string, scanStart: nat) returns (r: MatchResult)
    requires InFragment(root)
    ensures var env := Env(subject, scanStart, map[]);
            && r == Capped(env, root, 10_000_000)
            && (StopsWithin(env, root, 10_000_000) ==> r == Answer(FirstEnd(Ends(env, 0, root, 0))))
    ensures r.end <= |subject|
  {
    ghost var env := Env(subject, scanStart, map[]);
    ghost var start := Init(root, subject, scanStart);
    InitDelivers(env, root);
    var m := new Machine(root, subject, scanStart);
    var iterations := 0;
    while m.z.node.Some?
      invariant m.Valid() && fresh(m) && fresh(m.psi) && fresh(m.psi.entries)
      invariant fresh(m.omega) && fresh(m.omega.entries)
      invariant m.subject == subject && 0 <= iterations <= MAX_ITERATIONS
      invariant m.z.node.Some? ==> Live(env, root, m.Abs())
      invariant m.a.Succeed? ==> m.z.cur <= |subject|
      invariant After(env, root, m.Abs(), MAX_ITERATIONS - iterations)
             == After(env, root, start, MAX_ITERATIONS)
      decreases EngineTermination.Potential(env, m.Abs())
    {
      iterations := iterations + 1;
      if iterations > MAX_ITERATIONS {
        break;
      }
      TurnIsSound(env, root, m.Abs(), MAX_ITERATIONS - iterations + 1);
      m.Turn();
    }
    r := if m.a.Succeed? then MatchResult(true, 0, m.z.cur) else MatchResult(false, 0, 0);
    if StopsWithin(env, root, MAX_ITERATIONS) {
      EngineIsExact(env, root, MAX_ITERATIONS);
    }
  }
}
