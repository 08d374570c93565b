/** Calling a generated function from outside: entry 0 once, then entry 1 again and again. */
module FuncSession {
  import opened Denotation
  import opened FuncIr
  import opened FuncEmitter
  import opened FuncSpec
  import opened FuncArena
  import opened FuncFrames
  import opened FuncLeaves
  import opened FuncCalls
  import FuncRuns
  import Runs

  ghost predicate Starts(prog: Program, m: Machine, name: string, entry: nat, m': Machine) {
    Invoke(prog, m, name, OuterSlot, entry) == Some(m')
  }

  /** The call, made outside every function, returns in state `m'`. */
  ghost predicate Returns(prog: Program, subject: string, m: Machine, name: string, entry: nat, m': Machine) {
    exists m1 :: Starts(prog, m, name, entry, m1) && Reaches(prog, subject, m1, m') && m'.stack == []
  }

  /** The call nests more than `depth` activations, each with its frame in the arena. */
  ghost predicate Nests(prog: Program, subject: string, m: Machine, name: string, entry: nat, depth: nat) {
    && 16 * depth <= 4_194_304
    && exists m1, deep :: Starts(prog, m, name, entry, m1) && Reaches(prog, subject, m1, deep) && |deep.stack| > depth
  }

  /** The call comes to a frame that does not fit and would end at `want`: its own, or that of
      a nested call. The program is aborted there. */
  ghost predicate Overflows(prog: Program, subject: string, m: Machine, name: string, entry: nat, want: nat) {
    && want > 4_194_304
    && ((entry == 0 && name in prog.sizes && want == m.pos + Total(prog.sizes[name]))
        || Aborts(prog, subject, m, name, entry, want))
  }

  ghost predicate Aborts(prog: Program, subject: string, m: Machine, name: string, entry: nat, want: nat) {
    exists m1, full ::
      Starts(prog, m, name, entry, m1) && Reaches(prog, subject, m1, full) && Wanted(prog, full) == want
  }

  /** The call with `entry`, then calls with entry 1, leave the cursor at the successive ends of
      `st`; when there are no more, the call answers empty with the cursor at `i`, the arena
      position at `base` and no frame in the slot. Where `st` is cut, the recursion is deeper
      than `depth`. Or else a call overflows the arena, at one of the frames of `asks`. */
  ghost predicate Yields(prog: Program, subject: string, name: string, m: Machine, entry: nat, st: Stream, i: nat,
      base: nat, depth: nat, asks: iset<nat>)
    decreases |st.ends|
  {
    || (exists want :: want in asks && Overflows(prog, subject, m, name, entry, want))
    || if st.ends != [] then
         exists m' ::
           && Returns(prog, subject, m, name, entry, m') && !m'.outerEmpty && m'.delta == st.ends[0]
           && Yields(prog, subject, name, m', 1, Stream(st.ends[1..], st.cut), i, base, depth, asks)
       else if st.cut then Nests(prog, subject, m, name, entry, depth)
       else
         exists m' ::
           && Returns(prog, subject, m, name, entry, m') && m'.outerEmpty
           && m'.delta == i && m'.pos == base && m'.outer == None
  }

  /** A call that overflows the arena does not return. */
  lemma {:induction false} OverflowIsFinal(prog: Program, subject: string, m: Machine, name: string, entry: nat,
                                           want: nat, m': Machine)
    requires Overflows(prog, subject, m, name, entry, want)
    ensures !Returns(prog, subject, m, name, entry, m')
  {
    if Returns(prog, subject, m, name, entry, m') {
      var m1, full :|
        Starts(prog, m, name, entry, m1) && Reaches(prog, subject, m1, full) && Wanted(prog, full) == want;
      var j: nat :| Runs.Run(Stepper(prog, subject), m1, j) == Some(full);
      var k: nat :| Runs.Run(Stepper(prog, subject), m1, k) == Some(m');
      FullStops(prog, subject, full);
      Runs.StopsAfter(Stepper(prog, subject), m1, j, full, k, m');
    }
  }

  /** The calls yield the stream from a first call on, and all frames they enter end at `limit`
      or below. */
  ghost predicate YieldsWithin(prog: Program, subject: string, name: string, m: Machine, st: Stream, i: nat, depth: nat,
      limit: nat)
  {
    exists asks: iset<nat> :: Below(asks, limit) && Yields(prog, subject, name, m, 0, st, i, m.pos, depth, asks)
  }

  ghost predicate Below(asks: iset<nat>, limit: nat) {
    forall want :: want in asks ==> want <= limit
  }

  lemma {:induction false} AskedWithin(prog: Program, subject: string, name: string, m: Machine, st: Stream, i: nat,
                                       depth: nat, asks: iset<nat>, limit: nat)
    ensures Yields(prog, subject, name, m, 0, st, i, m.pos, depth, asks) && Below(asks, limit)
        ==> YieldsWithin(prog, subject, name, m, st, i, depth, limit)
  {
  }

  /** If the arena is that large, no call overflows it: no frame at all need be allowed for. */
  lemma {:induction false} NoOverflow(prog: Program, subject: string, name: string, m: Machine, st: Stream, i: nat,
                                      depth: nat, limit: nat, none: iset<nat>)
    requires YieldsWithin(prog, subject, name, m, st, i, depth, limit) && limit <= 4_194_304 && none == iset{}
    ensures Yields(prog, subject, name, m, 0, st, i, m.pos, depth, none)
  {
    var asks: iset<nat> :| Below(asks, limit) && Yields(prog, subject, name, m, 0, st, i, m.pos, depth, asks);
    YieldsNone(prog, subject, name, m, 0, st, i, m.pos, depth, asks, none);
  }

  lemma {:induction false} YieldsNone(prog: Program, subject: string, name: string, m: Machine, entry: nat, st: Stream,
                                      i: nat, base: nat, depth: nat, asks: iset<nat>, none: iset<nat>)
    requires Yields(prog, subject, name, m, entry, st, i, base, depth, asks)
    requires Below(asks, ARENA_SIZE)
    ensures Yields(prog, subject, name, m, entry, st, i, base, depth, none)
    decreases |st.ends|
  {
    if st.ends != [] {
      var m' :| && Returns(prog, subject, m, name, entry, m') && !m'.outerEmpty && m'.delta == st.ends[0]
                && Yields(prog, subject, name, m', 1, Stream(st.ends[1..], st.cut), i, base, depth, asks);
      YieldsNone(prog, subject, name, m', 1, Stream(st.ends[1..], st.cut), i, base, depth, asks, none);
    }
  }

  /** The frames a call of the pattern may ask for, from cursor `i` with the arena position at `base`. */
  ghost function Asked(src: Source, d: nat, name: string, i: nat, base: nat): iset<nat> {
    iset want: nat | Asks(src, d, Node.Ref(name), i, base, want)
  }

  // ----- the outermost activation -----

  function RootSpot(name: string, base: nat): Spot {
    Spot([], name, base + HEADER_SIZE, OuterSlot)
  }

  predicate Held(c: Ctx, name: string, base: nat, m: Machine)
    requires name in c.prog.sizes
  {
    m.outer == Some(base + HEADER_SIZE) && IsFrame(m.heap, base + HEADER_SIZE, c.prog.sizes[name])
  }

  lemma {:induction false} OpenRoot(c: Ctx, name: string, m: Machine) returns (m': Machine)
    requires Known(c, name) && m.stack == [] && m.outer == None && m.pos + Total(c.prog.sizes[name]) <= ARENA_SIZE
    requires P(Root, Alpha) in c.prog.bodies[name]
    ensures Starts(c.prog, m, name, 0, m') && Held(c, name, m.pos, m')
    ensures AtPort(c, RootSpot(name, m.pos), m', P(Root, Alpha))
    ensures m'.delta == m.delta && m'.pos == m.pos + Total(c.prog.sizes[name])
  {
    m' := Invoke(c.prog, m, name, OuterSlot, 0).value;
  }

  lemma {:induction false} ReopenRoot(c: Ctx, name: string, base: nat, m: Machine) returns (m': Machine)
    requires Known(c, name) && m.stack == [] && Held(c, name, base, m) && P(Root, Beta) in c.prog.bodies[name]
    ensures Starts(c.prog, m, name, 1, m') && Held(c, name, base, m')
    ensures AtPort(c, RootSpot(name, base), m', P(Root, Beta))
    ensures m'.delta == m.delta && m'.pos == m.pos && m'.heap == m.heap
  {
    m' := Invoke(c.prog, m, name, OuterSlot, 1).value;
  }

  lemma {:induction false} PlacedRoot(c: Ctx, name: string, base: nat)
    requires Compiled(c) && name in c.graph
    ensures Known(c, name)
    ensures Placed(c, RootSpot(name, base), RootPiece(c, name), base + Total(c.prog.sizes[name]))
  {
  }

  lemma {:induction false} RootEnd(c: Ctx, name: string, base: nat, m: Machine) returns (m': Machine)
    requires Known(c, name) && Held(c, name, base, m) && AtPort(c, RootSpot(name, base), m, P(Root, MatchOk))
    requires Has(c.prog.bodies[name], Block(P(Root, MatchOk), [[ReturnOk]]))
    ensures Reaches(c.prog, c.subject, m, m') && m'.stack == [] && Held(c, name, base, m')
    ensures !m'.outerEmpty && m'.delta == m.delta && m'.pos == m.pos && m'.heap == m.heap
  {
    FlattenOne([ReturnOk]);
    m' := Step(c.prog, c.subject, m).value;
    Runs.ReachesStep(Stepper(c.prog, c.subject), m, m');
  }

  lemma {:induction false} RootNone(c: Ctx, name: string, base: nat, m: Machine) returns (m': Machine)
    requires Known(c, name) && Held(c, name, base, m) && AtPort(c, RootSpot(name, base), m, P(Root, MatchFail))
    requires m.pos == base + Total(c.prog.sizes[name])
        && Has(c.prog.bodies[name], Block(P(Root, MatchFail), [[ReturnFail]]))
    ensures Reaches(c.prog, c.subject, m, m') && m'.stack == []
    ensures m'.outerEmpty && m'.delta == m.delta && m'.pos == base && m'.outer == None
  {
    FlattenOne([ReturnFail]);
    m' := Step(c.prog, c.subject, m).value;
    Runs.ReachesStep(Stepper(c.prog, c.subject), m, m');
  }

  lemma {:induction false} HeldOn(c: Ctx, d: nat, name: string, base: nat, m: Machine, m': Machine)
    requires Known(c, name) && Held(c, name, base, m)
    requires Goes(c, d, RootSpot(name, base), base + Total(c.prog.sizes[name]), RootPiece(c, name), m, m')
    ensures Over(c, RootSpot(name, base), d, m') || Held(c, name, base, m')
  {
  }

  // ----- the session -----

  /** Overflow inside the function is at a frame the call asks for. */
  lemma {:induction false} RootSpills(c: Ctx, d: nat, name: string, base: nat, i: nat, m0: Machine, entry: nat,
      m1: Machine, m: Machine)
    requires Known(c, name) && Starts(c.prog, m0, name, entry, m1) && Reaches(c.prog, c.subject, m1, m)
    requires Spills(c, d, c.graph[name], i, base + Total(c.prog.sizes[name]), m)
    ensures exists want ::
      want in Asked(SourceOf(c), d + 1, name, i, base) && Overflows(c.prog, c.subject, m0, name, entry, want)
  {
    var want := Wanted(c.prog, m);
    assert Asks(SourceOf(c), d + 1, Node.Ref(name), i, base, want);
    assert want in Asked(SourceOf(c), d + 1, name, i, base);
    assert Aborts(c.prog, c.subject, m0, name, entry, want);
    assert Overflows(c.prog, c.subject, m0, name, entry, want);
  }

  /** The root piece has run from `m1` to `m`: the call returns, nests too deep, or overflows. */
  lemma {:induction false} LeaveRoot(c: Ctx, d: nat, name: string, base: nat, i: nat, st: Stream, m0: Machine,
      entry: nat, m1: Machine, m: Machine, trail: Trail)
    requires Compiled(c) && name in c.graph && i <= |c.subject| && Within(st, |c.subject|)
    requires Starts(c.prog, m0, name, entry, m1) && Held(c, name, base, m1)
    requires Goes(c, d, RootSpot(name, base), base + Total(c.prog.sizes[name]), RootPiece(c, name), m1, m)
    requires Delivers(c, d, RootSpot(name, base), RootPiece(c, name), i, st, m, base + Total(c.prog.sizes[name]), trail)
    ensures Yields(c.prog, c.subject, name, m0, entry, st, i, base, d + 1, Asked(SourceOf(c), d + 1, name, i, base))
    decreases |st.ends|, 1
  {
    if !Arrives(c, d, RootSpot(name, base), RootPiece(c, name), i, st, m, base + Total(c.prog.sizes[name]), trail) {
      RootSpills(c, d, name, base, i, m0, entry, m1, m);
    } else if !Lost(st) {
      FuncRuns.RootIsQuiet(c, name);
      NotOver(c, d, RootSpot(name, base), m, P(Root, if st.ends == [] then MatchFail else MatchOk));
      HeldOn(c, d, name, base, m1, m);
      if st.ends == [] {
        LeaveEmpty(c, d, name, base, i, m0, entry, m1, m);
      } else {
        LeaveAtEnd(c, d, name, base, i, st, m0, entry, m1, m, trail);
      }
    }
  }

  lemma {:induction false} LeaveEmpty(c: Ctx, d: nat, name: string, base: nat, i: nat, m0: Machine, entry: nat,
      m1: Machine, m: Machine)
    requires Compiled(c) && name in c.graph && Known(c, name) && i == m.delta
    requires Starts(c.prog, m0, name, entry, m1) && Reaches(c.prog, c.subject, m1, m) && Held(c, name, base, m)
    requires AtPort(c, RootSpot(name, base), m, P(Root, MatchFail)) && m.pos == base + Total(c.prog.sizes[name])
    ensures Yields(c.prog, c.subject, name, m0, entry, Nothing, i, base, d + 1,
                   Asked(SourceOf(c), d + 1, name, i, base))
  {
    var m2 := RootNone(c, name, base, m);
    Runs.ReachesTransitive(Stepper(c.prog, c.subject), m1, m, m2);
    assert Returns(c.prog, c.subject, m0, name, entry, m2);
  }

  lemma {:induction false} LeaveAtEnd(c: Ctx, d: nat, name: string, base: nat, i: nat, st: Stream, m0: Machine,
      entry: nat, m1: Machine, m: Machine, trail: Trail)
    requires Compiled(c) && name in c.graph && i <= |c.subject| && Within(st, |c.subject|) && st.ends != []
    requires Starts(c.prog, m0, name, entry, m1) && Reaches(c.prog, c.subject, m1, m) && Held(c, name, base, m)
    requires Arrives(c, d, RootSpot(name, base), RootPiece(c, name), i, st, m, base + Total(c.prog.sizes[name]), trail)
    ensures Yields(c.prog, c.subject, name, m0, entry, st, i, base, d + 1, Asked(SourceOf(c), d + 1, name, i, base))
    decreases |st.ends|, 0
  {
    var m2 := RootEnd(c, name, base, m);
    Runs.ReachesTransitive(Stepper(c.prog, c.subject), m1, m, m2);
    assert Returns(c.prog, c.subject, m0, name, entry, m2);
    Again(c, d, name, base, i, st.ends[0], Stream(st.ends[1..], st.cut), trail, m2);
  }

  /** Suspended outside every function, the pattern goes on with entry 1. */
  lemma {:induction false} Again(c: Ctx, d: nat, name: string, base: nat, i: nat, e: nat, rest: Stream, trail: Trail,
      m: Machine)
    requires Compiled(c) && name in c.graph && i <= |c.subject| && Within(rest, |c.subject|)
    requires m.stack == [] && Held(c, name, base, m) && m.delta == e
    requires Paused(c, d, RootSpot(name, base), RootPiece(c, name), base + Total(c.prog.sizes[name]), i, e, rest,
                    trail, m)
    ensures Yields(c.prog, c.subject, name, m, 1, rest, i, base, d + 1, Asked(SourceOf(c), d + 1, name, i, base))
    decreases |rest.ends|, 2
  {
    var m1, m2, t2 := ResumeRoot(c, d, name, base, i, e, rest, trail, m);
    LeaveRoot(c, d, name, base, i, rest, m, 1, m1, m2, t2);
  }

  lemma {:induction false} ReopenPaused(c: Ctx, d: nat, name: string, base: nat, i: nat, e: nat, rest: Stream,
      trail: Trail, m: Machine) returns (m1: Machine)
    requires Compiled(c) && name in c.graph && m.stack == [] && Held(c, name, base, m) && m.delta == e
    requires Paused(c, d, RootSpot(name, base), RootPiece(c, name), base + Total(c.prog.sizes[name]), i, e, rest,
                    trail, m)
    ensures Starts(c.prog, m, name, 1, m1) && Held(c, name, base, m1)
    ensures Resuming(c, d, RootSpot(name, base), RootPiece(c, name), base + Total(c.prog.sizes[name]), i, e, rest,
                     trail, m1)
  {
    FuncRuns.RootPorts(c, name);
    m1 := ReopenRoot(c, name, base, m);
  }

  lemma {:induction false} ResumeRoot(c: Ctx, d: nat, name: string, base: nat, i: nat, e: nat, rest: Stream,
      trail: Trail, m: Machine) returns (m1: Machine, m2: Machine, t2: Trail)
    requires Compiled(c) && name in c.graph && i <= |c.subject| && Within(rest, |c.subject|)
    requires m.stack == [] && Held(c, name, base, m) && m.delta == e
    requires Paused(c, d, RootSpot(name, base), RootPiece(c, name), base + Total(c.prog.sizes[name]), i, e, rest,
                    trail, m)
    ensures Starts(c.prog, m, name, 1, m1) && Held(c, name, base, m1)
    ensures Goes(c, d, RootSpot(name, base), base + Total(c.prog.sizes[name]), RootPiece(c, name), m1, m2)
    ensures Delivers(c, d, RootSpot(name, base), RootPiece(c, name), i, rest, m2, base + Total(c.prog.sizes[name]), t2)
  {
    PlacedRoot(c, name, base);
    m1 := ReopenPaused(c, d, name, base, i, e, rest, trail, m);
    m2, t2 := FuncRuns.Resume(c, d, RootSpot(name, base), RootPiece(c, name), base + Total(c.prog.sizes[name]), i,
        e, rest, trail, m1);
  }

  /** Called with no frame in the slot, a generated function yields the ends of its pattern. */
  lemma {:induction false} FunctionYields(c: Ctx, d: nat, name: string, i: nat, m: Machine)
    requires Compiled(c) && name in c.graph && i <= |c.subject|
    requires m.stack == [] && m.outer == None && m.delta == i
    ensures Yields(c.prog, c.subject, name, m, 0, EndsOf(c, d, c.graph[name], i), i, m.pos, d + 1,
                   Asked(SourceOf(c), d + 1, name, i, m.pos))
  {
    FuncRuns.RootPorts(c, name);
    var want := m.pos + Total(c.prog.sizes[name]);
    if want > ARENA_SIZE {
      assert want in Asked(SourceOf(c), d + 1, name, i, m.pos);
      assert Overflows(c.prog, c.subject, m, name, 0, want);
    } else {
      var m1 := OpenRoot(c, name, m);
      FromRoot(c, d, name, m.pos, i, m, m1);
    }
  }

  lemma {:induction false} FromRoot(c: Ctx, d: nat, name: string, base: nat, i: nat, m0: Machine, m: Machine)
    requires Compiled(c) && name in c.graph && i <= |c.subject|
    requires Starts(c.prog, m0, name, 0, m) && Held(c, name, base, m)
        && AtPort(c, RootSpot(name, base), m, P(Root, Alpha))
    requires m.delta == i && m.pos == base + Total(c.prog.sizes[name])
    ensures Yields(c.prog, c.subject, name, m0, 0, EndsOf(c, d, c.graph[name], i), i, base, d + 1,
                   Asked(SourceOf(c), d + 1, name, i, base))
  {
    var m2, t2 := EnterRoot(c, d, name, base, i, m);
    LeaveRoot(c, d, name, base, i, EndsOf(c, d, c.graph[name], i), m0, 0, m, m2, t2);
  }

  lemma {:induction false} EnterRoot(c: Ctx, d: nat, name: string, base: nat, i: nat, m: Machine)
      returns (m2: Machine, t2: Trail)
    requires Compiled(c) && name in c.graph && i <= |c.subject| && Known(c, name) && Held(c, name, base, m)
    requires AtPort(c, RootSpot(name, base), m, P(Root, Alpha))
    requires m.delta == i && m.pos == base + Total(c.prog.sizes[name])
    ensures Goes(c, d, RootSpot(name, base), m.pos, RootPiece(c, name), m, m2)
    ensures Delivers(c, d, RootSpot(name, base), RootPiece(c, name), i, EndsOf(c, d, c.graph[name], i), m2, m.pos, t2)
  {
    PlacedRoot(c, name, base);
    m2, t2 := FuncRuns.Enter(c, d, RootSpot(name, base), RootPiece(c, name), m.pos, i, m);
  }

  /** With no frame in the slot, entry 1 answers empty and changes nothing else. */
  lemma {:induction false} NothingToResume(prog: Program, subject: string, name: string, m: Machine)
    requires name in prog.sizes && m.stack == [] && m.outer == None
    ensures Returns(prog, subject, m, name, 1, m.(outerEmpty := true))
  {
    Runs.ReachesSelf(Stepper(prog, subject), m.(outerEmpty := true));
    assert Starts(prog, m, name, 1, m.(outerEmpty := true));
  }
}
