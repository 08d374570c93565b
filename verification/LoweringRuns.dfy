/** Running the lowered blocks: entry at alpha, resumption at beta. */
module LoweringRuns {
  import opened Labels
  import opened ByrdIr
  import opened Lowering
  import opened LoweringProof
  import Runs

  lemma OneStep(code: Code, s: string, m: Machine, insns: seq<Insn>) returns (m': Machine)
    requires Has(code, m.pc, insns) && Block(s, insns, m).Some?
    ensures m' == Block(s, insns, m).value && Reaches(code, s, m, m')
  {
    m' := Block(s, insns, m).value;
    Runs.ReachesStep(Stepper(code, s), m, m');
  }

  /** From `m` the code gets to `m'`, and on the way changes only slots owned between `lo` and `hi`. */
  ghost predicate Goes(code: Code, s: string, m: Machine, m': Machine, lo: nat, hi: nat) {
    Reaches(code, s, m, m') && OnlyOwned(m.slots, m'.slots, lo, hi)
  }

  lemma GoesThen(code: Code, s: string, a: Machine, b: Machine, c: Machine,
                 lo: nat, hi: nat, lo': nat, hi': nat, lo'': nat, hi'': nat)
    requires Goes(code, s, a, b, lo, hi) && Goes(code, s, b, c, lo', hi')
    requires lo'' <= lo && hi <= hi'' && lo'' <= lo' && hi' <= hi''
    ensures Goes(code, s, a, c, lo'', hi'')
  {
    Runs.ReachesTransitive(Stepper(code, s), a, b, c);
  }

  lemma FirstOf(list: seq<nat>, more: seq<nat>)
    requires list != []
    ensures list + more != [] && (list + more)[0] == list[0] && (list + more)[1..] == list[1..] + more
  {
  }

  lemma NoneOf(more: seq<nat>)
    ensures [] + more == more
  {
  }

  predicate IsPrimitive(node: Node) {
    !node.Seq? && !node.Alt?
  }

  // ----- primitives -----

  lemma EnterPrimitive(code: Code, s: string, node: Node, a: Label, b: Label, g: Label, o: Label, k: nat, i: nat,
      m: Machine)
    returns (m': Machine)
    requires IsPrimitive(node) && Wired(code, node, a, b, g, o, k) && AsciiLits(node)
    requires i <= |s| && m.pc == a && m.delta == i
    ensures Reaches(code, s, m, m') && m'.slots == m.slots
    ensures Delivers(s, node, a, g, o, k, i, Results(s, node, i), m', AtLeaf)
  {
    if node.Lit? {
      Utf8LenOfAscii(node.s);
    }
    m' := OneStep(code, s, m, code[a]);
  }

  lemma ResumePrimitive(code: Code, s: string, node: Node, a: Label, b: Label, g: Label, o: Label, k: nat,
                        i: nat, e: nat, rest: seq<nat>, trail: Trail, m: Machine)
    returns (m': Machine)
    requires IsPrimitive(node) && Wired(code, node, a, b, g, o, k)
    requires Suspended(s, node, a, k, i, e, rest, m.slots, trail) && m.pc == b && m.delta == e
    ensures Reaches(code, s, m, m') && m'.slots == m.slots
    ensures Delivers(s, node, a, g, o, k, i, rest, m', trail)
  {
    m' := OneStep(code, s, m, code[b]);
  }

  // ----- any node -----

  /** Entered at alpha, a node delivers the first of its ends, or fails with the cursor unmoved. */
  lemma {:induction false} Enter(code: Code, s: string, node: Node, a: Label, b: Label, g: Label, o: Label, k: nat,
      i: nat, m: Machine)
    returns (m': Machine, trail: Trail)
    requires Wired(code, node, a, b, g, o, k) && AsciiLits(node)
    requires i <= |s| && m.pc == a && m.delta == i
    ensures Goes(code, s, m, m', k, Next(node, k))
    ensures Delivers(s, node, a, g, o, k, i, Results(s, node, i), m', trail)
    decreases node, 2, 0
  {
    if IsPrimitive(node) {
      m' := EnterPrimitive(code, s, node, a, b, g, o, k, i, m);
      trail := AtLeaf;
    } else if node.Seq? {
      m', trail := EnterSeq(code, s, node, a, b, g, o, k, i, m);
    } else {
      m', trail := EnterAlt(code, s, node, a, b, g, o, k, i, m);
    }
  }

  /** Resumed at beta, a node delivers the next of its ends, or fails with the cursor where it was entered. */
  lemma {:induction false} Resume(code: Code, s: string, node: Node, a: Label, b: Label, g: Label, o: Label, k: nat,
                                  i: nat, e: nat, rest: seq<nat>, trail: Trail, m: Machine)
    returns (m': Machine, trail': Trail)
    requires Wired(code, node, a, b, g, o, k) && AsciiLits(node) && i <= |s|
    requires Suspended(s, node, a, k, i, e, rest, m.slots, trail) && m.pc == b && m.delta == e
    ensures Goes(code, s, m, m', k, Next(node, k))
    ensures Delivers(s, node, a, g, o, k, i, rest, m', trail')
    decreases node, 2, 0
  {
    if IsPrimitive(node) {
      m' := ResumePrimitive(code, s, node, a, b, g, o, k, i, e, rest, trail, m);
      trail' := trail;
    } else if node.Seq? {
      m', trail' := ResumeSeq(code, s, node, a, b, g, o, k, i, e, rest, trail, m);
    } else {
      m', trail' := ResumeAlt(code, s, node, a, b, g, o, k, i, e, rest, trail, m);
    }
  }

  // ----- sequences -----

  lemma {:induction false} EnterSeq(code: Code, s: string, node: Node, a: Label, b: Label, g: Label, o: Label, k: nat,
      i: nat, m: Machine)
    returns (m': Machine, trail: Trail)
    requires node.Seq? && Wired(code, node, a, b, g, o, k) && AsciiLits(node)
    requires i <= |s| && m.pc == a && m.delta == i
    ensures Goes(code, s, m, m', k, Next(node, k))
    ensures Delivers(s, node, a, g, o, k, i, Results(s, node, i), m', trail)
    decreases node, 1, 0
  {
    var p := SeqPortsOf(a, k);
    var m1 := OneStep(code, s, m, [Goto(p.la)]);
    var m2, t2 := Enter(code, s, node.left, p.la, p.lb, p.ra, o, k + 4, i, m1);
    GoesThen(code, s, m, m1, m2, k, k, k + 4, Next(node.left, k + 4), k, Next(node, k));
    ResultsOfSeq(s, node.left, node.right, i);
    m', trail := GoOnRight(code, s, node, a, b, g, o, k, i, Results(s, node.left, i), t2, m2);
    GoesThen(code, s, m, m2, m', k, Next(node, k), k, Next(node, k), k, Next(node, k));
  }

  /** The left part has delivered the first of `list`: the right part is tried from each
      cursor of `list` in turn. */
  lemma {:induction false} GoOnRight(code: Code, s: string, node: Node, a: Label, b: Label, g: Label, o: Label, k: nat,
                                     i: nat, list: seq<nat>, left: Trail, m: Machine)
    returns (m': Machine, trail: Trail)
    requires node.Seq? && Wired(code, node, a, b, g, o, k) && AsciiLits(node) && i <= |s| && AllWithin(list, |s|)
    requires var p := SeqPortsOf(a, k); Delivers(s, node.left, p.la, p.ra, o, k + 4, i, list, m, left)
    ensures Goes(code, s, m, m', k, Next(node, k))
    ensures Delivers(s, node, a, g, o, k, i, Chain(s, node.right, list), m', trail)
    decreases node, 0, |list|, 1
  {
    var p := SeqPortsOf(a, k);
    var kr := Next(node.left, k + 4);
    if list == [] {
      m', trail := m, left;
      Runs.ReachesSelf(Stepper(code, s), m);
    } else {
      var c, restL := list[0], list[1..];
      var m1, t1 := Enter(code, s, node.right, p.ra, p.rb, g, p.lb, kr, c, m);
      SuspendedFrame(s, node.left, p.la, k + 4, i, c, restL, m.slots, left, m1.slots, kr, Next(node.right, kr));
      m', trail := LeavePair(code, s, node, a, b, g, o, k, i, c, restL, Results(s, node.right, c), left, t1, m1);
      GoesThen(code, s, m, m1, m', kr, Next(node.right, kr), k, Next(node, k), k, Next(node, k));
    }
  }

  /** The right part, entered at `c`, has delivered the first of `restR`, or has none left
      and the left part is resumed. */
  lemma {:induction false} LeavePair(code: Code, s: string, node: Node, a: Label, b: Label, g: Label, o: Label, k: nat,
                                     i: nat, c: nat, restL: seq<nat>, restR: seq<nat>, left: Trail, right: Trail,
                                         m: Machine)
    returns (m': Machine, trail: Trail)
    requires node.Seq? && Wired(code, node, a, b, g, o, k) && AsciiLits(node)
    requires i <= |s| && c <= |s| && AllWithin(restL, |s|)
    requires var p := SeqPortsOf(a, k);
             && Suspended(s, node.left, p.la, k + 4, i, c, restL, m.slots, left)
             && Delivers(s, node.right, p.ra, g, p.lb, Next(node.left, k + 4), c, restR, m, right)
    ensures Goes(code, s, m, m', k, Next(node, k))
    ensures Delivers(s, node, a, g, o, k, i, restR + Chain(s, node.right, restL), m', trail)
    decreases node, 0, |restL| + 1, 0
  {
    var p := SeqPortsOf(a, k);
    if restR == [] {
      var m1, t1 := Resume(code, s, node.left, p.la, p.lb, p.ra, o, k + 4, i, c, restL, left, m);
      m', trail := GoOnRight(code, s, node, a, b, g, o, k, i, restL, t1, m1);
      GoesThen(code, s, m, m1, m', k + 4, Next(node.left, k + 4), k, Next(node, k), k, Next(node, k));
      NoneOf(Chain(s, node.right, restL));
    } else {
      m', trail := m, InSeq(c, restL, restR[1..], left, right);
      Runs.ReachesSelf(Stepper(code, s), m);
      SuspendInSeq(s, node, a, k, i, restR[0], m.slots, trail);
      FirstOf(restR, Chain(s, node.right, restL));
    }
  }

  lemma {:induction false} ResumeSeq(code: Code, s: string, node: Node, a: Label, b: Label, g: Label, o: Label, k: nat,
                                     i: nat, e: nat, rest: seq<nat>, trail: Trail, m: Machine)
    returns (m': Machine, trail': Trail)
    requires node.Seq? && Wired(code, node, a, b, g, o, k) && AsciiLits(node) && i <= |s|
    requires Suspended(s, node, a, k, i, e, rest, m.slots, trail) && m.pc == b && m.delta == e
    ensures Goes(code, s, m, m', k, Next(node, k))
    ensures Delivers(s, node, a, g, o, k, i, rest, m', trail')
    decreases node, 1, 0
  {
    var p := SeqPortsOf(a, k);
    var kr := Next(node.left, k + 4);
    var m1 := OneStep(code, s, m, [Goto(p.rb)]);
    var m2, t2 := Resume(code, s, node.right, p.ra, p.rb, g, p.lb, kr, trail.m, e, trail.restR, trail.right, m1);
    GoesThen(code, s, m, m1, m2, k, k, kr, Next(node.right, kr), k, Next(node, k));
    SuspendedFrame(s, node.left, p.la, k + 4, i, trail.m, trail.restL, m.slots, trail.left, m2.slots, kr,
        Next(node.right, kr));
    m', trail' := LeavePair(code, s, node, a, b, g, o, k, i, trail.m, trail.restL, trail.restR, trail.left, t2, m2);
    GoesThen(code, s, m, m2, m', k, Next(node, k), k, Next(node, k), k, Next(node, k));
  }

  // ----- alternations -----

  /** The handler of an arm that succeeded: note where to resume, then go to gamma. */
  lemma NoteArm(code: Code, s: string, m: Machine, slot: TmpLabel, arm: Label, g: Label, k: nat) returns (m': Machine)
    requires Has(code, m.pc, [MoveLabel(slot, arm), Goto(g)]) && Serial(slot) == k + 1
    ensures m' == m.(pc := g, slots := m.slots[slot := arm]) && Goes(code, s, m, m', k, k + 1)
  {
    var insns := [MoveLabel(slot, arm), Goto(g)];
    assert insns[1..] == [Goto(g)];
    m' := OneStep(code, s, m, insns);
  }

  lemma {:induction false} EnterAlt(code: Code, s: string, node: Node, a: Label, b: Label, g: Label, o: Label, k: nat,
      i: nat, m: Machine)
    returns (m': Machine, trail: Trail)
    requires node.Alt? && Wired(code, node, a, b, g, o, k) && AsciiLits(node)
    requires i <= |s| && m.pc == a && m.delta == i
    ensures Goes(code, s, m, m', k, Next(node, k))
    ensures Delivers(s, node, a, g, o, k, i, Results(s, node, i), m', trail)
    decreases node, 1, 0
  {
    var p := AltPortsOf(a, k);
    var m1 := OneStep(code, s, m, [Goto(p.la)]);
    var m2, t2 := Enter(code, s, node.left, p.la, p.lb, p.lg, p.ra, k + 7, i, m1);
    GoesThen(code, s, m, m1, m2, k, k, k + 7, Next(node.left, k + 7), k, Next(node, k));
    ResultsOfAlt(s, node.left, node.right, i);
    m', trail := LeaveLeft(code, s, node, a, b, g, o, k, i, Results(s, node.left, i), t2, m2);
    GoesThen(code, s, m, m2, m', k, Next(node, k), k, Next(node, k), k, Next(node, k));
  }

  /** The left arm has delivered the first of `list`, or has none left and the right arm is entered. */
  lemma {:induction false} LeaveLeft(code: Code, s: string, node: Node, a: Label, b: Label, g: Label, o: Label, k: nat,
                                     i: nat, list: seq<nat>, left: Trail, m: Machine)
    returns (m': Machine, trail: Trail)
    requires node.Alt? && Wired(code, node, a, b, g, o, k) && AsciiLits(node) && i <= |s|
    requires var p := AltPortsOf(a, k); Delivers(s, node.left, p.la, p.lg, p.ra, k + 7, i, list, m, left)
    ensures Goes(code, s, m, m', k, Next(node, k))
    ensures Delivers(s, node, a, g, o, k, i, list + Results(s, node.right, i), m', trail)
    decreases node, 0, 0
  {
    var p := AltPortsOf(a, k);
    var kr := Next(node.left, k + 7);
    if list == [] {
      var m1, t1 := Enter(code, s, node.right, p.ra, p.rb, p.rg, o, kr, i, m);
      m', trail := LeaveRight(code, s, node, a, b, g, o, k, i, Results(s, node.right, i), t1, m1);
      GoesThen(code, s, m, m1, m', kr, Next(node.right, kr), k, Next(node, k), k, Next(node, k));
      NoneOf(Results(s, node.right, i));
    } else {
      m', trail := NoteLeft(code, s, node, a, b, g, o, k, i, list, left, m);
    }
  }

  lemma NoteLeft(code: Code, s: string, node: Node, a: Label, b: Label, g: Label, o: Label, k: nat,
                 i: nat, list: seq<nat>, left: Trail, m: Machine)
    returns (m': Machine, trail: Trail)
    requires node.Alt? && Wired(code, node, a, b, g, o, k) && i <= |s| && list != []
    requires var p := AltPortsOf(a, k); Delivers(s, node.left, p.la, p.lg, p.ra, k + 7, i, list, m, left)
    ensures Goes(code, s, m, m', k, Next(node, k))
    ensures Delivers(s, node, a, g, o, k, i, list + Results(s, node.right, i), m', trail)
  {
    var p := AltPortsOf(a, k);
    m' := NoteArm(code, s, m, p.slot, p.lb, g, k);
    trail := InLeft(list[1..], left);
    SuspendedFrame(s, node.left, p.la, k + 7, i, list[0], list[1..], m.slots, left, m'.slots, k, k + 1);
    SuspendInLeft(s, node, a, k, i, list[0], m'.slots, trail);
    FirstOf(list, Results(s, node.right, i));
  }

  lemma LeaveRight(code: Code, s: string, node: Node, a: Label, b: Label, g: Label, o: Label, k: nat,
                   i: nat, list: seq<nat>, right: Trail, m: Machine)
    returns (m': Machine, trail: Trail)
    requires node.Alt? && Wired(code, node, a, b, g, o, k) && i <= |s|
    requires var p := AltPortsOf(a, k); Delivers(s, node.right, p.ra, p.rg, o, Next(node.left, k + 7), i, list, m,
        right)
    ensures Goes(code, s, m, m', k, Next(node, k))
    ensures Delivers(s, node, a, g, o, k, i, list, m', trail)
  {
    var p := AltPortsOf(a, k);
    if list == [] {
      m', trail := m, right;
      Runs.ReachesSelf(Stepper(code, s), m);
    } else {
      m' := NoteArm(code, s, m, p.slot, p.rb, g, k);
      trail := InRight(right);
      SuspendedFrame(s, node.right, p.ra, Next(node.left, k + 7), i, list[0], list[1..], m.slots, right, m'.slots, k,
          k + 1);
      SuspendInRight(s, node, a, k, i, list[0], list[1..], m'.slots, trail);
    }
  }

  lemma {:induction false} ResumeAlt(code: Code, s: string, node: Node, a: Label, b: Label, g: Label, o: Label, k: nat,
                                     i: nat, e: nat, rest: seq<nat>, trail: Trail, m: Machine)
    returns (m': Machine, trail': Trail)
    requires node.Alt? && Wired(code, node, a, b, g, o, k) && AsciiLits(node) && i <= |s|
    requires Suspended(s, node, a, k, i, e, rest, m.slots, trail) && m.pc == b && m.delta == e
    ensures Goes(code, s, m, m', k, Next(node, k))
    ensures Delivers(s, node, a, g, o, k, i, rest, m', trail')
    decreases node, 1, 0
  {
    var p := AltPortsOf(a, k);
    var kr := Next(node.left, k + 7);
    var m1 := OneStep(code, s, m, [IndirectGoto(p.slot)]);
    var m2, t2;
    if trail.InLeft? {
      m2, t2 := Resume(code, s, node.left, p.la, p.lb, p.lg, p.ra, k + 7, i, e, trail.restL, trail.left, m1);
      GoesThen(code, s, m, m1, m2, k, k, k + 7, kr, k, Next(node, k));
      m', trail' := LeaveLeft(code, s, node, a, b, g, o, k, i, trail.restL, t2, m2);
    } else {
      m2, t2 := Resume(code, s, node.right, p.ra, p.rb, p.rg, o, kr, i, e, rest, trail.right, m1);
      GoesThen(code, s, m, m1, m2, k, k, kr, Next(node.right, kr), k, Next(node, k));
      m', trail' := LeaveRight(code, s, node, a, b, g, o, k, i, rest, t2, m2);
    }
    GoesThen(code, s, m, m2, m', k, Next(node, k), k, Next(node, k), k, Next(node, k));
  }
}
