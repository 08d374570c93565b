/** The C functions archive/backend/emit_c.py generates, as a machine: labelled blocks of
    statements, one activation per call, and frames in the arena of archive/backend/runtime.c. */
module FuncIr {
  import opened Denotation
  import Runs

  /** Pattern nodes of archive/ir/ir.py that this model covers. */
  datatype Node =
    | Lit(s: string)
    | Len(n: int)
    | Pos(n: int)
    | Rpos(n: int)
    | Span(charset: string)
    | Cat(left: Node, right: Node)
    | Alt(left: Node, right: Node)
    | Ref(name: string)

  /** A node's identifier within its function: the function's own name, or a fresh one. */
  datatype Nid = Root | Sub(k: nat)

  datatype Port = Alpha | Beta | Lg | Lo | Rg | LiOk | RiFail | MatchOk | MatchFail

  datatype Label = Label(nid: Nid, port: Port)

  /** Fields of a frame: the arm of an alternation, whether a sequence has entered its right
      part, a saved cursor, and the frame of a referenced pattern. */
  datatype FieldKind = Arm | Entered | SavedCursor | ChildFrame

  datatype Field = Field(nid: Nid, kind: FieldKind)

  /** What a statement does to the cursor and the frame; the tests say whether to jump. */
  datatype Op =
    | SetInt(f: Field, v: int)
    | SaveDelta(f: Field)
    | LoadDelta(f: Field)
    | AddDelta(n: int)
    | ClearChild(f: Field)
    | PastEnd(n: int)
    | NotLit(s: string)
    | NotAt(n: int)
    | NotAtFromEnd(n: int)
    | IntIs(f: Field, v: int)
    | IntIsSet(f: Field)
    | SpanScan(charset: string, f: Field)
    | SpanBack(f: Field)
    | CallWasEmpty

  datatype Stmt =
    | Goto(target: Label)
    | Do(op: Op)
    | IfGoto(op: Op, target: Label)
    | Call(callee: string, f: Field, entry: nat)
    | ReturnOk
    | ReturnFail

  // ----- the machine -----

  /** A frame in the arena with its header; fields not yet written are zero. */
  datatype Frame = Frame(ints: map<Field, int>, children: map<Field, nat>, prev: Option<nat>, size: nat)

  /** Where a callee's frame pointer lives: in the caller's frame, or with the outer caller. */
  datatype Slot = OuterSlot | ChildSlot(addr: nat, f: Field)

  datatype Activation = Activation(name: string, z: nat, zz: Slot, code: seq<Stmt>, empty: bool)

  datatype Machine = Machine(stack: seq<Activation>, delta: int, pos: nat, heap: map<nat, Frame>,
                             outer: Option<nat>, outerEmpty: bool)

  type Body = map<Label, seq<Stmt>>

  /** Size of a frame's struct; a struct without fields gets a dummy one. */
  type Size = n: nat | n > 0 witness 4

  datatype Program = Program(bodies: map<string, Body>, sizes: map<string, Size>)

  const ARENA_SIZE: nat := 4 * 1024 * 1024
  const HEADER_SIZE: nat := 16

  /** Arena bytes taken by a frame: header and payload, rounded up to a multiple of 8. */
  function Total(size: nat): (t: nat)
    ensures size + 16 <= t < size + 16 + 8 && t % 8 == 0
  {
    (HEADER_SIZE + size + 7) / 8 * 8
  }

  function IntOf(fr: Frame, f: Field): int {
    if f in fr.ints then fr.ints[f] else 0
  }

  function ChildOf(fr: Frame, f: Field): Option<nat> {
    if f in fr.children then Some(fr.children[f]) else None
  }

  datatype Effect = Effect(fr: Frame, delta: int, jump: bool)

  function Apply(op: Op, subject: string, fr: Frame, delta: int, empty: bool): Effect {
    match op
    case SetInt(f, v) => Effect(fr.(ints := fr.ints[f := v]), delta, false)
    case SaveDelta(f) => Effect(fr.(ints := fr.ints[f := delta]), delta, false)
    case LoadDelta(f) => Effect(fr, IntOf(fr, f), false)
    case AddDelta(n) => Effect(fr, delta + n, false)
    case ClearChild(f) => Effect(fr.(children := fr.children - {f}), delta, false)
    case PastEnd(n) => Effect(fr, delta, delta + n > |subject|)
    case NotLit(s) => Effect(fr, delta, !(0 <= delta && HasAt(subject, delta, s)))
    case NotAt(n) => Effect(fr, delta, delta != n)
    case NotAtFromEnd(n) => Effect(fr, delta, delta != |subject| - n)
    case IntIs(f, v) => Effect(fr, delta, IntOf(fr, f) == v)
    case IntIsSet(f) => Effect(fr, delta, IntOf(fr, f) != 0)
    case SpanScan(charset, f) =>
      if 0 <= delta <= |subject| && RunEnd(subject, charset, delta) > delta then
        Effect(fr.(ints := fr.ints[f := delta]), RunEnd(subject, charset, delta), false)
      else Effect(fr, delta, true)
    case SpanBack(f) =>
      if delta <= IntOf(fr, f) + 1 then Effect(fr, IntOf(fr, f), true) else Effect(fr, delta, false)
    case CallWasEmpty => Effect(fr, delta, empty)
  }

  function ReadSlot(m: Machine, zz: Slot): Option<nat> {
    match zz
    case OuterSlot => m.outer
    case ChildSlot(addr, f) => if addr in m.heap then ChildOf(m.heap[addr], f) else None
  }

  function WriteSlot(m: Machine, zz: Slot, ptr: Option<nat>): Machine {
    match zz
    case OuterSlot => m.(outer := ptr)
    case ChildSlot(addr, f) =>
      if addr !in m.heap then m
      else
        var fr := m.heap[addr];
        m.(heap := m.heap[addr := fr.(children := if ptr.Some? then fr.children[f := ptr.value]
            else fr.children - {f})])
  }

  /** ENTER_fn: a zeroed frame on top of the arena, stored in the slot. None aborts the program. */
  function Enter(m: Machine, zz: Slot, size: nat): Option<Machine> {
    if m.pos + Total(size) > ARENA_SIZE then None
    else
      var addr := m.pos + HEADER_SIZE;
      var fr := Frame(map[], map[], ReadSlot(m, zz), size);
      Some(WriteSlot(m.(heap := m.heap[addr := fr], pos := m.pos + Total(size)), zz, Some(addr)))
  }

  /** EXIT_fn: the slot gets the previous frame back and the arena shrinks by the frame's size. */
  function Exit(m: Machine, zz: Slot): Machine {
    var ptr := ReadSlot(m, zz);
    if ptr.None? || ptr.value !in m.heap then m
    else
      var fr := m.heap[ptr.value];
      var m' := WriteSlot(m, zz, fr.prev);
      m'.(pos := if m.pos >= Total(fr.size) then m.pos - Total(fr.size) else 0)
  }

  function BlockAt(prog: Program, name: string, l: Label): Option<seq<Stmt>> {
    if name in prog.bodies && l in prog.bodies[name] then Some(prog.bodies[name][l]) else None
  }

  function Top(m: Machine): Activation
    requires m.stack != []
  {
    m.stack[|m.stack| - 1]
  }

  function WithTop(m: Machine, act: Activation): Machine
    requires m.stack != []
  {
    m.(stack := m.stack[..|m.stack| - 1] + [act])
  }

  function Jump(prog: Program, m: Machine, l: Label): Option<Machine>
    requires m.stack != []
  {
    var block := BlockAt(prog, Top(m).name, l);
    if block.None? then None else Some(WithTop(m, Top(m).(code := block.value)))
  }

  function Push(prog: Program, m: Machine, name: string, zz: Slot, z: nat, port: Port): Option<Machine> {
    var block := BlockAt(prog, name, Label(Root, port));
    if block.None? then None else Some(m.(stack := m.stack + [Activation(name, z, zz, block.value, false)]))
  }

  /** Tells the caller, or the outer caller, whether the callee returned the empty result. */
  function Answer(m: Machine, empty: bool): Machine {
    if m.stack == [] then m.(outerEmpty := empty) else WithTop(m, Top(m).(empty := empty))
  }

  /** The call of a generated function: entry 0 allocates a frame, entry 1 resumes the one in the slot. */
  function Invoke(prog: Program, m: Machine, name: string, zz: Slot, entry: nat): Option<Machine> {
    if name !in prog.sizes then None
    else if entry == 0 then
      var entered := Enter(m, zz, prog.sizes[name]);
      if entered.None? then None else Push(prog, entered.value, name, zz, m.pos + HEADER_SIZE, Alpha)
    else
      var ptr := ReadSlot(m, zz);
      if ptr.None? then Some(Answer(m, true)) else Push(prog, m, name, zz, ptr.value, Beta)
  }

  /** Executes one statement. None: the outermost call has returned, or the program is stuck or aborted. */
  function Step(prog: Program, subject: string, m: Machine): Option<Machine> {
    if m.stack == [] || Top(m).code == [] || Top(m).z !in m.heap then None
    else
      var act := Top(m);
      var next := WithTop(m, act.(code := act.code[1..]));
      match act.code[0]
      case Goto(l) => Jump(prog, m, l)
      case Do(op) =>
        var e := Apply(op, subject, m.heap[act.z], m.delta, act.empty);
        Some(next.(heap := m.heap[act.z := e.fr], delta := e.delta))
      case IfGoto(op, l) =>
        var e := Apply(op, subject, m.heap[act.z], m.delta, act.empty);
        var done := next.(heap := m.heap[act.z := e.fr], delta := e.delta);
        if e.jump then Jump(prog, done, l) else Some(done)
      case Call(callee, f, entry) => Invoke(prog, next, callee, ChildSlot(act.z, f), entry)
      case ReturnOk => Some(Answer(m.(stack := m.stack[..|m.stack| - 1]), false))
      case ReturnFail => Some(Answer(Exit(m, act.zz).(stack := m.stack[..|m.stack| - 1]), true))
  }

  function Stepper(prog: Program, subject: string): Runs.Stepper<Machine> {
    m => Step(prog, subject, m)
  }

  ghost predicate Reaches(prog: Program, subject: string, m: Machine, m': Machine) {
    Runs.Reaches(Stepper(prog, subject), m, m')
  }
}
