/** The Java switch machine archive/backend/emit_jvm.py generates: labels become state
    numbers, slots become int locals that hold an index into the slot's targets. */
module Jvm {
  import opened Labels
  import opened ByrdIr
  import Denotation

  /** The statements of a case, one for each IR instruction. */
  datatype JInsn =
    | JGoto(state: nat)
    | JSwitch(local: string, states: seq<nat>)
    | JSet(local: string, value: int)
    | JLit(s: string, n: nat, gamma: nat, omega: nat)
    | JLitBack(n: nat, omega: nat)
    | JPos(pos: int, gamma: nat, omega: nat)
    | JRpos(pos: int, gamma: nat, omega: nat)
    | JChar(charset: string, wanted: bool, gamma: nat, omega: nat)
    | JCharBack(omega: nat)

  datatype Case = Case(id: nat, stmts: seq<JInsn>)

  datatype JState = JState(state: nat, delta: int, locals: map<string, int>)

  datatype JProgram = JProgram(cases: seq<Case>, locals: map<string, int>, root: nat, success: nat, failure: nat)

  // ----- running a generated program -----

  /** Runs the statements of a case up to the `continue` that ends it; None is an exception. */
  function JBlock(subject: string, stmts: seq<JInsn>, j: JState): Denotation.Option<JState> {
    if stmts == [] then Denotation.None
    else
      match stmts[0]
      case JGoto(state) => Denotation.Some(j.(state := state))
      case JSwitch(local, states) =>
        if local in j.locals && 0 <= j.locals[local] < |states|
            then Denotation.Some(j.(state := states[j.locals[local]]))
        else Denotation.None
      case JSet(local, value) => JBlock(subject, stmts[1..], j.(locals := j.locals[local := value]))
      case JLit(s, n, gamma, omega) =>
        Denotation.Some(if LitHolds(subject, j.delta, s, n) then j.(state := gamma, delta := j.delta + n)
            else j.(state := omega))
      case JLitBack(n, omega) => Denotation.Some(j.(state := omega, delta := j.delta - n))
      case JPos(pos, gamma, omega) => Denotation.Some(j.(state := if j.delta == pos then gamma else omega))
      case JRpos(pos, gamma, omega) => Denotation.Some(j.(state := if j.delta == |subject| - pos then gamma else omega))
      case JChar(charset, wanted, gamma, omega) =>
        Denotation.Some(if CharIn(subject, j.delta, charset, wanted) then j.(state := gamma, delta := j.delta + 1)
            else j.(state := omega))
      case JCharBack(omega) => Denotation.Some(j.(state := omega, delta := j.delta - 1))
  }

  function FindCase(cases: seq<Case>, id: nat): Denotation.Option<seq<JInsn>> {
    if cases == [] then Denotation.None
    else if cases[0].id == id then Denotation.Some(cases[0].stmts)
    else FindCase(cases[1..], id)
  }

  // ----- encoding -----

  function JavaChar(c: char): char {
    if c == '-' || c == '.' then '_'
    else if c == 'α' then 'a'
    else if c == 'β' then 'b'
    else if c == 'γ' then 'g'
    else if c == 'ω' then 'o'
    else c
  }

  /** The Java identifier of a slot. */
  function JavaId(name: string): (r: string)
    ensures |r| == |name| && forall k :: 0 <= k < |r| ==> r[k] == JavaChar(name[k])
  {
    seq(|name|, k requires 0 <= k < |name| => JavaChar(name[k]))
  }

  /** Renaming keeps the counter a name ends in. */
  lemma {:induction false} JavaIdKeepsSerial(name: string)
    ensures Serial(JavaId(name)) == Serial(name)
    decreases |name|
  {
    if name != [] {
      var init := name[..|name| - 1];
      JavaIdKeepsSerial(init);
      assert JavaId(name)[..|name| - 1] == JavaId(init);
    }
  }

  type LabelIds = map<Label, nat>
  type Targets = map<TmpLabel, seq<Label>>

  function IndexOf(ts: seq<Label>, l: Label): (i: int)
    ensures -1 <= i < |ts|
    ensures i >= 0 ==> ts[i] == l
    ensures l in ts <==> i >= 0
  {
    if ts == [] then -1
    else if ts[0] == l then 0
    else
      var i := IndexOf(ts[1..], l);
      if i < 0 then -1 else i + 1
  }

  function TargetsOf(tt: Targets, slot: TmpLabel): seq<Label> {
    if slot in tt then tt[slot] else []
  }

  /** The labels an instruction mentions have state numbers. */
  predicate Known(insn: Insn, ids: LabelIds, tt: Targets) {
    match insn
    case Goto(target) => target in ids
    case IndirectGoto(slot) => var ts := TargetsOf(tt, slot); forall k :: 0 <= k < |ts| ==> ts[k] in ids
    case MoveLabel(_, _) => true
    case LitCheck(_, _, gamma, omega) => gamma in ids && omega in ids
    case LitRetreat(_, omega) => omega in ids
    case PosCheck(_, gamma, omega) => gamma in ids && omega in ids
    case RposCheck(_, gamma, omega) => gamma in ids && omega in ids
    case AnyCheck(_, gamma, omega) => gamma in ids && omega in ids
    case AnyRetreat(omega) => omega in ids
    case NotanyCheck(_, gamma, omega) => gamma in ids && omega in ids
    case NotanyRetreat(omega) => omega in ids
  }

  function IdsOf(ts: seq<Label>, ids: LabelIds): (r: seq<nat>)
    requires forall k :: 0 <= k < |ts| ==> ts[k] in ids
    ensures |r| == |ts| && forall k :: 0 <= k < |ts| ==> r[k] == ids[ts[k]]
  {
    seq(|ts|, k requires 0 <= k < |ts| => ids[ts[k]])
  }

  function Encode(insn: Insn, ids: LabelIds, tt: Targets): JInsn
    requires Known(insn, ids, tt)
  {
    match insn
    case Goto(target) => JGoto(ids[target])
    case IndirectGoto(slot) => JSwitch(JavaId(slot), IdsOf(TargetsOf(tt, slot), ids))
    case MoveLabel(slot, src) => JSet(JavaId(slot), IndexOf(TargetsOf(tt, slot), src))
    case LitCheck(s, n, gamma, omega) => JLit(s, n, ids[gamma], ids[omega])
    case LitRetreat(n, omega) => JLitBack(n, ids[omega])
    case PosCheck(pos, gamma, omega) => JPos(pos, ids[gamma], ids[omega])
    case RposCheck(pos, gamma, omega) => JRpos(pos, ids[gamma], ids[omega])
    case AnyCheck(cs, gamma, omega) => JChar(cs, true, ids[gamma], ids[omega])
    case AnyRetreat(omega) => JCharBack(ids[omega])
    case NotanyCheck(cs, gamma, omega) => JChar(cs, false, ids[gamma], ids[omega])
    case NotanyRetreat(omega) => JCharBack(ids[omega])
  }

  predicate AllKnown(insns: seq<Insn>, ids: LabelIds, tt: Targets) {
    forall k :: 0 <= k < |insns| ==> Known(insns[k], ids, tt)
  }

  function EncodeAll(insns: seq<Insn>, ids: LabelIds, tt: Targets): (r: seq<JInsn>)
    requires AllKnown(insns, ids, tt)
    ensures |r| == |insns| && forall k :: 0 <= k < |insns| ==> r[k] == Encode(insns[k], ids, tt)
  {
    seq(|insns|, k requires 0 <= k < |insns| => Encode(insns[k], ids, tt))
  }

  /** Case `c` is the chunk `ch` under this numbering. */
  predicate Encodes(ch: Chunk, c: Case, ids: LabelIds, tt: Targets) {
    ch.name in ids && c.id == ids[ch.name] && AllKnown(ch.insns, ids, tt) && c.stmts == EncodeAll(ch.insns, ids, tt)
  }

  predicate Injective(ids: LabelIds) {
    forall l, l' :: l in ids && l' in ids && ids[l] == ids[l'] ==> l == l'
  }

  predicate Extends(ids: LabelIds, ids': LabelIds) {
    forall l :: l in ids ==> l in ids' && ids'[l] == ids[l]
  }

  /** Numbering more labels later does not disturb what is already encoded. */
  lemma EncodesStable(ch: Chunk, c: Case, ids: LabelIds, ids': LabelIds, tt: Targets)
    requires Encodes(ch, c, ids, tt) && Extends(ids, ids')
    ensures Encodes(ch, c, ids', tt)
  {
    forall k | 0 <= k < |ch.insns|
      ensures Known(ch.insns[k], ids', tt) && Encode(ch.insns[k], ids', tt) == Encode(ch.insns[k], ids, tt)
    {
      assert Known(ch.insns[k], ids, tt);
      EncodeStable(ch.insns[k], ids, ids', tt);
    }
    assert EncodeAll(ch.insns, ids', tt) == EncodeAll(ch.insns, ids, tt);
  }

  lemma EncodeStable(insn: Insn, ids: LabelIds, ids': LabelIds, tt: Targets)
    requires Known(insn, ids, tt) && Extends(ids, ids')
    ensures Known(insn, ids', tt) && Encode(insn, ids', tt) == Encode(insn, ids, tt)
  {
    if insn.IndirectGoto? {
      assert IdsOf(TargetsOf(tt, insn.slot), ids') == IdsOf(TargetsOf(tt, insn.slot), ids);
    }
  }

  // ----- the bisimulation -----

  /** Each slot's local is named apart from the others. */
  predicate NamedApart(tt: Targets) {
    forall t, t' :: t in tt && t' in tt && JavaId(t) == JavaId(t') ==> t == t'
  }

  /** Every label an instruction stores is among the targets of its slot. */
  predicate StoresCovered(insns: seq<Insn>, tt: Targets) {
    forall k :: 0 <= k < |insns| && insns[k].MoveLabel? ==>
      insns[k].slot in tt && insns[k].src in tt[insns[k].slot]
  }

  predicate SlotsMirrored(slots: map<TmpLabel, Label>, locals: map<string, int>, tt: Targets) {
    && (forall t :: t in tt ==>
          JavaId(t) in locals && locals[JavaId(t)] == if t in slots then IndexOf(tt[t], slots[t]) else -1)
    && (forall t :: t in slots ==> t in tt && slots[t] in tt[t])
  }

  /** The Java state stands for the label machine's state. */
  predicate Mirrors(m: Machine, j: JState, ids: LabelIds, tt: Targets) {
    m.pc in ids && j.state == ids[m.pc] && j.delta == m.delta && SlotsMirrored(m.slots, j.locals, tt)
  }

  /** Both machines stop, or both go on and still stand for each other. */
  predicate BothOrNeither(m: Denotation.Option<Machine>, j: Denotation.Option<JState>, ids: LabelIds, tt: Targets) {
    (m.None? && j.None?) || (m.Some? && j.Some? && Mirrors(m.value, j.value, ids, tt))
  }

  lemma StoreMirrored(slots: map<TmpLabel, Label>, locals: map<string, int>, tt: Targets, slot: TmpLabel, src: Label)
    requires SlotsMirrored(slots, locals, tt) && NamedApart(tt) && slot in tt && src in tt[slot]
    ensures SlotsMirrored(slots[slot := src], locals[JavaId(slot) := IndexOf(tt[slot], src)], tt)
  {
  }

  /** A block and its case take the same step. */
  lemma {:induction false} BlocksAgree(subject: string, insns: seq<Insn>, m: Machine, j: JState, ids: LabelIds,
      tt: Targets)
    requires AllKnown(insns, ids, tt) && NamedApart(tt) && StoresCovered(insns, tt) && Mirrors(m, j, ids, tt)
    ensures BothOrNeither(Block(subject, insns, m), JBlock(subject, EncodeAll(insns, ids, tt), j), ids, tt)
    decreases |insns|
  {
    if insns != [] {
      assert Known(insns[0], ids, tt);
      var stmts := EncodeAll(insns, ids, tt);
      if insns[0].MoveLabel? {
        var slot, src := insns[0].slot, insns[0].src;
        StoreMirrored(m.slots, j.locals, tt, slot, src);
        assert stmts[1..] == EncodeAll(insns[1..], ids, tt);
        BlocksAgree(subject, insns[1..], m.(slots := m.slots[slot := src]),
                    j.(locals := j.locals[JavaId(slot) := IndexOf(tt[slot], src)]), ids, tt);
      } else {
        JumpsAgree(subject, insns, m, j, ids, tt);
      }
    }
  }

  lemma JumpsAgree(subject: string, insns: seq<Insn>, m: Machine, j: JState, ids: LabelIds, tt: Targets)
    requires insns != [] && !insns[0].MoveLabel? && AllKnown(insns, ids, tt) && Mirrors(m, j, ids, tt)
    ensures BothOrNeither(Block(subject, insns, m), JBlock(subject, EncodeAll(insns, ids, tt), j), ids, tt)
  {
    assert Known(insns[0], ids, tt);
    assert EncodeAll(insns, ids, tt)[0] == Encode(insns[0], ids, tt);
  }
}
