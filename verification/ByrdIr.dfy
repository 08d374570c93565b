/** The four-port IR of archive/ir/byrd_ir.py and what its instructions do, as
    archive/backend/emit_jvm.py expands them. */
module ByrdIr {
  import Denotation
  import Runs

  /** Pattern nodes of the modelled fragment. */
  datatype Node =
    | Lit(s: string)
    | Any(charset: string)
    | Notany(charset: string)
    | Pos(n: int)
    | Rpos(n: int)
    | Seq(left: Node, right: Node)
    | Alt(left: Node, right: Node)

  type Label = string
  type TmpLabel = string

  datatype Insn =
    | Goto(target: Label)
    | IndirectGoto(slot: TmpLabel)
    | MoveLabel(slot: TmpLabel, src: Label)
    | LitCheck(s: string, n: nat, gamma: Label, omega: Label)
    | LitRetreat(n: nat, omega: Label)
    | PosCheck(pos: int, gamma: Label, omega: Label)
    | RposCheck(pos: int, gamma: Label, omega: Label)
    | AnyCheck(charset: string, gamma: Label, omega: Label)
    | AnyRetreat(omega: Label)
    | NotanyCheck(charset: string, gamma: Label, omega: Label)
    | NotanyRetreat(omega: Label)

  datatype Chunk = Chunk(name: Label, insns: seq<Insn>)

  /** Length of a string in UTF-8, which is how long the lowering takes a literal to be. */
  function Utf8Len(s: string): nat {
    if s == [] then 0
    else (if s[0] < '\U{80}' then 1 else if s[0] < '\U{800}' then 2 else if s[0] < '\U{10000}' then 3
        else 4) + Utf8Len(s[1..])
  }

  /** One byte up to U+007F, two up to U+07FF, three up to U+FFFF, four beyond. */
  lemma {:induction false} Utf8LenOfOne(c: char)
    ensures c as int <= 0x7F ==> Utf8Len([c]) == 1
    ensures 0x80 <= c as int <= 0x7FF ==> Utf8Len([c]) == 2
    ensures 0x800 <= c as int <= 0xFFFF ==> Utf8Len([c]) == 3
    ensures 0x10000 <= c as int ==> Utf8Len([c]) == 4
  {
    assert [c][1..] == [];
  }

  lemma {:induction false} Utf8LenAdds(s: string, t: string)
    ensures Utf8Len(s + t) == Utf8Len(s) + Utf8Len(t)
  {
    if s == [] {
      assert s + t == t;
    } else {
      assert (s + t)[1..] == s[1..] + t;
      Utf8LenAdds(s[1..], t);
    }
  }

  predicate IsAscii(s: string) {
    forall k :: 0 <= k < |s| ==> s[k] < '\U{80}'
  }

  lemma {:induction false} Utf8LenOfAscii(s: string)
    ensures Utf8Len(s) >= |s|
    ensures Utf8Len(s) == |s| <==> IsAscii(s)
    decreases |s|
  {
    if s != [] {
      Utf8LenOfAscii(s[1..]);
      assert IsAscii(s) ==> IsAscii(s[1..]);
      assert s[0] < '\U{80}' && IsAscii(s[1..]) ==> IsAscii(s) by {
        assert forall k :: 0 < k < |s| ==> s[k] == s[1..][k - 1];
      }
    }
  }

  // ----- the label machine -----

  /** Where control is, the cursor, and the labels held by the slots. */
  datatype Machine = Machine(pc: Label, delta: int, slots: map<TmpLabel, Label>)

  type Code = map<Label, seq<Insn>>

  /** Does the literal stand at `delta`? The length test comes first and uses `n`. */
  predicate LitHolds(subject: string, delta: int, s: string, n: nat) {
    0 <= delta && delta + n <= |subject| && |s| <= n && subject[delta..delta + |s|] == s
  }

  /** A character test at the cursor. */
  predicate CharIn(subject: string, delta: int, charset: string, wanted: bool) {
    0 <= delta < |subject| && (subject[delta] in charset) == wanted
  }

  /** Runs a block from its first instruction to the jump that ends it. None is a wiring
      error: an empty slot, or a block that does not end in a jump. */
  function Block(subject: string, insns: seq<Insn>, m: Machine): Denotation.Option<Machine> {
    if insns == [] then Denotation.None
    else
      match insns[0]
      case Goto(target) => Denotation.Some(m.(pc := target))
      case IndirectGoto(slot) =>
        if slot in m.slots then Denotation.Some(m.(pc := m.slots[slot])) else Denotation.None
      case MoveLabel(slot, src) => Block(subject, insns[1..], m.(slots := m.slots[slot := src]))
      case LitCheck(s, n, gamma, omega) =>
        Denotation.Some(if LitHolds(subject, m.delta, s, n) then m.(pc := gamma, delta := m.delta + n)
            else m.(pc := omega))
      case LitRetreat(n, omega) => Denotation.Some(m.(pc := omega, delta := m.delta - n))
      case PosCheck(pos, gamma, omega) => Denotation.Some(m.(pc := if m.delta == pos then gamma else omega))
      case RposCheck(pos, gamma, omega) =>
        Denotation.Some(m.(pc := if m.delta == |subject| - pos then gamma else omega))
      case AnyCheck(charset, gamma, omega) =>
        Denotation.Some(if CharIn(subject, m.delta, charset, true) then m.(pc := gamma, delta := m.delta + 1)
            else m.(pc := omega))
      case AnyRetreat(omega) => Denotation.Some(m.(pc := omega, delta := m.delta - 1))
      case NotanyCheck(charset, gamma, omega) =>
        Denotation.Some(if CharIn(subject, m.delta, charset, false) then m.(pc := gamma, delta := m.delta + 1)
            else m.(pc := omega))
      case NotanyRetreat(omega) => Denotation.Some(m.(pc := omega, delta := m.delta - 1))
  }

  function Step(code: Code, subject: string, m: Machine): Denotation.Option<Machine> {
    if m.pc in code then Block(subject, code[m.pc], m) else Denotation.None
  }

  function Stepper(code: Code, subject: string): Runs.Stepper<Machine> {
    m => Step(code, subject, m)
  }

  ghost predicate Reaches(code: Code, subject: string, m: Machine, m': Machine) {
    Runs.Reaches(Stepper(code, subject), m, m')
  }
}
