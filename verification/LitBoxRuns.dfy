/** Running the code of archive/backend/bb_poc.c: called with a subject and its length, as the
    System V AMD64 ABI passes them (section 3.2.3), it answers whether the subject starts with
    the literal, and reads no byte beyond the length. */
module LitBoxRuns {
  import opened Denotation
  import opened X86
  import opened LitBox
  import Runs

  /** At the entry: subject in rdi, length in esi. Only the bytes below the length may be read. */
  predicate Called(cpu: Cpu, mem: Memory, len: int) {
    && cpu.rip == 0 && !cpu.returned && |cpu.regs| == 8 && -TWO_31 <= len < TWO_31
    && cpu.regs[RDI] == mem.base && 0 <= mem.base && mem.base + |mem.bytes| <= TWO_64
    && Signed(cpu.regs[RSI], TWO_31) == len && |mem.bytes| == if len < 0 then 0 else len
  }

  predicate StartsWith(bytes: seq<Byte>, lit: seq<Byte>) {
    |lit| <= |bytes| && forall k :: 0 <= k < |lit| ==> bytes[k] == lit[k]
  }

  // ----- what the bytes are as instructions -----

  lemma {:induction false} PrologueDecodes(code: seq<Byte>, n: nat)
    requires n <= 64 && At(code, 0, Prologue(n, JlRel(n)))
    ensures Decode(code, 0) == Some(Decoded(CmpImm8(RSI, n), 3))
    ensures Decode(code, 3) == Some(Decoded(Jl(SignExtend8(JlRel(n))), 2))
    ensures Decode(code, 5) == Some(Decoded(MovImm32(RCX, 0), 7))
  {
    var bytes := Prologue(n, JlRel(n));
    forall k | 0 <= k < 12 ensures code[k] == bytes[k] {
      assert code[0 + k] == bytes[k];
    }
  }

  lemma {:induction false} CharDecodes(code: seq<Byte>, off: nat, i: nat, c: Byte, rel: Byte)
    requires i < 128 && At(code, off, CharCode(i, c, rel))
    ensures Decode(code, off) == Some(Decoded(Movzx(RAX, RDI, i), 4))
    ensures Decode(code, off + 4) == Some(Decoded(CmpAl(c), 2))
    ensures Decode(code, off + 6) == Some(Decoded(Jne(SignExtend8(rel)), 2))
  {
    var bytes := CharCode(i, c, rel);
    assert code[off + 0] == bytes[0] && code[off + 1] == bytes[1] && code[off + 2] == bytes[2]
        && code[off + 3] == bytes[3];
    assert code[off + 4] == bytes[4] && code[off + 5] == bytes[5] && code[off + 6] == bytes[6]
        && code[off + 7] == bytes[7];
  }

  lemma {:induction false} EpilogueDecodes(code: seq<Byte>, off: nat, result: Byte)
    requires At(code, off, Epilogue(result))
    ensures Decode(code, off) == Some(Decoded(MovEax(result), 5))
    ensures Decode(code, off + 5) == Some(Decoded(Ret, 1))
  {
    var bytes := Epilogue(result);
    assert code[off + 0] == bytes[0] && code[off + 1] == bytes[1] && code[off + 2] == bytes[2]
        && code[off + 3] == bytes[3];
    assert code[off + 4] == bytes[4] && code[off + 5] == bytes[5];
  }

  // ----- running -----

  ghost predicate Goes(code: seq<Byte>, mem: Memory, a: Cpu, b: Cpu) {
    Runs.Reaches(Stepper(code, mem), a, b)
  }

  lemma {:induction false} GoesStep(code: seq<Byte>, mem: Memory, a: Cpu, b: Cpu, c: Cpu)
    requires Goes(code, mem, a, b) && Step(code, mem, b) == Some(c)
    ensures Goes(code, mem, a, c)
  {
    Runs.ReachesStep(Stepper(code, mem), b, c);
    Runs.ReachesTransitive(Stepper(code, mem), a, b, c);
  }

  lemma {:induction false} Finish(code: seq<Byte>, mem: Memory, off: nat, result: Byte, cpu: Cpu) returns (end: Cpu)
    requires At(code, off, Epilogue(result)) && cpu.rip == off && !cpu.returned && |cpu.regs| == 8
    ensures Goes(code, mem, cpu, end) && end.returned && |end.regs| == 8 && end.regs[RAX] == result
  {
    EpilogueDecodes(code, off, result);
    var m1 := Step(code, mem, cpu).value;
    Runs.ReachesStep(Stepper(code, mem), cpu, m1);
    end := Step(code, mem, m1).value;
    GoesStep(code, mem, cpu, m1, end);
  }

  /** Where the comparison of one character leads: to the next one, or to the failure port. */
  lemma {:induction false} CharStep(code: seq<Byte>, mem: Memory, off: nat, i: nat, c: Byte, rel: Byte, cpu: Cpu)
      returns (next: Cpu)
    requires i < 128 && At(code, off, CharCode(i, c, rel)) && cpu.rip == off && !cpu.returned && |cpu.regs| == 8
    requires cpu.regs[RDI] == mem.base && 0 <= mem.base && mem.base + |mem.bytes| <= TWO_64 && i < |mem.bytes|
    ensures Goes(code, mem, cpu, next) && !next.returned && |next.regs| == 8 && next.regs[RDI] == mem.base
    ensures next.rip == off + 8 + if mem.bytes[i] == c then 0 else SignExtend8(rel)
  {
    CharDecodes(code, off, i, c, rel);
    assert (mem.base + i) % TWO_64 == mem.base + i;
    var m1 := cpu.(rip := off + 4, regs := cpu.regs[RAX := mem.bytes[i]]);
    assert Step(code, mem, cpu) == Some(m1);
    Runs.ReachesStep(Stepper(code, mem), cpu, m1);
    var m2 := Step(code, mem, m1).value;
    GoesStep(code, mem, cpu, m1, m2);
    SameByte(mem.bytes[i], c);
    next := Step(code, mem, m2).value;
    GoesStep(code, mem, cpu, m2, next);
  }

  /** The characters from `i` on, those before having matched. */
  lemma {:induction false} FromChar(code: seq<Byte>, lit: seq<Byte>, mem: Memory, i: nat, cpu: Cpu) returns (end: Cpu)
    requires |lit| <= 14 && IsLitBox(code, lit) && i <= |lit| <= |mem.bytes|
    requires cpu.rip == 12 + 8 * i && !cpu.returned && |cpu.regs| == 8
    requires cpu.regs[RDI] == mem.base && 0 <= mem.base && mem.base + |mem.bytes| <= TWO_64
    requires forall k :: 0 <= k < i ==> mem.bytes[k] == lit[k]
    ensures Goes(code, mem, cpu, end) && end.returned && |end.regs| == 8
    ensures end.regs[RAX] == if StartsWith(mem.bytes, lit) then 1 else 0
    decreases |lit| - i
  {
    var n := |lit|;
    if i == n {
      end := Finish(code, mem, 12 + 8 * n, 1, cpu);
    } else {
      PatchesFit(n);
      var next := CharStep(code, mem, 12 + 8 * i, i, lit[i], JneRel(n, i), cpu);
      if mem.bytes[i] == lit[i] {
        end := FromChar(code, lit, mem, i + 1, next);
      } else {
        end := Finish(code, mem, 18 + 8 * n, 0, next);
      }
      Runs.ReachesTransitive(Stepper(code, mem), cpu, next, end);
    }
  }

  /** The length test: on to the characters, or to the failure port. */
  lemma {:induction false} LengthTest(code: seq<Byte>, n: nat, mem: Memory, len: int, cpu: Cpu) returns (next: Cpu)
    requires n <= 64 && At(code, 0, Prologue(n, JlRel(n))) && Called(cpu, mem, len)
    ensures Goes(code, mem, cpu, next) && !next.returned && |next.regs| == 8 && next.regs[RDI] == mem.base
    ensures next.rip == 5 + if len < n then SignExtend8(JlRel(n)) else 0
  {
    PrologueDecodes(code, n);
    var m1 := Step(code, mem, cpu).value;
    Runs.ReachesStep(Stepper(code, mem), cpu, m1);
    JlMeansLess(cpu.(rip := 3), len, n);
    next := Step(code, mem, m1).value;
    GoesStep(code, mem, cpu, m1, next);
  }

  /** For every literal of up to 14 bytes and every subject: the box returns 1 exactly if the
      length is enough and the subject starts with the literal, else 0. */
  lemma {:induction false} BoxDecides(code: seq<Byte>, lit: seq<Byte>, mem: Memory, len: int, cpu: Cpu)
      returns (end: Cpu)
    requires |lit| <= 14 && IsLitBox(code, lit) && Called(cpu, mem, len)
    ensures Goes(code, mem, cpu, end) && end.returned && |end.regs| == 8
    ensures end.regs[RAX] == if len >= |lit| && StartsWith(mem.bytes, lit) then 1 else 0
  {
    var n := |lit|;
    PatchesFit(n);
    var m1 := LengthTest(code, n, mem, len, cpu);
    if len < n {
      end := Finish(code, mem, 18 + 8 * n, 0, m1);
      Runs.ReachesTransitive(Stepper(code, mem), cpu, m1, end);
    } else {
      PrologueDecodes(code, n);
      var m2 := Step(code, mem, m1).value;
      GoesStep(code, mem, cpu, m1, m2);
      end := FromChar(code, lit, mem, 0, m2);
      Runs.ReachesTransitive(Stepper(code, mem), cpu, m2, end);
    }
  }

  /** On a subject that is too short the jump of the length test reaches the failure port
      exactly for literals of up to 14 bytes: beyond that its distance does not fit a byte. */
  lemma {:induction false} ShortSubjectFails(code: seq<Byte>, lit: seq<Byte>, mem: Memory, len: int, cpu: Cpu)
      returns (next: Cpu)
    requires |lit| <= 64 && IsLitBox(code, lit) && Called(cpu, mem, len) && len < |lit|
    ensures Goes(code, mem, cpu, next) && !next.returned
    ensures next.rip == 18 + 8 * |lit| <==> |lit| <= 14
  {
    next := LengthTest(code, |lit|, mem, len, cpu);
  }

  /** With one byte more than fits, control leaves the code. */
  lemma {:induction false} FifteenBytesJumpOut(code: seq<Byte>, lit: seq<Byte>, mem: Memory, len: int, cpu: Cpu)
      returns (lost: Cpu)
    requires |lit| == 15 && IsLitBox(code, lit) && Called(cpu, mem, len) && len < 15
    ensures Goes(code, mem, cpu, lost) && lost.rip < 0 && !lost.returned && Step(code, mem, lost).None?
  {
    lost := LengthTest(code, 15, mem, len, cpu);
  }
}
