/** The x86-64 instructions that archive/backend/bb_poc.c writes: their decoding (Intel 64 and
    IA-32 Architectures Software Developer's Manual, Volume 2, sections 2.1.3 and 2.1.5 for
    ModR/M) and what they do. Anything else does not decode. */
module X86 {
  import opened Denotation
  import Runs

  type Byte = n: int | 0 <= n < 256

  const TWO_32: int := 0x1_0000_0000
  const TWO_31: int := 0x8000_0000
  const TWO_64: int := 0x1_0000_0000_0000_0000

  const RAX: nat := 0
  const RCX: nat := 1
  const RSI: nat := 6
  const RDI: nat := 7

  datatype Insn =
    | CmpImm8(reg: nat, imm: int)
    | CmpAl(imm: int)
    | Jl(rel: int)
    | Jne(rel: int)
    | MovImm32(reg: nat, imm: int)
    | MovEax(imm: int)
    | Movzx(dst: nat, base: nat, disp: int)
    | Ret

  /** An instruction and its length in bytes. */
  datatype Decoded = Decoded(insn: Insn, len: nat)

  function SignExtend8(b: Byte): int {
    if b < 128 then b else b - 256
  }

  function Imm32(code: seq<Byte>, at: nat): nat
    requires at + 4 <= |code|
  {
    var b0: nat, b1: nat, b2: nat, b3: nat := code[at], code[at + 1], code[at + 2], code[at + 3];
    b0 + 0x100 * b1 + 0x1_0000 * b2 + 0x100_0000 * b3
  }

  function Mod(modrm: Byte): nat { modrm / 64 }

  function Reg(modrm: Byte): nat { modrm / 8 % 8 }

  function Rm(modrm: Byte): nat { modrm % 8 }

  function Decode(code: seq<Byte>, at: int): Option<Decoded> {
    if !(0 <= at < |code|) then None
    else
      var left := |code| - at;
      var op := code[at];
      if op == 0xC3 then Some(Decoded(Ret, 1))
      else if op == 0x7C && left >= 2 then Some(Decoded(Jl(SignExtend8(code[at + 1])), 2))
      else if op == 0x75 && left >= 2 then Some(Decoded(Jne(SignExtend8(code[at + 1])), 2))
      else if op == 0x3C && left >= 2 then Some(Decoded(CmpAl(code[at + 1]), 2))
      else if op == 0x83 && left >= 3 && Mod(code[at + 1]) == 3 && Reg(code[at + 1]) == 7 then
        Some(Decoded(CmpImm8(Rm(code[at + 1]), SignExtend8(code[at + 2])), 3))
      else if op == 0xB8 && left >= 5 then Some(Decoded(MovEax(Imm32(code, at + 1)), 5))
      else if op == 0x0F && left >= 4 && code[at + 1] == 0xB6 && Mod(code[at + 2]) == 1 && Rm(code[at + 2]) != 4 then
        Some(Decoded(Movzx(Reg(code[at + 2]), Rm(code[at + 2]), SignExtend8(code[at + 3])), 4))
      else if op == 0x48 && left >= 7 && code[at + 1] == 0xC7 && Mod(code[at + 2]) == 3 && Reg(code[at + 2]) == 0 then
        Some(Decoded(MovImm32(Rm(code[at + 2]), Imm32(code, at + 3)), 7))
      else None
  }

  /** The eight registers as 64-bit values, the flags, and whether the function has returned. */
  datatype Cpu = Cpu(rip: int, regs: seq<int>, zf: bool, sf: bool, of: bool, returned: bool)

  /** Memory the function may read: bytes from an address on. */
  datatype Memory = Memory(base: int, bytes: seq<Byte>)

  /** The low bits of `v` as a signed number from -half to half - 1. */
  function Signed(v: int, half: int): int
    requires half > 0
  {
    var low := v % (2 * half);
    if low < half then low else low - 2 * half
  }

  /** The flags of a comparison of two signed numbers of that width: zero, sign and overflow of
      the difference. */
  function Compared(cpu: Cpu, a: int, b: int, half: int): Cpu
    requires half > 0
  {
    var diff := a - b;
    cpu.(zf := diff == 0, sf := Signed(diff, half) < 0, of := diff < -half || half <= diff)
  }

  /** One instruction. None: not decodable, a read outside the memory, or returned before. */
  function Step(code: seq<Byte>, mem: Memory, cpu: Cpu): Option<Cpu> {
    var d := Decode(code, cpu.rip);
    if cpu.returned || d.None? || |cpu.regs| != 8 then None
    else
      var next := cpu.(rip := cpu.rip + d.value.len);
      match d.value.insn
      case Ret => Some(cpu.(returned := true))
      case Jl(rel) => Some(if cpu.sf != cpu.of then next.(rip := next.rip + rel) else next)
      case Jne(rel) => Some(if !cpu.zf then next.(rip := next.rip + rel) else next)
      case CmpAl(imm) => Some(Compared(next, Signed(cpu.regs[RAX], 128), Signed(imm, 128), 128))
      case CmpImm8(reg, imm) => if reg < 8 then Some(Compared(next, Signed(cpu.regs[reg], TWO_31), imm, TWO_31))
          else None
      case MovEax(imm) => Some(next.(regs := cpu.regs[RAX := imm]))
      case MovImm32(reg, imm) => if reg < 8 then Some(next.(regs := cpu.regs[reg := Signed(imm, TWO_31) % TWO_64]))
          else None
      case Movzx(dst, base, disp) =>
        if dst >= 8 || base >= 8 then None
        else
          var at := (cpu.regs[base] + disp) % TWO_64 - mem.base;
          if 0 <= at < |mem.bytes| then Some(next.(regs := cpu.regs[dst := mem.bytes[at]])) else None
  }

  function Stepper(code: seq<Byte>, mem: Memory): Runs.Stepper<Cpu> {
    (cpu: Cpu) => Step(code, mem, cpu)
  }

  /** After a comparison, the jump for "less" is taken exactly if the first was less. */
  lemma {:induction false} JlMeansLess(cpu: Cpu, a: int, b: int)
    requires -TWO_31 <= a < TWO_31 && -TWO_31 <= b < TWO_31
    ensures var c := Compared(cpu, a, b, TWO_31); (c.sf != c.of <==> a < b)
  {
    WrapOnce(a - b);
  }

  lemma {:induction false} WrapOnce(v: int)
    requires -TWO_32 < v < TWO_32
    ensures v % TWO_32 == if v < 0 then v + TWO_32 else v
  {
  }

  /** Two bytes compare equal, as signed numbers, exactly if they are the same byte. */
  lemma {:induction false} SameByte(a: Byte, b: Byte)
    ensures Signed(a, 128) == Signed(b, 128) <==> a == b
  {
  }
}
