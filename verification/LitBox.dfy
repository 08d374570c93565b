/** build_lit_box of archive/backend/bb_poc.c: machine code that matches a literal, written byte
    by byte and then patched; and what running it does. */
module LitBox {
  import opened X86

  // ----- the code -----

  /** cmp esi, n; jl rel; mov rcx, 0 */
  function Prologue(n: Byte, rel: Byte): seq<Byte> {
    [0x83, 0xFE, n, 0x7C, rel, 0x48, 0xC7, 0xC1, 0, 0, 0, 0]
  }

  /** movzx eax, byte ptr [rdi + i]; cmp al, c; jne rel */
  function CharCode(i: Byte, c: Byte, rel: Byte): seq<Byte> {
    [0x0F, 0xB6, 0x47, i, 0x3C, c, 0x75, rel]
  }

  /** mov eax, result; ret */
  function Epilogue(result: Byte): seq<Byte> {
    [0xB8, result, 0, 0, 0, 0xC3]
  }

  predicate At(code: seq<Byte>, off: nat, bytes: seq<Byte>) {
    off + |bytes| <= |code| && forall k :: 0 <= k < |bytes| ==> code[off + k] == bytes[k]
  }

  /** Distances to the failure port, as the bytes they are patched in as. */
  function JlRel(n: nat): Byte {
    (13 + 8 * n) % 256
  }

  function JneRel(n: nat, i: nat): Byte
    requires i < n
  {
    (8 * (n - i) - 2) % 256
  }

  predicate IsLitBox(code: seq<Byte>, lit: seq<Byte>)
    requires |lit| <= 64
  {
    var n := |lit|;
    && |code| == 24 + 8 * n && At(code, 0, Prologue(n, JlRel(n)))
    && (forall i :: 0 <= i < n ==> At(code, 12 + 8 * i, CharCode(i, lit[i], JneRel(n, i))))
    && At(code, 12 + 8 * n, Epilogue(1)) && At(code, 18 + 8 * n, Epilogue(0))
  }

  /** The distances fit a signed byte exactly for the literals of up to 14 bytes. */
  lemma {:induction false} PatchesFit(n: nat)
    ensures n <= 14 <==>
      SignExtend8(JlRel(n)) == 13 + 8 * n && forall i :: 0 <= i < n ==> SignExtend8(JneRel(n, i)) == 8 * (n - i) - 2
  {
    if n <= 14 {
      forall i | 0 <= i < n ensures SignExtend8(JneRel(n, i)) == 8 * (n - i) - 2 {
      }
    }
  }

  // ----- writing it -----

  class Assembler {
    const buf: array<Byte>
    var pos: nat

    constructor ()
      ensures fresh(buf) && buf.Length == 4096 && pos == 0
    {
      buf := new Byte[4096];
      pos := 0;
    }

    method Eb(b: Byte)
      requires pos < buf.Length
      modifies this`pos, buf
      ensures pos == old(pos) + 1 && buf[old(pos)] == b
      ensures forall k :: 0 <= k < buf.Length && k != old(pos) ==> buf[k] == old(buf[k])
    {
      buf[pos] := b;
      pos := pos + 1;
    }

    method E32(v: nat)
      requires pos + 4 <= buf.Length && v < TWO_32
      modifies this`pos, buf
      ensures pos == old(pos) + 4
      ensures buf[old(pos)] == v % 0x100 && buf[old(pos) + 1] == v / 0x100 % 0x100
      ensures buf[old(pos) + 2] == v / 0x1_0000 % 0x100 && buf[old(pos) + 3] == v / 0x100_0000 % 0x100
      ensures forall k :: 0 <= k < buf.Length && !(old(pos) <= k < old(pos) + 4) ==> buf[k] == old(buf[k])
    {
      Eb(v % 0x100);
      Eb(v / 0x100 % 0x100);
      Eb(v / 0x1_0000 % 0x100);
      Eb(v / 0x100_0000 % 0x100);
    }

    method EmitTest(n: nat) returns (jl: nat)
      requires pos == 0 && buf.Length == 4096 && n <= 64
      modifies this`pos, buf
      ensures pos == 5 && jl == 3
      ensures buf[0] == 0x83 && buf[1] == 0xFE && buf[2] == n && buf[3] == 0x7C && buf[4] == 0
    {
      Eb(0x83); Eb(0xFE); Eb(n);
      jl := pos;
      Eb(0x7C); Eb(0x00);
    }

    /** The clearing of rcx, and a load that is written and given up again. */
    method EmitClear()
      requires pos == 5 && buf.Length == 4096
      modifies this`pos, buf
      ensures pos == 12 && buf[5] == 0x48 && buf[6] == 0xC7 && buf[7] == 0xC1
      ensures buf[8] == 0 && buf[9] == 0 && buf[10] == 0 && buf[11] == 0
      ensures forall k :: 0 <= k < 5 ==> buf[k] == old(buf[k])
    {
      Eb(0x48); Eb(0xC7); Eb(0xC1); E32(0);
      var loopTop := pos;
      Eb(0x0F); Eb(0xB6); Eb(0x04); Eb(0x0F);
      pos := loopTop;
    }

    method EmitPrologue(n: nat) returns (jl: nat)
      requires pos == 0 && buf.Length == 4096 && n <= 64
      modifies this`pos, buf
      ensures pos == 12 && jl == 3 && At(buf[..], 0, Prologue(n, 0))
    {
      jl := EmitTest(n);
      EmitClear();
    }

    method EmitChar(i: nat, c: Byte) returns (site: nat)
      requires pos + 8 <= buf.Length && i < 64
      modifies this`pos, buf
      ensures pos == old(pos) + 8 && site == old(pos) + 6 && At(buf[..], old(pos), CharCode(i, c, 0))
      ensures forall k :: 0 <= k < old(pos) ==> buf[k] == old(buf[k])
    {
      Eb(0x0F); Eb(0xB6); Eb(0x47); Eb(i);
      Eb(0x3C); Eb(c);
      site := pos;
      Eb(0x75); Eb(0x00);
    }

    method EmitEpilogue(result: Byte)
      requires pos + 6 <= buf.Length
      modifies this`pos, buf
      ensures pos == old(pos) + 6 && At(buf[..], old(pos), Epilogue(result))
      ensures forall k :: 0 <= k < old(pos) ==> buf[k] == old(buf[k])
    {
      Eb(0xB8); E32(result);
      Eb(0xC3);
    }

    /** Everything before the patches; the sites of the jumps are kept in an array of 64. */
    method EmitAll(lit: seq<Byte>, sites: array<nat>) returns (jl: nat, omega: nat)
      requires pos == 0 && buf.Length == 4096 && |lit| <= 64 == sites.Length
      modifies this`pos, buf, sites
      ensures pos == 24 + 8 * |lit| && jl == 3 && omega == 18 + 8 * |lit|
      ensures At(buf[..], 0, Prologue(|lit|, 0))
      ensures forall j :: 0 <= j < |lit| ==> sites[j] == 18 + 8 * j && At(buf[..], 12 + 8 * j, CharCode(j, lit[j], 0))
      ensures At(buf[..], 12 + 8 * |lit|, Epilogue(1)) && At(buf[..], 18 + 8 * |lit|, Epilogue(0))
    {
      var n := |lit|;
      jl := EmitPrologue(n);
      for i := 0 to n
        invariant pos == 12 + 8 * i && At(buf[..], 0, Prologue(n, 0))
        invariant forall j :: 0 <= j < i ==> sites[j] == 18 + 8 * j && At(buf[..], 12 + 8 * j, CharCode(j, lit[j], 0))
      {
        var site := EmitChar(i, lit[i]);
        sites[i] := site;
      }
      EmitEpilogue(1);
      omega := pos;
      EmitEpilogue(0);
    }

    /** One more jump patched. */
    method Patch(site: nat, omega: nat)
      requires site + 2 <= buf.Length
      modifies buf
      ensures buf[site + 1] == (omega - (site + 2)) % 256
      ensures forall k :: 0 <= k < buf.Length && k != site + 1 ==> buf[k] == old(buf[k])
    {
      buf[site + 1] := (omega - (site + 2)) % 256;
    }

    /** The jumps of the characters, patched one after the other. */
    method PatchAll(lit: seq<Byte>, sites: array<nat>, omega: nat)
      requires buf.Length == 4096 && |lit| <= 64 == sites.Length && omega == 18 + 8 * |lit|
      requires forall j :: 0 <= j < |lit| ==> sites[j] == 18 + 8 * j
      requires Patched(buf[..], lit, 0)
      modifies buf
      ensures Patched(buf[..], lit, |lit|)
    {
      for i := 0 to |lit|
        invariant Patched(buf[..], lit, i)
      {
        ghost var draft := buf[..];
        Patch(sites[i], omega);
        PatchedChar(draft, buf[..], lit, i);
      }
    }

    /** The whole box. */
    method BuildLitBox(lit: seq<Byte>) returns (code: seq<Byte>)
      requires pos == 0 && buf.Length == 4096 && |lit| <= 64
      modifies this`pos, buf
      ensures IsLitBox(code, lit)
    {
      var sites := new nat[64];
      var jl, omega := EmitAll(lit, sites);
      ghost var draft := buf[..];
      Patch(jl, omega);
      PatchedPrologue(draft, buf[..], lit);
      PatchAll(lit, sites, omega);
      code := buf[..pos];
      BoxIsPrefix(buf[..], code, lit);
    }
  }

  predicate AllChars(code: seq<Byte>, lit: seq<Byte>, done: nat)
    requires |lit| <= 64 && done <= |lit|
  {
    && (forall j :: 0 <= j < done ==> At(code, 12 + 8 * j, CharCode(j, lit[j], JneRel(|lit|, j))))
    && (forall j :: done <= j < |lit| ==> At(code, 12 + 8 * j, CharCode(j, lit[j], 0)))
  }

  /** The box with the first jump and those of the first `done` characters patched. */
  predicate Patched(code: seq<Byte>, lit: seq<Byte>, done: nat)
    requires |lit| <= 64 && done <= |lit|
  {
    && At(code, 0, Prologue(|lit|, JlRel(|lit|))) && AllChars(code, lit, done)
    && At(code, 12 + 8 * |lit|, Epilogue(1)) && At(code, 18 + 8 * |lit|, Epilogue(0))
  }

  lemma {:induction false} BoxIsPrefix(page: seq<Byte>, code: seq<Byte>, lit: seq<Byte>)
    requires |lit| <= 64 && Patched(page, lit, |lit|) && code == page[..24 + 8 * |lit|]
    ensures IsLitBox(code, lit)
  {
  }

  predicate OnlyAt(before: seq<Byte>, after: seq<Byte>, at: nat) {
    |after| == |before| && forall k :: 0 <= k < |before| && k != at ==> after[k] == before[k]
  }

  lemma {:induction false} Elsewhere(before: seq<Byte>, after: seq<Byte>, at: nat, off: nat, bytes: seq<Byte>)
    requires At(before, off, bytes) && OnlyAt(before, after, at) && !(off <= at < off + |bytes|)
    ensures At(after, off, bytes)
  {
  }

  lemma {:induction false} PatchedPrologue(before: seq<Byte>, after: seq<Byte>, lit: seq<Byte>)
    requires |lit| <= 64 && At(before, 0, Prologue(|lit|, 0)) && AllChars(before, lit, 0)
    requires At(before, 12 + 8 * |lit|, Epilogue(1)) && At(before, 18 + 8 * |lit|, Epilogue(0))
    requires OnlyAt(before, after, 4) && after[4] == JlRel(|lit|)
    ensures Patched(after, lit, 0)
  {
    forall k | 0 <= k < 12 ensures after[0 + k] == Prologue(|lit|, JlRel(|lit|))[k] {
      assert k != 4 ==> before[0 + k] == Prologue(|lit|, 0)[k];
    }
    forall j | 0 <= j < |lit| ensures At(after, 12 + 8 * j, CharCode(j, lit[j], 0)) {
      Elsewhere(before, after, 4, 12 + 8 * j, CharCode(j, lit[j], 0));
    }
    Elsewhere(before, after, 4, 12 + 8 * |lit|, Epilogue(1));
    Elsewhere(before, after, 4, 18 + 8 * |lit|, Epilogue(0));
  }

  lemma {:induction false} PatchedOne(before: seq<Byte>, after: seq<Byte>, lit: seq<Byte>, i: nat)
    requires i < |lit| <= 64 && OnlyAt(before, after, 19 + 8 * i) && 19 + 8 * i < |after|
        && after[19 + 8 * i] == JneRel(|lit|, i)
    requires At(before, 12 + 8 * i, CharCode(i, lit[i], 0))
    ensures At(after, 12 + 8 * i, CharCode(i, lit[i], JneRel(|lit|, i)))
  {
    forall k | 0 <= k < 8 ensures after[12 + 8 * i + k] == CharCode(i, lit[i], JneRel(|lit|, i))[k] {
      assert k != 7 ==> before[12 + 8 * i + k] == CharCode(i, lit[i], 0)[k];
    }
  }

  lemma {:induction false} PatchedChar(before: seq<Byte>, after: seq<Byte>, lit: seq<Byte>, i: nat)
    requires i < |lit| <= 64 && Patched(before, lit, i)
    requires OnlyAt(before, after, 19 + 8 * i) && after[19 + 8 * i] == JneRel(|lit|, i)
    ensures Patched(after, lit, i + 1)
  {
    var at := 19 + 8 * i;
    PatchedOne(before, after, lit, i);
    forall j | 0 <= j < |lit| && j != i
      ensures At(after, 12 + 8 * j, CharCode(j, lit[j], if j < i then JneRel(|lit|, j) else 0))
    {
      Elsewhere(before, after, at, 12 + 8 * j, CharCode(j, lit[j], if j < i then JneRel(|lit|, j) else 0));
    }
    Elsewhere(before, after, at, 0, Prologue(|lit|, JlRel(|lit|)));
    Elsewhere(before, after, at, 12 + 8 * |lit|, Epilogue(1));
    Elsewhere(before, after, at, 18 + 8 * |lit|, Epilogue(0));
  }
}
