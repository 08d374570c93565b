/** The emitter of archive/backend/emit_jvm.py, and what the program it generates answers. */
module JvmEmitter {
  import opened ByrdIr
  import opened Jvm

  // ----- targets of slots -----

  /** The targets a slot can hold, in the order the stores are met. */
  function Collect(tt: Targets, insns: seq<Insn>): Targets
    decreases |insns|
  {
    if insns == [] then tt
    else if insns[0].MoveLabel? then
      Collect(tt[insns[0].slot := TargetsOf(tt, insns[0].slot) + [insns[0].src]], insns[1..])
    else Collect(tt, insns[1..])
  }

  function CollectAll(tt: Targets, chunks: seq<Chunk>): Targets
    decreases |chunks|
  {
    if chunks == [] then tt else CollectAll(Collect(tt, chunks[0].insns), chunks[1..])
  }

  predicate Grows(tt: Targets, tt': Targets) {
    forall t :: t in tt ==> t in tt' && forall l :: l in tt[t] ==> l in tt'[t]
  }

  lemma {:induction false} CollectGrows(tt: Targets, insns: seq<Insn>)
    ensures Grows(tt, Collect(tt, insns)) && StoresCovered(insns, Collect(tt, insns))
    decreases |insns|
  {
    if insns != [] {
      if insns[0].MoveLabel? {
        var tt' := tt[insns[0].slot := TargetsOf(tt, insns[0].slot) + [insns[0].src]];
        CollectGrows(tt', insns[1..]);
        assert insns[0].src in tt'[insns[0].slot];
      } else {
        CollectGrows(tt, insns[1..]);
      }
      assert forall k :: 0 < k < |insns| ==> insns[k] == insns[1..][k - 1];
    }
  }

  lemma {:induction false} CollectAllCovers(tt: Targets, chunks: seq<Chunk>)
    ensures Grows(tt, CollectAll(tt, chunks))
    ensures forall i :: 0 <= i < |chunks| ==> StoresCovered(chunks[i].insns, CollectAll(tt, chunks))
    decreases |chunks|
  {
    if chunks != [] {
      var first := Collect(tt, chunks[0].insns);
      CollectGrows(tt, chunks[0].insns);
      CollectAllCovers(first, chunks[1..]);
      forall i | 0 <= i < |chunks| ensures StoresCovered(chunks[i].insns, CollectAll(tt, chunks)) {
        if i > 0 {
          assert chunks[i] == chunks[1..][i - 1];
        }
      }
    }
  }

  /** Only slots that some instruction stores into have targets. */
  ghost predicate SlotsFrom(tt: Targets, slots: set<TmpLabel>) {
    tt.Keys <= slots
  }

  lemma {:induction false} CollectSlots(tt: Targets, insns: seq<Insn>, slots: set<TmpLabel>)
    requires SlotsFrom(tt, slots)
    requires forall k :: 0 <= k < |insns| && insns[k].MoveLabel? ==> insns[k].slot in slots
    ensures SlotsFrom(Collect(tt, insns), slots)
    decreases |insns|
  {
    if insns != [] {
      assert forall k :: 0 < k < |insns| ==> insns[k] == insns[1..][k - 1];
      CollectSlots(if insns[0].MoveLabel? then tt[insns[0].slot := TargetsOf(tt, insns[0].slot) + [insns[0].src]]
          else tt,
                   insns[1..], slots);
    }
  }

  predicate StoresInto(chunks: seq<Chunk>, slots: set<TmpLabel>) {
    forall i, k :: 0 <= i < |chunks| && 0 <= k < |chunks[i].insns| && chunks[i].insns[k].MoveLabel? ==>
      chunks[i].insns[k].slot in slots
  }

  lemma {:induction false} CollectAllSlots(tt: Targets, chunks: seq<Chunk>, slots: set<TmpLabel>)
    requires SlotsFrom(tt, slots) && StoresInto(chunks, slots)
    ensures SlotsFrom(CollectAll(tt, chunks), slots)
    decreases |chunks|
  {
    if chunks != [] {
      assert forall i :: 0 < i < |chunks| ==> chunks[i] == chunks[1..][i - 1];
      CollectSlots(tt, chunks[0].insns, slots);
      CollectAllSlots(Collect(tt, chunks[0].insns), chunks[1..], slots);
    }
  }

  // ----- the emitter -----

  /** Label numbering: the next number goes to a label not seen before. */
  class LabelMap {
    var ids: LabelIds
    var counter: nat

    ghost predicate Valid()
      reads this
    {
      Injective(ids) && forall l :: l in ids ==> ids[l] < counter
    }

    constructor ()
      ensures Valid() && ids == map[]
    {
      ids := map[];
      counter := 0;
    }

    method Get(l: Label) returns (id: nat)
      requires Valid()
      modifies this
      ensures Valid() && Extends(old(ids), ids) && l in ids && id == ids[l]
      ensures ids.Keys == old(ids).Keys + {l}
    {
      if l !in ids {
        ids := ids[l := counter];
        counter := counter + 1;
      }
      id := ids[l];
    }

    method GetAll(ts: seq<Label>) returns (r: seq<nat>)
      requires Valid()
      modifies this
      ensures Valid() && Extends(old(ids), ids)
      ensures (forall k :: 0 <= k < |ts| ==> ts[k] in ids) && r == IdsOf(ts, ids)
    {
      r := [];
      for k := 0 to |ts|
        invariant Valid() && Extends(old(ids), ids)
        invariant |r| == k && forall i :: 0 <= i < k ==> ts[i] in ids && r[i] == ids[ts[i]]
      {
        var id := Get(ts[k]);
        r := r + [id];
      }
    }
  }

  class Emitter {
    const lmap: LabelMap
    var cases: seq<Case>
    var tmpTargets: Targets

    constructor ()
      ensures fresh(lmap) && lmap.Valid() && cases == [] && tmpTargets == map[]
    {
      lmap := new LabelMap();
      cases := [];
      tmpTargets := map[];
    }

    method CollectTmpTargets(chunks: seq<Chunk>)
      modifies this`tmpTargets
      ensures tmpTargets == CollectAll(old(tmpTargets), chunks)
    {
      var i := 0;
      while i < |chunks|
        invariant 0 <= i <= |chunks|
        invariant CollectAll(tmpTargets, chunks[i..]) == CollectAll(old(tmpTargets), chunks)
      {
        var insns := chunks[i].insns;
        ghost var before := tmpTargets;
        var k := 0;
        while k < |insns|
          invariant 0 <= k <= |insns|
          invariant Collect(tmpTargets, insns[k..]) == Collect(before, insns)
        {
          assert insns[k..][1..] == insns[k + 1..];
          if insns[k].MoveLabel? {
            var slot := insns[k].slot;
            tmpTargets := tmpTargets[slot := TargetsOf(tmpTargets, slot) + [insns[k].src]];
          }
          k := k + 1;
        }
        assert chunks[i..][1..] == chunks[i + 1..];
        i := i + 1;
      }
    }

    /** A pair of continuation labels; omega is numbered first. */
    method Ports(gamma: Label, omega: Label) returns (g: nat, o: nat)
      requires lmap.Valid()
      modifies lmap
      ensures lmap.Valid() && Extends(old(lmap.ids), lmap.ids)
      ensures gamma in lmap.ids && omega in lmap.ids && g == lmap.ids[gamma] && o == lmap.ids[omega]
    {
      o := lmap.Get(omega);
      g := lmap.Get(gamma);
    }

    method EmitInsn(insn: Insn) returns (stmt: JInsn)
      requires lmap.Valid()
      modifies lmap
      ensures lmap.Valid() && Extends(old(lmap.ids), lmap.ids)
      ensures Known(insn, lmap.ids, tmpTargets) && stmt == Encode(insn, lmap.ids, tmpTargets)
    {
      match insn
      case Goto(target) =>
        var t := lmap.Get(target);
        stmt := JGoto(t);
      case IndirectGoto(slot) =>
        var states := lmap.GetAll(TargetsOf(tmpTargets, slot));
        stmt := JSwitch(JavaId(slot), states);
      case MoveLabel(slot, src) =>
        stmt := JSet(JavaId(slot), IndexOf(TargetsOf(tmpTargets, slot), src));
      case LitCheck(s, n, gamma, omega) =>
        var g, o := Ports(gamma, omega);
        stmt := JLit(s, n, g, o);
      case LitRetreat(n, omega) =>
        var o := lmap.Get(omega);
        stmt := JLitBack(n, o);
      case PosCheck(pos, gamma, omega) =>
        var g, o := Ports(gamma, omega);
        stmt := JPos(pos, g, o);
      case RposCheck(pos, gamma, omega) =>
        var g, o := Ports(gamma, omega);
        stmt := JRpos(pos, g, o);
      case AnyCheck(cs, gamma, omega) =>
        var g, o := Ports(gamma, omega);
        stmt := JChar(cs, true, g, o);
      case AnyRetreat(omega) =>
        var o := lmap.Get(omega);
        stmt := JCharBack(o);
      case NotanyCheck(cs, gamma, omega) =>
        var g, o := Ports(gamma, omega);
        stmt := JChar(cs, false, g, o);
      case NotanyRetreat(omega) =>
        var o := lmap.Get(omega);
        stmt := JCharBack(o);
    }

    method EmitChunk(chunk: Chunk) returns (c: Case)
      requires lmap.Valid()
      modifies lmap
      ensures lmap.Valid() && Extends(old(lmap.ids), lmap.ids) && Encodes(chunk, c, lmap.ids, tmpTargets)
    {
      var id := lmap.Get(chunk.name);
      var stmts := [];
      for k := 0 to |chunk.insns|
        invariant lmap.Valid() && Extends(old(lmap.ids), lmap.ids)
        invariant chunk.name in lmap.ids && id == lmap.ids[chunk.name]
        invariant |stmts| == k
        invariant forall i :: 0 <= i < k ==>
                    Known(chunk.insns[i], lmap.ids, tmpTargets) && stmts[i] == Encode(chunk.insns[i], lmap.ids,
                        tmpTargets)
      {
        ghost var before := lmap.ids;
        var stmt := EmitInsn(chunk.insns[k]);
        forall i | 0 <= i < k
          ensures Known(chunk.insns[i], lmap.ids, tmpTargets)
          ensures stmts[i] == Encode(chunk.insns[i], lmap.ids, tmpTargets)
        {
          EncodeStable(chunk.insns[i], before, lmap.ids, tmpTargets);
        }
        stmts := stmts + [stmt];
      }
      assert stmts == EncodeAll(chunk.insns, lmap.ids, tmpTargets);
      c := Case(id, stmts);
    }

    method EmitChunks(chunks: seq<Chunk>)
      requires lmap.Valid() && cases == [] && tmpTargets == map[]
      modifies this, lmap
      ensures lmap.Valid() && tmpTargets == CollectAll(map[], chunks)
      ensures |cases| == |chunks|
      ensures forall i :: 0 <= i < |chunks| ==> Encodes(chunks[i], cases[i], lmap.ids, tmpTargets)
    {
      CollectTmpTargets(chunks);
      for n := 0 to |chunks|
        invariant lmap.Valid() && tmpTargets == CollectAll(map[], chunks)
        invariant |cases| == n
        invariant forall i :: 0 <= i < n ==> Encodes(chunks[i], cases[i], lmap.ids, tmpTargets)
      {
        ghost var before := lmap.ids;
        var c := EmitChunk(chunks[n]);
        forall i | 0 <= i < n ensures Encodes(chunks[i], cases[i], lmap.ids, tmpTargets) {
          EncodesStable(chunks[i], cases[i], before, lmap.ids, tmpTargets);
        }
        cases := cases + [c];
      }
    }
  }
}
