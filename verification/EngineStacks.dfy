/** Psi and Omega of archive/backend/engine.c: arrays grown by doubling, and choices that
    own a copy of Psi. */
module EngineStacks {
  import opened Denotation
  import opened EngineStep

  const FIRST_CAPACITY := 8

  /** The continuation stack: a plain push/pop stack in a reallocated array. */
  class PsiStack {
    var entries: array<Frame>
    var count: nat
    ghost var contents: seq<Frame>

    ghost predicate Valid()
      reads this, entries
    {
      count <= entries.Length && contents == entries[..count]
    }

    constructor ()
      ensures Valid() && fresh(entries) && contents == []
    {
      entries := new Frame[0];
      count := 0;
      contents := [];
    }

    /** Moves the contents to a new array of the given capacity. */
    method Reallocate(capacity: nat)
      requires Valid() && count <= capacity
      modifies this`entries
      ensures Valid() && fresh(entries) && entries.Length == capacity
    {
      var bigger := new Frame[capacity];
      forall k | 0 <= k < count {
        bigger[k] := entries[k];
      }
      entries := bigger;
    }

    method Push(f: Frame)
      requires Valid()
      modifies this, entries
      ensures Valid() && (entries == old(entries) || fresh(entries))
      ensures contents == old(contents) + [f]
    {
      if count >= entries.Length {
        Reallocate(if entries.Length != 0 then entries.Length * 2 else FIRST_CAPACITY);
      }
      entries[count] := f;
      count := count + 1;
      contents := contents + [f];
    }

    method Pop() returns (r: Option<Frame>)
      requires Valid()
      modifies this`count, this`contents
      ensures Valid()
      ensures old(contents) == [] ==> r == None && contents == []
      ensures old(contents) != [] ==> r == Some(old(contents)[|old(contents)| - 1])
                                      && contents == old(contents)[..|old(contents)| - 1]
    {
      if count > 0 {
        count := count - 1;
        contents := contents[..count];
        return Some(entries[count]);
      }
      return None;
    }

    /** A copy that no later push, pop or reallocation of this stack can reach. */
    method Snapshot() returns (snap: array<Frame>)
      requires Valid()
      ensures fresh(snap) && snap[..] == contents
    {
      snap := new Frame[count];
      forall k | 0 <= k < count {
        snap[k] := entries[k];
      }
    }

    method Restore(snap: array<Frame>)
      requires Valid() && snap != entries
      modifies this, entries
      ensures Valid() && (entries == old(entries) || fresh(entries))
      ensures contents == old(snap[..])
    {
      if snap.Length > entries.Length {
        count := 0;
        contents := [];
        Reallocate(snap.Length);
      }
      count := snap.Length;
      forall k | 0 <= k < snap.Length {
        entries[k] := snap[k];
      }
      contents := snap[..];
    }

    method Clear()
      requires Valid()
      modifies this`count, this`contents
      ensures Valid() && contents == []
    {
      count := 0;
      contents := [];
    }
  }

  /** A saved state with its own copy of Psi; the copy is null once it has been freed. */
  datatype Saved = Saved(state: State, snap: array?<Frame>)

  /** The backtrack stack. */
  class OmegaStack {
    var entries: array<Saved>
    var count: nat
    ghost var contents: seq<Choice>

    /** The live entries own copies, none of them the array `psi` writes to. */
    ghost predicate Valid(psi: PsiStack)
      reads this, entries, psi, set k | 0 <= k < count <= entries.Length :: entries[k].snap
    {
      && count <= entries.Length && |contents| == count
      && (forall k :: 0 <= k < count ==>
            && entries[k].snap != null && entries[k].snap != psi.entries
            && contents[k] == Choice(entries[k].state, entries[k].snap[..]))
    }

    constructor (psi: PsiStack)
      ensures Valid(psi) && fresh(entries) && contents == []
    {
      entries := new Saved[0];
      count := 0;
      contents := [];
    }

    method Push(z: State, psi: PsiStack)
      requires psi.Valid() && Valid(psi)
      modifies this, entries
      ensures Valid(psi) && (entries == old(entries) || fresh(entries))
      ensures contents == old(contents) + [Choice(z, psi.contents)]
    {
      if count >= entries.Length {
        var bigger := new Saved[if entries.Length != 0 then entries.Length * 2 else FIRST_CAPACITY];
        forall k | 0 <= k < count {
          bigger[k] := entries[k];
        }
        entries := bigger;
      }
      var snap := psi.Snapshot();
      entries[count] := Saved(z, snap);
      count := count + 1;
      contents := contents + [Choice(z, psi.contents)];
    }

    /** Hands back the newest state and puts its copy into `psi`; clears both when empty. */
    method Pop(psi: PsiStack) returns (z: State)
      requires psi.Valid() && Valid(psi)
      modifies this, entries, psi, psi.entries
      ensures psi.Valid() && Valid(psi) && entries == old(entries)
      ensures psi.entries == old(psi.entries) || fresh(psi.entries)
      ensures old(contents) == [] ==> z == NullState && psi.contents == [] && contents == []
      ensures old(contents) != [] ==>
                var top := old(contents)[|old(contents)| - 1];
                z == top.z && psi.contents == top.psi && contents == old(contents)[..|old(contents)| - 1]
    {
      if count > 0 {
        count := count - 1;
        contents := contents[..count];
        var e := entries[count];
        z := e.state;
        psi.Restore(e.snap);
        entries[count] := e.(snap := null);
      } else {
        z := NullState;
        psi.Clear();
      }
    }
  }
}
