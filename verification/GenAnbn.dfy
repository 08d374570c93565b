/** bench/gen_anbn.c: the generated engine for S = a S b | a b, as it stands in the repository,
    with the arena of bench/arena_runtime.c. A failing call does not give its frame back. */
module GenAnbn {
  import opened Denotation
  import opened Anbn

  const ARENA_SIZE: nat := 4096

  /** A frame of S with its header, under the System V AMD64 ABI. */
  const FRAME_TOTAL: nat := 80

  /** Frames the arena holds. */
  const SLOTS: nat := ARENA_SIZE / FRAME_TOTAL

  datatype Frame = Frame(i: int, al1Entered: bool, cl3Saved: nat, cr4Entered: bool, cl5: Option<nat>, cr6Saved: nat,
                         ar2Entered: bool, cl7Saved: nat, cr8Saved: nat)

  const Zeroed := Frame(0, false, 0, false, None, 0, false, 0, 0)

  /** What a call answers; the program exits when the arena overflows. */
  datatype Answer = Found | Empty | Exits

  /** S delivers its end from `i`. */
  predicate Has(s: string, i: nat)
    requires i <= |s|
  {
    0 < As(s, i) <= Bs(s, i)
  }

  /** The frame of a call that has answered for cursor `i`, and those below it. */
  predicate Suspended(s: string, frames: seq<Frame>, z: nat, i: nat)
    decreases |frames| - z
  {
    && z < |frames| && i + 1 < |s| && s[i] == 'a'
    && if frames[z].i == 1 then
         && frames[z].al1Entered && frames[z].cr4Entered && frames[z].cl3Saved == i && s[i + 1] == 'a'
         && frames[z].cl5.Some? && z < frames[z].cl5.value && Suspended(s, frames, frames[z].cl5.value, i + 1)
       else
         frames[z].i == 2 && frames[z].ar2Entered && frames[z].cl7Saved == i
  }

  /** It depends on the frames from `z` on only. */
  lemma {:induction false} SuspendedAbove(s: string, a: seq<Frame>, b: seq<Frame>, z: nat, i: nat)
    requires Suspended(s, a, z, i) && |a| == |b| && forall k :: z <= k < |a| ==> a[k] == b[k]
    ensures Suspended(s, b, z, i)
    decreases |a| - z
  {
    if a[z].i == 1 {
      SuspendedAbove(s, a, b, a[z].cl5.value, i + 1);
    }
  }

  /** The two arms, the long one and the short one, in terms of the next character. */
  lemma {:induction false} Arms(s: string, i: nat)
    requires i < |s| && s[i] == 'a'
    ensures As(s, i) == As(s, i + 1) + 1
    ensures var e := i + 1 + 2 * As(s, i + 1);
      && (Has(s, i + 1) ==> s[i + 1] == 'a' && (e < |s| && s[e] == 'b' <==> Has(s, i)))
      && (!Has(s, i + 1) ==> (i + 1 < |s| && s[i + 1] == 'b' <==> Has(s, i)))
      && (i + 1 < |s| && s[i + 1] == 'b' ==> As(s, i) == 1)
  {
    NextA(s, i);
    var e := i + 1 + 2 * As(s, i + 1);
    if Has(s, i + 1) && e < |s| {
      BsAt(s, i, e);
    }
  }

  class Engine {
    const sigma: string
    var delta: nat
    var frames: seq<Frame>

    constructor (s: string)
      ensures sigma == s && delta == 0 && frames == []
    {
      sigma, delta, frames := s, 0, [];
    }

    /** sno_enter: a zeroed frame on top, or the end of the program. */
    method Enter() returns (z: Option<nat>)
      modifies this`frames
      ensures z.None? <==> |old(frames)| + 1 > SLOTS
      ensures if z.None? then frames == old(frames) else z.value == |old(frames)| && frames == old(frames) + [Zeroed]
    {
      if FRAME_TOTAL * |frames| + FRAME_TOTAL > ARENA_SIZE {
        return None;
      }
      z := Some(|frames|);
      frames := frames + [Zeroed];
    }

    /** S_lo: the short arm. */
    method ShortArm(z: nat) returns (ok: bool)
      requires z < |frames| && delta <= |sigma|
      modifies this
      ensures |frames| == |old(frames)| && forall k :: 0 <= k < |frames| && k != z ==> frames[k] == old(frames)[k]
      ensures ok <==> old(delta) + 1 < |sigma| && sigma[old(delta)] == 'a' && sigma[old(delta) + 1] == 'b'
      ensures ok ==> delta == old(delta) + 2 && Suspended(sigma, frames, z, old(delta))
      ensures !ok ==> delta == old(delta)
    {
      frames := frames[z := frames[z].(i := 2, ar2Entered := false)];
      if delta + 1 > |sigma| || sigma[delta] != 'a' {
        return false;
      }
      frames := frames[z := frames[z].(cl7Saved := delta, ar2Entered := true)];
      delta := delta + 1;
      if delta + 1 > |sigma| || sigma[delta] != 'b' {
        frames := frames[z := frames[z].(ar2Entered := false)];
        delta := frames[z].cl7Saved;
        return false;
      }
      frames := frames[z := frames[z].(cr8Saved := delta)];
      delta := delta + 1;
      return true;
    }

    /** The frame of `z` is that of the long arm, entered at `i`, with its inner call in `c`. */
    ghost predicate InLongArm(z: nat, i: nat, c: nat)
      reads this
    {
      && z < c < |frames| && i < |sigma| && sigma[i] == 'a' && frames[z].i == 1 && frames[z].al1Entered
      && frames[z].cl3Saved == i && frames[z].cl5 == Some(c)
    }

    /** cr4: a b after each end of the inner call. */
    method AfterInner(z: nat, found: bool, ghost i: nat, ghost c: nat) returns (ok: bool)
      requires InLongArm(z, i, c)
      requires if found then delta == i + 1 + 2 * As(sigma, i + 1) && delta <= |sigma|
          && Suspended(sigma, frames, c, i + 1) else delta == i + 1
      modifies this
      ensures |frames| == |old(frames)| && frames[..z] == old(frames)[..z] && InLongArm(z, i, c)
      ensures ok <==> found && old(delta) < |sigma| && sigma[old(delta)] == 'b'
      ensures ok ==> delta == old(delta) + 1 && Suspended(sigma, frames, z, i)
      ensures !ok ==> delta == i + 1
      decreases |frames| - z, 0
    {
      var more := found;
      while more
        invariant |frames| == |old(frames)| && frames[..z] == old(frames)[..z] && InLongArm(z, i, c)
        invariant if more then found && delta == old(delta) && Suspended(sigma, frames, c, i + 1) else delta == i + 1
        invariant found && !more ==> !(old(delta) < |sigma| && sigma[old(delta)] == 'b')
        decreases more
      {
        var before := frames;
        frames := frames[z := frames[z].(cr4Entered := true)];
        if delta + 1 <= |sigma| && sigma[delta] == 'b' {
          frames := frames[z := frames[z].(cr6Saved := delta)];
          delta := delta + 1;
          SuspendedAbove(sigma, before, frames, c, i + 1);
          return true;
        }
        frames := frames[z := frames[z].(cr4Entered := false)];
        SuspendedAbove(sigma, before, frames, c, i + 1);
        label Again:
        more := Resume(frames[z].cl5.value, i + 1);
        assert frames[z] == old@Again(frames)[z] by {
          assert frames[..c][z] == old@Again(frames)[..c][z];
        }
        assert frames[..z] == old@Again(frames)[..c][..z];
      }
      return false;
    }

    /** al1_ri_fail: the long arm gives its character back, and the short arm is tried. */
    method GiveUpLong(z: nat, ghost i: nat, ghost c: nat) returns (ok: bool)
      requires InLongArm(z, i, c)
      modifies this
      ensures |frames| == |old(frames)| && frames[..z] == old(frames)[..z]
      ensures ok <==> i + 1 < |sigma| && sigma[i + 1] == 'b'
      ensures if ok then delta == i + 2 && Suspended(sigma, frames, z, i) else delta == i
    {
      frames := frames[z := frames[z].(al1Entered := false)];
      delta := frames[z].cl3Saved;
      ok := ShortArm(z);
    }

    /** S with entry 1: there is no second end, and the cursor goes back to where S was entered. */
    method Resume(z: nat, ghost i: nat) returns (ok: bool)
      requires Suspended(sigma, frames, z, i)
      modifies this
      ensures |frames| == |old(frames)| && frames[..z] == old(frames)[..z]
      ensures !ok && delta == i
      decreases |frames| - z, 1
    {
      if frames[z].i == 1 {
        ghost var c := frames[z].cl5.value;
        ghost var before := frames;
        delta := frames[z].cr6Saved;
        frames := frames[z := frames[z].(cr4Entered := false)];
        SuspendedAbove(sigma, before, frames, c, i + 1);
        label Inner:
        var more := Resume(frames[z].cl5.value, i + 1);
        assert frames[z] == old@Inner(frames)[z] by {
          assert frames[..c][z] == old@Inner(frames)[..c][z];
        }
        assert frames[..z] == old@Inner(frames)[..c][..z];
        var again := AfterInner(z, more, i, c);
        ok := GiveUpLong(z, i, c);
      } else {
        delta := frames[z].cr8Saved;
        frames := frames[z := frames[z].(ar2Entered := false)];
        delta := frames[z].cl7Saved;
        ok := false;
      }
    }

    /** al1_alpha: an a, S, and a b. */
    method LongArm(z: nat) returns (answer: Answer)
      requires z + 1 == |frames| && delta < |sigma| && sigma[delta] == 'a' && frames[z].i == 1
      modifies this
      ensures answer.Exits? <==> z + As(sigma, old(delta)) + 1 > SLOTS
      ensures !answer.Exits? ==> |frames| == z + As(sigma, old(delta)) + 1 && frames[..z] == old(frames)[..z]
      ensures !answer.Exits? ==> (answer.Found? <==> Has(sigma, old(delta)))
      ensures answer.Found? ==> delta == old(delta) + 2 * As(sigma, old(delta)) <= |sigma|
      ensures answer.Found? ==> Suspended(sigma, frames, z, old(delta))
      ensures answer.Empty? ==> delta == old(delta)
      decreases |sigma| - delta, 0
    {
      ghost var i := delta;
      Arms(sigma, i);
      frames := frames[z := frames[z].(cl3Saved := delta, al1Entered := true, cr4Entered := false, cl5 := None)];
      delta := delta + 1;
      label Inner:
      var inner, c := Start();
      if inner.Exits? {
        return Exits;
      }
      assert frames[z] == old@Inner(frames)[z] && frames[..z] == old@Inner(frames)[..z] by {
        assert frames[..c][z] == old@Inner(frames)[z] && frames[..c][..z] == frames[..z];
      }
      var ok := AfterStart(z, inner.Found?, i, c);
      return if ok then Found else Empty;
    }

    /** What follows the inner call: a b, or the short arm. */
    method AfterStart(z: nat, found: bool, ghost i: nat, c: nat) returns (ok: bool)
      requires z < c < |frames| && i < |sigma| && sigma[i] == 'a' && frames[z].i == 1 && frames[z].al1Entered
          && frames[z].cl3Saved == i
      requires found <==> Has(sigma, i + 1)
      requires if found then delta == i + 1 + 2 * As(sigma, i + 1) <= |sigma| && Suspended(sigma, frames, c, i + 1)
          else delta == i + 1
      modifies this
      ensures |frames| == |old(frames)| && frames[..z] == old(frames)[..z]
      ensures ok <==> Has(sigma, i)
      ensures if ok then delta == i + 2 * As(sigma, i) <= |sigma| && Suspended(sigma, frames, z, i) else delta == i
    {
      Arms(sigma, i);
      ghost var before := frames;
      frames := frames[z := frames[z].(cl5 := Some(c))];
      if found {
        SuspendedAbove(sigma, before, frames, c, i + 1);
      }
      ok := AfterInner(z, found, i, c);
      if !ok {
        ok := GiveUpLong(z, i, c);
      }
    }

    /** S with entry 0. */
    method Start() returns (answer: Answer, z: nat)
      requires delta <= |sigma|
      modifies this
      ensures answer.Exits? <==> |old(frames)| + As(sigma, old(delta)) + 1 > SLOTS
      ensures !answer.Exits? ==> z == |old(frames)| && |frames| == z + As(sigma, old(delta)) + 1
      ensures !answer.Exits? ==> frames[..z] == old(frames)
      ensures !answer.Exits? ==> (answer.Found? <==> Has(sigma, old(delta)))
      ensures answer.Found? ==> delta == old(delta) + 2 * As(sigma, old(delta)) <= |sigma|
      ensures answer.Found? ==> Suspended(sigma, frames, z, old(delta))
      ensures answer.Empty? ==> delta == old(delta)
      decreases |sigma| - delta, 1
    {
      var entered := Enter();
      if entered.None? {
        return Exits, 0;
      }
      z := entered.value;
      frames := frames[z := frames[z].(i := 1, al1Entered := false)];
      if delta + 1 <= |sigma| && sigma[delta] == 'a' {
        answer := LongArm(z);
      } else {
        var ok := ShortArm(z);
        answer := if ok then Found else Empty;
      }
    }
  }

  /** engine_anbn: exits exactly if more than 50 a's stand in front; otherwise 1 exactly on the
      language. */
  method EngineAnbn(s: string) returns (r: Option<int>)
    ensures r == if As(s, 0) > 50 then None else Some(if IsAnbn(s) then 1 else 0)
  {
    AnbnEndIsLanguage(s);
    var e := new Engine(s);
    var answer, frame := e.Start();
    if answer.Exits? {
      return None;
    }
    var ok := answer.Found?;
    while ok
      invariant e.sigma == s
      invariant ok ==> Has(s, 0) && e.delta == 2 * As(s, 0) && Suspended(s, e.frames, frame, 0)
      invariant !ok ==> !Has(s, 0) || 2 * As(s, 0) != |s|
      decreases ok
    {
      if e.delta == |s| {
        return Some(1);
      }
      ok := e.Resume(frame, 0);
    }
    return Some(0);
  }
}
