/** bench/gen_aorb_star_abb.c: the generated engine for (a|b)*abb. The labels of ROOT become the
    turns of a loop; an5_beta, which no goto names, is left out. */
module AorbStarAbb {

  const REPEATS: nat := 64

  /** The arena of bench/arena_runtime.c, and the two frames with their headers under the
      System V AMD64 ABI. */
  const ARENA_SIZE: nat := 4096
  const ROOT_TOTAL: nat := 592
  const AB_TOTAL: nat := 40

  predicate IsAorB(c: char) {
    c == 'a' || c == 'b'
  }

  /** (a|b)*abb */
  predicate InLanguage(s: string) {
    && |s| >= 3 && s[|s| - 3..] == "abb"
    && forall i :: 0 <= i < |s| ==> IsAorB(s[i])
  }

  predicate Repeats(s: string, k: nat) {
    k <= |s| && forall i :: 0 <= i < k ==> IsAorB(s[i])
  }

  /** An end of the pattern, `k` repetitions of a|b before abb; the stack of cursors holds 64. */
  predicate Hit(s: string, k: nat) {
    k <= REPEATS && Repeats(s, k) && k + 3 <= |s| && s[k] == 'a' && s[k + 1] == 'b' && s[k + 2] == 'b'
  }

  predicate NoneIn(s: string, from: nat, to: nat) {
    forall j :: from <= j < to ==> !Hit(s, j)
  }

  ghost predicate NoneFrom(s: string, from: nat) {
    forall j :: from <= j ==> !Hit(s, j)
  }

  lemma {:induction false} RepeatsStop(s: string, k: nat)
    requires k > 64 || (k < |s| && !IsAorB(s[k])) || k >= |s|
    ensures NoneFrom(s, k + 1) && (k > 64 ==> NoneFrom(s, k))
  {
  }

  /** A hit at the end of the subject means membership, up to the length the stack allows. */
  lemma {:induction false} HitAtEnd(s: string)
    ensures (exists k: nat :: Hit(s, k) && k + 3 == |s|) <==> InLanguage(s) && |s| <= 67
  {
    if InLanguage(s) && |s| <= 67 {
      var k := |s| - 3;
      assert s[k..][0] == s[k] && s[k..][1] == s[k + 1] && s[k..][2] == s[k + 2];
      assert Hit(s, k);
    }
    if k: nat :| Hit(s, k) && k + 3 == |s| {
      assert s[|s| - 3..] == [s[k], s[k + 1], s[k + 2]] == "abb";
    }
  }

  /** The labels between which control goes; cl3_beta stands for the four labels of a repetition. */
  datatype Label =
    | RootLiOk | Cr4Alpha | Cl6Alpha | Cr4LiOk | Cr7Alpha | Cl8Alpha | Cr7LiOk | Cr9Alpha | MatchOk
    | RootBeta | Cr4Beta | Cr7Beta | Cr9Beta | Cr7RiFail | Cl8Beta | Cr4RiFail | Cl6Beta | RootRiFail | Cl3Beta
  {
    /** Sets or clears a flag on the way on. */
    predicate Opens() { RootLiOk? || Cr4Alpha? || Cr4LiOk? || Cr7Alpha? || Cr7LiOk? }

    /** Reads a character. */
    predicate Reads() { Cl6Alpha? || Cl8Alpha? || Cr9Alpha? }

    /** Asks a flag on the way back. */
    predicate Asks() { RootBeta? || Cr4Beta? || Cr7Beta? }

    /** Clears a flag on the way back. */
    predicate Clears() { Cr7RiFail? || Cr4RiFail? || RootRiFail? }

    /** Gives a character back. */
    predicate Restores() { Cr9Beta? || Cl8Beta? || Cl6Beta? }

    predicate Forward() { Opens() || Reads() || MatchOk? }
  }

  /** The frame of the function for a|b; the second port is never used. */
  class AbFrame {
    var i: int
    var al1Saved: nat
    var ar2Saved: nat

    constructor ()
      ensures i == 0 && al1Saved == 0 && ar2Saved == 0
    {
      i, al1Saved, ar2Saved := 0, 0, 0;
    }
  }

  class Engine {
    const sigma: string
    var delta: nat
    var arena: nat

    // the frame of ROOT
    var entered: bool
    const cursors: array<nat>
    var depth: int
    var cr4Entered: bool
    var cl6Saved: nat
    var cr7Entered: bool
    var cl8Saved: nat
    var cr9Saved: nat

    constructor (s: string)
      ensures sigma == s && delta == 0 && arena == 0 && fresh(cursors) && cursors.Length == REPEATS
    {
      sigma := s;
      delta, arena, entered, depth := 0, 0, false, 0;
      cr4Entered, cl6Saved, cr7Entered, cl8Saved, cr9Saved := false, 0, false, 0, 0;
      cursors := new nat[REPEATS];
    }

    // ----- what holds at each label -----

    /** How many of the characters abb have been read after the repetitions. */
    function Reached(pc: Label): nat
      reads this
    {
      if pc.Cr4Beta? then if cr4Entered then 3 else 0
      else if pc.Cr7Beta? then if cr7Entered then 3 else 1
      else if pc.MatchOk? || pc.RootBeta? || pc.Cr9Beta? then 3
      else if pc.Cr7LiOk? || pc.Cr9Alpha? || pc.Cr7RiFail? || pc.Cl8Beta? then 2
      else if pc.Cr4LiOk? || pc.Cr7Alpha? || pc.Cl8Alpha? || pc.Cr4RiFail? || pc.Cl6Beta? then 1
      else 0
    }

    /** The start cursors of the repetitions are 0, 1, 2, and so on; no frame of a repetition
        is ever given back. */
    ghost predicate Stacked(k: int)
      reads this, cursors
    {
      && cursors.Length == REPEATS && 0 <= k <= REPEATS && arena == ROOT_TOTAL + AB_TOTAL * k
      && forall i :: 0 <= i < k ==> cursors[i] == i
    }

    /** After `k` repetitions, `r` characters of abb read. */
    ghost predicate Read(k: nat, r: nat)
      reads this
    {
      && Repeats(sigma, k) && delta == k + r <= |sigma|
      && (r >= 1 ==> sigma[k] == 'a' && cl6Saved == k)
      && (r >= 2 ==> sigma[k + 1] == 'b' && cl8Saved == k + 1)
      && (r >= 3 ==> sigma[k + 2] == 'b' && cr9Saved == k + 2)
    }

    predicate Flags(pc: Label)
      reads this
    {
      if pc.RootLiOk? || pc.Cl3Beta? then !entered
      else if pc.Cr4Alpha? || pc.Cr4RiFail? then entered
      else if pc.Cl6Alpha? || pc.Cr4LiOk? || pc.Cl6Beta? || pc.RootRiFail? then entered && !cr4Entered
      else if pc.Cr4Beta? then entered && (cr4Entered ==> cr7Entered)
      else if pc.Cr7Alpha? || pc.Cr7RiFail? || pc.Cr7Beta? then entered && cr4Entered
      else if pc.Cl8Alpha? || pc.Cr7LiOk? || pc.Cl8Beta? then entered && cr4Entered && !cr7Entered
      else entered && cr4Entered && cr7Entered
    }

    /** No hit from `from` on has been passed over. */
    ghost predicate At(pc: Label, from: nat)
      reads this, cursors
    {
      && Stacked(depth + 1) && Read(depth + 1, Reached(pc)) && Flags(pc)
      && from <= Tried(pc) && NoneIn(sigma, from, Tried(pc))
    }

    /** Hits below this have been tried. */
    function Tried(pc: Label): int
      reads this
    {
      if pc.Forward() then depth + 1 else depth + 2
    }

    /** Where a match has been reported. */
    ghost predicate Matched()
      reads this, cursors
    {
      depth >= -1 && At(MatchOk, depth + 1)
    }

    // ----- the function for a|b, and ROOT -----

    /** sno_enter: there is always room. */
    method Enter(total: nat)
      requires arena + total <= ARENA_SIZE
      modifies this`arena
      ensures arena == old(arena) + total
    {
      arena := arena + total;
    }

    /** AB, entry 0 */
    method Ab() returns (ok: bool)
      requires delta <= |sigma| && arena + AB_TOTAL <= ARENA_SIZE
      modifies this`delta, this`arena
      ensures arena == old(arena) + AB_TOTAL
      ensures ok <==> old(delta) < |sigma| && IsAorB(sigma[old(delta)])
      ensures delta == if ok then old(delta) + 1 else old(delta)
    {
      Enter(AB_TOTAL);
      var z := new AbFrame();
      z.i := 1;
      if delta + 1 <= |sigma| && sigma[delta] == 'a' {
        z.al1Saved, delta := delta, delta + 1;
        z.i := 1;
        return true;
      }
      z.i := 2;
      if delta + 1 <= |sigma| && sigma[delta] == 'b' {
        z.ar2Saved, delta := delta, delta + 1;
        z.i := 2;
        return true;
      }
      return false;
    }

    /** One character of abb, read at `delta` or not. */
    method Char(c: char) returns (ok: bool, saved: nat)
      requires delta <= |sigma|
      modifies this`delta
      ensures saved == old(delta) && (ok <==> old(delta) < |sigma| && sigma[old(delta)] == c)
      ensures delta == if ok then old(delta) + 1 else old(delta)
    {
      ok, saved := delta + 1 <= |sigma| && sigma[delta] == c, delta;
      if ok {
        delta := delta + 1;
      }
    }

    method Open(pc: Label, from: nat) returns (next: Label)
      requires pc.Opens() && At(pc, from)
      modifies this`entered, this`cr4Entered, this`cr7Entered
      ensures At(next, from) && Rank(next) < old(Rank(pc))
    {
      match pc
      case RootLiOk => entered := true; next := Cr4Alpha;
      case Cr4Alpha => cr4Entered := false; next := Cl6Alpha;
      case Cr4LiOk => cr4Entered := true; next := Cr7Alpha;
      case Cr7Alpha => cr7Entered := false; next := Cl8Alpha;
      case Cr7LiOk => cr7Entered := true; next := Cr9Alpha;
    }

    method ReadOn(pc: Label, from: nat) returns (next: Label)
      requires pc.Reads() && At(pc, from)
      modifies this`delta, this`cl6Saved, this`cl8Saved, this`cr9Saved
      ensures At(next, from) && Rank(next) < old(Rank(pc))
    {
      if pc.Cl6Alpha? {
        next := ReadA(from);
      } else if pc.Cl8Alpha? {
        next := ReadFirstB(from);
      } else {
        next := ReadSecondB(from);
      }
    }

    method ReadA(from: nat) returns (next: Label)
      requires At(Cl6Alpha, from)
      modifies this`delta, this`cl6Saved
      ensures At(next, from) && (next == Cr4LiOk || (next == Cr4Beta && !cr4Entered))
    {
      var ok, saved := Char('a');
      if ok { cl6Saved := saved; next := Cr4LiOk; } else { next := Cr4Beta; }
    }

    method ReadFirstB(from: nat) returns (next: Label)
      requires At(Cl8Alpha, from)
      modifies this`delta, this`cl8Saved
      ensures At(next, from) && (next == Cr7LiOk || (next == Cr7Beta && !cr7Entered))
    {
      var ok, saved := Char('b');
      if ok { cl8Saved := saved; next := Cr7LiOk; } else { next := Cr7Beta; }
    }

    method ReadSecondB(from: nat) returns (next: Label)
      requires At(Cr9Alpha, from)
      modifies this`delta, this`cr9Saved
      ensures At(next, from) && (next == MatchOk || next == Cr7RiFail)
    {
      var ok, saved := Char('b');
      if ok { cr9Saved := saved; next := MatchOk; } else { next := Cr7RiFail; }
    }

    method Ask(pc: Label, from: nat) returns (next: Label)
      requires pc.Asks() && At(pc, from)
      ensures At(next, from) && Rank(next) < Rank(pc)
    {
      match pc
      case RootBeta => next := Cr4Beta;
      case Cr4Beta => next := if cr4Entered then Cr7Beta else RootRiFail;
      case Cr7Beta => next := if cr7Entered then Cr9Beta else Cr4RiFail;
    }

    method Clear(pc: Label, from: nat) returns (next: Label)
      requires pc.Clears() && At(pc, from)
      modifies this`entered, this`cr4Entered, this`cr7Entered
      ensures At(next, from) && Rank(next) < old(Rank(pc))
    {
      match pc
      case Cr7RiFail => cr7Entered := false; next := Cl8Beta;
      case Cr4RiFail => cr4Entered := false; next := Cl6Beta;
      case RootRiFail => entered := false; next := Cl3Beta;
    }

    method Restore(pc: Label, from: nat) returns (next: Label)
      requires pc.Restores() && At(pc, from)
      modifies this`delta
      ensures At(next, from) && Rank(next) < old(Rank(pc))
    {
      match pc
      case Cr9Beta => delta := cr9Saved; next := Cr7RiFail;
      case Cl8Beta => delta := cl8Saved; next := Cr7Beta;
      case Cl6Beta => delta := cl6Saved; next := Cr4Beta;
    }

    /** How far a label is from the next repetition, or from a match. */
    function Rank(pc: Label): nat
      reads this
    {
      if pc.Cr4Beta? then if cr4Entered then 12 else 4
      else if pc.Cr7Beta? then if cr7Entered then 11 else 7
      else if pc.RootLiOk? then 21 else if pc.Cr4Alpha? then 20 else if pc.Cl6Alpha? then 19
      else if pc.Cr4LiOk? then 18 else if pc.Cr7Alpha? then 17 else if pc.Cl8Alpha? then 16
      else if pc.Cr7LiOk? then 15 else if pc.Cr9Alpha? then 14 else if pc.RootBeta? then 13
      else if pc.Cr9Beta? then 10 else if pc.Cr7RiFail? then 9 else if pc.Cl8Beta? then 8
      else if pc.Cr4RiFail? then 6 else if pc.Cl6Beta? then 5 else if pc.RootRiFail? then 3
      else 0
    }

    /** cl3_beta with an5_alpha and cl3_cfail: one repetition more, if the stack has room and
        there is an a or a b; otherwise the function fails. */
    method OneMore(from: nat) returns (ok: bool)
      requires At(Cl3Beta, from)
      modifies this, cursors
      ensures ok ==> At(RootLiOk, from) && depth == old(depth) + 1
      ensures !ok ==> NoneFrom(sigma, from)
    {
      depth := depth + 1;
      if depth >= REPEATS {
        RepeatsStop(sigma, depth + 1);
        return false;
      }
      cursors[depth] := delta;
      ok := Ab();
      if !ok {
        RepeatsStop(sigma, depth);
        delta := cursors[depth];
        depth := depth - 1;
      }
    }

    /** The loop over the labels, from either entry. */
    method Follow(start: Label, from: nat) returns (ok: bool)
      requires At(start, from)
      modifies this, cursors
      ensures ok ==> At(MatchOk, from)
      ensures !ok ==> NoneFrom(sigma, from)
    {
      var pc := start;
      while pc != MatchOk
        invariant At(pc, from)
        decreases REPEATS - depth, Rank(pc)
      {
        if pc.Cl3Beta? {
          var more := OneMore(from);
          if !more {
            return false;
          }
          pc := RootLiOk;
        } else if pc.Opens() {
          pc := Open(pc, from);
        } else if pc.Reads() {
          pc := ReadOn(pc, from);
        } else if pc.Asks() {
          pc := Ask(pc, from);
        } else if pc.Clears() {
          pc := Clear(pc, from);
        } else {
          pc := Restore(pc, from);
        }
      }
      return true;
    }

    /** ROOT: with entry 0 the first hit, with entry 1 the next one. */
    method Root(entry: int) returns (ok: bool)
      requires entry == 0 ==> delta == 0 && arena == 0 && cursors.Length == REPEATS
      requires entry != 0 ==> Matched()
      modifies this, cursors
      ensures var from := if entry == 0 then 0 else old(depth) + 2;
        if ok then Matched() && depth + 1 >= from && delta == depth + 4 && Hit(sigma, depth + 1)
            && NoneIn(sigma, from, depth + 1)
        else NoneFrom(sigma, from)
    {
      if entry == 0 {
        Enter(ROOT_TOTAL);
        entered := false;
        depth := -1;
        ok := Follow(RootLiOk, 0);
      } else {
        ok := Follow(RootBeta, depth + 2);
      }
    }
  }

  /** engine_aorb_star_abb: 1 exactly on the texts of (a|b)*abb with at most 67 characters. */
  method EngineAorbStarAbb(s: string) returns (r: int)
    ensures r == if InLanguage(s) && |s| <= 67 then 1 else 0
  {
    HitAtEnd(s);
    var e := new Engine(s);
    var first := true;
    while true
      invariant e.sigma == s && fresh(e) && fresh(e.cursors) && e.cursors.Length == REPEATS
      invariant first ==> e.delta == 0 && e.arena == 0
      invariant !first ==> e.Matched() && e.depth + 4 != |s|
      invariant !first ==> forall j: nat :: j <= e.depth + 1 && Hit(s, j) ==> j + 3 != |s|
      decreases if first then REPEATS + 2 else REPEATS - e.depth
    {
      var ok := e.Root(if first then 0 else 1);
      first := false;
      if !ok {
        return 0;
      }
      if e.delta == |s| {
        return 1;
      }
    }
  }
}
