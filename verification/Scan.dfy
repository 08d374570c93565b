/** match_pattern and match_and_replace of archive/backend/snobol4_pattern_with_engine.c:
    the leftmost scan over start positions, and the replacement of what it finds. */
module Scan {
  import opened Denotation
  import opened Laws
  import opened Patnd
  import opened PatndHeap
  import EngineValue
  import Engine

  lemma {:induction false} MaterialisedInFragment(t: Tree, scanStart: nat)
    ensures EngineValue.InFragment(Materialised(t, scanStart))
    decreases t
  {
    if !t.Tip? && t.children != [] {
      var ps := MaterialisedAll(t.children, scanStart);
      forall k | 0 <= k < |ps| ensures EngineValue.InFragment(ps[k]) {
        MaterialisedInFragment(t.children[k], scanStart);
      }
      FoldedInFragment(if t.CatTree? then XCat else XOr, ps);
    }
  }

  lemma {:induction false} FoldedInFragment(kind: Kind, ps: seq<Pattern>)
    requires ps != [] && forall k :: 0 <= k < |ps| ==> EngineValue.InFragment(ps[k])
    ensures EngineValue.InFragment(Folded(kind, ps))
    decreases |ps|
  {
    if |ps| > 1 {
      FoldedInFragment(kind, ps[1..]);
    }
  }

  /** The end of the first match of `p` from `start`, positions counted in the whole subject. */
  function MatchAt(p: Pattern, s: string, start: nat): Option<nat>
    requires start <= |s|
  {
    FirstEnd(Ends(Env(s, 0, map[]), 0, p, start))
  }

  /** The end found by matching `root` at the front of the rest of the subject. */
  function Attempt(root: Pattern, s: string, start: nat): Option<nat>
    requires start <= |s|
  {
    var e := FirstEnd(Ends(Env(s[start..], start, map[]), 0, root, 0));
    if e.Some? then Some(start + e.value) else None
  }

  lemma FirstShifts(env: Env, k: nat, d: nat, p: Pattern, i: nat)
    requires k + i <= |env.s|
    ensures var e := FirstEnd(Ends(From(env, k), d, p, i));
            FirstEnd(Ends(env, d, p, i + k)) == if e.Some? then Some(k + e.value) else None
  {
    ShiftEnds(env, k, d, p, i);
  }

  /** An attempt on the rest of the subject finds the match there is in the whole subject. */
  lemma AttemptEnds(root: Pattern, s: string, start: nat)
    requires start <= |s|
    ensures MatchAt(root, s, start) == Attempt(root, s, start)
  {
    var env := Env(s, 0, map[]);
    assert From(env, start) == Env(s[start..], start, map[]);
    FirstShifts(env, start, 0, root, 0);
  }

  /** The attempt at `start` stops before the engine gives up on it. */
  ghost predicate AttemptWithinCap(root: Pattern, s: string, start: nat)
    requires start <= |s| && EngineValue.InFragment(root)
  {
    Engine.StopsWithin(Env(s[start..], start, map[]), root, 10_000_000)
  }

  /** No match starts before `start`. */
  ghost predicate NoneBefore(p: Pattern, s: string, start: nat)
    requires start <= |s| + 1
  {
    forall k: nat :: k < start ==> MatchAt(p, s, k) == None
  }

  /** Every attempt does that a scan from the left comes to. */
  ghost predicate WithinCap(root: Pattern, s: string)
    requires EngineValue.InFragment(root)
  {
    forall start: nat :: start <= |s| && NoneBefore(root, s, start) ==> AttemptWithinCap(root, s, start)
  }

  /** try_match_at_root: one attempt of the engine on the rest of the subject. */
  method TryMatchAtRoot(root: Pattern, s: string, start: nat) returns (end: Option<nat>)
    requires start <= |s| && EngineValue.InFragment(root)
    ensures AttemptWithinCap(root, s, start) ==> end == Attempt(root, s, start)
    ensures end.Some? ==> end.value <= |s|
  {
    var r := Engine.EngineMatchEx(root, s[start..], start);
    end := if r.matched then Some(start + r.end) else None;
  }

  /** `found` is the least start with a match, together with the first end from there. */
  ghost predicate IsLeftmost(p: Pattern, s: string, found: Option<(nat, nat)>) {
    match found
    case None => NoneBefore(p, s, |s| + 1)
    case Some((start, end)) =>
      start <= |s| && end <= |s| && MatchAt(p, s, start) == Some(end) && NoneBefore(p, s, start)
  }

  /** What an attempt at `start` adds to what is known of the starts before it. */
  lemma AttemptDecides(root: Pattern, s: string, start: nat, end: Option<nat>)
    requires EngineValue.InFragment(root) && start <= |s| && (end.Some? ==> end.value <= |s|)
    requires WithinCap(root, s) && NoneBefore(root, s, start)
    requires AttemptWithinCap(root, s, start) ==> end == Attempt(root, s, start)
    ensures if end.Some? then IsLeftmost(root, s, Some((start, end.value))) else NoneBefore(root, s, start + 1)
  {
    assert AttemptWithinCap(root, s, start);
    AttemptEnds(root, s, start);
  }

  /** Tries every start from the left; reports the first that matches and where it ends. */
  method Leftmost(root: Pattern, s: string) returns (found: Option<(nat, nat)>)
    requires EngineValue.InFragment(root)
    ensures WithinCap(root, s) ==> IsLeftmost(root, s, found)
    ensures found.Some? ==> found.value.0 <= |s| && found.value.1 <= |s|
  {
    for start := 0 to |s| + 1
      invariant WithinCap(root, s) ==> NoneBefore(root, s, start)
    {
      var end := TryMatchAtRoot(root, s, start);
      if WithinCap(root, s) {
        AttemptDecides(root, s, start, end);
      }
      if end.Some? {
        return Some((start, end.value));
      }
    }
    return None;
  }

  lemma LeftmostIsUnique(p: Pattern, s: string, a: Option<(nat, nat)>, b: Option<(nat, nat)>)
    requires IsLeftmost(p, s, a) && IsLeftmost(p, s, b)
    ensures a == b
  {
    if a.Some? && b.Some? {
      assert a.value.0 == b.value.0;
    }
  }

  predicate Contains(s: string, w: string) {
    exists k :: 0 <= k <= |s| && HasAt(s, k, w)
  }

  /** match_pattern: does the pattern match somewhere, or at the start when anchored? */
  method MatchPattern(pat: Descr, subject: string, anchor: bool) returns (matched: bool)
    requires ValidDescr(pat)
    ensures pat.OtherVal? || pat.NumVal? || pat.NulVal? ==> !matched
    ensures pat.StrVal? ==> matched == Contains(subject, pat.text)
    ensures pat.PatVal? ==>
              var root := Materialised(pat.node.tree, 0);
              && EngineValue.InFragment(root)
              && (anchor && AttemptWithinCap(root, subject, 0) ==> matched == MatchAt(root, subject, 0).Some?)
              && (!anchor && WithinCap(root, subject) ==>
                    matched == exists k: nat :: k <= |subject| && MatchAt(root, subject, k).Some?)
  {
    match pat
    case PatVal(node) =>
      var root := Materialise(node, 0);
      MaterialisedInFragment(node.tree, 0);
      if anchor {
        var end := TryMatchAtRoot(root, subject, 0);
        AttemptEnds(root, subject, 0);
        return end.Some?;
      }
      var found := Leftmost(root, subject);
      return found.Some?;
    case StrVal(text) =>
      matched := exists k :: 0 <= k <= |subject| && HasAt(subject, k, text);
    case _ =>
      matched := false;
  }

  /** `result` is the subject with its part from `start` to `end` replaced. */
  ghost predicate Replaced(s: string, start: nat, end: nat, repl: string, result: string) {
    && start <= end <= |s| && |result| == |s| - (end - start) + |repl|
    && (forall k :: 0 <= k < start ==> result[k] == s[k])
    && (forall k :: 0 <= k < |repl| ==> result[start + k] == repl[k])
    && (forall k :: end <= k < |s| ==> result[k - end + start + |repl|] == s[k])
  }

  /** No match ends before it starts. */
  lemma MatchGoesAhead(p: Pattern, s: string, start: nat)
    requires start <= |s| && MatchAt(p, s, start).Some?
    ensures start <= MatchAt(p, s, start).value <= |s|
  {
    EndsAreAhead(Env(s, 0, map[]), 0, p, start);
  }

  lemma PartsReplaced(s: string, start: nat, end: nat, repl: string, result: string)
    requires start <= end <= |s| && result == s[..start] + repl + s[end..]
    ensures Replaced(s, start, end, repl, result)
  {
  }

  /** match_and_replace: replaces the leftmost match by its first end; None replacement is
      a failed value. A subject or pattern that does not qualify is left as it is. */
  method MatchAndReplace(subject: string, pat: Descr, replacement: Option<string>)
    returns (ok: bool, result: string)
    requires ValidDescr(pat)
    ensures !ok ==> result == subject
    ensures !pat.PatVal? || replacement.None? ==> !ok
    ensures pat.PatVal? && replacement.Some? ==>
              var root := Materialised(pat.node.tree, 0);
              && EngineValue.InFragment(root)
              && (WithinCap(root, subject) ==>
                    exists found: Option<(nat, nat)> ::
                      && IsLeftmost(root, subject, found) && ok == found.Some?
                      && (ok ==> Replaced(subject, found.value.0, found.value.1, replacement.value, result)))
  {
    if replacement.None? || !pat.PatVal? {
      return false, subject;
    }
    var root := Materialise(pat.node, 0);
    MaterialisedInFragment(pat.node.tree, 0);
    var found := Leftmost(root, subject);
    if found.None? {
      return false, subject;
    }
    var (start, end) := found.value;
    ok, result := true, subject[..start] + replacement.value + subject[end..];
    if WithinCap(root, subject) {
      MatchGoesAhead(root, subject, start);
      PartsReplaced(subject, start, end, replacement.value, result);
    }
  }

  // ----- what the scanned pattern means -----

  /** The scanned root matches where the n-ary reading of the tree matches. */
  lemma MatchAtMeaning(t: Tree, s: string, start: nat)
    requires start <= |s|
    ensures MatchAt(Materialised(t, 0), s, start) == MatchAt(Meaning(t), s, start)
  {
    MaterialisedEnds(Env(s, 0, map[]), 0, t, start);
  }

  /** Construction, materialisation and scan together: the leftmost match of the pattern a
      nest of constructor calls builds is the leftmost match of what was written. */
  lemma LeftmostOfWritten(e: Expr, s: string, found: Option<(nat, nat)>)
    ensures IsLeftmost(Materialised(Built(e), 0), s, found) <==> IsLeftmost(Written(e), s, found)
  {
    forall k: nat | k <= |s| ensures MatchAt(Materialised(Built(e), 0), s, k) == MatchAt(Written(e), s, k) {
      FlattenThenFold(Env(s, 0, map[]), 0, e, k);
    }
  }

  // ----- match_pattern_at -----

  predicate NoPos(t: Tree) {
    match t
    case Tip(kind, _, _) => kind != XPosi
    case CatTree(cs) => forall k :: 0 <= k < |cs| ==> NoPos(cs[k])
    case OrTree(cs) => forall k :: 0 <= k < |cs| ==> NoPos(cs[k])
  }

  /** What match_pattern_at answers: the pattern materialised at the cursor, run at the cursor. */
  function MatchedFromCursor(t: Tree, s: string, cursor: nat): Option<nat>
    requires cursor <= |s|
  {
    Attempt(Materialised(t, cursor), s, cursor)
  }

  /** match_pattern_at: an anchored match at a cursor. Values that are not patterns match
      as literals, or as the empty string. */
  method MatchPatternAt(pat: Descr, s: string, cursor: int) returns (end: Option<nat>)
    requires ValidDescr(pat)
    ensures cursor < 0 || cursor > |s| ==> end == None
    ensures 0 <= cursor <= |s| && pat.StrVal? ==>
              end == if HasAt(s, cursor, pat.text) then Some(cursor + |pat.text|) else None
    ensures 0 <= cursor <= |s| && (pat.NumVal? || pat.NulVal? || pat.OtherVal?) ==> end == Some(cursor)
    ensures 0 <= cursor <= |s| && pat.PatVal? ==>
              var root := Materialised(pat.node.tree, cursor);
              && EngineValue.InFragment(root)
              && (AttemptWithinCap(root, s, cursor) ==> end == MatchedFromCursor(pat.node.tree, s, cursor))
  {
    if cursor < 0 || cursor > |s| {
      return None;
    }
    match pat
    case PatVal(node) =>
      var root := Materialise(node, cursor);
      MaterialisedInFragment(node.tree, cursor);
      end := TryMatchAtRoot(root, s, cursor);
    case StrVal(text) =>
      end := if HasAt(s, cursor, text) then Some(cursor + |text|) else None;
    case _ =>
      end := Some(cursor);
  }

  /** The tree with each POS(n) replaced by POS(n - offset). */
  function Shifted(t: Tree, offset: nat): Tree {
    match t
    case Tip(kind, text, num) => if kind == XPosi then Tip(kind, text, num - offset) else t
    case CatTree(cs) => CatTree(ShiftedAll(cs, offset))
    case OrTree(cs) => OrTree(ShiftedAll(cs, offset))
  }

  function ShiftedAll(ts: seq<Tree>, offset: nat): (us: seq<Tree>)
    ensures |us| == |ts| && forall k :: 0 <= k < |ts| ==> us[k] == Shifted(ts[k], offset)
  {
    if ts == [] then [] else [Shifted(ts[0], offset)] + ShiftedAll(ts[1..], offset)
  }

  /** Materialising at an offset is materialising the shifted tree at the start. */
  lemma {:induction false} OffsetShifts(t: Tree, offset: nat)
    ensures Materialised(t, offset) == Materialised(Shifted(t, offset), 0)
    decreases t
  {
    if !t.Tip? {
      var us := ShiftedAll(t.children, offset);
      forall k | 0 <= k < |us| ensures Materialised(t.children[k], offset) == Materialised(us[k], 0) {
        OffsetShifts(t.children[k], offset);
      }
      assert MaterialisedAll(t.children, offset) == MaterialisedAll(us, 0);
    }
  }

  /** POS is moved by the cursor twice, once when materialised and once when scanned: at a cursor,
      match_pattern_at finds what the shifted tree matches there, positions counted as they should be. */
  lemma MatchedFromCursorIsShifted(t: Tree, s: string, cursor: nat)
    requires cursor <= |s|
    ensures MatchedFromCursor(t, s, cursor) == MatchAt(Meaning(Shifted(t, cursor)), s, cursor)
  {
    var u := Shifted(t, cursor);
    OffsetShifts(t, cursor);
    AttemptEnds(Materialised(u, 0), s, cursor);
    MatchAtMeaning(u, s, cursor);
  }

  lemma {:induction false} ShiftedNoPos(t: Tree, offset: nat)
    requires offset == 0 || NoPos(t)
    ensures Shifted(t, offset) == t
  {
    if !t.Tip? {
      forall k | 0 <= k < |t.children| ensures Shifted(t.children[k], offset) == t.children[k] {
        ShiftedNoPos(t.children[k], offset);
      }
      assert ShiftedAll(t.children, offset) == t.children;
    }
  }

  /** At cursor 0, and for patterns without POS, that is the match at the cursor. */
  lemma MatchedFromCursorIsExact(t: Tree, s: string, cursor: nat)
    requires cursor <= |s| && (cursor == 0 || NoPos(t))
    ensures MatchedFromCursor(t, s, cursor) == MatchAt(Meaning(t), s, cursor)
  {
    ShiftedNoPos(t, cursor);
    MatchedFromCursorIsShifted(t, s, cursor);
  }

  /** A bare POS(n), at a cursor, holds for n == 2 * cursor, and is right exactly when the
      shift makes no difference. */
  lemma PosIsOffsetTwice(n: int, s: string, cursor: nat)
    requires cursor <= |s|
    ensures MatchedFromCursor(Tip(XPosi, "", n), s, cursor).Some? <==> n == 2 * cursor
    ensures MatchedFromCursor(Tip(XPosi, "", n), s, cursor) == MatchAt(Pos(n), s, cursor)
            <==> cursor == 0 || (n != cursor && n != 2 * cursor)
  {
  }

  /** A concrete case: POS(1) at cursor 1 of a two-character subject. */
  lemma PosAtCursorOneFails()
    ensures MatchAt(Pos(1), "ab", 1) == Some(1) && MatchedFromCursor(Tip(XPosi, "", 1), "ab", 1) == None
  {
  }
}
