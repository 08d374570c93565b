/** The meaning shared by every matcher of the repository.
    A pattern, run on a subject from a cursor, yields an ordered stream of end
    cursors: the order in which backtracking would deliver them. */
module Denotation {

  datatype Option<+T> = None | Some(value: T)

  /** Pattern nodes. `Sigma` is the n-ary sequence and `Pi` the n-ary alternation.
      `Span` keeps only the longest run, as archive/backend/engine.c does;
      `SpanRetreat` gives characters back one at a time, as archive/backend/emit_c.py does.
      `Ref` names a pattern of the graph and makes patterns recursive. */
  datatype Pattern =
    | Literal(s: string)
    | Any(chars: string)
    | NotAny(chars: string)
    | Span(chars: string)
    | SpanRetreat(chars: string)
    | Break(chars: string)
    | Len(n: int)
    | Pos(n: int)
    | RPos(n: int)
    | Tab(n: int)
    | RTab(n: int)
    | Rem
    | Arb
    | Epsilon
    | Fail
    | Abort
    | Fence
    | Sigma(children: seq<Pattern>)
    | Pi(children: seq<Pattern>)
    | Opt(child: Pattern)
    | Ref(name: string)

  /** What a match runs against: the subject, the absolute offset of the subject's
      first character (POS and TAB count from there), and the named patterns. */
  datatype Env = Env(s: string, base: nat, graph: map<string, Pattern>)

  /** Successive end cursors; `cut` says that nothing may be tried after the last
      of them, either because the pattern aborts the match there or because a
      recursion is deeper than the depth allowed. */
  datatype Stream = Stream(ends: seq<nat>, cut: bool)

  const Nothing := Stream([], false)

  predicate Within(st: Stream, n: nat) {
    forall k :: 0 <= k < |st.ends| ==> st.ends[k] <= n
  }

  function Unit(i: nat): Stream {
    Stream([i], false)
  }

  function Append(a: Stream, b: Stream): Stream {
    if a.cut then a else Stream(a.ends + b.ends, b.cut)
  }

  /** End of the longest run of characters of `chars` from `i`. */
  function RunEnd(s: string, chars: string, i: nat): (e: nat)
    requires i <= |s|
    ensures i <= e <= |s|
    ensures forall j :: i <= j < e ==> s[j] in chars
    ensures e < |s| ==> s[e] !in chars
    decreases |s| - i
  {
    if i < |s| && s[i] in chars then RunEnd(s, chars, i + 1) else i
  }

  /** First position from `i` that holds a character of `chars`, or the end of the subject. */
  function BreakEnd(s: string, chars: string, i: nat): (e: nat)
    requires i <= |s|
    ensures i <= e <= |s|
    ensures forall j :: i <= j < e ==> s[j] !in chars
    ensures e < |s| ==> s[e] in chars
    decreases |s| - i
  {
    if i < |s| && s[i] !in chars then BreakEnd(s, chars, i + 1) else i
  }

  predicate HasAt(s: string, i: nat, w: string)
  {
    i + |w| <= |s| && s[i..i + |w|] == w
  }

  /** i, i+1, ..., n */
  function UpFrom(i: nat, n: nat): (r: seq<nat>)
    requires i <= n + 1
    ensures |r| == n + 1 - i && forall k :: 0 <= k < |r| ==> r[k] == i + k
    decreases n + 1 - i
  {
    if i == n + 1 then [] else [i] + UpFrom(i + 1, n)
  }

  /** n, n-1, ..., i+1 */
  function DownTo(n: nat, i: nat): (r: seq<nat>)
    requires i <= n
    ensures |r| == n - i && forall k :: 0 <= k < |r| ==> r[k] == n - k
    decreases n - i
  {
    if n == i then [] else [n] + DownTo(n - 1, i)
  }

  predicate IsLeaf(p: Pattern) {
    !p.Sigma? && !p.Pi? && !p.Opt? && !p.Arb? && !p.Abort? && !p.Fence? && !p.SpanRetreat? && !p.Ref?
  }

  /** The one end of a pattern that matches in at most one way, if it matches at `i`. */
  function LeafEnd(env: Env, p: Pattern, i: nat): (r: Option<nat>)
    requires IsLeaf(p) && i <= |env.s|
    ensures r.Some? ==> i <= r.value <= |env.s|
  {
    var s := env.s;
    match p
    case Literal(w) => if HasAt(s, i, w) then Some(i + |w|) else None
    case Any(cs) => if i < |s| && s[i] in cs then Some(i + 1) else None
    case NotAny(cs) => if i < |s| && s[i] !in cs then Some(i + 1) else None
    case Span(cs) => var e := RunEnd(s, cs, i); if e > i then Some(e) else None
    case Break(cs) => var e := BreakEnd(s, cs, i); if e < |s| then Some(e) else None
    case Len(n) => if 0 <= n <= |s| - i then Some(i + n) else None
    case Pos(n) => if n == env.base + i then Some(i) else None
    case RPos(n) => if n == |s| - i then Some(i) else None
    case Tab(n) => if i <= n - env.base <= |s| then Some(n - env.base) else None
    case RTab(n) => if 0 <= n <= |s| - i then Some(|s| - n) else None
    case Rem => Some(|s|)
    case Epsilon => Some(i)
    case Fail => None
  }

  /** All ends of `p` from `i`, in backtracking order. Named patterns are followed
      at most `d` deep; a reference below that depth cuts the stream. */
  function Ends(env: Env, d: nat, p: Pattern, i: nat): (r: Stream)
    requires i <= |env.s|
    ensures Within(r, |env.s|)
    decreases d, p, 0, 0
  {
    if IsLeaf(p) then
      var e := LeafEnd(env, p, i);
      if e.Some? then Unit(e.value) else Nothing
    else
      match p
      case Sigma(cs) => EndsSeq(env, d, cs, i)
      case Pi(cs) => EndsAlt(env, d, cs, i)
      case Opt(c) => Append(Unit(i), Ends(env, d, c, i))
      case Arb => Stream(UpFrom(i, |env.s|), false)
      case Abort => Stream([], true)
      case Fence => Stream([i], true)
      case SpanRetreat(cs) => Stream(DownTo(RunEnd(env.s, cs, i), i), false)
      case Ref(name) =>
        if name !in env.graph then Nothing
        else if d == 0 then Stream([], true)
        else Ends(env, d - 1, env.graph[name], i)
  }

  /** Ends of the patterns `cs` one after the other. */
  function EndsSeq(env: Env, d: nat, cs: seq<Pattern>, i: nat): (r: Stream)
    requires i <= |env.s|
    ensures Within(r, |env.s|)
    decreases d, cs, 0, 0
  {
    if cs == [] then Unit(i)
    else
      Extend(env, d, Ends(env, d, cs[0], i), cs[1..])
  }

  /** Ends of the patterns `cs` from each end in `a` in turn. */
  function Extend(env: Env, d: nat, a: Stream, cs: seq<Pattern>): (r: Stream)
    requires Within(a, |env.s|)
    ensures Within(r, |env.s|)
    decreases d, cs, 1, |a.ends|
  {
    if a.ends == [] then a
    else Append(EndsSeq(env, d, cs, a.ends[0]), Extend(env, d, Stream(a.ends[1..], a.cut), cs))
  }

  /** Ends of the first of `cs`, then those of the second, and so on. */
  function EndsAlt(env: Env, d: nat, cs: seq<Pattern>, i: nat): (r: Stream)
    requires i <= |env.s|
    ensures Within(r, |env.s|)
    decreases d, cs, 0, 0
  {
    if cs == [] then Nothing else Append(Ends(env, d, cs[0], i), EndsAlt(env, d, cs[1..], i))
  }

  /** The first match of a stream: the only part an anchored matcher reports. */
  function FirstEnd(st: Stream): Option<nat> {
    if st.ends == [] then None else Some(st.ends[0])
  }
}
