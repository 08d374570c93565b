/** What the first token of a text is and where it ends, said of its characters alone. */
module TokenShapes {
  import opened Denotation
  import opened Lexer
  import Labels

  // ----- characters -----

  predicate Blank(c: char) {
    c == ' ' || c == '\t'
  }

  predicate Digit(c: char) {
    '0' <= c <= '9'
  }

  predicate Letter(c: char) {
    'A' <= c <= 'Z' || 'a' <= c <= 'z'
  }

  /** Letters, digits and underscores, of which a keyword is made. */
  predicate WordChar(c: char) {
    Letter(c) || Digit(c) || c == '_'
  }

  /** These, dots and bytes from 0x80 on, of which an identifier is made. */
  predicate NameChar(c: char) {
    WordChar(c) || c == '.' || c as int >= 0x80
  }

  /** `u` goes on with characters like that from `i` to `e`, and no further. */
  predicate RunsTo(u: string, like: char -> bool, i: nat, e: nat) {
    i <= e <= |u| && (forall k :: i <= k < e ==> like(u[k])) && (e < |u| ==> !like(u[e]))
  }

  // ----- numbers -----

  /** The value of a decimal numeral. */
  function Value(digits: string): nat
    requires forall k :: 0 <= k < |digits| ==> Digit(digits[k])
  {
    if digits == [] then 0
    else
      assert Digit(digits[|digits| - 1]);
      10 * Value(digits[..|digits| - 1]) + (digits[|digits| - 1] - '0') as nat
  }

  /** The text, or its first 63 characters. */
  function Front(text: string): string {
    if |text| <= 63 then text else text[..63]
  }

  predicate HasDot(u: string, n: nat) {
    n + 1 < |u| && u[n] == '.' && Digit(u[n + 1])
  }

  predicate HasE(u: string, m: nat) {
    m < |u| && (u[m] == 'e' || u[m] == 'E')
  }

  /** Past the letter of an exponent at `m`, and past the sign if there is one. */
  function PastSign(u: string, m: nat): nat {
    if m + 1 < |u| && (u[m + 1] == '+' || u[m + 1] == '-') then m + 2 else m + 1
  }

  /** Digits up to `n`, a fraction up to `m` and an exponent up to `e`, as far as there are any. */
  predicate NumberTo(u: string, n: nat, m: nat, e: nat) {
    && RunsTo(u, Digit, 0, n)
    && (if HasDot(u, n) then RunsTo(u, Digit, n + 1, m) else m == n)
    && (if HasE(u, m) then RunsTo(u, Digit, PastSign(u, m), e) else e == m)
    && e <= |u|
  }

  /** A real keeps its text; an integer has its value, or the greatest long if that is less. */
  predicate NumberIs(u: string, n: nat, m: nat, e: nat, t: Token)
    requires NumberTo(u, n, m, e)
  {
    if e > n then t == Real(Some(u[..e]), Front(u[..e]))
    else
      var v := Value(Front(u[..n]));
      t == Integer(if v <= 9223372036854775807 then v else 9223372036854775807)
  }

  ghost predicate IsNumber(u: string, t: Token, len: nat) {
    exists n, m :: NumberTo(u, n, m, len) && NumberIs(u, n, m, len, t)
  }

  // ----- the other kinds -----

  predicate IsWhite(u: string, t: Token, len: nat) {
    t == White && RunsTo(u, Blank, 0, len)
  }

  /** The text up to the next quote like the first, or to the end. */
  ghost predicate IsString(u: string, t: Token, len: nat)
    requires u != []
  {
    exists e: nat ::
      && 1 <= e <= |u| && t == Str(u[1..e])
      && (forall k :: 1 <= k < e ==> u[k] != u[0])
      && if e < |u| then u[e] == u[0] && len == e + 1 else len == e
  }

  predicate IsKeyword(u: string, t: Token, len: nat) {
    RunsTo(u, WordChar, 1, len) && t == if len == 1 then Amp else Keyword(u[1..len])
  }

  predicate IsName(u: string, t: Token, len: nat) {
    && RunsTo(u, NameChar, 0, len)
    && t == if len == 3 && (u[0] == 'E' || u[0] == 'e') && (u[1] == 'N' || u[1] == 'n') && (u[2] == 'D' || u[2] == 'd')
            then End(u[..len]) else Ident(u[..len])
  }

  predicate OneOf22(c: char) {
    c in {'+', '-', '*', '/', '%', '^', '!', '@', '~', '$', '.', '#', '|', '=', '?', ',', '(', ')', '[', ']', '<', '>'}
  }

  predicate IsSingle(u: string, t: Token, len: nat)
    requires u != []
  {
    if |u| > 1 && u[0] == '*' && u[1] == '*' then t == StarStar && len == 2
    else len == 1 && t == if OneOf22(u[0]) then Op(u[0]) else Bad(u[0])
  }

  /** The first token of `u`, by its first character. */
  ghost predicate StartsWith(u: string, t: Token, len: nat)
    requires u != []
  {
    if Blank(u[0]) then IsWhite(u, t, len)
    else if u[0] == '\'' || u[0] == '"' then IsString(u, t, len)
    else if Digit(u[0]) then IsNumber(u, t, len)
    else if u[0] == '&' then IsKeyword(u, t, len)
    else if Letter(u[0]) || u[0] as int >= 0x80 then IsName(u, t, len)
    else IsSingle(u, t, len)
  }

  // ----- proof -----

  lemma {:induction false} RunRunsTo(u: string, k: Class, like: char -> bool, i: nat)
    requires i <= |u| && forall c :: In(k, c) <==> like(c)
    ensures RunsTo(u, like, i, i + Run(u[i..], k))
    decreases |u| - i
  {
    if i < |u| && In(k, u[i]) {
      assert u[i..][1..] == u[i + 1..];
      RunRunsTo(u, k, like, i + 1);
    }
  }

  lemma {:induction false} SerialIsValue(d: string)
    requires forall k :: 0 <= k < |d| ==> Digit(d[k])
    ensures Labels.Serial(d) == Value(d)
  {
    if d != [] {
      SerialIsValue(d[..|d| - 1]);
    }
  }

  lemma {:induction false} FrontIsSeen(text: string)
    ensures Seen(text) == Front(text)
  {
    assert |text| == 63 ==> text[..63] == text;
  }

  lemma {:induction false} FirstIsWhite(u: string)
    requires u != [] && Blank(u[0])
    ensures IsWhite(u, First(u).token, First(u).len)
  {
    RunRunsTo(u, Blanks, Blank, 0);
    assert u[0..] == u;
  }

  lemma {:induction false} FirstIsString(u: string)
    requires u != [] && (u[0] == '\'' || u[0] == '"')
    ensures IsString(u, First(u).token, First(u).len)
  {
    var q := u[0];
    RunRunsTo(u, Not(q), (c: char) => c != q, 1);
    var e := 1 + Run(u[1..], Not(q));
    assert 1 <= e <= |u| && First(u).token == Str(u[1..e]);
  }

  lemma {:induction false} FirstIsKeyword(u: string)
    requires u != [] && u[0] == '&'
    ensures IsKeyword(u, First(u).token, First(u).len)
  {
    RunRunsTo(u, Word, WordChar, 1);
  }

  lemma {:induction false} FirstIsName(u: string)
    requires u != [] && (Letter(u[0]) || u[0] as int >= 0x80)
    ensures IsName(u, First(u).token, First(u).len)
  {
    RunRunsTo(u, NameChars, NameChar, 0);
    assert u[0..] == u;
  }

  lemma {:induction false} MantissaEnds(u: string, n: nat) returns (m: nat)
    requires n == Run(u, Digits)
    ensures RunsTo(u, Digit, 0, n) && (HasFraction(u, n) <==> HasDot(u, n))
    ensures m == if HasDot(u, n) then n + 1 + Run(u[n + 1..], Digits) else n
    ensures if HasDot(u, n) then RunsTo(u, Digit, n + 1, m) else m == n
    ensures m > n <==> HasDot(u, n)
  {
    RunRunsTo(u, Digits, Digit, 0);
    assert u[0..] == u;
    m := if HasDot(u, n) then n + 1 + Run(u[n + 1..], Digits) else n;
    if HasDot(u, n) {
      RunRunsTo(u, Digits, Digit, n + 1);
    }
  }

  lemma {:induction false} ExponentEnds(u: string, m: nat)
    requires HasE(u, m)
    ensures PastSign(u, m) <= |u| && RunsTo(u, Digit, PastSign(u, m), ExponentEnd(u, m))
  {
    RunRunsTo(u, Digits, Digit, PastSign(u, m));
  }

  lemma {:induction false} NumberEnds(u: string, n: nat) returns (m: nat)
    requires n == Run(u, Digits)
    ensures NumberTo(u, n, m, NumberEnd(u, n)) && (NumberEnd(u, n) > n <==> HasFraction(u, n) || HasExponent(u, n))
  {
    m := MantissaEnds(u, n);
    assert HasE(u, m) <==> HasExponent(u, m);
    if HasE(u, m) {
      ExponentEnds(u, m);
    }
  }

  lemma {:induction false} FirstIsNumber(u: string)
    requires u != [] && Digit(u[0])
    ensures IsNumber(u, First(u).token, First(u).len)
  {
    var n := Run(u, Digits);
    var m := NumberEnds(u, n);
    var e := NumberEnd(u, n);
    FrontIsSeen(u[..e]);
    if e == n {
      SerialIsValue(Front(u[..n]));
    }
    assert NumberTo(u, n, m, e) && NumberIs(u, n, m, e, First(u).token);
  }

  /** For every text: what the tokenisers take for the first token, and how much of the text. */
  lemma {:induction false} FirstIs(u: string)
    requires u != []
    ensures StartsWith(u, First(u).token, First(u).len)
  {
    if Blank(u[0]) {
      FirstIsWhite(u);
    } else if u[0] == '\'' || u[0] == '"' {
      FirstIsString(u);
    } else if Digit(u[0]) {
      FirstIsNumber(u);
    } else if u[0] == '&' {
      FirstIsKeyword(u);
    } else if Letter(u[0]) || u[0] as int >= 0x80 {
      FirstIsName(u);
    }
  }
}
