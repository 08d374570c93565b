/** The tokeniser of archive/frontend/lex.c, in its two copies: tokenise_body, which fills the
    queue, and raw_next_str, which reads a string again token by token. */
module Lexer {
  import opened Denotation
  import Labels

  const LONG_MAX: nat := 0x7FFF_FFFF_FFFF_FFFF
  const NUMBER_BUFFER: nat := 63

  /** `End` is the identifier END in any case. The value of a real is that of the first 63
      characters of its text, `seen`; the text itself comes with the token only from the queue. */
  datatype Token =
    | White
    | Str(text: string)
    | Integer(value: nat)
    | Real(whole: Option<string>, seen: string)
    | Keyword(name: string)
    | Amp
    | Ident(name: string)
    | End(name: string)
    | StarStar
    | Op(c: char)
    | Bad(c: char)

  // ----- classes of characters -----

  datatype Class = Blanks | Digits | Word | NameChars | Not(q: char)

  predicate IsBlank(c: char) {
    c == ' ' || c == '\t'
  }

  predicate IsQuote(c: char) {
    c == '\'' || c == '"'
  }

  predicate IsLetter(c: char) {
    'a' <= c <= 'z' || 'A' <= c <= 'Z'
  }

  /** Bytes of 0x80 and above count as letters of identifiers. */
  predicate IsHigh(c: char) {
    c as int >= 0x80
  }

  predicate IsExponent(c: char) {
    c == 'e' || c == 'E'
  }

  predicate IsSign(c: char) {
    c == '+' || c == '-'
  }

  /** The cases of the switch over single characters. */
  predicate IsOperator(c: char) {
    || c == '+' || c == '-' || c == '*' || c == '/' || c == '%' || c == '^' || c == '!' || c == '@'
    || c == '~' || c == '$' || c == '.' || c == '#' || c == '|' || c == '=' || c == '?' || c == ','
    || c == '(' || c == ')' || c == '[' || c == ']' || c == '<' || c == '>'
  }

  predicate In(k: Class, c: char) {
    match k
    case Blanks => IsBlank(c)
    case Digits => Labels.IsDigit(c)
    case Word => IsLetter(c) || Labels.IsDigit(c) || c == '_'
    case NameChars => IsLetter(c) || Labels.IsDigit(c) || c == '_' || c == '.' || IsHigh(c)
    case Not(q) => c != q
  }

  /** How many characters of the class `u` starts with. */
  function Run(u: string, k: Class): (n: nat)
    ensures n <= |u|
  {
    if u == [] || !In(k, u[0]) then 0 else 1 + Run(u[1..], k)
  }

  function Upper(c: char): char {
    if 'a' <= c <= 'z' then c - 'a' + 'A' else c
  }

  predicate IsEndName(name: string) {
    |name| == 3 && Upper(name[0]) == 'E' && Upper(name[1]) == 'N' && Upper(name[2]) == 'D'
  }

  // ----- the first token of a text -----

  datatype Scanned = Scanned(token: Token, len: nat)

  /** Where an exponent ends that starts at `m`: sign and digits may be missing. */
  function ExponentEnd(u: string, m: nat): (e: nat)
    requires m < |u|
    ensures m < e <= |u|
  {
    var a := m + 1;
    var b := if a < |u| && IsSign(u[a]) then a + 1 else a;
    b + Run(u[b..], Digits)
  }

  predicate HasExponent(u: string, m: nat) {
    m < |u| && IsExponent(u[m])
  }

  predicate HasFraction(u: string, n: nat) {
    n + 1 < |u| && u[n] == '.' && Labels.IsDigit(u[n + 1])
  }

  /** Where a number ends that has `n` digits in front. */
  function NumberEnd(u: string, n: nat): (e: nat)
    requires n <= |u|
    ensures n <= e <= |u|
  {
    if HasFraction(u, n) then
      var m := n + 1 + Run(u[n + 1..], Digits);
      if HasExponent(u, m) then ExponentEnd(u, m) else m
    else if HasExponent(u, n) then ExponentEnd(u, n)
    else n
  }

  function Seen(text: string): string {
    if |text| < NUMBER_BUFFER then text else text[..NUMBER_BUFFER]
  }

  /** atol of the digits that fit the buffer, which stops at the greatest long. */
  function Atol(digits: string): (v: nat)
    ensures v <= LONG_MAX
  {
    var v := Labels.Serial(Seen(digits));
    if v <= LONG_MAX then v else LONG_MAX
  }

  function Number(u: string, n: nat): Token
    requires n <= |u|
  {
    var e := NumberEnd(u, n);
    if HasFraction(u, n) || HasExponent(u, n) then Real(Some(u[..e]), Seen(u[..e])) else Integer(Atol(u[..n]))
  }

  function Name(text: string): Token {
    if IsEndName(text) then End(text) else Ident(text)
  }

  function First(u: string): (r: Scanned)
    requires u != []
    ensures 0 < r.len <= |u|
  {
    var c := u[0];
    if IsBlank(c) then Scanned(White, Run(u, Blanks))
    else if IsQuote(c) then
      var n := Run(u[1..], Not(c));
      Scanned(Str(u[1..1 + n]), if 1 + n < |u| then n + 2 else n + 1)
    else if Labels.IsDigit(c) then
      var n := Run(u, Digits);
      Scanned(Number(u, n), NumberEnd(u, n))
    else if c == '&' then
      var n := Run(u[1..], Word);
      Scanned(if n > 0 then Keyword(u[1..1 + n]) else Amp, 1 + n)
    else if IsLetter(c) || IsHigh(c) then
      var n := Run(u, NameChars);
      Scanned(Name(u[..n]), n)
    else if |u| > 1 && c == '*' && u[1] == '*' then Scanned(StarStar, 2)
    else Scanned(if IsOperator(c) then Op(c) else Bad(c), 1)
  }

  /** All tokens of a text, illegal characters among them. */
  function Tokens(u: string): seq<Token> {
    if u == [] then [] else [First(u).token] + Tokens(u[First(u).len..])
  }

  predicate Legal(u: string) {
    forall t :: t in Tokens(u) ==> !t.Bad?
  }

  function Pushed(toks: seq<Token>): seq<Token> {
    if toks == [] then [] else (if toks[0].Bad? then [] else [toks[0]]) + Pushed(toks[1..])
  }

  // ----- the two tokenisers -----

  /** The scanning loop that every case is built from. */
  method Past(s: string, from: nat, k: Class) returns (pos: nat)
    requires from <= |s|
    ensures pos == from + Run(s[from..], k) <= |s|
  {
    pos := from;
    while pos < |s| && In(k, s[pos])
      invariant from <= pos <= |s| && pos + Run(s[pos..], k) == from + Run(s[from..], k)
    {
      assert s[pos..][1..] == s[pos + 1..];
      pos := pos + 1;
    }
  }

  lemma {:induction false} Rest(s: string, at: nat, pos: nat)
    requires at <= pos <= |s|
    ensures s[at..][pos - at..] == s[pos..] && s[at..][..pos - at] == s[at..pos]
  {
  }

  method PastExponent(s: string, at: nat, m: nat) returns (pos: nat)
    requires at + m < |s|
    ensures pos == at + ExponentEnd(s[at..], m) <= |s|
  {
    pos := at + m + 1;
    if pos < |s| && IsSign(s[pos]) {
      pos := pos + 1;
    }
    Rest(s, at, pos);
    pos := Past(s, pos, Digits);
  }

  /** What follows the digits, seen from the start of the number. */
  lemma {:induction false} AfterDigits(s: string, at: nat, pos: nat)
    requires at <= pos <= |s|
    ensures HasFraction(s[at..], pos - at) <==> pos + 1 < |s| && s[pos] == '.' && Labels.IsDigit(s[pos + 1])
    ensures HasExponent(s[at..], pos - at) <==> pos < |s| && IsExponent(s[pos])
  {
  }

  method PastFraction(s: string, at: nat, n: nat) returns (pos: nat)
    requires at <= |s| && HasFraction(s[at..], n)
    ensures pos == at + NumberEnd(s[at..], n) <= |s|
  {
    pos := at + n + 1;
    Rest(s, at, pos);
    pos := Past(s, pos, Digits);
    if pos < |s| && IsExponent(s[pos]) {
      pos := PastExponent(s, at, pos - at);
    }
  }

  /** The number's text, and what is made of it. */
  lemma {:induction false} NumberIs(s: string, at: nat, pos: nat)
    requires at <= pos <= |s| && pos - at == NumberEnd(s[at..], Run(s[at..], Digits))
    ensures var u, n, text := s[at..], Run(s[at..], Digits), s[at..pos];
            Number(u, n) == if HasFraction(u, n) || HasExponent(u, n) then Real(Some(text), Seen(text))
                            else Integer(Atol(text))
  {
    Rest(s, at, pos);
  }

  method ReadNumber(s: string, at: nat) returns (token: Token, pos: nat)
    requires at < |s|
    ensures at <= pos <= |s|
    ensures var n := Run(s[at..], Digits); pos == at + NumberEnd(s[at..], n) && token == Number(s[at..], n)
  {
    pos := Past(s, at, Digits);
    AfterDigits(s, at, pos);
    var isReal := true;
    if pos + 1 < |s| && s[pos] == '.' && Labels.IsDigit(s[pos + 1]) {
      pos := PastFraction(s, at, pos - at);
    } else if pos < |s| && IsExponent(s[pos]) {
      pos := PastExponent(s, at, pos - at);
    } else {
      isReal := false;
    }
    NumberIs(s, at, pos);
    token := if isReal then Real(Some(s[at..pos]), Seen(s[at..pos])) else Integer(Atol(s[at..pos]));
  }

  /** The branches that both tokenisers have, in order. */
  method ReadToken(s: string, at: nat) returns (token: Token, pos: nat)
    requires at < |s|
    ensures at < pos <= |s| && Scanned(token, pos - at) == First(s[at..])
  {
    ghost var u := s[at..];
    assert u[1..] == s[at + 1..];
    var c := s[at];
    if IsBlank(c) {
      pos := Past(s, at, Blanks);
      token := White;
    } else if IsQuote(c) {
      pos := Past(s, at + 1, Not(c));
      assert u[1..pos - at] == s[at + 1..pos];
      token := Str(s[at + 1..pos]);
      if pos < |s| {
        pos := pos + 1;
      }
    } else if Labels.IsDigit(c) {
      token, pos := ReadNumber(s, at);
    } else if c == '&' {
      pos := Past(s, at + 1, Word);
      assert u[1..pos - at] == s[at + 1..pos];
      token := if pos > at + 1 then Keyword(s[at + 1..pos]) else Amp;
    } else if IsLetter(c) || IsHigh(c) {
      pos := Past(s, at, NameChars);
      assert u[..pos - at] == s[at..pos];
      token := Name(s[at..pos]);
    } else if at + 1 < |s| && c == '*' && s[at + 1] == '*' {
      token, pos := StarStar, at + 2;
    } else {
      token, pos := if IsOperator(c) then Op(c) else Bad(c), at + 1;
    }
  }

  class Queue {
    var tokens: seq<Token>

    constructor ()
      ensures tokens == []
    {
      tokens := [];
    }

    method Push(t: Token)
      modifies this
      ensures tokens == old(tokens) + [t]
    {
      tokens := tokens + [t];
    }

    /** Illegal characters are reported and left out. */
    method TokeniseBody(s: string)
      modifies this
      ensures tokens == old(tokens) + Pushed(Tokens(s))
    {
      var pos := 0;
      ghost var all := old(tokens) + Pushed(Tokens(s));
      assert s[0..] == s;
      while pos < |s|
        invariant pos <= |s| && tokens + Pushed(Tokens(s[pos..])) == all
      {
        var token, next := ReadToken(s, pos);
        Next(s, pos, next);
        ghost var before := tokens;
        if !token.Bad? {
          Push(token);
        }
        Joined(before, if token.Bad? then [] else [token], Pushed(Tokens(s[next..])));
        pos := next;
      }
    }
  }

  lemma {:induction false} Joined(a: seq<Token>, b: seq<Token>, c: seq<Token>)
    ensures a + (b + c) == (a + b) + c
    ensures b == [] ==> a + b == a
  {
  }

  lemma {:induction false} Next(s: string, pos: nat, next: nat)
    requires pos < |s| && pos < next <= |s| && First(s[pos..]).len == next - pos
    ensures var t := First(s[pos..]).token;
            && Tokens(s[pos..]) == [t] + Tokens(s[next..])
            && Pushed(Tokens(s[pos..])) == (if t.Bad? then [] else [t]) + Pushed(Tokens(s[next..]))
  {
    var u := s[pos..];
    assert u[next - pos..] == s[next..];
    assert Tokens(u)[1..] == Tokens(s[next..]);
  }

  /** What raw_next_str delivers of a token: a real comes without its text. */
  function Bare(t: Token): Token {
    if t.Real? then t.(whole := None) else t
  }

  /** struct Lex, opened on a string. */
  class Lex {
    const src: string
    var pos: nat

    ghost predicate Valid()
      reads this
    {
      pos <= |src|
    }

    /** The tokens still to come. */
    ghost function Ahead(): seq<Token>
      requires Valid()
      reads this
    {
      Tokens(src[pos..])
    }

    /** lex_open_str */
    constructor (s: string)
      ensures src == s && pos == 0 && Valid() && Ahead() == Tokens(s)
    {
      src := s;
      pos := 0;
      new;
      assert src[0..] == s;
    }

    /** raw_next_str; None is the end of the string. */
    method RawNext() returns (token: Option<Token>)
      requires Valid()
      modifies this
      ensures Valid()
      ensures old(Ahead()) == [] ==> token == None && Ahead() == []
      ensures old(Ahead()) != [] ==> token == Some(Bare(old(Ahead())[0])) && Ahead() == old(Ahead())[1..]
    {
      if pos >= |src| {
        return None;
      }
      var t, next := ReadToken(src, pos);
      Next(src, pos, next);
      pos := next;
      return Some(if t.Real? then t.(whole := None) else t);
    }
  }
}
