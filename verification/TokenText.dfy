/** The rendering of tokens back to text in archive/frontend/parse.c, and when the text of a token
    is read as that token again. */
module TokenText {
  import opened Denotation
  import opened Lexer
  import Labels

  const BODY_CAP: nat := 2048
  const BODY_BUFFER: nat := 8190

  function QuoteFor(text: string): char {
    if '\'' in text then '"' else '\''
  }

  /** The text of a token, room permitting. */
  function Text(t: Token): string {
    match t
    case White => " "
    case Str(text) => [QuoteFor(text)] + text + [QuoteFor(text)]
    case Integer(value) => Labels.Decimal(value)
    case Real(whole, _) => if whole.Some? then whole.value else []
    case Keyword(name) => "&" + name
    case Amp => "&"
    case Ident(name) => name
    case End(name) => name
    case StarStar => "**"
    case Op(c) => [c]
    case Bad(_) => []
  }

  /** The text fits the scratch buffer of the rendering loop. */
  predicate Fits(t: Token) {
    match t
    case Str(text) => |text| < 250
    case Real(whole, _) => whole.Some? ==> |whole.value| < 250
    case Keyword(name) => |name| < 248
    case Ident(name) => |name| < 250
    case End(name) => |name| < 250
    case _ => true
  }

  /** What is written for a token: a text that does not fit is left out. */
  function Piece(t: Token): string {
    if Fits(t) then Text(t)
    else match t
      case Str(text) => [QuoteFor(text), QuoteFor(text)]
      case Keyword(_) => "&"
      case _ => []
  }

  function Texts(toks: seq<Token>): string {
    if toks == [] then [] else Text(toks[0]) + Texts(toks[1..])
  }

  /** The buffer after the tokens: a piece that does not fit is left out. */
  function Written(buf: string, toks: seq<Token>): string
    decreases |toks|
  {
    if toks == [] then buf
    else
      var piece := Piece(toks[0]);
      Written(if |buf| + |piece| < BODY_BUFFER then buf + piece else buf, toks[1..])
  }

  /** The buffers hold the whole body: so many tokens, so many characters in all, and for each
      token its text, with room for quotes or an ampersand. */
  predicate FitsBody(toks: seq<Token>) {
    && |toks| <= 2048 && |Texts(toks)| < 8190
    && (forall t :: t in toks ==>
          && (t.Str? ==> |t.text| < 250) && (t.Keyword? ==> |t.name| < 248)
          && (t.Ident? || t.End? ==> |t.name| < 250) && (t.Real? && t.whole.Some? ==> |t.whole.value| < 250))
  }

  /** The tokens that are kept of a body. */
  function Collected(toks: seq<Token>): seq<Token> {
    if |toks| <= BODY_CAP then toks else toks[..BODY_CAP]
  }

  /** The switch over the kinds, into the scratch buffer. */
  method Render(t: Token) returns (tmp: string)
    requires t.Real? ==> t.whole.Some?
    ensures tmp == Piece(t)
  {
    tmp := [];
    match t
    case White => tmp := tmp + [' '];
    case Ident(name) => if |name| < 250 { tmp := name; }
    case End(name) => if |name| < 250 { tmp := name; }
    case Keyword(name) =>
      tmp := tmp + ['&'];
      if |name| < 248 { tmp := tmp + name; }
    case Str(text) =>
      var q := if '\'' in text then '"' else '\'';
      tmp := tmp + [q];
      if |text| < 250 { tmp := tmp + text; }
      tmp := tmp + [q];
    case Integer(value) => tmp := Labels.Decimal(value);
    case Real(whole, _) => if |whole.value| < 250 { tmp := whole.value; }
    case StarStar => tmp := tmp + ['*'] + ['*'];
    case Amp => tmp := tmp + ['&'];
    case Op(c) => tmp := tmp + [c];
    case Bad(_) =>
  }

  /** The loop over the tokens of a body, as the queue delivered them. */
  method Reconstruct(toks: seq<Token>) returns (buf: string)
    requires forall t :: t in toks && t.Real? ==> t.whole.Some?
    ensures buf == Written([], toks) && |buf| < BODY_BUFFER
  {
    buf := [];
    var i := 0;
    while i < |toks| && |buf| < BODY_BUFFER
      invariant i <= |toks| && |buf| < BODY_BUFFER && Written(buf, toks[i..]) == Written([], toks)
    {
      var tmp := Render(toks[i]);
      assert toks[i..][1..] == toks[i + 1..];
      if |buf| + |tmp| < BODY_BUFFER {
        buf := buf + tmp;
      }
      i := i + 1;
    }
  }

  /** A text of 250 characters or more, 248 for a keyword, is left out; quotes and the ampersand
      are written all the same. */
  lemma {:induction false} PieceOf(t: Token)
    ensures t.White? ==> Piece(t) == " "
    ensures t.Ident? || t.End? ==> Piece(t) == if |t.name| <= 249 then t.name else ""
    ensures t.Keyword? ==> Piece(t) == if |t.name| <= 247 then "&" + t.name else "&"
    ensures t.Str? ==>
              var q := if '\'' in t.text then '"' else '\'';
              Piece(t) == [q] + (if |t.text| <= 249 then t.text else "") + [q]
    ensures t.Real? && t.whole.Some? ==> Piece(t) == if |t.whole.value| <= 249 then t.whole.value else ""
    ensures t.StarStar? ==> Piece(t) == "**"
    ensures t.Amp? ==> Piece(t) == "&"
    ensures t.Op? ==> Piece(t) == [t.c]
  {
    if t.Str? && |t.text| >= 250 {
      var q := QuoteFor(t.text);
      assert [q] + "" + [q] == [q, q];
    }
  }

  /** Each piece goes into the buffer exactly if fewer than 8190 characters are in it then; a
      longer one is left out, and later ones may still go in. */
  lemma {:induction false} WrittenNext(buf: string, toks: seq<Token>, t: Token)
    ensures Written(buf, toks + [t]) ==
      var w := Written(buf, toks); if |w| + |Piece(t)| < 8190 then w + Piece(t) else w
    decreases |toks|
  {
    if toks == [] {
      assert [] + [t] == [t] && [t][1..] == [];
    } else {
      assert (toks + [t])[1..] == toks[1..] + [t];
      WrittenNext(if |buf| + |Piece(toks[0])| < BODY_BUFFER then buf + Piece(toks[0]) else buf, toks[1..], t);
    }
  }

  // ----- within the buffers nothing is left out -----

  lemma {:induction false} AllWritten(buf: string, toks: seq<Token>)
    requires |buf| + |Texts(toks)| < BODY_BUFFER && forall t :: t in toks ==> Fits(t)
    ensures Written(buf, toks) == buf + Texts(toks)
    decreases |toks|
  {
    if toks != [] {
      assert Fits(toks[0]) && Piece(toks[0]) == Text(toks[0]);
      AllWritten(buf + Text(toks[0]), toks[1..]);
      assert (buf + Text(toks[0])) + Texts(toks[1..]) == buf + (Text(toks[0]) + Texts(toks[1..]));
    }
  }

  // ----- runs of characters -----

  lemma {:induction false} RunOver(p: string, v: string, k: Class)
    requires forall c :: c in p ==> In(k, c)
    ensures Run(p + v, k) == |p| + Run(v, k)
  {
    if p == [] {
      assert p + v == v;
    } else {
      assert (p + v)[1..] == p[1..] + v;
      RunOver(p[1..], v, k);
    }
  }

  lemma {:induction false} RunIsAll(u: string, k: Class)
    ensures var n := Run(u, k); (forall c :: c in u[..n] ==> In(k, c)) && (n < |u| ==> !In(k, u[n]))
  {
    if u != [] && In(k, u[0]) {
      RunIsAll(u[1..], k);
      var n := Run(u[1..], k);
      assert u[..n + 1] == [u[0]] + u[1..][..n];
    }
  }

  /** A run in `p` ends where it does, unless it comes to the end of `p`. */
  lemma {:induction false} RunInside(p: string, v: string, b: nat, k: Class)
    requires b <= |p|
    ensures b + Run(p[b..], k) <= |p|
    ensures b + Run((p + v)[b..], k) == if b + Run(p[b..], k) < |p| then b + Run(p[b..], k) else |p| + Run(v, k)
    decreases |p| - b
  {
    if b == |p| {
      assert (p + v)[b..] == v;
    } else {
      assert p[b..][1..] == p[b + 1..] && (p + v)[b..][1..] == (p + v)[b + 1..];
      if In(k, p[b]) {
        RunInside(p, v, b + 1, k);
      }
    }
  }

  // ----- numbers -----

  /** Where a number's digits and fraction end. */
  function Mantissa(u: string): (m: nat)
    ensures m <= |u|
  {
    var n := Run(u, Digits);
    if HasFraction(u, n) then n + 1 + Run(u[n + 1..], Digits) else n
  }

  function EndOfNumber(u: string): (e: nat)
    ensures e <= |u|
  {
    NumberEnd(u, Run(u, Digits))
  }

  predicate LooksReal(u: string) {
    HasFraction(u, Run(u, Digits)) || HasExponent(u, Run(u, Digits))
  }

  /** The whole text is one real. */
  predicate IsReal(p: string) {
    p != [] && Labels.IsDigit(p[0]) && LooksReal(p) && EndOfNumber(p) == |p|
  }

  /** A real takes on digits, and an exponent if it has none, and a sign right after the exponent's letter. */
  predicate RealTakes(p: string, c: char) {
    || Labels.IsDigit(c)
    || (Mantissa(p) == |p| && IsExponent(c))
    || (Mantissa(p) + 1 == |p| && IsSign(c))
  }

  lemma {:induction false} MantissaInside(p: string, v: string)
    requires LooksReal(p)
    ensures LooksReal(p + v)
    ensures Mantissa(p + v) == if Mantissa(p) < |p| then Mantissa(p) else |p| + Run(v, Digits)
  {
    var n := Run(p, Digits);
    RunInside(p, v, 0, Digits);
    assert p[0..] == p && (p + v)[0..] == p + v;
    if HasFraction(p, n) {
      RunInside(p, v, n + 1, Digits);
    }
  }

  lemma {:induction false} ExponentInside(p: string, v: string, m: nat)
    requires m < |p| && ExponentEnd(p, m) == |p|
    ensures ExponentEnd(p + v, m) == |p| <==> v == [] || !(Labels.IsDigit(v[0]) || (m + 1 == |p| && IsSign(v[0])))
  {
    var y, a := p + v, m + 1;
    if a < |p| {
      var b := if IsSign(p[a]) then a + 1 else a;
      assert y[a] == p[a];
      RunInside(p, v, b, Digits);
    } else {
      assert y[a..] == v;
    }
  }

  /** A real ends where it did, before a text that does not start with what it takes on. */
  lemma {:induction false} RealInside(p: string, v: string)
    requires IsReal(p)
    ensures LooksReal(p + v) && (EndOfNumber(p + v) == |p| <==> v == [] || !RealTakes(p, v[0]))
  {
    MantissaInside(p, v);
    var m := Mantissa(p);
    if m < |p| {
      assert (p + v)[m] == p[m];
      ExponentInside(p, v, m);
    }
  }

  lemma {:induction false} ExponentAlone(p: string, r: string, m: nat)
    requires m < |p| && ExponentEnd(p + r, m) == |p|
    ensures ExponentEnd(p, m) == |p|
  {
    var x, a := p + r, m + 1;
    if a < |p| {
      assert x[a] == p[a];
    }
    var b := if a < |x| && IsSign(x[a]) then a + 1 else a;
    RunInside(p, r, b, Digits);
  }

  lemma {:induction false} MantissaAlone(p: string, r: string)
    requires LooksReal(p + r) && EndOfNumber(p + r) == |p|
    ensures LooksReal(p) && Mantissa(p) == Mantissa(p + r)
  {
    var x, n := p + r, Run(p + r, Digits);
    RunInside(p, r, 0, Digits);
    assert p[0..] == p && x[0..] == x;
    if HasFraction(x, n) {
      RunInside(p, r, n + 1, Digits);
      assert x[n] == p[n] && x[n + 1] == p[n + 1];
    } else {
      assert x[n] == p[n] && !HasFraction(p, n);
    }
  }

  /** A real that is read off the front of a text is a real by itself. */
  lemma {:induction false} RealAlone(p: string, r: string)
    requires p != [] && Labels.IsDigit(p[0]) && LooksReal(p + r) && EndOfNumber(p + r) == |p|
    ensures IsReal(p)
  {
    MantissaAlone(p, r);
    var m := Mantissa(p);
    if HasExponent(p + r, m) {
      assert (p + r)[m] == p[m];
      ExponentAlone(p, r, m);
    }
  }

  lemma {:induction false} DigitsOfValue(d: string, m: nat)
    requires d != [] && (forall c :: c in d ==> Labels.IsDigit(c)) && m <= Labels.Serial(d)
    ensures |Labels.Decimal(m)| <= |d|
  {
    if m >= 10 {
      var front := d[..|d| - 1];
      assert m / 10 <= Labels.Serial(front);
      DigitsOfValue(front, m / 10);
    }
  }

  lemma {:induction false} ValueOfDecimal(n: nat)
    ensures Labels.Serial(Labels.Decimal(n)) == n
  {
    if n >= 10 {
      ValueOfDecimal(n / 10);
      assert Labels.Decimal(n)[..|Labels.Decimal(n)| - 1] == Labels.Decimal(n / 10);
    } else {
      assert Labels.Decimal(n)[..0] == [];
    }
  }

  lemma {:induction false} SeenWhole(text: string)
    requires |text| <= NUMBER_BUFFER
    ensures Seen(text) == text
  {
    assert text[..|text|] == text;
  }

  /** An integer as it is printed has the value it was printed from. */
  lemma {:induction false} PrintedValue(d: string)
    requires d != [] && forall c :: c in d ==> Labels.IsDigit(c)
    ensures Atol(Labels.Decimal(Atol(d))) == Atol(d) && |Labels.Decimal(Atol(d))| <= |d|
  {
    DigitsOfValue(Seen(d), Atol(d));
    ValueOfDecimal(Atol(d));
    SeenWhole(Labels.Decimal(Atol(d)));
  }

  // ----- tokens as they come from a text -----

  /** The token can be the first of a text. */
  predicate Clean(t: Token) {
    match t
    case White => true
    case Str(text) => !('\'' in text && '"' in text)
    case Integer(value) => Atol(Labels.Decimal(value)) == value
    case Real(whole, seen) => whole.Some? && IsReal(whole.value) && seen == Seen(whole.value)
    case Keyword(name) => name != [] && forall c :: c in name ==> In(Word, c)
    case Amp => true
    case Ident(name) => IsName(name) && !IsEndName(name)
    case End(name) => IsName(name) && IsEndName(name)
    case StarStar => true
    case Op(c) => IsOperator(c)
    case Bad(_) => false
  }

  predicate IsName(name: string) {
    name != [] && (IsLetter(name[0]) || IsHigh(name[0])) && forall c :: c in name ==> In(NameChars, c)
  }

  lemma {:induction false} NumberIsClean(u: string)
    requires u != [] && Labels.IsDigit(u[0])
    ensures Clean(First(u).token)
  {
    var n, e := Run(u, Digits), EndOfNumber(u);
    if LooksReal(u) {
      assert u == u[..e] + u[e..];
      RealAlone(u[..e], u[e..]);
    } else {
      RunIsAll(u, Digits);
      PrintedValue(u[..n]);
    }
  }

  lemma {:induction false} FirstIsClean(u: string)
    requires u != [] && !First(u).token.Bad?
    ensures Clean(First(u).token)
  {
    var c := u[0];
    if IsQuote(c) {
      RunIsAll(u[1..], Not(c));
      assert u[1..][..Run(u[1..], Not(c))] == u[1..1 + Run(u[1..], Not(c))];
    } else if Labels.IsDigit(c) {
      NumberIsClean(u);
    } else if c == '&' {
      RunIsAll(u[1..], Word);
      assert u[1..][..Run(u[1..], Word)] == u[1..1 + Run(u[1..], Word)];
    } else if IsLetter(c) || IsHigh(c) {
      RunIsAll(u, NameChars);
    }
  }

  // ----- when a token is read again -----

  /** The token, written before the text `v`, is read together with the front of it. */
  predicate Joins(t: Token, v: string) {
    && v != []
    && match t
       case White => IsBlank(v[0])
       case Str(_) => false
       case Integer(_) => Labels.IsDigit(v[0]) || IsExponent(v[0]) || (v[0] == '.' && |v| > 1 && Labels.IsDigit(v[1]))
       case Real(whole, _) => whole.Some? && RealTakes(whole.value, v[0])
       case Keyword(_) => In(Word, v[0])
       case Amp => In(Word, v[0])
       case Ident(_) => In(NameChars, v[0])
       case End(_) => In(NameChars, v[0])
       case StarStar => false
       case Op(c) => c == '*' && v[0] == '*'
       case Bad(_) => false
  }

  /** The token's text, before `v`, is read as the token again. */
  predicate ReadAgain(t: Token, v: string) {
    Text(t) + v != [] && First(Text(t) + v) == Scanned(t, |Text(t)|)
  }

  lemma {:induction false} StringAgain(text: string, v: string)
    requires Clean(Str(text))
    ensures ReadAgain(Str(text), v)
  {
    var q := QuoteFor(text);
    var y := [q] + text + [q] + v;
    assert y[1..] == text + ([q] + v);
    RunOver(text, [q] + v, Not(q));
    assert y[1..1 + |text|] == text;
  }

  lemma {:induction false} IntegerAgain(value: nat, v: string)
    requires Clean(Integer(value))
    ensures ReadAgain(Integer(value), v) <==> !Joins(Integer(value), v)
  {
    var p := Labels.Decimal(value);
    var y := p + v;
    RunOver(p, v, Digits);
    assert y[0] == p[0];
    if v == [] || !Labels.IsDigit(v[0]) {
      assert Run(y, Digits) == |p| && y[..|p|] == p;
      assert v != [] ==> y[|p|] == v[0];
      assert |v| > 1 ==> y[|p| + 1] == v[1];
    }
  }

  lemma {:induction false} RealAgain(t: Token, v: string)
    requires t.Real? && Clean(t)
    ensures ReadAgain(t, v) <==> !Joins(t, v)
  {
    var p := t.whole.value;
    RealInside(p, v);
    assert (p + v)[0] == p[0] && (p + v)[..|p|] == p;
  }

  lemma {:induction false} KeywordAgain(t: Token, v: string)
    requires (t.Keyword? || t.Amp?) && Clean(t)
    ensures ReadAgain(t, v) <==> !Joins(t, v)
  {
    var name := if t.Keyword? then t.name else [];
    var y := "&" + name + v;
    var n := Run(y[1..], Word);
    AfterAmp(y);
    assert y[1..] == name + v;
    RunOver(name, v, Word);
    assert y[1..1 + |name|] == name;
    assert n == |name| <==> v == [] || !In(Word, v[0]);
    assert Text(t) + v == y;
  }

  lemma {:induction false} AfterAmp(u: string)
    requires u != [] && u[0] == '&'
    ensures var n := Run(u[1..], Word); First(u) == Scanned(if n > 0 then Keyword(u[1..1 + n]) else Amp, 1 + n)
  {
  }

  lemma {:induction false} NameAgain(t: Token, v: string)
    requires (t.Ident? || t.End?) && Clean(t)
    ensures ReadAgain(t, v) <==> !Joins(t, v)
  {
    var y := t.name + v;
    assert y[0] == t.name[0] && y[..|t.name|] == t.name;
    RunOver(t.name, v, NameChars);
  }

  lemma {:induction false} OperatorIsPlain(c: char)
    requires IsOperator(c)
    ensures !IsLetter(c) && !IsHigh(c) && !IsBlank(c) && !IsQuote(c) && !Labels.IsDigit(c) && c != '&'
  {
  }

  lemma {:induction false} OperatorAgain(c: char, v: string)
    requires IsOperator(c)
    ensures ReadAgain(Op(c), v) <==> !Joins(Op(c), v)
  {
    OperatorIsPlain(c);
    var y := [c] + v;
    assert y[0] == c && (v != [] ==> y[1] == v[0]);
  }

  /** A token is read again exactly if it does not join what follows it. */
  lemma {:induction false} AgainIffApart(t: Token, v: string)
    requires Clean(t)
    ensures ReadAgain(t, v) <==> !Joins(t, v)
  {
    match t
    case White =>
      RunOver(" ", v, Blanks);
    case Str(text) =>
      StringAgain(text, v);
    case Integer(value) =>
      IntegerAgain(value, v);
    case Real(_, _) =>
      RealAgain(t, v);
    case Op(c) =>
      OperatorAgain(c, v);
    case StarStar =>
      assert ("**" + v)[0] == '*' && ("**" + v)[1] == '*';
    case Bad(_) =>
    case _ =>
      if t.Ident? || t.End? {
        NameAgain(t, v);
      } else {
        KeywordAgain(t, v);
      }
  }
}
