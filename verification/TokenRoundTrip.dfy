/** The body of a statement is rendered from its tokens and read again: the same tokens come back
    exactly if the buffers hold everything and no token joins the text that follows it. */
module TokenRoundTrip {
  import opened Denotation
  import opened Lexer
  import opened TokenText
  import Labels

  /** What the statement parser makes of the tokens of a body. */
  function Rendered(toks: seq<Token>): string {
    Written([], Collected(Pushed(toks)))
  }

  /** No token is read together with the text that follows it. */
  predicate Apart(toks: seq<Token>) {
    toks == [] || (!Joins(toks[0], Texts(toks[1..])) && Apart(toks[1..]))
  }

  ghost predicate AllClean(toks: seq<Token>) {
    forall t :: t in toks ==> Clean(t)
  }

  lemma {:induction false} PushedIsClean(u: string)
    ensures AllClean(Pushed(Tokens(u)))
    decreases |u|
  {
    if u != [] {
      if !First(u).token.Bad? {
        FirstIsClean(u);
      }
      PushedIsClean(u[First(u).len..]);
      PushedStep(First(u).token, Tokens(u[First(u).len..]));
    }
  }

  lemma PushedStep(t: Token, later: seq<Token>)
    ensures Pushed([t] + later) == (if t.Bad? then [] else [t]) + Pushed(later)
  {
    assert ([t] + later)[1..] == later;
  }

  // ----- quotes -----

  /** The quote that is open after `v`, if `q` was open before it. */
  function Quote(v: string, q: Option<char>): Option<char> {
    if v == [] then q
    else
      Quote(v[1..], if q.Some? then (if v[0] == q.value then None else q)
                    else if IsQuote(v[0]) then Some(v[0]) else None)
  }

  predicate Paired(v: string) {
    Quote(v, None) == None
  }

  lemma {:induction false} QuoteOver(a: string, b: string, q: Option<char>)
    ensures Quote(a + b, q) == Quote(b, Quote(a, q))
    decreases |a|
  {
    if a == [] {
      assert a + b == b;
    } else {
      assert (a + b)[1..] == a[1..] + b;
      QuoteOver(a[1..], b, if q.Some? then (if a[0] == q.value then None else q)
                           else if IsQuote(a[0]) then Some(a[0]) else None);
    }
  }

  lemma {:induction false} NoQuotes(a: string)
    requires forall c :: c in a ==> !IsQuote(c)
    ensures Paired(a)
  {
    if a != [] {
      NoQuotes(a[1..]);
    }
  }

  lemma {:induction false} InQuotes(a: string, q: char)
    requires q !in a
    ensures Quote(a, Some(q)) == Some(q)
  {
    if a != [] {
      InQuotes(a[1..], q);
    }
  }

  lemma {:induction false} QuotedIsPaired(text: string, q: char)
    requires IsQuote(q) && q !in text
    ensures Paired([q] + text + [q])
  {
    var v := [q] + text + [q];
    assert v[1..] == text + [q];
    InQuotes(text, q);
    QuoteOver(text, [q], Some(q));
    assert [q][1..] == [];
  }

  // ----- a text with paired quotes is no shorter than its tokens -----

  lemma {:induction false} RunIsPlain(u: string, b: nat, k: Class)
    requires b <= |u| && !k.Not?
    ensures b + Run(u[b..], k) <= |u| && forall j :: b <= j < b + Run(u[b..], k) ==> !IsQuote(u[j])
    decreases |u| - b
  {
    if b < |u| && In(k, u[b]) {
      assert u[b..][1..] == u[b + 1..];
      RunIsPlain(u, b + 1, k);
    }
  }

  lemma {:induction false} MantissaIsPlain(u: string)
    ensures forall j :: 0 <= j < Mantissa(u) ==> !IsQuote(u[j])
  {
    RunIsPlain(u, 0, Digits);
    assert u[0..] == u;
    if HasFraction(u, Run(u, Digits)) {
      RunIsPlain(u, Run(u, Digits) + 1, Digits);
    }
  }

  lemma {:induction false} NumberIsPlain(u: string)
    ensures forall j :: 0 <= j < EndOfNumber(u) ==> !IsQuote(u[j])
  {
    MantissaIsPlain(u);
    var m := Mantissa(u);
    if HasExponent(u, m) {
      RunIsPlain(u, if m + 1 < |u| && IsSign(u[m + 1]) then m + 2 else m + 1, Digits);
    }
  }

  /** Only a string has quotes. */
  lemma {:induction false} FirstIsPlain(u: string)
    requires u != [] && !IsQuote(u[0])
    ensures forall j :: 0 <= j < First(u).len ==> !IsQuote(u[j])
  {
    assert u[0..] == u;
    if IsBlank(u[0]) {
      RunIsPlain(u, 0, Blanks);
    } else if Labels.IsDigit(u[0]) {
      NumberIsPlain(u);
    } else if u[0] == '&' {
      RunIsPlain(u, 1, Word);
    } else if IsLetter(u[0]) || IsHigh(u[0]) {
      RunIsPlain(u, 0, NameChars);
    }
  }

  lemma {:induction false} StringStep(u: string)
    requires u != [] && IsQuote(u[0]) && Paired(u)
    ensures Paired(u[First(u).len..]) && |Text(First(u).token)| == First(u).len
  {
    var q, n := u[0], Run(u[1..], Not(u[0]));
    RunIsAll(u[1..], Not(q));
    var text := u[1..][..n];
    InQuotes(text, q);
    QuoteOver(text, u[1..][n..], Some(q));
    assert u[1..] == text + u[1..][n..];
    if n + 1 < |u| {
      assert u[1..][n..][1..] == u[n + 2..];
      assert text == u[1..1 + n];
    }
  }

  lemma {:induction false} PlainStep(u: string)
    requires u != [] && !IsQuote(u[0]) && Paired(u)
    ensures Paired(u[First(u).len..]) && |Text(First(u).token)| <= First(u).len
  {
    var n := First(u).len;
    FirstIsPlain(u);
    NoQuotes(u[..n]);
    QuoteOver(u[..n], u[n..], None);
    assert u == u[..n] + u[n..];
    if First(u).token.Integer? {
      RunIsAll(u, Digits);
      PrintedValue(u[..Run(u, Digits)]);
    }
  }

  lemma {:induction false} PairedStep(u: string)
    requires u != [] && Paired(u)
    ensures Paired(u[First(u).len..]) && |Text(First(u).token)| <= First(u).len
  {
    if IsQuote(u[0]) {
      StringStep(u);
    } else {
      PlainStep(u);
    }
  }

  lemma {:induction false} TextsAreNoLonger(u: string)
    requires Paired(u)
    ensures |Texts(Tokens(u))| <= |u|
    decreases |u|
  {
    if u != [] {
      PairedStep(u);
      TextsAreNoLonger(u[First(u).len..]);
      TextsStep(First(u).token, Tokens(u[First(u).len..]));
    }
  }

  lemma TextsStep(t: Token, later: seq<Token>)
    ensures Texts([t] + later) == Text(t) + Texts(later)
  {
    assert ([t] + later)[1..] == later;
  }

  // ----- what is written has paired quotes -----

  lemma {:induction false} TextIsPlain(t: Token)
    requires Clean(t) && !t.Str?
    ensures forall c :: c in Text(t) ==> !IsQuote(c)
  {
    match t
    case Real(whole, _) => NumberIsPlain(whole.value);
    case Op(c) => OperatorIsPlain(c);
    case _ =>
  }

  lemma {:induction false} TextIsPaired(t: Token)
    requires Clean(t)
    ensures Paired(Text(t)) && Text(t) != []
  {
    if t.Str? {
      QuotedIsPaired(t.text, QuoteFor(t.text));
    } else {
      TextIsPlain(t);
      NoQuotes(Text(t));
    }
  }

  lemma {:induction false} PieceIsPaired(t: Token)
    requires Clean(t)
    ensures Paired(Piece(t))
  {
    TextIsPaired(t);
    if t.Str? {
      QuotedIsPaired([], QuoteFor(t.text));
      assert [QuoteFor(t.text)] + [] + [QuoteFor(t.text)] == [QuoteFor(t.text), QuoteFor(t.text)];
    } else if t.Keyword? {
      NoQuotes("&");
    }
  }

  lemma {:induction false} PieceIsShort(t: Token)
    requires Clean(t)
    ensures |Piece(t)| <= |Text(t)| && (!Fits(t) ==> |Piece(t)| < |Text(t)|)
  {
  }

  lemma {:induction false} WrittenIsPaired(buf: string, toks: seq<Token>)
    requires Paired(buf) && AllClean(toks)
    ensures Paired(Written(buf, toks))
    decreases |toks|
  {
    if toks != [] {
      PieceIsPaired(toks[0]);
      QuoteOver(buf, Piece(toks[0]), None);
      WrittenIsPaired(if |buf| + |Piece(toks[0])| < BODY_BUFFER then buf + Piece(toks[0]) else buf, toks[1..]);
    }
  }

  // ----- what does not fit makes it shorter -----

  lemma {:induction false} WrittenIsShort(buf: string, toks: seq<Token>)
    requires |buf| < BODY_BUFFER && AllClean(toks)
    ensures |Written(buf, toks)| < BODY_BUFFER && |Written(buf, toks)| <= |buf| + |Texts(toks)|
    ensures (exists t :: t in toks && !Fits(t)) ==> |Written(buf, toks)| < |buf| + |Texts(toks)|
    decreases |toks|
  {
    if toks != [] {
      PieceIsShort(toks[0]);
      WrittenIsShort(if |buf| + |Piece(toks[0])| < BODY_BUFFER then buf + Piece(toks[0]) else buf, toks[1..]);
    }
  }

  lemma {:induction false} FrontIsShorter(toks: seq<Token>, k: nat)
    requires k < |toks| && AllClean(toks)
    ensures |Texts(toks[..k])| < |Texts(toks)|
    decreases k
  {
    TextIsPaired(toks[0]);
    if k > 0 {
      FrontIsShorter(toks[1..], k - 1);
      assert toks[..k][1..] == toks[1..][..k - 1];
    }
  }

  /** What the buffers do not hold makes the rendering shorter than the texts of the tokens. */
  lemma {:induction false} LeftOutIsShorter(kept: seq<Token>)
    requires AllClean(kept) && !FitsBody(kept)
    ensures |Written([], Collected(kept))| < |Texts(kept)|
  {
    WrittenIsShort([], Collected(kept));
    if |kept| > BODY_CAP {
      FrontIsShorter(kept, BODY_CAP);
    }
  }

  // ----- reading it again -----

  lemma {:induction false} TokensStep(u: string, t: Token, n: nat)
    requires u != [] && First(u) == Scanned(t, n)
    ensures n <= |u| && Tokens(u) == [t] + Tokens(u[n..])
  {
  }

  lemma {:induction false} ApartIsRead(toks: seq<Token>)
    requires AllClean(toks) && Apart(toks)
    ensures Tokens(Texts(toks)) == toks
  {
    if toks != [] {
      var t, v := toks[0], Texts(toks[1..]);
      ApartIsRead(toks[1..]);
      AgainIffApart(t, v);
      TokensStep(Text(t) + v, t, |Text(t)|);
      assert (Text(t) + v)[|Text(t)|..] == v;
    }
  }

  /** A text of the right length cannot be read in other places. */
  lemma {:induction false} ReadIsApart(toks: seq<Token>)
    requires AllClean(toks) && Paired(Texts(toks)) && Tokens(Texts(toks)) == toks
    ensures Apart(toks)
  {
    if toks != [] {
      var t, v := toks[0], Texts(toks[1..]);
      var u := Text(t) + v;
      TextIsPaired(t);
      PairedStep(u);
      var n := First(u).len;
      TokensStep(u, First(u).token, n);
      assert First(u).token == t && Tokens(u[n..]) == toks[1..];
      TextsAreNoLonger(u[n..]);
      assert n == |Text(t)|;
      assert u[n..] == v;
      AgainIffApart(t, v);
      ReadIsApart(toks[1..]);
    }
  }

  /** For every body: what is read again is the tokens that were queued, exactly if the buffers
      hold them all and none joins the text that follows it. */
  lemma {:induction false} RoundTrip(u: string, kept: seq<Token>)
    requires kept == Pushed(Tokens(u))
    ensures Tokens(Rendered(Tokens(u))) == kept <==> FitsBody(kept) && Apart(kept)
  {
    var v := Rendered(Tokens(u));
    PushedIsClean(u);
    if FitsBody(kept) {
      AllWritten([], kept);
      assert v == Texts(kept);
      WrittenIsPaired([], kept);
      if Apart(kept) {
        ApartIsRead(kept);
      } else if Tokens(v) == kept {
        ReadIsApart(kept);
      }
    } else if Tokens(v) == kept {
      LeftOutIsShorter(kept);
      WrittenIsPaired([], Collected(kept));
      TextsAreNoLonger(v);
    }
  }

  // ----- texts without illegal characters -----

  /** The same to every tokeniser branch that looks at one character. */
  predicate Like(a: char, b: char) {
    a == b || (IsBlank(a) && IsBlank(b)) || (IsQuote(a) && IsQuote(b)) || (Labels.IsDigit(a) && Labels.IsDigit(b))
  }

  predicate StartsLike(u: string, v: string) {
    (u == [] <==> v == []) && (u != [] ==> Like(u[0], v[0]))
  }

  /** A token may look two characters ahead: past a dot. */
  predicate Follows(u: string, v: string) {
    StartsLike(u, v) && (u != [] && u[0] == '.' ==> StartsLike(u[1..], v[1..]))
  }

  /** Whether a token joins what follows depends on how that starts. */
  lemma {:induction false} JoinsAlike(t: Token, u: string, v: string)
    requires Follows(u, v) && Joins(t, v)
    ensures Joins(t, u)
  {
    if v[0] == '.' && |v| > 1 {
      assert u[0] == '.' && u[1..][0] == u[1] && v[1..][0] == v[1];
    }
  }

  lemma {:induction false} TextIsFront(u: string)
    requires u != []
    requires var t := First(u).token; !t.White? && !t.Str? && !t.Integer? && !t.Bad?
    ensures Text(First(u).token) == u[..First(u).len]
  {
    var n := First(u).len;
    if u[0] == '&' {
      assert u[..n] == "&" + u[1..n];
    } else if !Labels.IsDigit(u[0]) && !IsLetter(u[0]) && !IsHigh(u[0]) {
      assert n == 1 ==> u[..n] == [u[0]];
      assert n == 2 ==> u[..n] == [u[0], u[1]];
    }
  }

  /** Maximal munch: the first token does not join the rest. */
  lemma {:induction false} FirstIsApart(u: string)
    requires u != [] && !First(u).token.Bad?
    ensures !Joins(First(u).token, u[First(u).len..])
  {
    var t, n := First(u).token, First(u).len;
    assert u == u[..n] + u[n..];
    if t.White? {
      RunIsAll(u, Blanks);
    } else if t.Integer? {
      RunIsAll(u, Digits);
      assert |u| > n ==> u[n..][0] == u[n];
      assert |u| > n + 1 ==> u[n..][1] == u[n + 1];
    } else if !t.Str? {
      TextIsFront(u);
      FirstIsClean(u);
      AgainIffApart(t, u[n..]);
    }
  }

  /** The text of the first token starts like it. */
  lemma {:induction false} TextStartsLike(u: string)
    requires u != [] && !First(u).token.Bad?
    ensures var p := Text(First(u).token);
            p != [] && Like(u[0], p[0]) && (u[0] == '.' ==> First(u) == Scanned(Op('.'), 1))
  {
    FirstIsClean(u);
    TextIsPaired(First(u).token);
  }

  lemma {:induction false} LegalStep(u: string)
    requires u != [] && Legal(u)
    ensures !First(u).token.Bad? && Legal(u[First(u).len..])
  {
    assert First(u).token in Tokens(u);
    assert forall x :: x in Tokens(u[First(u).len..]) ==> x in Tokens(u);
  }

  lemma {:induction false} LegalIsApart(u: string)
    requires Legal(u)
    ensures Pushed(Tokens(u)) == Tokens(u) && Apart(Tokens(u)) && Follows(u, Texts(Tokens(u)))
    decreases |u|
  {
    if u != [] {
      var t, rest := First(u).token, u[First(u).len..];
      var v := Texts(Tokens(rest));
      LegalStep(u);
      LegalIsApart(rest);
      FirstIsApart(u);
      if Joins(t, v) {
        JoinsAlike(t, rest, v);
      }
      TextStartsLike(u);
      TextsStep(t, Tokens(rest));
      PushedStep(t, Tokens(rest));
      assert u[0] == '.' ==> (Text(t) + v)[1..] == v && rest == u[1..];
    }
  }

  /** A body without illegal characters is read again as the same tokens exactly if the buffers
      hold everything. */
  lemma {:induction false} LegalRoundTrip(u: string, toks: seq<Token>)
    requires toks == Tokens(u) && Legal(u)
    ensures Tokens(Rendered(toks)) == toks <==> FitsBody(toks)
  {
    LegalIsApart(u);
    RoundTrip(u, toks);
  }

  lemma {:induction false} StarsApart()
    ensures Tokens("*_*") == [Op('*')] + Tokens("_*") && Tokens("_*") == [Bad('_')] + Tokens("*")
    ensures Tokens("*") == [Op('*')] + []
  {
    assert "*_*"[1..] == "_*" && "_*"[1..] == "*" && "*"[1..] == [];
    TokensStep("*_*", Op('*'), 1);
    TokensStep("_*", Bad('_'), 1);
    TokensStep("*", Op('*'), 1);
  }

  /** An illegal character is left out, and its neighbours may run together: two stars become
      the operator of two stars. */
  lemma {:induction false} IllegalJoinsNeighbours()
    ensures Pushed(Tokens("*_*")) == [Op('*'), Op('*')] && !Apart([Op('*'), Op('*')])
  {
    StarsApart();
    PushedStep(Op('*'), Tokens("_*"));
    PushedStep(Bad('_'), Tokens("*"));
    PushedStep(Op('*'), []);
    assert [Op('*'), Op('*')][1..] == [Op('*')] && [Op('*')][1..] == [];
    assert Texts([Op('*')]) == "*";
  }
}
