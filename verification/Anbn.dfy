/** The language { a^n b^n | n >= 1 }, decided three times over: by the functions compiled for
    S = a S b | a b, by a counting scan, and by a table-driven parser (module AnbnParser). */
module Anbn {
  import opened Denotation
  import opened FuncIr
  import opened FuncSpec
  import opened FuncParts
  import opened FuncCalls
  import opened FuncArena
  import opened FuncSession
  import opened FuncBounds
  import opened FuncGenerator
  import FuncLeaves

  /** As many a's as b's, at least one, and all a's first. */
  predicate IsAnbn(s: string) {
    && |s| > 0 && |s| % 2 == 0
    && forall i :: 0 <= i < |s| ==> s[i] == if i < |s| / 2 then 'a' else 'b'
  }

  /** The text starts with `na` a's and then `nb` b's. */
  predicate Reads(s: string, na: nat, nb: nat) {
    na + nb <= |s| && forall i :: 0 <= i < na + nb ==> s[i] == if i < na then 'a' else 'b'
  }

  /** Once a b has been read, the text is in the language exactly if there are as many b's as
      a's up to its end. */
  lemma {:induction false} AfterB(s: string, na: nat, nb: nat)
    requires Reads(s, na, nb) && nb > 0
    ensures IsAnbn(s) ==> |s| == 2 * na && na > 0
    ensures na + nb == |s| ==> (IsAnbn(s) <==> na == nb)
    ensures na + nb < |s| && s[na + nb] != 'b' ==> !IsAnbn(s)
  {
    if IsAnbn(s) {
      assert s[na] == 'b';
      assert na > 0 ==> s[na - 1] == 'a';
    }
  }

  /** While only a's have been read, an a or a b must follow. */
  lemma {:induction false} OnlyA(s: string, na: nat)
    requires Reads(s, na, 0)
    ensures na == |s| ==> !IsAnbn(s)
    ensures na < |s| && s[na] != 'a' && (s[na] != 'b' || na == 0) ==> !IsAnbn(s)
  {
    if IsAnbn(s) {
      assert s[0] == 'a' && s[|s| - 1] == 'b';
    }
  }

  // ----- the counting scan -----

  /** Counts the leading a's, then the b's that follow, and compares. */
  method TinyAnbn(s: string) returns (r: bool)
    ensures r <==> IsAnbn(s)
  {
    var pos, depth := 0, 0;
    while pos < |s| && s[pos] == 'a'
      invariant pos == depth <= |s| && Reads(s, depth, 0)
    {
      depth := depth + 1;
      pos := pos + 1;
    }
    OnlyA(s, depth);
    if depth == 0 {
      return false;
    }
    var bcount := 0;
    while pos < |s| && s[pos] == 'b'
      invariant pos == depth + bcount <= |s| && Reads(s, depth, bcount)
    {
      bcount := bcount + 1;
      pos := pos + 1;
    }
    if bcount > 0 {
      AfterB(s, depth, bcount);
    }
    return bcount == depth && pos == |s|;
  }

  // ----- the compiled pattern -----

  /** S = a S b | a b. */
  function AnbnNode(): Node {
    Alt(Cat(Lit("a"), Cat(Node.Ref("S"), Lit("b"))), Cat(Lit("a"), Lit("b")))
  }

  function AnbnGraph(): Graph {
    map["S" := AnbnNode()]
  }

  /** How many a's stand at `i`, and how many b's follow them. */
  function As(s: string, i: nat): nat
    requires i <= |s|
  {
    RunEnd(s, "a", i) - i
  }

  function Bs(s: string, i: nat): nat
    requires i <= |s|
  {
    RunEnd(s, "b", RunEnd(s, "a", i)) - RunEnd(s, "a", i)
  }

  /** The only end there can be: past all a's and as many b's. */
  function AnbnEnd(s: string, i: nat): Stream
    requires i <= |s|
  {
    if 0 < As(s, i) <= Bs(s, i) then Unit(i + 2 * As(s, i)) else Nothing
  }

  /** From the only end of a complete stream. */
  lemma {:induction false} FromOnly(c: Ctx, d: nat, e: nat, r: Node)
    requires e <= |c.subject|
    ensures EndsFrom(c, d, Unit(e), r) == EndsOf(c, d, r, e)
  {
    EndsFromFirst(c, d, Unit(e), r);
    assert [e][1..] == [];
    EndsFromNone(c, d, Nothing, r);
  }

  lemma OneChar(s: string, i: nat, x: char)
    requires i <= |s|
    ensures HasAt(s, i, [x]) <==> i < |s| && s[i] == x
  {
  }

  lemma {:induction false} LitThen(c: Ctx, d: nat, x: char, r: Node, i: nat)
    requires i <= |c.subject|
    ensures EndsOf(c, d, Cat(Lit([x]), r), i)
         == if i < |c.subject| && c.subject[i] == x then EndsOf(c, d, r, i + 1) else Nothing
  {
    CatEnds(c, d, Lit([x]), r, i);
    FuncLeaves.LitEnds(c, d, [x], i);
    OneChar(c.subject, i, x);
    if i < |c.subject| && c.subject[i] == x {
      FromOnly(c, d, i + 1, r);
    } else {
      EndsFromNone(c, d, Nothing, r);
    }
  }

  /** One character further if it is a b. */
  function WithB(s: string, st: Stream): Stream {
    if st.ends != [] && st.ends[0] < |s| && s[st.ends[0]] == 'b' then Unit(st.ends[0] + 1) else Nothing
  }

  lemma {:induction false} ThenB(c: Ctx, d: nat, l: Node, i: nat)
    requires i <= |c.subject| && |EndsOf(c, d, l, i).ends| <= 1 && !EndsOf(c, d, l, i).cut
    ensures EndsOf(c, d, Cat(l, Lit("b")), i) == WithB(c.subject, EndsOf(c, d, l, i))
  {
    var st := EndsOf(c, d, l, i);
    CatEnds(c, d, l, Lit("b"), i);
    if st.ends == [] {
      EndsFromNone(c, d, st, Lit("b"));
    } else {
      assert st == Unit(st.ends[0]);
      FromOnly(c, d, st.ends[0], Lit("b"));
      ShortArm(c, d, st.ends[0]);
    }
  }

  /** One a less: the runs seen from the next character. */
  lemma {:induction false} NextA(s: string, i: nat)
    requires i < |s| && s[i] == 'a'
    ensures RunEnd(s, "a", i) == RunEnd(s, "a", i + 1)
    ensures As(s, i) == As(s, i + 1) + 1 && Bs(s, i) == Bs(s, i + 1)
  {
  }

  /** Where the b's are: the characters after the a's, as many as `Bs` says. */
  lemma {:induction false} BsAt(s: string, i: nat, j: nat)
    requires i <= |s|
    requires var m := RunEnd(s, "a", i); m <= j < |s| && forall k :: m <= k < j ==> s[k] == 'b'
    ensures s[j] == 'b' <==> j < RunEnd(s, "a", i) + Bs(s, i)
  {
  }

  /** S delivers its only end, followed as deep as there are a's. */
  lemma {:induction false} AnbnEnds(c: Ctx, d: nat, i: nat)
    requires c.graph == AnbnGraph() && i <= |c.subject| && d >= As(c.subject, i)
    ensures EndsOf(c, d, AnbnNode(), i) == AnbnEnd(c.subject, i)
    decreases d
  {
    BothArms(c, d, i);
    if i < |c.subject| && c.subject[i] == 'a' {
      NextA(c.subject, i);
      AnbnEnds(c, d - 1, i + 1);
      LongArm(c, d, i + 1);
      ShortArm(c, d, i + 1);
      ArmsAgree(c.subject, i);
    }
  }

  /** Both arms start with an a. */
  lemma {:induction false} BothArms(c: Ctx, d: nat, i: nat)
    requires i <= |c.subject|
    ensures EndsOf(c, d, AnbnNode(), i) ==
      if i < |c.subject| && c.subject[i] == 'a' then
        Append(EndsOf(c, d, Cat(Node.Ref("S"), Lit("b")), i + 1), EndsOf(c, d, Lit("b"), i + 1))
      else Nothing
  {
    AltEnds(c, d, Cat(Lit("a"), Cat(Node.Ref("S"), Lit("b"))), Cat(Lit("a"), Lit("b")), i);
    LitThen(c, d, 'a', Cat(Node.Ref("S"), Lit("b")), i);
    LitThen(c, d, 'a', Lit("b"), i);
  }

  lemma {:induction false} LongArm(c: Ctx, d: nat, i: nat)
    requires c.graph == AnbnGraph() && i <= |c.subject| && d > 0
    requires EndsOf(c, d - 1, AnbnNode(), i) == AnbnEnd(c.subject, i)
    ensures EndsOf(c, d, Cat(Node.Ref("S"), Lit("b")), i) == WithB(c.subject, AnbnEnd(c.subject, i))
  {
    RefEnds(c, d, "S", i);
    ThenB(c, d, Node.Ref("S"), i);
  }

  lemma {:induction false} ShortArm(c: Ctx, d: nat, i: nat)
    requires i <= |c.subject|
    ensures EndsOf(c, d, Lit("b"), i) == WithB(c.subject, Unit(i))
  {
    FuncLeaves.LitEnds(c, d, "b", i);
    OneChar(c.subject, i, 'b');
  }

  /** The two arms together, in terms of the subject only. */
  lemma {:induction false} ArmsAgree(s: string, i: nat)
    requires i < |s| && s[i] == 'a' && As(s, i) == As(s, i + 1) + 1 && Bs(s, i) == Bs(s, i + 1)
    ensures Append(WithB(s, AnbnEnd(s, i + 1)), WithB(s, Unit(i + 1))) == AnbnEnd(s, i)
  {
    var m := RunEnd(s, "a", i);
    if 0 < As(s, i + 1) <= Bs(s, i + 1) {
      var e := i + 1 + 2 * As(s, i + 1);
      if e < |s| {
        BsAt(s, i, e);
      }
    }
  }

  /** S ends at the end of the subject exactly if the subject is in the language. */
  lemma {:induction false} AnbnEndIsLanguage(s: string)
    ensures |s| in AnbnEnd(s, 0).ends <==> IsAnbn(s)
  {
    var m := RunEnd(s, "a", 0);
    var e := RunEnd(s, "b", m);
    assert Reads(s, m, e - m);
    if e > m {
      AfterB(s, m, e - m);
    } else {
      OnlyA(s, m);
    }
  }

  // ----- the compiled functions -----

  function AnbnSource(size: Size, subject: string): Source {
    Source(AnbnGraph(), map["S" := size], subject)
  }

  /** The frames a call asks for: one for each a ahead, and one more. */
  lemma {:induction false} AnbnAsks(size: Size, subject: string, d: nat, i: nat, lo: nat, want: nat)
    requires i <= |subject| && Asks(AnbnSource(size, subject), d, Node.Ref("S"), i, lo, want)
    ensures want <= lo + Bytes(Total(size), As(subject, i) + 1)
    decreases d
  {
    if want != lo + Total(size) {
      NestedAsks(size, subject, d - 1, i, lo + Total(size), want);
      NextA(subject, i);
      AnbnAsks(size, subject, d - 1, i + 1, lo + Total(size), want);
    }
  }

  /** The function for S asks for another frame only past an a. */
  lemma {:induction false} NestedAsks(size: Size, subject: string, d: nat, i: nat, lo: nat, want: nat)
    requires i <= |subject| && Asks(AnbnSource(size, subject), d, AnbnNode(), i, lo, want)
    ensures i < |subject| && subject[i] == 'a'
    ensures Asks(AnbnSource(size, subject), d, Node.Ref("S"), i + 1, lo, want)
  {
    var src, inner := AnbnSource(size, subject), Cat(Node.Ref("S"), Lit("b"));
    assert !Asks(src, d, Cat(Lit("a"), Lit("b")), i, lo, want);
    var e: nat, left :|
      Shape(src, d, Lit("a"), i, e, left) && Asks(src, d, inner, e, lo + SizeOf(src, d, Lit("a"), left), want);
    assert HasAt(subject, i, "a") && e == i + 1;
    assert subject[i] == "a"[0];
    BeforeLit(src, d, Node.Ref("S"), "b", e, lo, want);
  }

  lemma {:induction false} BeforeLit(src: Source, d: nat, l: Node, t: string, i: nat, lo: nat, want: nat)
    requires Asks(src, d, Cat(l, Lit(t)), i, lo, want)
    ensures Asks(src, d, l, i, lo, want)
  {
  }

  /** Arena bytes a call for the whole subject needs. */
  function AnbnRoom(size: Size, subject: string): nat {
    Bytes(Total(size), As(subject, 0) + 1)
  }

  /** The compiled functions enumerate that end: called again and again from the start of the
      subject, the function for S leaves the cursor at the end of the subject if the subject is
      in the language, and never otherwise. The arena overflows at most where a frame for each
      leading a, and one more, do not fit. */
  lemma {:induction false} CompiledAnbnDecides(size: Size, subject: string, d: nat, m: Machine)
    requires d >= |subject| && m.stack == [] && m.outer == None && m.delta == 0
    ensures Lists(["S"], AnbnGraph())
    ensures YieldsWithin(Generated(AnbnSource(size, subject), ["S"]), subject, "S", m, AnbnEnd(subject, 0), 0, d + 1,
                         m.pos + AnbnRoom(size, subject))
    ensures |subject| in AnbnEnd(subject, 0).ends <==> IsAnbn(subject)
  {
    var src := AnbnSource(size, subject);
    AnbnGenerates(src);
    GeneratedSourceYields(src, ["S"], d, "S", 0, m);
    AnbnEnds(CtxOf(src, ["S"]), d, 0);
    AnbnEndIsLanguage(subject);
    AnbnAsked(size, subject, d + 1, m.pos);
    AskedWithin(Generated(src, ["S"]), subject, "S", m, AnbnEnd(subject, 0), 0, d + 1, Asked(src, d + 1, "S", 0, m.pos),
                m.pos + AnbnRoom(size, subject));
  }

  lemma {:induction false} AnbnAsked(size: Size, subject: string, d: nat, lo: nat)
    ensures Below(Asked(AnbnSource(size, subject), d, "S", 0, lo), lo + AnbnRoom(size, subject))
  {
    forall want | want in Asked(AnbnSource(size, subject), d, "S", 0, lo)
      ensures want <= lo + AnbnRoom(size, subject)
    {
      AnbnAsks(size, subject, d, 0, lo, want);
    }
  }

  lemma {:induction false} AnbnGenerates(src: Source)
    requires src.graph == AnbnGraph() && "S" in src.sizes
    ensures Generates(src, ["S"])
  {
    var long := Cat(Node.Ref("S"), Lit("b"));
    assert Closed(AnbnGraph(), long);
    assert Closed(AnbnGraph(), Cat(Lit("a"), long)) && Closed(AnbnGraph(), Cat(Lit("a"), Lit("b")));
  }
}
