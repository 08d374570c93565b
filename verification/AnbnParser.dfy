/** bench/pda/anbn.tab.c: the table-driven parser for S = a S b | a b, with its state stack.
    The gotos of yyparse become the turns of a loop; the value stack is not part of the model. */
module AnbnParser {
  import opened Anbn
  import opened Denotation

  // ----- the tables -----

  const YYFINAL: int := 6
  const YYLAST: int := 7
  const YYNTOKENS: int := 6
  const YYNSTATES: int := 9
  const YYPACT_NINF: int := -4
  const YYINITDEPTH: int := 200
  const YYMAXDEPTH: int := 10000

  const YYPACT: seq<int> := [-1, -3, 3, 0, -4, 2, -4, -4, -4]
  const YYDEFACT: seq<int> := [0, 0, 0, 0, 4, 0, 1, 2, 3]
  const YYPGOTO: seq<int> := [-4, -4, 6]
  const YYDEFGOTO: seq<int> := [0, 2, 3]
  const YYTABLE: seq<int> := [1, 4, 1, 6, 0, 7, 8, 5]
  const YYCHECK: seq<int> := [3, 4, 3, 0, -1, 5, 4, 1]
  const YYR1: seq<int> := [0, 6, 7, 8, 8]
  const YYR2: seq<int> := [0, 2, 2, 3, 2]

  // ----- tokens -----

  const YYEOF: int := 0
  const TOK_A: int := 258
  const TOK_B: int := 259
  const TOK_END: int := 260

  const SYMBOL_ERROR: int := 1

  /** The symbol kind of a token code. */
  function Translate(code: int): int {
    if code <= YYEOF then 0 else if 256 <= code <= TOK_END then code - 255 else 2
  }

  datatype Action = Shift(state: int) | Reduce(rule: int) | Error

  predicate Applies(yyn: int, token: int) {
    0 <= yyn <= YYLAST && YYCHECK[yyn] == token
  }

  function Default(state: int): Action
    requires 0 <= state < YYNSTATES
  {
    if YYDEFACT[state] == 0 then Error else Reduce(YYDEFACT[state])
  }

  predicate NeedsToken(state: int)
    requires 0 <= state < YYNSTATES
  {
    YYPACT[state] != YYPACT_NINF
  }

  /** What the tables say in a state that needs a token. */
  function OnToken(state: int, token: int): Action
    requires 0 <= state < YYNSTATES
  {
    var yyn := YYPACT[state] + token;
    if !Applies(yyn, token) then Default(state)
    else if YYTABLE[yyn] <= 0 then Reduce(-YYTABLE[yyn])
    else Shift(YYTABLE[yyn])
  }

  /** The state after shifting the error token, if the state does shift it. */
  function ErrorShift(state: int): Option<int>
    requires 0 <= state < YYNSTATES
  {
    var yyn := YYPACT[state] + SYMBOL_ERROR;
    if NeedsToken(state) && Applies(yyn, SYMBOL_ERROR) && 0 < YYTABLE[yyn] then Some(YYTABLE[yyn]) else None
  }

  /** No state does: the first error ends the parse. */
  lemma {:induction false} NoErrorShift(state: int)
    requires 0 <= state < YYNSTATES
    ensures ErrorShift(state) == None
  {
  }

  /** The state after a reduction to the left-hand side of `rule` on top of `below`. */
  function GotoState(rule: int, below: int): int
    requires 1 <= rule <= 4
  {
    var lhs := YYR1[rule] - YYNTOKENS;
    var yyi := YYPGOTO[lhs] + below;
    if 0 <= yyi <= YYLAST && YYCHECK[yyi] == below then YYTABLE[yyi] else YYDEFGOTO[lhs]
  }

  /** Every action of the tables, token kinds 0 to 5. */
  lemma {:induction false} Actions(state: int, token: int)
    requires 0 <= state < YYNSTATES && 0 <= token < YYNTOKENS
    ensures NeedsToken(state) <==> state in {0, 1, 2, 3, 5}
    ensures state == 0 ==> OnToken(state, token) == if token == 3 then Shift(1) else Error
    ensures state == 1 ==> OnToken(state, token) == if token == 3 then Shift(1) else if token == 4 then Shift(4)
        else Error
    ensures state == 2 ==> OnToken(state, token) == if token == 0 then Shift(6) else Error
    ensures state == 3 ==> OnToken(state, token) == if token == 5 then Shift(7) else Error
    ensures state == 5 ==> OnToken(state, token) == if token == 4 then Shift(8) else Error
    ensures state in {4, 7, 8} ==> Default(state) == Reduce(if state == 4 then 4 else if state == 7 then 2 else 3)
  {
  }

  lemma {:induction false} Gotos()
    ensures GotoState(4, 0) == 3 && GotoState(4, 1) == 5 && GotoState(3, 0) == 3 && GotoState(3, 1) == 5
        && GotoState(2, 0) == 2
  {
  }

  // ----- what the stack remembers -----

  /** What stands on the stack above the a's that are still open. */
  datatype Tail = Open | SawB | InnerDone | OuterB | Whole | Ended | Input

  /** What has been read is given by the tail, `k` a's still open, and `done` pairs of an a and
      a b within or after them: k + done a's, and done b's, or one more while one is on the stack. */
  function Extra(t: Tail): nat {
    if t.SawB? || t.OuterB? then 1 else 0
  }

  /** The state stack: 0, then 1 for each open a, then what stands above them. */
  function StackOf(t: Tail, k: nat): (stack: seq<int>)
    ensures stack != []
    decreases k, if t.Open? then 0 else if t.InnerDone? then 1 else 2
  {
    match t
    case Open => if k == 0 then [0] else StackOf(Open, k - 1) + [1]
    case SawB => StackOf(Open, k) + [4]
    case InnerDone => StackOf(Open, k) + [5]
    case OuterB => StackOf(InnerDone, k) + [8]
    case Whole => [0, 3]
    case Ended => [0, 3, 7]
    case Input => [0, 2]
  }

  lemma {:induction false} OpenStack(k: nat)
    ensures |StackOf(Open, k)| == k + 1 && forall i :: 0 <= i <= k ==> StackOf(Open, k)[i] == if i == 0 then 0 else 1
    decreases k
  {
    if k > 0 {
      OpenStack(k - 1);
    }
  }

  /** Pairs are done inside open a's, or after all a's are closed. */
  predicate Fits(t: Tail, k: nat, done: nat) {
    && (t.Open? || t.SawB? <==> done == 0)
    && (t.Whole? || t.Ended? || t.Input? ==> k == 0)
    && (t.SawB? || t.InnerDone? || t.OuterB? ==> k > 0)
  }

  ghost predicate Parsed(s: string, t: Tail, k: nat, done: nat) {
    && Fits(t, k, done) && Reads(s, k + done, done + Extra(t))
    && (t.Ended? || t.Input? ==> k + 2 * done + Extra(t) == |s|)
    && (done > 0 ==> k + done < YYMAXDEPTH - 2)
  }

  /** Depth at which the parser gives up: as many a's, or one less and a b, as the stack holds. */
  predicate TooDeep(s: string) {
    var na := RunEnd(s, "a", 0);
    na >= 9999 || (na == 9998 && na < |s| && s[na] == 'b')
  }

  /** In the language, that is a matter of length. */
  lemma {:induction false} TooDeepInLanguage(s: string)
    requires IsAnbn(s)
    ensures TooDeep(s) <==> |s| >= 2 * 9998
  {
    RunOfAs(s, |s| / 2);
  }

  lemma {:induction false} RunOfAs(s: string, na: nat)
    requires Reads(s, na, 0)
    ensures RunEnd(s, "a", 0) >= na
    ensures na == |s| || s[na] != 'a' ==> RunEnd(s, "a", 0) == na
  {
    assert 'a' in "a";
  }

  // ----- how the stack changes -----

  /** The stack after an action. */
  function Advanced(stack: seq<int>, act: Action): seq<int>
    requires !act.Error? && (act.Reduce? ==> 1 <= act.rule <= 4 && YYR2[act.rule] < |stack|)
  {
    if act.Shift? then stack + [act.state]
    else
      var n := |stack| - YYR2[act.rule];
      stack[..n] + [GotoState(act.rule, stack[n - 1])]
  }

  /** The tail, the open a's and the pairs after an action. */
  function NextTail(t: Tail, k: nat, act: Action): Tail {
    match t
    case Open => if act == Shift(1) then Open else SawB
    case InnerDone => OuterB
    case Whole => Ended
    case Ended => Input
    case _ => if k == 1 then Whole else InnerDone
  }

  function NextOpen(t: Tail, k: nat, act: Action): nat {
    if t.Open? && act == Shift(1) then k + 1 else if (t.SawB? || t.OuterB?) && k > 0 then k - 1 else k
  }

  function NextDone(t: Tail, done: nat): nat {
    if t.SawB? || t.OuterB? then done + 1 else done
  }

  function TopOf(t: Tail, k: nat): int {
    match t
    case Open => if k == 0 then 0 else 1
    case SawB => 4
    case InnerDone => 5
    case OuterB => 8
    case Whole => 3
    case Ended => 7
    case Input => 2
  }

  lemma {:induction false} TopState(t: Tail, k: nat)
    ensures var stack := StackOf(t, k);
      stack[|stack| - 1] == TopOf(t, k) && forall i :: 0 <= i < |stack| ==> 0 <= stack[i] < YYNSTATES
  {
    OpenStack(k);
  }

  /** What the tables choose, in a given state at a given position. */
  function Chosen(s: string, state: int, at: nat): Action
    requires 0 <= state < YYNSTATES
  {
    if NeedsToken(state) then OnToken(state, Translate(TokenAt(s, at))) else Default(state)
  }

  /** What the history makes the tables choose. */
  function ActionAt(s: string, t: Tail, k: nat, done: nat): Action {
    var next := TokenAt(s, k + 2 * done + Extra(t));
    match t
    case Open => if next == TOK_A then Shift(1) else if next == TOK_B && k > 0 then Shift(4) else Error
    case SawB => Reduce(4)
    case InnerDone => if next == TOK_B then Shift(8) else Error
    case OuterB => Reduce(3)
    case Whole => if next == TOK_END then Shift(7) else Error
    case Ended => Reduce(2)
    case Input => Error
  }

  lemma {:induction false} ChosenIs(s: string, t: Tail, k: nat, done: nat, state: int, token: int)
    requires Fits(t, k, done) && state == TopOf(t, k) && token == Translate(TokenAt(s, k + 2 * done + Extra(t)))
    requires t.Ended? || t.Input? ==> k + 2 * done + Extra(t) == |s|
    ensures 0 <= state < YYNSTATES
    ensures Chosen(s, state, k + 2 * done + Extra(t)) == ActionAt(s, t, k, done)
    ensures NeedsToken(state) <==> !(t.SawB? || t.OuterB? || t.Ended?)
  {
    Actions(state, token);
    if t.Open? {
      assert state == 0 || state == 1;
      assert Chosen(s, state, k + 2 * done + Extra(t)) == OnToken(state, token) == ActionAt(s, t, k, done);
    } else if t.InnerDone? {
      assert Chosen(s, state, k + 2 * done + Extra(t)) == OnToken(5, token) == ActionAt(s, t, k, done);
    } else if t.Whole? {
      assert Chosen(s, state, k + 2 * done + Extra(t)) == OnToken(3, token) == ActionAt(s, t, k, done);
    } else if t.Input? {
      assert Chosen(s, state, k + 2 * done + Extra(t)) == OnToken(2, 5) == ActionAt(s, t, k, done);
    } else {
      assert Chosen(s, state, k + 2 * done + Extra(t)) == Default(state) == ActionAt(s, t, k, done);
    }
  }

  /** Reducing a b, with the a or the S b it closes, leaves one a less. */
  lemma {:induction false} Closed(t: Tail, k: nat)
    requires k > 0 && (t.SawB? || t.OuterB?)
    ensures var act, stack := Reduce(if t.SawB? then 4 else 3), StackOf(t, k);
            YYR2[act.rule] < |stack| && Advanced(stack, act) == StackOf(NextTail(t, k, act), k - 1)
  {
    Gotos();
    OpenStack(k - 1);
    var below, stack := StackOf(Open, k - 1), StackOf(t, k);
    assert StackOf(Open, k) == below + [1];
    if t.SawB? {
      assert stack == below + [1] + [4];
    } else {
      assert StackOf(InnerDone, k) == below + [1] + [5];
      assert stack == below + [1] + [5] + [8];
    }
    assert stack[..k] == below;
  }

  lemma {:induction false} StackAfter(s: string, t: Tail, k: nat, done: nat, act: Action, t': Tail, k': nat, done': nat)
    requires Fits(t, k, done) && act == ActionAt(s, t, k, done) && !act.Error? && t' == NextTail(t, k, act)
        && k' == NextOpen(t, k, act) && done' == NextDone(t, done)
    ensures act.Reduce? ==> 1 <= act.rule <= 4 && YYR2[act.rule] < |StackOf(t, k)|
    ensures Advanced(StackOf(t, k), act) == StackOf(t', k')
  {
    if t.SawB? || t.OuterB? {
      Closed(t, k);
    } else if t.Ended? {
      Gotos();
      assert [0, 3, 7][..1] == [0];
    }
  }

  // ----- what the parse decides -----

  lemma {:induction false} FullMeansTooDeep(s: string, t: Tail, k: nat, done: nat)
    requires Parsed(s, t, k, done) && |StackOf(t, k)| >= YYMAXDEPTH
    ensures TooDeep(s) && !t.Input?
  {
    OpenStack(k);
    RunOfAs(s, k + done);
  }

  lemma {:induction false} OnlyOne(stack: seq<int>, state: int)
    requires stack == []
    ensures stack + [state] == [state]
  {
  }

  lemma {:induction false} NothingRead(s: string)
    ensures Parsed(s, Open, 0, 0) && StackOf(Open, 0) == [0]
  {
  }

  /** An error means that the text is not in the language, or that it has been recognised already. */
  lemma {:induction false} ErrorDecides(s: string, t: Tail, k: nat, done: nat)
    requires Parsed(s, t, k, done) && |StackOf(t, k)| < YYMAXDEPTH && ActionAt(s, t, k, done).Error?
    ensures !TooDeep(s) && (IsAnbn(s) <==> t.Input?)
  {
    OpenStack(k);
    RunOfAs(s, k + done);
    if done + Extra(t) == 0 { OnlyA(s, k + done); } else { AfterB(s, k + done, done + Extra(t)); }
  }

  /** Any other action keeps the history true, reads what it must, and comes closer to the end. */
  lemma {:induction false} ActionKeeps(s: string, t: Tail, k: nat, done: nat, act: Action, t': Tail, k': nat,
      done': nat)
    requires Parsed(s, t, k, done) && |StackOf(t, k)| < YYMAXDEPTH && !act.Error? && act == ActionAt(s, t, k, done)
        && t' == NextTail(t, k, act) && k' == NextOpen(t, k, act) && done' == NextDone(t, done)
    ensures Parsed(s, t', k', done') && !t.Input? && (act == Reduce(2) <==> t'.Input?)
    ensures act.Shift? <==> !(t.SawB? || t.OuterB? || t.Ended?)
    ensures k' + 2 * done' + Extra(t') == if act.Shift? && k + 2 * done + Extra(t) < |s|
        then k + 2 * done + Extra(t) + 1 else k + 2 * done + Extra(t)
    ensures 3 * (|s| - (k' + 2 * done' + Extra(t'))) + Weight(t') < 3 * (|s| - (k + 2 * done + Extra(t))) + Weight(t)
  {
    OpenStack(k);
    if t.Open? {
    } else if t.InnerDone? || t.Whole? {
    } else {
      assert act.Reduce?;
    }
  }

  // ----- the parser -----

  class Parser {
    const src: string
    var pos: nat
    var result: int
    var states: array<int>
    var top: nat

    ghost predicate Valid()
      reads this
    {
      pos <= |src| && top < states.Length <= YYMAXDEPTH && YYINITDEPTH <= states.Length
    }

    ghost function Stack(): seq<int>
      reads this, states
      requires Valid()
    {
      states[..top + 1]
    }

    /** bison_anbn_init */
    constructor (s: string)
      ensures src == s && pos == 0 && result == 0
    {
      src := s;
      pos, result, top := 0, 0, 0;
      states := new int[0];
    }

    /** The next token; at the end of the text it is TOK_END, again and again. */
    method Yylex() returns (code: int)
      requires Valid()
      modifies this`pos
      ensures Valid() && pos == if old(pos) < |src| then old(pos) + 1 else old(pos)
      ensures code == TokenAt(src, old(pos))
    {
      if pos >= |src| {
        return TOK_END;
      }
      var c := src[pos];
      pos := pos + 1;
      return if c == 'a' then TOK_A else if c == 'b' then TOK_B else -1;
    }

    /** Doubles the stack, up to its greatest size. */
    method Grow()
      requires Valid() && states.Length < YYMAXDEPTH
      modifies this`states
      ensures Valid() && fresh(states) && Stack() == old(Stack())
      ensures states.Length == (if YYMAXDEPTH < 2 * old(states.Length) then YYMAXDEPTH else 2 * old(states.Length))
      ensures states.Length > old(states.Length)
    {
      var size := states.Length * 2;
      if YYMAXDEPTH < size {
        size := YYMAXDEPTH;
      }
      var bigger := new int[size];
      for i := 0 to top + 1
        invariant states == old(states) && forall j :: 0 <= j < i ==> bigger[j] == states[j]
      {
        bigger[i] := states[i];
      }
      states := bigger;
    }

    /** yybackup and yydefault: what to do in a state, reading a token if the state needs one.
        By the table (see Actions) a token that is read is shifted or is an error, so none is
        ever kept as lookahead. */
    method Choose(state: int) returns (act: Action)
      requires Valid() && 0 <= state < YYNSTATES
      modifies this`pos
      ensures Valid() && pos == if NeedsToken(state) && old(pos) < |src| then old(pos) + 1 else old(pos)
      ensures act == Chosen(src, state, old(pos))
    {
      var yyn := YYPACT[state];
      if yyn == YYPACT_NINF {
        return Default(state);
      }
      var yychar := Yylex();
      var yytoken := Translate(yychar);
      yyn := yyn + yytoken;
      if yyn < 0 || YYLAST < yyn || YYCHECK[yyn] != yytoken {
        return Default(state);
      }
      yyn := YYTABLE[yyn];
      return if yyn <= 0 then Reduce(-yyn) else Shift(yyn);
    }

    /** yyerrlab1: pops until a state shifts the error token; None when the stack is used up. */
    method Recover() returns (shifted: Option<int>)
      requires Valid() && forall i :: 0 <= i <= top ==> 0 <= states[i] < YYNSTATES
      modifies this`top
      ensures Valid() && shifted == None
    {
      while ErrorShift(states[top]).None? && top > 0
        invariant Valid() && top <= old(top)
      {
        top := top - 1;
      }
      shifted := ErrorShift(states[top]);
      NoErrorShift(states[top]);
    }

    /** yysetstate: stores the state on top, making room for one more; false when there is none. */
    method Store(state: int) returns (ok: bool)
      requires Valid()
      modifies this`states, states
      ensures Valid() && (states == old(states) || fresh(states)) && Stack() == old(states[..top]) + [state]
      ensures ok <==> top < YYMAXDEPTH - 1
      ensures ok ==> top + 1 < states.Length
    {
      states[top] := state;
      assert Stack() == old(states[..top]) + [state];
      if states.Length - 1 <= top {
        if YYMAXDEPTH <= states.Length {
          return false;
        }
        Grow();
      }
      return true;
    }

    /** The shift, or yyreduce: the states that stay on the stack, and the next one. */
    method Advance(act: Action, ghost stack: seq<int>) returns (state: int)
      requires Valid() && !act.Error? && top + 1 < states.Length && stack == Stack()
      requires act.Reduce? ==> 1 <= act.rule <= 4 && YYR2[act.rule] <= top
      modifies this`top, this`result
      ensures Valid() && states[..top] + [state] == Advanced(stack, act)
      ensures result == if act == Reduce(2) then 1 else old(result)
    {
      if act.Shift? {
        top := top + 1;
        state := act.state;
      } else {
        if act.rule == 2 {
          result := 1;
        }
        top := top - YYR2[act.rule];
        state := GotoState(act.rule, states[top]);
        top := top + 1;
      }
    }

    /** The action in the state on top, in terms of the history. */
    method Decide(yystate: int, ghost t: Tail, ghost k: nat, ghost done: nat) returns (act: Action)
      requires Valid() && Fits(t, k, done) && yystate == TopOf(t, k) && pos == k + 2 * done + Extra(t)
          && (t.Ended? || t.Input? ==> pos == |src|)
      modifies this`pos
      ensures Valid() && act == ActionAt(src, t, k, done)
      ensures pos == if !(t.SawB? || t.OuterB? || t.Ended?) && old(pos) < |src| then old(pos) + 1 else old(pos)
    {
      TopState(t, k);
      ChosenIs(src, t, k, done, yystate, Translate(TokenAt(src, pos)));
      act := Choose(yystate);
    }

    /** The action done: the stack is that of the history after it. */
    method Follow(act: Action, ghost t: Tail, ghost k: nat, ghost done: nat, ghost t': Tail, ghost k': nat,
        ghost done': nat) returns (state: int)
      requires Valid() && Fits(t, k, done) && act == ActionAt(src, t, k, done) && !act.Error?
          && t' == NextTail(t, k, act) && k' == NextOpen(t, k, act) && done' == NextDone(t, done)
      requires top + 1 < states.Length && Stack() == StackOf(t, k)
      modifies this`top, this`result
      ensures Valid() && states[..top] + [state] == StackOf(t', k')
      ensures result == if act == Reduce(2) then 1 else old(result)
    {
      StackAfter(src, t, k, done, act, t', k', done');
      state := Advance(act, StackOf(t, k));
    }

    /** The parse so far: the stack with the coming state, the position and the result fit the history. */
    ghost predicate At(state: int, t: Tail, k: nat, done: nat)
      reads this, states
    {
      && Valid() && states[..top] + [state] == StackOf(t, k) && Parsed(src, t, k, done)
      && pos == k + 2 * done + Extra(t) && result == if t.Input? then 1 else 0
    }

    /** The same, with the coming state pushed and room for one more. */
    ghost predicate Pushed(state: int, t: Tail, k: nat, done: nat)
      reads this, states
    {
      && Valid() && Stack() == StackOf(t, k) && top + 1 < states.Length && Parsed(src, t, k, done)
      && pos == k + 2 * done + Extra(t) && result == (if t.Input? then 1 else 0)
      && state == TopOf(t, k) && |StackOf(t, k)| < YYMAXDEPTH
    }

    /** The parse has ended with `r`: 1 is an error, 2 a full stack. */
    ghost predicate EndsWith(r: int)
      reads this
    {
      r == (if TooDeep(src) then 2 else 1) && result == if IsAnbn(src) && !TooDeep(src) then 1 else 0
    }

    /** yybackup: the action of the state, up to the next yynewstate. */
    method Act(yystate: int, ghost t: Tail, ghost k: nat, ghost done: nat) returns (r: Option<int>, next: int,
        ghost t': Tail, ghost k': nat, ghost done': nat)
      requires Pushed(yystate, t, k, done)
      modifies this`pos, this`top, this`result
      ensures r.Some? ==> EndsWith(r.value)
      ensures r.None? ==> At(next, t', k', done') && pos <= |src|
      ensures r.None? ==> 3 * (|src| - pos) + Weight(t') < 3 * (|src| - old(pos)) + Weight(t)
    {
      next, t', k', done' := yystate, t, k, done;
      var act := Decide(yystate, t, k, done);
      if act.Error? {
        TopState(t, k);
        ErrorDecides(src, t, k, done);
        var shifted := Recover();
        return Some(1), next, t', k', done';
      }
      t', k', done' := NextTail(t, k, act), NextOpen(t, k, act), NextDone(t, done);
      ActionKeeps(src, t, k, done, act, t', k', done');
      next := Follow(act, t, k, done, t', k', done');
      r := None;
    }

    /** From one yysetstate to the next, or to the end of the parse. It never accepts. */
    method Turn(yystate: int, ghost t: Tail, ghost k: nat, ghost done: nat) returns (r: Option<int>, next: int,
        ghost t': Tail, ghost k': nat, ghost done': nat)
      requires At(yystate, t, k, done)
      modifies this, states
      ensures states == old(states) || fresh(states)
      ensures r.Some? ==> EndsWith(r.value)
      ensures r.None? ==> At(next, t', k', done') && pos <= |src|
      ensures r.None? ==> 3 * (|src| - pos) + Weight(t') < 3 * (|src| - old(pos)) + Weight(t)
    {
      TopState(t, k);
      assert yystate == StackOf(t, k)[|StackOf(t, k)| - 1];
      next, t', k', done' := yystate, t, k, done;
      var ok := Store(yystate);
      if !ok {
        FullMeansTooDeep(src, t, k, done);
        return Some(2), next, t', k', done';
      }
      if yystate == YYFINAL {
        return Some(0), next, t', k', done';
      }
      r, next, t', k', done' := Act(yystate, t, k, done);
    }

    /** The loop, from an empty history. */
    method Run(ghost t0: Tail, ghost k0: nat, ghost done0: nat) returns (r: int)
      requires At(0, t0, k0, done0)
      modifies this, states
      ensures r == if TooDeep(src) then 2 else 1
      ensures result == if IsAnbn(src) && !TooDeep(src) then 1 else 0
    {
      var yystate, answer := 0, None;
      ghost var t, k, done := t0, k0, done0;
      while answer.None?
        invariant states == old(states) || fresh(states)
        invariant answer.None? ==> At(yystate, t, k, done) && pos <= |src|
        invariant answer.Some? ==> EndsWith(answer.value)
        decreases answer.None?, 3 * (|src| - pos) + Weight(t)
      {
        answer, yystate, t, k, done := Turn(yystate, t, k, done);
      }
      r := answer.value;
    }

    /** yyparse. It never returns 0, not even for a text of the language: after the whole
        text has been reduced the parser asks for one token more, and gets TOK_END again,
        which is an error. The result variable tells. */
    method Yyparse() returns (r: int)
      requires pos == 0 && result == 0
      modifies this
      ensures r == if TooDeep(src) then 2 else 1
      ensures result == if IsAnbn(src) && !TooDeep(src) then 1 else 0
    {
      top := 0;
      states := new int[YYINITDEPTH];
      NothingRead(src);
      assert states[..top] == [];
      OnlyOne(states[..top], 0);
      r := Run(Open, 0, 0);
    }
  }

  /** bison_anbn_init, yyparse, and the result variable: the language, within the parser's depth. */
  method BisonAnbn(s: string) returns (r: bool)
    ensures r <==> IsAnbn(s) && |s| < 2 * 9998
  {
    var parser := new Parser(s);
    var code := parser.Yyparse();
    r := parser.result == 1;
    if IsAnbn(s) {
      TooDeepInLanguage(s);
    }
  }

  /** How many turns a tail takes without reading. */
  function Weight(t: Tail): nat {
    match t case Input => 0 case Ended => 1 case SawB => 3 case OuterB => 3 case _ => 2
  }

  function TokenAt(s: string, i: nat): int {
    if i >= |s| then TOK_END else if s[i] == 'a' then TOK_A else if s[i] == 'b' then TOK_B else -1
  }
}
