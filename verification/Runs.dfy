/** Runs of a deterministic machine given by its step function. */
module Runs {
  import opened Denotation

  type Stepper<!S> = S -> Option<S>

  /** The state `k` steps on, if the machine gets that far. */
  function Run<S>(step: Stepper<S>, m: S, k: nat): Option<S>
    decreases k
  {
    if k == 0 then Some(m)
    else
      var next := step(m);
      if next.None? then None else Run(step, next.value, k - 1)
  }

  ghost predicate Reaches<S>(step: Stepper<S>, m: S, m': S) {
    exists k: nat :: Run(step, m, k) == Some(m')
  }

  lemma {:induction false} RunsCompose<S>(step: Stepper<S>, m: S, j: nat, m': S, k: nat)
    requires Run(step, m, j) == Some(m')
    ensures Run(step, m, j + k) == Run(step, m', k)
    decreases j
  {
    if j > 0 {
      RunsCompose(step, step(m).value, j - 1, m', k);
    }
  }

  lemma ReachesSelf<S>(step: Stepper<S>, m: S)
    ensures Reaches(step, m, m)
  {
    assert Run(step, m, 0) == Some(m);
  }

  lemma ReachesStep<S>(step: Stepper<S>, m: S, m': S)
    requires step(m) == Some(m')
    ensures Reaches(step, m, m')
  {
    assert Run(step, m', 0) == Some(m');
    assert Run(step, m, 1) == Some(m');
  }

  lemma ReachesTransitive<S>(step: Stepper<S>, a: S, b: S, c: S)
    requires Reaches(step, a, b) && Reaches(step, b, c)
    ensures Reaches(step, a, c)
  {
    var j: nat :| Run(step, a, j) == Some(b);
    var k: nat :| Run(step, b, k) == Some(c);
    RunsCompose(step, a, j, b, k);
    assert Run(step, a, j + k) == Some(c);
  }

  /** A run that reaches a state where the machine stops passes through every state reached before. */
  lemma {:induction false} StopsAfter<S>(step: Stepper<S>, m: S, j: nat, mid: S, k: nat, end: S)
    requires Run(step, m, j) == Some(mid) && Run(step, m, k) == Some(end) && step(end).None?
    ensures j <= k && Run(step, mid, k - j) == Some(end)
    decreases k
  {
    if k > 0 && j > 0 {
      StopsAfter(step, step(m).value, j - 1, mid, k - 1, end);
    }
  }

  // ----- simulation -----

  /** Machines that move step by step alike: whenever one moves, so does the other, and they
      stay related. */
  ghost predicate InLockstep<S(!new), T(!new)>(before: Stepper<S>, after: Stepper<T>, sim: (S, T) -> bool) {
    forall m, m' :: sim(m, m') && before(m).Some? ==> after(m').Some? && sim(before(m).value, after(m').value)
  }

  lemma {:induction false} Lockstep<S(!new), T(!new)>(before: Stepper<S>, after: Stepper<T>, sim: (S, T) -> bool, m: S,
                                                      m': T, k: nat, end: S)
    returns (end': T)
    requires InLockstep(before, after, sim) && sim(m, m') && Run(before, m, k) == Some(end)
    ensures Run(after, m', k) == Some(end') && sim(end, end')
    decreases k
  {
    if k == 0 {
      end' := m';
    } else {
      end' := Lockstep(before, after, sim, before(m).value, after(m').value, k - 1, end);
    }
  }

  /** One step of `after` stands for `n + 1` steps of `before`, which stay on the level they reach. */
  ghost predicate Matches<S>(before: Stepper<S>, after: Stepper<S>, sim: (S, S) -> bool, level: S -> nat, m: S, m': S,
      n: nat, w: S) {
    && after(m').Some? && Run(before, m, n + 1) == Some(w) && sim(w, after(m').value)
    && forall j :: 1 <= j <= n + 1 ==> var x := Run(before, m, j); x.Some? && level(x.value) == level(w)
  }

  /** In related states both machines move or neither does, and they move to related states. */
  ghost predicate Simulates<S(!new)>(before: Stepper<S>, after: Stepper<S>, sim: (S, S) -> bool, level: S -> nat) {
    forall m, m' :: sim(m, m') ==>
      && level(m) == level(m') && after(m').Some? == before(m).Some?
      && (after(m').Some? ==> exists n: nat, w :: Matches(before, after, sim, level, m, m', n, w))
  }

  /** Where the original stops, the other stops in a related state. */
  lemma {:induction false} StopsAlike<S(!new)>(before: Stepper<S>, after: Stepper<S>, sim: (S, S) -> bool,
                                               level: S -> nat, m: S, m': S, k: nat, end: S) returns (end': S)
    requires Simulates(before, after, sim, level) && sim(m, m') && Run(before, m, k) == Some(end) && before(end).None?
    ensures Reaches(after, m', end') && sim(end, end') && after(end').None?
    decreases k
  {
    if k == 0 {
      end' := m';
      ReachesSelf(after, m');
    } else {
      var n: nat, w :| Matches(before, after, sim, level, m, m', n, w);
      var w' := after(m').value;
      StopsAfter(before, m, n + 1, w, k, end);
      end' := StopsAlike(before, after, sim, level, w, w', k - n - 1, end);
      ReachesStep(after, m', w');
      ReachesTransitive(after, m', w', end');
    }
  }

  /** Where the other gets, the original gets to a related state. */
  lemma {:induction false} ReachesAlike<S(!new)>(before: Stepper<S>, after: Stepper<S>, sim: (S, S) -> bool,
                                               level: S -> nat,   m: S, m': S, k: nat, end': S) returns (end: S)
    requires Simulates(before, after, sim, level) && sim(m, m') && Run(after, m', k) == Some(end')
    ensures Reaches(before, m, end) && sim(end, end')
    decreases k
  {
    if k == 0 {
      end := m;
      ReachesSelf(before, m);
    } else {
      var n: nat, w :| Matches(before, after, sim, level, m, m', n, w);
      end := ReachesAlike(before, after, sim, level, w, after(m').value, k - 1, end');
      ReachesTransitive(before, m, w, end);
    }
  }

  /** A level the original reaches, the other reaches. */
  lemma {:induction false} LevelsAlike<S(!new)>(before: Stepper<S>, after: Stepper<S>, sim: (S, S) -> bool,
                                               level: S -> nat,  m: S, m': S, k: nat, high: S) returns (high': S)
    requires Simulates(before, after, sim, level) && sim(m, m') && Run(before, m, k) == Some(high)
    ensures Reaches(after, m', high') && level(high') == level(high)
    decreases k
  {
    if k == 0 {
      high' := m';
      ReachesSelf(after, m');
    } else {
      var n: nat, w :| Matches(before, after, sim, level, m, m', n, w);
      var w' := after(m').value;
      ReachesStep(after, m', w');
      if k <= n + 1 {
        high' := w';
      } else {
        RunsCompose(before, m, n + 1, w, k - n - 1);
        high' := LevelsAlike(before, after, sim, level, w, w', k - n - 1, high);
        ReachesTransitive(after, m', w', high');
      }
    }
  }
}
