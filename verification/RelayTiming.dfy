/** How many pokes the relay's counter lets through in any interval. */
module RelayTiming {
  import opened Base64Url
  import opened Relay

  // ----- the rate bound

  const PERIOD: int := POKE_COALESCE_MS + 1

  /** How many pokes of the run arrive in [from, upto] and pass the guard. */
  function Passed(s: Instance, as_: seq<Action>, from: int, upto: int): nat
    requires ValidRun(s, as_)
    decreases |as_|
  {
    if as_ == [] then 0
    else
      (if as_[0].DoPokeBegin? && from <= s.now <= upto && Guard(s.window, s.now).1 then 1 else 0)
      + Passed(Step(s, as_[0]).state, as_[1..], from, upto)
  }

  /** The first time at which another window that reaches [from, ..] can start. */
  function NextStart(w: Window, from: int): int {
    if w.start + PERIOD < from - POKE_COALESCE_MS then from - POKE_COALESCE_MS else w.start + PERIOD
  }

  /** How many more windows that reach [from, upto] can start. */
  function Windows(x: int, upto: int): nat {
    if x > upto then 0 else (upto - x) / PERIOD + 1
  }

  /** What the counter can still let through in [from, upto]. */
  function Budget(w: Window, from: int, upto: int): int {
    (if from - POKE_COALESCE_MS <= w.start <= upto then POKE_MAX_PER_WINDOW - w.count else 0)
    + POKE_MAX_PER_WINDOW * Windows(NextStart(w, from), upto)
  }

  ghost predicate Counting(s: Instance) {
    0 <= s.window.count <= POKE_MAX_PER_WINDOW && s.window.start <= s.now
  }

  lemma WindowUsesOne(x: int, y: int, upto: int)
    requires y >= x + PERIOD && x <= upto
    ensures Windows(y, upto) + 1 <= Windows(x, upto)
  {
  }

  lemma WindowsMonotone(x: int, y: int, upto: int)
    requires x <= y
    ensures Windows(y, upto) <= Windows(x, upto)
  {
  }

  /** Every poke that passes inside the interval is paid for. */
  lemma GuardSpends(w: Window, now: int, from: int, upto: int)
    requires 0 <= w.count <= POKE_MAX_PER_WINDOW && w.start <= now
    ensures var (v, pass) := Guard(w, now);
            && 0 <= v.count <= POKE_MAX_PER_WINDOW && w.start <= v.start <= now
            && Budget(v, from, upto) + (if pass && from <= now <= upto then 1 else 0) <= Budget(w, from, upto)
  {
    if now - w.start > POKE_COALESCE_MS {
      var v := Guard(w, now).0;
      WindowsMonotone(NextStart(w, from), NextStart(v, from), upto);
      if from - POKE_COALESCE_MS <= now <= upto {
        WindowUsesOne(NextStart(w, from), NextStart(v, from), upto);
      }
    }
  }

  lemma {:induction false} PassedWithinBudget(s: Instance, as_: seq<Action>, from: int, upto: int)
    requires ValidRun(s, as_) && Counting(s)
    ensures Passed(s, as_, from, upto) <= Budget(s.window, from, upto)
    decreases |as_|
  {
    hide Budget, Guard;
    if as_ == [] {
      BudgetNonnegative(s.window, from, upto);
    } else {
      var r := Step(s, as_[0]).state;
      if as_[0].DoPokeBegin? { GuardSpends(s.window, s.now, from, upto); }
      StepCounting(s, as_[0]);
      PassedWithinBudget(r, as_[1..], from, upto);
    }
  }

  lemma StepCounting(s: Instance, a: Action)
    requires Enabled(s, a) && Counting(s)
    ensures Counting(Step(s, a).state)
    ensures !a.DoPokeBegin? ==> Step(s, a).state.window == s.window
    ensures a.DoPokeBegin? ==> Step(s, a).state.window == Guard(s.window, s.now).0
  {
    hide Encoded, Decoded, Binary, Authed, Unauthed, Where, Reaped, Scan, Lowered, Reschedule;
  }

  lemma BudgetNonnegative(w: Window, from: int, upto: int)
    requires w.count <= POKE_MAX_PER_WINDOW
    ensures Budget(w, from, upto) >= 0
  {
  }

  lemma BudgetBound(w: Window, from: int, span: nat)
    requires 0 <= w.count <= POKE_MAX_PER_WINDOW
    ensures Budget(w, from, from + span) <= POKE_MAX_PER_WINDOW * (span / PERIOD + 2)
  {
    var x := NextStart(w, from);
    if from - POKE_COALESCE_MS <= w.start {
      assert x >= from + 1;
      WindowsMonotone(from, x, from + span);
      assert Windows(from, from + span) == span / PERIOD + 1;
    } else {
      WindowsMonotone(from - POKE_COALESCE_MS, x, from + span);
      assert (span + POKE_COALESCE_MS) / PERIOD <= span / PERIOD + 1;
    }
  }

  /** Rate bound over any interval, not just over the counter's own windows: in
      [from, from + span] at most 100 * (span / 5001 + 2) pokes pass; so at most
      200 in any 5 s. */
  lemma RateBound(s: Instance, as_: seq<Action>, from: int, span: nat)
    requires ValidRun(s, as_) && Counting(s)
    ensures Passed(s, as_, from, from + span) <= 100 * (span / 5_001 + 2)
    ensures span < 5_000 ==> Passed(s, as_, from, from + span) <= 200
  {
    PassedWithinBudget(s, as_, from, from + span);
    BudgetBound(s.window, from, span);
  }
}
