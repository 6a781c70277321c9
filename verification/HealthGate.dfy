/** The health gate: polling a fresh container until it proves itself, fails, or
    runs out of time. Times are milliseconds. */
module HealthGate {
  import opened Common

  const TICK: int := 2_000

  datatype Health = Healthy | Unhealthy | Pending

  /** What one inspect reports. `cancelled` marks an error that is a context
      cancellation or deadline. */
  datatype Observation =
    | CallFailed(cancelled: bool)
    | NoState
    | Seen(health: Option<Health>, running: bool, restarts: int)

  /** `Failed` blacklists the digest; `Interrupted` does not. */
  datatype Verdict = Passed | Failed | Interrupted

  /** One execution of the loop as the outside world shapes it: poll `i` observes
      `obs(i)`, compares the clock with the deadline at `at(i)`, and, if the loop
      goes on, finds the context done (`stopped(i)`) or takes the next tick. */
  datatype Timeline = Timeline(start: int, obs: nat -> Observation, at: nat -> int, stopped: nat -> bool)

  /** Every poll after the first takes one tick of a 2 s ticker made at the start,
      so poll `i` cannot end before the `i`-th tick. */
  ghost predicate Ticked(t: Timeline) {
    forall i: nat :: t.at(i) >= t.start + TICK * i
  }

  /** Restart count the crash-loop test compares with: that of the first poll. */
  function Baseline(t: Timeline): int {
    if t.obs(0).Seen? then t.obs(0).restarts else 0
  }

  /** The verdict an observation forces at once, if it forces one. */
  function Decisive(o: Observation, baseline: int): Option<Verdict> {
    match o
    case CallFailed(cancelled) => Some(if cancelled then Interrupted else Failed)
    case NoState => Some(Failed)
    case Seen(Some(Healthy), _, _) => Some(Passed)
    case Seen(Some(Unhealthy), _, _) => Some(Failed)
    case Seen(Some(Pending), _, _) => None
    case Seen(None, running, restarts) => if !running || restarts > baseline then Some(Failed) else None
  }

  /** How poll `i` ends the loop: by a decisive observation, by the timeout rule
      (failure with a health check, success without one), or by cancellation. */
  function Ending(t: Timeline, timeout: int, i: nat): Option<Verdict> {
    var d := Decisive(t.obs(i), Baseline(t));
    if d.Some? then d
    else if t.at(i) > t.start + timeout then
      Some(if t.obs(i).Seen? && t.obs(i).health.Some? then Failed else Passed)
    else if t.stopped(i) then Some(Interrupted)
    else None
  }

  function MaxPolls(timeout: int): nat {
    if timeout < 0 then 1 else timeout / TICK + 2
  }

  ghost predicate EndsAt(t: Timeline, timeout: int, n: nat) {
    && Ending(t, timeout, n).Some?
    && forall j: nat :: j < n ==> Ending(t, timeout, j).None?
  }

  ghost predicate Undecided(t: Timeline, timeout: int, n: nat) {
    forall j: nat :: j < n ==> Ending(t, timeout, j).None?
  }

  /** The verdict of the whole gate: that of the poll at which it ends. */
  ghost function Judge(t: Timeline, timeout: int): Verdict {
    if n: nat :| EndsAt(t, timeout, n) then Ending(t, timeout, n).value else Interrupted
  }

  lemma EndsOnce(t: Timeline, timeout: int, m: nat, n: nat)
    requires EndsAt(t, timeout, m) && EndsAt(t, timeout, n)
    ensures m == n
  {
  }

  lemma JudgeIs(t: Timeline, timeout: int, n: nat)
    requires EndsAt(t, timeout, n)
    ensures Judge(t, timeout) == Ending(t, timeout, n).value
  {
    var m: nat :| EndsAt(t, timeout, m) && Judge(t, timeout) == Ending(t, timeout, m).value;
    EndsOnce(t, timeout, m, n);
  }

  /** Poll `n` is the first to end the gate, and it condemns the container: the
      inspect call failed for a reason of its own, or it showed no state, an unhealthy
      or dead or restarting container, or one still not healthy past the deadline. */
  ghost predicate Condemned(t: Timeline, timeout: int, n: nat) {
    && Undecided(t, timeout, n)
    && match t.obs(n)
       case CallFailed(cancelled) => !cancelled
       case NoState => true
       case Seen(Some(h), _, _) => h == Unhealthy || (h == Pending && t.at(n) > t.start + timeout)
       case Seen(None, running, restarts) => !running || Restarted(t, restarts)
  }

  /** The container was restarted since the first poll. */
  predicate Restarted(t: Timeline, restarts: int) {
    t.obs(0).Seen? && restarts > t.obs(0).restarts
  }

  /** Poll `n` is the first to end the gate, and it clears the container: reported
      healthy, or without a health check up and not restarted past the deadline. */
  ghost predicate Cleared(t: Timeline, timeout: int, n: nat) {
    && Undecided(t, timeout, n)
    && match t.obs(n)
       case Seen(Some(h), _, _) => h == Healthy
       case Seen(None, running, restarts) => running && !Restarted(t, restarts) && t.at(n) > t.start + timeout
       case _ => false
  }

  /** What a failed and what a passed gate mean in terms of the polls. */
  lemma VerdictMeans(t: Timeline, timeout: int)
    ensures Judge(t, timeout) == Failed <==> exists n: nat :: Condemned(t, timeout, n)
    ensures Judge(t, timeout) == Passed <==> exists n: nat :: Cleared(t, timeout, n)
  {
    forall n: nat | Undecided(t, timeout, n) && n > 0 ensures t.obs(0).Seen? { assert Ending(t, timeout, 0).None?; }
    if n: nat :| EndsAt(t, timeout, n) {
      assert Undecided(t, timeout, n);
      assert t.obs(n).Seen? ==> t.obs(0).Seen?;
      JudgeIs(t, timeout, n);
      assert Ending(t, timeout, n) == Some(Failed) ==> Condemned(t, timeout, n);
      assert Ending(t, timeout, n) == Some(Passed) ==> Cleared(t, timeout, n);
    }
    if n: nat :| Condemned(t, timeout, n) { assert EndsAt(t, timeout, n); JudgeIs(t, timeout, n); }
    if n: nat :| Cleared(t, timeout, n) { assert EndsAt(t, timeout, n); JudgeIs(t, timeout, n); }
  }

  /** The polling loop. It stops at the first poll that ends it, within the budget. */
  method Run(t: Timeline, timeout: int) returns (v: Verdict)
    requires Ticked(t)
    ensures exists last: nat :: EndsAt(t, timeout, last) && Ending(t, timeout, last) == Some(v) && last < MaxPolls(timeout)
    ensures v == Judge(t, timeout)
  {
    var deadline := t.start + timeout;
    var startRestarts := 0;
    var first := true;
    var i: nat := 0;
    while true
      invariant first <==> i == 0
      invariant !first ==> startRestarts == Baseline(t) && t.obs(0).Seen?
      invariant forall j: nat :: j < i ==> Ending(t, timeout, j).None?
      invariant i < MaxPolls(timeout)
      decreases MaxPolls(timeout) - i
    {
      var insp := t.obs(i);
      if Ending(t, timeout, i).Some? { JudgeIs(t, timeout, i); }
      if insp.CallFailed? {
        return if insp.cancelled then Interrupted else Failed;
      }
      if insp.NoState? {
        return Failed;
      }
      if first {
        startRestarts := insp.restarts;
        first := false;
      }
      if insp.health.Some? {
        if insp.health.value == Healthy { return Passed; }
        if insp.health.value == Unhealthy { return Failed; }
      } else {
        if !insp.running { return Failed; }
        if insp.restarts > startRestarts { return Failed; }
      }
      if t.at(i) > deadline {
        return if insp.health.Some? then Failed else Passed;
      }
      if t.stopped(i) {
        return Interrupted;
      }
      assert t.at(i) >= t.start + TICK * i;
      i := i + 1;
    }
  }

  /** Without cancellation, the verdict is that of the first decisive observation
      if one comes no later than the first poll past the deadline, and the timeout
      rule's otherwise. */
  lemma FirstDecisiveWins(t: Timeline, timeout: int, last: nat)
    requires EndsAt(t, timeout, last) && forall i: nat :: !t.stopped(i)
    ensures forall j: nat :: j < last ==> Decisive(t.obs(j), Baseline(t)).None? && t.at(j) <= t.start + timeout
    ensures Decisive(t.obs(last), Baseline(t)).Some? ==> Ending(t, timeout, last) == Decisive(t.obs(last), Baseline(t))
    ensures Decisive(t.obs(last), Baseline(t)).None? ==>
              && t.at(last) > t.start + timeout && t.obs(last).Seen?
              && Ending(t, timeout, last) == Some(if t.obs(last).health.Some? then Failed else Passed)
  {
    forall j: nat | j < last
      ensures Decisive(t.obs(j), Baseline(t)).None? && t.at(j) <= t.start + timeout
    {
      assert Ending(t, timeout, j).None?;
    }
  }

  // ----- the operation deadline

  /** The budget of the whole recreate, sized to the gate (`opTimeout`). */
  function OpTimeout(healthTimeout: int): int {
    if healthTimeout + 120_000 < 300_000 then 300_000 else healthTimeout + 120_000
  }

  /** The operation starts at 0 and spends `pre` before the gate. Inspects take at
      most `latency`; a poll begins at most one tick after the previous one ended;
      the context is done only once the operation deadline has passed. */
  ghost predicate UnderDeadline(t: Timeline, timeout: int, pre: int, latency: int) {
    && 0 <= pre && 0 <= latency < TICK && t.start == pre
    && t.at(0) <= pre + latency
    && (forall i: nat :: t.at(i + 1) <= t.at(i) + TICK + latency)
    && (forall i: nat :: t.stopped(i) ==> OpTimeout(timeout) <= t.at(i) + TICK)
    && (forall i: nat :: t.obs(i) == CallFailed(true) ==> OpTimeout(timeout) <= t.at(i))
  }

  /** The operation deadline never cuts the gate short when the steps before it
      and one inspect leave two seconds of the two spare minutes. */
  lemma DeadlineNeverCuts(t: Timeline, timeout: int, pre: int, latency: int, last: nat)
    requires UnderDeadline(t, timeout, pre, latency) && pre + latency < 118_000
    requires EndsAt(t, timeout, last)
    ensures Ending(t, timeout, last) != Some(Interrupted)
  {
    if last > 0 {
      assert Ending(t, timeout, last - 1).None?;
      assert t.at(last - 1) <= pre + timeout;
      assert t.at((last - 1) + 1) <= t.at(last - 1) + TICK + latency;
    }
  }

  /** The five minutes that the operation gets at least give a short gate more room: then
      what comes before it may take all of them but its own time and two seconds. */
  lemma FloorNeverCuts(t: Timeline, timeout: int, pre: int, latency: int, last: nat)
    requires UnderDeadline(t, timeout, pre, latency) && pre + latency + timeout < 298_000
    requires EndsAt(t, timeout, last) && (last == 0 ==> pre + latency < 298_000)
    ensures Ending(t, timeout, last) != Some(Interrupted)
  {
    if last > 0 {
      assert Ending(t, timeout, last - 1).None?;
      assert t.at(last - 1) <= pre + timeout;
      assert t.at((last - 1) + 1) <= t.at(last - 1) + TICK + latency;
    }
  }

  /** The bound is sharp: at 118 s a gate that is still waiting can be cut off. */
  lemma DeadlineBoundIsSharp() returns (t: Timeline, timeout: int, last: nat)
    ensures Ticked(t) && UnderDeadline(t, timeout, 118_000, 0)
    ensures EndsAt(t, timeout, last) && Ending(t, timeout, last) == Some(Interrupted)
  {
    timeout, last := 180_000, 91;
    t := Timeline(118_000,
                  (i: nat) => if i < 91 then Seen(Some(Pending), true, 0) else CallFailed(true),
                  (i: nat) => 118_000 + TICK * i,
                  (i: nat) => false);
    forall j: nat | j < last ensures Ending(t, timeout, j).None? {
      assert t.at(j) <= t.start + timeout;
    }
  }
}
