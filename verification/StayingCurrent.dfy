/** Whether a digest stays current while it soaks: what the documentation promises, when
    it holds, and what happens to a tag that leaves a digest and comes back. */
module StayingCurrent {
  import opened Common
  import opened Bookkeeping
  import opened Planning
  import opened PlanBuilding
  import opened PlanRuns
  import opened Blacklist

  /** The registry offered `c` another digest than `d`. An evaluation without an answer
      misses nothing. */
  predicate Misses(e: Event, c: string, d: string) {
    e.Evaluated? && e.a.target.name == c && e.reg.remote(e.a.target.image) !in {None, Some(d)}
  }

  /** The evaluation saw, at its end, what it planned for. */
  ghost predicate Offered(es: seq<Event>, j: int) {
    0 <= j < |es| && es[j].Evaluated? && Observes(es[j], es[j].a.target.name, es[j].a.available)
  }

  /** Every answer for the container since an observation at least the effective soak
      ago was the digest of evaluation `j`. */
  ghost predicate RemainedCurrent(es: seq<Event>, j: int)
    requires 0 <= j < |es| && es[j].Evaluated?
  {
    exists i :: Aged(es, i, j) && forall k :: i < k <= j ==> !Misses(es[k], es[j].a.target.name, es[j].a.available)
  }

  /** The earliest time, and at most `best`, at which `d` was observed for `c` among
      the events before `n`, going back to where it was last missed. */
  function Back(es: seq<Event>, c: string, d: string, n: nat, best: int): int
    requires n <= |es|
  {
    if n == 0 || Misses(es[n - 1], c, d) then best
    else Back(es, c, d, n - 1, if Observes(es[n - 1], c, d) && es[n - 1].now < best then es[n - 1].now else best)
  }

  /** Since when the digest of evaluation `j` has been upstream without a miss. */
  function BackSince(es: seq<Event>, j: int): int
    requires 0 <= j < |es| && es[j].Evaluated?
  {
    Back(es, es[j].a.target.name, es[j].a.available, j, es[j].now)
  }

  /** The events from `lo` up to `n` are those since the last miss. */
  ghost predicate SinceMiss(es: seq<Event>, c: string, d: string, lo: nat, n: nat)
    requires n <= |es|
  {
    && lo <= n && (lo > 0 ==> Misses(es[lo - 1], c, d))
    && forall x :: lo <= x < n ==> !Misses(es[x], c, d)
  }

  lemma {:induction false} BackIsEarliest(es: seq<Event>, c: string, d: string, n: nat, best: int) returns (lo: nat)
    requires n <= |es|
    ensures SinceMiss(es, c, d, lo, n)
    ensures var t := Back(es, c, d, n, best);
            && t <= best && (t == best || exists i :: lo <= i < n && Observes(es[i], c, d) && es[i].now == t)
            && (forall i :: lo <= i < n && Observes(es[i], c, d) ==> t <= es[i].now)
    decreases n
  {
    if n == 0 || Misses(es[n - 1], c, d) {
      lo := n;
    } else {
      var best' := if Observes(es[n - 1], c, d) && es[n - 1].now < best then es[n - 1].now else best;
      lo := BackIsEarliest(es, c, d, n - 1, best');
    }
  }

  /** Exactly when a digest stayed current through its soak: it has been back for at
      least that long. */
  lemma {:induction false} RemainedCurrentIff(es: seq<Event>, j: int)
    requires Offered(es, j)
    ensures RemainedCurrent(es, j) <==> es[j].later - BackSince(es, j) >= SoakOf(es[j].cfg, es[j].a.target)
  {
    hide Back, SoakOf;
    var c, d := es[j].a.target.name, es[j].a.available;
    var lo := BackIsEarliest(es, c, d, j, es[j].now);
    var t := BackSince(es, j);
    if es[j].later - t >= SoakOf(es[j].cfg, es[j].a.target) {
      var i := j;
      if t != es[j].now { i :| lo <= i < j && Observes(es[i], c, d) && es[i].now == t; }
      assert Aged(es, i, j);
    }
    assert lo > 0 ==> Misses(es[lo - 1], c, d);
    forall i | Aged(es, i, j) && forall k :: i < k <= j ==> !Misses(es[k], c, d) ensures lo <= i {}
  }

  /** With a clock that does not go back, that is the age of the first observation
      since the last miss. */
  lemma {:induction false} CurrentIffFirstIsAged(es: seq<Event>, f: int, j: int)
    requires Offered(es, j) && 0 <= f <= j && Observes(es[f], es[j].a.target.name, es[j].a.available)
    requires forall k :: f < k < j ==> !Misses(es[k], es[j].a.target.name, es[j].a.available)
    requires forall i :: 0 <= i < f && Observes(es[i], es[j].a.target.name, es[j].a.available) ==>
               exists k :: i < k < f && Misses(es[k], es[j].a.target.name, es[j].a.available)
    requires forall i :: f < i <= j && es[i].Evaluated? ==> es[f].now <= es[i].now
    ensures BackSince(es, j) == es[f].now
    ensures RemainedCurrent(es, j) <==> es[j].later - es[f].now >= SoakOf(es[j].cfg, es[j].a.target)
  {
    RemainedCurrentIff(es, j);
    hide Back, SoakOf;
    var c, d := es[j].a.target.name, es[j].a.available;
    var lo := BackIsEarliest(es, c, d, j, es[j].now);
    assert lo > 0 ==> Misses(es[lo - 1], c, d);
    assert lo <= f;
    forall i | lo <= i < j && Observes(es[i], c, d) ensures f <= i {}
  }

  lemma PlannedIsOffered(es: seq<Event>, j: int)
    requires SoundFrom(FRESH, es) && 0 <= j < |es| && es[j].Evaluated? && Gated(es[j].a)
    ensures Offered(es, j)
  {
    hide Assess, Play;
    var e, mem := es[j], Play(FRESH, es[..j]).mem;
    assert Sound(e, mem);
    UpdateIff(e.cfg, e.reg, mem, e.a.target, e.now, e.later);
  }

  /** The tag left the digest after offering it, and came back. */
  ghost predicate Returned(es: seq<Event>, j: int)
    requires 0 <= j < |es| && es[j].Evaluated?
  {
    exists i, k :: 0 <= i < k < j && Observes(es[i], es[j].a.target.name, es[j].a.available)
                   && Misses(es[k], es[j].a.target.name, es[j].a.available)
  }

  /** If the tag never comes back to a digest it has left, soaking is being current all
      the time. */
  lemma CurrentUnlessReturned(es: seq<Event>, j: int)
    requires SoundFrom(FRESH, es) && SlashFree(es)
    requires 0 <= j < |es| && es[j].Evaluated? && es[j].a.action == Update
    requires !Returned(es, j)
    ensures RemainedCurrent(es, j)
    ensures es[j].later - BackSince(es, j) >= SoakOf(es[j].cfg, es[j].a.target)
  {
    hide SoundFrom, Back;
    SoakSafety(es, j);
    PlannedIsOffered(es, j);
    RemainedCurrentIff(es, j);
    var i :| Aged(es, i, j);
    assert !Misses(es[j], es[j].a.target.name, es[j].a.available);
  }

  // ----- tags that come back

  /** The evaluation started the clock of its container and digest. */
  ghost predicate StartsClock(es: seq<Event>, i: int, c: string, d: string) {
    && 0 <= i < |es| && es[i].Evaluated? && es[i].record && Gated(es[i].a)
    && es[i].a.target.name == c && es[i].a.available == d
    && KeyOf(c, d) !in Play(FRESH, es[..i]).mem.firstSeen
  }

  /** An applied update forgets the clocks of the container's other digests. */
  predicate Forgets(e: Event, c: string, d: string) {
    e.Tried? && e.end == Succeeded && e.a.target.name == c && e.a.available != d
  }

  ghost predicate Ticking(b: Book, c: string, d: string, t: int) {
    KeyOf(c, d) in b.firstSeen && b.firstSeen[KeyOf(c, d)] == t
  }

  lemma KeepsTicking(s: Store, e: Event, c: string, d: string, t: int)
    requires Ticking(s.mem, c, d, t) && NoSlash(c) && Plain(e) && !Forgets(e, c, d) && !e.Restarted?
    ensures Ticking(Do(s, e).mem, c, d, t)
  {
    hide Stale;
    if e.Tried? && e.end == Succeeded { StaleIsOwn(e.a.target.name, e.a.available, c, d); }
  }

  lemma StartTicks(s: Store, e: Event)
    requires e.Evaluated? && e.record && Gated(e.a) && KeyOf(e.a.target.name, e.a.available) !in s.mem.firstSeen
    ensures Ticking(Do(s, e).mem, e.a.target.name, e.a.available, e.now)
  {
  }

  /** A clock runs on for as long as it is kept and not forgotten. */
  lemma {:induction false} ClockRunsOn(es: seq<Event>, i: int, c: string, d: string)
    requires SlashFree(es) && NoSlash(c) && StartsClock(es, i, c, d)
    requires forall x :: i < x < |es| ==> !Forgets(es[x], c, d)
    ensures Kept(es, i) ==> Ticking(Play(FRESH, es).mem, c, d, es[i].now)
    ensures OnDisk(es, i) ==> Ticking(Play(FRESH, es).disk, c, d, es[i].now)
    decreases |es|
  {
    hide Ticking, Do, Saves, OnDisk, SameProcess, Forgets, Plain, KeyOf;
    var n := |es| - 1;
    var before, e := es[..n], es[n];
    var s := Play(FRESH, before);
    KeptExtends(es, i);
    WhatSavesDo(s, e);
    if i == n {
      StartTicks(s, e);
    } else {
      assert before[i] == es[i] && before[..i] == es[..i];
      ClockRunsOn(before, i, c, d);
      if !e.Restarted? && Ticking(s.mem, c, d, es[i].now) { KeepsTicking(s, e, c, d, es[i].now); }
    }
  }

  /** A tag that leaves a digest and comes back, in any history in which the clock
      that started before is kept and not forgotten: the update is planned exactly
      if that clock is old enough, and the digest has stayed current exactly if it
      has been back for long enough. */
  lemma {:induction false} ReturnResumesClock(es: seq<Event>, i: int, k: int, j: int, c: string, d: string)
    requires SoundFrom(FRESH, es) && SlashFree(es) && 0 <= i < k < j < |es|
    requires StartsClock(es, i, c, d) && Kept(es[..j], i) && forall x :: i < x < j ==> !Forgets(es[x], c, d)
    requires Misses(es[k], c, d)
    requires es[j].Evaluated? && Gated(es[j].a) && es[j].a.target.name == c && es[j].a.available == d
    ensures es[j].a.action == Update <==> es[j].later - es[i].now >= SoakOf(es[j].cfg, es[j].a.target)
    ensures RemainedCurrent(es, j) <==> es[j].later - BackSince(es, j) >= SoakOf(es[j].cfg, es[j].a.target)
    ensures Returned(es, j)
  {
    hide Play, Kept, Back, SoakOf, StartsClock, Misses, Observes;
    var e, before := es[j], es[..j];
    StartsIn(es, i, j, c, d);
    PlannedIsOffered(es, i);
    PlannedIsOffered(es, j);
    RemainedCurrentIff(es, j);
    assert NoSlash(c) by { assert Plain(es[j]); }
    ClockRunsOn(before, i, c, d);
    assert Sound(e, Play(FRESH, before).mem);
    OldClockDecides(e, Play(FRESH, before).mem, es[i].now);
  }

  lemma StartsIn(es: seq<Event>, i: int, j: int, c: string, d: string)
    requires 0 <= i < j < |es| && StartsClock(es, i, c, d)
    ensures StartsClock(es[..j], i, c, d) && es[..j][i] == es[i]
    ensures es[i].Evaluated? && Gated(es[i].a) && es[i].a.target.name == c && es[i].a.available == d
  {
    assert es[..j][..i] == es[..i];
  }

  lemma OldClockDecides(e: Event, b: Book, t: int)
    requires Sound(e, b) && e.Evaluated? && Gated(e.a) && Ticking(b, e.a.target.name, e.a.available, t)
    ensures e.a.action == Update <==> e.later - t >= SoakOf(e.cfg, e.a.target)
  {
  }

  /** A digest that was away within the soak window has not been current. */
  lemma AwayIsNotCurrent(es: seq<Event>, k: int, j: int)
    requires 0 <= k < j < |es| && es[k].Evaluated? && es[j].Evaluated?
    requires Misses(es[k], es[j].a.target.name, es[j].a.available)
    requires forall x :: k < x <= j && es[x].Evaluated? ==> es[x].now >= es[k].now
    requires es[j].later - es[k].now < SoakOf(es[j].cfg, es[j].a.target)
    ensures !RemainedCurrent(es, j)
  {
    forall i | Aged(es, i, j) ensures i < k {}
  }

  /** A run in which this happens: a tag that leaves `d` for `d'` and comes back is
      rolled out on its old clock, although it was away until that very moment. */
  lemma ReturningTagResumesClock(c: string, d: string, d': string, soak: int) returns (es: seq<Event>)
    requires d != d' && soak > 0
    ensures SoundFrom(FRESH, es) && |es| == 3
    ensures Observes(es[0], c, d) && es[0].now == 0
    ensures Observes(es[1], c, d') && es[1].now == soak
    ensures Observes(es[2], c, d) && es[2].later == soak && es[2].a.action == Update && SoakOf(es[2].cfg, es[2].a.target) == soak
    ensures !RemainedCurrent(es, 2)
  {
    var t := Target(1, c, "app", Tagged, Settings(None, false, false, false, Some(soak), 0), true);
    var cfg := Config(All, soak, None, false);
    var here, away := Offering(d + d' + "-old", d), Offering(d + d' + "-old", d');
    var b1 := EMPTY.(firstSeen := map[KeyOf(c, d) := 0]);
    var b2 := b1.(firstSeen := b1.firstSeen[KeyOf(c, d') := soak]);
    assert KeyOf(c, d)[|c| + 1..] == d && KeyOf(c, d')[|c| + 1..] == d';
    assert |d + d' + "-old"| > |d| && |d + d' + "-old"| > |d'|;
    hide KeyOf, Assess, Play, Do, Recorded;
    var a1 := Assess(cfg, here, EMPTY, t, 0, 0);
    var a2 := Assess(cfg, away, b1, t, soak, soak);
    var a3 := Assess(cfg, here, b2, t, soak, soak);
    var e1, e2 := Evaluated(cfg, here, 0, 0, true, a1, true), Evaluated(cfg, away, soak, soak, true, a2, true);
    var e3 := Evaluated(cfg, here, soak, soak, true, a3, true);
    FirstSight(cfg, d + d' + "-old", d, EMPTY, t, 0);
    FirstSight(cfg, d + d' + "-old", d', b1, t, soak);
    UpdateIff(cfg, here, b2, t, soak, soak);
    PlayNothing(FRESH);
    SoundExtend(FRESH, [], e1);
    PlayExtend(FRESH, [], e1);
    EvaluatedStep(FRESH, e1);
    SoundExtend(FRESH, [] + [e1], e2);
    PlayExtend(FRESH, [] + [e1], e2);
    EvaluatedStep(Do(FRESH, e1), e2);
    SoundExtend(FRESH, [] + [e1] + [e2], e3);
    es := [] + [e1] + [e2] + [e3];
    AwayIsNotCurrent(es, 1, 2);
  }

  /** A new digest that reaches the soak gate gets its clock started. */
  lemma FirstSight(cfg: Config, running: string, remote: string, b: Book, t: Target, now: int)
    requires t.ref.Tagged? && cfg.selfId.None? && !t.set_.monitorOnly && running !in {"", remote}
    requires b.badDigests == map[] && KeyOf(t.name, remote) !in b.firstSeen
    ensures var a := Assess(cfg, Offering(running, remote), b, t, now, now);
            && a.target == t && a.available == remote
            && Recorded(b, a, now) == b.(firstSeen := b.firstSeen[KeyOf(t.name, remote) := now])
  {
  }
}
