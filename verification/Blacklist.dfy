/** The blacklist over whole logs, with failed saves and restarts: exactly which
    rejections are remembered, and what is never tried again. */
module Blacklist {
  import opened Common
  import opened Sorting
  import opened Bookkeeping
  import opened Planning
  import opened PlanBuilding
  import opened Cycles
  import opened PlanRuns

  predicate Rejects(e: Event, d: string) {
    e.Tried? && e.end == GateRejected && e.a.available == d
  }

  /** The event made the state save itself, and the save succeeded. */
  predicate Saves(s: Store, e: Event) {
    OpOf(e) != [] &&
    match OpOf(e)[0]
    case See(c, d, _, saved) => saved && KeyOf(c, d) !in s.mem.firstSeen
    case Applied(_, _, saved) => saved
    case Bad(_, saved) => saved
    case Announce(c, d, saved) => saved && !Flag(s.mem.notified, KeyOf(c, d))
    case Restart => false
  }

  ghost predicate SavedAt(es: seq<Event>, x: int)
    requires 0 <= x < |es|
  {
    Saves(Play(FRESH, es[..x]), es[x])
  }

  /** The process that was running at `i` lives on up to `n`. */
  predicate SameProcess(es: seq<Event>, i: int, n: int)
    requires 0 <= i && n <= |es|
  {
    forall y :: i < y < n ==> !es[y].Restarted?
  }

  /** A save succeeded at or after `i`, before the process ended. */
  ghost predicate OnDisk(es: seq<Event>, i: int)
    requires 0 <= i
  {
    exists x :: i <= x < |es| && SavedAt(es, x) && SameProcess(es, i, x)
  }

  /** What happened at `i` is still remembered at the end of the log. */
  ghost predicate Kept(es: seq<Event>, i: int)
    requires 0 <= i
  {
    SameProcess(es, i, |es|) || OnDisk(es, i)
  }

  lemma WhatSavesDo(s: Store, e: Event)
    ensures Saves(s, e) ==> Do(s, e).disk == Do(s, e).mem
    ensures !Saves(s, e) && !e.Restarted? ==> Do(s, e).disk == s.disk
    ensures e.Restarted? ==> Do(s, e) == Store(s.disk, s.disk)
    ensures !e.Restarted? ==> forall d :: Flag(Do(s, e).mem.badDigests, d) <==> Flag(s.mem.badDigests, d) || Rejects(e, d)
  {
  }

  lemma PrefixAgrees(es: seq<Event>, n: nat, i: int, x: int)
    requires n <= |es| && 0 <= i <= x < n
    ensures SavedAt(es[..n], x) <==> SavedAt(es, x)
    ensures SameProcess(es[..n], i, x) <==> SameProcess(es, i, x)
  {
    hide Play, Saves;
    assert es[..n][..x] == es[..x];
  }

  lemma SavesAreNoRestarts(es: seq<Event>, n: int)
    requires 0 <= n < |es|
    ensures SavedAt(es, n) ==> !es[n].Restarted?
  {
    hide Play;
  }

  /** How one more event changes what is kept. */
  lemma {:induction false} KeptExtends(es: seq<Event>, i: int)
    requires es != [] && 0 <= i < |es|
    ensures var n := |es| - 1;
            && (i == n ==> Kept(es, i) && (OnDisk(es, i) <==> SavedAt(es, n)))
            && (i < n ==> (OnDisk(es, i) <==> OnDisk(es[..n], i) || (SavedAt(es, n) && SameProcess(es[..n], i, n))))
            && (i < n ==> (SameProcess(es, i, |es|) <==> SameProcess(es[..n], i, n) && !es[n].Restarted?))
            && (SavedAt(es, n) ==> !es[n].Restarted?)
  {
    var n := |es| - 1;
    SavesAreNoRestarts(es, n);
    assert SameProcess(es[..n], i, n) <==> SameProcess(es, i, n);
    assert i < n ==> (SameProcess(es, i, |es|) <==> SameProcess(es, i, n) && !es[n].Restarted?);
    assert SameProcess(es, n, n) && SameProcess(es, n, |es|);
    hide SavedAt, SameProcess;
    forall x | i <= x < n
      ensures SavedAt(es[..n], x) && SameProcess(es[..n], i, x) <==> SavedAt(es, x) && SameProcess(es, i, x)
    {
      PrefixAgrees(es, n, i, x);
    }
  }

  /** A digest is blacklisted, in memory or on disk, exactly if some gate rejected it
      and that rejection was kept: an interrupted gate or any other failure never
      blacklists, and a rejection is forgotten only by a restart before any save. */
  lemma {:induction false} BlacklistedIff(es: seq<Event>, d: string)
    ensures Flag(Play(FRESH, es).mem.badDigests, d) <==> exists i :: 0 <= i < |es| && Rejects(es[i], d) && Kept(es, i)
    ensures Flag(Play(FRESH, es).disk.badDigests, d) <==> exists i :: 0 <= i < |es| && Rejects(es[i], d) && OnDisk(es, i)
    decreases |es|
  {
    if es == [] {
    } else {
      hide Saves, Do, Rejects, OnDisk, SameProcess;
      var n := |es| - 1;
      var before := es[..n];
      BlacklistedIff(before, d);
      WhatSavesDo(Play(FRESH, before), es[n]);
      forall i | 0 <= i < |es| ensures i < n ==> before[i] == es[i] { KeptExtends(es, i); }
      BlacklistGrows(es, d);
    }
  }

  lemma {:induction false} BlacklistGrows(es: seq<Event>, d: string)
    requires es != []
    ensures var n := |es| - 1;
            var kept := exists i :: 0 <= i < n && Rejects(es[i], d) && Kept(es[..n], i);
            var disk := exists i :: 0 <= i < n && Rejects(es[i], d) && OnDisk(es[..n], i);
            && ((exists i :: 0 <= i <= n && Rejects(es[i], d) && Kept(es, i)) <==>
                  (if es[n].Restarted? then disk else kept || Rejects(es[n], d)))
            && ((exists i :: 0 <= i <= n && Rejects(es[i], d) && OnDisk(es, i)) <==>
                  disk || (SavedAt(es, n) && (kept || Rejects(es[n], d))))
  {
    hide Saves, OnDisk, SameProcess, SavedAt, Play;
    var n := |es| - 1;
    KeptExtends(es, n);
    forall i | 0 <= i < n
      ensures OnDisk(es, i) <==> OnDisk(es[..n], i) || (SavedAt(es, n) && SameProcess(es[..n], i, n))
      ensures Kept(es, i) <==> if es[n].Restarted? then OnDisk(es[..n], i) else Kept(es[..n], i)
    {
      KeptExtends(es, i);
    }
  }

  /** A rejected digest is never tried in a later cycle, on any container, as long as
      the rejection is kept: in the same process always, and after restarts if any
      save succeeded between the rejection and the first of them. `k` is the
      evaluation that planned the attempt at `j`. */
  lemma BlacklistedNeverRetried(es: seq<Event>, i: int, m: int, j: int, k: int, d: string)
    requires WellFormed(es) && 0 <= i < m < j < |es|
    requires Rejects(es[i], d) && es[m].Begins? && es[j].Tried?
    requires PlannedInCycle(es, j, k) && Kept(es[..k], i)
    ensures es[j].a.available != d
  {
    hide Assess, Play, Kept;
    assert k > i;
    var e := es[k];
    assert es[..k][i] == es[i];
    BlacklistedIff(es[..k], d);
    assert Sound(e, Play(FRESH, es[..k]).mem);
    UpdateIff(e.cfg, e.reg, Play(FRESH, es[..k]).mem, e.a.target, e.now, e.later);
  }

  /** An update is planned for a gated digest only if no rejection of it is kept. */
  lemma PlannedMeansForgotten(es: seq<Event>, k: int, i: int)
    requires SoundFrom(FRESH, es) && 0 <= i < k < |es| && es[k].Evaluated? && es[k].a.action == Update
    requires Rejects(es[i], es[k].a.available)
    ensures !SameProcess(es, i, k) && forall x :: i <= x < k && SavedAt(es, x) ==> !SameProcess(es, i, x)
  {
    hide Assess, Play, SavedAt, SameProcess;
    var e, d := es[k], es[k].a.available;
    assert es[..k][i] == es[i];
    PrefixProcess(es, k, i);
    assert !Kept(es[..k], i) by {
      BlacklistedIff(es[..k], d);
      assert Sound(e, Play(FRESH, es[..k]).mem);
      UpdateIff(e.cfg, e.reg, Play(FRESH, es[..k]).mem, e.a.target, e.now, e.later);
    }
    forall x | i <= x < k && SavedAt(es, x) ensures !SameProcess(es, i, x) {
      PrefixAgrees(es, k, i, x);
    }
  }

  lemma PrefixProcess(es: seq<Event>, k: nat, i: int)
    requires 0 <= i && k <= |es|
    ensures SameProcess(es, i, k) ==> SameProcess(es[..k], i, k)
  {
  }

  /** What was kept stays kept as long as nothing restarts. */
  lemma {:induction false} KeptAlong(es: seq<Event>, more: seq<Event>, i: int)
    requires 0 <= i < |es| && Kept(es, i) && forall e :: e in more ==> !e.Restarted?
    ensures Kept(es + more, i)
  {
    hide SavedAt;
    var all := es + more;
    assert all[..|es|] == es;
    if SameProcess(es, i, |es|) {
      forall y | i < y < |all| ensures !all[y].Restarted? {
        if y < |es| { assert all[y] == es[y]; } else { assert all[y] in more; }
      }
    } else {
      var x :| i <= x < |es| && SavedAt(es, x) && SameProcess(es, i, x);
      PrefixAgrees(all, |es|, i, x);
      assert OnDisk(all, i);
    }
  }

  // ----- runs

  /** A container whose soak is nothing, and a registry that offers it `d`. */
  function Prompt(c: string, order: nat): Target {
    Target(order, c, "app", Tagged, Settings(None, false, false, false, None, order), true)
  }

  const NO_SOAK: Config := Config(All, 0, None, false)

  /** Evaluating it in a new process, at time 0, with the save of its clock failing. */
  function Evaluation(c: string, order: nat, d: string): Event {
    var reg := Offering(d + "-old", d);
    Evaluated(NO_SOAK, reg, 0, 0, true, Assess(NO_SOAK, reg, EMPTY, Prompt(c, order), 0, 0), false)
  }

  lemma PlansUpdate(c: string, order: nat, d: string)
    ensures var e := Evaluation(c, order, d);
            && e.a.action == Update && e.a.available == d && e.a.target == Prompt(c, order)
            && Sound(e, EMPTY) && Do(FRESH, e).disk == EMPTY
  {
    assert |d + "-old"| > |d|;
    UpdateIff(NO_SOAK, Offering(d + "-old", d), EMPTY, Prompt(c, order), 0, 0);
  }

  lemma {:induction false} OneEvaluation(e: Event)
    requires e.Evaluated? && e.record && Sound(e, EMPTY)
    ensures SoundFrom(FRESH, [e]) && Play(FRESH, [e]) == Do(FRESH, e)
    ensures Evaluations([e]) && PlansOf(Cycle([e], [])) == [e.a]
  {
    hide Assess, Play, Do;
    PlayNothing(FRESH);
    assert [] + [e] == [e];
    SoundExtend(FRESH, [], e);
    PlayExtend(FRESH, [], e);
    assert Results([e]) == [e.a];
    SortIsStable([e.a], PlanKey, PlanKey(e.a));
  }

  /** The remaining case is real: if no save succeeds and the process is restarted,
      the rejection is forgotten and the next cycle tries the digest again. */
  lemma {:induction false} LostRejectionIsRetried(c: string, d: string) returns (gs: seq<Segment>)
    ensures Chronicle(gs) && |gs| == 3 && gs[0].Cycle? && gs[1].Reboot? && gs[2].Cycle?
    ensures |gs[0].acts| == 1 && Rejects(gs[0].acts[0], d) && !gs[0].acts[0].saved
    ensures |gs[2].acts| == 1 && gs[2].acts[0].Tried? && gs[2].acts[0].a.available == d
  {
    var e := Evaluation(c, 0, d);
    PlansUpdate(c, 0, d);
    OneEvaluation(e);
    var g, g' := Cycle([e], [Tried(e.a, GateRejected, false)]), Cycle([e], [Tried(e.a, Succeeded, false)]);
    assert Acted([e.a]) == [e.a] by { assert [e.a][..0] == [] && Acted([]) == []; }
    assert PlansOf(g) == PlansOf(Cycle([e], [])) == PlansOf(g');
    hide Assess, Play, Do, Acted, SoundFrom, Evaluations, PlansOf;
    assert Flat([]) == [];
    PlayNothing(FRESH);
    ChronicleGrows([], g);
    ChronicleReboots([] + [g]);
    AllLost(e, Tried(e.a, GateRejected, false));
    gs := [] + [g] + [Reboot];
    assert gs[|gs| - 1].Reboot?;
    assert Flat(gs) == [] + ([Begins] + [e] + [Tried(e.a, GateRejected, false)]) + [Restarted];
    ChronicleGrows(gs, g');
    gs := gs + [g'];
  }

  lemma {:induction false} AllLost(e: Event, r: Event)
    requires e.Evaluated? && Do(FRESH, e).disk == EMPTY && r.Tried? && r.end == GateRejected && !r.saved
    ensures Play(FRESH, [] + ([Begins] + [e] + [r]) + [Restarted]) == FRESH
  {
    hide Play;
    var all := [Begins, e, r];
    assert [] + ([Begins] + [e] + [r]) == all && [] + [Begins] == [Begins];
    assert [Begins] + [e] == [Begins, e] && [Begins, e] + [r] == all;
    PlayNothing(FRESH);
    PlayExtend(FRESH, [], Begins);
    PlayExtend(FRESH, [Begins], e);
    PlayExtend(FRESH, [Begins, e], r);
    PlayExtend(FRESH, all, Restarted);
    WhatSavesDo(Play(FRESH, [Begins, e]), r);
    WhatSavesDo(Play(FRESH, all), Restarted);
  }

  /** Within one cycle the blacklist comes too late: plans are made before any is
      applied, so a digest rejected for one container, and already blacklisted, is
      still tried on the next. */
  lemma {:induction false} SameCycleStillTries(c: string, c': string, d: string) returns (g: Segment)
    ensures Chronicle([g]) && g.Cycle? && Complete(FRESH, g) && |g.acts| == 2
    ensures g.acts[0].Tried? && g.acts[0].a.target.name == c && Rejects(g.acts[0], d) && g.acts[0].saved
    ensures g.acts[1].Tried? && g.acts[1].a.target.name == c' && g.acts[1].a.available == d
    ensures Flag(Play(FRESH, [Begins] + g.es + [g.acts[0]]).mem.badDigests, d)
  {
    var e, e' := Evaluation(c, 0, d), Evaluation(c', 1, d);
    PlansUpdate(c, 0, d);
    PlansUpdate(c', 1, d);
    TwoEvaluations(e, e', d);
    var r := Tried(e.a, GateRejected, true);
    g := Cycle([e, e'], [r, Tried(e'.a, Succeeded, true)]);
    assert PlansOf(g) == [e.a, e'.a];
    assert Acted([e.a, e'.a]) == [e.a, e'.a] by {
      assert [e.a, e'.a][..1] == [e.a] && [e.a][..0] == [] && Acted([]) == [];
      assert Acted([e.a]) == [e.a];
    }
    hide Assess, Play, Do, Acted, SoundFrom, Evaluations, PlansOf;
    assert Flat([]) == [] && [] + [g] == [g];
    PlayNothing(FRESH);
    ChronicleGrows([], g);
    PlayExtend(FRESH, [Begins] + g.es, r);
    WhatSavesDo(Play(FRESH, [Begins] + g.es), r);
  }

  lemma {:induction false} TwoEvaluations(e: Event, e': Event, d: string)
    requires exists c, c' :: e == Evaluation(c, 0, d) && e' == Evaluation(c', 1, d)
    ensures Evaluations([e, e']) && SoundFrom(FRESH, [e, e'])
    ensures StableSort(Results([e, e']), PlanKey) == [e.a, e'.a]
  {
    var c, c' :| e == Evaluation(c, 0, d) && e' == Evaluation(c', 1, d);
    PlansUpdate(c, 0, d);
    PlansUpdate(c', 1, d);
    hide Evaluation, Assess, Play, Do;
    assert e.record && e.a.target == Prompt(c, 0) && e'.a.target == Prompt(c', 1);
    OneEvaluation(e);
    assert [e] + [e'] == [e, e'];
    EvaluatedStep(FRESH, e);
    var m := Moment(NO_SOAK, Offering(d + "-old", d), 0);
    RecordingOneIsInvisible(m, EMPTY, Prompt(c, 0), Prompt(c', 1));
    SoundExtend(FRESH, [e], e');
    assert Results([e, e']) == [e.a, e'.a];
    SortedPair(e.a, e'.a);
  }

  lemma {:induction false} SortedPair(a: Assessment, b: Assessment)
    requires KeyLeq(PlanKey(a), PlanKey(b))
    ensures StableSort([a, b], PlanKey) == [a, b]
  {
    assert [a, b][1..] == [b] && [b][1..] == [];
    assert StableSort([b], PlanKey) == [b];
  }
}
