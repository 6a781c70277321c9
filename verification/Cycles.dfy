/** The daemon's log as cycles leave it: which plans a cycle acts on, in which order,
    and what that means for digests rejected on the way. */
module Cycles {
  import opened Common
  import opened Sorting
  import opened Bookkeeping
  import opened Planning
  import opened PlanBuilding

  // ----- logs in which attempts have plans

  /** An attempt belongs to a plan of its own cycle that called for an update. */
  ghost predicate PlannedInCycle(es: seq<Event>, j: int, k: int)
    requires 0 <= j < |es| && es[j].Tried?
  {
    && 0 <= k < j && es[k].Evaluated? && es[k].a == es[j].a && es[k].a.action == Update
    && forall m :: k < m < j ==> !es[m].Begins? && !es[m].Restarted?
  }

  ghost predicate WellFormed(es: seq<Event>) {
    && SoundFrom(FRESH, es)
    && forall j :: 0 <= j < |es| && es[j].Tried? ==> exists k :: PlannedInCycle(es, j, k)
  }

  lemma PlannedExtends(a: seq<Event>, b: seq<Event>, j: int, k: int)
    requires 0 <= j < |a| && a[j].Tried? && PlannedInCycle(a, j, k)
    ensures (a + b)[j] == a[j] && PlannedInCycle(a + b, j, k)
  {
    assert forall x :: 0 <= x < |a| ==> (a + b)[x] == a[x];
  }

  /** Planning adds only evaluations, sound on the state they found. */
  lemma {:induction false} ExtendByPlanning(log: seq<Event>, es: seq<Event>)
    requires WellFormed(log) && SoundFrom(Play(FRESH, log), es) && forall e :: e in es ==> !e.Tried?
    ensures WellFormed(log + es) && Play(FRESH, log + es) == Play(Play(FRESH, log), es)
  {
    hide Play, Sound;
    var all := log + es;
    PlayConcat(FRESH, log, es);
    forall i | 0 <= i < |all| ensures Sound(all[i], Play(FRESH, all[..i]).mem) {
      if i < |log| {
        assert all[..i] == log[..i];
      } else {
        assert all[..i] == log + es[..i - |log|];
        PlayConcat(FRESH, log, es[..i - |log|]);
      }
    }
    forall j | 0 <= j < |all| && all[j].Tried? ensures exists k :: PlannedInCycle(all, j, k) {
      assert j < |log| by {
        assert forall x :: |log| <= x < |all| ==> all[x] == es[x - |log|] && es[x - |log|] in es;
      }
      var k :| PlannedInCycle(log, j, k);
      PlannedExtends(log, es, j, k);
    }
  }

  /** Any other event extends the log, an attempt if its cycle planned it. */
  lemma {:induction false} ExtendByAct(log: seq<Event>, e: Event, k: int)
    requires WellFormed(log) && !e.Evaluated?
    requires e.Tried? ==> 0 <= k < |log| && log[k].Evaluated? && log[k].a == e.a && e.a.action == Update
    requires e.Tried? ==> forall x :: k < x < |log| ==> !log[x].Begins? && !log[x].Restarted?
    ensures WellFormed(log + [e]) && Play(FRESH, log + [e]) == Do(Play(FRESH, log), e)
  {
    hide Play, Do;
    var all := log + [e];
    SoundExtend(FRESH, log, e);
    PlayExtend(FRESH, log, e);
    forall j | 0 <= j < |all| && all[j].Tried? ensures exists k :: PlannedInCycle(all, j, k) {
      if j < |log| {
        var k' :| PlannedInCycle(log, j, k');
        PlannedExtends(log, [e], j, k');
      } else {
        assert PlannedInCycle(all, j, k);
      }
    }
  }

  // ----- what a cycle does about its plans

  predicate CallsForAct(a: Assessment) { a.action in {Update, Soaking, Monitor} }

  /** The plans that something is done about, in plan order. */
  function Acted(plans: seq<Assessment>): seq<Assessment> {
    if plans == [] then []
    else
      var n := |plans| - 1;
      Acted(plans[..n]) + (if CallsForAct(plans[n]) then [plans[n]] else [])
  }

  /** An update is tried; what soaks or is only monitored is announced. */
  predicate ActsOn(e: Event, a: Assessment) {
    if a.action == Update then e.Tried? && e.a == a else e.Told? && e.a == a
  }

  /** One act for each plan that calls for one, in plan order. */
  ghost predicate ActsFor(plans: seq<Assessment>, acts: seq<Event>) {
    |acts| == |Acted(plans)| && forall i :: 0 <= i < |acts| ==> ActsOn(acts[i], Acted(plans)[i])
  }

  lemma {:induction false} ActedAre(plans: seq<Assessment>, a: Assessment)
    ensures a in Acted(plans) <==> a in plans && CallsForAct(a)
  {
    if plans != [] {
      var n := |plans| - 1;
      ActedAre(plans[..n], a);
      assert plans == plans[..n] + [plans[n]];
    }
  }

  /** A cycle tries exactly the planned updates, whatever happens to their digests in
      the meantime. */
  lemma {:induction false} EveryUpdateIsTried(plans: seq<Assessment>, acts: seq<Event>, a: Assessment)
    requires ActsFor(plans, acts)
    ensures a in plans && a.action == Update <==> exists x :: 0 <= x < |acts| && acts[x].Tried? && acts[x].a == a
  {
    ActedAre(plans, a);
    if a in plans && a.action == Update {
      var x :| 0 <= x < |acts| && Acted(plans)[x] == a;
      assert ActsOn(acts[x], a);
    }
    if x :| 0 <= x < |acts| && acts[x].Tried? && acts[x].a == a {
      assert Acted(plans)[x] == a;
    }
  }

  /** And it announces exactly the soaking and the monitored ones. */
  lemma {:induction false} EveryOtherIsAnnounced(plans: seq<Assessment>, acts: seq<Event>, a: Assessment)
    requires ActsFor(plans, acts)
    ensures a in plans && (a.action == Soaking || a.action == Monitor) <==>
              exists x :: 0 <= x < |acts| && acts[x].Told? && acts[x].a == a
    ensures forall x :: 0 <= x < |acts| ==> acts[x].Tried? || acts[x].Told?
  {
    ActedAre(plans, a);
    assert forall x :: 0 <= x < |acts| ==> ActsOn(acts[x], Acted(plans)[x]);
    if a in plans && (a.action == Soaking || a.action == Monitor) {
      var x :| 0 <= x < |acts| && Acted(plans)[x] == a;
      assert acts[x].Told? && acts[x].a == a;
    }
    if x :| 0 <= x < |acts| && acts[x].Told? && acts[x].a == a {
      assert Acted(plans)[x] == a;
    }
  }

  // ----- whole histories

  /** A cycle with its evaluations and its acts, or a new process. */
  datatype Segment = Cycle(es: seq<Event>, acts: seq<Event>) | Reboot

  function EventsOf(g: Segment): seq<Event> {
    match g
    case Cycle(es, acts) => [Begins] + es + acts
    case Reboot => [Restarted]
  }

  function Flat(gs: seq<Segment>): seq<Event> {
    if gs == [] then [] else Flat(gs[..|gs| - 1]) + EventsOf(gs[|gs| - 1])
  }

  ghost predicate Evaluations(es: seq<Event>) {
    forall e :: e in es ==> e.Evaluated? && e.record
  }

  ghost function PlansOf(g: Segment): seq<Assessment>
    requires g.Cycle? && Evaluations(g.es)
  {
    StableSort(Results(g.es), PlanKey)
  }

  /** The cycle got as far as acting on its first `n` plans. */
  ghost predicate Reached(s: Store, g: Segment, n: nat) {
    && g.Cycle? && Evaluations(g.es) && SoundFrom(s, g.es)
    && n <= |PlansOf(g)| && ActsFor(PlansOf(g)[..n], g.acts)
  }

  ghost predicate Complete(s: Store, g: Segment) {
    && g.Cycle? && Evaluations(g.es) && SoundFrom(s, g.es)
    && ActsFor(PlansOf(g), g.acts)
  }

  /** What daemons can leave: each cycle starts on the state left before it, and only
      a crash cuts one short. */
  ghost predicate Chronicle(gs: seq<Segment>)
    decreases |gs|
  {
    gs == [] ||
    (var before, g := gs[..|gs| - 1], gs[|gs| - 1];
     && Chronicle(before)
     && (g.Cycle? ==>
           && (exists n: nat :: Reached(Play(FRESH, Flat(before)), g, n))
           && (before != [] && before[|before| - 1].Cycle? ==>
                 Complete(Play(FRESH, Flat(before[..|before| - 1])), before[|before| - 1]))))
  }

  lemma {:induction false} ActsPrefixKeeps(begun: seq<Event>, plans: seq<Assessment>, acts: seq<Event>, es: seq<Event>, i: nat)
    requires ActsFor(plans, acts) && WellFormed(begun + es) && i <= |acts|
    requires Evaluations(es) && forall a :: a in plans ==> a in Results(es)
    ensures WellFormed(begun + es + acts[..i])
    decreases i
  {
    hide WellFormed, Evaluations, Results;
    if i == 0 {
      assert begun + es + acts[..0] == begun + es;
    } else {
      ActsPrefixKeeps(begun, plans, acts, es, i - 1);
      assert acts[..i] == acts[..i - 1] + [acts[i - 1]];
      assert begun + es + acts[..i] == (begun + es + acts[..i - 1]) + [acts[i - 1]];
      assert forall x :: 0 <= x < i ==> ActsOn(acts[x], Acted(plans)[x]);
      ActedAre(plans, acts[i - 1].a);
      OneMoreAct(begun, es, acts[..i - 1], acts[i - 1]);
    }
  }

  lemma {:induction false} OneMoreAct(begun: seq<Event>, es: seq<Event>, done: seq<Event>, e: Event)
    requires WellFormed(begun + es + done) && Evaluations(es) && (e.Tried? || e.Told?)
    requires forall x :: 0 <= x < |done| ==> done[x].Tried? || done[x].Told?
    requires e.Tried? ==> e.a in Results(es) && e.a.action == Update
    ensures WellFormed(begun + es + done + [e])
  {
    hide WellFormed;
    var log, n := begun + es + done, |begun|;
    var k := 0;
    if e.Tried? {
      k :| 0 <= k < |es| && Results(es)[k] == e.a;
      assert log[n + k] == es[k] && es[k] in es;
      forall x | n + k < x < |log| ensures !log[x].Begins? && !log[x].Restarted? {
        if x < n + |es| { assert log[x] == es[x - n] && es[x - n] in es; }
        else { assert log[x] == done[x - n - |es|]; }
      }
    }
    ExtendByAct(log, e, n + k);
  }

  /** Every attempt in such a history belongs to a plan of its cycle, so that what
      holds of well-formed logs holds of it. */
  lemma {:induction false} ChronicleWellFormed(gs: seq<Segment>)
    requires Chronicle(gs)
    ensures WellFormed(Flat(gs))
    decreases |gs|
  {
    hide WellFormed, Play, Reached, Complete;
    if gs == [] {
      EmptyWellFormed();
    } else {
      var before, g := gs[..|gs| - 1], gs[|gs| - 1];
      var log := Flat(before);
      ChronicleWellFormed(before);
      if g.Reboot? {
        ExtendByAct(log, Restarted, 0);
      } else {
        var n: nat :| Reached(Play(FRESH, log), g, n);
        CycleKeepsWellFormed(log, g, n);
      }
    }
  }

  lemma EmptyWellFormed()
    ensures WellFormed([])
  {
  }

  lemma {:induction false} CycleKeepsWellFormed(log: seq<Event>, g: Segment, n: nat)
    requires WellFormed(log) && Reached(Play(FRESH, log), g, n)
    ensures WellFormed(log + EventsOf(g))
  {
    hide WellFormed, Play, Do, SoundFrom, ActsFor, StableSort, Results;
    ExtendByAct(log, Begins, 0);
    BeginsDoesNothing(Play(FRESH, log));
    var begun := log + [Begins];
    ExtendByPlanning(begun, g.es);
    PlansAreResults(g, n);
    ActsOfCycle(begun, PlansOf(g)[..n], g.acts, g.es);
    assert (begun + g.es) + g.acts == log + EventsOf(g);
  }

  lemma PlansAreResults(g: Segment, n: nat)
    requires g.Cycle? && Evaluations(g.es) && n <= |PlansOf(g)|
    ensures forall a :: a in PlansOf(g)[..n] ==> a in Results(g.es)
  {
    assert forall a :: a in PlansOf(g)[..n] ==> a in PlansOf(g);
  }

  lemma {:induction false} ActsOfCycle(begun: seq<Event>, plans: seq<Assessment>, acts: seq<Event>, es: seq<Event>)
    requires WellFormed(begun + es) && ActsFor(plans, acts) && Evaluations(es)
    requires forall a :: a in plans ==> a in Results(es)
    ensures WellFormed(begun + es + acts)
  {
    hide WellFormed, ActsFor, Results;
    var planned := begun + es;
    forall i | 0 <= i <= |acts| ensures WellFormed(planned + acts[..i]) {
      ActsPrefixKeeps(begun, plans, acts, es, i);
    }
    assert acts[..|acts|] == acts;
  }

  lemma BeginsDoesNothing(s: Store)
    ensures Do(s, Begins) == s
  {
  }

  /** One more complete cycle. */
  lemma {:induction false} ChronicleGrows(gs: seq<Segment>, g: Segment)
    requires Chronicle(gs) && Complete(Play(FRESH, Flat(gs)), g)
    requires gs == [] || gs[|gs| - 1].Reboot? || Complete(Play(FRESH, Flat(gs[..|gs| - 1])), gs[|gs| - 1])
    ensures Chronicle(gs + [g]) && Flat(gs + [g]) == Flat(gs) + EventsOf(g)
  {
    hide Play, SoundFrom, ActsFor;
    assert (gs + [g])[..|gs|] == gs;
    assert PlansOf(g)[..|PlansOf(g)|] == PlansOf(g);
    assert Reached(Play(FRESH, Flat(gs)), g, |PlansOf(g)|);
  }

  lemma {:induction false} ChronicleReboots(gs: seq<Segment>)
    requires Chronicle(gs)
    ensures Chronicle(gs + [Reboot]) && Flat(gs + [Reboot]) == Flat(gs) + [Restarted]
  {
    assert (gs + [Reboot])[..|gs|] == gs;
  }

  // ----- rejected digests within a cycle

  /** What makes evaluation `y` plan an update to `d`: the image is tagged, known, not
      already at `d` and offered it, it is not the daemon's own container nor only
      monitored, and it has soaked. The blacklist has no part in it. */
  ghost predicate Due(s: Store, es: seq<Event>, y: int, d: string)
    requires 0 <= y < |es| && es[y].Evaluated?
  {
    var e := es[y];
    var t := e.a.target;
    && t.ref.Tagged? && e.reg.running(t.id) !in {None, Some(""), Some(d)} && e.reg.remote(t.image) == Some(d)
    && e.cfg.selfId != Some(t.id) && !t.set_.monitorOnly
    && e.later - First(Play(s, es[..y]).mem, t.name, d, e.now) >= SoakOf(e.cfg, t)
  }

  /** Evaluations blacklist nothing and clear nothing. */
  lemma {:induction false} PlanningKeepsBlacklist(s: Store, es: seq<Event>)
    requires Evaluations(es)
    ensures Play(s, es).mem.badDigests == s.mem.badDigests
    decreases |es|
  {
    if es != [] {
      var n := |es| - 1;
      assert es[n] in es && forall e :: e in es[..n] ==> e in es;
      PlanningKeepsBlacklist(s, es[..n]);
      KeepsBlacklist(Play(s, es[..n]), es[n]);
      hide Do;
    }
  }

  lemma KeepsBlacklist(s: Store, e: Event)
    requires e.Evaluated?
    ensures Do(s, e).mem.badDigests == s.mem.badDigests
  {
  }

  /** Once a cycle plans an update to a digest, it plans one for every container that
      is due for it. */
  lemma {:induction false} PlansAllDue(s: Store, es: seq<Event>, x: int, y: int, d: string)
    requires Evaluations(es) && SoundFrom(s, es) && 0 <= x < |es| && 0 <= y < |es|
    requires es[x].Evaluated? && es[x].a.action == Update && es[x].a.available == d && es[y].Evaluated?
    ensures es[y].a.action == Update && es[y].a.available == d <==> Due(s, es, y, d)
  {
    hide Assess, Play;
    NotBlacklisted(s, es, x);
    var e, b := es[y], Play(s, es[..y]).mem;
    assert Sound(e, b);
    UpdateIff(e.cfg, e.reg, b, e.a.target, e.now, e.later);
    assert forall z :: z in es[..y] ==> z in es;
    PlanningKeepsBlacklist(s, es[..y]);
    if Due(s, es, y, d) { DueIsGated(e, b, d); }
  }

  lemma DueIsGated(e: Event, b: Book, d: string)
    requires Sound(e, b) && e.Evaluated? && e.a.action == Update && e.reg.remote(e.a.target.image) == Some(d)
    ensures e.a.available == d
  {
  }

  lemma {:induction false} NotBlacklisted(s: Store, es: seq<Event>, x: int)
    requires Evaluations(es) && SoundFrom(s, es) && 0 <= x < |es| && es[x].Evaluated? && es[x].a.action == Update
    ensures !Flag(s.mem.badDigests, es[x].a.available)
  {
    hide Assess, Play;
    var e, b := es[x], Play(s, es[..x]).mem;
    assert Sound(e, b);
    UpdateIff(e.cfg, e.reg, b, e.a.target, e.now, e.later);
    assert forall z :: z in es[..x] ==> z in es;
    PlanningKeepsBlacklist(s, es[..x]);
  }

  /** Names are unique, so the plan order is strict. */
  ghost predicate UniqueTargets(es: seq<Event>) {
    forall x, y :: 0 <= x < y < |es| && es[x].Evaluated? && es[y].Evaluated? ==> es[x].a.target.name != es[y].a.target.name
  }

  predicate Before(a: Assessment, b: Assessment) {
    KeyLeq(PlanKey(a), PlanKey(b)) && PlanKey(a) != PlanKey(b)
  }

  lemma {:induction false} ActedSorted(plans: seq<Assessment>)
    requires SortedBy(plans, PlanKey) && NoRepeats(plans)
    ensures SortedBy(Acted(plans), PlanKey) && NoRepeats(Acted(plans))
  {
    if plans != [] {
      hide KeyLeq;
      var n := |plans| - 1;
      ActedSorted(plans[..n]);
      forall a | a in Acted(plans[..n]) ensures KeyLeq(PlanKey(a), PlanKey(plans[n])) && a != plans[n] {
        ActedAre(plans[..n], a);
        var x :| 0 <= x < n && plans[..n][x] == a;
      }
      assert forall x :: 0 <= x < |Acted(plans[..n])| ==> Acted(plans[..n])[x] in Acted(plans[..n]);
    }
  }

  /** Which of two acts comes first. */
  lemma {:induction false} ActOrder(g: Segment, i: int, x: int)
    requires g.Cycle? && Evaluations(g.es) && UniqueTargets(g.es) && ActsFor(PlansOf(g), g.acts)
    requires 0 <= i < |g.acts| && 0 <= x < |g.acts|
    ensures Before(Acted(PlansOf(g))[i], Acted(PlansOf(g))[x]) <==> i < x
  {
    var plans := PlansOf(g);
    var as_ := Acted(plans);
    ResultsDistinct(g.es);
    assert NoRepeats(plans);
    ActedSorted(plans);
    ActedAre(plans, as_[i]);
    ActedAre(plans, as_[x]);
    DistinctKeys(g.es, as_[i], as_[x]);
    KeyOrder(PlanKey(as_[i]), PlanKey(as_[x]), PlanKey(as_[i]));
  }

  lemma ResultsDistinct(es: seq<Event>)
    requires Evaluations(es) && UniqueTargets(es)
    ensures NoRepeats(Results(es))
  {
    assert forall x :: 0 <= x < |es| ==> es[x] in es;
  }

  lemma DistinctKeys(es: seq<Event>, a: Assessment, b: Assessment)
    requires Evaluations(es) && UniqueTargets(es) && a in Results(es) && b in Results(es)
    ensures PlanKey(a) == PlanKey(b) ==> a == b
  {
    var x := EvaluationOf(es, a);
    var y := EvaluationOf(es, b);
    hide Evaluations, Results;
    if x < y { assert a.target.name != b.target.name; }
    if y < x { assert a.target.name != b.target.name; }
  }

  lemma EvaluationOf(es: seq<Event>, a: Assessment) returns (x: int)
    requires Evaluations(es) && a in Results(es)
    ensures 0 <= x < |es| && es[x].Evaluated? && es[x].a == a
  {
    x :| 0 <= x < |es| && Results(es)[x] == a;
    assert es[x] in es;
  }

  /** Exactly when a complete cycle tries a digest again after rejecting it: another
      container is due for it and comes later in plan order. That the digest is on
      the blacklist by then makes no difference. */
  lemma {:induction false} RetriedIffAnotherIsDue(s: Store, g: Segment, i: int, d: string)
    requires Complete(s, g) && UniqueTargets(g.es)
    requires 0 <= i < |g.acts| && g.acts[i].Tried? && g.acts[i].end == GateRejected && g.acts[i].a.available == d
    ensures (exists x :: i < x < |g.acts| && g.acts[x].Tried? && g.acts[x].a.available == d)
       <==> (exists y :: 0 <= y < |g.es| && Due(s, g.es, y, d) && Before(g.acts[i].a, g.es[y].a))
  {
    hide Play, SoundFrom, PlansOf, Due, Before;
    var plans := PlansOf(g);
    var w := PlannedBy(g, i);
    if x :| i < x < |g.acts| && g.acts[x].Tried? && g.acts[x].a.available == d {
      var y := PlannedBy(g, x);
      PlansAllDue(s, g.es, w, y, d);
      ActOrder(g, i, x);
    }
    if y :| 0 <= y < |g.es| && Due(s, g.es, y, d) && Before(g.acts[i].a, g.es[y].a) {
      assert g.es[y] in g.es;
      PlansAllDue(s, g.es, w, y, d);
      var x := TriedAt(g, y);
      ActOrder(g, i, x);
    }
  }

  /** The evaluation behind an attempt, and the attempt behind an evaluation. */
  lemma {:induction false} PlannedBy(g: Segment, x: int) returns (y: int)
    requires g.Cycle? && Evaluations(g.es) && ActsFor(PlansOf(g), g.acts) && 0 <= x < |g.acts| && g.acts[x].Tried?
    ensures 0 <= y < |g.es| && g.es[y].Evaluated? && g.es[y].a == g.acts[x].a && g.es[y].a.action == Update
    ensures Acted(PlansOf(g))[x] == g.acts[x].a
  {
    assert ActsOn(g.acts[x], Acted(PlansOf(g))[x]);
    ActedAre(PlansOf(g), g.acts[x].a);
    y := EvaluationOf(g.es, g.acts[x].a);
  }

  lemma {:induction false} TriedAt(g: Segment, y: int) returns (x: int)
    requires g.Cycle? && Evaluations(g.es) && ActsFor(PlansOf(g), g.acts)
    requires 0 <= y < |g.es| && g.es[y].Evaluated? && g.es[y].a.action == Update
    ensures 0 <= x < |g.acts| && g.acts[x].Tried? && g.acts[x].a == g.es[y].a && Acted(PlansOf(g))[x] == g.es[y].a
  {
    assert Results(g.es)[y] == g.es[y].a;
    assert g.es[y].a in PlansOf(g);
    EveryUpdateIsTried(PlansOf(g), g.acts, g.es[y].a);
    x :| 0 <= x < |g.acts| && g.acts[x].Tried? && g.acts[x].a == g.es[y].a;
    assert ActsOn(g.acts[x], Acted(PlansOf(g))[x]);
  }
}
