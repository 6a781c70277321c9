/** One full cycle of the daemon (`Run`): heal, plan, then act on the plans in order.
    It ties the two halves together: every cycle is one of the cycles that Recovery
    and PlanRuns quantify over. */
module Daemon {
  import opened Common
  import opened Docker
  import opened Bookkeeping
  import opened Planning
  import opened PlanBuilding
  import opened Cycles
  import opened PlanRuns
  import opened StateRuns
  import opened CycleMarks
  import Blacklist
  import Sorting
  import T = Transaction
  import O = TransactionOutcome
  import Safety = TransactionSafety
  import Recovery
  import HG = HealthGate

  /** Labels and references, parsed: what the code reads off each container. */
  datatype Labels = Labels(settings: Id -> Settings, project: Id -> string,
                           kind: string -> Reference, timeout: Id -> int)

  /** What inspecting a container gives; `available` is filled in by the plan. */
  function Inspected(w: World, i: Id, l: Labels): T.Plan
    requires i in w.cs
  {
    var c := w.cs[i];
    T.Plan(i, c.name, c.image, "", c.running, map n | n in c.nets :: Some(c.nets[n]), l.timeout(i))
  }

  function TargetOf(w: World, i: Id, l: Labels): Target
    requires i in w.cs
  {
    var c := w.cs[i];
    Target(i, Render(c.name), c.image, l.kind(c.image), l.settings(i), c.running)
  }

  lemma InspectedIsFaithful(w: World, i: Id, l: Labels, available: string)
    requires Wf(w) && i in w.cs
    ensures O.Faithful(w, Inspected(w, i, l).(available := available))
    ensures w.cs[i].image == Inspected(w, i, l).image && O.Reports(Inspected(w, i, l).nets, w.cs[i].nets)
    ensures TargetOf(w, i, l).name == Render(Inspected(w, i, l).name) && Inspected(w, i, l).id == i
    ensures Inspected(w, i, l).timeout == l.timeout(i) && TargetOf(w, i, l).image == w.cs[i].image
    ensures TargetOf(w, i, l).ref == l.kind(w.cs[i].image) && TargetOf(w, i, l).set_ == l.settings(i)
  {
  }

  // ----- plans and updates

  /** Plans of distinct containers stay distinct through sorting. */
  lemma {:induction false} PlansDistinct(es: seq<Event>, ts: seq<Target>, record: bool)
    requires Evaluates(es, ts, record) && DistinctIds(ts)
    ensures var plans := Sorting.StableSort(Results(es), PlanKey);
            && (forall a :: a in plans ==> a in Results(es) && a.target in ts)
            && (forall i, j :: 0 <= i < j < |plans| ==> plans[i].target.id != plans[j].target.id)
  {
    var rs := Results(es);
    var plans := Sorting.StableSort(rs, PlanKey);
    forall i, j | 0 <= i < j < |rs| ensures rs[i] != rs[j] {
      assert rs[i].target == ts[i] && rs[j].target == ts[j];
    }
    assert Sorting.NoRepeats(rs);
    forall i, j | 0 <= i < j < |plans| ensures plans[i].target.id != plans[j].target.id {
      assert plans[i] in rs && plans[j] in rs;
      var x :| 0 <= x < |rs| && rs[x] == plans[i];
      var y :| 0 <= y < |rs| && rs[y] == plans[j];
      assert rs[x].target == ts[x] && rs[y].target == ts[y];
    }
    forall a | a in plans ensures a in rs && a.target in ts {
      var x :| 0 <= x < |rs| && rs[x] == a;
      assert rs[x].target == ts[x];
    }
  }

  lemma {:induction false} UpdatesSnoc(w: World, us: seq<(T.Plan, T.Fates)>, u: (T.Plan, T.Fates))
    requires Recovery.AllOrdered(us) && T.Ordered(u.0, u.1)
    ensures Recovery.AllOrdered(us + [u])
    ensures Recovery.Updates(w, us + [u]) == T.Apply(Recovery.Updates(w, us), u.0, u.1).world
    decreases |us|
  {
    hide T.Apply, T.Ordered;
    if us == [] {
      assert [] + [u] == [u] && [u][1..] == [];
    } else {
      assert (us + [u])[1..] == us[1..] + [u];
      assert forall x :: x in us[1..] ==> x in us;
      UpdatesSnoc(T.Apply(w, us[0].0, us[0].1).world, us[1..], u);
    }
  }

  lemma RestartReads(s: Store)
    ensures Do(s, Restarted) == Store(s.disk, s.disk)
  {
  }

  function EndOf(err: Option<T.Error>): End {
    if err.None? then Succeeded else if err == Some(T.GateFailed(false)) then GateRejected else Otherwise
  }

  /** What the log says of an attempt is what the transaction marked. */
  lemma EndTells(p: T.Plan, w: World, f: T.Fates)
    requires T.Ordered(p, f)
    ensures var r := T.Apply(w, p, f);
            && (EndOf(r.err) == GateRejected <==> T.MarkBad(p.available) in r.marks)
            && (EndOf(r.err) == Succeeded <==> T.MarkApplied(p.name, p.available) in r.marks)
            && (forall d :: T.MarkBad(d) in r.marks ==> d == p.available)
  {
    hide T.Apply, T.Ordered;
    forall d ensures T.MarkBad(d) in T.Apply(w, p, f).marks ==> d == p.available {
      Safety.OnlyFailedGateBlacklists(w, p, f, d);
    }
    Safety.OnlyFailedGateBlacklists(w, p, f, p.available);
  }

  /** Booking an attempt carries its marks into the state. */
  lemma BookedMarks(s: Store, e: Event, w: World, p: T.Plan, f: T.Fates)
    requires T.Ordered(p, f) && Books(e, w, (p, f))
    ensures Carries(s.mem, Do(s, e).mem, T.Apply(w, p, f).marks, Noted(s.mem.lastApplied, p, T.Apply(w, p, f).marks))
  {
    hide T.Apply, T.Ordered;
    EndTells(p, w, f);
  }

  /** Planning and announcing mark nothing. */
  lemma ToldMarksNothing(s: Store, e: Event)
    requires e.Told?
    ensures Carries(s.mem, Do(s, e).mem, [], s.mem.lastApplied)
  {
  }

  lemma {:induction false} PlanningMarksNothing(s: Store, es: seq<Event>)
    requires Evaluations(es)
    ensures Carries(s.mem, Play(s, es).mem, [], s.mem.lastApplied)
    decreases |es|
  {
    PlanningKeepsBlacklist(s, es);
    PlanningKeepsApplied(s, es);
  }

  lemma {:induction false} PlanningKeepsApplied(s: Store, es: seq<Event>)
    requires Evaluations(es)
    ensures Play(s, es).mem.lastApplied == s.mem.lastApplied
    decreases |es|
  {
    if es != [] {
      var n := |es| - 1;
      assert es[n] in es && forall e :: e in es[..n] ==> e in es;
      PlanningKeepsApplied(s, es[..n]);
      EvaluatedStep(Play(s, es[..n]), es[n]);
    }
  }

  // ----- what the daemon sends

  /** The daemon's own notices. */
  datatype Message =
    | Upcoming(name: string, digest: string)
    | Available(name: string, digest: string)
    | Failed(name: string, digest: string)

  /** What an act sends: a failed update always, an announcement the first time. */
  function MessageOf(b: Book, e: Event): seq<Message> {
    match e
    case Tried(a, end, _) => if end == Succeeded then [] else [Failed(a.target.name, a.available)]
    case Told(a, _) =>
      if Flag(b.notified, KeyOf(a.target.name, a.available)) then []
      else if a.action == Soaking then [Upcoming(a.target.name, a.available)]
      else [Available(a.target.name, a.available)]
    case _ => []
  }

  function Messages(s: Store, es: seq<Event>): seq<Message>
    decreases |es|
  {
    if es == [] then []
    else
      var n := |es| - 1;
      Messages(s, es[..n]) + MessageOf(Play(s, es[..n]).mem, es[n])
  }

  lemma {:induction false} MessagesSnoc(s: Store, es: seq<Event>, e: Event)
    ensures Messages(s, es + [e]) == Messages(s, es) + MessageOf(Play(s, es).mem, e)
  {
    hide Play, MessageOf;
    assert (es + [e])[..|es|] == es;
  }

  /** With successful saves, a soaking or monitored update is announced exactly the first
      time its container and digest come up, over any history with restarts. */
  lemma {:induction false} AnnouncedTheFirstTime(es: seq<Event>, j: int)
    requires SlashFree(es) && 0 <= j < |es| && es[j].Told? && Durable(OpsOf(es[..j]))
    ensures var a := es[j].a;
            MessageOf(Play(FRESH, es[..j]).mem, es[j]) != [] <==>
              forall i :: 0 <= i < j && es[i].Told? ==> !(es[i].a.target.name == a.target.name && es[i].a.available == a.available)
    ensures var a, m := es[j].a, MessageOf(Play(FRESH, es[..j]).mem, es[j]);
            && (m != [] && a.action == Soaking ==> m == [Upcoming(a.target.name, a.available)])
            && (m != [] && a.action == Monitor ==> m == [Available(a.target.name, a.available)])
  {
    hide Play, OpsOf, KeyOf, After;
    var before, c, d := es[..j], es[j].a.target.name, es[j].a.available;
    assert NoSlash(c) by { assert PlanRuns.Plain(es[j]); }
    assert SlashFree(before) by { assert forall i :: 0 <= i < j ==> PlanRuns.Plain(es[i]); }
    OpsSlashless(before);
    PlayIsAfter(FRESH, before);
    var ops := OpsOf(before);
    NotifiedIff(ops, c, d);
    if k :| 0 <= k < |ops| && ops[k].Announce? && ops[k].container == c && ops[k].digest == d {
      OpHasEvent(before, ops[k]);
      var i :| 0 <= i < |before| && OpOf(before[i]) == [ops[k]];
      assert es[i].Told? && es[i].a.target.name == c && es[i].a.available == d;
    }
    if i :| 0 <= i < j && es[i].Told? && es[i].a.target.name == c && es[i].a.available == d {
      assert before[i] == es[i];
      EventHasOp(before, i);
    }
  }

  lemma {:induction false} EventHasOp(es: seq<Event>, i: int)
    requires 0 <= i < |es| && es[i].Told?
    ensures exists k :: 0 <= k < |OpsOf(es)| && OpsOf(es)[k].Announce?
                        && OpsOf(es)[k].container == es[i].a.target.name && OpsOf(es)[k].digest == es[i].a.available
    decreases |es|
  {
    var n := |es| - 1;
    var ops := OpsOf(es[..n]);
    if i == n {
      assert OpsOf(es)[|ops|] == OpOf(es[n])[0];
    } else {
      EventHasOp(es[..n], i);
      var k :| 0 <= k < |ops| && ops[k].Announce? && ops[k].container == es[i].a.target.name && ops[k].digest == es[i].a.available;
      assert OpsOf(es)[k] == ops[k];
    }
  }

  // ----- the log and the host

  /** The attempts among the acts of a cycle. */
  function Attempts(acts: seq<Event>): seq<Event> {
    if acts == [] then []
    else
      var n := |acts| - 1;
      Attempts(acts[..n]) + (if acts[n].Tried? then [acts[n]] else [])
  }

  /** The attempt is this update of this host, ended as it did. */
  ghost predicate Books(e: Event, w: World, u: (T.Plan, T.Fates))
    requires T.Ordered(u.0, u.1)
  {
    && e.Tried? && e.a.target.id == u.0.id && e.a.target.name == Render(u.0.name)
    && e.a.available == u.0.available && e.end == EndOf(T.Apply(w, u.0, u.1).err)
  }

  /** The attempts are the updates, one for one and in order. */
  ghost predicate Matches(w: World, us: seq<(T.Plan, T.Fates)>, tries: seq<Event>)
    requires Recovery.AllOrdered(us)
    decreases |us|
  {
    && |us| == |tries|
    && (us != [] ==> Books(tries[0], w, us[0]) && Matches(T.Apply(w, us[0].0, us[0].1).world, us[1..], tries[1..]))
  }

  lemma {:induction false} MatchesSnoc(w: World, us: seq<(T.Plan, T.Fates)>, tries: seq<Event>, u: (T.Plan, T.Fates), e: Event)
    requires Recovery.AllOrdered(us) && T.Ordered(u.0, u.1) && Matches(w, us, tries)
    requires Books(e, Recovery.Updates(w, us), u)
    ensures Recovery.AllOrdered(us + [u]) && Matches(w, us + [u], tries + [e])
    decreases |us|
  {
    hide T.Apply, T.Ordered, Books;
    if us == [] {
      assert [] + [u] == [u] && [u][1..] == [] && tries + [e] == [e] && [e][1..] == [];
    } else {
      assert (us + [u])[1..] == us[1..] + [u] && (tries + [e])[1..] == tries[1..] + [e];
      MatchesSnoc(T.Apply(w, us[0].0, us[0].1).world, us[1..], tries[1..], u, e);
    }
  }

  /** The event is an attempt at this plan. */
  predicate Attempt(e: Event, p: T.Plan) {
    e.Tried? && e.a.target.id == p.id && e.a.target.name == Render(p.name) && e.a.available == p.available
  }

  /** The cycle applied this plan. */
  ghost predicate Applies(g: Segment, p: T.Plan) {
    g.Cycle? && exists x :: 0 <= x < |g.acts| && Attempt(g.acts[x], p)
  }

  /** What matches is what the cycle applied. */
  lemma {:induction false} MatchedIsApplied(w: World, us: seq<(T.Plan, T.Fates)>, g: Segment, u: (T.Plan, T.Fates))
    requires g.Cycle? && Recovery.AllOrdered(us) && Matches(w, us, Attempts(g.acts)) && u in us
    ensures Applies(g, u.0)
  {
    EachIsTried(w, us, Attempts(g.acts), u);
    var e :| e in Attempts(g.acts) && Attempt(e, u.0);
    AttemptsAreActs(g.acts, e);
  }

  lemma {:induction false} EachIsTried(w: World, us: seq<(T.Plan, T.Fates)>, tries: seq<Event>, u: (T.Plan, T.Fates))
    requires Recovery.AllOrdered(us) && Matches(w, us, tries) && u in us
    ensures exists e :: e in tries && Attempt(e, u.0)
    decreases |us|
  {
    hide T.Apply, T.Ordered;
    if us[0] == u {
      assert tries[0] in tries && Attempt(tries[0], u.0);
    } else {
      EachIsTried(T.Apply(w, us[0].0, us[0].1).world, us[1..], tries[1..], u);
      var e :| e in tries[1..] && Attempt(e, u.0);
      assert e in tries;
    }
  }

  lemma {:induction false} AttemptsAreActs(acts: seq<Event>, e: Event)
    requires e in Attempts(acts)
    ensures e in acts && e.Tried?
  {
    var n := |acts| - 1;
    if e in Attempts(acts[..n]) {
      AttemptsAreActs(acts[..n], e);
    }
  }

  lemma {:induction false} AttemptsSnoc(acts: seq<Event>, e: Event)
    ensures Attempts(acts + [e]) == Attempts(acts) + (if e.Tried? then [e] else [])
  {
    assert (acts + [e])[..|acts|] == acts;
  }

  lemma {:induction false} ActsSnoc(plans: seq<Assessment>, acts: seq<Event>, a: Assessment, e: Event)
    requires ActsFor(plans, acts)
    ensures CallsForAct(a) && ActsOn(e, a) ==> ActsFor(plans + [a], acts + [e])
    ensures !CallsForAct(a) ==> ActsFor(plans + [a], acts)
  {
    assert (plans + [a])[..|plans|] == plans;
  }

  lemma {:induction false} FlatPrefix(hs: seq<Segment>, n: nat)
    requires n <= |hs|
    ensures |Flat(hs[..n])| <= |Flat(hs)| && Flat(hs)[..|Flat(hs[..n])|] == Flat(hs[..n])
    decreases |hs|
  {
    if n == |hs| {
      assert hs[..n] == hs;
    } else {
      FlatPrefix(hs[..|hs| - 1], n);
      assert hs[..|hs| - 1][..n] == hs[..n];
    }
  }

  lemma {:induction false} ChroniclePrefix(hs: seq<Segment>, n: nat)
    requires n <= |hs| && Chronicle(hs)
    ensures Chronicle(hs[..n])
    decreases |hs|
  {
    hide Reached, Complete;
    if n == |hs| {
      assert hs[..n] == hs;
    } else {
      ChroniclePrefix(hs[..|hs| - 1], n);
      assert hs[..|hs| - 1][..n] == hs[..n];
    }
  }

  /** The events of the `n`-th segment in the log. */
  lemma {:induction false} InLog(hs: seq<Segment>, n: nat, x: nat)
    requires n < |hs| && x < |EventsOf(hs[n])|
    ensures |Flat(hs[..n])| + x < |Flat(hs[..n + 1])| <= |Flat(hs)|
    ensures Flat(hs)[|Flat(hs[..n])| + x] == EventsOf(hs[n])[x]
  {
    hide Flat, EventsOf;
    FlatPrefix(hs, n + 1);
    FlatSnoc(hs, n);
    var to, at := |Flat(hs[..n + 1])|, |Flat(hs[..n])| + x;
    assert Flat(hs)[at] == Flat(hs)[..to][at];
  }

  lemma {:induction false} FlatSnoc(hs: seq<Segment>, n: nat)
    requires n < |hs|
    ensures Flat(hs[..n + 1]) == Flat(hs[..n]) + EventsOf(hs[n])
  {
    hide EventsOf;
    assert hs[..n + 1][..n] == hs[..n];
  }

  /** Where in the log an update applied by the `n`-th cycle was tried. */
  lemma {:induction false} UpdateInLog(hs: seq<Segment>, n: nat, p: T.Plan) returns (j: int)
    requires n < |hs| && Applies(hs[n], p)
    ensures |Flat(hs[..n])| < j < |Flat(hs[..n + 1])| <= |Flat(hs)| && Attempt(Flat(hs)[j], p)
    ensures Flat(hs)[|Flat(hs[..n])|].Begins?
  {
    hide Flat;
    var g := hs[n];
    var x :| 0 <= x < |g.acts| && Attempt(g.acts[x], p);
    var y := 1 + |g.es| + x;
    assert EventsOf(g)[y] == g.acts[x];
    InLog(hs, n, 0);
    InLog(hs, n, y);
    j := |Flat(hs[..n])| + y;
  }

  /** Soak safety of the host. Every update that a cycle of the history applies, to
      whatever end, is to a digest that was really observed upstream of that
      container at least its effective soak before the evaluation that planned it. */
  lemma {:induction false} AppliedWasSoaked(hs: seq<Segment>, n: nat, p: T.Plan, log: seq<Event>) returns (i: int, k: int)
    requires n < |hs| && Chronicle(hs) && log == Flat(hs) && SlashFree(log) && Applies(hs[n], p)
    ensures 0 <= i <= k < |log| && |Flat(hs[..n])| < k < |Flat(hs[..n + 1])| && log[k].Evaluated?
    ensures log[k].a.target.id == p.id && log[k].a.available == p.available
    ensures Observes(log[i], Render(p.name), p.available)
    ensures log[k].later - log[i].now >= SoakOf(log[k].cfg, log[k].a.target)
  {
    hide SoundFrom, SlashFree, Chronicle, Flat, SoakOf;
    ChronicleWellFormed(hs);
    var j := UpdateInLog(hs, n, p);
    k :| PlannedInCycle(log, j, k);
    assert k > |Flat(hs[..n])|;
    SoakSafety(log, k);
    i :| Aged(log, i, k);
  }

  /** Blacklist safety of the host. No cycle of the history applies a digest that an
      earlier cycle rejected on any container, as long as the rejection is kept. */
  lemma {:induction false} RejectedIsNotApplied(hs: seq<Segment>, n: nat, p: T.Plan, before: seq<Event>, r: int, d: string)
    requires n < |hs| && Chronicle(hs) && before == Flat(hs[..n]) && Applies(hs[n], p)
    requires 0 <= r < |before| && Blacklist.Rejects(before[r], d) && Blacklist.Kept(before, r)
    ensures p.available != d
  {
    hide SoundFrom, Blacklist.Kept, Chronicle, Flat;
    var log := Flat(hs);
    ChronicleWellFormed(hs);
    var j := UpdateInLog(hs, n, p);
    var k :| PlannedInCycle(log, j, k);
    FlatPrefix(hs, n);
    assert log[r] == log[..|before|][r];
    KeptToPlan(hs, n, r, k);
    Blacklist.BlacklistedNeverRetried(log, r, |before|, j, k, d);
  }

  /** Planning restarts nothing, so what was kept before the cycle still is. */
  lemma {:induction false} KeptToPlan(hs: seq<Segment>, n: nat, r: int, k: int)
    requires n < |hs| && Chronicle(hs) && hs[n].Cycle?
    requires 0 <= r < |Flat(hs[..n])| < k <= |Flat(hs[..n + 1])| <= |Flat(hs)| && Blacklist.Kept(Flat(hs[..n]), r)
    ensures Blacklist.Kept(Flat(hs)[..k], r)
  {
    hide Blacklist.Kept, Chronicle, Flat, EventsOf;
    var before, events := Flat(hs[..n]), EventsOf(hs[n]);
    NoRestartIn(hs, n);
    LogUpTo(hs, n, k);
    var more := events[..k - |before|];
    assert forall e :: e in more ==> e in events;
    Blacklist.KeptAlong(before, more, r);
  }

  lemma {:induction false} LogUpTo(hs: seq<Segment>, n: nat, k: int)
    requires n < |hs| && |Flat(hs[..n])| <= k <= |Flat(hs[..n + 1])| <= |Flat(hs)|
    ensures k - |Flat(hs[..n])| <= |EventsOf(hs[n])|
    ensures Flat(hs)[..k] == Flat(hs[..n]) + EventsOf(hs[n])[..k - |Flat(hs[..n])|]
  {
    hide EventsOf, Flat;
    FlatPrefix(hs, n + 1);
    FlatSnoc(hs, n);
    assert Flat(hs)[..k] == Flat(hs)[..|Flat(hs[..n + 1])|][..k];
  }

  lemma {:induction false} NoRestartIn(hs: seq<Segment>, n: nat)
    requires n < |hs| && Chronicle(hs) && hs[n].Cycle?
    ensures forall e :: e in EventsOf(hs[n]) ==> !e.Restarted?
  {
    hide SoundFrom, Play, PlansOf, Acted, EventsOf;
    assert hs[..n + 1][..n] == hs[..n];
    ChroniclePrefix(hs, n + 1);
    var m: nat :| Reached(Play(FRESH, Flat(hs[..n])), hs[n], m);
    CycleHasNoRestart(hs[n], PlansOf(hs[n])[..m]);
  }

  lemma {:induction false} CycleHasNoRestart(g: Segment, plans: seq<Assessment>)
    requires g.Cycle? && Evaluations(g.es) && ActsFor(plans, g.acts)
    ensures forall e :: e in EventsOf(g) ==> !e.Restarted?
  {
    hide Acted;
    assert forall x :: 0 <= x < |g.acts| ==> ActsOn(g.acts[x], Acted(plans)[x]);
  }

  // ----- the daemon

  class Daemon {
    const engine: T.Engine
    const st: State
    const cfg: Config
    var sent: seq<Message>
    ghost var history: seq<Segment>

    ghost predicate Valid()
      reads this, st, engine, engine.cli
    {
      Resting(history) && st.Snapshot() == Play(FRESH, Flat(history)) && Wf(engine.cli.world)
    }

    constructor (engine: T.Engine, st: State, cfg: Config)
      requires Wf(engine.cli.world) && st.Snapshot() == FRESH
      ensures this.engine == engine && this.st == st && this.cfg == cfg
      ensures history == [] && sent == [] && Valid()
    {
      this.engine, this.st, this.cfg := engine, st, cfg;
      history, sent := [], [];
      new;
      PlayNothing(FRESH);
    }

    /** A new process after a crash or a shutdown: it knows what the file holds. */
    constructor Restart(engine: T.Engine, file: Book, cfg: Config, ghost before: seq<Segment>)
      requires Wf(engine.cli.world) && Chronicle(before) && Play(FRESH, Flat(before)).disk == file
      ensures this.engine == engine && this.cfg == cfg && st.Mem() == file
      ensures history == before + [Reboot] && sent == [] && Valid()
    {
      this.engine, this.cfg := engine, cfg;
      st := new State.Load(file);
      history, sent := before + [Reboot], [];
      new;
      ChronicleReboots(before);
      PlayExtend(FRESH, Flat(before), Restarted);
      RestartReads(Play(FRESH, Flat(before)));
    }

    /** The container list of `discover`, in whatever order the host gives it. */
    method Candidates(l: Labels) returns (list: seq<Candidate>)
      requires Wf(engine.cli.world)
      ensures forall c :: c in list ==> c.target.id in engine.cli.world.cs && c.target == TargetOf(engine.cli.world, c.target.id, l)
      ensures forall i :: i in engine.cli.world.cs ==> exists c :: c in list && c.target.id == i
      ensures forall c :: c in list ==> c.project == l.project(c.target.id)
      ensures forall i, j :: 0 <= i < j < |list| ==> list[i].target.id != list[j].target.id
    {
      var w := engine.cli.world;
      var ids := RangeOrder(w.cs.Keys);
      list := [];
      for k := 0 to |ids|
        invariant |list| == k
        invariant forall j :: 0 <= j < k ==> ids[j] in w.cs && list[j].target == TargetOf(w, ids[j], l) && list[j].project == l.project(ids[j])
      {
        var ok: bool := *;
        assert ids[k] in w.cs.Keys;
        list := list + [Candidate(TargetOf(w, ids[k], l), l.project(ids[k]), ok)];
      }
      forall i | i in w.cs ensures exists c :: c in list && c.target.id == i {
        assert i in ids;
        var k :| 0 <= k < |ids| && ids[k] == i;
        assert list[k] in list && list[k].target.id == i;
      }
    }

    /** Tries one planned update and books the result. */
    method TryUpdate(a: Assessment, p: T.Plan, gate: HG.Timeline) returns (ghost f: T.Fates, ghost e: Event)
      requires Wf(engine.cli.world) && HG.Ticked(gate)
      requires a.target.id == p.id && a.target.name == Render(p.name) && a.available == p.available
      modifies this`sent, st, engine, engine.cli
      ensures T.Ordered(p, f) && f.gate == gate && Books(e, old(engine.cli.world), (p, f)) && e.a == a
      ensures st.Snapshot() == Do(old(st.Snapshot()), e) && sent == old(sent) + MessageOf(old(st.Mem()), e)
      ensures var r := T.Apply(old(engine.cli.world), p, f);
              && engine.marks == old(engine.marks) + r.marks && engine.notices == old(engine.notices) + r.notices
              && Carries(old(st.Mem()), st.Mem(), r.marks, Noted(old(st.Mem()).lastApplied, p, r.marks))
      ensures O.Faithful(old(engine.cli.world), p) ==>
                forall d :: Flag(st.Mem().badDigests, d) <==>
                  || Flag(old(st.Mem()).badDigests, d)
                  || (d == p.available && Safety.AtGate(old(engine.cli.world), p, f)
                      && exists n: nat :: HG.Condemned(gate, p.timeout, n))
      ensures engine.cli.world == T.Apply(old(engine.cli.world), p, f).world && Wf(engine.cli.world)
    {
      hide T.Apply, T.Ordered, O.Faithful, Safety.AtGate, HG.Condemned;
      ghost var w, s := engine.cli.world, st.Snapshot();
      var err;
      err, f := engine.DoApply(p, gate);
      Safety.ApplyKeepsWf(w, p, f);
      ghost var saved := false;
      if err.None? {
        saved := st.DoMarkApplied(a.target.name, a.available);
      } else if err == Some(T.GateFailed(false)) {
        saved := st.DoMarkBad(a.available);
      }
      if err.Some? { sent := sent + [Failed(a.target.name, a.available)]; }
      e := Tried(a, EndOf(err), saved);
      BookedMarks(s, e, w, p, f);
      if O.Faithful(w, p) {
        forall d ensures T.MarkBad(d) in T.Apply(w, p, f).marks <==>
                           d == p.available && Safety.AtGate(w, p, f) && exists n: nat :: HG.Condemned(gate, p.timeout, n)
        {
          Safety.BlacklistedIffCondemned(w, p, f, d);
        }
      }
    }

    /** Announces a soaking or monitor-only update once. */
    method Announce(a: Assessment) returns (ghost e: Event)
      requires a.action in {Soaking, Monitor}
      modifies this`sent, st
      ensures e.Told? && e.a == a && st.Snapshot() == Do(old(st.Snapshot()), e)
      ensures sent == old(sent) + MessageOf(old(st.Mem()), e)
    {
      ghost var saved;
      var first;
      first, saved := st.DoFirstNotify(a.target.name, a.available);
      if first {
        sent := sent + [if a.action == Soaking then Upcoming(a.target.name, a.available) else Available(a.target.name, a.available)];
      }
      e := Told(a, saved);
    }

    /** The whole cycle. `listing` is what listing the containers gives (or `None`
        if it fails), `gates` what the health gates will see. The ghost results are
        the cycle as the host and as the log see it: what the log tries is, one for
        one and in order, what is applied to the host. */
    method Run(listing: Option<seq<T.Listed>>, l: Labels, reg: Registry, clock: nat -> int, gates: Id -> HG.Timeline)
      returns (ghost c: Recovery.Cycle, ghost g: Segment, ghost seen: set<Id>)
      requires Valid() && forall i :: HG.Ticked(gates(i))
      requires listing.Some? ==> T.Lists(listing.value, engine.cli.world)
      modifies this, st, engine, engine.cli
      ensures Valid() && g.Cycle? && history == old(history) + [g]
      ensures c.listing == listing && Recovery.ValidCycle(old(engine.cli.world), c)
      ensures engine.cli.world == Recovery.RunCycle(old(engine.cli.world), c)
      ensures Matches(Recovery.Healed(old(engine.cli.world), c), c.updates, Attempts(g.acts))
      ensures var w := Recovery.Healed(old(engine.cli.world), c);
              && (forall u :: u in c.updates ==> Applies(g, u.0) && u.1.gate == gates(u.0.id) && Inspects(u.0, w, l))
              && Surveys(g.es, w, l, cfg, seen) && ReadAt(g.es, cfg, reg, clock)
              && engine.marks == old(engine.marks) + MarksOf(w, c.updates)
              && engine.notices == old(engine.notices) + NoticesOf(w, c.updates)
              && Carries(old(st.Mem()), st.Mem(), MarksOf(w, c.updates), AppliedBy(old(st.Mem()).lastApplied, w, c.updates))
              && (forall d :: Flag(st.Mem().badDigests, d) <==> Flag(old(st.Mem()).badDigests, d) || Condemns(w, c.updates, d))
      ensures sent == old(sent) + Messages(Play(old(st.Snapshot()), g.es), g.acts)
    {
      hide Play, Messages, MarksOf, NoticesOf, AppliedBy, Carries, Condemns, Surveys, Inspects, ReadAt, Chronicle, Complete, T.Apply, T.Ordered, T.Reconcile, T.Lists, Sorting.StableSort, Matches;
      c := Recovery.Cycle(listing, Recovery.ACCEPT_ALL, []);
      if listing.Some? {
        ghost var f := engine.ReconcileOrphans(listing.value);
        c := c.(heal := f);
        Recovery.ReconcileKeepsWf(old(engine.cli.world), listing.value, f);
      }
      ghost var us, es, acts;
      us, es, acts, seen := PlanAndApply(l, reg, clock, gates);
      c := c.(updates := us);
      g := Cycle(es, acts);
      GainsCondemned(old(st.Mem()), st.Mem(), Recovery.Healed(old(engine.cli.world), c), us);
      forall u | u in us ensures Applies(g, u.0) {
        MatchedIsApplied(Recovery.Healed(old(engine.cli.world), c), us, g, u);
      }
      CycleEnds(history, g);
      history := history + [g];
    }

    method PlanAndApply(l: Labels, reg: Registry, clock: nat -> int, gates: Id -> HG.Timeline)
      returns (ghost us: seq<(T.Plan, T.Fates)>, ghost es: seq<Event>, ghost acts: seq<Event>, ghost seen: set<Id>)
      requires Wf(engine.cli.world) && forall i :: HG.Ticked(gates(i))
      modifies this`sent, st, engine, engine.cli
      ensures Wf(engine.cli.world) && Complete(old(st.Snapshot()), Cycle(es, acts))
      ensures st.Snapshot() == Play(Play(old(st.Snapshot()), es), acts)
      ensures Recovery.Planned(old(engine.cli.world), us)
      ensures engine.cli.world == Recovery.Updates(old(engine.cli.world), us)
      ensures Matches(old(engine.cli.world), us, Attempts(acts))
      ensures forall u :: u in us ==> u.1.gate == gates(u.0.id) && Inspects(u.0, old(engine.cli.world), l)
      ensures Surveys(es, old(engine.cli.world), l, cfg, seen) && ReadAt(es, cfg, reg, clock)
      ensures var w := old(engine.cli.world);
              && engine.marks == old(engine.marks) + MarksOf(w, us) && engine.notices == old(engine.notices) + NoticesOf(w, us)
              && Carries(old(st.Mem()), st.Mem(), MarksOf(w, us), AppliedBy(old(st.Mem()).lastApplied, w, us))
      ensures sent == old(sent) + Messages(Play(old(st.Snapshot()), es), acts)
    {
      hide Play, T.Apply, T.Ordered, Inspects, Surveys, Carries, Evaluations, ActsFor, SoundFrom, Fresh, ReadAt,
           Messages, MarksOf, NoticesOf, AppliedBy, Matches, O.Faithful, Recovery.Updates, Sorting.StableSort, Results;
      us, es, acts, seen := [], [], [], {};
      ghost var s := st.Snapshot();
      NothingSurveyed(engine.cli.world, l, cfg, s.mem);
      assert ReadAt([], cfg, reg, clock) by { NothingRead(cfg, reg, clock); }
      NothingMarked(s, engine.cli.world);
      StartOfPlans(engine.cli.world);
      PlayNothing(st.Snapshot());
      NothingPlanned(st.Snapshot());
      var listed: bool := *;
      if listed {
        var plans;
        plans, es, seen := MakePlans(l, reg, clock);
        us, acts := ActOnPlans(plans, l, gates);
        AfterPlanning(s, es, st.Mem(), MarksOf(old(engine.cli.world), us), AppliedBy(Play(s, es).mem.lastApplied, old(engine.cli.world), us));
        AppliedSame(s, es);
      }
    }

    /** Discovers, evaluates and sorts; records the evaluations. */
    method MakePlans(l: Labels, reg: Registry, clock: nat -> int)
      returns (plans: seq<Assessment>, ghost es: seq<Event>, ghost seen: set<Id>)
      requires Wf(engine.cli.world)
      modifies st
      ensures Evaluations(es) && SoundFrom(old(st.Snapshot()), es) && st.Snapshot() == Play(old(st.Snapshot()), es)
      ensures plans == Sorting.StableSort(Results(es), PlanKey)
      ensures Fresh(plans, engine.cli.world, l)
      ensures Surveys(es, engine.cli.world, l, cfg, seen) && ReadAt(es, cfg, reg, clock)
    {
      hide Play, Sorting.StableSort, Assess, ReadAt, Eligible, InScope;
      var candidates := Candidates(l);
      var targets := Discover(cfg, candidates);
      plans, es := BuildPlan(cfg, reg, clock, st, targets, true);
      PlansDistinct(es, targets, true);
      seen := set c | c in candidates && c.inspected :: c.target.id;
      SurveyIsComplete(es, targets, candidates, engine.cli.world, l, cfg, seen);
    }

    /** Acts on the plans in order; all were made before the first is applied. */
    method ActOnPlans(plans: seq<Assessment>, l: Labels, gates: Id -> HG.Timeline)
      returns (ghost us: seq<(T.Plan, T.Fates)>, ghost acts: seq<Event>)
      requires Wf(engine.cli.world) && forall i :: HG.Ticked(gates(i))
      requires Fresh(plans, engine.cli.world, l)
      modifies this`sent, st, engine, engine.cli
      ensures Wf(engine.cli.world) && ActsFor(plans, acts) && st.Snapshot() == Play(old(st.Snapshot()), acts)
      ensures Recovery.Planned(old(engine.cli.world), us)
      ensures engine.cli.world == Recovery.Updates(old(engine.cli.world), us)
      ensures Matches(old(engine.cli.world), us, Attempts(acts))
      ensures forall u :: u in us ==> u.1.gate == gates(u.0.id) && Inspects(u.0, old(engine.cli.world), l)
      ensures var w := old(engine.cli.world);
              && engine.marks == old(engine.marks) + MarksOf(w, us) && engine.notices == old(engine.notices) + NoticesOf(w, us)
              && Carries(old(st.Mem()), st.Mem(), MarksOf(w, us), AppliedBy(old(st.Mem()).lastApplied, w, us))
      ensures sent == old(sent) + Messages(old(st.Snapshot()), acts)
    {
      hide Going, Proper, Messages, MessageOf, MarksOf, NoticesOf, Noted, Carries, Inspects, Safety.AtGate, HG.Condemned, Play, Do,
           ActsFor, T.Apply, T.Ordered, Recovery.Planned, Recovery.Updates, O.Faithful, Inspected, TargetOf, Matches, Books;
      us, acts := [], [];
      var w := engine.cli.world;
      ghost var s := st.Snapshot();
      StartOfPlans(w);
      NothingMarked(s, w);
      Starting(w, s);
      StartProper(w, l, gates);
      for i := 0 to |plans|
        invariant Recovery.AllOrdered(us) && Going(w, s, plans[..i], us, acts, engine.cli.world, st.Snapshot())
        invariant Wf(engine.cli.world) && Proper(us, w, l, gates, plans[..i])
        invariant engine.marks == old(engine.marks) + MarksOf(w, us) && engine.notices == old(engine.notices) + NoticesOf(w, us)
        invariant sent == old(sent) + Messages(s, acts)
      {
        assert plans[i] in plans && plans[..i + 1] == plans[..i] + [plans[i]];
        us, acts := ActOn(plans[i], w, l, gates, s, plans[..i], us, acts, old(engine.marks), old(engine.notices), old(sent));
      }
      assert plans[..|plans|] == plans;
      GoingPlays(w, s, plans, us, acts, engine.cli.world, st.Snapshot());
      ProperMeans(us, w, l, gates, plans);
    }

    /** Acts on one plan: updates, announces, or leaves it. */
    method ActOn(a: Assessment, w: World, l: Labels, gates: Id -> HG.Timeline, ghost s: Store, ghost done: seq<Assessment>,
                 ghost us: Tries, ghost acts: seq<Event>, ghost marks: seq<T.Mark>, ghost notices: seq<T.Notice>, ghost messages: seq<Message>)
      returns (ghost us': Tries, ghost acts': seq<Event>)
      requires Wf(engine.cli.world) && Wf(w) && (forall i :: HG.Ticked(gates(i))) && Describes(a.target, w, l)
      requires Recovery.AllOrdered(us) && Going(w, s, done, us, acts, engine.cli.world, st.Snapshot()) && Proper(us, w, l, gates, done)
      requires forall x :: x in done ==> x.target.id != a.target.id
      requires engine.marks == marks + MarksOf(w, us) && engine.notices == notices + NoticesOf(w, us) && sent == messages + Messages(s, acts)
      modifies this`sent, st, engine, engine.cli
      ensures Wf(engine.cli.world) && Recovery.AllOrdered(us') && Going(w, s, done + [a], us', acts', engine.cli.world, st.Snapshot())
      ensures Proper(us', w, l, gates, done + [a])
      ensures engine.marks == marks + MarksOf(w, us') && engine.notices == notices + NoticesOf(w, us') && sent == messages + Messages(s, acts')
    {
      hide Going, Proper, Messages, MessageOf, MarksOf, NoticesOf, Noted, Carries, Inspects, Safety.AtGate, HG.Condemned, Play, Do,
           ActsFor, T.Apply, T.Ordered, O.Faithful, Inspected, TargetOf, Books;
      us', acts' := us, acts;
      ghost var world, m := engine.cli.world, st.Snapshot();
      GoingPlays(w, s, done, us, acts, world, m);
      MoreProper(us, w, l, gates, done, a);
      if a.action == Update {
        var p := Inspected(w, a.target.id, l).(available := a.available);
        InspectedIsFaithful(w, a.target.id, l, a.available);
        InspectsIt(w, a.target.id, l, a.available);
        ghost var f, e;
        f, e := TryUpdate(a, p, gates(a.target.id));
        ProperUpdate(us, w, l, gates, done, a, p, f);
        GoesOnUpdating(w, s, done, us, acts, world, m, a, p, f, e, st.Snapshot());
        MessagesSnoc(s, acts, e);
        us', acts' := us + [(p, f)], acts + [e];
      } else if a.action in {Soaking, Monitor} {
        ghost var e := Announce(a);
        GoesOnTelling(w, s, done, us, acts, world, m, a, e, st.Snapshot());
        MessagesSnoc(s, acts, e);
        acts' := acts + [e];
      } else {
        GoesOn(w, s, done, us, acts, world, m, a);
      }
    }
  }

  /** The updates are of inspected containers with their own gates, each planned in `done`. */
  ghost predicate Proper(us: Tries, w: World, l: Labels, gates: Id -> HG.Timeline, done: seq<Assessment>) {
    forall u :: u in us ==>
      u.1.gate == gates(u.0.id) && Inspects(u.0, w, l) && exists a :: a in done && a.target.id == u.0.id
  }

  lemma StartProper(w: World, l: Labels, gates: Id -> HG.Timeline)
    ensures Proper([], w, l, gates, [])
  {
  }

  lemma ProperMeans(us: Tries, w: World, l: Labels, gates: Id -> HG.Timeline, done: seq<Assessment>)
    requires Proper(us, w, l, gates, done)
    ensures forall u :: u in us ==> u.1.gate == gates(u.0.id) && Inspects(u.0, w, l)
  {
  }

  lemma MoreProper(us: Tries, w: World, l: Labels, gates: Id -> HG.Timeline, done: seq<Assessment>, a: Assessment)
    requires Proper(us, w, l, gates, done) && forall x :: x in done ==> x.target.id != a.target.id
    ensures Proper(us, w, l, gates, done + [a]) && forall u :: u in us ==> u.0.id != a.target.id
  {
    hide Inspects;
  }

  lemma ProperUpdate(us: Tries, w: World, l: Labels, gates: Id -> HG.Timeline, done: seq<Assessment>, a: Assessment, p: T.Plan, f: T.Fates)
    requires Proper(us, w, l, gates, done + [a]) && p.id == a.target.id && Inspects(p, w, l) && f.gate == gates(p.id)
    ensures Proper(us + [(p, f)], w, l, gates, done + [a])
  {
    hide Inspects;
    assert a in done + [a];
  }

  /** The cycle has acted on the plans `done`, with these updates and acts. */
  ghost predicate Going(w: World, s: Store, done: seq<Assessment>, us: Tries, acts: seq<Event>, now: World, m: Store)
    requires Recovery.AllOrdered(us)
  {
    && ActsFor(done, acts) && m == Play(s, acts)
    && Recovery.Planned(w, us) && now == Recovery.Updates(w, us) && Matches(w, us, Attempts(acts))
    && Carries(s.mem, m.mem, MarksOf(w, us), AppliedBy(s.mem.lastApplied, w, us))
  }

  lemma Starting(w: World, s: Store)
    ensures Recovery.AllOrdered([]) && Going(w, s, [], [], [], w, s)
  {
    PlayNothing(s);
    StartOfPlans(w);
    NothingMarked(s, w);
  }

  lemma {:induction false} GoingPlays(w: World, s: Store, done: seq<Assessment>, us: Tries, acts: seq<Event>, now: World, m: Store)
    requires Recovery.AllOrdered(us) && Going(w, s, done, us, acts, now, m)
    ensures ActsFor(done, acts) && m == Play(s, acts)
    ensures Recovery.Planned(w, us) && now == Recovery.Updates(w, us) && Matches(w, us, Attempts(acts))
    ensures Carries(s.mem, m.mem, MarksOf(w, us), AppliedBy(s.mem.lastApplied, w, us))
  {
  }

  lemma {:induction false} GoesOnUpdating(w: World, s: Store, done: seq<Assessment>, us: Tries, acts: seq<Event>, now: World, m: Store,
                                          a: Assessment, p: T.Plan, f: T.Fates, e: Event, m': Store)
    requires Recovery.AllOrdered(us) && Going(w, s, done, us, acts, now, m)
    requires a.action == Update && O.Faithful(w, p) && T.Ordered(p, f) && forall u :: u in us ==> u.0.id != p.id
    requires Books(e, now, (p, f)) && e.a == a && m' == Do(m, e)
    ensures Recovery.AllOrdered(us + [(p, f)])
    ensures Going(w, s, done + [a], us + [(p, f)], acts + [e], T.Apply(now, p, f).world, m')
    ensures MarksOf(w, us + [(p, f)]) == MarksOf(w, us) + T.Apply(now, p, f).marks
    ensures NoticesOf(w, us + [(p, f)]) == NoticesOf(w, us) + T.Apply(now, p, f).notices
  {
    hide Messages, MarksOf, NoticesOf, AppliedBy, Noted, Carries, Play, Do, ActsFor, T.Apply, T.Ordered, Recovery.Planned,
         Recovery.Updates, O.Faithful, Matches, Books;
    assert e.Tried? by { BooksTried(e, now, (p, f)); }
    BookedMarks(m, e, now, p, f);
    MatchesSnoc(w, us, Attempts(acts), (p, f), e);
    PlannedSnoc(w, us, p, f);
    MarksSnoc(w, us, (p, f), s.mem.lastApplied);
    CarriedOn(s.mem, m.mem, m'.mem, MarksOf(w, us), p, T.Apply(now, p, f).marks, AppliedBy(s.mem.lastApplied, w, us));
    ActsSnoc(done, acts, a, e);
    PlayExtend(s, acts, e);
    AttemptsSnoc(acts, e);
  }

  lemma {:induction false} GoesOnTelling(w: World, s: Store, done: seq<Assessment>, us: Tries, acts: seq<Event>, now: World, m: Store,
                                         a: Assessment, e: Event, m': Store)
    requires Recovery.AllOrdered(us) && Going(w, s, done, us, acts, now, m)
    requires a.action in {Soaking, Monitor} && e.Told? && e.a == a && m' == Do(m, e)
    ensures Going(w, s, done + [a], us, acts + [e], now, m')
  {
    hide Messages, MarksOf, AppliedBy, Carries, Play, Do, ActsFor, Recovery.Planned, Recovery.Updates, Matches;
    ToldMarksNothing(m, e);
    CarriedOver(s.mem, m.mem, m'.mem, MarksOf(w, us), AppliedBy(s.mem.lastApplied, w, us));
    ActsSnoc(done, acts, a, e);
    PlayExtend(s, acts, e);
    AttemptsSnoc(acts, e);
    assert Attempts(acts) + [] == Attempts(acts);
  }

  lemma {:induction false} GoesOn(w: World, s: Store, done: seq<Assessment>, us: Tries, acts: seq<Event>, now: World, m: Store, a: Assessment)
    requires Recovery.AllOrdered(us) && Going(w, s, done, us, acts, now, m) && !CallsForAct(a)
    ensures Going(w, s, done + [a], us, acts, now, m)
  {
    hide MarksOf, AppliedBy, Carries, Play, ActsFor, Recovery.Planned, Recovery.Updates, Matches;
    ActsSnoc(done, acts, a, Begins);
  }

  /** The plan is what inspecting its container gives. */
  ghost predicate Inspects(p: T.Plan, w: World, l: Labels) {
    p.id in w.cs && p == Inspected(w, p.id, l).(available := p.available)
  }

  lemma InspectsIt(w: World, i: Id, l: Labels, available: string)
    requires i in w.cs
    ensures Inspects(Inspected(w, i, l).(available := available), w, l)
  {
  }

  /** The evaluations are of exactly the inspected containers of the host that are in
      scope and not opted out. */
  ghost predicate Surveys(es: seq<Event>, w: World, l: Labels, cfg: Config, seen: set<Id>) {
    && Evaluations(es)
    && forall i :: (exists e :: e in es && e.Evaluated? && e.a.target.id == i) <==>
                     && i in w.cs && i in seen && Eligible(cfg, TargetOf(w, i, l))
                     && InScope(cfg, Candidate(TargetOf(w, i, l), l.project(i), true))
  }

  lemma {:induction false} SurveyIsComplete(es: seq<Event>, ts: seq<Target>, list: seq<Candidate>, w: World, l: Labels, cfg: Config, seen: set<Id>)
    requires Evaluates(es, ts, true)
    requires forall t :: t in ts <==> exists c :: c in list && c.target == t && InScope(cfg, c) && c.inspected && Eligible(cfg, t)
    requires forall c :: c in list ==> c.target.id in w.cs && c.target == TargetOf(w, c.target.id, l) && c.project == l.project(c.target.id)
    requires forall i :: i in w.cs ==> exists c :: c in list && c.target.id == i
    requires forall i, j :: 0 <= i < j < |list| ==> list[i].target.id != list[j].target.id
    requires seen == set c | c in list && c.inspected :: c.target.id
    ensures Surveys(es, w, l, cfg, seen)
  {
    hide Eligible, TargetOf;
    forall e | e in es ensures e.Evaluated? && e.record { var k :| 0 <= k < |es| && es[k] == e; }
    forall i ensures (exists e :: e in es && e.Evaluated? && e.a.target.id == i) <==>
                       && i in w.cs && i in seen && Eligible(cfg, TargetOf(w, i, l))
                       && InScope(cfg, Candidate(TargetOf(w, i, l), l.project(i), true))
    {
      if e :| e in es && e.Evaluated? && e.a.target.id == i {
        var k :| 0 <= k < |es| && es[k] == e;
        assert ts[k] in ts;
        var c :| c in list && c.target == ts[k] && InScope(cfg, c) && c.inspected && Eligible(cfg, ts[k]);
        assert c.target.id == i;
      }
      if i in w.cs && i in seen && Eligible(cfg, TargetOf(w, i, l)) && InScope(cfg, Candidate(TargetOf(w, i, l), l.project(i), true)) {
        var c :| c in list && c.inspected && c.target.id == i;
        assert c.target in ts;
        var k :| 0 <= k < |ts| && ts[k] == c.target;
        assert es[k] in es && es[k].a.target.id == i;
      }
    }
  }

  lemma {:induction false} NothingSurveyed(w: World, l: Labels, cfg: Config, b: Book)
    ensures Surveys([], w, l, cfg, {}) && Carries(b, b, [], b.lastApplied)
  {
  }

  lemma {:induction false} NothingRead(cfg: Config, reg: Registry, clock: nat -> int)
    ensures ReadAt([], cfg, reg, clock)
  {
  }

  lemma {:induction false} NothingMarked(s: Store, w: World)
    ensures Recovery.AllOrdered([]) && MarksOf(w, []) == [] && NoticesOf(w, []) == []
    ensures Carries(s.mem, s.mem, MarksOf(w, []), AppliedBy(s.mem.lastApplied, w, []))
    ensures Messages(s, []) == []
  {
  }

  lemma {:induction false} AppliedSame(s: Store, es: seq<Event>)
    requires Evaluations(es)
    ensures Play(s, es).mem.lastApplied == s.mem.lastApplied
  {
    PlanningKeepsApplied(s, es);
  }

  lemma {:induction false} AfterPlanning(s: Store, es: seq<Event>, b: Book, marks: seq<T.Mark>, applied: map<string, string>)
    requires Evaluations(es) && Carries(Play(s, es).mem, b, marks, applied)
    ensures Carries(s.mem, b, marks, applied)
  {
    hide Play;
    PlanningMarksNothing(s, es);
  }

  lemma CarriedOn(b: Book, m: Book, b': Book, marks: seq<T.Mark>, p: T.Plan, more: seq<T.Mark>, applied: map<string, string>)
    requires Carries(b, m, marks, applied) && Carries(m, b', more, Noted(m.lastApplied, p, more))
    ensures Carries(b, b', marks + more, Noted(applied, p, more))
  {
  }

  lemma CarriedOver(b: Book, m: Book, b': Book, marks: seq<T.Mark>, applied: map<string, string>)
    requires Carries(b, m, marks, applied) && Carries(m, b', [], m.lastApplied)
    ensures Carries(b, b', marks, applied)
  {
  }

  lemma {:induction false} GainsCondemned(b: Book, b': Book, w: World, us: Tries)
    requires Recovery.Planned(w, us) && Recovery.AllOrdered(us)
    requires Carries(b, b', MarksOf(w, us), AppliedBy(b.lastApplied, w, us))
    ensures forall d :: Flag(b'.badDigests, d) <==> Flag(b.badDigests, d) || Condemns(w, us, d)
  {
    hide MarksOf, Condemns, AppliedBy, Recovery.Planned;
    forall d ensures T.MarkBad(d) in MarksOf(w, us) <==> Condemns(w, us, d) { MarkedIffCondemned(w, us, d); }
  }

  lemma BooksTried(e: Event, w: World, u: (T.Plan, T.Fates))
    requires T.Ordered(u.0, u.1) && Books(e, w, u)
    ensures e.Tried?
  {
  }

  /** A history after which a new cycle may begin: its last cycle, if any, was not
      cut short. */
  ghost predicate Resting(gs: seq<Segment>) {
    && Chronicle(gs)
    && (gs != [] && gs[|gs| - 1].Cycle? ==> Complete(Play(FRESH, Flat(gs[..|gs| - 1])), gs[|gs| - 1]))
  }

  lemma {:induction false} CycleEnds(gs: seq<Segment>, g: Segment)
    requires Resting(gs) && Complete(Play(FRESH, Flat(gs)), g)
    ensures Resting(gs + [g])
    ensures Play(FRESH, Flat(gs + [g])) == Play(Play(Play(FRESH, Flat(gs)), g.es), g.acts)
  {
    hide Play, Complete, Chronicle;
    assert g.Cycle? by { CompleteIsCycle(Play(FRESH, Flat(gs)), g); }
    ChronicleGrows(gs, g);
    assert (gs + [g])[..|gs|] == gs;
    PlayCycle(Flat(gs), g);
  }

  lemma CompleteIsCycle(s: Store, g: Segment)
    requires Complete(s, g)
    ensures g.Cycle?
  {
  }

  lemma {:induction false} PlayCycle(log: seq<Event>, g: Segment)
    requires g.Cycle?
    ensures Play(FRESH, log + EventsOf(g)) == Play(Play(Play(FRESH, log), g.es), g.acts)
  {
    hide Play, Do;
    assert log + EventsOf(g) == ((log + [Begins]) + g.es) + g.acts;
    PlayConcat(FRESH, (log + [Begins]) + g.es, g.acts);
    PlayConcat(FRESH, log + [Begins], g.es);
    PlayExtend(FRESH, log, Begins);
    BeginsDoesNothing(Play(FRESH, log));
  }

  lemma {:induction false} NothingPlanned(s: Store)
    ensures Complete(s, Cycle([], []))
  {
    assert Results([]) == [];
  }

  lemma {:induction false} StartOfPlans(w: World)
    ensures ActsFor([], []) && Attempts([]) == []
    ensures Recovery.Planned(w, []) && Recovery.AllOrdered([]) && Recovery.Updates(w, []) == w && Matches(w, [], [])
  {
  }

  lemma {:induction false} PlannedSnoc(w: World, us: seq<(T.Plan, T.Fates)>, p: T.Plan, f: T.Fates)
    requires Recovery.Planned(w, us) && O.Faithful(w, p) && T.Ordered(p, f)
    requires forall u :: u in us ==> u.0.id != p.id
    ensures Recovery.Planned(w, us + [(p, f)]) && Recovery.AllOrdered(us + [(p, f)])
    ensures Recovery.Updates(w, us + [(p, f)]) == T.Apply(Recovery.Updates(w, us), p, f).world
  {
    hide T.Apply, T.Ordered, O.Faithful;
    UpdatesSnoc(w, us, (p, f));
    var vs := us + [(p, f)];
    forall i, j | 0 <= i < j < |vs| ensures vs[i].0.id != vs[j].0.id {
      if j == |us| { assert us[i] in us; }
    }
  }

  ghost predicate Describes(t: Target, w: World, l: Labels) {
    t.id in w.cs && t == TargetOf(w, t.id, l)
  }

  /** The plans describe containers of the host, each a different one. */
  ghost predicate Fresh(plans: seq<Assessment>, w: World, l: Labels) {
    && (forall a :: a in plans ==> Describes(a.target, w, l))
    && (forall i, j :: 0 <= i < j < |plans| ==> plans[i].target.id != plans[j].target.id)
  }
}
