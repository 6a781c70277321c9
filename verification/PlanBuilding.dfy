/** `buildPlan`: evaluating every target and sorting, and what that keeps. */
module PlanBuilding {
  import opened Common
  import opened Sorting
  import opened Bookkeeping
  import opened Planning

  // ----- what happened, as the theorems about runs see it

  /** How an update attempt ended. */
  datatype End = Succeeded | GateRejected | Otherwise

  /** The steps of the daemon that matter to its state: cycles begin, containers
      are evaluated, updates tried, notices sent, and the process restarts. */
  datatype Event =
    | Begins
    | Evaluated(cfg: Config, reg: Registry, now: int, later: int, record: bool, a: Assessment, saved: bool)
    | Tried(a: Assessment, end: End, saved: bool)
    | Told(a: Assessment, saved: bool)
    | Restarted

  /** The state operation an event performs, if any. */
  function OpOf(e: Event): seq<Op> {
    match e
    case Begins => []
    case Evaluated(_, _, now, _, record, a, saved) =>
      if record && Gated(a) then [See(a.target.name, a.available, now, saved)] else []
    case Tried(a, Succeeded, saved) => [Applied(a.target.name, a.available, saved)]
    case Tried(a, GateRejected, saved) => [Bad(a.available, saved)]
    case Tried(_, Otherwise, _) => []
    case Told(a, saved) => [Announce(a.target.name, a.available, saved)]
    case Restarted => [Restart]
  }

  function OpsOf(es: seq<Event>): seq<Op>
    decreases |es|
  {
    if es == [] then [] else OpsOf(es[..|es| - 1]) + OpOf(es[|es| - 1])
  }

  function Do(s: Store, e: Event): Store {
    if OpOf(e) == [] then s else Step(s, OpOf(e)[0])
  }

  /** The store once the events have happened. */
  function Play(s: Store, es: seq<Event>): Store
    decreases |es|
  {
    if es == [] then s else Do(Play(s, es[..|es| - 1]), es[|es| - 1])
  }

  lemma OneOpAtMost(e: Event)
    ensures |OpOf(e)| <= 1
  {
  }

  /** Playing events is running the state operations they perform. */
  lemma {:induction false} PlayIsAfter(s: Store, es: seq<Event>)
    ensures Play(s, es) == After(s, OpsOf(es))
    decreases |es|
  {
    hide Step, OpOf;
    if es != [] {
      var n := |es| - 1;
      OneOpAtMost(es[n]);
      PlayIsAfter(s, es[..n]);
      if OpOf(es[n]) == [] {
        assert OpsOf(es) == OpsOf(es[..n]);
      } else {
        assert OpOf(es[n]) == [OpOf(es[n])[0]];
        AfterExtend(s, OpsOf(es[..n]), OpOf(es[n])[0]);
      }
    }
  }

  lemma {:induction false} PlayNothing(s: Store)
    ensures Play(s, []) == s
  {
  }

  lemma {:induction false} PlayExtend(s: Store, es: seq<Event>, e: Event)
    ensures Play(s, es + [e]) == Do(Play(s, es), e)
  {
    assert (es + [e])[..|es|] == es;
  }

  lemma {:induction false} PlayConcat(s: Store, a: seq<Event>, b: seq<Event>)
    ensures Play(s, a + b) == Play(Play(s, a), b)
    decreases |b|
  {
    hide Do;
    if b == [] {
      assert a + b == a;
    } else {
      var n := |b| - 1;
      PlayConcat(s, a, b[..n]);
      assert (a + b)[..|a + b| - 1] == a + b[..n];
    }
  }

  /** An evaluation decided as the code does, on the state it found. */
  predicate Sound(e: Event, b: Book) {
    e.Evaluated? ==> e.a == Assess(e.cfg, e.reg, b, e.a.target, e.now, e.later)
  }

  ghost predicate SoundFrom(s: Store, es: seq<Event>) {
    forall i {:trigger es[..i]} :: 0 <= i < |es| ==> Sound(es[i], Play(s, es[..i]).mem)
  }

  lemma {:induction false} SoundExtend(s: Store, es: seq<Event>, e: Event)
    requires SoundFrom(s, es) && Sound(e, Play(s, es).mem)
    ensures SoundFrom(s, es + [e])
  {
    var all := es + [e];
    forall i | 0 <= i < |all| ensures Sound(all[i], Play(s, all[..i]).mem) {
      if i < |es| {
        assert all[..i] == es[..i];
      } else {
        assert all[..i] == es;
      }
    }
  }

  lemma SoundPrefix(s: Store, es: seq<Event>, n: nat)
    requires SoundFrom(s, es) && n <= |es|
    ensures SoundFrom(s, es[..n])
  {
    forall i | 0 <= i < n ensures Sound(es[..n][i], Play(s, es[..n][..i]).mem) {
      assert es[..n][..i] == es[..i];
    }
  }

  lemma EvaluatedStep(s: Store, e: Event)
    requires e.Evaluated?
    ensures e.record ==> Do(s, e).mem == Recorded(s.mem, e.a, e.now)
    ensures !e.record ==> Do(s, e) == s
  {
  }

  // ----- the plan

  predicate Evaluates(es: seq<Event>, ts: seq<Target>, record: bool) {
    |es| == |ts| && forall i :: 0 <= i < |es| ==> es[i].Evaluated? && es[i].a.target == ts[i] && es[i].record == record
  }

  function Results(es: seq<Event>): seq<Assessment>
    requires forall e :: e in es ==> e.Evaluated?
  {
    seq(|es|, i requires 0 <= i < |es| => es[i].a)
  }

  function PlanKey(a: Assessment): Key { Key(a.target.set_.order, a.target.name) }

  /** Each evaluation read the clock twice, in turn. */
  ghost predicate ReadAt(es: seq<Event>, cfg: Config, reg: Registry, clock: nat -> int) {
    forall i: nat :: i < |es| ==>
      es[i].Evaluated? && es[i].cfg == cfg && es[i].reg == reg && es[i].now == clock(2 * i) && es[i].later == clock(2 * i + 1)
  }

  /** Plans go by their `order` label, and by name in dictionary order within it. */
  ghost predicate InPlanOrder(plans: seq<Assessment>) {
    forall i, j :: 0 <= i < j < |plans| ==>
      || plans[i].target.set_.order < plans[j].target.set_.order
      || (plans[i].target.set_.order == plans[j].target.set_.order && Lexicographic(plans[i].target.name, plans[j].target.name))
  }

  lemma {:induction false} SortedIsInPlanOrder(as_: seq<Assessment>)
    ensures InPlanOrder(StableSort(as_, PlanKey))
  {
    hide Leq, Lexicographic, StableSort;
    var plans := StableSort(as_, PlanKey);
    forall i, j | 0 <= i < j < |plans|
      ensures Leq(plans[i].target.name, plans[j].target.name) <==> Lexicographic(plans[i].target.name, plans[j].target.name)
    {
      LeqIsLexicographic(plans[i].target.name, plans[j].target.name);
    }
  }

  /** Evaluates each target in turn and sorts. Reading `2 * i` of the clock is the
      one the soak record uses for target `i`, the next one computes its age. */
  method BuildPlan(cfg: Config, reg: Registry, clock: nat -> int, st: State, targets: seq<Target>, record: bool)
    returns (plans: seq<Assessment>, ghost es: seq<Event>)
    modifies st
    ensures Evaluates(es, targets, record)
    ensures ReadAt(es, cfg, reg, clock)
    ensures SoundFrom(old(st.Snapshot()), es)
    ensures st.Snapshot() == Play(old(st.Snapshot()), es)
    ensures !record ==> st.Snapshot() == old(st.Snapshot())
    ensures plans == StableSort(Results(es), PlanKey) && InPlanOrder(plans)
  {
    hide Assess, Recorded, Step, Play;
    plans, es := [], [];
    ghost var s0 := st.Snapshot();
    PlayNothing(s0);
    for i := 0 to |targets|
      invariant Evaluates(es, targets[..i], record)
      invariant ReadAt(es, cfg, reg, clock)
      invariant SoundFrom(s0, es) && st.Snapshot() == Play(s0, es)
      invariant !record ==> st.Snapshot() == s0
      invariant plans == Results(es)
    {
      ghost var s := st.Snapshot();
      var p, saved := Evaluate(cfg, reg, st, targets[i], clock(2 * i), clock(2 * i + 1), record);
      ghost var e := Evaluated(cfg, reg, clock(2 * i), clock(2 * i + 1), record, p, saved);
      UpdateIff(cfg, reg, s.mem, targets[i], clock(2 * i), clock(2 * i + 1));
      SoundExtend(s0, es, e);
      PlayExtend(s0, es, e);
      es := es + [e];
      plans := plans + [p];
    }
    SortedIsInPlanOrder(plans);
    plans := StableSort(plans, PlanKey);
  }

  // ----- a pass with the clock standing still

  /** The circumstances of one planning pass with the clock standing still. */
  datatype Moment = Moment(cfg: Config, reg: Registry, now: int)

  function AssessAt(m: Moment, b: Book, t: Target): Assessment {
    Assess(m.cfg, m.reg, b, t, m.now, m.now)
  }

  /** The book after a recording pass over the targets, in that order. */
  function RecordAll(m: Moment, b: Book, ts: seq<Target>): Book
    decreases |ts|
  {
    if ts == [] then b
    else
      var b' := RecordAll(m, b, ts[..|ts| - 1]);
      Recorded(b', AssessAt(m, b', ts[|ts| - 1]), m.now)
  }

  function Assessments(m: Moment, b: Book, ts: seq<Target>): seq<Assessment> {
    seq(|ts|, i requires 0 <= i < |ts| => AssessAt(m, b, ts[i]))
  }

  /** Recording one target's clock changes no decision of the same moment. */
  lemma RecordingOneIsInvisible(m: Moment, b: Book, u: Target, t: Target)
    ensures AssessAt(m, Recorded(b, AssessAt(m, b, u), m.now), t) == AssessAt(m, b, t)
  {
    var a := AssessAt(m, b, u);
    assert First(Recorded(b, a, m.now), t.name, AssessAt(m, b, t).available, m.now)
        == First(b, t.name, AssessAt(m, b, t).available, m.now);
  }

  /** Recording during the pass never changes a later decision of that pass. */
  lemma {:induction false} RecordingIsInvisible(m: Moment, b: Book, ts: seq<Target>, t: Target)
    ensures AssessAt(m, RecordAll(m, b, ts), t) == AssessAt(m, b, t)
    decreases |ts|
  {
    hide Assess, Recorded;
    if ts != [] {
      var n := |ts| - 1;
      RecordingIsInvisible(m, b, ts[..n], t);
      RecordingOneIsInvisible(m, RecordAll(m, b, ts[..n]), ts[n], t);
    }
  }

  /** With the clock standing still, the outcome of a pass is a function of the
      state it started from. */
  lemma {:induction false} FrozenClock(m: Moment, s: Store, es: seq<Event>, ts: seq<Target>)
    requires Evaluates(es, ts, true) && SoundFrom(s, es)
    requires forall e :: e in es ==> e.cfg == m.cfg && e.reg == m.reg && e.now == e.later == m.now
    ensures Results(es) == Assessments(m, s.mem, ts)
    ensures Play(s, es).mem == RecordAll(m, s.mem, ts)
    decreases |es|
  {
    hide Assess, Recorded, Do;
    if es != [] {
      var n := |es| - 1;
      SoundPrefix(s, es, n);
      FrozenClock(m, s, es[..n], ts[..n]);
      RecordingIsInvisible(m, s.mem, ts[..n], ts[n]);
      EvaluatedStep(Play(s, es[..n]), es[n]);
      assert Sound(es[n], Play(s, es[..n]).mem);
      assert Results(es) == Results(es[..n]) + [es[n].a];
      assert Assessments(m, s.mem, ts) == Assessments(m, s.mem, ts[..n]) + [AssessAt(m, s.mem, ts[n])];
    }
  }

  lemma {:induction false} ReadOnlyPlay(s: Store, es: seq<Event>)
    requires forall e :: e in es ==> e.Evaluated? && !e.record
    ensures Play(s, es) == s
    decreases |es|
  {
    if es != [] {
      ReadOnlyPlay(s, es[..|es| - 1]);
      EvaluatedStep(s, es[|es| - 1]);
    }
  }

  /** `status` is faithful: a read-only pass changes nothing and shows the plans a
      recording pass would have made from the same state. */
  lemma {:induction false} StatusIsFaithful(m: Moment, s: Store, es: seq<Event>, ts: seq<Target>)
    requires Evaluates(es, ts, false) && SoundFrom(s, es)
    requires forall e :: e in es ==> e.cfg == m.cfg && e.reg == m.reg && e.now == e.later == m.now
    ensures Results(es) == Assessments(m, s.mem, ts)
    ensures Play(s, es) == s
  {
    hide Assess, Play;
    ReadOnlyPlay(s, es);
    forall i | 0 <= i < |es| ensures es[i].a == AssessAt(m, s.mem, ts[i]) {
      ReadOnlyPlay(s, es[..i]);
      assert Sound(es[i], Play(s, es[..i]).mem);
    }
  }

  // ----- determinism

  predicate UniqueNames(ts: set<Target>) {
    forall t, u :: t in ts && u in ts && t.name == u.name ==> t == u
  }

  lemma AssessmentsEnumerate(m: Moment, b: Book, ts: seq<Target>, s: set<Target>)
    requires Enumerates(ts, s)
    ensures Enumerates(Assessments(m, b, ts), set t | t in s :: AssessAt(m, b, t))
  {
    var as_ := Assessments(m, b, ts);
    forall i | 0 <= i < |ts| ensures as_[i].target == ts[i] {
      UpdateIff(m.cfg, m.reg, b, ts[i], m.now, m.now);
    }
    forall a ensures a in as_ <==> a in set t | t in s :: AssessAt(m, b, t) {
      if a in as_ {
        var i :| 0 <= i < |as_| && as_[i] == a;
        assert ts[i] in s;
      }
      if a in set t | t in s :: AssessAt(m, b, t) {
        var t :| t in s && AssessAt(m, b, t) == a;
        var i :| 0 <= i < |ts| && ts[i] == t;
        assert as_[i] == a;
      }
    }
    forall i, j | 0 <= i < j < |as_| ensures as_[i] != as_[j] {
      assert ts[i] != ts[j];
    }
  }

  lemma {:induction false} SortedAssessments(as_: seq<Assessment>, s: set<Assessment>)
    requires Enumerates(as_, s)
    ensures Enumerates(StableSort(as_, PlanKey), s) && SortedBy(StableSort(as_, PlanKey), PlanKey)
  {
    assert NoRepeats(as_);
  }

  /** The plan does not depend on the order in which Docker lists the containers. */
  lemma {:induction false} PlanIsDeterministic(m: Moment, b: Book, ts: seq<Target>, us: seq<Target>, s: set<Target>)
    requires Enumerates(ts, s) && Enumerates(us, s) && UniqueNames(s)
    ensures StableSort(Assessments(m, b, ts), PlanKey) == StableSort(Assessments(m, b, us), PlanKey)
  {
    var all := set t | t in s :: AssessAt(m, b, t);
    AssessmentsEnumerate(m, b, ts, s);
    AssessmentsEnumerate(m, b, us, s);
    SortedAssessments(Assessments(m, b, ts), all);
    SortedAssessments(Assessments(m, b, us), all);
    forall x, y | x in all && y in all && PlanKey(x) == PlanKey(y) ensures x == y {
      var t :| t in s && x == AssessAt(m, b, t);
      var u :| u in s && y == AssessAt(m, b, u);
      UpdateIff(m.cfg, m.reg, b, t, m.now, m.now);
      UpdateIff(m.cfg, m.reg, b, u, m.now, m.now);
    }
    SortedUnique(StableSort(Assessments(m, b, ts), PlanKey), StableSort(Assessments(m, b, us), PlanKey), PlanKey, all);
  }

  /** The clocks a recording pass leaves: the old ones, and a new one, started now,
      for each pair that reached the soak gate for the first time. */
  lemma {:induction false} RecordedClocks(m: Moment, b: Book, ts: seq<Target>)
    ensures var r := RecordAll(m, b, ts);
            && r == b.(firstSeen := r.firstSeen)
            && (forall k :: k in r.firstSeen <==> k in b.firstSeen || exists t :: t in ts && Starts(m, b, t, k))
            && (forall k :: k in r.firstSeen ==> r.firstSeen[k] == if k in b.firstSeen then b.firstSeen[k] else m.now)
    decreases |ts|
  {
    if ts != [] {
      var n := |ts| - 1;
      RecordedClocks(m, b, ts[..n]);
      RecordingIsInvisible(m, b, ts[..n], ts[n]);
      UpdateIff(m.cfg, m.reg, b, ts[n], m.now, m.now);
      var r, r' := RecordAll(m, b, ts), RecordAll(m, b, ts[..n]);
      forall k ensures k in r.firstSeen <==> k in r'.firstSeen || Starts(m, b, ts[n], k) {}
      forall t ensures t in ts <==> t in ts[..n] || t == ts[n] {
        assert ts == ts[..n] + [ts[n]];
      }
    }
  }

  ghost predicate Starts(m: Moment, b: Book, t: Target, k: string) {
    Gated(AssessAt(m, b, t)) && k == KeyOf(t.name, AssessAt(m, b, t).available)
  }

  /** Nor does the recorded state depend on that order. */
  lemma {:induction false} RecordingIsDeterministic(m: Moment, b: Book, ts: seq<Target>, us: seq<Target>)
    requires forall t :: t in ts <==> t in us
    ensures RecordAll(m, b, ts) == RecordAll(m, b, us)
  {
    RecordedClocks(m, b, ts);
    RecordedClocks(m, b, us);
    var x, y := RecordAll(m, b, ts).firstSeen, RecordAll(m, b, us).firstSeen;
    forall k ensures k in x <==> k in y {
      if t :| t in ts && Starts(m, b, t, k) { assert t in us; }
      if t :| t in us && Starts(m, b, t, k) { assert t in ts; }
    }
    assert x == y;
  }

  /** The pass found every target with the clock standing still. */
  ghost predicate PassAt(m: Moment, s: Store, es: seq<Event>, ts: seq<Target>, record: bool) {
    && Evaluates(es, ts, record) && SoundFrom(s, es)
    && forall e :: e in es ==> e.cfg == m.cfg && e.reg == m.reg && e.now == e.later == m.now
  }

  /** Two passes over the same containers from the same state give the same plans,
      in whatever order the containers are listed and whether or not they record;
      two recording passes leave the same book, a read-only one leaves the state. */
  lemma {:induction false} TwoPassesAgree(m: Moment, s: Store, es: seq<Event>, ts: seq<Target>, record: bool,
                       fs: seq<Event>, us: seq<Target>, record': bool, all: set<Target>)
    requires PassAt(m, s, es, ts, record) && PassAt(m, s, fs, us, record')
    requires Enumerates(ts, all) && Enumerates(us, all) && UniqueNames(all)
    ensures StableSort(Results(es), PlanKey) == StableSort(Results(fs), PlanKey)
    ensures record && record' ==> Play(s, es).mem == Play(s, fs).mem
    ensures !record ==> Play(s, es) == s
  {
    hide Play, Sound, Assess, RecordAll;
    if record { FrozenClock(m, s, es, ts); } else { StatusIsFaithful(m, s, es, ts); }
    if record' { FrozenClock(m, s, fs, us); } else { StatusIsFaithful(m, s, fs, us); }
    PlanIsDeterministic(m, s.mem, ts, us, all);
    RecordingIsDeterministic(m, s.mem, ts, us);
  }
}
