/** Reconciliation, crash recovery, and runs of whole update cycles. */
module Recovery {
  import opened Common
  import opened Docker
  import opened Networking
  import opened Transaction
  import opened TransactionOutcome
  import opened TransactionSafety
  import HG = HealthGate

  // ----- one reconcile pass

  /** The container was listed under a `_pp_old` name whose original was listed too. */
  predicate Superseded(e: Listed, present: set<Name>) {
    e.name.Old? && e.name.of in present
  }

  lemma HealOneKeeps(w: World, present: set<Name>, e: Listed, f: HealFates)
    requires Wf(w)
    ensures var r := HealOne(w, present, e, f);
            && Wf(r) && r.next == w.next
            && (forall i :: i != e.id ==> (i in r.cs <==> i in w.cs) && (i in w.cs ==> r.cs[i] == w.cs[i]))
            && (e.id in w.cs && !Superseded(e, present) ==>
                  e.id in r.cs && (r.cs[e.id].name == w.cs[e.id].name || (e.name.Old? && r.cs[e.id].name == e.name.of)))
            && (e.id in r.cs ==> e.id in w.cs)
  {
  }

  lemma {:induction false} HealKeepsWf(w: World, present: set<Name>, list: seq<Listed>, f: Id -> HealFates)
    requires Wf(w)
    ensures Wf(Heal(w, present, list, f)) && Heal(w, present, list, f).next == w.next
    decreases |list|
  {
    if list != [] {
      HealOneKeeps(w, present, list[0], f(list[0].id));
      HealKeepsWf(HealOne(w, present, list[0], f(list[0].id)), present, list[1..], f);
    }
  }

  /** A listed container whose original was not listed survives the pass within its
      family, whatever the order of the list and whichever calls are refused. */
  lemma {:induction false} ShallowestSurvives(w: World, present: set<Name>, list: seq<Listed>,
                                              f: Id -> HealFates, e: Listed)
    requires Wf(w) && e.id in w.cs && Root(w.cs[e.id].name) == Root(e.name)
    requires !Superseded(e, present)
    requires forall k :: k in list && k.id == e.id ==> k == e
    ensures var r := Heal(w, present, list, f);
            e.id in r.cs && Root(r.cs[e.id].name) == Root(e.name)
    decreases |list|
  {
    if list != [] {
      HealOneKeeps(w, present, list[0], f(list[0].id));
      var v := HealOne(w, present, list[0], f(list[0].id));
      if list[0].id == e.id { assert list[0] == e; }
      ShallowestSurvives(v, present, list[1..], f, e);
    }
  }

  /** From any listed container one reaches, by cutting suffixes, a listed one of
      the same family that is not superseded. */
  lemma {:induction false} ShallowestExists(list: seq<Listed>, n: Name) returns (e: Listed)
    requires n in Present(list)
    ensures e in list && Root(e.name) == Root(n) && !Superseded(e, Present(list))
    decreases n
  {
    e :| e in list && e.name == n;
    if n.Old? && n.of in Present(list) {
      e := ShallowestExists(list, n.of);
    }
  }

  /** Some container carries the family's name, with or without suffixes. */
  ghost predicate Serves(w: World, family: string) {
    exists i :: i in w.cs && Root(w.cs[i].name) == family
  }

  lemma ReconcileKeepsFamilies(w: World, list: seq<Listed>, f: Id -> HealFates, family: string)
    requires Wf(w) && Lists(list, w) && Serves(w, family)
    ensures Serves(Reconcile(w, list, f), family)
  {
    var i :| i in w.cs && Root(w.cs[i].name) == family;
    assert Listed(i, w.cs[i].name) in list;
    var e := ShallowestExists(list, w.cs[i].name);
    assert Holds(w, e.id, e.name);
    ShallowestSurvives(w, Present(list), list, f, e);
  }

  lemma ApplyKeepsFamilies(w: World, p: Plan, f: Fates, family: string)
    requires Faithful(w, p) && Ordered(p, f) && Serves(w, family)
    ensures Serves(Apply(w, p, f).world, family)
  {
    hide Apply, Recreate, ConnectAll;
    UpdateOutcome(w, p, f);
    ApplyAfterRename(w, p, f);
    OthersUntouched(w, p, f);
    var r := Apply(w, p, f).world;
    var i :| i in w.cs && Root(w.cs[i].name) == family;
    if i == p.id {
      var j := if p.id in r.cs then p.id else w.next;
      assert j in r.cs && Root(r.cs[j].name) == family;
    } else {
      assert i in r.cs;
    }
  }

  // ----- runs of cycles

  /** One cycle: what the listing showed (if it succeeded), the host's answers to
      the healing calls, and the updates in the order they were applied. A crash
      cuts the list of updates short or refuses everything from some call on. */
  datatype Cycle = Cycle(listing: Option<seq<Listed>>, heal: Id -> HealFates, updates: seq<(Plan, Fates)>)

  function Healed(w: World, c: Cycle): World {
    if c.listing.Some? then Reconcile(w, c.listing.value, c.heal) else w
  }

  ghost predicate AllOrdered(us: seq<(Plan, Fates)>) {
    forall u :: u in us ==> Ordered(u.0, u.1)
  }

  ghost function Updates(w: World, us: seq<(Plan, Fates)>): World
    requires AllOrdered(us)
    decreases |us|
  {
    if us == [] then w else Updates(Apply(w, us[0].0, us[0].1).world, us[1..])
  }

  /** Plans are made after reconciling, one per container, before any is applied. */
  ghost predicate Planned(w: World, us: seq<(Plan, Fates)>) {
    && AllOrdered(us)
    && (forall u :: u in us ==> Faithful(w, u.0))
    && (forall i, j :: 0 <= i < j < |us| ==> us[i].0.id != us[j].0.id)
  }

  ghost predicate ValidCycle(w: World, c: Cycle) {
    && (c.listing.Some? ==> Lists(c.listing.value, w))
    && Planned(Healed(w, c), c.updates)
  }

  ghost function RunCycle(w: World, c: Cycle): World
    requires AllOrdered(c.updates)
  {
    Updates(Healed(w, c), c.updates)
  }

  ghost predicate ValidRun(w: World, cs: seq<Cycle>)
    decreases |cs|
  {
    cs == [] || (ValidCycle(w, cs[0]) && ValidRun(RunCycle(w, cs[0]), cs[1..]))
  }

  ghost function Run(w: World, cs: seq<Cycle>): World
    requires ValidRun(w, cs)
    decreases |cs|
  {
    if cs == [] then w else Run(RunCycle(w, cs[0]), cs[1..])
  }

  /** A plan made before the first update still describes its container when its
      turn comes. */
  lemma {:induction false} PlansStayFaithful(w: World, us: seq<(Plan, Fates)>)
    requires us != [] && Planned(w, us)
    ensures Planned(Apply(w, us[0].0, us[0].1).world, us[1..])
  {
    hide Apply, Recreate, ConnectAll, SplitOf;
    var (p, f) := us[0];
    OthersUntouched(w, p, f);
    ApplyKeepsWf(w, p, f);
    forall u | u in us[1..] ensures Faithful(Apply(w, p, f).world, u.0) {
      var k :| 1 <= k < |us| && us[k] == u;
      assert us[0].0.id != us[k].0.id;
      assert Faithful(w, u.0);
    }
  }

  lemma {:induction false} UpdatesKeepFamilies(w: World, us: seq<(Plan, Fates)>, family: string)
    requires Wf(w) && Planned(w, us)
    ensures Wf(Updates(w, us))
    ensures Serves(w, family) ==> Serves(Updates(w, us), family)
    decreases |us|
  {
    hide Apply, Recreate, ConnectAll, SplitOf, Serves;
    if us != [] {
      var (p, f) := us[0];
      assert us[0] in us;
      ApplyKeepsWf(w, p, f);
      PlansStayFaithful(w, us);
      if Serves(w, family) { ApplyKeepsFamilies(w, p, f, family); }
      UpdatesKeepFamilies(Apply(w, p, f).world, us[1..], family);
    }
  }

  /** No service is ever lost: a family that has a container keeps one for ever,
      over every run of cycles, every failure pattern and every crash point. */
  lemma {:induction false} NoServiceLost(w: World, cs: seq<Cycle>, family: string)
    requires Wf(w) && ValidRun(w, cs) && Serves(w, family)
    ensures Wf(Run(w, cs)) && Serves(Run(w, cs), family)
    decreases |cs|
  {
    hide Reconcile, Updates, Serves;
    if cs != [] {
      var h := Healed(w, cs[0]);
      if cs[0].listing.Some? {
        ReconcileKeepsFamilies(w, cs[0].listing.value, cs[0].heal, family);
        ReconcileKeepsWf(w, cs[0].listing.value, cs[0].heal);
      }
      UpdatesKeepFamilies(h, cs[0].updates, family);
      NoServiceLost(RunCycle(w, cs[0]), cs[1..], family);
    }
  }

  lemma ReconcileKeepsWf(w: World, list: seq<Listed>, f: Id -> HealFates)
    requires Wf(w)
    ensures Wf(Reconcile(w, list, f))
  {
    HealKeepsWf(w, Present(list), list, f);
  }

  // ----- crash recovery

  ghost predicate NoLeftovers(w: World) {
    forall i :: i in w.cs ==> w.cs[i].name.Base?
  }

  ghost function Names(w: World): set<Name> {
    set i | i in w.cs :: w.cs[i].name
  }

  const ACCEPT_ALL: Id -> HealFates := (i: Id) => HealFates(true, true, true)

  /** A listing without `_pp_old` names gives reconcile nothing to do. */
  lemma {:induction false} HealIdle(w: World, present: set<Name>, list: seq<Listed>, f: Id -> HealFates)
    requires forall e :: e in list ==> e.name.Base?
    ensures Heal(w, present, list, f) == w
    decreases |list|
  {
    if list != [] { HealIdle(w, present, list[1..], f); }
  }

  /** With a single `_pp_old` name, wherever it stands in the list, the pass comes
      down to healing that one. */
  lemma {:induction false} HealSingle(w: World, present: set<Name>, list: seq<Listed>, f: Id -> HealFates, e: Listed)
    requires e in list && forall k :: k in list && k != e ==> k.name.Base?
    requires forall i, j :: 0 <= i < j < |list| ==> list[i].id != list[j].id
    ensures Heal(w, present, list, f) == HealOne(w, present, e, f(e.id))
    decreases |list|
  {
    if list[0] == e {
      forall k | k in list[1..] ensures k.name.Base? {
        var j :| 1 <= j < |list| && list[j] == k;
        assert list[0].id != list[j].id;
      }
      HealIdle(HealOne(w, present, e, f(e.id)), present, list[1..], f);
    } else {
      HealSingle(w, present, list[1..], f, e);
    }
  }

  lemma ReconcileIdle(w: World, list: seq<Listed>, f: Id -> HealFates)
    requires NoLeftovers(w) && Lists(list, w)
    ensures Reconcile(w, list, f) == w
  {
    forall e | e in list ensures e.name.Base? { assert Holds(w, e.id, e.name); }
    HealIdle(w, Present(list), list, f);
  }

  /** What a crashed update `r` of `w` should come back as: the replacement under
      the name if it still exists, the original, running, if it was still parked,
      and the state the rollback reached otherwise. */
  ghost function Recovered(w: World, p: Plan, r: World): map<Id, Container>
    requires p.id in w.cs
  {
    if w.next in r.cs then (w.cs - {p.id})[w.next := r.cs[w.next]]
    else if Holds(r, p.id, Old(p.name)) then w.cs[p.id := w.cs[p.id].(running := true)]
    else r.cs
  }

  /** The three shapes an update can leave behind once it has renamed, whether it
      finished, failed or died. */
  lemma AfterRenameShapes(w: World, p: Plan, f: Fates)
    requires Faithful(w, p) && Ordered(p, f) && Renamed(w, p, f)
    ensures var r := Apply(w, p, f).world;
            || (p.id !in r.cs && Holds(r, w.next, p.name) && r.cs == (w.cs - {p.id})[w.next := r.cs[w.next]])
            || Stuck(w, p, r)
            || Restored(w, p, f.rollback.start, r)
  {
    hide Apply, Recreate, ConnectAll, SplitOf;
    UpdateOutcome(w, p, f);
    var r := Apply(w, p, f);
    if r.err.None? && !f.remove {
      assert Beside(w, p, r.world, r.world.cs[w.next]);
    }
  }

  /** Reconciling what a stuck update left. */
  lemma ReconcileStuck(w: World, p: Plan, r: World, list: seq<Listed>)
    requires Faithful(w, p) && NoLeftovers(w) && Stuck(w, p, r) && Lists(list, r)
    ensures Reconcile(r, list, ACCEPT_ALL).cs == Recovered(w, p, r)
  {
    var e := Listed(p.id, Old(p.name));
    assert Holds(r, p.id, Old(p.name));
    assert e in list;
    forall k | k in list && k != e ensures k.name.Base? {
      assert Holds(r, k.id, k.name);
    }
    HealSingle(r, Present(list), list, ACCEPT_ALL, e);
    if w.next in r.cs {
      assert Holds(r, w.next, p.name);
      assert Listed(w.next, p.name) in list;
      assert r.cs - {p.id} == (w.cs - {p.id})[w.next := r.cs[w.next]];
    } else {
      assert p.name !in Present(list);
      assert !Taken(r, p.name);
    }
  }

  /** Crash recovery. Start with no `_pp_old` names and let an update die anywhere
      after its rename, also inside its rollback. One reconcile pass whose calls
      succeed, over any listing, brings back exactly the original names with no
      `_pp_old` left; a second pass, over any listing and whatever the host
      answers, changes nothing. */
  lemma CrashRecovery(w: World, p: Plan, f: Fates, list: seq<Listed>)
    requires Faithful(w, p) && Ordered(p, f) && NoLeftovers(w) && Renamed(w, p, f)
    requires Lists(list, Apply(w, p, f).world)
    ensures var r := Apply(w, p, f).world;
            var h := Reconcile(r, list, ACCEPT_ALL);
            && h.cs == Recovered(w, p, r)
            && NoLeftovers(h) && Names(h) == Names(w)
            && (forall again, g: Id -> HealFates :: Lists(again, h) ==> Reconcile(h, again, g) == h)
  {
    hide Apply, Recreate, ConnectAll, SplitOf, Reconcile;
    var r := Apply(w, p, f).world;
    var h := Reconcile(r, list, ACCEPT_ALL);
    AfterRenameShapes(w, p, f);
    if Stuck(w, p, r) {
      ReconcileStuck(w, p, r, list);
    } else {
      ReconcileIdle(r, list, ACCEPT_ALL);
    }
    RecoveredNames(w, p, r, h);
    forall again, g: Id -> HealFates | Lists(again, h) ensures Reconcile(h, again, g) == h {
      ReconcileIdle(h, again, g);
    }
  }

  lemma RecoveredNames(w: World, p: Plan, r: World, h: World)
    requires Faithful(w, p) && NoLeftovers(w) && h.cs == Recovered(w, p, r)
    requires w.next in r.cs ==> r.cs[w.next].name == p.name
    requires w.next !in r.cs && !Holds(r, p.id, Old(p.name)) ==>
               exists running :: r.cs == w.cs[p.id := w.cs[p.id].(running := running)]
    ensures NoLeftovers(h) && Names(h) == Names(w)
  {
    if w.next in r.cs {
      forall n ensures n in Names(h) <==> n in Names(w) {
        if n in Names(w) {
          var i :| i in w.cs && w.cs[i].name == n;
          var j := if i == p.id then w.next else i;
          assert j in h.cs && h.cs[j].name == n;
        }
        if n in Names(h) {
          var i :| i in h.cs && h.cs[i].name == n;
          var j := if i == w.next then p.id else i;
          assert j in w.cs && w.cs[j].name == n;
        }
      }
    } else {
      assert h.cs.Keys == w.cs.Keys;
      assert forall i :: i in w.cs ==> h.cs[i].name == w.cs[i].name;
    }
  }

  // ----- what recovery does not do

  /** A crash between stop and rename, or a failed rename, is not healed: the
      container stays stopped under its own name, where reconcile never looks. */
  lemma StoppedBeforeRenameStaysStopped(w: World, p: Plan, f: Fates, list: seq<Listed>, g: Id -> HealFates)
    requires Faithful(w, p) && Ordered(p, f) && NoLeftovers(w)
    requires Apply(w, p, f).err == Some(RenameFailed) && Lists(list, Apply(w, p, f).world)
    ensures var h := Reconcile(Apply(w, p, f).world, list, g);
            Holds(h, p.id, p.name) && !h.cs[p.id].running
  {
    hide Recreate, ConnectAll, SplitOf;
    UpdateOutcome(w, p, f);
    var r := Apply(w, p, f).world;
    ReconcileIdle(r, list, g);
  }

  /** Reconcile does not know about the gate: it discards the original exactly when
      the replacement still exists (or the update had discarded it already). */
  lemma DiscardedIffReplacementExists(w: World, p: Plan, f: Fates, list: seq<Listed>)
    requires Faithful(w, p) && Ordered(p, f) && NoLeftovers(w) && Renamed(w, p, f)
    requires Lists(list, Apply(w, p, f).world)
    ensures var r := Apply(w, p, f).world;
            p.id !in Reconcile(r, list, ACCEPT_ALL).cs <==> w.next in r.cs
  {
    hide Apply, Recreate, ConnectAll, SplitOf, Reconcile;
    CrashRecovery(w, p, f, list);
    AfterRenameShapes(w, p, f);
  }

  /** Every host has a listing. */
  lemma ListingExists(w: World) returns (list: seq<Listed>)
    ensures Lists(list, w)
  {
    var ids := SomeOrder(w.cs.Keys);
    list := seq(|ids|, i requires 0 <= i < |ids| => assert ids[i] in ids; Listed(ids[i], w.cs[ids[i]].name));
    forall i | i in w.cs ensures Listed(i, w.cs[i].name) in list {
      var k :| 0 <= k < |ids| && ids[k] == i;
      assert list[k] == Listed(i, w.cs[i].name);
    }
    forall i, j | 0 <= i < j < |list| ensures list[i].id != list[j].id {
      assert ids[i] != ids[j];
    }
  }

  /** So a replacement that failed its gate can supersede a healthy original: it
      takes a crash before the rollback removes it. */
  lemma {:induction false} FailedReplacementCanWin(w: World, p: Plan) returns (f: Fates, list: seq<Listed>)
    requires Faithful(w, p) && NoLeftovers(w) && p.running
    ensures Ordered(p, f) && HG.Condemned(f.gate, p.timeout, 0)
    ensures var r := Apply(w, p, f);
            && r.err == Some(GateFailed(false)) && Lists(list, r.world)
            && (forall any :: Lists(any, r.world) ==>
                  var h := Reconcile(r.world, any, ACCEPT_ALL);
                  p.id !in h.cs && Holds(h, w.next, p.name))
  {
    hide Apply, Recreate, Reconcile, ConnectAll, SplitOf, HG.Judge;
    f := InspectErrorBlacklists(w, p);
    f := f.(rollback := RollbackFates(false, false, false, false));
    assert HG.Condemned(f.gate, p.timeout, 0);
    HG.VerdictMeans(f.gate, p.timeout);
    ApplyAfterRename(w, p, f);
    UpdateOutcome(w, p, f);
    GateDecides(w, p, f);
    var r := Apply(w, p, f).world;
    assert w.next in r.cs by { LeftBeside(w, p, f); }
    list := ListingExists(r);
    forall any | Lists(any, r)
      ensures var h := Reconcile(r, any, ACCEPT_ALL); p.id !in h.cs && Holds(h, w.next, p.name)
    {
      CrashRecovery(w, p, f, any);
      DiscardedIffReplacementExists(w, p, f, any);
    }
  }

  /** Without its rollback, a failed gate leaves the replacement in place. */
  lemma LeftBeside(w: World, p: Plan, f: Fates)
    requires Faithful(w, p) && Ordered(p, f) && AtGate(w, p, f) && HG.Judge(f.gate, p.timeout) == HG.Failed
    requires f.rollback == RollbackFates(false, false, false, false)
    ensures w.next in Apply(w, p, f).world.cs
  {
    hide ConnectAll, SplitOf, HG.Judge;
    ApplyAfterRename(w, p, f);
    Attaching(w, p, f);
  }

  /** The service answers under its name. */
  ghost predicate Up(w: World, n: Name) {
    exists i :: Holds(w, i, n) && w.cs[i].running
  }

  /** Recovery brings a service up exactly when the update left its name free or
      with a running holder: reconcile starts what it restores and nothing else. So
      it is down for good after a failed rename, a replacement that never started,
      or a crash between the restoring rename and the restart. */
  lemma UpIffFreeOrRunning(w: World, p: Plan, f: Fates, list: seq<Listed>)
    requires Faithful(w, p) && Ordered(p, f) && NoLeftovers(w)
    requires Lists(list, Apply(w, p, f).world)
    ensures var r := Apply(w, p, f).world;
            Up(Reconcile(r, list, ACCEPT_ALL), p.name) <==> !Taken(r, p.name) || Up(r, p.name)
  {
    hide Apply, Recreate, ConnectAll, SplitOf, Reconcile;
    var r := Apply(w, p, f).world;
    var h := Reconcile(r, list, ACCEPT_ALL);
    if Renamed(w, p, f) {
      CrashRecovery(w, p, f, list);
      AfterRenameShapes(w, p, f);
      HolderAfterRecovery(w, p, r, h);
    } else {
      ApplyAfterRename(w, p, f);
      assert Holds(r, p.id, p.name);
      ReconcileIdle(r, list, ACCEPT_ALL);
    }
  }

  lemma HolderAfterRecovery(w: World, p: Plan, r: World, h: World)
    requires Faithful(w, p) && NoLeftovers(w) && h.cs == Recovered(w, p, r)
    requires || (p.id !in r.cs && Holds(r, w.next, p.name) && r.cs == (w.cs - {p.id})[w.next := r.cs[w.next]])
             || Stuck(w, p, r)
             || (exists running :: r.cs == w.cs[p.id := w.cs[p.id].(running := running)])
    ensures Up(h, p.name) <==> !Taken(r, p.name) || Up(r, p.name)
  {
    if w.next in r.cs {
      assert Holds(r, w.next, p.name) && Holds(h, w.next, p.name) && h.cs[w.next] == r.cs[w.next];
      assert forall i :: Holds(r, i, p.name) ==> i == w.next;
      assert forall i :: Holds(h, i, p.name) ==> i == w.next;
    } else if Holds(r, p.id, Old(p.name)) {
      assert Holds(h, p.id, p.name) && h.cs[p.id].running;
      assert !Taken(r, p.name);
    } else {
      assert h.cs == r.cs && Holds(r, p.id, p.name);
    }
  }
}
