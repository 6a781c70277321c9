/** The guarantees of the update transaction and of its recovery. */
module TransactionSafety {
  import opened Common
  import opened Docker
  import opened Networking
  import opened Transaction
  import opened TransactionOutcome
  import HG = HealthGate

  // ----- one update

  /** Every update ends in one of five ways, each with an exact resulting host. */
  lemma UpdateOutcome(w: World, p: Plan, f: Fates)
    requires Faithful(w, p) && Ordered(p, f)
    ensures var r := Apply(w, p, f);
            && (r.err.None? <==> Renamed(w, p, f) && Replaced(p, f))
            && (r.err in {Some(PullFailed), Some(StopFailed)} ==> r.world == w && r.notices == [])
            && (r.err == Some(RenameFailed) ==> r.world == w.(cs := w.cs[p.id := w.cs[p.id].(running := false)]) && r.notices == [])
            && (r.err.None? ==> Swapped(w, p, f, r.world) && r.notices == [Updated(p.name)])
            && (Renamed(w, p, f) && r.err.Some? && Undoable(p, f) ==> Restored(w, p, f.rollback.start, r.world))
            && (Renamed(w, p, f) && r.err.Some? && !Undoable(p, f) ==> Stuck(w, p, r.world))
            && (ActionNeeded(p.name) in r.notices <==> Renamed(w, p, f) && r.err.Some? && !Undoable(p, f))
  {
    hide Apply, Recreate, Restored, Swapped, Stuck;
    ApplyAfterRename(w, p, f);
    if Renamed(w, p, f) {
      RecreateOutcome(w, p, f);
    }
  }

  /** A service that lost its name to a failed update is always reported, and
      nothing else is reported that way. */
  lemma NoticeIffNameLost(w: World, p: Plan, f: Fates)
    requires Faithful(w, p) && Ordered(p, f)
    ensures var r := Apply(w, p, f);
            ActionNeeded(p.name) in r.notices <==> r.err.Some? && !Holds(r.world, p.id, p.name)
  {
    hide Apply, Recreate;
    UpdateOutcome(w, p, f);
    ApplyAfterRename(w, p, f);
    assert Parked(w, p).cs[p.id].name == Old(p.name) != p.name;
  }

  /** A failure after the rename whose rollback calls succeed leaves exactly the
      containers of before. */
  lemma RollbackRestoresWorld(w: World, p: Plan, f: Fates)
    requires Faithful(w, p) && Ordered(p, f) && Smooth(f.rollback)
    requires Renamed(w, p, f) && Apply(w, p, f).err.Some?
    ensures Apply(w, p, f).world.cs == w.cs
  {
    hide Apply, Recreate;
    UpdateOutcome(w, p, f);
  }

  /** A successful update puts a new container under the name, of the same image
      reference, on exactly the networks of the old one, and with its configuration
      on each of them (an empty one where none was reported). Its digest is the one that was planned exactly
      when the tag did not move between the check and the pull. */
  lemma UpdateReplaces(w: World, p: Plan, f: Fates)
    requires Faithful(w, p) && Ordered(p, f) && Apply(w, p, f).err.None?
    ensures var r := Apply(w, p, f).world;
            && Holds(r, w.next, p.name) && w.next !in w.cs
            && r.cs[w.next].running == p.running
            && r.cs[w.next].image == w.cs[p.id].image
            && r.cs[w.next].nets.Keys == w.cs[p.id].nets.Keys
            && (forall n :: n in p.nets && p.nets[n].Some? ==> r.cs[w.next].nets[n].config == w.cs[p.id].nets[n].config)
            && (forall n :: n in p.nets && p.nets[n].None? ==> r.cs[w.next].nets[n].config == EndpointConfig([], [], None, map[]))
            && (r.cs[w.next].digest == p.available <==> f.pulled == p.available)
            && (p.id in r.cs <==> !f.remove)
  {
    hide Apply, Recreate;
    UpdateOutcome(w, p, f);
  }

  /** Whatever happens to an update, no other container notices. */
  lemma OthersUntouched(w: World, p: Plan, f: Fates)
    requires Faithful(w, p) && Ordered(p, f)
    ensures var r := Apply(w, p, f).world;
            forall i :: i != p.id && i != w.next ==> (i in r.cs <==> i in w.cs) && (i in w.cs ==> r.cs[i] == w.cs[i])
  {
    hide Apply, Recreate;
    UpdateOutcome(w, p, f);
    ApplyAfterRename(w, p, f);
  }

  /** The order in which Go happens to range over the extra networks does not matter. */
  lemma AttachOrderIrrelevant(w: World, p: Plan, f: Fates, order: seq<string>)
    requires Faithful(w, p) && Ordered(p, f) && Ordered(p, f.(order := order))
    ensures var r := Apply(w, p, f);
            var s := Apply(w, p, f.(order := order));
            && (r.err.None? <==> s.err.None?)
            && (r.err.None? ==> r.world.cs == s.world.cs)
            && (r.err.Some? && Smooth(f.rollback) ==> r.world.cs == s.world.cs)
  {
    var g := f.(order := order);
    hide Apply, Recreate;
    UpdateOutcome(w, p, f);
    UpdateOutcome(w, p, g);
    assert forall n :: n in f.order <==> n in order;
    assert Renamed(w, p, f) <==> Renamed(w, p, g);
    ApplyAfterRename(w, p, f);
    ApplyAfterRename(w, p, g);
  }

  /** Within an update, the old container disappears only once its replacement
      holds the name and, if it was to run, the polling loop cleared it. */
  lemma RemovedOnlyAfterHealthyGate(w: World, p: Plan, f: Fates)
    requires Faithful(w, p) && Ordered(p, f)
    ensures var r := Apply(w, p, f);
            p.id !in r.world.cs ==>
              && r.err.None? && Holds(r.world, w.next, p.name)
              && (p.running ==> r.world.cs[w.next].running && exists n: nat :: HG.Cleared(f.gate, p.timeout, n))
  {
    hide Apply, Recreate, HG.Judge, HG.Cleared;
    HG.VerdictMeans(f.gate, p.timeout);
    UpdateOutcome(w, p, f);
    ApplyAfterRename(w, p, f);
  }

  /** A digest is blacklisted exactly when the gate failed of its own accord. */
  lemma OnlyFailedGateBlacklists(w: World, p: Plan, f: Fates, d: string)
    requires Ordered(p, f)
    ensures MarkBad(d) in Apply(w, p, f).marks <==>
              d == p.available && Apply(w, p, f).err == Some(GateFailed(false))
    ensures Apply(w, p, f).err == Some(GateFailed(false)) ==> HG.Judge(f.gate, p.timeout) == HG.Failed
    ensures MarkApplied(p.name, d) in Apply(w, p, f).marks <==> d == p.available && Apply(w, p, f).err.None?
  {
    hide Rollback, ConnectAll, SplitOf, Attached, Taken, RemoveNamed, HG.Judge;
  }

  /** The update came as far as the health gate. */
  ghost predicate AtGate(w: World, p: Plan, f: Fates) {
    Renamed(w, p, f) && f.create && AllAccepted(f.order, f.refuse) && p.running && f.start
  }

  /** The gate decides the update once it is reached, and only then. */
  lemma GateDecides(w: World, p: Plan, f: Fates)
    requires Faithful(w, p) && Ordered(p, f)
    ensures var e := Apply(w, p, f).err;
            && (e == Some(GateFailed(false)) <==> AtGate(w, p, f) && HG.Judge(f.gate, p.timeout) == HG.Failed)
            && (e == Some(GateFailed(true)) <==> AtGate(w, p, f) && HG.Judge(f.gate, p.timeout) == HG.Interrupted)
  {
    hide HG.Judge, Rollback, ConnectAll, SplitOf;
    ApplyAfterRename(w, p, f);
    if Renamed(w, p, f) { Attaching(w, p, f); }
  }

  /** A digest is blacklisted exactly when the update reached the gate and a poll
      condemned the replacement. */
  lemma BlacklistedIffCondemned(w: World, p: Plan, f: Fates, d: string)
    requires Faithful(w, p) && Ordered(p, f)
    ensures MarkBad(d) in Apply(w, p, f).marks <==>
              d == p.available && AtGate(w, p, f) && exists n: nat :: HG.Condemned(f.gate, p.timeout, n)
  {
    hide Apply, HG.Judge, HG.Condemned, AtGate;
    OnlyFailedGateBlacklists(w, p, f, d);
    GateDecides(w, p, f);
    HG.VerdictMeans(f.gate, p.timeout);
  }

  /** So a digest need not have failed at all: an inspect call that fails once, of
      its own accord, blacklists it. */
  lemma {:induction false} InspectErrorBlacklists(w: World, p: Plan) returns (f: Fates)
    requires Faithful(w, p) && p.running && !Taken(w, Old(p.name))
    ensures HG.Ticked(f.gate) && f.gate.obs(0) == HG.CallFailed(false)
    ensures forall i: nat :: i > 0 ==> f.gate.obs(i) == HG.Seen(Some(HG.Healthy), true, 0)
    ensures Ordered(p, f) && AtGate(w, p, f) && MarkBad(p.available) in Apply(w, p, f).marks
  {
    hide Apply, HG.Judge;
    var order := SomeOrder(SplitOf(p.nets).extra.Keys);
    var gate := HG.Timeline(0, (i: nat) => if i == 0 then HG.CallFailed(false) else HG.Seen(Some(HG.Healthy), true, 0),
                            (i: nat) => HG.TICK * i, (i: nat) => false);
    f := Fates(true, p.available, true, true, true, order, {}, true, gate, true, RollbackFates(true, true, true, true));
    assert HG.Condemned(gate, p.timeout, 0);
    BlacklistedIffCondemned(w, p, f, p.available);
  }

  /** Each error says which step failed, and all steps before it succeeded. */
  lemma ErrorTells(w: World, p: Plan, f: Fates)
    requires Faithful(w, p) && Ordered(p, f)
    ensures var e := Apply(w, p, f).err;
            var gone := Renamed(w, p, f);
            && (e == Some(PullFailed) <==> !f.pull)
            && (e == Some(StopFailed) <==> f.pull && p.running && !f.stop)
            && (e == Some(RenameFailed) <==> f.pull && (p.running ==> f.stop) && !(f.rename && !Taken(w, Old(p.name))))
            && (e == Some(CreateFailed) <==> gone && !f.create)
            && (e == Some(StartFailed) <==> gone && f.create && AllAccepted(f.order, f.refuse) && p.running && !f.start)
            && (e.Some? && e.value.AttachFailed? <==> gone && f.create && !AllAccepted(f.order, f.refuse))
  {
    hide HG.Judge, Rollback, ConnectAll, SplitOf;
    ApplyAfterRename(w, p, f);
    if Renamed(w, p, f) { Attaching(w, p, f); }
  }

  /** A failed attachment names the first network, in order, that was refused. */
  lemma AttachErrorNamesFirst(w: World, p: Plan, f: Fates, k: nat)
    requires Faithful(w, p) && Ordered(p, f) && Renamed(w, p, f) && f.create
    requires k < |f.order| && f.order[k] in f.refuse && forall j :: 0 <= j < k ==> f.order[j] !in f.refuse
    ensures Apply(w, p, f).err == Some(AttachFailed(f.order[k]))
  {
    hide HG.Judge, Rollback;
    ApplyAfterRename(w, p, f);
    Attaching(w, p, f);
    Parking(w, p);
    AllNetworks(p.nets, f.order, w.next);
    var nets := SplitOf(p.nets);
    var c := Create(Parked(w, p), p.name, p.image, f.pulled, nets.primary, true);
    hide SplitOf;
    FirstRefused(c.world, w.next, nets.extra, f.order, f.refuse, k);
  }

  lemma {:induction false} FirstRefused(w: World, i: Id, extra: map<string, EndpointConfig>, order: seq<string>, refuse: set<string>, k: nat)
    requires i in w.cs && forall n :: n in order ==> n in extra && n !in w.cs[i].nets
    requires forall a, b :: 0 <= a < b < |order| ==> order[a] != order[b]
    requires k < |order| && order[k] in refuse && forall j :: 0 <= j < k ==> order[j] !in refuse
    ensures ConnectAll(w, i, extra, order, refuse).failed == Some(order[k])
    decreases |order|
  {
    if k > 0 {
      var r := Connect(w, i, order[0], extra[order[0]], true);
      assert order[0] in order && order[0] !in order[1..] && order == [order[0]] + order[1..];
      FirstRefused(r.world, i, extra, order[1..], refuse, k - 1);
    }
  }

  /** The notices of an update, exactly: success, a gate that did not pass (in whatever
      way), and a service that lost its name are each reported once, and nothing else. */
  lemma NoticesTell(w: World, p: Plan, f: Fates)
    requires Faithful(w, p) && Ordered(p, f)
    ensures var r := Apply(w, p, f);
            var lost := Renamed(w, p, f) && r.err.Some? && !Undoable(p, f);
            var refused := r.err.Some? && r.err.value.GateFailed?;
            r.notices == (if r.err.None? then [Updated(p.name)]
                          else (if lost then [ActionNeeded(p.name)] else []) + (if refused then [RolledBack(p.name)] else []))
  {
    hide HG.Judge, ConnectAll, SplitOf, Restored, Stuck, Swapped, Halfway;
    ApplyAfterRename(w, p, f);
    if Renamed(w, p, f) {
      hide Rollback;
      RecreateNotices(w, p, f);
    }
  }

  lemma RecreateNotices(w: World, p: Plan, f: Fates)
    requires Faithful(w, p) && Ordered(p, f) && !Taken(w, Old(p.name))
    ensures var r := Recreate(Parked(w, p), p, f);
            var refused := r.err.Some? && r.err.value.GateFailed?;
            r.notices == (if r.err.None? then [Updated(p.name)]
                          else (if Undoable(p, f) then [] else [ActionNeeded(p.name)]) + (if refused then [RolledBack(p.name)] else []))
  {
    hide HG.Judge, Rollback, ConnectAll, SplitOf, Restored, Stuck, Halfway;
    Parking(w, p);
    var v := Parked(w, p);
    if !f.create {
      UndoingAlone(w, p, f);
    } else {
      Attaching(w, p, f);
      var nets := SplitOf(p.nets);
      var c := Create(v, p.name, p.image, f.pulled, nets.primary, true);
      var a := ConnectAll(c.world, w.next, nets.extra, f.order, f.refuse);
      if a.failed.Some? {
        Undoing(w, p, a.world, a.world.cs[w.next], f);
      } else if p.running {
        var s := Start(a.world, w.next, f.start);
        assert Beside(w, p, s.world, s.world.cs[w.next]);
        if !s.ok || HG.Judge(f.gate, p.timeout) != HG.Passed { Undoing(w, p, s.world, s.world.cs[w.next], f); }
      }
    }
  }

  // ----- invariants of the host

  lemma {:induction false} ConnectAllKeepsWf(w: World, i: Id, extra: map<string, EndpointConfig>,
                                             order: seq<string>, refuse: set<string>)
    requires Wf(w) && forall n :: n in order ==> n in extra
    ensures Wf(ConnectAll(w, i, extra, order, refuse).world)
    ensures ConnectAll(w, i, extra, order, refuse).world.next == w.next
    decreases |order|
  {
    if order != [] {
      var r := Connect(w, i, order[0], extra[order[0]], order[0] !in refuse);
      if r.ok { ConnectAllKeepsWf(r.world, i, extra, order[1..], refuse); }
    }
  }

  lemma RollbackKeepsWf(w: World, p: Plan, newId: Option<Id>, f: RollbackFates)
    requires Wf(w)
    ensures Wf(Rollback(w, p, newId, f).world) && Rollback(w, p, newId, f).world.next == w.next
  {
    var w1 := if newId.Some? then Remove(Stop(w, newId.value, f.stop).world, newId.value, f.remove).world else w;
    assert Wf(w1);
    assert Wf(RenameNamed(w1, Old(p.name), p.name, f.rename).world);
  }

  /** Names stay unique and ids are never reused, whatever the plan says. */
  lemma {:induction false} ApplyKeepsWf(w: World, p: Plan, f: Fates)
    requires Wf(w) && Ordered(p, f)
    ensures Wf(Apply(w, p, f).world) && Apply(w, p, f).world.next >= w.next
  {
    hide Recreate;
    var s := if p.running then Stop(w, p.id, f.stop).world else w;
    assert Wf(s);
    var v := Rename(s, p.id, Old(p.name), f.rename).world;
    assert Wf(v);
    RecreateKeepsWf(v, p, f);
  }

  lemma RecreateKeepsWf(v: World, p: Plan, f: Fates)
    requires Wf(v) && Ordered(p, f)
    ensures Wf(Recreate(v, p, f).world) && Recreate(v, p, f).world.next >= v.next
  {
    hide Rollback, RemoveNamed, ConnectAll;
    var nets := SplitOf(p.nets);
    var c := Create(v, p.name, p.image, f.pulled, nets.primary, f.create).world;
    assert Wf(c) && c.next >= v.next;
    RollbackKeepsWf(c, p, None, f.rollback);
    ConnectAllKeepsWf(c, v.next, nets.extra, f.order, f.refuse);
    var a := ConnectAll(c, v.next, nets.extra, f.order, f.refuse).world;
    RollbackKeepsWf(a, p, Some(v.next), f.rollback);
    FinishKeepsWf(a, p, f);
    var t := Start(a, v.next, f.start).world;
    assert Wf(t) && t.next == a.next;
    RollbackKeepsWf(t, p, Some(v.next), f.rollback);
    FinishKeepsWf(t, p, f);
  }

  lemma FinishKeepsWf(w: World, p: Plan, f: Fates)
    requires Wf(w)
    ensures Wf(Finish(w, p, f).world) && Finish(w, p, f).world.next == w.next
  {
  }
}
