/** What one `apply` does to the host, for every pattern of refused calls. */
module TransactionOutcome {
  import opened Common
  import opened Docker
  import opened Networking
  import opened Transaction
  import HG = HealthGate

  /** The plan still describes its container: name, image, liveness and networks. */
  ghost predicate Faithful(w: World, p: Plan) {
    && Wf(w) && Holds(w, p.id, p.name) && w.cs[p.id].running == p.running
    && w.cs[p.id].image == p.image && Reports(p.nets, w.cs[p.id].nets)
  }

  /** The inspected networks are the attached ones; an endpoint that is reported at
      all is reported as it is. */
  ghost predicate Reports(ns: Reported, nets: map<string, Endpoint>) {
    ns.Keys == nets.Keys && forall n :: n in ns && ns[n].Some? ==> ns[n].value == nets[n]
  }

  /** The old container stopped and moved aside. */
  function Parked(w: World, p: Plan): World
    requires p.id in w.cs
  {
    w.(cs := w.cs[p.id := w.cs[p.id].(name := Old(p.name), running := false)])
  }

  /** The container that takes over: same name and networks, new image. */
  function Replacement(p: Plan, pulled: string, id: Id, running: bool): Container {
    Container(p.name, p.image, pulled, running, Attached(Projected(p.nets), id))
  }

  /** The calls up to and including the rename take effect. */
  ghost predicate Renamed(w: World, p: Plan, f: Fates) {
    f.pull && (p.running ==> f.stop) && f.rename && !Taken(w, Old(p.name))
  }

  /** Nothing after the rename goes wrong. */
  ghost predicate Replaced(p: Plan, f: Fates) {
    && f.create && (forall n :: n in f.order ==> n !in f.refuse)
    && (p.running ==> f.start && HG.Judge(f.gate, p.timeout) == HG.Passed)
  }

  /** A failure up to the rename changes nothing, except that a failed rename
      leaves the old container stopped. */
  function EarlyFailure(w: World, p: Plan, f: Fates): Outcome
    requires p.id in w.cs
  {
    if !f.pull then Outcome(w, Some(PullFailed), [], [])
    else if p.running && !f.stop then Outcome(w, Some(StopFailed), [], [])
    else Outcome(w.(cs := w.cs[p.id := w.cs[p.id].(running := false)]), Some(RenameFailed), [], [])
  }

  lemma ApplyAfterRename(w: World, p: Plan, f: Fates)
    requires Faithful(w, p) && Ordered(p, f)
    ensures Renamed(w, p, f) ==>
              && Apply(w, p, f) == Recreate(Parked(w, p), p, f)
              && Wf(Parked(w, p)) && !Taken(Parked(w, p), p.name)
    ensures !Renamed(w, p, f) ==> Apply(w, p, f) == EarlyFailure(w, p, f)
  {
    hide Recreate, Taken, Wf, Reports;
    if f.pull && (p.running ==> f.stop) {
      var s := if p.running then Stop(w, p.id, f.stop).world else w;
      assert s.cs == w.cs[p.id := w.cs[p.id].(running := false)];
      StoppingKeepsNames(w, s, p.id, Old(p.name));
      if Renamed(w, p, f) {
        assert Rename(s, p.id, Old(p.name), f.rename).world.cs == Parked(w, p).cs;
        Parking(w, p);
      }
    }
  }

  lemma StoppingKeepsNames(w: World, s: World, i: Id, n: Name)
    requires i in w.cs && s.cs == w.cs[i := w.cs[i].(running := false)]
    ensures Taken(s, n) <==> Taken(w, n)
  {
    if Taken(w, n) {
      var j :| j in w.cs && w.cs[j].name == n;
      assert s.cs[j].name == n;
    }
  }

  // ----- attaching networks

  ghost predicate AllAccepted(order: seq<string>, refuse: set<string>) {
    forall n :: n in order ==> n !in refuse
  }

  function Endpoints(order: seq<string>, extra: map<string, EndpointConfig>, i: Id): map<string, Endpoint>
    requires forall n :: n in order ==> n in extra
  {
    map n | n in order :: Endpoint(extra[n], i)
  }

  lemma EndpointsCons(nets: map<string, Endpoint>, order: seq<string>, extra: map<string, EndpointConfig>, i: Id)
    requires order != [] && forall n :: n in order ==> n in extra
    requires order[0] !in order[1..]
    ensures nets[order[0] := Endpoint(extra[order[0]], i)] + Endpoints(order[1..], extra, i) == nets + Endpoints(order, extra, i)
  {
    assert order == [order[0]] + order[1..];
  }

  /** Attaching touches only the one container; it succeeds exactly when no network
      is refused, and then the result does not depend on the order. */
  lemma {:induction false} ConnectAllOutcome(w: World, i: Id, extra: map<string, EndpointConfig>,
                                             order: seq<string>, refuse: set<string>)
    requires i in w.cs && forall n :: n in order ==> n in extra && n !in w.cs[i].nets
    requires forall j, k :: 0 <= j < k < |order| ==> order[j] != order[k]
    ensures var a := ConnectAll(w, i, extra, order, refuse);
            && i in a.world.cs && a.world.next == w.next
            && a.world.cs == w.cs[i := w.cs[i].(nets := a.world.cs[i].nets)]
            && (a.failed.None? <==> AllAccepted(order, refuse))
            && (a.failed.None? ==> a.world.cs[i].nets == w.cs[i].nets + Endpoints(order, extra, i))
    decreases |order|
  {
    hide Endpoints;
    if order == [] {
      NoEndpoints(w.cs[i].nets, extra, i);
    } else {
      var r := Connect(w, i, order[0], extra[order[0]], order[0] !in refuse);
      assert order[0] in order && order[0] !in order[1..];
      assert AllAccepted(order, refuse) <==> order[0] !in refuse && AllAccepted(order[1..], refuse) by {
        assert order == [order[0]] + order[1..];
      }
      if r.ok {
        ConnectAllOutcome(r.world, i, extra, order[1..], refuse);
        EndpointsCons(w.cs[i].nets, order, extra, i);
      }
    }
  }

  lemma NoEndpoints(nets: map<string, Endpoint>, extra: map<string, EndpointConfig>, i: Id)
    ensures nets + Endpoints([], extra, i) == nets
  {
  }

  // ----- rollback

  /** Every call of the rollback is accepted. */
  predicate Smooth(f: RollbackFates) { f.stop && f.remove && f.rename && f.start }

  /** The state rollback starts from: the old container parked, its name free or
      held by the failed replacement. */
  ghost predicate Halfway(v: World, p: Plan, newId: Option<Id>) {
    && Wf(v) && Holds(v, p.id, Old(p.name)) && !v.cs[p.id].running
    && match newId
       case None => !Taken(v, p.name)
       case Some(i) => Holds(v, i, p.name) && i != p.id
  }

  predicate NewGone(v: World, newId: Option<Id>, f: RollbackFates) {
    newId.Some? && newId.value in v.cs ==> f.remove && (f.stop || !v.cs[newId.value].running)
  }

  /** Rollback puts the old container back exactly when the replacement is gone and
      the rename is accepted; otherwise, and only then, it asks for help. */
  lemma RollbackOutcome(v: World, p: Plan, newId: Option<Id>, f: RollbackFates)
    requires Halfway(v, p, newId)
    ensures var u := Rollback(v, p, newId, f);
            var back := NewGone(v, newId, f) && f.rename;
            var drop := if newId.Some? then {newId.value} else {};
            && (back ==> u.notices == [] && u.world == World(v.cs[p.id := v.cs[p.id].(name := p.name, running := p.running && f.start)] - drop, v.next))
            && (!back ==> u.notices == [ActionNeeded(p.name)] && u.world.next == v.next
                          && u.world.cs.Keys == (if NewGone(v, newId, f) then v.cs.Keys - drop else v.cs.Keys)
                          && (forall i :: i in u.world.cs && i !in drop ==> u.world.cs[i] == v.cs[i])
                          && (newId.Some? && !NewGone(v, newId, f) ==> Holds(u.world, newId.value, p.name)))
  {
    var w1 := if newId.Some? then Remove(Stop(v, newId.value, f.stop).world, newId.value, f.remove).world else v;
    var drop := if newId.Some? then {newId.value} else {};
    Cleared(v, p, newId, f);
    hide NewGone, Halfway, Wf, Taken, Stop, Remove, RenameNamed, Start;
    RenameBack(w1, p, f.rename);
    if NewGone(v, newId, f) && f.rename {
      BackAsBefore(v, w1, p, drop, f.start);
    }
  }

  lemma BackAsBefore(v: World, w: World, p: Plan, drop: set<Id>, accept: bool)
    requires w.cs == v.cs - drop && w.next == v.next && p.id in w.cs && !w.cs[p.id].running
    ensures var r := w.(cs := w.cs[p.id := w.cs[p.id].(name := p.name)]);
            && (p.running ==> Start(r, p.id, accept).world == World(v.cs[p.id := v.cs[p.id].(name := p.name, running := accept)] - drop, v.next))
            && (!p.running ==> r == World(v.cs[p.id := v.cs[p.id].(name := p.name, running := false)] - drop, v.next))
  {
  }

  lemma RenameBack(w: World, p: Plan, accept: bool)
    requires Wf(w) && Holds(w, p.id, Old(p.name))
    ensures RenameNamed(w, Old(p.name), p.name, accept)
         == if accept && !Taken(w, p.name) then Reply(w.(cs := w.cs[p.id := w.cs[p.id].(name := p.name)]), true) else Reply(w, false)
  {
    assert Resolve(w, Old(p.name)) == Some(p.id);
  }

  /** Rollback's first half: the replacement goes, or else keeps the name. */
  lemma Cleared(v: World, p: Plan, newId: Option<Id>, f: RollbackFates)
    requires Halfway(v, p, newId)
    ensures var w1 := if newId.Some? then Remove(Stop(v, newId.value, f.stop).world, newId.value, f.remove).world else v;
            var drop := if newId.Some? then {newId.value} else {};
            && Wf(w1) && Holds(w1, p.id, Old(p.name)) && w1.next == v.next && p.id !in drop && !v.cs[p.id].running
            && (forall i :: i in w1.cs && i !in drop ==> i in v.cs && w1.cs[i] == v.cs[i])
            && (if NewGone(v, newId, f) then w1.cs == v.cs - drop && !Taken(w1, p.name)
                else w1.cs.Keys == v.cs.Keys && newId.Some? && Holds(w1, newId.value, p.name) && Taken(w1, p.name))
  {
  }

  // ----- outcomes of the transaction

  /** The replacement was up when the transaction failed. */
  ghost predicate NewRunning(p: Plan, f: Fates) {
    p.running && f.start && AllAccepted(f.order, f.refuse)
  }

  /** The rollback's calls that matter are accepted. */
  ghost predicate Undoable(p: Plan, f: Fates) {
    && f.rollback.rename
    && (f.create ==> f.rollback.remove && (NewRunning(p, f) ==> f.rollback.stop))
  }

  /** The old container is back under its name and nothing else changed; it runs
      as before provided its restart was accepted. */
  ghost predicate Restored(w: World, p: Plan, restarted: bool, r: World)
    requires p.id in w.cs
  {
    r.cs == w.cs[p.id := w.cs[p.id].(running := p.running && restarted)]
  }

  /** The old container is still parked; its name is free or held by the failed
      replacement; nothing else changed. */
  ghost predicate Stuck(w: World, p: Plan, r: World)
    requires p.id in w.cs
  {
    || r.cs == Parked(w, p).cs
    || (w.next in r.cs && Beside(w, p, r, r.cs[w.next]))
  }

  /** The parked container with `c` beside it under its old name. */
  ghost predicate Beside(w: World, p: Plan, r: World, c: Container)
    requires p.id in w.cs
  {
    c.name == p.name && r.cs == Parked(w, p).cs[w.next := c]
  }

  ghost predicate Swapped(w: World, p: Plan, f: Fates, r: World)
    requires p.id in w.cs
  {
    r.cs == (if f.remove then w.cs - {p.id} else Parked(w, p).cs)[w.next := Replacement(p, f.pulled, w.next, p.running)]
  }

  /** Moving the old container aside frees its name. */
  lemma Parking(w: World, p: Plan)
    requires Faithful(w, p) && !Taken(w, Old(p.name))
    ensures Wf(Parked(w, p)) && !Taken(Parked(w, p), p.name)
    ensures Halfway(Parked(w, p), p, None)
  {
  }

  lemma BesideIsHalfway(w: World, p: Plan, a: World, c: Container)
    requires Faithful(w, p) && !Taken(w, Old(p.name)) && Beside(w, p, a, c) && a.next == w.next + 1
    ensures Halfway(a, p, Some(w.next))
  {
    Parking(w, p);
  }

  /** The networks of the replacement once all are attached. */
  lemma AllNetworks(ns: Reported, order: seq<string>, i: Id)
    requires Enumerates(order, SplitOf(ns).extra.Keys)
    ensures Attached(SplitOf(ns).primary, i) + Endpoints(order, SplitOf(ns).extra, i) == Attached(Projected(ns), i)
    ensures forall n :: n in order ==> n !in Attached(SplitOf(ns).primary, i)
  {
    SplitLosesNothing(ns, SplitOf(ns));
    JoinEndpoints(SplitOf(ns).primary, SplitOf(ns).extra, order, i);
  }

  lemma JoinEndpoints(a: map<string, EndpointConfig>, b: map<string, EndpointConfig>, order: seq<string>, i: Id)
    requires a.Keys !! b.Keys && forall n :: n in order <==> n in b
    ensures Attached(a, i) + Endpoints(order, b, i) == Attached(a + b, i)
    ensures forall n :: n in order ==> n !in Attached(a, i)
  {
  }

  /** The replacement just before it is started. */
  lemma Attaching(w: World, p: Plan, f: Fates)
    requires Faithful(w, p) && Ordered(p, f) && !Taken(w, Old(p.name))
    ensures var nets := SplitOf(p.nets);
            var c := Create(Parked(w, p), p.name, p.image, f.pulled, nets.primary, true);
            var a := ConnectAll(c.world, w.next, nets.extra, f.order, f.refuse);
            && c.ok && (a.failed.None? <==> AllAccepted(f.order, f.refuse))
            && a.world.next == w.next + 1 && w.next in a.world.cs
            && Beside(w, p, a.world, a.world.cs[w.next]) && !a.world.cs[w.next].running
            && (a.failed.None? ==> a.world.cs[w.next] == Replacement(p, f.pulled, w.next, false))
  {
    hide SplitOf, Endpoints;
    Parking(w, p);
    var nets := SplitOf(p.nets);
    AllNetworks(p.nets, f.order, w.next);
    var c := Create(Parked(w, p), p.name, p.image, f.pulled, nets.primary, true);
    ConnectAllOutcome(c.world, w.next, nets.extra, f.order, f.refuse);
    var a := ConnectAll(c.world, w.next, nets.extra, f.order, f.refuse);
    assert a.world.cs == Parked(w, p).cs[w.next := a.world.cs[w.next]];
  }

  /** After the rename there are exactly three outcomes: replaced, undone, stuck.
      Only the last one calls for help, and it always does. */
  lemma RecreateOutcome(w: World, p: Plan, f: Fates)
    requires Faithful(w, p) && Ordered(p, f) && !Taken(w, Old(p.name))
    ensures var r := Recreate(Parked(w, p), p, f);
            && (r.err.None? <==> Replaced(p, f))
            && r.err !in {Some(PullFailed), Some(StopFailed), Some(RenameFailed)}
            && (r.err.None? ==> Swapped(w, p, f, r.world) && r.notices == [Updated(p.name)])
            && (r.err.Some? && Undoable(p, f) ==> Restored(w, p, f.rollback.start, r.world) && ActionNeeded(p.name) !in r.notices)
            && (r.err.Some? && !Undoable(p, f) ==> Stuck(w, p, r.world) && ActionNeeded(p.name) in r.notices)
  {
    hide Rollback, ConnectAll, SplitOf, Halfway, Restored, Stuck, HG.Judge;
    Parking(w, p);
    var v := Parked(w, p);
    if !f.create {
      UndoingAlone(w, p, f);
    } else {
      Attaching(w, p, f);
      var nets := SplitOf(p.nets);
      var c := Create(v, p.name, p.image, f.pulled, nets.primary, true);
      var a := ConnectAll(c.world, w.next, nets.extra, f.order, f.refuse);
      if a.failed.Some? {
        Undoing(w, p, a.world, a.world.cs[w.next], f);
      } else if p.running {
        var s := Start(a.world, w.next, f.start);
        assert Beside(w, p, s.world, s.world.cs[w.next]);
        if !s.ok || HG.Judge(f.gate, p.timeout) != HG.Passed {
          Undoing(w, p, s.world, s.world.cs[w.next], f);
        } else {
          Finishing(w, p, s.world, f);
        }
      } else {
        Finishing(w, p, a.world, f);
      }
    }
  }

  /** Rollback when no replacement was created. */
  lemma UndoingAlone(w: World, p: Plan, f: Fates)
    requires Faithful(w, p) && !f.create && !Taken(w, Old(p.name))
    ensures var u := Rollback(Parked(w, p), p, None, f.rollback);
            && (Undoable(p, f) ==> Restored(w, p, f.rollback.start, u.world) && u.notices == [])
            && (!Undoable(p, f) ==> Stuck(w, p, u.world) && u.notices == [ActionNeeded(p.name)])
  {
    hide Rollback;
    Parking(w, p);
    RollbackOutcome(Parked(w, p), p, None, f.rollback);
    assert forall m: map<Id, Container> :: m - {} == m;
  }

  lemma Undoing(w: World, p: Plan, a: World, c: Container, f: Fates)
    requires Faithful(w, p) && f.create && !Taken(w, Old(p.name))
    requires Beside(w, p, a, c) && a.next == w.next + 1 && c.running == NewRunning(p, f)
    ensures var u := Rollback(a, p, Some(w.next), f.rollback);
            && (Undoable(p, f) ==> Restored(w, p, f.rollback.start, u.world) && u.notices == [])
            && (!Undoable(p, f) ==> Stuck(w, p, u.world) && u.notices == [ActionNeeded(p.name)])
  {
    BesideIsHalfway(w, p, a, c);
    hide Rollback, Halfway, Taken;
    RollbackOutcome(a, p, Some(w.next), f.rollback);
    if Undoable(p, f) {
      BackAlone(w, p, a, c, p.running && f.rollback.start);
    } else {
      hide Stuck;
      StuckBeside(w, p, a, c, Rollback(a, p, Some(w.next), f.rollback).world);
    }
  }

  /** With the replacement gone and the name given back, the parking is undone. */
  lemma BackAlone(w: World, p: Plan, a: World, c: Container, running: bool)
    requires Faithful(w, p) && Beside(w, p, a, c)
    ensures a.cs[p.id := a.cs[p.id].(name := p.name, running := running)] - {w.next}
         == w.cs[p.id := w.cs[p.id].(running := running)]
  {
  }

  lemma StuckBeside(w: World, p: Plan, a: World, c: Container, u: World)
    requires Faithful(w, p) && Beside(w, p, a, c)
    requires u.cs.Keys <= a.cs.Keys && a.cs.Keys - {w.next} <= u.cs.Keys
    requires forall i :: i in u.cs && i != w.next ==> u.cs[i] == a.cs[i]
    requires w.next in u.cs ==> Holds(u, w.next, p.name)
    ensures Stuck(w, p, u)
  {
    var v := Parked(w, p);
    if w.next in u.cs {
      assert u.cs == v.cs[w.next := u.cs[w.next]];
    } else {
      assert u.cs == v.cs;
    }
  }

  lemma Finishing(w: World, p: Plan, a: World, f: Fates)
    requires Faithful(w, p) && !Taken(w, Old(p.name)) && a.next == w.next + 1
    requires Beside(w, p, a, Replacement(p, f.pulled, w.next, p.running))
    ensures Swapped(w, p, f, Finish(a, p, f).world)
  {
    BesideIsHalfway(w, p, a, Replacement(p, f.pulled, w.next, p.running));
    var r := Finish(a, p, f).world;
    if f.remove {
      assert r.cs == a.cs - {p.id};
    }
  }
}
