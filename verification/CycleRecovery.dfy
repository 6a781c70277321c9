/** Recovery from whole cycles: any number of updates, each of which may have failed
    half way, healed by one reconcile pass. */
module CycleRecovery {
  import opened Docker
  import opened Networking
  import opened Transaction
  import opened TransactionOutcome
  import opened TransactionSafety
  import opened Recovery
  import opened ReconcilePass
  import HG = HealthGate

  // ----- one pass whose calls succeed

  /** A leftover whose name is taken is removed, unless it is running: the remove is
      not forced. All else stays. */
  ghost predicate Stays(w: World, i: Id)
    requires i in w.cs
  {
    w.cs[i].name.Base? || Moves(w, i) || w.cs[i].running
  }

  function Resumed(c: Container): Container {
    if c.name.Old? then c.(name := c.name.of, running := true) else c
  }

  ghost function Passed(w: World): map<Id, Container> {
    map i | i in w.cs && Stays(w, i) :: if Moves(w, i) then Resumed(w.cs[i]) else w.cs[i]
  }

  /** The host after one pass whose calls succeed. */
  ghost function Pass(w: World): World {
    World(Passed(w), w.next)
  }

  /** One pass whose calls succeed, over any listing of any host, renames and starts
      exactly the leftovers whose name is free, removes exactly the others that are
      stopped, and leaves everything else. */
  lemma ReconcileManyLeftovers(w: World, list: seq<Listed>)
    requires Wf(w) && Lists(list, w)
    ensures Reconcile(w, list, ACCEPT_ALL) == Pass(w) && Wf(Pass(w))
  {
    hide Reconcile, Taken;
    ReconcileExactly(w, list, ACCEPT_ALL);
    assert Partly(w, {}, ACCEPT_ALL) == Passed(w);
  }

  // ----- whole cycles

  /** Leftovers are stopped and one suffix deep, as updates leave them. */
  ghost predicate Shallow(w: World) {
    forall i :: i in w.cs ==> w.cs[i].name.Base? || (w.cs[i].name.of.Base? && !w.cs[i].running)
  }

  /** The service families of the host. */
  ghost function Families(w: World): set<string> {
    set i | i in w.cs :: Root(w.cs[i].name)
  }

  /** The healed host has each family under its plain name, and a service is up
      unless its name was held by a container that was not running. */
  lemma HealedNames(w: World, h: World)
    requires Wf(w) && Shallow(w) && h.cs == Passed(w)
    ensures NoLeftovers(h) && Names(h) == (set s | s in Families(w) :: Base(s))
    ensures forall s :: s in Families(w) ==> (Up(h, Base(s)) <==> !Taken(w, Base(s)) || Up(w, Base(s)))
  {
    forall s | s in Families(w)
      ensures Base(s) in Names(h)
      ensures Up(h, Base(s)) <==> !Taken(w, Base(s)) || Up(w, Base(s))
    {
      HealedFamily(w, h, s);
    }
    forall n | n in Names(h) ensures n.Base? && n.stem in Families(w) {
      var i :| i in h.cs && h.cs[i].name == n;
      assert i in w.cs && Root(w.cs[i].name) == Root(n);
    }
    assert forall i :: i in h.cs ==> h.cs[i].name in Names(h);
  }

  lemma HealedFamily(w: World, h: World, s: string)
    requires Wf(w) && Shallow(w) && h.cs == Passed(w) && s in Families(w)
    ensures Base(s) in Names(h)
    ensures Up(h, Base(s)) <==> !Taken(w, Base(s)) || Up(w, Base(s))
  {
    var i :| i in w.cs && Root(w.cs[i].name) == s;
    if Taken(w, Base(s)) {
      var j :| j in w.cs && w.cs[j].name == Base(s);
      assert h.cs[j] == w.cs[j];
      assert forall k :: Holds(h, k, Base(s)) ==> k == j;
    } else {
      assert w.cs[i].name != Base(s);
      assert w.cs[i].name == Old(Base(s)) by { assert Root(w.cs[i].name.of) == s; }
      assert Stays(w, i) && h.cs[i] == Resumed(w.cs[i]);
      assert Holds(h, i, Base(s)) && h.cs[i].running;
    }
  }

  // ----- what updates leave

  /** However an update ends, it leaves at most a stopped leftover beside what was
      there, and no family comes or goes. */
  lemma ApplyKeepsShallow(w: World, p: Plan, f: Fates)
    requires Faithful(w, p) && Ordered(p, f) && p.name.Base? && Shallow(w)
    ensures var r := Apply(w, p, f).world; Shallow(r) && Families(r) == Families(w)
  {
    hide Apply, Recreate, ConnectAll, SplitOf, HG.Judge;
    var r := Apply(w, p, f).world;
    if Renamed(w, p, f) {
      AfterRenameShapes(w, p, f);
    } else {
      ApplyAfterRename(w, p, f);
    }
    LeftShallow(w, p, r);
    OneFamily(w, p, r);
  }

  /** What an update leaves behind, in one of three shapes. */
  ghost predicate Left(w: World, p: Plan, r: World)
    requires p.id in w.cs
  {
    || (p.id !in r.cs && Holds(r, w.next, p.name) && r.cs == (w.cs - {p.id})[w.next := r.cs[w.next]])
    || Stuck(w, p, r)
    || (exists running :: r.cs == w.cs[p.id := w.cs[p.id].(running := running)])
  }

  lemma LeftShallow(w: World, p: Plan, r: World)
    requires Faithful(w, p) && p.name.Base? && Shallow(w) && Left(w, p, r)
    ensures Shallow(r)
  {
  }

  /** Every container of the result is an old one, the old one renamed, or new under
      the same name; and the updated service still has one. */
  lemma OneFamily(w: World, p: Plan, r: World)
    requires Faithful(w, p) && Left(w, p, r)
    ensures Families(r) == Families(w)
  {
    hide Reports;
    forall i | i in r.cs ensures Root(r.cs[i].name) in Families(w) {
      var j := if i == w.next then p.id else i;
      assert j in w.cs && Root(w.cs[j].name) == Root(r.cs[i].name);
    }
    forall i | i in w.cs ensures Root(w.cs[i].name) in Families(r) {
      var j := if i in r.cs then i else w.next;
      assert j in r.cs && Root(r.cs[j].name) == Root(w.cs[i].name);
    }
  }

  lemma {:induction false} UpdatesKeepShallow(w: World, us: seq<(Plan, Fates)>)
    requires Wf(w) && Shallow(w) && Planned(w, us) && forall u :: u in us ==> u.0.name.Base?
    ensures Wf(Updates(w, us)) && Shallow(Updates(w, us)) && Families(Updates(w, us)) == Families(w)
    decreases |us|
  {
    hide Apply, Faithful, Ordered, Shallow, Families;
    if us != [] {
      var (p, f) := us[0];
      assert us[0] in us;
      ApplyKeepsWf(w, p, f);
      ApplyKeepsShallow(w, p, f);
      PlansStayFaithful(w, us);
      assert forall u :: u in us[1..] ==> u in us;
      UpdatesKeepShallow(Apply(w, p, f).world, us[1..]);
    }
  }

  /** Recovery from a whole cycle. Start with no `_pp_old` names and run any updates,
      any of which may fail half way, until the process dies or the cycle ends. One
      reconcile pass whose calls succeed, over any listing, brings back exactly the
      original names; a second one changes nothing. A service is up afterwards
      exactly when its name was left free or with a running holder. */
  lemma {:induction false} CycleRecovery(w: World, us: seq<(Plan, Fates)>, list: seq<Listed>)
    requires Wf(w) && NoLeftovers(w) && Planned(w, us) && Lists(list, Updates(w, us))
    ensures var v := Updates(w, us);
            var h := Reconcile(v, list, ACCEPT_ALL);
            && NoLeftovers(h) && Names(h) == Names(w)
            && (forall again, g: Id -> HealFates :: Lists(again, h) ==> Reconcile(h, again, g) == h)
            && (forall n :: n in Names(w) ==> (Up(h, n) <==> !Taken(v, n) || Up(v, n)))
  {
    hide Apply, Reconcile, Updates, Ordered, Passed;
    assert forall u :: u in us ==> Faithful(w, u.0) && u.0.id in w.cs;
    UpdatesKeepShallow(w, us);
    var v := Updates(w, us);
    var h := Reconcile(v, list, ACCEPT_ALL);
    ReconcileManyLeftovers(v, list);
    HealedNames(v, h);
    assert Names(w) == set s | s in Families(w) :: Base(s) by { PlainNames(w); }
    forall again, g: Id -> HealFates | Lists(again, h) ensures Reconcile(h, again, g) == h {
      ReconcileIdle(h, again, g);
    }
    forall n | n in Names(w) ensures n.Base? && n.stem in Families(v) {}
  }

  lemma PlainNames(w: World)
    requires NoLeftovers(w)
    ensures Names(w) == set s | s in Families(w) :: Base(s)
  {
    forall n ensures n in Names(w) <==> n.Base? && n.stem in Families(w) {
      if n.Base? && n.stem in Families(w) {
        var i :| i in w.cs && Root(w.cs[i].name) == n.stem;
        assert w.cs[i].name == n;
      }
    }
  }
}
