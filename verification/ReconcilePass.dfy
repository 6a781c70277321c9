/** Exactly what one reconcile pass does to any host, whatever the host answers. */
module ReconcilePass {
  import opened Docker
  import opened Transaction
  import opened Recovery

  /** A leftover whose name was free when the containers were listed. */
  ghost predicate Moves(w: World, i: Id)
    requires i in w.cs
  {
    w.cs[i].name.Old? && !Taken(w, w.cs[i].name.of)
  }

  /** A leftover whose name was taken goes, if it is stopped and the remove is accepted. */
  ghost predicate Goes(w: World, i: Id, f: HealFates)
    requires i in w.cs
  {
    w.cs[i].name.Old? && Taken(w, w.cs[i].name.of) && !w.cs[i].running && f.remove
  }

  /** It gets its name back if the rename is accepted, and only then is it started. */
  function Back(c: Container, f: HealFates): Container {
    if c.name.Old? && f.rename then c.(name := c.name.of, running := c.running || f.start) else c
  }

  /** A container that stays, once the pass has been through with it. */
  ghost function Handled(w: World, i: Id, f: HealFates): Container
    requires i in w.cs
  {
    if Moves(w, i) then Back(w.cs[i], f) else w.cs[i]
  }

  /** What the pass makes of the host when only `rest` is still to do. */
  ghost function Partly(w: World, rest: set<Id>, f: Id -> HealFates): map<Id, Container> {
    map i | i in w.cs && (i in rest || !Goes(w, i, f(i))) :: if i in rest then w.cs[i] else Handled(w, i, f(i))
  }

  function Ids(list: seq<Listed>): set<Id> {
    set e | e in list :: e.id
  }

  lemma HealNext(w: World, v: World, present: set<Name>, e: Listed, rest: set<Id>, f: Id -> HealFates)
    requires Wf(w) && Holds(w, e.id, e.name) && e.id !in rest
    requires forall n :: n in present <==> Taken(w, n)
    requires v.cs == Partly(w, rest + {e.id}, f)
    ensures HealOne(v, present, e, f(e.id)).cs == Partly(w, rest, f)
  {
    assert v.cs[e.id] == w.cs[e.id];
    PartlyNext(w, e.id, rest, f);
    if e.name.Old? && e.name.of !in present {
      NameStaysFree(w, v, e, rest + {e.id}, f);
    }
    hide Partly, Wf;
  }

  /** What handling one more container changes. */
  lemma PartlyNext(w: World, i: Id, rest: set<Id>, f: Id -> HealFates)
    requires i in w.cs && i !in rest
    ensures var before, after := Partly(w, rest + {i}, f), Partly(w, rest, f);
            && i in before
            && (if Goes(w, i, f(i)) then after == before - {i}
                else after == before[i := Handled(w, i, f(i))])
            && before[i := w.cs[i]] == before
  {
    hide Goes, Handled;
  }

  /** Restoring other leftovers never takes the name this one wants. */
  lemma NameStaysFree(w: World, v: World, e: Listed, rest: set<Id>, f: Id -> HealFates)
    requires Wf(w) && Holds(w, e.id, e.name) && e.name.Old? && e.id in rest
    requires v.cs == Partly(w, rest, f) && !Taken(w, e.name.of)
    ensures !Taken(v, e.name.of)
  {
    forall i | i in v.cs ensures v.cs[i].name != e.name.of {
      assert i in w.cs && w.cs[i].name != e.name.of;
      assert w.cs[i].name == Old(e.name.of) ==> i == e.id;
    }
  }

  lemma {:induction false} HealAll(w: World, v: World, present: set<Name>, list: seq<Listed>, f: Id -> HealFates)
    requires Wf(w) && forall n :: n in present <==> Taken(w, n)
    requires forall e :: e in list ==> Holds(w, e.id, e.name)
    requires forall i, j :: 0 <= i < j < |list| ==> list[i].id != list[j].id
    requires v.cs == Partly(w, Ids(list), f)
    ensures Heal(v, present, list, f).cs == Partly(w, {}, f)
    decreases |list|
  {
    hide Partly, HealOne;
    if list == [] {
      assert Ids(list) == {};
    } else {
      var e := list[0];
      assert e in list && list == [e] + list[1..];
      assert Ids(list) == Ids(list[1..]) + {e.id};
      assert e.id !in Ids(list[1..]) by {
        forall k | k in list[1..] ensures k.id != e.id {
          var j :| 0 <= j < |list[1..]| && list[1..][j] == k;
          assert list[j + 1] == k;
        }
      }
      HealNext(w, v, present, e, Ids(list[1..]), f);
      HealAll(w, HealOne(v, present, e, f(e.id)), present, list[1..], f);
    }
  }

  /** The pass, exactly: for any host, any listing and any answers, the stale set of
      names present makes no difference to any container. */
  lemma ReconcileExactly(w: World, list: seq<Listed>, f: Id -> HealFates)
    requires Wf(w) && Lists(list, w)
    ensures Reconcile(w, list, f).cs == Partly(w, {}, f)
    ensures Reconcile(w, list, f).next == w.next && Wf(Reconcile(w, list, f))
  {
    forall n ensures n in Present(list) <==> Taken(w, n) {
      if n in Present(list) { var e :| e in list && e.name == n; assert Holds(w, e.id, e.name); }
      if Taken(w, n) {
        var i :| i in w.cs && w.cs[i].name == n;
        assert Holds(w, i, n) && Listed(i, n) in list;
      }
    }
    forall i ensures i in Ids(list) <==> i in w.cs {
      if i in w.cs { assert Holds(w, i, w.cs[i].name) && Listed(i, w.cs[i].name) in list; }
    }
    assert w.cs == Partly(w, Ids(list), f);
    hide Partly, Heal;
    HealAll(w, w, Present(list), list, f);
    HealKeepsWf(w, Present(list), list, f);
  }

  /** What a pass can do to a container, whatever the host answers: nothing; give it its
      name back, starting it or not; or remove it, if it was stopped and its name
      taken. A leftover whose rename is refused is not started. */
  lemma OnlyRenamedAreStarted(w: World, list: seq<Listed>, f: Id -> HealFates, i: Id)
    requires Wf(w) && Lists(list, w)
    ensures var r := Reconcile(w, list, f).cs;
            && (i in r ==> i in w.cs)
            && (i in r && r[i].name == w.cs[i].name ==> r[i] == w.cs[i])
            && (i in r && r[i].name != w.cs[i].name ==>
                  && w.cs[i].name == Old(r[i].name) && f(i).rename
                  && r[i] == w.cs[i].(name := r[i].name, running := w.cs[i].running || f(i).start))
            && (i in w.cs && i !in r ==> w.cs[i].name.Old? && Taken(w, w.cs[i].name.of) && !w.cs[i].running)
  {
    hide Reconcile, Lists, Wf;
    ReconcileExactly(w, list, f);
    PartlyAt(w, {}, f, i);
    if i in w.cs && w.cs[i].name.Old? { OldDiffers(w.cs[i].name.of); }
    hide Partly;
  }

  lemma PartlyAt(w: World, rest: set<Id>, f: Id -> HealFates, i: Id)
    requires i !in rest
    ensures i in Partly(w, rest, f) <==> i in w.cs && !Goes(w, i, f(i))
    ensures i in Partly(w, rest, f) ==> Partly(w, rest, f)[i] == Handled(w, i, f(i))
  {
    hide Goes;
  }

  lemma {:induction false} OldDiffers(n: Name)
    ensures Old(n) != n
  {
    if n.Old? { OldDiffers(n.of); }
  }
}
