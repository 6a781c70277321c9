/** What reconcile passes come to when they are repeated, from any host: which hosts they
    heal, and which they never will. */
module RepeatedPasses {
  import opened Docker
  import opened Recovery
  import opened ReconcilePass
  import opened CycleRecovery

  ghost function Passes(w: World, n: nat): World
    decreases n
  {
    if n == 0 then w else Passes(Pass(w), n - 1)
  }

  /** How many suffixes a name carries. */
  function Depth(n: Name): nat {
    match n case Base(_) => 0 case Old(m) => Depth(m) + 1
  }

  lemma {:induction false} NameByDepth(m: Name, n: Name)
    requires Root(m) == Root(n) && Depth(m) == Depth(n)
    ensures m == n
  {
    if m.Old? { NameByDepth(m.of, n.of); }
  }

  /** `j` is of the same service as `i` and carries fewer suffixes. */
  ghost predicate Above(w: World, j: Id, i: Id) {
    j in w.cs && i in w.cs && Root(w.cs[j].name) == Root(w.cs[i].name) && Depth(w.cs[j].name) < Depth(w.cs[i].name)
  }

  /** Every container with another of its service above it is superseded by the next
      name and stopped. */
  ghost predicate Orderly(w: World) {
    forall i, j :: Above(w, j, i) ==> !Stays(w, i)
  }

  lemma PassKeepsWf(w: World)
    requires Wf(w)
    ensures Wf(Pass(w))
  {
    var list := ListingExists(w);
    ReconcileManyLeftovers(w, list);
  }

  lemma PassKeepsRoot(w: World, i: Id)
    requires i in Pass(w).cs
    ensures i in w.cs && Stays(w, i) && Root(Pass(w).cs[i].name) == Root(w.cs[i].name)
    ensures Depth(Pass(w).cs[i].name) == if Moves(w, i) then Depth(w.cs[i].name) - 1 else Depth(w.cs[i].name)
  {
  }

  // ----- hosts that heal

  /** No service has two containers. */
  ghost predicate Lone(w: World) {
    forall i, j :: i in w.cs && j in w.cs && Root(w.cs[i].name) == Root(w.cs[j].name) ==> i == j
  }

  lemma OrderlyLeavesLone(w: World)
    requires Wf(w) && Orderly(w)
    ensures Lone(Pass(w))
  {
    var v := Pass(w);
    forall i, j | i in v.cs && j in v.cs && Root(v.cs[i].name) == Root(v.cs[j].name) ensures i == j {
      PassKeepsRoot(w, i);
      PassKeepsRoot(w, j);
      assert !Above(w, i, j) && !Above(w, j, i);
      NameByDepth(w.cs[i].name, w.cs[j].name);
    }
  }

  /** The leftover of a lone container always finds its name free. */
  lemma LoneMoves(w: World, i: Id)
    requires Lone(w) && i in w.cs && w.cs[i].name.Old?
    ensures Moves(w, i)
  {
    var c := w.cs[i];
    assert Depth(c.name.of) != Depth(c.name) && Root(c.name.of) == Root(c.name);
    forall j | j in w.cs ensures w.cs[j].name != c.name.of {
      assert Root(w.cs[j].name) == Root(c.name) ==> j == i;
    }
  }

  lemma {:induction false} LoneHeals(w: World, d: nat)
    requires Lone(w) && forall i :: i in w.cs ==> Depth(w.cs[i].name) <= d
    ensures NoLeftovers(Passes(w, d))
    decreases d
  {
    if d == 0 {
      forall i | i in w.cs ensures w.cs[i].name.Base? { assert Depth(w.cs[i].name) == 0; }
    } else {
      var v := Pass(w);
      forall i | i in v.cs ensures Depth(v.cs[i].name) <= d - 1 {
        PassKeepsRoot(w, i);
        if w.cs[i].name.Old? { LoneMoves(w, i); }
      }
      forall i, j | i in v.cs && j in v.cs && Root(v.cs[i].name) == Root(v.cs[j].name) ensures i == j {
        PassKeepsRoot(w, i);
        PassKeepsRoot(w, j);
      }
      LoneHeals(v, d - 1);
    }
  }

  lemma {:induction false} DepthBound(cs: map<Id, Container>) returns (d: nat)
    ensures forall i :: i in cs ==> Depth(cs[i].name) <= d
    decreases |cs|
  {
    d := 0;
    if cs != map[] {
      var i :| i in cs;
      var rest := cs - {i};
      assert |rest| < |cs| by { assert rest.Keys == cs.Keys - {i}; assert |rest.Keys| == |rest| && |cs.Keys| == |cs|; }
      d := DepthBound(rest);
      if d < Depth(cs[i].name) { d := Depth(cs[i].name); }
      forall k | k in cs ensures Depth(cs[k].name) <= d { assert k == i || k in rest; }
    }
  }

  // ----- hosts that do not

  /** A container that will not go, below another of its service. */
  ghost predicate Wedged(w: World) {
    exists i, j :: Above(w, j, i) && Stays(w, i)
  }

  /** The topmost container of a service is never removed. */
  lemma {:induction false} Topmost(w: World, j: Id) returns (t: Id)
    requires j in w.cs
    ensures t in w.cs && Root(w.cs[t].name) == Root(w.cs[j].name) && Depth(w.cs[t].name) <= Depth(w.cs[j].name)
    ensures Stays(w, t)
    decreases Depth(w.cs[j].name)
  {
    t := j;
    if !Stays(w, j) {
      var k :| k in w.cs && w.cs[k].name == w.cs[j].name.of;
      t := Topmost(w, k);
    }
  }

  lemma WedgedStays(w: World)
    requires Wedged(w)
    ensures !NoLeftovers(w) && Wedged(Pass(w))
  {
    var i, j :| Above(w, j, i) && Stays(w, i);
    assert Depth(w.cs[i].name) > 0 && w.cs[i].name.Old?;
    var t := Topmost(w, j);
    var v := Pass(w);
    assert i in v.cs && t in v.cs;
    PassKeepsRoot(w, i);
    PassKeepsRoot(w, t);
    if Moves(w, i) && Depth(w.cs[t].name) == Depth(w.cs[i].name) - 1 {
      NameByDepth(w.cs[t].name, w.cs[i].name.of);
    }
    assert Above(v, t, i) && v.cs[i].running;
  }

  lemma {:induction false} WedgedForEver(w: World, n: nat)
    requires Wedged(w)
    ensures !NoLeftovers(Passes(w, n))
    decreases n
  {
    hide Wedged, Pass, NoLeftovers;
    WedgedStays(w);
    if n > 0 { WedgedForEver(Pass(w), n - 1); }
  }

  /** Exactly when repeated passes heal a host: every container with another of its
      service above it must be removed by the first pass. */
  lemma {:induction false} HealsIff(w: World)
    requires Wf(w)
    ensures Orderly(w) <==> exists n :: NoLeftovers(Passes(w, n))
  {
    if Orderly(w) {
      OrderlyLeavesLone(w);
      var d := DepthBound(Pass(w).cs);
      LoneHeals(Pass(w), d);
      assert Passes(w, d + 1) == Passes(Pass(w), d);
    } else {
      assert Wedged(w);
      forall n: nat ensures !NoLeftovers(Passes(w, n)) { WedgedForEver(w, n); }
    }
  }

  /** A host that never heals: with `n` and `n_pp_old_pp_old` but no `n_pp_old`, the
      first pass renames the leftover to `n_pp_old` and starts it, so that no later
      one can remove it from beside `n`. */
  lemma {:induction false} GapNeverHeals(w: World, a: Id, b: Id, n: Name)
    requires Wf(w) && n.Base? && Holds(w, a, n) && Holds(w, b, Old(Old(n))) && !Taken(w, Old(n))
    ensures var v := Pass(w);
            && Holds(v, b, Old(n)) && v.cs[b].running && Holds(v, a, n)
            && Pass(v).cs[b] == v.cs[b] && Holds(Pass(v), b, Old(n)) && Holds(Pass(v), a, n)
    ensures forall m :: !NoLeftovers(Passes(w, m))
  {
    assert Root(Old(Old(n))) == Root(Old(n)) == Root(n) && Depth(Old(Old(n))) == Depth(Old(n)) + 1 == Depth(n) + 2;
    assert Above(w, a, b) && Moves(w, b);
    var v := Pass(w);
    assert Holds(v, a, n) && Taken(v, n);
    HealsIff(w);
  }
}
