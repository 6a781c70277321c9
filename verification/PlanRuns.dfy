/** Soak and blacklist guarantees over whole runs of the daemon: any number of
    cycles, with restarts, crashes around the save, and failed saves. */
module PlanRuns {
  import opened Common
  import opened Bookkeeping
  import opened StateRuns
  import opened Planning
  import opened PlanBuilding

  /** The evaluation really saw `d` offered upstream for container `c`. */
  predicate Observes(e: Event, c: string, d: string) {
    e.Evaluated? && e.a.target.name == c && e.reg.remote(e.a.target.image) == Some(d)
  }

  ghost predicate SlashFree(es: seq<Event>) {
    forall i :: 0 <= i < |es| ==> Plain(es[i])
  }

  /** Container names hold no slash. */
  predicate Plain(e: Event) {
    (e.Evaluated? ==> NoSlash(e.a.target.name)) && (e.Tried? ==> NoSlash(e.a.target.name)) && (e.Told? ==> NoSlash(e.a.target.name))
  }

  lemma {:induction false} OpHasEvent(es: seq<Event>, op: Op)
    requires op in OpsOf(es)
    ensures exists i :: 0 <= i < |es| && OpOf(es[i]) == [op]
    decreases |es|
  {
    var n := |es| - 1;
    if op in OpOf(es[n]) {
      assert OpOf(es[n]) == [op];
    } else {
      OpHasEvent(es[..n], op);
      var i :| 0 <= i < n && OpOf(es[..n][i]) == [op];
      assert es[i] == es[..n][i];
    }
  }

  lemma {:induction false} OpsSlashless(es: seq<Event>)
    requires SlashFree(es)
    ensures forall op :: op in OpsOf(es) ==> Slashless(op)
    decreases |es|
  {
    if es != [] {
      var n := |es| - 1;
      OpsSlashless(es[..n]);
      assert es[n] in es;
    }
  }

  lemma {:induction false} SeeOpObserves(es: seq<Event>, op: Op, c: string, d: string)
    requires SoundFrom(FRESH, es) && op in OpsOf(es) && Sees(op, c, d)
    ensures exists i :: 0 <= i < |es| && Observes(es[i], c, d) && es[i].record && es[i].now == op.now
  {
    hide Assess, Play, OpsOf;
    OpHasEvent(es, op);
    var i :| 0 <= i < |es| && OpOf(es[i]) == [op];
    var e := es[i];
    assert Sound(e, Play(FRESH, es[..i]).mem);
    UpdateIff(e.cfg, e.reg, Play(FRESH, es[..i]).mem, e.a.target, e.now, e.later);
    assert Observes(e, c, d) && e.record && e.now == op.now;
  }

  /** The clock an evaluation consults goes back to a recording observation. */
  lemma {:induction false} ClockHasObservation(es: seq<Event>, c: string, d: string)
    requires SoundFrom(FRESH, es) && SlashFree(es) && NoSlash(c)
    requires KeyOf(c, d) in Play(FRESH, es).mem.firstSeen
    ensures exists i :: 0 <= i < |es| && Observes(es[i], c, d) && es[i].record
                        && es[i].now == Play(FRESH, es).mem.firstSeen[KeyOf(c, d)]
  {
    hide Assess, Play, After, OpsOf;
    PlayIsAfter(FRESH, es);
    OpsSlashless(es);
    ClocksAreHonest(OpsOf(es));
    var ops := OpsOf(es);
    var k :| 0 <= k < |ops| && Sees(ops[k], c, d) && ops[k].now == Play(FRESH, es).mem.firstSeen[KeyOf(c, d)];
    SeeOpObserves(es, ops[k], c, d);
  }

  /** Evaluation `i` saw the digest planned at `j`, at least the effective soak before. */
  ghost predicate Aged(es: seq<Event>, i: int, j: int)
    requires 0 <= j < |es| && es[j].Evaluated?
  {
    && 0 <= i <= j && Observes(es[i], es[j].a.target.name, es[j].a.available)
    && es[j].later - es[i].now >= SoakOf(es[j].cfg, es[j].a.target)
  }

  /** Soak safety. Whenever an update of a container to a digest is planned, that
      digest was really observed as the container's upstream, by the same or an
      earlier recording evaluation, at least the effective soak ago. */
  lemma SoakSafety(es: seq<Event>, j: int)
    requires SoundFrom(FRESH, es) && SlashFree(es)
    requires 0 <= j < |es| && es[j].Evaluated? && es[j].a.action == Update
    ensures exists i :: Aged(es, i, j) && (i < j ==> es[i].record)
  {
    hide Assess, Play;
    var e := es[j];
    var c, d := e.a.target.name, e.a.available;
    var before := es[..j];
    var mem := Play(FRESH, before).mem;
    assert Sound(e, mem);
    UpdateIff(e.cfg, e.reg, mem, e.a.target, e.now, e.later);
    assert e in es;
    if KeyOf(c, d) in mem.firstSeen {
      SoundPrefix(FRESH, es, j);
      ClockHasObservation(before, c, d);
      var i :| 0 <= i < j && Observes(before[i], c, d) && before[i].record && before[i].now == mem.firstSeen[KeyOf(c, d)];
      assert Observes(es[i], c, d) && es[i] == before[i];
      assert Aged(es, i, j);
    } else {
      assert Aged(es, j, j);
    }
  }

  /** A registry that offers one digest for every image, and a host that runs another. */
  function Offering(running: string, remote: string): Registry {
    Registry((i: nat) => Some(running), (s: string) => Some(remote))
  }
}
