/** The update transaction: `apply`, its `rollback`, and `reconcileOrphans`.

    Each operation is written twice: as methods that call the Docker client step
    by step, and as functions of the starting world and of the host's answers
    ("fates"), which is what the theorems in TransactionSafety are about. A process
    that dies before some call is a run in which that call and all later ones are
    refused, because a refused call changes nothing; so a statement about all
    fates covers every crash point as well as every failure pattern. */
module Transaction {
  import opened Common
  import opened Docker
  import opened Networking
  import HG = HealthGate

  /** A planned update: what `evaluate` hands to `apply`. */
  datatype Plan = Plan(id: Id, name: Name, image: string, available: string,
                       running: bool, nets: Reported, timeout: int)

  datatype Error = PullFailed | StopFailed | RenameFailed | CreateFailed
                 | AttachFailed(net: string) | StartFailed | GateFailed(interrupted: bool)

  datatype Notice = Updated(name: Name) | RolledBack(name: Name) | ActionNeeded(name: Name)

  /** Bookkeeping the transaction asks of the persistent state. */
  datatype Mark = MarkBad(digest: string) | MarkApplied(name: Name, digest: string)

  datatype RollbackFates = RollbackFates(stop: bool, remove: bool, rename: bool, start: bool)

  /** The host's answers. `pulled` is the digest the tag stood for at the pull,
      `order` the order in which the extra networks come up, `refuse` the networks
      whose attachment fails, `gate` everything the health gate would observe. */
  datatype Fates = Fates(pull: bool, pulled: string, stop: bool, rename: bool, create: bool,
                         order: seq<string>, refuse: set<string>, start: bool,
                         gate: HG.Timeline, remove: bool, rollback: RollbackFates)

  datatype Outcome = Outcome(world: World, err: Option<Error>, marks: seq<Mark>, notices: seq<Notice>)

  // ----- rollback

  datatype Undone = Undone(world: World, notices: seq<Notice>)

  ghost function Rollback(w: World, p: Plan, newId: Option<Id>, f: RollbackFates): Undone {
    var w1 := if newId.Some? then Remove(Stop(w, newId.value, f.stop).world, newId.value, f.remove).world else w;
    var restored := RenameNamed(w1, Old(p.name), p.name, f.rename);
    if !restored.ok then Undone(restored.world, [ActionNeeded(p.name)])
    else Undone(if p.running then Start(restored.world, p.id, f.start).world else restored.world, [])
  }

  ghost function Fail(w: World, p: Plan, newId: Option<Id>, f: Fates, err: Error,
                      marks: seq<Mark>, notices: seq<Notice>): Outcome
  {
    var u := Rollback(w, p, newId, f.rollback);
    Outcome(u.world, Some(err), marks, u.notices + notices)
  }

  // ----- apply

  datatype Attachment = Attachment(world: World, failed: Option<string>)

  /** Attaches the networks in the given order, stopping at the first refusal. */
  function ConnectAll(w: World, i: Id, extra: map<string, EndpointConfig>,
                      order: seq<string>, refuse: set<string>): Attachment
    requires forall n :: n in order ==> n in extra
    decreases |order|
  {
    if order == [] then Attachment(w, None)
    else
      var r := Connect(w, i, order[0], extra[order[0]], order[0] !in refuse);
      if r.ok then ConnectAll(r.world, i, extra, order[1..], refuse)
      else Attachment(r.world, Some(order[0]))
  }

  ghost predicate Ordered(p: Plan, f: Fates) {
    Enumerates(f.order, SplitOf(p.nets).extra.Keys)
  }

  ghost function Apply(w: World, p: Plan, f: Fates): Outcome
    requires Ordered(p, f)
  {
    if !f.pull then Outcome(w, Some(PullFailed), [], [])
    else
      var stopped := if p.running then Stop(w, p.id, f.stop) else Reply(w, true);
      if !stopped.ok then Outcome(stopped.world, Some(StopFailed), [], [])
      else
        var renamed := Rename(stopped.world, p.id, Old(p.name), f.rename);
        if !renamed.ok then Outcome(renamed.world, Some(RenameFailed), [], [])
        else Recreate(renamed.world, p, f)
  }

  /** Everything after the old container gave up its name. */
  ghost function Recreate(w: World, p: Plan, f: Fates): Outcome
    requires Ordered(p, f)
  {
    var nets := SplitOf(p.nets);
    var created := Create(w, p.name, p.image, f.pulled, nets.primary, f.create);
    if !created.ok then Fail(created.world, p, None, f, CreateFailed, [], [])
    else
      var id := w.next;
      var attached := ConnectAll(created.world, id, nets.extra, f.order, f.refuse);
      if attached.failed.Some? then Fail(attached.world, p, Some(id), f, AttachFailed(attached.failed.value), [], [])
      else if p.running then
        var started := Start(attached.world, id, f.start);
        if !started.ok then Fail(started.world, p, Some(id), f, StartFailed, [], [])
        else if HG.Judge(f.gate, p.timeout) != HG.Passed then
          Fail(started.world, p, Some(id), f, GateFailed(HG.Judge(f.gate, p.timeout) == HG.Interrupted),
               if HG.Judge(f.gate, p.timeout) == HG.Failed then [MarkBad(p.available)] else [], [RolledBack(p.name)])
        else Finish(started.world, p, f)
      else Finish(attached.world, p, f)
  }

  /** What follows the rename does not depend on how the earlier calls went. */
  lemma OnlyLaterFates(p: Plan, f: Fates, g: Fates)
    requires Ordered(p, g) && f == g.(pull := f.pull, stop := f.stop, rename := f.rename)
    ensures Ordered(p, f) && forall w :: Recreate(w, p, f) == Recreate(w, p, g)
  {
    hide ConnectAll, SplitOf, Create, Start, Rollback, HG.Judge;
  }

  ghost function Finish(w: World, p: Plan, f: Fates): Outcome {
    Outcome(RemoveNamed(w, Old(p.name), f.remove).world, None,
            [MarkApplied(p.name, p.available)], [Updated(p.name)])
  }

  // ----- reconcile

  /** One entry of a container listing. */
  datatype Listed = Listed(id: Id, name: Name)

  datatype HealFates = HealFates(remove: bool, rename: bool, start: bool)

  ghost predicate Lists(list: seq<Listed>, w: World) {
    && (forall e :: e in list <==> Holds(w, e.id, e.name))
    && (forall i, j :: 0 <= i < j < |list| ==> list[i].id != list[j].id)
  }

  function Present(list: seq<Listed>): set<Name> {
    set e | e in list :: e.name
  }

  function HealOne(w: World, present: set<Name>, e: Listed, f: HealFates): World {
    if !e.name.Old? then w
    else if e.name.of in present then Remove(w, e.id, f.remove).world
    else
      var r := Rename(w, e.id, e.name.of, f.rename);
      if r.ok then Start(r.world, e.id, f.start).world else r.world
  }

  /** The pass over a listing taken beforehand; `present` goes stale on the way. */
  function Heal(w: World, present: set<Name>, list: seq<Listed>, f: Id -> HealFates): World
    decreases |list|
  {
    if list == [] then w
    else Heal(HealOne(w, present, list[0], f(list[0].id)), present, list[1..], f)
  }

  function Reconcile(w: World, list: seq<Listed>, f: Id -> HealFates): World {
    Heal(w, Present(list), list, f)
  }

  // ----- the engine

  class Engine {
    const cli: Client
    var marks: seq<Mark>
    var notices: seq<Notice>

    constructor (cli: Client)
      ensures this.cli == cli && marks == [] && notices == []
    {
      this.cli := cli;
      marks, notices := [], [];
    }

    method ImagePull(image: string) returns (ok: bool, digest: string)
    {
      ok := *;
      digest := *;
    }

    method DoRollback(p: Plan, newId: Option<Id>) returns (ghost f: RollbackFates)
      requires Wf(cli.world)
      modifies this, cli
      ensures cli.world == Rollback(old(cli.world), p, newId, f).world
      ensures notices == old(notices) + Rollback(old(cli.world), p, newId, f).notices
      ensures marks == old(marks)
    {
      ghost var stop, remove, rename, start := false, false, false, false;
      var ok;
      if newId.Some? {
        ok, stop := cli.ContainerStop(newId.value);
        ok, remove := cli.ContainerRemove(newId.value);
      }
      ok, rename := cli.RenameByName(Old(p.name), p.name);
      if !ok {
        notices := notices + [ActionNeeded(p.name)];
      } else if p.running {
        ok, start := cli.ContainerStart(p.id);
      }
      f := RollbackFates(stop, remove, rename, start);
    }

    /** Attaches the extra networks in map order; `failed` is the first that fails. */
    method AttachAll(id: Id, extra: map<string, EndpointConfig>)
      returns (failed: Option<string>, ghost order: seq<string>, ghost refuse: set<string>)
      modifies cli
      ensures Enumerates(order, extra.Keys)
      ensures Wf(old(cli.world)) ==> Wf(cli.world)
      ensures Attachment(cli.world, failed) == ConnectAll(old(cli.world), id, extra, order, refuse)
    {
      var names := RangeOrder(extra.Keys);
      order, refuse := names, {};
      failed := None;
      var i := 0;
      while i < |names|
        invariant 0 <= i <= |names|
        invariant Wf(old(cli.world)) ==> Wf(cli.world)
        invariant forall r :: (forall k :: k in r ==> k !in names[..i]) ==>
                    ConnectAll(old(cli.world), id, extra, names, r) == ConnectAll(cli.world, id, extra, names[i..], r)
      {
        var ok, accept := cli.NetworkConnect(names[i], id, extra[names[i]]);
        if !ok {
          failed := Some(names[i]);
          refuse := if accept then {} else {names[i]};
          return;
        }
        i := i + 1;
      }
    }

    /** One update. `gate` is what the health gate will observe, should it be reached:
        the verdict that decides is the polling loop's on exactly this timeline. */
    method DoApply(p: Plan, gate: HG.Timeline) returns (err: Option<Error>, ghost f: Fates)
      requires Wf(cli.world) && HG.Ticked(gate)
      modifies this, cli
      ensures Ordered(p, f) && f.gate == gate
      ensures var r := Apply(old(cli.world), p, f);
              && cli.world == r.world && err == r.err
              && marks == old(marks) + r.marks && notices == old(notices) + r.notices
    {
      hide SplitOf, Recreate;
      ghost var order := SomeOrder(SplitOf(p.nets).extra.Keys);
      f := Fates(false, "", false, false, false, order, {}, false, gate, false,
                 RollbackFates(false, false, false, false));
      var ok, digest := ImagePull(p.image);
      f := f.(pull := ok);
      if !ok { return Some(PullFailed), f; }
      ghost var accept;
      if p.running {
        ok, accept := cli.ContainerStop(p.id);
        f := f.(stop := accept);
        if !ok { return Some(StopFailed), f; }
      }
      ok, accept := cli.ContainerRename(p.id, Old(p.name));
      f := f.(rename := accept);
      if !ok { return Some(RenameFailed), f; }
      ghost var g;
      err, g := Replace(p, digest, gate);
      f := g.(pull := f.pull, stop := f.stop, rename := f.rename);
      OnlyLaterFates(p, f, g);
    }

    /** The part of `apply` after the old container gave up its name. */
    method Replace(p: Plan, digest: string, gate: HG.Timeline) returns (err: Option<Error>, ghost f: Fates)
      requires Wf(cli.world) && HG.Ticked(gate)
      modifies this, cli
      ensures Ordered(p, f) && f.pulled == digest && f.gate == gate
      ensures var r := Recreate(old(cli.world), p, f);
              && cli.world == r.world && err == r.err
              && marks == old(marks) + r.marks && notices == old(notices) + r.notices
    {
      hide SplitOf, ConnectAll, Rollback, HG.Judge;
      var nets := BuildNetworking(p.nets);
      ghost var order := SomeOrder(nets.extra.Keys);
      f := Fates(false, digest, false, false, false, order, {}, false, gate, false,
                 RollbackFates(false, false, false, false));
      ghost var rb, accept;
      var ok, id;
      ok, id, accept := cli.ContainerCreate(p.name, p.image, digest, nets.primary);
      f := f.(create := accept);
      if !ok {
        rb := DoRollback(p, None);
        return Some(CreateFailed), f.(rollback := rb);
      }
      var failed, o, refuse := AttachAll(id, nets.extra);
      f := f.(order := o, refuse := refuse);
      if failed.Some? {
        rb := DoRollback(p, Some(id));
        return Some(AttachFailed(failed.value)), f.(rollback := rb);
      }
      if p.running {
        ok, accept := cli.ContainerStart(id);
        f := f.(start := accept);
        if !ok {
          rb := DoRollback(p, Some(id));
          return Some(StartFailed), f.(rollback := rb);
        }
        var verdict := HG.Run(gate, p.timeout);
        if verdict != HG.Passed {
          if verdict == HG.Failed { marks := marks + [MarkBad(p.available)]; }
          rb := DoRollback(p, Some(id));
          notices := notices + [RolledBack(p.name)];
          return Some(GateFailed(verdict == HG.Interrupted)), f.(rollback := rb);
        }
      }
      ok, accept := cli.RemoveByName(Old(p.name));
      f := f.(remove := accept);
      marks := marks + [MarkApplied(p.name, p.available)];
      notices := notices + [Updated(p.name)];
      err := None;
    }

    /** Heals what an interrupted cycle left; `list` is the listing it starts with. */
    method ReconcileOrphans(list: seq<Listed>) returns (ghost f: Id -> HealFates)
      requires Lists(list, cli.world)
      modifies cli
      ensures cli.world == Reconcile(old(cli.world), list, f)
    {
      var present := {};
      for i := 0 to |list|
        invariant present == Present(list[..i])
      {
        assert list[..i+1] == list[..i] + [list[i]];
        present := present + {list[i].name};
      }
      assert list[..|list|] == list;
      ghost var fates: map<Id, HealFates> := map[];
      ghost var w0 := cli.world;
      for i := 0 to |list|
        invariant forall k :: k in fates ==> exists j :: 0 <= j < i && list[j].id == k
        invariant forall g: Id -> HealFates :: Extends(g, fates) ==>
                    Heal(w0, present, list, g) == Heal(cli.world, present, list[i..], g)
      {
        ghost var w1, before := cli.world, fates;
        ghost var h := HealEntry(present, list[i]);
        assert list[i].id !in fates;
        fates := fates[list[i].id := h];
        forall g: Id -> HealFates | Extends(g, fates)
          ensures Heal(w0, present, list, g) == Heal(cli.world, present, list[i+1..], g)
        {
          assert Extends(g, before) && g(list[i].id) == h;
          assert list[i..][0] == list[i] && list[i..][1..] == list[i+1..];
        }
      }
      f := (k: Id) => if k in fates then fates[k] else HealFates(false, false, false);
      assert Extends(f, fates);
    }

    method HealEntry(present: set<Name>, e: Listed) returns (ghost f: HealFates)
      modifies cli
      ensures cli.world == HealOne(old(cli.world), present, e, f)
    {
      ghost var remove, rename, start := false, false, false;
      var ok;
      if e.name.Old? {
        if e.name.of in present {
          ok, remove := cli.ContainerRemove(e.id);
        } else {
          ok, rename := cli.ContainerRename(e.id, e.name.of);
          if ok { ok, start := cli.ContainerStart(e.id); }
        }
      }
      f := HealFates(remove, rename, start);
    }
  }

  ghost predicate Extends(g: Id -> HealFates, fates: map<Id, HealFates>) {
    forall k :: k in fates ==> g(k) == fates[k]
  }
}
