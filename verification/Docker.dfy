/** The Docker host as PullPilot sees it: containers by id, with unique names.
    Every call either takes effect or is refused without effect. */
module Docker {
  import opened Common

  /** A container name: a plain one, or another name with "_pp_old" appended. */
  datatype Name = Base(stem: string) | Old(of: Name)

  function Root(n: Name): string {
    match n case Base(b) => b case Old(m) => Root(m)
  }

  const SUFFIX: string := "_pp_old"

  predicate EndsWithSuffix(s: string) {
    |s| >= |SUFFIX| && s[|s| - |SUFFIX|..] == SUFFIX
  }

  /** The name as the daemon spells it. */
  function Render(n: Name): string {
    match n case Base(b) => b case Old(m) => Render(m) + SUFFIX
  }

  /** Repeated `strings.CutSuffix(name, "_pp_old")`. */
  function Parse(s: string): Name
    decreases |s|
  {
    if EndsWithSuffix(s) then Old(Parse(s[..|s| - |SUFFIX|])) else Base(s)
  }

  predicate Plain(n: Name) { !EndsWithSuffix(Root(n)) }

  /** Names and their spellings correspond one to one, so working with `Name`
      loses nothing: appending the suffix is `Old`, cutting it is `.of`. */
  lemma {:induction false} ParseRender(n: Name)
    requires Plain(n)
    ensures Parse(Render(n)) == n
    ensures EndsWithSuffix(Render(n)) <==> n.Old?
  {
    match n
    case Base(b) =>
    case Old(m) =>
      ParseRender(m);
      var s := Render(m) + SUFFIX;
      assert s[|s| - |SUFFIX|..] == SUFFIX;
      assert s[..|s| - |SUFFIX|] == Render(m);
  }

  lemma {:induction false} RenderParse(s: string)
    ensures Plain(Parse(s)) && Render(Parse(s)) == s
    decreases |s|
  {
    if EndsWithSuffix(s) {
      RenderParse(s[..|s| - |SUFFIX|]);
      assert s[..|s| - |SUFFIX|] + s[|s| - |SUFFIX|..] == s;
    }
  }

  /** What survives a recreate: aliases, links, static addresses, driver options. */
  datatype EndpointConfig = EndpointConfig(aliases: seq<string>, links: seq<string>,
                                           ipam: Option<string>, driverOpts: map<string, string>)

  /** An attached endpoint: its configuration and the address the host assigned. */
  datatype Endpoint = Endpoint(config: EndpointConfig, address: nat)

  type Id = nat

  datatype Container = Container(name: Name, image: string, digest: string,
                                 running: bool, nets: map<string, Endpoint>)

  /** `next` is the id the host gives to the next container it creates. */
  datatype World = World(cs: map<Id, Container>, next: Id)

  ghost predicate Wf(w: World) {
    && (forall i :: i in w.cs ==> i < w.next)
    && (forall i, j :: i in w.cs && j in w.cs && i != j ==> w.cs[i].name != w.cs[j].name)
  }

  predicate Taken(w: World, n: Name) {
    exists i :: i in w.cs && w.cs[i].name == n
  }

  ghost predicate Holds(w: World, i: Id, n: Name) {
    i in w.cs && w.cs[i].name == n
  }

  // ----- the calls, as functions of the world and of whether the host accepts

  datatype Reply = Reply(world: World, ok: bool)

  function Stop(w: World, i: Id, accept: bool): Reply {
    if accept && i in w.cs
    then Reply(w.(cs := w.cs[i := w.cs[i].(running := false)]), true)
    else Reply(w, false)
  }

  function Start(w: World, i: Id, accept: bool): Reply {
    if accept && i in w.cs
    then Reply(w.(cs := w.cs[i := w.cs[i].(running := true)]), true)
    else Reply(w, false)
  }

  /** Renaming onto a name in use is refused, also when it is the container's own. */
  function Rename(w: World, i: Id, to: Name, accept: bool): Reply {
    if accept && i in w.cs && !Taken(w, to)
    then Reply(w.(cs := w.cs[i := w.cs[i].(name := to)]), true)
    else Reply(w, false)
  }

  /** Without `Force`, the host refuses to remove a running container. */
  function Remove(w: World, i: Id, accept: bool): Reply {
    if accept && i in w.cs && !w.cs[i].running
    then Reply(w.(cs := w.cs - {i}), true)
    else Reply(w, false)
  }

  function Attached(nets: map<string, EndpointConfig>, address: nat): map<string, Endpoint> {
    map n | n in nets :: Endpoint(nets[n], address)
  }

  /** The new container, if any, gets id `w.next` and is created stopped. */
  function Create(w: World, n: Name, image: string, digest: string,
                  nets: map<string, EndpointConfig>, accept: bool): Reply
  {
    if accept && !Taken(w, n)
    then Reply(World(w.cs[w.next := Container(n, image, digest, false, Attached(nets, w.next))], w.next + 1), true)
    else Reply(w, false)
  }

  function Connect(w: World, i: Id, net: string, ep: EndpointConfig, accept: bool): Reply {
    if accept && i in w.cs && net !in w.cs[i].nets
    then Reply(w.(cs := w.cs[i := w.cs[i].(nets := w.cs[i].nets[net := Endpoint(ep, i)])]), true)
    else Reply(w, false)
  }

  /** The id a name refers to; calls that take a name resolve it first. */
  ghost function Resolve(w: World, n: Name): (r: Option<Id>)
    ensures r.Some? ==> Holds(w, r.value, n)
    ensures r.None? <==> !Taken(w, n)
  {
    if Taken(w, n) then
      var i :| i in w.cs && w.cs[i].name == n;
      Some(i)
    else None
  }

  ghost function RenameNamed(w: World, n: Name, to: Name, accept: bool): Reply {
    match Resolve(w, n) case Some(i) => Rename(w, i, to, accept) case None => Reply(w, false)
  }

  ghost function RemoveNamed(w: World, n: Name, accept: bool): Reply {
    match Resolve(w, n) case Some(i) => Remove(w, i, accept) case None => Reply(w, false)
  }

  /** The client handle. Whether the host accepts a call is not up to the caller:
      each method picks freely and reports the choice as a ghost result. */
  class Client {
    var world: World

    constructor (w: World)
      ensures world == w
    {
      world := w;
    }

    method ContainerStop(i: Id) returns (ok: bool, ghost accept: bool)
      modifies this
      ensures Reply(world, ok) == Stop(old(world), i, accept)
      ensures Wf(old(world)) ==> Wf(world)
    {
      var choice: bool := *;
      accept := choice;
      var r := Stop(world, i, choice);
      world, ok := r.world, r.ok;
    }

    method ContainerStart(i: Id) returns (ok: bool, ghost accept: bool)
      modifies this
      ensures Reply(world, ok) == Start(old(world), i, accept)
      ensures Wf(old(world)) ==> Wf(world)
    {
      var choice: bool := *;
      accept := choice;
      var r := Start(world, i, choice);
      world, ok := r.world, r.ok;
    }

    method ContainerRename(i: Id, to: Name) returns (ok: bool, ghost accept: bool)
      modifies this
      ensures Reply(world, ok) == Rename(old(world), i, to, accept)
      ensures Wf(old(world)) ==> Wf(world)
    {
      var choice: bool := *;
      accept := choice;
      var r := Rename(world, i, to, choice);
      world, ok := r.world, r.ok;
    }

    method ContainerRemove(i: Id) returns (ok: bool, ghost accept: bool)
      modifies this
      ensures Reply(world, ok) == Remove(old(world), i, accept)
      ensures Wf(old(world)) ==> Wf(world)
    {
      var choice: bool := *;
      accept := choice;
      var r := Remove(world, i, choice);
      world, ok := r.world, r.ok;
    }

    method ContainerCreate(n: Name, image: string, digest: string, nets: map<string, EndpointConfig>)
      returns (ok: bool, id: Id, ghost accept: bool)
      modifies this
      ensures Reply(world, ok) == Create(old(world), n, image, digest, nets, accept)
      ensures Wf(old(world)) ==> Wf(world)
      ensures id == old(world).next
    {
      var choice: bool := *;
      accept := choice;
      id := world.next;
      var r := Create(world, n, image, digest, nets, choice);
      world, ok := r.world, r.ok;
    }

    method NetworkConnect(net: string, i: Id, ep: EndpointConfig) returns (ok: bool, ghost accept: bool)
      modifies this
      ensures Reply(world, ok) == Connect(old(world), i, net, ep, accept)
      ensures Wf(old(world)) ==> Wf(world)
    {
      var choice: bool := *;
      accept := choice;
      var r := Connect(world, i, net, ep, choice);
      world, ok := r.world, r.ok;
    }

    method RenameByName(n: Name, to: Name) returns (ok: bool, ghost accept: bool)
      requires Wf(world)
      modifies this
      ensures Reply(world, ok) == RenameNamed(old(world), n, to, accept)
      ensures Wf(world)
    {
      if Taken(world, n) {
        var i :| i in world.cs && world.cs[i].name == n;
        ok, accept := ContainerRename(i, to);
      } else {
        ok, accept := false, false;
      }
    }

    method RemoveByName(n: Name) returns (ok: bool, ghost accept: bool)
      requires Wf(world)
      modifies this
      ensures Reply(world, ok) == RemoveNamed(old(world), n, accept)
      ensures Wf(world)
    {
      if Taken(world, n) {
        var i :| i in world.cs && world.cs[i].name == n;
        ok, accept := ContainerRemove(i);
      } else {
        ok, accept := false, false;
      }
    }
  }
}
