/** Deciding what to do with each container: `eligible`, `discover`, `evaluate`
    and `buildPlan`. Times and durations are integers. */
module Planning {
  import opened Common
  import opened Bookkeeping

  /** The image reference as the reference parser classifies it. */
  datatype Reference = Unparseable | Pinned | Tagged

  datatype Settings = Settings(enable: Option<bool>, exclude: bool, oneoff: bool,
                               monitorOnly: bool, soak: Option<int>, order: int)

  datatype Target = Target(id: nat, name: string, image: string, ref: Reference,
                           set_: Settings, running: bool)

  datatype Scope = All | Project(name: string)

  datatype Config = Config(scope: Scope, soak: int, selfId: Option<nat>, selfUpdate: bool)

  /** What the local image store and the registry answer; `None` is an error. */
  datatype Registry = Registry(running: nat -> Option<string>, remote: string -> Option<string>)

  datatype Action = UpToDate | Skip | Monitor | Soaking | Update

  datatype Assessment = Assessment(target: Target, current: string, available: string,
                                   action: Action, reason: string, soakLeft: int)

  // ----- discovery

  /** One entry of the container list, with whether inspecting it works. */
  datatype Candidate = Candidate(target: Target, project: string, inspected: bool)

  predicate Eligible(cfg: Config, t: Target) {
    && !(cfg.selfId == Some(t.id) && !cfg.selfUpdate)
    && !t.set_.oneoff && !t.set_.exclude
    && t.set_.enable != Some(false)
  }

  predicate InScope(cfg: Config, c: Candidate) {
    cfg.scope.All? || (cfg.scope.name != "" && c.project == cfg.scope.name)
  }

  ghost predicate DistinctListing(list: seq<Candidate>) {
    forall i, j :: 0 <= i < j < |list| ==> list[i].target.id != list[j].target.id
  }

  ghost predicate DistinctIds(ts: seq<Target>) {
    forall i, j :: 0 <= i < j < |ts| ==> ts[i].id != ts[j].id
  }

  lemma NewTarget(list: seq<Candidate>, i: nat, ts: seq<Target>)
    requires i < |list| && DistinctListing(list) && DistinctIds(ts)
    requires forall t :: t in ts ==> exists c :: c in list[..i] && c.target == t
    ensures DistinctIds(ts + [list[i].target])
  {
    forall x | 0 <= x < |ts| ensures ts[x].id != list[i].target.id {
      assert ts[x] in ts;
      var c :| c in list[..i] && c.target == ts[x];
    }
  }

  /** Only containers in scope, not opted out, and inspectable are managed; with
      an unknown project that is none at all, not all of them. */
  method Discover(cfg: Config, list: seq<Candidate>) returns (targets: seq<Target>)
    ensures forall t :: t in targets <==>
              exists c :: c in list && c.target == t && InScope(cfg, c) && c.inspected && Eligible(cfg, t)
    ensures forall t :: t in targets ==>
              && !t.set_.oneoff && !t.set_.exclude && t.set_.enable != Some(false)
              && (cfg.selfId == Some(t.id) ==> cfg.selfUpdate)
    ensures cfg.scope.All? ==>
              forall c :: c in list && c.inspected ==>
                || c.target.set_.oneoff || c.target.set_.exclude || c.target.set_.enable == Some(false)
                || (cfg.selfId == Some(c.target.id) && !cfg.selfUpdate) || c.target in targets
    ensures cfg.scope.Project? ==> forall t :: t in targets ==> exists c :: c in list && c.target == t && c.project == cfg.scope.name
    ensures cfg.scope == Project("") ==> targets == []
    ensures DistinctListing(list) ==> DistinctIds(targets)
  {
    targets := [];
    if cfg.scope == Project("") { return; }
    for i := 0 to |list|
      invariant DistinctListing(list) ==> DistinctIds(targets)
      invariant forall t :: t in targets <==>
                  exists c :: c in list[..i] && c.target == t && InScope(cfg, c) && c.inspected && Eligible(cfg, t)
    {
      var c := list[i];
      assert list[..i+1] == list[..i] + [c];
      if (cfg.scope.Project? ==> c.project == cfg.scope.name) && Eligible(cfg, c.target) && c.inspected {
        if DistinctListing(list) { NewTarget(list, i, targets); }
        targets := targets + [c.target];
      }
    }
    assert list[..|list|] == list;
  }

  // ----- evaluation

  function SoakOf(cfg: Config, t: Target): int {
    if t.set_.soak.Some? then t.set_.soak.value else cfg.soak
  }

  /** When the digest was first seen, taking now if it never was. */
  function First(b: Book, name: string, digest: string, now: int): int {
    var k := KeyOf(name, digest);
    if k in b.firstSeen then b.firstSeen[k] else now
  }

  /** The decision for one container. `now` is the clock when the soak record is
      consulted and `later` when the elapsed time is computed. */
  function Assess(cfg: Config, reg: Registry, b: Book, t: Target, now: int, later: int): Assessment {
    var skip := Assessment(t, "", "", Skip, "", 0);
    if t.ref.Unparseable? then skip.(reason := "unparseable image ref")
    else if t.ref.Pinned? then skip.(reason := "pinned by digest")
    else if reg.running(t.id) in {None, Some("")} then skip.(reason := "no local repo digest (locally-built image?)")
    else
      var current := reg.running(t.id).value;
      var known := skip.(current := current);
      if reg.remote(t.image).None? then known.(reason := "registry unreachable")
      else
        var remote := reg.remote(t.image).value;
        var seen := known.(available := remote);
        if remote == current then seen.(action := UpToDate, reason := "current")
        else if cfg.selfId == Some(t.id) then seen.(action := Monitor, reason := "self-update available (notify only)")
        else if Flag(b.badDigests, remote) then seen.(reason := "digest previously failed health check")
        else if t.set_.monitorOnly then seen.(action := Monitor, reason := "monitor-only")
        else
          var elapsed := later - First(b, t.name, remote, now);
          var soak := SoakOf(cfg, t);
          if elapsed < soak then seen.(action := Soaking, reason := "within soak window", soakLeft := soak - elapsed)
          else seen.(action := Update, reason := "newer image, soak elapsed")
  }

  /** The soak gate was reached, so the soak clock was consulted. */
  predicate Gated(a: Assessment) { a.action in {Soaking, Update} }

  /** What evaluating does to the book when it records. */
  function Recorded(b: Book, a: Assessment, now: int): Book {
    if Gated(a) then SeenAt(b, a.target.name, a.available, now).0 else b
  }

  /** An update is proposed exactly for a tagged, known, changed, foreign, not
      blacklisted, not monitor-only image whose soak has elapsed. */
  lemma UpdateIff(cfg: Config, reg: Registry, b: Book, t: Target, now: int, later: int)
    ensures var a := Assess(cfg, reg, b, t, now, later);
            a.action == Update <==>
              && t.ref.Tagged? && reg.running(t.id) !in {None, Some("")}
              && reg.remote(t.image).Some? && reg.remote(t.image) != reg.running(t.id)
              && cfg.selfId != Some(t.id) && !t.set_.monitorOnly
              && !Flag(b.badDigests, reg.remote(t.image).value)
              && later - First(b, t.name, reg.remote(t.image).value, now) >= SoakOf(cfg, t)
    ensures Assess(cfg, reg, b, t, now, later).target == t
    ensures Gated(Assess(cfg, reg, b, t, now, later)) ==>
              reg.remote(t.image) == Some(Assess(cfg, reg, b, t, now, later).available)
  {
  }

  /** The container's image is tagged, its running digest known, and the registry offers
      another one. */
  predicate Outdated(reg: Registry, t: Target) {
    && t.ref.Tagged? && reg.running(t.id) !in {None, Some("")}
    && reg.remote(t.image) !in {None, reg.running(t.id)}
  }

  /** When each of the other actions is decided. The daemon's own container is only
      monitored, even for a blacklisted digest; a blacklisted digest is skipped, even
      where updates are only monitored. */
  lemma OtherActionsIff(cfg: Config, reg: Registry, b: Book, t: Target, now: int, later: int)
    ensures var a := Assess(cfg, reg, b, t, now, later);
            var own := cfg.selfId == Some(t.id);
            var bad := reg.remote(t.image).Some? && Flag(b.badDigests, reg.remote(t.image).value);
            && (a.action == UpToDate <==>
                  t.ref.Tagged? && reg.running(t.id) !in {None, Some("")} && reg.remote(t.image) == reg.running(t.id))
            && (a.action == Monitor <==> Outdated(reg, t) && (own || (t.set_.monitorOnly && !bad)))
            && (a.action == Skip <==>
                  || !t.ref.Tagged? || reg.running(t.id) in {None, Some("")} || reg.remote(t.image).None?
                  || (Outdated(reg, t) && !own && bad))
            && (a.action in {Soaking, Update} <==> Outdated(reg, t) && !own && !t.set_.monitorOnly && !bad)
  {
  }

  /** What decides between soaking and updating: the container's own soak, or else the
      configured one, and the age of its clock, or of no time at all without one. */
  lemma SoakDecides(cfg: Config, reg: Registry, b: Book, t: Target, now: int, later: int)
    requires Gated(Assess(cfg, reg, b, t, now, later))
    ensures var a := Assess(cfg, reg, b, t, now, later);
            && (t.set_.soak.Some? ==> SoakOf(cfg, t) == t.set_.soak.value)
            && (t.set_.soak == None ==> SoakOf(cfg, t) == cfg.soak)
            && (KeyOf(t.name, a.available) in b.firstSeen ==>
                  (a.action == Soaking <==> later - b.firstSeen[KeyOf(t.name, a.available)] < SoakOf(cfg, t)))
            && (KeyOf(t.name, a.available) !in b.firstSeen ==> (a.action == Soaking <==> later - now < SoakOf(cfg, t)))
  {
    hide KeyOf;
  }

  /** What a plan reports: the digests it knew of, and why it decides as it does. */
  lemma PlanReports(cfg: Config, reg: Registry, b: Book, t: Target, now: int, later: int)
    ensures var a := Assess(cfg, reg, b, t, now, later);
            var known := t.ref.Tagged? && reg.running(t.id) !in {None, Some("")};
            && a.target == t
            && Some(a.current) == (if known then reg.running(t.id) else Some(""))
            && Some(a.available) == (if known && reg.remote(t.image).Some? then reg.remote(t.image) else Some(""))
            && (a.soakLeft > 0 <==> a.action == Soaking)
            && (a.reason == "unparseable image ref" <==> t.ref.Unparseable?)
            && (a.reason == "pinned by digest" <==> t.ref.Pinned?)
            && (a.reason == "no local repo digest (locally-built image?)" <==> t.ref.Tagged? && !known)
            && (a.reason == "registry unreachable" <==> known && reg.remote(t.image).None?)
            && (a.reason == "current" <==> a.action == UpToDate)
            && (a.reason == "self-update available (notify only)" <==> Outdated(reg, t) && cfg.selfId == Some(t.id))
            && (a.reason == "digest previously failed health check" <==>
                  Outdated(reg, t) && cfg.selfId != Some(t.id) && Flag(b.badDigests, reg.remote(t.image).value))
            && (a.reason == "monitor-only" <==> a.action == Monitor && cfg.selfId != Some(t.id))
            && (a.reason == "within soak window" <==> a.action == Soaking)
            && (a.reason == "newer image, soak elapsed" <==> a.action == Update)
  {
    hide First, SoakOf;
    ReasonsDiffer();
  }

  /** No two reasons read the same. */
  lemma ReasonsDiffer()
    ensures |"unparseable image ref"| == 21 && |"pinned by digest"| == 16
    ensures |"no local repo digest (locally-built image?)"| == 43 && |"registry unreachable"| == 20
    ensures |"current"| == 7 && |"self-update available (notify only)"| == 35
    ensures |"digest previously failed health check"| == 37 && |"monitor-only"| == 12
    ensures |"within soak window"| == 18 && |"newer image, soak elapsed"| == 25
  {
  }

  /** The remaining soak is exact: with the clock recorded and everything else as it
      was, the container is due once that time has passed, and no sooner. */
  lemma SoakLeftIsExact(cfg: Config, reg: Registry, b: Book, t: Target, now: int, later: int, now': int, later': int)
    requires Assess(cfg, reg, b, t, now, later).action == Soaking
    ensures var a := Assess(cfg, reg, b, t, now, later);
            var next := Assess(cfg, reg, Recorded(b, a, now), t, now', later');
            && a.soakLeft > 0
            && next.action == (if later' - later >= a.soakLeft then Update else Soaking)
  {
  }

  /** `evaluate`: fills in the plan branch by branch. Read-only views pass
      `record == false`. */
  method Evaluate(cfg: Config, reg: Registry, st: State, t: Target, now: int, later: int, record: bool)
    returns (p: Assessment, ghost saved: bool)
    modifies st
    ensures p == Assess(cfg, reg, old(st.Mem()), t, now, later)
    ensures st.Snapshot() == if record && Gated(p) then Step(old(st.Snapshot()), See(t.name, p.available, now, saved))
                             else old(st.Snapshot())
    ensures st.Mem() == if record then Recorded(old(st.Mem()), p, now) else old(st.Mem())
  {
    p, saved := Assessment(t, "", "", Skip, "", 0), false;
    if t.ref.Unparseable? {
      p := p.(reason := "unparseable image ref");
      return;
    }
    if t.ref.Pinned? {
      p := p.(reason := "pinned by digest");
      return;
    }
    var current := reg.running(t.id);
    if current.None? || current.value == "" {
      p := p.(reason := "no local repo digest (locally-built image?)");
      return;
    }
    p := p.(current := current.value);
    var remote := reg.remote(t.image);
    if remote.None? {
      p := p.(reason := "registry unreachable");
      return;
    }
    p := p.(available := remote.value);
    if remote.value == current.value {
      p := p.(action := UpToDate, reason := "current");
      return;
    }
    if cfg.selfId == Some(t.id) {
      p := p.(action := Monitor, reason := "self-update available (notify only)");
      return;
    }
    var bad := st.DoIsBad(remote.value);
    if bad {
      p := p.(reason := "digest previously failed health check");
      return;
    }
    if t.set_.monitorOnly {
      p := p.(action := Monitor, reason := "monitor-only");
      return;
    }
    var soak := cfg.soak;
    if t.set_.soak.Some? { soak := t.set_.soak.value; }
    var first;
    if record {
      first, saved := st.DoSeenAt(t.name, remote.value, now);
    } else {
      var t0 := st.DoPeekSeen(t.name, remote.value);
      first := if t0.Some? then t0.value else now;
    }
    var elapsed := later - first;
    if elapsed < soak {
      p := p.(action := Soaking, reason := "within soak window", soakLeft := soak - elapsed);
      return;
    }
    p := p.(action := Update, reason := "newer image, soak elapsed");
  }
}
