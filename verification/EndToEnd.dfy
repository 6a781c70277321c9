/** Relay and daemon together: no accepted poke is swallowed.

    Frames between the two are reliable and the daemon process stays up; the relay
    runs with all its interleavings, and frames arrive after any delay. */
module EndToEnd {
  import opened Common
  import Base64Url
  import R = Relay
  import S = RelaySafety
  import D = Debounce

  /** The relay, the frames under way, the daemon's debounce with the triggers it has
      set off, and the pokes accepted so far by time of arrival. */
  datatype World = World(relay: R.Instance, wire: nat, daemon: D.Progress, accepted: set<int>)

  datatype Action = AtRelay(a: R.Action) | Arrive | Expire

  predicate Enabled(w: World, x: Action) {
    match x
    case AtRelay(a) => R.Enabled(w.relay, a)
    case Arrive => w.wire > 0
    case Expire => w.daemon.timer.Some? && w.daemon.timer.value.due <= w.relay.now
  }

  /** A frame goes out to each listener; arriving, it restarts the debounce. */
  function Step(w: World, x: Action): World
    requires Enabled(w, x)
  {
    match x
    case AtRelay(a) =>
      var r := R.Step(w.relay, a);
      w.(relay := r.state, wire := w.wire + |r.sent|,
         accepted := if a.DoPokeEnd? then w.accepted + {a.t} else w.accepted)
    case Arrive => w.(wire := w.wire - 1, daemon := D.Handle(w.daemon, D.Frame(w.relay.now, Some(""))))
    case Expire => w.(daemon := D.Elapse(w.daemon, w.relay.now))
  }

  predicate ValidRun(w: World, xs: seq<Action>)
    decreases |xs|
  {
    xs == [] || (Enabled(w, xs[0]) && ValidRun(Step(w, xs[0]), xs[1..]))
  }

  function Run(w: World, xs: seq<Action>): World
    requires ValidRun(w, xs)
    decreases |xs|
  {
    if xs == [] then w else Run(Step(w, xs[0]), xs[1..])
  }

  /** Something is still due to happen, or has happened, because of a poke that was
      accepted for time `t`. */
  ghost predicate Covered(w: World, t: int) {
    || w.relay.pending
    || w.wire > 0
    || (exists x :: x in w.daemon.fired && x.at > t)
    || (w.daemon.timer.Some? && w.daemon.timer.value.due > t + R.POKE_COALESCE_MS)
  }

  /** The delivery that later pokes are coalesced with keeps the daemon busy for
      the full debounce. */
  ghost predicate LastDeliveryHolds(w: World) {
    var last := w.relay.lastPokeAt;
    || last == 0
    || w.wire > 0
    || (exists x :: x in w.daemon.fired && x.at >= last + D.DEBOUNCE)
    || (w.daemon.timer.Some? && w.daemon.timer.value.due >= last + D.DEBOUNCE)
  }

  /** The clock has been running for at least the coalescing window, so that the
      absent stamp (read as 0) never swallows a poke. */
  ghost predicate Inv(w: World) {
    && S.Timely(w.relay) && LastDeliveryHolds(w)
    && (forall t :: t in w.relay.work.pokes ==> t >= R.POKE_COALESCE_MS)
    && w.relay.now >= R.POKE_COALESCE_MS
    && (forall t :: t in w.accepted ==> t <= w.relay.now && Covered(w, t))
  }

  lemma {:induction false} RelayStepKeeps(w: World, a: R.Action)
    requires R.Enabled(w.relay, a) && Inv(w)
    ensures Inv(Step(w, AtRelay(a)))
  {
    hide Base64Url.Encoded, Base64Url.Decoded, Base64Url.Binary, R.Where;
    S.StepTimely(w.relay, a);
    S.ClearedOnlyByDelivery(w.relay, a);
    var r := R.Step(w.relay, a);
    var v := Step(w, AtRelay(a));
    PokeTimes(w.relay, a);
    StampMoves(w.relay, a);
    assert r.sent != {} ==> v.wire > 0;
    if a.DoPokeEnd? && v.wire == 0 && !v.relay.pending {
      // Coalesced: the last delivery is recent, and it still holds.
      assert a.t - w.relay.lastPokeAt < R.POKE_COALESCE_MS;
      assert w.relay.lastPokeAt != 0;
      assert Covered(v, a.t);
    }
    forall t | t in w.accepted ensures Covered(v, t) {
      assert Covered(w, t);
    }
  }

  /** Suspended pokes carry the time at which they came. */
  lemma PokeTimes(s: R.Instance, a: R.Action)
    requires R.Enabled(s, a)
    ensures forall t :: t in R.Step(s, a).state.work.pokes ==> t in s.work.pokes || t == s.now
  {
    hide Base64Url.Encoded, Base64Url.Decoded, Base64Url.Binary, R.Where;
  }

  /** The stamp moves only together with a delivery. */
  lemma StampMoves(s: R.Instance, a: R.Action)
    requires R.Enabled(s, a)
    ensures R.Step(s, a).state.lastPokeAt != s.lastPokeAt ==> R.Step(s, a).sent != {}
  {
    hide Base64Url.Encoded, Base64Url.Decoded, Base64Url.Binary;
  }

  lemma DaemonStepKeeps(w: World, x: Action)
    requires !x.AtRelay? && Enabled(w, x) && Inv(w)
    ensures Inv(Step(w, x))
  {
    var v := Step(w, x);
    forall y | y in w.daemon.fired ensures y in v.daemon.fired {}
    if w.daemon.timer.Some? && w.daemon.timer.value.due <= w.relay.now {
      var y := D.Trigger(w.daemon.timer.value.due, w.daemon.timer.value.reason);
      assert y in v.daemon.fired;
    }
    forall t | t in w.accepted ensures Covered(v, t) {
      assert Covered(w, t);
    }
  }

  function Init(now: int): World {
    World(R.Init(now), 0, D.IDLE, {})
  }

  lemma {:induction false} RunKeeps(w: World, xs: seq<Action>)
    requires ValidRun(w, xs) && Inv(w)
    ensures Inv(Run(w, xs))
    decreases |xs|
  {
    if xs != [] {
      hide Step, Inv, Enabled;
      StepKeeps(w, xs[0]);
      RunKeeps(Step(w, xs[0]), xs[1..]);
    }
  }

  lemma {:induction false} StepKeeps(w: World, x: Action)
    requires Enabled(w, x) && Inv(w)
    ensures Inv(Step(w, x))
  {
    match x
    case AtRelay(a) => RelayStepKeeps(w, a);
    case _ => DaemonStepKeeps(w, x);
  }

  /** No accepted poke is swallowed. After any run, every poke accepted for time `t`
      is stored as pending, or on the wire, or followed by a trigger later than `t`,
      or covered by an armed timer due more than 5 s after `t`: the daemon's 10 s
      debounce outlasts the relay's 5 s coalescing. */
  lemma {:induction false} NoPokeSwallowed(now: int, xs: seq<Action>, t: int)
    requires now >= R.POKE_COALESCE_MS && ValidRun(Init(now), xs)
    requires t in Run(Init(now), xs).accepted
    ensures Covered(Run(Init(now), xs), t)
  {
    RunKeeps(Init(now), xs);
  }

  /** Once the relay holds no pending poke, the wire is empty and no timer is armed,
      every accepted poke has been answered by a later trigger. */
  lemma {:induction false} QuietMeansTriggered(now: int, xs: seq<Action>, t: int)
    requires now >= R.POKE_COALESCE_MS && ValidRun(Init(now), xs)
    requires t in Run(Init(now), xs).accepted
    requires var w := Run(Init(now), xs); !w.relay.pending && w.wire == 0 && w.daemon.timer.None?
    ensures exists x :: x in Run(Init(now), xs).daemon.fired && x.at > t
  {
    NoPokeSwallowed(now, xs, t);
  }
}
