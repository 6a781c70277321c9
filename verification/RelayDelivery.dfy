/** What becomes of a poke and of an authentication, case by case and over runs. */
module RelayDelivery {
  import opened Common
  import opened Base64Url
  import opened Relay
  import opened RelaySafety
  import opened RelayTiming

  // ----- the fate of a poke

  /** A poke with nobody listening is stored, however recent the last delivery; with
      listeners it goes to all of them, unless one was delivered within 5 s. */
  lemma FateOfPoke(s: Instance, t: int)
    requires Enabled(s, DoPokeEnd(t))
    ensures var (r, sent) := (Step(s, DoPokeEnd(t)).state, Step(s, DoPokeEnd(t)).sent);
            && r.sockets == s.sockets
            && (Authed(s) == {} ==> r.pending && sent == {} && r.lastPokeAt == s.lastPokeAt)
            && (Authed(s) != {} && t - s.lastPokeAt >= POKE_COALESCE_MS ==> sent == Authed(s) && r.lastPokeAt == t && r.pending == s.pending)
            && (Authed(s) != {} && t - s.lastPokeAt < POKE_COALESCE_MS ==> sent == {} && r.lastPokeAt == s.lastPokeAt && r.pending == s.pending)
  {
    hide Where;
  }

  /** Whatever is sent goes to every listener there is. */
  lemma {:induction false} DeliveryReachesAll(s: Instance, a: Action)
    requires Enabled(s, a)
    ensures Step(s, a).sent == {} || Step(s, a).sent == Authed(s)
  {
    hide Encoded, Decoded, Binary, Where, Unauthed, Scan, Reaped, Guard;
  }

  /** Some step of the run delivers to all listeners of its moment. */
  predicate Delivers(s: Instance, as_: seq<Action>)
    requires ValidRun(s, as_)
    decreases |as_|
  {
    as_ != [] &&
    (var r := Step(s, as_[0]);
     (r.sent != {} && r.sent == Authed(s)) || Delivers(r.state, as_[1..]))
  }

  /** A stored poke stays stored until it is delivered. */
  lemma {:induction false} StoredUntilDelivered(s: Instance, as_: seq<Action>)
    requires ValidRun(s, as_) && s.pending
    ensures Run(s, as_).pending || Delivers(s, as_)
    decreases |as_|
  {
    if as_ != [] {
      ClearedOnlyByDelivery(s, as_[0]);
      DeliveryReachesAll(s, as_[0]);
      hide Step, Authed;
      if Step(s, as_[0]).state.pending { StoredUntilDelivered(Step(s, as_[0]).state, as_[1..]); }
    }
  }

  /** So a poke that finds nobody is never dropped, over any run that follows. */
  lemma {:induction false} UnheardPokeIsKept(s: Instance, t: int, as_: seq<Action>)
    requires Enabled(s, DoPokeEnd(t)) && Authed(s) == {} && ValidRun(Step(s, DoPokeEnd(t)).state, as_)
    ensures var r := Step(s, DoPokeEnd(t)).state; Run(r, as_).pending || Delivers(r, as_)
  {
    FateOfPoke(s, t);
    StoredUntilDelivered(Step(s, DoPokeEnd(t)).state, as_);
  }

  /** The socket is open all through the run. */
  predicate StaysOpen(s: Instance, as_: seq<Action>, ws: SockId)
    requires ValidRun(s, as_)
    decreases |as_|
  {
    ws in s.sockets && (as_ == [] || StaysOpen(Step(s, as_[0]).state, as_[1..], ws))
  }

  /** Some step of the run sends a poke to the socket. */
  predicate Serves(s: Instance, as_: seq<Action>, ws: SockId)
    requires ValidRun(s, as_)
    decreases |as_|
  {
    as_ != [] && (ws in Step(s, as_[0]).sent || Serves(Step(s, as_[0]).state, as_[1..], ws))
  }

  /** With a poke stored, a listener that stays is sent one by the next flush at the
      latest; and every successful authentication brings a flush (`CheckDecides`). */
  lemma {:induction false} ListenerIsServed(s: Instance, as_: seq<Action>, ws: SockId)
    requires ValidRun(s, as_) && Genuine(s) && s.pending && ws in Authed(s) && StaysOpen(s, as_, ws)
    requires DoFlush in as_
    ensures Serves(s, as_, ws)
    decreases |as_|
  {
    var a := as_[0];
    var r := Step(s, a);
    ClearedOnlyByDelivery(s, a);
    DeliveryReachesAll(s, a);
    if a.DoFlush? { FlushSends(s); }
    StepGenuine(s, a);
    assert ws in r.state.sockets;
    AuthedOnlyByCheck(s, a, ws);
    if r.sent == {} {
      assert DoFlush in as_[1..] by { assert as_ == [a] + as_[1..]; }
      hide Step, Genuine, Authed;
      ListenerIsServed(r.state, as_[1..], ws);
    }
  }

  lemma FlushSends(s: Instance)
    requires s.work.flushes > 0 && s.pending && Authed(s) != {}
    ensures Flush(s).sent == Authed(s) && !Flush(s).state.pending && Flush(s).state.lastPokeAt == s.now
  {
  }

  // ----- the fate of an authentication

  /** The verdict decides: a verified socket that is still there becomes a listener and
      brings a flush; one that fails is closed; no other socket is touched. */
  lemma CheckDecides(s: Instance, k: AuthWait, ok: bool)
    requires k in s.work.auths
    ensures var r := Step(s, DoAuthEnd(k, ok)).state;
            var verified := ok && Decoded(k.att.challenge).Some?;
            && (k.ws in Authed(r) <==> verified && k.ws in s.sockets)
            && (k.ws in r.sockets <==> verified && k.ws in s.sockets)
            && (forall i :: i != k.ws ==> (i in r.sockets <==> i in s.sockets) && (i in s.sockets ==> r.sockets[i] == s.sockets[i]))
            && r.work.flushes == s.work.flushes + (if verified && k.ws in s.sockets then 1 else 0)
            && r.work.auths == s.work.auths - multiset{k} && r.pending == s.pending
  {
    hide Decoded;
  }

  // ----- waking

  /** Every request tells the object which webhook it serves, also when it is refused,
      and it knows until it hibernates. */
  lemma {:induction false} KnownSinceRequest(s: Instance, as_: seq<Action>)
    requires as_ != [] && ValidRun(s, as_) && (as_[0].DoUpgrade? || as_[0].DoPokeBegin? || s.known)
    requires forall a :: a in as_ ==> !a.DoHibernate?
    ensures Run(s, as_).known
    decreases |as_|
  {
    StaysKnown(s, as_[0]) by { assert as_[0] in as_; }
    hide Step;
    if |as_| > 1 {
      assert forall a :: a in as_[1..] ==> a in as_;
      KnownSinceRequest(Step(s, as_[0]).state, as_[1..]);
    }
  }

  lemma StaysKnown(s: Instance, a: Action)
    requires Enabled(s, a) && !a.DoHibernate? && (a.DoUpgrade? || a.DoPokeBegin? || s.known)
    ensures Step(s, a).state.known
  {
    hide Encoded, Decoded, Binary, Where, Authed, Unauthed, Scan, Reaped, Guard;
  }

  // ----- the guard lets pokes pass

  /** The counter never counts more than has passed since its window began. */
  lemma {:induction false} CountsOnlyPassed(s: Instance, as_: seq<Action>, upto: int)
    requires ValidRun(s, as_) && Counting(s) && upto >= Run(s, as_).now
    ensures var w := Run(s, as_).window;
            && w.start >= s.window.start
            && w.count <= (if w.start == s.window.start then s.window.count else 0) + Passed(s, as_, w.start, upto)
    decreases |as_|
  {
    if as_ != [] {
      var r := Step(s, as_[0]).state;
      StepCounting(s, as_[0]);
      RunMovesOn(r, as_[1..]);
      NowMovesOn(s, as_[0]);
      hide Step;
      CountsOnlyPassed(r, as_[1..], upto);
      if as_[0].DoPokeBegin? { GuardMoves(s.window, s.now); }
    }
  }

  lemma GuardMoves(w: Window, now: int)
    requires 0 <= w.count <= POKE_MAX_PER_WINDOW && w.start <= now
    ensures var (v, pass) := Guard(w, now);
            && w.start <= v.start <= now
            && (v.start == w.start ==> v.count == w.count + (if pass then 1 else 0))
            && (v.start != w.start ==> v.start == now && v.count <= 1 && (v.count == 1 ==> pass))
  {
  }

  lemma NowMovesOn(s: Instance, a: Action)
    requires Enabled(s, a)
    ensures Step(s, a).state.now >= s.now
  {
    hide Encoded, Decoded, Binary, Where, Authed, Unauthed, Scan, Reaped, Guard;
  }

  lemma {:induction false} RunMovesOn(s: Instance, as_: seq<Action>)
    requires ValidRun(s, as_)
    ensures Run(s, as_).now >= s.now
    decreases |as_|
  {
    if as_ != [] {
      NowMovesOn(s, as_[0]);
      hide Step;
      RunMovesOn(Step(s, as_[0]).state, as_[1..]);
    }
  }

  /** The guard turns nobody away for nothing: in every run from the start, a poke passes
      if fewer than 100 have passed in the last 5 s. */
  lemma {:induction false} PassesUnlessBusy(now: int, as_: seq<Action>)
    requires now >= 0 && ValidRun(Init(now), as_)
    requires var r := Run(Init(now), as_); Passed(Init(now), as_, r.now - POKE_COALESCE_MS, r.now) < POKE_MAX_PER_WINDOW
    ensures var r := Run(Init(now), as_); Guard(r.window, r.now).1
  {
    var r := Run(Init(now), as_);
    CountsOnlyPassed(Init(now), as_, r.now);
    if r.now - r.window.start <= POKE_COALESCE_MS {
      PassedMonotone(Init(now), as_, r.window.start, r.now - POKE_COALESCE_MS, r.now);
    }
  }

  lemma {:induction false} PassedMonotone(s: Instance, as_: seq<Action>, from: int, from': int, upto: int)
    requires ValidRun(s, as_) && from' <= from
    ensures Passed(s, as_, from, upto) <= Passed(s, as_, from', upto)
    decreases |as_|
  {
    hide Step, Guard;
    if as_ != [] { PassedMonotone(Step(s, as_[0]).state, as_[1..], from, from', upto); }
  }
}
