/** Guarantees of the relay over every interleaving of its handlers. */
module RelaySafety {
  import opened Common
  import opened Base64Url
  import opened Relay

  // ----- what every step keeps

  /** Sockets for which a signature check is under way. */
  function Waiting(auths: multiset<AuthWait>): set<SockId> {
    set k | k in auths :: k.ws
  }

  /** Unauthed sockets that a check under way may still turn into listeners. */
  function Checking(s: Instance): set<SockId> {
    Unauthed(s) * Waiting(s.work.auths)
  }

  /** How many listeners there are, or will be if all checks under way succeed. */
  function Potential(s: Instance): nat {
    |Authed(s)| + |Checking(s)|
  }

  /** The caps: at most 8 sockets in the handshake, and at most 11 that are authed
      or could still become so. */
  ghost predicate Capped(s: Instance) {
    |Unauthed(s)| <= MAX_UNAUTHED_SOCKETS && Potential(s) <= 11
  }

  /** Sockets and suspended checks carry the challenge that was issued to them. */
  ghost predicate Genuine(s: Instance) {
    && (forall i :: i in s.sockets ==> i in s.history.issued && s.sockets[i].challenge == s.history.issued[i])
    && (forall k :: k in s.work.auths ==> IssuedTo(s, k))
    && (forall k :: k in s.work.auths && k.ws in s.sockets ==>
          s.sockets[k.ws].(authed := false) == k.att)
  }

  ghost predicate IssuedTo(s: Instance, k: AuthWait) {
    && k.ws in s.history.issued && !k.att.authed
    && k.att.challenge == s.history.issued[k.ws]
  }

  /** Authed only after a signature over the socket's own challenge was verified. */
  ghost predicate Authentic(s: Instance) {
    forall i :: i in s.sockets && s.sockets[i].authed ==> i in s.history.issued && (i, s.history.issued[i]) in s.history.verified
  }

  /** A stored poke waits for the next listener, or a flush is on its way. */
  predicate NotStranded(s: Instance) {
    s.pending ==> Authed(s) == {} || s.work.flushes > 0
  }

  /** Recorded times do not lie in the future. */
  ghost predicate Timely(s: Instance) {
    s.lastPokeAt <= s.now && forall t :: t in s.work.pokes ==> t <= s.now
  }

  // ----- cardinalities

  lemma SubsetSize<T>(a: set<T>, b: set<T>)
    requires a <= b
    ensures |a| <= |b|
  {
    assert b == a + (b - a);
  }

  lemma WhereUpdate(m: map<SockId, Socket>, i: SockId, a: Socket, flag: bool)
    ensures Where(m[i := a], flag) == if a.authed == flag then Where(m, flag) + {i} else Where(m, flag) - {i}
    ensures Where(m - {i}, flag) == Where(m, flag) - {i}
  {
  }

  lemma WaitingGrows(auths: multiset<AuthWait>, k: AuthWait)
    ensures Waiting(auths + multiset{k}) == Waiting(auths) + {k.ws}
    ensures Waiting(auths - multiset{k}) <= Waiting(auths)
  {
    forall i | i in Waiting(auths) + {k.ws} ensures i in Waiting(auths + multiset{k}) {
      if i == k.ws {
        assert k in auths + multiset{k};
      } else {
        var j :| j in auths && j.ws == i;
        assert j in auths + multiset{k};
      }
    }
  }

  /** Fewer sockets and no new check cannot add listeners to come. */
  lemma FewerPotential(s: Instance, r: Instance)
    requires Unauthed(r) <= Unauthed(s) && Authed(r) <= Authed(s)
    requires Waiting(r.work.auths) <= Waiting(s.work.auths)
    ensures Potential(r) <= Potential(s) && |Unauthed(r)| <= |Unauthed(s)|
  {
    SubsetSize(Unauthed(r), Unauthed(s));
    SubsetSize(Authed(r), Authed(s));
    SubsetSize(Checking(r), Checking(s));
  }

  lemma {:induction false} UpgradePotential(s: Instance, id: SockId, bytes: seq<Byte>)
    requires Genuine(s) && id !in s.history.issued
    ensures var r := Upgrade(s, id, bytes).state;
            Potential(r) <= Potential(s) && (|Unauthed(r)| <= |Unauthed(s)| || |Unauthed(r)| <= MAX_UNAUTHED_SOCKETS)
  {
    hide Encoded, Decoded, Binary, Where, Genuine, Waiting;
    var r := Upgrade(s, id, bytes).state;
    NobodyWaitsForNew(s, id);
    if |Unauthed(s)| < MAX_UNAUTHED_SOCKETS {
      var a := Socket(Encoded(bytes), s.now / 1000 + CHALLENGE_TTL_SECONDS, s.now, false);
      assert r.sockets == s.sockets[id := a];
      WhereUpdate(s.sockets, id, a, true);
      WhereUpdate(s.sockets, id, a, false);
      assert Checking(r) == Checking(s);
      SubsetSize(Authed(r), Authed(s));
    }
  }

  lemma NobodyWaitsForNew(s: Instance, id: SockId)
    requires Genuine(s) && id !in s.history.issued
    ensures id !in Waiting(s.work.auths)
  {
  }

  /** A check that begins makes its socket a candidate; it only begins with room. */
  lemma {:induction false} AuthBeginPotential(s: Instance, ws: SockId)
    ensures var r := AuthBegin(s, ws).state;
            if r.work != s.work then
              && Authed(r) == Authed(s) && Unauthed(r) == Unauthed(s) && |Authed(s)| < MAX_AUTHED_SOCKETS
              && Potential(r) <= |Authed(s)| + |Checking(s) - {ws}| + 1
            else Potential(r) <= Potential(s) && |Unauthed(r)| <= |Unauthed(s)|
  {
    hide Where;
    var r := AuthBegin(s, ws).state;
    if r.sockets != s.sockets {
      WhereUpdate(s.sockets, ws, s.sockets[ws], true);
      WhereUpdate(s.sockets, ws, s.sockets[ws], false);
      FewerPotential(s, r);
    } else if r.work != s.work {
      assert ws !in Authed(s) by { NotAuthed(s, ws); }
      assert Authed(s) - {ws} == Authed(s);
      WaitingGrows(s.work.auths, AuthWait(ws, s.sockets[ws]));
      assert Checking(r) <= (Checking(s) - {ws}) + {ws};
      SubsetSize(Checking(r), (Checking(s) - {ws}) + {ws});
    }
  }

  lemma NotAuthed(s: Instance, ws: SockId)
    requires ws in s.sockets && !s.sockets[ws].authed
    ensures ws !in Authed(s)
  {
  }

  /** A successful check turns one candidate into one listener. */
  lemma {:induction false} AuthEndPotential(s: Instance, k: AuthWait, ok: bool)
    requires Genuine(s) && k in s.work.auths
    ensures var r := AuthEnd(s, k, ok).state;
            Potential(r) <= Potential(s) && |Unauthed(r)| <= |Unauthed(s)|
  {
    hide Decoded, Where;
    var r := AuthEnd(s, k, ok).state;
    WaitingGrows(s.work.auths, k);
    WhereUpdate(s.sockets, k.ws, k.att.(authed := true), true);
    WhereUpdate(s.sockets, k.ws, k.att.(authed := true), false);
    if Authed(r) <= Authed(s) {
      FewerPotential(s, r);
    } else {
      assert Authed(r) == Authed(s) + {k.ws} && Unauthed(r) == Unauthed(s) - {k.ws};
      CheckedIsUnauthed(s, k);
      assert k.ws in Checking(s);
      assert Checking(r) <= Checking(s) - {k.ws};
      SubsetSize(Checking(r), Checking(s) - {k.ws});
      SubsetSize(Unauthed(r), Unauthed(s));
    }
  }

  lemma CheckedIsUnauthed(s: Instance, k: AuthWait)
    requires k in s.work.auths && k.ws in s.sockets
    ensures k.ws in Authed(s) || k.ws in Checking(s)
  {
  }

  /** The step lets a signature check begin. */
  predicate BeginsCheck(s: Instance, a: Action) {
    a.DoAuthBegin? && AuthBegin(s, a.ws).state.work != s.work
  }

  /** Only a check that begins can add a listener to come, and then one. */
  lemma {:induction false} StepPotential(s: Instance, a: Action)
    requires Enabled(s, a) && Genuine(s)
    ensures var r := Step(s, a).state;
            && (if BeginsCheck(s, a) then
                  && |Authed(s)| < MAX_AUTHED_SOCKETS && Authed(r) == Authed(s) && Unauthed(r) == Unauthed(s)
                  && Potential(r) <= |Authed(s)| + |Checking(s) - {a.ws}| + 1
                else Potential(r) <= Potential(s))
            && (|Unauthed(r)| <= |Unauthed(s)| || |Unauthed(r)| <= MAX_UNAUTHED_SOCKETS)
  {
    hide Potential, Genuine, Upgrade, AuthBegin, AuthEnd, Checking, Guard, Scan, Reschedule, Waiting;
    match a
    case DoUpgrade(id, bytes) => UpgradePotential(s, id, bytes);
    case DoAuthBegin(ws) => AuthBeginPotential(s, ws);
    case DoAuthEnd(k, ok) => AuthEndPotential(s, k, ok);
    case _ => FewerPotential(s, Step(s, a).state);
  }

  lemma {:induction false} StepCapped(s: Instance, a: Action)
    requires Enabled(s, a) && Capped(s) && Genuine(s)
    ensures Capped(Step(s, a).state)
  {
    hide Genuine, Step, AuthBegin, Waiting, Where;
    StepPotential(s, a);
    SubsetSize(Checking(Step(s, a).state), Unauthed(Step(s, a).state));
  }

  // ----- challenges and listeners

  lemma UpgradeGenuine(s: Instance, id: SockId, bytes: seq<Byte>)
    requires Genuine(s) && id !in s.history.issued
    ensures Genuine(Upgrade(s, id, bytes).state)
  {
    hide Encoded, Decoded, Binary, Where;
    var r := Upgrade(s, id, bytes).state;
    assert forall i :: i in s.history.issued ==> r.history.issued[i] == s.history.issued[i];
  }

  lemma FewerGenuine(s: Instance, r: Instance)
    requires Genuine(s) && r.work.auths == s.work.auths && r.history == s.history
    requires forall i :: i in r.sockets ==> i in s.sockets && r.sockets[i] == s.sockets[i]
    ensures Genuine(r)
  {
    hide Decoded, Encoded, Binary;
  }

  lemma AuthBeginGenuine(s: Instance, ws: SockId)
    requires Genuine(s)
    ensures Genuine(AuthBegin(s, ws).state)
  {
    hide Decoded, Where;
  }

  lemma AuthEndGenuine(s: Instance, k: AuthWait, ok: bool)
    requires Genuine(s) && k in s.work.auths
    ensures Genuine(AuthEnd(s, k, ok).state)
  {
    hide Decoded, Encoded, Binary;
  }

  lemma {:induction false} StepGenuine(s: Instance, a: Action)
    requires Enabled(s, a) && Genuine(s)
    ensures Genuine(Step(s, a).state)
  {
    hide Upgrade, AuthBegin, AuthEnd, Genuine;
    match a
    case DoUpgrade(id, bytes) => UpgradeGenuine(s, id, bytes);
    case DoAuthBegin(ws) => AuthBeginGenuine(s, ws);
    case DoAuthEnd(k, ok) => AuthEndGenuine(s, k, ok);
    case _ => FewerGenuine(s, Step(s, a).state);
  }

  lemma StepAuthentic(s: Instance, a: Action)
    requires Enabled(s, a) && Genuine(s) && Authentic(s)
    ensures Authentic(Step(s, a).state)
  {
    hide Upgrade, AuthBegin, AuthEnd, Genuine, Where;
    match a
    case DoUpgrade(id, bytes) => UpgradeAuthentic(s, id, bytes);
    case DoAuthEnd(k, ok) => AuthEndAuthentic(s, k, ok);
    case _ => OnlyFewer(s, a);
  }

  lemma UpgradeAuthentic(s: Instance, id: SockId, bytes: seq<Byte>)
    requires Genuine(s) && Authentic(s) && id !in s.history.issued
    ensures Authentic(Upgrade(s, id, bytes).state)
  {
    hide Encoded, Decoded, Binary, Unauthed;
  }

  lemma AuthEndAuthentic(s: Instance, k: AuthWait, ok: bool)
    requires Genuine(s) && Authentic(s) && k in s.work.auths
    ensures Authentic(AuthEnd(s, k, ok).state)
  {
    hide Decoded, Encoded, Binary;
  }

  /** Only an upgrade adds a socket and only a finished check rewrites one. */
  lemma OnlyFewer(s: Instance, a: Action)
    requires Enabled(s, a) && !a.DoUpgrade? && !a.DoAuthEnd?
    ensures var r := Step(s, a).state;
            && r.history == s.history && Authed(r) <= Authed(s)
            && (forall i :: i in r.sockets ==> i in s.sockets && r.sockets[i] == s.sockets[i])
  {
    hide Upgrade, AuthBegin, AuthEnd, Scan, Guard;
    if a.DoAuthBegin? { AuthBeginFewer(s, a.ws); }
  }

  lemma AuthBeginFewer(s: Instance, ws: SockId)
    ensures var r := AuthBegin(s, ws).state;
            && r.history == s.history && Authed(r) <= Authed(s)
            && (forall i :: i in r.sockets ==> i in s.sockets && r.sockets[i] == s.sockets[i])
  {
    hide Unauthed;
  }

  /** A listener stays one until it closes, and a socket becomes one only through
      its own successful signature check. */
  lemma AuthedOnlyByCheck(s: Instance, a: Action, i: SockId)
    requires Enabled(s, a) && Genuine(s) && i in Step(s, a).state.sockets
    ensures i in Authed(s) ==> i in Authed(Step(s, a).state)
    ensures i in Authed(Step(s, a).state) && i !in Authed(s) ==>
              a.DoAuthEnd? && a.ok && a.auth.ws == i && (i, s.history.issued[i]) in Step(s, a).state.history.verified
  {
    hide AuthBegin, AuthEnd, Upgrade, Genuine, Scan;
    match a
    case DoUpgrade(id, bytes) => UpgradeAddsNone(s, id, bytes);
    case DoAuthEnd(k, ok) => AuthEndAddsOwn(s, k, ok, i);
    case _ => OnlyFewer(s, a);
  }

  lemma UpgradeAddsNone(s: Instance, id: SockId, bytes: seq<Byte>)
    requires Genuine(s) && id !in s.history.issued
    ensures Authed(Upgrade(s, id, bytes).state) == Authed(s)
  {
    hide Encoded, Decoded, Binary, Unauthed;
  }

  lemma AuthEndAddsOwn(s: Instance, k: AuthWait, ok: bool, i: SockId)
    requires k in s.work.auths && Genuine(s) && i in AuthEnd(s, k, ok).state.sockets
    ensures var r := AuthEnd(s, k, ok).state;
            && (i in Authed(s) ==> i in Authed(r))
            && (i in Authed(r) && i !in Authed(s) ==> ok && k.ws == i && (i, s.history.issued[i]) in r.history.verified)
  {
    hide Decoded, Encoded, Binary;
  }

  // ----- pending pokes

  lemma StepNotStranded(s: Instance, a: Action)
    requires Enabled(s, a) && NotStranded(s)
    ensures NotStranded(Step(s, a).state)
  {
    hide Encoded, Decoded, Binary, AuthEnd, Scan, Unauthed, Where;
    if a.DoAuthEnd? {
      AuthEndNotStranded(s, a.auth, a.ok);
    } else {
      OtherAddsNone(s, a);
    }
  }

  lemma OtherAddsNone(s: Instance, a: Action)
    requires Enabled(s, a) && !a.DoAuthEnd?
    ensures Authed(Step(s, a).state) <= Authed(s)
  {
    hide Encoded, Decoded, Binary;
  }

  lemma AuthEndNotStranded(s: Instance, k: AuthWait, ok: bool)
    requires k in s.work.auths && NotStranded(s)
    ensures NotStranded(AuthEnd(s, k, ok).state)
  {
    hide Decoded, Encoded, Binary;
    var r := AuthEnd(s, k, ok).state;
    if Authed(s) == {} && r.work.flushes == 0 { assert Authed(r) == {}; }
  }

  /** The stored poke is cleared only together with a delivery to at least one
      listener, and every frame that is sent goes to listeners. */
  lemma ClearedOnlyByDelivery(s: Instance, a: Action)
    requires Enabled(s, a)
    ensures s.pending && !Step(s, a).state.pending ==> Step(s, a).sent != {}
    ensures Step(s, a).sent <= Authed(s)
    ensures a.DoPokeEnd? ==>
              Step(s, a).state.pending || Step(s, a).sent != {} || a.t - s.lastPokeAt < POKE_COALESCE_MS
  {
    hide Encoded, Decoded, Binary;
  }

  lemma StepTimely(s: Instance, a: Action)
    requires Enabled(s, a) && Timely(s)
    ensures Timely(Step(s, a).state) && Step(s, a).state.lastPokeAt >= s.lastPokeAt
    ensures Step(s, a).state.now >= s.now
  {
    hide Encoded, Decoded, Binary, Unauthed, Where, Scan, Reaped, Guard, Lowered, Reschedule;
  }

  // ----- every run

  ghost predicate Inv(s: Instance) {
    Capped(s) && Genuine(s) && Authentic(s) && NotStranded(s) && Timely(s)
  }

  lemma InitInv(now: int)
    requires now >= 0
    ensures Inv(Init(now))
  {
    assert Unauthed(Init(now)) == {} && Authed(Init(now)) == {};
  }

  lemma {:induction false} StepInv(s: Instance, a: Action)
    requires Enabled(s, a) && Inv(s)
    ensures Inv(Step(s, a).state)
  {
    hide Capped, Genuine, Authentic, NotStranded, Timely, Step;
    StepCapped(s, a);
    StepGenuine(s, a);
    StepAuthentic(s, a);
    StepNotStranded(s, a);
    StepTimely(s, a);
  }

  /** Over every run, with handlers interleaved at their awaits: at most 8 sockets
      in the handshake and at most 11 listeners; listeners are authentic; no stored
      poke is stranded. */
  lemma {:induction false} RunInv(s: Instance, as_: seq<Action>)
    requires ValidRun(s, as_) && Inv(s)
    ensures Inv(Run(s, as_))
    ensures |Unauthed(Run(s, as_))| <= MAX_UNAUTHED_SOCKETS && |Authed(Run(s, as_))| <= 11
    decreases |as_|
  {
    if as_ != [] {
      StepInv(s, as_[0]);
      hide Inv, Step;
      RunInv(Step(s, as_[0]).state, as_[1..]);
    }
  }

  /** And so from the start. */
  lemma {:induction false} EveryRunFromStart(now: int, as_: seq<Action>)
    requires now >= 0 && ValidRun(Init(now), as_)
    ensures var r := Run(Init(now), as_);
            && |Unauthed(r)| <= 8 && |Authed(r)| <= 11
            && Genuine(r) && Authentic(r) && NotStranded(r)
  {
    hide Run, ValidRun, Init, Capped, Genuine, Authentic, NotStranded;
    InitInv(now);
    RunInv(Init(now), as_);
  }

  lemma StepKeepsIssued(s: Instance, a: Action, i: SockId)
    requires Enabled(s, a) && i in s.history.issued
    ensures i in Step(s, a).state.history.issued && Step(s, a).state.history.issued[i] == s.history.issued[i]
  {
    hide Encoded, Decoded, Where, Authed, Unauthed, Scan, Reaped;
  }

  lemma {:induction false} RunKeepsIssued(s: Instance, as_: seq<Action>, i: SockId)
    requires ValidRun(s, as_) && i in s.history.issued
    ensures i in Run(s, as_).history.issued && Run(s, as_).history.issued[i] == s.history.issued[i]
    decreases |as_|
  {
    hide Step, Enabled;
    if as_ != [] {
      StepKeepsIssued(s, as_[0], i);
      RunKeepsIssued(Step(s, as_[0]).state, as_[1..], i);
    }
  }

  /** A socket that becomes a listener, however the run goes, had a signature verified
      over exactly the random bytes drawn for it when it opened. */
  lemma {:induction false} SignedOverOwnBytes(s: Instance, id: SockId, bytes: seq<Byte>, as_: seq<Action>)
    requires Inv(s) && id !in s.history.issued && ValidRun(Upgrade(s, id, bytes).state, as_)
    requires id in Authed(Run(Upgrade(s, id, bytes).state, as_))
    ensures exists text :: (id, text) in Run(Upgrade(s, id, bytes).state, as_).history.verified
                           && Decoded(text) == Some(Binary(bytes))
  {
    hide Encoded, Decoded, Binary, Inv, Run, ValidRun, Unauthed;
    var s1 := Upgrade(s, id, bytes).state;
    var a := DoUpgrade(id, bytes);
    assert Enabled(s, a) && Step(s, a).state == s1;
    assert Inv(s1) by { StepInv(s, a); }
    RunInv(s1, as_);
    RunKeepsIssued(s1, as_, id);
    RoundTrip(bytes);
    assert Authentic(Run(s1, as_)) by { InvParts(Run(s1, as_)); }
  }

  lemma InvParts(s: Instance)
    requires Inv(s)
    ensures Authentic(s)
  {
  }

  /** The stamps of direct deliveries in a run. */
  function Stamps(s: Instance, as_: seq<Action>): seq<int>
    requires ValidRun(s, as_)
    decreases |as_|
  {
    if as_ == [] then []
    else
      var r := Step(s, as_[0]);
      (if as_[0].DoPokeEnd? && r.sent != {} then [as_[0].t] else []) + Stamps(r.state, as_[1..])
  }

  /** Direct deliveries are stamped at least 5 s apart, also when a slow handler
      finishes after later ones. */
  lemma {:induction false} DeliveriesSpaced(s: Instance, as_: seq<Action>)
    requires ValidRun(s, as_) && Timely(s)
    ensures var d := Stamps(s, as_);
            && (d != [] ==> d[0] >= s.lastPokeAt + 5_000)
            && (forall i :: 0 <= i < |d| - 1 ==> d[i + 1] >= d[i] + 5_000)
    decreases |as_|
  {
    if as_ != [] {
      StepTimely(s, as_[0]);
      DeliveriesSpaced(Step(s, as_[0]).state, as_[1..]);
      hide Encoded, Decoded, Binary, Upgrade, AuthBegin, AuthEnd, AlarmBegin;
    }
  }

  /** A delivery by flush counts too: no direct one is stamped within 5 s after it. */
  lemma {:induction false} FlushCoalesces(s: Instance, as_: seq<Action>)
    requires Timely(s) && s.work.flushes > 0 && Flush(s).sent != {} && ValidRun(Flush(s).state, as_)
    ensures Stamps(Flush(s).state, as_) != [] ==> Stamps(Flush(s).state, as_)[0] >= s.now + POKE_COALESCE_MS
  {
    hide Where, Stamps;
    DeliveriesSpaced(Flush(s).state, as_);
  }

  // ----- handshakes in time

  /** Challenges expire 30 s after the second in which their socket opened. */
  predicate Dated(a: Socket) { a.exp == a.openedAt / 1000 + CHALLENGE_TTL_SECONDS }

  ghost predicate AllDated(s: Instance) {
    && (forall i :: i in s.sockets ==> Dated(s.sockets[i]))
    && (forall k :: k in s.work.auths ==> Dated(k.att))
  }

  lemma {:induction false} StepDated(s: Instance, a: Action)
    requires Enabled(s, a) && AllDated(s)
    ensures AllDated(Step(s, a).state)
  {
    hide AllDated, Upgrade, AuthBegin, AuthEnd, Where, Scan, Guard;
    match a
    case DoUpgrade(id, bytes) => UpgradeDated(s, id, bytes);
    case DoAuthBegin(ws) => AuthBeginDated(s, ws);
    case DoAuthEnd(k, ok) => AuthEndDated(s, k, ok);
    case _ =>
      OnlyFewer(s, a);
      FewerDated(s, Step(s, a).state);
  }

  lemma FewerDated(s: Instance, r: Instance)
    requires AllDated(s) && r.work.auths == s.work.auths
    requires forall i :: i in r.sockets ==> i in s.sockets && r.sockets[i] == s.sockets[i]
    ensures AllDated(r)
  {
  }

  lemma UpgradeDated(s: Instance, id: SockId, bytes: seq<Byte>)
    requires AllDated(s)
    ensures AllDated(Upgrade(s, id, bytes).state)
  {
    hide Encoded, Unauthed;
  }

  lemma AuthEndDated(s: Instance, k: AuthWait, ok: bool)
    requires AllDated(s) && k in s.work.auths
    ensures AllDated(AuthEnd(s, k, ok).state)
  {
    hide Decoded;
  }

  lemma AuthBeginDated(s: Instance, ws: SockId)
    requires AllDated(s)
    ensures AllDated(AuthBegin(s, ws).state)
  {
    hide Authed;
  }

  lemma OneMoreWait(auths: multiset<AuthWait>, k: AuthWait)
    ensures auths + multiset{k} != auths
  {
    assert (auths + multiset{k})[k] == auths[k] + 1;
  }

  /** Over every run, a signature check begins exactly for an unauthed socket of a known
      webhook, with room for a listener, within the 30 s of its challenge (and so less
      than 31 s after the socket opened); any other attempt closes the socket. */
  lemma {:induction false} ChecksBeginInTime(s: Instance, as_: seq<Action>, ws: SockId)
    requires ValidRun(s, as_) && AllDated(s)
    ensures var r := Run(s, as_);
            && (AuthBegin(r, ws).state.work != r.work <==>
                  && ws in Unauthed(r) && r.known && |Authed(r)| < MAX_AUTHED_SOCKETS
                  && r.now / 1000 <= r.sockets[ws].openedAt / 1000 + 30)
            && (AuthBegin(r, ws).state.work != r.work ==>
                  r.now - r.sockets[ws].openedAt < 31_000)
            && (AuthBegin(r, ws).state.work == r.work && ws in Unauthed(r) ==> ws !in AuthBegin(r, ws).state.sockets)
    decreases |as_|
  {
    if as_ == [] {
      if ws in Unauthed(s) {
        assert Authed(s) - {ws} == Authed(s);
        OneMoreWait(s.work.auths, AuthWait(ws, s.sockets[ws]));
      }
    } else {
      hide Step, AllDated;
      StepDated(s, as_[0]);
      ChecksBeginInTime(Step(s, as_[0]).state, as_[1..], ws);
    }
  }

  /** Hibernation forgets the webhook: until the next request arrives, no handshake
      succeeds, so nobody becomes a listener. */
  lemma {:induction false} AsleepAdmitsNobody(s: Instance, as_: seq<Action>)
    requires ValidRun(s, as_) && !s.known && s.work.auths == multiset{}
    requires forall a :: a in as_ ==> !a.DoUpgrade? && !a.DoPokeBegin?
    ensures Authed(Run(s, as_)) <= Authed(s) && !Run(s, as_).known
    decreases |as_|
  {
    if as_ != [] {
      var a := as_[0];
      assert a in as_ && !a.DoAuthEnd?;
      OnlyFewer(s, a);
      AsleepStaysAsleep(s, a);
      hide Step, Where;
      AsleepAdmitsNobody(Step(s, a).state, as_[1..]);
    }
  }

  lemma AsleepStaysAsleep(s: Instance, a: Action)
    requires Enabled(s, a) && !s.known && s.work.auths == multiset{} && !a.DoUpgrade? && !a.DoPokeBegin?
    ensures !Step(s, a).state.known && Step(s, a).state.work.auths == multiset{}
  {
    hide Where, Authed, Unauthed, Scan, Decoded;
  }
}
