/** The reaper alarm: exactly when it closes what never authenticates. */
module Reaper {
  import opened Common
  import opened Base64Url
  import opened Relay
  import opened RelaySafety

  const LIMIT: int := 2 * UNAUTHED_MAX_AGE_MS

  // ----- runs on time

  /** The clock passes neither a due alarm nor a suspended one. */
  predicate OnTime(s: Instance, a: Action) {
    a.DoTick? && a.dt > 0 ==> s.work.alarms == multiset{} && (s.alarm.Some? ==> s.now + a.dt <= s.alarm.value)
  }

  predicate OnTimeRun(s: Instance, as_: seq<Action>)
    requires ValidRun(s, as_)
    decreases |as_|
  {
    as_ == [] || (OnTime(s, as_[0]) && OnTimeRun(Step(s, as_[0]).state, as_[1..]))
  }

  /** The alarm is not late, and suspended alarms fired just now, for some listener. */
  ghost predicate Clocked(s: Instance) {
    && (s.alarm.Some? ==> s.now <= s.alarm.value)
    && (forall k :: k in s.work.alarms ==> k.now == s.now && k.hasAuthed)
  }

  /** Every alarm under way found a socket in the handshake, and so will look again. */
  ghost predicate LooksAgain(s: Instance) {
    forall k :: k in s.work.alarms ==> k.hasUnauthed
  }

  /** What watches over a socket in the handshake: an alarm due within 60 s of its
      opening or, while alarms are under way, their looking again in 30 s. */
  ghost predicate Watched(s: Instance, a: Socket) {
    if s.work.alarms == multiset{} then s.alarm.Some? && s.alarm.value <= a.openedAt + LIMIT
    else LooksAgain(s) && s.now <= a.openedAt + UNAUTHED_MAX_AGE_MS
  }

  ghost predicate Guarded(s: Instance, i: SockId) {
    i in s.sockets && !s.sockets[i].authed ==> Watched(s, s.sockets[i])
  }

  // ----- every step on time keeps watch

  /** Steps that touch neither clock nor alarms. */
  lemma KeepsClock(s: Instance, a: Action)
    requires Enabled(s, a) && !a.DoUpgrade? && !a.DoAlarmBegin? && !a.DoAlarmEnd? && !a.DoTick?
    ensures var r := Step(s, a).state; r.now == s.now && r.alarm == s.alarm && r.work.alarms == s.work.alarms
  {
    hide Encoded, Decoded, Binary, Where, Authed, Unauthed, Guard;
  }

  lemma SameClock(s: Instance, r: Instance, i: SockId)
    requires Clocked(s) && Guarded(s, i) && r.now == s.now && r.alarm == s.alarm && r.work.alarms == s.work.alarms
    requires i in r.sockets && !r.sockets[i].authed ==> i in s.sockets && r.sockets[i] == s.sockets[i]
    ensures Clocked(r) && Guarded(r, i)
  {
  }

  /** A new socket is watched if every alarm under way will look again. */
  lemma UpgradeGuarded(s: Instance, id: SockId, bytes: seq<Byte>, i: SockId)
    requires Clocked(s) && (i != id ==> Guarded(s, i))
    requires i == id ==> |Unauthed(s)| < MAX_UNAUTHED_SOCKETS && LooksAgain(s)
    ensures Clocked(Upgrade(s, id, bytes).state) && Guarded(Upgrade(s, id, bytes).state, i)
  {
    hide Encoded, Binary, Unauthed;
  }

  lemma AlarmBeginGuarded(s: Instance, i: SockId)
    requires Clocked(s) && Guarded(s, i)
    ensures Clocked(AlarmBegin(s).state) && Guarded(AlarmBegin(s).state, i)
  {
    hide Authed;
    var r := AlarmBegin(s).state;
    if i in r.sockets && !r.sockets[i].authed { assert i in Where(Reaped(s), false); }
  }

  lemma AlarmEndGuarded(s: Instance, k: AlarmWait, i: SockId)
    requires Clocked(s) && Guarded(s, i) && k in s.work.alarms
    ensures Clocked(AlarmEnd(s, k).state) && Guarded(AlarmEnd(s, k).state, i)
  {
  }

  lemma TickGuarded(s: Instance, dt: nat, i: SockId)
    requires Clocked(s) && Guarded(s, i) && OnTime(s, DoTick(dt))
    ensures Clocked(s.(now := s.now + dt)) && Guarded(s.(now := s.now + dt), i)
  {
  }

  lemma AuthEndKeepsSocket(s: Instance, k: AuthWait, ok: bool, i: SockId)
    requires k in s.work.auths && i in AuthEnd(s, k, ok).state.sockets && !AuthEnd(s, k, ok).state.sockets[i].authed
    ensures i in s.sockets && AuthEnd(s, k, ok).state.sockets[i] == s.sockets[i]
  {
    hide Decoded;
  }

  /** Nothing but the opening of the socket itself can leave it unwatched. */
  lemma {:induction false} StepGuarded(s: Instance, a: Action, i: SockId)
    requires Enabled(s, a) && OnTime(s, a) && Clocked(s) && Guarded(s, i)
    requires a.DoUpgrade? && a.id == i && |Unauthed(s)| < MAX_UNAUTHED_SOCKETS ==> LooksAgain(s)
    ensures Clocked(Step(s, a).state) && Guarded(Step(s, a).state, i)
  {
    hide Clocked, Guarded, LooksAgain, AuthEnd, AlarmBegin, AlarmEnd, AuthBegin, PokeBegin, PokeEnd, Flush, Where;
    match a
    case DoUpgrade(id, bytes) =>
      if id == i && |Unauthed(s)| >= MAX_UNAUTHED_SOCKETS {
        SameClock(s, Upgrade(s, id, bytes).state, i);
      } else {
        hide Upgrade;
        UpgradeGuarded(s, id, bytes, i);
      }
    case DoAlarmBegin => AlarmBeginGuarded(s, i);
    case DoAlarmEnd(k) => AlarmEndGuarded(s, k, i);
    case DoTick(dt) => TickGuarded(s, dt, i);
    case DoAuthEnd(k, ok) =>
      KeepsClock(s, a);
      if i in AuthEnd(s, k, ok).state.sockets && !AuthEnd(s, k, ok).state.sockets[i].authed { AuthEndKeepsSocket(s, k, ok, i); }
      SameClock(s, Step(s, a).state, i);
    case _ =>
      KeepsClock(s, a);
      OnlyFewer(s, a);
      SameClock(s, Step(s, a).state, i);
  }

  lemma GuardedAge(s: Instance, i: SockId)
    requires Clocked(s) && Guarded(s, i) && i in Unauthed(s)
    ensures s.now - s.sockets[i].openedAt <= LIMIT
  {
  }

  /** A socket that was watched when it opened is closed or authed within 60 s, in
      every run on time, whatever other sockets do. */
  lemma {:induction false} ReapedOnTime(s: Instance, as_: seq<Action>, i: SockId)
    requires ValidRun(s, as_) && OnTimeRun(s, as_) && Clocked(s) && Guarded(s, i) && i in s.history.issued
    ensures var r := Run(s, as_);
            i in Unauthed(r) ==> r.now - r.sockets[i].openedAt <= LIMIT
    decreases |as_|
  {
    hide Step, Clocked, Guarded, OnTime, LooksAgain;
    if as_ == [] {
      if i in Unauthed(s) { GuardedAge(s, i); }
    } else {
      StepGuarded(s, as_[0], i);
      StepKeepsIssued(s, as_[0], i);
      ReapedOnTime(Step(s, as_[0]).state, as_[1..], i);
    }
  }

  lemma {:induction false} StepClocked(s: Instance, a: Action)
    requires Enabled(s, a) && OnTime(s, a) && Clocked(s)
    ensures Clocked(Step(s, a).state)
  {
    hide Encoded, Binary, Where, Authed, Unauthed, Reaped, AuthEnd, AuthBegin, PokeBegin, PokeEnd, Flush;
    if !a.DoUpgrade? && !a.DoAlarmBegin? && !a.DoAlarmEnd? && !a.DoTick? { KeepsClock(s, a); }
  }

  /** Every run on time from the start keeps the clock that `ReapedIff` asks for. */
  lemma {:induction false} RunClocked(s: Instance, as_: seq<Action>)
    requires ValidRun(s, as_) && OnTimeRun(s, as_) && Clocked(s)
    ensures Clocked(Run(s, as_))
    decreases |as_|
  {
    if as_ != [] {
      hide Step, Clocked, OnTime;
      StepClocked(s, as_[0]);
      RunClocked(Step(s, as_[0]).state, as_[1..]);
    }
  }

  lemma StartClocked(now: int)
    ensures Clocked(Init(now))
  {
  }

  // ----- when it does not

  /** Finishing the suspended alarms, `k` last. */
  lemma {:induction false} FinishAlarms(s: Instance, k: AlarmWait) returns (as_: seq<Action>)
    requires Clocked(s) && k in s.work.alarms && !k.hasUnauthed
    ensures ValidRun(s, as_) && OnTimeRun(s, as_)
    ensures var r := Run(s, as_);
            && r.sockets == s.sockets && r.now == s.now && r.work.alarms == multiset{}
            && r.alarm == Some(s.now + ALARM_INTERVAL_MS)
    decreases |s.work.alarms|
  {
    hide Clocked, AlarmEnd, Step, Enabled, Run, ValidRun;
    AlarmEnds(s, k);
    if s.work.alarms == multiset{k} {
      as_ := [DoAlarmEnd(k)];
      RunOne(s, DoAlarmEnd(k));
      assert s.work.alarms - multiset{k} == multiset{};
      assert as_[1..] == [];
    } else {
      var j := AnotherAlarm(s.work.alarms, k);
      var a := DoAlarmEnd(j);
      AlarmEnds(s, j);
      var rest := FinishAlarms(Step(s, a).state, k);
      RunCons(s, a, rest);
      as_ := [a] + rest;
      assert as_[1..] == rest;
    }
  }

  lemma AnotherAlarm(alarms: multiset<AlarmWait>, k: AlarmWait) returns (j: AlarmWait)
    requires k in alarms && alarms != multiset{k}
    ensures j in alarms && k in alarms - multiset{j}
  {
    var others := alarms - multiset{k};
    assert alarms == others + multiset{k};
    assert others != multiset{};
    j :| j in others;
  }

  lemma AlarmEnds(s: Instance, k: AlarmWait)
    requires Clocked(s) && k in s.work.alarms
    ensures Enabled(s, DoAlarmEnd(k))
    ensures var r := Step(s, DoAlarmEnd(k)).state;
            && Clocked(r) && r.sockets == s.sockets && r.now == s.now && r.work.alarms == s.work.alarms - multiset{k}
            && |r.work.alarms| < |s.work.alarms|
            && (!k.hasUnauthed ==> r.alarm == Some(s.now + ALARM_INTERVAL_MS))
  {
  }

  lemma {:induction false} OnTimeConcat(s: Instance, a: seq<Action>, b: seq<Action>)
    requires ValidRun(s, a) && OnTimeRun(s, a) && ValidRun(Run(s, a), b) && OnTimeRun(Run(s, a), b)
    ensures ValidRun(s, a + b) && OnTimeRun(s, a + b)
    decreases |a|
  {
    hide Step, Enabled, OnTime;
    RunConcat(s, a, b);
    if a == [] {
      assert [] + b == b;
    } else {
      assert (a + b)[1..] == a[1..] + b;
      OnTimeConcat(Step(s, a[0]).state, a[1..], b);
    }
  }

  /** A socket that opens while an alarm is under way that will not look again can
      stay in the handshake past 60 s, with every alarm on time. */
  lemma {:induction false} ForgottenSocket(s: Instance, i: SockId, k: AlarmWait) returns (as_: seq<Action>)
    requires Clocked(s) && k in s.work.alarms && !k.hasUnauthed && i in Unauthed(s)
    requires s.sockets[i].openedAt == s.now
    ensures ValidRun(s, as_) && OnTimeRun(s, as_)
    ensures var r := Run(s, as_);
            && i in Unauthed(r) && r.now - r.sockets[i].openedAt > LIMIT
            && r.alarm.Some? && r.alarm.value > r.now
  {
    hide Clocked;
    var ends := FinishAlarms(s, k);
    var m := Run(s, ends);
    var a := DoTick(LIMIT + 1);
    RunOne(m, a);
    assert [a][1..] == [];
    OnTimeConcat(s, ends, [a]);
    RunConcat(s, ends, [a]);
    as_ := ends + [a];
  }

  ghost predicate AlwaysReaped(s: Instance, i: SockId) {
    forall as_ :: ValidRun(s, as_) && OnTimeRun(s, as_) && i in Unauthed(Run(s, as_)) ==>
      Run(s, as_).now - Run(s, as_).sockets[i].openedAt <= LIMIT
  }

  /** The 60 s bound, exactly. A socket that is admitted will be closed or authed
      within 60 s, in every run on time, if and only if every alarm under way when it
      opens has found another socket in the handshake. */
  lemma {:induction false} ReapedIff(s: Instance, id: SockId, bytes: seq<Byte>)
    requires Clocked(s) && id !in s.history.issued && |Unauthed(s)| < MAX_UNAUTHED_SOCKETS
    ensures LooksAgain(s) <==> AlwaysReaped(Upgrade(s, id, bytes).state, id)
  {
    var u := Upgrade(s, id, bytes).state;
    JustUpgraded(s, id, bytes);
    if LooksAgain(s) {
      UpgradeGuarded(s, id, bytes, id);
      hide Clocked, Guarded, LooksAgain, Upgrade;
      forall as_ | ValidRun(u, as_) && OnTimeRun(u, as_) && id in Unauthed(Run(u, as_))
        ensures Run(u, as_).now - Run(u, as_).sockets[id].openedAt <= LIMIT
      {
        ReapedOnTime(u, as_, id);
      }
    } else {
      var k :| k in s.work.alarms && !k.hasUnauthed;
      hide Clocked, Upgrade;
      var as_ := ForgottenSocket(u, id, k);
      assert !AlwaysReaped(u, id);
    }
  }

  /** In particular after any run on time from the start. */
  lemma {:induction false} ReapedIffFromStart(now: int, as_: seq<Action>, id: SockId, bytes: seq<Byte>)
    requires ValidRun(Init(now), as_) && OnTimeRun(Init(now), as_)
    requires var s := Run(Init(now), as_); id !in s.history.issued && |Unauthed(s)| < MAX_UNAUTHED_SOCKETS
    ensures var s := Run(Init(now), as_);
            LooksAgain(s) <==> AlwaysReaped(Upgrade(s, id, bytes).state, id)
  {
    StartClocked(now);
    hide Init, Clocked, Upgrade, LooksAgain, AlwaysReaped;
    RunClocked(Init(now), as_);
    ReapedIff(Run(Init(now), as_), id, bytes);
  }

  lemma JustUpgraded(s: Instance, id: SockId, bytes: seq<Byte>)
    requires Clocked(s) && |Unauthed(s)| < MAX_UNAUTHED_SOCKETS
    ensures var u := Upgrade(s, id, bytes).state;
            && Clocked(u) && id in Unauthed(u) && u.sockets[id].openedAt == u.now
            && id in u.history.issued && u.work.alarms == s.work.alarms
  {
    hide Encoded, Binary;
  }

  // ----- whole runs

  /** On time, and no socket is admitted under an alarm that will not look again. */
  ghost predicate Punctual(s: Instance, a: Action) {
    OnTime(s, a) && (a.DoUpgrade? && |Unauthed(s)| < MAX_UNAUTHED_SOCKETS ==> LooksAgain(s))
  }

  ghost predicate PunctualRun(s: Instance, as_: seq<Action>)
    requires ValidRun(s, as_)
    decreases |as_|
  {
    as_ == [] || (Punctual(s, as_[0]) && PunctualRun(Step(s, as_[0]).state, as_[1..]))
  }

  /** Reaper bound for the relay as it is, with an alarm that yields: over any such run
      a socket that is still open 60 s after it opened has authenticated. */
  lemma {:induction false} ReaperBound(s: Instance, as_: seq<Action>)
    requires ValidRun(s, as_) && PunctualRun(s, as_) && Clocked(s) && forall i :: i in s.sockets ==> Guarded(s, i)
    ensures var r := Run(s, as_);
            && Clocked(r) && (forall i :: i in r.sockets ==> Guarded(r, i))
            && (forall i :: i in Unauthed(r) ==> r.now - r.sockets[i].openedAt <= LIMIT)
    decreases |as_|
  {
    if as_ == [] {
      forall i | i in Unauthed(s) ensures s.now - s.sockets[i].openedAt <= LIMIT { GuardedAge(s, i); }
    } else {
      var r := Step(s, as_[0]).state;
      forall i | i in r.sockets ensures Guarded(r, i) {
        assert i !in s.sockets ==> Guarded(s, i);
        StepGuarded(s, as_[0], i);
      }
      StepGuarded(s, as_[0], 0) by { assert 0 !in s.sockets ==> Guarded(s, 0); }
      hide Step, Clocked, Guarded, Punctual;
      ReaperBound(r, as_[1..]);
    }
  }

  /** And so from the start, where there is nothing to watch. */
  lemma {:induction false} ReapedFromStart(now: int, as_: seq<Action>)
    requires ValidRun(Init(now), as_) && PunctualRun(Init(now), as_)
    ensures var r := Run(Init(now), as_);
            forall i :: i in Unauthed(r) ==> r.now - r.sockets[i].openedAt <= 60_000
  {
    ReaperBound(Init(now), as_);
  }

  /** Sockets leave only for a reason: the client closes them, their handshake fails,
      or the alarm finds them unauthed and more than 30 s old. */
  lemma {:induction false} ClosedForAReason(s: Instance, a: Action, i: SockId)
    requires Enabled(s, a) && i in s.sockets && i !in Step(s, a).state.sockets
    ensures || a == DoClose(i)
            || (a == DoAuthBegin(i) && !s.sockets[i].authed)
            || (a.DoAuthEnd? && a.auth.ws == i && (!a.ok || Decoded(a.auth.att.challenge).None?))
            || (a.DoAlarmBegin? && !s.sockets[i].authed && s.now - s.sockets[i].openedAt > UNAUTHED_MAX_AGE_MS)
  {
    hide Encoded, Decoded, Binary, Where, Authed, Unauthed, Guard, Scan;
  }

  /** The alarm handler waits for KV exactly if there is a listener to refresh the record
      for and the webhook is known; otherwise, so always after hibernation, it sets the
      next alarm at once: in 30 s for a socket in the handshake, else in a week for a
      listener, else none. */
  lemma {:induction false} AlarmWaitsIff(s: Instance)
    requires Enabled(s, DoAlarmBegin)
    ensures var r := Step(s, DoAlarmBegin).state;
            && (r.work.alarms != s.work.alarms <==> Authed(s) != {} && s.known)
            && (r.work.alarms == s.work.alarms && Unauthed(r) != {} ==> r.alarm == Some(s.now + 30_000))
            && (r.work.alarms == s.work.alarms && Unauthed(r) == {} && Authed(r) != {} ==> r.alarm == Some(s.now + 7 * 86_400_000))
            && (r.work.alarms == s.work.alarms && Unauthed(r) == {} && Authed(r) == {} ==> r.alarm == None)
            && Authed(r) == Authed(s)
  {
    var r := Step(s, DoAlarmBegin).state;
    var k := Scan(s);
    assert (s.work.alarms + multiset{k})[k] == s.work.alarms[k] + 1;
    assert Unauthed(r) == Where(Reaped(s), false);
    assert Authed(r) == Authed(s);
  }

  /** How a socket is forgotten: an alarm fires with only listeners around, a socket
      opens while the handler waits for KV, and the handler sets the weekly alarm. */
  lemma {:induction false} YieldingAlarmForgetsSocket(s: Instance, id: SockId, bytes: seq<Byte>) returns (as_: seq<Action>)
    requires Enabled(s, DoAlarmBegin) && s.known && id !in s.history.issued && id !in s.sockets
    requires Authed(s) != {} && Where(Reaped(s), false) == {}
    ensures as_ == [DoAlarmBegin, DoUpgrade(id, bytes), DoAlarmEnd(AlarmWait(s.now, false, true)), DoTick(LIMIT + 1)]
    ensures ValidRun(s, as_)
    ensures var r := Run(s, as_);
            && id in Unauthed(r) && r.now - r.sockets[id].openedAt > LIMIT
            && r.alarm.Some? && r.alarm.value > r.now
  {
    var k := AlarmWait(s.now, false, true);
    var a, b, c, d := DoAlarmBegin, DoUpgrade(id, bytes), DoAlarmEnd(k), DoTick(LIMIT + 1);
    FiredAlone(s, k);
    var s1 := Step(s, a).state;
    OpensUnder(s1, id, bytes, k);
    var s2 := Step(s1, b).state;
    var s3 := Step(s2, c).state;
    hide AlarmBegin, Upgrade;
    RunOne(s3, d);
    RunCons(s2, c, [d]);
    RunCons(s1, b, [c] + [d]);
    RunCons(s, a, [b] + ([c] + [d]));
    as_ := [a] + ([b] + ([c] + [d]));
  }

  lemma FiredAlone(s: Instance, k: AlarmWait)
    requires Enabled(s, DoAlarmBegin) && s.known && Authed(s) != {} && Where(Reaped(s), false) == {}
    requires k == AlarmWait(s.now, false, true)
    ensures var r := Step(s, DoAlarmBegin).state;
            k in r.work.alarms && Unauthed(r) == {} && r.history == s.history && r.now == s.now
  {
    assert Scan(s) == k;
  }

  lemma OpensUnder(s: Instance, id: SockId, bytes: seq<Byte>, k: AlarmWait)
    requires id !in s.history.issued && Unauthed(s) == {} && k in s.work.alarms
    ensures Enabled(s, DoUpgrade(id, bytes))
    ensures var r := Step(s, DoUpgrade(id, bytes)).state;
            id in Unauthed(r) && r.sockets[id].openedAt == s.now && r.now == s.now && k in r.work.alarms
  {
    hide Encoded, Binary;
  }
}
