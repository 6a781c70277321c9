/** The poke relay: one Durable Object per webhook (worker/src/relay.ts).

    Handlers are cut at their awaits on KV and crypto, where other handlers may
    run; the suspended remainder of a handler is part of the state. Awaits on the
    object's own storage do not yield. Times are milliseconds of one clock that
    never goes back. A closed socket leaves the set at once. */
module Relay {
  import opened Common
  import opened Base64Url

  const CHALLENGE_TTL_SECONDS: int := 30
  const MAX_AUTHED_SOCKETS: int := 4
  const MAX_UNAUTHED_SOCKETS: int := 8
  const POKE_COALESCE_MS: int := 5_000
  const POKE_MAX_PER_WINDOW: int := 100
  const UNAUTHED_MAX_AGE_MS: int := 30_000
  const ALARM_INTERVAL_MS: int := 604_800_000

  type SockId = nat

  /** The attachment every socket carries across hibernation. */
  datatype Socket = Socket(challenge: string, exp: int, openedAt: int, authed: bool)

  /** The fixed-window abuse counter. */
  datatype Window = Window(start: int, count: int)

  // Suspended remainders of handlers.
  /** `handleAuth`, waiting for the record and the signature check. */
  datatype AuthWait = AuthWait(ws: SockId, att: Socket)
  /** `alarm`, waiting for the KV refresh, with what its scan found. */
  datatype AlarmWait = AlarmWait(now: int, hasUnauthed: bool, hasAuthed: bool)

  /** All suspended handlers. `flushes` counts those between marking a socket authed
      and flushing; `pokes` holds the arrival times of suspended pokes. */
  datatype Work = Work(auths: multiset<AuthWait>, flushes: nat, pokes: multiset<int>, alarms: multiset<AlarmWait>)

  /** History, for the theorems only: the challenge text sent to each socket and the
      texts whose bytes each socket's verified signatures were over. */
  datatype History = History(issued: map<SockId, string>, verified: set<(SockId, string)>)

  datatype Instance = Instance(now: int, known: bool, sockets: map<SockId, Socket>, pending: bool, lastPokeAt: int,
                         window: Window, alarm: Option<int>, work: Work, history: History)

  /** The next state and the sockets a poke frame was sent to. */
  datatype Result = Result(state: Instance, sent: set<SockId>)

  /** Sockets whose attachment says `authed == flag`. */
  function Where(sockets: map<SockId, Socket>, flag: bool): set<SockId> {
    set i | i in sockets && sockets[i].authed == flag
  }

  function Authed(s: Instance): set<SockId> { Where(s.sockets, true) }

  function Unauthed(s: Instance): set<SockId> { Where(s.sockets, false) }

  // ----- handleUpgrade

  /** `scheduleReaperAlarm`: lowers the alarm, never raises it. */
  function Lowered(alarm: Option<int>, target: int): Option<int> {
    if alarm.None? || target < alarm.value then Some(target) else alarm
  }

  function Upgrade(s: Instance, id: SockId, bytes: seq<Byte>): Result {
    var s' := s.(known := true, history := s.history.(issued := s.history.issued[id := Encoded(bytes)]));
    if |Unauthed(s)| >= MAX_UNAUTHED_SOCKETS then Result(s', {})
    else Result(s'.(sockets := s.sockets[id := Socket(Encoded(bytes), s.now / 1000 + CHALLENGE_TTL_SECONDS, s.now, false)],
                    alarm := Lowered(s.alarm, s.now + UNAUTHED_MAX_AGE_MS)), {})
  }

  // ----- handleAuth

  function Closed(s: Instance, ws: SockId): Instance { s.(sockets := s.sockets - {ws}) }

  /** Up to the KV lookup. */
  function AuthBegin(s: Instance, ws: SockId): Result {
    if ws !in s.sockets then Result(s, {})
    else
      var att := s.sockets[ws];
      if att.authed then Result(s, {})
      else if s.now / 1000 > att.exp then Result(Closed(s, ws), {})
      else if !s.known then Result(Closed(s, ws), {})
      else if |Authed(s) - {ws}| >= MAX_AUTHED_SOCKETS then Result(Closed(s, ws), {})
      else Result(s.(work := s.work.(auths := s.work.auths + multiset{AuthWait(ws, att)})), {})
  }

  /** After the signature check. Sending `ready` on a socket that has gone throws,
      which ends the handler. */
  function AuthEnd(s: Instance, k: AuthWait, ok: bool): Result {
    var s' := s.(work := s.work.(auths := s.work.auths - multiset{k}));
    if !ok || Decoded(k.att.challenge).None? then Result(Closed(s', k.ws), {})
    else if k.ws !in s.sockets then Result(s', {})
    else Result(s'.(sockets := s.sockets[k.ws := k.att.(authed := true)], work := s'.work.(flushes := s.work.flushes + 1),
                    history := s.history.(verified := s.history.verified + {(k.ws, k.att.challenge)})), {})
  }

  /** `flushPending`. */
  function Flush(s: Instance): Result
    requires s.work.flushes > 0
  {
    var s' := s.(work := s.work.(flushes := s.work.flushes - 1));
    if !s.pending || Authed(s) == {} then Result(s', {})
    else Result(s'.(pending := false, lastPokeAt := s.now), Authed(s))
  }

  // ----- handlePoke

  /** The guard: whether a poke passes, and the counter afterwards. */
  function Guard(w: Window, now: int): (Window, bool) {
    var v := if now - w.start > POKE_COALESCE_MS then Window(now, 0) else w;
    if v.count >= POKE_MAX_PER_WINDOW then (v, false) else (v.(count := v.count + 1), true)
  }

  function PokeBegin(s: Instance): Result {
    var (w, pass) := Guard(s.window, s.now);
    var s' := s.(known := true, window := w);
    Result(if pass then s'.(work := s.work.(pokes := s.work.pokes + multiset{s.now})) else s', {})
  }

  /** After the KV refresh: store, coalesce or deliver the poke that came at `t`. */
  function PokeEnd(s: Instance, t: int): Result {
    var s' := s.(work := s.work.(pokes := s.work.pokes - multiset{t}));
    if Authed(s) == {} then Result(s'.(pending := true), {})
    else if t - s.lastPokeAt < POKE_COALESCE_MS then Result(s', {})
    else Result(s'.(lastPokeAt := t), Authed(s))
  }

  // ----- alarm

  predicate Overdue(a: Socket, now: int) {
    !a.authed && now - a.openedAt > UNAUTHED_MAX_AGE_MS
  }

  function NotOverdue(sockets: map<SockId, Socket>, now: int): map<SockId, Socket> {
    map i | i in sockets && !Overdue(sockets[i], now) :: sockets[i]
  }

  function Reaped(s: Instance): map<SockId, Socket> { NotOverdue(s.sockets, s.now) }

  /** What the scan found, once the overdue sockets are closed. */
  function Scan(s: Instance): AlarmWait {
    AlarmWait(s.now, Where(Reaped(s), false) != {}, Authed(s) != {})
  }

  function Reschedule(alarm: Option<int>, k: AlarmWait): Option<int> {
    if k.hasUnauthed then Some(k.now + UNAUTHED_MAX_AGE_MS)
    else if k.hasAuthed then Some(k.now + ALARM_INTERVAL_MS)
    else alarm
  }

  /** Firing clears the stored alarm. The KV refresh, where the handler yields, is
      only done for an authed listener and a known webhook. */
  function AlarmBegin(s: Instance): Result {
    var k := Scan(s);
    var s' := s.(sockets := Reaped(s), alarm := None);
    if k.hasAuthed && s.known then Result(s'.(work := s.work.(alarms := s.work.alarms + multiset{k})), {})
    else Result(s'.(alarm := Reschedule(None, k)), {})
  }

  function AlarmEnd(s: Instance, k: AlarmWait): Result {
    Result(s.(work := s.work.(alarms := s.work.alarms - multiset{k}), alarm := Reschedule(s.alarm, k)), {})
  }

  // ----- steps

  datatype Action =
    | DoUpgrade(id: SockId, bytes: seq<Byte>)
    | DoAuthBegin(ws: SockId)
    | DoAuthEnd(auth: AuthWait, ok: bool)
    | DoFlush
    | DoPokeBegin
    | DoPokeEnd(t: int)
    | DoAlarmBegin
    | DoAlarmEnd(wait: AlarmWait)
    | DoClose(ws: SockId)
    | DoHibernate
    | DoTick(dt: nat)

  /** A handler can only be resumed if it is suspended, an alarm only fire when due,
      and the object only hibernate when no handler is suspended. */
  predicate Enabled(s: Instance, a: Action) {
    match a
    case DoUpgrade(id, _) => id !in s.history.issued
    case DoAuthEnd(k, _) => k in s.work.auths
    case DoFlush => s.work.flushes > 0
    case DoPokeEnd(t) => t in s.work.pokes
    case DoAlarmBegin => s.alarm.Some? && s.alarm.value <= s.now
    case DoAlarmEnd(k) => k in s.work.alarms
    case DoHibernate => s.work == IDLE
    case _ => true
  }

  function Step(s: Instance, a: Action): Result
    requires Enabled(s, a)
  {
    match a
    case DoUpgrade(id, bytes) => Upgrade(s, id, bytes)
    case DoAuthBegin(ws) => AuthBegin(s, ws)
    case DoAuthEnd(k, ok) => AuthEnd(s, k, ok)
    case DoFlush => Flush(s)
    case DoPokeBegin => PokeBegin(s)
    case DoPokeEnd(t) => PokeEnd(s, t)
    case DoAlarmBegin => AlarmBegin(s)
    case DoAlarmEnd(k) => AlarmEnd(s, k)
    case DoClose(ws) => Result(Closed(s, ws), {})
    case DoHibernate => Result(s.(known := false), {})
    case DoTick(dt) => Result(s.(now := s.now + dt), {})
  }

  predicate ValidRun(s: Instance, as_: seq<Action>)
    decreases |as_|
  {
    as_ == [] || (Enabled(s, as_[0]) && ValidRun(Step(s, as_[0]).state, as_[1..]))
  }

  function Run(s: Instance, as_: seq<Action>): Instance
    requires ValidRun(s, as_)
    decreases |as_|
  {
    if as_ == [] then s else Run(Step(s, as_[0]).state, as_[1..])
  }

  lemma {:induction false} RunCons(s: Instance, a: Action, rest: seq<Action>)
    requires Enabled(s, a) && ValidRun(Step(s, a).state, rest)
    ensures ValidRun(s, [a] + rest) && Run(s, [a] + rest) == Run(Step(s, a).state, rest)
  {
    hide Step, Enabled;
    assert ([a] + rest)[1..] == rest;
  }

  lemma {:induction false} RunConcat(s: Instance, a: seq<Action>, b: seq<Action>)
    requires ValidRun(s, a) && ValidRun(Run(s, a), b)
    ensures ValidRun(s, a + b) && Run(s, a + b) == Run(Run(s, a), b)
    decreases |a|
  {
    hide Step, Enabled;
    if a == [] {
      assert [] + b == b;
    } else {
      assert (a + b)[1..] == a[1..] + b;
      RunConcat(Step(s, a[0]).state, a[1..], b);
    }
  }

  lemma {:induction false} RunOne(s: Instance, a: Action)
    requires Enabled(s, a)
    ensures ValidRun(s, [a]) && Run(s, [a]) == Step(s, a).state
  {
    hide Step, Enabled;
    assert [a][1..] == [];
  }

  const IDLE: Work := Work(multiset{}, 0, multiset{}, multiset{})

  function Init(now: int): Instance {
    Instance(now, false, map[], false, 0, Window(0, 0), None,
          IDLE, History(map[], {}))
  }

  // ----- the object

  /** Response codes of the poke route that the guard decides. */
  datatype Response = RateLimited | Continue

  /** The Durable Object. Each method is one uninterrupted stretch of a handler. */
  class WebhookRelay {
    var known: bool
    var sockets: map<SockId, Socket>
    var pending: bool
    var lastPokeAt: int
    var pokeWindowStart: int
    var pokeWindowCount: int
    var alarm: Option<int>
    ghost var now: int
    ghost var work: Work
    ghost var history: History

    ghost function View(): Instance
      reads this
    {
      Instance(now, known, sockets, pending, lastPokeAt, Window(pokeWindowStart, pokeWindowCount), alarm,
            work, history)
    }

    constructor (time: int)
      ensures View() == Init(time)
    {
      known, sockets, pending, lastPokeAt := false, map[], false, 0;
      pokeWindowStart, pokeWindowCount, alarm := 0, 0, None;
      now, work, history := time, IDLE, History(map[], {});
    }

    method Filter(flag: bool) returns (found: set<SockId>)
      ensures found == Where(sockets, flag)
    {
      found := {};
      var todo := sockets.Keys;
      while todo != {}
        invariant todo <= sockets.Keys
        invariant found == set i | i in sockets.Keys - todo && sockets[i].authed == flag
        decreases |todo|
      {
        var i :| i in todo;
        todo := todo - {i};
        if sockets[i].authed == flag { found := found + {i}; }
      }
    }

    method HandleUpgrade(id: SockId, bytes: seq<Byte>, dateNow: int)
      requires dateNow == now && id !in history.issued
      modifies this
      ensures View() == Upgrade(old(View()), id, bytes).state
    {
      known := true;
      var challenge := B64UrlEncode(bytes);
      history := history.(issued := history.issued[id := challenge]);
      var unauthed := Filter(false);
      if |unauthed| < MAX_UNAUTHED_SOCKETS {
        sockets := sockets[id := Socket(challenge, dateNow / 1000 + CHALLENGE_TTL_SECONDS, dateNow, false)];
        ScheduleReaperAlarm(dateNow);
      }
    }

    method ScheduleReaperAlarm(dateNow: int)
      modifies `alarm
      ensures alarm == Lowered(old(alarm), dateNow + UNAUTHED_MAX_AGE_MS)
    {
      var target := dateNow + UNAUTHED_MAX_AGE_MS;
      if alarm.None? || target < alarm.value { alarm := Some(target); }
    }

    method Close(ws: SockId)
      modifies `sockets
      ensures sockets == old(sockets) - {ws}
    {
      sockets := sockets - {ws};
    }

    method HandleAuthBegin(ws: SockId, dateNow: int)
      requires dateNow == now
      modifies this
      ensures View() == AuthBegin(old(View()), ws).state
    {
      if ws !in sockets { return; }
      var att := sockets[ws];
      if att.authed { return; }
      if dateNow / 1000 > att.exp { Close(ws); return; }
      if !known { Close(ws); return; }
      var authed := Filter(true);
      if |authed - {ws}| >= MAX_AUTHED_SOCKETS { Close(ws); return; }
      work := work.(auths := work.auths + multiset{AuthWait(ws, att)});
    }

    method DecodeChallenge(s: string) returns (bytes: Option<string>)
      ensures bytes == Decoded(s)
    {
      var ok, out := B64UrlDecode(s);
      bytes := if ok then Some(Binary(out[..])) else None;
    }

    /** `signed` is the verdict of the signature check over the decoded challenge. */
    method HandleAuthEnd(k: AuthWait, signed: bool)
      requires k in work.auths
      modifies this
      ensures View() == AuthEnd(old(View()), k, signed).state
    {
      work := work.(auths := work.auths - multiset{k});
      var challenge := DecodeChallenge(k.att.challenge);
      if !signed || challenge.None? {
        Close(k.ws);
      } else if k.ws in sockets {
        sockets := sockets[k.ws := k.att.(authed := true)];
        work := work.(flushes := work.flushes + 1);
        history := history.(verified := history.verified + {(k.ws, k.att.challenge)});
      }
    }

    method FlushPending(dateNow: int) returns (sent: set<SockId>)
      requires dateNow == now && work.flushes > 0
      modifies this
      ensures Result(View(), sent) == Flush(old(View()))
    {
      work := work.(flushes := work.flushes - 1);
      sent := {};
      if !pending { return; }
      var authed := Filter(true);
      if authed == {} { return; }
      pending := false;
      lastPokeAt := dateNow;
      sent := authed;
    }

    method HandlePokeBegin(dateNow: int) returns (r: Response)
      requires dateNow == now
      modifies this
      ensures View() == PokeBegin(old(View())).state
      ensures r == Continue <==> Guard(Window(old(pokeWindowStart), old(pokeWindowCount)), dateNow).1
    {
      known := true;
      var windowStart, windowCount := pokeWindowStart, pokeWindowCount;
      if dateNow - windowStart > POKE_COALESCE_MS {
        pokeWindowStart := dateNow;
        windowCount := 0;
      }
      if windowCount >= POKE_MAX_PER_WINDOW { return RateLimited; }
      pokeWindowCount := windowCount + 1;
      work := work.(pokes := work.pokes + multiset{dateNow});
      r := Continue;
    }

    method HandlePokeEnd(arrived: int) returns (sent: set<SockId>)
      requires arrived in work.pokes
      modifies this
      ensures Result(View(), sent) == PokeEnd(old(View()), arrived)
    {
      work := work.(pokes := work.pokes - multiset{arrived});
      sent := {};
      var withinCoalesce := arrived - lastPokeAt < POKE_COALESCE_MS;
      var authed := Filter(true);
      if authed == {} {
        pending := true;
        return;
      }
      if withinCoalesce { return; }
      lastPokeAt := arrived;
      sent := authed;
    }

    /** Closes the overdue sockets and reports what is left. */
    method ScanSockets(dateNow: int) returns (hasAuthed: bool, hasUnauthed: bool)
      modifies `sockets
      ensures sockets == NotOverdue(old(sockets), dateNow)
      ensures hasAuthed <==> Where(old(sockets), true) != {}
      ensures hasUnauthed <==> Where(sockets, false) != {}
    {
      hasAuthed, hasUnauthed := false, false;
      ghost var before := sockets;
      var todo := sockets.Keys;
      while todo != {}
        invariant todo <= sockets.Keys
        invariant forall i :: i in sockets <==> i in before && (i in todo || !Overdue(before[i], dateNow))
        invariant forall i :: i in sockets ==> sockets[i] == before[i]
        invariant hasAuthed <==> exists i :: i in before && i !in todo && before[i].authed
        invariant hasUnauthed <==> exists i :: i in sockets && i !in todo && !sockets[i].authed
        decreases |todo|
      {
        var i :| i in todo;
        todo := todo - {i};
        var a := sockets[i];
        if a.authed {
          hasAuthed := true;
        } else if dateNow - a.openedAt > UNAUTHED_MAX_AGE_MS {
          Close(i);
        } else {
          hasUnauthed := true;
        }
      }
      assert sockets == NotOverdue(before, dateNow);
      if hasAuthed { ghost var i :| i in before && before[i].authed; assert i in Where(before, true); }
      if hasUnauthed { ghost var i :| i in sockets && !sockets[i].authed; assert i in Where(sockets, false); }
    }

    method AlarmFires(dateNow: int)
      requires dateNow == now && alarm.Some? && alarm.value <= now
      modifies this
      ensures View() == AlarmBegin(old(View())).state
    {
      alarm := None;
      var hasAuthed, hasUnauthed := ScanSockets(dateNow);
      ghost var k := AlarmWait(dateNow, hasUnauthed, hasAuthed);
      if hasAuthed && known {
        work := work.(alarms := work.alarms + multiset{k});
      } else if hasUnauthed {
        alarm := Some(dateNow + UNAUTHED_MAX_AGE_MS);
      } else if hasAuthed {
        alarm := Some(dateNow + ALARM_INTERVAL_MS);
      }
    }

    method AlarmResumes(k: AlarmWait)
      requires k in work.alarms
      modifies this
      ensures View() == AlarmEnd(old(View()), k).state
    {
      work := work.(alarms := work.alarms - multiset{k});
      if k.hasUnauthed {
        alarm := Some(k.now + UNAUTHED_MAX_AGE_MS);
      } else if k.hasAuthed {
        alarm := Some(k.now + ALARM_INTERVAL_MS);
      }
    }
  }
}
