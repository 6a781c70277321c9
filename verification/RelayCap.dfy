/** The cap on listeners: when it holds of the relay as it is, with checks that yield,
    and that otherwise it does not. */
module RelayCap {
  import opened Base64Url
  import opened Relay
  import opened RelaySafety

  // ----- when the cap holds

  /** A check only begins while the listeners there are and those to come leave room. */
  predicate Roomy(s: Instance, a: Action) {
    BeginsCheck(s, a) ==> |Authed(s)| + |Checking(s) - {a.ws}| < MAX_AUTHED_SOCKETS
  }

  predicate RoomyRun(s: Instance, as_: seq<Action>)
    requires ValidRun(s, as_)
    decreases |as_|
  {
    as_ == [] || (Roomy(s, as_[0]) && RoomyRun(Step(s, as_[0]).state, as_[1..]))
  }

  /** The relay as it is keeps its cap of 4 in every run in which no check begins that
      could, with those under way, lead to a fifth listener. */
  lemma {:induction false} RoomyRunsKeepFour(s: Instance, as_: seq<Action>)
    requires ValidRun(s, as_) && RoomyRun(s, as_) && Genuine(s) && Potential(s) <= MAX_AUTHED_SOCKETS
    ensures var r := Run(s, as_);
            Genuine(r) && Potential(r) <= 4 && |Authed(r)| <= 4
    decreases |as_|
  {
    if as_ != [] {
      hide Step, Genuine, Checking, AuthBegin;
      StepPotential(s, as_[0]);
      StepGenuine(s, as_[0]);
      RoomyRunsKeepFour(Step(s, as_[0]).state, as_[1..]);
    }
  }

  /** A check only begins while none is under way. */
  predicate OneAtATime(s: Instance, as_: seq<Action>)
    requires ValidRun(s, as_)
    decreases |as_|
  {
    as_ == [] ||
    ((BeginsCheck(s, as_[0]) ==> s.work.auths == multiset{}) && OneAtATime(Step(s, as_[0]).state, as_[1..]))
  }

  /** In particular, if checks do not overlap, there are never more than 4 listeners,
      whatever else happens while a check waits. */
  lemma {:induction false} OneAtATimeKeepsFour(s: Instance, as_: seq<Action>)
    requires ValidRun(s, as_) && OneAtATime(s, as_) && Genuine(s) && Potential(s) <= MAX_AUTHED_SOCKETS
    ensures |Authed(Run(s, as_))| <= MAX_AUTHED_SOCKETS
    decreases |as_|
  {
    OneAtATimeIsRoomy(s, as_);
    RoomyRunsKeepFour(s, as_);
  }

  lemma {:induction false} OneAtATimeIsRoomy(s: Instance, as_: seq<Action>)
    requires ValidRun(s, as_) && OneAtATime(s, as_) && Genuine(s)
    ensures RoomyRun(s, as_)
    decreases |as_|
  {
    if as_ != [] {
      hide Step, Genuine, AuthBegin, Where;
      StepPotential(s, as_[0]);
      StepGenuine(s, as_[0]);
      if s.work.auths == multiset{} { assert Checking(s) == {}; }
      OneAtATimeIsRoomy(Step(s, as_[0]).state, as_[1..]);
    }
  }

  // ----- and when it does not

  /** The challenges issued decode. */
  ghost predicate Decodable(s: Instance) {
    forall i :: i in s.history.issued ==> Decoded(s.history.issued[i]).Some?
  }

  lemma {:induction false} StepDecodable(s: Instance, a: Action)
    requires Enabled(s, a) && Decodable(s)
    ensures Decodable(Step(s, a).state)
  {
    if a.DoUpgrade? { RoundTrip(a.bytes); }
    hide Encoded, Decoded, Binary, Where, Authed, Unauthed, Scan, Reaped, Guard, Flush;
  }

  lemma {:induction false} RunDecodable(s: Instance, as_: seq<Action>)
    requires ValidRun(s, as_) && Genuine(s) && Decodable(s)
    ensures Genuine(Run(s, as_)) && Decodable(Run(s, as_))
    decreases |as_|
  {
    if as_ != [] {
      hide Step, Genuine, Decodable;
      StepDecodable(s, as_[0]);
      StepGenuine(s, as_[0]);
      RunDecodable(Step(s, as_[0]).state, as_[1..]);
    }
  }

  /** Signature checks only finish. */
  predicate Finishing(as_: seq<Action>) { forall a :: a in as_ ==> a.DoAuthEnd? }

  /** A check that succeeds makes its candidate a listener and takes nothing else away. */
  lemma {:induction false} FinishOne(s: Instance, k: AuthWait)
    requires Genuine(s) && Decodable(s) && k in s.work.auths && k.ws in Checking(s)
    ensures var r := AuthEnd(s, k, true).state;
            && Genuine(r) && Decodable(r) && k.ws !in Checking(r)
            && Authed(r) == Authed(s) + {k.ws} && Checking(r) == Checking(s) - {k.ws}
  {
    AuthEndGenuine(s, k, true);
    hide Decoded, Where;
    var r := AuthEnd(s, k, true).state;
    assert r.sockets == s.sockets[k.ws := k.att.(authed := true)];
    forall i | i in Checking(s) && i != k.ws ensures i in Waiting(r.work.auths) {
      var j :| j in s.work.auths && j.ws == i;
      assert j in r.work.auths;
    }
    WaitingGrows(s.work.auths, k);
    WhereUpdate(s.sockets, k.ws, k.att.(authed := true), true);
    WhereUpdate(s.sockets, k.ws, k.att.(authed := true), false);
  }

  lemma {:induction false} NextCandidate(s: Instance) returns (k: AuthWait)
    requires Genuine(s) && Decodable(s) && Checking(s) != {}
    ensures Enabled(s, DoAuthEnd(k, true))
    ensures var r := Step(s, DoAuthEnd(k, true)).state;
            && Genuine(r) && Decodable(r) && |Checking(r)| < |Checking(s)|
            && Authed(r) + Checking(r) == Authed(s) + Checking(s)
  {
    hide Genuine, Decodable, AuthEnd, Where;
    var i :| i in Checking(s);
    k :| k in s.work.auths && k.ws == i;
    FinishOne(s, k);
    assert Checking(s) == Checking(AuthEnd(s, k, true).state) + {i};
  }

  /** All candidates can become listeners. */
  lemma {:induction false} AllCandidatesCanJoin(s: Instance) returns (as_: seq<Action>)
    requires Genuine(s) && Decodable(s)
    ensures ValidRun(s, as_) && Finishing(as_)
    ensures Authed(Run(s, as_)) == Authed(s) + Checking(s)
    decreases |Checking(s)|
  {
    as_ := [];
    hide Genuine, Decodable, Checking, Authed, Step, Enabled;
    if Checking(s) != {} {
      var k := NextCandidate(s);
      var a := DoAuthEnd(k, true);
      var rest := AllCandidatesCanJoin(Step(s, a).state);
      RunCons(s, a, rest);
      as_ := [a] + rest;
    }
  }

  /** From any reachable state the cap holds, whatever the checks under way bring, if
      and only if listeners and candidates together are at most 4. */
  lemma {:induction false} CapHoldsIff(s: Instance)
    requires Genuine(s) && Decodable(s)
    ensures Potential(s) <= MAX_AUTHED_SOCKETS <==>
              forall as_ :: Finishing(as_) && ValidRun(s, as_) ==> |Authed(Run(s, as_))| <= MAX_AUTHED_SOCKETS
  {
    hide Genuine, Decodable;
    if Potential(s) <= MAX_AUTHED_SOCKETS {
      forall as_ | Finishing(as_) && ValidRun(s, as_) ensures |Authed(Run(s, as_))| <= MAX_AUTHED_SOCKETS {
        FinishingIsRoomy(s, as_);
        RoomyRunsKeepFour(s, as_);
      }
    } else {
      var as_ := AllCandidatesCanJoin(s);
      assert Authed(s) !! Checking(s);
      assert |Authed(s) + Checking(s)| == Potential(s);
      assert Finishing(as_) && ValidRun(s, as_) && |Authed(Run(s, as_))| > MAX_AUTHED_SOCKETS;
    }
  }

  /** In particular after any run from the start. */
  lemma {:induction false} CapHoldsFromStart(now: int, as_: seq<Action>)
    requires ValidRun(Init(now), as_)
    ensures var s := Run(Init(now), as_);
            Potential(s) <= MAX_AUTHED_SOCKETS <==>
              forall bs :: Finishing(bs) && ValidRun(s, bs) ==> |Authed(Run(s, bs))| <= MAX_AUTHED_SOCKETS
  {
    assert Genuine(Init(now)) && Decodable(Init(now));
    hide Init, Genuine, Decodable;
    RunDecodable(Init(now), as_);
    CapHoldsIff(Run(Init(now), as_));
  }

  lemma {:induction false} FinishingIsRoomy(s: Instance, as_: seq<Action>)
    requires ValidRun(s, as_) && Finishing(as_)
    ensures RoomyRun(s, as_)
    decreases |as_|
  {
    hide Step;
    if as_ != [] {
      assert as_[0] in as_ && forall a :: a in as_[1..] ==> a in as_;
      FinishingIsRoomy(Step(s, as_[0]).state, as_[1..]);
    }
  }

  // ----- a run that breaks it

  ghost predicate Willing(s: Instance, a: Socket) {
    !a.authed && s.now / 1000 <= a.exp && Decoded(a.challenge).Some?
  }

  /** Sockets that pass the checks of `handleAuth` right now. */
  ghost predicate Ready(s: Instance, order: seq<SockId>) {
    && s.known && |Authed(s)| < MAX_AUTHED_SOCKETS
    && (forall n :: 0 <= n < |order| ==> order[n] in s.sockets && Willing(s, s.sockets[order[n]]))
    && (forall i, j :: 0 <= i < j < |order| ==> order[i] != order[j])
  }

  /** All of the sockets in `order` have become listeners; nothing else that bears on
      who may become one changed. */
  ghost predicate AllAuthed(s: Instance, order: seq<SockId>, r: Instance) {
    && r.sockets.Keys == s.sockets.Keys && r.work.auths == s.work.auths
    && r.now == s.now && r.known == s.known && r.history.issued == s.history.issued
    && (forall j :: j in s.sockets ==> r.sockets[j] == if j in order then s.sockets[j].(authed := true) else s.sockets[j])
  }

  lemma BeginWaits(s: Instance, order: seq<SockId>)
    requires order != [] && Ready(s, order)
    ensures var r := AuthBegin(s, order[0]).state;
            && r == s.(work := s.work.(auths := s.work.auths + multiset{AuthWait(order[0], s.sockets[order[0]])}))
            && Ready(r, order[1..])
  {
    hide Decoded;
    assert order[0] in order;
    assert Authed(s) - {order[0]} == Authed(s);
  }

  lemma EndMakesListener(s: Instance, r: Instance, order: seq<SockId>)
    requires order != [] && Ready(s, order) && AllAuthed(AuthBegin(s, order[0]).state, order[1..], r)
    ensures var k := AuthWait(order[0], s.sockets[order[0]]);
            k in r.work.auths && AllAuthed(s, order, AuthEnd(r, k, true).state)
  {
    hide Decoded, Where;
    BeginWaits(s, order);
    var k := AuthWait(order[0], s.sockets[order[0]]);
    assert order == [order[0]] + order[1..];
    assert r.work.auths - multiset{k} == s.work.auths;
  }

  /** With room for one listener left, any number of waiting sockets pass the check
      together and all become listeners. */
  lemma {:induction false} RaceBeatsCap(s: Instance, order: seq<SockId>) returns (as_: seq<Action>)
    requires Ready(s, order)
    ensures ValidRun(s, as_) && AllAuthed(s, order, Run(s, as_))
    ensures Authed(Run(s, as_)) == Authed(s) + set i | i in order
    decreases |order|
  {
    hide Decoded;
    if order == [] {
      as_ := [];
    } else {
      hide Step, Enabled, Ready, AllAuthed;
      BeginWaits(s, order);
      var s1 := AuthBegin(s, order[0]).state;
      var inner := RaceBeatsCap(s1, order[1..]);
      EndMakesListener(s, Run(s1, inner), order);
      var k := AuthWait(order[0], s.sockets[order[0]]);
      StepsAre(s, order[0], Run(s1, inner), k);
      RunOne(s, DoAuthBegin(order[0]));
      RunConcat(s, [DoAuthBegin(order[0])], inner);
      RunOne(Run(s1, inner), DoAuthEnd(k, true));
      RunConcat(s, [DoAuthBegin(order[0])] + inner, [DoAuthEnd(k, true)]);
      as_ := [DoAuthBegin(order[0])] + inner + [DoAuthEnd(k, true)];
      ListenersGrow(s, order, Run(s, as_));
    }
  }

  lemma StepsAre(s: Instance, i: SockId, r: Instance, k: AuthWait)
    ensures Enabled(s, DoAuthBegin(i)) && Step(s, DoAuthBegin(i)) == AuthBegin(s, i)
    ensures k in r.work.auths ==> Enabled(r, DoAuthEnd(k, true)) && Step(r, DoAuthEnd(k, true)) == AuthEnd(r, k, true)
  {
  }

  lemma ListenersGrow(s: Instance, order: seq<SockId>, r: Instance)
    requires Ready(s, order) && AllAuthed(s, order, r)
    ensures Authed(r) == Authed(s) + set i | i in order
  {
  }

  // ----- from the start

  /** The sockets `first` up to `upto` have just opened; nothing else changed. */
  ghost predicate Opened(s: Instance, r: Instance, first: nat, upto: nat) {
    && r.now == s.now && (r.known || first == upto) && (s.known ==> r.known)
    && (forall i :: i in r.history.issued <==> i in s.history.issued || first <= i < upto)
    && (forall i :: i in r.sockets <==> i in s.sockets || first <= i < upto)
    && (forall i :: i in s.sockets ==> r.sockets[i] == s.sockets[i])
    && (forall i :: first <= i < upto ==> Willing(r, r.sockets[i]))
  }

  ghost predicate Below(s: Instance, n: nat) {
    forall i :: i in s.sockets || i in s.history.issued ==> i < n
  }

  lemma {:induction false} OpenOne(s: Instance, id: SockId)
    requires Below(s, id) && |Unauthed(s)| < MAX_UNAUTHED_SOCKETS
    ensures var r := Upgrade(s, id, []).state;
            && Opened(s, r, id, id + 1) && Below(r, id + 1)
            && Authed(r) == Authed(s) && Unauthed(r) == Unauthed(s) + {id}
            && Enabled(s, DoUpgrade(id, [])) && Step(s, DoUpgrade(id, [])).state == r
  {
    RoundTrip([]);
    assert Enabled(s, DoUpgrade(id, []));
    var a := Socket(Encoded([]), s.now / 1000 + CHALLENGE_TTL_SECONDS, s.now, false);
    assert Authed(s) - {id} == Authed(s);
    hide Encoded, Decoded, Binary, Where, Opened, Below;
    var r := Upgrade(s, id, []).state;
    assert r.sockets == s.sockets[id := a];
    JustOpened(s, r, id, a);
    WhereUpdate(s.sockets, id, a, true);
    WhereUpdate(s.sockets, id, a, false);
  }

  lemma JustOpened(s: Instance, r: Instance, id: SockId, a: Socket)
    requires Below(s, id) && r.now == s.now && r.known && Willing(r, a)
    requires r.sockets == s.sockets[id := a] && r.history.issued == s.history.issued[id := a.challenge]
    ensures Opened(s, r, id, id + 1) && Below(r, id + 1)
  {
    hide Decoded;
  }

  lemma NothingOpened(s: Instance, first: nat)
    ensures Opened(s, s, first, first)
  {
  }

  lemma {:induction false} OpenMany(s: Instance, first: nat, n: nat) returns (as_: seq<Action>)
    requires Below(s, first) && |Unauthed(s)| + n <= MAX_UNAUTHED_SOCKETS
    ensures ValidRun(s, as_)
    ensures var r := Run(s, as_);
            Opened(s, r, first, first + n) && Below(r, first + n) && Authed(r) == Authed(s)
    decreases n
  {
    hide Opened, Below, Authed, Unauthed;
    as_ := [];
    NothingOpened(s, first);
    if n > 0 {
      OpenOne(s, first);
      var a := DoUpgrade(first, []);
      var r := Upgrade(s, first, []).state;
      hide Upgrade, Where, Step, Enabled, Run, ValidRun;
      var rest := OpenMany(r, first + 1, n - 1);
      RunCons(s, a, rest);
      as_ := [a] + rest;
      OpenedThen(s, r, Run(r, rest), first, first + n);
    }
  }

  lemma OpenedThen(s: Instance, m: Instance, r: Instance, first: nat, upto: nat)
    requires first < upto && Below(s, first) && Opened(s, m, first, first + 1) && Opened(m, r, first + 1, upto)
    ensures Opened(s, r, first, upto)
  {
    hide Decoded;
  }

  function Range(first: nat, upto: nat): seq<SockId>
    requires first <= upto
  {
    seq(upto - first, i requires 0 <= i < upto - first => first + i)
  }

  lemma OpenedAreReady(s: Instance, r: Instance, first: nat, upto: nat)
    requires first < upto && Opened(s, r, first, upto) && |Authed(r)| < MAX_AUTHED_SOCKETS
    ensures Ready(r, Range(first, upto))
  {
    hide Authed;
  }

  function Ids(first: nat, upto: nat): set<SockId>
    requires first <= upto
  {
    set i | i in Range(first, upto)
  }

  /** Opening some sockets and racing them through the check. */
  lemma {:induction false} OpenAndRace(s: Instance, first: nat, n: nat) returns (as_: seq<Action>)
    requires 0 < n && Below(s, first) && Unauthed(s) == {} && |Unauthed(s)| + n <= MAX_UNAUTHED_SOCKETS && |Authed(s)| < MAX_AUTHED_SOCKETS
    ensures ValidRun(s, as_)
    ensures var r := Run(s, as_);
            && Below(r, first + n) && Unauthed(r) == {}
            && Authed(r) == Authed(s) + Ids(first, first + n)
  {
    hide Run, ValidRun, Below, Opened, Ready, AllAuthed, Authed, Unauthed;
    var a := OpenMany(s, first, n);
    var m := Run(s, a);
    OpenedAreReady(s, m, first, first + n);
    var order := Range(first, first + n);
    var b := RaceBeatsCap(m, order);
    RunConcat(s, a, b);
    as_ := a + b;
    AllJoined(s, m, Run(m, b), first, first + n);
  }

  lemma {:induction false} AllJoined(s: Instance, m: Instance, r: Instance, first: nat, upto: nat)
    requires first < upto && Unauthed(s) == {} && Opened(s, m, first, upto) && Below(m, upto)
    requires AllAuthed(m, Range(first, upto), r)
    ensures Below(r, upto) && Unauthed(r) == {}
  {
    forall i | i in r.sockets ensures r.sockets[i].authed {
      if i in s.sockets {
        assert i !in Unauthed(s);
      } else {
        assert Range(first, upto)[i - first] == i;
      }
    }
  }

  lemma {:induction false} CountIds(a: nat, b: nat)
    requires a <= b
    ensures |Ids(a, b)| == b - a
    decreases b - a
  {
    if a < b {
      CountIds(a, b - 1);
      assert Range(a, b) == Range(a, b - 1) + [b - 1];
      assert Ids(a, b) == Ids(a, b - 1) + {b - 1};
    }
  }

  /** And the bound of 11 is reached, from the start: three listeners, then eight
      sockets whose checks overlap. */
  lemma {:induction false} ElevenListeners(now: int) returns (as_: seq<Action>)
    ensures ValidRun(Init(now), as_) && |Authed(Run(Init(now), as_))| == 11
  {
    hide Run, ValidRun, Authed, Unauthed, Below, Init, Ids;
    var s := Init(now);
    NobodyAtFirst(now);
    var a := OpenAndRace(s, 0, 3);
    var m := Run(s, a);
    CountIds(0, 3);
    assert Authed(m) == Ids(0, 3);
    var b := OpenAndRace(m, 3, 8);
    RunConcat(s, a, b);
    as_ := a + b;
    CountIds(0, 11);
    JoinIds(0, 3, 11);
  }

  lemma NobodyAtFirst(now: int)
    ensures Authed(Init(now)) == {} && Unauthed(Init(now)) == {} && Below(Init(now), 0)
  {
  }

  lemma JoinIds(a: nat, b: nat, c: nat)
    requires a <= b <= c
    ensures Ids(a, b) + Ids(b, c) == Ids(a, c)
  {
    assert Range(a, c) == Range(a, b) + Range(b, c);
  }
}
