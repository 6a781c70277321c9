/** The daemon's side of the relay: the receive loop and its trailing 10 s debounce
    (internal/webhook). Times are milliseconds; the runtime calls a timer's function
    exactly when it is due. */
module Debounce {
  import opened Common

  const DEBOUNCE: int := 10_000

  datatype Timer = Timer(due: int, reason: string)

  datatype Trigger = Trigger(at: int, reason: string)

  datatype Poke = Poke(at: int, reason: string)

  /** A frame with the instant it is read; `poke` carries the reason of a poke frame. */
  datatype Frame = Frame(at: int, poke: Option<string>)

  function ReasonOf(r: string): string { if r == "" then "webhook" else r }

  // ----- the machine

  /** The timer and the triggers it has set off so far. */
  datatype Progress = Progress(timer: Option<Timer>, fired: seq<Trigger>)

  const IDLE: Progress := Progress(None, [])

  /** The timer goes off when due; what is read at that very instant comes after. */
  function Elapse(s: Progress, now: int): Progress {
    if s.timer.Some? && s.timer.value.due <= now then Drained(s) else s
  }

  /** Nothing more arrives: a pending timer goes off. */
  function Drained(s: Progress): Progress {
    if s.timer.Some? then Progress(None, s.fired + [Trigger(s.timer.value.due, s.timer.value.reason)]) else s
  }

  /** `schedule`: stops the pending timer, if any, and starts a new one. */
  function Schedule(s: Progress, p: Poke): Progress {
    s.(timer := Some(Timer(p.at + DEBOUNCE, ReasonOf(p.reason))))
  }

  function Handle(s: Progress, f: Frame): Progress {
    var e := Elapse(s, f.at);
    if f.poke.Some? then Schedule(e, Poke(f.at, f.poke.value)) else e
  }

  function Feed(s: Progress, frames: seq<Frame>): Progress
    decreases |frames|
  {
    if frames == [] then s else Feed(Handle(s, frames[0]), frames[1..])
  }

  class Client {
    var pendingTimer: Option<Timer>
    var fired: seq<Trigger>

    ghost function View(): Progress
      reads this
    {
      Progress(pendingTimer, fired)
    }

    constructor ()
      ensures View() == IDLE
    {
      pendingTimer, fired := None, [];
    }

    method RunTimer(now: int)
      modifies this
      ensures View() == Elapse(old(View()), now)
    {
      if pendingTimer.Some? && pendingTimer.value.due <= now {
        fired := fired + [Trigger(pendingTimer.value.due, pendingTimer.value.reason)];
        pendingTimer := None;
      }
    }

    method DoSchedule(now: int, reason: string)
      modifies this
      ensures View() == Schedule(old(View()), Poke(now, reason))
    {
      if pendingTimer.Some? { pendingTimer := None; }
      var r := reason;
      if r == "" { r := "webhook"; }
      pendingTimer := Some(Timer(now + DEBOUNCE, r));
    }

    /** Shutting down cancels the pending trigger. */
    method StopPending()
      modifies this
      ensures View() == old(View()).(timer := None)
    {
      if pendingTimer.Some? { pendingTimer := None; }
    }

    /** The receive loop of a connection, until the read that fails. */
    method Receive(frames: seq<Frame>)
      modifies this
      ensures View() == Feed(old(View()), frames)
    {
      for i := 0 to |frames|
        invariant Feed(old(View()), frames) == Feed(View(), frames[i..])
      {
        RunTimer(frames[i].at);
        if frames[i].poke.Some? { DoSchedule(frames[i].at, frames[i].poke.value); }
        assert frames[i..][0] == frames[i] && frames[i..][1..] == frames[i+1..];
      }
    }
  }

  // ----- bursts

  /** The pokes among the frames. */
  function Pokes(frames: seq<Frame>): seq<Poke> {
    if frames == [] then []
    else (if frames[0].poke.Some? then [Poke(frames[0].at, frames[0].poke.value)] else []) + Pokes(frames[1..])
  }

  function TriggerOf(p: Poke): Trigger { Trigger(p.at + DEBOUNCE, ReasonOf(p.reason)) }

  /** The poke at `i` is the last of a maximal burst: the next one, if any, comes at
      least 10 s later. */
  predicate EndsBurst(ps: seq<Poke>, i: nat) {
    i < |ps| && (i + 1 < |ps| ==> ps[i + 1].at - ps[i].at >= DEBOUNCE)
  }

  /** One trigger per maximal burst, 10 s after its last poke, in order. */
  function BurstTriggers(ps: seq<Poke>): seq<Trigger> {
    if ps == [] then []
    else (if EndsBurst(ps, 0) then [TriggerOf(ps[0])] else []) + BurstTriggers(ps[1..])
  }

  ghost predicate Ordered(frames: seq<Frame>) {
    forall i, j :: 0 <= i < j < |frames| ==> frames[i].at <= frames[j].at
  }

  lemma {:induction false} FirstPokeAfter(frames: seq<Frame>, t: int)
    requires Ordered(frames) && (frames != [] ==> t <= frames[0].at)
    ensures Pokes(frames) != [] ==> t <= Pokes(frames)[0].at
  {
    if frames != [] && frames[0].poke.None? { FirstPokeAfter(frames[1..], t); }
  }

  lemma {:induction false} BurstCons(p: Poke, ps: seq<Poke>)
    ensures BurstTriggers([p] + ps)
         == (if ps != [] && ps[0].at - p.at < DEBOUNCE then [] else [TriggerOf(p)]) + BurstTriggers(ps)
  {
    assert ([p] + ps)[1..] == ps;
  }

  /** The pokes the timer still stands for. */
  ghost predicate Stands(s: Progress, held: seq<Poke>) {
    if s.timer.None? then held == []
    else |held| == 1 && s.timer.value == Timer(held[0].at + DEBOUNCE, ReasonOf(held[0].reason))
  }

  function Held(s: Progress, held: seq<Poke>, f: Frame): seq<Poke> {
    if f.poke.Some? then [Poke(f.at, f.poke.value)]
    else if Elapse(s, f.at).timer.None? then []
    else held
  }

  /** The pokes a frame brings: one or none. */
  function Brings(f: Frame): seq<Poke> {
    if f.poke.Some? then [Poke(f.at, f.poke.value)] else []
  }

  /** One frame: what has fired plus what is still to fire stays the same. */
  lemma {:induction false} OneFrame(s: Progress, held: seq<Poke>, f: Frame, later: seq<Poke>)
    requires Stands(s, held)
    requires held != [] ==> held[0].at <= f.at
    requires later != [] ==> f.at <= later[0].at
    ensures Stands(Handle(s, f), Held(s, held, f))
    ensures Handle(s, f).fired + BurstTriggers(Held(s, held, f) + later)
         == s.fired + BurstTriggers(held + (Brings(f) + later))
  {
    hide BurstTriggers;
    var rest := Brings(f) + later;
    assert [] + rest == rest && [] + later == later;
    if held != [] {
      assert held == [held[0]];
      BurstCons(held[0], rest);
      var due := held[0].at + DEBOUNCE;
      if due <= f.at {
        assert Handle(s, f).fired == s.fired + [TriggerOf(held[0])];
        assert BurstTriggers(held + rest) == [TriggerOf(held[0])] + BurstTriggers(rest);
      } else if f.poke.Some? {
        assert BurstTriggers(held + rest) == [] + BurstTriggers(rest);
      }
    }
  }

  lemma {:induction false} FeedFrom(s: Progress, held: seq<Poke>, frames: seq<Frame>)
    requires Stands(s, held) && Ordered(frames)
    requires held != [] && frames != [] ==> held[0].at <= frames[0].at
    ensures Drained(Feed(s, frames)).fired == s.fired + BurstTriggers(held + Pokes(frames))
    decreases |frames|
  {
    if frames == [] {
      FeedNothing(s, held);
    } else {
      hide BurstTriggers, Elapse, Drained, Schedule, Handle, Held, Brings, Stands;
      var f, rest := frames[0], Pokes(frames[1..]);
      FirstPokeAfter(frames[1..], f.at);
      OneFrame(s, held, f, rest);
      HeldIsEarlier(s, held, f);
      FeedFrom(Handle(s, f), Held(s, held, f), frames[1..]);
      PokesCons(frames);
    }
  }

  lemma {:induction false} PokesCons(frames: seq<Frame>)
    requires frames != []
    ensures Pokes(frames) == Brings(frames[0]) + Pokes(frames[1..])
  {
  }

  lemma HeldIsEarlier(s: Progress, held: seq<Poke>, f: Frame)
    requires held != [] ==> held[0].at <= f.at
    ensures var h := Held(s, held, f); h != [] ==> h[0].at <= f.at
  {
  }

  lemma {:induction false} FeedNothing(s: Progress, held: seq<Poke>)
    requires Stands(s, held)
    ensures Drained(Feed(s, [])).fired == s.fired + BurstTriggers(held + Pokes([]))
  {
    if held != [] {
      assert held == [held[0]];
      BurstCons(held[0], []);
    }
    assert held + [] == held;
  }

  /** Trailing edge: for any sequence of frames, the triggers are exactly one per
      maximal burst of pokes, 10 s after its last poke; other frames do not matter. */
  lemma {:induction false} DebounceIsPerBurst(frames: seq<Frame>)
    requires Ordered(frames)
    ensures Drained(Feed(IDLE, frames)).fired == BurstTriggers(Pokes(frames))
  {
    FeedFrom(IDLE, [], frames);
    assert [] + Pokes(frames) == Pokes(frames);
  }

  /** Stopping after any frames loses at most one trigger, that of the last burst. */
  lemma {:induction false} StopLosesLastBurst(frames: seq<Frame>)
    requires Ordered(frames)
    ensures var s := Feed(IDLE, frames);
            && BurstTriggers(Pokes(frames)) == Drained(s.(timer := None)).fired + (if s.timer.Some? then [TriggerOf(LastPoke(frames))] else [])
            && (s.timer.Some? ==> Pokes(frames) != [])
  {
    DebounceIsPerBurst(frames);
    TimerIsLastPoke(IDLE, frames);
  }

  function LastPoke(frames: seq<Frame>): Poke {
    var ps := Pokes(frames);
    if ps == [] then Poke(0, "") else ps[|ps| - 1]
  }

  lemma {:induction false} TimerIsLastPoke(s: Progress, frames: seq<Frame>)
    ensures var r := Feed(s, frames);
            r.timer.Some? ==>
              if Pokes(frames) == [] then r.timer == s.timer
              else r.timer.value == Timer(TriggerOf(LastPoke(frames)).at, TriggerOf(LastPoke(frames)).reason)
    decreases |frames|
  {
    if frames != [] { TimerIsLastPoke(Handle(s, frames[0]), frames[1..]); }
  }

  /** The triggers stand for the ends of bursts and for nothing else. */
  lemma {:induction false} TriggersAreBurstEnds(ps: seq<Poke>, x: Trigger)
    ensures x in BurstTriggers(ps) <==> exists i: nat :: EndsBurst(ps, i) && x == TriggerOf(ps[i])
  {
    if ps != [] {
      TriggersAreBurstEnds(ps[1..], x);
      if i: nat :| EndsBurst(ps, i) && x == TriggerOf(ps[i]) {
        if i > 0 { assert EndsBurst(ps[1..], i - 1); }
      }
      if i: nat :| EndsBurst(ps[1..], i) && x == TriggerOf(ps[1..][i]) {
        assert EndsBurst(ps, i + 1);
      }
    }
  }

  ghost predicate Arriving(ps: seq<Poke>) {
    forall i, j :: 0 <= i < j < |ps| ==> ps[i].at <= ps[j].at
  }

  /** Two triggers are at least 10 s apart, so cycles are not started in swarms. */
  lemma {:induction false} TriggersSpaced(ps: seq<Poke>)
    requires Arriving(ps)
    ensures var ts := BurstTriggers(ps);
            && (ps != [] ==> ts != [] && ts[0].at >= ps[0].at + DEBOUNCE)
            && (forall i :: 0 <= i < |ts| - 1 ==> ts[i + 1].at >= ts[i].at + 10_000)
  {
    if ps != [] { TriggersSpaced(ps[1..]); }
  }

  function Spaced(n: nat, gap: int): seq<Poke> {
    seq(n, i requires 0 <= i < n => Poke(i * gap, ""))
  }

  /** There is no bound on the delay: pokes that keep coming less than 10 s apart
      postpone the trigger for as long as they keep coming. */
  lemma {:induction false} SteadyPokesPostpone(n: nat, gap: int, k: nat)
    requires 0 <= gap < DEBOUNCE && k < n
    ensures BurstTriggers(Spaced(n, gap)[k..]) == [Trigger((n - 1) * gap + DEBOUNCE, "webhook")]
    decreases n - k
  {
    var ps := Spaced(n, gap);
    assert ps[k..][1..] == ps[k + 1..];
    if k + 1 < n {
      SteadyPokesPostpone(n, gap, k + 1);
      assert ps[k..][1].at - ps[k..][0].at == gap by { assert (k + 1) * gap - k * gap == gap; }
    }
  }
}
