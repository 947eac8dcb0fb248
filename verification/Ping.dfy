/**
 http2/ping.rs: the bandwidth-delay estimator that grows the flow-control window, and
 the keep-alive ping state machine over a clock that can advance at any point.
 */
module Ping {
  import opened Bytes

  const BDP_LIMIT: nat := 1024 * 1024 * 16
  const SPEC_WINDOW_SIZE: nat := 65535
  const MILLIS: nat := 1_000_000
  const SECONDS: nat := 1_000_000_000
  const INITIAL_DELAY: nat := 100 * MILLIS

  // ---- the estimator -------------------------------------------------------

  /** The least the estimate can be after `k` increases: each came from the smallest sample that still raises it. */
  function Least(k: nat): nat {
    if k == 0 then SPEC_WINDOW_SIZE else Raised(Least(k - 1))
  }

  function Raised(bdp: nat): nat {
    Min(2 * (bdp * 2 / 3), BDP_LIMIT)
  }

  lemma LeastNext(k: nat, v: nat)
    requires Least(k) == v
    ensures Least(k + 1) == Raised(v)
  {
  }

  lemma LimitAtTwentieth()
    ensures Least(19) < BDP_LIMIT && Least(20) == BDP_LIMIT
  {
    assert Least(0) == 65535;
    hide Least;
    LeastNext(0, 65535);
    LeastNext(1, 87380);
    LeastNext(2, 116506);
    LeastNext(3, 155340);
    LeastNext(4, 207120);
    LeastNext(5, 276160);
    LeastNext(6, 368212);
    LeastNext(7, 490948);
    LeastNext(8, 654596);
    LeastNext(9, 872794);
    LeastNext(10, 1163724);
    LeastNext(11, 1551632);
    LeastNext(12, 2068842);
    LeastNext(13, 2758456);
    LeastNext(14, 3677940);
    LeastNext(15, 4903920);
    LeastNext(16, 6538560);
    LeastNext(17, 8718080);
    LeastNext(18, 11624106);
    LeastNext(19, 15498808);
  }

  /** An increase raises the estimate and its lower bound, and there are at most twenty. */
  lemma Increased(k: nat, bdp: nat, bytes: nat)
    requires k <= 20 && Least(k) <= bdp < BDP_LIMIT && bytes >= bdp * 2 / 3
    ensures k < 20 && Least(k + 1) <= Min(2 * bytes, BDP_LIMIT)
    ensures SPEC_WINDOW_SIZE <= bdp ==> bdp < Min(2 * bytes, BDP_LIMIT)
  {
    hide Least;
    LimitAtTwentieth();
    LeastNext(k, Least(k));
    assert Least(k) * 2 / 3 <= bdp * 2 / 3;
  }

  lemma Halved(k: nat, delay: nat)
    requires k < 20 && LeastDelay(k) <= delay
    ensures 0 < LeastDelay(k + 1) <= delay / 2
  {
    var rest := 20 - (k + 1);
    assert Pow2(rest + 1) == 2 * Pow2(rest);
  }

  lemma Pow2Of20()
    ensures Pow2(20) == 1048576
  {
    assert Pow2(5) == 32;
    assert Pow2(10) == 1024;
    assert Pow2(15) == 32768;
  }

  /** A lower bound on the delay that halving once per increase keeps. */
  function LeastDelay(increases: nat): nat
    requires increases <= 20
  {
    95 * Pow2(20 - increases)
  }

  class Bdp {
    var bdp: nat
    var pingDelay: nat
    var stableCount: nat
    /** How many window updates have been emitted. */
    ghost var updates: nat

    ghost predicate Valid()
      reads this
    {
      && updates <= 20 && Least(updates) <= bdp <= BDP_LIMIT && SPEC_WINDOW_SIZE <= bdp
      && LeastDelay(updates) <= pingDelay && 0 < pingDelay < 40 * SECONDS
      && stableCount < 2
    }

    /** As made by `channel` for the window the adaptive setting leaves in place. */
    constructor ()
      ensures Valid() && bdp == SPEC_WINDOW_SIZE && pingDelay == INITIAL_DELAY && updates == 0
    {
      bdp, pingDelay, stableCount, updates := SPEC_WINDOW_SIZE, INITIAL_DELAY, 0, 0;
      Pow2Of20();
    }

    /** `calculate`; `faster` is the floating-point bandwidth comparison, left arbitrary. */
    method Calculate(bytes: nat, faster: bool) returns (update: Option<nat>)
      requires Valid() && bytes * 2 < TWO_64
      modifies this
      ensures Valid()
      ensures update.Some? <==> old(bdp) != BDP_LIMIT && faster && bytes >= old(bdp) * 2 / 3
      ensures update.Some? ==> old(bdp) < bdp == update.value == Min(2 * bytes, BDP_LIMIT)
      ensures update.Some? ==> updates == old(updates) + 1 && stableCount == 0 && pingDelay == old(pingDelay) / 2
      ensures update.None? ==> bdp == old(bdp) && updates == old(updates) && old(pingDelay) <= pingDelay
    {
      hide Least, Pow2, LeastDelay;
      if bdp == BDP_LIMIT || !faster {
        StabilizeDelay();
        return None;
      }
      if bytes >= bdp * 2 / 3 {
        Increased(updates, bdp, bytes);
        Halved(updates, pingDelay);
        bdp := Min(bytes * 2, BDP_LIMIT);
        stableCount := 0;
        pingDelay := pingDelay / 2;
        updates := updates + 1;
        update := Some(bdp);
      } else {
        StabilizeDelay();
        update := None;
      }
    }

    method StabilizeDelay()
      requires Valid()
      modifies this`pingDelay, this`stableCount
      ensures Valid()
      ensures if old(pingDelay) < 10 * SECONDS && old(stableCount) == 1
              then pingDelay == 4 * old(pingDelay) && stableCount == 0
              else pingDelay == old(pingDelay)
      ensures old(stableCount) == 0 ==> stableCount == if old(pingDelay) < 10 * SECONDS then 1 else 0
    {
      if pingDelay < 10 * SECONDS {
        stableCount := stableCount + 1;
        if stableCount >= 2 {
          pingDelay := pingDelay * 4;
          stableCount := 0;
        }
      }
    }
  }

  datatype Sample = Sample(bytes: nat, faster: bool)

  /**
   Over every sequence of samples: at most twenty window sizes are emitted, strictly
   increasing and never above 16 MiB, and the delay stays positive and below 40 seconds.
   */
  method RunBdp(samples: seq<Sample>) returns (sizes: seq<nat>, delays: seq<nat>)
    requires forall i :: 0 <= i < |samples| ==> samples[i].bytes * 2 < TWO_64
    ensures |sizes| <= 20 && |delays| == |samples|
    ensures forall i :: 0 <= i < |sizes| ==> SPEC_WINDOW_SIZE < sizes[i] <= BDP_LIMIT
    ensures forall i, j :: 0 <= i < j < |sizes| ==> sizes[i] < sizes[j]
    ensures forall i :: 0 <= i < |delays| ==> 0 < delays[i] < 40 * SECONDS
  {
    hide Least, LeastDelay;
    var b := new Bdp();
    sizes, delays := [], [];
    for k := 0 to |samples|
      invariant b.Valid() && fresh(b) && b.updates == |sizes| && |delays| == k
      invariant forall i :: 0 <= i < |sizes| ==> SPEC_WINDOW_SIZE < sizes[i] <= b.bdp
      invariant forall i, j :: 0 <= i < j < |sizes| ==> sizes[i] < sizes[j]
      invariant forall i :: 0 <= i < |delays| ==> 0 < delays[i] < 40 * SECONDS
    {
      var update := b.Calculate(samples[k].bytes, samples[k].faster);
      if update.Some? { sizes := sizes + [update.value]; }
      delays := delays + [b.pingDelay];
    }
  }

  // ---- keep-alive ----------------------------------------------------------

  datatype KeepAliveState = Init | Scheduled(at: nat) | PingSent

  datatype KeepAliveConfig = KeepAliveConfig(interval: nat, timeout: nat, whileIdle: bool)

  datatype Ponged = SizeUpdate(window: nat) | KeepAliveTimedOut

  /** A keep-alive ping, with the time of the last frame recorded before it. */
  datatype PingRecord = PingRecord(at: nat, lastFrame: nat)

  /** A reported timeout, with the time the outstanding ping was sent, if one was. */
  datatype TimeoutRecord = TimeoutRecord(at: nat, pingSentAt: Option<nat>)

  class Ponger {
    /** Whether `send_ping` succeeds whenever no ping is outstanding, as the h2 library promises. */
    const reliable: bool
    const config: KeepAliveConfig
    const bdp: Bdp
    const bdpEnabled: bool

    var time: nat
    var pingSentAt: Option<nat>
    var bytes: nat
    var nextBdpAt: Option<nat>
    var lastReadAt: Option<nat>
    var isTimedOut: bool
    var keepAlive: bool
    var state: KeepAliveState
    var sleepUntil: nat
    /** What the sleep future, and the ping in flight, last answered. */
    var woke: bool
    var pong: Poll<bool>

    /** When a frame was last recorded, and what keep-alive has done. */
    ghost var lastFrame: nat
    var pings: seq<PingRecord>
    var timeouts: seq<TimeoutRecord>

    ghost predicate Valid()
      reads this, bdp
    {
      && bdp.Valid()
      && lastFrame <= time
      && (keepAlive ==> lastReadAt == Some(lastFrame))
      && (pingSentAt.Some? ==> pingSentAt.value <= time)
      && (state.Scheduled? ==> sleepUntil == state.at)
      && (reliable && state.PingSent? && keepAlive ==>
            pingSentAt.Some? && pingSentAt.value + config.timeout <= sleepUntil)
      && PingsAreSafe(config, pings)
      && (reliable ==> TimeoutsAreSafe(config, timeouts))
    }

    constructor (config: KeepAliveConfig, keepAlive: bool, bdpEnabled: bool, reliable: bool, now: nat)
      ensures Valid() && fresh(bdp) && pings == [] && timeouts == []
      ensures this.config == config && this.reliable == reliable
    {
      this.config, this.keepAlive, this.bdpEnabled, this.reliable := config, keepAlive, bdpEnabled, reliable;
      bdp := new Bdp();
      time, lastFrame := now, now;
      pingSentAt, bytes := None, 0;
      nextBdpAt := if bdpEnabled then Some(now) else None;
      lastReadAt := if keepAlive then Some(now) else None;
      isTimedOut, state, sleepUntil := false, Init, now + config.interval;
      woke, pong := false, Pending;
      pings, timeouts := [], [];
    }

    /** The clock: never goes back, and may advance between any two readings. */
    method Now() returns (t: nat)
      requires Valid()
      modifies this`time
      ensures Valid() && old(time) <= time == t
    {
      var elapsed: int := *;
      if elapsed > 0 { time := time + elapsed; }
      t := time;
    }

    /** The sleep future: ready only once its deadline has passed. */
    method SleepElapsed() returns (r: bool)
      modifies this`woke
      ensures r == woke && (r ==> sleepUntil <= time)
    {
      woke := *;
      if time < sleepUntil { woke := false; }
      r := woke;
    }

    /** `Shared::send_ping`. */
    method SendPing()
      requires Valid()
      modifies this`time, this`pingSentAt
      ensures old(time) <= time
      ensures pingSentAt == old(pingSentAt) || (pingSentAt.Some? && old(time) <= pingSentAt.value <= time)
      ensures pingSentAt.Some? ==> pingSentAt.value <= time
      ensures reliable && old(pingSentAt).None? ==> pingSentAt.Some?
    {
      hide Bdp.Valid, PingsAreSafe, TimeoutsAreSafe;
      var ok: bool := *;
      if reliable && pingSentAt.None? { ok := true; }
      if ok {
        var now := Now();
        pingSentAt := Some(now);
      }
    }

    /** `update_last_read_at`, on a frame just received. */
    method UpdateLastReadAt()
      requires Valid()
      modifies this`time, this`lastReadAt, this`lastFrame
      ensures Valid() && old(time) <= time && lastFrame == time
      ensures lastReadAt.Some? == old(lastReadAt).Some?
    {
      hide Bdp.Valid, PingsAreSafe, TimeoutsAreSafe;
      var now := Now();
      if lastReadAt.Some? { lastReadAt := Some(now); }
      lastFrame := now;
    }

    /** `Recorder::record_non_data`. */
    method RecordNonData()
      requires Valid()
      modifies this`time, this`lastReadAt, this`lastFrame
      ensures Valid() && old(time) <= lastFrame && lastFrame == time
    {
      UpdateLastReadAt();
    }

    /** `Recorder::record_data`: count bytes of the current sample and start one if none is running. */
    method RecordData(len: nat)
      requires Valid()
      modifies this`time, this`lastReadAt, this`lastFrame, this`nextBdpAt, this`bytes, this`pingSentAt
      ensures Valid() && old(time) <= lastFrame
      ensures nextBdpAt.Some? ==> nextBdpAt == old(nextBdpAt) && time < nextBdpAt.value
      ensures nextBdpAt.None? && old(nextBdpAt).Some? ==> old(nextBdpAt).value <= time
      ensures bytes == old(bytes) + if bdpEnabled && nextBdpAt.None? then len else 0
      ensures old(pingSentAt).Some? || !bdpEnabled || nextBdpAt.Some? ==> pingSentAt == old(pingSentAt)
      ensures reliable && bdpEnabled && nextBdpAt.None? ==> pingSentAt.Some?
    {
      hide Bdp.Valid, PingsAreSafe, TimeoutsAreSafe;
      UpdateLastReadAt();
      if nextBdpAt.Some? {
        var now := Now();
        if now < nextBdpAt.value { return; }
        nextBdpAt := None;
      }
      if !bdpEnabled { return; }
      bytes := bytes + len;
      if pingSentAt.None? { SendPing(); }
    }

    /** `maybe_schedule`. */
    method MaybeSchedule(isIdle: bool)
      requires Valid() && keepAlive
      modifies this`state, this`sleepUntil
      ensures Valid() && (pingSentAt.None? ==> !state.PingSent?)
      ensures if (old(state).Init? && (config.whileIdle || !isIdle)) || (old(state).PingSent? && pingSentAt.None?)
              then state == Scheduled(lastReadAt.value + config.interval)
              else state == old(state) && sleepUntil == old(sleepUntil)
    {
      hide Bdp.Valid, PingsAreSafe, TimeoutsAreSafe;
      match state
      case Init =>
        if !config.whileIdle && isIdle { return; }
        Schedule();
      case PingSent =>
        if pingSentAt.Some? { return; }
        Schedule();
      case Scheduled(_) =>
    }

    method Schedule()
      requires Valid() && keepAlive
      modifies this`state, this`sleepUntil
      ensures Valid() && state == Scheduled(lastReadAt.value + config.interval)
    {
      hide Bdp.Valid, PingsAreSafe, TimeoutsAreSafe;
      var at := lastReadAt.value + config.interval;
      state := Scheduled(at);
      sleepUntil := at;
    }

    /** `maybe_ping`: once scheduled and woken, a ping goes out exactly if no frame was recorded for a whole interval. */
    method MaybePing(isIdle: bool)
      requires Valid() && keepAlive
      modifies this`state, this`sleepUntil, this`time, this`pingSentAt, this`pings, this`woke
      ensures !old(state).Scheduled? || !woke ==> pings == old(pings) && state == old(state)
      ensures old(state).Scheduled? && woke && lastFrame + config.interval > old(state).at ==> pings == old(pings) && state == Init
      ensures old(state).Scheduled? && woke && lastFrame + config.interval <= old(state).at ==>
                if config.whileIdle || !isIdle then pings == old(pings) + [PingRecord(old(time), lastFrame)] && state == PingSent
                else pings == old(pings) && state == old(state)
      ensures Valid() && old(time) <= time
      ensures pings == old(pings) ==> pingSentAt == old(pingSentAt) && (state == old(state) || state.Init?)
      ensures pings != old(pings) ==>
                && |pings| == |old(pings)| + 1 && old(pings) <= pings
                && old(state).Scheduled? && state.PingSent? && (config.whileIdle || !isIdle)
                && pings[|old(pings)|] == PingRecord(old(time), lastFrame)
                && old(time) + config.timeout <= sleepUntil
    {
      hide Bdp.Valid, TimeoutsAreSafe;
      if !state.Scheduled? { return; }
      var elapsed := SleepElapsed();
      if !elapsed { return; }
      if lastReadAt.value + config.interval > state.at {
        state := Init;
        return;
      }
      if !config.whileIdle && isIdle { return; }
      pings := pings + [PingRecord(time, lastReadAt.value)];
      SendPing();
      var now := Now();
      state := PingSent;
      sleepUntil := now + config.timeout;
    }

    /** `maybe_timeout`. */
    method MaybeTimeout() returns (timedOut: bool)
      requires Valid()
      modifies this`woke
      ensures Valid() && (timedOut ==> sleepUntil <= time)
      ensures timedOut <==> state.PingSent? && woke
    {
      if !state.PingSent? { return false; }
      timedOut := SleepElapsed();
    }

    /** The acknowledgement branch of `poll`. */
    method OnPong(now: nat, isIdle: bool) returns (r: Poll<Ponged>)
      requires Valid() && now <= time && pingSentAt.Some? && bytes * 2 < TWO_64
      modifies this`pingSentAt, this`lastReadAt, this`lastFrame, this`time, this`state, this`sleepUntil, this`pings, this`bytes,
               this`nextBdpAt, this`woke, bdp
      ensures Valid() && timeouts == old(timeouts) && keepAlive == old(keepAlive)
      ensures r.Ready? ==> r.value == SizeUpdate(bdp.bdp) && old(bdp.bdp) < bdp.bdp <= BDP_LIMIT
      ensures bdpEnabled ==> bytes == 0 && nextBdpAt == Some(now + bdp.pingDelay)
      ensures pings == old(pings) ==> pingSentAt == None
      ensures keepAlive ==> old(time) <= lastFrame && (pings == old(pings) ==> !state.PingSent?)
    {
      hide Least, LeastDelay, PingsAreSafe, TimeoutsAreSafe;
      if keepAlive {
        Acknowledged(isIdle);
      } else {
        pingSentAt := None;
      }
      if bdpEnabled {
        var sample := bytes;
        bytes := 0;
        var faster: bool := *;
        var update := bdp.Calculate(sample, faster);
        nextBdpAt := Some(now + bdp.pingDelay);
        if update.Some? { return Ready(SizeUpdate(update.value)); }
      }
      return Pending;
    }

    /** Keep-alive on an acknowledgement: the ping is over, the frame counts, schedule the next. */
    method Acknowledged(isIdle: bool)
      requires Valid() && keepAlive && pingSentAt.Some?
      modifies this`pingSentAt, this`lastReadAt, this`lastFrame, this`time, this`state, this`sleepUntil, this`pings, this`woke
      ensures Valid() && old(time) <= lastFrame && (pings == old(pings) ==> pingSentAt == None && !state.PingSent?)
      ensures old(pings) <= pings
    {
      hide Bdp.Valid, PingsAreSafe, TimeoutsAreSafe;
      pingSentAt := None;
      var elapsed: int := *;
      var now := if elapsed > 0 then time + elapsed else time;
      time, lastReadAt, lastFrame := now, Some(now), now;
      if state.PingSent? {
        var at := lastReadAt.value + config.interval;
        state, sleepUntil := Scheduled(at), at;
      } else {
        MaybeSchedule(isIdle);
      }
      MaybePing(isIdle);
    }

    /** `Ponger::poll`. */
    method Poll(isIdle: bool) returns (r: Poll<Ponged>)
      requires Valid() && bytes * 2 < TWO_64
      modifies this, bdp
      ensures Valid() && old(timeouts) <= timeouts
      ensures r == Ready(KeepAliveTimedOut) ==> isTimedOut && !keepAlive && |timeouts| == |old(timeouts)| + 1
      ensures r == Ready(KeepAliveTimedOut) ==> old(keepAlive)
      ensures old(keepAlive) && pingSentAt.Some? && pong.Pending? ==>
                (r == Ready(KeepAliveTimedOut) <==> state.PingSent? && woke)
      ensures r != Ready(KeepAliveTimedOut) ==> timeouts == old(timeouts) && keepAlive == old(keepAlive)
      ensures r.Ready? && r.value.SizeUpdate? ==> r.value.window == bdp.bdp && old(bdp.bdp) < bdp.bdp <= BDP_LIMIT
    {
      hide Bdp.Valid, PingsAreSafe, TimeoutsAreSafe;
      var now := Now();
      if keepAlive {
        MaybeSchedule(isIdle);
        MaybePing(isIdle);
      }
      if pingSentAt.None? { return Pending; }
      pong := *;
      match pong
      case Ready(true) => r := OnPong(now, isIdle);
      case Ready(false) => r := Pending;
      case Pending =>
        r := Pending;
        if keepAlive {
          var timedOut := GiveUp();
          if timedOut { r := Ready(KeepAliveTimedOut); }
        }
    }

    /** No acknowledgement yet: keep-alive ends if that has lasted too long. */
    method GiveUp() returns (timedOut: bool)
      requires Valid() && keepAlive
      modifies this`woke, this`timeouts, this`keepAlive, this`isTimedOut
      ensures Valid() && (timedOut <==> state.PingSent? && woke)
      ensures if timedOut then isTimedOut && !keepAlive && timeouts == old(timeouts) + [TimeoutRecord(time, pingSentAt)]
              else keepAlive && timeouts == old(timeouts) && isTimedOut == old(isTimedOut)
    {
      hide Bdp.Valid, PingsAreSafe;
      timedOut := MaybeTimeout();
      if timedOut {
        timeouts := timeouts + [TimeoutRecord(time, pingSentAt)];
        keepAlive, isTimedOut := false, true;
      }
    }
  }

  predicate PingsAreSafe(config: KeepAliveConfig, pings: seq<PingRecord>) {
    forall i :: 0 <= i < |pings| ==> pings[i].lastFrame + config.interval <= pings[i].at
  }

  predicate TimeoutsAreSafe(config: KeepAliveConfig, timeouts: seq<TimeoutRecord>) {
    forall i :: 0 <= i < |timeouts| ==>
      timeouts[i].pingSentAt.Some? && timeouts[i].pingSentAt.value + config.timeout <= timeouts[i].at
  }

  datatype Event = DataFrame(len: nat) | OtherFrame | Polled(isIdle: bool)

  /**
   Every timed run, with the clock free to advance at every reading: a keep-alive ping is sent
   only when no frame was recorded for at least the interval; and, if sending a ping succeeds
   whenever none is outstanding, a timeout is reported only while a ping has been
   unacknowledged for at least the timeout, and at most once.
   */
  method RunKeepAlive(config: KeepAliveConfig, keepAlive: bool, bdpEnabled: bool, reliable: bool, now: nat, events: seq<Event>)
    returns (pings: seq<PingRecord>, timeouts: seq<TimeoutRecord>)
    ensures PingsAreSafe(config, pings)
    ensures reliable ==> TimeoutsAreSafe(config, timeouts)
    ensures |timeouts| <= 1
  {
    var p := new Ponger(config, keepAlive, bdpEnabled, reliable, now);
    for k := 0 to |events|
      invariant p.Valid() && fresh(p) && fresh(p.bdp) && p.config == config && p.reliable == reliable
      invariant |p.timeouts| <= if p.keepAlive then 0 else 1
    {
      match events[k]
      case DataFrame(len) => if (p.bytes + len) * 2 < TWO_64 { p.RecordData(len); }
      case OtherFrame => p.RecordNonData();
      case Polled(isIdle) => if p.bytes * 2 < TWO_64 { var _ := p.Poll(isIdle); }
    }
    pings, timeouts := p.pings, p.timeouts;
  }
}
