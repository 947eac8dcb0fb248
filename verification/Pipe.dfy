/**
 `PipeToSendStream::poll` of http2.rs: a resumable loop that moves body frames to an
 HTTP/2 send stream, waiting for flow-control capacity with one chunk stashed.
 */
module Pipe {
  import opened Bytes

  /** What the user body yields; `eos` is `is_end_stream()` right after a data frame. */
  datatype BodyEvent =
    | NotReady
    | Data(chunk: ByteSeq, eos: bool)
    | Trailers(block: ByteSeq)
    | Unknown
    | BodyError
    | End

  /** Answers to `poll_capacity`. */
  datatype Capacity = Wait | Granted(n: nat) | CapacityError | StreamClosed

  datatype PipeError = Reset | WriteFailed | CapacityUnavailable | UserBody

  /** What happens between the body, the pipe and the send stream. */
  datatype Action =
    | Polled(chunk: ByteSeq)
    | Reserved(n: nat)
    | SentData(bytes: ByteSeq, eos: bool)
    | SentTrailers(block: ByteSeq)

  /** The complete dealings a frame gives rise to. */
  function Dealings(f: BodyEvent): seq<Action> {
    match f
    case Data(c, eos) =>
      if c == [] then [Polled(c), SentData(c, eos)]
      else [Polled(c), Reserved(|c|), SentData(c, eos)]
    case Trailers(b) => [Reserved(0), SentTrailers(b)]
    case End => [SentData([], true)]
    case _ => []
  }

  function AllDealings(fs: seq<BodyEvent>): seq<Action> {
    if fs == [] then [] else AllDealings(fs[..|fs| - 1]) + Dealings(fs[|fs| - 1])
  }

  /** The dealings of a frame follow those before it. */
  lemma {:induction false} NextDealt(fs: seq<BodyEvent>)
    requires fs != []
    ensures AllDealings(fs) == AllDealings(fs[..|fs| - 1]) + Dealings(fs[|fs| - 1])
  {
  }

  lemma {:induction false} DataDealt(fs: seq<BodyEvent>, chunk: ByteSeq, eos: bool)
    requires fs != [] && fs[|fs| - 1] == Data(chunk, eos)
    ensures var before := AllDealings(fs[..|fs| - 1]) + [Polled(chunk)];
            AllDealings(fs) == (if chunk == [] then before else before + [Reserved(|chunk|)]) + [SentData(chunk, eos)]
  {
    NextDealt(fs);
    hide AllDealings;
    var before := AllDealings(fs[..|fs| - 1]);
    if chunk == [] {
      assert before + [Polled(chunk)] + [SentData(chunk, eos)] == before + [Polled(chunk), SentData(chunk, eos)];
    } else {
      assert before + [Polled(chunk)] + [Reserved(|chunk|)] + [SentData(chunk, eos)]
          == before + [Polled(chunk), Reserved(|chunk|), SentData(chunk, eos)];
    }
  }

  predicate EndsStream(a: Action) {
    a.SentTrailers? || (a.SentData? && a.eos)
  }

  predicate NoEnd(trace: seq<Action>) {
    forall i :: 0 <= i < |trace| ==> !EndsStream(trace[i])
  }

  /** What is still owed to the stream for a stashed chunk. */
  function Owed(stash: Option<(ByteSeq, bool)>): seq<Action> {
    if stash.Some? then [SentData(stash.value.0, stash.value.1)] else []
  }

  /** The frames among what a body answered, that is all but `NotReady`. */
  function Frames(events: seq<BodyEvent>): seq<BodyEvent> {
    if events == [] then []
    else Frames(events[..|events| - 1]) + if events[|events| - 1].NotReady? then [] else [events[|events| - 1]]
  }

  /** What waiting for capacity comes to: `used` answers were zero but for the last, which decides. */
  predicate Waited(answers: seq<Capacity>, used: nat, window: nat, r: Poll<Result<(), PipeError>>) {
    && used <= |answers| && (forall i :: 0 <= i < used - 1 ==> answers[i] == Granted(0))
    && match r
       case Pending => if used == 0 then answers == [] else answers[used - 1].Wait? || (answers[used - 1] == Granted(0) && used == |answers|)
       case Ready(Ok(_)) => if used > 0 && answers[used - 1] != Granted(0) then answers[used - 1].Granted? else window > 0
       case Ready(Err(WriteFailed)) => used > 0 && answers[used - 1].CapacityError?
       case Ready(Err(CapacityUnavailable)) => used > 0 && answers[used - 1].StreamClosed?
       case _ => false
  }

  class PipeToSendStream {
    /** Everything the body and the stream will answer. */
    const body: seq<BodyEvent>
    const answers: seq<Capacity>
    var stream: seq<BodyEvent>
    var capacities: seq<Capacity>
    var buffered: Option<(ByteSeq, bool)>
    var trace: seq<Action>
    /** Whether the peer has been seen to reset the stream, whether the stream refused a frame, and its last window. */
    var peerReset: bool
    var refused: bool
    var window: nat
    /** Frames taken from the body so far. */
    ghost var frames: seq<BodyEvent>

    /** What has been used up of what the body and the stream answer. */
    ghost predicate Scripted()
      reads this`stream, this`capacities, this`frames
    {
      && |stream| <= |body| && stream == body[|body| - |stream|..] && frames == Frames(body[..|body| - |stream|])
      && |capacities| <= |answers| && capacities == answers[|answers| - |capacities|..]
    }

    /** Every error has its cause. */
    ghost predicate Caused(e: PipeError)
      reads this
    {
      match e
      case Reset => peerReset
      case WriteFailed => refused || LastAnswer(CapacityError)
      case CapacityUnavailable => LastAnswer(StreamClosed)
      case UserBody => frames != [] && frames[|frames| - 1].BodyError?
    }

    predicate LastAnswer(c: Capacity)
      reads this`capacities
    {
      |capacities| < |answers| && answers[|answers| - |capacities| - 1] == c
    }

    /** What a pending pipe waits for: capacity for the stashed chunk, or else the body. */
    predicate Waits()
      reads this
    {
      if buffered.Some? then capacities == [] || LastAnswer(Wait)
      else stream == [] || (|stream| < |body| && body[|body| - |stream| - 1].NotReady?)
    }

    /**
     Between polls: the dealings so far, and the one send owed for the stashed chunk, are the
     complete dealings of the frames taken, and none of those ended the body unless stashed.
     */
    ghost predicate Valid()
      reads this
    {
      && trace + Owed(buffered) == AllDealings(frames)
      && (buffered.Some? ==> buffered.value.0 != [] && trace != []
                             && trace[|trace| - 1] == Reserved(|buffered.value.0|))
      && NoEnd(trace) && Scripted()
    }

    constructor (stream: seq<BodyEvent>, capacities: seq<Capacity>)
      ensures Valid() && trace == [] && frames == [] && buffered == None
      ensures body == stream && answers == capacities
    {
      this.stream, this.capacities, body, answers := stream, capacities, stream, capacities;
      peerReset, refused, window := false, false, 0;
      buffered, trace, frames := None, [], [];
    }

    /** `poll_reset`: whether the peer has reset the stream is the peer's choice. */
    method PollReset() returns (reset: bool)
      requires Valid()
      modifies this`peerReset
      ensures reset == peerReset && Valid() && Scripted()
    {
      hide AllDealings, Frames;
      peerReset := *;
      reset := peerReset;
    }

    /** The stashed-chunk branch waits until the stream has some capacity. */
    method WaitForCapacity() returns (r: Poll<Result<(), PipeError>>)
      requires Scripted()
      modifies this`capacities, this`window
      ensures Scripted() && |capacities| <= |old(capacities)|
      ensures Waited(old(capacities), |old(capacities)| - |capacities|, window, r)
    {
      ghost var before := capacities;
      while true
        invariant Scripted() && |capacities| <= |before| && capacities == before[|before| - |capacities|..]
        invariant forall i :: 0 <= i < |before| - |capacities| ==> before[i] == Granted(0)
        decreases |capacities|
      {
        window := *;
        if window != 0 { return Ready(Ok(())); }
        if capacities == [] { return Pending; }
        var answer := capacities[0];
        capacities := capacities[1..];
        match answer
        case Wait => return Pending;
        case Granted(n) => if n != 0 { return Ready(Ok(())); }
        case CapacityError => return Ready(Err(WriteFailed));
        case StreamClosed => return Ready(Err(CapacityUnavailable));
      }
    }

    /** `send_data`; a refused frame leaves no trace. A stream that has ended takes nothing more. */
    method SendData(bytes: ByteSeq, eos: bool) returns (ok: bool)
      requires NoEnd(trace)
      modifies this`trace, this`refused
      ensures ok == !refused && trace == old(trace) + if ok then [SentData(bytes, eos)] else []
    {
      refused := *;
      ok := !refused;
      if ok { trace := trace + [SentData(bytes, eos)]; }
    }

    /** Send the stashed chunk once there is capacity; it is sent before the body is touched again. */
    method SendStashed() returns (r: Poll<Result<bool, PipeError>>)
      requires Valid() && buffered.Some?
      modifies this`capacities, this`window, this`buffered, this`trace, this`refused
      ensures Scripted() && (r.Ready? && r.value.Err? ==> Caused(r.value.error))
      ensures r.Pending? ==> Valid() && buffered == old(buffered) && trace == old(trace) && Waits()
      ensures r.Ready? && r.value.Ok? ==>
                && buffered == None && r.value.value == old(buffered).value.1
                && trace == old(trace) + Owed(old(buffered))
      ensures r.Ready? && r.value.Err? ==> trace == old(trace)
    {
      hide AllDealings, Frames;
      var waited := WaitForCapacity();
      match waited
      case Pending => return Pending;
      case Ready(Err(e)) => return Ready(Err(e));
      case Ready(Ok(_)) =>
        var (data, eos) := buffered.value;
        buffered := None;
        var ok := SendData(data, eos);
        if !ok { return Ready(Err(WriteFailed)); }
        return Ready(Ok(eos));
    }

    /** Take the next frame of the body; only reached with nothing stashed. */
    method PollFrame() returns (f: BodyEvent)
      requires buffered == None && Scripted()
      modifies this`stream, this`frames, this`trace
      ensures f.NotReady? ==> frames == old(frames) && trace == old(trace) && Waits()
      ensures Scripted() && if old(stream) == [] then f == NotReady && stream == [] else old(stream) == [f] + stream
      ensures !f.NotReady? ==> frames == old(frames) + [f] && |stream| < |old(stream)|
                               && trace == old(trace) + if f.Data? then [Polled(f.chunk)] else []
    {
      if stream == [] { return NotReady; }
      ghost var taken := body[..|body| - |stream|];
      f := stream[0];
      assert body[..|body| - |stream| + 1] == taken + [f] && (taken + [f])[..|taken|] == taken;
      stream := stream[1..];
      if !f.NotReady? { frames := frames + [f]; }
      if f.Data? { trace := trace + [Polled(f.chunk)]; }
    }

    /** A data frame: straight through if empty, else stashed behind an exact reservation. */
    method HandleData(chunk: ByteSeq, eos: bool) returns (r: Result<bool, PipeError>)
      requires buffered == None && Scripted()
      requires frames != [] && frames[|frames| - 1] == Data(chunk, eos) && NoEnd(trace)
      requires trace == AllDealings(frames[..|frames| - 1]) + [Polled(chunk)]
      modifies this`buffered, this`trace, this`refused
      ensures r == Ok(false) ==> Valid()
      ensures r == Ok(true) ==> Finished()
      ensures r.Err? ==> NoEnd(trace) && Caused(r.error)
    {
      hide Frames, AllDealings;
      ghost var before := trace;
      DataDealt(frames, chunk, eos);
      if chunk == [] {
        var ok := SendData(chunk, eos);
        if !ok { return Err(WriteFailed); }
        assert trace + [] == trace && trace[..|trace| - 1] == before;
        r := Ok(eos);
      } else {
        trace := trace + [Reserved(|chunk|)];
        buffered := Some((chunk, eos));
        r := Ok(false);
      }
    }

    /** Trailers: give capacity back, then end the stream with the trailer block. */
    method HandleTrailers(block: ByteSeq) returns (r: Result<bool, PipeError>)
      requires buffered == None && Scripted()
      requires frames != [] && frames[|frames| - 1] == Trailers(block) && NoEnd(trace)
      requires trace == AllDealings(frames[..|frames| - 1])
      modifies this`trace, this`refused
      ensures r == Ok(true) ==> Finished()
      ensures r != Ok(false) && (r.Err? ==> NoEnd(trace) && Caused(r.error))
    {
      hide Frames;
      trace := trace + [Reserved(0)];
      ghost var before := trace;
      refused := *;
      if refused { return Err(WriteFailed); }
      trace := trace + [SentTrailers(block)];
      assert trace[..|trace| - 1] == before;
      assert trace == AllDealings(frames);
      r := Ok(true);
    }

    /** One frame of any kind. */
    method Handle(f: BodyEvent) returns (r: Result<bool, PipeError>)
      requires buffered == None && !f.NotReady? && Scripted()
      requires frames != [] && frames[|frames| - 1] == f && NoEnd(trace)
      requires trace == AllDealings(frames[..|frames| - 1]) + if f.Data? then [Polled(f.chunk)] else []
      modifies this`buffered, this`trace, this`refused
      ensures r == Ok(false) ==> Valid()
      ensures r == Ok(true) ==> Finished()
      ensures r.Err? ==> NoEnd(trace) && Caused(r.error)
    {
      hide Frames;
      assert AllDealings(frames[..|frames| - 1]) + [] == AllDealings(frames[..|frames| - 1]);
      match f
      case Data(chunk, eos) => r := HandleData(chunk, eos);
      case Trailers(block) => r := HandleTrailers(block);
      case Unknown =>
        assert trace + [] == trace;
        r := Ok(false);
      case BodyError => r := Err(UserBody);
      case End =>
        ghost var before := trace;
        var ok := SendData([], true);
        if !ok { return Err(WriteFailed); }
        assert trace[..|trace| - 1] == before;
        r := Ok(true);
    }

    /** All dealings complete; the last one, and no other, ended the stream. */
    ghost predicate Finished()
      reads this
    {
      && buffered == None && trace == AllDealings(frames) && Scripted()
      && trace != [] && EndsStream(trace[|trace| - 1]) && NoEnd(trace[..|trace| - 1])
    }

    lemma ResetIsCause()
      requires peerReset
      ensures Caused(Reset)
    {
    }

    /** One turn of the loop: `Ok(false)` goes round again, `Ok(true)` is the end of the body. */
    method Turn() returns (r: Poll<Result<bool, PipeError>>)
      requires Valid()
      modifies this
      ensures old(frames) <= frames && |stream| <= |old(stream)|
      ensures r.Pending? ==> Valid() && Waits() && !peerReset
      ensures peerReset ==> r == Ready(Err(Reset)) && trace == old(trace)
      ensures r == Ready(Ok(false)) ==>
                Valid() && (|stream| < |old(stream)| || (old(buffered).Some? && buffered == None && |stream| == |old(stream)|))
      ensures r == Ready(Ok(true)) ==> Finished()
      ensures r.Ready? && r.value.Err? ==> NoEnd(trace) && Scripted() && Caused(r.value.error)
    {
      hide AllDealings, Frames, PipeToSendStream.Scripted, PipeToSendStream.Caused, PipeToSendStream.LastAnswer;
      var reset := PollReset();
      if reset {
        ResetIsCause();
        return Ready(Err(Reset));
      }
      if buffered.Some? {
        ghost var before := trace;
        r := SendStashed();
        if r.Ready? && r.value.Ok? {
          assert trace[..|trace| - 1] == before;
          assert trace + [] == trace;
        }
      } else {
        ghost var taken := frames;
        assert trace + [] == trace;
        var f := PollFrame();
        if f.NotReady? { return Pending; }
        assert frames[..|frames| - 1] == taken;
        var handled := Handle(f);
        r := Ready(handled);
      }
    }

    /**
     `PipeToSendStream::poll`. Pending: everything taken has been sent except exactly the stashed
     chunk. Ok: everything taken has been sent and the last thing sent ended the stream. Err: the
     stream has not been ended.
     */
    method Poll() returns (r: Poll<Result<(), PipeError>>)
      requires Valid()
      modifies this
      ensures old(frames) <= frames
      ensures r.Pending? ==> Valid() && Waits()
      ensures r.Ready? && r.value.Ok? ==> Finished()
      ensures r.Ready? && r.value.Err? ==> NoEnd(trace) && Scripted() && Caused(r.value.error)
    {
      while true
        invariant Valid() && old(frames) <= frames
        decreases |stream|, buffered.Some?
      {
        var turn := Turn();
        match turn
        case Pending => return Pending;
        case Ready(Err(e)) => return Ready(Err(e));
        case Ready(Ok(done)) => if done { return Ready(Ok(())); }
      }
    }
  }

  // ---- what the dealings mean ----------------------------------------------

  /** Non-empty chunks taken from the body, in order. */
  function PolledChunks(trace: seq<Action>): seq<ByteSeq> {
    if trace == [] then []
    else
      var last := trace[|trace| - 1];
      PolledChunks(trace[..|trace| - 1]) + if last.Polled? && last.chunk != [] then [last.chunk] else []
  }

  /** Non-empty chunks passed to `send_data`, in order. */
  function SentChunks(trace: seq<Action>): seq<ByteSeq> {
    if trace == [] then []
    else
      var last := trace[|trace| - 1];
      SentChunks(trace[..|trace| - 1]) + if last.SentData? && last.bytes != [] then [last.bytes] else []
  }

  lemma {:induction false} ChunksConcat(a: seq<Action>, b: seq<Action>)
    ensures PolledChunks(a + b) == PolledChunks(a) + PolledChunks(b)
    ensures SentChunks(a + b) == SentChunks(a) + SentChunks(b)
    decreases |b|
  {
    if b == [] {
      assert a + b == a;
    } else {
      ChunksConcat(a, b[..|b| - 1]);
      assert (a + b)[..|a + b| - 1] == a + b[..|b| - 1];
      var last := b[|b| - 1];
      var polled := if last.Polled? && last.chunk != [] then [last.chunk] else [];
      var sent := if last.SentData? && last.bytes != [] then [last.bytes] else [];
      assert PolledChunks(a + b) == (PolledChunks(a) + PolledChunks(b[..|b| - 1])) + polled;
      assert SentChunks(a + b) == (SentChunks(a) + SentChunks(b[..|b| - 1])) + sent;
    }
  }

  lemma OneAction(a: Action)
    ensures PolledChunks([a]) == if a.Polled? && a.chunk != [] then [a.chunk] else []
    ensures SentChunks([a]) == if a.SentData? && a.bytes != [] then [a.bytes] else []
  {
    assert [a][..0] == [];
  }

  lemma DealingsBalance(f: BodyEvent)
    ensures PolledChunks(Dealings(f)) == SentChunks(Dealings(f))
  {
    hide PolledChunks, SentChunks;
    match f
    case Data(c, eos) =>
      OneAction(Polled(c));
      OneAction(SentData(c, eos));
      if c == [] {
        ChunksConcat([Polled(c)], [SentData(c, eos)]);
        assert Dealings(f) == [Polled(c)] + [SentData(c, eos)];
      } else {
        OneAction(Reserved(|c|));
        ChunksConcat([Polled(c)], [Reserved(|c|)]);
        ChunksConcat([Polled(c)] + [Reserved(|c|)], [SentData(c, eos)]);
        assert Dealings(f) == [Polled(c)] + [Reserved(|c|)] + [SentData(c, eos)];
      }
    case Trailers(b) =>
      OneAction(Reserved(0));
      OneAction(SentTrailers(b));
      ChunksConcat([Reserved(0)], [SentTrailers(b)]);
      assert Dealings(f) == [Reserved(0)] + [SentTrailers(b)];
    case End => OneAction(SentData([], true));
    case _ => NoAction();
  }

  lemma NoAction()
    ensures PolledChunks([]) == [] && SentChunks([]) == []
  {
  }

  lemma {:induction false} AllDealingsBalance(fs: seq<BodyEvent>)
    ensures PolledChunks(AllDealings(fs)) == SentChunks(AllDealings(fs))
    decreases |fs|
  {
    if fs != [] {
      AllDealingsBalance(fs[..|fs| - 1]);
      DealingsBalance(fs[|fs| - 1]);
      ChunksConcat(AllDealings(fs[..|fs| - 1]), Dealings(fs[|fs| - 1]));
    }
  }

  /** The non-empty data chunks of a body, in order. */
  function ChunksOf(events: seq<BodyEvent>): seq<ByteSeq> {
    if events == [] then []
    else
      var last := events[|events| - 1];
      ChunksOf(events[..|events| - 1]) + if last.Data? && last.chunk != [] then [last.chunk] else []
  }

  lemma DealingsPoll(f: BodyEvent)
    ensures PolledChunks(Dealings(f)) == if f.Data? && f.chunk != [] then [f.chunk] else []
  {
    hide PolledChunks;
    match f
    case Data(c, eos) =>
      OneAction(Polled(c));
      OneAction(SentData(c, eos));
      OneAction(Reserved(|c|));
      if c == [] {
        ChunksConcat([Polled(c)], [SentData(c, eos)]);
        assert Dealings(f) == [Polled(c)] + [SentData(c, eos)];
      } else {
        ChunksConcat([Polled(c)], [Reserved(|c|)]);
        ChunksConcat([Polled(c)] + [Reserved(|c|)], [SentData(c, eos)]);
        assert Dealings(f) == [Polled(c)] + [Reserved(|c|)] + [SentData(c, eos)];
      }
    case _ =>
      DealingsBalance(f);
      NotData(f);
  }

  lemma NotData(f: BodyEvent)
    requires !f.Data?
    ensures PolledChunks(Dealings(f)) == []
  {
    var d := Dealings(f);
    assert forall k :: 0 <= k < |d| ==> !d[k].Polled?;
    NonePolled(d);
  }

  lemma {:induction false} NonePolled(d: seq<Action>)
    requires forall k :: 0 <= k < |d| ==> !d[k].Polled?
    ensures PolledChunks(d) == []
    decreases |d|
  {
    if d != [] { NonePolled(d[..|d| - 1]); }
  }

  /** The dealings a body gives rise to poll exactly its chunks. */
  lemma {:induction false} BodyChunksPolled(events: seq<BodyEvent>)
    ensures PolledChunks(AllDealings(Frames(events))) == ChunksOf(events)
    decreases |events|
  {
    if events != [] {
      var before, last := events[..|events| - 1], events[|events| - 1];
      BodyChunksPolled(before);
      hide PolledChunks;
      if last.NotReady? {
        assert Frames(before) + [] == Frames(before);
        assert ChunksOf(before) + [] == ChunksOf(before);
      } else {
        var fs := Frames(before) + [last];
        assert fs[..|fs| - 1] == Frames(before);
        DealingsPoll(last);
        ChunksConcat(AllDealings(Frames(before)), Dealings(last));
      }
    }
  }

  /** Conservation: polled chunks are the chunks sent followed by the stashed one, in order. */
  lemma ChunksConserved(trace: seq<Action>, stash: Option<(ByteSeq, bool)>, fs: seq<BodyEvent>)
    requires trace + Owed(stash) == AllDealings(fs) && (stash.Some? ==> stash.value.0 != [])
    ensures PolledChunks(trace) == SentChunks(trace) + if stash.Some? then [stash.value.0] else []
  {
    AllDealingsBalance(fs);
    ChunksConcat(trace, Owed(stash));
    if stash.Some? {
      assert Owed(stash)[..0] == [];
    }
  }

  /**
   Capacity is only ever reserved for the non-empty chunk just taken, in exactly its size, and
   the next thing after that is sending that chunk; zero is only reserved before trailers.
   */
  predicate Paired(trace: seq<Action>) {
    forall i :: 0 <= i < |trace| ==> PairedAt(trace, i)
  }

  predicate PairedAt(trace: seq<Action>, i: nat)
    requires i < |trace|
  {
    match trace[i]
    case Reserved(n) =>
      n != 0 ==>
        && i > 0 && trace[i - 1].Polled? && |trace[i - 1].chunk| == n
        && (i + 1 < |trace| ==> trace[i + 1].SentData? && trace[i + 1].bytes == trace[i - 1].chunk)
    case Polled(c) =>
      i + 1 < |trace| ==>
        if c == [] then trace[i + 1].SentData? && trace[i + 1].bytes == []
        else trace[i + 1] == Reserved(|c|)
    case _ => true
  }

  /** Paired, and nothing left open at the end. */
  predicate Settled(trace: seq<Action>) {
    Paired(trace) && (trace != [] ==> !trace[|trace| - 1].Polled? && !trace[|trace| - 1].Reserved?)
  }

  lemma DealingsSettled(f: BodyEvent)
    ensures Settled(Dealings(f))
  {
    var d := Dealings(f);
    forall i | 0 <= i < |d| ensures PairedAt(d, i) {
    }
  }

  lemma {:induction false} AllDealingsSettled(fs: seq<BodyEvent>)
    ensures Settled(AllDealings(fs))
    decreases |fs|
  {
    if fs != [] {
      AllDealingsSettled(fs[..|fs| - 1]);
      DealingsSettled(fs[|fs| - 1]);
      SettledConcat(AllDealings(fs[..|fs| - 1]), Dealings(fs[|fs| - 1]));
    }
  }

  lemma SettledConcat(a: seq<Action>, d: seq<Action>)
    requires Settled(a) && Settled(d)
    ensures Settled(a + d)
  {
    var s := a + d;
    forall i | 0 <= i < |s| ensures PairedAt(s, i) {
      if i < |a| {
        assert PairedAt(a, i);
      } else {
        assert PairedAt(d, i - |a|);
      }
    }
  }

  lemma PairedPrefix(s: seq<Action>, k: nat)
    requires Paired(s) && k <= |s|
    ensures Paired(s[..k])
  {
    forall i | 0 <= i < k ensures PairedAt(s[..k], i) {
      assert PairedAt(s, i);
    }
  }

  lemma PrefixPolled(trace: seq<Action>, stash: Option<(ByteSeq, bool)>, events: seq<BodyEvent>)
    requires trace + Owed(stash) == AllDealings(Frames(events)) && (stash.Some? ==> stash.value.0 != [])
    ensures ChunksOf(events) == SentChunks(trace) + if stash.Some? then [stash.value.0] else []
  {
    hide PolledChunks, SentChunks;
    ChunksConserved(trace, stash, Frames(events));
    BodyChunksPolled(events);
    ChunksConcat(trace, Owed(stash));
    if stash.Some? { OneAction(SentData(stash.value.0, stash.value.1)); } else { NoAction(); }
  }

  /**
   Whole runs: any body, any capacity answers, any number of polls. Of the `used` answers the
   body gave, the pipe has sent every non-empty chunk, in order, except the stashed one; the
   stream is ended once, last, and only when the run returned Ok; every reservation of capacity
   is for the chunk just taken; and a run that fails has a cause.
   */
  method RunPipe(stream: seq<BodyEvent>, capacities: seq<Capacity>, polls: nat)
    returns (trace: seq<Action>, stash: Option<(ByteSeq, bool)>, outcome: Poll<Result<(), PipeError>>, used: nat, reset: bool, refused: bool)
    ensures used <= |stream|
    ensures outcome.Pending? || outcome.value.Ok? ==>
              ChunksOf(stream[..used]) == SentChunks(trace) + if stash.Some? then [stash.value.0] else []
    ensures outcome.Ready? && outcome.value.Ok? ==>
              stash == None && trace != [] && EndsStream(trace[|trace| - 1]) && NoEnd(trace[..|trace| - 1])
    ensures outcome.Pending? || outcome.value.Err? ==> NoEnd(trace)
    ensures outcome.Pending? && stash.Some? ==> trace != [] && trace[|trace| - 1] == Reserved(|stash.value.0|)
    ensures outcome.Pending? || outcome.value.Ok? ==> Paired(trace)
    ensures outcome == Ready(Err(Reset)) ==> reset
    ensures outcome == Ready(Err(WriteFailed)) ==> refused || CapacityError in capacities
    ensures outcome == Ready(Err(CapacityUnavailable)) ==> StreamClosed in capacities
    ensures outcome == Ready(Err(UserBody)) ==> BodyError in stream
  {
    hide AllDealings, PolledChunks, SentChunks, Paired, Frames;
    var pipe := new PipeToSendStream(stream, capacities);
    outcome := Pending;
    var k := 0;
    while k < polls && outcome.Pending?
      invariant fresh(pipe) && pipe.Scripted()
      invariant outcome.Pending? ==> pipe.Valid()
      invariant outcome.Ready? && outcome.value.Ok? ==> pipe.Finished()
      invariant outcome.Ready? && outcome.value.Err? ==> NoEnd(pipe.trace) && pipe.Caused(outcome.value.error)
      decreases polls - k
    {
      outcome := pipe.Poll();
      k := k + 1;
    }
    trace, stash, used, reset, refused := pipe.trace, pipe.buffered, |stream| - |pipe.stream|, pipe.peerReset, pipe.refused;
    FramesAreIn(stream[..used]);
    assert pipe.frames == Frames(stream[..used]);
    if outcome == Ready(Err(UserBody)) {
      assert BodyError in Frames(stream[..used]);
    }
    if outcome.Pending? || outcome.value.Ok? {
      assert trace + [] == trace;
      PrefixPolled(trace, stash, stream[..used]);
      AllDealingsSettled(pipe.frames);
      PairedPrefix(trace + Owed(stash), |trace|);
      assert trace == (trace + Owed(stash))[..|trace|];
    }
  }

  lemma {:induction false} FramesAreIn(events: seq<BodyEvent>)
    ensures forall f :: f in Frames(events) ==> f in events
    decreases |events|
  {
    if events != [] {
      FramesAreIn(events[..|events| - 1]);
      assert events == events[..|events| - 1] + [events[|events| - 1]];
    }
  }
}
