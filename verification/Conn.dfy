/**
 `Conn` and `State` of conn.rs: one HTTP/1 client connection, as an object over its read
 half, its write half, its body decoder and its body encoder.

 `sent` and `recv` record every request written and every final response read. `Valid` ties
 them to the state and to the bytes of both directions; it is kept by every operation, so what
 it implies (see module ConnHistory) holds in every run.
 */
module Conn {
  import opened Bytes
  import opened ConnHistory
  import opened Framing
  import opened ResponseHeads
  import CM = ChunkedMachine
  import Dec = Decoder
  import Enc = Encoder
  import HeadScan
  import HV = HeaderValues
  import Src = Source
  import WB = WriteBuf

  datatype Error = ParseFailed | HeadTooLarge | Incomplete | IoFailed | UnexpectedMessage | BodyWriteAborted | BodyWrite | UserBody | Shutdown

  /** A request to write; `render` gives the bytes of its head for the version and framing fields it is sent with. */
  datatype Request = Request(id: nat, head: RequestHead, render: (Version, Headers) -> ByteSeq)

  /** A peer that spoke HTTP/1.0 is spoken to in HTTP/1.0. */
  function Adapted(peer: Version, head: RequestHead): RequestHead {
    if peer == Http10 then head.(version := Http10) else head
  }

  datatype BodyRead = Frame(frame: Dec.Frame) | EndOfBody | BodyFailed(error: CM.Error)

  class Conn {
    const src: Src.Source
    const wbuf: WB.WriteBuf
    const decoder: Dec.Decoder
    const encoder: Enc.Encoder
    const config: Config
    /** How long the read buffer may get. */
    const maxBuf: nat
    /** The response parser in use. */
    var parser: HeadParser

    var reading: Reading
    var writing: Writing
    var keepAlive: KA
    var error: bool
    var notifyRead: bool
    var upgrade: bool
    var version: Version
    var method_: Option<Method>
    var partialLen: Option<nat>

    var sent: seq<SentRequest>
    var recv: seq<Response>

    /** Everything received when a head could not be had, and whether the dispatcher ended the reading. */
    var badHead: Option<ByteSeq>
    var quit: bool

    ghost const Repr: set<object> := {this, src, wbuf, wbuf.queue, decoder, encoder}

    ghost predicate Valid()
      reads Repr
    {
      Base(encoder.kind) && RecordedAs(reading) && (reading.Closed? ==> ClosedFor(writing, quit))
    }

    /** Reading is closed only for a cause. */
    predicate ClosedFor(writing: Writing, quit: bool)
      reads this, src
    {
      CloseCause(writing, sent, recv, src.eof, src.failed, badHead.Some?, quit)
    }

    /** All but the record of bytes; `enc` is the encoder the last request's body stands at. */
    ghost predicate Base(enc: Enc.Kind)
      reads Repr
    {
      && Parts()
      && HistoryOk(reading, writing, keepAlive, enc, sent, recv)
      && wbuf.buffered == Wire(sent)
      && (reading.Body? ==> BodyInProgress())
    }

    /** What each part keeps for itself. */
    ghost predicate Parts()
      reads Repr
    {
      && src.Valid() && wbuf.Valid() && encoder.Valid() && decoder.Valid() && GoodConfig(config)
      && decoder.limits == config.limits && decoder.parser == config.trailerParser
      && parser == ParserAt(config, |recv|) && version == PeerVersion(recv)
      && maxBuf == src.strategy.MaxSize() && (quit || badHead.Some? ==> reading.Closed?)
      && (badHead.Some? ==> sent != [] && HeadBroken(parser, maxBuf, sent[|sent| - 1].user.method_, |Consumed(recv)|, src.received, badHead.value))
      && (partialLen.Some? ==> partialLen.value <= |src.buf|)
      && (upgrade ==> recv != [] && recv[|recv| - 1].upgrade)
      && (src.dropped > 0 ==> reading.Closed? && !upgrade)
    }

    /** The record of bytes as it stands if reading is at `reading`. */
    ghost predicate RecordedAs(reading: Reading)
      reads this, src
      requires GoodConfig(config)
    {
      Recorded(config, reading, writing, sent, recv, method_, src.received, src.taken, src.buf, src.eof)
    }

    /** The decoder stands for the last response and has consumed exactly the bytes since its head. */
    ghost predicate BodyInProgress()
      reads this, decoder, src
    {
      && recv != [] && decoder.origin == Origin(recv[|recv| - 1].kind) && partialLen == None
      && decoder.base == Consumed(recv[..|recv| - 1]) + recv[|recv| - 1].head && src.taken == decoder.base + decoder.fed
      && recv[|recv| - 1] == DecodedInto(recv[|recv| - 1]) && decoder.verdict.Waiting?
      && decoder.terminal.AtIdle?
    }

    /** The record of a response whose body is where the decoder is. */
    function DecodedInto(r: Response): Response
      reads decoder
    {
      r.(wire := decoder.fed, terminal := decoder.terminal, data := decoder.out, verdict := decoder.verdict)
    }

    /** Closed and Disabled are final, in every operation. */
    twostate predicate Absorbing()
      reads this
    {
      && (old(reading).Closed? ==> reading.Closed?)
      && (old(writing).Closed? ==> writing.Closed?)
      && (old(keepAlive).Disabled? ==> keepAlive.Disabled?)
    }

    /** What has gone wrong stays so. */
    twostate predicate Worse()
      reads this, src, wbuf
    {
      && (old(src.eof) ==> src.eof) && (old(src.failed) ==> src.failed) && (old(wbuf.broken) ==> wbuf.broken)
      && (old(badHead).Some? ==> badHead.Some?) && (old(quit) ==> quit)
    }

    constructor (src: Src.Source, wbuf: WB.WriteBuf, config: Config)
      requires src.Valid() && src.dropped == 0 && src.received == [] && !src.eof
      requires wbuf.Valid() && wbuf.buffered == [] && GoodConfig(config)
      ensures Valid() && sent == [] && recv == []
      ensures fresh(decoder) && fresh(encoder) && this.src == src && this.wbuf == wbuf && this.config == config
      ensures reading.Init? && writing.Init? && !upgrade && !error && !quit && badHead == None
      ensures maxBuf == src.strategy.MaxSize()
    {
      hide HeadBroken, Dec.Decoder.Valid, WB.WriteBuf.Valid, GoodParser, HeadBroken, Enc.Complete, Enc.Partial, BodyMeaning, Recorded;
      this.src, this.wbuf, this.config, parser := src, wbuf, config, config.lenient;
      maxBuf, badHead, quit := src.strategy.MaxSize(), None, false;
      decoder := new Dec.Decoder(config.limits, config.trailerParser, Dec.Length(0));
      encoder := new Enc.Encoder(Enc.Length(0));
      reading, writing, keepAlive := Reading.Init, Writing.Init, Busy;
      error, notifyRead, upgrade := false, false, false;
      version, method_, partialLen := Http11, None, None;
      sent, recv := [], [];
      NothingRecorded(config);
      assert src.taken == [] && src.buf == [];
    }

    // ---- State -------------------------------------------------------------

    method Close()
      requires Valid() && ClosedFor(Writing.Closed, quit)
      modifies this`reading, this`writing, this`keepAlive
      ensures Valid() && reading.Closed? && writing.Closed? && keepAlive.Disabled?
    {
      hide HistoryOk, PeerVersion, CloseCause, Dec.Decoder.Valid, WB.WriteBuf.Valid, Src.Source.Valid, Recorded, Wire, Consumed, GoodParser, Enc.Complete, Enc.Partial, HeadBroken,
           CloseCause;
      ReadingClosed(config, reading, writing, sent, recv, method_, src.received, src.taken, src.buf, src.eof, Writing.Closed, method_);
      ClosedHistory(reading, writing, keepAlive, encoder.kind, sent, recv);
      reading, writing, keepAlive := Reading.Closed, Writing.Closed, Disabled;
    }

    /** Reading closed from outside: by the dispatcher, for its own reasons. */
    method CloseRead()
      requires Valid()
      modifies this`reading, this`keepAlive, this`quit
      ensures Valid() && reading.Closed? && keepAlive.Disabled? && quit
    {
      hide CloseCause, Conn.Base, HeadBroken, Recorded;
      ClosingRecorded();
      Quit();
    }

    method Quit()
      requires Base(encoder.kind) && RecordedAs(Reading.Closed)
      modifies this`reading, this`keepAlive, this`quit
      ensures Valid() && reading.Closed? && keepAlive.Disabled? && quit
    {
      hide HistoryOk, PeerVersion, Dec.Decoder.Valid, WB.WriteBuf.Valid, Src.Source.Valid, Recorded, Wire, Consumed, GoodParser, Enc.Complete, Enc.Partial, HeadBroken;
      ClosedHistory(reading, writing, keepAlive, encoder.kind, sent, recv);
      reading, keepAlive, quit := Reading.Closed, Disabled, true;
    }

    method StopReading()
      requires Base(encoder.kind) && RecordedAs(Reading.Closed) && ClosedFor(writing, quit)
      modifies this`reading, this`keepAlive
      ensures Valid() && reading.Closed? && keepAlive.Disabled?
    {
      hide CloseCause, Dec.Decoder.Valid, WB.WriteBuf.Valid, Src.Source.Valid, Recorded, Wire, Consumed, GoodParser, Enc.Complete, Enc.Partial, HeadBroken,
           CloseCause, HistoryOk, PeerVersion;
      ClosedHistory(reading, writing, keepAlive, encoder.kind, sent, recv);
      reading, keepAlive := Reading.Closed, Disabled;
    }

    lemma ClosingRecorded()
      requires Valid()
      ensures RecordedAs(Reading.Closed)
    {
      hide CloseCause, HeadBroken, Dec.Decoder.Valid, WB.WriteBuf.Valid, Src.Source.Valid, Recorded, HistoryOk, Wire, Consumed, GoodParser, Enc.Complete, Enc.Partial;
      ReadingClosed(config, reading, writing, sent, recv, method_, src.received, src.taken, src.buf, src.eof, writing, method_);
    }

    /** Only ever done once reading is closed. */
    method CloseWrite()
      requires Valid() && reading.Closed?
      modifies this`writing, this`keepAlive
      ensures Valid() && writing.Closed? && keepAlive.Disabled?
    {
      hide HeadBroken, Dec.Decoder.Valid, WB.WriteBuf.Valid, Src.Source.Valid, Recorded, Wire, Consumed, GoodParser, Enc.Complete, Enc.Partial;
      ReadingClosed(config, reading, writing, sent, recv, method_, src.received, src.taken, src.buf, src.eof, Writing.Closed, method_);
      assert ClosedFor(Writing.Closed, quit);
      writing, keepAlive := Writing.Closed, Disabled;
    }

    method SetBusy()
      modifies this`keepAlive
      ensures keepAlive == if old(keepAlive).Disabled? then Disabled else Busy
    {
      if keepAlive.Disabled? { return; }
      keepAlive := Busy;
    }

    /** `State::try_keep_alive` with `State::idle`: both sides done goes idle if reuse is allowed, else closes. */
    method TryKeepAliveState()
      requires Valid()
      modifies this`reading, this`writing, this`keepAlive, this`notifyRead, this`method_
      ensures Valid() && Absorbing()
      ensures old(reading).KeepAlive? && old(writing).KeepAlive? && old(keepAlive).Busy? ==>
                reading.Init? && writing.Init? && keepAlive.Idle? && notifyRead && method_ == None
      ensures old(reading).KeepAlive? && old(writing).KeepAlive? && !old(keepAlive).Busy? ==>
                reading.Closed? && writing.Closed? && keepAlive.Disabled?
      ensures (old(reading).Closed? && old(writing).KeepAlive?) || (old(reading).KeepAlive? && old(writing).Closed?) ==>
                reading.Closed? && writing.Closed? && keepAlive.Disabled?
      ensures !(old(reading).KeepAlive? && (old(writing).KeepAlive? || old(writing).Closed?))
              && !(old(reading).Closed? && old(writing).KeepAlive?) ==>
                reading == old(reading) && writing == old(writing) && keepAlive == old(keepAlive) && notifyRead == old(notifyRead)
                && method_ == old(method_)
    {
      hide CloseCause, Conn.Base, Recorded;
      BothDone();
      if reading.KeepAlive? && writing.KeepAlive? {
        if keepAlive.Busy? {
          GoIdle();
        } else {
          Close();
        }
      } else if (reading.Closed? && writing.KeepAlive?) || (reading.KeepAlive? && writing.Closed?) {
        Close();
      }
    }

    /** `State::idle`. */
    method GoIdle()
      requires Valid() && reading.KeepAlive? && writing.KeepAlive? && keepAlive.Busy?
      modifies this`reading, this`writing, this`keepAlive, this`notifyRead, this`method_
      ensures Valid() && reading.Init? && writing.Init? && keepAlive.Idle? && notifyRead && method_ == None
    {
      hide CloseCause, HeadBroken, Dec.Decoder.Valid, WB.WriteBuf.Valid, Src.Source.Valid, Recorded, Wire, Consumed, GoodParser, Enc.Complete,
           Enc.Partial, PeerVersion, HistoryOk;
      IdleHistory(encoder.kind, sent, recv);
      Idled(config, sent, recv, writing, method_, src.received, src.taken, src.buf, src.eof);
      method_, keepAlive := None, Idle;
      reading, writing := Reading.Init, Writing.Init;
      notifyRead := true;
    }

    /** When both sides are done and the connection cannot go on, the last exchange is the cause. */
    lemma BothDone()
      requires Valid()
      ensures reading.KeepAlive? && writing.KeepAlive? && !keepAlive.Busy? ==> ClosedFor(Writing.Closed, quit)
      ensures reading.KeepAlive? && writing.Closed? ==> ClosedFor(Writing.Closed, quit)
      ensures reading.Closed? ==> ClosedFor(Writing.Closed, quit)
    {
      hide Dec.Decoder.Valid, WB.WriteBuf.Valid, Src.Source.Valid, Recorded, Wire, Consumed, GoodParser, Enc.Complete, Enc.Partial, HeadBroken;
    }

    /** The record after a read that only added to the buffer. */
    lemma MoreRecorded(reading: Reading, received: ByteSeq, buf: ByteSeq, eof: bool)
      requires GoodConfig(config) && buf <= src.buf && src.received == received + src.buf[|buf|..]
      requires eof ==> src.eof && src.received == received
      requires Recorded(config, reading, writing, sent, recv, method_, received, src.taken, buf, eof)
      ensures RecordedAs(reading)
    {
      hide Recorded;
      MoreReceived(config, reading, writing, sent, recv, method_, received, src.taken, buf, eof, src.buf[|buf|..], src.eof);
      assert buf + src.buf[|buf|..] == src.buf;
    }

    /** One read of the transport, whatever the state. */
    method PollReadIo() returns (r: Poll<Result<nat, Src.IoError>>)
      requires Valid() && !reading.Body? && !reading.Closed?
      modifies src`buf, src`script, src`eof, src`failed, src`readBlocked, src`strategy, src`received
      ensures Worse()
      ensures Valid() && old(src.received) <= src.received && src.Left() <= old(src.Left())
      ensures r.Pending? ==> src.readBlocked && src.buf == old(src.buf)
      ensures r.Ready? ==> !src.readBlocked
      ensures r.Ready? && r.value.Ok? ==> |src.buf| == |old(src.buf)| + r.value.value
      ensures r == Ready(Ok(0)) ==> src.buf == old(src.buf) && src.eof
      ensures r.Ready? && r.value.Err? ==> src.buf == old(src.buf) && src.failed
    {
      hide CloseCause, HeadBroken, Dec.Decoder.Valid, WB.WriteBuf.Valid, Src.Source.Valid, Recorded, Wire, Consumed, GoodParser, Enc.Complete, Enc.Partial,
           Src.Upcoming, Src.TerminalOf, Src.Weight, Src.Source.Ahead, Src.Source.End, HistoryOk;
      ghost var received, buf, eof := src.received, src.buf, src.eof;
      r := src.PollReadFromIo();
      MoreRecorded(reading, received, buf, eof);
    }

    /** Whether `maybe_notify` looks at all: nothing is being read or written out, and the last read did not block. */
    predicate Looks()
      reads this, src
    {
      reading.Init? && !writing.Body? && !src.readBlocked
    }

    /** `maybe_notify`: with nothing buffered, look whether the peer has sent or closed. */
    method MaybeNotify()
      requires Valid()
      modifies this`reading, this`writing, this`keepAlive, this`notifyRead, this`error,
               src`buf, src`script, src`eof, src`failed, src`readBlocked, src`strategy, src`received
      ensures Worse()
      ensures Valid() && Absorbing() && old(src.received) <= src.received
      ensures src.Left() <= old(src.Left())
      ensures (reading == old(reading) && writing == old(writing) && keepAlive == old(keepAlive))
              || (reading.Closed? && (writing == old(writing) || writing.Closed?) && keepAlive.Disabled?)
      ensures !old(Looks()) ==> reading == old(reading) && notifyRead == old(notifyRead) && src.buf == old(src.buf)
      ensures old(Looks()) && old(src.buf) != [] ==>
                notifyRead && reading == old(reading) && writing == old(writing) && src.buf == old(src.buf)
      ensures old(Looks()) && old(src.buf) == [] ==>
                || (src.readBlocked && src.buf == [] && reading == old(reading) && notifyRead == old(notifyRead))
                || (src.buf != [] && notifyRead && reading == old(reading))
                || (src.eof && src.buf == [] && reading.Closed? && notifyRead == old(notifyRead)
                    && writing == if old(keepAlive).Idle? then Writing.Closed else old(writing))
                || (error && src.failed && src.buf == [] && notifyRead && reading.Closed? && writing.Closed?)
      ensures old(CanReadHead()) && reading.Closed? ==> src.eof || src.failed
    {
      hide Conn.Base, HeadBroken, Recorded, Consumed, GoodParser, Src.Upcoming, Src.TerminalOf, Src.Weight, HeadBroken;
      if !reading.Init? || writing.Body? || src.readBlocked { return; }
      if src.buf == [] {
        var p := PollReadIo();
        match p
        case Pending => return;
        case Ready(Ok(n)) =>
          if n == 0 {
            if keepAlive.Idle? {
              Close();
            } else {
              ClosingRecorded();
              StopReading();
            }
            return;
          }
        case Ready(Err(_)) =>
          Close();
          SetError();
      }
      Notify();
    }

    method SetError()
      requires Valid()
      modifies this`error
      ensures Valid() && error
    {
      hide CloseCause, HeadBroken, Dec.Decoder.Valid, WB.WriteBuf.Valid, Src.Source.Valid, Recorded, HistoryOk, Wire, Consumed, GoodParser;
      error := true;
    }

    method Notify()
      requires Valid()
      modifies this`notifyRead
      ensures Valid() && notifyRead
    {
      hide CloseCause, HeadBroken, Dec.Decoder.Valid, WB.WriteBuf.Valid, Src.Source.Valid, Recorded, HistoryOk, Wire, Consumed, GoodParser;
      notifyRead := true;
    }

    method TryKeepAlive()
      requires Valid()
      modifies this`reading, this`writing, this`keepAlive, this`notifyRead, this`method_, this`error,
               src`buf, src`script, src`eof, src`failed, src`readBlocked, src`strategy, src`received
      ensures Worse()
      ensures Valid() && Absorbing() && old(src.received) <= src.received
      ensures src.Left() <= old(src.Left())
      ensures reading == old(reading) || reading.Closed? || (old(reading).KeepAlive? && reading.Init? && writing.Init?)
      ensures writing == old(writing) || writing.Closed? || (old(reading).KeepAlive? && writing.Init?)
      ensures old(reading).Init? && !old(writing).Init? ==> !writing.Init?
      ensures old(reading).Body? ==> reading.Body?
      ensures !old(reading).Body? ==> !reading.Body?
      ensures old(reading).KeepAlive? ==> !CanReadHead()
      ensures old(CanReadHead()) && reading.Closed? ==> src.eof || src.failed
    {
      hide CloseCause, Conn.Base, HeadBroken, Recorded, Consumed, GoodParser, Src.Upcoming, Src.TerminalOf, Src.Weight;
      TryKeepAliveState();
      MaybeNotify();
    }

    // ---- reading heads -----------------------------------------------------

    predicate CanReadHead()
      reads this
    {
      reading.Init? && !writing.Init?
    }

    predicate CanReadBody()
      reads this
    {
      reading.Body?
    }

    /** The loop of `Client::parse`: skip informational heads until a final one or no whole head. */
    method ParseBuffered() returns (r: Result<Option<Message>, ()>)
      requires src.Valid() && GoodParser(parser)
      modifies src`buf, src`taken
      ensures src.Valid() && old(src.taken) <= src.taken
      ensures src.Left() <= old(src.Left())
      ensures Parses(parser, method_, old(src.buf), ParseOf(r, src.buf))
      ensures r.Ok? && r.value.Some? ==> Says(parser, method_, old(src.buf), r.value.value, src.buf)
    {
      hide CloseCause, Src.Upcoming, Src.TerminalOf, Src.Weight, Src.Source.Valid, Src.Source.Ahead, Src.Source.End, Says, HV.IsChunked, HV.ContentLengthIs, KeepAliveFlag,
           ResponseFraming;
      while true
        invariant src.Valid() && old(src.taken) <= src.taken
        invariant src.Left() <= old(src.Left())
        invariant forall r :: Parses(parser, method_, src.buf, r) ==> Parses(parser, method_, old(src.buf), r)
        decreases |src.buf|
      {
        ghost var buf := src.buf;
        var outcome := parser(src.buf);
        match outcome
        case Partial => return Ok(None);
        case Bad => return Err(());
        case Parsed(len, resp) =>
          var _ := src.SplitTo(len);
          var framing := ResponseBody(resp, method_);
          InformationalOnly(resp, method_, framing);
          assert src.buf == buf[len..];
          match framing
          case Err(_) =>
            assert Parses(parser, method_, buf, BadHead);
            return Err(());
          case Ok(Some((kind, up))) =>
            var ka := KeepAliveFlag(resp.version, resp.headers.connection);
            assert Parses(parser, method_, buf, Found(Message(kind, ka && !up, up, resp.version), src.buf));
            FoundSays(parser, method_, old(src.buf), Message(kind, ka && !up, up, resp.version), src.buf);
            return Ok(Some(Message(kind, ka && !up, up, resp.version)));
          case Ok(None) =>
            if src.buf == [] {
              assert Parses(parser, method_, buf, NoHead(src.buf));
              return Ok(None);
            }
      }
    }

    /** Whether parsing is skipped: nothing is buffered, or the head is known to be partial still. */
    ghost predicate Skips()
      reads this, src
    {
      src.buf == [] || (partialLen.Some? && !HeadScan.TerminatorFrom(src.buf, partialLen.value))
    }

    /** `parse_headers`: nothing to do on an empty buffer or a head still known to be partial. */
    method ParseHeaders() returns (r: Result<Option<Message>, ()>)
      requires src.Valid() && GoodParser(parser)
      requires partialLen.Some? ==> partialLen.value <= |src.buf|
      modifies src`buf, src`taken, this`partialLen
      ensures src.Valid() && old(src.taken) <= src.taken
      ensures src.Left() <= old(src.Left())
      ensures old(Skips()) ==> r == Ok(None) && src.buf == old(src.buf) && src.taken == old(src.taken)
      ensures !old(Skips()) ==> old(src.buf) != [] && Parses(parser, method_, old(src.buf), ParseOf(r, src.buf))
      ensures partialLen == if r == Ok(None) && src.buf != [] then Some(|src.buf|) else None
    {
      hide CloseCause, Src.Upcoming, Src.TerminalOf, Src.Weight, Src.Source.Valid, Src.Source.Ahead, Src.Source.End, HeadScan.TerminatorFrom, Parses;
      var whole := src.buf != [];
      if whole && partialLen.Some? {
        whole := HeadScan.IsCompleteFast(src.buf, partialLen.value);
      }
      r := Ok(None);
      if whole {
        r := ParseBuffered();
      }
      partialLen := if r == Ok(None) && src.buf != [] then Some(|src.buf|) else None;
    }

    /** A final head has been found: it is the next thing in the bytes since the last response. */
    ghost predicate HeadFound(msg: Message)
      reads this, src
      requires GoodConfig(config)
    {
      && partialLen == None && sent != [] && method_ == Some(sent[|sent| - 1].user.method_)
      && |src.received| > |Consumed(recv)|
      && (msg.upgrade ==> !msg.keepAlive && msg.kind == Exact(0))
      && (Stable(ParserAt(config, |recv|)) ==>
            Parses(ParserAt(config, |recv|), method_, src.received[|Consumed(recv)|..], Found(msg, src.buf)))
    }

    /** Why no head can be had: the transport, a head that is nonsense or one that is too long. */
    ghost predicate HeadFailed(e: Error)
      reads this, src
      requires GoodConfig(config)
    {
      match e
      case Incomplete => src.eof
      case IoFailed => src.failed
      case ParseFailed => sent != [] && BrokenNow()
      case HeadTooLarge => sent != [] && BrokenNow()
      case _ => false
    }

    ghost predicate BrokenNow()
      reads this, src
      requires GoodConfig(config) && sent != []
    {
      HeadBroken(ParserAt(config, |recv|), maxBuf, sent[|sent| - 1].user.method_, |Consumed(recv)|, src.received, src.received)
    }

    /** What a parse of the buffer, or a parse skipped, leaves of the record. */
    lemma ParseRecorded(taken: ByteSeq, buf: ByteSeq, r: Result<Option<Message>, ()>, skipped: bool)
      requires GoodConfig(config) && CanReadHead()
      requires Recorded(config, reading, writing, sent, recv, method_, src.received, taken, buf, src.eof)
      requires src.received == taken + buf && taken <= src.taken <= src.received
      requires if skipped then r == Ok(None) && src.buf == buf
               else buf != [] && Parses(ParserAt(config, |recv|), method_, buf, ParseOf(r, src.buf))
      requires r.Ok? && r.value.Some? ==> partialLen == None
      ensures RecordedAs(Reading.Closed) && (r == Ok(None) ==> RecordedAs(reading))
      ensures r.Ok? && r.value.Some? ==> HeadFound(r.value.value)
      ensures sent != [] && (r.Err? ==> BrokenNow()) && |Consumed(recv)| <= |src.taken|
    {
      hide Recorded, GoodParser, Parses, Waits, Stable, Consumed;
      ReadingClosed(config, reading, writing, sent, recv, method_, src.received, taken, buf, src.eof, writing, method_);
      TakenAfterClose(config, writing, sent, recv, method_, src.received, taken, buf, src.eof, src.taken, src.buf);
      Awaited(taken, buf);
      var p, n := ParserAt(config, |recv|), |Consumed(recv)|;
      if Stable(p) { AfterParse(p, method_, src.received[n..], buf, r, src.buf); }
      if r == Ok(None) {
        StillAwaited(config, writing, sent, recv, method_, src.received, taken, buf, src.eof, src.received, src.taken, src.buf, src.eof);
      } else if r.Ok? {
        UpgradeIsLast(p, method_, buf, r.value.value, src.buf);
      }
    }

    lemma Awaited(taken: ByteSeq, buf: ByteSeq)
      requires GoodConfig(config) && CanReadHead() && taken <= src.received
      requires Recorded(config, reading, writing, sent, recv, method_, src.received, taken, buf, src.eof)
      ensures Awaits(ParserAt(config, |recv|), method_, sent, recv, src.received, buf)
      ensures |Consumed(recv)| <= |taken|
    {
      hide Alternate, AllFramed, AllMeant, SeenOk, Awaits;
    }

    lemma TakenCovers()
      requires GoodConfig(config) && RecordedAs(Reading.Closed)
      ensures Consumed(recv) <= src.taken && src.taken == Consumed(recv) + src.taken[|Consumed(recv)|..]
      ensures Alternate(sent, recv) && AllFramed(sent) && AllMeant(config, recv) && SeenOk(recv, src.received, src.eof)
    {
      hide Alternate, AllFramed, AllMeant, SeenOk, Consumed, Awaits, GoodParser;
    }

    /**
     `Buffered::parse`: parse what is there, else read more; a partial head is only rescanned at
     its end. What is found is what parsing everything since the last response would find.
     */
    method Parse() returns (r: Poll<Result<Message, Error>>)
      requires Valid() && CanReadHead()
      modifies src`buf, src`script, src`eof, src`failed, src`readBlocked, src`strategy, src`received, src`taken, this`partialLen
      ensures Worse()
      ensures Base(encoder.kind) && RecordedAs(Reading.Closed)
      ensures old(src.taken) <= src.taken && old(src.received) <= src.received
      ensures src.Left() <= old(src.Left())
      ensures r.Pending? ==> Valid() && src.readBlocked && |src.buf| < maxBuf
      ensures r.Ready? && r.value.Ok? ==> HeadFound(r.value.value)
      ensures r.Ready? && r.value.Err? ==> HeadFailed(r.value.error)
    {
      hide CloseCause, HeadBroken, Conn.Base, Recorded, GoodParser, Parses, Stable, Consumed, Src.Weight;
      while true
        invariant Valid() && Worse()
        invariant old(src.taken) <= src.taken && old(src.received) <= src.received
        invariant src.Left() <= old(src.Left())
        decreases src.Left()
      {
        var done;
        done, r := ParseOrRead();
        if done { return; }
      }
    }

    /** One turn of the loop: parse what is buffered, else read some more. */
    method ParseOrRead() returns (done: bool, r: Poll<Result<Message, Error>>)
      requires Valid() && CanReadHead()
      modifies src`buf, src`script, src`eof, src`failed, src`readBlocked, src`strategy, src`received, src`taken, this`partialLen
      ensures Worse()
      ensures Base(encoder.kind) && RecordedAs(Reading.Closed)
      ensures old(src.taken) <= src.taken && old(src.received) <= src.received
      ensures src.Left() <= old(src.Left()) && (!done ==> src.Left() < old(src.Left()))
      ensures !done || r.Pending? ==> Valid()
      ensures done && r.Pending? ==> src.readBlocked && |src.buf| < maxBuf
      ensures done && r.Ready? && r.value.Ok? ==> HeadFound(r.value.value)
      ensures done && r.Ready? && r.value.Err? ==> HeadFailed(r.value.error)
    {
      hide HeadBroken, Src.Upcoming, Src.TerminalOf, Src.Weight, Src.Source.Ahead, Src.Source.End, GoodParser, Recorded, Parses, Stable,
           Consumed, Wire, HistoryOk, Dec.Decoder.Valid, WB.WriteBuf.Valid, HeadScan.TerminatorFrom;
      ghost var taken, buf, skipped := src.taken, src.buf, Skips();
      var parsed := ParseHeaders();
      ParseRecorded(taken, buf, parsed, skipped);
      done, r := true, Pending;
      match parsed {
        case Err(_) =>
          r := Ready(Err(ParseFailed));
          return;
        case Ok(Some(msg)) =>
          r := Ready(Ok(msg));
          return;
        case Ok(None) =>
      }
      if |src.buf| >= src.strategy.MaxSize() {
        TooLarge();
        r := Ready(Err(HeadTooLarge));
        return;
      }
      done, r := ReadMore();
      ClosingRecorded();
    }

    lemma TooLarge()
      requires GoodConfig(config) && sent != [] && |Consumed(recv)| <= |src.taken| && src.Valid() && |src.buf| >= maxBuf
      ensures BrokenNow()
    {
      hide Parses, Stable, Consumed;
    }

    method ReadMore() returns (done: bool, r: Poll<Result<Message, Error>>)
      requires Valid() && CanReadHead()
      modifies src`buf, src`script, src`eof, src`failed, src`readBlocked, src`strategy, src`received
      ensures Worse()
      ensures Valid() && old(src.received) <= src.received
      ensures src.Left() <= old(src.Left()) && (!done ==> src.Left() < old(src.Left()))
      ensures done ==> if r.Pending? then src.readBlocked && src.buf == old(src.buf)
                       else (r == Ready(Err(IoFailed)) && src.failed) || (r == Ready(Err(Incomplete)) && src.eof)
    {
      hide CloseCause, HeadBroken, Dec.Decoder.Valid, WB.WriteBuf.Valid, Src.Source.Valid, Recorded, Wire, Consumed, GoodParser, Enc.Complete, Enc.Partial,
           Src.Upcoming, Src.TerminalOf, Src.Weight, Src.Source.Ahead, Src.Source.End, HistoryOk;
      ghost var received, buf, eof := src.received, src.buf, src.eof;
      var p := src.PollReadFromIo();
      MoreRecorded(reading, received, buf, eof);
      done, r := true, Pending;
      match p
      case Pending =>
      case Ready(Err(_)) => r := Ready(Err(IoFailed));
      case Ready(Ok(n)) => if n == 0 { r := Ready(Err(Incomplete)); } else { done := false; }
    }

    /** A response is only awaited after one that allowed reuse, so no upgrade can be pending. */
    lemma NotUpgrading()
      requires Base(encoder.kind) && CanReadHead()
      ensures !upgrade && |sent| == |recv| + 1 && sent != [] && src.dropped == 0
    {
      hide CloseCause, HeadBroken, Dec.Decoder.Valid, WB.WriteBuf.Valid, Src.Source.Valid, Consumed, Wire, GoodParser, SentOk;
    }

    /** `Decoder::new` for a response body that starts at the next byte. */
    method NewDecoder(kind: BodyKind)
      requires Base(encoder.kind) && !reading.Body?
      modifies decoder
      ensures Base(encoder.kind) && decoder.origin == Origin(kind) && decoder.out == [] && decoder.fed == [] && decoder.base == src.taken
      ensures decoder.terminal.AtIdle? && decoder.verdict == if kind == Exact(0) then Dec.Complete(None) else Dec.Waiting
    {
      hide CloseCause, HeadBroken, Dec.Decoder.Valid, WB.WriteBuf.Valid, Src.Source.Valid, Wire, Consumed, GoodParser, HistoryOk;
      decoder.Reset(Origin(kind), src.taken);
    }

    /** Take in a final response head. */
    method AcceptHead(msg: Message)
      requires Base(encoder.kind) && CanReadHead() && RecordedAs(Reading.Closed) && HeadFound(msg)
      modifies this`reading, this`keepAlive, this`version, this`recv, this`parser, decoder
      ensures Valid() && Absorbing()
      ensures |recv| == |old(recv)| + 1 && recv[..|old(recv)|] == old(recv)
      ensures var r := recv[|recv| - 1];
              r.Msg() == msg && r.Complete() == (msg.kind == Exact(0)) && r.data == [] && r.Trailers() == None
      ensures if msg.kind == Exact(0) then reading.KeepAlive? else reading.Body?
      ensures keepAlive == if old(keepAlive).Disabled? || !msg.keepAlive then Disabled else Busy
      ensures msg.upgrade ==> msg.kind == Exact(0)
    {
      hide CloseCause, Conn.Base, Origin, Recorded, Conn.HeadFound;
      NewDecoder(msg.kind);
      NoteHead(msg);
    }

    /** The head itself: what it says about reuse, the peer's version, and what is to be read next. */
    method NoteHead(msg: Message)
      requires Base(encoder.kind) && CanReadHead() && RecordedAs(Reading.Closed) && HeadFound(msg)
      requires decoder.origin == Origin(msg.kind) && decoder.out == [] && decoder.fed == [] && decoder.base == src.taken
      requires decoder.terminal.AtIdle? && decoder.verdict == if msg.kind == Exact(0) then Dec.Complete(None) else Dec.Waiting
      modifies this`reading, this`keepAlive, this`version, this`recv, this`parser
      ensures Valid() && Absorbing()
      ensures |recv| == |old(recv)| + 1 && recv[..|old(recv)|] == old(recv)
      ensures var r := recv[|recv| - 1];
              r.Msg() == msg && r.Complete() == (msg.kind == Exact(0)) && r.data == [] && r.Trailers() == None
      ensures if msg.kind == Exact(0) then reading.KeepAlive? else reading.Body?
      ensures keepAlive == if old(keepAlive).Disabled? || !msg.keepAlive then Disabled else Busy
      ensures msg.upgrade ==> msg.kind == Exact(0)
    {
      hide CloseCause, HeadBroken, Dec.Decoder.Valid, WB.WriteBuf.Valid, Src.Source.Valid, Recorded, Wire, Consumed, GoodParser, Enc.Complete, Enc.Partial,
           Src.Upcoming, Src.TerminalOf, Src.Weight, HistoryOk, BodyMeaning, Origin, Conn.HeadFound;
      NotUpgrading();
      TakenCovers();
      ghost var was := recv;
      var r := Response(msg.kind, msg.keepAlive, msg.upgrade, msg.version, sent[|sent| - 1].user.method_, |sent|,
                        src.taken[|Consumed(recv)|..], src.received, [], Src.AtIdle, [], decoder.verdict);
      NewHeadRecorded(msg, r);
      RecordHead(r, if r.Complete() then Reading.KeepAlive else Reading.Body);
      assert recv[..|recv| - 1] == was;
    }

    method RecordHead(r: Response, next: Reading)
      requires Base(encoder.kind) && CanReadHead() && partialLen == None && !upgrade && src.dropped == 0
      requires Recorded(config, next, writing, sent, recv + [r], method_, src.received, src.taken, src.buf, src.eof)
      requires next == if r.Complete() then Reading.KeepAlive else Reading.Body
      requires decoder.origin == Origin(r.kind) && decoder.base == src.taken && src.taken == Consumed(recv) + r.head
      requires r == DecodedInto(r) && decoder.fed == [] && decoder.terminal.AtIdle?
      requires (r.upgrade ==> !r.keepAlive) && (r.Complete() || r.verdict.Waiting?)
      modifies this`reading, this`keepAlive, this`version, this`recv, this`parser
      ensures Valid() && Absorbing() && recv == old(recv) + [r] && reading == next
      ensures keepAlive == if old(keepAlive).Disabled? || !r.keepAlive then Disabled else Busy
    {
      hide CloseCause, HeadBroken, Dec.Decoder.Valid, WB.WriteBuf.Valid, Src.Source.Valid, Recorded, Wire, Consumed, GoodParser, Enc.Complete, Enc.Partial,
           Src.Upcoming, Src.TerminalOf, Src.Weight, HistoryOk, BodyMeaning, Origin;
      HeadAccepted(writing, keepAlive, encoder.kind, sent, recv, r);
      assert (recv + [r])[..|recv|] == recv && src.taken + decoder.fed == src.taken;
      keepAlive := AfterResponse(keepAlive, r.keepAlive);
      version, parser := r.version, config.strict;
      recv := recv + [r];
      reading := next;
    }

    /** The record with the response of a head just found. */
    lemma NewHeadRecorded(msg: Message, r: Response)
      requires Base(encoder.kind) && CanReadHead() && RecordedAs(Reading.Closed) && HeadFound(msg)
      requires decoder.origin == Origin(msg.kind) && decoder.out == [] && decoder.fed == [] && decoder.terminal.AtIdle?
      requires |Consumed(recv)| <= |src.taken|
      requires r == Response(msg.kind, msg.keepAlive, msg.upgrade, msg.version, sent[|sent| - 1].user.method_, |sent|,
                             src.taken[|Consumed(recv)|..], src.received, [], Src.AtIdle, [], decoder.verdict)
      ensures Recorded(config, if r.Complete() then Reading.KeepAlive else Reading.Body, writing, sent, recv + [r], method_,
                       src.received, src.taken, src.buf, src.eof)
      ensures src.taken == Consumed(recv) + r.head && (msg.upgrade ==> !msg.keepAlive && msg.kind == Exact(0)) && partialLen == None
    {
      NotUpgrading();
      TakenCovers();
      HeadMeans(msg, r);
      DecoderMeans(r);
      hide CloseCause, Recorded, HistoryOk, Wire, WB.WriteBuf.Valid, Dec.Decoder.Valid, Alternate, AllFramed, AllMeant, SeenOk, GoodParser, Parses,
           Stable, HeadMeaning, BodyMeaning;
      HeadRecorded(config, writing, sent, recv, method_, src.received, src.taken, src.buf, src.eof, r,
                   if r.Complete() then Reading.KeepAlive else Reading.Body);
    }

    lemma HeadMeans(msg: Message, r: Response)
      requires GoodConfig(config) && HeadFound(msg) && src.Valid() && Consumed(recv) <= src.taken
      requires r.Msg() == msg && r.method_ == sent[|sent| - 1].user.method_
      requires r.head == src.taken[|Consumed(recv)|..] && r.seen == src.received
      ensures HeadMeaning(ParserAt(config, |recv|), |Consumed(recv)|, r)
    {
      hide Parses, Stable, Consumed, ParserAt;
      assert src.received == src.taken + src.buf;
      assert src.received[|src.taken|..] == src.buf;
    }

    /** `poll_read_head`. */
    method PollReadHead() returns (r: Poll<Result<Message, Error>>)
      requires Valid() && CanReadHead()
      modifies this, src, decoder
      ensures Worse()
      ensures Valid() && Absorbing() && sent == old(sent)
      ensures old(src.taken) <= src.taken && old(src.received) <= src.received && src.Left() <= old(src.Left())
      ensures upgrade == old(upgrade)
      ensures r.Pending? ==> reading.Init? && writing == old(writing) && recv == old(recv) && src.readBlocked && |src.buf| < maxBuf
      ensures r.Ready? && r.value.Err? ==>
                reading.Closed? && recv == old(recv) && (src.eof || src.failed || badHead.Some?)
      ensures quit == old(quit)
      ensures writing.Body? ==> old(writing).Body?
      ensures r.Ready? && r.value.Ok? ==>
                var msg := r.value.value;
                && |recv| == |old(recv)| + 1 && recv[..|old(recv)|] == old(recv)
                && recv[|recv| - 1].Msg() == msg && recv[|recv| - 1].data == [] && recv[|recv| - 1].Trailers() == None
                && (msg.upgrade ==> msg.kind == Exact(0))
                && src.dropped == 0
                && recv[|recv| - 1].Complete() == (msg.kind == Exact(0)) == !reading.Body?
                && !CanReadHead()
    {
      hide Conn.HeadFound, Conn.HeadFailed, CloseCause, Conn.Base, HeadBroken, Recorded, Consumed, GoodParser, Src.Upcoming, Src.TerminalOf, Src.Weight;
      var parsed := Parse();
      match parsed
      case Pending => return Pending;
      case Ready(Err(e)) =>
        OnReadHeadError(e);
        return Ready(Err(e));
      case Ready(Ok(msg)) =>
        NotUpgrading();
        AcceptHead(msg);
        if msg.kind == Exact(0) { TryKeepAlive(); }
        r := Ready(Ok(msg));
    }

    /**
     `on_read_head_error`. A head is only read while a request is in flight, so the connection
     is never idle here and the quiet end-of-file outcome cannot arise: it is always an error.
     */
    method OnReadHeadError(e: Error)
      requires Base(encoder.kind) && CanReadHead() && RecordedAs(Reading.Closed) && HeadFailed(e)
      modifies this`reading, this`keepAlive, this`partialLen, this`badHead, src
      ensures Worse()
      ensures Valid() && Absorbing() && reading.Closed? && (src.eof || src.failed || badHead.Some?)
      ensures old(src.taken) <= src.taken && src.received == old(src.received) && src.Left() <= old(src.Left())
    {
      hide HeadBroken, Dec.Decoder.Valid, WB.WriteBuf.Valid, Recorded, Wire, Consumed, GoodParser, Enc.Complete, Enc.Partial, Src.Upcoming,
           Src.TerminalOf, Src.Weight, HeadBroken;
      NotUpgrading();
      assert !keepAlive.Idle?;
      NoteBadHead(e);
      partialLen := None;
      ghost var taken, buf := src.taken, src.buf;
      src.ConsumeLeadingLines();
      assert src.taken + src.buf == src.received;
      TakenAfterClose(config, writing, sent, recv, method_, src.received, taken, buf, src.eof, src.taken, src.buf);
    }

    method NoteBadHead(e: Error)
      requires Base(encoder.kind) && CanReadHead() && RecordedAs(Reading.Closed) && HeadFailed(e)
      modifies this`reading, this`keepAlive, this`badHead
      ensures Valid() && reading.Closed? && keepAlive.Disabled? && (src.eof || src.failed || badHead.Some?)
    {
      hide HistoryOk, PeerVersion, Dec.Decoder.Valid, WB.WriteBuf.Valid, Src.Source.Valid, Recorded, Wire, Consumed, GoodParser, Enc.Complete, Enc.Partial, HeadBroken;
      ClosedHistory(reading, writing, keepAlive, encoder.kind, sent, recv);
      if e.ParseFailed? || e.HeadTooLarge? { badHead := Some(src.received); }
      reading, keepAlive := Reading.Closed, Disabled;
    }

    // ---- reading bodies ----------------------------------------------------

    /** Only the body of the last response has moved on. */
    twostate predicate MovedOn()
      reads this
    {
      && |recv| == old(|recv|) > 0 && recv[..|recv| - 1] == old(recv)[..|recv| - 1]
      && SameHead(old(recv)[|recv| - 1], recv[|recv| - 1]) && old(recv)[|recv| - 1].verdict.Waiting?
    }

    /** The last response has become complete. */
    twostate predicate Completed()
      reads this
    {
      !reading.Body? && !CanReadHead() && recv != [] && recv[|recv| - 1].Complete()
    }

    /** Record how far the decoder has got with the last response. */
    method RecordBody(ghost received: ByteSeq, ghost taken: ByteSeq, ghost buf: ByteSeq, ghost eof: bool)
      requires Parts() && HistoryOk(reading, writing, keepAlive, encoder.kind, sent, recv) && wbuf.buffered == Wire(sent)
      requires partialLen == None
      requires reading.Body? && recv != [] && |sent| == |recv| && decoder.origin == Origin(recv[|recv| - 1].kind)
      requires decoder.base == Consumed(recv[..|recv| - 1]) + recv[|recv| - 1].head && src.taken == decoder.base + decoder.fed
      requires decoder.terminal.AtEof? ==> src.eof && src.buf == []
      requires Recorded(config, Reading.Body, writing, sent, recv, method_, received, taken, buf, eof)
      requires received <= src.received && (eof ==> src.eof && src.received == received)
      modifies this`reading, this`recv
      ensures Valid() && |recv| == |old(recv)| && recv[..|recv| - 1] == old(recv)[..|recv| - 1]
      ensures recv[|recv| - 1] == DecodedInto(old(recv)[|recv| - 1])
      ensures reading == match decoder.verdict case Complete(_) => Reading.KeepAlive case Waiting => Reading.Body case Broken(_) => Reading.Closed
    {
      hide HeadBroken, Dec.Decoder.Valid, WB.WriteBuf.Valid, Recorded, Wire, Consumed, GoodParser, Enc.Complete, Enc.Partial, Src.Upcoming,
           Src.TerminalOf, Src.Weight, Src.Source.Ahead, Src.Source.End, HistoryOk, BodyMeaning, Origin;
      var r := DecodedInto(recv[|recv| - 1]);
      var next := match decoder.verdict case Complete(_) => Reading.KeepAlive case Waiting => Reading.Body case Broken(_) => Reading.Closed;
      DecoderMeans(r);
      BodyMoved(writing, keepAlive, encoder.kind, sent, recv, r);
      BodyRecorded(config, writing, sent, recv, method_, received, taken, buf, eof, r,
                   src.received, src.taken, src.buf, src.eof, next);
      ghost var was := recv;
      recv := recv[|recv| - 1 := r];
      reading := next;
      assert recv[..|recv| - 1] == was[..|was| - 1];
    }

    lemma DecoderMeans(r: Response)
      requires decoder.Valid() && decoder.limits == config.limits && decoder.parser == config.trailerParser
      requires decoder.origin == Origin(r.kind) && r == DecodedInto(r)
      ensures BodyMeaning(config.limits, config.trailerParser, r)
      ensures decoder.verdict.Waiting? ==> decoder.terminal.AtIdle?
    {
      hide Dec.Run, Dec.Finish, Dec.Truncated;
    }

    /**
     `poll_read_body`. An empty data frame only comes with the end of the body, so the
     "unexpectedly ended" branch of the source cannot be reached and is not written here.
     */
    method PollReadBody() returns (r: Poll<BodyRead>)
      requires Valid() && CanReadBody()
      modifies this, src, decoder
      ensures Worse() && quit == old(quit)
      ensures Valid() && Absorbing() && sent == old(sent) && upgrade == old(upgrade) && (writing.Body? ==> old(writing).Body?)
      ensures old(src.received) <= src.received && src.Left() <= old(src.Left())
      ensures MovedOn()
      ensures var was, now := old(recv)[|recv| - 1], recv[|recv| - 1];
              match r
              case Pending => reading.Body? && now.data == was.data && now.Trailers() == None && src.buf == []
              case Ready(Frame(Data(b))) =>
                && b != [] && now.data == was.data + b && now.Trailers() == None
                && (Completed() || (reading.Body? && src.Left() < old(src.Left())))
              case Ready(Frame(Trailers(h))) => now.data == was.data && now.Trailers() == Some(h) && Completed()
              case Ready(EndOfBody) => now.data == was.data && now.Trailers() == None && Completed()
              case Ready(BodyFailed(_)) => reading.Closed? && now.data == was.data && now.verdict.Broken?
    {
      hide CloseCause, Conn.Base, HeadBroken, Recorded, Consumed, GoodParser, Src.Upcoming, Src.TerminalOf, Src.Weight, Src.Source.Ahead, Src.Source.End;
      BodyBegun();
      var d := DecodeSome();
      match d
      case Pending => return Pending;
      case Ready(Err(e)) =>
        TryKeepAlive();
        return Ready(BodyFailed(e));
      case Ready(Ok(frame)) =>
        if reading.Body? {
          return Ready(Frame(frame));
        }
        TryKeepAlive();
        return Ready(if frame.Data? && frame.bytes == [] then EndOfBody else Frame(frame));
    }

    /** One call of the decoder, recorded. */
    method DecodeSome() returns (d: Poll<Result<Dec.Frame, CM.Error>>)
      requires Valid() && CanReadBody()
      modifies this`reading, this`recv, src, decoder
      ensures Worse() && quit == old(quit)
      ensures Valid() && MovedOn()
      ensures old(src.received) <= src.received && src.Left() <= old(src.Left())
      ensures var was, now := old(recv)[|recv| - 1], recv[|recv| - 1];
              match d
              case Pending => reading.Body? && now.data == was.data && src.buf == []
              case Ready(Ok(Data(b))) =>
                && now.data == was.data + b && now.Trailers() == None
                && (reading.KeepAlive? || (reading.Body? && b != [] && src.Left() < old(src.Left())))
              case Ready(Ok(Trailers(h))) => reading.KeepAlive? && now.data == was.data && now.Trailers() == Some(h)
              case Ready(Err(_)) => reading.Closed? && now.data == was.data && now.verdict.Broken?
      ensures reading.KeepAlive? ==> recv[|recv| - 1].Complete()
      ensures reading.Body? ==> recv[|recv| - 1].Trailers() == None
    {
      hide CloseCause, HeadBroken, Dec.Decoder.Valid, WB.WriteBuf.Valid, Src.Source.Valid, Recorded, Wire, Consumed, GoodParser, Enc.Complete, Enc.Partial,
           Src.Upcoming, Src.TerminalOf, Src.Weight, Src.Source.Ahead, Src.Source.End, HistoryOk, Origin;
      BodyBegun();
      ghost var received, taken, buf, eof := src.received, src.taken, src.buf, src.eof;
      d := decoder.Decode(src);
      RecordBody(received, taken, buf, eof);
    }

    lemma BodyBegun()
      requires Valid() && reading.Body?
      ensures !writing.Init? && recv != [] && recv[|recv| - 1].verdict.Waiting? && |sent| == |recv| && src.dropped == 0
    {
      hide CloseCause, HeadBroken, Dec.Decoder.Valid, WB.WriteBuf.Valid, Src.Source.Valid, Recorded, Wire, Consumed, GoodParser, SentOk;
    }

    /** `poll_drain_or_close_read`, for a body nobody listens to any more. */
    method PollDrainOrCloseRead()
      requires Valid() && CanReadBody()
      modifies this, src, decoder
      ensures Worse()
      ensures Valid() && Absorbing() && sent == old(sent) && upgrade == old(upgrade) && (writing.Body? ==> old(writing).Body?)
      ensures old(src.received) <= src.received && src.Left() <= old(src.Left())
      ensures !reading.Body? && !CanReadHead() && MovedOn()
      ensures reading.Closed? && recv[|recv| - 1].Complete() ==> ClosedFor(writing, old(quit))
    {
      hide CloseCause, Conn.Base, HeadBroken, Recorded, Consumed, GoodParser, Src.Upcoming, Src.TerminalOf, Src.Weight, Src.Source.Ahead, Src.Source.End;
      BodyBegun();
      var _ := PollReadBody();
      if reading.Body? { BodyBegun(); }
      if !reading.Init? && !reading.KeepAlive? {
        CloseRead();
      }
    }

    /** `on_upgrade`: remember to hand the connection over. */
    method OnUpgrade()
      requires Valid() && src.dropped == 0 && recv != [] && recv[|recv| - 1].upgrade
      modifies this`upgrade
      ensures Valid() && upgrade
    {
      hide CloseCause, HeadBroken, Dec.Decoder.Valid, WB.WriteBuf.Valid, Src.Source.Valid, Recorded, Wire, Consumed, GoodParser, HistoryOk;
      upgrade := true;
    }

    /** `wants_read_again`: whether reading paused before blocking; asking clears it. */
    method WantsReadAgain() returns (r: bool)
      requires Valid()
      modifies this`notifyRead
      ensures Valid() && r == old(notifyRead) && !notifyRead
    {
      hide CloseCause, HeadBroken, Dec.Decoder.Valid, WB.WriteBuf.Valid, Src.Source.Valid, Recorded, Wire, Consumed, GoodParser, HistoryOk;
      r := notifyRead;
      notifyRead := false;
    }

    /** `pending_upgrade`: every byte received was consumed by the parser or the decoder, or is still buffered. */
    method TakeUpgrade() returns (r: bool)
      requires Valid()
      modifies this`upgrade
      ensures Valid() && r == old(upgrade) && !upgrade
      ensures r ==> src.dropped == 0 && src.received == src.taken + src.buf && recv != [] && recv[|recv| - 1].upgrade
    {
      hide CloseCause, HeadBroken, Dec.Decoder.Valid, WB.WriteBuf.Valid, Recorded, Wire, Consumed, GoodParser, HistoryOk;
      r := upgrade;
      upgrade := false;
    }

    // ---- reading while nothing is expected ---------------------------------

    method ForceIoRead() returns (r: Poll<Result<nat, Error>>)
      requires Valid() && !reading.Body? && !reading.Closed?
      modifies src`buf, src`script, src`eof, src`failed, src`readBlocked, src`strategy, src`received, this`reading, this`writing, this`keepAlive
      ensures Worse()
      ensures Valid() && Absorbing() && old(src.received) <= src.received
      ensures src.Left() <= old(src.Left())
      ensures r.Pending? || r.value.Ok? ==> reading == old(reading) && writing == old(writing) && keepAlive == old(keepAlive)
      ensures r.Ready? && r.value.Err? ==> r == Ready(Err(IoFailed)) && reading.Closed? && writing.Closed? && src.failed
      ensures r.Pending? ==> src.readBlocked && src.buf == old(src.buf)
      ensures r == Ready(Ok(0)) ==> src.eof && src.buf == old(src.buf)
      ensures r.Ready? && r.value.Ok? ==> |src.buf| == |old(src.buf)| + r.value.value
    {
      hide Conn.Base, HeadBroken, Recorded, Consumed, GoodParser, Src.Upcoming, Src.TerminalOf, Src.Weight;
      var p := PollReadIo();
      match p
      case Pending => r := Pending;
      case Ready(Ok(n)) => r := Ready(Ok(n));
      case Ready(Err(_)) =>
        Close();
        r := Ready(Err(IoFailed));
    }

    /** On an idle connection what is buffered has not been asked for. */
    lemma IdleBytes()
      requires Valid()
      ensures reading.Init? && writing.Init? && src.buf != [] ==> |src.received| > |Consumed(recv)|
    {
      hide CloseCause, HeadBroken, Dec.Decoder.Valid, WB.WriteBuf.Valid, Wire, Consumed, GoodParser, Enc.Complete, Enc.Partial, HeadBroken, HistoryOk, Alternate,
           AllFramed, AllMeant, SeenOk;
    }

    /** `poll_read_keep_alive` with its two branches, `require_empty_read` and `mid_message_detect_eof`. */
    method PollReadKeepAlive() returns (r: Poll<Result<(), Error>>)
      requires Valid() && !CanReadHead() && !CanReadBody()
      modifies src`buf, src`script, src`eof, src`failed, src`readBlocked, src`strategy, src`received, this`reading, this`writing, this`keepAlive
      ensures Worse()
      ensures Valid() && Absorbing() && old(src.received) <= src.received
      ensures src.Left() <= old(src.Left())
      ensures reading == old(reading) || reading.Closed?
      ensures writing == old(writing) || writing.Closed?
      ensures old(reading).Init? && old(writing).Init? && old(src.buf) != [] ==> r == Ready(Err(UnexpectedMessage))
      ensures old(reading).Init? && old(writing).Init? && r == Ready(Ok(())) ==>
                src.buf == [] && reading.Closed? && old(keepAlive).Idle?
      ensures r == Ready(Err(Incomplete)) ==> reading.Closed? && src.buf == [] && src.eof
      ensures r == Ready(Err(UnexpectedMessage)) ==>
                && reading == old(reading) && writing == old(writing)
                && old(reading).Init? && old(writing).Init? && |src.received| > |Consumed(recv)|
      ensures r.Ready? && r.value.Err? ==> r.value.error in {Incomplete, UnexpectedMessage} || (r.value.error.IoFailed? && src.failed)
      ensures r.Pending? ==> reading == old(reading) && writing == old(writing)
      ensures r.Pending? ==> reading.Closed? || src.readBlocked || (src.buf != [] && !(reading.Init? && writing.Init?))
      ensures quit == old(quit)
    {
      hide Conn.Base, HeadBroken, Recorded, Consumed, GoodParser, Src.Upcoming, Src.TerminalOf, Src.Weight;
      if reading.Closed? { return Pending; }
      IdleBytes();
      var midMessage := !(reading.Init? && writing.Init?);
      if midMessage {
        if src.buf != [] { return Pending; }
        var p := ForceIoRead();
        match p
        case Pending => return Pending;
        case Ready(Err(e)) => return Ready(Err(e));
        case Ready(Ok(n)) =>
          if n != 0 { return Ready(Ok(())); }
          ClosingRecorded();
          StopReading();
          return Ready(Err(Incomplete));
      } else {
        if src.buf != [] { return Ready(Err(UnexpectedMessage)); }
        var p := ForceIoRead();
        match p
        case Pending => return Pending;
        case Ready(Err(e)) => return Ready(Err(e));
        case Ready(Ok(n)) =>
          IdleBytes();
          if n != 0 { return Ready(Err(UnexpectedMessage)); }
          var wasIdle := keepAlive.Idle?;
          ClosingRecorded();
          StopReading();
          return if wasIdle then Ready(Ok(())) else Ready(Err(Incomplete));
      }
    }

    // ---- writing -----------------------------------------------------------

    predicate CanWriteHead()
      reads this, wbuf, wbuf.queue
    {
      !reading.Closed? && writing.Init? && wbuf.CanHeadersBuf()
    }

    predicate CanWriteBody()
      reads this
    {
      writing.Body?
    }

    /**
     `enforce_version` with `fix_keep_alive`: to an HTTP/1.0 peer a request either asks for
     reuse or gives it up; to an HTTP/1.1 peer a request that will not be followed says so.
     */
    method EnforceVersion(head: RequestHead) returns (after: RequestHead)
      modifies this`keepAlive
      ensures after == Adapted(version, head).(headers := Adapted(version, head).headers.(connection := after.headers.connection))
      ensures !old(keepAlive).Disabled? ==>
                SpokenTo(version, head, after.version, after.headers.connection, !keepAlive.Disabled?)
      ensures keepAlive == old(keepAlive) || keepAlive.Disabled?
      ensures version == Http11 && keepAlive.Disabled? ==> after.headers.connection == [HV.CLOSE]
    {
      after := head;
      if version == Http10 {
        var wantsKeepAlive := head.headers.connection != []
                              && HV.ConnectionHas(head.headers.connection[0], HV.KEEP_ALIVE);
        if !wantsKeepAlive {
          if head.version == Http10 {
            keepAlive := Disabled;
          } else if head.version == Http11 && !keepAlive.Disabled? {
            HV.KeepAliveHasItself();
            after := head.(headers := head.headers.(connection := [HV.KEEP_ALIVE]));
          }
        }
        after := after.(version := Http10);
      } else if version == Http11 && keepAlive.Disabled? {
        after := head.(headers := head.headers.(connection := [HV.CLOSE]));
      }
    }

    /** What is done when a further head may be written. */
    lemma ReadyForHead()
      requires Valid() && CanWriteHead()
      ensures reading.Init? && |sent| == |recv| && src.received == src.taken + src.buf && src.taken == Consumed(recv)
      ensures forall i :: 0 <= i < |sent| ==> Enc.Complete(sent[i].body)
      ensures forall i :: 0 <= i < |recv| ==> Reusable(recv[i])
      ensures !keepAlive.Disabled? && version == PeerVersion(recv)
    {
      hide CloseCause, HeadBroken, Dec.Decoder.Valid, WB.WriteBuf.Valid, Consumed, Wire, GoodParser, Enc.Complete, Enc.Partial;
      NextHeadIsSafe(reading, writing, keepAlive, encoder.kind, sent, recv);
    }

    lemma StillOn()
      requires Valid() && !reading.Closed?
      ensures !quit
    {
      hide CloseCause, HeadBroken, Dec.Decoder.Valid, WB.WriteBuf.Valid, Src.Source.Valid, Recorded, HistoryOk, Wire, Consumed, GoodParser;
    }

    /** The first half of `encode_head`: no longer idle, adapted to the peer, framing decided. */
    method DecideFraming(head: RequestHead, body: Option<BodyLength>) returns (kind: Enc.Kind, headers: Headers, spoken: Version)
      requires body.Some? && body.value.Known? ==> body.value.len < TWO_64
      modifies this`keepAlive, this`method_
      ensures !keepAlive.Idle? && (old(keepAlive).Disabled? ==> keepAlive.Disabled?)
      ensures body.None? ==> kind == Enc.Length(0)
      ensures method_ == Some(head.method_)
      ensures Agrees(headers, kind) <==> FramingIsSound(head.(version := spoken), body)
      ensures FramingChosen(head.(version := spoken), body, headers, kind)
      ensures !old(keepAlive).Disabled? ==> SpokenTo(version, head, spoken, headers.connection, !keepAlive.Disabled?)
    {
      hide FramingIsSound, Agrees, FramingChosen, SpokenTo;
      SetBusy();
      var adapted := EnforceVersion(head);
      spoken := adapted.version;
      method_ := Some(adapted.method_);
      headers, kind := SetLength(adapted, body);
      SoundForAnyConnection(adapted, head.(version := spoken), body, headers, kind);
    }

    /**
     `write_head` with `encode_head`: the framing is what `set_length` decides. At that point
     every earlier request is complete, answered by one complete response that allowed reuse,
     and exactly the bytes of those responses have been consumed.
     */
    method WriteHead(req: Request, body: Option<BodyLength>)
      requires Valid() && CanWriteHead()
      requires body.Some? && body.value.Known? ==> body.value.len < TWO_64
      modifies this`writing, this`keepAlive, this`method_, this`sent, wbuf`headBytes, wbuf`buffered, encoder
      ensures Valid() && (old(keepAlive).Disabled? ==> keepAlive.Disabled?)
      ensures |sent| == |old(sent)| + 1 && sent[..|old(sent)|] == old(sent)
      ensures !writing.Init? && (body.None? ==> writing.KeepAlive?)
      ensures var s := sent[|old(sent)|];
              && s.id == req.id && s.user == req.head && s.length == body && s.head == req.render(s.version, s.headers)
              && s.answered == |recv| && s.after == src.taken
              && s.body.offered == [] && !s.body.ending.EndedWith? && (s.body.framing.Chunked? ==> s.body.ending.Open?)
      ensures Framed(sent[|old(sent)|]) && Spoken(PeerVersion(recv), sent[|old(sent)|])
      ensures forall i :: 0 <= i < |old(sent)| ==> Enc.Complete(old(sent)[i].body)
      ensures |recv| == |old(sent)| && src.taken == Consumed(recv) && forall i :: 0 <= i < |recv| ==> Reusable(recv[i])
    {
      hide FramingChosen, SpokenTo, HV.ConnectionHas, PeerVersion, Reusable, CloseCause, HeadBroken, Dec.Decoder.Valid, WB.WriteBuf.Valid, Src.Source.Valid, Recorded, Wire, Consumed, GoodParser, Enc.Complete, Enc.Partial, HistoryOk, Agrees,
           FramingIsSound;
      ReadyForHead();
      ghost var kaBefore, encBefore, reqBefore := keepAlive, encoder.kind, method_;
      var kind, headers, spoken := DecideFraming(req.head, body);
      var head := req.render(spoken, headers);
      wbuf.WriteHead(head);
      encoder.Reset(kind);
      var empty := encoder.IsEof();
      var s := SentRequest(req.id, req.head, body, spoken, headers, !keepAlive.Disabled?, head,
                           Enc.Sent(kind, [], [], if empty then Enc.Ended else Enc.Open), |recv|, src.taken);
      NoteRequest(s, if !empty then Writing.Body else if encoder.isLast then Writing.Closed else Writing.KeepAlive,
                  kaBefore, encBefore, reqBefore);
    }

    /** Record a request whose head has been buffered. */
    method NoteRequest(s: SentRequest, next: Writing, ghost kaBefore: KA, ghost encBefore: Enc.Kind, ghost reqBefore: Option<Method>)
      requires Parts() && reading.Init? && writing.Init? && !keepAlive.Idle? && |sent| == |recv|
      requires HistoryOk(reading, writing, kaBefore, encBefore, sent, recv) && wbuf.buffered == Wire(sent) + s.head
      requires Recorded(config, reading, writing, sent, recv, reqBefore, src.received, src.taken, src.buf, src.eof)
      requires src.received == src.taken + src.buf && method_ == Some(s.user.method_)
      requires Framed(s) && s.answered == |recv| && s.after == src.taken && Spoken(PeerVersion(recv), s)
      requires !kaBefore.Disabled? && s.reuse == !keepAlive.Disabled?
      requires s.body == Enc.Sent(encoder.kind, [], [], if encoder.kind == Enc.Length(0) then Enc.Ended else Enc.Open)
      requires next == if encoder.kind == Enc.Length(0) then Writing.KeepAlive else Writing.Body
      modifies this`writing, this`sent
      ensures Valid() && sent == old(sent) + [s] && writing == next
    {
      hide CloseCause, HeadBroken, Dec.Decoder.Valid, WB.WriteBuf.Valid, Src.Source.Valid, Recorded, Wire, Consumed, GoodParser, Enc.Complete, Enc.Partial, HistoryOk, Framed;
      FreshBody(encoder.kind, s.body);
      HeadWritten(kaBefore, encBefore, sent, recv, s, next, keepAlive, encoder.kind);
      HeadSent(config, sent, recv, reqBefore, src.received, src.taken, src.buf, src.eof, s, next);
      WireAppendHead(sent, s);
      sent := sent + [s];
      writing := next;
    }

    /** Buffer `buf` for the last request, whose record becomes `body`. */
    method BufferBody(buf: ByteSeq, body: Enc.Sent, next: Writing, ghost encBefore: Enc.Kind)
      requires Base(encBefore) && RecordedAs(reading) && (reading.Closed? ==> ClosedFor(writing, quit)) && wbuf.CanBuffer()
      requires writing.Body? && buf != [] && sent != []
      requires body.body == sent[|sent| - 1].body.body + buf && body.framing == sent[|sent| - 1].body.framing
      requires (next.Closed? && !Enc.Complete(body)) || (next.KeepAlive? && Enc.Complete(body)) || (next.Body? && Enc.Partial(body, encoder.kind))
      modifies this`writing, this`sent, wbuf`headBytes, wbuf`headPos, wbuf`buffered, wbuf.queue
      ensures Valid() && writing == next
      ensures sent == old(sent)[|old(sent)| - 1 := old(sent)[|old(sent)| - 1].(body := body)]
    {
      hide CloseCause, HeadBroken, Dec.Decoder.Valid, WB.WriteBuf.Valid, Src.Source.Valid, Recorded, Wire, Consumed, GoodParser, Enc.Complete,
           Enc.Partial, PeerVersion, HistoryOk, WB.WriteBuf.Pending;
      var roomy: bool := *;
      wbuf.Buffer(buf, roomy);
      NoteBody(buf, body, next, encBefore);
    }

    /** Record what has been buffered for the last request. */
    method NoteBody(buf: ByteSeq, body: Enc.Sent, next: Writing, ghost encBefore: Enc.Kind)
      requires Parts() && HistoryOk(reading, writing, keepAlive, encBefore, sent, recv) && (reading.Body? ==> BodyInProgress())
      requires RecordedAs(reading) && (reading.Closed? ==> ClosedFor(writing, quit))
      requires writing.Body? && sent != [] && wbuf.buffered == Wire(sent) + buf
      requires body.body == sent[|sent| - 1].body.body + buf && body.framing == sent[|sent| - 1].body.framing
      requires (next.Closed? && !Enc.Complete(body)) || (next.KeepAlive? && Enc.Complete(body)) || (next.Body? && Enc.Partial(body, encoder.kind))
      modifies this`writing, this`sent
      ensures Valid() && writing == next
      ensures sent == old(sent)[|old(sent)| - 1 := old(sent)[|old(sent)| - 1].(body := body)]
    {
      hide CloseCause, HeadBroken, Dec.Decoder.Valid, WB.WriteBuf.Valid, Src.Source.Valid, Recorded, Wire, Consumed, GoodParser, Enc.Complete,
           Enc.Partial, PeerVersion, HistoryOk;
      BodyWritten(reading, keepAlive, encBefore, sent, recv, body, next, encoder.kind);
      BodySent(config, reading, writing, sent, recv, method_, src.received, src.taken, src.buf, src.eof, body, next);
      StillCaused(writing, sent, recv, src.eof, src.failed, badHead.Some?, quit, body, next);
      WireAppendBody(sent, body, buf);
      sent := sent[|sent| - 1 := sent[|sent| - 1].(body := body)];
      writing := next;
    }

    /** Only the body of the last request moves on, within its framing. */
    twostate predicate LastBodyMoved()
      reads this
    {
      && |sent| == old(|sent|) > 0 && sent[..|sent| - 1] == old(sent)[..|sent| - 1]
      && sent[|sent| - 1] == old(sent)[|sent| - 1].(body := sent[|sent| - 1].body)
      && sent[|sent| - 1].body.framing == old(sent)[|sent| - 1].body.framing && old(sent)[|sent| - 1].body.ending.Open?
    }

    ghost function LastBody(): Enc.Sent
      requires sent != []
      reads this
    {
      sent[|sent| - 1].body
    }

    lemma WritingBody()
      requires Valid() && writing.Body?
      ensures sent != [] && Enc.Partial(sent[|sent| - 1].body, encoder.kind)
      ensures sent[|sent| - 1].body.ending.Open? && !Enc.Complete(sent[|sent| - 1].body)
      ensures sent[|sent| - 1].body.framing.Chunked? || encoder.kind.Chunked? ==> encoder.kind == sent[|sent| - 1].body.framing
    {
      hide CloseCause, HeadBroken, Dec.Decoder.Valid, WB.WriteBuf.Valid, Src.Source.Valid, Recorded, Wire, Consumed, GoodParser, RecvOk, Enc.Complete, Enc.ChunksBytes, Flatten;
      OpenIsIncomplete(sent[|sent| - 1].body);
    }

    /** `write_body`. */
    method WriteBody(chunk: ByteSeq)
      requires Valid() && CanWriteBody() && wbuf.CanBuffer() && 0 < |chunk| < TWO_64
      modifies this`writing, this`sent, wbuf`headBytes, wbuf`headPos, wbuf`buffered, wbuf.queue, encoder
      ensures Valid() && LastBodyMoved() && (writing.Body? || writing.KeepAlive?)
      ensures LastBody().offered == old(LastBody()).offered + [chunk]
      ensures !LastBody().ending.EndedWith? && (LastBody().framing.Chunked? ==> LastBody().ending.Open?)
    {
      hide CloseCause, HeadBroken, Dec.Decoder.Valid, Src.Source.Valid, WB.WriteBuf.Valid, Recorded, Wire, Consumed, GoodParser, HistoryOk, Enc.Complete, Enc.Partial, Enc.ChunkBytes, Enc.EndBytes;
      WritingBody();
      var was, before := sent[|sent| - 1].body, encoder.kind;
      OfferAny(was, before, chunk);
      var buf := encoder.Encode(chunk);
      var done := encoder.IsEof();
      var now := Enc.Offer(was, chunk, buf);
      BufferBody(buf, if done then now.(ending := Enc.Ended) else now,
                 if !done then Writing.Body else if encoder.isLast then Writing.Closed else Writing.KeepAlive, before);
    }

    /** `write_body_and_end`: a body that is too short leaves writing closed. */
    method WriteBodyAndEnd(chunk: ByteSeq)
      requires Valid() && CanWriteBody() && wbuf.CanBuffer() && 0 < |chunk| < TWO_64
      modifies this`writing, this`sent, wbuf`headBytes, wbuf`headPos, wbuf`buffered, wbuf.queue
      ensures Valid() && LastBodyMoved() && (writing.KeepAlive? || writing.Closed?)
      ensures LastBody().offered == old(LastBody()).offered + [chunk] && !LastBody().ending.EndedWith?
      ensures writing.Closed? <==> encoder.kind.Length? && |chunk| < encoder.kind.remaining
    {
      hide CloseCause, HeadBroken, Dec.Decoder.Valid, Src.Source.Valid, WB.WriteBuf.Valid, Recorded, Wire, Consumed, GoodParser, HistoryOk, Enc.Complete, Enc.Partial, Enc.ChunkBytes, Enc.EndBytes;
      WritingBody();
      var was := sent[|sent| - 1].body;
      OfferLast(was, encoder.kind, chunk);
      var buf, canKeepAlive := encoder.EncodeAndEnd(chunk);
      var now := Enc.Offer(was, chunk, buf);
      OpenIsIncomplete(now);
      BufferBody(buf, if canKeepAlive then now.(ending := Enc.Ended) else now,
                 if canKeepAlive then Writing.KeepAlive else Writing.Closed, encoder.kind);
    }

    /** `write_trailers`: dropped, leaving the body open, if there is nothing allowed to send. */
    method WriteTrailers(trailers: seq<Enc.Field>)
      requires Valid() && CanWriteBody() && wbuf.CanBuffer() && Enc.FieldsOk(trailers)
      modifies this`writing, this`sent, wbuf`headBytes, wbuf`headPos, wbuf`buffered, wbuf.queue
      ensures Valid() && LastBodyMoved() && (writing.Body? || writing.KeepAlive?)
      ensures LastBody().offered == old(LastBody()).offered
      ensures if writing.Body? then sent == old(sent) && Enc.Keeps(trailers, Enc.Announced(LastBody().framing), [])
              else LastBody().ending.EndedWith?
                   && Enc.Keeps(trailers, Enc.Announced(LastBody().framing), LastBody().ending.fields)
    {
      hide CloseCause, HeadBroken, Dec.Decoder.Valid, Src.Source.Valid, WB.WriteBuf.Valid, Recorded, Wire, Consumed, GoodParser, HistoryOk, Enc.Complete, Enc.Partial, Enc.ChunkBytes, Enc.EndBytes, Enc.Keeps;
      WritingBody();
      var was := sent[|sent| - 1].body;
      var buf, fields := encoder.EncodeTrailers(trailers);
      if buf.Some? {
        EndAny(was, encoder.kind, fields);
        BufferBody(buf.value, was.(body := was.body + buf.value, ending := Enc.EndedWith(fields)),
                   if encoder.isLast then Writing.Closed else Writing.KeepAlive, encoder.kind);
      }
    }

    /** `end_body`: the terminal chunk, or an error and closed writing if bytes are missing. */
    method EndBody() returns (r: Result<(), Error>)
      requires Valid() && CanWriteBody() && wbuf.CanBuffer()
      modifies this`writing, this`sent, wbuf`headBytes, wbuf`headPos, wbuf`buffered, wbuf.queue
      ensures Valid() && LastBodyMoved()
      ensures LastBody().offered == old(LastBody()).offered && !LastBody().ending.EndedWith?
      ensures r.Ok? ==> writing.KeepAlive?
      ensures r.Err? ==> writing.Closed? && encoder.kind.Length?
      ensures r.Err? ==>
                sent == old(sent) && LastBody().framing.Length? && |Flatten(LastBody().offered)| < LastBody().framing.remaining
    {
      hide HeadBroken, Dec.Decoder.Valid, Src.Source.Valid, WB.WriteBuf.Valid, Recorded, Wire, Consumed, GoodParser, HistoryOk, Enc.Complete, Enc.EndBytes;
      WritingBody();
      var was := sent[|sent| - 1].body;
      var end := encoder.End();
      assert end != Ok(None);
      match end
      case Ok(Some(buf)) =>
        EndAny(was, encoder.kind, []);
        BufferBody(buf, was.(body := was.body + buf, ending := Enc.Ended),
                   if encoder.isLast then Writing.Closed else Writing.KeepAlive, encoder.kind);
        return Ok(());
      case Err(_) =>
        ShortBody(was, encoder.kind);
        BodyWritten(reading, keepAlive, encoder.kind, sent, recv, was, Writing.Closed, encoder.kind);
        BodySent(config, reading, writing, sent, recv, method_, src.received, src.taken, src.buf, src.eof, was, Writing.Closed);
        assert sent[|sent| - 1 := sent[|sent| - 1].(body := was)] == sent;
        writing := Writing.Closed;
        return Err(BodyWriteAborted);
    }

    /** `poll_flush`: once everything is out, see whether the connection has become idle. */
    method PollFlush() returns (r: Poll<Result<(), Error>>)
      requires Valid()
      modifies this, wbuf, wbuf.queue, src`buf, src`script, src`eof, src`failed, src`readBlocked, src`strategy, src`received
      ensures Worse()
      ensures Valid() && Absorbing() && sent == old(sent) && recv == old(recv) && upgrade == old(upgrade)
      ensures old(src.received) <= src.received && src.Left() <= old(src.Left())
      ensures reading == old(reading) || reading.Closed? || (old(reading).KeepAlive? && reading.Init? && writing.Init?)
      ensures writing == old(writing) || writing.Closed? || (old(reading).KeepAlive? && writing.Init?)
      ensures r.Ready? && r.value.Ok? ==> wbuf.accepted == wbuf.buffered && wbuf.CanBuffer()
      ensures r.Ready? && r.value.Err? ==> r.value.error.BodyWrite? && wbuf.broken
      ensures r.Pending? ==> wbuf.Blocked()
      ensures old(CanReadHead()) && reading.Closed? && !old(reading).Closed? ==> src.eof || src.failed
      ensures quit == old(quit) && (old(wbuf.broken) ==> wbuf.broken)
      ensures old(reading).Body? ==> reading.Body?
      ensures old(wbuf.accepted) <= wbuf.accepted
    {
      hide CloseCause, Conn.Base, HeadBroken, Recorded, Consumed;
      var p := FlushOut();
      match p
      case Pending => r := Pending;
      case Ready(Err(_)) => r := Ready(Err(BodyWrite));
      case Ready(Ok(_)) =>
        TryKeepAlive();
        r := Ready(Ok(()));
    }

    method FlushOut() returns (r: Poll<Result<(), WB.WriteError>>)
      requires Valid()
      modifies wbuf, wbuf.queue
      ensures Valid() && old(wbuf.accepted) <= wbuf.accepted && (old(wbuf.broken) ==> wbuf.broken)
      ensures r.Ready? && r.value.Ok? ==> wbuf.accepted == wbuf.buffered && wbuf.CanBuffer()
      ensures r.Ready? && r.value.Err? ==> wbuf.broken
      ensures r.Pending? ==> wbuf.Blocked()
    {
      hide CloseCause, HeadBroken, Dec.Decoder.Valid, Src.Source.Valid, Recorded, Wire, Consumed, GoodParser, Enc.Complete, Enc.Partial, HistoryOk,
           PeerVersion, WB.WriteBuf.Pending, WB.Total, WB.WriteBuf.Valid;
      r := wbuf.PollFlush();
    }
  }

  lemma SoundForAnyConnection(a: RequestHead, b: RequestHead, body: Option<BodyLength>, after: Headers, kind: Enc.Kind)
    requires a == b.(headers := b.headers.(connection := a.headers.connection))
    ensures FramingIsSound(a, body) <==> FramingIsSound(b, body)
    ensures FramingChosen(a, body, after, kind) <==> FramingChosen(b, body, after, kind)
  {
  }

  // ---- encoder records -----------------------------------------------------

  lemma FreshBody(kind: Enc.Kind, body: Enc.Sent)
    requires body == Enc.Sent(kind, [], [], if kind == Enc.Length(0) then Enc.Ended else Enc.Open)
    ensures if kind == Enc.Length(0) then Enc.Complete(body) else Enc.Partial(body, kind)
  {
  }

  /** A body moving on takes no cause away. */
  lemma StillCaused(writing: Writing, sent: seq<SentRequest>, recv: seq<Response>, eof: bool, failed: bool, bad: bool, quit: bool,
                    body: Enc.Sent, next: Writing)
    requires sent != [] && writing.Body?
    ensures CloseCause(writing, sent, recv, eof, failed, bad, quit) ==>
              CloseCause(next, sent[|sent| - 1 := sent[|sent| - 1].(body := body)], recv, eof, failed, bad, quit)
  {
  }

  lemma ShortBody(s: Enc.Sent, k: Enc.Kind)
    requires Enc.Partial(s, k) && k.Length?
    ensures s.framing.Length? && |Flatten(s.offered)| < s.framing.remaining
  {
  }

  lemma OpenIsIncomplete(s: Enc.Sent)
    ensures s.ending.Open? ==> !Enc.Complete(s)
  {
  }

  lemma OfferAny(s: Enc.Sent, k: Enc.Kind, msg: ByteSeq)
    requires Enc.Partial(s, k) && 0 < |msg| < TWO_64
    ensures k.Chunked? ==> Enc.ChunkBytes(msg) != [] && Enc.Partial(Enc.Offer(s, msg, Enc.ChunkBytes(msg)), k)
    ensures k.Length? ==>
              var n := Min(|msg|, k.remaining); var o := Enc.Offer(s, msg, msg[..n]);
              msg[..n] != []
              && if n == k.remaining then Enc.Complete(o.(ending := Enc.Ended)) else Enc.Partial(o, Enc.Length(k.remaining - n))
  {
    if k.Chunked? { Enc.OfferChunk(s, k, msg); } else { Enc.OfferLength(s, k, msg); }
  }

  lemma OfferLast(s: Enc.Sent, k: Enc.Kind, msg: ByteSeq)
    requires Enc.Partial(s, k) && 0 < |msg| < TWO_64
    ensures k.Chunked? ==>
              var buf := Enc.ChunkBytes(msg) + Enc.EndBytes([]);
              buf != [] && Enc.Complete(Enc.Offer(s, msg, buf).(ending := Enc.Ended))
    ensures k.Length? ==>
              var buf := msg[..Min(|msg|, k.remaining)];
              buf != [] && (|msg| >= k.remaining ==> Enc.Complete(Enc.Offer(s, msg, buf).(ending := Enc.Ended)))
  {
    if k.Chunked? {
      Enc.OfferChunk(s, k, msg);
      var o := Enc.Offer(s, msg, Enc.ChunkBytes(msg));
      Enc.EndChunked(o, k, []);
      assert o.body + Enc.EndBytes([]) == s.body + (Enc.ChunkBytes(msg) + Enc.EndBytes([]));
    } else {
      Enc.OfferLength(s, k, msg);
    }
  }

  lemma EndAny(s: Enc.Sent, k: Enc.Kind, fields: seq<Enc.Field>)
    requires Enc.Partial(s, k) && k.Chunked? && Enc.FieldsOk(fields)
    ensures Enc.EndBytes(fields) != []
    ensures Enc.Complete(s.(body := s.body + Enc.EndBytes(fields),
                            ending := if fields == [] then Enc.Ended else Enc.EndedWith(fields)))
  {
    Enc.EndChunked(s, k, fields);
  }
}
