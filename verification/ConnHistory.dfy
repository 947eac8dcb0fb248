/**
 The states of an HTTP/1 connection, the record of what it has written and read, and the
 invariant between the two, with what that invariant means for whole runs.
 */
module ConnHistory {
  import opened Bytes
  import opened Framing
  import opened ResponseHeads
  import ChunkedMachine
  import Dec = Decoder
  import Enc = Encoder
  import HV = HeaderValues
  import Src = Source

  datatype Reading = Init | Body | KeepAlive | Closed
  datatype Writing = Init | Body | KeepAlive | Closed
  datatype KA = Idle | Busy | Disabled

  /**
   A request written: the head and body length as given, the version and framing fields it was
   sent with and whether it left the connection open to reuse, the bytes of its head, its body so
   far; and what had been read by then: how many final responses, and which bytes had been
   consumed.
   */
  datatype SentRequest = SentRequest(
    id: nat,
    user: RequestHead,
    length: Option<BodyLength>,
    version: Version,
    headers: Headers,
    reuse: bool,
    head: ByteSeq,
    body: Enc.Sent,
    answered: nat,
    after: ByteSeq)

  /**
   A final response read. `keepAlive` is false if it forbids reuse or upgrades; `method_` is
   that of the request it answers and `asked` how many had been written. `head` are the bytes
   consumed up to the end of its head, informational heads included, and `seen` everything
   received when it was parsed. `wire` are the body bytes consumed so far, `terminal` how
   reading them stopped, `data` and `verdict` what the decoder made of them.
   */
  datatype Response = Response(
    kind: BodyKind,
    keepAlive: bool,
    upgrade: bool,
    version: Version,
    method_: Method,
    asked: nat,
    head: ByteSeq,
    seen: ByteSeq,
    wire: ByteSeq,
    terminal: Src.Terminal,
    data: ByteSeq,
    verdict: Dec.Verdict)
  {
    predicate Complete() {
      verdict.Complete?
    }

    function Trailers(): Option<Dec.Headers> {
      if verdict.Complete? then verdict.trailers else None
    }

    function Msg(): Message {
      Message(kind, keepAlive, upgrade, version)
    }
  }

  /** The limits and foreign parsers of a connection; HTTP/0.9 is only taken for the first response. */
  datatype Config = Config(
    limits: ChunkedMachine.Limits,
    trailerParser: Dec.TrailerParser,
    lenient: HeadParser,
    strict: HeadParser)

  ghost predicate GoodConfig(cfg: Config) {
    GoodParser(cfg.lenient) && GoodParser(cfg.strict)
  }

  function ParserAt(cfg: Config, i: nat): HeadParser {
    if i == 0 then cfg.lenient else cfg.strict
  }

  /** The decoder made for a response body. */
  function Origin(k: BodyKind): Dec.Kind {
    match k
    case CloseDelimited => Dec.Eof(false)
    case Chunks => Dec.Chunked(ChunkedMachine.INITIAL)
    case Exact(n) => Dec.Length(n)
  }

  // ---- the bytes of both directions ----------------------------------------

  /** Everything buffered for the requests, in order: head, then body. */
  function Wire(sent: seq<SentRequest>): ByteSeq {
    if sent == [] then []
    else Wire(sent[..|sent| - 1]) + sent[|sent| - 1].head + sent[|sent| - 1].body.body
  }

  /** Everything consumed for the responses, in order: head, then body. */
  function Consumed(recv: seq<Response>): ByteSeq {
    if recv == [] then []
    else Consumed(recv[..|recv| - 1]) + recv[|recv| - 1].head + recv[|recv| - 1].wire
  }

  /** A head parsed at `at` is what the parser finds there in everything received by then. */
  ghost predicate HeadMeaning(p: HeadParser, at: nat, r: Response)
    requires GoodParser(p)
  {
    && at + |r.head| <= |r.seen| && r.seen[at..at + |r.head|] == r.head
    && (Stable(p) ==> Parses(p, Some(r.method_), r.seen[at..], Found(r.Msg(), r.seen[at + |r.head|..])))
  }

  /** A response body: the bytes consumed for it decode, under its framing, to its data and verdict. */
  predicate BodyMeaning(lim: ChunkedMachine.Limits, tp: Dec.TrailerParser, r: Response) {
    Dec.Decoded(lim, tp, Origin(r.kind), r.wire, r.terminal) == Dec.Outcome(r.data, |r.wire|, r.verdict)
  }

  ghost predicate AllMeant(cfg: Config, recv: seq<Response>)
    requires GoodConfig(cfg)
  {
    forall i :: 0 <= i < |recv| ==> Meant(cfg, recv, i)
  }

  ghost predicate Meant(cfg: Config, recv: seq<Response>, i: nat)
    requires GoodConfig(cfg) && i < |recv|
  {
    && HeadMeaning(ParserAt(cfg, i), |Consumed(recv[..i])|, recv[i])
    && BodyMeaning(cfg.limits, cfg.trailerParser, recv[i])
  }

  /** What had been received when a head was parsed came first; after an end of file came nothing. */
  predicate SeenOk(recv: seq<Response>, received: ByteSeq, eof: bool) {
    && (forall i :: 0 <= i < |recv| ==> recv[i].seen <= received)
    && (forall i :: 0 <= i < |recv| && recv[i].terminal.AtEof? ==>
          eof && i == |recv| - 1 && Consumed(recv) == received)
  }

  /** Every byte taken belongs to a response, except while waiting for a head or after reading has closed. */
  predicate TakenOk(reading: Reading, writing: Writing, recv: seq<Response>, received: ByteSeq, taken: ByteSeq) {
    && Consumed(recv) <= taken <= received
    && (reading.Body? || reading.KeepAlive? || (reading.Init? && writing.Init?) ==> taken == Consumed(recv))
  }

  /** Requests and responses alternate: each head is written when all before it have been read, and read when one more is written. */
  predicate Alternate(sent: seq<SentRequest>, recv: seq<Response>) {
    && |recv| <= |sent| <= |recv| + 1
    && (forall i :: 0 <= i < |sent| ==> sent[i].answered == i && sent[i].after == Consumed(recv[..i]))
    && (forall i :: 0 <= i < |recv| ==> recv[i].asked == i + 1 && recv[i].method_ == sent[i].user.method_)
    && (forall i :: 0 <= i < |sent| ==> Spoken(PeerVersion(recv[..i]), sent[i]))
  }

  /** The version the peer last spoke, taken to be HTTP/1.1 at first. */
  function PeerVersion(recv: seq<Response>): Version {
    if recv == [] then Http11 else recv[|recv| - 1].version
  }

  /**
   A peer that spoke HTTP/1.0 is spoken to in HTTP/1.0: a request in that version without a
   keep-alive option gives up reuse, one in HTTP/1.1 is made to ask for it. Any other peer gets
   version and Connection lines as they were given.
   */
  predicate SpokenTo(peer: Version, user: RequestHead, version: Version, said: seq<ByteSeq>, reuse: bool) {
    var given := user.headers.connection;
    var asks := given != [] && HV.ConnectionHas(given[0], HV.KEEP_ALIVE);
    && (peer != Http10 ==> version == user.version && reuse && said == given)
    && (peer == Http10 ==> version == Http10)
    && (peer == Http10 && user.version == Http10 ==> (reuse <==> asks) && said == given)
    && (peer == Http10 && user.version == Http11 ==> reuse && said != [] && HV.ConnectionHas(said[0], HV.KEEP_ALIVE))
    && (peer == Http10 && asks ==> reuse && said == given)
  }

  predicate Spoken(peer: Version, s: SentRequest) {
    SpokenTo(peer, s.user, s.version, s.headers.connection, s.reuse)
  }

  /** The fields sent agree with the framing used exactly when the head given allows it. */
  ghost predicate Framed(s: SentRequest) {
    && (Agrees(s.headers, s.body.framing) <==> FramingIsSound(s.user.(version := s.version), s.length))
    && FramingChosen(s.user.(version := s.version), s.length, s.headers, s.body.framing)
  }

  ghost predicate AllFramed(sent: seq<SentRequest>) {
    forall i :: 0 <= i < |sent| ==> Framed(sent[i])
  }

  /** While a head is awaited: it is for the last request, and what is buffered stands for all bytes since the last response. */
  ghost predicate Awaits(p: HeadParser, req: Option<Method>, sent: seq<SentRequest>, recv: seq<Response>, received: ByteSeq, buf: ByteSeq)
    requires GoodParser(p)
  {
    && sent != [] && req == Some(sent[|sent| - 1].user.method_) && |Consumed(recv)| <= |received|
    && (Stable(p) ==> Waits(p, req, received[|Consumed(recv)|..], buf))
  }

  /**
   What had been received when a head could not be had: it was as long as the buffer may get,
   or what a stable parser takes for nonsense.
   */
  ghost predicate HeadBroken(p: HeadParser, max: nat, req: Method, at: nat, received: ByteSeq, seen: ByteSeq)
    requires GoodParser(p)
  {
    && at <= |seen| && seen <= received
    && (|seen| - at >= max || (Stable(p) ==> Parses(p, Some(req), seen[at..], BadHead)))
  }

  /** What may have ended the reading: the transport, a bad head, the dispatcher, or the last exchange. */
  predicate CloseCause(writing: Writing, sent: seq<SentRequest>, recv: seq<Response>, eof: bool, failed: bool, bad: bool, quit: bool) {
    || eof || failed || bad || quit
    || (|sent| == |recv| && recv != []
        && var s, r := sent[|sent| - 1], recv[|recv| - 1];
           || r.verdict.Broken?
           || (r.Complete() && (!r.keepAlive || !s.reuse || (writing.Closed? && !Enc.Complete(s.body)))))
  }

  /** The record of a connection against the bytes it has received, taken and holds in its buffer. */
  ghost predicate Recorded(cfg: Config, reading: Reading, writing: Writing, sent: seq<SentRequest>, recv: seq<Response>,
                           req: Option<Method>, received: ByteSeq, taken: ByteSeq, buf: ByteSeq, eof: bool)
    requires GoodConfig(cfg)
  {
    && Alternate(sent, recv) && AllFramed(sent) && AllMeant(cfg, recv)
    && SeenOk(recv, received, eof) && TakenOk(reading, writing, recv, received, taken)
    && (reading.Init? && !writing.Init? ==> Awaits(ParserAt(cfg, |recv|), req, sent, recv, received, buf))
  }

  // ---- the states ----------------------------------------------------------

  /** Reuse is given up only with the last exchange, or for good with the reading; writing ends early only on a short body. */
  predicate ReuseOk(reading: Reading, writing: Writing, ka: KA, sent: seq<SentRequest>, recv: seq<Response>) {
    && (ka.Disabled? ==>
          reading.Closed? || (recv != [] && !recv[|recv| - 1].keepAlive) || (sent != [] && !sent[|sent| - 1].reuse))
    && (writing.Closed? && !reading.Closed? ==> sent != [] && !Enc.Complete(sent[|sent| - 1].body))
  }

  predicate StateOk(reading: Reading, writing: Writing, ka: KA) {
    && (ka.Idle? ==> reading.Init? && writing.Init?)
    && (writing.Init? ==> reading.Init? || reading.Closed?)
    && (writing.Init? && reading.Init? ==> !ka.Disabled?)
  }

  /** All but the last request are complete; the last one stands as `writing` says. */
  predicate SentOk(writing: Writing, enc: Enc.Kind, sent: seq<SentRequest>) {
    && (forall i :: 0 <= i < |sent| - 1 ==> Enc.Complete(sent[i].body))
    && match writing
       case Init => sent != [] ==> Enc.Complete(sent[|sent| - 1].body)
       case KeepAlive => sent != [] && Enc.Complete(sent[|sent| - 1].body)
       case Body => sent != [] && Enc.Partial(sent[|sent| - 1].body, enc)
       case Closed => true
  }

  predicate Reusable(r: Response) {
    r.Complete() && r.keepAlive && !r.upgrade
  }

  /** Responses answer requests one by one; the last one stands as `reading` says. */
  predicate RecvOk(reading: Reading, writing: Writing, ka: KA, requests: nat, recv: seq<Response>) {
    && |recv| <= requests <= |recv| + 1
    && (forall i :: 0 <= i < |recv| - 1 ==> Reusable(recv[i]))
    && (requests == |recv| + 1 && recv != [] ==> Reusable(recv[|recv| - 1]))
    && (recv != [] && !recv[|recv| - 1].keepAlive ==> ka.Disabled?)
    && (recv != [] && recv[|recv| - 1].upgrade ==> !recv[|recv| - 1].keepAlive)
    && match reading
       case Init =>
         if writing.Init? then requests == |recv| && (recv != [] ==> Reusable(recv[|recv| - 1]))
         else requests == |recv| + 1
       case Body => recv != [] && requests == |recv| && recv[|recv| - 1].verdict.Waiting?
       case KeepAlive => recv != [] && requests == |recv| && recv[|recv| - 1].Complete()
       case Closed => true
  }

  predicate HistoryOk(reading: Reading, writing: Writing, ka: KA, enc: Enc.Kind, sent: seq<SentRequest>, recv: seq<Response>) {
    StateOk(reading, writing, ka) && SentOk(writing, enc, sent) && RecvOk(reading, writing, ka, |sent|, recv)
    && ReuseOk(reading, writing, ka, sent, recv)
  }

  // ---- every transition keeps the states -----------------------------------

  /** `busy()` and then the flag of the response. */
  function AfterResponse(ka: KA, keepAlive: bool): KA {
    if ka.Disabled? || !keepAlive then Disabled else Busy
  }

  lemma ClosedHistory(reading: Reading, writing: Writing, ka: KA, enc: Enc.Kind, sent: seq<SentRequest>, recv: seq<Response>)
    requires HistoryOk(reading, writing, ka, enc, sent, recv)
    ensures HistoryOk(Reading.Closed, writing, Disabled, enc, sent, recv)
    ensures HistoryOk(Reading.Closed, Writing.Closed, Disabled, enc, sent, recv)
  {
    hide Enc.Complete, Enc.Partial;
  }

  lemma IdleHistory(enc: Enc.Kind, sent: seq<SentRequest>, recv: seq<Response>)
    requires HistoryOk(Reading.KeepAlive, Writing.KeepAlive, Busy, enc, sent, recv)
    ensures HistoryOk(Reading.Init, Writing.Init, Idle, enc, sent, recv)
  {
    hide Enc.Complete, Enc.Partial;
  }

  lemma HeadAccepted(writing: Writing, ka: KA, enc: Enc.Kind, sent: seq<SentRequest>, recv: seq<Response>, r: Response)
    requires HistoryOk(Reading.Init, writing, ka, enc, sent, recv) && !writing.Init?
    requires r.upgrade ==> !r.keepAlive
    requires r.Complete() || r.verdict.Waiting?
    ensures HistoryOk(if r.Complete() then Reading.KeepAlive else Reading.Body, writing,
                      AfterResponse(ka, r.keepAlive), enc, sent, recv + [r])
  {
    hide SentOk;
    var after := recv + [r];
    assert forall i :: 0 <= i < |recv| ==> after[i] == recv[i];
  }

  /** The last response moves on, its head unchanged. */
  predicate SameHead(r: Response, s: Response) {
    s == r.(wire := s.wire, terminal := s.terminal, data := s.data, verdict := s.verdict)
  }

  /** More of a body: it goes on, is complete, or has failed. */
  lemma BodyMoved(writing: Writing, ka: KA, enc: Enc.Kind, sent: seq<SentRequest>, recv: seq<Response>, r: Response)
    requires HistoryOk(Reading.Body, writing, ka, enc, sent, recv)
    requires recv != [] && SameHead(recv[|recv| - 1], r)
    ensures HistoryOk(match r.verdict case Complete(_) => Reading.KeepAlive case Waiting => Reading.Body case Broken(_) => Reading.Closed,
                      writing, ka, enc, sent, recv[|recv| - 1 := r])
  {
    hide SentOk;
  }

  lemma HeadWritten(ka: KA, old_enc: Enc.Kind, sent: seq<SentRequest>, recv: seq<Response>, s: SentRequest,
                    writing: Writing, ka2: KA, enc: Enc.Kind)
    requires HistoryOk(Reading.Init, Writing.Init, ka, old_enc, sent, recv)
    requires (writing.KeepAlive? && Enc.Complete(s.body)) || (writing.Body? && Enc.Partial(s.body, enc))
    requires !ka2.Idle? && (ka2.Disabled? ==> ka.Disabled? || !s.reuse)
    ensures HistoryOk(Reading.Init, writing, ka2, enc, sent + [s], recv)
  {
    hide Enc.Complete, Enc.Partial;
    var after := sent + [s];
    assert forall i :: 0 <= i < |sent| ==> after[i] == sent[i];
  }

  /** The last request moves on while its body is being written. */
  lemma BodyWritten(reading: Reading, ka: KA, old_enc: Enc.Kind, sent: seq<SentRequest>, recv: seq<Response>,
                    body: Enc.Sent, writing: Writing, enc: Enc.Kind)
    requires HistoryOk(reading, Writing.Body, ka, old_enc, sent, recv)
    requires (writing.Closed? && !Enc.Complete(body)) || (writing.KeepAlive? && Enc.Complete(body)) || (writing.Body? && Enc.Partial(body, enc))
    ensures sent != []
    ensures HistoryOk(reading, writing, ka, enc, sent[|sent| - 1 := sent[|sent| - 1].(body := body)], recv)
  {
    hide Enc.Complete, Enc.Partial;
  }

  lemma WireAppendHead(sent: seq<SentRequest>, s: SentRequest)
    requires s.body.body == []
    ensures Wire(sent + [s]) == Wire(sent) + s.head
  {
    assert (sent + [s])[..|sent|] == sent;
  }

  lemma WireAppendBody(sent: seq<SentRequest>, body: Enc.Sent, buf: ByteSeq)
    requires sent != [] && body.body == sent[|sent| - 1].body.body + buf
    ensures Wire(sent[|sent| - 1 := sent[|sent| - 1].(body := body)]) == Wire(sent) + buf
  {
    var after := sent[|sent| - 1 := sent[|sent| - 1].(body := body)];
    assert after[..|after| - 1] == sent[..|sent| - 1];
  }

  // ---- every transition keeps the record -----------------------------------

  lemma NothingRecorded(cfg: Config)
    requires GoodConfig(cfg)
    ensures Recorded(cfg, Reading.Init, Writing.Init, [], [], None, [], [], [], false)
  {
  }

  /** Closing reading forgets what was awaited; `writing` no longer matters. */
  lemma ReadingClosed(cfg: Config, reading: Reading, writing: Writing, sent: seq<SentRequest>, recv: seq<Response>,
                      req: Option<Method>, received: ByteSeq, taken: ByteSeq, buf: ByteSeq, eof: bool, writing2: Writing, req2: Option<Method>)
    requires GoodConfig(cfg) && Recorded(cfg, reading, writing, sent, recv, req, received, taken, buf, eof)
    ensures Recorded(cfg, Reading.Closed, writing2, sent, recv, req2, received, taken, buf, eof)
  {
    hide Alternate, AllMeant, AllFramed, SeenOk, Waits;
  }

  /** Bytes of closed reading may be dropped. */
  lemma TakenAfterClose(cfg: Config, writing: Writing, sent: seq<SentRequest>, recv: seq<Response>,
                        req: Option<Method>, received: ByteSeq, taken: ByteSeq, buf: ByteSeq, eof: bool, more: ByteSeq, buf2: ByteSeq)
    requires GoodConfig(cfg) && Recorded(cfg, Reading.Closed, writing, sent, recv, req, received, taken, buf, eof)
    requires taken <= more <= received
    ensures Recorded(cfg, Reading.Closed, writing, sent, recv, req, received, more, buf2, eof)
  {
    hide Alternate, AllMeant, AllFramed, SeenOk, Waits;
    PrefixOn(Consumed(recv), taken, more);
  }

  lemma PrefixOn<T>(a: seq<T>, b: seq<T>, c: seq<T>)
    requires a <= b <= c
    ensures a <= c
  {
  }

  lemma Idled(cfg: Config, sent: seq<SentRequest>, recv: seq<Response>, writing: Writing,
              req: Option<Method>, received: ByteSeq, taken: ByteSeq, buf: ByteSeq, eof: bool)
    requires GoodConfig(cfg) && Recorded(cfg, Reading.KeepAlive, writing, sent, recv, req, received, taken, buf, eof)
    ensures Recorded(cfg, Reading.Init, Writing.Init, sent, recv, None, received, taken, buf, eof)
  {
    hide Alternate, AllMeant, AllFramed, SeenOk, Waits;
  }

  lemma SeenGrows(recv: seq<Response>, received: ByteSeq, eof: bool, more: ByteSeq, eof2: bool)
    requires SeenOk(recv, received, eof) && received <= more && (eof ==> eof2 && more == received)
    ensures SeenOk(recv, more, eof2)
  {
    hide Consumed;
    forall i | 0 <= i < |recv| ensures recv[i].seen <= more {
      PrefixOn(recv[i].seen, received, more);
    }
  }

  /** More bytes arrive in the buffer. */
  lemma MoreReceived(cfg: Config, reading: Reading, writing: Writing, sent: seq<SentRequest>, recv: seq<Response>,
                     req: Option<Method>, received: ByteSeq, taken: ByteSeq, buf: ByteSeq, eof: bool, bytes: ByteSeq, eof2: bool)
    requires GoodConfig(cfg) && Recorded(cfg, reading, writing, sent, recv, req, received, taken, buf, eof)
    requires eof ==> eof2 && bytes == []
    ensures Recorded(cfg, reading, writing, sent, recv, req, received + bytes, taken, buf + bytes, eof2)
  {
    hide Alternate, AllMeant, AllFramed, SeenOk, Waits;
    SeenGrows(recv, received, eof, received + bytes, eof2);
    PrefixOn(taken, received, received + bytes);
    if bytes == [] {
      assert received + bytes == received && buf + bytes == buf;
    } else if reading.Init? && !writing.Init? && Stable(ParserAt(cfg, |recv|)) {
      var n := |Consumed(recv)|;
      AfterRead(ParserAt(cfg, |recv|), req, received[n..], buf, bytes);
      assert (received + bytes)[n..] == received[n..] + bytes;
    }
  }

  /** Informational heads are taken while a final head is awaited. */
  lemma StillAwaited(cfg: Config, writing: Writing, sent: seq<SentRequest>, recv: seq<Response>, req: Option<Method>,
                     received: ByteSeq, taken: ByteSeq, buf: ByteSeq, eof: bool, received2: ByteSeq, taken2: ByteSeq, buf2: ByteSeq, eof2: bool)
    requires GoodConfig(cfg) && Recorded(cfg, Reading.Init, writing, sent, recv, req, received, taken, buf, eof) && !writing.Init?
    requires received <= received2 && taken <= taken2 <= received2 && (eof ==> eof2 && received2 == received)
    requires Stable(ParserAt(cfg, |recv|)) ==> Waits(ParserAt(cfg, |recv|), req, received2[|Consumed(recv)|..], buf2)
    ensures Recorded(cfg, Reading.Init, writing, sent, recv, req, received2, taken2, buf2, eof2)
  {
    hide Alternate, AllMeant, AllFramed, SeenOk, Waits;
    SeenGrows(recv, received, eof, received2, eof2);
    PrefixOn(Consumed(recv), taken, taken2);
    PrefixOn(Consumed(recv), taken2, received2);
  }

  lemma RequestAdded(sent: seq<SentRequest>, recv: seq<Response>, s: SentRequest)
    requires Alternate(sent, recv) && AllFramed(sent) && |sent| == |recv|
    requires Framed(s) && s.answered == |recv| && s.after == Consumed(recv) && Spoken(PeerVersion(recv), s)
    ensures Alternate(sent + [s], recv) && AllFramed(sent + [s])
  {
    hide Framed, Consumed, Spoken, PeerVersion;
    var after := sent + [s];
    assert recv[..|recv|] == recv;
    forall i | 0 <= i < |after|
      ensures after[i].answered == i && after[i].after == Consumed(recv[..i]) && Framed(after[i])
      ensures Spoken(PeerVersion(recv[..i]), after[i])
    {
      if i < |sent| { assert after[i] == sent[i] && Framed(sent[i]); }
    }
    assert forall i :: 0 <= i < |recv| ==> after[i] == sent[i];
  }

  /** A request head is written when both sides are at their start: nothing is pending, so the buffer stands for itself. */
  lemma HeadSent(cfg: Config, sent: seq<SentRequest>, recv: seq<Response>, req: Option<Method>, received: ByteSeq, taken: ByteSeq,
                 buf: ByteSeq, eof: bool, s: SentRequest, writing: Writing)
    requires GoodConfig(cfg) && Recorded(cfg, Reading.Init, Writing.Init, sent, recv, req, received, taken, buf, eof)
    requires received == taken + buf && |sent| == |recv| && !writing.Init?
    requires Framed(s) && s.answered == |recv| && s.after == taken && Spoken(PeerVersion(recv), s)
    ensures Recorded(cfg, Reading.Init, writing, sent + [s], recv, Some(s.user.method_), received, taken, buf, eof)
  {
    hide AllMeant, SeenOk, Waits, Framed, Consumed, Alternate, AllFramed, Stable, GoodParser, Spoken, PeerVersion;
    RequestAdded(sent, recv, s);
    assert received[|Consumed(recv)|..] == buf;
    FirstWaits(ParserAt(cfg, |recv|), Some(s.user.method_), buf);
  }

  /** Only the body of the last request moves on. */
  lemma BodySent(cfg: Config, reading: Reading, writing: Writing, sent: seq<SentRequest>, recv: seq<Response>, req: Option<Method>,
                 received: ByteSeq, taken: ByteSeq, buf: ByteSeq, eof: bool, body: Enc.Sent, writing2: Writing)
    requires GoodConfig(cfg) && Recorded(cfg, reading, writing, sent, recv, req, received, taken, buf, eof)
    requires sent != [] && body.framing == sent[|sent| - 1].body.framing && !writing.Init? && !writing2.Init?
    ensures Recorded(cfg, reading, writing2, sent[|sent| - 1 := sent[|sent| - 1].(body := body)], recv, req, received, taken, buf, eof)
  {
    hide AllMeant, SeenOk, Waits, Consumed, Alternate, AllFramed, Stable, GoodParser;
    RequestMoved(sent, recv, body);
  }

  lemma RequestMoved(sent: seq<SentRequest>, recv: seq<Response>, body: Enc.Sent)
    requires Alternate(sent, recv) && AllFramed(sent) && sent != [] && body.framing == sent[|sent| - 1].body.framing
    ensures Alternate(sent[|sent| - 1 := sent[|sent| - 1].(body := body)], recv)
    ensures AllFramed(sent[|sent| - 1 := sent[|sent| - 1].(body := body)])
  {
    hide Consumed, PeerVersion, HV.ConnectionHas, Agrees, FramingIsSound, FramingChosen;
    var after := sent[|sent| - 1 := sent[|sent| - 1].(body := body)];
    forall i | 0 <= i < |sent| ensures Framed(after[i]) && Spoken(PeerVersion(recv[..i]), after[i]) {
      assert Framed(sent[i]) && Spoken(PeerVersion(recv[..i]), sent[i]);
    }
  }

  lemma ResponseAdded(sent: seq<SentRequest>, recv: seq<Response>, r: Response)
    requires Alternate(sent, recv) && |sent| == |recv| + 1
    requires r.asked == |sent| && r.method_ == sent[|recv|].user.method_
    ensures Alternate(sent, recv + [r])
  {
    hide Consumed, Spoken, PeerVersion;
    var after := recv + [r];
    forall i | 0 <= i < |sent| ensures sent[i].after == Consumed(after[..i]) && Spoken(PeerVersion(after[..i]), sent[i]) {
      assert after[..i] == recv[..i];
    }
  }

  lemma ResponseMoved(sent: seq<SentRequest>, recv: seq<Response>, r: Response)
    requires Alternate(sent, recv) && |sent| == |recv| > 0 && SameHead(recv[|recv| - 1], r)
    ensures Alternate(sent, recv[|recv| - 1 := r])
  {
    hide Consumed, Spoken, PeerVersion;
    var after := recv[|recv| - 1 := r];
    forall i | 0 <= i < |sent| ensures sent[i].after == Consumed(after[..i]) && Spoken(PeerVersion(after[..i]), sent[i]) {
      assert after[..i] == recv[..i];
    }
  }

  lemma MeantWith(cfg: Config, recv: seq<Response>, r: Response)
    requires GoodConfig(cfg) && AllMeant(cfg, recv)
    requires HeadMeaning(ParserAt(cfg, |recv|), |Consumed(recv)|, r) && BodyMeaning(cfg.limits, cfg.trailerParser, r)
    ensures AllMeant(cfg, recv + [r])
  {
    hide HeadMeaning, BodyMeaning, GoodParser, Consumed;
    var after := recv + [r];
    forall i | 0 <= i < |after| ensures Meant(cfg, after, i) {
      assert after[..i] == recv[..i];
      if i == |recv| { assert recv[..i] == recv; } else { assert Meant(cfg, recv, i); }
    }
  }

  lemma MeantMoved(cfg: Config, recv: seq<Response>, r: Response)
    requires GoodConfig(cfg) && AllMeant(cfg, recv) && recv != [] && SameHead(recv[|recv| - 1], r)
    requires BodyMeaning(cfg.limits, cfg.trailerParser, r)
    ensures AllMeant(cfg, recv[|recv| - 1 := r])
  {
    hide HeadMeaning, BodyMeaning, GoodParser, Consumed;
    var n := |recv| - 1;
    var after := recv[n := r];
    forall i | 0 <= i < |after| ensures Meant(cfg, after, i) {
      assert after[..i] == recv[..i] && Meant(cfg, recv, i);
      if i == n { SameHeadMeaning(ParserAt(cfg, n), |Consumed(recv[..n])|, recv[n], r); }
    }
  }

  lemma SameHeadMeaning(p: HeadParser, at: nat, r: Response, s: Response)
    requires GoodParser(p) && HeadMeaning(p, at, r) && SameHead(r, s)
    ensures HeadMeaning(p, at, s)
  {
    hide Parses, Stable;
  }

  /** A final head is accepted: everything taken since the last response is its head. */
  lemma HeadRecorded(cfg: Config, writing: Writing, sent: seq<SentRequest>, recv: seq<Response>, req: Option<Method>,
                     received: ByteSeq, taken: ByteSeq, buf: ByteSeq, eof: bool, r: Response, reading: Reading)
    requires GoodConfig(cfg) && Alternate(sent, recv) && AllFramed(sent) && AllMeant(cfg, recv) && SeenOk(recv, received, eof)
    requires Consumed(recv) + r.head == taken <= received && |received| > |Consumed(recv)| && |sent| == |recv| + 1
    requires r.asked == |sent| && r.method_ == sent[|recv|].user.method_ && r.seen == received && r.wire == []
    requires HeadMeaning(ParserAt(cfg, |recv|), |Consumed(recv)|, r) && BodyMeaning(cfg.limits, cfg.trailerParser, r)
    requires r.terminal.AtIdle? && !reading.Init?
    ensures Recorded(cfg, reading, writing, sent, recv + [r], req, received, taken, buf, eof)
  {
    hide HeadMeaning, BodyMeaning, AllFramed, AllMeant, Alternate, GoodParser, SeenOk, Consumed;
    ResponseAdded(sent, recv, r);
    MeantWith(cfg, recv, r);
    ConsumedWith(recv, r);
    SeenWith(recv, received, eof, r);
  }

  lemma SeenWith(recv: seq<Response>, received: ByteSeq, eof: bool, r: Response)
    requires SeenOk(recv, received, eof) && |received| > |Consumed(recv)| && r.seen == received && r.terminal.AtIdle?
    ensures SeenOk(recv + [r], received, eof)
  {
    hide Consumed;
    assert forall i :: 0 <= i < |recv| ==> (recv + [r])[i] == recv[i];
  }

  lemma SeenMoved(recv: seq<Response>, received: ByteSeq, eof: bool, r: Response)
    requires SeenOk(recv, received, eof) && recv != [] && r.seen == recv[|recv| - 1].seen
    requires r.terminal.AtEof? ==> eof && Consumed(recv[|recv| - 1 := r]) == received
    ensures SeenOk(recv[|recv| - 1 := r], received, eof)
  {
    hide Consumed;
    assert forall i :: 0 <= i < |recv| - 1 ==> recv[|recv| - 1 := r][i] == recv[i];
  }

  lemma ConsumedWith(recv: seq<Response>, r: Response)
    ensures Consumed(recv + [r]) == Consumed(recv) + r.head + r.wire
    ensures r.wire == [] ==> Consumed(recv + [r]) == Consumed(recv) + r.head
  {
    assert (recv + [r])[..|recv|] == recv;
  }

  /** More of a response body is taken: its record moves on with it. */
  lemma BodyRecorded(cfg: Config, writing: Writing, sent: seq<SentRequest>, recv: seq<Response>, req: Option<Method>,
                     received: ByteSeq, taken: ByteSeq, buf: ByteSeq, eof: bool, r: Response,
                     received2: ByteSeq, taken2: ByteSeq, buf2: ByteSeq, eof2: bool, reading: Reading)
    requires GoodConfig(cfg) && Recorded(cfg, Reading.Body, writing, sent, recv, req, received, taken, buf, eof)
    requires recv != [] && SameHead(recv[|recv| - 1], r) && |sent| == |recv|
    requires received <= received2 && taken2 <= received2 && (eof ==> eof2 && received2 == received)
    requires Consumed(recv[..|recv| - 1]) + r.head + r.wire == taken2
    requires r.terminal.AtEof? ==> eof2 && taken2 == received2
    requires BodyMeaning(cfg.limits, cfg.trailerParser, r) && !reading.Init?
    ensures Recorded(cfg, reading, writing, sent, recv[|recv| - 1 := r], req, received2, taken2, buf2, eof2)
  {
    hide BodyMeaning, AllFramed, AllMeant, Alternate, GoodParser, SeenOk, Consumed;
    var n := |recv| - 1;
    ResponseMoved(sent, recv, r);
    MeantMoved(cfg, recv, r);
    assert recv[..n] + [r] == recv[n := r];
    ConsumedWith(recv[..n], r);
    SeenGrows(recv, received, eof, received2, eof2);
    SeenMoved(recv, received2, eof2, r);
  }

  // ---- what it means -------------------------------------------------------

  /**
   Request framing: in every state in which a further head may be written, every request so
   far is exactly complete under its framing, has been answered by exactly one final response
   whose body is complete, and none of those responses forbade reuse or upgraded.
   */
  lemma NextHeadIsSafe(reading: Reading, writing: Writing, ka: KA, enc: Enc.Kind, sent: seq<SentRequest>, recv: seq<Response>)
    requires HistoryOk(reading, writing, ka, enc, sent, recv)
    requires writing.Init? && !reading.Closed?
    ensures forall i :: 0 <= i < |sent| ==> Enc.Complete(sent[i].body)
    ensures |recv| == |sent| && forall i :: 0 <= i < |recv| ==> Reusable(recv[i])
    ensures !ka.Disabled?
  {
    assert |sent| > 0 ==> sent[|sent| - 1] in sent;
  }
}
