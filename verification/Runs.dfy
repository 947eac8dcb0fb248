/**
 Whole runs of an HTTP/1 client connection: any transport in both directions, any parsers,
 any requests, any interleaving with the user, any number of polls, dropped at any point.
 `Safe` collects what every such run guarantees; the lemmas say what that means.
 */
module Runs {
  import opened Bytes
  import opened ConnHistory
  import opened DispatchHistory
  import opened RequestChannel
  import opened ResponseHeads
  import opened ResponseStream
  import opened UserBody
  import BC = BodyChannel
  import BRT = BodyRoundTrip
  import CG = ChunkedGrammar
  import C = Conn
  import CM = ChunkedMachine
  import Dec = Decoder
  import D = Dispatcher
  import Enc = Encoder
  import Framing
  import HV = HeaderValues
  import RS = ReadStrategy
  import Src = Source
  import Upgrade
  import WB = WriteBuf

  /**
   Everything observable about a run: `ended` if the dispatcher finished by itself rather than
   being dropped, `noMore` if it was told that no more requests will come.
   */
  datatype History = History(
    requests: Id -> UserRequest,
    sent: seq<SentRequest>,
    recv: seq<Response>,
    ids: seq<Id>,
    promises: seq<Promise>,
    bodies: seq<BC.Channel>,
    accepted: ByteSeq,
    received: ByteSeq,
    taken: ByteSeq,
    canceled: set<Id>,
    noMore: bool,
    eof: bool,
    readFailed: bool,
    writeFailed: bool,
    badHead: Option<ByteSeq>,
    maxBuf: nat,
    ended: bool)

  /** The transport ended or failed, or a response head could not be had. */
  predicate TransportTrouble(h: History) {
    h.eof || h.readFailed || h.writeFailed || h.badHead.Some?
  }

  /** Why a dispatcher finished by itself. */
  predicate EndCause(h: History, polled: seq<nat>) {
    || TransportTrouble(h) || h.noMore || SomeoneLeft(h.bodies) || (exists id :: id in h.canceled && id < |h.promises|)
    || BodyFailed(h.requests, h.sent, polled)
    || (|h.sent| == |h.recv| && |h.received| > |Consumed(h.recv)|)
    || (|h.sent| == |h.recv| && h.recv != [] && NotReusable(h.sent[|h.sent| - 1], h.recv[|h.recv| - 1]))
  }

  /** An exchange after which the connection cannot go on: a broken body, an incomplete one, or either side giving up reuse. */
  predicate NotReusable(s: SentRequest, r: Response) {
    r.verdict.Broken? || (r.Complete() && (!r.keepAlive || !s.reuse || !Enc.Complete(s.body)))
  }

  /** `polled` frames of each request body explain what was sent, who was failed and why the run ended. */
  ghost predicate Explained(h: History, polled: seq<nat>) {
    && AllCarry(h.requests, h.sent, polled)
    && FailuresOk(h.promises, h.ids, h.canceled, !h.ended || TransportTrouble(h) || BodyFailed(h.requests, h.sent, polled))
    && (h.ended ==> EndCause(h, polled))
  }

  /** All requests but the last are complete, and answered by complete responses that allowed reuse. */
  ghost predicate EarlierDone(sent: seq<SentRequest>, recv: seq<Response>) {
    forall i :: 0 <= i < |sent| - 1 ==> Enc.Complete(sent[i].body) && i < |recv| && Reusable(recv[i])
  }

  ghost predicate Safe(cfg: Config, h: History)
    requires GoodConfig(cfg)
  {
    && IdsMatch(h.ids, h.sent)
    && (exists polled :: Explained(h, polled))
    && AllFramed(h.sent) && Alternate(h.sent, h.recv)
    && EarlierDone(h.sent, h.recv)
    && Reads(cfg, h.received, h.eof, h.recv)
    && Consumed(h.recv) <= h.taken <= h.received
    && RepliesOk(h.promises, h.ids, |h.recv|, None)
    && (forall id :: 0 <= id < |h.promises| ==> h.promises[id].Resolved?)
    && BodiesOk(h.bodies, h.recv, false)
    && h.accepted <= Wire(h.sent)
    && (h.badHead.Some? ==>
          h.sent != [] && HeadBroken(ParserAt(cfg, |h.recv|), h.maxBuf, h.sent[|h.sent| - 1].user.method_, |Consumed(h.recv)|,
                                     h.received, h.badHead.value))
  }

  /** What a dispatcher has done so far. */
  function HistoryOf(d: D.Dispatcher, ended: bool): History
    reads d, d.conn, d.ch, d.conn.wbuf, d.conn.src
  {
    History(d.requests, d.conn.sent, d.conn.recv, d.ids, d.ch.promises, d.bodies,
            d.conn.wbuf.accepted, d.conn.src.received, d.conn.src.taken, d.ch.canceled, d.rxClosed, d.conn.src.eof,
            d.conn.src.failed, d.conn.wbuf.broken, d.conn.badHead, d.conn.maxBuf, ended)
  }

  /** What holds between polls is enough for a safe history once the dispatcher is gone. */
  lemma DroppedIsSafe(d: D.Dispatcher, ended: bool)
    requires d.Valid() && !d.bodyTx && d.callback == None
    requires forall id :: 0 <= id < |d.ch.promises| ==> d.ch.promises[id].Resolved?
    requires ended ==> (d.trouble ==> d.Trouble()) && (d.conn.quit ==> d.QuitCause()) && d.Over()
    ensures GoodConfig(d.conn.config) && Safe(d.conn.config, HistoryOf(d, ended))
  {
    hide Enc.Complete, Enc.Partial, Recorded, Reads, RepliesOk, BodiesOk, IdsMatch, GoodParser, GoodRequest, AllCarry, Streaming,
         LastEnded, Alternate, AllFramed, Dec.Decoder.Valid, Channel.Accounted, Wire, Consumed, HistoryOk, Explained, HeadBroken,
         C.Conn.Valid, FailuresOk, Before, SomeoneLeft, D.Dispatcher.QuitCause, D.Dispatcher.Over, BodyFailed, EarlierDone;
    RecordStands(d);
    StatesStand(d);
    CausesStand(d, ended);
    var h := HistoryOf(d, ended);
    assert Explained(h, d.polled);
  }

  /** Whoever was failed, and the end itself, had a cause. */
  lemma CausesStand(d: D.Dispatcher, ended: bool)
    requires d.Valid()
    requires ended ==> (d.trouble ==> d.Trouble()) && (d.conn.quit ==> d.QuitCause()) && d.Over()
    ensures Explained(HistoryOf(d, ended), d.polled)
  {
    hide Enc.Complete, Enc.Partial, RepliesOk, BodiesOk, SomeoneLeft, IdsMatch, GoodParser, GoodRequest, AllCarry, Streaming, HeadBroken,
         LastEnded, Recorded, Dec.Decoder.Valid, Channel.Accounted, Wire, Consumed, WB.WriteBuf.Valid, Src.Source.Valid, BodyFailed, SentOk,
         ReuseOk;
    var h := HistoryOf(d, ended);
    FailuresGrow(d.ch.promises, d.ids, d.ch.canceled, d.trouble,
                 d.ch.promises, d.ids, d.ch.canceled, !ended || TransportTrouble(h) || BodyFailed(h.requests, h.sent, d.polled));
  }

  lemma RecordStands(d: D.Dispatcher)
    requires d.Valid()
    ensures GoodConfig(d.conn.config) && Alternate(d.conn.sent, d.conn.recv) && AllFramed(d.conn.sent)
    ensures Reads(d.conn.config, d.conn.src.received, d.conn.src.eof, d.conn.recv)
    ensures Consumed(d.conn.recv) <= d.conn.src.taken <= d.conn.src.received
  {
    hide Enc.Complete, Enc.Partial, RepliesOk, BodiesOk, IdsMatch, GoodParser, GoodRequest, AllCarry, Streaming, HistoryOk,
         LastEnded, Alternate, AllFramed, AllMeant, SeenOk, Awaits, Dec.Decoder.Valid, Channel.Accounted, Wire, Consumed, WB.WriteBuf.Valid;
    PrefixOn(Consumed(d.conn.recv), d.conn.src.taken, d.conn.src.received);
  }

  lemma StatesStand(d: D.Dispatcher)
    requires d.Valid()
    ensures EarlierDone(d.conn.sent, d.conn.recv)
    ensures d.conn.wbuf.accepted <= Wire(d.conn.sent) && GoodConfig(d.conn.config)
    ensures d.conn.badHead.Some? ==>
              d.conn.sent != []
              && HeadBroken(ParserAt(d.conn.config, |d.conn.recv|), d.conn.maxBuf, d.conn.sent[|d.conn.sent| - 1].user.method_,
                            |Consumed(d.conn.recv)|, d.conn.src.received, d.conn.badHead.value)
  {
    hide Enc.Complete, Enc.Partial, Recorded, RepliesOk, BodiesOk, IdsMatch, GoodParser, GoodRequest, AllCarry, Streaming,
         LastEnded, Dec.Decoder.Valid, Channel.Accounted, Wire, Consumed, HeadBroken;
    var sent, recv := d.conn.sent, d.conn.recv;
    forall i | 0 <= i < |sent| - 1 ensures i < |recv| && Reusable(recv[i]) {
      assert i < |recv| - 1 || |sent| == |recv| + 1;
    }
  }

  /**
   Any number of polls, with the user, the peer and the clock acting as they like in between,
   and then a drop: the history is safe, and a promise that was resolved at the start, which
   may be between any two polls, has kept its reply. Stopping after any number of polls covers
   dropping the dispatcher between any two of them.
   */
  method Run(d: D.Dispatcher, polls: nat, shouldShutdown: bool) returns (ended: bool)
    requires d.Settled()
    modifies d.Repr
    ensures GoodConfig(d.conn.config) && Safe(d.conn.config, HistoryOf(d, ended))
    ensures Kept(old(d.ch.promises), d.ch.promises) && ScriptsTell(d)
  {
    hide C.Conn.Valid, D.Dispatcher.Valid, Safe, GoodConfig, D.Dispatcher.QuitCause, D.Dispatcher.Over, D.Dispatcher.TransportTrouble,
         BodyFailed;
    ended := false;
    var k := 0;
    while k < polls && !ended
      invariant d.Valid() && k <= polls && Kept(old(d.ch.promises), d.ch.promises)
      invariant d.bodyTx ==> d.conn.reading.Body?
      invariant if ended then d.Over() && d.Justified() && (d.trouble ==> d.Trouble()) && (d.conn.quit ==> d.QuitCause()) else d.Settled()
      decreases polls - k
    {
      var r, _ := d.Poll(shouldShutdown);
      ended := r.Ready?;
      k := k + 1;
    }
    d.Drop();
    DroppedIsSafe(d, ended);
    FlagsAreTrue(d);
  }

  /** What the record says of the transport is in its script. */
  ghost predicate ScriptsTell(d: D.Dispatcher)
    reads d, d.conn, d.conn.src, d.conn.wbuf
  {
    && (d.conn.src.eof ==> Src.Read([]) in d.conn.src.all) && (d.conn.src.failed ==> Src.Failure in d.conn.src.all)
    && (d.conn.wbuf.broken ==> WB.Failure in d.conn.wbuf.answers || WB.Accept(0) in d.conn.wbuf.answers)
  }

  lemma FlagsAreTrue(d: D.Dispatcher)
    requires d.Valid()
    ensures ScriptsTell(d)
  {
    hide Recorded, RepliesOk, BodiesOk, SomeoneLeft, IdsMatch, GoodParser, GoodRequest, AllCarry, Streaming, Dec.Decoder.Valid, Channel.Accounted,
         Wire, Consumed, HistoryOk, HeadBroken, Bytes.Flatten;
  }

  /**
   Any run that ends in an upgrade: what was consumed as HTTP heads and bodies, followed by
   what the upgraded stream then delivers into buffers of any sizes, is the front of what the
   transport delivers, and all of it once that stream reports its end. No byte was dropped.
   */
  method RunUpgrade(d: D.Dispatcher, polls: nat, rooms: seq<nat>)
    returns (upgraded: bool, got: seq<ByteSeq>, atEof: bool)
    requires d.Settled()
    modifies d.Repr
    ensures upgraded ==>
              var src, recv := d.conn.src, d.conn.recv;
              && src.dropped == 0 && recv != [] && recv[|recv| - 1].upgrade && src.received == src.taken + src.buf
              && src.taken + Flatten(got) <= src.received + Src.Upcoming(src.script)
              && (atEof ==> src.taken + Flatten(got) == src.received + Src.Upcoming(src.script))
  {
    hide C.Conn.Valid, D.Dispatcher.Valid, Src.Upcoming, Flatten;
    upgraded, got, atEof := false, [], false;
    var k := 0;
    while k < polls
      invariant d.Settled() && k <= polls
      decreases polls - k
    {
      var r, _ := d.Poll(true);
      if r.Ready? {
        if r.value != Ok(D.Upgraded) { return; }
        SourceIsValid(d);
        upgraded := true;
        got, atEof := Upgrade.ReadUpgraded(d.conn.src, rooms);
        return;
      }
      k := k + 1;
    }
  }

  lemma SourceIsValid(d: D.Dispatcher)
    requires d.Valid()
    ensures d.conn.src.Valid()
  {
    hide Recorded, RepliesOk, BodiesOk, IdsMatch, GoodParser, GoodRequest, AllCarry, Streaming, Dec.Decoder.Valid, Channel.Accounted, Wire,
         Consumed;
  }

  /** What a connection is made from: its configuration with the foreign parsers, the transport's behaviour, and the users' requests. */
  datatype Setup = Setup(
    config: Config,
    readScript: seq<Src.IoEvent>,
    readStrategy: RS.Strategy,
    writeScript: seq<WB.WriteEvent>,
    writeStrategy: WB.Strategy,
    maxBufSize: nat,
    requests: Id -> UserRequest)

  ghost predicate GoodSetup(s: Setup) {
    && GoodConfig(s.config) && RS.InRange(s.readStrategy) && s.maxBufSize > 0
    && forall id :: GoodRequest(s.requests(id))
  }

  /** A new connection, with nothing read or written. */
  method Connect(s: Setup) returns (d: D.Dispatcher)
    requires GoodSetup(s)
    ensures fresh(d.Repr) && d.Settled() && d.requests == s.requests && d.conn.config == s.config
    ensures d.conn.src.all == s.readScript && d.conn.wbuf.answers == s.writeScript && d.conn.maxBuf == s.readStrategy.MaxSize()
  {
    hide C.Conn.Valid, D.Dispatcher.Valid, GoodRequest, GoodConfig;
    var src := new Src.Source(s.readScript, s.readStrategy);
    var wbuf := new WB.WriteBuf(s.writeStrategy, s.maxBufSize, s.writeScript);
    var conn := new C.Conn(src, wbuf, s.config);
    var ch := new Channel(false);
    d := new D.Dispatcher(conn, ch, s.requests);
  }

  /** From a new connection to its end: every run has a safe history. */
  method RunConnection(s: Setup, polls: nat, shouldShutdown: bool) returns (h: History)
    requires GoodSetup(s)
    ensures Safe(s.config, h) && h.requests == s.requests && h.maxBuf == s.readStrategy.MaxSize()
    ensures (h.eof ==> Src.Read([]) in s.readScript) && (h.readFailed ==> Src.Failure in s.readScript)
    ensures h.writeFailed ==> WB.Failure in s.writeScript || WB.Accept(0) in s.writeScript
  {
    hide Safe, D.Dispatcher.Settled;
    var d := Connect(s);
    var ended := Run(d, polls, shouldShutdown);
    h := HistoryOf(d, ended);
  }

  // ---- what a safe history means: requests ---------------------------------

  /** The framing decided for a request could be told from its head: `FramingIsSound` for the version it was sent in. */
  ghost predicate SoundlyFramed(h: History, i: nat)
    requires i < |h.sent|
  {
    var req := h.requests(h.sent[i].id);
    Framing.FramingIsSound(req.head.(version := h.sent[i].version), req.length)
  }

  /**
   Request framing over whole runs: every request but the last is exactly complete. A recipient
   that derives the framing from the fields that were sent reads the user's own data: the first
   n bytes under a length, and under chunked coding everything up to the body's last frame, with
   its decoder stopping exactly at the end of the body, whatever follows. That the fields say
   what the encoder does holds exactly for soundly framed requests.
   */
  lemma EarlierRequestsDecode(cfg: Config, h: History, i: nat, peer: CM.Limits, following: ByteSeq)
    requires GoodConfig(cfg) && Safe(cfg, h) && i < |h.sent| - 1
    ensures var req, s := h.requests(h.sent[i].id), h.sent[i]; s.head == req.render(s.version, s.headers)
    ensures Framing.Agrees(h.sent[i].headers, h.sent[i].body.framing) <==> SoundlyFramed(h, i)
    ensures SoundlyFramed(h, i) ==>
              RecipientReads(h.sent[i].headers, h.sent[i].body, UserData(h.requests(h.sent[i].id).frames), peer, following)
  {
    EarlierIsComplete(cfg, h, i);
    DataCarried(h, i);
    hide Safe, RecipientReads, Explained, UserData, Enc.Complete, Framing.RecipientFraming, Framing.FramingIsSound, Framing.FramingChosen;
    if SoundlyFramed(h, i) { ReadUnder(h, i, peer, following); }
  }

  /** What a recipient makes of a body, with the framing it derives from the fields sent and whatever follows. */
  ghost predicate RecipientReads(headers: Framing.Headers, s: Enc.Sent, data: ByteSeq, peer: CM.Limits, following: ByteSeq) {
    match Framing.RecipientFraming(headers)
    case LengthBody(n) => |s.body| == n && s.body <= data
    case ChunkedBody =>
      (s.ending.EndedWith? ==> Enc.FieldsOk(s.ending.fields) && Enc.Admits(peer, s.ending.fields)) ==>
        var fed := CM.Feed(peer, CM.INITIAL, s.body + following);
        fed.m.state.End? && fed.error == None && fed.data == data && fed.used == |s.body|
    case Malformed => false
  }

  /** A complete body is read back under the framing it was sent with, if that is what its fields say. */
  lemma ReadUnder(h: History, i: nat, peer: CM.Limits, following: ByteSeq)
    requires i < |h.sent| && Enc.Complete(h.sent[i].body) && exists polled :: Explained(h, polled)
    requires Framing.RecipientFraming(h.sent[i].headers) == match h.sent[i].body.framing
                                                            case Chunked(_) => Framing.ChunkedBody
                                                            case Length(n) => Framing.LengthBody(n)
    ensures RecipientReads(h.sent[i].headers, h.sent[i].body, UserData(h.requests(h.sent[i].id).frames), peer, following)
  {
    DataCarried(h, i);
    hide Explained, UserData, Framing.RecipientFraming, CM.Feed, Enc.ChunksBytes, Enc.EndBytes;
    var s := h.sent[i].body;
    if s.framing.Chunked? && (s.ending.EndedWith? ==> Enc.Admits(peer, s.ending.fields)) {
      Enc.ChunkedRoundTrip(peer, s, following);
    }
  }

  /**
   A body of unknown length, without framing fields of the user's own, sent in HTTP/1.1 with a
   method that may carry one, is sent whole: its recipient reads all of the user's data.
   */
  lemma UnknownLengthIsSentWhole(cfg: Config, h: History, i: nat, peer: CM.Limits, following: ByteSeq)
    requires GoodConfig(cfg) && Safe(cfg, h) && i < |h.sent| - 1 && h.sent[i].version == Framing.Http11
    requires var req := h.requests(h.sent[i].id);
             && req.length == Some(Framing.Unknown) && req.head.method_ == Framing.Other
             && req.head.headers.te == [] && Framing.NoLength(req.head.headers.cl)
    ensures Framing.RecipientFraming(h.sent[i].headers) == Framing.ChunkedBody
    ensures RecipientReads(h.sent[i].headers, h.sent[i].body, UserData(h.requests(h.sent[i].id).frames), peer, following)
  {
    EarlierIsComplete(cfg, h, i);
    DataCarried(h, i);
    hide Safe, RecipientReads, Explained, UserData, Enc.Complete, Framing.RecipientFraming, Framing.NoLength, Framing.FramingIsSound,
         HV.ContentLengthIs;
    ReadUnder(h, i, peer, following);
  }

  /** One of known length n is read as the first n bytes of the user's data, unless the user gave a framing field. */
  lemma KnownLengthIsSent(cfg: Config, h: History, i: nat, n: nat, peer: CM.Limits, following: ByteSeq)
    requires GoodConfig(cfg) && Safe(cfg, h) && i < |h.sent| - 1
    requires var req := h.requests(h.sent[i].id);
             && req.length == Some(Framing.Known(n)) && req.head.headers.te == [] && Framing.NoLength(req.head.headers.cl)
    ensures Framing.RecipientFraming(h.sent[i].headers) == Framing.LengthBody(n)
    ensures RecipientReads(h.sent[i].headers, h.sent[i].body, UserData(h.requests(h.sent[i].id).frames), peer, following)
  {
    EarlierIsComplete(cfg, h, i);
    DataCarried(h, i);
    hide Safe, RecipientReads, Explained, UserData, Enc.Complete, Framing.RecipientFraming, Framing.NoLength, Framing.FramingIsSound,
         HV.ContentLengthIs;
    ReadUnder(h, i, peer, following);
  }

  /** A valid Content-Length the user gave, with a body and no Transfer-Encoding, is how the body is sent and read. */
  lemma GivenLengthStands(cfg: Config, h: History, i: nat, n: nat, peer: CM.Limits, following: ByteSeq)
    requires GoodConfig(cfg) && Safe(cfg, h) && i < |h.sent| - 1
    requires var req := h.requests(h.sent[i].id);
             req.length.Some? && req.head.headers.te == [] && HV.ContentLengthIs(req.head.headers.cl, n)
    ensures Framing.RecipientFraming(h.sent[i].headers) == Framing.LengthBody(n)
    ensures RecipientReads(h.sent[i].headers, h.sent[i].body, UserData(h.requests(h.sent[i].id).frames), peer, following)
  {
    EarlierIsComplete(cfg, h, i);
    DataCarried(h, i);
    hide Safe, RecipientReads, Explained, UserData, Enc.Complete, Framing.RecipientFraming, Framing.FramingIsSound, HV.ContentLengthIs;
    ReadUnder(h, i, peer, following);
  }

  lemma EarlierIsComplete(cfg: Config, h: History, i: nat)
    requires GoodConfig(cfg) && Safe(cfg, h) && i < |h.sent| - 1
    ensures Enc.Complete(h.sent[i].body) && Framed(h.sent[i]) && exists polled :: Explained(h, polled)
  {
    hide Reads, BodiesOk, RepliesOk, Wire, Consumed, Enc.Complete, Framed, Explained, HeadBroken;
  }

  /** What was offered for a request, sent or not, is the front of its user's data, all of it if ended chunked. */
  lemma DataCarried(h: History, i: nat)
    requires i < |h.sent| && exists polled :: Explained(h, polled)
    ensures var s, data := h.sent[i].body, UserData(h.requests(h.sent[i].id).frames);
            Flatten(s.offered) <= data && (s.framing.Chunked? && !s.ending.Open? ==> Flatten(s.offered) == data)
    ensures var req, s := h.requests(h.sent[i].id), h.sent[i];
            s.user == req.head && s.length == req.length && s.head == req.render(s.version, s.headers)
  {
    hide UserData, Carries, FailuresOk, EndCause, BodyFailed;
    var polled :| Explained(h, polled);
    assert Sends(h.requests(h.sent[i].id), h.sent[i], polled[i]);
    CarriedData(h.requests(h.sent[i].id), h.sent[i].body, polled[i]);
  }

  /**
   Keep-alive safety: between two request heads lies exactly one final response. It was read
   when exactly the requests up to its own had been written, the next head was written when
   exactly the responses up to this one had been read and their bytes, bodies included, consumed;
   it is complete, allows reuse, and answers the earlier request.
   */
  lemma HeadsAreSeparated(cfg: Config, h: History, i: nat)
    requires GoodConfig(cfg) && Safe(cfg, h) && i < |h.sent| - 1
    ensures i < |h.recv| && h.recv[i].asked == i + 1 && h.sent[i + 1].answered == i + 1
    ensures h.sent[i + 1].after == Consumed(h.recv[..i + 1]) && h.sent[i + 1].after <= h.received
    ensures h.recv[i].Complete() && h.recv[i].keepAlive && !h.recv[i].upgrade
    ensures h.promises[h.ids[i]] == Resolved(Answered(i)) && h.sent[i].id == h.ids[i]
  {
    hide Reads, BodiesOk, Wire, Consumed, Enc.Complete, AllFramed, Explained, HeadBroken;
    assert Reusable(h.recv[i]);
    ConsumedPrefix(h.recv, i + 1);
    PrefixOn(Consumed(h.recv[..i + 1]), Consumed(h.recv), h.taken);
    PrefixOn(Consumed(h.recv[..i + 1]), h.taken, h.received);
  }

  /** Each request after the first speaks to the peer as its last response did, with Connection lines to match. */
  lemma PeersAreSpokenTo(cfg: Config, h: History, i: nat)
    requires GoodConfig(cfg) && Safe(cfg, h) && i < |h.sent| - 1
    ensures i < |h.recv|
    ensures var next := h.sent[i + 1];
            SpokenTo(h.recv[i].version, h.requests(next.id).head, next.version, next.headers.connection, next.reuse)
  {
    hide Reads, BodiesOk, RepliesOk, Wire, Consumed, Enc.Complete, AllFramed, Explained, HeadBroken, SpokenTo, UserData;
    DataCarried(h, i + 1);
    assert Spoken(PeerVersion(h.recv[..i + 1]), h.sent[i + 1]);
    assert Reusable(h.recv[i]);
  }

  // ---- what a safe history means: responses --------------------------------

  /**
   The responses are a reading of the bytes received: the k-th is the next slice of them after
   the ones before, its head is what a stable parser finds there for the k-th request's method,
   and its body, if complete, is what the decoder makes of the bytes after the head.
   */
  lemma ResponsesAreRead(cfg: Config, h: History, k: nat)
    requires GoodConfig(cfg) && Safe(cfg, h) && k < |h.recv|
    ensures BodyEnd(h.recv, k) <= |h.received| && k < |h.sent|
    ensures h.recv[k].head == h.received[HeadStart(h.recv, k)..BodyStart(h.recv, k)]
    ensures h.recv[k].wire == h.received[BodyStart(h.recv, k)..BodyEnd(h.recv, k)]
    ensures Stable(ParserAt(cfg, k)) ==>
              Parses(ParserAt(cfg, k), Some(h.requests(h.sent[k].id).head.method_), h.received[HeadStart(h.recv, k)..],
                     Found(h.recv[k].Msg(), h.received[BodyStart(h.recv, k)..]))
    ensures h.recv[k].Complete() ==> DecodedFrom(cfg, h.recv[k], h.received[BodyStart(h.recv, k)..])
  {
    MethodsMatch(cfg, h, k);
    hide GoodParser, Parses, Stable, Consumed, DecodedFrom, HeadMeaning, BodyMeaning, BodiesOk, RepliesOk, Explained, HeadBroken, AllFramed, Wire,
         Enc.Complete;
    MeantAt(cfg, h.received, h.eof, h.recv, k);
    hide Reads;
    Slices(h.recv, h.received, k);
    if Stable(ParserAt(cfg, k)) { HeadIsParsed(cfg, h.received, h.eof, h.recv, k); }
    if h.recv[k].Complete() { BodyIsDecoded(cfg, h.received, h.eof, h.recv, k); }
  }

  /**
   What a complete body is, by its framing: exactly n bytes; all bytes up to the end of the
   connection; or the payload of a chunked body as section 7.1 of RFC 9112 has it, and nothing else.
   */
  lemma CompleteBodiesAre(cfg: Config, h: History, k: nat) returns (chunked: CG.ChunkedBody)
    requires GoodConfig(cfg) && Safe(cfg, h) && k < |h.recv| && h.recv[k].Complete()
    ensures var r := h.recv[k];
            match r.kind
            case Exact(n) => |r.wire| == n && r.data == r.wire && r.Trailers() == None
            case CloseDelimited => h.eof && k == |h.recv| - 1 && Consumed(h.recv) == h.received && r.data == r.wire && r.Trailers() == None
            case Chunks =>
              && BRT.Completes(cfg.limits, cfg.trailerParser, chunked)
              && CG.Render(chunked) == r.wire && CG.Payload(chunked.chunks) == r.data
  {
    hide Safe, CG.Render, CG.Payload, BRT.Completes, CM.Feed, Consumed, Dec.Decoded, GoodConfig;
    BodyMeant(cfg, h, k);
    EofSeen(cfg, h, k);
    var r := h.recv[k];
    chunked := CG.ChunkedBody([], CG.SizeLine([], [], None), []);
    match r.kind
    case Exact(n) => BRT.LengthCompletes(cfg.limits, cfg.trailerParser, n, r.wire, r.terminal);
    case CloseDelimited => BRT.EofCompletes(cfg.limits, cfg.trailerParser, r.wire, r.terminal);
    case Chunks =>
      chunked := BRT.CompletedOnlyIf(cfg.limits, cfg.trailerParser, r.wire, r.terminal);
      assert r.wire[..|r.wire|] == r.wire;
  }

  lemma EofSeen(cfg: Config, h: History, k: nat)
    requires GoodConfig(cfg) && Safe(cfg, h) && k < |h.recv|
    ensures h.recv[k].terminal.AtEof? ==> h.eof && k == |h.recv| - 1 && Consumed(h.recv) == h.received
  {
    hide GoodParser, Consumed, HeadMeaning, BodyMeaning, BodiesOk, RepliesOk, Explained, HeadBroken, AllFramed, Alternate, Wire, Enc.Complete, Reads;
    MeantAt(cfg, h.received, h.eof, h.recv, k);
  }

  /**
   Whether a connection may be used again is what the head read says: for each response, the
   version and Connection lines of the final head found in the bytes received, with no upgrade.
   */
  lemma ReuseIsAsSaid(cfg: Config, h: History, k: nat)
    requires GoodConfig(cfg) && Safe(cfg, h) && k < |h.recv| && Stable(ParserAt(cfg, k))
    ensures k < |h.sent| && BodyStart(h.recv, k) <= |h.received| && HeadStart(h.recv, k) <= |h.received|
    ensures Says(ParserAt(cfg, k), Some(h.requests(h.sent[k].id).head.method_), h.received[HeadStart(h.recv, k)..],
                 h.recv[k].Msg(), h.received[BodyStart(h.recv, k)..])
  {
    hide GoodParser, Parses, Stable, Consumed, DecodedFrom, Safe, Says;
    ResponsesAreRead(cfg, h, k);
    FoundSays(ParserAt(cfg, k), Some(h.requests(h.sent[k].id).head.method_), h.received[HeadStart(h.recv, k)..], h.recv[k].Msg(),
              h.received[BodyStart(h.recv, k)..]);
  }

  lemma MethodsMatch(cfg: Config, h: History, k: nat)
    requires GoodConfig(cfg) && Safe(cfg, h) && k < |h.recv|
    ensures k < |h.sent| && h.recv[k].method_ == h.requests(h.sent[k].id).head.method_
  {
    hide Reads, BodiesOk, RepliesOk, Wire, Consumed, Enc.Complete, AllFramed, UserData;
    DataCarried(h, k);
  }

  /**
   Read boundaries do not matter: two runs that received the same bytes, for requests with the
   same methods, read the same responses, whatever was read when. What they differ in, apart from
   how far they got, is at most a body that one of them has not completed.
   */
  lemma SameBytesSameRuns(cfg: Config, h1: History, h2: History, k: nat)
    requires GoodConfig(cfg) && Safe(cfg, h1) && Safe(cfg, h2) && Stable(cfg.lenient) && Stable(cfg.strict)
    requires h1.received == h2.received && k < |h1.recv| && k < |h2.recv|
    requires forall i :: 0 <= i <= k && i < |h1.sent| && i < |h2.sent| ==>
               h1.requests(h1.sent[i].id).head.method_ == h2.requests(h2.sent[i].id).head.method_
    ensures h1.recv[k].Msg() == h2.recv[k].Msg() && h1.recv[k].head == h2.recv[k].head
    ensures h1.recv[k].Complete() && h2.recv[k].Complete() ==> SameResponse(h1.recv[k], h2.recv[k])
    ensures forall i :: 0 <= i < k ==> SameResponse(h1.recv[i], h2.recv[i])
  {
    forall i | 0 <= i <= k ensures h1.recv[i].method_ == h2.recv[i].method_ {
      MethodsMatch(cfg, h1, i);
      MethodsMatch(cfg, h2, i);
    }
    EarlierComplete(cfg, h1, k);
    EarlierComplete(cfg, h2, k);
    hide GoodParser, Parses, Stable, Consumed, BodiesOk, RepliesOk, Explained, HeadBroken, AllFramed, Wire, Enc.Complete, Alternate, Reads, SameResponse;
    SameBytesSameResponses(cfg, h1.received, h1.eof, h1.recv, h2.eof, h2.recv, k);
  }

  lemma EarlierComplete(cfg: Config, h: History, k: nat)
    requires GoodConfig(cfg) && Safe(cfg, h) && k < |h.recv|
    ensures forall i :: 0 <= i < k ==> h.recv[i].Complete()
  {
    hide Reads, BodiesOk, RepliesOk, Wire, Consumed, Enc.Complete, AllFramed, Explained, HeadBroken;
    forall i | 0 <= i < k ensures h.recv[i].Complete() {
      assert Reusable(h.recv[i]);
    }
  }

  /**
   No silent truncation: a receiver still listening that polls to a clean end without having
   seen an error has been shown exactly the body its response has in the bytes received: the
   slice after its head decodes, under its framing, to that data and those trailers and to a
   clean end.
   */
  lemma NoSilentTruncation(cfg: Config, h: History, k: nat, n: nat)
    requires GoodConfig(cfg) && Safe(cfg, h) && k < |h.bodies| && h.bodies[k].receiverAlive && !h.bodies[k].senderAlive
    requires BC.Sees(h.bodies[k], n) == BC.SawEnd && forall i: nat :: i < n ==> !BC.Sees(h.bodies[k], i).SawError?
    ensures var b := h.bodies[k];
            && b.response < |h.recv| && BodyEnd(h.recv, b.response) <= |h.received|
            && h.recv[b.response].Complete()
            && h.recv[b.response].wire == h.received[BodyStart(h.recv, b.response)..BodyEnd(h.recv, b.response)]
            && DecodedFrom(cfg, h.recv[b.response], h.received[BodyStart(h.recv, b.response)..])
            && BC.Shown(b, n) == h.recv[b.response].data
            && forall t :: (exists i: nat :: i < n && BC.Sees(b, i) == BC.SawTrailers(t)) <==> h.recv[b.response].Trailers() == Some(t)
  {
    hide Safe, BC.DataOf, BC.NoFailure, BC.Sees, BC.Shown, Parses, Stable, GoodParser, Consumed, DecodedFrom;
    var b := h.bodies[k];
    BC.EndMeansAllSeen(b, n);
    EndedClean(cfg, h, k);
    ResponsesAreRead(cfg, h, b.response);
  }

  lemma EndedClean(cfg: Config, h: History, k: nat)
    requires GoodConfig(cfg) && Safe(cfg, h) && k < |h.bodies| && h.bodies[k].receiverAlive && BC.NoFailure(h.bodies[k].items)
    ensures var b := h.bodies[k];
            && b.response < |h.recv| && h.recv[b.response].Complete()
            && BC.DataOf(b.items) == h.recv[b.response].data && b.trailers == h.recv[b.response].Trailers()
  {
    hide Reads, RepliesOk, Wire, Consumed, Enc.Complete, AllFramed, Explained, BC.DataOf, BC.NoFailure, HeadBroken;
    assert BodyOk(h.bodies[k], h.recv);
  }

  /** Nothing is delivered that was not received: while no byte has arrived, no receiver has been handed any. */
  lemma NothingFromNothing(cfg: Config, h: History, k: nat)
    requires GoodConfig(cfg) && Safe(cfg, h) && k < |h.bodies| && h.bodies[k].receiverAlive && h.received == []
    ensures BC.DataOf(h.bodies[k].items) == []
  {
    NoBodyLeftOpen(cfg, h, k);
    hide Safe, BC.DataOf;
    var n := h.bodies[k].response;
    ResponsesAreRead(cfg, h, n);
    BodyMeant(cfg, h, n);
    assert h.recv[n].wire == [];
    NoWireNoData(cfg, h.recv[n]);
  }

  lemma BodyMeant(cfg: Config, h: History, k: nat)
    requires GoodConfig(cfg) && Safe(cfg, h) && k < |h.recv|
    ensures BodyMeaning(cfg.limits, cfg.trailerParser, h.recv[k])
  {
    hide GoodParser, Consumed, HeadMeaning, BodyMeaning, BodiesOk, RepliesOk, Explained, HeadBroken, AllFramed, Alternate, Wire, Enc.Complete, Reads;
    MeantAt(cfg, h.received, h.eof, h.recv, k);
  }

  lemma NoWireNoData(cfg: Config, r: Response)
    requires BodyMeaning(cfg.limits, cfg.trailerParser, r) && r.wire == []
    ensures r.data == []
  {
  }

  /**
   Every body channel is closed in the end. A live receiver has been handed exactly what was
   decoded, complete or not, and an error exactly if the response is incomplete.
   */
  lemma NoBodyLeftOpen(cfg: Config, h: History, k: nat)
    requires GoodConfig(cfg) && Safe(cfg, h) && k < |h.bodies|
    ensures !h.bodies[k].senderAlive && h.bodies[k].response < |h.recv|
    ensures h.bodies[k].receiverAlive ==> BC.DataOf(h.bodies[k].items) == h.recv[h.bodies[k].response].data
    ensures h.bodies[k].receiverAlive ==>
              (BC.NoFailure(h.bodies[k].items) <==> h.recv[h.bodies[k].response].Complete())
    ensures forall j :: k < j < |h.bodies| ==> h.bodies[k].response < h.bodies[j].response
  {
    hide Reads, RepliesOk, Wire, Consumed, Enc.Complete, AllFramed, Explained, HeadBroken, BC.DataOf, BC.NoFailure;
    assert BodyOk(h.bodies[k], h.recv);
  }

  // ---- what a safe history means: replies ----------------------------------

  /**
   Every accepted request has been resolved; a response resolves the request written in the
   same position; a message handed back was never written. That a reply, once given, stands is
   part of `Run`.
   */
  lemma RepliesAreExact(cfg: Config, h: History, id: Id)
    requires GoodConfig(cfg) && Safe(cfg, h) && id < |h.promises|
    ensures match h.promises[id]
            case Waiting => false
            case Resolved(Answered(k)) => k < |h.recv| && k < |h.sent| && h.sent[k].id == id
            case Resolved(Failed(back)) => back ==> forall k :: 0 <= k < |h.sent| ==> h.sent[k].id != id
  {
    hide Reads, Wire, Consumed, Enc.Complete, AllFramed, Explained, HeadBroken, BodiesOk;
    assert h.promises[id].Resolved?;
    assert ReplyOk(h.promises[id].reply, id, h.ids, |h.recv|);
  }

  /** Requests are written in the order they were accepted. */
  lemma RequestsInOrder(cfg: Config, h: History, i: nat, j: nat)
    requires GoodConfig(cfg) && Safe(cfg, h) && i < j < |h.sent|
    ensures h.sent[i].id < h.sent[j].id < |h.promises|
  {
    hide Reads, Wire, Consumed, Enc.Complete, AllFramed, Explained, HeadBroken, BodiesOk;
    assert h.ids[i] < h.ids[j];
  }

  /** The user's body said it failed, or ended short of the length it had promised. */
  predicate UserBodyFailed(req: UserRequest, s: Enc.Sent) {
    exists frame :: frame in req.frames
      && (frame.UserError? || (IsLast(frame) && s.framing.Length? && |Flatten(s.offered)| < s.framing.remaining))
  }

  lemma TheUsersFault(h: History, polled: seq<nat>)
    requires BodyFailed(h.requests, h.sent, polled)
    ensures UserBodyFailed(h.requests(h.sent[|h.sent| - 1].id), h.sent[|h.sent| - 1].body)
  {
    hide Flatten;
    var fs, k := h.requests(h.sent[|h.sent| - 1].id).frames, polled[|h.sent| - 1];
    assert fs[k - 1] in fs;
  }

  /**
   Nobody who waits is failed without a cause. A request whose message is lost either was given
   up by its user, or is the last one written, was never answered, and the dispatcher was dropped
   before it finished, the transport ended or failed, no response head could be had, or the
   request's own body failed.
   */
  lemma FailuresHaveCauses(cfg: Config, h: History, id: Id)
    requires GoodConfig(cfg) && Safe(cfg, h) && id < |h.promises| && h.promises[id] == Resolved(Failed(false))
    ensures id in h.canceled || (|h.sent| == |h.recv| + 1 && h.sent[|h.recv|].id == id)
    ensures id in h.canceled || !h.ended || TransportTrouble(h) || UserBodyFailed(h.requests(id), h.sent[|h.sent| - 1].body)
  {
    hide Reads, Wire, Consumed, Enc.Complete, AllFramed, HeadBroken, BodiesOk, AllCarry, EndCause;
    var polled :| Explained(h, polled);
    if id !in h.canceled {
      var k :| 0 <= k < |h.ids| && h.ids[k] == id;
      assert k >= |h.recv|;
      if BodyFailed(h.requests, h.sent, polled) { TheUsersFault(h, polled); }
    }
  }

  /** A dispatcher that finishes by itself has a cause, in what the users, the transport or the peer did. */
  lemma EndsHaveCauses(cfg: Config, h: History)
    requires GoodConfig(cfg) && Safe(cfg, h) && h.ended
    ensures || TransportTrouble(h) || h.noMore || SomeoneLeft(h.bodies) || (exists id :: id in h.canceled && id < |h.promises|)
            || (h.sent != [] && UserBodyFailed(h.requests(h.sent[|h.sent| - 1].id), h.sent[|h.sent| - 1].body))
            || (|h.sent| == |h.recv| && |h.received| > |Consumed(h.recv)|)
            || (|h.sent| == |h.recv| && h.recv != [] && NotReusable(h.sent[|h.sent| - 1], h.recv[|h.recv| - 1]))
  {
    hide Reads, Wire, Consumed, Enc.Complete, AllFramed, HeadBroken, BodiesOk, AllCarry, NotReusable, SomeoneLeft, RepliesOk;
    var polled :| Explained(h, polled);
    if BodyFailed(h.requests, h.sent, polled) { TheUsersFault(h, polled); }
  }
}
