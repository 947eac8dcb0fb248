/**
 The responses of a connection as a reading of the bytes it received: each head is what the
 parser finds where the previous response ended, each body what the decoder makes of the bytes
 after it. How those bytes were cut into reads plays no part.
 */
module ResponseStream {
  import opened Bytes
  import opened ConnHistory
  import opened Framing
  import opened ResponseHeads
  import ChunkedMachine
  import Dec = Decoder
  import Src = Source

  /** A record of responses that stands for what was received. */
  ghost predicate Reads(cfg: Config, received: ByteSeq, eof: bool, recv: seq<Response>)
    requires GoodConfig(cfg)
  {
    AllMeant(cfg, recv) && SeenOk(recv, received, eof) && Consumed(recv) <= received
  }

  /** Where the head of the i-th response starts, where its body does, and where it ends. */
  function HeadStart(recv: seq<Response>, i: nat): nat
    requires i < |recv|
  {
    |Consumed(recv[..i])|
  }

  function BodyStart(recv: seq<Response>, i: nat): nat
    requires i < |recv|
  {
    HeadStart(recv, i) + |recv[i].head|
  }

  function BodyEnd(recv: seq<Response>, i: nat): nat
    requires i < |recv|
  {
    BodyStart(recv, i) + |recv[i].wire|
  }

  lemma {:induction false} ConsumedPrefix(recv: seq<Response>, i: nat)
    requires i <= |recv|
    ensures Consumed(recv[..i]) <= Consumed(recv)
    decreases |recv| - i
  {
    if i < |recv| {
      ConsumedPrefix(recv, i + 1);
      ConsumedNext(recv, i);
    } else {
      assert recv[..i] == recv;
    }
  }

  lemma ConsumedNext(recv: seq<Response>, i: nat)
    requires i < |recv|
    ensures Consumed(recv[..i + 1]) == Consumed(recv[..i]) + recv[i].head + recv[i].wire
  {
    assert recv[..i + 1] == recv[..i] + [recv[i]];
    ConsumedWith(recv[..i], recv[i]);
  }

  /** Each response occupies its slice of the stream: head, then body. */
  lemma Slices(recv: seq<Response>, received: ByteSeq, i: nat)
    requires i < |recv| && Consumed(recv) <= received
    ensures BodyEnd(recv, i) <= |received| && BodyEnd(recv, i) == |Consumed(recv[..i + 1])|
    ensures recv[i].head == received[HeadStart(recv, i)..BodyStart(recv, i)]
    ensures recv[i].wire == received[BodyStart(recv, i)..BodyEnd(recv, i)]
  {
    ConsumedNext(recv, i);
    ConsumedPrefix(recv, i + 1);
    hide Consumed;
    PrefixOn(Consumed(recv[..i + 1]), Consumed(recv), received);
    var all := Consumed(recv[..i]) + recv[i].head + recv[i].wire;
    assert all == received[..|all|];
    assert all[HeadStart(recv, i)..BodyStart(recv, i)] == recv[i].head;
    assert all[BodyStart(recv, i)..] == recv[i].wire;
  }

  /** What the record says of the i-th response. */
  lemma MeantAt(cfg: Config, received: ByteSeq, eof: bool, recv: seq<Response>, i: nat)
    requires GoodConfig(cfg) && Reads(cfg, received, eof, recv) && i < |recv|
    ensures HeadMeaning(ParserAt(cfg, i), HeadStart(recv, i), recv[i])
    ensures BodyMeaning(cfg.limits, cfg.trailerParser, recv[i])
    ensures recv[i].seen <= received && Consumed(recv) <= received
    ensures recv[i].terminal.AtEof? ==> eof && i == |recv| - 1 && Consumed(recv) == received
  {
    hide HeadMeaning, BodyMeaning, GoodParser, Consumed;
    assert Meant(cfg, recv, i);
  }

  /** The i-th head is what a stable parser finds in the whole stream where the response before it ended. */
  lemma HeadIsParsed(cfg: Config, received: ByteSeq, eof: bool, recv: seq<Response>, i: nat)
    requires GoodConfig(cfg) && Reads(cfg, received, eof, recv) && i < |recv| && Stable(ParserAt(cfg, i))
    ensures BodyStart(recv, i) <= |received|
    ensures Parses(ParserAt(cfg, i), Some(recv[i].method_), received[HeadStart(recv, i)..],
                   Found(recv[i].Msg(), received[BodyStart(recv, i)..]))
  {
    hide Reads, Parses, Stable, GoodParser, BodyMeaning, Consumed;
    MeantAt(cfg, received, eof, recv, i);
    FoundInStream(ParserAt(cfg, i), HeadStart(recv, i), recv[i], received);
  }

  lemma FoundInStream(p: HeadParser, at: nat, r: Response, received: ByteSeq)
    requires GoodParser(p) && Stable(p) && HeadMeaning(p, at, r) && r.seen <= received
    ensures at + |r.head| <= |received|
    ensures Parses(p, Some(r.method_), received[at..], Found(r.Msg(), received[at + |r.head|..]))
  {
    hide Parses, Stable, GoodParser;
    var more, body := received[|r.seen|..], at + |r.head|;
    assert received == r.seen + more;
    FoundStands(p, Some(r.method_), r.seen[at..], r.Msg(), r.seen[body..], more);
    assert received[at..] == r.seen[at..] + more && received[body..] == r.seen[body..] + more;
  }

  /** A complete body is the front of the stream after its head that decodes completely, or all of it up to end of file. */
  lemma BodyIsDecoded(cfg: Config, received: ByteSeq, eof: bool, recv: seq<Response>, i: nat)
    requires GoodConfig(cfg) && Reads(cfg, received, eof, recv) && i < |recv| && recv[i].Complete()
    ensures BodyStart(recv, i) <= |received| && DecodedFrom(cfg, recv[i], received[BodyStart(recv, i)..])
    ensures recv[i].kind.CloseDelimited? ==> eof
  {
    hide Reads, GoodParser, HeadMeaning, BodyMeaning, Consumed, DecodedFrom;
    MeantAt(cfg, received, eof, recv, i);
    Slices(recv, received, i);
    var r, rest := recv[i], received[BodyStart(recv, i)..];
    if r.kind.CloseDelimited? {
      AtEndOfFile(cfg, r);
      assert recv[..i + 1] == recv;
      assert rest == r.wire;
    } else {
      assert rest == r.wire + received[BodyEnd(recv, i)..];
      CompleteStands(cfg, r, received[BodyEnd(recv, i)..]);
    }
  }

  /** A response body as the reading of the bytes that follow its head. */
  ghost predicate DecodedFrom(cfg: Config, r: Response, rest: ByteSeq) {
    if r.kind.CloseDelimited? then r.wire == rest == r.data && r.verdict == Dec.Complete(None)
    else forall t :: Dec.Decoded(cfg.limits, cfg.trailerParser, Origin(r.kind), rest, t) == Dec.Outcome(r.data, |r.wire|, r.verdict)
  }

  lemma AtEndOfFile(cfg: Config, r: Response)
    requires BodyMeaning(cfg.limits, cfg.trailerParser, r) && r.Complete() && r.kind.CloseDelimited?
    ensures r.terminal.AtEof? && DecodedFrom(cfg, r, r.wire)
  {
  }

  lemma CompleteStands(cfg: Config, r: Response, more: ByteSeq)
    requires BodyMeaning(cfg.limits, cfg.trailerParser, r) && r.Complete() && !r.kind.CloseDelimited?
    ensures DecodedFrom(cfg, r, r.wire + more)
  {
    hide ChunkedMachine.Feed;
    forall t ensures Dec.Decoded(cfg.limits, cfg.trailerParser, Origin(r.kind), r.wire + more, t) == Dec.Outcome(r.data, |r.wire|, r.verdict) {
      Dec.VerdictStands(cfg.limits, cfg.trailerParser, Origin(r.kind), r.wire, more, t);
    }
  }

  // ---- the stream determines the responses ---------------------------------

  /** Everything but when and how it was read. */
  predicate SameResponse(r: Response, s: Response) {
    && r.Msg() == s.Msg() && r.method_ == s.method_ && r.head == s.head
    && r.wire == s.wire && r.data == s.data && r.verdict == s.verdict
  }

  lemma SameHeads(cfg: Config, received: ByteSeq, eof1: bool, recv1: seq<Response>, eof2: bool, recv2: seq<Response>, i: nat)
    requires GoodConfig(cfg) && Reads(cfg, received, eof1, recv1) && Reads(cfg, received, eof2, recv2)
    requires i < |recv1| && i < |recv2| && HeadStart(recv1, i) == HeadStart(recv2, i) && Stable(ParserAt(cfg, i))
    requires recv1[i].method_ == recv2[i].method_
    ensures recv1[i].Msg() == recv2[i].Msg() && recv1[i].head == recv2[i].head
  {
    HeadIsParsed(cfg, received, eof1, recv1, i);
    HeadIsParsed(cfg, received, eof2, recv2, i);
    Slices(recv1, received, i);
    Slices(recv2, received, i);
    hide Parses, Stable, GoodParser, Reads, Consumed;
    var b1, b2 := received[BodyStart(recv1, i)..], received[BodyStart(recv2, i)..];
    ParsesOneWay(ParserAt(cfg, i), Some(recv1[i].method_), received[HeadStart(recv1, i)..], Found(recv1[i].Msg(), b1), Found(recv2[i].Msg(), b2));
    assert |b1| == |b2|;
  }

  lemma SameBodies(cfg: Config, received: ByteSeq, eof1: bool, recv1: seq<Response>, eof2: bool, recv2: seq<Response>, i: nat)
    requires GoodConfig(cfg) && Reads(cfg, received, eof1, recv1) && Reads(cfg, received, eof2, recv2)
    requires i < |recv1| && i < |recv2| && BodyStart(recv1, i) == BodyStart(recv2, i) && recv1[i].kind == recv2[i].kind
    requires recv1[i].Complete() && recv2[i].Complete()
    ensures recv1[i].wire == recv2[i].wire && recv1[i].data == recv2[i].data && recv1[i].verdict == recv2[i].verdict
  {
    hide Reads, Consumed, DecodedFrom, GoodParser, HeadMeaning, BodyMeaning;
    MeantAt(cfg, received, eof1, recv1, i);
    MeantAt(cfg, received, eof2, recv2, i);
    BodyIsDecoded(cfg, received, eof1, recv1, i);
    BodyIsDecoded(cfg, received, eof2, recv2, i);
    Slices(recv1, received, i);
    Slices(recv2, received, i);
    DecodedOneWay(cfg, recv1[i], recv2[i], received[BodyStart(recv1, i)..]);
    assert BodyEnd(recv1, i) == BodyEnd(recv2, i);
  }

  lemma DecodedOneWay(cfg: Config, r: Response, s: Response, rest: ByteSeq)
    requires DecodedFrom(cfg, r, rest) && DecodedFrom(cfg, s, rest) && r.kind == s.kind
    ensures |r.wire| == |s.wire| && r.data == s.data && r.verdict == s.verdict
  {
    hide Dec.Decoded;
    if !r.kind.CloseDelimited? {
      var o := Dec.Decoded(cfg.limits, cfg.trailerParser, Origin(r.kind), rest, Src.AtIdle);
      assert o == Dec.Outcome(r.data, |r.wire|, r.verdict);
    }
  }

  /**
   Two connections that received the same bytes in answer to requests of the same methods read
   the same responses, whatever the read boundaries, pending results and timing: the same heads,
   and the same bodies as far as both are complete.
   */
  lemma {:induction false} SameBytesSameResponses(cfg: Config, received: ByteSeq, eof1: bool, recv1: seq<Response>,
                                                  eof2: bool, recv2: seq<Response>, k: nat)
    requires GoodConfig(cfg) && Reads(cfg, received, eof1, recv1) && Reads(cfg, received, eof2, recv2)
    requires Stable(cfg.lenient) && Stable(cfg.strict) && k < |recv1| && k < |recv2|
    requires forall i :: 0 <= i <= k ==> recv1[i].method_ == recv2[i].method_
    requires forall i :: 0 <= i < k ==> recv1[i].Complete() && recv2[i].Complete()
    ensures HeadStart(recv1, k) == HeadStart(recv2, k)
    ensures recv1[k].Msg() == recv2[k].Msg() && recv1[k].head == recv2[k].head
    ensures recv1[k].Complete() && recv2[k].Complete() ==> SameResponse(recv1[k], recv2[k])
    ensures forall i :: 0 <= i < k ==> SameResponse(recv1[i], recv2[i])
  {
    hide Reads, Stable, GoodParser;
    if k == 0 {
      assert recv1[..0] == [] == recv2[..0];
    } else {
      SameBytesSameResponses(cfg, received, eof1, recv1, eof2, recv2, k - 1);
      ConsumedNext(recv1, k - 1);
      ConsumedNext(recv2, k - 1);
    }
    hide Consumed;
    SameHeads(cfg, received, eof1, recv1, eof2, recv2, k);
    if recv1[k].Complete() && recv2[k].Complete() { SameBodies(cfg, received, eof1, recv1, eof2, recv2, k); }
  }
}
