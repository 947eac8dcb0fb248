/** Both ends of the HTTP/1 body codec together: what is encoded reads back, and what reads back as complete. */
module BodyRoundTrip {
  import opened Bytes
  import opened ChunkedMachine
  import opened ChunkedGrammar
  import opened Decoder
  import Enc = Encoder
  import Src = Source

  function FieldsOf(s: Enc.Sent): seq<Enc.Field> {
    if s.ending.EndedWith? then s.ending.fields else []
  }

  /** The receiver has room for the trailers, and fewer lines than its limit, as `decode` asks at the end. */
  predicate Receivable(lim: Limits, s: Enc.Sent)
    requires Enc.FieldsOk(FieldsOf(s))
  {
    Enc.Admits(lim, FieldsOf(s)) && (FieldsOf(s) != [] ==> |FieldsOf(s)| < lim.maxLines)
  }

  /** The decoder a recipient makes for a framing. */
  function DecoderFor(k: Enc.Kind): Kind {
    match k case Length(n) => Length(n) case Chunked(_) => Chunked(INITIAL)
  }

  /** The verdict on a complete body: its trailers are whatever the trailer parser makes of the fields sent. */
  function Received(parser: TrailerParser, fs: seq<Enc.Field>): Verdict
    requires Enc.FieldsOk(fs)
  {
    if fs == [] then Complete(None)
    else match parser(Enc.WriteHeaders(fs) + CRLF, |fs|)
      case Some(h) => Complete(Some(h))
      case None => Broken(InvalidTrailers)
  }

  lemma SentDecodes(lim: Limits, parser: TrailerParser, s: Enc.Sent, following: ByteSeq, t: Src.Terminal)
    requires Enc.Complete(s) && Receivable(lim, s)
    ensures Decoded(lim, parser, DecoderFor(s.framing), s.body + following, t)
            == Outcome(if s.framing.Chunked? then Flatten(s.offered) else s.body, |s.body|,
                       if s.framing.Chunked? then Received(parser, FieldsOf(s)) else Complete(None))
  {
    hide Feed, Enc.WriteHeaders, Enc.ChunksBytes, Flatten;
    if s.framing.Chunked? {
      Enc.ChunkedRoundTrip(lim, s, following);
    } else {
      assert (s.body + following)[..|s.body|] == s.body;
    }
  }

  /**
   Round trip through both codecs: for every complete request body, every way its bytes and
   whatever follows are split into reads with pending results in between, the recipient's
   decoder yields exactly the data, stops after exactly the body and leaves the rest unread.
   */
  method ReadBack(lim: Limits, parser: TrailerParser, s: Enc.Sent, ghost following: ByteSeq, script: seq<Src.IoEvent>)
    returns (data: ByteSeq, used: nat, verdict: Verdict)
    requires Enc.Complete(s) && Receivable(lim, s)
    requires Src.Upcoming(script) == s.body + following
    ensures data == if s.framing.Chunked? then Flatten(s.offered) else s.body
    ensures used == |s.body|
    ensures verdict == if s.framing.Chunked? then Received(parser, FieldsOf(s)) else Complete(None)
  {
    hide Enc.Complete, Receivable, Decoded, Received, Src.Upcoming;
    SentDecodes(lim, parser, s, following, Src.TerminalOf(script));
    data, used, verdict := ReadToEnd(lim, parser, DecoderFor(s.framing), script);
  }

  /** A body of a given length completes exactly when that many bytes come, and is cut there. */
  lemma LengthCompletes(lim: Limits, parser: TrailerParser, n: nat, s: ByteSeq, t: Src.Terminal)
    ensures var o := Decoded(lim, parser, Length(n), s, t);
            && (o.verdict.Complete? <==> |s| >= n) && o.data == s[..o.used] && o.used == Min(n, |s|)
            && (o.verdict.Complete? ==> o.verdict.trailers == None)
            && (|s| < n ==> o.verdict == match t
                                         case AtIdle => Waiting
                                         case AtFailure => Broken(Io)
                                         case AtEof => Broken(IncompleteBody))
  {
  }

  /** A body up to the end of the connection is all that comes, and completes only there. */
  lemma EofCompletes(lim: Limits, parser: TrailerParser, s: ByteSeq, t: Src.Terminal)
    ensures Decoded(lim, parser, Eof(false), s, t)
            == Outcome(s, |s|, match t case AtIdle => Waiting case AtFailure => Broken(Io) case AtEof => Complete(None))
  {
  }

  /** A grammatical chunked body that a decoder with these limits and this trailer parser completes. */
  predicate Completes(lim: Limits, parser: TrailerParser, b: ChunkedBody) {
    && Grammatical(b) && WithinLimits(lim, b)
    && (b.trailers != [] ==> |b.trailers| < lim.maxLines && parser(RenderTrailers(b.trailers), |b.trailers|).Some?)
  }

  /** A body that completes does so whatever follows it and however the stream ends. */
  lemma CompletedIf(lim: Limits, parser: TrailerParser, b: ChunkedBody, following: ByteSeq, t: Src.Terminal)
    requires Completes(lim, parser, b)
    ensures var o := Decoded(lim, parser, Chunked(INITIAL), Render(b) + following, t);
            o.verdict.Complete? && o.data == Payload(b.chunks) && o.used == |Render(b)|
  {
    hide Feed, Render, Payload, Grammatical, WithinLimits;
    AcceptsGrammar(lim, b, following);
  }

  /** Nothing else completes: the bytes used are such a body, and the data is its payload. */
  lemma CompletedOnlyIf(lim: Limits, parser: TrailerParser, s: ByteSeq, t: Src.Terminal) returns (b: ChunkedBody)
    requires Decoded(lim, parser, Chunked(INITIAL), s, t).verdict.Complete?
    ensures var o := Decoded(lim, parser, Chunked(INITIAL), s, t);
            Completes(lim, parser, b) && Render(b) == s[..o.used] && Payload(b.chunks) == o.data
  {
    hide Feed, Render, Payload, Grammatical, WithinLimits;
    b := AcceptedIsGrammatical(lim, s);
  }
}
