/**
 `Decoder::decode` of decode.rs for its three kinds, as a polling object over a
 `Source`, proved against a one-shot reference that sees the whole stream.
 */
module Decoder {
  import opened Bytes
  import opened ChunkedMachine
  import opened Source

  type Headers = seq<(ByteSeq, ByteSeq)>

  /** The foreign trailer parser (`httparse::parse_headers` and the header constructors). */
  type TrailerParser = (ByteSeq, nat) -> Option<Headers>

  datatype Kind = Length(remaining: nat) | Chunked(m: Machine) | Eof(isEof: bool)

  datatype Frame = Data(bytes: ByteSeq) | Trailers(headers: Headers)

  /** `Decoder::is_eof`. */
  predicate IsEof(k: Kind) {
    k == Length(0) || (k.Chunked? && k.m.state.End?) || k == Eof(true)
  }

  predicate OkKind(lim: Limits, k: Kind) {
    k.Chunked? ==> Reached(lim, k.m)
  }

  // ---- reference: the whole stream at once ---------------------------------

  datatype Ran = Ran(kind: Kind, data: ByteSeq, used: nat, error: Option<Error>)

  /** What the bytes of `s` alone do to a decoder. */
  function Run(lim: Limits, k: Kind, s: ByteSeq): (r: Ran)
    requires OkKind(lim, k)
    ensures OkKind(lim, r.kind) && r.used <= |s|
  {
    match k
    case Length(n) => var t := Min(n, |s|); Ran(Length(n - t), s[..t], t, None)
    case Eof(done) => if done then Ran(k, [], 0, None) else Ran(k, s, |s|, None)
    case Chunked(m) => var r := Feed(lim, m, s); Ran(Chunked(r.m), r.data, r.used, r.error)
  }

  /** `Waiting` is the only verdict that further input can change. */
  datatype Verdict = Complete(trailers: Option<Headers>) | Broken(error: Error) | Waiting

  datatype Outcome = Outcome(data: ByteSeq, used: nat, verdict: Verdict)

  /** What `decode` does on reaching `End`: check the line count, then parse the section. */
  function Finish(lim: Limits, parser: TrailerParser, k: Kind): Verdict {
    if k.Chunked? && k.m.trailers.Some? then
      if k.m.lines >= lim.maxLines then Broken(TrailerCountOverflow)
      else match parser(k.m.trailers.value, k.m.lines)
        case Some(h) => Complete(Some(h))
        case None => Broken(InvalidTrailers)
    else Complete(None)
  }

  /** End of file in the middle of a body. */
  function Truncated(k: Kind): Verdict {
    match k
    case Length(_) => Broken(IncompleteBody)
    case Chunked(m) => Broken(if m.state.Body? then IncompleteBody else UnexpectedEof)
    case Eof(_) => Complete(None)
  }

  /** The reference: data, bytes used and verdict as a function of the byte stream and its end. */
  function Decoded(lim: Limits, parser: TrailerParser, k: Kind, s: ByteSeq, t: Terminal): Outcome
    requires OkKind(lim, k)
  {
    var r := Run(lim, k, s);
    Outcome(r.data, r.used,
            if r.error.Some? then Broken(r.error.value)
            else if IsEof(r.kind) then Finish(lim, parser, r.kind)
            else match t
              case AtIdle => Waiting
              case AtFailure => Broken(Io)
              case AtEof => Truncated(r.kind))
  }

  lemma RunSplit(lim: Limits, k: Kind, a: ByteSeq, b: ByteSeq)
    requires OkKind(lim, k)
    requires Run(lim, k, a).error == None && Run(lim, k, a).used == |a|
    ensures var r := Run(lim, k, a); var r2 := Run(lim, r.kind, b);
            Run(lim, k, a + b) == Ran(r2.kind, r.data + r2.data, |a| + r2.used, r2.error)
  {
    match k
    case Length(n) =>
      var t := Min(n, |a + b|);
      assert (a + b)[..t] == a + b[..Min(n - |a|, |b|)];
    case Eof(_) =>
      if k.isEof { assert a + b == b; }
    case Chunked(m) => FeedSplit(lim, m, a, b);
  }

  /** A verdict other than `Waiting` reached on a prefix stands for the whole stream. */
  lemma VerdictStands(lim: Limits, parser: TrailerParser, k: Kind, a: ByteSeq, b: ByteSeq, t: Terminal)
    requires OkKind(lim, k)
    requires Decoded(lim, parser, k, a, AtIdle).verdict != Waiting
    ensures Decoded(lim, parser, k, a + b, t) == Decoded(lim, parser, k, a, AtIdle)
  {
    var r := Run(lim, k, a);
    match k
    case Length(n) => assert (a + b)[..n] == a[..n];
    case Eof(_) =>
    case Chunked(m) =>
      if r.error.Some? {
        FeedErrorIsFinal(lim, m, a, b);
      } else {
        FeedSplit(lim, m, a, b);
        assert r.data + [] == r.data;
      }
  }

  lemma RunBody(lim: Limits, m: Machine, s: ByteSeq)
    requires Reached(lim, m) && m.state.Body? && 0 < |s| <= m.len
    ensures Run(lim, Chunked(m), s) == Ran(Chunked(TakeBody(m, |s|)), s, |s|, None)
    ensures Reached(lim, TakeBody(m, |s|))
  {
    FeedBody(lim, m, s);
  }

  // ---- the polling decoder -------------------------------------------------

  class Decoder {
    const limits: Limits
    const parser: TrailerParser
    var kind: Kind

    /** Its record: how it was made, what had been taken before, the bytes taken since, how reading ended, the data yielded, the verdict. */
    var origin: Kind
    var base: ByteSeq
    var fed: ByteSeq
    var terminal: Terminal
    var out: ByteSeq
    var verdict: Verdict

    /** The decoder always stands where the reference stands on the bytes taken so far. */
    ghost predicate Valid()
      reads this
    {
      && OkKind(limits, origin) && OkKind(limits, kind)
      && Decoded(limits, parser, origin, fed, terminal) == Outcome(out, |fed|, verdict)
      && (verdict.Waiting? ==> Ran(kind, out, |fed|, None) == Run(limits, origin, fed) && terminal == AtIdle)
      && (verdict.Complete? ==> IsEof(kind) && (kind.Chunked? ==> kind.m.trailers == None))
      && (verdict.Waiting? ==> !IsEof(kind))
    }

    constructor (limits: Limits, parser: TrailerParser, k: Kind)
      requires k == Chunked(INITIAL) || k == Eof(false) || k.Length?
      ensures Valid() && kind == origin == k && fed == [] && out == [] && base == []
      ensures this.limits == limits && this.parser == parser
      ensures verdict == if k == Length(0) then Complete(None) else Waiting
      ensures terminal == AtIdle
    {
      this.limits, this.parser, kind := limits, parser, k;
      base := [];
      origin, fed, terminal, out := k, [], AtIdle, [];
      verdict := if k == Length(0) then Complete(None) else Waiting;
    }

    /** A new decoder for the next body, in the place of the old one. */
    method Reset(k: Kind, taken: ByteSeq)
      requires k == Chunked(INITIAL) || k == Eof(false) || k.Length?
      modifies this
      ensures Valid() && kind == origin == k && fed == [] && out == [] && base == taken
      ensures verdict == if k == Length(0) then Complete(None) else Waiting
      ensures terminal == AtIdle
    {
      kind := k;
      base := taken;
      origin, fed, terminal, out := k, [], AtIdle, [];
      verdict := if k == Length(0) then Complete(None) else Waiting;
    }

    /** What a call does to the source: the bytes it fed are the next bytes of the stream, in order. */
    twostate predicate Took(src: Source)
      reads this, src
    {
      && origin == old(origin) && base == old(base)
      && (old(src.taken) == base + old(fed) ==> src.taken == base + fed)
      && old(src.received) <= src.received && src.Left() <= old(src.Left()) && src.dropped == old(src.dropped)
      && (terminal == AtIdle ==> fed + src.Ahead() == old(fed + src.Ahead()) && src.End() == old(src.End()))
      && (terminal != AtIdle && old(terminal) == AtIdle ==> fed == old(fed + src.Ahead()) && old(src.End()) == terminal)
      && (terminal == AtEof && old(terminal) == AtIdle ==> src.eof && src.buf == [])
      && (old(src.eof) ==> src.eof && src.received == old(src.received)) && (old(src.failed) ==> src.failed)
      && src.strategy.MaxSize() == old(src.strategy).MaxSize()
    }

    /** Account for bytes just taken from the source. */
    method Feed(s: ByteSeq)
      requires Valid() && verdict.Waiting?
      modifies this`fed, this`out, this`verdict
      ensures fed == old(fed) + s && OkKind(limits, kind)
      ensures var r := Run(limits, old(kind), s);
              && out == old(out) + r.data
              && Run(limits, origin, fed) == Ran(r.kind, out, |old(fed)| + r.used, r.error)
              && (r.error.Some? ==> verdict == Broken(r.error.value))
              && (r.error == None && !IsEof(r.kind) ==> verdict == Waiting)
              && (r.error == None && IsEof(r.kind) ==> verdict == Finish(limits, parser, r.kind))
              && Decoded(limits, parser, origin, fed, AtIdle) == Outcome(out, |old(fed)| + r.used, verdict)
    {
      hide ChunkedMachine.Feed, Step;
      RunSplit(limits, origin, fed, s);
      fed := fed + s;
      out := Run(limits, origin, fed).data;
      verdict := Decoded(limits, parser, origin, fed, AtIdle).verdict;
    }

    /** Account for a read that found the end of the transport. */
    method Stop(t: Terminal)
      requires Valid() && verdict.Waiting? && t != AtIdle
      modifies this`terminal, this`verdict
      ensures terminal == t && verdict == if t == AtEof then Truncated(kind) else Broken(Io)
      ensures Decoded(limits, parser, origin, fed, terminal) == Outcome(out, |fed|, verdict)
    {
      hide ChunkedMachine.Feed, Step;
      terminal := t;
      verdict := Decoded(limits, parser, origin, fed, terminal).verdict;
    }

    /** Bytes of a counted body: count them down. */
    method AcceptLength(s: ByteSeq)
      requires Valid() && kind.Length? && verdict.Waiting? && 0 < |s| <= kind.remaining
      modifies this`kind, this`fed, this`out, this`verdict
      ensures Valid() && fed == old(fed) + s && out == old(out) + s && terminal == AtIdle
      ensures !verdict.Broken? && (verdict.Complete? <==> IsEof(kind)) && (verdict.Complete? ==> verdict.trailers == None)
    {
      hide ChunkedMachine.Feed, Step;
      Feed(s);
      kind := Length(kind.remaining - |s|);
      assert s[..|s|] == s;
    }

    /** `Length`: as many bytes as are available, up to what remains. */
    method DecodeLength(src: Source) returns (r: Poll<Result<Frame, Error>>)
      requires Valid() && src.Valid() && kind.Length? && verdict.Waiting?
      modifies this, src
      ensures Valid() && src.Valid() && Took(src) && Yields(r)
      ensures Progress(r, src)
    {
      hide Run, Decoded, Finish, Upcoming, TerminalOf, Weight;
      var p := src.ReadMem(kind.remaining);
      match p
      case Pending => r := Pending;
      case Ready(Err(_)) =>
        Stop(AtFailure);
        r := Ready(Err(Io));
      case Ready(Ok(s)) =>
        if s == [] {
          Stop(AtEof);
          r := Ready(Err(IncompleteBody));
        } else {
          AcceptLength(s);
          r := Ready(Ok(Data(s)));
        }
    }

    /** Bytes of a close-delimited body; none is its end. */
    method AcceptUntilEof(s: ByteSeq)
      requires Valid() && kind.Eof? && verdict.Waiting?
      modifies this`kind, this`fed, this`out, this`verdict, this`terminal
      ensures Valid() && fed == old(fed) + s && out == old(out) + s
      ensures if s == [] then kind == Eof(true) && terminal == AtEof && verdict == Complete(None)
              else kind == old(kind) && terminal == AtIdle && verdict.Waiting?
    {
      hide ChunkedMachine.Feed, Step;
      if s == [] {
        Stop(AtEof);
        kind := Eof(true);
        assert out + [] == out && fed + [] == fed;
      } else {
        Feed(s);
      }
    }

    /** `Eof`: everything until end of file. */
    method DecodeEof(src: Source) returns (r: Poll<Result<Frame, Error>>)
      requires Valid() && src.Valid() && kind.Eof? && verdict.Waiting?
      modifies this, src
      ensures Valid() && src.Valid() && Took(src) && Yields(r)
      ensures Progress(r, src)
    {
      hide Run, Decoded, Finish, Upcoming, TerminalOf, Weight;
      var p := src.ReadMem(8192);
      match p
      case Pending => r := Pending;
      case Ready(Err(_)) =>
        Stop(AtFailure);
        r := Ready(Err(Io));
      case Ready(Ok(s)) =>
        AcceptUntilEof(s);
        r := Ready(Ok(Data(s)));
    }

    /** `read_body` with a slice in hand: shorten the chunk by it. */
    method AcceptSlice(s: ByteSeq)
      requires Valid() && kind.Chunked? && kind.m.state.Body? && verdict.Waiting?
      requires 0 < |s| <= kind.m.len
      modifies this`kind, this`fed, this`out, this`verdict
      ensures Valid() && kind.Chunked? && verdict.Waiting?
      ensures fed == old(fed) + s && out == old(out) + s
    {
      hide ChunkedMachine.Feed, Step;
      var m := kind.m;
      RunBody(limits, m, s);
      Feed(s);
      kind := Chunked(TakeBody(m, |s|));
    }

    /** `ChunkedState::step` in `Body`: a slice of any size up to what the chunk still holds. */
    method StepBody(src: Source) returns (r: Poll<Result<ByteSeq, Error>>)
      requires Valid() && src.Valid() && kind.Chunked? && kind.m.state.Body? && verdict.Waiting?
      modifies this, src
      ensures Valid() && src.Valid() && Took(src)
      ensures r.Pending? ==> verdict.Waiting? && out == old(out) && kind == old(kind)
      ensures r.Ready? && r.value.Ok? ==>
                kind.Chunked? && verdict.Waiting? && r.value.value != [] && out == old(out) + r.value.value
      ensures r.Ready? && r.value.Err? ==> verdict == Broken(r.value.error) && out == old(out)
      ensures (r.Ready? && verdict.Waiting? ==> src.Left() < old(src.Left()))
              && (r.Pending? ==> src.buf == [] && (src.Left() < old(src.Left()) || src.script == []))
    {
      hide Run, Decoded, Finish, Upcoming, TerminalOf, Weight;
      var m := kind.m;
      var p := src.ReadMem(m.len);
      match p
      case Pending => r := Pending;
      case Ready(Err(_)) =>
        Stop(AtFailure);
        r := Ready(Err(Io));
      case Ready(Ok(s)) =>
        if s == [] {
          Stop(AtEof);
          kind := Chunked(m.(len := 0, state := BodyCr));
          r := Ready(Err(IncompleteBody));
        } else {
          AcceptSlice(s);
          r := Ready(Ok(s));
        }
    }

    /** After a successful byte step: still waiting, or in `End` with the tail of the loop to run. */
    ghost predicate Stepped()
      reads this
    {
      && kind.Chunked? && terminal == AtIdle
      && (!kind.m.state.End? ==> Valid() && verdict.Waiting?)
      && (kind.m.state.End? ==> Ended())
    }

    ghost predicate Ended()
      reads this
    {
      && kind.Chunked? && kind.m.state.End? && OkKind(limits, kind) && OkKind(limits, origin)
      && verdict == Finish(limits, parser, kind) && terminal == AtIdle
      && Decoded(limits, parser, origin, fed, terminal) == Outcome(out, |fed|, verdict)
    }

    /** One byte in hand outside `Body`: the transition of the state machine. */
    method AcceptByte(b: Byte) returns (r: Result<(), Error>)
      requires Valid() && kind.Chunked? && !kind.m.state.Body? && verdict.Waiting?
      modifies this`kind, this`fed, this`out, this`verdict
      ensures fed == old(fed) + [b] && out == old(out) && terminal == AtIdle
      ensures r.Ok? ==> Stepped()
      ensures r.Err? ==> verdict == Broken(r.error) && Valid()
    {
      hide ChunkedMachine.Feed;
      var m := kind.m;
      FeedOne(limits, m, b);
      Feed([b]);
      assert old(out) + [] == old(out);
      match Step(limits, m, b)
      case Next(m1) =>
        kind := Chunked(m1);
        r := Ok(());
      case Fail(e) => r := Err(e);
    }

    /** `ChunkedState::step` outside `Body`: exactly one byte; a pending read changes nothing. */
    method StepByte(src: Source) returns (r: Poll<Result<(), Error>>)
      requires Valid() && src.Valid() && kind.Chunked? && !kind.m.state.Body? && verdict.Waiting?
      modifies this, src
      ensures src.Valid() && Took(src) && out == old(out)
      ensures r.Ready? && r.value.Ok? ==> Stepped()
      ensures r.Pending? ==> verdict.Waiting? && kind == old(kind) && Valid()
      ensures r.Ready? && r.value.Err? ==> verdict == Broken(r.value.error) && Valid()
      ensures (r.Ready? ==> src.Left() < old(src.Left()))
              && (r.Pending? ==> src.buf == [] && (src.Left() < old(src.Left()) || src.script == []))
    {
      hide Run, Decoded, Finish, Upcoming, TerminalOf, Weight;
      var p := src.ReadMem(1);
      match p
      case Pending => r := Pending;
      case Ready(Err(_)) =>
        Stop(AtFailure);
        r := Ready(Err(Io));
      case Ready(Ok(s)) =>
        if s == [] {
          Stop(AtEof);
          r := Ready(Err(UnexpectedEof));
        } else {
          var stepped := AcceptByte(s[0]);
          assert s == [s[0]];
          r := Ready(stepped);
        }
    }

    /** What a call may return, tied to the data yielded and the verdict. */
    twostate predicate Yields(new r: Poll<Result<Frame, Error>>)
      reads this
    {
      match r
      case Pending => verdict.Waiting? && out == old(out)
      case Ready(Ok(Data(d))) =>
        && out == old(out) + d
        && !verdict.Broken?
        && (verdict.Complete? <==> IsEof(kind))
        && (d == [] ==> IsEof(kind))
        && (verdict.Complete? ==> verdict.trailers == None || old(verdict) == verdict)
      case Ready(Ok(Trailers(h))) => out == old(out) && verdict == Complete(Some(h)) && IsEof(kind)
      case Ready(Err(e)) => out == old(out) && verdict == Broken(e)
    }

    /** Each call that is not the last one uses something up. */
    twostate predicate Progress(new r: Poll<Result<Frame, Error>>, src: Source)
      reads this, src
    {
      && (r.Ready? && verdict.Waiting? ==> src.Left() < old(src.Left()))
      && (r.Pending? ==> src.buf == [] && (src.Left() < old(src.Left()) || src.script == []))
    }

    /** `Chunked`: step until there is a slice to return, the body ends, or the source blocks. */
    method DecodeChunked(src: Source) returns (r: Poll<Result<Frame, Error>>)
      requires Valid() && src.Valid() && kind.Chunked? && verdict.Waiting?
      modifies this, src
      ensures Valid() && src.Valid() && Took(src) && Yields(r)
      ensures Progress(r, src)
    {
      hide Run, Decoded, Finish, Truncated;
      while !kind.m.state.Body?
        invariant Valid() && src.Valid() && kind.Chunked? && verdict.Waiting?
        invariant Took(src) && out == old(out)
        decreases src.Left()
      {
        var p := StepByte(src);
        match p
        case Pending => return Pending;
        case Ready(Err(e)) => return Ready(Err(e));
        case Ready(Ok(_)) =>
          if kind.m.state.End? {
            r := EndOfChunked();
            return;
          }
      }
      var p := StepBody(src);
      match p
      case Pending => r := Pending;
      case Ready(Err(e)) => r := Ready(Err(e));
      case Ready(Ok(s)) => r := Ready(Ok(Data(s)));
    }

    /** The tail of the chunked loop in state `End`: refuse too many lines, else parse trailers. */
    method EndOfChunked() returns (r: Poll<Result<Frame, Error>>)
      requires Ended()
      modifies this`kind
      ensures Valid() && r.Ready? && IsEof(kind)
      ensures match r.value
              case Ok(Data(d)) => d == [] && verdict == Complete(None)
              case Ok(Trailers(h)) => verdict == Complete(Some(h))
              case Err(e) => verdict == Broken(e)
    {
      hide ChunkedMachine.Feed, Step, Run;
      if kind.m.trailers.None? {
        return Ready(Ok(Data([])));
      }
      if kind.m.lines >= limits.maxLines {
        return Ready(Err(TrailerCountOverflow));
      }
      var parsed := parser(kind.m.trailers.value, kind.m.lines);
      kind := Chunked(kind.m.(trailers := None));
      match parsed
      case Some(h) => r := Ready(Ok(Trailers(h)));
      case None => r := Ready(Err(InvalidTrailers));
    }

    /**
     `Decoder::decode`. Whatever the read sizes and pending results, the state afterwards is
     the reference on the bytes taken, an empty data frame comes only at the end of the body,
     and decoding a finished body again yields an empty frame and takes nothing.
     */
    method Decode(src: Source) returns (r: Poll<Result<Frame, Error>>)
      requires Valid() && src.Valid() && !verdict.Broken?
      modifies this, src
      ensures Valid() && src.Valid() && Took(src) && Yields(r)
      ensures Progress(r, src)
    {
      hide Run, Decoded, Finish, Truncated;
      if IsEof(kind) {
        assert out + [] == out;
        return Ready(Ok(Data([])));
      }
      match kind
      case Length(_) => r := DecodeLength(src);
      case Eof(_) => r := DecodeEof(src);
      case Chunked(_) => r := DecodeChunked(src);
    }
  }

  /**
   Poll until the body ends, breaks, or the transport has nothing more to say. The result
   is the reference applied to the stream: it does not depend on how the stream is cut
   into reads nor on where reads were pending, for all three kinds and all bytes.
   */
  method ReadToEnd(limits: Limits, parser: TrailerParser, k: Kind, script: seq<IoEvent>)
    returns (data: ByteSeq, used: nat, verdict: Verdict)
    requires k == Chunked(INITIAL) || k == Eof(false) || k.Length?
    ensures Outcome(data, used, verdict) == Decoded(limits, parser, k, Upcoming(script), TerminalOf(script))
  {
    hide ChunkedMachine.Feed, Step, Truncated;
    var src := new Source(script, ReadStrategy.WithMax(ReadStrategy.DEFAULT_MAX_BUFFER_SIZE));
    var d := new Decoder(limits, parser, k);
    ghost var stream := Upcoming(script);
    assert src.Ahead() == stream;
    data, used, verdict := [], 0, Waiting;
    if IsEof(k) {
      VerdictStands(limits, parser, k, [], stream, TerminalOf(script));
      assert [] + stream == stream;
      return [], 0, Complete(None);
    }
    while verdict == Waiting
      invariant d.Valid() && src.Valid() && d.origin == k && d.verdict == verdict
      invariant d.limits == limits && d.parser == parser
      invariant d.terminal == AtIdle ==> stream == d.fed + src.Ahead() && src.End() == TerminalOf(script)
      invariant d.terminal != AtIdle ==> stream == d.fed && d.terminal == TerminalOf(script)
      invariant data == d.out && d.base == [] && src.taken == d.base + d.fed
      decreases verdict == Waiting, src.Left()
    {
      var r := d.Decode(src);
      assert d.base + d.fed == d.fed;
      match r
      case Pending =>
        if src.script == [] {
          assert stream == d.fed;
          used := |src.taken|;
          return;
        }
      case Ready(Ok(Data(bytes))) =>
        data := data + bytes;
        if IsEof(d.kind) { verdict := Complete(None); }
      case Ready(Ok(Trailers(h))) => verdict := Complete(Some(h));
      case Ready(Err(e)) => verdict := Broken(e);
    }
    used := |src.taken|;
    if d.terminal == AtIdle {
      VerdictStands(limits, parser, k, d.fed, src.Ahead(), TerminalOf(script));
    }
  }
}
