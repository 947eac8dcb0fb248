/**
 The byte-at-a-time chunked state machine of decode.rs, as pure transitions.

 `Step` is one `ChunkedState::read_*` call that has got its byte; `Feed` is the
 machine run over a byte string, one byte at a time, which is the reference the
 polling decoder (module Decoder) is proved to refine for every way the reads
 are cut.
 */
module ChunkedMachine {
  import opened Bytes

  const EXTENSIONS_LIMIT: nat := 1024 * 16

  datatype State =
    | Start | Size | SizeLws | Extension | SizeLf
    | Body | BodyCr | BodyLf
    | Trailer | TrailerLf | EndCr | EndLf | End

  datatype Error =
    | MissingSizeDigit | InvalidSize | InvalidLws | ExtensionNewline | ExtensionsOverLimit
    | InvalidSizeLf | InvalidBodyCr | InvalidBodyLf | InvalidTrailerLf | InvalidEndLf
    | SizeOverflow | TrailerBytesOverLimit | TrailerCountOverflow
    | UnexpectedEof | IncompleteBody | InvalidTrailers | Io

  /** `maxLines` is `h1_max_headers`, 100 unless set; `maxBytes` is `h1_max_header_size`, 16 KiB unless set. */
  datatype Limits = Limits(maxLines: nat, maxBytes: nat)

  datatype Machine = Machine(
    state: State,
    len: nat,
    extensions: nat,
    trailers: Option<ByteSeq>,
    lines: nat)

  const INITIAL := Machine(Start, 0, 0, None, 0)

  datatype Stepped = Next(m: Machine) | Fail(error: Error)

  function HexDigit(b: Byte): (r: Option<nat>)
    ensures r.Some? ==> r.value < 16
  {
    if 48 <= b <= 57 then Some(b - 48)
    else if 97 <= b <= 102 then Some(b + 10 - 97)
    else if 65 <= b <= 70 then Some(b + 10 - 65)
    else None
  }

  /** The hexadecimal digits of either case, and nothing else. */
  lemma HexDigits(b: Byte)
    ensures forall d :: 0 <= d < 16 && (b == "0123456789abcdef"[d] as int || b == "0123456789ABCDEF"[d] as int) ==> HexDigit(b) == Some(d)
    ensures HexDigit(b).Some? ==> b == "0123456789abcdef"[HexDigit(b).value] as int || b == "0123456789ABCDEF"[HexDigit(b).value] as int
  {
  }

  /** `checked_mul(16)` followed by `checked_add(digit)` on a u64. */
  function PushDigit(m: Machine, d: nat): Stepped {
    if m.len * 16 >= TWO_64 then Fail(SizeOverflow)
    else if m.len * 16 + d >= TWO_64 then Fail(SizeOverflow)
    else Next(m.(state := Size, len := m.len * 16 + d))
  }

  function IsLws(b: Byte): bool {
    b == TAB || b == SP
  }

  function ReadStart(m: Machine, b: Byte): Stepped {
    match HexDigit(b)
    case Some(d) => PushDigit(m, d)
    case None => Fail(MissingSizeDigit)
  }

  function ReadSize(m: Machine, b: Byte): Stepped {
    match HexDigit(b)
    case Some(d) => PushDigit(m, d)
    case None =>
      if IsLws(b) then Next(m.(state := SizeLws))
      else if b == SEMICOLON then Next(m.(state := Extension))
      else if b == CR then Next(m.(state := SizeLf))
      else Fail(InvalidSize)
  }

  function ReadSizeLws(m: Machine, b: Byte): Stepped {
    if IsLws(b) then Next(m)
    else if b == SEMICOLON then Next(m.(state := Extension))
    else if b == CR then Next(m.(state := SizeLf))
    else Fail(InvalidLws)
  }

  function ReadExtension(m: Machine, b: Byte): Stepped {
    if b == CR then Next(m.(state := SizeLf))
    else if b == LF then Fail(ExtensionNewline)
    else if m.extensions + 1 >= EXTENSIONS_LIMIT then Fail(ExtensionsOverLimit)
    else Next(m.(extensions := m.extensions + 1))
  }

  function ReadSizeLf(m: Machine, b: Byte): Stepped {
    if b == LF then Next(m.(state := if m.len == 0 then EndCr else Body))
    else Fail(InvalidSizeLf)
  }

  function ReadBodyCr(m: Machine, b: Byte): Stepped {
    if b == CR then Next(m.(state := BodyLf)) else Fail(InvalidBodyCr)
  }

  function ReadBodyLf(m: Machine, b: Byte): Stepped {
    if b == LF then Next(m.(state := Start)) else Fail(InvalidBodyLf)
  }

  /** The `put_u8!` macro: append, then refuse once the limit is reached. */
  function Put(lim: Limits, m: Machine, t: ByteSeq, b: Byte, next: State): Stepped {
    if |t| + 1 >= lim.maxBytes then Fail(TrailerBytesOverLimit)
    else Next(m.(state := next, trailers := Some(t + [b])))
  }

  function ReadTrailer(lim: Limits, m: Machine, b: Byte): Stepped
    requires m.trailers.Some?
  {
    Put(lim, m, m.trailers.value, b, if b == CR then TrailerLf else Trailer)
  }

  function ReadTrailerLf(lim: Limits, m: Machine, b: Byte): Stepped
    requires m.trailers.Some?
  {
    if b != LF then Fail(InvalidTrailerLf)
    else if m.lines >= lim.maxLines then Fail(TrailerCountOverflow)
    else Put(lim, m.(lines := m.lines + 1), m.trailers.value, b, EndCr)
  }

  function ReadEndCr(lim: Limits, m: Machine, b: Byte): Stepped {
    if b == CR then
      if m.trailers.Some? then Put(lim, m, m.trailers.value, b, EndLf)
      else Next(m.(state := EndLf))
    else if m.trailers.Some? then Put(lim, m, m.trailers.value, b, Trailer)
    else Next(m.(state := Trailer, trailers := Some([b])))
  }

  function ReadEndLf(lim: Limits, m: Machine, b: Byte): Stepped {
    if b != LF then Fail(InvalidEndLf)
    else if m.trailers.Some? then Put(lim, m, m.trailers.value, b, End)
    else Next(m.(state := End))
  }

  /** What every reachable machine satisfies; `expect("trailers_buf is None")` can never fire. */
  predicate Reached(lim: Limits, m: Machine) {
    && m.len < TWO_64
    && m.extensions < EXTENSIONS_LIMIT
    && m.lines <= lim.maxLines
    && (m.state.Trailer? || m.state.TrailerLf? ==> m.trailers.Some?)
    && (m.state.Body? ==> m.len > 0)
    && (m.state in {Start, BodyCr, BodyLf, EndCr, EndLf, Trailer, TrailerLf, End} ==> m.len == 0)
    && (m.trailers.Some? ==> m.state in {Trailer, TrailerLf, EndCr, EndLf, End})
    && (m.state.End? && m.trailers.Some? ==> |m.trailers.value| < lim.maxBytes)
  }

  function Step(lim: Limits, m: Machine, b: Byte): (r: Stepped)
    requires Reached(lim, m) && !m.state.Body? && !m.state.End?
    ensures r.Next? ==> Reached(lim, r.m)
  {
    match m.state
    case Start => ReadStart(m, b)
    case Size => ReadSize(m, b)
    case SizeLws => ReadSizeLws(m, b)
    case Extension => ReadExtension(m, b)
    case SizeLf => ReadSizeLf(m, b)
    case BodyCr => ReadBodyCr(m, b)
    case BodyLf => ReadBodyLf(m, b)
    case Trailer => ReadTrailer(lim, m, b)
    case TrailerLf => ReadTrailerLf(lim, m, b)
    case EndCr => ReadEndCr(lim, m, b)
    case EndLf => ReadEndLf(lim, m, b)
  }

  /** `read_body` given a slice of `n` bytes: the machine after them. */
  function TakeBody(m: Machine, n: nat): Machine
    requires n <= m.len
  {
    m.(len := m.len - n, state := if m.len == n then BodyCr else Body)
  }

  /** Outcome of running over a byte string: machine reached, data bytes, bytes used, error. */
  datatype Fed = Fed(m: Machine, data: ByteSeq, used: nat, error: Option<Error>)

  function Feed(lim: Limits, m: Machine, s: ByteSeq): (r: Fed)
    requires Reached(lim, m)
    ensures r.used <= |s| && Reached(lim, r.m)
    ensures r.error == None ==> r.used == |s| || r.m.state.End?
    decreases |s|
  {
    if s == [] || m.state.End? then Fed(m, [], 0, None)
    else if m.state.Body? then
      var r := Feed(lim, TakeBody(m, 1), s[1..]);
      Fed(r.m, [s[0]] + r.data, r.used + 1, r.error)
    else match Step(lim, m, s[0])
      case Fail(e) => Fed(m, [], 1, Some(e))
      case Next(m1) =>
        var r := Feed(lim, m1, s[1..]);
        Fed(r.m, r.data, r.used + 1, r.error)
  }

  /** Running on: the second part continues from where the first part left the machine. */
  function Then(first: Fed, second: Fed): Fed {
    Fed(second.m, first.data + second.data, first.used + second.used, second.error)
  }

  /** Feeding in two pieces is feeding the concatenation, so where a read ends cannot matter. */
  lemma {:induction false} FeedSplit(lim: Limits, m: Machine, a: ByteSeq, b: ByteSeq)
    requires Reached(lim, m)
    requires Feed(lim, m, a).error == None
    ensures Feed(lim, m, a + b) == Then(Feed(lim, m, a), Feed(lim, Feed(lim, m, a).m, b))
    decreases |a|
  {
    hide Feed, Step;
    FeedStops(lim, m, a);
    FeedStops(lim, m, a + b);
    FeedStops(lim, m, b);
    if a == [] {
      assert a + b == b;
    } else if !m.state.End? {
      assert (a + b)[1..] == a[1..] + b;
      if m.state.Body? {
        FeedFirstBody(lim, m, a);
        FeedFirstBody(lim, m, a + b);
        FeedSplit(lim, TakeBody(m, 1), a[1..], b);
      } else {
        FeedFirst(lim, m, a);
        FeedFirst(lim, m, a + b);
        FeedSplit(lim, Step(lim, m, a[0]).m, a[1..], b);
      }
    }
  }

  /** An error is final: whatever follows, it is the same error after the same number of bytes. */
  lemma {:induction false} FeedErrorIsFinal(lim: Limits, m: Machine, a: ByteSeq, b: ByteSeq)
    requires Reached(lim, m)
    requires Feed(lim, m, a).error.Some?
    ensures Feed(lim, m, a + b) == Feed(lim, m, a)
    decreases |a|
  {
    assert (a + b)[1..] == a[1..] + b;
    if m.state.Body? {
      FeedErrorIsFinal(lim, TakeBody(m, 1), a[1..], b);
    } else if Step(lim, m, a[0]).Next? {
      FeedErrorIsFinal(lim, Step(lim, m, a[0]).m, a[1..], b);
    }
  }

  lemma FeedStops(lim: Limits, m: Machine, s: ByteSeq)
    requires Reached(lim, m)
    ensures s == [] || m.state.End? ==> Feed(lim, m, s) == Fed(m, [], 0, None)
  {
  }

  lemma FeedFirst(lim: Limits, m: Machine, s: ByteSeq)
    requires Reached(lim, m) && !m.state.Body? && !m.state.End? && s != []
    ensures Step(lim, m, s[0]).Fail? ==> Feed(lim, m, s) == Fed(m, [], 1, Some(Step(lim, m, s[0]).error))
    ensures Step(lim, m, s[0]).Next? ==>
              var r := Feed(lim, Step(lim, m, s[0]).m, s[1..]);
              Feed(lim, m, s) == Fed(r.m, r.data, r.used + 1, r.error)
  {
  }

  lemma FeedFirstBody(lim: Limits, m: Machine, s: ByteSeq)
    requires Reached(lim, m) && m.state.Body? && s != []
    ensures Reached(lim, TakeBody(m, 1))
    ensures var r := Feed(lim, TakeBody(m, 1), s[1..]);
            Feed(lim, m, s) == Fed(r.m, [s[0]] + r.data, r.used + 1, r.error)
  {
  }

  lemma FeedOne(lim: Limits, m: Machine, b: Byte)
    requires Reached(lim, m) && !m.state.Body? && !m.state.End?
    ensures Feed(lim, m, [b]) == match Step(lim, m, b)
                                 case Next(m1) => Fed(m1, [], 1, None)
                                 case Fail(e) => Fed(m, [], 1, Some(e))
  {
    assert [b][1..] == [];
  }

  /** A slice taken whole in `Body` is the same as its bytes one at a time. */
  lemma {:induction false} FeedBody(lim: Limits, m: Machine, s: ByteSeq)
    requires Reached(lim, m) && m.state.Body?
    requires 0 < |s| <= m.len
    ensures Feed(lim, m, s) == Fed(TakeBody(m, |s|), s, |s|, None)
    decreases |s|
  {
    if |s| > 1 {
      FeedBody(lim, TakeBody(m, 1), s[1..]);
      assert [s[0]] + s[1..] == s;
    } else {
      assert s[1..] == [];
      assert [s[0]] + [] == s;
    }
  }
}
