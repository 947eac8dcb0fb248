/**
 A declarative grammar of chunked bodies (section 7.1 of RFC 9112, with the
 leniencies of decode.rs) and the proof that the state machine accepts exactly
 that language, within exactly the limits of the source.

 The grammar knows nothing of states: a body is a list of size lines with data,
 a zero-size line and a list of trailer lines.
 */
module ChunkedGrammar {
  import opened Bytes
  import opened ChunkedMachine

  /** `digits`, blanks, and an optional extension that follows a semicolon. */
  datatype SizeLine = SizeLine(digits: ByteSeq, blanks: ByteSeq, extension: Option<ByteSeq>)
  datatype Chunk = Chunk(line: SizeLine, data: ByteSeq)
  datatype ChunkedBody = ChunkedBody(chunks: seq<Chunk>, last: SizeLine, trailers: seq<ByteSeq>)

  // ---- rendering -----------------------------------------------------------

  function ExtensionPart(e: Option<ByteSeq>): ByteSeq {
    match e case None => [] case Some(x) => [59] + x
  }

  function RenderLine(l: SizeLine): ByteSeq {
    l.digits + (l.blanks + (ExtensionPart(l.extension) + CRLF))
  }

  function RenderChunk(c: Chunk): ByteSeq {
    RenderLine(c.line) + (c.data + CRLF)
  }

  function RenderChunks(cs: seq<Chunk>): ByteSeq {
    if cs == [] then [] else RenderChunk(cs[0]) + RenderChunks(cs[1..])
  }

  function RenderTrailers(ts: seq<ByteSeq>): ByteSeq {
    if ts == [] then CRLF else ts[0] + (CRLF + RenderTrailers(ts[1..]))
  }

  function Render(b: ChunkedBody): ByteSeq {
    RenderChunks(b.chunks) + (RenderLine(b.last) + RenderTrailers(b.trailers))
  }

  function Payload(cs: seq<Chunk>): ByteSeq {
    if cs == [] then [] else cs[0].data + Payload(cs[1..])
  }

  /** The bytes handed to the trailer parser, if there is a trailer section at all. */
  function TrailerSection(ts: seq<ByteSeq>): Option<ByteSeq> {
    if ts == [] then None else Some(RenderTrailers(ts))
  }

  // ---- well-formedness -----------------------------------------------------

  predicate AllHex(s: ByteSeq) {
    forall i :: 0 <= i < |s| ==> HexDigit(s[i]).Some?
  }

  predicate AllLws(s: ByteSeq) {
    forall i :: 0 <= i < |s| ==> s[i] == 9 || s[i] == 32
  }

  predicate Without(s: ByteSeq, b: Byte) {
    forall i :: 0 <= i < |s| ==> s[i] != b
  }

  /** The number a digit string denotes, continuing from `v`. */
  function ValueFrom(v: nat, digits: ByteSeq): nat
    requires AllHex(digits)
    decreases |digits|
  {
    if digits == [] then v
    else ValueFrom(v * 16 + HexDigit(digits[0]).value, digits[1..])
  }

  predicate ExtensionOk(e: Option<ByteSeq>) {
    e.Some? ==> Without(e.value, CR) && Without(e.value, LF)
  }

  predicate LineOk(l: SizeLine) {
    AllHex(l.digits) && AllLws(l.blanks) && ExtensionOk(l.extension)
  }

  /** A size line announcing exactly `n` bytes. */
  predicate Announces(l: SizeLine, n: nat) {
    LineOk(l) && l.digits != [] && ValueFrom(0, l.digits) == n < TWO_64
  }

  predicate ChunkOk(c: Chunk) {
    c.data != [] && Announces(c.line, |c.data|)
  }

  predicate TrailerOk(t: ByteSeq) {
    t != [] && Without(t, CR)
  }

  function ExtensionBytes(e: Option<ByteSeq>): nat {
    if e.Some? then |e.value| else 0
  }

  function ExtensionTotal(cs: seq<Chunk>): nat {
    if cs == [] then 0 else ExtensionBytes(cs[0].line.extension) + ExtensionTotal(cs[1..])
  }

  predicate Grammatical(b: ChunkedBody) {
    && (forall i :: 0 <= i < |b.chunks| ==> ChunkOk(b.chunks[i]))
    && Announces(b.last, 0)
    && (forall i :: 0 <= i < |b.trailers| ==> TrailerOk(b.trailers[i]))
  }

  /** The limits the source enforces, stated on the body rather than on counters. */
  predicate WithinLimits(lim: Limits, b: ChunkedBody) {
    && ExtensionTotal(b.chunks) + ExtensionBytes(b.last.extension) < 16384
    && |b.trailers| <= lim.maxLines
    && (b.trailers != [] ==> |RenderTrailers(b.trailers)| < lim.maxBytes)
  }

  function Accepted(b: ChunkedBody): Machine {
    Machine(End, 0, ExtensionTotal(b.chunks) + ExtensionBytes(b.last.extension),
            TrailerSection(b.trailers), |b.trailers|)
  }

  // ---- completeness: every grammatical body within limits is accepted ------

  /** `s` takes `m` to `m2`, yielding `data`, with nothing left over and no error. */
  predicate Drives(lim: Limits, m: Machine, s: ByteSeq, m2: Machine, data: ByteSeq) {
    Reached(lim, m) && Feed(lim, m, s) == Fed(m2, data, |s|, None)
  }

  lemma DrivesOn(lim: Limits, m: Machine, a: ByteSeq, m1: Machine, d1: ByteSeq, b: ByteSeq, m2: Machine, d2: ByteSeq)
    requires Drives(lim, m, a, m1, d1) && Drives(lim, m1, b, m2, d2)
    ensures Drives(lim, m, a + b, m2, d1 + d2)
  {
    FeedSplit(lim, m, a, b);
  }

  lemma DrivesOne(lim: Limits, m: Machine, b: Byte, m2: Machine)
    requires Reached(lim, m) && !m.state.Body? && !m.state.End? && Step(lim, m, b) == Next(m2)
    ensures Drives(lim, m, [b], m2, [])
  {
    assert [b][1..] == [];
  }

  lemma DrivesNothing(lim: Limits, m: Machine)
    requires Reached(lim, m)
    ensures Drives(lim, m, [], m, [])
  {
  }

  lemma {:induction false} ValueGrows(v: nat, digits: ByteSeq)
    requires AllHex(digits)
    ensures ValueFrom(v, digits) >= v
    decreases |digits|
  {
    if digits != [] {
      ValueGrows(v * 16 + HexDigit(digits[0]).value, digits[1..]);
    }
  }

  lemma {:induction false} DrivesDigits(lim: Limits, m: Machine, digits: ByteSeq)
    requires Reached(lim, m) && (m.state.Start? || m.state.Size?)
    requires AllHex(digits) && ValueFrom(m.len, digits) < TWO_64
    requires m.state.Start? ==> digits != []
    ensures Drives(lim, m, digits, m.(state := Size, len := ValueFrom(m.len, digits)), [])
    decreases |digits|
  {
    hide Feed;
    DrivesNothing(lim, m);
    if digits != [] {
      var m1 := m.(state := Size, len := m.len * 16 + HexDigit(digits[0]).value);
      ValueGrows(m1.len, digits[1..]);
      DrivesOne(lim, m, digits[0], m1);
      DrivesDigits(lim, m1, digits[1..]);
      DrivesOn(lim, m, [digits[0]], m1, [], digits[1..], m1.(len := ValueFrom(m.len, digits)), []);
      assert [digits[0]] + digits[1..] == digits;
    }
  }

  lemma {:induction false} DrivesBlanks(lim: Limits, m: Machine, blanks: ByteSeq)
    requires Reached(lim, m) && (m.state.Size? || m.state.SizeLws?) && AllLws(blanks)
    ensures Drives(lim, m, blanks, m.(state := if blanks == [] then m.state else SizeLws), [])
    decreases |blanks|
  {
    hide Feed;
    DrivesNothing(lim, m);
    if blanks != [] {
      var m1 := m.(state := SizeLws);
      DrivesOne(lim, m, blanks[0], m1);
      DrivesBlanks(lim, m1, blanks[1..]);
      DrivesOn(lim, m, [blanks[0]], m1, [], blanks[1..], m1, []);
      assert [blanks[0]] + blanks[1..] == blanks;
    }
  }

  lemma {:induction false} DrivesExtension(lim: Limits, m: Machine, e: ByteSeq)
    requires Reached(lim, m) && m.state.Extension?
    requires Without(e, CR) && Without(e, LF) && m.extensions + |e| < EXTENSIONS_LIMIT
    ensures Drives(lim, m, e, m.(extensions := m.extensions + |e|), [])
    decreases |e|
  {
    hide Feed;
    DrivesNothing(lim, m);
    if e != [] {
      var m1 := m.(extensions := m.extensions + 1);
      DrivesOne(lim, m, e[0], m1);
      DrivesExtension(lim, m1, e[1..]);
      DrivesOn(lim, m, [e[0]], m1, [], e[1..], m1.(extensions := m.extensions + |e|), []);
      assert [e[0]] + e[1..] == e;
    }
  }

  /** The machine once a size line has been read. */
  function AfterLine(m: Machine, n: nat, e: Option<ByteSeq>): Machine {
    m.(state := if n == 0 then EndCr else Body, len := n, extensions := m.extensions + ExtensionBytes(e))
  }

  lemma DrivesLineEnd(lim: Limits, m: Machine, e: Option<ByteSeq>)
    requires Reached(lim, m) && (m.state.Size? || m.state.SizeLws?)
    requires ExtensionOk(e) && m.extensions + ExtensionBytes(e) < EXTENSIONS_LIMIT
    ensures Drives(lim, m, ExtensionPart(e) + CRLF, AfterLine(m, m.len, e), [])
  {
    hide Feed;
    var m1 := m.(extensions := m.extensions + ExtensionBytes(e), state := if e.Some? then Extension else m.state);
    DrivesNothing(lim, m);
    if e.Some? {
      var m0 := m.(state := Extension);
      DrivesOne(lim, m, SEMICOLON, m0);
      DrivesExtension(lim, m0, e.value);
      DrivesOn(lim, m, [SEMICOLON], m0, [], e.value, m1, []);
    }
    assert Drives(lim, m, ExtensionPart(e), m1, []);
    var m2 := m1.(state := SizeLf);
    DrivesOne(lim, m1, CR, m2);
    DrivesOne(lim, m2, LF, AfterLine(m, m.len, e));
    DrivesOn(lim, m1, [CR], m2, [], [LF], AfterLine(m, m.len, e), []);
    assert [CR] + [LF] == CRLF;
    DrivesOn(lim, m, ExtensionPart(e), m1, [], CRLF, AfterLine(m, m.len, e), []);
  }

  lemma DrivesLine(lim: Limits, m: Machine, l: SizeLine, n: nat)
    requires Reached(lim, m) && m.state.Start? && Announces(l, n)
    requires m.extensions + ExtensionBytes(l.extension) < EXTENSIONS_LIMIT
    ensures Drives(lim, m, RenderLine(l), AfterLine(m, n, l.extension), [])
  {
    hide Feed;
    var m1 := m.(state := Size, len := n);
    DrivesDigits(lim, m, l.digits);
    DrivesBlanks(lim, m1, l.blanks);
    var m2 := m1.(state := if l.blanks == [] then Size else SizeLws);
    DrivesLineEnd(lim, m2, l.extension);
    var tail := ExtensionPart(l.extension) + CRLF;
    DrivesOn(lim, m1, l.blanks, m2, [], tail, AfterLine(m, n, l.extension), []);
    DrivesOn(lim, m, l.digits, m1, [], l.blanks + tail, AfterLine(m, n, l.extension), []);
  }

  lemma DrivesChunk(lim: Limits, m: Machine, c: Chunk)
    requires Reached(lim, m) && m.state.Start? && ChunkOk(c)
    requires m.extensions + ExtensionBytes(c.line.extension) < EXTENSIONS_LIMIT
    ensures Drives(lim, m, RenderChunk(c), m.(extensions := m.extensions + ExtensionBytes(c.line.extension)), c.data)
  {
    var m1 := AfterLine(m, |c.data|, c.line.extension);
    DrivesLine(lim, m, c.line, |c.data|);
    FeedBody(lim, m1, c.data);
    var m2 := TakeBody(m1, |c.data|);
    var m3 := m2.(state := BodyLf);
    var m4 := m2.(state := Start);
    DrivesOne(lim, m2, CR, m3);
    DrivesOne(lim, m3, LF, m4);
    DrivesOn(lim, m2, [CR], m3, [], [LF], m4, []);
    assert [CR] + [LF] == CRLF;
    DrivesOn(lim, m1, c.data, m2, c.data, CRLF, m4, []);
    DrivesOn(lim, m, RenderLine(c.line), m1, [], c.data + CRLF, m4, c.data + []);
    assert [] + (c.data + []) == c.data;
  }

  lemma {:induction false} DrivesChunks(lim: Limits, m: Machine, cs: seq<Chunk>)
    requires Reached(lim, m) && m.state.Start?
    requires forall i :: 0 <= i < |cs| ==> ChunkOk(cs[i])
    requires m.extensions + ExtensionTotal(cs) < EXTENSIONS_LIMIT
    ensures Drives(lim, m, RenderChunks(cs), m.(extensions := m.extensions + ExtensionTotal(cs)), Payload(cs))
    decreases |cs|
  {
    hide Feed;
    DrivesNothing(lim, m);
    if cs != [] {
      DrivesChunk(lim, m, cs[0]);
      var m1 := m.(extensions := m.extensions + ExtensionBytes(cs[0].line.extension));
      DrivesChunks(lim, m1, cs[1..]);
      DrivesOn(lim, m, RenderChunk(cs[0]), m1, cs[0].data, RenderChunks(cs[1..]),
               m.(extensions := m.extensions + ExtensionTotal(cs)), Payload(cs[1..]));
    }
  }

  /** Bytes inside a trailer line, after its first one. */
  lemma {:induction false} DrivesTrailerText(lim: Limits, m: Machine, w: ByteSeq)
    requires Reached(lim, m) && m.state.Trailer? && Without(w, CR)
    requires |m.trailers.value| + |w| < lim.maxBytes
    ensures Drives(lim, m, w, m.(trailers := Some(m.trailers.value + w)), [])
    decreases |w|
  {
    hide Feed;
    DrivesNothing(lim, m);
    if w == [] {
      assert m.trailers.value + w == m.trailers.value;
    } else {
      var m1 := m.(trailers := Some(m.trailers.value + [w[0]]));
      DrivesOne(lim, m, w[0], m1);
      DrivesTrailerText(lim, m1, w[1..]);
      assert [w[0]] + w[1..] == w;
      assert m1.trailers.value + w[1..] == m.trailers.value + w;
      DrivesOn(lim, m, [w[0]], m1, [], w[1..], m.(trailers := Some(m.trailers.value + w)), []);
    }
  }

  function TrailersSoFar(m: Machine): ByteSeq {
    if m.trailers.Some? then m.trailers.value else []
  }

  lemma DrivesTrailerLine(lim: Limits, m: Machine, t: ByteSeq)
    requires Reached(lim, m) && m.state.EndCr? && TrailerOk(t)
    requires |TrailersSoFar(m)| + |t| + 2 < lim.maxBytes && m.lines < lim.maxLines
    ensures Drives(lim, m, t + CRLF, m.(trailers := Some(TrailersSoFar(m) + (t + CRLF)), lines := m.lines + 1), [])
  {
    hide Feed;
    var was := TrailersSoFar(m);
    var m1 := m.(state := Trailer, trailers := Some(was + [t[0]]));
    assert [] + [t[0]] == [t[0]];
    DrivesOne(lim, m, t[0], m1);
    DrivesTrailerText(lim, m1, t[1..]);
    assert was + [t[0]] + t[1..] == was + t;
    assert [t[0]] + t[1..] == t;
    var m2 := m1.(trailers := Some(was + t));
    DrivesOn(lim, m, [t[0]], m1, [], t[1..], m2, []);
    var m3 := m2.(state := TrailerLf, trailers := Some(was + t + [CR]));
    var m4 := m.(trailers := Some(was + (t + CRLF)), lines := m.lines + 1);
    assert was + t + [CR] + [LF] == was + (t + CRLF);
    DrivesOne(lim, m2, CR, m3);
    DrivesOne(lim, m3, LF, m4);
    DrivesOn(lim, m2, [CR], m3, [], [LF], m4, []);
    assert [CR] + [LF] == CRLF;
    DrivesOn(lim, m, t, m2, [], CRLF, m4, []);
  }

  lemma {:induction false} DrivesTrailers(lim: Limits, m: Machine, ts: seq<ByteSeq>)
    requires Reached(lim, m) && m.state.EndCr?
    requires forall i :: 0 <= i < |ts| ==> TrailerOk(ts[i])
    requires m.lines + |ts| <= lim.maxLines
    requires m.trailers.Some? || ts != [] ==> |TrailersSoFar(m)| + |RenderTrailers(ts)| < lim.maxBytes
    ensures Drives(lim, m, RenderTrailers(ts),
                   m.(state := End, lines := m.lines + |ts|,
                      trailers := if m.trailers.None? && ts == [] then None
                                  else Some(TrailersSoFar(m) + RenderTrailers(ts))), [])
    decreases |ts|
  {
    hide Feed;
    var was := TrailersSoFar(m);
    if ts == [] {
      var m1 := m.(state := EndLf, trailers := if m.trailers.Some? then Some(was + [CR]) else None);
      var m2 := m.(state := End, trailers := if m.trailers.Some? then Some(was + CRLF) else None);
      assert was + [CR] + [LF] == was + CRLF;
      DrivesOne(lim, m, CR, m1);
      DrivesOne(lim, m1, LF, m2);
      DrivesOn(lim, m, [CR], m1, [], [LF], m2, []);
      assert [CR] + [LF] == CRLF;
    } else {
      var m1 := m.(trailers := Some(was + (ts[0] + CRLF)), lines := m.lines + 1);
      DrivesTrailerLine(lim, m, ts[0]);
      DrivesTrailers(lim, m1, ts[1..]);
      var m2 := m.(state := End, lines := m.lines + |ts|, trailers := Some(was + RenderTrailers(ts)));
      assert was + (ts[0] + CRLF) + RenderTrailers(ts[1..]) == was + RenderTrailers(ts);
      DrivesOn(lim, m, ts[0] + CRLF, m1, [], RenderTrailers(ts[1..]), m2, []);
      assert (ts[0] + CRLF) + RenderTrailers(ts[1..]) == RenderTrailers(ts);
    }
  }

  lemma DrivesBody(lim: Limits, b: ChunkedBody)
    requires Grammatical(b) && WithinLimits(lim, b)
    ensures Drives(lim, INITIAL, Render(b), Accepted(b), Payload(b.chunks))
  {
    hide Feed;
    var m1 := INITIAL.(extensions := ExtensionTotal(b.chunks));
    DrivesChunks(lim, INITIAL, b.chunks);
    var m2 := AfterLine(m1, 0, b.last.extension);
    DrivesLine(lim, m1, b.last, 0);
    DrivesTrailers(lim, m2, b.trailers);
    assert [] + RenderTrailers(b.trailers) == RenderTrailers(b.trailers);
    DrivesOn(lim, m1, RenderLine(b.last), m2, [], RenderTrailers(b.trailers), Accepted(b), []);
    DrivesOn(lim, INITIAL, RenderChunks(b.chunks), m1, Payload(b.chunks),
             RenderLine(b.last) + RenderTrailers(b.trailers), Accepted(b), []);
    assert Payload(b.chunks) + [] == Payload(b.chunks);
  }

  /**
   Every grammatical body within the limits is accepted: the machine stops in `End`
   right after it, has yielded exactly its payload, and leaves what follows unread.
   */
  lemma AcceptsGrammar(lim: Limits, b: ChunkedBody, following: ByteSeq)
    requires Grammatical(b) && WithinLimits(lim, b)
    ensures Feed(lim, INITIAL, Render(b) + following)
            == Fed(Accepted(b), Payload(b.chunks), |Render(b)|, None)
  {
    DrivesBody(lim, b);
    FeedSplit(lim, INITIAL, Render(b), following);
    assert Payload(b.chunks) + [] == Payload(b.chunks);
  }

  // ---- soundness: whatever is accepted is grammatical and within limits ----

  /** Accepts all of `s`: the machine ends in `End` exactly at the end of `s`. */
  predicate AcceptsAll(lim: Limits, m: Machine, s: ByteSeq) {
    && Reached(lim, m)
    && Feed(lim, m, s).error == None
    && Feed(lim, m, s).m.state.End?
    && Feed(lim, m, s).used == |s|
  }

  /** Accepting `s` from `m` and `rest` from `m2` with the same end and the same data after `data`. */
  predicate Continues(lim: Limits, m: Machine, s: ByteSeq, m2: Machine, rest: ByteSeq, data: ByteSeq) {
    && AcceptsAll(lim, m, s) && AcceptsAll(lim, m2, rest)
    && Feed(lim, m, s).m == Feed(lim, m2, rest).m
    && Feed(lim, m, s).data == data + Feed(lim, m2, rest).data
  }

  lemma ContinuesStep(lim: Limits, m: Machine, s: ByteSeq) returns (m1: Machine)
    requires AcceptsAll(lim, m, s) && !m.state.Body? && !m.state.End?
    ensures s != [] && Step(lim, m, s[0]) == Next(m1) && Continues(lim, m, s, m1, s[1..], [])
  {
    m1 := Step(lim, m, s[0]).m;
    assert [] + Feed(lim, m1, s[1..]).data == Feed(lim, m1, s[1..]).data;
  }

  lemma ContinuesOn(lim: Limits, m: Machine, s: ByteSeq, m1: Machine, s1: ByteSeq, d1: ByteSeq,
                    m2: Machine, s2: ByteSeq, d2: ByteSeq)
    requires Continues(lim, m, s, m1, s1, d1) && Continues(lim, m1, s1, m2, s2, d2)
    ensures Continues(lim, m, s, m2, s2, d1 + d2)
  {
    assert d1 + (d2 + Feed(lim, m2, s2).data) == (d1 + d2) + Feed(lim, m2, s2).data;
  }

  /** What is left of a size line in a state in the middle of one. */
  function LineFrom(st: State, l: SizeLine): ByteSeq {
    match st
    case Extension => ExtensionBytesOf(l.extension) + CRLF
    case SizeLf => [LF]
    case SizeLws => l.blanks + (ExtensionPart(l.extension) + CRLF)
    case _ => RenderLine(l)
  }

  function ExtensionBytesOf(e: Option<ByteSeq>): ByteSeq {
    if e.Some? then e.value else []
  }

  predicate LineFromOk(st: State, l: SizeLine) {
    && LineOk(l)
    && (st.Start? ==> l.digits != [])
    && (st.SizeLws? || st.Extension? || st.SizeLf? ==> l.digits == [])
    && (st.Extension? || st.SizeLf? ==> l.blanks == [])
    && (st.Extension? ==> l.extension.Some?)
    && (st.SizeLf? ==> l.extension == None)
  }

  /** In the middle of a size line, the rest of an accepted string starts with the rest of a line. */
  lemma {:induction false} LineRecovered(lim: Limits, m: Machine, s: ByteSeq) returns (l: SizeLine, rest: ByteSeq)
    requires AcceptsAll(lim, m, s)
    requires m.state in {Start, Size, SizeLws, Extension, SizeLf}
    ensures LineFromOk(m.state, l) && ValueFrom(m.len, l.digits) < TWO_64
    ensures s == LineFrom(m.state, l) + rest
    ensures |rest| < |s|
    ensures Continues(lim, m, s, AfterLine(m, ValueFrom(m.len, l.digits), l.extension), rest, [])
    decreases |s|
  {
    hide Feed;
    var m1 := ContinuesStep(lim, m, s);
    var b := s[0];
    assert s == [b] + s[1..];
    if m.state.SizeLf? {
      l, rest := SizeLine([], [], None), s[1..];
    } else {
      var l1, rest1 := LineRecovered(lim, m1, s[1..]);
      l, rest := AddByte(m, b, m1, l1), rest1;
      LineByteAdded(lim, m, b, m1, l1, rest);
      ContinuesOn(lim, m, s, m1, s[1..], [],
                  AfterLine(m1, ValueFrom(m1.len, l1.digits), l1.extension), rest, []);
    }
  }

  /** The line seen from one byte earlier. */
  function AddByte(m: Machine, b: Byte, m1: Machine, l1: SizeLine): SizeLine {
    match m1.state
    case Size => l1.(digits := [b] + l1.digits)
    case SizeLws => l1.(blanks := [b] + l1.blanks)
    case Extension =>
      if m.state.Extension? then l1.(extension := Some([b] + ExtensionBytesOf(l1.extension))) else l1
    case _ => SizeLine([], [], if m.state.Extension? then Some([]) else None)
  }

  lemma LineByteAdded(lim: Limits, m: Machine, b: Byte, m1: Machine, l1: SizeLine, rest: ByteSeq)
    requires Reached(lim, m) && m.state in {Start, Size, SizeLws, Extension} && Step(lim, m, b) == Next(m1)
    requires LineFromOk(m1.state, l1)
    ensures var l := AddByte(m, b, m1, l1);
            && [b] + (LineFrom(m1.state, l1) + rest) == LineFrom(m.state, l) + rest
            && LineFromOk(m.state, l)
            && ValueFrom(m.len, l.digits) == ValueFrom(m1.len, l1.digits)
            && AfterLine(m, ValueFrom(m.len, l.digits), l.extension)
               == AfterLine(m1, ValueFrom(m1.len, l1.digits), l1.extension)
  {
    var l := AddByte(m, b, m1, l1);
    if m1.state.Size? { assert l.digits[1..] == l1.digits; }
    BytesAdded(m, b, m1, l1);
    hide LineFrom, Step;
    assert [b] + (LineFrom(m1.state, l1) + rest) == LineFrom(m.state, l) + rest;
  }

  lemma BytesAdded(m: Machine, b: Byte, m1: Machine, l1: SizeLine)
    requires LineFromOk(m1.state, l1) && m.state in {Start, Size, SizeLws, Extension}
    requires (m1.state.Size? && !m.state.SizeLws? && !m.state.Extension?)
             || (m1.state.SizeLws? && (m.state.Size? || m.state.SizeLws?))
             || (m1.state.Extension? && (m.state.Extension? || (!m.state.Start? && b == SEMICOLON)))
             || (m1.state.SizeLf? && b == CR && !m.state.Start?)
    ensures [b] + LineFrom(m1.state, l1) == LineFrom(m.state, AddByte(m, b, m1, l1))
  {
    hide LineOk;
    var end := ExtensionPart(l1.extension) + CRLF;
    match m1.state
    case Size =>
      assert [b] + (l1.digits + (l1.blanks + end)) == ([b] + l1.digits) + (l1.blanks + end);
    case SizeLws =>
      assert [b] + (l1.blanks + end) == ([b] + l1.blanks) + end;
      NoDigits([b] + l1.blanks, l1.extension);
    case Extension =>
      var e := l1.extension.value;
      if m.state.Extension? {
        assert [b] + (e + CRLF) == ([b] + e) + CRLF;
      } else {
        assert [b] + (e + CRLF) == end;
        NoDigits([], l1.extension);
      }
    case SizeLf =>
      NoDigits([], None);
  }

  lemma NoDigits(blanks: ByteSeq, e: Option<ByteSeq>)
    ensures RenderLine(SizeLine([], blanks, e)) == blanks + (ExtensionPart(e) + CRLF)
    ensures blanks == [] ==> RenderLine(SizeLine([], blanks, e)) == ExtensionPart(e) + CRLF
    ensures e == None ==> ExtensionPart(e) + CRLF == CRLF
  {
  }

  /** In `Body`, an accepted string starts with the announced bytes and CRLF. */
  lemma {:induction false} DataRecovered(lim: Limits, m: Machine, s: ByteSeq)
    requires AcceptsAll(lim, m, s) && m.state.Body?
    ensures |s| >= m.len + 2 && s[m.len..m.len + 2] == CRLF
    ensures Continues(lim, m, s, m.(state := Start, len := 0), s[m.len + 2..], s[..m.len])
    decreases |s|
  {
    var m1 := TakeBody(m, 1);
    assert s != [] && Continues(lim, m, s, m1, s[1..], [s[0]]);
    if m.len > 1 {
      DataRecovered(lim, m1, s[1..]);
      ContinuesOn(lim, m, s, m1, s[1..], [s[0]], m.(state := Start, len := 0), s[1..][m1.len + 2..], s[1..][..m1.len]);
      assert s[1..][m1.len..m1.len + 2] == s[m.len..m.len + 2];
      assert s[1..][m1.len + 2..] == s[m.len + 2..];
      assert [s[0]] + s[1..][..m1.len] == s[..m.len];
    } else {
      var m2 := ContinuesStep(lim, m1, s[1..]);
      assert s[1..][1..] == s[2..];
      var m3 := ContinuesStep(lim, m2, s[2..]);
      assert s[2..][1..] == s[3..];
      ContinuesOn(lim, m1, s[1..], m2, s[2..], [], m3, s[3..], []);
      ContinuesOn(lim, m, s, m1, s[1..], [s[0]], m3, s[3..], [] + []);
      assert [s[0]] + ([] + []) == s[..1];
    }
  }

  /** In `Trailer`, an accepted string starts with the rest of a line and CRLF. */
  lemma {:induction false} TrailerLineRecovered(lim: Limits, m: Machine, s: ByteSeq) returns (w: ByteSeq, rest: ByteSeq)
    requires AcceptsAll(lim, m, s) && m.state.Trailer?
    ensures Without(w, CR) && s == w + (CRLF + rest) && |rest| < |s|
    ensures Continues(lim, m, s,
                      m.(state := EndCr, lines := m.lines + 1, trailers := Some(m.trailers.value + (w + CRLF))), rest, [])
    decreases |s|
  {
    hide Feed;
    var m1 := ContinuesStep(lim, m, s);
    assert s == [s[0]] + s[1..];
    if s[0] == CR {
      var m2 := ContinuesStep(lim, m1, s[1..]);
      w, rest := [], s[1..][1..];
      ContinuesOn(lim, m, s, m1, s[1..], [], m2, rest, []);
      assert s[1..] == [LF] + rest;
      assert m.trailers.value + [CR] + [LF] == m.trailers.value + ([] + CRLF);
    } else {
      var w1, rest1 := TrailerLineRecovered(lim, m1, s[1..]);
      w, rest := [s[0]] + w1, rest1;
      assert m1.trailers.value + (w1 + CRLF) == m.trailers.value + (w + CRLF);
      ContinuesOn(lim, m, s, m1, s[1..], [],
                  m.(state := EndCr, lines := m.lines + 1, trailers := Some(m.trailers.value + (w + CRLF))), rest, []);
    }
  }

  lemma ContinuesDrives(lim: Limits, m: Machine, s: ByteSeq, m1: Machine, s1: ByteSeq, d1: ByteSeq, m2: Machine, d2: ByteSeq)
    requires Continues(lim, m, s, m1, s1, d1) && Drives(lim, m1, s1, m2, d2)
    ensures Drives(lim, m, s, m2, d1 + d2)
  {
  }

  /** One whole trailer line, from `EndCr` back to `EndCr`. */
  lemma TrailerRecovered(lim: Limits, m: Machine, s: ByteSeq) returns (t: ByteSeq, rest: ByteSeq)
    requires AcceptsAll(lim, m, s) && m.state.EndCr?
    requires s != [] && s[0] != CR
    ensures TrailerOk(t) && s == t + (CRLF + rest) && |rest| < |s|
    ensures Continues(lim, m, s,
                      m.(lines := m.lines + 1, trailers := Some(TrailersSoFar(m) + (t + CRLF))), rest, [])
  {
    hide Feed;
    var was := TrailersSoFar(m);
    var m1 := ContinuesStep(lim, m, s);
    assert [] + [s[0]] == [s[0]];
    assert m1 == m.(state := Trailer, trailers := Some(was + [s[0]]));
    assert s == [s[0]] + s[1..];
    var w, rest1 := TrailerLineRecovered(lim, m1, s[1..]);
    t, rest := [s[0]] + w, rest1;
    var m2 := m.(lines := m.lines + 1, trailers := Some(was + (t + CRLF)));
    assert was + [s[0]] + (w + CRLF) == was + (t + CRLF);
    ContinuesOn(lim, m, s, m1, s[1..], [], m2, rest, []);
  }

  lemma EndRecovered(lim: Limits, m: Machine, s: ByteSeq)
    requires AcceptsAll(lim, m, s) && m.state.EndCr?
    requires s != [] && s[0] == CR
    ensures s == CRLF
    ensures Drives(lim, m, s, m.(state := End, trailers := if m.trailers.None? then None
                                                           else Some(TrailersSoFar(m) + CRLF)), [])
  {
    hide Feed;
    var m1 := ContinuesStep(lim, m, s);
    var m2 := ContinuesStep(lim, m1, s[1..]);
    EndTakesNothing(lim, m2, s[1..][1..]);
    assert s == [CR] + ([LF] + s[1..][1..]);
    assert TrailersSoFar(m) + [CR] + [LF] == TrailersSoFar(m) + CRLF;
    ContinuesOn(lim, m, s, m1, s[1..], [], m2, [], []);
    DrivesNothing(lim, m2);
    ContinuesDrives(lim, m, s, m2, [], [], m2, []);
  }

  lemma EndTakesNothing(lim: Limits, m: Machine, s: ByteSeq)
    requires AcceptsAll(lim, m, s) && m.state.End?
    ensures s == []
  {
  }

  /** The machine in `End` after the trailer lines `ts`, read from `EndCr`. */
  function AfterTrailers(m: Machine, ts: seq<ByteSeq>): Machine {
    m.(state := End, lines := m.lines + |ts|,
       trailers := if m.trailers.None? && ts == [] then None else Some(TrailersSoFar(m) + RenderTrailers(ts)))
  }

  /** In `EndCr`, an accepted string is a list of trailer lines and the closing CRLF. */
  lemma {:induction false} TrailersRecovered(lim: Limits, m: Machine, s: ByteSeq) returns (ts: seq<ByteSeq>)
    requires AcceptsAll(lim, m, s) && m.state.EndCr?
    ensures forall i :: 0 <= i < |ts| ==> TrailerOk(ts[i])
    ensures s == RenderTrailers(ts)
    ensures Drives(lim, m, s, AfterTrailers(m, ts), [])
    decreases |s|
  {
    var _ := ContinuesStep(lim, m, s);
    hide Feed;
    if s[0] == CR {
      EndRecovered(lim, m, s);
      ts := [];
    } else {
      var t, rest := TrailerRecovered(lim, m, s);
      var m1 := m.(lines := m.lines + 1, trailers := Some(TrailersSoFar(m) + (t + CRLF)));
      var ts1 := TrailersRecovered(lim, m1, rest);
      ts := TrailersWithLine(m, t, ts1);
      ContinuesDrives(lim, m, s, m1, rest, [], AfterTrailers(m1, ts1), []);
    }
  }

  lemma TrailersWithLine(m: Machine, t: ByteSeq, ts1: seq<ByteSeq>) returns (ts: seq<ByteSeq>)
    requires TrailerOk(t) && forall i :: 0 <= i < |ts1| ==> TrailerOk(ts1[i])
    ensures forall i :: 0 <= i < |ts| ==> TrailerOk(ts[i])
    ensures RenderTrailers(ts) == t + (CRLF + RenderTrailers(ts1))
    ensures AfterTrailers(m.(lines := m.lines + 1, trailers := Some(TrailersSoFar(m) + (t + CRLF))), ts1)
            == AfterTrailers(m, ts)
  {
    ts := [t] + ts1;
    assert ts[1..] == ts1;
    assert TrailersSoFar(m) + (t + CRLF) + RenderTrailers(ts1) == TrailersSoFar(m) + RenderTrailers(ts);
  }

  /** A size line announcing something is followed by that much data: one whole chunk. */
  lemma ChunkRecovered(lim: Limits, m: Machine, s: ByteSeq, l: SizeLine, rest: ByteSeq) returns (c: Chunk, after: ByteSeq)
    requires m.state.Start? && m.len == 0
    requires LineFromOk(Start, l) && 0 < ValueFrom(0, l.digits) < TWO_64 && s == RenderLine(l) + rest
    requires Continues(lim, m, s, AfterLine(m, ValueFrom(0, l.digits), l.extension), rest, [])
    ensures c.line == l && ChunkOk(c) && s == RenderChunk(c) + after && |after| < |s|
    ensures Continues(lim, m, s, m.(extensions := m.extensions + ExtensionBytes(l.extension)), after, c.data)
  {
    hide Feed;
    var n := ValueFrom(0, l.digits);
    var m1 := AfterLine(m, n, l.extension);
    DataRecovered(lim, m1, rest);
    c, after := Chunk(l, rest[..n]), rest[n + 2..];
    ContinuesOn(lim, m, s, m1, rest, [], m1.(state := Start, len := 0), after, c.data);
    assert [] + c.data == c.data;
    assert rest == (c.data + CRLF) + after;
    assert s == RenderChunk(c) + after;
  }

  lemma LastRecovered(lim: Limits, m: Machine, s: ByteSeq, l: SizeLine, rest: ByteSeq) returns (b: ChunkedBody)
    requires m.state.Start? && m.len == 0 && m.trailers == None && m.lines == 0
    requires LineFromOk(Start, l) && ValueFrom(0, l.digits) == 0 && s == RenderLine(l) + rest
    requires Continues(lim, m, s, AfterLine(m, 0, l.extension), rest, [])
    ensures Grammatical(b) && s == Render(b)
    ensures Drives(lim, m, s, AcceptedFrom(m, b), Payload(b.chunks))
  {
    hide Feed;
    var m1 := AfterLine(m, 0, l.extension);
    var ts := TrailersRecovered(lim, m1, rest);
    b := ChunkedBody([], l, ts);
    assert [] + RenderTrailers(ts) == RenderTrailers(ts);
    assert Render(b) == RenderLine(l) + RenderTrailers(ts);
    ContinuesDrives(lim, m, s, m1, rest, [], AfterTrailers(m1, ts), []);
  }

  function AcceptedFrom(m: Machine, b: ChunkedBody): Machine {
    Accepted(b).(extensions := m.extensions + Accepted(b).extensions)
  }

  lemma {:induction false} BodyRecovered(lim: Limits, m: Machine, s: ByteSeq) returns (b: ChunkedBody)
    requires AcceptsAll(lim, m, s) && m.state.Start?
    requires m.trailers == None && m.lines == 0
    ensures Grammatical(b) && s == Render(b)
    ensures Drives(lim, m, s, AcceptedFrom(m, b), Payload(b.chunks))
    decreases |s|
  {
    hide Feed;
    var l, rest := LineRecovered(lim, m, s);
    if ValueFrom(0, l.digits) == 0 {
      b := LastRecovered(lim, m, s, l, rest);
    } else {
      var c, after := ChunkRecovered(lim, m, s, l, rest);
      var m1 := m.(extensions := m.extensions + ExtensionBytes(l.extension));
      var b1 := BodyRecovered(lim, m1, after);
      b := BodyWithChunk(c, b1);
      ContinuesDrives(lim, m, s, m1, after, c.data, AcceptedFrom(m1, b1), Payload(b1.chunks));
    }
  }

  /** A body with one more chunk in front. */
  lemma BodyWithChunk(c: Chunk, b1: ChunkedBody) returns (b: ChunkedBody)
    requires Grammatical(b1) && ChunkOk(c)
    ensures Grammatical(b) && b.last == b1.last && b.trailers == b1.trailers
    ensures Render(b) == RenderChunk(c) + Render(b1)
    ensures Payload(b.chunks) == c.data + Payload(b1.chunks)
    ensures ExtensionTotal(b.chunks) == ExtensionBytes(c.line.extension) + ExtensionTotal(b1.chunks)
  {
    b := b1.(chunks := [c] + b1.chunks);
    assert b.chunks[1..] == b1.chunks;
  }

  /**
   Whatever the machine accepts is a grammatical body within the limits, used up to its
   last byte and no further, and the data yielded is its payload. With `AcceptsGrammar`
   this makes the grammar the exact language of the decoder.
   */
  lemma AcceptedIsGrammatical(lim: Limits, s: ByteSeq) returns (b: ChunkedBody)
    requires Feed(lim, INITIAL, s).error == None && Feed(lim, INITIAL, s).m.state.End?
    ensures Grammatical(b) && WithinLimits(lim, b)
    ensures Render(b) == s[..Feed(lim, INITIAL, s).used]
    ensures Payload(b.chunks) == Feed(lim, INITIAL, s).data
    ensures Accepted(b) == Feed(lim, INITIAL, s).m
  {
    var r := Feed(lim, INITIAL, s);
    UsedPrefix(lim, INITIAL, s);
    b := BodyRecovered(lim, INITIAL, s[..r.used]);
  }

  /** Reaching `End` only depends on the bytes used. */
  lemma {:induction false} UsedPrefix(lim: Limits, m: Machine, s: ByteSeq)
    requires Reached(lim, m) && Feed(lim, m, s).error == None
    ensures Feed(lim, m, s[..Feed(lim, m, s).used]) == Feed(lim, m, s)
    decreases |s|
  {
    var r := Feed(lim, m, s);
    if s != [] && !m.state.End? {
      assert s[..r.used][1..] == s[1..][..r.used - 1];
      if m.state.Body? {
        UsedPrefix(lim, TakeBody(m, 1), s[1..]);
      } else {
        UsedPrefix(lim, Step(lim, m, s[0]).m, s[1..]);
      }
    }
  }

  // ---- the size limit ------------------------------------------------------

  lemma DigitStep(lim: Limits, m: Machine, digit: Byte)
    requires Reached(lim, m) && (m.state.Start? || m.state.Size?) && HexDigit(digit).Some?
    ensures var v := m.len * 16 + HexDigit(digit).value;
            Step(lim, m, digit) == if v < TWO_64 then Next(m.(state := Size, len := v)) else Fail(SizeOverflow)
  {
  }

  /** Digits overflow exactly when the number they denote does not fit in 64 bits. */
  lemma {:induction false} OverflowIsExact(lim: Limits, m: Machine, digits: ByteSeq)
    requires Reached(lim, m) && (m.state.Start? || m.state.Size?)
    requires AllHex(digits)
    ensures Feed(lim, m, digits).error == Some(SizeOverflow) <==> ValueFrom(m.len, digits) >= TWO_64
    decreases |digits|
  {
    if digits != [] {
      FeedFirst(lim, m, digits);
      DigitStep(lim, m, digits[0]);
      var v := m.len * 16 + HexDigit(digits[0]).value;
      ValueGrows(v, digits[1..]);
      if v < TWO_64 {
        OverflowIsExact(lim, m.(state := Size, len := v), digits[1..]);
      }
      hide Feed, Step;
    }
  }
}
