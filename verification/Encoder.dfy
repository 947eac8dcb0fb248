/**
 Body encoders of encode.rs, what it means for an encoded body to be complete, and
 the proof that a complete chunked body is decoded back to exactly what was offered.
 */
module Encoder {
  import opened Bytes
  import opened ChunkedMachine
  import opened ChunkedGrammar

  /** A header name; the wire form is its ASCII bytes. */
  type Name = string

  predicate TokenName(n: Name) {
    n != "" && forall i :: 0 <= i < |n| ==> '!' <= n[i] <= '~' && n[i] != ':'
  }

  function NameBytes(n: Name): ByteSeq
    requires TokenName(n)
  {
    seq(|n|, i requires 0 <= i < |n| => n[i] as int)
  }

  /** Bytes a `HeaderValue` may hold. */
  predicate FieldValue(v: ByteSeq) {
    forall i :: 0 <= i < |v| ==> v[i] == TAB || (v[i] >= 32 && v[i] != 127)
  }

  datatype Field = Field(name: Name, value: ByteSeq)

  predicate FieldsOk(fs: seq<Field>) {
    forall i :: 0 <= i < |fs| ==> TokenName(fs[i].name) && FieldValue(fs[i].value)
  }

  /** The encoder kind; `allowed` lists the names announced in the Trailer header, if any. */
  datatype Kind = Chunked(allowed: Option<set<Name>>) | Length(remaining: nat)

  // ---- chunk sizes ---------------------------------------------------------

  function UpperDigit(d: nat): Byte
    requires d < 16
  {
    if d < 10 then 48 + d else 65 + d - 10
  }

  /** The `{:X}` form of a number. */
  function HexUpper(n: nat): ByteSeq {
    if n < 16 then [UpperDigit(n)] else HexUpper(n / 16) + [UpperDigit(n % 16)]
  }

  lemma {:induction false} ValueSnoc(v: nat, ds: ByteSeq, d: Byte)
    requires AllHex(ds) && HexDigit(d).Some?
    ensures AllHex(ds + [d]) && ValueFrom(v, ds + [d]) == ValueFrom(v, ds) * 16 + HexDigit(d).value
    decreases |ds|
  {
    if ds == [] {
      assert ds + [d] == [d];
      assert [d][1..] == [];
    } else {
      ValueSnoc(v * 16 + HexDigit(ds[0]).value, ds[1..], d);
      assert (ds + [d])[1..] == ds[1..] + [d];
    }
  }

  /** Printing and reading back a size are inverse. */
  lemma {:induction false} HexRoundTrip(n: nat)
    ensures HexUpper(n) != [] && AllHex(HexUpper(n)) && ValueFrom(0, HexUpper(n)) == n
  {
    if n < 16 {
      assert [UpperDigit(n)][1..] == [];
    } else {
      HexRoundTrip(n / 16);
      ValueSnoc(0, HexUpper(n / 16), UpperDigit(n % 16));
    }
  }

  /** It is printed in upper case, without leading zeros. */
  lemma {:induction false} HexIsUpper(n: nat)
    ensures forall i :: 0 <= i < |HexUpper(n)| ==> 48 <= HexUpper(n)[i] <= 57 || 65 <= HexUpper(n)[i] <= 70
    ensures n > 0 ==> HexUpper(n)[0] != 48
  {
    if n >= 16 { HexIsUpper(n / 16); }
  }

  function Pow16(k: nat): nat {
    if k == 0 then 1 else 16 * Pow16(k - 1)
  }

  lemma Pow16Of16()
    ensures Pow16(16) == TWO_64
  {
    assert Pow16(4) == 0x1_0000;
    assert Pow16(8) == 0x1_0000_0000;
    assert Pow16(12) == 0x1_0000_0000_0000;
  }

  lemma {:induction false} HexLength(n: nat, k: nat)
    requires k > 0 && n < Pow16(k)
    ensures |HexUpper(n)| <= k
    decreases k
  {
    if n >= 16 {
      HexLength(n / 16, k - 1);
    }
  }

  const USIZE_BYTES: nat := 8
  const CHUNK_SIZE_MAX_BYTES: nat := USIZE_BYTES * 2

  /** The fixed-size buffer a chunk size is printed into. */
  class ChunkSize {
    const bytes: array<Byte>
    var pos: nat
    var len: nat

    ghost predicate Valid()
      reads this
    {
      bytes.Length == CHUNK_SIZE_MAX_BYTES + 2 && pos <= len <= bytes.Length
    }

    function Chunk(): ByteSeq
      requires Valid()
      reads this, bytes
    {
      bytes[pos..len]
    }

    /** Prints any 64-bit size and CRLF; the buffer is always large enough. */
    constructor (n: nat)
      requires n < TWO_64
      ensures Valid() && fresh(bytes) && Chunk() == HexUpper(n) + CRLF
    {
      bytes := new Byte[CHUNK_SIZE_MAX_BYTES + 2](_ => 0);
      pos, len := 0, 0;
      new;
      Pow16Of16();
      HexLength(n, 16);
      WriteStr(HexUpper(n));
      WriteStr(CRLF);
    }

    method WriteStr(s: ByteSeq)
      requires Valid() && pos == 0 && len + |s| <= bytes.Length
      modifies this, bytes
      ensures Valid() && pos == 0 && Chunk() == old(Chunk()) + s && len == old(len) + |s|
    {
      var at := len;
      for i := 0 to |s|
        invariant bytes[..at] == old(bytes[..at])
        invariant bytes[at..at + i] == s[..i]
        invariant len == at && pos == 0
      {
        bytes[at + i] := s[i];
        assert bytes[at..at + (i + 1)] == bytes[at..at + i] + [s[i]];
      }
      len := len + |s|;
      assert bytes[0..len] == bytes[..at] + bytes[at..at + |s|];
    }

    method Advance(cnt: nat)
      requires Valid() && cnt <= len - pos
      modifies this
      ensures Valid() && Chunk() == old(Chunk())[cnt..]
    {
      pos := pos + cnt;
    }
  }

  // ---- the wire form of a body ---------------------------------------------

  /** One chunk as `encode` writes it. */
  function ChunkBytes(msg: ByteSeq): ByteSeq {
    HexUpper(|msg|) + CRLF + msg + CRLF
  }

  function ChunksBytes(msgs: seq<ByteSeq>): ByteSeq {
    if msgs == [] then [] else ChunksBytes(msgs[..|msgs| - 1]) + ChunkBytes(msgs[|msgs| - 1])
  }

  const LAST_CHUNK: ByteSeq := [ZERO, CR, LF]

  function WriteHeaders(fs: seq<Field>): ByteSeq
    requires FieldsOk(fs)
  {
    if fs == [] then []
    else WriteHeaders(fs[..|fs| - 1]) + FieldLine(fs[|fs| - 1]) + CRLF
  }

  function FieldLine(f: Field): ByteSeq
    requires TokenName(f.name)
  {
    NameBytes(f.name) + [COLON, SP] + f.value
  }

  /** A recipient reads a field back from its line: the name up to the first colon, a space, the value. */
  lemma FieldReadsBack(f: Field)
    requires TokenName(f.name)
    ensures var l, n := FieldLine(f), |f.name|;
            && |l| >= n + 2 && (forall i :: 0 <= i < n ==> l[i] == f.name[i] as int && l[i] != 58)
            && l[n] == 58 && l[n + 1] == 32 && l[n + 2..] == f.value
  {
  }

  /** The end of a chunked body: the zero chunk, a possibly empty trailer section, CRLF. */
  function EndBytes(fs: seq<Field>): ByteSeq
    requires FieldsOk(fs)
  {
    LAST_CHUNK + WriteHeaders(fs) + CRLF
  }

  /**
   The record of one request body: its framing, the non-empty pieces offered to the
   encoder, the bytes buffered for it, and how it was ended.
   */
  datatype Ending = Open | Ended | EndedWith(fields: seq<Field>)
  datatype Sent = Sent(framing: Kind, offered: seq<ByteSeq>, body: ByteSeq, ending: Ending)

  predicate AllShort(msgs: seq<ByteSeq>) {
    forall i :: 0 <= i < |msgs| ==> |msgs[i]| < TWO_64
  }

  /** An unfinished body whose encoder now is `k`. */
  predicate Partial(s: Sent, k: Kind) {
    && s.ending.Open? && AllNonEmpty(s.offered) && AllShort(s.offered)
    && match s.framing
       case Chunked(_) => k == s.framing && s.body == ChunksBytes(s.offered)
       case Length(n) => s.body == Flatten(s.offered) && |s.body| < n && k == Length(n - |s.body|)
  }

  /**
   A body exactly complete under its framing: n bytes for a length, taken from the front of
   what was offered; for chunked, one chunk per piece and then exactly one terminal section.
   */
  predicate Complete(s: Sent) {
    && !s.ending.Open? && AllNonEmpty(s.offered) && AllShort(s.offered)
    && match s.framing
       case Chunked(_) =>
         && (s.ending.EndedWith? ==> FieldsOk(s.ending.fields) && s.ending.fields != [])
         && s.body == ChunksBytes(s.offered)
                      + EndBytes(if s.ending.EndedWith? then s.ending.fields else [])
       case Length(n) =>
         s.ending.Ended? && |s.body| == n && s.body <= Flatten(s.offered)
  }

  // ---- the encoder ---------------------------------------------------------

  const FORBIDDEN_TRAILERS: set<Name> := {
    "authorization", "cache-control", "content-encoding", "content-length", "content-range",
    "content-type", "host", "max-forwards", "set-cookie", "trailer", "transfer-encoding", "te" }

  /** `is_valid_trailer_field`. */
  predicate ValidTrailer(n: Name) {
    !(n == "authorization" || n == "cache-control" || n == "content-encoding" || n == "content-length"
      || n == "content-range" || n == "content-type" || n == "host" || n == "max-forwards"
      || n == "set-cookie" || n == "trailer" || n == "transfer-encoding" || n == "te")
  }

  lemma ValidTrailerIs(n: Name)
    ensures ValidTrailer(n) <==> n !in FORBIDDEN_TRAILERS
  {
  }

  /** The position at which a name would be inserted: where it is, or the end. */
  function Find(fs: seq<Field>, n: Name): (k: nat)
    ensures k <= |fs|
    ensures k < |fs| ==> fs[k].name == n
    ensures forall i :: 0 <= i < k ==> fs[i].name != n
  {
    if fs == [] then 0
    else
      var k := Find(fs[..|fs| - 1], n);
      if k < |fs| - 1 || fs[|fs| - 1].name == n then k else |fs|
  }

  /** `HeaderMap::insert`: replace the value, or append. */
  function Insert(fs: seq<Field>, f: Field): seq<Field> {
    var k := Find(fs, f.name);
    if k < |fs| then fs[k := f] else fs + [f]
  }

  predicate Distinct(fs: seq<Field>) {
    forall i, j :: 0 <= i < j < |fs| ==> fs[i].name != fs[j].name
  }

  predicate Named(fs: seq<Field>, n: Name) {
    exists i :: 0 <= i < |fs| && fs[i].name == n
  }

  /** The fields to keep from `trailers`: announced, permitted, once per name, with the last value. */
  ghost predicate Keeps(trailers: seq<Field>, allowed: set<Name>, fields: seq<Field>) {
    && Distinct(fields)
    && (forall i :: 0 <= i < |fields| ==> LastValue(trailers, fields[i].name, fields[i].value))
    && (forall n :: Named(fields, n) <==> n in allowed && n !in FORBIDDEN_TRAILERS && Named(trailers, n))
  }

  /** The trailer names a request announced. */
  function Announced(k: Kind): set<Name> {
    if k.Chunked? && k.allowed.Some? then k.allowed.value else {}
  }

  /** `value` is the last one given for `n`. */
  predicate LastValue(fs: seq<Field>, n: Name, value: ByteSeq) {
    exists i :: 0 <= i < |fs| && fs[i] == Field(n, value) && forall j :: i < j < |fs| ==> fs[j].name != n
  }

  class Encoder {
    var kind: Kind
    var isLast: bool

    /** Nothing ever sets `is_last`. */
    ghost predicate Valid()
      reads this
    {
      !isLast
    }

    constructor (k: Kind)
      ensures Valid() && kind == k
    {
      kind, isLast := k, false;
    }

    method Reset(k: Kind)
      modifies this
      ensures Valid() && kind == k
    {
      kind, isLast := k, false;
    }

    /** `Encoder::is_eof`. */
    predicate IsEof()
      reads this
    {
      kind == Length(0)
    }

    /** `Encoder::encode`: a whole chunk, or as much of the message as the length still allows. */
    method Encode(msg: ByteSeq) returns (buf: ByteSeq)
      requires Valid() && 0 < |msg| < TWO_64
      modifies this
      ensures Valid()
      ensures old(kind).Chunked? ==> kind == old(kind) && buf == ChunkBytes(msg)
      ensures old(kind).Length? ==>
                var n := Min(|msg|, old(kind).remaining);
                kind == Length(old(kind).remaining - n) && buf == msg[..n]
    {
      match kind
      case Chunked(_) =>
        var size := new ChunkSize(|msg|);
        buf := size.Chunk() + msg + CRLF;
      case Length(remaining) =>
        if |msg| > remaining {
          kind := Length(0);
          buf := msg[..remaining];
        } else {
          kind := Length(remaining - |msg|);
          buf := msg;
          assert msg[..|msg|] == msg;
        }
    }

    /** `Encoder::end`: nothing for a finished length, the zero chunk for chunked, else `NotEof`. */
    method End() returns (r: Result<Option<ByteSeq>, nat>)
      requires Valid()
      ensures match kind
              case Chunked(_) => r == Ok(Some(EndBytes([])))
              case Length(n) => r == if n == 0 then Ok(None) else Err(n)
    {
      match kind
      case Chunked(_) =>
        assert EndBytes([]) == [ZERO, CR, LF, CR, LF];
        r := Ok(Some([ZERO, CR, LF, CR, LF]));
      case Length(n) => r := if n == 0 then Ok(None) else Err(n);
    }

    /** `Encoder::encode_and_end`: the last message; the flag is whether the body is complete. */
    method EncodeAndEnd(msg: ByteSeq) returns (buf: ByteSeq, canKeepAlive: bool)
      requires Valid() && 0 < |msg| < TWO_64
      ensures kind.Chunked? ==> canKeepAlive && buf == ChunkBytes(msg) + EndBytes([])
      ensures kind.Length? ==>
                buf == msg[..Min(|msg|, kind.remaining)] && (canKeepAlive <==> |msg| >= kind.remaining)
    {
      match kind
      case Chunked(_) =>
        var size := new ChunkSize(|msg|);
        buf := size.Chunk() + msg + [CR, LF, ZERO, CR, LF, CR, LF];
        assert buf == ChunkBytes(msg) + EndBytes([]);
        canKeepAlive := !isLast;
      case Length(remaining) =>
        if |msg| == remaining {
          buf, canKeepAlive := msg, !isLast;
        } else if |msg| > remaining {
          buf, canKeepAlive := msg[..remaining], !isLast;
        } else {
          buf, canKeepAlive := msg, false;
        }
        assert msg[..|msg|] == msg;
    }

    /**
     `Encoder::encode_trailers`. Fields are kept exactly when their name was announced and may
     be a trailer, once per name with the last value given; nothing is written if none is kept.
     */
    method EncodeTrailers(trailers: seq<Field>) returns (buf: Option<ByteSeq>, fields: seq<Field>)
      requires Valid() && FieldsOk(trailers)
      ensures FieldsOk(fields)
      ensures Keeps(trailers, Announced(kind), fields)
      ensures buf == if fields == [] then None else Some(EndBytes(fields))
      ensures buf.Some? ==> kind.Chunked?
    {
      fields := [];
      if kind.Length? || kind.allowed.None? {
        return None, [];
      }
      var allowed := kind.allowed.value;
      for k := 0 to |trailers|
        invariant FieldsOk(fields) && Keeps(trailers[..k], allowed, fields)
      {
        var f := trailers[k];
        assert trailers[..k + 1] == trailers[..k] + [f];
        ValidTrailerIs(f.name);
        if f.name in allowed && ValidTrailer(f.name) {
          KeepsInsert(trailers[..k], allowed, fields, f);
          fields := Insert(fields, f);
        } else {
          KeepsSkip(trailers[..k], allowed, fields, f);
        }
      }
      assert trailers[..|trailers|] == trailers;
      buf := if fields == [] then None else Some(LAST_CHUNK + WriteHeaders(fields) + CRLF);
    }
  }

  lemma LastValueKept(ts: seq<Field>, f: Field, n: Name, value: ByteSeq)
    requires f.name != n && LastValue(ts, n, value)
    ensures LastValue(ts + [f], n, value)
  {
    var j :| 0 <= j < |ts| && ts[j] == Field(n, value) && forall l :: j < l < |ts| ==> ts[l].name != n;
    assert (ts + [f])[j] == Field(n, value);
  }

  lemma NamedAppend(ts: seq<Field>, f: Field, n: Name)
    ensures Named(ts + [f], n) <==> Named(ts, n) || f.name == n
  {
    if i :| 0 <= i < |ts| && ts[i].name == n { assert (ts + [f])[i].name == n; }
    assert (ts + [f])[|ts|] == f;
  }

  lemma NamedInsert(fs: seq<Field>, f: Field, n: Name)
    ensures Named(Insert(fs, f), n) <==> Named(fs, n) || f.name == n
  {
    var k := Find(fs, f.name);
    if k < |fs| {
      assert forall i :: 0 <= i < |fs| ==> Insert(fs, f)[i].name == fs[i].name;
      assert fs[k].name == f.name;
    } else {
      NamedAppend(fs, f, n);
    }
  }

  lemma KeepsInsert(ts: seq<Field>, allowed: set<Name>, fs: seq<Field>, f: Field)
    requires Keeps(ts, allowed, fs) && f.name in allowed && f.name !in FORBIDDEN_TRAILERS
    ensures Keeps(ts + [f], allowed, Insert(fs, f))
  {
    var after := Insert(fs, f);
    var k := Find(fs, f.name);
    forall n ensures Named(after, n) <==> n in allowed && n !in FORBIDDEN_TRAILERS && Named(ts + [f], n) {
      NamedInsert(fs, f, n);
      NamedAppend(ts, f, n);
    }
    forall i | 0 <= i < |after| ensures LastValue(ts + [f], after[i].name, after[i].value) {
      if i == k {
        assert (ts + [f])[|ts|] == after[i];
      } else {
        LastValueKept(ts, f, fs[i].name, fs[i].value);
      }
    }
  }

  lemma KeepsSkip(ts: seq<Field>, allowed: set<Name>, fs: seq<Field>, f: Field)
    requires Keeps(ts, allowed, fs) && !(f.name in allowed && f.name !in FORBIDDEN_TRAILERS)
    ensures Keeps(ts + [f], allowed, fs)
  {
    forall n ensures Named(fs, n) <==> n in allowed && n !in FORBIDDEN_TRAILERS && Named(ts + [f], n) {
      NamedAppend(ts, f, n);
    }
    forall i | 0 <= i < |fs| ensures LastValue(ts + [f], fs[i].name, fs[i].value) {
      assert Named(fs, fs[i].name);
      LastValueKept(ts, f, fs[i].name, fs[i].value);
    }
  }

  // ---- records and encoder move together -----------------------------------

  function Offer(s: Sent, msg: ByteSeq, buf: ByteSeq): Sent {
    s.(offered := s.offered + [msg], body := s.body + buf)
  }

  lemma OfferChunk(s: Sent, k: Kind, msg: ByteSeq)
    requires Partial(s, k) && k.Chunked? && 0 < |msg| < TWO_64
    ensures Partial(Offer(s, msg, ChunkBytes(msg)), k)
  {
    assert (s.offered + [msg])[..|s.offered|] == s.offered;
  }

  lemma OfferLength(s: Sent, k: Kind, msg: ByteSeq)
    requires Partial(s, k) && k.Length? && 0 < |msg| < TWO_64
    ensures var n := Min(|msg|, k.remaining); var o := Offer(s, msg, msg[..n]);
            if n == k.remaining then Complete(o.(ending := Ended)) else Partial(o, Length(k.remaining - n))
  {
    FlattenSnoc(s.offered, msg);
    var n := Min(|msg|, k.remaining);
    if n == |msg| { assert msg[..n] == msg; }
  }

  lemma EndChunked(s: Sent, k: Kind, fields: seq<Field>)
    requires Partial(s, k) && k.Chunked? && FieldsOk(fields)
    ensures Complete(s.(body := s.body + EndBytes(fields), ending := if fields == [] then Ended else EndedWith(fields)))
  {
  }

  // ---- round trip ----------------------------------------------------------

  function AsChunks(msgs: seq<ByteSeq>): seq<Chunk> {
    if msgs == [] then []
    else [Chunk(SizeLine(HexUpper(|msgs[0]|), [], None), msgs[0])] + AsChunks(msgs[1..])
  }

  function AsLines(fs: seq<Field>): seq<ByteSeq>
    requires FieldsOk(fs)
  {
    if fs == [] then [] else [FieldLine(fs[0])] + AsLines(fs[1..])
  }

  lemma {:induction false} ChunksBytesCons(msg: ByteSeq, msgs: seq<ByteSeq>)
    ensures ChunksBytes([msg] + msgs) == ChunkBytes(msg) + ChunksBytes(msgs)
    decreases |msgs|
  {
    hide ChunkBytes;
    if msgs == [] {
      assert [msg] + msgs == [msg];
    } else {
      var init, last := msgs[..|msgs| - 1], msgs[|msgs| - 1];
      ChunksBytesCons(msg, init);
      assert ([msg] + msgs)[..|msgs|] == [msg] + init;
      assert ChunksBytes([msg] + msgs) == (ChunkBytes(msg) + ChunksBytes(init)) + ChunkBytes(last);
    }
  }

  /** Encoder output for the pieces is the grammar's rendering of one chunk per piece. */
  lemma {:induction false} ChunksAreGrammatical(msgs: seq<ByteSeq>)
    requires AllNonEmpty(msgs) && AllShort(msgs)
    ensures forall i :: 0 <= i < |AsChunks(msgs)| ==> ChunkOk(AsChunks(msgs)[i])
    ensures RenderChunks(AsChunks(msgs)) == ChunksBytes(msgs)
    ensures Payload(AsChunks(msgs)) == Flatten(msgs)
    ensures ExtensionTotal(AsChunks(msgs)) == 0
    decreases |msgs|
  {
    if msgs != [] {
      var rest := msgs[1..];
      ChunksAreGrammatical(rest);
      OneChunk(msgs[0]);
      assert msgs == [msgs[0]] + rest;
      ChunksBytesCons(msgs[0], rest);
      FlattenCons(msgs[0], rest);
      hide ChunkOk, RenderChunk, ChunkBytes;
      assert AsChunks(msgs)[1..] == AsChunks(rest);
    }
  }

  lemma OneChunk(msg: ByteSeq)
    requires 0 < |msg| < TWO_64
    ensures var c := Chunk(SizeLine(HexUpper(|msg|), [], None), msg);
            ChunkOk(c) && RenderChunk(c) == ChunkBytes(msg)
  {
    hide RenderChunk, HexUpper, ValueFrom, AllHex;
    HexRoundTrip(|msg|);
    PlainChunk(HexUpper(|msg|), msg);
  }

  lemma PlainChunk(size: ByteSeq, msg: ByteSeq)
    ensures RenderChunk(Chunk(SizeLine(size, [], None), msg)) == size + CRLF + msg + CRLF
  {
    assert RenderLine(SizeLine(size, [], None)) == size + CRLF;
  }

  lemma {:induction false} WriteHeadersCons(f: Field, fs: seq<Field>)
    requires TokenName(f.name) && FieldValue(f.value) && FieldsOk([f] + fs) && FieldsOk(fs)
    ensures WriteHeaders([f] + fs) == FieldLine(f) + CRLF + WriteHeaders(fs)
    decreases |fs|
  {
    hide FieldLine;
    if fs == [] {
      assert [f] + fs == [f];
    } else {
      var init := fs[..|fs| - 1];
      assert ([f] + fs)[..|fs|] == [f] + init;
      WriteHeadersCons(f, init);
    }
  }

  lemma {:induction false} LinesAreGrammatical(fs: seq<Field>)
    requires FieldsOk(fs)
    ensures |AsLines(fs)| == |fs|
    ensures forall i :: 0 <= i < |AsLines(fs)| ==> TrailerOk(AsLines(fs)[i])
    ensures RenderTrailers(AsLines(fs)) == WriteHeaders(fs) + CRLF
    decreases |fs|
  {
    hide FieldLine, WriteHeaders, TrailerOk, TokenName, FieldValue;
    if fs == [] {
      NoHeaders();
    } else {
      LinesAreGrammatical(fs[1..]);
      assert fs == [fs[0]] + fs[1..];
      WriteHeadersCons(fs[0], fs[1..]);
      LineIsGrammatical(fs[0]);
      assert AsLines(fs)[1..] == AsLines(fs[1..]);
      assert FieldLine(fs[0]) + (CRLF + (WriteHeaders(fs[1..]) + CRLF)) == (FieldLine(fs[0]) + CRLF + WriteHeaders(fs[1..])) + CRLF;
    }
  }

  lemma NoHeaders()
    ensures WriteHeaders([]) == [] && [] + CRLF == CRLF
  {
  }

  lemma LineIsGrammatical(f: Field)
    requires TokenName(f.name) && FieldValue(f.value)
    ensures TrailerOk(FieldLine(f))
  {
  }

  /** Whether the receiving side's limits admit the trailer section that was sent. */
  predicate Admits(lim: Limits, fs: seq<Field>)
    requires FieldsOk(fs)
  {
    fs != [] ==> |fs| <= lim.maxLines && |WriteHeaders(fs) + CRLF| < lim.maxBytes
  }

  /**
   Round trip: what `encode`, `encode_and_end`, `end` and `encode_trailers` buffer for any
   list of non-empty pieces decodes to exactly their concatenation, stops in `End`, hands the
   trailer parser exactly the fields written, and leaves whatever follows unread.
   */
  lemma ChunkedRoundTrip(lim: Limits, s: Sent, following: ByteSeq)
    requires Complete(s) && s.framing.Chunked?
    requires var fs := if s.ending.EndedWith? then s.ending.fields else []; Admits(lim, fs)
    ensures var fs := if s.ending.EndedWith? then s.ending.fields else [];
            Feed(lim, INITIAL, s.body + following)
            == Fed(Machine(End, 0, 0, if fs == [] then None else Some(WriteHeaders(fs) + CRLF), |fs|),
                   Flatten(s.offered), |s.body|, None)
  {
    hide Feed;
    var b := SentIsGrammatical(s);
    AcceptsGrammar(lim, b, following);
  }

  /** A complete chunked body is the rendering of a grammatical one. */
  lemma SentIsGrammatical(s: Sent) returns (b: ChunkedBody)
    requires Complete(s) && s.framing.Chunked?
    ensures Grammatical(b) && Render(b) == s.body && Payload(b.chunks) == Flatten(s.offered)
    ensures ExtensionTotal(b.chunks) == 0 && b.last.extension == None
    ensures var fs := if s.ending.EndedWith? then s.ending.fields else [];
            |b.trailers| == |fs| && RenderTrailers(b.trailers) == WriteHeaders(fs) + CRLF
  {
    hide Grammatical, Render, Payload, Flatten, ExtensionTotal, RenderTrailers, WriteHeaders, ChunksBytes, EndBytes;
    b := EncodedIsGrammatical(s.offered, if s.ending.EndedWith? then s.ending.fields else []);
  }

  lemma EncodedIsGrammatical(msgs: seq<ByteSeq>, fs: seq<Field>) returns (b: ChunkedBody)
    requires AllNonEmpty(msgs) && AllShort(msgs) && FieldsOk(fs)
    ensures Grammatical(b) && Render(b) == ChunksBytes(msgs) + EndBytes(fs) && Payload(b.chunks) == Flatten(msgs)
    ensures ExtensionTotal(b.chunks) == 0 && b.last.extension == None
    ensures |b.trailers| == |fs| && RenderTrailers(b.trailers) == WriteHeaders(fs) + CRLF
  {
    ChunksAreGrammatical(msgs);
    LinesAreGrammatical(fs);
    LastChunkIsZero();
    hide ChunkOk, Announces, RenderLine, TrailerOk, FieldsOk, WriteHeaders, RenderTrailers, RenderChunks, AsLines,
         AsChunks, ChunksBytes, Payload, Flatten, ExtensionTotal, AllNonEmpty, AllShort;
    b := ChunkedBody(AsChunks(msgs), SizeLine([ZERO], [], None), AsLines(fs));
    Regroup(ChunksBytes(msgs), LAST_CHUNK, WriteHeaders(fs), CRLF);
  }

  lemma Regroup(a: ByteSeq, b: ByteSeq, c: ByteSeq, d: ByteSeq)
    ensures a + (b + (c + d)) == a + (b + c + d)
  {
  }

  lemma LastChunkIsZero()
    ensures Announces(SizeLine([ZERO], [], None), 0)
    ensures RenderLine(SizeLine([ZERO], [], None)) == LAST_CHUNK
  {
    assert [ZERO][1..] == [];
  }
}
