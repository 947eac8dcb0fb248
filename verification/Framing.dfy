/** Message framing decisions of role.rs: `set_length` for requests, `decoder` for responses. */
module Framing {
  import opened Bytes
  import opened HeaderValues
  import Encoder

  datatype Version = Http09 | Http10 | Http11 | Http2
  datatype Method = Get | Head | Connect | Other
  datatype BodyLength = Known(len: nat) | Unknown

  /** The framing fields of a header map: one value per field line, in order. */
  datatype Headers = Headers(
    te: seq<ByteSeq>,
    cl: seq<ByteSeq>,
    connection: seq<ByteSeq>,
    trailerNames: set<Encoder.Name>)

  datatype RequestHead = RequestHead(version: Version, method_: Method, headers: Headers)

  // ---- requests ------------------------------------------------------------

  /** What a recipient makes of a request head (section 6.3 of RFC 9112). */
  datatype Received = ChunkedBody | LengthBody(n: nat) | Malformed

  ghost function RecipientFraming(h: Headers): Received {
    if h.te != [] then if IsChunked(h.te) then ChunkedBody else Malformed
    else if h.cl == [] then LengthBody(0)
    else if n: nat :| ContentLengthIs(h.cl, n) then LengthBody(n)
    else Malformed
  }

  /** Never both fields, and the recipient's framing is the encoder's. */
  ghost predicate Agrees(h: Headers, enc: Encoder.Kind) {
    && (h.te == [] || h.cl == [])
    && RecipientFraming(h) == match enc
                              case Chunked(_) => ChunkedBody
                              case Length(n) => LengthBody(n)
  }

  ghost predicate ContentLengthValid(cl: seq<ByteSeq>) {
    cl == [] || exists n :: ContentLengthIs(cl, n)
  }

  /** The inputs on which the headers left by `set_length` match the encoder it returns. */
  ghost predicate FramingIsSound(head: RequestHead, body: Option<BodyLength>) {
    var h := head.headers;
    match body
    case None => h.cl == [] || ContentLengthIs(h.cl, 0)
    case Some(b) =>
      if head.version == Http11 && h.te != [] then
        ContentLengthValid(h.cl) && Visible(h.te[|h.te| - 1])
      else b.Known? || ContentLengthValid(h.cl)
  }

  ghost predicate NoLength(cl: seq<ByteSeq>) {
    forall n: nat :: !ContentLengthIs(cl, n)
  }

  /**
   How a request is framed, and what its recipient makes of the fields left. Without a body
   nothing is sent and Transfer-Encoding goes. In HTTP/1.1 a Transfer-Encoding the user gave
   means chunked. Otherwise a valid Content-Length the user gave stands; else the length of the
   body, if known, is written; else HTTP/1.1 requests are chunked, but for GET, HEAD and CONNECT,
   and nothing can be sent in older versions.
   */
  ghost predicate FramingChosen(head: RequestHead, body: Option<BodyLength>, after: Headers, enc: Encoder.Kind) {
    var h, encoded := head.headers, head.version == Http11 && head.headers.te != [];
    && (body.None? ==> enc == Encoder.Length(0) && after.te == [] && after.cl == h.cl)
    && (body.Some? && encoded ==>
          enc.Chunked? && (Visible(h.te[|h.te| - 1]) ==> RecipientFraming(after) == ChunkedBody))
    && (body.Some? && !encoded ==>
          forall n: nat :: ContentLengthIs(h.cl, n) ==> enc == Encoder.Length(n) && RecipientFraming(after) == LengthBody(n))
    && (body.Some? && body.value.Known? && !encoded && NoLength(h.cl) ==>
          enc == Encoder.Length(body.value.len) && RecipientFraming(after) == LengthBody(body.value.len))
    && (body == Some(Unknown) && head.version == Http11 && h.te == [] && NoLength(h.cl) ==>
          && (RecipientFraming(after) == ChunkedBody <==> head.method_ == Other)
          && (enc.Chunked? <==> head.method_ == Other)
          && (head.method_ in {Get, Head, Connect} ==> enc == Encoder.Length(0) && (h.cl == [] ==> RecipientFraming(after) == LengthBody(0))))
    && (body == Some(Unknown) && head.version != Http11 && NoLength(h.cl) ==>
          enc == Encoder.Length(0) && (h.cl == [] ==> RecipientFraming(after) == LengthBody(0)))
    && (enc.Chunked? ==> Encoder.Announced(enc) == h.trailerNames)
  }

  /** `set_content_length`: replaces whatever Content-Length was there. */
  method SetContentLength(h: Headers, len: nat) returns (after: Headers, enc: Encoder.Kind)
    requires len < TWO_64
    ensures enc == Encoder.Length(len) && after == h.(cl := [Decimal(len)])
    ensures h.te == [] ==> Agrees(after, enc)
  {
    after, enc := h.(cl := [Decimal(len)]), Encoder.Length(len);
    WrittenLengthReadsBack(len);
    if h.te == [] { RecipientReads(after, len); }
  }

  lemma RecipientReads(h: Headers, n: nat)
    requires h.te == [] && ContentLengthIs(h.cl, n)
    ensures RecipientFraming(h) == LengthBody(n)
  {
    var m: nat :| ContentLengthIs(h.cl, m) && RecipientFraming(h) == LengthBody(m);
    ContentLengthIsOne(h.cl, n, m);
  }

  function ChunkedWith(names: set<Encoder.Name>): Encoder.Kind {
    Encoder.Chunked(if names == {} then None else Some(names))
  }

  /**
   `Client::set_length`. The headers it leaves and the encoder it returns agree in the sense
   of section 6.3 of RFC 9112 exactly on the inputs of `FramingIsSound`: with a body, a
   Content-Length that is absent or valid and a visible last Transfer-Encoding line always do.
   Which framing that is depends on the request alone, as `FramingChosen` says.
   */
  method SetLength(head: RequestHead, body: Option<BodyLength>) returns (after: Headers, enc: Encoder.Kind)
    requires body.Some? && body.value.Known? ==> body.value.len < TWO_64
    ensures Agrees(after, enc) <==> FramingIsSound(head, body)
    ensures FramingChosen(head, body, after, enc)
    ensures enc.Length? ==> enc.remaining < TWO_64
    ensures after.connection == head.headers.connection && after.trailerNames == head.headers.trailerNames
  {
    var h := head.headers;
    forall n, m: nat | ContentLengthIs(h.cl, n) && ContentLengthIs(h.cl, m) ensures n == m {
      ContentLengthIsOne(h.cl, n, m);
    }
    if body.None? {
      after, enc := h.(te := []), Encoder.Length(0);
      if n: nat :| ContentLengthIs(h.cl, n) {
        RecipientReads(after, n);
        if ContentLengthIs(h.cl, 0) { ContentLengthIsOne(h.cl, 0, n); }
      }
      return;
    }
    var existing := ContentLengthParseAll(h.cl);
    if head.version != Http11 {
      after := h.(te := []);
      if existing.Some? {
        enc := Encoder.Length(existing.value);
        RecipientReads(after, existing.value);
      } else if body.value.Known? {
        after, enc := SetContentLength(after, body.value.len);
      } else {
        enc := Encoder.Length(0);
      }
      return;
    }
    if h.te != [] {
      if IsChunked(h.te) {
        after := h;
      } else {
        AddChunkedIsChunked(h.te);
        after := h.(te := AddChunked(h.te));
      }
      enc := ChunkedWith(h.trailerNames);
      if existing.Some? {
        after := after.(cl := []);
      }
    } else if existing.Some? {
      after, enc := h, Encoder.Length(existing.value);
      RecipientReads(after, existing.value);
    } else if body.value.Unknown? {
      if head.method_ in {Get, Head, Connect} {
        after, enc := h, Encoder.Length(0);
      } else {
        after, enc := h.(te := [CHUNKED]), ChunkedWith(h.trailerNames);
        ChunkedAlone();
      }
    } else {
      after, enc := SetContentLength(h, body.value.len);
    }
  }

  lemma ChunkedAlone()
    ensures IsChunked([CHUNKED])
  {
    LastElementAfterComma([], CHUNKED);
    LastElementAlone(CHUNKED);
    assert Trim(CHUNKED) == CHUNKED;
  }

  /**
   The kinds of request on which agreement fails: no body, but a user Content-Length other than
   zero; and with a body, a malformed Content-Length that is left in place, beside a
   Transfer-Encoding or beside a body of unknown length, or a last Transfer-Encoding line that
   is not visible ASCII, to which chunked cannot be added.
   */
  lemma FramingCanDisagree()
    ensures !FramingIsSound(RequestHead(Http11, Other, Headers([], [[53]], [], {})), None)
    ensures !FramingIsSound(RequestHead(Http11, Other, Headers([CHUNKED], [[120]], [], {})), Some(Unknown))
    ensures !FramingIsSound(RequestHead(Http11, Get, Headers([], [[120]], [], {})), Some(Unknown))
    ensures !FramingIsSound(RequestHead(Http10, Other, Headers([], [[120]], [], {})), Some(Unknown))
    ensures !FramingIsSound(RequestHead(Http11, Other, Headers([[200]], [], [], {})), Some(Known(5)))
  {
    SplitWithoutComma([53]);
    assert Trim([53]) == [53];
    assert [53][..0] == [];
    assert DecimalValue([53]) == 5;
    assert !LineDenotes([53], 0) by { assert Split([53])[0] == [53]; }
    SplitWithoutComma([120]);
    assert Trim([120]) == [120];
    forall n ensures !ContentLengthIs([[120]], n) {
      assert Split([120])[0] == [120];
      assert !LineDenotes([120], n);
    }
    assert !Visible([200]) by { assert [200][0] == 200; }
  }

  // ---- responses -----------------------------------------------------------

  datatype BodyKind = CloseDelimited | Chunks | Exact(n: nat)
  datatype ParseError = UnexpectedTransferEncoding | InvalidContentLength | TooLarge

  /** `DecodedLength::MAX_LEN`. */
  const MAX_LEN: nat := TWO_64 - 3

  datatype ResponseHead = ResponseHead(status: nat, version: Version, headers: Headers)

  /** Whether a final response ends with its head, whatever its fields say. */
  predicate EndsWithHead(status: nat, req: Option<Method>) {
    status in {101, 204, 304} || req == Some(Head) || (req == Some(Connect) && 200 <= status <= 299)
  }

  predicate Upgrades(status: nat, req: Option<Method>) {
    status == 101 || (req == Some(Connect) && 200 <= status <= 299 && status != 204)
  }

  predicate Informational(status: nat) {
    status == 100 || 102 <= status <= 199
  }

  /** How the body of a final response is delimited by its fields (section 6.3 of RFC 9112). */
  ghost predicate Delimited(resp: ResponseHead, r: Result<BodyKind, ParseError>) {
    var h := resp.headers;
    match r
    case Ok(Chunks) => h.te != [] && resp.version != Http10 && IsChunked(h.te)
    case Ok(CloseDelimited) =>
      if h.te != [] then resp.version != Http10 && !IsChunked(h.te) else h.cl == []
    case Ok(Exact(n)) => h.te == [] && n <= 0xFFFF_FFFF_FFFF_FFFD && ContentLengthIs(h.cl, n)
    case Err(UnexpectedTransferEncoding) => h.te != [] && resp.version == Http10
    case Err(InvalidContentLength) => h.te == [] && h.cl != [] && forall n: nat :: !ContentLengthIs(h.cl, n)
    case Err(TooLarge) => h.te == [] && exists n: nat :: n > 0xFFFF_FFFF_FFFF_FFFD && ContentLengthIs(h.cl, n)
  }

  /** The rules never overlap: they determine the framing. */
  lemma DelimitedOneWay(resp: ResponseHead, r: Result<BodyKind, ParseError>, s: Result<BodyKind, ParseError>)
    requires Delimited(resp, r) && Delimited(resp, s)
    ensures r == s
  {
    var cl := resp.headers.cl;
    forall n, m: nat | ContentLengthIs(cl, n) && ContentLengthIs(cl, m) ensures n == m {
      ContentLengthIsOne(cl, n, m);
    }
  }

  /** The outcome of `Client::decoder` that the rules prescribe; `None` skips the head. */
  ghost predicate ResponseFraming(resp: ResponseHead, req: Option<Method>, r: Result<Option<(BodyKind, bool)>, ParseError>) {
    if Informational(resp.status) then r == Ok(None)
    else if EndsWithHead(resp.status, req) then r == Ok(Some((Exact(0), Upgrades(resp.status, req))))
    else match r
      case Err(e) => Delimited(resp, Err(e))
      case Ok(None) => false
      case Ok(Some(body)) => Delimited(resp, Ok(body.0)) && !body.1
  }

  lemma ResponseFramingOneWay(resp: ResponseHead, req: Option<Method>,
                              r: Result<Option<(BodyKind, bool)>, ParseError>, s: Result<Option<(BodyKind, bool)>, ParseError>)
    requires ResponseFraming(resp, req, r) && ResponseFraming(resp, req, s)
    ensures r == s
  {
    if !Informational(resp.status) && !EndsWithHead(resp.status, req) {
      DelimitedOneWay(resp, if r.Ok? then Ok(r.value.value.0) else Err(r.error),
                      if s.Ok? then Ok(s.value.value.0) else Err(s.error));
    }
  }

  /** `Client::decoder`: how the body of a response is delimited and whether it upgrades. */
  method ResponseBody(resp: ResponseHead, req: Option<Method>)
    returns (r: Result<Option<(BodyKind, bool)>, ParseError>)
    ensures ResponseFraming(resp, req, r)
  {
    var h := resp.headers;
    if resp.status == 101 { return Ok(Some((Exact(0), true))); }
    if resp.status == 100 || 102 <= resp.status <= 199 { return Ok(None); }
    if resp.status == 204 || resp.status == 304 { return Ok(Some((Exact(0), false))); }
    if req == Some(Head) { return Ok(Some((Exact(0), false))); }
    if req == Some(Connect) && 200 <= resp.status <= 299 { return Ok(Some((Exact(0), true))); }
    if h.te != [] {
      if resp.version == Http10 { return Err(UnexpectedTransferEncoding); }
      return Ok(Some((if IsChunked(h.te) then Chunks else CloseDelimited, false)));
    }
    var len := ContentLengthParseAll(h.cl);
    if len.Some? {
      return if len.value <= MAX_LEN then Ok(Some((Exact(len.value), false))) else Err(TooLarge);
    }
    if h.cl != [] { return Err(InvalidContentLength); }
    return Ok(Some((CloseDelimited, false)));
  }

  /** The keep-alive flag computed while reading the header lines of a response. */
  function KeepAliveFlag(version: Version, connection: seq<ByteSeq>): bool {
    if connection == [] then version == Http11
    else
      var value := connection[|connection| - 1];
      if KeepAliveFlag(version, connection[..|connection| - 1]) then !ConnectionHas(value, CLOSE)
      else ConnectionHas(value, KEEP_ALIVE)
  }

  /** Some Connection line lists `token`. */
  predicate Lists(connection: seq<ByteSeq>, token: ByteSeq) {
    exists i :: 0 <= i < |connection| && ConnectionHas(connection[i], token)
  }

  /**
   Whether a connection persists (section 9.3 of RFC 9112): without a Connection option that
   says otherwise it does exactly in HTTP/1.1, and what the last line says for itself, it says.
   */
  predicate Persists(version: Version, connection: seq<ByteSeq>, keepAlive: bool) {
    var n := |connection|;
    && (!Lists(connection, CLOSE) && !Lists(connection, KEEP_ALIVE) ==> (keepAlive <==> version == Http11))
    && (version == Http11 && !Lists(connection, CLOSE) ==> keepAlive)
    && (version != Http11 && !Lists(connection, KEEP_ALIVE) ==> !keepAlive)
    && (n > 0 && ConnectionHas(connection[n - 1], CLOSE) && !ConnectionHas(connection[n - 1], KEEP_ALIVE) ==> !keepAlive)
    && (n > 0 && ConnectionHas(connection[n - 1], KEEP_ALIVE) && !ConnectionHas(connection[n - 1], CLOSE) ==> keepAlive)
  }

  lemma {:induction false} KeepAlivePersists(version: Version, connection: seq<ByteSeq>)
    ensures Persists(version, connection, KeepAliveFlag(version, connection))
    decreases |connection|
  {
    hide ConnectionHas;
    if connection != [] {
      var n := |connection| - 1;
      var before := connection[..n];
      KeepAlivePersists(version, before);
      assert forall token :: Lists(before, token) ==> Lists(connection, token) by {
        forall token | Lists(before, token) ensures Lists(connection, token) {
          var i :| 0 <= i < n && ConnectionHas(before[i], token);
          assert connection[i] == before[i];
        }
      }
      assert forall token :: ConnectionHas(connection[n], token) ==> Lists(connection, token);
    }
  }
}
