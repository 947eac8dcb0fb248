/**
 Response heads at the front of a byte string (`Client::parse` of role.rs), over a foreign
 parser for one head: what they mean, and that it does not matter how the bytes arrive.
 */
module ResponseHeads {
  import opened Bytes
  import opened Framing

  datatype HeadOutcome = Partial | Bad | Parsed(len: nat, resp: ResponseHead)

  /** The foreign response parser: what it finds at the front of the buffer. */
  type HeadParser = ByteSeq -> HeadOutcome

  /** It never claims more than it was given, and an informational head is not empty. */
  ghost predicate GoodParser(p: HeadParser) {
    forall b :: p(b).Parsed? ==> p(b).len <= |b| && (Informational(p(b).resp.status) ==> p(b).len > 0)
  }

  /** A parsed final response head. */
  datatype Message = Message(kind: BodyKind, keepAlive: bool, upgrade: bool, version: Version)

  // ---- response heads ------------------------------------------------------

  /** What the front of a byte string holds: informational heads only, nonsense, or a final head. */
  datatype HeadParse = NoHead(rest: ByteSeq) | BadHead | Found(msg: Message, rest: ByteSeq)

  /** Informational heads are passed over; the first other one is final. */
  ghost predicate Parses(p: HeadParser, req: Option<Method>, buf: ByteSeq, r: HeadParse)
    requires GoodParser(p)
    decreases |buf|
  {
    match p(buf)
    case Partial => r == NoHead(buf)
    case Bad => r == BadHead
    case Parsed(len, resp) =>
      if Informational(resp.status) then
        if buf[len..] == [] then r == NoHead([]) else Parses(p, req, buf[len..], r)
      else match r
        case NoHead(_) => false
        case BadHead => exists e :: ResponseFraming(resp, req, Err(e))
        case Found(msg, rest) =>
          && rest == buf[len..] && msg.version == resp.version
          && msg.keepAlive == (KeepAliveFlag(resp.version, resp.headers.connection) && !msg.upgrade)
          && ResponseFraming(resp, req, Ok(Some((msg.kind, msg.upgrade))))
  }

  lemma {:induction false} ParsesOneWay(p: HeadParser, req: Option<Method>, buf: ByteSeq, r: HeadParse, s: HeadParse)
    requires GoodParser(p) && Parses(p, req, buf, r) && Parses(p, req, buf, s)
    ensures r == s
    decreases |buf|
  {
    hide ResponseFraming, KeepAliveFlag;
    match p(buf)
    case Partial =>
    case Bad =>
    case Parsed(len, resp) =>
      if Informational(resp.status) {
        if buf[len..] != [] { ParsesOneWay(p, req, buf[len..], r, s); }
      } else {
        forall a, b | ResponseFraming(resp, req, a) && ResponseFraming(resp, req, b) ensures a == b {
          ResponseFramingOneWay(resp, req, a, b);
        }
      }
  }

  /** The outcome of a parse that left `rest` in the buffer. */
  function ParseOf(r: Result<Option<Message>, ()>, rest: ByteSeq): HeadParse {
    match r
    case Err(_) => BadHead
    case Ok(None) => NoHead(rest)
    case Ok(Some(msg)) => Found(msg, rest)
  }

  lemma InformationalOnly(resp: ResponseHead, req: Option<Method>, r: Result<Option<(BodyKind, bool)>, ParseError>)
    requires ResponseFraming(resp, req, r)
    ensures r == Ok(None) <==> Informational(resp.status)
  {
  }

  /** An upgrading response never allows reuse and has no body of its own. */
  lemma {:induction false} UpgradeIsLast(p: HeadParser, req: Option<Method>, buf: ByteSeq, msg: Message, rest: ByteSeq)
    requires GoodParser(p) && Parses(p, req, buf, Found(msg, rest))
    ensures msg.upgrade ==> !msg.keepAlive && msg.kind == Exact(0)
    decreases |buf|
  {
    match p(buf)
    case Parsed(len, resp) =>
      if Informational(resp.status) && buf[len..] != [] { UpgradeIsLast(p, req, buf[len..], msg, rest); }
  }

  /** What a message takes from the head it was parsed from: its version, framing and whether the connection persists. */
  ghost predicate Says(p: HeadParser, req: Option<Method>, buf: ByteSeq, msg: Message, rest: ByteSeq) {
    exists at: nat :: at <= |buf| && SaysAt(p, req, buf, at, msg, rest)
  }

  ghost predicate SaysAt(p: HeadParser, req: Option<Method>, buf: ByteSeq, at: nat, msg: Message, rest: ByteSeq)
    requires at <= |buf|
  {
    var o := p(buf[at..]);
    && o.Parsed? && o.len <= |buf| - at && rest == buf[at + o.len..]
    && !(o.resp.status == 100 || 102 <= o.resp.status <= 199) && msg.version == o.resp.version
    && ResponseFraming(o.resp, req, Ok(Some((msg.kind, msg.upgrade))))
    && if msg.upgrade then !msg.keepAlive else Persists(o.resp.version, o.resp.headers.connection, msg.keepAlive)
  }

  lemma {:induction false} FoundSays(p: HeadParser, req: Option<Method>, buf: ByteSeq, msg: Message, rest: ByteSeq)
    requires GoodParser(p) && Parses(p, req, buf, Found(msg, rest))
    ensures Says(p, req, buf, msg, rest)
    decreases |buf|
  {
    hide ResponseFraming, KeepAliveFlag, Persists;
    match p(buf)
    case Parsed(len, resp) =>
      if Informational(resp.status) {
        FoundSays(p, req, buf[len..], msg, rest);
        var at: nat :| at <= |buf[len..]| && SaysAt(p, req, buf[len..], at, msg, rest);
        assert buf[len..][at..] == buf[len + at..];
        assert SaysAt(p, req, buf, len + at, msg, rest);
      } else {
        KeepAlivePersists(resp.version, resp.headers.connection);
        assert buf[0..] == buf && SaysAt(p, req, buf, 0, msg, rest);
      }
  }

  /** What a parser makes of a byte string does not change when more bytes follow. */
  ghost predicate Stable(p: HeadParser) {
    forall b, more :: !p(b).Partial? ==> p(b + more) == p(b)
  }

  /** With more bytes to come, parsing what is left in `buf` is parsing `all`. */
  ghost predicate Resumes(p: HeadParser, req: Option<Method>, all: ByteSeq, buf: ByteSeq)
    requires GoodParser(p)
  {
    forall more, r :: more != [] && Parses(p, req, buf + more, r) ==> Parses(p, req, all + more, r)
  }

  /** Waiting for a head: as before, also if nothing more comes, unless what is left has been parsed in vain. */
  ghost predicate Waits(p: HeadParser, req: Option<Method>, all: ByteSeq, buf: ByteSeq)
    requires GoodParser(p)
  {
    && Resumes(p, req, all, buf)
    && (buf == [] || p(buf).Partial? || forall r :: Parses(p, req, buf, r) ==> Parses(p, req, all, r))
  }

  lemma {:induction false} HeadsPassedOver(p: HeadParser, req: Option<Method>, b: ByteSeq, rest: ByteSeq, more: ByteSeq, r: HeadParse)
    requires GoodParser(p) && Stable(p) && Parses(p, req, b, NoHead(rest)) && more != []
    requires Parses(p, req, rest + more, r)
    ensures Parses(p, req, b + more, r)
    decreases |b|
  {
    hide ResponseFraming, KeepAliveFlag;
    match p(b)
    case Partial =>
    case Parsed(len, resp) =>
      assert p(b + more) == p(b);
      assert (b + more)[len..] == b[len..] + more;
      if b[len..] == [] {
        assert [] + more == more;
      } else {
        HeadsPassedOver(p, req, b[len..], rest, more, r);
      }
  }

  /** With bytes read after waiting, nothing has been decided that the longer string does not decide. */
  lemma AfterRead(p: HeadParser, req: Option<Method>, all: ByteSeq, buf: ByteSeq, bytes: ByteSeq)
    requires GoodParser(p) && Waits(p, req, all, buf) && bytes != []
    ensures Waits(p, req, all + bytes, buf + bytes)
  {
    hide Parses;
    forall more, r | Parses(p, req, buf + bytes + more, r) ensures Parses(p, req, all + bytes + more, r) {
      assert buf + bytes + more == buf + (bytes + more) && all + bytes + more == all + (bytes + more);
    }
    forall r | Parses(p, req, buf + bytes, r) ensures Parses(p, req, all + bytes, r) {
    }
  }

  /** A parse of what is buffered, or a parse skipped, while waiting for a head. */
  lemma AfterParse(p: HeadParser, req: Option<Method>, all: ByteSeq, buf: ByteSeq, r: Result<Option<Message>, ()>, rest: ByteSeq)
    requires GoodParser(p) && Stable(p) && Waits(p, req, all, buf)
    requires (r == Ok(None) && rest == buf) || (buf != [] && Parses(p, req, buf, ParseOf(r, rest)))
    ensures if r == Ok(None) then Waits(p, req, all, rest) else Parses(p, req, all, ParseOf(r, rest))
  {
    if r == Ok(None) && Parses(p, req, buf, NoHead(rest)) {
      NoHeadRest(p, req, buf, rest);
      forall more, s | more != [] && Parses(p, req, rest + more, s) ensures Parses(p, req, all + more, s) {
        HeadsPassedOver(p, req, buf, rest, more, s);
      }
    }
  }

  lemma {:induction false} NoHeadRest(p: HeadParser, req: Option<Method>, buf: ByteSeq, rest: ByteSeq)
    requires GoodParser(p) && Parses(p, req, buf, NoHead(rest))
    ensures rest == [] || p(rest).Partial?
    decreases |buf|
  {
    match p(buf)
    case Partial =>
    case Parsed(len, resp) => if buf[len..] != [] { NoHeadRest(p, req, buf[len..], rest); }
  }

  lemma FirstWaits(p: HeadParser, req: Option<Method>, all: ByteSeq)
    requires GoodParser(p)
    ensures Waits(p, req, all, all)
  {
  }

  /** A head once found is found however many bytes follow. */
  lemma {:induction false} FoundStands(p: HeadParser, req: Option<Method>, b: ByteSeq, msg: Message, rest: ByteSeq, more: ByteSeq)
    requires GoodParser(p) && Stable(p) && Parses(p, req, b, Found(msg, rest))
    ensures Parses(p, req, b + more, Found(msg, rest + more))
    decreases |b|
  {
    hide ResponseFraming, KeepAliveFlag;
    match p(b)
    case Parsed(len, resp) =>
      assert p(b + more) == p(b);
      assert (b + more)[len..] == b[len..] + more;
      if Informational(resp.status) { FoundStands(p, req, b[len..], msg, rest, more); }
  }
}
