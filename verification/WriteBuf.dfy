/**
 The write half of `Buffered`: buf.rs `BufList`, io.rs `Cursor` and `WriteBuf`, and the
 flush loops, each proved to refine one byte queue under both write strategies.
 */
module WriteBuf {
  import opened Bytes

  const MAX_BUF_LIST_BUFFERS: nat := 16

  /** What the transport answers to a write (or, ignoring the count, to a flush). */
  datatype WriteEvent = Accept(n: nat) | Block | Failure

  datatype WriteError = WriteFailed | WriteZero

  datatype Strategy = Flatten | Queue

  lemma FlattenFront(bufs: seq<ByteSeq>)
    ensures bufs != [] ==> Bytes.Flatten(bufs) == bufs[0] + Bytes.Flatten(bufs[1..])
  {
    if bufs != [] {
      FlattenCons(bufs[0], bufs[1..]);
      assert bufs == [bufs[0]] + bufs[1..];
    }
  }

  class BufList {
    var bufs: seq<ByteSeq>
    var remaining: nat

    ghost predicate Valid()
      reads this
    {
      AllNonEmpty(bufs) && remaining == |Bytes.Flatten(bufs)|
    }

    ghost function Contents(): ByteSeq
      reads this
    {
      Bytes.Flatten(bufs)
    }

    constructor ()
      ensures Valid() && bufs == []
    {
      bufs, remaining := [], 0;
    }

    method Push(buf: ByteSeq)
      requires Valid() && buf != []
      modifies this
      ensures Valid() && Contents() == old(Contents()) + buf && |bufs| == |old(bufs)| + 1
    {
      FlattenSnoc(bufs, buf);
      remaining := remaining + |buf|;
      bufs := bufs + [buf];
    }

    /** The front buffer; empty only when the list is. */
    method Chunk() returns (s: ByteSeq)
      requires Valid()
      ensures s <= Contents() && (s == [] ==> Contents() == [])
    {
      if bufs == [] { return []; }
      FlattenFront(bufs);
      s := bufs[0];
    }

    /** Drop `cnt` bytes from the front, popping the buffers they exhaust. */
    method Advance(cnt: nat)
      requires Valid() && cnt <= |Contents()|
      modifies this
      ensures Valid() && Contents() == old(Contents())[cnt..] && |bufs| <= |old(bufs)|
    {
      var left := cnt;
      ghost var all := Bytes.Flatten(bufs);
      remaining := remaining - cnt;
      while left > 0
        invariant 0 <= left <= cnt && AllNonEmpty(bufs) && |bufs| <= |old(bufs)|
        invariant remaining == |all| - cnt
        invariant Bytes.Flatten(bufs) == all[cnt - left..]
        decreases |bufs|
      {
        FlattenFront(bufs);
        var front := bufs[0];
        if |front| > left {
          bufs := bufs[0 := front[left..]];
          FlattenFront(bufs);
          return;
        }
        left := left - |front|;
        bufs := bufs[1..];
      }
    }

    /** `copy_to_bytes`: the whole front buffer, part of it, or a copy across several. */
    method CopyToBytes(len: nat) returns (s: ByteSeq)
      requires Valid() && len <= |Contents()|
      modifies this
      ensures Valid() && s == old(Contents())[..len] && Contents() == old(Contents())[len..]
    {
      if bufs != [] && |bufs[0]| >= len {
        var front := bufs[0];
        FlattenFront(bufs);
        if |front| == len {
          s := front;
          bufs := bufs[1..];
        } else {
          s := front[..len];
          bufs := bufs[0 := front[len..]];
          FlattenFront(bufs);
        }
        remaining := remaining - len;
        return;
      }
      s := [];
      while |s| < len
        invariant Valid() && |s| <= len
        invariant s + Contents() == old(Contents())
        decreases len - |s|
      {
        var c := Chunk();
        var n := Min(|c|, len - |s|);
        assert c[..n] == Contents()[..n];
        assert s + Contents() == (s + c[..n]) + Contents()[n..];
        s := s + c[..n];
        Advance(n);
      }
    }
  }

  /** How much some answers would accept in all. */
  function Total(answers: seq<WriteEvent>): nat {
    if answers == [] then 0
    else
      var last := answers[|answers| - 1];
      Total(answers[..|answers| - 1]) + if last.Accept? then last.n else 0
  }

  predicate AllAccept(answers: seq<WriteEvent>, from: nat, to: nat)
    requires to <= |answers|
  {
    forall i :: from <= i < to ==> answers[i].Accept?
  }

  lemma TotalNext(answers: seq<WriteEvent>, from: nat, to: nat)
    requires from <= to < |answers|
    ensures Total(answers[from..to + 1]) == Total(answers[from..to]) + if answers[to].Accept? then answers[to].n else 0
  {
    assert answers[from..to + 1][..to - from] == answers[from..to];
  }

  class WriteBuf {
    var headBytes: ByteSeq
    var headPos: nat
    const queue: BufList
    var strategy: Strategy
    var maxBufSize: nat

    /** The transport's answers, how many have been used, and the bytes it has accepted. */
    const answers: seq<WriteEvent>
    var used: nat
    var accepted: ByteSeq
    /** It has refused to write. */
    var broken: bool
    /** Everything ever buffered, in call order. */
    ghost var buffered: ByteSeq

    ghost predicate Valid()
      reads this, queue
    {
      && queue.Valid() && headPos <= |headBytes| && maxBufSize > 0
      && (strategy.Flatten? ==> queue.bufs == [])
      && accepted + Pending() == buffered && used <= |answers| && |queue.bufs| <= 16
      && (broken ==> exists i :: 0 <= i < used && (answers[i].Failure? || answers[i] == Accept(0)))
    }

    /** What is buffered and not yet accepted by the transport. */
    ghost function Pending(): ByteSeq
      reads this, queue
      requires headPos <= |headBytes|
    {
      headBytes[headPos..] + queue.Contents()
    }

    constructor (strategy: Strategy, max: nat, answers: seq<WriteEvent>)
      requires max > 0
      ensures Valid() && fresh(queue) && buffered == [] && accepted == [] && used == 0 && !broken
      ensures this.strategy == strategy && this.answers == answers
    {
      headBytes, headPos, maxBufSize := [], 0, max;
      queue := new BufList();
      this.strategy, this.answers, used, broken := strategy, answers, 0, false;
      accepted, buffered := [], [];
    }

    /** `can_headers_buf`. */
    predicate CanHeadersBuf()
      reads this, queue
    {
      queue.remaining == 0
    }

    /** The last answer used blocked, or there is none to come. */
    predicate Blocked()
      reads this
    {
      used >= |answers| || (used > 0 && answers[used - 1].Block?)
    }

    function Remaining(): int
      reads this, queue
    {
      |headBytes| - headPos + queue.remaining
    }

    /** `can_buffer`. */
    predicate CanBuffer()
      reads this, queue
    {
      match strategy
      case Flatten => Remaining() < maxBufSize
      case Queue => |queue.bufs| < MAX_BUF_LIST_BUFFERS && Remaining() < maxBufSize
    }

    /** A head serialized straight into `headers_buf()`, which needs the queue to be empty. */
    method WriteHead(head: ByteSeq)
      requires Valid() && CanHeadersBuf()
      modifies this`headBytes, this`buffered
      ensures Valid() && buffered == old(buffered) + head && Pending() == old(Pending()) + head
      ensures queue.bufs == old(queue.bufs)
    {
      assert queue.Contents() == [];
      assert headBytes[headPos..] + [] == headBytes[headPos..];
      assert (headBytes + head)[headPos..] == headBytes[headPos..] + head;
      assert accepted + (headBytes[headPos..] + head + []) == (accepted + (headBytes[headPos..] + [])) + head;
      headBytes := headBytes + head;
      buffered := buffered + head;
    }

    /** `Cursor::maybe_unshift`: whether there was room depends on the allocator. */
    method MaybeUnshift(roomy: bool)
      requires Valid()
      modifies this`headBytes, this`headPos
      ensures Valid() && Pending() == old(Pending())
    {
      if headPos == 0 || roomy { return; }
      headBytes := headBytes[headPos..];
      headPos := 0;
    }

    /**
     `WriteBuf::buffer`: flatten behind the head, or queue. Only done when `can_buffer`, so less
     than the maximum was pending before, in fewer than sixteen queued buffers.
     */
    method Buffer(buf: ByteSeq, roomy: bool)
      requires Valid() && buf != [] && CanBuffer()
      modifies this`headBytes, this`headPos, this`buffered, queue
      ensures Valid() && buffered == old(buffered) + buf
      ensures Pending() == old(Pending()) + buf && |Pending()| < maxBufSize + |buf|
      ensures strategy.Queue? ==> headBytes == old(headBytes) && |queue.bufs| == |old(queue.bufs)| + 1
    {
      RemainingIsPending();
      match strategy
      case Flatten =>
        MaybeUnshift(roomy);
        WriteHead(buf);
        assert queue.Contents() == [] && headBytes[headPos..] + [] == headBytes[headPos..];
        assert Pending() == old(Pending()) + buf;
      case Queue =>
        queue.Push(buf);
        assert accepted + (headBytes[headPos..] + (old(queue.Contents()) + buf))
            == (accepted + (headBytes[headPos..] + old(queue.Contents()))) + buf;
        buffered := buffered + buf;
    }

    /** `WriteBuf::advance` by bytes the transport accepted: the head first, then the queue. */
    method Advance(cnt: nat)
      requires Valid() && cnt <= |Pending()|
      modifies this`headBytes, this`headPos, this`accepted, queue
      ensures Valid() && accepted == old(accepted) + old(Pending())[..cnt]
      ensures Pending() == old(Pending())[cnt..]
    {
      ghost var was := Pending();
      assert accepted + was == (accepted + was[..cnt]) + was[cnt..];
      accepted := accepted + AcceptedBytes(cnt);
      var hrem := |headBytes| - headPos;
      if hrem == cnt {
        headBytes, headPos := [], 0;
      } else if hrem > cnt {
        headPos := headPos + cnt;
      } else {
        headBytes, headPos := [], 0;
        queue.Advance(cnt - hrem);
      }
      assert Pending() == was[cnt..];
    }

    /** The first `cnt` pending bytes, which is what a (possibly vectored) write of `cnt` hands over. */
    function AcceptedBytes(cnt: nat): (s: ByteSeq)
      reads this, queue
      requires Valid() && cnt <= |Pending()|
      ensures s == Pending()[..cnt]
    {
      (headBytes[headPos..] + Bytes.Flatten(queue.bufs))[..cnt]
    }

    /** What one write comes to: the next answer decides, and an accepted count moves that many of the pending bytes, or all. */
    ghost predicate Wrote(before: nat, was: ByteSeq, base: ByteSeq, r: Poll<Result<nat, WriteError>>)
      requires headPos <= |headBytes|
      reads this, queue
    {
      var n := if r.Ready? && r.value.Ok? then r.value.value else 0;
      && before <= used <= |answers| && n <= |was|
      && accepted == base + was[..n] && Pending() == was[n..]
      && if used == before then used == |answers| && r.Pending?
         else used == before + 1 && match answers[before]
              case Block => r.Pending?
              case Failure => r == Ready(Err(WriteFailed))
              case Accept(k) => r == Ready(Ok(Min(k, |was|)))
    }

    /** One write of the pending bytes: how many were taken, pending, or an error. */
    method PollWrite() returns (r: Poll<Result<nat, WriteError>>)
      requires Valid()
      modifies this`headBytes, this`headPos, this`accepted, this`used, this`broken, queue
      ensures Valid() && Wrote(old(used), old(Pending()), old(accepted), r)
      ensures broken <==> old(broken) || (r.Ready? && r.value.Err?)
    {
      RemainingIsPending();
      assert accepted + [] == accepted && Pending()[0..] == Pending();
      if used == |answers| { return Poll.Pending; }
      var event := answers[used];
      used := used + 1;
      match event
      case Block => r := Poll.Pending;
      case Failure =>
        broken := true;
        assert answers[used - 1].Failure?;
        r := Ready(Err(WriteFailed));
      case Accept(n) =>
        var taken := Min(n, Remaining());
        Advance(taken);
        r := Ready(Ok(taken));
    }

    /** Flushing the transport itself: the next answer decides. */
    method PollFlushIo() returns (r: Poll<Result<(), WriteError>>)
      requires Valid()
      modifies this`used, this`broken
      ensures Valid() && FlushAnswered(old(used), r) && (broken <==> old(broken) || (r.Ready? && r.value.Err?))
    {
      if used == |answers| { return Poll.Pending; }
      var event := answers[used];
      used := used + 1;
      if event.Failure? {
        assert answers[used - 1].Failure?;
        broken := true;
      }
      r := match event
           case Block => Poll.Pending
           case Failure => Ready(Err(WriteFailed))
           case Accept(_) => Ready(Ok(()));
    }

    /** As many of the bytes `was` pending have been accepted, after `base`, as the answers used since `start` allow. */
    ghost predicate MovedSince(start: nat, was: ByteSeq, base: ByteSeq)
      requires headPos <= |headBytes|
      reads this, queue
    {
      && start <= used <= |answers| && |Pending()| <= |was|
      && accepted == base + was[..|was| - |Pending()|] && Pending() == was[|was| - |Pending()|..]
      && |was| - |Pending()| == Min(Total(answers[start..used]), |was|)
    }

    /** The same, with every answer so far an accepting one. */
    ghost predicate Writing(start: nat, was: ByteSeq, base: ByteSeq)
      requires headPos <= |headBytes|
      reads this, queue
    {
      MovedSince(start, was, base) && AllAccept(answers, start, used)
    }

    /**
     What a flush comes to. Every answer used but the last accepted bytes, and as many were moved
     as the answers allow, in order. It is pending only on an answer that blocks, or none; it fails
     only on a failure, or on bytes left that a write accepted none of; and it succeeds only with
     nothing pending before its last answer, that of the transport's own flush.
     */
    ghost predicate Flushed(start: nat, was: ByteSeq, base: ByteSeq, r: Poll<Result<(), WriteError>>)
      requires headPos <= |headBytes|
      reads this, queue
    {
      && MovedSince(start, was, base)
      && if used == start then r.Pending? && used == |answers|
         else
           AllAccept(answers, start, used - 1) && match r
           case Pending => answers[used - 1].Block? || (used == |answers| && answers[used - 1].Accept?)
           case Ready(Ok(_)) => answers[used - 1].Accept? && Total(answers[start..used - 1]) >= |was|
           case Ready(Err(WriteFailed)) => answers[used - 1].Failure?
           case Ready(Err(WriteZero)) => answers[used - 1] == Accept(0) && Pending() != []
    }

    lemma NothingUsed()
      requires Valid()
      ensures Writing(used, Pending(), accepted)
    {
      assert answers[used..used] == [] && Pending()[..0] == [] && Pending()[0..] == Pending() && accepted + [] == accepted;
    }

    /** One more write, of `before` pending after `done` accepted, with `at` answers used. */
    lemma Turned(start: nat, was: ByteSeq, base: ByteSeq, at: nat, before: ByteSeq, done: ByteSeq, r: Poll<Result<nat, WriteError>>)
      requires headPos <= |headBytes| && start <= at <= |answers| && 0 < |before| <= |was|
      requires done == base + was[..|was| - |before|] && before == was[|was| - |before|..]
      requires AllAccept(answers, start, at) && Total(answers[start..at]) == |was| - |before|
      requires Wrote(at, before, done, r)
      ensures r.Ready? && r.value.Ok? ==>
                Writing(start, was, base) && used > start && (r.value.value == 0 ==> answers[used - 1] == Accept(0))
                && |Pending()| == |before| - r.value.value
      ensures r.Pending? ==> Flushed(start, was, base, Poll.Pending)
      ensures r.Ready? && r.value.Err? ==> Flushed(start, was, base, Ready(Err(r.value.error)))
    {
      hide Total;
      var n := |was| - |before|;
      var k := if r.Ready? && r.value.Ok? then r.value.value else 0;
      assert before[..k] == was[n..n + k];
      assert before[k..] == was[n + k..];
      assert base + was[..n] + was[n..n + k] == base + was[..n + k];
      if used > at {
        TotalNext(answers, start, at);
      }
    }

    /** The flush of the transport, once nothing is pending. */
    lemma FlushEnds(start: nat, was: ByteSeq, base: ByteSeq, before: nat, r: Poll<Result<(), WriteError>>)
      requires headPos <= |headBytes| && Pending() == [] && accepted == base + was && start <= before <= |answers|
      requires AllAccept(answers, start, before) && Total(answers[start..before]) >= |was|
      requires FlushAnswered(before, r)
      ensures Flushed(start, was, base, r)
    {
      hide Total;
      assert was[..|was|] == was && was[|was|..] == [];
      if used > before { TotalNext(answers, start, before); }
    }

    /** What flushing the transport itself comes to. */
    predicate FlushAnswered(before: nat, r: Poll<Result<(), WriteError>>)
      reads this
    {
      && before <= used <= |answers|
      && if used == before then used == |answers| && r.Pending?
         else used == before + 1 && match answers[before]
              case Block => r.Pending?
              case Failure => r == Ready(Err(WriteFailed))
              case Accept(_) => r == Ready(Ok(()))
    }

    /** `poll_flush` under either strategy. */
    method PollFlush() returns (r: Poll<Result<(), WriteError>>)
      requires Valid()
      modifies this`headBytes, this`headPos, this`accepted, this`used, this`broken, queue
      ensures Valid() && Flushed(old(used), old(Pending()), old(accepted), r)
      ensures broken <==> old(broken) || (r.Ready? && r.value.Err?)
      ensures old(accepted) <= accepted && (r.Ready? && r.value.Ok? ==> AllOut())
    {
      hide Bytes.Flatten, Total, WriteBuf.Flushed, WriteBuf.Writing, WriteBuf.Wrote;
      RemainingIsPending();
      NothingUsed();
      if Remaining() > 0 && strategy.Flatten? {
        r := PollFlushFlattened();
        return;
      }
      ghost var start, was, base := used, Pending(), accepted;
      while Remaining() > 0
        invariant Valid() && Remaining() == |Pending()| && Writing(start, was, base) && broken == old(broken)
        decreases |Pending()|
      {
        var p := WriteSome(start, was, base);
        RemainingIsPending();
        match p
        case Pending => return Poll.Pending;
        case Ready(Err(e)) => return Ready(Err(e));
        case Ready(Ok(_)) =>
      }
      r := FlushTransport(start, was, base);
    }

    /** Nothing is left to write. */
    ghost predicate AllOut()
      requires headPos <= |headBytes|
      reads this, queue
    {
      Pending() == [] && accepted == buffered && CanHeadersBuf() && CanBuffer()
    }

    lemma Out()
      requires Valid() && Pending() == []
      ensures AllOut()
    {
      NothingPending();
      assert accepted + [] == accepted;
    }

    method FlushTransport(ghost start: nat, ghost was: ByteSeq, ghost base: ByteSeq) returns (r: Poll<Result<(), WriteError>>)
      requires Valid() && Writing(start, was, base) && Pending() == []
      modifies this`used, this`broken
      ensures Valid() && Flushed(start, was, base, r) && Pending() == []
      ensures broken <==> old(broken) || (r.Ready? && r.value.Err?)
      ensures base <= accepted && AllOut()
    {
      hide Bytes.Flatten, Total;
      assert was[..|was|] == was;
      ghost var before := used;
      r := PollFlushIo();
      FlushEnds(start, was, base, before, r);
      Out();
    }

    /** A turn of the loop: one write, and its verdict. */
    method WriteSome(ghost start: nat, ghost was: ByteSeq, ghost base: ByteSeq) returns (r: Poll<Result<nat, WriteError>>)
      requires Valid() && Writing(start, was, base) && Pending() != []
      modifies this`headBytes, this`headPos, this`accepted, this`used, this`broken, queue
      ensures Valid() && (broken <==> old(broken) || (r.Ready? && r.value.Err?)) && base <= accepted
      ensures r.Pending? ==> Flushed(start, was, base, Poll.Pending)
      ensures r.Ready? && r.value.Err? ==> Flushed(start, was, base, Ready(Err(r.value.error)))
      ensures r.Ready? && r.value.Ok? ==> Writing(start, was, base) && |Pending()| < |old(Pending())|
    {
      hide Bytes.Flatten, Total;
      ghost var at, before, done := used, Pending(), accepted;
      r := PollWrite();
      Turned(start, was, base, at, before, done, r);
      RemainingIsPending();
      if r.Ready? && r.value.Ok? && Remaining() > 0 && r.value.value == 0 {
        BreakOff();
        return Ready(Err(WriteZero));
      }
    }

    method BreakOff()
      requires Valid() && used > 0 && answers[used - 1] == Accept(0)
      modifies this`broken
      ensures Valid() && broken
    {
      broken := true;
    }

    /** One write of the flattened buffer, past the cursor. */
    method PollWriteFlat() returns (r: Poll<Result<nat, WriteError>>)
      requires Valid() && strategy.Flatten?
      modifies this`headPos, this`accepted, this`used, this`broken
      ensures Valid() && Wrote(old(used), old(Pending()), old(accepted), r)
      ensures broken <==> old(broken) || (r.Ready? && r.value.Err?)
    {
      FlatIsPending();
      hide Bytes.Flatten, Total;
      assert accepted + [] == accepted && Pending()[0..] == Pending();
      if used == |answers| { return Poll.Pending; }
      var event := answers[used];
      used := used + 1;
      match event
      case Block => r := Poll.Pending;
      case Failure =>
        broken := true;
        assert answers[used - 1].Failure?;
        r := Ready(Err(WriteFailed));
      case Accept(n) =>
        var taken := Min(n, |headBytes| - headPos);
        AdvanceFlat(taken);
        r := Ready(Ok(taken));
    }

    /** `Cursor::advance` by what was written. */
    method AdvanceFlat(taken: nat)
      requires Valid() && strategy.Flatten? && taken <= |headBytes| - headPos
      modifies this`headPos, this`accepted
      ensures Valid() && headPos == old(headPos) + taken
      ensures accepted == old(accepted) + old(Pending())[..taken] && Pending() == old(Pending())[taken..]
    {
      FlatIsPending();
      hide Bytes.Flatten;
      ghost var was := headBytes[headPos..];
      assert was == was[..taken] + was[taken..] && headBytes[headPos..headPos + taken] == was[..taken];
      assert headBytes[headPos + taken..] == was[taken..] && was[taken..] + [] == was[taken..];
      assert accepted + was == (accepted + was[..taken]) + was[taken..];
      accepted := accepted + headBytes[headPos..headPos + taken];
      headPos := headPos + taken;
    }

    /** `poll_flush_flattened`: the fast path when everything is in the one buffer. */
    method PollFlushFlattened() returns (r: Poll<Result<(), WriteError>>)
      requires Valid() && strategy.Flatten? && Remaining() > 0
      modifies this`headBytes, this`headPos, this`accepted, this`used, this`broken
      ensures Valid() && Flushed(old(used), old(Pending()), old(accepted), r)
      ensures broken <==> old(broken) || (r.Ready? && r.value.Err?)
      ensures old(accepted) <= accepted && (r.Ready? && r.value.Ok? ==> AllOut())
    {
      hide Bytes.Flatten, Total, WriteBuf.Flushed, WriteBuf.Writing, WriteBuf.Wrote;
      RemainingIsPending();
      NothingUsed();
      ghost var start, was, base := used, Pending(), accepted;
      while headPos < |headBytes|
        invariant Valid() && Writing(start, was, base) && broken == old(broken) && queue.bufs == []
        decreases |headBytes| - headPos
      {
        RemainingIsPending();
        var p := WriteFlat(start, was, base);
        match p
        case Pending => return Poll.Pending;
        case Ready(Err(e)) => return Ready(Err(e));
        case Ready(Ok(_)) =>
      }
      NothingLeft();
      Emptied(start, was, base);
      r := FlushTransport(start, was, base);
    }

    /** `headers.reset()` once the cursor is at the end. */
    method Emptied(ghost start: nat, ghost was: ByteSeq, ghost base: ByteSeq)
      requires Valid() && headPos == |headBytes| && Writing(start, was, base) && Pending() == [] && queue.Contents() == []
      modifies this`headBytes, this`headPos
      ensures Valid() && Writing(start, was, base) && Pending() == []
    {
      hide Bytes.Flatten, Total;
      headBytes, headPos := [], 0;
    }

    method WriteFlat(ghost start: nat, ghost was: ByteSeq, ghost base: ByteSeq) returns (r: Poll<Result<nat, WriteError>>)
      requires Valid() && strategy.Flatten? && Writing(start, was, base) && Pending() != []
      modifies this`headPos, this`accepted, this`used, this`broken
      ensures Valid() && (broken <==> old(broken) || (r.Ready? && r.value.Err?)) && base <= accepted
      ensures r.Pending? ==> Flushed(start, was, base, Poll.Pending)
      ensures r.Ready? && r.value.Err? ==> Flushed(start, was, base, Ready(Err(r.value.error)))
      ensures r.Ready? && r.value.Ok? ==> Writing(start, was, base) && headPos > old(headPos)
    {
      hide Bytes.Flatten, Total;
      ghost var at, before, done := used, Pending(), accepted;
      FlatIsPending();
      r := PollWriteFlat();
      FlatIsPending();
      Turned(start, was, base, at, before, done, r);
      if r.Ready? && r.value.Ok? && headPos < |headBytes| && r.value.value == 0 {
        BreakOff();
        return Ready(Err(WriteZero));
      }
    }

    lemma NothingLeft()
      requires Valid() && headPos == |headBytes| && strategy.Flatten?
      ensures Pending() == [] && queue.Contents() == []
    {
    }

    lemma RemainingIsPending()
      requires Valid()
      ensures Remaining() == |Pending()|
    {
    }

    lemma FlatIsPending()
      requires Valid() && strategy.Flatten?
      ensures Pending() == headBytes[headPos..] && queue.Contents() == []
    {
      assert headBytes[headPos..] + [] == headBytes[headPos..];
    }

    lemma QueueHolds()
      requires Valid() && !CanHeadersBuf()
      ensures strategy.Queue? && queue.bufs != []
    {
    }

    lemma AllAccounted()
      requires Valid()
      ensures accepted <= buffered && |buffered| == |accepted| + |Pending()|
    {
      hide Bytes.Flatten;
    }

    lemma NothingPending()
      requires Valid() && Pending() == []
      ensures queue.bufs == [] && headPos == |headBytes|
    {
      FlattenFront(queue.bufs);
    }
  }

  // ---- whole runs ----------------------------------------------------------

  datatype Op = Head(bytes: ByteSeq) | Body(bytes: ByteSeq, roomy: bool) | Flush

  function Written(ops: seq<Op>): ByteSeq {
    if ops == [] then []
    else Written(ops[..|ops| - 1]) + BytesOf(ops[|ops| - 1])
  }

  function BytesOf(op: Op): ByteSeq {
    match op case Flush => [] case Head(b) => b case Body(b, _) => b
  }

  lemma WrittenNext(ops: seq<Op>, op: Op)
    ensures Written(ops + [op]) == Written(ops) + BytesOf(op)
  {
    assert (ops + [op])[..|ops|] == ops;
  }

  /** One call; a head waits for the queue to be empty, a body for room, and a flush for nothing. */
  method Perform(w: WriteBuf, op: Op) returns (done: bool)
    requires w.Valid() && (op.Body? ==> op.bytes != [])
    modifies w, w.queue
    ensures w.Valid() && w.buffered == old(w.buffered) + (if done then BytesOf(op) else [])
    ensures w.strategy == old(w.strategy) && old(w.accepted) <= w.accepted
    ensures !done && op.Head? ==> w.strategy.Queue? && w.queue.bufs != []
    ensures !done && op.Body? ==> |w.Pending()| >= w.maxBufSize || (w.strategy.Queue? && |w.queue.bufs| == 16)
    ensures op.Flush? ==> done
  {
    hide Bytes.Flatten, Total;
    done := true;
    w.RemainingIsPending();
    match op
    case Head(b) =>
      done := w.CanHeadersBuf();
      if done { w.WriteHead(b); } else { w.QueueHolds(); }
    case Body(b, roomy) =>
      done := w.CanBuffer();
      if done { w.Buffer(b, roomy); }
    case Flush => var _ := w.PollFlush();
  }

  /**
   Any run of writes and flushes, heads and bodies each made only when they may be. The bytes
   the transport accepted followed by what is pending are the bytes of the calls made, in call
   order, so both strategies refine the same byte queue; the calls made are those of `ops`, in
   order, but for those held back.
   */
  method DriveWrites(strategy: Strategy, max: nat, answers: seq<WriteEvent>, ops: seq<Op>)
    returns (accepted: ByteSeq, pending: nat, done: seq<bool>)
    requires max > 0
    requires forall i :: 0 <= i < |ops| && ops[i].Body? ==> ops[i].bytes != []
    ensures |done| == |ops|
    ensures accepted <= Written(Made(ops, done)) && |Written(Made(ops, done))| == |accepted| + pending
    ensures strategy.Flatten? ==> forall i :: 0 <= i < |ops| && !ops[i].Body? ==> done[i]
  {
    hide Written, Made, Bytes.Flatten, Total, WriteBuf.Pending, WriteBuf.Valid, BufList.Valid, BufList.Contents;
    var w := new WriteBuf(strategy, max, answers);
    done := [];
    ghost var made := [];
    NoneMade();
    assert ops[..0] == [];
    for k := 0 to |ops|
      invariant w.Valid() && fresh(w) && fresh(w.queue) && w.strategy == strategy && |done| == k
      invariant w.buffered == Written(made) && made == Made(ops[..k], done)
      invariant strategy.Flatten? ==> forall i :: 0 <= i < k && !ops[i].Body? ==> done[i]
    {
      var performed := Perform(w, ops[k]);
      MadeNext(ops[..k], done, ops[k], performed);
      WrittenNext(made, ops[k]);
      assert ops[..k + 1] == ops[..k] + [ops[k]];
      done := done + [performed];
      made := if performed then made + [ops[k]] else made;
    }
    assert ops[..|ops|] == ops;
    w.RemainingIsPending();
    w.AllAccounted();
    accepted, pending := w.accepted, w.Remaining();
  }

  /** The calls made: those not held back. */
  function Made(ops: seq<Op>, done: seq<bool>): seq<Op>
    requires |done| == |ops|
  {
    if ops == [] then []
    else
      var n := |ops| - 1;
      Made(ops[..n], done[..n]) + if done[n] then [ops[n]] else []
  }

  lemma NoneMade()
    ensures Written([]) == [] && Made([], []) == []
  {
  }

  lemma MadeNext(ops: seq<Op>, done: seq<bool>, op: Op, made: bool)
    requires |done| == |ops|
    ensures Made(ops + [op], done + [made]) == if made then Made(ops, done) + [op] else Made(ops, done)
  {
    assert (ops + [op])[..|ops|] == ops && (done + [made])[..|ops|] == done;
    assert Made(ops, done) + [] == Made(ops, done);
  }
}
