/**
 The read half of `Buffered` in io.rs over an arbitrary transport.

 A transport is a script of what successive reads will return; every theorem is
 for every script. A read of no bytes is end of file, `Block` is `Poll::Pending`.
 */
module Source {
  import opened Bytes
  import opened ReadStrategy

  datatype IoEvent = Read(bytes: ByteSeq) | Block | Failure

  datatype IoError = IoError

  /** How a script ends as far as a reader that never looks past it can tell. */
  datatype Terminal = AtEof | AtFailure | AtIdle

  /** All bytes a script delivers before its first end of file or failure. */
  function Upcoming(script: seq<IoEvent>): ByteSeq {
    if script == [] then []
    else match script[0]
      case Read(b) => if b == [] then [] else b + Upcoming(script[1..])
      case Block => Upcoming(script[1..])
      case Failure => []
  }

  function TerminalOf(script: seq<IoEvent>): Terminal {
    if script == [] then AtIdle
    else match script[0]
      case Read(b) => if b == [] then AtEof else TerminalOf(script[1..])
      case Block => TerminalOf(script[1..])
      case Failure => AtFailure
  }

  function Weight(script: seq<IoEvent>): nat {
    if script == [] then 0
    else 1 + (if script[0].Read? then |script[0].bytes| else 0) + Weight(script[1..])
  }

  /** A transport that has ended delivers nothing more. */
  function Dried(script: seq<IoEvent>): (r: seq<IoEvent>)
    ensures Dry(r) && |r| == |script| && Weight(r) <= Weight(script)
    ensures forall e :: e in r ==> e in script || e == Read([])
  {
    if script == [] then []
    else
      var rest := Dried(script[1..]);
      var event := if script[0].Read? then Read([]) else script[0];
      assert ([event] + rest)[1..] == rest;
      [event] + rest
  }

  predicate Dry(script: seq<IoEvent>) {
    forall i :: 0 <= i < |script| && script[i].Read? ==> script[i].bytes == []
  }

  class Source {
    var buf: ByteSeq
    var script: seq<IoEvent>
    /** The whole script, and whether end of file or a failure has been read. */
    const all: seq<IoEvent>
    var eof: bool
    var failed: bool
    var readBlocked: bool
    var strategy: Strategy

    /** Everything the transport has delivered, and everything taken out of the buffer. */
    var received: ByteSeq
    var taken: ByteSeq
    /** How many of the taken bytes were blank lines thrown away rather than parsed. */
    var dropped: nat

    ghost predicate Valid()
      reads this
    {
      && received == taken + buf && InRange(strategy) && (eof ==> Dry(script))
      && (eof ==> Read([]) in all) && (failed ==> Failure in all)
      && (forall e :: e in script ==> e in all || (eof && e == Read([])))
    }

    /** Bytes a reader can still get before end of file or failure. */
    ghost function Ahead(): ByteSeq
      reads this
    {
      buf + Upcoming(script)
    }

    ghost function End(): Terminal
      reads this
    {
      TerminalOf(script)
    }

    /** Bounds the number of reads that can still succeed. */
    function Left(): nat
      reads this
    {
      |buf| + Weight(script)
    }

    constructor (script: seq<IoEvent>, strategy: Strategy)
      requires InRange(strategy)
      ensures Valid() && !eof && !failed && all == script && this.script == script && buf == [] && received == [] && taken == [] && dropped == 0
      ensures this.strategy == strategy
    {
      this.script, all := script, script;
      this.strategy := strategy;
      buf, eof, failed, readBlocked := [], false, false, false;
      received, taken, dropped := [], [], 0;
    }

    /** `poll_read_from_io`: one read appended to the buffer. */
    method PollReadFromIo() returns (r: Poll<Result<nat, IoError>>)
      requires Valid()
      modifies this`buf, this`script, this`eof, this`failed, this`readBlocked, this`strategy, this`received
      ensures Valid() && old(buf) <= buf && received == old(received) + buf[|old(buf)|..]
      ensures (eof <==> old(eof) || r == Ready(Ok(0))) && (failed <==> old(failed) || (r.Ready? && r.value.Err?))
      ensures r.Pending? ==> old(script) == [] || old(script)[0].Block?
      ensures strategy == if r.Ready? && r.value.Ok? then Recorded(old(strategy), r.value.value) else old(strategy)
      ensures old(eof) ==> received == old(received)
      ensures Left() <= old(Left())
      ensures r.Ready? ==> Left() < old(Left())
      ensures Left() < old(Left()) || script == []
      ensures r.Pending? ==> readBlocked && buf == old(buf) && Ahead() == old(Ahead()) && End() == old(End())
      ensures r.Ready? ==> !readBlocked
      ensures r.Ready? && r.value.Ok? ==> |buf| == |old(buf)| + r.value.value
      ensures r.Ready? && r.value.Ok? && r.value.value > 0 ==> Ahead() == old(Ahead()) && End() == old(End())
      ensures r.Ready? && r.value.Ok? && r.value.value == 0 ==> old(Ahead()) == buf == old(buf) && old(End()) == AtEof
      ensures r.Ready? && r.value.Err? ==> old(Ahead()) == buf == old(buf) && old(End()) == AtFailure
      ensures strategy.MaxSize() == old(strategy).MaxSize()
    {
      hide InRange, Dried;
      readBlocked := false;
      if script == [] {
        readBlocked := true;
        return Pending;
      }
      var event := script[0];
      script := script[1..];
      match event
      case Read(bytes) =>
        ghost var rest := script;
        if bytes == [] {
          EndOfFile();
          assert buf + [] == buf && received + [] == received;
        } else {
          Append(bytes);
          assert old(buf) + (bytes + Upcoming(rest)) == buf + Upcoming(rest);
        }
        r := Ready(Ok(|bytes|));
      case Block =>
        readBlocked := true;
        r := Pending;
      case Failure =>
        failed := true;
        assert buf + [] == buf;
        r := Ready(Err(IoError));
    }

    /** Bytes just read. */
    method Append(bytes: ByteSeq)
      requires Valid() && !eof
      modifies this`buf, this`received, this`strategy
      ensures Valid() && buf == old(buf) + bytes && received == old(received) + bytes
      ensures strategy == Recorded(old(strategy), |bytes|) && strategy.MaxSize() == old(strategy).MaxSize()
    {
      buf := buf + bytes;
      received := received + bytes;
      RecordedInRange(strategy, |bytes|);
      hide Recorded;
      strategy := Recorded(strategy, |bytes|);
    }

    /** The end of the transport: nothing comes after it. */
    method EndOfFile()
      requires Valid() && Read([]) in all
      modifies this`eof, this`script, this`strategy
      ensures Valid() && eof && Weight(script) <= old(Weight(script))
      ensures strategy == Recorded(old(strategy), 0) && strategy.MaxSize() == old(strategy).MaxSize()
    {
      eof := true;
      script := Dried(script);
      RecordedInRange(strategy, 0);
      hide Recorded;
      strategy := Recorded(strategy, 0);
    }

    /** `read_buf.split_to(n)`: hand out the first `n` buffered bytes. */
    method SplitTo(n: nat) returns (s: ByteSeq)
      requires Valid() && n <= |buf|
      modifies this`buf, this`taken
      ensures Valid() && s == old(buf)[..n] && old(buf) == s + buf
      ensures taken == old(taken) + s
      ensures Left() == old(Left()) - n && old(Ahead()) == s + Ahead() && End() == old(End())
    {
      s := buf[..n];
      assert buf == buf[..n] + buf[n..];
      assert taken + buf == (taken + s) + buf[n..];
      assert buf + Upcoming(script) == s + (buf[n..] + Upcoming(script));
      buf := buf[n..];
      taken := taken + s;
    }

    /** `MemRead::read_mem`: up to `len` bytes, from the buffer if it has any, else after one read. */
    method ReadMem(len: nat) returns (r: Poll<Result<ByteSeq, IoError>>)
      requires Valid() && len > 0
      modifies this`buf, this`script, this`eof, this`failed, this`readBlocked, this`strategy, this`received, this`taken
      ensures Valid() && old(received) <= received
      ensures r.Pending? ==>
                && taken == old(taken) && old(buf) == [] && buf == []
                && Ahead() == old(Ahead()) && End() == old(End())
                && (Left() < old(Left()) || script == [])
      ensures r.Ready? ==> Left() < old(Left())
      ensures r.Ready? && r.value.Ok? && r.value.value != [] ==>
                var s := r.value.value;
                |s| <= len && old(Ahead()) == s + Ahead() && End() == old(End()) && taken == old(taken) + s
      ensures r.Ready? && r.value == Ok([]) ==> old(Ahead()) == [] && old(End()) == AtEof && taken == old(taken)
      ensures r.Ready? && r.value.Err? ==> old(Ahead()) == [] && old(End()) == AtFailure && taken == old(taken)
      ensures Left() <= old(Left()) && (old(eof) ==> eof && received == old(received))
      ensures r == Ready(Ok([])) ==> eof && buf == []
      ensures r.Ready? && r.value.Ok? ==> |r.value.value| == len || buf == []
      ensures strategy.MaxSize() == old(strategy).MaxSize()
      ensures eof == (old(eof) || r == Ready(Ok([]))) && failed == (old(failed) || (r.Ready? && r.value.Err?))
    {
      if buf != [] {
        var s := SplitTo(Min(len, |buf|));
        return Ready(Ok(s));
      }
      var p := PollReadFromIo();
      match p
      case Pending => r := Pending;
      case Ready(Err(e)) => r := Ready(Err(e));
      case Ready(Ok(n)) =>
        var s := SplitTo(Min(len, n));
        r := Ready(Ok(s));
    }

    /** `consume_leading_lines`: drop leading CR and LF bytes from the buffer. */
    method ConsumeLeadingLines()
      requires Valid()
      modifies this`buf, this`taken, this`dropped
      ensures Valid()
      ensures old(taken) <= taken && taken + buf == old(taken + buf)
      ensures forall b :: b in taken[|old(taken)|..] ==> b == CR || b == LF
      ensures buf != [] ==> buf[0] != CR && buf[0] != LF
      ensures Left() <= old(Left()) && dropped == old(dropped) + (|taken| - |old(taken)|)
    {
      var i := 0;
      while i < |buf| && (buf[i] == CR || buf[i] == LF)
        invariant 0 <= i <= |buf|
        invariant forall b :: b in buf[..i] ==> b == CR || b == LF
      {
        assert buf[..i + 1] == buf[..i] + [buf[i]];
        i := i + 1;
      }
      var s := SplitTo(i);
      dropped := dropped + i;
      assert taken[|old(taken)|..] == s;
    }
  }
}
