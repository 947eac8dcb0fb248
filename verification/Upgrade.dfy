/** Handing a connection over after an upgrade (upgrade.rs `Rewind`): buffered bytes first, then the transport. */
module Upgrade {
  import opened Bytes
  import opened Source

  class Rewind {
    var pre: Option<ByteSeq>
    var script: seq<IoEvent>

    /** The bytes still to come before the transport ends. */
    ghost function Ahead(): ByteSeq
      reads this
    {
      (if pre.Some? then pre.value else []) + Upcoming(script)
    }

    constructor (buf: ByteSeq, script: seq<IoEvent>)
      ensures Ahead() == buf + Upcoming(script) && this.script == script
    {
      pre, this.script := Some(buf), script;
    }

    /** A read of the transport into a buffer with `room` bytes left; what does not fit stays there. */
    method ReadInner(room: nat) returns (r: Poll<Result<ByteSeq, IoError>>)
      modifies this`script
      ensures r.Pending? ==> Upcoming(script) == old(Upcoming(script)) && TerminalOf(script) == old(TerminalOf(script))
      ensures r.Ready? && r.value.Ok? && (r.value.value != [] || room == 0) ==>
                |r.value.value| <= room && old(Upcoming(script)) == r.value.value + Upcoming(script)
                && TerminalOf(script) == old(TerminalOf(script))
      ensures r.Ready? && r.value == Ok([]) && room > 0 ==> old(Upcoming(script)) == [] && old(TerminalOf(script)) == AtEof
      ensures r.Ready? && r.value.Err? ==> old(Upcoming(script)) == [] && old(TerminalOf(script)) == AtFailure
    {
      if script == [] { return Pending; }
      if room == 0 { return Ready(Ok([])); }
      var event := script[0];
      match event
      case Block =>
        script := script[1..];
        r := Pending;
      case Failure =>
        script := script[1..];
        r := Ready(Err(IoError));
      case Read(bytes) =>
        if |bytes| <= room {
          script := script[1..];
          r := Ready(Ok(bytes));
        } else {
          ghost var rest := script[1..];
          script := [Read(bytes[room..])] + script[1..];
          assert script[1..] == rest;
          assert bytes + Upcoming(rest) == bytes[..room] + (bytes[room..] + Upcoming(rest));
          r := Ready(Ok(bytes[..room]));
        }
    }

    /** `Rewind::poll_read`: what was buffered before the upgrade comes out first, in pieces of any size. */
    method PollRead(room: nat) returns (r: Poll<Result<ByteSeq, IoError>>)
      modifies this
      ensures r.Pending? ==> Ahead() == old(Ahead()) && TerminalOf(script) == old(TerminalOf(script))
      ensures r.Ready? && r.value.Ok? && (r.value.value != [] || room == 0) ==>
                |r.value.value| <= room && old(Ahead()) == r.value.value + Ahead()
                && TerminalOf(script) == old(TerminalOf(script))
      ensures r.Ready? && r.value == Ok([]) && room > 0 ==> old(Ahead()) == [] && old(TerminalOf(script)) == AtEof
      ensures r.Ready? && r.value.Err? ==> old(Ahead()) == [] && old(TerminalOf(script)) == AtFailure
      ensures old(pre).Some? && old(pre).value != [] ==>
                r == Ready(Ok(old(pre).value[..Min(|old(pre).value|, room)])) && script == old(script)
    {
      if pre.Some? {
        var prefix := pre.value;
        pre := None;
        if prefix != [] {
          var n := Min(|prefix|, room);
          assert prefix + Upcoming(script) == prefix[..n] + (prefix[n..] + Upcoming(script));
          if n < |prefix| { pre := Some(prefix[n..]); }
          return Ready(Ok(prefix[..n]));
        }
      }
      r := ReadInner(room);
    }
  }

  /**
   Byte conservation across an upgrade: for a connection whose buffers account for everything
   received, what HTTP consumed followed by what the upgraded stream delivers, for any buffer
   sizes, is the received stream continued by the transport: nothing lost, repeated or
   reordered, and on reaching end of file all of it.
   */
  method ReadUpgraded(src: Source, rooms: seq<nat>) returns (got: seq<ByteSeq>, atEof: bool)
    requires src.Valid()
    ensures src.taken + Flatten(got) <= src.received + Upcoming(src.script)
    ensures atEof ==> src.taken + Flatten(got) == src.received + Upcoming(src.script)
    ensures |got| <= |rooms| && forall i :: 0 <= i < |got| ==> |got[i]| <= rooms[i]
  {
    hide Upcoming, TerminalOf;
    var stream := new Rewind(src.buf, src.script);
    ghost var all := src.buf + Upcoming(src.script);
    assert src.received + Upcoming(src.script) == src.taken + all;
    got, atEof := ReadAll(stream, rooms);
    assert Flatten(got) <= all;
    assert src.taken + Flatten(got) <= src.taken + all;
  }

  /** Any number of reads, into buffers of any sizes, of an upgraded stream. */
  method ReadAll(stream: Rewind, rooms: seq<nat>) returns (got: seq<ByteSeq>, atEof: bool)
    modifies stream
    ensures Flatten(got) <= old(stream.Ahead())
    ensures atEof ==> Flatten(got) == old(stream.Ahead())
    ensures |got| <= |rooms| && forall i :: 0 <= i < |got| ==> |got[i]| <= rooms[i]
  {
    hide Upcoming, TerminalOf, Rewind.Ahead, Flatten;
    NoneIsEmpty();
    got := [];
    for k := 0 to |rooms|
      invariant Flatten(got) + stream.Ahead() == old(stream.Ahead()) && |got| == k
      invariant forall i :: 0 <= i < |got| ==> |got[i]| <= rooms[i]
    {
      ghost var ahead := stream.Ahead();
      var r := stream.PollRead(rooms[k]);
      var piece := [];
      if r.Ready? {
        if r.value.Err? || (r.value.value == [] && rooms[k] > 0) {
          assert Flatten(got) + ahead == Flatten(got);
          return got, r.value.Ok?;
        }
        piece := r.value.value;
      }
      assert piece + stream.Ahead() == ahead;
      FlattenSnoc(got, piece);
      assert Flatten(got) + (piece + stream.Ahead()) == (Flatten(got) + piece) + stream.Ahead();
      got := got + [piece];
    }
    atEof := false;
  }

  lemma NoneIsEmpty()
    ensures Flatten<Byte>([]) == []
  {
  }
}
