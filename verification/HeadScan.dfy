/** The incremental end-of-head scan of role.rs (`is_complete_fast`). */
module HeadScan {
  import opened Bytes

  /** CRLFCRLF or LFLF starts at `i`. */
  predicate TerminatorAt(s: ByteSeq, i: nat) {
    || (i + 4 <= |s| && s[i..i + 4] == [CR, LF, CR, LF])
    || (i + 2 <= |s| && s[i..i + 2] == [LF, LF])
  }

  predicate HasTerminator(s: ByteSeq) {
    exists i: nat :: i < |s| && TerminatorAt(s, i)
  }

  /** Whether a terminator starts three bytes before `prevLen` or later. */
  predicate TerminatorFrom(s: ByteSeq, prevLen: nat) {
    exists i: nat :: prevLen <= i + 3 && i < |s| && TerminatorAt(s, i)
  }

  /** `is_complete_fast`: scan forward from three bytes before the previous length. */
  method IsCompleteFast(bytes: ByteSeq, prevLen: nat) returns (r: bool)
    requires prevLen <= |bytes|
    ensures r <==> TerminatorFrom(bytes, prevLen)
  {
    var start := if prevLen < 3 then 0 else prevLen - 3;
    for i := start to |bytes|
      invariant forall j: nat :: start <= j < i ==> !TerminatorAt(bytes, j)
    {
      if bytes[i] == CR {
        if i + 4 <= |bytes| && bytes[i + 1..i + 4] == [LF, CR, LF] {
          assert bytes[i..i + 4] == [CR] + bytes[i + 1..i + 4];
          assert TerminatorAt(bytes, i);
          return true;
        }
        assert i + 4 <= |bytes| ==> bytes[i + 1..i + 4] == bytes[i..i + 4][1..];
        assert i + 2 <= |bytes| ==> bytes[i..i + 2][0] == CR;
      } else if bytes[i] == LF && i + 1 < |bytes| && bytes[i + 1] == LF {
        assert bytes[i..i + 2] == [LF, LF] && TerminatorAt(bytes, i);
        return true;
      } else {
        assert i + 4 <= |bytes| ==> bytes[i..i + 4][0] == bytes[i];
        assert i + 2 <= |bytes| ==> bytes[i..i + 2][0] == bytes[i] && bytes[i..i + 2][1] == bytes[i + 1];
      }
    }
    return false;
  }

  /** With no terminator before, looking three bytes back misses none. */
  lemma ResumeIsRescan(bytes: ByteSeq, prevLen: nat)
    requires prevLen <= |bytes| && !HasTerminator(bytes[..prevLen])
    ensures TerminatorFrom(bytes, prevLen) <==> HasTerminator(bytes)
  {
    if HasTerminator(bytes) {
      var i: nat :| i < |bytes| && TerminatorAt(bytes, i);
      if i + 3 < prevLen {
        assert bytes[i..i + 4] == bytes[..prevLen][i..i + 4];
        assert bytes[i..i + 2] == bytes[..prevLen][i..i + 2];
        assert TerminatorAt(bytes[..prevLen], i);
      }
    }
  }

  /**
   Over any sequence of reads appended to a head that is not complete yet, resuming the scan
   after each read stops exactly at the first read after which a full rescan would find the
   end of the head.
   */
  method ScanReads(initial: ByteSeq, appended: seq<ByteSeq>) returns (complete: Option<nat>)
    requires !HasTerminator(initial)
    ensures complete.Some? ==>
              && complete.value <= |appended|
              && HasTerminator(initial + Flatten(appended[..complete.value]))
              && forall k :: 0 <= k < complete.value ==> !HasTerminator(initial + Flatten(appended[..k]))
    ensures complete.None? ==> forall k :: 0 <= k <= |appended| ==> !HasTerminator(initial + Flatten(appended[..k]))
  {
    var buf := initial;
    assert initial + Flatten(appended[..0]) == initial;
    for n := 0 to |appended|
      invariant buf == initial + Flatten(appended[..n])
      invariant forall k :: 0 <= k <= n ==> !HasTerminator(initial + Flatten(appended[..k]))
    {
      var prevLen := |buf|;
      FlattenSnoc(appended[..n], appended[n]);
      assert appended[..n + 1] == appended[..n] + [appended[n]];
      assert buf + appended[n] == initial + Flatten(appended[..n + 1]);
      assert (buf + appended[n])[..prevLen] == buf;
      buf := buf + appended[n];
      ResumeIsRescan(buf, prevLen);
      var done := IsCompleteFast(buf, prevLen);
      if done { return Some(n + 1); }
    }
    return None;
  }
}
