/** Request bodies as users hand them over, and how far the connection has got with each. */
module UserBody {
  import opened Bytes
  import opened ConnHistory
  import Enc = Encoder
  import Framing

  /** What a user's request body yields; `eos` is `is_end_stream()` right after a data frame. */
  datatype UserFrame =
    | NotReady
    | Data(chunk: ByteSeq, eos: bool)
    | Trailers(fields: seq<Enc.Field>)
    | Unknown
    | UserError
    | End

  /**
   A request as the user hands it over: the head as far as framing sees it, the bytes it is
   sent as for a version and framing fields, and the body; no `length` means a body already
   at its end.
   */
  datatype UserRequest = UserRequest(
    head: Framing.RequestHead,
    render: (Framing.Version, Framing.Headers) -> ByteSeq,
    length: Option<Framing.BodyLength>,
    frames: seq<UserFrame>)

  /** The last frame of a body. */
  predicate IsLast(f: UserFrame) {
    f.End? || f.Trailers? || (f.Data? && f.eos)
  }

  predicate GoodFrame(f: UserFrame) {
    match f
    case Data(chunk, _) => |chunk| < TWO_64
    case Trailers(fields) => Enc.FieldsOk(fields)
    case _ => true
  }

  predicate GoodFrames(fs: seq<UserFrame>) {
    forall i :: 0 <= i < |fs| ==> GoodFrame(fs[i])
  }

  /** Sizes fit in 64 bits and header fields are valid, as the Rust types guarantee. */
  predicate GoodRequest(r: UserRequest) {
    GoodFrames(r.frames) && (r.length.Some? && r.length.value.Known? ==> r.length.value.len < TWO_64)
  }

  // ---- what a body says ----------------------------------------------------

  function ChunkOf(f: UserFrame): seq<ByteSeq> {
    if f.Data? && f.chunk != [] then [f.chunk] else []
  }

  /** The non-empty data chunks of some frames, in order. */
  function Chunks(fs: seq<UserFrame>): seq<ByteSeq> {
    if fs == [] then [] else Chunks(fs[..|fs| - 1]) + ChunkOf(fs[|fs| - 1])
  }

  lemma ChunksNext(fs: seq<UserFrame>, k: nat)
    requires k < |fs|
    ensures Chunks(fs[..k + 1]) == Chunks(fs[..k]) + ChunkOf(fs[k])
  {
    assert fs[..k + 1][..k] == fs[..k];
  }

  /** The frames of a body: everything up to and including its last frame. */
  function Through(fs: seq<UserFrame>): seq<UserFrame> {
    if fs == [] then [] else if IsLast(fs[0]) then [fs[0]] else [fs[0]] + Through(fs[1..])
  }

  /** All the data of a body. */
  function UserData(fs: seq<UserFrame>): ByteSeq {
    Flatten(Chunks(Through(fs)))
  }

  predicate NoneLast(fs: seq<UserFrame>, k: int) {
    k <= |fs| && forall j :: 0 <= j < k ==> !IsLast(fs[j])
  }

  /** The `k`-th frame was the last one. */
  predicate Ended(fs: seq<UserFrame>, k: nat) {
    0 < k <= |fs| && IsLast(fs[k - 1])
  }

  lemma {:induction false} ThroughIs(fs: seq<UserFrame>, k: nat)
    requires k <= |fs| && NoneLast(fs, k - 1)
    ensures fs[..k] <= Through(fs) && (Ended(fs, k) ==> fs[..k] == Through(fs))
  {
    if k > 0 {
      assert fs[..k] == [fs[0]] + fs[1..][..k - 1];
      if !IsLast(fs[0]) {
        assert Ended(fs, k) ==> k > 1;
        ThroughIs(fs[1..], k - 1);
      }
    }
  }

  lemma {:induction false} ChunksPrefix(fs: seq<UserFrame>, k: nat)
    requires k <= |fs|
    ensures Flatten(Chunks(fs[..k])) <= Flatten(Chunks(fs))
    decreases |fs|
  {
    if k < |fs| {
      var n := |fs| - 1;
      ChunksPrefix(fs[..n], k);
      assert fs[..n][..k] == fs[..k] && fs[..n + 1] == fs;
      ChunksNext(fs, n);
      hide Chunks, Flatten;
      var more := ChunkOf(fs[n]);
      if more == [] {
        assert Chunks(fs[..n]) + more == Chunks(fs[..n]);
      } else {
        FlattenSnoc(Chunks(fs[..n]), more[0]);
      }
    } else {
      assert fs[..k] == fs;
    }
  }

  // ---- how far a request has got -------------------------------------------

  /**
   After `k` polls of its body, a request has been offered exactly the chunks of those frames;
   a chunked body is ended only after the last frame, and with exactly the trailers of that frame
   that may be sent.
   */
  ghost predicate Carries(req: UserRequest, s: Enc.Sent, k: nat) {
    var fs := req.frames;
    && k <= |fs| && NoneLast(fs, k - 1) && s.offered == Chunks(fs[..k])
    && (s.framing.Chunked? && !s.ending.Open? ==> Ended(fs, k))
    && (s.ending.EndedWith? ==>
          Ended(fs, k) && fs[k - 1].Trailers? && Enc.Keeps(fs[k - 1].fields, Enc.Announced(s.framing), s.ending.fields))
    && (s.framing.Chunked? && !s.ending.EndedWith? && 0 < k && fs[k - 1].Trailers? ==>
          Enc.Keeps(fs[k - 1].fields, Enc.Announced(s.framing), []))
  }

  /** The body of the last request failed: its user said so, or it ended short of its length. */
  predicate BodyFailed(requests: nat -> UserRequest, sent: seq<SentRequest>, polled: seq<nat>) {
    && sent != [] && |polled| == |sent|
    && var s, k := sent[|sent| - 1], polled[|sent| - 1];
       var fs := requests(s.id).frames;
       && 0 < k <= |fs|
       && (fs[k - 1].UserError?
           || (IsLast(fs[k - 1]) && s.body.framing.Length? && |Flatten(s.body.offered)| < s.body.framing.remaining))
  }

  /** What was sent for a request: its own head, with the fields it was sent with, and its own body. */
  ghost predicate Sends(req: UserRequest, s: SentRequest, k: nat) {
    && s.user == req.head && s.length == req.length && s.head == req.render(s.version, s.headers)
    && Carries(req, s.body, k)
  }

  ghost predicate AllCarry(requests: nat -> UserRequest, sent: seq<SentRequest>, polled: seq<nat>) {
    |polled| == |sent| && forall i :: 0 <= i < |sent| ==> Sends(requests(sent[i].id), sent[i], polled[i])
  }

  /** The body still being polled is that of the last request, at its current frame. */
  predicate Streaming(requests: nat -> UserRequest, sent: seq<SentRequest>, polled: seq<nat>, rx: Option<seq<UserFrame>>) {
    rx.Some? ==>
      && sent != [] && |polled| == |sent|
      && var fs, k := requests(sent[|sent| - 1].id).frames, polled[|sent| - 1];
         k <= |fs| && rx.value == fs[k..] && NoneLast(fs, k)
  }

  /** The last request's body has been polled to its end. */
  predicate LastEnded(requests: nat -> UserRequest, sent: seq<SentRequest>, polled: seq<nat>) {
    sent != [] && |polled| == |sent| && Ended(requests(sent[|sent| - 1].id).frames, polled[|sent| - 1])
  }

  lemma HeadCarries(requests: nat -> UserRequest, sent: seq<SentRequest>, polled: seq<nat>, after: seq<SentRequest>)
    requires AllCarry(requests, sent, polled) && |after| == |sent| + 1 && after[..|sent|] == sent
    requires var s, req := after[|sent|], requests(after[|sent|].id);
             && s.user == req.head && s.length == req.length && s.head == req.render(s.version, s.headers)
             && s.body.offered == [] && !s.body.ending.EndedWith? && (s.body.framing.Chunked? ==> s.body.ending.Open?)
    ensures AllCarry(requests, after, polled + [0])
    ensures Streaming(requests, after, polled + [0], Some(requests(after[|sent|].id).frames))
  {
    hide Enc.Keeps;
    var fs := requests(after[|sent|].id).frames;
    assert fs[..0] == [] && fs[0..] == fs;
    forall i | 0 <= i < |after| ensures Sends(requests(after[i].id), after[i], (polled + [0])[i]) {
      if i < |sent| { assert after[i] == after[..|sent|][i] && Sends(requests(sent[i].id), sent[i], polled[i]); }
    }
  }

  /** The body of the last request moves on. */
  lemma LastCarries(requests: nat -> UserRequest, sent: seq<SentRequest>, polled: seq<nat>, after: seq<SentRequest>, k: nat)
    requires AllCarry(requests, sent, polled) && |after| == |sent| > 0 && after[..|sent| - 1] == sent[..|sent| - 1]
    requires var n := |sent| - 1; after[n] == sent[n].(body := after[n].body) && Carries(requests(after[n].id), after[n].body, k)
    ensures AllCarry(requests, after, polled[|sent| - 1 := k])
  {
    hide Carries;
    var n := |sent| - 1;
    assert Sends(requests(sent[n].id), sent[n], polled[n]);
    forall i | 0 <= i < n ensures after[i] == sent[i] {
      assert after[i] == after[..n][i];
    }
  }

  lemma GoodTail(fs: seq<UserFrame>)
    requires GoodFrames(fs) && fs != []
    ensures GoodFrame(fs[0]) && GoodFrames(fs[1..])
  {
  }

  /** One more frame polled, and its chunk, if it has one, offered. */
  lemma FrameCarries(req: UserRequest, s: Enc.Sent, k: nat, after: Enc.Sent)
    requires Carries(req, s, k) && k < |req.frames| && NoneLast(req.frames, k) && s.ending.Open?
    requires after.framing == s.framing && after.offered == s.offered + ChunkOf(req.frames[k])
    requires after.ending.Open? || IsLast(req.frames[k]) || after.framing.Length?
    requires after.ending.EndedWith? ==>
               req.frames[k].Trailers?
               && Enc.Keeps(req.frames[k].fields, Enc.Announced(after.framing), after.ending.fields)
    requires after.framing.Chunked? && !after.ending.EndedWith? && req.frames[k].Trailers? ==>
               Enc.Keeps(req.frames[k].fields, Enc.Announced(after.framing), [])
    ensures Carries(req, after, k + 1)
  {
    hide Enc.Keeps;
    ChunksNext(req.frames, k);
  }

  /** What was offered for a request is the front of its user's data, all of it once a chunked body has ended. */
  lemma CarriedData(req: UserRequest, s: Enc.Sent, k: nat)
    requires Carries(req, s, k)
    ensures Flatten(s.offered) <= UserData(req.frames)
    ensures s.framing.Chunked? && !s.ending.Open? ==> Flatten(s.offered) == UserData(req.frames)
  {
    hide Through, Chunks, Flatten, Enc.Keeps, Enc.Announced;
    ThroughIs(req.frames, k);
    ChunksPrefix(Through(req.frames), k);
    assert Through(req.frames)[..k] == req.frames[..k];
  }
}
