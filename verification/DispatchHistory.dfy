/** What the HTTP/1 dispatcher keeps between requests, replies and response bodies. */
module DispatchHistory {
  import opened Bytes
  import opened ConnHistory
  import opened RequestChannel
  import opened ResponseHeads
  import BC = BodyChannel
  import Dec = Decoder

  // ---- replies -------------------------------------------------------------

  predicate Increasing(ids: seq<Id>) {
    forall i, j :: 0 <= i < j < |ids| ==> ids[i] < ids[j]
  }

  /** Requests are written in the order they were accepted: those still queued come later. */
  predicate Before(ids: seq<Id>, queue: seq<Id>) {
    forall i, j :: 0 <= i < |ids| && 0 <= j < |queue| ==> ids[i] < queue[j]
  }

  /**
   `ids` are the requests written, in order, and `answered` counts final responses read. The
   k-th final response resolved the k-th written request; a message was handed back only for
   a request never written; a written request is unresolved only while its callback is held.
   */
  predicate RepliesOk(promises: seq<Promise>, ids: seq<Id>, answered: nat, callback: Option<Id>) {
    && answered <= |ids| && Increasing(ids)
    && (forall k :: 0 <= k < |ids| ==> ids[k] < |promises|)
    && (forall k :: 0 <= k < answered ==> promises[ids[k]] == Resolved(Answered(k)))
    && (forall id :: 0 <= id < |promises| && promises[id].Resolved? ==> ReplyOk(promises[id].reply, id, ids, answered))
    && (callback.Some? ==> |ids| == answered + 1 && ids[answered] == callback.value)
    && (forall k :: 0 <= k < |ids| && promises[ids[k]].Waiting? ==> callback == Some(ids[k]))
  }

  predicate ReplyOk(reply: Reply, id: Id, ids: seq<Id>, answered: nat) {
    match reply
    case Answered(k) => k < answered && k < |ids| && ids[k] == id
    case Failed(messageReturned) => messageReturned ==> id !in ids
  }

  predicate IdsMatch(ids: seq<Id>, sent: seq<SentRequest>) {
    |ids| == |sent| && forall k :: 0 <= k < |ids| ==> sent[k].id == ids[k]
  }

  /** A request fails with its message lost only if its user gave up, or it was written and there was trouble. */
  predicate FailuresOk(promises: seq<Promise>, ids: seq<Id>, canceled: set<Id>, trouble: bool) {
    forall id :: 0 <= id < |promises| && promises[id] == Resolved(Failed(false)) ==> id in canceled || (id in ids && trouble)
  }

  lemma FailuresGrow(promises: seq<Promise>, ids: seq<Id>, canceled: set<Id>, trouble: bool,
                     promises2: seq<Promise>, ids2: seq<Id>, canceled2: set<Id>, trouble2: bool)
    requires FailuresOk(promises, ids, canceled, trouble) && ids <= ids2 && canceled <= canceled2 && (trouble ==> trouble2)
    requires forall id :: 0 <= id < |promises2| && promises2[id] == Resolved(Failed(false)) ==>
               (id < |promises| && promises[id] == promises2[id]) || id in canceled2 || (id in ids2 && trouble2)
    ensures FailuresOk(promises2, ids2, canceled2, trouble2)
  {
    forall id | 0 <= id < |promises2| && promises2[id] == Resolved(Failed(false)) ensures id in canceled2 || (id in ids2 && trouble2) {
      if id < |promises| && promises[id] == promises2[id] && id !in canceled {
        assert id in ids && id in ids2;
      }
    }
  }

  lemma MoreRequests(promises: seq<Promise>, more: seq<Promise>, ids: seq<Id>, answered: nat, callback: Option<Id>)
    requires RepliesOk(promises, ids, answered, callback)
    requires promises <= more && forall id :: |promises| <= id < |more| ==> more[id].Waiting?
    ensures RepliesOk(more, ids, answered, callback)
    ensures forall k :: 0 <= k < |ids| ==> ids[k] < |promises|
  {
    hide ReplyOk;
  }

  lemma RequestWritten(promises: seq<Promise>, ids: seq<Id>, answered: nat, id: Id)
    requires RepliesOk(promises, ids, answered, None) && |ids| == answered
    requires id < |promises| && promises[id].Waiting? && forall k :: 0 <= k < |ids| ==> ids[k] < id
    ensures RepliesOk(promises, ids + [id], answered, Some(id))
  {
    var after := ids + [id];
    assert forall k :: 0 <= k < |ids| ==> after[k] == ids[k];
    forall k | 0 <= k < |promises| && promises[k].Resolved? ensures ReplyOk(promises[k].reply, k, after, answered) {
      assert ReplyOk(promises[k].reply, k, ids, answered);
    }
  }

  lemma ResponseDelivered(promises: seq<Promise>, ids: seq<Id>, answered: nat, id: Id)
    requires RepliesOk(promises, ids, answered, Some(id))
    ensures RepliesOk(promises[id := Resolved(Answered(answered))], ids, answered + 1, None)
  {
    var after := promises[id := Resolved(Answered(answered))];
    forall k | 0 <= k < |after| && after[k].Resolved? ensures ReplyOk(after[k].reply, k, ids, answered + 1) {
      if k != id { assert ReplyOk(promises[k].reply, k, ids, answered); }
    }
    assert forall k :: 0 <= k < answered ==> ids[k] != id;
  }

  lemma CallbackFailed(promises: seq<Promise>, ids: seq<Id>, answered: nat, id: Id)
    requires RepliesOk(promises, ids, answered, Some(id))
    ensures id in ids
    ensures RepliesOk(promises[id := Resolved(Failed(false))], ids, answered, None)
  {
    var after := promises[id := Resolved(Failed(false))];
    forall k | 0 <= k < |after| && after[k].Resolved? ensures ReplyOk(after[k].reply, k, ids, answered) {
      if k != id { assert ReplyOk(promises[k].reply, k, ids, answered); }
    }
    assert forall k :: 0 <= k < answered ==> ids[k] != id;
  }

  /** A request that is not the one in flight is resolved without ever having been written. */
  lemma UnwrittenFailed(promises: seq<Promise>, ids: seq<Id>, answered: nat, callback: Option<Id>, id: Id, back: bool)
    requires RepliesOk(promises, ids, answered, callback)
    requires id < |promises| && promises[id].Waiting? && callback != Some(id)
    ensures id !in ids
    ensures RepliesOk(promises[id := Resolved(Failed(back))], ids, answered, callback)
  {
    var after := promises[id := Resolved(Failed(back))];
    assert forall k :: 0 <= k < |ids| ==> ids[k] != id;
    forall k | 0 <= k < |after| && after[k].Resolved? ensures ReplyOk(after[k].reply, k, ids, answered) {
      if k != id { assert ReplyOk(promises[k].reply, k, ids, answered); }
    }
  }

  lemma QueueDropped(promises: seq<Promise>, after: seq<Promise>, queue: seq<Id>, ids: seq<Id>, answered: nat, callback: Option<Id>)
    requires RepliesOk(promises, ids, answered, callback) && |after| == |promises|
    requires forall i :: 0 <= i < |queue| ==> queue[i] < |promises| && promises[queue[i]].Waiting?
    requires callback.Some? ==> callback.value !in queue
    requires forall id :: 0 <= id < |promises| ==>
               after[id] == if id in queue then Resolved(Failed(true)) else promises[id]
    ensures RepliesOk(after, ids, answered, callback)
  {
    forall k | 0 <= k < |ids| ensures ids[k] !in queue {
    }
    forall k | 0 <= k < |after| && after[k].Resolved? ensures ReplyOk(after[k].reply, k, ids, answered) {
      if k !in queue { assert ReplyOk(promises[k].reply, k, ids, answered); }
    }
  }

  // ---- response bodies -----------------------------------------------------

  /**
   A live receiver has been handed exactly what was decoded so far, and the trailers of a body
   complete with trailers; a sender gone without an error leaves a complete body, and one that
   sent an error an incomplete one.
   */
  predicate BodyOk(b: BC.Channel, recv: seq<Response>) {
    && b.response < |recv|
    && (b.receiverAlive ==> BC.DataOf(b.items) == recv[b.response].data && b.trailers == recv[b.response].Trailers())
    && (b.receiverAlive && !b.senderAlive && BC.NoFailure(b.items) ==> recv[b.response].Complete())
    && (b.receiverAlive && !BC.NoFailure(b.items) ==> !recv[b.response].Complete())
  }

  /** Only the last body, that of the last response, can still have its sender, exactly while the guard holds it. */
  predicate BodiesOk(bodies: seq<BC.Channel>, recv: seq<Response>, tx: bool) {
    && (tx ==> bodies != [] && bodies[|bodies| - 1].response == |recv| - 1 && BC.NoFailure(bodies[|bodies| - 1].items))
    && (forall i :: 0 <= i < |bodies| ==>
          BodyOk(bodies[i], recv) && (bodies[i].senderAlive <==> tx && i == |bodies| - 1))
    && (forall i, j :: 0 <= i < j < |bodies| ==> bodies[i].response < bodies[j].response)
  }

  lemma BodyOpened(bodies: seq<BC.Channel>, recv: seq<Response>, r: Response)
    requires BodiesOk(bodies, recv, false) && r.data == [] && r.Trailers() == None
    ensures BodiesOk(bodies + [BC.Open(|recv|)], recv + [r], true)
  {
    OpenIsEmpty();
    hide BC.DataOf, BC.NoFailure;
    var after, recv2 := bodies + [BC.Open(|recv|)], recv + [r];
    forall i | 0 <= i < |after| ensures BodyOk(after[i], recv2) && (after[i].senderAlive <==> i == |after| - 1) {
      if i < |bodies| { assert after[i] == bodies[i] && BodyOk(bodies[i], recv); }
    }
  }

  lemma OpenIsEmpty()
    ensures BC.NoFailure([]) && BC.DataOf([]) == []
  {
  }

  lemma NoBodyOpened(bodies: seq<BC.Channel>, recv: seq<Response>, r: Response)
    requires BodiesOk(bodies, recv, false)
    ensures BodiesOk(bodies, recv + [r], false)
  {
    hide BC.DataOf, BC.NoFailure;
    forall i | 0 <= i < |bodies| ensures BodyOk(bodies[i], recv + [r]) {
      assert BodyOk(bodies[i], recv);
    }
  }

  /** Replace the last channel. */
  function WithLast(bodies: seq<BC.Channel>, b: BC.Channel): seq<BC.Channel>
    requires bodies != []
  {
    bodies[|bodies| - 1 := b]
  }

  function Last(bodies: seq<BC.Channel>): BC.Channel
    requires bodies != []
  {
    bodies[|bodies| - 1]
  }

  /** Some receiver has gone before its body was handed over. */
  predicate SomeoneLeft(bodies: seq<BC.Channel>) {
    exists i :: 0 <= i < |bodies| && !bodies[i].receiverAlive
  }

  lemma StillLeft(bodies: seq<BC.Channel>, b: BC.Channel)
    requires bodies != [] && (b.receiverAlive ==> Last(bodies).receiverAlive)
    ensures SomeoneLeft(bodies) || !b.receiverAlive ==> SomeoneLeft(WithLast(bodies, b))
  {
    var after := WithLast(bodies, b);
    if SomeoneLeft(bodies) {
      var i :| 0 <= i < |bodies| && !bodies[i].receiverAlive;
      assert !after[i].receiverAlive;
    }
    assert after[|bodies| - 1] == b;
  }

  /** A response just begun, the last one. */
  predicate Begun(recv: seq<Response>, msg: Message) {
    && recv != [] && recv[|recv| - 1].Msg() == msg && recv[|recv| - 1].data == [] && recv[|recv| - 1].Trailers() == None
  }

  /** Only the last response has moved on. */
  predicate Moved(recv: seq<Response>, recv2: seq<Response>) {
    |recv2| == |recv| > 0 && recv2[..|recv| - 1] == recv[..|recv| - 1]
  }

  /** It has moved on by a frame. */
  predicate FrameRead(recv: seq<Response>, recv2: seq<Response>, frame: Dec.Frame) {
    && Moved(recv, recv2)
    && var was, now := recv[|recv| - 1], recv2[|recv| - 1];
       match frame
       case Data(bytes) => now.data == was.data + bytes && now.Trailers() == was.Trailers()
       case Trailers(h) => now.data == was.data && now.Trailers() == Some(h)
  }

  /** It has moved on without a frame. */
  predicate NothingRead(recv: seq<Response>, recv2: seq<Response>) {
    && Moved(recv, recv2)
    && recv2[|recv| - 1].data == recv[|recv| - 1].data && recv2[|recv| - 1].Trailers() == recv[|recv| - 1].Trailers()
  }

  predicate LastComplete(recv: seq<Response>) {
    recv != [] && recv[|recv| - 1].Complete()
  }

  /** The last response and its channel move on together. */
  lemma BodyUpdated(bodies: seq<BC.Channel>, recv: seq<Response>, recv2: seq<Response>, b: BC.Channel, tx: bool)
    requires BodiesOk(bodies, recv, true) && Moved(recv, recv2)
    requires b.response == bodies[|bodies| - 1].response && BodyOk(b, recv2) && b.senderAlive == tx
    requires tx ==> BC.NoFailure(b.items)
    ensures BodiesOk(WithLast(bodies, b), recv2, tx)
  {
    hide BC.DataOf, BC.NoFailure;
    var after := WithLast(bodies, b);
    forall i | 0 <= i < |after| ensures BodyOk(after[i], recv2) {
      assert BodyOk(bodies[i], recv);
      if i < |bodies| - 1 {
        assert bodies[i].response < |recv| - 1;
        assert recv2[bodies[i].response] == recv2[..|recv| - 1][bodies[i].response];
        assert recv[bodies[i].response] == recv[..|recv| - 1][bodies[i].response];
      }
    }
  }

  /** A response moving on without anything for its receiver. */
  lemma NothingSent(bodies: seq<BC.Channel>, recv: seq<Response>, recv2: seq<Response>)
    requires BodiesOk(bodies, recv, true) && NothingRead(recv, recv2)
    ensures BodiesOk(bodies, recv2, true)
  {
    hide BC.DataOf, BC.NoFailure;
    var b := Last(bodies);
    assert BodyOk(b, recv);
    BodyUpdated(bodies, recv, recv2, b, true);
    assert WithLast(bodies, b) == bodies;
  }

  /** A frame decoded is a frame sent. */
  lemma FrameSent(bodies: seq<BC.Channel>, recv: seq<Response>, recv2: seq<Response>, frame: Dec.Frame)
    requires BodiesOk(bodies, recv, true) && FrameRead(recv, recv2, frame)
    ensures BodiesOk(WithLast(bodies, BC.SendFrame(Last(bodies), frame)), recv2, true)
  {
    var b := Last(bodies);
    if frame.Data? { BC.DataOfSnoc(b.items, BC.Chunk(frame.bytes)); }
    hide BC.DataOf;
    assert BodyOk(b, recv);
    BodyUpdated(bodies, recv, recv2, BC.SendFrame(b, frame), true);
  }

  /** The receiver may go away at any time; what is promised to a live receiver stays. */
  lemma ReceiverGone(bodies: seq<BC.Channel>, recv: seq<Response>)
    requires BodiesOk(bodies, recv, true)
    ensures BodiesOk(WithLast(bodies, Last(bodies).(receiverAlive := false)), recv, true)
  {
    hide BC.DataOf, BC.NoFailure;
    assert BodyOk(Last(bodies), recv);
    BodyUpdated(bodies, recv, recv, Last(bodies).(receiverAlive := false), true);
  }

  /** Dropping the sender of a complete body, all of which was handed over, is a clean end. */
  lemma DroppedClean(bodies: seq<BC.Channel>, recv: seq<Response>, recv2: seq<Response>)
    requires BodiesOk(bodies, recv, true) && Moved(recv, recv2)
    requires Last(bodies).receiverAlive ==> NothingRead(recv, recv2) && LastComplete(recv2)
    ensures BodiesOk(WithLast(bodies, BC.DropSender(Last(bodies))), recv2, false)
  {
    hide BC.DataOf, BC.NoFailure;
    assert BodyOk(Last(bodies), recv);
    BodyUpdated(bodies, recv, recv2, BC.DropSender(Last(bodies)), false);
  }

  /** Any other ending sends an error first. */
  lemma DroppedWithError(bodies: seq<BC.Channel>, recv: seq<Response>, recv2: seq<Response>)
    requires BodiesOk(bodies, recv, true) && NothingRead(recv, recv2) && !LastComplete(recv2)
    ensures BodiesOk(WithLast(bodies, BC.DropSender(BC.SendError(Last(bodies)))), recv2, false)
  {
    var b := BC.DropSender(BC.SendError(Last(bodies)));
    BC.DataOfSnoc(Last(bodies).items, BC.Failure);
    assert !BC.NoFailure(b.items) by { assert b.items[|b.items| - 1].Failure?; }
    hide BC.DataOf, BC.NoFailure;
    assert BodyOk(Last(bodies), recv);
    BodyUpdated(bodies, recv, recv2, b, false);
  }
}
