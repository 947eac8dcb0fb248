/**
 `Dispatcher` and `Client` of http1/dispatch.rs: the poll loops that drive one connection for
 a queue of requests, with the user, the transport and the runtime free to act in between.

 `Settled` holds between any two polls; `Drop` may happen at any of those points.
 */
module Dispatcher {
  import opened Bytes
  import opened ConnHistory
  import opened DispatchHistory
  import opened RequestChannel
  import opened UserBody
  import BC = BodyChannel
  import C = Conn
  import Dec = Decoder
  import Enc = Encoder
  import opened ResponseHeads
  import Framing
  import Src = Source
  import WB = WriteBuf

  datatype Dispatched = Finished | Upgraded

  class Dispatcher {
    const conn: C.Conn
    const ch: Channel
    /** The request each accepted id stands for. */
    const requests: Id -> UserRequest

    var callback: Option<Id>
    var rxClosed: bool
    var bodyTx: bool
    var bodyRx: Option<seq<UserFrame>>
    var isClosing: bool

    /** Requests written, in order, and the bodies of the responses read. */
    var ids: seq<Id>
    var bodies: seq<BC.Channel>
    /** How many frames of each written request's body have been polled. */
    ghost var polled: seq<nat>
    /** Whether a request in flight has been told of a failure while its user waited. */
    ghost var trouble: bool
    /** What the receiver of the body in hand last answered to `poll_ready`. */
    var bodyReady: bool

    ghost const Repr: set<object> := {this, ch} + conn.Repr

    ghost function Held(): set<Id>
      reads this
    {
      if callback.Some? then {callback.value} else {}
    }

    ghost predicate Valid()
      reads Repr
    {
      Rest() && BodiesOk(bodies, conn.recv, bodyTx)
    }

    /** All but what response bodies have been handed over. */
    ghost predicate Rest()
      reads Repr
    {
      RestWith(Held(), |conn.recv|, callback)
    }

    /** The same with `held` promises owned here, `answered` responses delivered and `waiting` for the next. */
    ghost predicate RestWith(held: set<Id>, answered: nat, waiting: Option<Id>)
      reads Repr
    {
      && conn.Valid() && ch.Accounted(held)
      && (forall id :: GoodRequest(requests(id)))
      && IdsMatch(ids, conn.sent)
      && RepliesOk(ch.promises, ids, answered, waiting)
      && FailuresOk(ch.promises, ids, ch.canceled, trouble) && Before(ids, ch.queue)
      && (conn.quit && waiting.Some? ==> waiting.value in ch.canceled)
      && (isClosing ==> conn.reading.Closed? && conn.writing.Closed?)
      && (bodyRx.Some? ==> GoodFrames(bodyRx.value))
      && AllCarry(requests, conn.sent, polled) && Streaming(requests, conn.sent, polled, bodyRx)
    }

    /** The transport has ended or failed, or a response head could not be had. */
    predicate TransportTrouble()
      reads conn, conn.src, conn.wbuf
    {
      conn.src.eof || conn.src.failed || conn.wbuf.broken || conn.badHead.Some?
    }

    /** That, or the body of the last request failed. */
    ghost predicate Trouble()
      reads this, conn, conn.src, conn.wbuf
    {
      TransportTrouble() || BodyFailed(requests, conn.sent, polled)
    }

    /** Nobody who still waits is to be told of a failure without trouble. */
    ghost predicate Justified()
      reads this, ch, conn, conn.src, conn.wbuf
    {
      callback.Some? ==> callback.value in ch.canceled || Trouble()
    }

    /** Why the dispatcher may end the reading: no more requests, trouble, or a user who left. */
    ghost predicate QuitCause()
      reads this, ch, conn, conn.src, conn.wbuf
    {
      rxClosed || TransportTrouble() || SomeoneGaveUp() || SomeoneLeft(bodies)
    }

    ghost predicate SomeoneGaveUp()
      reads ch
    {
      exists id :: id in ch.canceled && id < |ch.promises|
    }

    /** While the dispatcher goes on, whoever was told of a failure had been failed by the transport. */
    ghost predicate Steady()
      reads this, ch, conn, conn.src, conn.wbuf
    {
      BodyPolled() && (trouble ==> TransportTrouble()) && (conn.quit ==> QuitCause())
    }

    /** Why a dispatcher may finish: reading is closed, something failed, or bytes came that were not asked for. */
    ghost predicate Over()
      reads this, ch, conn, conn.src, conn.wbuf
    {
      || conn.reading.Closed? || Trouble()
      || (conn.reading.Init? && conn.writing.Init? && |conn.src.received| > |Consumed(conn.recv)|)
    }

    /** A request body no longer polled but not yet ended was polled to its end. */
    ghost predicate BodyPolled()
      reads this, conn
    {
      conn.writing.Body? && bodyRx.None? ==> LastEnded(requests, conn.sent, polled)
    }

    /** Inside the read loop the body in hand may just have become complete. */
    ghost predicate InLoop()
      reads this, ch, conn, conn.src, conn.wbuf
    {
      && (bodyTx && !isClosing ==>
            !conn.CanReadHead() && conn.recv != [] && (conn.reading.Body? || LastComplete(conn.recv)))
      && (conn.reading.Body? && !isClosing ==> bodyTx)
      && (isClosing ==> !bodyTx)
      && Steady()
    }

    /** Between polls: a body is held exactly while it is being read. */
    ghost predicate Settled()
      reads Repr
    {
      && Valid() && Steady() && HoldsBody()
    }

    predicate HoldsBody()
      reads this, conn
    {
      bodyTx <==> conn.reading.Body?
    }

    /** Once a response is being read or has been, nobody waits. */
    lemma NobodyWaits()
      requires Valid() && !conn.CanReadHead() && !conn.reading.Closed?
      ensures callback == None
    {
      hide Channel.Accounted, GoodRequest, AllCarry, Streaming, BodiesOk, SomeoneLeft, Enc.Complete, Enc.Partial, Recorded, Wire, Consumed, GoodParser,
           Dec.Decoder.Valid, WB.WriteBuf.Valid, Src.Source.Valid, CloseCause, HeadBroken, FailuresOk, Before, SentOk, ReuseOk;
    }

    /** A head is awaited for a request in flight, unless that request has already failed. */
    lemma NobodyInFlight()
      requires Valid() && Steady() && conn.CanReadHead() && (callback.None? || callback.value in ch.canceled)
      ensures QuitCause()
    {
      hide GoodRequest, AllCarry, Streaming, BodiesOk, SomeoneLeft, Enc.Complete, Enc.Partial, Recorded, Wire, Consumed, GoodParser,
           Dec.Decoder.Valid, WB.WriteBuf.Valid, Src.Source.Valid, CloseCause, HeadBroken, Before, SentOk, ReuseOk;
      if callback.None? {
        var id := ids[|conn.recv|];
        assert ch.promises[id].Resolved?;
        assert ReplyOk(ch.promises[id].reply, id, ids, |conn.recv|);
        assert id in ids;
      }
    }

    lemma SettledIsInLoop()
      requires Settled()
      ensures InLoop()
    {
      hide C.Conn.Valid, Channel.Accounted, RepliesOk, FailuresOk, Before, IdsMatch, GoodRequest, AllCarry, Streaming, LastEnded, BodyOk;
    }

    constructor (conn: C.Conn, ch: Channel, requests: Id -> UserRequest)
      requires conn.Valid() && conn.sent == [] && conn.recv == [] && conn.reading.Init? && conn.writing.Init?
      requires !conn.quit && ch.Accounted({}) && ch.promises == []
      requires forall id :: GoodRequest(requests(id))
      ensures Settled() && this.conn == conn && this.ch == ch && this.requests == requests && ids == [] && bodies == [] && !isClosing
    {
      hide C.Conn.Valid;
      this.conn, this.ch, this.requests := conn, ch, requests;
      callback, rxClosed, bodyTx, bodyRx, isClosing := None, false, false, None, false;
      ids, bodies, polled := [], [], [];
      trouble, bodyReady := false, false;
    }

    /** `Dispatcher::close`. */
    method CloseAll()
      requires Valid() && !bodyTx && (callback.Some? ==> callback.value in ch.canceled)
      modifies this`isClosing, conn`reading, conn`writing, conn`keepAlive, conn`quit
      ensures Valid() && isClosing
    {
      hide C.Conn.Valid, GoodRequest, IdsMatch, BodiesOk, SomeoneLeft, RepliesOk, FailuresOk, Before, Channel.Accounted, AllCarry, Streaming, LastEnded;
      isClosing := true;
      conn.CloseRead();
      conn.CloseWrite();
    }

    // ---- Client as Dispatch ------------------------------------------------

    /** The user side acts; nothing written or answered changes. */
    method Interfere()
      requires Valid()
      modifies ch
      ensures Valid() && old(ch.promises) <= ch.promises && Kept(old(ch.promises), ch.promises)
      ensures old(ch.canceled) <= ch.canceled
    {
      hide C.Conn.Valid, GoodRequest, IdsMatch, BodiesOk, SomeoneLeft, RepliesOk, FailuresOk, Before, Channel.Valid, AllCarry, Streaming, LastEnded;
      ch.Interfere(Held());
      MoreRequests(old(ch.promises), ch.promises, ids, |conn.recv|, callback);
      MoreFailures(old(ch.promises), old(ch.canceled), trouble);
      QueuedLater(old(|ch.promises|), old(ch.queue));
    }

    lemma MoreFailures(promises: seq<Promise>, canceled: set<Id>, was: bool)
      requires FailuresOk(promises, ids, canceled, was) && promises <= ch.promises && canceled <= ch.canceled && (was ==> trouble)
      requires forall id :: |promises| <= id < |ch.promises| ==> ch.promises[id].Waiting?
      ensures FailuresOk(ch.promises, ids, ch.canceled, trouble)
    {
    }

    /** What joins the queue is newer than everything written. */
    lemma QueuedLater(promises: nat, queue: seq<Id>)
      requires Before(ids, queue) && forall k :: 0 <= k < |ids| ==> ids[k] < promises
      requires forall id :: id in ch.queue ==> id in queue || promises <= id
      ensures Before(ids, ch.queue)
    {
      forall i, j | 0 <= i < |ids| && 0 <= j < |ch.queue| ensures ids[i] < ch.queue[j] {
        assert ch.queue[j] in ch.queue;
      }
    }

    /** `Client::poll_ready`: someone must still be waiting for the response. */
    method PollReady() returns (ok: bool)
      requires Valid()
      modifies ch
      ensures Valid() && Kept(old(ch.promises), ch.promises) && old(ch.canceled) <= ch.canceled
      ensures ok <==> callback.Some? && callback.value !in ch.canceled
    {
      hide C.Conn.Valid, GoodRequest, IdsMatch, BodiesOk, SomeoneLeft, RepliesOk, FailuresOk, Before, Channel.Accounted, AllCarry, Streaming, LastEnded;
      Interfere();
      if callback.None? { return false; }
      var canceled := ch.IsCanceled(callback.value);
      ok := !canceled;
    }

    /** `Client::recv_msg` with an error: tell the request in flight, else cancel one that is queued. */
    method RecvError() returns (told: bool)
      requires Valid() && Justified()
      modifies ch`promises, ch`queue, ch`closed, this`callback, this`trouble
      ensures Valid() && callback == None && |ch.promises| == |old(ch.promises)| && Kept(old(ch.promises), ch.promises)
      ensures trouble ==> old(trouble) || old(Trouble())
      ensures told <==> old(callback).Some? || (!rxClosed && old(ch.queue) != [])
      ensures old(callback).Some? ==> Settles(old(ch.promises), ch.promises, old(callback).value, Failed(false))
      ensures old(callback).None? && told ==> Settles(old(ch.promises), ch.promises, old(ch.queue)[0], Failed(true))
      ensures !told ==> ch.promises == old(ch.promises)
    {
      hide C.Conn.Valid, GoodRequest, IdsMatch, BodiesOk, SomeoneLeft, RepliesOk, FailuresOk, Before, AllCarry, Streaming, LastEnded;
      if callback.Some? {
        TellCallback();
        return true;
      }
      if rxClosed { return false; }
      ghost var before, queue := ch.promises, ch.queue;
      var one := ch.CloseAndCancelOne(Held());
      if one.Some? {
        UnwrittenFailed(before, ids, |conn.recv|, callback, one.value, true);
        OneReturned(before, queue);
        return true;
      }
      return false;
    }

    lemma OneReturned(promises: seq<Promise>, queue: seq<Id>)
      requires FailuresOk(promises, ids, ch.canceled, trouble) && Before(ids, queue) && queue != []
      requires Settles(promises, ch.promises, queue[0], Failed(true)) && ch.queue == queue[1..]
      ensures FailuresOk(ch.promises, ids, ch.canceled, trouble) && Before(ids, ch.queue)
    {
    }

    /** The request in flight fails, its message lost. */
    method TellCallback()
      requires Valid() && callback.Some?
      modifies ch`promises, this`callback, this`trouble
      ensures Valid() && callback == None && |ch.promises| == |old(ch.promises)| && Kept(old(ch.promises), ch.promises)
      ensures trouble == (old(trouble) || old(callback).value !in ch.canceled)
      ensures Settles(old(ch.promises), ch.promises, old(callback).value, Failed(false))
    {
      hide C.Conn.Valid, GoodRequest, IdsMatch, BodiesOk, SomeoneLeft, RepliesOk, FailuresOk, Before, AllCarry, Streaming, LastEnded;
      var id := callback.value;
      CallbackFailed(ch.promises, ids, |conn.recv|, id);
      ch.Resolve(id, Failed(false), Held());
      callback := None;
      trouble := trouble || id !in ch.canceled;
      OneTold(old(ch.promises), old(trouble), id);
      assert {id} - {id} == {};
    }

    lemma OneTold(promises: seq<Promise>, was: bool, id: Id)
      requires FailuresOk(promises, ids, ch.canceled, was) && Settles(promises, ch.promises, id, Failed(false))
      requires id in ids && trouble == (was || id !in ch.canceled)
      ensures FailuresOk(ch.promises, ids, ch.canceled, trouble)
    {
    }

    // ---- reading -----------------------------------------------------------

    /** A response with a body opens a channel for it; its sender goes into the guard. */
    method OpenBody(kind: Framing.BodyKind)
      requires !bodyTx && conn.recv != [] && BodiesOk(bodies, conn.recv[..|conn.recv| - 1], false)
      requires conn.recv[|conn.recv| - 1].data == [] && conn.recv[|conn.recv| - 1].Trailers() == None
      modifies this`bodies, this`bodyTx
      ensures BodiesOk(bodies, conn.recv, bodyTx)
      ensures bodyTx <==> kind != Framing.Exact(0)
      ensures bodies == old(bodies) + if bodyTx then [BC.Open(|conn.recv| - 1)] else []
    {
      hide BodiesOk, SomeoneLeft;
      var n := |conn.recv| - 1;
      var r := conn.recv[n];
      assert conn.recv == conn.recv[..n] + [r];
      if kind == Framing.Exact(0) {
        NoBodyOpened(bodies, conn.recv[..n], r);
      } else {
        BodyOpened(bodies, conn.recv[..n], r);
        bodies := bodies + [BC.Open(n)];
        bodyTx := true;
      }
    }

    /** The k-th final response resolves the promise of the request in flight. */
    method Answer()
      requires ch.Accounted(Held()) && callback.Some? && conn.recv != []
      requires RepliesOk(ch.promises, ids, |conn.recv| - 1, callback) && FailuresOk(ch.promises, ids, ch.canceled, trouble)
      modifies ch`promises, this`callback
      ensures callback == None && ch.Accounted(Held()) && RepliesOk(ch.promises, ids, |conn.recv|, callback)
      ensures FailuresOk(ch.promises, ids, ch.canceled, trouble)
      ensures Settles(old(ch.promises), ch.promises, old(callback).value, Answered(|conn.recv| - 1))
      ensures Kept(old(ch.promises), ch.promises)
    {
      hide RepliesOk, FailuresOk, Before;
      var id, n := callback.value, |conn.recv| - 1;
      ResponseDelivered(ch.promises, ids, n, id);
      ch.Resolve(id, Answered(n), Held());
      callback := None;
      OneAnswered(old(ch.promises), id, n);
      assert {id} - {id} == {};
    }

    lemma OneAnswered(promises: seq<Promise>, id: Id, n: nat)
      requires FailuresOk(promises, ids, ch.canceled, trouble) && Settles(promises, ch.promises, id, Answered(n))
      ensures FailuresOk(ch.promises, ids, ch.canceled, trouble)
    {
    }

    /** A final response head goes to the request in flight, with a body channel if it has a body. */
    method Deliver(msg: Message)
      requires Begun(conn.recv, msg) && callback.Some? && !bodyTx && !isClosing && Steady()
      requires BodiesOk(bodies, conn.recv[..|conn.recv| - 1], false)
      requires (msg.kind == Framing.Exact(0)) == !conn.reading.Body? && !conn.CanReadHead()
      requires msg.upgrade ==> conn.src.dropped == 0
      requires RestWith(Held(), |conn.recv| - 1, callback)
      modifies ch`promises, conn`upgrade, this`callback, this`bodies, this`bodyTx
      ensures Valid() && InLoop() && callback == None
      ensures msg.upgrade ==> conn.upgrade
      ensures Settles(old(ch.promises), ch.promises, old(callback).value, Answered(|conn.recv| - 1))
      ensures Kept(old(ch.promises), ch.promises)
      ensures bodies == old(bodies) + if msg.kind != Framing.Exact(0) then [BC.Open(|conn.recv| - 1)] else []
    {
      hide C.Conn.Valid, GoodRequest, IdsMatch, RepliesOk, FailuresOk, Before, BodiesOk, SomeoneLeft, Channel.Accounted, AllCarry, Streaming, LastEnded;
      OpenBody(msg.kind);
      if msg.upgrade { conn.OnUpgrade(); }
      Answer();
    }

    /** `poll_read_head`: the response branch that finds nobody in flight cannot be reached. */
    method PollReadHead() returns (r: Poll<Result<(), C.Error>>)
      requires Valid() && Steady() && !bodyTx && !isClosing && conn.CanReadHead()
      modifies Repr
      ensures Valid() && InLoop() && bodyRx == old(bodyRx) && ids == old(ids)
      ensures conn.src.Left() <= old(conn.src.Left())
      ensures isClosing ==> old(callback).None? || old(callback).value in ch.canceled || TransportTrouble()
      ensures old(callback).Some? && old(callback).value in old(ch.canceled) ==> isClosing
      ensures r.Ready? && r.value.Ok? && !isClosing ==>
                && old(callback).Some? && |conn.recv| == old(|conn.recv|) + 1 && callback == None && !conn.CanReadHead()
                && old(callback).value < |ch.promises| && ch.promises[old(callback).value] == Resolved(Answered(|conn.recv| - 1))
      ensures r.Pending? ==> Settled() && !isClosing && conn.CanReadHead() && conn.src.readBlocked && callback == old(callback) != None
      ensures r.Ready? && r.value.Err? ==> Settled() && callback == None && TransportTrouble()
      ensures Kept(old(ch.promises), ch.promises)
    {
      hide C.Conn.Valid, GoodRequest, IdsMatch, Channel.Accounted, RepliesOk, FailuresOk, Before, BodiesOk, SomeoneLeft, AllCarry, Streaming, LastEnded;
      var ok := PollReady();
      if !ok {
        NobodyInFlight();
        CloseAll();
        return Ready(Ok(()));
      }
      ghost var before := conn.recv;
      var head := conn.PollReadHead();
      match head
      case Pending => return Pending;
      case Ready(Err(e)) =>
        var told := HeadRefused();
        return if told then Ready(Ok(())) else Ready(Err(e));
      case Ready(Ok(msg)) =>
        assert conn.recv[..|conn.recv| - 1] == before;
        Deliver(msg);
        return Ready(Ok(()));
    }

    /** No head could be had: whoever waits for it is told, and the connection closed. */
    method HeadRefused() returns (told: bool)
      requires Valid() && Steady() && !bodyTx && !isClosing && conn.reading.Closed? && TransportTrouble()
      modifies ch, this`callback, this`trouble, this`isClosing, conn`reading, conn`writing, conn`keepAlive, conn`quit
      ensures Settled() && callback == None && (told <==> isClosing) && (old(callback).Some? ==> told)
      ensures Kept(old(ch.promises), ch.promises) && ch.canceled == old(ch.canceled)
    {
      hide C.Conn.Valid, GoodRequest, IdsMatch, Channel.Accounted, RepliesOk, FailuresOk, Before, BodiesOk, SomeoneLeft, AllCarry, Streaming, LastEnded;
      told := RecvError();
      if told { CloseAll(); }
    }

    /** Whether the user still listens is the user's choice, and final. */
    method ReceiverMayLeave(ghost recv: seq<Response>)
      requires bodyTx && BodiesOk(bodies, recv, true)
      modifies this`bodies
      ensures BodiesOk(bodies, recv, true) && |bodies| == |old(bodies)|
      ensures bodies != [] && (Last(bodies) == Last(old(bodies)) || Last(bodies) == Last(old(bodies)).(receiverAlive := false))
      ensures bodies == WithLast(old(bodies), Last(bodies))
      ensures SomeoneLeft(old(bodies)) ==> SomeoneLeft(bodies)
    {
      hide BodyOk;
      var leaves: bool := *;
      if leaves {
        ReceiverGone(bodies, recv);
        StillLeft(bodies, Last(bodies).(receiverAlive := false));
        bodies := WithLast(bodies, Last(bodies).(receiverAlive := false));
      }
    }

    /** The sender of a body that is complete, or that nobody listens to, is simply dropped. */
    method DropBody(ghost recv: seq<Response>)
      requires Rest() && bodyTx && BodiesOk(bodies, recv, true) && Moved(recv, conn.recv)
      requires bodies != [] && Last(bodies).receiverAlive ==> NothingRead(recv, conn.recv) && LastComplete(conn.recv)
      modifies this`bodies, this`bodyTx
      ensures Valid() && !bodyTx && old(bodies) != []
      ensures bodies == WithLast(old(bodies), BC.DropSender(Last(old(bodies))))
      ensures SomeoneLeft(old(bodies)) ==> SomeoneLeft(bodies)
    {
      hide C.Conn.Valid, GoodRequest, IdsMatch, Channel.Accounted, RepliesOk, FailuresOk, Before, AllCarry, Streaming, LastEnded, BodyOk;
      DroppedClean(bodies, recv, conn.recv);
      StillLeft(bodies, BC.DropSender(Last(bodies)));
      bodies := WithLast(bodies, BC.DropSender(Last(bodies)));
      bodyTx := false;
    }

    /** Any other ending queues an error for the receiver and then drops the sender. */
    method FailBody(ghost recv: seq<Response>)
      requires Rest() && bodyTx && BodiesOk(bodies, recv, true) && NothingRead(recv, conn.recv) && !LastComplete(conn.recv)
      modifies this`bodies, this`bodyTx
      ensures Valid() && !bodyTx && old(bodies) != []
      ensures bodies == WithLast(old(bodies), BC.DropSender(BC.SendError(Last(old(bodies)))))
      ensures SomeoneLeft(old(bodies)) ==> SomeoneLeft(bodies)
    {
      hide C.Conn.Valid, GoodRequest, IdsMatch, Channel.Accounted, RepliesOk, FailuresOk, Before, AllCarry, Streaming, LastEnded, BodyOk;
      DroppedWithError(bodies, recv, conn.recv);
      StillLeft(bodies, BC.DropSender(BC.SendError(Last(bodies))));
      bodies := WithLast(bodies, BC.DropSender(BC.SendError(Last(bodies))));
      bodyTx := false;
    }

    /** A body in hand is that of the last response. */
    lemma BodyInHand()
      requires Valid() && bodyTx
      ensures bodies != [] && conn.recv != [] && NothingRead(conn.recv, conn.recv)
    {
      hide C.Conn.Valid, Channel.Accounted, RepliesOk, FailuresOk, Before, IdsMatch, GoodRequest, AllCarry, Streaming, LastEnded, BodyOk;
      assert BodyOk(bodies[|bodies| - 1], conn.recv);
    }

    /** Hand a frame just decoded to the receiver; the sender of one that has gone is dropped. */
    method HandOver(frame: Dec.Frame, ghost recv: seq<Response>)
      requires bodyTx && BodiesOk(bodies, recv, true) && FrameRead(recv, conn.recv, frame) && Rest()
      modifies this`bodies, this`bodyTx
      ensures Valid() && old(bodies) != [] && bodies != []
      ensures bodyTx ==> Last(bodies) == BC.SendFrame(Last(old(bodies)), frame)
      ensures !bodyTx ==> !Last(bodies).receiverAlive && SomeoneLeft(bodies)
      ensures SomeoneLeft(old(bodies)) ==> SomeoneLeft(bodies)
    {
      hide C.Conn.Valid, GoodRequest, IdsMatch, Channel.Accounted, RepliesOk, FailuresOk, Before, BodyOk, AllCarry, Streaming, LastEnded;
      ReceiverMayLeave(recv);
      if Last(bodies).receiverAlive {
        FrameSent(bodies, recv, conn.recv, frame);
        StillLeft(bodies, BC.SendFrame(Last(bodies), frame));
        bodies := WithLast(bodies, BC.SendFrame(Last(bodies), frame));
      } else {
        LastLeft();
        DropBody(recv);
      }
    }

    /** What becomes of a frame just decoded: it is handed over, or reading stops since the receiver has gone. */
    method SendFrame(frame: Dec.Frame, ghost recv: seq<Response>)
      requires bodyTx && !isClosing && BodiesOk(bodies, recv, true) && !conn.CanReadHead()
      requires FrameRead(recv, conn.recv, frame) && (conn.reading.Body? || LastComplete(conn.recv))
      requires Rest() && Steady() && callback == None
      modifies this`bodies, this`bodyTx, conn`reading, conn`keepAlive, conn`quit
      ensures Valid() && InLoop()
      ensures conn.reading == old(conn.reading) || (old(conn.reading).Body? && conn.reading.Closed?)
      ensures old(bodies) != [] && bodies != []
      ensures bodyTx ==> Last(bodies) == BC.SendFrame(Last(old(bodies)), frame)
      ensures !bodyTx ==> !conn.reading.Body? && !Last(bodies).receiverAlive
      ensures SomeoneLeft(old(bodies)) ==> SomeoneLeft(bodies)
    {
      hide C.Conn.Valid, GoodRequest, IdsMatch, Channel.Accounted, RepliesOk, FailuresOk, Before, BodiesOk, SomeoneLeft, AllCarry, Streaming, LastEnded;
      HandOver(frame, recv);
      if !bodyTx && conn.CanReadBody() { conn.CloseRead(); }
    }

    /**
     The body branch of `poll_read`, with the sender taken from the guard. `again` goes round
     the loop; otherwise the sender is back in the guard and the call is pending.
     */
    method BodyTurn() returns (again: bool)
      requires Valid() && InLoop() && bodyTx && !isClosing
      modifies Repr
      ensures Valid() && InLoop() && ids == old(ids) && !conn.CanReadHead() && !isClosing
      ensures ch.promises == old(ch.promises)
      ensures !again ==> Settled() && bodyTx && (!bodyReady || conn.src.buf == [])
      ensures again ==>
                || (old(conn.reading).Body? && !conn.reading.Body? && conn.src.Left() <= old(conn.src.Left()))
                || (conn.reading.Body? == old(conn.reading).Body? && conn.src.Left() < old(conn.src.Left()))
                || (conn.reading == old(conn.reading) && conn.src.Left() == old(conn.src.Left()) && !bodyTx)
    {
      hide C.Conn.Valid, GoodRequest, IdsMatch, Channel.Accounted, RepliesOk, FailuresOk, Before, BodiesOk, SomeoneLeft, AllCarry, Streaming, LastEnded;
      BodyInHand();
      if !conn.CanReadBody() {
        DropBody(conn.recv);
        return true;
      }
      ReceiverMayLeave(conn.recv);
      if !Last(bodies).receiverAlive {
        DrainBody();
        return true;
      }
      bodyReady := *;
      if !bodyReady { return false; }
      again := ReadBody();
    }

    /** Nobody listens: drain or close, and drop the sender. */
    method DrainBody()
      requires Valid() && Steady() && bodyTx && !isClosing && bodies != [] && !Last(bodies).receiverAlive
      requires conn.reading.Body?
      modifies Repr
      ensures Valid() && Steady() && !bodyTx && ids == old(ids) && !isClosing && ch.promises == old(ch.promises)
      ensures !conn.CanReadHead() && !conn.reading.Body? && conn.src.Left() <= old(conn.src.Left())
    {
      hide C.Conn.Valid, GoodRequest, IdsMatch, Channel.Accounted, RepliesOk, FailuresOk, Before, BodiesOk, SomeoneLeft, AllCarry, Streaming, LastEnded;
      NobodyWaits();
      conn.BodyBegun();
      ghost var recv := conn.recv;
      LastLeft();
      conn.PollDrainOrCloseRead();
      DropBody(recv);
    }

    lemma LastLeft()
      requires bodies != [] && !Last(bodies).receiverAlive
      ensures SomeoneLeft(bodies)
    {
      assert !bodies[|bodies| - 1].receiverAlive;
    }

    /** Read from the body and pass on what comes. */
    method ReadBody() returns (again: bool)
      requires Valid() && Steady() && bodyTx && !isClosing && conn.reading.Body?
      modifies Repr
      ensures Valid() && InLoop() && ids == old(ids) && !conn.CanReadHead() && !isClosing && ch.promises == old(ch.promises)
      ensures !again ==> Settled() && bodyTx && conn.src.buf == []
      ensures again ==> conn.src.Left() <= old(conn.src.Left()) && (!conn.reading.Body? || conn.src.Left() < old(conn.src.Left()))
    {
      hide C.Conn.Valid, GoodRequest, IdsMatch, Channel.Accounted, RepliesOk, FailuresOk, Before, BodiesOk, SomeoneLeft, AllCarry, Streaming, LastEnded;
      NobodyWaits();
      conn.BodyBegun();
      ghost var recv := conn.recv;
      assert recv[|recv| - 1].Trailers() == None;
      var read := conn.PollReadBody();
      again := !read.Pending?;
      match read
      case Pending => NothingSent(bodies, recv, conn.recv);
      case Ready(Frame(frame)) => SendFrame(frame, recv);
      case Ready(EndOfBody) => DropBody(recv);
      case Ready(BodyFailed(_)) => FailBody(recv);
    }

    /** What reading waits for: the transport, the receiver of a body, or a request. */
    predicate ReadingWaits()
      reads this, conn, conn.src
    {
      if conn.reading.Init? && !conn.writing.Init? then callback.Some? && conn.src.readBlocked
      else if bodyTx then !bodyReady || conn.src.buf == []
      else conn.reading.Closed? || conn.src.readBlocked || (conn.src.buf != [] && !(conn.reading.Init? && conn.writing.Init?))
    }

    /** `poll_read`. */
    method PollRead() returns (r: Poll<Result<(), C.Error>>)
      requires Settled()
      modifies Repr
      ensures Settled() && ids == old(ids) && Kept(old(ch.promises), ch.promises)
      ensures r.Ready? && r.value.Err? ==> Over() && (callback == None || TransportTrouble())
      ensures r.Pending? ==> !isClosing && ReadingWaits()
    {
      hide C.Conn.Valid, GoodRequest, IdsMatch, Channel.Accounted, RepliesOk, FailuresOk, Before, BodiesOk, SomeoneLeft, AllCarry, Streaming, LastEnded;
      SettledIsInLoop();
      while true
        invariant Valid() && InLoop() && ids == old(ids) && Kept(old(ch.promises), ch.promises)
        decreases conn.CanReadHead(), conn.reading.Body?, conn.src.Left(), bodyTx
      {
        if isClosing { return Ready(Ok(())); }
        if conn.CanReadHead() {
          var head := PollReadHead();
          match head
          case Pending => return Pending;
          case Ready(Err(e)) => return Ready(Err(e));
          case Ready(Ok(_)) =>
            if isClosing { return Ready(Ok(())); }
        } else if bodyTx {
          var again := BodyTurn();
          if !again { return Pending; }
        } else {
          r := KeepReading();
          return;
        }
      }
    }

    /** The last branch of `poll_read`: nothing is expected from the peer yet. */
    method KeepReading() returns (r: Poll<Result<(), C.Error>>)
      requires Valid() && InLoop() && !bodyTx && !isClosing && !conn.CanReadHead()
      modifies Repr
      ensures Settled() && ids == old(ids) && ch.promises == old(ch.promises) && isClosing == old(isClosing)
      ensures r.Ready? && r.value.Err? ==> Over() && (callback == None || TransportTrouble())
      ensures r.Pending? ==> ReadingWaits()
    {
      hide C.Conn.Valid, GoodRequest, IdsMatch, Channel.Accounted, RepliesOk, FailuresOk, Before, BodiesOk, SomeoneLeft, AllCarry, Streaming, LastEnded;
      if !conn.reading.Closed? { NobodyWaits(); }
      r := conn.PollReadKeepAlive();
    }

    // ---- writing -----------------------------------------------------------

    /** A request whose user gave up: failed without its message, never written. */
    ghost predicate GivenUp(id: Id)
      reads this, ch
    {
      id < |ch.promises| && ch.promises[id] == Resolved(Failed(false)) && id in ch.canceled && id !in ids
    }

    /** The request whose turn it is: after all those written, before all those queued. */
    ghost predicate Next(id: Id)
      reads this, ch
    {
      (forall k :: 0 <= k < |ids| ==> ids[k] < id) && forall i :: 0 <= i < |ch.queue| ==> id < ch.queue[i]
    }

    lemma Later(queue: seq<Id>, promises: nat, id: Id)
      requires Before(ids, queue) && forall k :: 0 <= k < |ids| ==> ids[k] < promises
      requires if queue != [] then id == queue[0] else promises <= id
      ensures forall k :: 0 <= k < |ids| ==> ids[k] < id
    {
    }

    lemma OneGivenUp(promises: seq<Promise>, id: Id)
      requires FailuresOk(promises, ids, ch.canceled, trouble) && Settles(promises, ch.promises, id, Failed(false)) && id in ch.canceled
      ensures FailuresOk(ch.promises, ids, ch.canceled, trouble)
    {
    }

    /** Who owns the promise of a request just received. */
    ghost function Taken(r: Poll<Option<Id>>): set<Id> {
      if r.Ready? && r.value.Some? then {r.value.value} else {}
    }

    /** The next request, or why there is none. */
    method Receive() returns (r: Poll<Option<Id>>)
      requires Valid() && callback == None
      modifies ch`promises, ch`queue, ch`bufferedOnce, ch`wanting, ch`canceled, ch`senderGone
      ensures RestWith(Taken(r), |conn.recv|, None) && BodiesOk(bodies, conn.recv, bodyTx)
      ensures r.Ready? && r.value.Some? ==> Next(r.value.value)
      ensures Kept(old(ch.promises), ch.promises)
      ensures old(ch.queue) != [] ==> r == Ready(Some(old(ch.queue)[0]))
      ensures r == Ready(None) ==> ch.senderGone || ch.closed
      ensures r.Pending? ==> ch.queue == [] && ch.wanting && !ch.senderGone && !ch.closed
    {
      hide C.Conn.Valid, GoodRequest, IdsMatch, RepliesOk, FailuresOk, Before, BodiesOk, SomeoneLeft, AllCarry, Streaming, LastEnded;
      ghost var promises, canceled, queue := ch.promises, ch.canceled, ch.queue;
      r := ch.PollRecv({});
      MoreRequests(promises, ch.promises, ids, |conn.recv|, None);
      MoreFailures(promises, canceled, trouble);
      QueuedLater(|promises|, queue);
      if r.Ready? && r.value.Some? {
        assert {} + {r.value.value} == {r.value.value};
        Later(queue, |promises|, r.value.value);
      }
    }

    /** `Client::poll_msg`: the next request nobody has given up on; ownership of its promise comes along. */
    method PollMsg() returns (r: Poll<Option<Id>>)
      requires Valid() && callback == None
      modifies ch, this`rxClosed
      ensures RestWith(Taken(r), |conn.recv|, None) && BodiesOk(bodies, conn.recv, bodyTx)
      ensures r.Ready? && r.value.Some? ==> Next(r.value.value) && r.value.value !in ch.canceled
      ensures Kept(old(ch.promises), ch.promises)
      ensures old(ch.queue) != [] ==>
                var id := old(ch.queue)[0]; r == Ready(Some(id)) || (r == Ready(None) && GivenUp(id))
      ensures r == Ready(None) ==> (rxClosed && (ch.senderGone || ch.closed)) || exists id :: GivenUp(id)
      ensures r.Pending? ==> ch.queue == [] && ch.wanting && !ch.senderGone && !ch.closed
    {
      hide C.Conn.Valid, GoodRequest, IdsMatch, RepliesOk, FailuresOk, Before, BodiesOk, SomeoneLeft, AllCarry, Streaming, LastEnded, Next;
      r := Receive();
      match r
      case Pending =>
      case Ready(None) => rxClosed := true;
      case Ready(Some(id)) =>
        var canceled := ch.IsCanceled(id);
        if canceled {
          GiveUp(id);
          return Ready(None);
        }
    }

    /** The callback of a request its user has given up on is dropped. */
    method GiveUp(id: Id)
      requires RestWith({id}, |conn.recv|, None) && BodiesOk(bodies, conn.recv, bodyTx) && id in ch.canceled
      modifies ch`promises
      ensures RestWith({}, |conn.recv|, None) && BodiesOk(bodies, conn.recv, bodyTx)
      ensures Kept(old(ch.promises), ch.promises) && GivenUp(id)
    {
      hide C.Conn.Valid, GoodRequest, IdsMatch, RepliesOk, FailuresOk, Before, BodiesOk, SomeoneLeft, AllCarry, Streaming, LastEnded;
      ghost var promises := ch.promises;
      UnwrittenFailed(promises, ids, |conn.recv|, None, id, false);
      ch.Resolve(id, Failed(false), {id});
      OneGivenUp(promises, id);
      assert {id} - {id} == {};
    }

    /** The head branch of `poll_write`: take a request, remember its callback and body, write its head. */
    method StartRequest() returns (r: Poll<bool>)
      requires Settled() && !isClosing && bodyRx == None && conn.CanWriteHead() && callback == None
      modifies ch, this`ids, this`callback, this`bodyRx, this`polled, this`rxClosed, this`isClosing,
               conn`reading, conn`writing, conn`keepAlive, conn`method_, conn`sent, conn`quit,
               conn.wbuf`headBytes, conn.wbuf`buffered, conn.encoder
      ensures Settled()
      ensures r.Pending? ==> ch.queue == [] && ch.wanting && bodyRx == None && callback == None && conn.CanWriteHead()
      ensures r == Ready(true) ==> ids != [] && callback == Some(ids[|ids| - 1]) && callback.value !in ch.canceled
      ensures r.Pending? ==> conn.sent == old(conn.sent) && ids == old(ids)
      ensures Kept(old(ch.promises), ch.promises)
      ensures r == Ready(false) ==> isClosing && ids == old(ids)
      ensures r == Ready(true) ==>
                && !isClosing && !conn.writing.Init? && conn.reading.Init? && |ids| == |old(ids)| + 1 && old(ids) <= ids
    {
      hide C.Conn.Valid, IdsMatch, RepliesOk, FailuresOk, Before, BodiesOk, SomeoneLeft, Channel.Accounted, GoodRequest, AllCarry, Streaming, LastEnded;
      conn.ReadyForHead();
      conn.StillOn();
      var msg := PollMsg();
      match msg
      case Pending => return Pending;
      case Ready(None) =>
        CloseAll();
        return Ready(false);
      case Ready(Some(id)) =>
        BeginRequest(id);
        return Ready(true);
    }

    /** Write the head of request `id`, whose promise has just been taken from the queue. */
    method BeginRequest(id: Id)
      requires RestWith({id}, |conn.recv|, None) && BodiesOk(bodies, conn.recv, bodyTx) && Next(id)
      requires (trouble ==> TransportTrouble()) && !conn.quit
      requires !isClosing && callback == None && !bodyTx && conn.CanWriteHead() && conn.reading.Init? && |conn.sent| == |conn.recv|
      modifies this`ids, this`callback, this`bodyRx, this`polled, conn`writing, conn`keepAlive, conn`method_, conn`sent,
               conn.wbuf`headBytes, conn.wbuf`buffered, conn.encoder
      ensures Settled() && !conn.writing.Init? && ids == old(ids) + [id] && callback == Some(id)
    {
      hide C.Conn.Valid, IdsMatch, RepliesOk, FailuresOk, Before, BodiesOk, SomeoneLeft, Channel.Valid, AllCarry, Streaming, LastEnded, GoodRequest, GoodFrames;
      WriteRequest(id);
      OneWritten(ids[..|ids| - 1], id);
      RequestWritten(ch.promises, ids[..|ids| - 1], |conn.recv|, id);
      callback := Some(id);
    }

    lemma OneWritten(before: seq<Id>, id: Id)
      requires FailuresOk(ch.promises, before, ch.canceled, trouble) && Before(before, ch.queue) && ids == before + [id]
      requires forall i :: 0 <= i < |ch.queue| ==> id < ch.queue[i]
      ensures FailuresOk(ch.promises, ids, ch.canceled, trouble) && Before(ids, ch.queue)
    {
      forall k | 0 <= k < |ch.promises| && ch.promises[k] == Resolved(Failed(false)) && k in before ensures k in ids {
      }
    }

    /** Its head on the wire, its body next to be polled. */
    method WriteRequest(id: Id)
      requires conn.Valid() && (forall id :: GoodRequest(requests(id))) && IdsMatch(ids, conn.sent)
      requires AllCarry(requests, conn.sent, polled)
      requires conn.CanWriteHead() && conn.reading.Init? && |conn.sent| == |conn.recv|
      modifies this`ids, this`bodyRx, this`polled, conn`writing, conn`keepAlive, conn`method_, conn`sent,
               conn.wbuf`headBytes, conn.wbuf`buffered, conn.encoder
      ensures conn.Valid() && IdsMatch(ids, conn.sent) && AllCarry(requests, conn.sent, polled)
      ensures Streaming(requests, conn.sent, polled, bodyRx) && (bodyRx.Some? ==> GoodFrames(bodyRx.value)) && BodyPolled()
      ensures !conn.writing.Init? && ids == old(ids) + [id] && ids[..|ids| - 1] == old(ids) && |old(ids)| == |conn.recv|
    {
      hide C.Conn.Valid, IdsMatch, Framing.Agrees, Framing.FramingIsSound, GoodFrames, Framed, AllCarry, Streaming, LastEnded,
           Enc.Complete, Reusable, Consumed;
      var req := requests(id);
      ghost var sent := conn.sent;
      Counted(sent);
      assert GoodRequest(req);
      conn.WriteHead(C.Request(id, req.head, req.render), req.length);
      IdAppended(sent, id);
      HeadCarries(requests, sent, polled, conn.sent);
      NotStreaming(conn.sent, polled + [0]);
      ids, polled := ids + [id], polled + [0];
      bodyRx := if req.length.Some? then Some(req.frames) else None;
    }

    lemma NotStreaming(sent: seq<SentRequest>, polled: seq<nat>)
      ensures Streaming(requests, sent, polled, None)
    {
    }

    lemma Counted(sent: seq<SentRequest>)
      requires IdsMatch(ids, sent)
      ensures |ids| == |sent|
    {
    }

    lemma IdAppended(sent: seq<SentRequest>, id: Id)
      requires IdsMatch(ids, sent) && |conn.sent| == |sent| + 1 && conn.sent[..|sent|] == sent && conn.sent[|sent|].id == id
      ensures IdsMatch(ids + [id], conn.sent)
    {
      assert forall k :: 0 <= k < |sent| ==> conn.sent[k] == conn.sent[..|sent|][k];
    }

    lemma IdsKept(sent: seq<SentRequest>)
      requires IdsMatch(ids, sent) && |conn.sent| == |sent| > 0
      requires conn.sent[..|sent| - 1] == sent[..|sent| - 1] && conn.sent[|sent| - 1].id == sent[|sent| - 1].id
      ensures IdsMatch(ids, conn.sent)
    {
      assert forall k :: 0 <= k < |sent| - 1 ==> conn.sent[k] == conn.sent[..|sent| - 1][k] && sent[k] == sent[..|sent| - 1][k];
    }

    /** End a body that was polled to its end but is still open. */
    method EndBody() returns (r: Result<(), C.Error>)
      requires Settled() && !isClosing && conn.CanWriteBody() && bodyRx == None && conn.wbuf.CanBuffer()
      modifies conn`writing, conn`sent, conn.wbuf`headBytes, conn.wbuf`headPos, conn.wbuf`buffered, conn.wbuf.queue
      ensures Settled() && !conn.writing.Body? && !conn.writing.Init?
      ensures r.Err? ==> BodyFailed(requests, conn.sent, polled)
    {
      hide C.Conn.Valid, IdsMatch, Channel.Accounted, RepliesOk, FailuresOk, Before, BodiesOk, SomeoneLeft, AllCarry, Streaming, Carries;
      ghost var sent := conn.sent;
      r := conn.EndBody();
      IdsKept(sent);
      StillCarries(sent);
      NotStreaming(conn.sent, polled);
    }

    /** The last request ended, after its last frame, without trailers. */
    lemma StillCarries(sent: seq<SentRequest>)
      requires AllCarry(requests, sent, polled) && LastEnded(requests, sent, polled) && |conn.sent| == |sent| > 0
      requires conn.sent[..|sent| - 1] == sent[..|sent| - 1]
      requires conn.sent[|sent| - 1] == sent[|sent| - 1].(body := conn.sent[|sent| - 1].body)
      requires var s, t := sent[|sent| - 1].body, conn.sent[|sent| - 1].body;
               t.framing == s.framing && t.offered == s.offered && !t.ending.EndedWith? && s.ending.Open?
      ensures AllCarry(requests, conn.sent, polled)
    {
      hide Chunks;
      var n := |sent| - 1;
      assert Sends(requests(sent[n].id), sent[n], polled[n]);
      assert Carries(requests(conn.sent[n].id), conn.sent[n].body, polled[n]);
      LastCarries(requests, sent, polled, conn.sent, polled[n]);
      assert polled[n := polled[n]] == polled;
    }

    /** What writing `frame` for the last request does to its record. */
    ghost predicate Wrote(was: Enc.Sent, now: Enc.Sent, frame: UserFrame)
    {
      && was.ending.Open? && now.framing == was.framing && now.offered == was.offered + ChunkOf(frame)
      && (now.ending.Open? || IsLast(frame) || now.framing.Length?)
      && (now.ending.EndedWith? ==>
            frame.Trailers? && Enc.Keeps(frame.fields, Enc.Announced(now.framing), now.ending.fields))
      && (now.framing.Chunked? && !now.ending.EndedWith? && frame.Trailers? ==>
            Enc.Keeps(frame.fields, Enc.Announced(now.framing), []))
    }

    /** The body of the last request has fewer bytes than its length says. */
    predicate TooShort(sent: seq<SentRequest>) {
      sent != [] && var s := sent[|sent| - 1].body; s.framing.Length? && |Flatten(s.offered)| < s.framing.remaining
    }

    /**
     Act on one frame of the user body: data past the framing is cut, a short body closes
     writing, and a frame of an unknown kind is passed over.
     */
    method WriteFrame(frame: UserFrame) returns (r: Poll<Result<(), C.Error>>, clear: bool)
      requires Valid() && conn.CanWriteBody() && GoodFrame(frame) && conn.wbuf.CanBuffer()
      modifies conn`writing, conn`sent, conn.wbuf`headBytes, conn.wbuf`headPos, conn.wbuf`buffered, conn.wbuf.queue, conn.encoder
      ensures clear <==> IsLast(frame) || frame.UserError?
      ensures conn.Valid() && !conn.writing.Init? && (r.Pending? <==> frame.NotReady?)
      ensures frame.UserError? ==> r == Ready(Err(C.UserBody))
      ensures |conn.sent| == |old(conn.sent)| > 0 && conn.sent[..|conn.sent| - 1] == old(conn.sent)[..|conn.sent| - 1]
      ensures var n := |conn.sent| - 1; conn.sent[n] == old(conn.sent)[n].(body := conn.sent[n].body)
      ensures Wrote(old(conn.sent)[|conn.sent| - 1].body, conn.sent[|conn.sent| - 1].body, frame)
      ensures r.Ready? && r.value.Err? && !frame.UserError? ==> IsLast(frame) && TooShort(conn.sent)
    {
      hide C.Conn.Valid, IdsMatch, Channel.Accounted, RepliesOk, FailuresOk, Before, BodiesOk, SomeoneLeft, Enc.FieldsOk, AllCarry, Streaming, LastEnded,
           Enc.Keeps, Enc.Announced;
      conn.WritingBody();
      r, clear := Ready(Ok(())), false;
      var ended: Result<(), C.Error>;
      match frame
      case NotReady => r := Pending;
      case Unknown =>
      case UserError => r, clear := Ready(Err(C.UserBody)), true;
      case End => ended := conn.EndBody(); r, clear := Ready(ended), true;
      case Trailers(fields) => conn.WriteTrailers(fields); clear := true;
      case Data(chunk, eos) =>
        clear := eos;
        if chunk == [] {
          if eos { ended := conn.EndBody(); r := Ready(ended); }
        } else if eos {
          conn.WriteBodyAndEnd(chunk);
        } else {
          conn.WriteBody(chunk);
        }
    }

    /** `frame` is the `k`-th frame of the last request's body. */
    predicate LastPolled(sent: seq<SentRequest>, k: nat, frame: UserFrame) {
      sent != [] && var fs := requests(sent[|sent| - 1].id).frames; 0 < k <= |fs| && fs[k - 1] == frame
    }

    /** `frame` was polled last. */
    ghost predicate Polled(frame: UserFrame)
      reads this, conn
    {
      polled != [] && |polled| == |conn.sent| && LastPolled(conn.sent, polled[|polled| - 1], frame)
    }

    lemma PolledFailed(frame: UserFrame)
      requires Polled(frame) && (frame.UserError? || (IsLast(frame) && TooShort(conn.sent)))
      ensures BodyFailed(requests, conn.sent, polled)
    {
    }

    /** One more frame polled and written: the last request has been offered one frame more. */
    lemma FramePolled(sent: seq<SentRequest>, rx: seq<UserFrame>, now: seq<SentRequest>)
      requires AllCarry(requests, sent, polled) && Streaming(requests, sent, polled, Some(rx)) && rx != []
      requires |now| == |sent| && now[..|sent| - 1] == sent[..|sent| - 1]
      requires now[|sent| - 1] == sent[|sent| - 1].(body := now[|sent| - 1].body)
      requires Wrote(sent[|sent| - 1].body, now[|sent| - 1].body, rx[0])
      ensures |polled| == |sent| > 0 && LastPolled(now, polled[|sent| - 1] + 1, rx[0])
      ensures var more := polled[|polled| - 1 := polled[|polled| - 1] + 1];
              && AllCarry(requests, now, more)
              && (if IsLast(rx[0]) then LastEnded(requests, now, more) else Streaming(requests, now, more, Some(rx[1..])))
    {
      hide Enc.Keeps, Carries;
      var n := |sent| - 1;
      var req, k := requests(sent[n].id), polled[n];
      assert req.frames[k] == rx[0] && req.frames[k..][1..] == req.frames[k + 1..];
      assert Sends(req, sent[n], k);
      FrameCarries(req, sent[n].body, k, now[n].body);
      LastCarries(requests, sent, polled, now, k + 1);
    }

    /** Poll one frame of the user body and act on it. */
    method TakeFrame(frames: seq<UserFrame>) returns (r: Poll<Result<(), C.Error>>)
      requires Settled() && !isClosing && bodyRx == Some(frames) && frames != [] && conn.CanWriteBody() && conn.wbuf.CanBuffer()
      modifies this`bodyRx, this`polled, conn`writing, conn`sent, conn.wbuf`headBytes, conn.wbuf`headPos, conn.wbuf`buffered,
               conn.wbuf.queue, conn.encoder
      ensures Valid() && !conn.writing.Init?
      ensures r.Pending? || r.value.Ok? || !frames[0].UserError? ==> Settled()
      ensures FramesLeft() < old(FramesLeft())
      ensures r.Pending? ==> UserWaits() && bodyRx.Some?
      ensures r.Ready? && r.value.Err? ==> BodyFailed(requests, conn.sent, polled)
    {
      hide C.Conn.Valid, IdsMatch, Channel.Accounted, RepliesOk, FailuresOk, Before, BodiesOk, SomeoneLeft, Enc.FieldsOk, AllCarry, Streaming, LastEnded,
           Wrote, GoodRequest, GoodFrames, BodyFailed, TooShort, LastPolled;
      r := WriteNext(frames);
    }

    /** Write the next frame and note that it is used up. */
    method WriteNext(frames: seq<UserFrame>) returns (r: Poll<Result<(), C.Error>>)
      requires Valid() && bodyRx == Some(frames) && frames != [] && conn.CanWriteBody() && conn.wbuf.CanBuffer()
      modifies this`bodyRx, this`polled, conn`writing, conn`sent, conn.wbuf`headBytes, conn.wbuf`headPos, conn.wbuf`buffered,
               conn.wbuf.queue, conn.encoder
      ensures conn.Valid() && !conn.writing.Init? && IdsMatch(ids, conn.sent)
      ensures AllCarry(requests, conn.sent, polled) && Streaming(requests, conn.sent, polled, bodyRx)
      ensures bodyRx.None? && !frames[0].UserError? ==> LastEnded(requests, conn.sent, polled)
      ensures bodyRx.Some? ==> bodyRx.value == frames[1..] && GoodFrames(bodyRx.value)
      ensures frames[0].UserError? ==> r == Ready(Err(C.UserBody))
      ensures r.Pending? ==> UserWaits() && bodyRx.Some?
      ensures r.Ready? && r.value.Err? ==> BodyFailed(requests, conn.sent, polled)
    {
      hide C.Conn.Valid, IdsMatch, Channel.Accounted, RepliesOk, FailuresOk, Before, BodiesOk, SomeoneLeft, Enc.FieldsOk, AllCarry, Streaming, LastEnded,
           Wrote, GoodRequest, GoodFrames, BodyFailed, TooShort, LastPolled;
      ghost var sent := conn.sent;
      GoodTail(frames);
      var clear;
      r, clear := WriteFrame(frames[0]);
      NoteFrame(frames, clear, sent);
    }

    /** The user body has nothing to give: its last poll was pending, or it is used up. */
    ghost predicate UserWaits()
      reads this, conn
    {
      Polled(NotReady) || bodyRx == Some([])
    }

    /** The frame just written is used up. */
    method NoteFrame(frames: seq<UserFrame>, clear: bool, ghost sent: seq<SentRequest>)
      requires frames != [] && (clear <==> IsLast(frames[0]) || frames[0].UserError?)
      requires AllCarry(requests, sent, polled) && Streaming(requests, sent, polled, Some(frames)) && frames != []
      requires |conn.sent| == |sent| > 0 && conn.sent[..|sent| - 1] == sent[..|sent| - 1]
      requires conn.sent[|sent| - 1] == sent[|sent| - 1].(body := conn.sent[|sent| - 1].body)
      requires Wrote(sent[|sent| - 1].body, conn.sent[|sent| - 1].body, frames[0]) && IdsMatch(ids, sent)
      modifies this`bodyRx, this`polled
      ensures IdsMatch(ids, conn.sent)
      ensures frames[0].UserError? || (IsLast(frames[0]) && TooShort(conn.sent)) ==> BodyFailed(requests, conn.sent, polled)
      ensures AllCarry(requests, conn.sent, polled) && Streaming(requests, conn.sent, polled, bodyRx)
      ensures bodyRx == if clear then None else Some(frames[1..])
      ensures IsLast(frames[0]) ==> LastEnded(requests, conn.sent, polled)
      ensures Polled(frames[0])
    {
      hide AllCarry, Streaming, LastEnded, Wrote, LastPolled, IdsMatch, BodyFailed, TooShort;
      IdsKept(sent);
      FramePolled(sent, frames, conn.sent);
      polled := polled[|polled| - 1 := polled[|polled| - 1] + 1];
      NotStreaming(conn.sent, polled);
      bodyRx := if clear then None else Some(frames[1..]);
      if frames[0].UserError? || (IsLast(frames[0]) && TooShort(conn.sent)) { PolledFailed(frames[0]); }
    }

    /** The body branch of `poll_write`: `Ready(Ok)` goes round again. A failing user body leaves its request unended. */
    method BodyWriteTurn() returns (r: Poll<Result<(), C.Error>>)
      requires Settled() && !isClosing && conn.wbuf.CanBuffer()
      modifies this`bodyRx, this`polled, conn`writing, conn`sent, conn.wbuf`headBytes, conn.wbuf`headPos, conn.wbuf`buffered,
               conn.wbuf.queue, conn.encoder
      ensures Valid() && (r.Pending? || r.value.Ok? ==> Settled())
      ensures r.Ready? && r.value.Err? ==> BodyFailed(requests, conn.sent, polled)
      ensures r.Pending? ==>
                || (bodyRx.Some? && UserWaits())
                || (old(bodyRx) == bodyRx == None && !conn.CanWriteBody() && conn.CanWriteHead() == old(conn.CanWriteHead()))
      ensures HoldsBody() && (trouble ==> TransportTrouble()) && (conn.quit ==> QuitCause())
      ensures old(conn.writing).Init? == conn.writing.Init?
      ensures r.Ready? && r.value.Ok? ==>
                || FramesLeft() < old(FramesLeft())
                || (FramesLeft() == old(FramesLeft()) && old(conn.writing).Body? && !conn.writing.Body?)
    {
      hide C.Conn.Valid, IdsMatch, Channel.Accounted, RepliesOk, FailuresOk, Before, BodiesOk, SomeoneLeft, Enc.FieldsOk, AllCarry, LastEnded;
      if bodyRx.None? {
        if !conn.CanWriteBody() { return Pending; }
        var ended := EndBody();
        return Ready(ended);
      }
      if !conn.CanWriteBody() {
        bodyRx := None;
        return Ready(Ok(()));
      }
      if bodyRx.value == [] { return Pending; }
      r := TakeFrame(bodyRx.value);
    }

    function FramesLeft(): nat
      reads this
    {
      if bodyRx.Some? then 1 + |bodyRx.value| else 0
    }

    /** No body, and no head that could be written for want of a reply. */
    predicate NothingToWrite()
      reads this, conn, conn.wbuf, conn.wbuf.queue
    {
      && bodyRx.None? && !conn.writing.Body?
      && !(conn.writing.Init? && !conn.reading.Closed? && conn.wbuf.queue.remaining == 0 && callback.None?)
    }

    method PollFlush() returns (r: Poll<Result<(), C.Error>>)
      requires Settled()
      modifies conn, conn.wbuf, conn.wbuf.queue, conn.src`buf, conn.src`script, conn.src`eof, conn.src`failed, conn.src`readBlocked,
               conn.src`strategy, conn.src`received
      ensures r.Pending? ==> conn.wbuf.Blocked()
      ensures r.Ready? && r.value.Err? ==> conn.wbuf.broken
      ensures (conn.writing.Init? ==> !conn.reading.KeepAlive?) && (old(conn.writing).Init? ==> !old(conn.reading).KeepAlive?)
      ensures Settled() && conn.sent == old(conn.sent) && conn.recv == old(conn.recv)
      ensures conn.reading == old(conn.reading) || conn.reading.Closed?
              || (old(conn.reading).KeepAlive? && conn.reading.Init? && conn.writing.Init?)
      ensures conn.writing == old(conn.writing) || conn.writing.Closed? || (old(conn.reading).KeepAlive? && conn.writing.Init?)
      ensures r.Ready? && r.value.Ok? ==> conn.wbuf.CanBuffer()
    {
      hide C.Conn.Valid, IdsMatch, Channel.Accounted, RepliesOk, FailuresOk, Before, BodiesOk, SomeoneLeft, GoodRequest, WB.WriteBuf.Valid, AllCarry, Streaming, LastEnded;
      FlushChangesIdle();
      r := conn.PollFlush();
      FlushChangesIdle();
    }

    /** What writing waits for: a request, the transport, the user's body, or a reply. */
    ghost predicate WritingWaits()
      reads this, ch, conn, conn.wbuf, conn.wbuf.queue
    {
      || (bodyRx.None? && callback.None? && conn.writing.Init? && ch.queue == [] && ch.wanting)
      || conn.wbuf.Blocked()
      || (bodyRx.Some? && UserWaits())
      || NothingToWrite()
    }

    /** `poll_write`. */
    method PollWrite() returns (r: Poll<Result<(), C.Error>>)
      requires Settled()
      modifies Repr
      ensures Valid() && (r.Pending? || r.value.Ok? ==> Settled()) && conn.recv == old(conn.recv)
      ensures Kept(old(ch.promises), ch.promises)
      ensures HoldsBody() && (trouble ==> TransportTrouble()) && (conn.quit ==> QuitCause())
      ensures r == Ready(Ok(())) ==> isClosing
      ensures r.Ready? && r.value.Err? ==> Trouble()
      ensures r.Pending? ==> !isClosing && WritingWaits()
    {
      hide C.Conn.Valid, IdsMatch, Channel.Accounted, RepliesOk, FailuresOk, Before, BodiesOk, SomeoneLeft, GoodRequest, GoodFrames, AllCarry, Streaming, LastEnded,
           BodyFailed, Dispatcher.QuitCause, Dispatcher.UserWaits;
      while true
        invariant Settled() && conn.recv == old(conn.recv) && Kept(old(ch.promises), ch.promises)
        decreases conn.reading.KeepAlive?, conn.writing.Init?, FramesLeft(), conn.writing.Body?, !conn.wbuf.CanBuffer()
      {
        if isClosing { return Ready(Ok(())); }
        if bodyRx.None? && conn.CanWriteHead() && callback.None? {
          var started := StartRequest();
          match started
          case Pending => return Pending;
          case Ready(going) => if !going { return Ready(Ok(())); }
        } else if !conn.wbuf.CanBuffer() {
          var flushed := PollFlush();
          match flushed
          case Pending => return Pending;
          case Ready(Err(e)) => return Ready(Err(e));
          case Ready(Ok(_)) =>
        } else {
          var turn := BodyWriteTurn();
          match turn
          case Pending => return Pending;
          case Ready(Err(e)) => return Ready(Err(e));
          case Ready(Ok(_)) =>
        }
      }
    }

    /** Writing is only ready for a head when nothing is being read. */
    lemma FlushChangesIdle()
      requires Valid()
      ensures conn.writing.Init? ==> !conn.reading.KeepAlive?
    {
      hide Channel.Accounted, RepliesOk, FailuresOk, Before, IdsMatch, GoodRequest, BodiesOk, SomeoneLeft, Dec.Decoder.Valid, WB.WriteBuf.Valid,
           Src.Source.Valid, Recorded, Wire, Consumed, GoodParser, SentOk, RecvOk;
    }

    method WantsReadAgain() returns (r: bool)
      requires Settled()
      modifies conn`notifyRead
      ensures Settled() && r == old(conn.notifyRead)
    {
      hide C.Conn.Valid, IdsMatch, Channel.Accounted, RepliesOk, FailuresOk, Before, BodiesOk, SomeoneLeft, GoodRequest, GoodFrames, AllCarry, Streaming, LastEnded;
      r := conn.WantsReadAgain();
    }

    /**
     `poll_loop`: at most sixteen rounds of reading, writing and flushing; fewer only if the
     connection did not ask for more reading and there is nothing to write, or nowhere to write it.
     */
    method PollLoop() returns (r: Poll<Result<(), C.Error>>, rounds: nat, readAgain: bool)
      requires Settled()
      modifies Repr
      ensures Kept(old(ch.promises), ch.promises)
      ensures Valid() && (r.Pending? || r.value.Ok? ==> Settled())
      ensures HoldsBody() && (trouble ==> TransportTrouble()) && (conn.quit ==> QuitCause())
      ensures r.Ready? && r.value.Err? ==> Over() && (callback == None || Trouble())
      ensures r.Pending? ==> rounds == 16
      ensures r == Ready(Ok(())) ==>
                && !readAgain
                && (isClosing || bodyRx.None? || !conn.writing.Body? || conn.wbuf.Blocked() || WritingWaits())
    {
      hide Dispatcher.Valid, Dispatcher.BodyPolled, BodyFailed;
      rounds, readAgain := 0, false;
      while rounds < 16
        invariant Settled() && Kept(old(ch.promises), ch.promises) && rounds <= 16
        decreases 16 - rounds
      {
        rounds := rounds + 1;
        var read := PollRead();
        if read.Ready? && read.value.Err? { return read, rounds, readAgain; }
        var write := PollWrite();
        if write.Ready? && write.value.Err? { return write, rounds, readAgain; }
        var flush := PollFlush();
        if flush.Ready? && flush.value.Err? { return flush, rounds, readAgain; }
        var writeAgain := !isClosing && bodyRx.Some? && conn.CanWriteBody() && (write.Ready? || flush.Ready?);
        readAgain := WantsReadAgain();
        if !writeAgain && !readAgain { return Ready(Ok(())), rounds, readAgain; }
        if !readAgain {
          write := PollWrite();
          if write.Ready? && write.value.Err? { return write, rounds, readAgain; }
          if write.Pending? { return Ready(Ok(())), rounds, readAgain; }
        }
      }
      r := Pending;
    }

    /** The error branch of `poll_catch`: tell the streaming body, then whoever waits for a reply. */
    method Catch(e: C.Error) returns (r: Result<Dispatched, C.Error>)
      requires Valid() && HoldsBody() && Justified() && (trouble ==> Trouble())
      modifies ch, this`callback, this`bodies, this`bodyTx, this`trouble
      ensures Valid() && !bodyTx && callback == None && Kept(old(ch.promises), ch.promises)
      ensures (trouble ==> Trouble()) && (old(QuitCause()) ==> QuitCause()) && (old(Over()) ==> Over())
      ensures r != Ok(Upgraded)
    {
      hide C.Conn.Valid, IdsMatch, Channel.Accounted, RepliesOk, FailuresOk, Before, BodiesOk, SomeoneLeft, GoodRequest, GoodFrames, AllCarry, Streaming, LastEnded;
      if bodyTx {
        BodyInHand();
        conn.BodyBegun();
        FailBody(conn.recv);
      }
      var told := RecvError();
      r := if told then Ok(Finished) else Err(e);
    }

    /** `is_done`: a client that cannot read may as well be done. */
    predicate IsDone()
      reads this, conn
    {
      isClosing || conn.reading.Closed?
    }

    /** A dispatcher that is done has told nobody anything it cannot justify. */
    lemma DoneForACause()
      requires Settled() && IsDone()
      ensures Justified()
    {
      hide Channel.Accounted, GoodRequest, AllCarry, Streaming, BodiesOk, SomeoneLeft, Enc.Complete, Enc.Partial, Recorded, Wire, Consumed, GoodParser,
           Dec.Decoder.Valid, WB.WriteBuf.Valid, Src.Source.Valid, HeadBroken, FailuresOk, Before, SentOk, ReuseOk, BodyFailed;
    }

    /** `poll_catch` over `poll_inner`. */
    method Poll(shouldShutdown: bool) returns (r: Poll<Result<Dispatched, C.Error>>, yielded: bool)
      requires Settled()
      modifies Repr
      ensures Valid() && (r.Pending? ==> Settled()) && Kept(old(ch.promises), ch.promises)
      ensures (bodyTx ==> conn.reading.Body?) && (trouble ==> Trouble()) && (r.Ready? ==> Justified())
      ensures (conn.quit ==> QuitCause()) && (r.Ready? ==> Over())
      ensures r.Pending? ==> yielded || shouldShutdown || !conn.reading.Closed?
      ensures r == Ready(Ok(Upgraded)) ==>
                && conn.src.dropped == 0 && conn.src.received == conn.src.taken + conn.src.buf
                && conn.recv != [] && conn.recv[|conn.recv| - 1].upgrade
    {
      hide C.Conn.Valid, IdsMatch, Channel.Accounted, RepliesOk, FailuresOk, Before, BodiesOk, SomeoneLeft, GoodRequest, GoodFrames, AllCarry, Streaming, LastEnded;
      var looped, _, _ := PollLoop();
      yielded := looped.Pending?;
      match looped
      case Pending => r := Pending;
      case Ready(Err(e)) =>
        var caught := Catch(e);
        r := Ready(caught);
      case Ready(Ok(_)) =>
      if !IsDone() { return Pending, yielded; }
      r := Finish(shouldShutdown);
    }

    /** The end of `poll_inner`: hand over an upgrade, else shut the transport down. */
    method Finish(shouldShutdown: bool) returns (r: Poll<Result<Dispatched, C.Error>>)
      requires Settled() && IsDone()
      modifies Repr
      ensures Valid() && (r.Pending? ==> Settled()) && Kept(old(ch.promises), ch.promises)
      ensures (bodyTx ==> conn.reading.Body?) && (trouble ==> Trouble()) && (r.Ready? ==> Justified())
      ensures (conn.quit ==> QuitCause()) && Over()
      ensures r == Ready(Ok(Upgraded)) ==>
                && conn.src.dropped == 0 && conn.src.received == conn.src.taken + conn.src.buf
                && conn.recv != [] && conn.recv[|conn.recv| - 1].upgrade
      ensures r.Pending? ==> shouldShutdown
      ensures old(conn.upgrade) && !conn.error ==> r == Ready(Ok(Upgraded))
    {
      hide C.Conn.Valid, IdsMatch, Channel.Accounted, RepliesOk, FailuresOk, Before, BodiesOk, SomeoneLeft, GoodRequest, GoodFrames,
           AllCarry, Streaming, LastEnded;
      DoneForACause();
      var upgrading := conn.TakeUpgrade();
      if upgrading && !conn.error { return Ready(Ok(Upgraded)); }
      if !upgrading && shouldShutdown {
        var pending: bool, failed: bool := *, *;
        if pending { return Pending; }
        if failed {
          var caught := Catch(C.Shutdown);
          return Ready(caught);
        }
      }
      if conn.error {
        var caught := Catch(C.IoFailed);
        return Ready(caught);
      }
      return Ready(Ok(Finished));
    }

    /**
     Dropping the dispatcher, at any point between polls: the body guard sends an error, the
     callback in flight is told, and every queued request is handed back.
     */
    method Drop()
      requires Valid() && (bodyTx ==> conn.reading.Body?)
      modifies this`bodies, this`bodyTx, this`callback, this`trouble, ch
      ensures Valid() && !bodyTx && callback == None
      ensures ch.canceled == old(ch.canceled) && (old(QuitCause()) ==> QuitCause()) && (old(Over()) ==> Over())
      ensures trouble == (old(trouble) || (old(callback).Some? && old(callback).value !in ch.canceled))
      ensures forall id :: 0 <= id < |ch.promises| ==> ch.promises[id].Resolved?
      ensures |ch.promises| == |old(ch.promises)| && Kept(old(ch.promises), ch.promises)
    {
      hide C.Conn.Valid, IdsMatch, Channel.Accounted, RepliesOk, FailuresOk, Before, BodiesOk, SomeoneLeft, GoodRequest, GoodFrames, AllCarry, Streaming, LastEnded;
      if bodyTx {
        BodyInHand();
        conn.BodyBegun();
        FailBody(conn.recv);
      }
      if callback.Some? { TellCallback(); }
      DropQueue();
    }

    method DropQueue()
      requires Valid() && callback == None
      modifies ch`promises, ch`queue, ch`closed
      ensures Valid() && |ch.promises| == |old(ch.promises)| && Kept(old(ch.promises), ch.promises)
      ensures forall id :: 0 <= id < |ch.promises| ==> ch.promises[id].Resolved?
    {
      hide C.Conn.Valid, IdsMatch, RepliesOk, FailuresOk, Before, BodiesOk, SomeoneLeft, GoodRequest, GoodFrames, AllCarry, Streaming, LastEnded;
      ghost var promises, queue := ch.promises, ch.queue;
      ch.DropReceiver({});
      QueueDropped(promises, ch.promises, queue, ids, |conn.recv|, callback);
      QueueReturned(promises, queue);
    }

    lemma QueueReturned(promises: seq<Promise>, queue: seq<Id>)
      requires FailuresOk(promises, ids, ch.canceled, trouble) && |ch.promises| == |promises| && ch.queue == []
      requires forall id :: 0 <= id < |promises| ==>
                 ch.promises[id] == if id in queue then Resolved(Failed(true)) else promises[id]
      ensures FailuresOk(ch.promises, ids, ch.canceled, trouble) && Before(ids, ch.queue)
    {
    }
  }
}
