/**
 Ownership of reply promises in the HTTP/2 client: `ClientTask::poll` and `poll_pipe` of
 http2/client.rs, the spawned `SendWhen` and `PipeMap` futures, and their drops.

 Streams are numbered as `send_request` opens them and `owner` records for which request;
 cancellation channels are numbered as `poll_pipe` makes them and `cancels` records for which
 stream. Futures carry only the numbers they were given.
 */
module ClientTask {
  import opened Bytes
  import opened RequestChannel

  /** Answers of `SendRequest::poll_ready`. */
  datatype Readiness = NotYet | Open | Broken

  /** What a response future may resolve to when polled. */
  datatype ResponsePoll = NoResponse | GotResponse | ResponseError

  /** A request sent whose stream is still to open: its callback and the stream of its response. */
  datatype FutCtx = FutCtx(cb: Id, stream: nat)

  /** A spawned response future, and a spawned body future, with their ends of the cancellation channel. */
  datatype SendFut = SendFut(cb: Id, stream: nat, cancelTx: nat)
  datatype PipeFut = PipeFut(stream: nat, cancelRx: nat)

  /** Why a stream was given up without a response, its user still waiting. */
  datatype Loss = ErrorResponse | NeverOpened | Dropped

  /** What one look at the request queue came to. */
  datatype Taken = Nothing | SendersGone | Rejected(id: Id) | Started(ctx: FutCtx)

  /** A reply: the response of a stream opened for this very request, or a message handed back only if none was. */
  predicate Sane(p: Promise, id: Id, owner: seq<Id>) {
    match p
    case Waiting => true
    case Resolved(Answered(stream)) => stream < |owner| && owner[stream] == id
    case Resolved(Failed(messageReturned)) => messageReturned ==> id !in owner
  }

  predicate AllSane(promises: seq<Promise>, owner: seq<Id>) {
    forall id :: 0 <= id < |promises| ==> Sane(promises[id], id, owner)
  }

  /** The user of this request gave up before any answer. */
  predicate GaveUp(id: Id, promises: seq<Promise>, canceled: set<Id>) {
    id < |promises| && promises[id] == Resolved(Failed(false)) && id in canceled
  }

  /** Requests written get their streams in the order they were accepted; those still queued come later. */
  predicate InOrder(owner: seq<Id>, queue: seq<Id>) {
    && (forall i, j :: 0 <= i < j < |owner| ==> owner[i] < owner[j])
    && (forall i, j :: 0 <= i < |owner| && 0 <= j < |queue| ==> owner[i] < queue[j])
  }

  /** A request fails with its message lost only if its user gave up, it was refused, or its stream was lost. */
  predicate FailuresOk(promises: seq<Promise>, canceled: set<Id>, refused: set<Id>, owner: seq<Id>, lost: map<nat, Loss>) {
    && (forall id :: 0 <= id < |promises| && promises[id] == Resolved(Failed(false)) ==>
          id in canceled || id in refused || exists s :: s in lost && s < |owner| && owner[s] == id)
    && (forall s :: s in lost ==> s < |owner| && owner[s] < |promises| && promises[owner[s]] == Resolved(Failed(false)))
  }

  function Losing(lost: map<nat, Loss>, stream: nat, why: Option<Loss>): map<nat, Loss> {
    if why.Some? then lost[stream := why.value] else lost
  }

  /** Streams are reset only for requests given up on. */
  predicate ResetsOk(resets: set<nat>, owner: seq<Id>, promises: seq<Promise>, canceled: set<Id>) {
    forall k :: k in resets ==> k < |owner| && GaveUp(owner[k], promises, canceled)
  }

  /** Cancellation is signalled only on the channel of a stream whose request was given up on. */
  predicate AskedOk(asked: set<nat>, cancels: seq<nat>, owner: seq<Id>, promises: seq<Promise>, canceled: set<Id>) {
    forall c :: c in asked ==> c < |cancels| && cancels[c] < |owner| && GaveUp(owner[cancels[c]], promises, canceled)
  }

  class ClientTask {
    const ch: Channel
    var readies: seq<Readiness>
    var futCtx: Option<FutCtx>
    var tasks: set<SendFut>
    var pipes: set<PipeFut>

    /** The request of each stream opened, and the stream of each cancellation channel made. */
    var owner: seq<Id>
    var cancels: seq<nat>

    /** Channels on which cancellation was signalled, and streams reset because of it. */
    var asked: set<nat>
    var resets: set<nat>

    /** Requests refused before a stream was opened, and streams given up without a response, with the reason. */
    var refused: set<Id>
    var lost: map<nat, Loss>
    /** The last answer of `poll_ready`, and whether the connection task was seen to be gone. */
    var lastReady: Readiness
    var connGone: bool

    ghost const Repr: set<object> := {this, ch}

    ghost function Held(): set<Id>
      reads this
    {
      (set t | t in tasks :: t.cb) + if futCtx.Some? then {futCtx.value.cb} else {}
    }

    /** Every unresolved promise is queued, waiting to open, or owned by one response future. */
    ghost predicate Valid()
      reads Repr
    {
      ch.Accounted(Held()) && Futures() && Records()
    }

    /** Futures hold what was opened and made for them, and no two hold the same promise. */
    ghost predicate Futures()
      reads this
    {
      && (futCtx.Some? ==> Opened(futCtx.value.cb, futCtx.value.stream) && forall t :: t in tasks ==> t.cb != futCtx.value.cb)
      && (forall t :: t in tasks ==> Opened(t.cb, t.stream) && t.cancelTx < |cancels| && cancels[t.cancelTx] == t.stream)
      && (forall t, u :: t in tasks && u in tasks && t.cb == u.cb ==> t == u)
      && (forall p :: p in pipes ==> p.cancelRx < |cancels| && cancels[p.cancelRx] == p.stream)
    }

    predicate Opened(id: Id, stream: nat)
      reads this`owner
    {
      stream < |owner| && owner[stream] == id
    }

    ghost predicate Records()
      reads Repr
    {
      && InOrder(owner, ch.queue) && (forall k :: 0 <= k < |owner| ==> owner[k] < |ch.promises|)
      && FailuresOk(ch.promises, ch.canceled, refused, owner, lost)
      && AllSane(ch.promises, owner)
      && AskedOk(asked, cancels, owner, ch.promises, ch.canceled)
      && ResetsOk(resets, owner, ch.promises, ch.canceled)
    }

    constructor (ch: Channel, readies: seq<Readiness>)
      requires ch.Accounted({}) && ch.promises == []
      ensures Valid() && this.ch == ch && tasks == {} && futCtx == None
    {
      this.ch, this.readies := ch, readies;
      futCtx, tasks, pipes, owner, cancels, asked, resets := None, {}, {}, [], [], {}, {};
      refused, lost, lastReady, connGone := {}, map[], NotYet, false;
    }

    method PollH2Ready() returns (r: Readiness)
      requires Valid()
      modifies this`readies, this`lastReady
      ensures Valid() && lastReady == r
      ensures if old(readies) == [] then r == NotYet && readies == [] else old(readies) == [r] + readies
    {
      hide Channel.Accounted, AllSane, AskedOk, ResetsOk, InOrder, FailuresOk;
      r := NotYet;
      if readies != [] {
        r := readies[0];
        readies := readies[1..];
      }
      lastReady := r;
      assert Held() == old(Held());
    }

    /**
     `poll_pipe`: a new cancellation channel; the body may get a future of its own, and the
     promise moves into a spawned response future for the same stream.
     */
    method PollPipe(ctx: FutCtx, bodyPending: bool)
      requires Valid() && futCtx == Some(ctx)
      modifies this`futCtx, this`tasks, this`pipes, this`cancels
      ensures Valid() && futCtx == None
      ensures cancels == old(cancels) + [ctx.stream] && tasks == old(tasks) + {SendFut(ctx.cb, ctx.stream, |old(cancels)|)}
      ensures pipes == old(pipes) + if bodyPending then {PipeFut(ctx.stream, |old(cancels)|)} else {}
    {
      hide Channel.Accounted, AllSane, ResetsOk, InOrder, FailuresOk;
      var channel := |cancels|;
      cancels := cancels + [ctx.stream];
      futCtx := None;
      if bodyPending { pipes := pipes + {PipeFut(ctx.stream, channel)}; }
      tasks := tasks + {SendFut(ctx.cb, ctx.stream, channel)};
      assert Held() == old(Held());
    }

    /** What a resolved promise leaves of the records. */
    lemma ReplyRecorded(promises: seq<Promise>, id: Id, reply: Reply)
      requires id < |promises| && promises[id].Waiting? && id in owner
      requires reply == Failed(false) || (reply.Answered? && Opened(id, reply.response))
      requires AllSane(promises, owner) && AskedOk(asked, cancels, owner, promises, ch.canceled)
      requires ResetsOk(resets, owner, promises, ch.canceled)
      ensures var after := promises[id := Resolved(reply)];
              && AllSane(after, owner) && AskedOk(asked, cancels, owner, after, ch.canceled)
              && ResetsOk(resets, owner, after, ch.canceled)
    {
    }

    /** What a request failing leaves of the causes; one that was opened has lost its stream. */
    lemma FailureRecorded(promises: seq<Promise>, id: Id, stream: nat, why: Option<Loss>)
      requires FailuresOk(promises, ch.canceled, refused, owner, lost) && id < |promises| && promises[id].Waiting?
      requires if why.Some? then Opened(id, stream) else id in ch.canceled || id in refused
      ensures FailuresOk(promises[id := Resolved(Failed(false))], ch.canceled, refused, owner, Losing(lost, stream, why))
    {
      var after, more := promises[id := Resolved(Failed(false))], Losing(lost, stream, why);
      forall k | 0 <= k < |after| && after[k] == Resolved(Failed(false))
        ensures k in ch.canceled || k in refused || exists s :: s in more && s < |owner| && owner[s] == k
      {
        if k != id && k !in ch.canceled && k !in refused {
          var s :| s in lost && s < |owner| && owner[s] == k;
          assert s in more;
        } else if k == id && why.Some? {
          assert stream in more;
        }
      }
    }

    lemma AnswerRecorded(promises: seq<Promise>, id: Id, stream: nat)
      requires FailuresOk(promises, ch.canceled, refused, owner, lost) && id < |promises| && promises[id].Waiting?
      ensures FailuresOk(promises[id := Resolved(Answered(stream))], ch.canceled, refused, owner, lost)
    {
    }

    /** The stashed request fails: its stream cannot be waited for. */
    method FailStashed(why: Loss)
      requires Valid() && futCtx.Some? && (why == Dropped || (why == NeverOpened && lastReady == Broken))
      modifies this`futCtx, this`lost, ch`promises
      ensures lost == old(lost)[old(futCtx).value.stream := why]
      ensures Valid() && futCtx == None && old(futCtx).value.cb < |old(ch.promises)| && Kept(old(ch.promises), ch.promises)
      ensures ch.promises == old(ch.promises)[old(futCtx).value.cb := Resolved(Failed(false))]
    {
      hide Channel.Valid, AllSane, AskedOk, ResetsOk, InOrder, FailuresOk;
      var id := futCtx.value.cb;
      assert owner[futCtx.value.stream] == id && ch.promises[id].Waiting?;
      ReplyRecorded(ch.promises, id, Failed(false));
      FailureRecorded(ch.promises, id, futCtx.value.stream, Some(why));
      ghost var held := Held();
      ch.Resolve(id, Failed(false), held);
      lost := lost[futCtx.value.stream := why];
      futCtx := None;
      assert Held() == held - {id};
      hide Channel.Accounted;
    }

    /** A response future ends, resolving its promise by `send` or by drop. */
    method EndFuture(t: SendFut, reply: Reply, why: Option<Loss>)
      requires Valid() && t in tasks
      requires if reply == Failed(false) then why.Some? || t.cb in ch.canceled else reply == Answered(t.stream) && why.None?
      modifies this`tasks, this`lost, ch`promises
      ensures lost == if why.Some? then old(lost)[t.stream := why.value] else old(lost)
      ensures Valid() && tasks == old(tasks) - {t} && t.cb < |old(ch.promises)| && Kept(old(ch.promises), ch.promises)
      ensures ch.promises == old(ch.promises)[t.cb := Resolved(reply)]
    {
      hide Channel.Valid, AllSane, AskedOk, ResetsOk, InOrder, FailuresOk;
      assert owner[t.stream] == t.cb && t.cb in Held() && ch.promises[t.cb].Waiting?;
      ReplyRecorded(ch.promises, t.cb, reply);
      NoteLoss(t, reply, why);
      ghost var held := Held();
      ch.Resolve(t.cb, reply, held);
      tasks := tasks - {t};
      assert Held() == held - {t.cb};
      hide Channel.Accounted;
    }

    method NoteLoss(t: SendFut, reply: Reply, why: Option<Loss>)
      requires FailuresOk(ch.promises, ch.canceled, refused, owner, lost) && t.cb < |ch.promises| && ch.promises[t.cb].Waiting?
      requires Opened(t.cb, t.stream)
      requires if reply == Failed(false) then why.Some? || t.cb in ch.canceled else reply.Answered? && why.None?
      modifies this`lost
      ensures FailuresOk(ch.promises[t.cb := Resolved(reply)], ch.canceled, refused, owner, lost)
      ensures lost == if why.Some? then old(lost)[t.stream := why.value] else old(lost)
    {
      hide FailuresOk;
      if reply.Answered? {
        AnswerRecorded(ch.promises, t.cb, reply.response);
      } else {
        FailureRecorded(ch.promises, t.cb, t.stream, why);
        if why.Some? { lost := lost[t.stream := why.value]; }
      }
    }

    /** The user side acts; what this side owns and promises does not change. */
    method Interfere()
      requires Valid()
      modifies ch
      ensures Valid() && Kept(old(ch.promises), ch.promises)
    {
      hide Channel.Valid, AllSane, AskedOk, ResetsOk, InOrder, FailuresOk;
      ghost var promises, canceled, queue := ch.promises, ch.canceled, ch.queue;
      ch.Interfere(Held());
      MoreAccepted(promises, canceled);
      QueuedInOrder(|promises|, queue);
    }

    /** Take the next request that is still wanted and hand it to the h2 library, which opens a stream for it. */
    method TakeRequest() returns (r: Taken)
      requires Valid() && futCtx == None
      modifies Repr
      ensures Valid() && readies == old(readies) && tasks == old(tasks) && Kept(old(ch.promises), ch.promises)
      ensures futCtx == if r.Started? then Some(r.ctx) else None
      ensures r.Started? ==> r.ctx.stream == |old(owner)| && owner == old(owner) + [r.ctx.cb] && r.ctx.cb !in ch.canceled
      ensures !r.Started? ==> owner == old(owner)
      ensures old(ch.queue) != [] ==> (r.Started? && r.ctx.cb == old(ch.queue)[0]) || r == Rejected(old(ch.queue)[0])
      ensures r.Nothing? ==> ch.queue == [] && ch.wanting && !ch.senderGone && !ch.closed
      ensures r.SendersGone? ==> ch.queue == [] && (ch.senderGone || ch.closed)
      ensures r.Rejected? ==> r.id in ch.canceled || r.id in refused
      ensures lost == old(lost) && lastReady == old(lastReady) && connGone == old(connGone)
      ensures r.Rejected? ==> r.id < |ch.promises| && ch.promises[r.id] == Resolved(Failed(false)) && r.id !in owner
    {
      hide Channel.Valid, AllSane, AskedOk, ResetsOk, InOrder, FailuresOk;
      var got := PollQueue();
      if got.Pending? { return Nothing; }
      if got.value.None? { return SendersGone; }
      var id := got.value.value;
      var canceled := ch.IsCanceled(id);
      var turnedAway: bool := *;
      if canceled || turnedAway {
        RejectUnsent(id, turnedAway);
        return Rejected(id);
      }
      Start(id);
      r := Started(futCtx.value);
    }

    /** A request just taken from the queue: nobody else has its promise and no stream was opened for it. */
    ghost predicate InHand(id: Id)
      reads Repr
    {
      && futCtx == None && Futures() && Records()
      && ch.Accounted(Held() + {id}) && id !in Held() && id !in owner && id < |ch.promises|
      && InOrder(owner + [id], ch.queue)
    }

    method PollQueue() returns (got: Poll<Option<Id>>)
      requires Valid() && futCtx == None
      modifies ch
      ensures Kept(old(ch.promises), ch.promises)
      ensures if got.Ready? && got.value.Some? then InHand(got.value.value) else Valid()
      ensures old(ch.queue) != [] ==> got == Ready(Some(old(ch.queue)[0]))
      ensures got.Pending? ==> ch.queue == [] && ch.wanting && !ch.senderGone && !ch.closed
      ensures got == Ready(None) ==> ch.queue == [] && (ch.senderGone || ch.closed)
    {
      hide Channel.Valid, InOrder, FailuresOk, AllSane, AskedOk, ResetsOk;
      ghost var promises, canceled, queue := ch.promises, ch.canceled, ch.queue;
      got := ch.PollRecv(Held());
      MoreAccepted(promises, canceled);
      if got.Ready? && got.value.Some? {
        assert got.value.value in Held() + {got.value.value};
        NextInOrder(|promises|, queue, got.value.value);
      } else {
        QueuedInOrder(|promises|, queue);
      }
    }

    /** More requests, and more of them given up, leave the records as they are. */
    lemma MoreAccepted(promises: seq<Promise>, canceled: set<Id>)
      requires promises <= ch.promises && canceled <= ch.canceled
      requires forall id :: |promises| <= id < |ch.promises| ==> ch.promises[id].Waiting?
      requires AllSane(promises, owner) && AskedOk(asked, cancels, owner, promises, canceled)
      requires ResetsOk(resets, owner, promises, canceled) && FailuresOk(promises, canceled, refused, owner, lost)
      ensures AllSane(ch.promises, owner) && AskedOk(asked, cancels, owner, ch.promises, ch.canceled)
      ensures ResetsOk(resets, owner, ch.promises, ch.canceled) && FailuresOk(ch.promises, ch.canceled, refused, owner, lost)
    {
    }

    lemma QueuedInOrder(promises: nat, queue: seq<Id>)
      requires InOrder(owner, queue) && forall k :: 0 <= k < |owner| ==> owner[k] < promises
      requires forall id :: id in ch.queue ==> id in queue || promises <= id
      ensures InOrder(owner, ch.queue)
    {
      forall i, j | 0 <= i < |owner| && 0 <= j < |ch.queue| ensures owner[i] < ch.queue[j] {
        assert ch.queue[j] in ch.queue;
      }
    }

    lemma NextInOrder(promises: nat, queue: seq<Id>, id: Id)
      requires InOrder(owner, queue) && forall k :: 0 <= k < |owner| ==> owner[k] < promises
      requires forall k :: k in ch.queue ==> k in queue || promises <= k
      requires if queue != [] then id == queue[0] else promises <= id
      requires forall k :: k in ch.queue ==> id < k
      ensures InOrder(owner + [id], ch.queue) && InOrder(owner, ch.queue) && id !in owner
    {
      QueuedInOrder(promises, queue);
      forall i, j | 0 <= i < |owner + [id]| && 0 <= j < |ch.queue| ensures (owner + [id])[i] < ch.queue[j] {
        assert ch.queue[j] in ch.queue;
      }
    }

    method Start(id: Id)
      requires InHand(id)
      modifies this`owner, this`futCtx
      ensures Valid() && futCtx == Some(FutCtx(id, |old(owner)|)) && owner == old(owner) + [id]
    {
      hide Channel.Valid, InOrder;
      assert id in Held() + {id} && ch.promises[id].Waiting?;
      var stream := |owner|;
      owner := owner + [id];
      futCtx := Some(FutCtx(id, stream));
      assert Held() == old(Held()) + {id};
      hide Channel.Accounted;
    }

    /** A request given up on, an invalid CONNECT, or a refused `send_request`: an error without the message. */
    method RejectUnsent(id: Id, turnedAway: bool)
      requires InHand(id) && (turnedAway || id in ch.canceled)
      modifies ch`promises, this`refused
      ensures refused == old(refused) + if turnedAway then {id} else {}
      ensures Valid() && Kept(old(ch.promises), ch.promises) && id < |old(ch.promises)|
      ensures ch.promises == old(ch.promises)[id := Resolved(Failed(false))]
    {
      hide Channel.Valid;
      assert id in Held() + {id} && ch.promises[id].Waiting?;
      if turnedAway { refused := refused + {id}; }
      FailureRecorded(ch.promises, id, 0, None);
      ch.Resolve(id, Failed(false), Held() + {id});
      assert Held() + {id} - {id} == Held();
      hide Channel.Accounted;
    }

    /** `ConnEof`: whether the connection task has gone is its own affair. */
    method SeeConnection() returns (gone: bool)
      requires Valid()
      modifies this`connGone
      ensures Valid() && gone == connGone
    {
      hide Channel.Accounted, AllSane, AskedOk, ResetsOk, InOrder, FailuresOk;
      connGone := *;
      gone := connGone;
      assert Held() == old(Held());
    }

    /** `ClientTask::poll`. */
    method Poll() returns (finished: bool)
      requires Valid()
      modifies Repr
      ensures Valid() && old(tasks) <= tasks && old(owner) <= owner && Kept(old(ch.promises), ch.promises)
      ensures finished ==> lastReady == Broken || (ch.queue == [] && (ch.senderGone || ch.closed)) || connGone
      ensures !finished ==> lastReady == NotYet || (ch.queue == [] && ch.wanting)
    {
      hide ClientTask.Valid;
      while true
        invariant Valid() && old(tasks) <= tasks && old(owner) <= owner && Kept(old(ch.promises), ch.promises)
        decreases |readies|
      {
        var ready := PollH2Ready();
        if ready.NotYet? { return false; }
        if ready.Broken? { return true; }
        var bodyPending: bool := *;
        if futCtx.Some? {
          PollPipe(futCtx.value, bodyPending);
          continue;
        }
        var taken := TakeRequest();
        match taken {
          case Nothing =>
            finished := SeeConnection();
            return;
          case SendersGone => return true;
          case Rejected(_) =>
          case Started(ctx) =>
            ready := PollH2Ready();
            if ready.NotYet? { return false; }
            if ready.Broken? { FailStashed(NeverOpened); } else { PollPipe(ctx, bodyPending); }
        }
      }
    }

    /**
     `SendWhen::poll`: the response of its stream or an error resolves the promise; a promise
     nobody waits for any more ends the future and signals the body future to reset the stream.
     */
    method PollSendWhen(t: SendFut, response: ResponsePoll) returns (finished: bool)
      requires Valid() && t in tasks
      modifies this`tasks, this`asked, this`lost, ch`promises
      ensures lost == if response.ResponseError? then old(lost)[t.stream := ErrorResponse] else old(lost)
      ensures Valid() && Kept(old(ch.promises), ch.promises) && t.cb < |old(ch.promises)|
      ensures finished <==> !response.NoResponse? || t.cb in ch.canceled
      ensures tasks == if finished then old(tasks) - {t} else old(tasks)
      ensures asked == if response.NoResponse? && finished then old(asked) + {t.cancelTx} else old(asked)
      ensures ch.promises == if finished
                             then old(ch.promises)[t.cb := Resolved(if response.GotResponse? then Answered(t.stream) else Failed(false))]
                             else old(ch.promises)
    {
      hide Channel.Valid, AllSane, ResetsOk, InOrder, FailuresOk;
      assert t.cb in Held();
      match response
      case GotResponse =>
        EndFuture(t, Answered(t.stream), None);
        return true;
      case ResponseError =>
        EndFuture(t, Failed(false), Some(ErrorResponse));
        return true;
      case NoResponse =>
        var canceled := ch.IsCanceled(t.cb);
        if !canceled { return false; }
        EndFuture(t, Failed(false), None);
        asked := asked + {t.cancelTx};
        hide Channel.Accounted;
        return true;
    }

    /** `PipeMap::poll`: a cancellation signal resets its stream and ends the future; else the pipe is polled. */
    method PollPipeMap(p: PipeFut, pipeDone: bool) returns (finished: bool)
      requires Valid() && p in pipes
      modifies this`pipes, this`resets
      ensures Valid() && pipes == if finished then old(pipes) - {p} else old(pipes)
      ensures finished <==> p.cancelRx in asked || pipeDone
      ensures resets == if p.cancelRx in asked then old(resets) + {p.stream} else old(resets)
    {
      hide Channel.Accounted, AllSane, InOrder, FailuresOk;
      finished := pipeDone;
      if p.cancelRx in asked {
        resets := resets + {p.stream};
        finished := true;
      }
      if finished { pipes := pipes - {p}; }
      assert Held() == old(Held());
    }

    /** The executor drops a spawned future: its callback reports that the dispatch task is gone. */
    method DropSendWhen(t: SendFut)
      requires Valid() && t in tasks
      modifies this`tasks, this`lost, ch`promises
      ensures Valid() && tasks == old(tasks) - {t} && t.cb < |old(ch.promises)| && Kept(old(ch.promises), ch.promises)
      ensures ch.promises == old(ch.promises)[t.cb := Resolved(Failed(false))] && lost == old(lost)[t.stream := Dropped]
    {
      EndFuture(t, Failed(false), Some(Dropped));
    }

    /** Dropping the client task itself: the stashed request fails, and exactly the queued ones are handed back. */
    method Drop()
      requires Valid()
      modifies this`futCtx, this`lost, ch
      ensures Valid() && futCtx == None && ch.queue == [] && |ch.promises| == |old(ch.promises)|
      ensures Kept(old(ch.promises), ch.promises)
      ensures forall id :: 0 <= id < |ch.promises| ==>
                ch.promises[id] == if old(futCtx).Some? && old(futCtx).value.cb == id then Resolved(Failed(false))
                                   else if id in old(ch.queue) then Resolved(Failed(true))
                                   else old(ch.promises)[id]
    {
      hide Channel.Valid, AllSane, AskedOk, ResetsOk, InOrder, FailuresOk;
      if futCtx.Some? {
        assert futCtx.value.cb in Held();
        FailStashed(Dropped);
      }
      hide Channel.Accounted;
      DropQueue();
    }

    lemma OwnedNotQueued(queue: seq<Id>)
      requires InOrder(owner, queue)
      ensures forall k :: 0 <= k < |owner| ==> owner[k] !in queue
      ensures InOrder(owner, [])
    {
    }

    lemma QueueReturned(promises: seq<Promise>, queue: seq<Id>)
      requires FailuresOk(promises, ch.canceled, refused, owner, lost) && |ch.promises| == |promises|
      requires forall k :: 0 <= k < |owner| ==> owner[k] !in queue
      requires forall id :: 0 <= id < |promises| ==>
                 ch.promises[id] == if id in queue then Resolved(Failed(true)) else promises[id]
      ensures FailuresOk(ch.promises, ch.canceled, refused, owner, lost)
    {
    }

    method DropQueue()
      requires Valid() && futCtx == None
      modifies ch
      ensures Valid() && ch.queue == [] && |ch.promises| == |old(ch.promises)| && Kept(old(ch.promises), ch.promises)
      ensures forall id :: 0 <= id < |ch.promises| ==>
                ch.promises[id] == if id in old(ch.queue) then Resolved(Failed(true)) else old(ch.promises)[id]
    {
      hide InOrder, Channel.Valid;
      ghost var promises, queue := ch.promises, ch.queue;
      OwnedNotQueued(queue);
      ch.DropReceiver(Held());
      QueueReturned(promises, queue);
    }

    /** Dropping every spawned response future. */
    method DropFutures()
      requires Valid() && futCtx == None && ch.queue == []
      modifies this`tasks, this`lost, ch`promises
      ensures Valid() && tasks == {} && Kept(old(ch.promises), ch.promises)
    {
      hide ClientTask.Valid;
      while tasks != {}
        invariant Valid() && Kept(old(ch.promises), ch.promises)
        decreases |tasks|
      {
        var t :| t in tasks;
        DropSendWhen(t);
      }
    }

    /** Once the client task is gone and every spawned future has ended, no promise is left unresolved. */
    lemma AllResolved()
      requires Valid() && futCtx == None && ch.queue == [] && tasks == {}
      ensures forall id :: 0 <= id < |ch.promises| ==> ch.promises[id].Resolved?
      ensures AllSane(ch.promises, owner) && ResetsOk(resets, owner, ch.promises, ch.canceled)
      ensures InOrder(owner, []) && FailuresOk(ch.promises, ch.canceled, refused, owner, lost)
    {
      assert Held() == {};
    }
  }

  datatype Step =
    | PollTask
    | PollResponse(send: SendFut, response: ResponsePoll)
    | PollBody(pipe: PipeFut, pipeDone: bool)
    | DropResponse(send: SendFut)
    | UserActs

  method TakeStep(t: ClientTask, step: Step)
    requires t.Valid()
    modifies t.Repr
    ensures t.Valid() && Kept(old(t.ch.promises), t.ch.promises)
  {
    hide ClientTask.Valid;
    match step
    case PollTask => var _ := t.Poll();
    case PollResponse(send, response) => if send in t.tasks { var _ := t.PollSendWhen(send, response); }
    case PollBody(pipe, pipeDone) => if pipe in t.pipes { var _ := t.PollPipeMap(pipe, pipeDone); }
    case DropResponse(send) => if send in t.tasks { t.DropSendWhen(send); }
    case UserActs => t.Interfere();
  }

  /**
   Any schedule of the client task, its spawned futures and the user, then the end of the runtime:
   every accepted request has been resolved, and a promise once resolved kept its reply; it is
   answered only with the response of the one stream opened for it, handed back only if none
   was, and its stream reset only if its user gave up and no response had been delivered. Streams
   are opened in the order requests were accepted. A request whose message is lost was given up
   by its user, refused before a stream was opened, or lost its stream for a recorded reason.
   */
  method Run(t: ClientTask, steps: seq<Step>)
    requires t.Valid()
    modifies t.Repr
    ensures forall id :: 0 <= id < |t.ch.promises| ==> t.ch.promises[id].Resolved?
    ensures Kept(old(t.ch.promises), t.ch.promises)
    ensures AllSane(t.ch.promises, t.owner) && ResetsOk(t.resets, t.owner, t.ch.promises, t.ch.canceled)
    ensures InOrder(t.owner, []) && FailuresOk(t.ch.promises, t.ch.canceled, t.refused, t.owner, t.lost)
  {
    hide ClientTask.Valid, AllSane, ResetsOk, InOrder, FailuresOk;
    for k := 0 to |steps|
      invariant t.Valid() && Kept(old(t.ch.promises), t.ch.promises)
    {
      TakeStep(t, steps[k]);
    }
    t.Drop();
    t.DropFutures();
    t.AllResolved();
  }
}
