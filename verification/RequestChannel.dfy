/**
 The request channel of dispatch.rs: a queue of requests, each with the promise of a reply.

 A promise is resolved by `Callback::send`, by dropping a `Callback`, or by dropping an
 `Envelope` still queued. `Accounted` says who owns each unresolved promise; resolving one
 needs it to be unresolved, so a promise can be resolved at most once, and an owner that
 gives up everything it holds leaves none unresolved.
 */
module RequestChannel {
  import opened Bytes

  type Id = nat

  /** A reply: the k-th final response of the connection, or an error that may hand the message back. */
  datatype Reply = Answered(response: nat) | Failed(messageReturned: bool)

  datatype Promise = Waiting | Resolved(reply: Reply)

  /** A promise once resolved keeps its reply. */
  predicate Kept(before: seq<Promise>, after: seq<Promise>) {
    |before| <= |after| && forall id :: 0 <= id < |before| && before[id].Resolved? ==> after[id] == before[id]
  }

  /** One promise, and no other, is resolved. */
  predicate Settles(before: seq<Promise>, after: seq<Promise>, id: Id, reply: Reply) {
    id < |before| && after == before[id := Resolved(reply)]
  }

  class Channel {
    /** HTTP/2 lifts the bound on messages sent ahead of the receiver (`Sender::unbound`). */
    const unbound: bool
    var promises: seq<Promise>
    var queue: seq<Id>
    var canceled: set<Id>
    var senderGone: bool
    var closed: bool
    var bufferedOnce: bool
    var wanting: bool

    /** Queued promises are unresolved and in the order they were made; when bound, at most one waits. */
    ghost predicate Valid()
      reads this
    {
      && (forall i :: 0 <= i < |queue| ==> queue[i] < |promises| && promises[queue[i]].Waiting?)
      && (forall i, j :: 0 <= i < j < |queue| ==> queue[i] < queue[j])
      && (!unbound ==> |queue| <= 1 && (queue != [] ==> bufferedOnce && !wanting))
    }

    /** Every unresolved promise is queued or held by one of `held`, never both. */
    ghost predicate Accounted(held: set<Id>)
      reads this
    {
      && Valid()
      && (forall id :: id in held ==> id < |promises| && promises[id].Waiting? && id !in queue)
      && (forall id :: 0 <= id < |promises| && promises[id].Waiting? ==> id in queue || id in held)
    }

    constructor (unbound: bool)
      ensures Accounted({}) && promises == [] && queue == [] && !closed && !senderGone && this.unbound == unbound
    {
      this.unbound := unbound;
      promises, queue, canceled := [], [], {};
      senderGone, closed, bufferedOnce, wanting := false, false, false, false;
    }

    /** `Sender::try_send`: one message ahead of the receiver at most; refused messages come straight back. */
    method TrySend(ghost held: set<Id>) returns (r: Option<Id>)
      requires Accounted(held)
      modifies this`promises, this`queue, this`bufferedOnce, this`wanting
      ensures Accounted(held)
      ensures r.None? ==> promises == old(promises) && queue == old(queue)
      ensures r.Some? ==> r.value == |old(promises)| && promises == old(promises) + [Waiting] && queue == old(queue) + [r.value]
      ensures r.Some? && !unbound ==> bufferedOnce && !wanting
      ensures r.Some? <==> (unbound || old(wanting) || !old(bufferedOnce)) && !closed && !senderGone
    {
      if senderGone { return None; }
      if !unbound {
        if wanting || !bufferedOnce {
          wanting, bufferedOnce := false, true;
        } else {
          return None;
        }
      }
      if closed { return None; }
      var id := |promises|;
      promises := promises + [Waiting];
      queue := queue + [id];
      r := Some(id);
    }

    /** The user side acting on its own: sending, giving up on replies, going away. */
    method Interfere(ghost held: set<Id>)
      requires Accounted(held)
      modifies this`promises, this`queue, this`bufferedOnce, this`wanting, this`canceled, this`senderGone
      ensures Accounted(held)
      ensures old(promises) <= promises && old(queue) <= queue && old(canceled) <= canceled && Kept(old(promises), promises)
      ensures forall id :: id in queue ==> id in old(queue) || |old(promises)| <= id
      ensures forall id :: |old(promises)| <= id < |promises| ==> promises[id].Waiting?
    {
      var more: int := *;
      while more > 0
        invariant Accounted(held) && old(promises) <= promises && old(queue) <= queue && canceled == old(canceled)
        invariant forall id :: id in queue ==> id in old(queue) || |old(promises)| <= id
        invariant forall id :: |old(promises)| <= id < |promises| ==> promises[id].Waiting?
        decreases more
      {
        var _ := TrySend(held);
        more := more - 1;
      }
      var gaveUp: set<Id> := *;
      var leaves: bool := *;
      canceled, senderGone := canceled + gaveUp, senderGone || leaves;
    }

    /** `Receiver::poll_recv`: ownership of the front promise passes to the caller. */
    method PollRecv(ghost held: set<Id>) returns (r: Poll<Option<Id>>)
      requires Accounted(held)
      modifies this`promises, this`queue, this`bufferedOnce, this`wanting, this`canceled, this`senderGone
      ensures old(promises) <= promises && old(canceled) <= canceled
      ensures forall id :: |old(promises)| <= id < |promises| ==> promises[id].Waiting?
      ensures Kept(old(promises), promises)
      ensures forall id :: id in queue ==> id in old(queue) || |old(promises)| <= id
      ensures old(queue) != [] ==> r == Ready(Some(old(queue)[0])) && old(queue)[1..] <= queue
      ensures r.Ready? && r.value.Some? && old(queue) == [] ==> |old(promises)| <= r.value.value
      ensures r.Ready? && r.value.Some? ==> forall id :: id in queue ==> r.value.value < id
      ensures r == Ready(None) ==> queue == [] && (senderGone || closed)
      ensures r.Pending? ==> queue == [] && wanting && !senderGone && !closed
      ensures r.Ready? && r.value.Some? ==> r.value.value !in held && Accounted(held + {r.value.value})
      ensures !(r.Ready? && r.value.Some?) ==> Accounted(held)
    {
      Interfere(held);
      if queue != [] {
        r := Ready(Some(queue[0]));
        queue := queue[1..];
      } else if senderGone || closed {
        r := Ready(None);
      } else {
        wanting := true;
        r := Pending;
      }
    }

    /** `Callback::send`, or the drop of a `Callback`: the owner resolves its promise. */
    method Resolve(id: Id, reply: Reply, ghost held: set<Id>)
      requires Accounted(held) && id in held
      modifies this`promises
      ensures Accounted(held - {id}) && id < |old(promises)| && promises == old(promises)[id := Resolved(reply)]
      ensures Kept(old(promises), promises)
    {
      promises := promises[id := Resolved(reply)];
    }

    /** `poll_canceled` / `is_canceled`: whether the user has dropped the promise's receiver. */
    method IsCanceled(id: Id) returns (r: bool)
      ensures r == (id in canceled)
    {
      r := id in canceled;
    }

    /** `Receiver::close` followed by `try_recv`: cancel one queued request, handing its message back. */
    method CloseAndCancelOne(ghost held: set<Id>) returns (canceledOne: Option<Id>)
      requires Accounted(held)
      modifies this`promises, this`queue, this`closed
      ensures Accounted(held) && closed && |promises| == |old(promises)| && Kept(old(promises), promises)
      ensures canceledOne == if old(queue) == [] then None else Some(old(queue)[0])
      ensures if old(queue) == [] then promises == old(promises) && queue == []
              else queue == old(queue)[1..] && Settles(old(promises), promises, old(queue)[0], Failed(true))
    {
      closed := true;
      if queue == [] { return None; }
      var id := queue[0];
      queue := queue[1..];
      promises := promises[id := Resolved(Failed(true))];
      canceledOne := Some(id);
    }

    /** Dropping the receiver drops every queued envelope, which hands each message back. */
    method DropReceiver(ghost held: set<Id>)
      requires Accounted(held)
      modifies this`promises, this`queue, this`closed
      ensures Accounted(held) && queue == [] && closed && Kept(old(promises), promises)
      ensures |promises| == |old(promises)|
      ensures forall id :: 0 <= id < |promises| ==>
                promises[id] == if id in old(queue) then Resolved(Failed(true)) else old(promises)[id]
    {
      closed := true;
      while queue != []
        invariant Accounted(held) && closed && |promises| == |old(promises)|
        invariant forall id :: id in queue ==> id in old(queue)
        invariant forall id :: 0 <= id < |promises| ==>
                    promises[id] == if id in old(queue) && id !in queue then Resolved(Failed(true)) else old(promises)[id]
        decreases |queue|
      {
        DropFront(held);
      }
    }

    /** The front envelope is dropped. */
    method DropFront(ghost held: set<Id>)
      requires Accounted(held) && queue != []
      modifies this`promises, this`queue
      ensures Accounted(held) && old(queue) == [old(queue)[0]] + queue && old(queue)[0] !in queue
      ensures Settles(old(promises), promises, old(queue)[0], Failed(true))
    {
      var id := queue[0];
      assert queue == [id] + queue[1..];
      queue := queue[1..];
      promises := promises[id := Resolved(Failed(true))];
    }
  }
}
