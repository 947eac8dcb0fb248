/**
 The channel a response body travels through (body/incoming.rs), shared by the connection
 task, which sends, and the user, who polls frames. Both ends are one value; the methods of
 the source are its transitions.
 */
module BodyChannel {
  import opened Bytes
  import Dec = Decoder

  datatype Item = Chunk(bytes: ByteSeq) | Failure

  /** The body of the `response`-th final response. */
  datatype Channel = Channel(
    response: nat,
    items: seq<Item>,
    trailers: Option<Dec.Headers>,
    senderAlive: bool,
    receiverAlive: bool)

  function Open(response: nat): Channel {
    Channel(response, [], None, true, true)
  }

  function SendData(c: Channel, bytes: ByteSeq): Channel {
    c.(items := c.items + [Chunk(bytes)])
  }

  function SendTrailers(c: Channel, h: Dec.Headers): Channel {
    c.(trailers := Some(h))
  }

  function SendFrame(c: Channel, frame: Dec.Frame): Channel {
    match frame
    case Data(bytes) => SendData(c, bytes)
    case Trailers(h) => SendTrailers(c, h)
  }

  /** `send_error` goes through a clone of the sender, so it is queued even if the buffer is full. */
  function SendError(c: Channel): Channel {
    c.(items := c.items + [Failure])
  }

  function DropSender(c: Channel): Channel {
    c.(senderAlive := false)
  }

  /** The payload of the data items, in order. */
  function DataOf(items: seq<Item>): ByteSeq {
    if items == [] then []
    else DataOf(items[..|items| - 1]) + if items[|items| - 1].Chunk? then items[|items| - 1].bytes else []
  }

  predicate NoFailure(items: seq<Item>) {
    forall i :: 0 <= i < |items| ==> items[i].Chunk?
  }

  lemma DataOfSnoc(items: seq<Item>, item: Item)
    ensures DataOf(items + [item]) == DataOf(items) + if item.Chunk? then item.bytes else []
  {
    assert (items + [item])[..|items|] == items;
  }

  // ---- the receiving side --------------------------------------------------

  datatype Seen = SawData(bytes: ByteSeq) | SawError | SawTrailers(headers: Dec.Headers) | SawEnd

  /** `Incoming::poll_frame` after `taken` items: data first, then trailers, then the end. */
  function PollFrame(c: Channel, taken: nat, tookTrailers: bool): Poll<Seen> {
    if taken < |c.items| then
      Ready(if c.items[taken].Chunk? then SawData(c.items[taken].bytes) else SawError)
    else if c.senderAlive then Pending
    else if c.trailers.Some? && !tookTrailers then Ready(SawTrailers(c.trailers.value))
    else Ready(SawEnd)
  }

  /** How far a receiver has got: the items it took, and whether it took the trailers. */
  datatype Receiver = Receiver(taken: nat, tookTrailers: bool)

  /** One more poll of a closed channel. */
  function Advanced(rx: Receiver, seen: Seen): Receiver {
    match seen
    case SawData(_) => rx.(taken := rx.taken + 1)
    case SawError => rx.(taken := rx.taken + 1)
    case SawTrailers(_) => rx.(tookTrailers := true)
    case SawEnd => rx
  }

  /** Where a receiver stands after `n` polls of a channel whose sender has gone. */
  function At(c: Channel, n: nat): Receiver
    requires !c.senderAlive
  {
    if n == 0 then Receiver(0, false)
    else var rx := At(c, n - 1); Advanced(rx, PollFrame(c, rx.taken, rx.tookTrailers).value)
  }

  /** What the `n`-th poll of it shows. */
  function Sees(c: Channel, n: nat): Seen
    requires !c.senderAlive
  {
    var rx := At(c, n);
    PollFrame(c, rx.taken, rx.tookTrailers).value
  }

  /** Polling shows every item in order, then the trailers if there are any, then the end for good. */
  lemma {:induction false} SeesInOrder(c: Channel, n: nat)
    requires !c.senderAlive
    ensures n < |c.items| ==> Sees(c, n) == if c.items[n].Chunk? then SawData(c.items[n].bytes) else SawError
    ensures n == |c.items| && c.trailers.Some? ==> Sees(c, n) == SawTrailers(c.trailers.value)
    ensures n > |c.items| || (n == |c.items| && c.trailers.None?) ==> Sees(c, n) == SawEnd
    ensures At(c, n) == Receiver(Min(n, |c.items|), n > |c.items| && c.trailers.Some?)
  {
    if n > 0 { SeesInOrder(c, n - 1); }
  }

  /** The data shown by the first `n` polls. */
  function Shown(c: Channel, n: nat): ByteSeq
    requires !c.senderAlive
  {
    if n == 0 then [] else Shown(c, n - 1) + if Sees(c, n - 1).SawData? then Sees(c, n - 1).bytes else []
  }

  lemma NothingShown(c: Channel)
    ensures DataOf(c.items[..0]) == []
  {
  }

  lemma {:induction false} ShownIs(c: Channel, n: nat)
    requires !c.senderAlive
    ensures Shown(c, n) == DataOf(c.items[..Min(n, |c.items|)])
  {
    hide Sees, At, DataOf;
    if n == 0 {
      NothingShown(c);
    } else {
      ShownIs(c, n - 1);
      SeesInOrder(c, n - 1);
      if n <= |c.items| {
        assert c.items[..n] == c.items[..n - 1] + [c.items[n - 1]];
        DataOfSnoc(c.items[..n - 1], c.items[n - 1]);
      }
    }
  }

  /**
   A receiver that polls to the end has been shown every item first: all the data, in order, an
   error if one was sent, and exactly the trailers that were sent.
   */
  lemma EndMeansAllSeen(c: Channel, n: nat)
    requires !c.senderAlive && Sees(c, n) == SawEnd
    ensures Shown(c, n) == DataOf(c.items)
    ensures (exists i: nat :: i < n && Sees(c, i).SawError?) <==> !NoFailure(c.items)
    ensures forall h :: (exists i: nat :: i < n && Sees(c, i) == SawTrailers(h)) <==> c.trailers == Some(h)
  {
    hide Sees, At, Shown;
    forall i: nat
      ensures i < |c.items| ==> Sees(c, i) == if c.items[i].Chunk? then SawData(c.items[i].bytes) else SawError
      ensures i > |c.items| ==> Sees(c, i) == SawEnd
    {
      SeesInOrder(c, i);
    }
    SeesInOrder(c, |c.items|);
    ShownIs(c, n);
    assert c.items[..|c.items|] == c.items;
  }
}
