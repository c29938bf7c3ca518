/** `FrameChannel` and the receiving side of `converse`, as values: every operation on the
    channel's fields, and what all of them keep. */
module InteractiveChannel {
  import opened Basics
  import opened FrameCodec

  /** One conversation: the flags of `converse` for the index whose handler is subscribed. */
  datatype Talk = Talk(index: UInt32, ownEof: bool, peerEof: bool, childDone: bool) {
    predicate Over() { ownEof && peerEof && childDone }
  }

  /** The channel's fields, with two histories: `accepted` lists the frames of unfinished
      indices in order of arrival, `delivered` the frames handed to a handler. */
  datatype Channel = Channel(
    pending: Bytes,
    queued: map<UInt32, seq<Frame>>,
    queuedBytes: int,
    finished: set<UInt32>,
    active: Option<Talk>,
    peerReady: bool,
    failed: bool,
    accepted: seq<Frame>,
    delivered: seq<Frame>)
  {
    predicate ActiveOn(index: UInt32) { active.Some? && active.value.index == index }
  }

  const FRESH_CHANNEL := Channel([], map[], 0, {}, None, false, false, [], [])

  function PayloadBytes(frames: seq<Frame>): nat {
    if |frames| == 0 then 0 else |frames[0].payload| + PayloadBytes(frames[1..])
  }

  lemma {:induction false} PayloadBytesAppend(a: seq<Frame>, b: seq<Frame>)
    ensures PayloadBytes(a + b) == PayloadBytes(a) + PayloadBytes(b)
  {
    if |a| == 0 {
      assert a + b == b;
    } else {
      PayloadBytesAppend(a[1..], b);
      assert (a + b)[1..] == a[1..] + b;
    }
  }

  function QueueOf(queued: map<UInt32, seq<Frame>>, index: UInt32): seq<Frame> {
    if index in queued then queued[index] else []
  }

  // ---------------------------------------------------------------- the operations

  function Finish(c: Channel, index: UInt32): Channel {
    c.(active := if c.ActiveOn(index) then None else c.active,
       finished := c.finished + {index},
       queuedBytes := c.queuedBytes - PayloadBytes(QueueOf(c.queued, index)),
       queued := c.queued - {index})
  }

  /** `fail`: the first failure settles the running conversation, later ones do nothing. */
  function Fail(c: Channel): (r: Channel)
    ensures r.failed
  {
    if c.failed then c
    else if c.active.Some? then Finish(c, c.active.value.index).(failed := true)
    else c.(failed := true)
  }

  /** `check`: a conversation with both ends of stream and a gone child finishes its index. */
  function Settle(c: Channel): Channel {
    if c.active.Some? && c.active.value.Over() then Finish(c, c.active.value.index) else c
  }

  /** The handler that `converse` subscribes, given a frame. */
  function Deliver(c: Channel, f: Frame): Channel {
    var d := c.(delivered := c.delivered + [f]);
    if f.kind == FRAME_EOF && d.active.Some? then
      Settle(d.(active := Some(d.active.value.(peerEof := true))))
    else d
  }

  function Dispatch(c: Channel, f: Frame): Channel {
    if f.kind == FRAME_READY then
      if c.peerReady then Fail(c) else c.(peerReady := true)
    else if !c.peerReady then Fail(c)
    else if f.index in c.finished then c
    else if c.ActiveOn(f.index) then Deliver(c.(accepted := c.accepted + [f]), f)
    else
      var bytes := c.queuedBytes + |f.payload|;
      if bytes > MAX_QUEUED_BYTES then Fail(c.(queuedBytes := bytes))
      else
        c.(queuedBytes := bytes,
           queued := c.queued[f.index := QueueOf(c.queued, f.index) + [f]],
           accepted := c.accepted + [f])
  }

  function Drain(c: Channel): Channel
    decreases |c.pending|
  {
    match ParseHead(c.pending)
    case NeedMore => c
    case Malformed => Fail(c)
    case Complete(f, rest) =>
      var d := Dispatch(c.(pending := rest), f);
      if d.failed then d else assert d.pending == rest; Drain(d)
  }

  function Receive(c: Channel, chunk: Bytes): Channel {
    if c.failed then c else Drain(c.(pending := c.pending + chunk))
  }

  /** The loop of `subscribe`: hands the frames read ahead to the new handler. */
  function Replay(c: Channel, frames: seq<Frame>): Channel
    decreases |frames|
  {
    if |frames| == 0 then c
    else Replay(Deliver(c.(queuedBytes := c.queuedBytes - |frames[0].payload|), frames[0]), frames[1..])
  }

  /** `converse` subscribes a handler; nothing of the conversation is over yet. */
  function Subscribe(c: Channel, index: UInt32): Channel {
    var frames := QueueOf(c.queued, index);
    Replay(c.(active := Some(Talk(index, false, false, false)), queued := c.queued - {index}), frames)
  }

  function OwnEof(c: Channel): Channel {
    if c.active.Some? then Settle(c.(active := Some(c.active.value.(ownEof := true)))) else c
  }

  function ChildExit(c: Channel): Channel {
    if c.active.Some? then Settle(c.(active := Some(c.active.value.(childDone := true)))) else c
  }

  // ---------------------------------------------------------------- invariant

  ghost function SomeIndex(queued: map<UInt32, seq<Frame>>): (index: UInt32)
    requires |queued| > 0
    ensures index in queued
  {
    var index :| index in queued;
    index
  }

  /** The total payload length over all queued frames. */
  ghost function TotalQueued(queued: map<UInt32, seq<Frame>>): nat
    decreases |queued|
  {
    if |queued| == 0 then 0
    else
      var index := SomeIndex(queued);
      PayloadBytes(queued[index]) + TotalQueued(queued - {index})
  }

  lemma OneFewer(queued: map<UInt32, seq<Frame>>, index: UInt32)
    requires index in queued
    ensures |queued - {index}| == |queued| - 1
  {
    assert queued.Keys == (queued - {index}).Keys + {index};
  }

  lemma TotalUnfolds(queued: map<UInt32, seq<Frame>>)
    requires |queued| > 0
    ensures var first := SomeIndex(queued);
      TotalQueued(queued) == PayloadBytes(queued[first]) + TotalQueued(queued - {first})
  {
  }

  lemma {:induction false} TotalWithout(queued: map<UInt32, seq<Frame>>, index: UInt32)
    ensures TotalQueued(queued) == PayloadBytes(QueueOf(queued, index)) + TotalQueued(queued - {index})
    decreases |queued|
  {
    hide PayloadBytes, SomeIndex, TotalQueued;
    if index !in queued {
      assert queued - {index} == queued;
      NoPayload();
    } else {
      OneFewer(queued, index);
      TotalUnfolds(queued);
      var first := SomeIndex(queued);
      if first != index {
        OneFewer(queued, first);
        TotalWithout(queued - {first}, index);
        TotalWithout(queued - {index}, first);
        assert queued - {first} - {index} == queued - {index} - {first};
      }
    }
  }

  lemma NoPayload()
    ensures PayloadBytes([]) == 0
  {
  }

  lemma TotalUpdated(queued: map<UInt32, seq<Frame>>, index: UInt32, frames: seq<Frame>)
    ensures TotalQueued(queued[index := frames]) == PayloadBytes(frames) + TotalQueued(queued - {index})
  {
    TotalWithout(queued[index := frames], index);
    assert queued[index := frames] - {index} == queued - {index};
  }

  /** The frames of one index, in order. */
  function Of(frames: seq<Frame>, index: UInt32): seq<Frame> {
    if |frames| == 0 then []
    else
      var last := frames[|frames| - 1];
      Of(frames[..|frames| - 1], index) + if last.index == index then [last] else []
  }

  lemma OfAppend(frames: seq<Frame>, f: Frame, index: UInt32)
    ensures Of(frames + [f], index) == Of(frames, index) + if f.index == index then [f] else []
  {
    assert (frames + [f])[..|frames|] == frames;
  }

  /** Each accepted frame has been delivered once, in order, or waits in its queue. */
  ghost predicate ExactlyOnce(c: Channel) {
    forall index: UInt32 :: Of(c.accepted, index) == Of(c.delivered, index) + QueueOf(c.queued, index)
  }

  ghost predicate QueuesSound(c: Channel) {
    && (forall index :: index in c.finished ==> index !in c.queued)
    && (c.active.Some? ==> c.active.value.index !in c.queued)
    && (c.active.Some? ==> !c.active.value.Over())
    && (forall index :: index in c.queued ==> forall f :: f in c.queued[index] ==> f.index == index)
  }

  ghost predicate Valid(c: Channel) {
    && QueuesSound(c)
    && ExactlyOnce(c)
    && (!c.failed ==> c.queuedBytes == TotalQueued(c.queued) <= MAX_QUEUED_BYTES)
  }

  // ---------------------------------------------------------------- every operation keeps it

  lemma FinishKeeps(c: Channel, index: UInt32)
    requires c.failed || (c.queuedBytes == TotalQueued(c.queued) <= MAX_QUEUED_BYTES)
    requires ExactlyOnce(c) && QueueOf(c.queued, index) == []
    requires forall i :: i in c.finished ==> i !in c.queued
    requires forall i :: i in c.queued ==> forall f :: f in c.queued[i] ==> f.index == i
    requires c.ActiveOn(index) || (c.active.Some? ==> c.active.value.index !in c.queued && !c.active.value.Over())
    ensures Valid(Finish(c, index))
  {
    var d := Finish(c, index);
    TotalWithout(c.queued, index);
    NoPayload();
    forall i: UInt32
      ensures Of(d.accepted, i) == Of(d.delivered, i) + QueueOf(d.queued, i)
    {
      assert QueueOf(d.queued, i) == QueueOf(c.queued, i);
    }
  }

  lemma FailKeeps(c: Channel)
    requires QueuesSound(c) && ExactlyOnce(c)
    ensures Valid(Fail(c))
  {
    if !c.failed && c.active.Some? {
      FinishKeeps(c.(failed := true), c.active.value.index);
      assert Fail(c) == Finish(c.(failed := true), c.active.value.index);
    }
  }

  lemma SettleKeeps(c: Channel)
    requires ExactlyOnce(c)
    requires c.failed || c.queuedBytes == TotalQueued(c.queued) <= MAX_QUEUED_BYTES
    requires forall i :: i in c.finished ==> i !in c.queued
    requires forall i :: i in c.queued ==> forall f :: f in c.queued[i] ==> f.index == i
    requires c.active.Some? ==> c.active.value.index !in c.queued
    ensures Valid(Settle(c))
  {
    if c.active.Some? && c.active.value.Over() {
      FinishKeeps(c, c.active.value.index);
    }
  }

  lemma DeliverKeeps(c: Channel, f: Frame)
    requires Valid(c) && c.ActiveOn(f.index)
    ensures Valid(Deliver(c.(accepted := c.accepted + [f]), f))
  {
    hide TotalQueued, Of, PayloadBytes;
    var d := c.(accepted := c.accepted + [f], delivered := c.delivered + [f]);
    forall i: UInt32
      ensures Of(d.accepted, i) == Of(d.delivered, i) + QueueOf(d.queued, i)
    {
      OfAppend(c.accepted, f, i);
      OfAppend(c.delivered, f, i);
      assert Of(c.accepted, i) == Of(c.delivered, i) + QueueOf(c.queued, i);
    }
    SettleKeeps(d.(active := Some(d.active.value.(peerEof := true))));
  }

  lemma EnqueueKeeps(c: Channel, f: Frame)
    requires Valid(c) && !c.failed && f.index !in c.finished && !c.ActiveOn(f.index)
    requires c.queuedBytes + |f.payload| <= MAX_QUEUED_BYTES
    ensures Valid(c.(queuedBytes := c.queuedBytes + |f.payload|,
                     queued := c.queued[f.index := QueueOf(c.queued, f.index) + [f]],
                     accepted := c.accepted + [f]))
  {
    hide TotalQueued, Of, PayloadBytes;
    var frames := QueueOf(c.queued, f.index) + [f];
    var d := c.(queuedBytes := c.queuedBytes + |f.payload|,
                queued := c.queued[f.index := frames], accepted := c.accepted + [f]);
    TotalUpdated(c.queued, f.index, frames);
    TotalWithout(c.queued, f.index);
    PayloadBytesAppend(QueueOf(c.queued, f.index), [f]);
    OnePayload(f);
    forall i: UInt32
      ensures Of(d.accepted, i) == Of(d.delivered, i) + QueueOf(d.queued, i)
    {
      OfAppend(c.accepted, f, i);
      assert Of(c.accepted, i) == Of(c.delivered, i) + QueueOf(c.queued, i);
    }
  }

  lemma OnePayload(f: Frame)
    ensures PayloadBytes([f]) == |f.payload|
  {
  }

  lemma DispatchKeeps(c: Channel, f: Frame)
    requires Valid(c) && !c.failed
    ensures Valid(Dispatch(c, f))
  {
    if f.kind == FRAME_READY {
      FailKeeps(c);
    } else if !c.peerReady {
      FailKeeps(c);
    } else if f.index in c.finished {
    } else if c.ActiveOn(f.index) {
      DeliverKeeps(c, f);
    } else if c.queuedBytes + |f.payload| > MAX_QUEUED_BYTES {
      FailKeeps(c.(queuedBytes := c.queuedBytes + |f.payload|));
    } else {
      EnqueueKeeps(c, f);
    }
  }

  lemma ValidParts(c: Channel)
    requires Valid(c)
    ensures QueuesSound(c) && ExactlyOnce(c)
  {
  }

  lemma PendingIrrelevant(c: Channel, pending: Bytes)
    requires Valid(c)
    ensures Valid(c.(pending := pending))
  {
  }

  lemma DispatchLeavesPending(c: Channel, f: Frame)
    ensures Dispatch(c, f).pending == c.pending
  {
  }

  lemma {:induction false} DrainKeeps(c: Channel)
    requires Valid(c) && !c.failed
    ensures Valid(Drain(c))
    decreases |c.pending|
  {
    hide Valid, Dispatch, Fail, ParseHead;
    match ParseHead(c.pending)
    case NeedMore =>
    case Malformed => assert QueuesSound(c) && ExactlyOnce(c) by { ValidParts(c); } FailKeeps(c);
    case Complete(f, rest) =>
      PendingIrrelevant(c, rest);
      DispatchKeeps(c.(pending := rest), f);
      var d := Dispatch(c.(pending := rest), f);
      if !d.failed {
        DispatchLeavesPending(c.(pending := rest), f);
        DrainKeeps(d);
      }
  }

  lemma ReceiveKeeps(c: Channel, chunk: Bytes)
    requires Valid(c)
    ensures Valid(Receive(c, chunk))
  {
    if !c.failed {
      PendingIrrelevant(c, c.pending + chunk);
      DrainKeeps(c.(pending := c.pending + chunk));
    }
  }

  /** The state in the middle of a replay: `frames` are still to be handed over. */
  ghost predicate Replaying(c: Channel, frames: seq<Frame>, index: UInt32) {
    && c.ActiveOn(index) && !c.active.value.ownEof && !c.active.value.childDone
    && QueuesSound(c)
    && (forall f :: f in frames ==> f.index == index)
    && (forall i: UInt32 :: Of(c.accepted, i)
          == Of(c.delivered, i) + (if i == index then frames else QueueOf(c.queued, i)))
    && (!c.failed ==> c.queuedBytes == TotalQueued(c.queued) + PayloadBytes(frames) <= MAX_QUEUED_BYTES)
  }

  function HandOver(c: Channel, f: Frame): Channel
    requires c.active.Some?
  {
    c.(queuedBytes := c.queuedBytes - |f.payload|, delivered := c.delivered + [f],
       active := if f.kind == FRAME_EOF then Some(c.active.value.(peerEof := true)) else c.active)
  }

  lemma HandOverKeeps(c: Channel, frames: seq<Frame>, index: UInt32)
    requires Replaying(c, frames, index) && |frames| > 0
    ensures Deliver(c.(queuedBytes := c.queuedBytes - |frames[0].payload|), frames[0]) == HandOver(c, frames[0])
    ensures Replaying(HandOver(c, frames[0]), frames[1..], index)
  {
    hide Of, TotalQueued;
    var f, rest := frames[0], frames[1..];
    var d := HandOver(c, f);
    assert f in frames;
    assert frames == [f] + rest;
    forall i: UInt32
      ensures Of(d.accepted, i) == Of(d.delivered, i) + (if i == index then rest else QueueOf(d.queued, i))
    {
      OfAppend(c.delivered, f, i);
      assert Of(c.accepted, i) == Of(c.delivered, i) + (if i == index then frames else QueueOf(c.queued, i));
    }
  }

  lemma ReplayedAll(c: Channel, index: UInt32)
    requires Replaying(c, [], index)
    ensures Valid(c)
  {
    hide Of, TotalQueued;
    NoPayload();
    forall i: UInt32
      ensures Of(c.accepted, i) == Of(c.delivered, i) + QueueOf(c.queued, i)
    {
      assert Of(c.accepted, i) == Of(c.delivered, i) + (if i == index then [] else QueueOf(c.queued, i));
    }
  }

  lemma {:induction false} ReplayKeeps(c: Channel, frames: seq<Frame>, index: UInt32)
    requires Replaying(c, frames, index)
    ensures Valid(Replay(c, frames))
    ensures Replay(c, frames).delivered == c.delivered + frames
    ensures Replay(c, frames).pending == c.pending && Replay(c, frames).failed == c.failed
    ensures Replay(c, frames).ActiveOn(index) && !Replay(c, frames).active.value.ownEof
    decreases |frames|
  {
    assert c.ActiveOn(index) && !c.active.value.ownEof;
    hide Replaying, Valid, Deliver;
    if |frames| == 0 {
      ReplayedAll(c, index);
      assert c.delivered + frames == c.delivered;
    } else {
      var f, rest := frames[0], frames[1..];
      HandOverKeeps(c, frames, index);
      ReplayKeeps(HandOver(c, f), rest, index);
      assert c.delivered + [f] + rest == c.delivered + frames;
    }
  }

  lemma SubscribeKeeps(c: Channel, index: UInt32)
    requires Valid(c)
    ensures Valid(Subscribe(c, index))
    ensures Subscribe(c, index).delivered == c.delivered + QueueOf(c.queued, index)
    ensures Subscribe(c, index).pending == c.pending && Subscribe(c, index).failed == c.failed
    ensures Subscribe(c, index).ActiveOn(index) && !Subscribe(c, index).active.value.ownEof
  {
    hide TotalQueued, Of, PayloadBytes, Replay;
    TotalWithout(c.queued, index);
    ReplayKeeps(c.(active := Some(Talk(index, false, false, false)), queued := c.queued - {index}),
                QueueOf(c.queued, index), index);
  }

  lemma OwnEofKeeps(c: Channel)
    requires Valid(c)
    ensures Valid(OwnEof(c))
  {
    if c.active.Some? {
      SettleKeeps(c.(active := Some(c.active.value.(ownEof := true))));
    }
  }

  lemma ChildExitKeeps(c: Channel)
    requires Valid(c)
    ensures Valid(ChildExit(c))
  {
    if c.active.Some? {
      SettleKeeps(c.(active := Some(c.active.value.(childDone := true))));
    }
  }

  // ---------------------------------------------------------------- every run

  datatype Event =
    | Received(chunk: Bytes)
    | Subscribed(index: UInt32)
    | OwnStreamEnded
    | ChildExited
    | StreamFailed

  function Apply(c: Channel, e: Event): Channel {
    match e
    case Received(chunk) => Receive(c, chunk)
    case Subscribed(index) => Subscribe(c, index)
    case OwnStreamEnded => OwnEof(c)
    case ChildExited => ChildExit(c)
    case StreamFailed => Fail(c)
  }

  function Run(c: Channel, events: seq<Event>): Channel
    decreases |events|
  {
    if |events| == 0 then c else Run(Apply(c, events[0]), events[1..])
  }

  /** Whatever arrives, in whatever order: until the channel fails `queuedBytes` is the total
      of the queues and within the bound, no finished index has a queue, and the handler of
      each index has had exactly its accepted frames, in order, up to those still queued. */
  lemma {:induction false} RunKeeps(c: Channel, events: seq<Event>)
    requires Valid(c)
    ensures Valid(Run(c, events))
    decreases |events|
  {
    if |events| > 0 {
      match events[0] {
        case Received(chunk) => ReceiveKeeps(c, chunk);
        case Subscribed(index) => SubscribeKeeps(c, index);
        case OwnStreamEnded => OwnEofKeeps(c);
        case ChildExited => ChildExitKeeps(c);
        case StreamFailed => FailKeeps(c);
      }
      RunKeeps(Apply(c, events[0]), events[1..]);
    }
  }

  /** While a handler is subscribed, and after its index has finished, it has had everything. */
  lemma HandlerHasAll(events: seq<Event>, index: UInt32)
    ensures var c := Run(FRESH_CHANNEL, events);
      c.ActiveOn(index) || index in c.finished ==> Of(c.delivered, index) == Of(c.accepted, index)
  {
    RunKeeps(FRESH_CHANNEL, events);
    var c := Run(FRESH_CHANNEL, events);
    assert Of(c.accepted, index) == Of(c.delivered, index) + QueueOf(c.queued, index);
  }
}
