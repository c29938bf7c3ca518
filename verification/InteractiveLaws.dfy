/** When a conversation on the channel is over, and when the channel fails, stated without the
    operations: from the flags of `converse`, the frames handed over, and the bytes read ahead. */
module InteractiveLaws {
  import opened Basics
  import opened FrameCodec
  import opened InteractiveChannel
  import opened InteractiveStream

  /** Finishing any index, with or without frames still queued, drops its queue and keeps the books. */
  lemma FinishLaw(c: Channel, index: UInt32)
    requires c.queuedBytes == TotalQueued(c.queued)
    ensures var d := Finish(c, index);
      && d.queuedBytes == TotalQueued(d.queued) && index !in d.queued
      && (forall i: UInt32 :: i != index ==> QueueOf(d.queued, i) == QueueOf(c.queued, i))
      && d.finished == c.finished + {index} && !d.ActiveOn(index)
      && (!c.ActiveOn(index) ==> d.active == c.active)
      && d.delivered == c.delivered && d.accepted == c.accepted && d.pending == c.pending && d.failed == c.failed
  {
    TotalWithout(c.queued, index);
  }

  // ---------------------------------------------------------------- when a conversation is over

  /** Since `before` an end of stream has been handed to the handler. */
  predicate EndDelivered(before: seq<Frame>, after: seq<Frame>) {
    exists k :: |before| <= k < |after| && after[k].kind == FRAME_EOF
  }

  /** From `c` to `d` the running conversation, if there is one, has seen `own` and `done`, and the
      peer's end if it was handed over. It is finished exactly if all three have happened. */
  predicate Moved(c: Channel, d: Channel, own: bool, done: bool) {
    && c.delivered <= d.delivered
    && if c.active.None? then d.active.None? && d.finished == c.finished && d.delivered == c.delivered
       else
         var t := c.active.value;
         var now := Talk(t.index, t.ownEof || own, t.peerEof || EndDelivered(c.delivered, d.delivered),
                         t.childDone || done);
         if now.ownEof && now.peerEof && now.childDone
         then d.active.None? && d.finished == c.finished + {t.index}
         else d.active == Some(now) && d.finished == c.finished
  }

  /** No conversation is running on with nothing left to wait for. */
  predicate Running(c: Channel) {
    c.active.Some? ==> !(c.active.value.ownEof && c.active.value.peerEof && c.active.value.childDone)
  }

  lemma MovedOn(c: Channel, d: Channel, e: Channel)
    requires Moved(c, d, false, false) && Moved(d, e, false, false)
    ensures Moved(c, e, false, false)
  {
    if EndDelivered(c.delivered, e.delivered) {
      var k :| |c.delivered| <= k < |e.delivered| && e.delivered[k].kind == FRAME_EOF;
      assert k < |d.delivered| ==> d.delivered[k] == e.delivered[k];
      assert EndDelivered(c.delivered, d.delivered) || EndDelivered(d.delivered, e.delivered);
    }
    if EndDelivered(c.delivered, d.delivered) {
      var k :| |c.delivered| <= k < |d.delivered| && d.delivered[k].kind == FRAME_EOF;
      assert e.delivered[k] == d.delivered[k];
    }
    if EndDelivered(d.delivered, e.delivered) {
      var k :| |d.delivered| <= k < |e.delivered| && e.delivered[k].kind == FRAME_EOF;
      assert |c.delivered| <= k;
    }
  }

  lemma DispatchMoves(c: Channel, f: Frame)
    requires Running(c) && !Dispatch(c, f).failed
    ensures Moved(c, Dispatch(c, f), false, false)
  {
    hide PayloadBytes;
    var d := Dispatch(c, f);
    if c.peerReady && f.kind != FRAME_READY && f.index !in c.finished && c.ActiveOn(f.index) {
      assert d.delivered == c.delivered + [f];
      assert d.delivered[|c.delivered|] == f;
      assert EndDelivered(c.delivered, d.delivered) <==> f.kind == FRAME_EOF;
    } else {
      assert d.delivered == c.delivered;
      assert !EndDelivered(c.delivered, c.delivered);
    }
  }

  lemma MovedKeepsRunning(c: Channel, d: Channel, own: bool, done: bool)
    requires Moved(c, d, own, done)
    ensures Running(d)
  {
  }

  lemma {:induction false} DrainMoves(c: Channel)
    requires Running(c) && !c.failed && !Drain(c).failed
    ensures Moved(c, Drain(c), false, false)
    decreases |c.pending|
  {
    hide Dispatch, ParseHead, Moved;
    match ParseHead(c.pending)
    case NeedMore => StaysMoved(c, c);
    case Malformed =>
    case Complete(f, rest) =>
      var b := c.(pending := rest);
      var d := Dispatch(b, f);
      if !d.failed {
        DispatchMoves(b, f);
        StaysMoved(c, b);
        DispatchLeavesPending(b, f);
        MovedKeepsRunning(b, d, false, false);
        DrainMoves(d);
        MovedOn(c, b, d);
        MovedOn(c, d, Drain(c));
      }
  }

  lemma StaysMoved(c: Channel, d: Channel)
    requires Running(c) && d.active == c.active && d.finished == c.finished && d.delivered == c.delivered
    ensures Moved(c, d, false, false)
  {
  }

  /** What every event does to the running conversation, short of a failure. Arriving bytes can only
      bring the peer's end; an index is finished exactly when its conversation has seen its own
      end, the peer's end and the child's exit, and no other index is ever finished. */
  lemma ConversationLaw(c: Channel, e: Event)
    requires Valid(c) && !c.failed && !Apply(c, e).failed && !e.Subscribed?
    ensures Moved(c, Apply(c, e), e.OwnStreamEnded?, e.ChildExited?)
  {
    hide PayloadBytes, Drain, Of, TotalQueued;
    assert Running(c);
    assert !EndDelivered(c.delivered, c.delivered);
    if e.Received? {
      DrainMoves(c.(pending := c.pending + e.chunk));
    }
  }

  /** A conversation that starts has seen nothing but what was read ahead for it. */
  lemma SubscribeLaw(c: Channel, index: UInt32)
    requires Valid(c)
    ensures var d, ahead := Subscribe(c, index), QueueOf(c.queued, index);
      && d.active == Some(Talk(index, false, exists k :: 0 <= k < |ahead| && ahead[k].kind == FRAME_EOF, false))
      && d.finished == c.finished && d.delivered == c.delivered + ahead && index !in d.queued
      && forall i: UInt32 :: i != index ==> QueueOf(d.queued, i) == QueueOf(c.queued, i)
  {
    hide Of, TotalQueued;
    var ahead := QueueOf(c.queued, index);
    SubscribeKeeps(c, index);
    ReplayTalk(c.(active := Some(Talk(index, false, false, false)), queued := c.queued - {index}), ahead);
  }

  lemma {:induction false} ReplayTalk(c: Channel, frames: seq<Frame>)
    requires c.active.Some? && !c.active.value.ownEof
    ensures var d, t := Replay(c, frames), c.active.value;
      && d.active == Some(t.(peerEof := t.peerEof || exists k :: 0 <= k < |frames| && frames[k].kind == FRAME_EOF))
      && d.finished == c.finished && d.queued == c.queued
      && d.queuedBytes == c.queuedBytes - PayloadBytes(frames)
    decreases |frames|
  {
    if |frames| > 0 {
      var rest := frames[1..];
      ReplayTalk(Deliver(c.(queuedBytes := c.queuedBytes - |frames[0].payload|), frames[0]), rest);
      assert forall k :: 1 <= k < |frames| ==> frames[k] == rest[k - 1];
      assert forall k :: 0 <= k < |rest| ==> frames[k + 1] == rest[k];
    }
  }

  // ---------------------------------------------------------------- when the channel fails

  /** A frame fails the channel exactly if it announces the peer a second time, comes before that,
      or is read ahead beyond the bound. */
  lemma DispatchFailsExactly(c: Channel, f: Frame)
    requires !c.failed
    ensures Dispatch(c, f).failed <==>
      if f.kind == FRAME_READY then c.peerReady
      else
        || !c.peerReady
        || (&& f.index !in c.finished && (c.active.Some? ==> c.active.value.index != f.index)
            && c.queuedBytes + |f.payload| > MAX_QUEUED_BYTES)
  {
  }

  predicate NoReady(frames: seq<Frame>) {
    forall k :: 0 <= k < |frames| ==> frames[k].kind != FRAME_READY
  }

  /** What is still to be dispatched announces the peer once, first, and fits in the queue. */
  predicate Room(c: Channel, rest: Bytes, todo: seq<Frame>) {
    && !c.failed && AllWellFormed(todo) && c.pending + rest == EncodeAll(todo)
    && (if c.peerReady then NoReady(todo) else |todo| == 0 || (todo[0].kind == FRAME_READY && NoReady(todo[1..])))
    && c.queuedBytes + PayloadBytes(todo) <= MAX_QUEUED_BYTES
  }

  lemma DispatchRoom(c: Channel, more: Bytes, rest: Bytes, todo: seq<Frame>)
    requires |todo| > 0 && Room(c, rest, todo) && more + rest == EncodeAll(todo[1..])
    ensures Room(Dispatch(c.(pending := more), todo[0]), rest, todo[1..])
  {
    hide EncodeAll;
    var f := todo[0];
    assert f.WellFormed() && PayloadBytes(todo) == |f.payload| + PayloadBytes(todo[1..]);
    DispatchFailsExactly(c.(pending := more), f);
    DispatchLeavesPending(c.(pending := more), f);
    SettleTakesNothing(c.(active := if c.active.Some? then Some(c.active.value.(peerEof := true)) else None));
    hide PayloadBytes;
    assert AllWellFormed(todo[1..]);
  }

  lemma SettleTakesNothing(c: Channel)
    ensures Settle(c).queuedBytes <= c.queuedBytes
    ensures Settle(c) == c || Settle(c) == Finish(c, c.active.value.index)
  {
  }

  lemma {:induction false} DrainRoom(c: Channel, rest: Bytes, todo: seq<Frame>) returns (todo': seq<Frame>)
    requires Room(c, rest, todo)
    ensures Room(Drain(c), rest, todo') && Quiet(Drain(c))
    decreases |c.pending|
  {
    hide Dispatch, ParseHead, PayloadBytes;
    todo' := todo;
    ParseStable(c.pending, rest);
    if |todo| == 0 {
      ParseEmpty();
    } else {
      ParseEncoded(todo[0], EncodeAll(todo[1..]));
      match ParseHead(c.pending)
      case NeedMore =>
      case Malformed =>
      case Complete(f, more) =>
        var d := Dispatch(c.(pending := more), f);
        DispatchLeavesPending(c.(pending := more), f);
        DispatchRoom(c, more, rest, todo);
        todo' := DrainRoom(d, rest, todo[1..]);
    }
  }

  lemma ApplyRoom(c: Channel, e: Event, rest: Bytes, todo: seq<Frame>) returns (todo': seq<Frame>)
    requires Valid(c) && Quiet(c) && !e.StreamFailed?
    requires Room(c, (if e.Received? then e.chunk else []) + rest, todo)
    ensures Room(Apply(c, e), rest, todo') && Quiet(Apply(c, e))
  {
    hide Of, Drain, Quiet, Valid, EncodeAll, AllWellFormed, PayloadBytes;
    todo' := todo;
    assert [] + rest == rest;
    match e
    case Received(chunk) =>
      assert c.pending + (chunk + rest) == c.pending + chunk + rest;
      todo' := DrainRoom(c.(pending := c.pending + chunk), rest, todo);
    case Subscribed(i) =>
      QuietSubscribed(c, i);
      SubscribeRoom(c, i);
    case OwnStreamEnded => SettledRoom(c);
    case ChildExited => SettledRoom(c);
  }

  /** Neither a subscription nor the end of a conversation needs more room. */
  predicate NoMoreRoom(c: Channel, d: Channel) {
    && d.queuedBytes <= c.queuedBytes && d.pending == c.pending && d.failed == c.failed && d.peerReady == c.peerReady
    && (Quiet(c) ==> Quiet(d))
  }

  lemma SubscribeRoom(c: Channel, i: UInt32)
    ensures NoMoreRoom(c, Subscribe(c, i))
  {
    hide ParseHead;
    var frames := QueueOf(c.queued, i);
    var d := c.(active := Some(Talk(i, false, false, false)), queued := c.queued - {i});
    ReplayTalk(d, frames);
    ReplayEof(d, frames);
  }

  lemma SettledRoom(c: Channel)
    ensures NoMoreRoom(c, OwnEof(c)) && NoMoreRoom(c, ChildExit(c))
  {
    hide ParseHead;
  }

  lemma {:induction false} RunRoom(c: Channel, events: seq<Event>, todo: seq<Frame>)
    requires Valid(c) && Quiet(c) && Room(c, Incoming(events), todo)
    requires forall k :: 0 <= k < |events| ==> !events[k].StreamFailed?
    ensures !Run(c, events).failed
    decreases |events|
  {
    hide Room, Quiet, Valid, Apply;
    if |events| == 0 {
      RoomLeft(c, [], todo);
    } else {
      var todo' := ApplyRoom(c, events[0], Incoming(events[1..]), todo);
      RunKeeps(c, [events[0]]);
      assert Run(c, [events[0]]) == Apply(c, events[0]);
      RunRoom(Apply(c, events[0]), events[1..], todo');
    }
  }

  lemma RoomLeft(c: Channel, rest: Bytes, todo: seq<Frame>)
    requires Room(c, rest, todo)
    ensures !c.failed
  {
  }

  /** A peer that keeps the protocol never fails the channel: if all its frames are well formed,
      it announces itself once and first, and their payload fits in the queue, then no chunking and
      no order of events does, short of a failing stream. */
  lemma KeptProtocolNeverFails(events: seq<Event>, frames: seq<Frame>)
    requires AllWellFormed(frames) && NoReady(frames) && PayloadBytes(frames) <= MAX_QUEUED_BYTES
    requires Incoming(events) == EncodeAll([READY] + frames)
    requires forall k :: 0 <= k < |events| ==> !events[k].StreamFailed?
    ensures !Run(FRESH_CHANNEL, events).failed
  {
    FreshIsQuiet(0);
    var wire := [READY] + frames;
    assert wire[1..] == frames;
    assert PayloadBytes(wire) == PayloadBytes(frames);
    assert FRESH_CHANNEL.pending + Incoming(events) == Incoming(events);
    RunRoom(FRESH_CHANNEL, events, wire);
  }
}
