/** The channel as a byte stream: how the bytes are cut into chunks does not matter, encoded
    frames come out again, and what one child writes is what the other child is offered. */
module InteractiveStream {
  import opened Basics
  import opened FrameCodec
  import opened InteractiveChannel

  // ---------------------------------------------------------------- chunking

  /** Equal, or both failed and equal but for the bytes left unread. */
  predicate Alike(c: Channel, d: Channel) {
    if c.failed then d.failed && c.(pending := []) == d.(pending := []) else c == d
  }

  lemma DispatchIgnoresPending(c: Channel, f: Frame, pending: Bytes)
    ensures Dispatch(c.(pending := pending), f) == Dispatch(c, f).(pending := pending)
    ensures Fail(c.(pending := pending)) == Fail(c).(pending := pending)
  {
    hide PayloadBytes, Finish, Settle;
    var d := c.(queuedBytes := c.queuedBytes + |f.payload|);
    FailIgnoresPending(c, pending);
    FailIgnoresPending(d, pending);
    assert d.(pending := pending) == c.(pending := pending).(queuedBytes := c.queuedBytes + |f.payload|);
    if c.ActiveOn(f.index) {
      var e := c.(accepted := c.accepted + [f], delivered := c.delivered + [f],
                  active := Some(c.active.value.(peerEof := true)));
      SettleIgnoresPending(e, pending);
    }
  }

  lemma FailIgnoresPending(c: Channel, pending: Bytes)
    ensures Fail(c.(pending := pending)) == Fail(c).(pending := pending)
  {
  }

  lemma SettleIgnoresPending(c: Channel, pending: Bytes)
    ensures Settle(c.(pending := pending)) == Settle(c).(pending := pending)
  {
  }

  lemma {:induction false} DrainAppend(c: Channel, more: Bytes)
    requires !c.failed
    ensures var d := Drain(c);
      Alike(if d.failed then d else Drain(d.(pending := d.pending + more)),
            Drain(c.(pending := c.pending + more)))
    decreases |c.pending|
  {
    hide Dispatch, Fail, ParseHead;
    var longer := c.(pending := c.pending + more);
    ParseStable(c.pending, more);
    match ParseHead(c.pending)
    case NeedMore =>
    case Malformed =>
      DispatchIgnoresPending(c, Frame(0, 0, []), longer.pending);
    case Complete(f, rest) =>
      var d := Dispatch(c.(pending := rest), f);
      DispatchLeavesPending(c.(pending := rest), f);
      DispatchIgnoresPending(c.(pending := rest), f, rest + more);
      assert longer.(pending := rest + more) == c.(pending := rest).(pending := rest + more);
      assert Dispatch(longer.(pending := rest + more), f) == d.(pending := rest + more);
      if !d.failed {
        DrainAppend(d, more);
      }
  }

  /** No whole frame is waiting in `pending`. */
  predicate Quiet(c: Channel) {
    c.failed || ParseHead(c.pending).NeedMore?
  }

  lemma {:induction false} DrainIsQuiet(c: Channel)
    requires !c.failed
    ensures Quiet(Drain(c))
    decreases |c.pending|
  {
    match ParseHead(c.pending)
    case NeedMore =>
    case Malformed =>
    case Complete(f, rest) =>
      var d := Dispatch(c.(pending := rest), f);
      DispatchLeavesPending(c.(pending := rest), f);
      if !d.failed {
        DrainIsQuiet(d);
      }
  }

  function ReceiveAll(c: Channel, chunks: seq<Bytes>): Channel
    decreases |chunks|
  {
    if |chunks| == 0 then c else ReceiveAll(Receive(c, chunks[0]), chunks[1..])
  }

  lemma ReceiveSplit(c: Channel, a: Bytes, b: Bytes)
    ensures Alike(Receive(Receive(c, a), b), Receive(c, a + b))
  {
    if !c.failed {
      DrainAppend(c.(pending := c.pending + a), b);
      assert c.pending + a + b == c.pending + (a + b);
    }
  }

  /** Any bytes, well-formed or not, have one effect however they are cut into chunks. */
  lemma {:induction false} ChunkingIrrelevant(c: Channel, chunks: seq<Bytes>)
    requires Quiet(c)
    ensures Alike(ReceiveAll(c, chunks), Receive(c, Flatten(chunks)))
    decreases |chunks|
  {
    if |chunks| == 0 {
      assert c.pending + [] == c.pending;
    } else {
      var d := Receive(c, chunks[0]);
      if !c.failed {
        DrainIsQuiet(c.(pending := c.pending + chunks[0]));
      }
      ChunkingIrrelevant(d, chunks[1..]);
      ReceiveSplit(c, chunks[0], Flatten(chunks[1..]));
    }
  }

  // ---------------------------------------------------------------- round trip

  function DispatchAll(c: Channel, frames: seq<Frame>): Channel
    decreases |frames|
  {
    if |frames| == 0 || c.failed then c else DispatchAll(Dispatch(c, frames[0]), frames[1..])
  }

  lemma {:induction false} DrainEncoded(c: Channel, frames: seq<Frame>)
    requires !c.failed && AllWellFormed(frames) && c.pending == EncodeAll(frames)
    ensures Alike(Drain(c), DispatchAll(c.(pending := []), frames))
    decreases |frames|
  {
    hide Dispatch, ParseHead;
    if |frames| == 0 {
      ParseEmpty();
    } else {
      ParseEncoded(frames[0], EncodeAll(frames[1..]));
      var rest := c.(pending := EncodeAll(frames[1..]));
      DispatchIgnoresPending(c.(pending := []), frames[0], rest.pending);
      assert c.(pending := []).(pending := rest.pending) == rest;
      var d := Dispatch(rest, frames[0]);
      assert d.(pending := []) == Dispatch(c.(pending := []), frames[0]) by {
        DispatchLeavesPending(c.(pending := []), frames[0]);
      }
      if !d.failed {
        DispatchLeavesPending(rest, frames[0]);
        DrainEncoded(d, frames[1..]);
      }
    }
  }

  lemma ParseEmpty()
    ensures ParseHead([]).NeedMore?
  {
  }

  /** For every list of frames and every way to cut their encoding into chunks, exactly those
      frames are dispatched, in order. */
  lemma FramesComeOut(c: Channel, frames: seq<Frame>, chunks: seq<Bytes>)
    requires !c.failed && c.pending == [] && AllWellFormed(frames)
    requires Flatten(chunks) == EncodeAll(frames)
    ensures Alike(ReceiveAll(c, chunks), DispatchAll(c, frames))
  {
    ParseEmpty();
    ChunkingIrrelevant(c, chunks);
    assert c.pending + Flatten(chunks) == EncodeAll(frames);
    DrainEncoded(c.(pending := EncodeAll(frames)), frames);
    assert c.(pending := EncodeAll(frames)).(pending := []) == c;
  }

  // ---------------------------------------------------------------- the pump

  /** `converse` cuts each chunk of the child's output into pieces of at most 64 KiB. */
  function Pieces(index: UInt32, chunk: Bytes): (r: seq<Frame>)
    ensures AllWellFormed(r)
    ensures forall k :: 0 <= k < |r| ==> r[k].kind == FRAME_DATA && r[k].index == index && |r[k].payload| > 0
    ensures forall k :: 0 <= k < |r| - 1 ==> |r[k].payload| == MAX_PAYLOAD_BYTES
    decreases |chunk|
  {
    if |chunk| == 0 then []
    else if |chunk| <= MAX_PAYLOAD_BYTES then [Frame(FRAME_DATA, index, chunk)]
    else [Frame(FRAME_DATA, index, chunk[..MAX_PAYLOAD_BYTES])] + Pieces(index, chunk[MAX_PAYLOAD_BYTES..])
  }

  /** The payload of the data frames: what the handler writes to the child's stdin. */
  function Offered(frames: seq<Frame>): Bytes {
    if |frames| == 0 then []
    else (if frames[0].kind == FRAME_DATA then frames[0].payload else []) + Offered(frames[1..])
  }

  lemma {:induction false} OfferedAppend(a: seq<Frame>, b: seq<Frame>)
    ensures Offered(a + b) == Offered(a) + Offered(b)
  {
    if |a| == 0 {
      assert a + b == b;
    } else {
      OfferedAppend(a[1..], b);
      var first := if a[0].kind == FRAME_DATA then a[0].payload else [];
      assert (a + b)[0] == a[0] && (a + b)[1..] == a[1..] + b;
      assert Offered(a + b) == first + Offered(a[1..] + b) && Offered(a) == first + Offered(a[1..]);
      hide Offered;
      ConcatAssociates(first, Offered(a[1..]), Offered(b));
    }
  }

  lemma {:induction false} PiecesOffer(index: UInt32, chunk: Bytes)
    ensures Offered(Pieces(index, chunk)) == chunk
    decreases |chunk|
  {
    if |chunk| > MAX_PAYLOAD_BYTES {
      var first := Frame(FRAME_DATA, index, chunk[..MAX_PAYLOAD_BYTES]);
      PiecesOffer(index, chunk[MAX_PAYLOAD_BYTES..]);
      assert Pieces(index, chunk)[1..] == Pieces(index, chunk[MAX_PAYLOAD_BYTES..]);
      assert chunk == chunk[..MAX_PAYLOAD_BYTES] + chunk[MAX_PAYLOAD_BYTES..];
    }
  }

  /** Everything one side sends about an index: its child's output, then end of stream. */
  function TalkFrames(index: UInt32, writes: seq<Bytes>): (r: seq<Frame>)
    ensures AllWellFormed(r) && |r| > 0
    ensures forall k :: 0 <= k < |r| ==>
      r[k].index == index && r[k].kind == if k == |r| - 1 then FRAME_EOF else FRAME_DATA
  {
    if |writes| == 0 then [Frame(FRAME_EOF, index, [])]
    else Pieces(index, writes[0]) + TalkFrames(index, writes[1..])
  }

  lemma {:induction false} TalkOffers(index: UInt32, writes: seq<Bytes>)
    ensures Offered(TalkFrames(index, writes)) == Flatten(writes)
    decreases |writes|
  {
    if |writes| > 0 {
      PiecesOffer(index, writes[0]);
      TalkOffers(index, writes[1..]);
      OfferedAppend(Pieces(index, writes[0]), TalkFrames(index, writes[1..]));
    }
  }

  /** What the sending side writes to the wire: the pieces of each chunk, then end of stream. */
  function Sent(index: UInt32, writes: seq<Bytes>): Bytes {
    if |writes| == 0 then EncodeFrame(Frame(FRAME_EOF, index, []))
    else EncodeAll(Pieces(index, writes[0])) + Sent(index, writes[1..])
  }

  lemma {:induction false} SentIsTalk(index: UInt32, writes: seq<Bytes>)
    ensures Sent(index, writes) == EncodeAll(TalkFrames(index, writes))
    decreases |writes|
  {
    if |writes| == 0 {
      var eof := Frame(FRAME_EOF, index, []);
      assert [eof][1..] == [];
      assert EncodeFrame(eof) + [] == EncodeFrame(eof);
    } else {
      SentIsTalk(index, writes[1..]);
      EncodeAllAppend(Pieces(index, writes[0]), TalkFrames(index, writes[1..]));
    }
  }

  /** The bytes that a run of events brings in. */
  function Incoming(events: seq<Event>): Bytes {
    if |events| == 0 then []
    else (if events[0].Received? then events[0].chunk else []) + Incoming(events[1..])
  }

  /** What a wire says to one index: its frames other than the ready frame, in order. */
  function Told(wire: seq<Frame>, index: UInt32): (r: seq<Frame>) {
    if |wire| == 0 then []
    else (if wire[0].kind != FRAME_READY && wire[0].index == index then [wire[0]] else []) + Told(wire[1..], index)
  }

  /** In the middle of a talk on a wire that may carry others: the frames `todo` are still to be
      dispatched, `rest` has not arrived yet, and what `todo` tells `index` completes `frames`. */
  predicate Midway(c: Channel, rest: Bytes, todo: seq<Frame>, index: UInt32, frames: seq<Frame>) {
    && !c.failed && (c.peerReady || (|todo| > 0 && todo[0].kind == FRAME_READY))
    && AllWellFormed(todo) && c.pending + rest == EncodeAll(todo)
    && Of(c.accepted, index) + Told(todo, index) == frames
    && (Told(todo, index) != [] ==> index !in c.finished && (c.ActiveOn(index) ==> !c.active.value.peerEof))
  }

  predicate OneTalk(frames: seq<Frame>, index: UInt32) {
    forall k :: 0 <= k < |frames| ==>
      frames[k].index == index && frames[k].kind == if k == |frames| - 1 then FRAME_EOF else FRAME_DATA
  }

  lemma DispatchMidway(c: Channel, rest: Bytes, todo: seq<Frame>, index: UInt32, frames: seq<Frame>)
    requires Midway(c, rest, todo, index, frames) && OneTalk(frames, index) && |todo| > 0
    ensures var d := Dispatch(c, todo[0]);
      d.failed || (d.peerReady && Of(d.accepted, index) + Told(todo[1..], index) == frames
        && (Told(todo[1..], index) != [] ==>
              index !in d.finished && (d.ActiveOn(index) ==> !d.active.value.peerEof)))
  {
    hide Dispatch, Of;
    var f, done, more := todo[0], Of(c.accepted, index), Told(todo[1..], index);
    DispatchTells(c, f, index);
    if f.kind != FRAME_READY && f.index == index {
      assert Told(todo, index) == [f] + more;
      hide Told;
      assert f == frames[|done|];
      assert done + [f] + more == done + ([f] + more);
    } else {
      assert Told(todo, index) == more;
      hide Told;
      assert done + [] == done;
    }
  }

  /** What dispatching one frame means for one index. */
  lemma DispatchTells(c: Channel, f: Frame, index: UInt32)
    requires !c.failed && (c.peerReady || f.kind == FRAME_READY)
    ensures var d := Dispatch(c, f);
      d.failed
      || (&& d.peerReady
          && Of(d.accepted, index) == Of(c.accepted, index)
               + (if f.kind != FRAME_READY && f.index == index && index !in c.finished then [f] else [])
          && (f.kind != FRAME_EOF || f.index != index ==>
                && (index in d.finished ==> index in c.finished)
                && (d.ActiveOn(index) ==> c.ActiveOn(index) && d.active == c.active)))
  {
    OfAppend(c.accepted, f, index);
    hide Of;
    assert Of(c.accepted, index) + [] == Of(c.accepted, index);
  }

  lemma {:induction false} DrainMidway(c: Channel, rest: Bytes, todo: seq<Frame>, index: UInt32, frames: seq<Frame>)
    returns (todo': seq<Frame>)
    requires Midway(c, rest, todo, index, frames) && OneTalk(frames, index)
    ensures Drain(c).failed || (Midway(Drain(c), rest, todo', index, frames) && Quiet(Drain(c)))
    decreases |c.pending|
  {
    hide Dispatch, ParseHead, Of;
    todo' := todo;
    ParseStable(c.pending, rest);
    if |todo| == 0 {
      ParseEmpty();
    } else {
      ParseEncoded(todo[0], EncodeAll(todo[1..]));
      match ParseHead(c.pending)
      case NeedMore =>
      case Malformed =>
      case Complete(f, more) =>
        var d := Dispatch(c.(pending := more), f);
        DispatchLeavesPending(c.(pending := more), f);
        DispatchMidwayAt(c, more, rest, todo, index, frames);
        if !d.failed {
          todo' := DrainMidway(d, rest, todo[1..], index, frames);
        }
    }
  }

  lemma DispatchMidwayAt(c: Channel, more: Bytes, rest: Bytes, todo: seq<Frame>, index: UInt32, frames: seq<Frame>)
    requires Midway(c, rest, todo, index, frames) && OneTalk(frames, index) && |todo| > 0
    requires more + rest == EncodeAll(todo[1..])
    ensures var d := Dispatch(c.(pending := more), todo[0]);
      d.failed || Midway(d, rest, todo[1..], index, frames)
  {
    DispatchMidway(c, rest, todo, index, frames);
    DispatchIgnoresPending(c, todo[0], more);
    assert AllWellFormed(todo[1..]);
  }

  lemma {:induction false} ReplayEof(c: Channel, frames: seq<Frame>)
    requires c.active.Some? && !c.active.value.ownEof
    ensures var d := Replay(c, frames);
      && d.active.Some? && d.active.value.index == c.active.value.index
      && (d.active.value.peerEof ==>
            c.active.value.peerEof || exists k :: 0 <= k < |frames| && frames[k].kind == FRAME_EOF)
      && d.(active := c.active, queuedBytes := c.queuedBytes, delivered := c.delivered) == c
    decreases |frames|
  {
    if |frames| > 0 {
      var d := Deliver(c.(queuedBytes := c.queuedBytes - |frames[0].payload|), frames[0]);
      ReplayEof(d, frames[1..]);
      if frames[0].kind == FRAME_EOF {
        assert frames[0].kind == FRAME_EOF;
      } else if exists k :: 0 <= k < |frames[1..]| && frames[1..][k].kind == FRAME_EOF {
        var k :| 0 <= k < |frames[1..]| && frames[1..][k].kind == FRAME_EOF;
        assert frames[k + 1].kind == FRAME_EOF;
      }
    }
  }

  lemma SubscribeMidway(c: Channel, i: UInt32, rest: Bytes, todo: seq<Frame>, index: UInt32, frames: seq<Frame>)
    requires Valid(c) && Midway(c, rest, todo, index, frames) && OneTalk(frames, index)
    ensures Midway(Subscribe(c, i), rest, todo, index, frames)
  {
    hide Of;
    var waiting := QueueOf(c.queued, i);
    ReplayEof(c.(active := Some(Talk(i, false, false, false)), queued := c.queued - {i}), waiting);
    if Told(todo, index) != [] && i == index {
      assert Of(c.accepted, index) == Of(c.delivered, index) + waiting;
      forall k | 0 <= k < |waiting|
        ensures waiting[k].kind != FRAME_EOF
      {
        assert frames[|Of(c.delivered, index)| + k] == waiting[k];
      }
    }
  }

  lemma ApplyFailed(c: Channel, e: Event)
    requires c.failed
    ensures Apply(c, e).failed
  {
    if e.Subscribed? {
      ReplayEof(c.(active := Some(Talk(e.index, false, false, false)), queued := c.queued - {e.index}),
                QueueOf(c.queued, e.index));
    }
  }

  lemma {:induction false} RunFailed(c: Channel, events: seq<Event>)
    requires c.failed
    ensures Run(c, events).failed
    decreases |events|
  {
    if |events| > 0 {
      ApplyFailed(c, events[0]);
      RunFailed(Apply(c, events[0]), events[1..]);
    }
  }

  lemma ApplyMidway(c: Channel, e: Event, rest: Bytes, todo: seq<Frame>, index: UInt32, frames: seq<Frame>)
    returns (todo': seq<Frame>)
    requires Valid(c) && OneTalk(frames, index) && Quiet(c)
    requires Midway(c, (if e.Received? then e.chunk else []) + rest, todo, index, frames)
    ensures var d := Apply(c, e); d.failed || (Midway(d, rest, todo', index, frames) && Quiet(d))
  {
    hide Of, Drain, Subscribe, OwnEof, ChildExit, Quiet, Valid, OneTalk, EncodeAll, AllWellFormed;
    todo' := todo;
    assert [] + rest == rest;
    match e
    case Received(chunk) =>
      assert c.pending + (chunk + rest) == c.pending + chunk + rest;
      todo' := DrainMidway(c.(pending := c.pending + chunk), rest, todo, index, frames);
    case Subscribed(i) =>
      SubscribeMidway(c, i, rest, todo, index, frames);
      QuietSubscribed(c, i);
    case OwnStreamEnded => SettleMidway(c, rest, todo, index, frames);
    case ChildExited => SettleMidway(c, rest, todo, index, frames);
    case StreamFailed =>
  }

  lemma QuietSubscribed(c: Channel, i: UInt32)
    requires Valid(c) && Quiet(c)
    ensures Quiet(Subscribe(c, i))
  {
    SubscribeKeeps(c, i);
    hide ParseHead;
  }

  lemma SettleMidway(c: Channel, rest: Bytes, todo: seq<Frame>, index: UInt32, frames: seq<Frame>)
    requires Midway(c, rest, todo, index, frames) && Quiet(c)
    ensures Midway(OwnEof(c), rest, todo, index, frames) && Quiet(OwnEof(c))
    ensures Midway(ChildExit(c), rest, todo, index, frames) && Quiet(ChildExit(c))
  {
    hide Of, EncodeAll, AllWellFormed, ParseHead;
  }

  lemma {:induction false} RunMidway(c: Channel, events: seq<Event>, todo: seq<Frame>, index: UInt32,
                                     frames: seq<Frame>)
    requires Valid(c) && OneTalk(frames, index) && Quiet(c)
    requires Midway(c, Incoming(events), todo, index, frames)
    ensures var d := Run(c, events); d.failed || Of(d.accepted, index) == frames
    decreases |events|
  {
    hide Of;
    if |events| == 0 {
      assert c.pending + [] == c.pending;
      if |todo| > 0 {
        ParseEncoded(todo[0], EncodeAll(todo[1..]));
      } else {
        assert Of(c.accepted, index) + [] == Of(c.accepted, index);
      }
    } else {
      var todo' := ApplyMidway(c, events[0], Incoming(events[1..]), todo, index, frames);
      var d := Apply(c, events[0]);
      RunKeeps(c, [events[0]]);
      assert Run(c, [events[0]]) == d;
      if d.failed {
        RunFailed(d, events[1..]);
      } else {
        RunMidway(d, events[1..], todo', index, frames);
      }
    }
  }

  /** The pump, end to end, on a wire that may carry any other frames before, between and behind.
      However the wire is cut, wherever reading it stands, whatever has been read ahead, and
      however the conversation's other events interleave: unless the channel fails, a handler
      that is subscribed, or has finished, has been offered exactly the bytes the other child
      wrote, in order, and then the end of stream. */
  lemma TalkArrives(c: Channel, events: seq<Event>, wire: seq<Frame>, index: UInt32, writes: seq<Bytes>)
    requires Valid(c) && Quiet(c) && !c.failed
    requires c.peerReady || (|wire| > 0 && wire[0].kind == FRAME_READY)
    requires AllWellFormed(wire) && c.pending + Incoming(events) == EncodeAll(wire)
    requires Of(c.accepted, index) + Told(wire, index) == TalkFrames(index, writes)
    requires Told(wire, index) != [] ==> index !in c.finished && (c.ActiveOn(index) ==> !c.active.value.peerEof)
    ensures var d := Run(c, events);
      !d.failed && (d.ActiveOn(index) || index in d.finished) ==>
        && Of(d.delivered, index) == TalkFrames(index, writes)
        && Offered(Of(d.delivered, index)) == Flatten(writes)
  {
    RunMidway(c, events, wire, index, TalkFrames(index, writes));
    RunKeeps(c, events);
    TalkOffers(index, writes);
    var d := Run(c, events);
    assert Of(d.accepted, index) == Of(d.delivered, index) + QueueOf(d.queued, index);
  }

  /** The frame by which `ready` announces this side. */
  const READY := Frame(FRAME_READY, 0, [])

  /** One case: its index and the chunks that its child writes. */
  datatype Case = Case(index: UInt32, writes: seq<Bytes>)

  /** The frames of a list of cases, one conversation after the other. */
  function CaseFrames(cases: seq<Case>): (r: seq<Frame>)
    ensures AllWellFormed(r)
    ensures forall k :: 0 <= k < |r| ==> r[k].kind != FRAME_READY
  {
    if |cases| == 0 then [] else TalkFrames(cases[0].index, cases[0].writes) + CaseFrames(cases[1..])
  }

  lemma {:induction false} ToldAppend(a: seq<Frame>, b: seq<Frame>, index: UInt32)
    ensures Told(a + b, index) == Told(a, index) + Told(b, index)
  {
    if |a| == 0 {
      assert a + b == b;
    } else {
      ToldAppend(a[1..], b, index);
      var first := if a[0].kind != FRAME_READY && a[0].index == index then [a[0]] else [];
      assert (a + b)[0] == a[0] && (a + b)[1..] == a[1..] + b;
      assert Told(a + b, index) == first + Told(a[1..] + b, index) && Told(a, index) == first + Told(a[1..], index);
      hide Told;
      assert first + (Told(a[1..], index) + Told(b, index)) == (first + Told(a[1..], index)) + Told(b, index);
    }
  }

  lemma {:induction false} ToldOneIndex(frames: seq<Frame>, index: UInt32, asked: UInt32)
    requires forall k :: 0 <= k < |frames| ==> frames[k].kind != FRAME_READY && frames[k].index == index
    ensures Told(frames, asked) == if asked == index then frames else []
  {
    if |frames| > 0 {
      ToldOneIndex(frames[1..], index, asked);
    }
  }

  predicate DistinctCases(cases: seq<Case>) {
    forall i, j :: 0 <= i < j < |cases| ==> cases[i].index != cases[j].index
  }

  lemma {:induction false} ToldNothing(cases: seq<Case>, index: UInt32)
    requires forall k :: 0 <= k < |cases| ==> cases[k].index != index
    ensures Told(CaseFrames(cases), index) == []
  {
    if |cases| > 0 {
      var first := cases[0];
      ToldNothing(cases[1..], index);
      ToldOneIndex(TalkFrames(first.index, first.writes), first.index, index);
      ToldAppend(TalkFrames(first.index, first.writes), CaseFrames(cases[1..]), index);
    }
  }

  lemma {:induction false} ToldItsTalk(cases: seq<Case>, k: nat)
    requires k < |cases| && DistinctCases(cases)
    ensures Told(CaseFrames(cases), cases[k].index) == TalkFrames(cases[k].index, cases[k].writes)
  {
    hide Told, TalkFrames;
    var first, index := cases[0], cases[k].index;
    ToldOneIndex(TalkFrames(first.index, first.writes), first.index, index);
    ToldAppend(TalkFrames(first.index, first.writes), CaseFrames(cases[1..]), index);
    if k == 0 {
      ToldNothing(cases[1..], index);
    } else {
      ToldItsTalk(cases[1..], k - 1);
    }
  }

  /** The bytes that the other side writes for these cases. */
  function SentForAll(cases: seq<Case>): Bytes {
    if |cases| == 0 then [] else Sent(cases[0].index, cases[0].writes) + SentForAll(cases[1..])
  }

  lemma {:induction false} SentForAllIsFrames(cases: seq<Case>)
    ensures SentForAll(cases) == EncodeAll(CaseFrames(cases))
  {
    hide Sent, TalkFrames;
    if |cases| > 0 {
      SentForAllIsFrames(cases[1..]);
      SentIsTalk(cases[0].index, cases[0].writes);
      EncodeAllAppend(TalkFrames(cases[0].index, cases[0].writes), CaseFrames(cases[1..]));
    }
  }

  /** A whole channel: the other side announces itself and holds the conversations of all its
      cases one after the other. Whatever the chunks and the order of events on this side, each
      case is offered exactly what the other child of that case wrote, unless the channel fails. */
  lemma EveryCaseArrives(events: seq<Event>, cases: seq<Case>, k: nat)
    requires k < |cases| && DistinctCases(cases)
    requires Incoming(events) == EncodeFrame(READY) + SentForAll(cases)
    ensures var d, one := Run(FRESH_CHANNEL, events), cases[k];
      !d.failed && (d.ActiveOn(one.index) || one.index in d.finished) ==>
        && Of(d.delivered, one.index) == TalkFrames(one.index, one.writes)
        && Offered(Of(d.delivered, one.index)) == Flatten(one.writes)
  {
    hide Told, CaseFrames, Run, Of, SentForAll, EncodeFrame;
    var wire, index := [READY] + CaseFrames(cases), cases[k].index;
    FreshIsQuiet(index);
    ToldItsTalk(cases, k);
    ToldAppend([READY], CaseFrames(cases), index);
    ReadySaysNothing(index);
    SentForAllIsFrames(cases);
    assert wire[1..] == CaseFrames(cases);
    assert [] + Told(wire, index) == TalkFrames(index, cases[k].writes);
    assert FRESH_CHANNEL.pending + Incoming(events) == EncodeAll(wire);
    TalkArrives(FRESH_CHANNEL, events, wire, index, cases[k].writes);
  }

  lemma FreshIsQuiet(index: UInt32)
    ensures Valid(FRESH_CHANNEL) && Quiet(FRESH_CHANNEL) && Of(FRESH_CHANNEL.accepted, index) == []
  {
    ParseEmpty();
  }

  lemma ReadySaysNothing(index: UInt32)
    ensures Told([READY], index) == []
  {
    assert [READY][1..] == [];
  }

  // ---------------------------------------------------------------- reading ahead

  /** Payload of the frames that lie wholly within the first `n` bytes. */
  function WholePayload(frames: seq<Frame>, n: nat): nat
    requires AllWellFormed(frames)
    decreases |frames|
  {
    if |frames| == 0 then 0
    else
      assert frames[0].WellFormed();
      var size := |EncodeFrame(frames[0])|;
      if n < size then 0 else |frames[0].payload| + WholePayload(frames[1..], n - size)
  }

  /** With no handler subscribed, a peer's talk fails the channel exactly when the frames that
      have arrived whole hold more than the queue may: the bound is sharp. */
  lemma {:induction false} ReadAheadExactly(c: Channel, frames: seq<Frame>, index: UInt32, n: nat)
    requires !c.failed && c.peerReady && c.active.None? && index !in c.finished
    requires c.queuedBytes <= MAX_QUEUED_BYTES
    requires AllWellFormed(frames) && forall k :: 0 <= k < |frames| ==>
      frames[k].index == index && frames[k].kind != FRAME_READY
    requires n <= |EncodeAll(frames)| && c.pending == EncodeAll(frames)[..n]
    ensures Drain(c).failed <==> c.queuedBytes + WholePayload(frames, n) > MAX_QUEUED_BYTES
    decreases |frames|
  {
    hide ParseHead;
    if |frames| == 0 {
      ParseEmpty();
    } else {
      var f, tail := frames[0], EncodeAll(frames[1..]);
      var size := |EncodeFrame(f)|;
      if n < size {
        ParsePrefix(f, n);
        assert c.pending == EncodeFrame(f)[..n];
      } else {
        assert c.pending == EncodeFrame(f) + tail[..n - size];
        ParseEncoded(f, tail[..n - size]);
        var d := Dispatch(c.(pending := tail[..n - size]), f);
        if !d.failed {
          ReadAheadExactly(d, frames[1..], index, n - size);
        }
      }
    }
  }
}
