/** The `FrameChannel` object. Its methods update the fields in place; each is proved to do
    what the value-level operation of the same name does. */
module FrameChannel {
  import opened Basics
  import opened FrameCodec
  import opened InteractiveChannel
  import Stream = InteractiveStream

  datatype ProtocolError = PeerClosed | MalformedFrame | DuplicateReady | BeforeReady | TooMuchQueued | StreamError

  class FrameChannel {
    var pending: Bytes
    var queued: map<UInt32, seq<Frame>>
    var queuedBytes: int
    var finished: set<UInt32>
    var active: Option<Talk>
    var peerReady: bool
    var failure: Option<ProtocolError>
    /** Everything written to the output stream. */
    var output: Bytes
    ghost var accepted: seq<Frame>
    ghost var delivered: seq<Frame>

    ghost function State(): Channel
      reads this
    {
      Channel(pending, queued, queuedBytes, finished, active, peerReady, failure.Some?, accepted, delivered)
    }

    constructor ()
      ensures State() == FRESH_CHANNEL && Valid(State()) && output == []
    {
      pending, queued, queuedBytes, finished := [], map[], 0, {};
      active, peerReady, failure, output := None, false, None, [];
      accepted, delivered := [], [];
    }

    method FinishIndex(index: UInt32)
      modifies this
      ensures State() == Finish(old(State()), index)
      ensures failure == old(failure) && output == old(output)
    {
      if active.Some? && active.value.index == index {
        active := None;
      }
      finished := finished + {index};
      var frames := QueueOf(queued, index);
      queuedBytes := queuedBytes - PayloadBytes(frames);
      queued := queued - {index};
    }

    /** Records the first failure and settles the running conversation. */
    method FailWith(error: ProtocolError)
      modifies this
      ensures State() == Fail(old(State())) && output == old(output)
      ensures failure == if old(failure).Some? then old(failure) else Some(error)
    {
      if failure.Some? {
        return;
      }
      failure := Some(error);
      if active.Some? {
        FinishIndex(active.value.index);
      }
    }

    method CheckSettled()
      modifies this
      ensures State() == Settle(old(State())) && failure == old(failure) && output == old(output)
    {
      if active.Some? && active.value.ownEof && active.value.peerEof && active.value.childDone {
        FinishIndex(active.value.index);
      }
    }

    method Handle(f: Frame)
      modifies this
      ensures State() == Deliver(old(State()), f) && failure == old(failure) && output == old(output)
    {
      delivered := delivered + [f];
      if f.kind == FRAME_EOF && active.Some? {
        active := Some(active.value.(peerEof := true));
        CheckSettled();
      }
    }

    method DispatchFrame(f: Frame) returns (ok: bool)
      requires failure.None?
      modifies this
      ensures State() == Dispatch(old(State()), f) && ok == failure.None? && output == old(output)
      ensures !ok ==> failure == Some(if f.kind == FRAME_READY then DuplicateReady
                                      else if !old(peerReady) then BeforeReady else TooMuchQueued)
    {
      if f.kind == FRAME_READY {
        if peerReady {
          FailWith(DuplicateReady);
          return false;
        }
        peerReady := true;
        return true;
      }
      if !peerReady {
        FailWith(BeforeReady);
        return false;
      }
      if f.index in finished {
        return true;
      }
      if active.Some? && active.value.index == f.index {
        accepted := accepted + [f];
        Handle(f);
        return true;
      }
      queuedBytes := queuedBytes + |f.payload|;
      if queuedBytes > MAX_QUEUED_BYTES {
        FailWith(TooMuchQueued);
        return false;
      }
      queued := queued[f.index := QueueOf(queued, f.index) + [f]];
      accepted := accepted + [f];
      return true;
    }

    /** The parsing loop. */
    method ReceiveChunk(chunk: Bytes)
      modifies this
      ensures State() == Receive(old(State()), chunk) && output == old(output)
    {
      hide Dispatch, Fail;
      if failure.Some? {
        return;
      }
      pending := if |pending| == 0 then chunk else pending + chunk;
      ghost var start := State();
      assert start == old(State()).(pending := old(pending) + chunk);
      while |pending| >= HEADER_BYTES
        invariant failure.None? && output == old(output)
        invariant Drain(State()) == Drain(start)
        decreases |pending|
      {
        var kind, index, length := pending[0], ReadUInt32BE(pending, 1), ReadUInt32BE(pending, 5);
        if (kind != FRAME_READY && kind != FRAME_DATA && kind != FRAME_EOF)
           || length > MAX_PAYLOAD_BYTES
           || (kind != FRAME_DATA && length != 0) {
          FailWith(MalformedFrame);
          return;
        }
        if |pending| < HEADER_BYTES + length {
          return;
        }
        var payload := pending[HEADER_BYTES..HEADER_BYTES + length];
        pending := pending[HEADER_BYTES + length..];
        DispatchLeavesPending(State(), Frame(kind, index, payload));
        var ok := DispatchFrame(Frame(kind, index, payload));
        if !ok {
          return;
        }
      }
    }

    /** `subscribe`, for the handler of a new conversation. */
    method SubscribeTo(index: UInt32)
      modifies this
      ensures State() == Subscribe(old(State()), index) && output == old(output)
    {
      hide Deliver;
      active := Some(Talk(index, false, false, false));
      var frames := QueueOf(queued, index);
      queued := queued - {index};
      ghost var start := State();
      for k := 0 to |frames|
        invariant Replay(State(), frames[k..]) == Replay(start, frames)
        invariant failure == old(failure) && output == old(output)
      {
        queuedBytes := queuedBytes - |frames[k].payload|;
        Handle(frames[k]);
        assert frames[k..][0] == frames[k] && frames[k..][1..] == frames[k + 1..];
      }
    }

    method Send(kind: Byte, index: UInt32, payload: Bytes)
      requires |payload| < 0x1_0000_0000
      modifies this`output
      ensures output == old(output) + EncodeFrame(Frame(kind, index, payload))
    {
      output := output + EncodeFrame(Frame(kind, index, payload));
    }

    /** The `data` listener of `converse`: one chunk of the child's output goes out in pieces. */
    method SendOutput(index: UInt32, chunk: Bytes)
      modifies this`output
      ensures output == old(output) + EncodeAll(Stream.Pieces(index, chunk))
    {
      hide EncodeFrame, EncodeAll, Stream.Pieces;
      PiecesOfNothing(index);
      assert chunk[0..] == chunk;
      var offset := 0;
      while offset < |chunk|
        invariant 0 <= offset
        invariant output + EncodeAll(Stream.Pieces(index, chunk[Clamp(offset, |chunk|)..]))
          == old(output) + EncodeAll(Stream.Pieces(index, chunk))
        decreases |chunk| - offset
      {
        var end := Clamp(offset + MAX_PAYLOAD_BYTES, |chunk|);
        FirstPiece(index, chunk[offset..]);
        assert chunk[offset..][..end - offset] == chunk[offset..end];
        assert chunk[offset..][end - offset..] == chunk[end..];
        ghost var before := output;
        Send(FRAME_DATA, index, chunk[offset..end]);
        assert output + EncodeAll(Stream.Pieces(index, chunk[end..]))
          == before + EncodeAll(Stream.Pieces(index, chunk[offset..]));
        offset := offset + MAX_PAYLOAD_BYTES;
      }
      assert chunk[|chunk|..] == [];
    }

    /** `endOwn`: the child's output has ended; only the first report is sent. */
    method EndOwn()
      modifies this
      ensures State() == OwnEof(old(State()))
      ensures output == old(output) +
        if old(active).Some? && !old(active).value.ownEof
        then EncodeFrame(Frame(FRAME_EOF, old(active).value.index, [])) else []
    {
      if active.Some? {
        if !active.value.ownEof {
          active := Some(active.value.(ownEof := true));
          Send(FRAME_EOF, active.value.index, []);
        }
        CheckSettled();
      }
    }
  }

  function Clamp(n: nat, limit: nat): nat {
    if n < limit then n else limit
  }

  lemma PiecesOfNothing(index: UInt32)
    ensures EncodeAll(Stream.Pieces(index, [])) == []
  {
  }

  lemma FirstPiece(index: UInt32, chunk: Bytes)
    requires |chunk| > 0
    ensures var n := Clamp(MAX_PAYLOAD_BYTES, |chunk|);
      EncodeAll(Stream.Pieces(index, chunk))
        == EncodeFrame(Frame(FRAME_DATA, index, chunk[..n])) + EncodeAll(Stream.Pieces(index, chunk[n..]))
  {
    var n := Clamp(MAX_PAYLOAD_BYTES, |chunk|);
    var first := Frame(FRAME_DATA, index, chunk[..n]);
    assert chunk[..|chunk|] == chunk;
    assert Stream.Pieces(index, chunk) == [first] + Stream.Pieces(index, chunk[n..]);
    assert ([first] + Stream.Pieces(index, chunk[n..]))[1..] == Stream.Pieces(index, chunk[n..]);
  }
}
