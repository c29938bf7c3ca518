/** The wire format of the interactive channel: a nine-byte header (type, index, payload
    length, the last two big-endian) followed by the payload. */
module FrameCodec {

  type Byte = b: int | 0 <= b < 0x100
  type Bytes = seq<Byte>
  type UInt32 = n: int | 0 <= n < 0x1_0000_0000

  const FRAME_READY: Byte := 1
  const FRAME_DATA: Byte := 2
  const FRAME_EOF: Byte := 3

  const HEADER_BYTES: nat := 9
  const MAX_PAYLOAD_BYTES: nat := 64 * 1024
  const MAX_QUEUED_BYTES: nat := 16 * 1024 * 1024

  datatype Frame = Frame(kind: Byte, index: UInt32, payload: Bytes) {
    /** What the receiving side accepts. */
    predicate WellFormed() {
      && (kind == FRAME_READY || kind == FRAME_DATA || kind == FRAME_EOF)
      && |payload| <= MAX_PAYLOAD_BYTES
      && (kind != FRAME_DATA ==> |payload| == 0)
    }
  }

  function WriteUInt32BE(n: UInt32): (r: Bytes)
    ensures |r| == 4
  {
    [n / 0x100_0000, n / 0x1_0000 % 0x100, n / 0x100 % 0x100, n % 0x100]
  }

  function ReadUInt32BE(b: Bytes, at: nat): UInt32
    requires at + 4 <= |b|
  {
    (b[at] as int) * 0x100_0000 + (b[at + 1] as int) * 0x1_0000 + (b[at + 2] as int) * 0x100 + b[at + 3] as int
  }

  lemma ReadsBack(n: UInt32, b: Bytes, at: nat)
    requires at + 4 <= |b| && b[at..at + 4] == WriteUInt32BE(n)
    ensures ReadUInt32BE(b, at) == n
  {
    var w := b[at..at + 4];
    assert b[at] == w[0] && b[at + 1] == w[1] && b[at + 2] == w[2] && b[at + 3] == w[3];
    FourBytes(n);
  }

  lemma FourBytes(n: nat)
    ensures n / 0x100_0000 * 0x100_0000 + n / 0x1_0000 % 0x100 * 0x1_0000 + n / 0x100 % 0x100 * 0x100 + n % 0x100 == n
  {
    var high, low := n / 0x1_0000, n % 0x1_0000;
    assert n / 0x100 == high * 0x100 + low / 0x100;
    assert n / 0x100_0000 == high / 0x100;
  }

  function EncodeFrame(f: Frame): (r: Bytes)
    requires |f.payload| < 0x1_0000_0000
    ensures |r| == HEADER_BYTES + |f.payload|
  {
    [f.kind] + WriteUInt32BE(f.index) + WriteUInt32BE(|f.payload|) + f.payload
  }

  /** The header on the wire: one byte of type, then index and payload length, each in four bytes
      with the most significant one first; the payload follows. */
  lemma HeaderLayout(f: Frame)
    requires |f.payload| < 0x1_0000_0000
    ensures var b := EncodeFrame(f);
      && b[0] == f.kind
      && (b[1] as int) * 16_777_216 + (b[2] as int) * 65_536 + (b[3] as int) * 256 + b[4] as int == f.index as int
      && (b[5] as int) * 16_777_216 + (b[6] as int) * 65_536 + (b[7] as int) * 256 + b[8] as int == |f.payload|
      && b[9..] == f.payload
  {
    var b := EncodeFrame(f);
    assert b[1..5] == WriteUInt32BE(f.index);
    assert b[5..9] == WriteUInt32BE(|f.payload|);
    ReadsBack(f.index, b, 1);
    ReadsBack(|f.payload|, b, 5);
  }

  /** What the bytes at hand say about the next frame. */
  datatype Head = NeedMore | Malformed | Complete(frame: Frame, rest: Bytes)

  function ParseHead(b: Bytes): (h: Head)
    ensures h.Complete? ==> h.frame.WellFormed() && |h.rest| == |b| - HEADER_BYTES - |h.frame.payload|
  {
    if |b| < HEADER_BYTES then NeedMore
    else
      var kind, index, length := b[0], ReadUInt32BE(b, 1), ReadUInt32BE(b, 5);
      if (kind != FRAME_READY && kind != FRAME_DATA && kind != FRAME_EOF)
         || length > MAX_PAYLOAD_BYTES
         || (kind != FRAME_DATA && length != 0) then Malformed
      else if |b| < HEADER_BYTES + length then NeedMore
      else Complete(Frame(kind, index, b[HEADER_BYTES..HEADER_BYTES + length]), b[HEADER_BYTES + length..])
  }

  /** Decoding undoes encoding, whatever follows on the wire. */
  lemma ParseEncoded(f: Frame, rest: Bytes)
    requires f.WellFormed()
    ensures ParseHead(EncodeFrame(f) + rest) == Complete(f, rest)
  {
    var b := EncodeFrame(f) + rest;
    assert b[1..5] == WriteUInt32BE(f.index);
    assert b[5..9] == WriteUInt32BE(|f.payload|);
    ReadsBack(f.index, b, 1);
    ReadsBack(|f.payload|, b, 5);
    assert b[HEADER_BYTES..HEADER_BYTES + |f.payload|] == f.payload;
    assert b[HEADER_BYTES + |f.payload|..] == rest;
  }

  /** Bytes that arrive later never change a verdict already reached. */
  lemma ParseStable(b: Bytes, more: Bytes)
    ensures ParseHead(b).Malformed? ==> ParseHead(b + more).Malformed?
    ensures var h := ParseHead(b);
      h.Complete? ==> ParseHead(b + more) == Complete(h.frame, h.rest + more)
  {
    if |b| >= HEADER_BYTES {
      assert ReadUInt32BE(b + more, 1) == ReadUInt32BE(b, 1);
      assert ReadUInt32BE(b + more, 5) == ReadUInt32BE(b, 5);
      var length := ReadUInt32BE(b, 5);
      if |b| >= HEADER_BYTES + length {
        assert (b + more)[HEADER_BYTES..HEADER_BYTES + length] == b[HEADER_BYTES..HEADER_BYTES + length];
        assert (b + more)[HEADER_BYTES + length..] == b[HEADER_BYTES + length..] + more;
      }
    }
  }

  /** A proper prefix of an encoded frame is never enough, and never malformed. */
  lemma ParsePrefix(f: Frame, n: nat)
    requires f.WellFormed() && n < |EncodeFrame(f)|
    ensures ParseHead(EncodeFrame(f)[..n]) == NeedMore
  {
    var b := EncodeFrame(f);
    var h := ParseHead(b[..n]);
    ParseStable(b[..n], b[n..]);
    assert b[..n] + b[n..] == b == b + [];
    ParseEncoded(f, []);
  }

  predicate AllWellFormed(frames: seq<Frame>) {
    forall k :: 0 <= k < |frames| ==> frames[k].WellFormed()
  }

  function EncodeAll(frames: seq<Frame>): Bytes
    requires AllWellFormed(frames)
  {
    if |frames| == 0 then []
    else
      assert frames[0].WellFormed();
      EncodeFrame(frames[0]) + EncodeAll(frames[1..])
  }

  function Flatten(chunks: seq<Bytes>): Bytes {
    if |chunks| == 0 then [] else chunks[0] + Flatten(chunks[1..])
  }

  lemma ConcatAssociates(x: Bytes, y: Bytes, z: Bytes)
    ensures x + y + z == x + (y + z)
  {
  }

  lemma {:induction false} EncodeAllAppend(a: seq<Frame>, b: seq<Frame>)
    requires AllWellFormed(a) && AllWellFormed(b)
    ensures EncodeAll(a + b) == EncodeAll(a) + EncodeAll(b)
  {
    if |a| == 0 {
      assert a + b == b;
    } else {
      EncodeAllAppend(a[1..], b);
      assert (a + b)[0] == a[0] && (a + b)[1..] == a[1..] + b;
      ConcatAssociates(EncodeFrame(a[0]), EncodeAll(a[1..]), EncodeAll(b));
    }
  }
}
