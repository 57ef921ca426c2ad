/**
 Length-prefixed framing over a byte stream: eight big-endian bytes of length, then the message.

 Reads may be short (any non-empty part of what was asked for) and writes go out in pieces of at
 most MAX_IO_SIZE bytes.  `Encode` and `Decode` say what the send and receive loops compute.
 */
module Framing {

  newtype Byte = x: int | 0 <= x < 256

  type Message = seq<Byte>

  const MAX_IO_SIZE: nat := 0x80_0000
  const MAX_INT: nat := 0x7FFF_FFFF

  // ---------- eight-byte lengths ----------

  function Pow256(w: nat): nat {
    if w == 0 then 1 else 256 * Pow256(w - 1)
  }

  function BigEndian(v: nat, w: nat): (bs: seq<Byte>)
    ensures |bs| == w
  {
    if w == 0 then [] else BigEndian(v / 256, w - 1) + [(v % 256) as Byte]
  }

  function FromBigEndian(bs: seq<Byte>): nat {
    if bs == [] then 0 else 256 * FromBigEndian(bs[..|bs| - 1]) + bs[|bs| - 1] as int
  }

  lemma {:induction false} BigEndianRoundTrip(v: nat, w: nat)
    requires v < Pow256(w)
    ensures FromBigEndian(BigEndian(v, w)) == v
  {
    if w > 0 {
      BigEndianRoundTrip(v / 256, w - 1);
      var bs := BigEndian(v, w);
      assert bs[..|bs| - 1] == BigEndian(v / 256, w - 1);
    }
  }

  /** The first byte weighs most: a number of n + 1 bytes is its first byte times 256 to the n, and the rest. */
  lemma {:induction false} FirstByteWeighsMost(bs: seq<Byte>)
    requires bs != []
    ensures FromBigEndian(bs) == bs[0] as int * Pow256(|bs| - 1) + FromBigEndian(bs[1..])
  {
    var last := |bs| - 1;
    if last > 0 {
      var most := bs[..last];
      FirstByteWeighsMost(most);
      assert bs[1..][..last - 1] == most[1..] && bs[1..][last - 1] == bs[last];
      Shift(bs[0] as int, Pow256(last - 1));
    }
  }

  lemma Shift(x: int, p: int)
    ensures 256 * (x * p) == x * (256 * p)
  {
  }

  /** The last byte counts as it is. */
  lemma ByteExamples()
    ensures FromBigEndian([]) == 0 && Pow256(0) == 1 && Pow256(1) == 256
    ensures forall x: Byte :: FromBigEndian([x]) == x as int
    ensures FromBigEndian([1, 2]) == 258
  {
    assert [1, 2][..1] == [1 as Byte];
    forall x: Byte
      ensures FromBigEndian([x]) == x as int
    {
      assert [x][..0] == [];
    }
  }

  lemma EightBytesHoldInt(v: nat)
    requires v <= MAX_INT
    ensures FromBigEndian(BigEndian(v, 8)) == v
  {
    assert Pow256(4) == 256 * (256 * (256 * (256 * Pow256(0))));
    assert Pow256(8) == 256 * (256 * (256 * (256 * Pow256(4))));
    BigEndianRoundTrip(v, 8);
  }

  function Reversed(bs: seq<Byte>): (r: seq<Byte>)
    ensures |r| == |bs| && forall i | 0 <= i < |bs| :: r[i] == bs[|bs| - 1 - i]
  {
    seq(|bs|, i requires 0 <= i < |bs| => bs[|bs| - 1 - i])
  }

  lemma ReversedTwice(bs: seq<Byte>)
    ensures Reversed(Reversed(bs)) == bs
  {
  }

  /** The machine's own byte order. */
  function MachineBytes(v: nat, littleEndian: bool): seq<Byte> {
    if littleEndian then Reversed(BigEndian(v, 8)) else BigEndian(v, 8)
  }

  function FromMachineBytes(bs: seq<Byte>, littleEndian: bool): nat {
    FromBigEndian(if littleEndian then Reversed(bs) else bs)
  }

  // ---------- frames ----------

  function Frame(m: Message): seq<Byte> {
    BigEndian(|m|, 8) + m
  }

  /** On the wire: eight bytes that say how long the message is, most significant first, then the message. */
  lemma FrameFormat(m: Message)
    requires |m| <= MAX_INT
    ensures |Frame(m)| == 8 + |m| && FromBigEndian(Frame(m)[..8]) == |m| && Frame(m)[8..] == m
  {
    assert Frame(m)[..8] == BigEndian(|m|, 8);
    EightBytesHoldInt(|m|);
  }

  function Encode(ms: seq<Message>): seq<Byte> {
    if ms == [] then [] else Frame(ms[0]) + Encode(ms[1..])
  }

  /** The messages a receiver gets from `bs`; it gives up on a length it cannot allocate. */
  function Decode(bs: seq<Byte>, limit: nat): seq<Message> {
    if |bs| < 8 then []
    else
      var size := FromBigEndian(bs[..8]);
      if size > limit || |bs| - 8 < size then []
      else [bs[8..8 + size]] + Decode(bs[8 + size..], limit)
  }

  predicate Sendable(ms: seq<Message>, limit: nat) {
    limit <= MAX_INT && forall m | m in ms :: |m| <= limit
  }

  /** c is the number of frames that are complete in the first k bytes. */
  predicate CompleteFrames(ms: seq<Message>, k: nat, c: nat) {
    c <= |ms| && |Encode(ms[..c])| <= k && (c < |ms| ==> k < |Encode(ms[..c + 1])|)
  }

  lemma DecodeFrame(m: Message, rest: seq<Byte>, limit: nat)
    requires |m| <= limit <= MAX_INT
    ensures Decode(Frame(m) + rest, limit) == [m] + Decode(rest, limit)
  {
    var bs := Frame(m) + rest;
    assert bs[..8] == BigEndian(|m|, 8);
    EightBytesHoldInt(|m|);
    assert bs[8..8 + |m|] == m;
    assert bs[8 + |m|..] == rest;
  }

  lemma DecodeCutFrame(m: Message, k: nat, limit: nat)
    requires |m| <= limit <= MAX_INT && k < |Frame(m)|
    ensures Decode(Frame(m)[..k], limit) == []
  {
    if k >= 8 {
      assert Frame(m)[..k][..8] == BigEndian(|m|, 8);
      EightBytesHoldInt(|m|);
    }
  }

  /** The first message of a cut stream: lost if its frame is cut, delivered otherwise. */
  lemma DecodeCutHead(m: Message, tail: seq<Byte>, k: nat, limit: nat)
    requires |m| <= limit <= MAX_INT && k <= |Frame(m)| + |tail|
    ensures Decode((Frame(m) + tail)[..k], limit) ==
            if k < |Frame(m)| then [] else [m] + Decode(tail[..k - |Frame(m)|], limit)
  {
    var n := |Frame(m)|;
    if k < n {
      assert (Frame(m) + tail)[..k] == Frame(m)[..k];
      DecodeCutFrame(m, k, limit);
    } else {
      assert (Frame(m) + tail)[..k] == Frame(m) + tail[..k - n];
      DecodeFrame(m, tail[..k - n], limit);
    }
  }

  lemma DecodeCutFirst(ms: seq<Message>, k: nat, limit: nat)
    requires ms != [] && Sendable(ms, limit) && k < |Frame(ms[0])| && k <= |Encode(ms)|
    ensures CompleteFrames(ms, k, 0) && Decode(Encode(ms)[..k], limit) == []
  {
    assert ms[0] in ms;
    DecodeCutHead(ms[0], Encode(ms[1..]), k, limit);
    NoFrameYet(ms, k);
  }

  lemma DecodeCutLater(ms: seq<Message>, k: nat, limit: nat, c: nat)
    requires ms != [] && Sendable(ms, limit) && |Frame(ms[0])| <= k <= |Encode(ms)|
    requires var k' := k - |Frame(ms[0])|;
             CompleteFrames(ms[1..], k', c) && Decode(Encode(ms[1..])[..k'], limit) == ms[1..][..c]
    ensures CompleteFrames(ms, k, c + 1) && Decode(Encode(ms)[..k], limit) == ms[..c + 1]
  {
    assert ms[0] in ms;
    DecodeCutHead(ms[0], Encode(ms[1..]), k, limit);
    OneFrameMore(ms, k, c);
    OneMoreMessage(ms, c);
  }

  /** A stream cut after k bytes yields exactly the messages whose frames are complete. */
  lemma {:induction false} DecodeCut(ms: seq<Message>, k: nat, limit: nat) returns (c: nat)
    requires Sendable(ms, limit) && k <= |Encode(ms)|
    ensures CompleteFrames(ms, k, c) && Decode(Encode(ms)[..k], limit) == ms[..c]
  {
    if ms == [] {
      c := 0;
    } else if k < |Frame(ms[0])| {
      DecodeCutFirst(ms, k, limit);
      c := 0;
    } else {
      c := DecodeCut(ms[1..], k - |Frame(ms[0])|, limit);
      DecodeCutLater(ms, k, limit, c);
      c := c + 1;
    }
  }

  lemma OneMoreMessage(ms: seq<Message>, c: nat)
    requires ms != [] && c <= |ms[1..]|
    ensures ms[..c + 1] == [ms[0]] + ms[1..][..c]
  {
  }

  lemma NoFrameYet(ms: seq<Message>, k: nat)
    requires ms != [] && k < |Frame(ms[0])|
    ensures CompleteFrames(ms, k, 0)
  {
    EncodePrefix(ms, 1);
  }

  lemma OneFrameMore(ms: seq<Message>, k: nat, c: nat)
    requires ms != [] && k >= |Frame(ms[0])| && CompleteFrames(ms[1..], k - |Frame(ms[0])|, c)
    ensures CompleteFrames(ms, k, c + 1)
  {
    EncodePrefix(ms, c + 1);
    if c + 1 < |ms| {
      EncodePrefix(ms, c + 2);
    }
  }

  lemma EncodePrefix(ms: seq<Message>, c: nat)
    requires 0 < c <= |ms|
    ensures Encode(ms[..c]) == Frame(ms[0]) + Encode(ms[1..][..c - 1])
  {
    assert ms[..c][1..] == ms[1..][..c - 1];
  }

  /** Only one count fits, so the delivered prefix is determined by the cut. */
  lemma CompleteFramesUnique(ms: seq<Message>, k: nat, c: nat, c': nat)
    requires CompleteFrames(ms, k, c) && CompleteFrames(ms, k, c')
    ensures c == c'
  {
    if c < c' {
      EncodeGrows(ms, c + 1, c');
    } else if c' < c {
      EncodeGrows(ms, c' + 1, c);
    }
  }

  lemma {:induction false} EncodeGrows(ms: seq<Message>, c: nat, c': nat)
    requires c <= c' <= |ms|
    ensures |Encode(ms[..c])| <= |Encode(ms[..c'])|
  {
    if c > 0 {
      EncodePrefix(ms, c);
      EncodePrefix(ms, c');
      EncodeGrows(ms[1..], c - 1, c' - 1);
    }
  }

  lemma {:induction false} EncodeAppend(ms: seq<Message>, m: Message)
    ensures Encode(ms + [m]) == Encode(ms) + Frame(m)
  {
    if ms == [] {
      assert [] + [m] == [m] && [m][1..] == [];
    } else {
      assert (ms + [m])[1..] == ms[1..] + [m];
      EncodeAppend(ms[1..], m);
    }
  }

  lemma EncodeNext(ms: seq<Message>, i: nat)
    requires i < |ms|
    ensures Encode(ms[..i + 1]) == Encode(ms[..i]) + BigEndian(|ms[i]|, 8) + ms[i][0..|ms[i]|]
  {
    assert ms[..i + 1] == ms[..i] + [ms[i]];
    EncodeAppend(ms[..i], ms[i]);
  }

  // ---------- streams ----------

  /** buf with its bytes from `offset` on replaced by the first n bytes of `from`. */
  function Filled(buf: seq<Byte>, offset: nat, from: seq<Byte>, n: nat): seq<Byte>
    requires offset + n <= |buf| && n <= |from|
  {
    buf[..offset] + from[..n] + buf[offset + n..]
  }

  lemma FilledWhole(buf: seq<Byte>, from: seq<Byte>)
    requires |buf| <= |from|
    ensures Filled(buf, 0, from, |buf|) == from[..|buf|]
  {
  }

  lemma FillMore(buf: seq<Byte>, offset: nat, from: seq<Byte>, n: nat, more: nat)
    requires offset + n + more <= |buf| && n + more <= |from|
    ensures Filled(Filled(buf, offset, from, n), offset + n, from[n..], more) == Filled(buf, offset, from, n + more)
  {
    assert from[..n + more] == from[..n] + from[n..][..more];
  }

  class OutStream {
    var data: seq<Byte>

    constructor ()
      ensures data == []
    {
      data := [];
    }

    method Write(bs: seq<Byte>)
      requires |bs| <= MAX_IO_SIZE
      modifies this
      ensures data == old(data) + bs
    {
      data := data + bs;
    }
  }

  class InStream {
    const data: seq<Byte>
    var pos: nat

    ghost predicate Valid()
      reads this
    {
      pos <= |data|
    }

    ghost function Rest(): seq<Byte>
      requires Valid()
      reads this
    {
      data[pos..]
    }

    constructor (bs: seq<Byte>)
      ensures Valid() && Rest() == bs
    {
      data, pos := bs, 0;
    }

    /** Delivers some non-empty part of the next n bytes, or nothing at the end of the stream. */
    method Read(buf: array<Byte>, offset: nat, n: nat) returns (k: nat)
      requires Valid() && 0 < n <= MAX_IO_SIZE && offset + n <= buf.Length
      modifies this, buf
      ensures Valid() && k <= n && pos == old(pos) + k && Rest() == old(Rest())[k..]
      ensures k == 0 <==> old(Rest()) == []
      ensures buf[..] == Filled(old(buf[..]), offset, old(Rest()), k)
    {
      if pos == |data| {
        assert buf[..] == buf[..offset] + buf[offset..];
        return 0;
      }
      k :| 1 <= k <= n && k <= |data| - pos;
      forall i | 0 <= i < k {
        buf[offset + i] := data[pos + i];
      }
      pos := pos + k;
    }
  }

  method ReadBytes(stream: InStream, buf: array<Byte>, offset: nat, byteCount: nat) returns (ok: bool)
    requires stream.Valid() && offset + byteCount <= buf.Length
    modifies stream, buf
    ensures stream.Valid()
    ensures ok <==> byteCount <= |old(stream.Rest())|
    ensures ok ==> stream.pos == old(stream.pos) + byteCount
    ensures ok ==> stream.Rest() == old(stream.Rest())[byteCount..]
    ensures ok ==> buf[..] == Filled(old(buf[..]), offset, old(stream.Rest()), byteCount)
    ensures !ok ==> stream.Rest() == []
  {
    var bytesRead := 0;
    ghost var was, rest := buf[..], stream.Rest();
    while bytesRead < byteCount
      invariant bytesRead <= byteCount && stream.Valid() && bytesRead <= |rest|
      invariant stream.pos == old(stream.pos) + bytesRead && stream.Rest() == rest[bytesRead..]
      invariant buf[..] == Filled(was, offset, rest, bytesRead)
    {
      var bytesToRead := if byteCount - bytesRead > MAX_IO_SIZE then MAX_IO_SIZE else byteCount - bytesRead;
      var additional := stream.Read(buf, offset + bytesRead, bytesToRead);
      if additional == 0 {
        return false;
      }
      FillMore(was, offset, rest, bytesRead, additional);
      bytesRead := bytesRead + additional;
    }
    return true;
  }

  method WriteBytes(stream: OutStream, buf: seq<Byte>, offset: nat, byteCount: nat)
    requires offset + byteCount <= |buf|
    modifies stream
    ensures stream.data == old(stream.data) + buf[offset..offset + byteCount]
  {
    var bytesWritten := 0;
    while bytesWritten < byteCount
      invariant bytesWritten <= byteCount
      invariant stream.data == old(stream.data) + buf[offset..offset + bytesWritten]
    {
      var bytesToWrite := if byteCount - bytesWritten > MAX_IO_SIZE then MAX_IO_SIZE else byteCount - bytesWritten;
      stream.Write(buf[offset + bytesWritten..offset + bytesWritten + bytesToWrite]);
      bytesWritten := bytesWritten + bytesToWrite;
    }
  }

  method WriteUInt64(stream: OutStream, value: nat, littleEndian: bool)
    modifies stream
    ensures stream.data == old(stream.data) + BigEndian(value, 8)
  {
    var bytes := MachineBytes(value, littleEndian);
    if littleEndian {
      ReversedTwice(BigEndian(value, 8));
      bytes := Reversed(bytes);
    }
    WriteBytes(stream, bytes, 0, 8);
  }

  method ReadUInt64(stream: InStream, littleEndian: bool) returns (ok: bool, value: nat)
    requires stream.Valid()
    modifies stream
    ensures stream.Valid()
    ensures ok <==> 8 <= |old(stream.Rest())|
    ensures ok ==> stream.pos == old(stream.pos) + 8 && stream.Rest() == old(stream.Rest())[8..]
    ensures ok ==> value == FromBigEndian(old(stream.Rest())[..8])
  {
    var buf8 := new Byte[8];
    ghost var was := buf8[..];
    ok := ReadBytes(stream, buf8, 0, 8);
    value := 0;
    if ok {
      var bytes := buf8[..];
      FilledWhole(was, old(stream.Rest()));
      ReversedTwice(bytes);
      if littleEndian {
        bytes := Reversed(bytes);
      }
      value := FromMachineBytes(bytes, littleEndian);
    }
  }

  // ---------- the loops ----------

  method SendLoop(stream: OutStream, queue: seq<Message>, littleEndian: bool)
    modifies stream
    ensures stream.data == old(stream.data) + Encode(queue)
  {
    var i := 0;
    while i < |queue|
      invariant i <= |queue|
      invariant stream.data == old(stream.data) + Encode(queue[..i])
    {
      var current := queue[i];
      WriteUInt64(stream, |current|, littleEndian);
      WriteBytes(stream, current, 0, |current|);
      EncodeNext(queue, i);
      i := i + 1;
    }
    assert queue[..i] == queue;
  }

  method ReceiveLoop(stream: InStream, limit: nat, littleEndian: bool) returns (delivered: seq<Message>)
    requires stream.Valid()
    modifies stream
    ensures stream.Valid() && delivered == Decode(old(stream.Rest()), limit)
  {
    delivered := [];
    while true
      invariant stream.Valid()
      invariant delivered + Decode(stream.Rest(), limit) == Decode(old(stream.Rest()), limit)
      decreases |stream.Rest()|
    {
      ghost var rest := stream.Rest();
      var ok, messageSize := ReadUInt64(stream, littleEndian);
      if !ok {
        return;
      }
      if messageSize > limit {
        return;   // the buffer cannot be allocated: the exception ends the thread
      }
      var messageBuf := new Byte[messageSize];
      ghost var was := messageBuf[..];
      ok := ReadBytes(stream, messageBuf, 0, messageSize);
      if !ok {
        return;
      }
      FilledWhole(was, rest[8..]);
      DecodeNext(rest, messageSize, limit);
      delivered := delivered + [messageBuf[..]];
    }
  }

  lemma DecodeNext(rest: seq<Byte>, size: nat, limit: nat)
    requires 8 <= |rest| && size == FromBigEndian(rest[..8]) && size <= limit && size <= |rest[8..]|
    ensures Decode(rest, limit) == [rest[8..][..size]] + Decode(rest[8..][size..], limit)
  {
    assert rest[8..][..size] == rest[8..8 + size];
    assert rest[8..][size..] == rest[8 + size..];
  }

  /** Send, cut the stream anywhere, receive: exactly the messages with complete frames arrive, in order. */
  method SendCutReceive(ms: seq<Message>, cut: nat, limit: nat, littleEndian: bool) returns (delivered: seq<Message>)
    requires Sendable(ms, limit) && cut <= |Encode(ms)|
    ensures |delivered| <= |ms| && delivered == ms[..|delivered|] && CompleteFrames(ms, cut, |delivered|)
    ensures cut == |Encode(ms)| ==> delivered == ms
  {
    var wire := new OutStream();
    SendLoop(wire, ms, littleEndian);
    assert wire.data == Encode(ms);
    var incoming := new InStream(wire.data[..cut]);
    delivered := ReceiveLoop(incoming, limit, littleEndian);
    ghost var c := DecodeCut(ms, cut, limit);
    assert ms[..|ms|] == ms;
    if cut == |Encode(ms)| {
      CompleteFramesUnique(ms, cut, c, |ms|);
    }
  }
}
