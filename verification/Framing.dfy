/** Packets on the wire: a fixed header (the packet structure up to its payload pointer) followed
    by the payload, written and read through partial `send` and `recv` calls. */
module Framing {
  import opened Codec
  import opened Chunking
  import opened Arithmetic

  /** `payload_size` is the length of `payload`; a packet without payload has a null pointer. */
  datatype Packet = Packet(command: string, sequenceNumber: int, expected: nat, payload: Bytes)

  /** offsetof(packet, payload): 1024 command bytes, an int, 4 bytes of alignment, two 64-bit
      sizes. */
  const HEADER: nat := 1048
  const TWO32: int := 0x1_0000_0000

  /** What the C++ structure can hold. */
  ghost predicate Valid(p: Packet) {
    && Free(p.command, NUL) && |p.command| < COMMAND_FIELD
    && -0x8000_0000 <= p.sequenceNumber <= MAX_INT32
    && p.expected < TWO64 && |p.payload| < TWO64
  }

  ghost predicate AllValid(ps: seq<Packet>) { forall i :: 0 <= i < |ps| ==> Valid(ps[i]) }

  /** `n` in `k` little-endian bytes. */
  function Encode(n: nat, k: nat): (s: Bytes)
    ensures |s| == k
  {
    if k == 0 then [] else [(n % 256) as char] + Encode(n / 256, k - 1)
  }

  function Decode(s: Bytes): nat {
    if s == [] then 0 else s[0] as nat + 256 * Decode(s[1..])
  }

  function Power256(k: nat): nat {
    if k == 0 then 1 else 256 * Power256(k - 1)
  }

  lemma {:induction false} DecodeOfEncode(n: nat, k: nat)
    requires n < Power256(k)
    ensures Decode(Encode(n, k)) == n
  {
    if k > 0 { DecodeOfEncode(n / 256, k - 1); }
  }

  /** Byte `i` of a field counts the multiples of 256^i: the lowest byte comes first. */
  lemma {:induction false} EncodeAt(n: nat, k: nat, i: nat)
    requires i < k
    ensures Power256(i) > 0 && Encode(n, k)[i] as nat == (n / Power256(i)) % 256
  {
    if i > 0 {
      EncodeAt(n / 256, k - 1, i - 1);
      DivideTwice(n, 256, Power256(i - 1));
    }
  }

  lemma Powers()
    ensures Power256(4) == TWO32 && Power256(8) == TWO64
  {
    assert Power256(2) == 0x1_0000;
    assert Power256(4) == TWO32;
    assert Power256(6) == 0x1_0000_0000_0000;
  }

  /** The 32-bit two's complement image of a signed number, and back. */
  function ToUnsigned(n: int): nat { n % TWO32 }
  function ToSigned(n: nat): int { if n % TWO32 <= MAX_INT32 then n % TWO32 else n % TWO32 - TWO32 }

  /** memcpy of the structure: the 4 alignment bytes `pad` are whatever memory held. */
  function Header(p: Packet, pad: Bytes): (h: Bytes)
    requires |p.command| < COMMAND_FIELD && |pad| == 4
    ensures |h| == HEADER
  {
    Field(p.command, COMMAND_FIELD) + Encode(ToUnsigned(p.sequenceNumber), 4) + pad
    + Encode(|p.payload|, 8) + Encode(p.expected, 8)
  }

  function Frame(p: Packet, pad: Bytes): (f: Bytes)
    requires |p.command| < COMMAND_FIELD && |pad| == 4
    ensures |f| == HEADER + |p.payload|
  {
    Header(p, pad) + p.payload
  }

  /** The fields of a received header. */
  function CommandOf(h: Bytes): string requires |h| >= HEADER { CString(h[..COMMAND_FIELD]) }
  function SequenceOf(h: Bytes): int requires |h| >= HEADER { ToSigned(Decode(h[1024..1028])) }
  function SizeOf(h: Bytes): nat requires |h| >= HEADER { Decode(h[1032..1040]) }
  function ExpectedOf(h: Bytes): nat requires |h| >= HEADER { Decode(h[1040..1048]) }

  lemma HeaderRoundTrip(p: Packet, pad: Bytes, tail: Bytes)
    requires Valid(p) && |pad| == 4
    ensures var h := Header(p, pad) + tail;
            && CommandOf(h) == p.command && SequenceOf(h) == p.sequenceNumber
            && SizeOf(h) == |p.payload| && ExpectedOf(h) == p.expected
  {
    var h := Header(p, pad) + tail;
    Powers();
    FieldRoundTrip(p.command, COMMAND_FIELD);
    assert h[..1024] == Field(p.command, COMMAND_FIELD);
    assert h[1024..1028] == Encode(ToUnsigned(p.sequenceNumber), 4);
    assert h[1032..1040] == Encode(|p.payload|, 8);
    assert h[1040..1048] == Encode(p.expected, 8);
    DecodeOfEncode(ToUnsigned(p.sequenceNumber), 4);
    DecodeOfEncode(|p.payload|, 8);
    DecodeOfEncode(p.expected, 8);
  }

  /** `k` bytes of a header from offset `at` on hold this number, lowest byte first. */
  ghost predicate HoldsNumber(h: Bytes, at: nat, k: nat, n: nat) {
    && at + k <= |h|
    && forall i :: 0 <= i < k ==> Power256(i) > 0 && h[at + i] as nat == (n / Power256(i)) % 256
  }

  /** The first 1024 bytes are this text and NULs behind it. */
  ghost predicate HoldsText(h: Bytes, text: string) {
    && |text| <= 1024 <= |h| && h[..|text|] == text
    && forall i :: |text| <= i < 1024 ==> h[i] == 0 as char
  }

  lemma EncodeHolds(h: Bytes, at: nat, k: nat, n: nat)
    requires at + k <= |h| && h[at..at + k] == Encode(n, k)
    ensures HoldsNumber(h, at, k, n)
  {
    forall i | 0 <= i < k ensures Power256(i) > 0 && h[at + i] as nat == (n / Power256(i)) % 256 {
      EncodeAt(n, k, i);
      assert h[at + i] == h[at..at + k][i];
    }
  }

  function TwosComplement(n: int): nat
    requires -0x8000_0000 <= n
  {
    if n < 0 then n + 0x1_0000_0000 else n
  }

  /** The command with NULs behind it, the sequence number at 1024 in two's complement, the payload's
      size at 1032, the number of packets at 1040. */
  ghost predicate LaidOut(p: Packet, h: Bytes)
    requires Valid(p)
  {
    && |h| == 1048 && |p.command| <= 1023 && HoldsText(h, p.command)
    && HoldsNumber(h, 1024, 4, TwosComplement(p.sequenceNumber))
    && HoldsNumber(h, 1032, 8, |p.payload|)
    && HoldsNumber(h, 1040, 8, p.expected)
  }

  /** Where each field lies in the structure. */
  lemma HeaderLayout(p: Packet, pad: Bytes)
    requires Valid(p) && |pad| == 4
    ensures LaidOut(p, Header(p, pad))
  {
    var h := Header(p, pad);
    HeaderFields(p, pad);
    CommandPadded(h, p.command);
    ImageOf(p.sequenceNumber);
    NumberFields(h, ToUnsigned(p.sequenceNumber), |p.payload|, p.expected, 4, 8);
  }

  lemma ImageOf(n: int)
    requires -0x8000_0000 <= n <= MAX_INT32
    ensures ToUnsigned(n) == TwosComplement(n)
  {
  }

  /** `k` and `l` are the widths of an int and of a size. */
  lemma NumberFields(h: Bytes, number: nat, size: nat, expected: nat, k: nat, l: nat)
    requires |h| == 1048 && k == 4 && l == 8
    requires h[1024..1024 + k] == Encode(number, k)
    requires h[1032..1032 + l] == Encode(size, l) && h[1040..1040 + l] == Encode(expected, l)
    ensures HoldsNumber(h, 1024, k, number) && HoldsNumber(h, 1032, l, size) && HoldsNumber(h, 1040, l, expected)
  {
    EncodeHolds(h, 1024, k, number);
    EncodeHolds(h, 1032, l, size);
    EncodeHolds(h, 1040, l, expected);
  }

  lemma HeaderFields(p: Packet, pad: Bytes)
    requires |p.command| < COMMAND_FIELD && |pad| == 4
    ensures var h := Header(p, pad);
            && h[..1024] == Field(p.command, COMMAND_FIELD)
            && h[1024..1024 + 4] == Encode(ToUnsigned(p.sequenceNumber), 4)
            && h[1032..1032 + 8] == Encode(|p.payload|, 8) && h[1040..1040 + 8] == Encode(p.expected, 8)
  {
  }

  lemma CommandPadded(h: Bytes, command: string)
    requires |command| <= 1024 <= |h| && h[..1024] == Field(command, 1024)
    ensures HoldsText(h, command)
  {
    assert h[..|command|] == h[..1024][..|command|];
    assert forall i :: 0 <= i < 1024 ==> h[i] == h[..1024][i];
  }

  /** Whether a whole packet lies at the start of `s`. */
  predicate Complete(s: Bytes) {
    |s| >= HEADER && |s| >= HEADER + SizeOf(s)
  }

  function FirstSize(s: Bytes): (n: nat)
    requires Complete(s)
    ensures HEADER <= n <= |s|
  {
    HEADER + SizeOf(s)
  }

  function First(s: Bytes): Packet
    requires Complete(s)
  {
    Packet(CommandOf(s), SequenceOf(s), ExpectedOf(s), s[HEADER..FirstSize(s)])
  }

  /** The packets that repeated receiving takes from a byte stream. */
  function Parse(s: Bytes): seq<Packet>
    decreases |s|
  {
    if Complete(s) then [First(s)] + Parse(s[FirstSize(s)..]) else []
  }

  /** The bytes of an unfinished packet left at the end. */
  function Rest(s: Bytes): Bytes
    decreases |s|
  {
    if Complete(s) then Rest(s[FirstSize(s)..]) else s
  }

  /** A complete packet stays what it is when more bytes arrive. */
  lemma FirstStable(s: Bytes, t: Bytes)
    requires Complete(s)
    ensures Complete(s + t) && FirstSize(s + t) == FirstSize(s) && First(s + t) == First(s)
    ensures (s + t)[FirstSize(s)..] == s[FirstSize(s)..] + t
  {
    var u := s + t;
    assert u[..1024] == s[..1024] && u[1024..1028] == s[1024..1028];
    assert u[1032..1040] == s[1032..1040] && u[1040..1048] == s[1040..1048];
    assert u[HEADER..FirstSize(s)] == s[HEADER..FirstSize(s)];
  }

  /** Fragmentation does not matter: parsing may stop anywhere and go on with what was left. */
  lemma {:induction false} ParseResumes(s: Bytes, t: Bytes)
    ensures Parse(s + t) == Parse(s) + Parse(Rest(s) + t)
    ensures Rest(s + t) == Rest(Rest(s) + t)
    decreases |s|
  {
    if Complete(s) {
      FirstStable(s, t);
      ParseResumes(s[FirstSize(s)..], t);
    }
  }

  lemma FrameFirst(p: Packet, pad: Bytes, tail: Bytes)
    requires Valid(p) && |pad| == 4
    ensures var s := Frame(p, pad) + tail;
            Complete(s) && First(s) == p && FirstSize(s) == |Frame(p, pad)|
  {
    var s := Frame(p, pad) + tail;
    assert s == Header(p, pad) + (p.payload + tail);
    HeaderRoundTrip(p, pad, p.payload + tail);
    assert s[HEADER..FirstSize(s)] == p.payload;
  }

  lemma FrameParses(p: Packet, pad: Bytes, tail: Bytes)
    requires Valid(p) && |pad| == 4
    ensures Parse(Frame(p, pad) + tail) == [p] + Parse(tail)
    ensures Rest(Frame(p, pad) + tail) == Rest(tail)
  {
    var f := Frame(p, pad);
    FrameFirst(p, pad, tail);
    assert (f + tail)[|f|..] == tail;
  }

  /** The bytes of a run of packets, each with its own alignment bytes. */
  function Stream(ps: seq<Packet>, pads: seq<Bytes>): Bytes
    requires |ps| == |pads|
    requires forall i :: 0 <= i < |ps| ==> |ps[i].command| < COMMAND_FIELD && |pads[i]| == 4
  {
    if ps == [] then [] else Frame(ps[0], pads[0]) + Stream(ps[1..], pads[1..])
  }

  /** Framing round trip. */
  lemma {:induction false} StreamParses(ps: seq<Packet>, pads: seq<Bytes>)
    requires |ps| == |pads| && AllValid(ps)
    requires forall i :: 0 <= i < |ps| ==> |pads[i]| == 4
    ensures Parse(Stream(ps, pads)) == ps && Rest(Stream(ps, pads)) == []
  {
    if ps != [] {
      var rest := Stream(ps[1..], pads[1..]);
      StreamParses(ps[1..], pads[1..]);
      FrameParses(ps[0], pads[0], rest);
      assert Stream(ps, pads) == Frame(ps[0], pads[0]) + rest;
      assert ps == [ps[0]] + ps[1..];
    }
  }

  /** One direction of a TCP connection: the bytes sent and not yet received. How many bytes a
      call moves is up to the network. */
  class Pipe {
    var bytes: Bytes
    /** Whether some call reported an error or the end of the stream. */
    var failed: bool

    constructor ()
      ensures bytes == [] && !failed
    {
      bytes := [];
      failed := false;
    }

    /** send: takes over some non-empty part of `data`, or fails with -1. */
    method Send(data: Bytes) returns (n: int)
      requires data != []
      modifies this
      ensures n == -1 || 0 < n <= |data|
      ensures failed == (old(failed) || n == -1)
      ensures bytes == if n == -1 then old(bytes) else old(bytes) + data[..n]
    {
      var moved: nat :| moved <= |data|;
      n := if moved == 0 then -1 else moved;
      if n == -1 {
        failed := true;
      } else {
        bytes := bytes + data[..n];
      }
    }

    /** recv: moves at least one and at most `limit` bytes into `buffer` at `offset`, or returns
        0 when the stream has ended, or -1 on error. */
    method Recv(buffer: array<char>, offset: nat, limit: nat) returns (n: int)
      requires 0 < limit && offset + limit <= buffer.Length
      modifies this, buffer
      ensures n == -1 || n == 0 || (0 < n <= limit && n <= |old(bytes)|)
      ensures failed == (old(failed) || n <= 0)
      ensures n <= 0 ==> bytes == old(bytes) && buffer[..] == old(buffer[..])
      ensures n > 0 ==> bytes == old(bytes)[n..]
      ensures n > 0 ==> buffer[..offset] == old(buffer[..offset])
      ensures n > 0 ==> buffer[offset..offset + n] == old(bytes)[..n]
    {
      n :| n == -1 || n == 0 || (0 < n <= limit && n <= |bytes|);
      if n > 0 {
        forall i | 0 <= i < n { buffer[offset + i] := bytes[i]; }
        bytes := bytes[n..];
      } else {
        failed := true;
      }
    }
  }

  /** send_data: loops until the whole buffer is sent; on an error a proper prefix is on the
      wire. */
  method SendData(buffer: Bytes, pipe: Pipe) returns (ok: bool)
    modifies pipe
    ensures pipe.failed == (old(pipe.failed) || !ok)
    ensures ok ==> pipe.bytes == old(pipe.bytes) + buffer
    ensures !ok ==> exists k :: 0 <= k < |buffer| && pipe.bytes == old(pipe.bytes) + buffer[..k]
  {
    if |buffer| == 0 { return true; }
    var totalSent := 0;
    while totalSent < |buffer|
      invariant pipe.failed == old(pipe.failed)
      invariant 0 <= totalSent <= |buffer|
      invariant pipe.bytes == old(pipe.bytes) + buffer[..totalSent]
    {
      var bytesSent := pipe.Send(buffer[totalSent..]);
      if bytesSent == -1 {
        return false;
      }
      assert buffer[..totalSent] + buffer[totalSent..][..bytesSent] == buffer[..totalSent + bytesSent];
      totalSent := totalSent + bytesSent;
    }
    return true;
  }

  /** receive_data: loops until the buffer is full; on an error some bytes are gone. */
  method ReceiveData(buffer: array<char>, pipe: Pipe) returns (ok: bool)
    modifies pipe, buffer
    ensures pipe.failed == (old(pipe.failed) || !ok)
    ensures ok ==> buffer.Length <= |old(pipe.bytes)|
    ensures ok ==> buffer[..] == old(pipe.bytes)[..buffer.Length]
    ensures ok ==> pipe.bytes == old(pipe.bytes)[buffer.Length..]
    ensures !ok ==> exists k :: 0 <= k < buffer.Length && k <= |old(pipe.bytes)|
                              && pipe.bytes == old(pipe.bytes)[k..]
  {
    if buffer.Length == 0 { return true; }
    var totalReceived := 0;
    while totalReceived < buffer.Length
      invariant pipe.failed == old(pipe.failed)
      invariant 0 <= totalReceived <= buffer.Length && totalReceived <= |old(pipe.bytes)|
      invariant pipe.bytes == old(pipe.bytes)[totalReceived..]
      invariant buffer[..totalReceived] == old(pipe.bytes)[..totalReceived]
    {
      var bytesReceived := pipe.Recv(buffer, totalReceived, buffer.Length - totalReceived);
      if bytesReceived <= 0 {
        return false;
      }
      assert buffer[..totalReceived + bytesReceived]
          == buffer[..totalReceived] + buffer[totalReceived..totalReceived + bytesReceived];
      totalReceived := totalReceived + bytesReceived;
    }
    return true;
  }

  /** send_packet: the header bytes, then the payload if there is one. */
  method SendPacket(p: Packet, pad: Bytes, pipe: Pipe) returns (ok: bool)
    requires |p.command| < COMMAND_FIELD && |pad| == 4
    modifies pipe
    ensures pipe.failed == (old(pipe.failed) || !ok)
    ensures ok ==> pipe.bytes == old(pipe.bytes) + Frame(p, pad)
    ensures !ok ==> exists k :: 0 <= k < |Frame(p, pad)|
                              && pipe.bytes == old(pipe.bytes) + Frame(p, pad)[..k]
  {
    ghost var before := pipe.bytes;
    var header := Header(p, pad);
    ok := SendData(header, pipe);
    if !ok {
      ghost var k :| 0 <= k < |header| && pipe.bytes == before + header[..k];
      assert header[..k] == Frame(p, pad)[..k];
      return;
    }
    if |p.payload| > 0 {
      ok := SendData(p.payload, pipe);
      if !ok {
        ghost var k :| 0 <= k < |p.payload| && pipe.bytes == before + header + p.payload[..k];
        assert before + header + p.payload[..k] == before + Frame(p, pad)[..HEADER + k];
      }
    }
  }

  /** receive_packet: exactly the first packet of the stream, or an error after consuming less
      than that. */
  method ReceivePacket(pipe: Pipe) returns (ok: bool, p: Packet)
    modifies pipe
    ensures pipe.failed == (old(pipe.failed) || !ok)
    ensures ok ==> Complete(old(pipe.bytes)) && p == First(old(pipe.bytes))
    ensures ok ==> pipe.bytes == old(pipe.bytes)[FirstSize(old(pipe.bytes))..]
    ensures !ok ==> exists k :: 0 <= k <= |old(pipe.bytes)| && pipe.bytes == old(pipe.bytes)[k..]
  {
    ghost var before := pipe.bytes;
    p := Packet("", 0, 0, []);
    var header := new char[HEADER];
    ok := ReceiveData(header, pipe);
    if !ok { return; }
    var h := header[..];
    HeaderPrefix(before, h);
    var payload;
    ok, payload := ReceivePayload(SizeOf(h), pipe, before);
    if ok {
      p := Packet(CommandOf(h), SequenceOf(h), ExpectedOf(h), payload);
    }
  }

  /** The payload behind a received header, if it has any; `before` is the stream with the header. */
  method ReceivePayload(size: nat, pipe: Pipe, ghost before: Bytes) returns (ok: bool, payload: Bytes)
    requires |before| >= HEADER && pipe.bytes == before[HEADER..]
    modifies pipe
    ensures pipe.failed == (old(pipe.failed) || !ok)
    ensures ok ==> HEADER + size <= |before| && payload == before[HEADER..HEADER + size]
    ensures ok ==> pipe.bytes == before[HEADER + size..]
    ensures !ok ==> exists k :: 0 <= k <= |before| && pipe.bytes == before[k..]
  {
    var buffer := new char[size];
    ok := true;
    if size > 0 {
      ok := ReceiveData(buffer, pipe);
    }
    payload := buffer[..];
    if ok {
      assert before[HEADER..][..size] == before[HEADER..HEADER + size];
      assert before[HEADER..][size..] == before[HEADER + size..];
    } else {
      ghost var k :| 0 <= k <= |before[HEADER..]| && pipe.bytes == before[HEADER..][k..];
      assert pipe.bytes == before[HEADER + k..];
    }
  }

  lemma HeaderPrefix(s: Bytes, h: Bytes)
    requires |s| >= HEADER && h == s[..HEADER]
    ensures CommandOf(h) == CommandOf(s) && SequenceOf(h) == SequenceOf(s)
    ensures SizeOf(h) == SizeOf(s) && ExpectedOf(h) == ExpectedOf(s)
  {
    assert h[..1024] == s[..1024] && h[1024..1028] == s[1024..1028];
    assert h[1032..1040] == s[1032..1040] && h[1040..1048] == s[1040..1048];
  }

  lemma StreamStep(before: Bytes, ps: seq<Packet>, pads: seq<Bytes>, i: nat)
    requires i < |ps| == |pads|
    requires forall i :: 0 <= i < |ps| ==> |ps[i].command| < COMMAND_FIELD && |pads[i]| == 4
    ensures before + Stream(ps[i..], pads[i..])
         == before + Frame(ps[i], pads[i]) + Stream(ps[i + 1..], pads[i + 1..])
  {
    assert ps[i..][1..] == ps[i + 1..] && pads[i..][1..] == pads[i + 1..];
  }

  /** The client sends a run of packets through arbitrary partial calls. */
  method SendAll(ps: seq<Packet>, pads: seq<Bytes>, pipe: Pipe) returns (ok: bool)
    requires |ps| == |pads| && AllValid(ps)
    requires forall i :: 0 <= i < |ps| ==> |pads[i]| == 4
    modifies pipe
    ensures pipe.failed == (old(pipe.failed) || !ok)
    ensures ok ==> pipe.bytes == old(pipe.bytes) + Stream(ps, pads)
  {
    var i := 0;
    while i < |ps|
      invariant pipe.failed == old(pipe.failed)
      invariant 0 <= i <= |ps|
      invariant pipe.bytes + Stream(ps[i..], pads[i..]) == old(pipe.bytes) + Stream(ps, pads)
    {
      StreamStep(pipe.bytes, ps, pads, i);
      ok := SendPacket(ps[i], pads[i], pipe);
      if !ok { return; }
      i := i + 1;
    }
    assert Stream(ps[i..], pads[i..]) == [];
    ok := true;
  }

  /** Receives packet after packet until the stream holds none. */
  method ReceiveAll(pipe: Pipe) returns (ok: bool, received: seq<Packet>)
    requires Rest(pipe.bytes) == []
    modifies pipe
    ensures pipe.failed == (old(pipe.failed) || !ok)
    ensures ok ==> received == Parse(old(pipe.bytes)) && pipe.bytes == []
  {
    received := [];
    while |pipe.bytes| > 0
      invariant pipe.failed == old(pipe.failed)
      invariant received + Parse(pipe.bytes) == Parse(old(pipe.bytes)) && Rest(pipe.bytes) == []
      decreases |pipe.bytes|
    {
      var p;
      ghost var before := pipe.bytes;
      ok, p := ReceivePacket(pipe);
      if !ok { return; }
      assert received + ([p] + Parse(pipe.bytes)) == (received + [p]) + Parse(pipe.bytes);
      received := received + [p];
    }
    ok := true;
  }

  /** Repeated sending followed by repeated receiving, each through arbitrary partial calls:
      when no call fails, the same packets come out in the same order and no byte is left. */
  method Relay(ps: seq<Packet>, pads: seq<Bytes>, pipe: Pipe) returns (ok: bool, received: seq<Packet>)
    requires |ps| == |pads| && AllValid(ps)
    requires forall i :: 0 <= i < |ps| ==> |pads[i]| == 4
    requires pipe.bytes == []
    modifies pipe
    ensures pipe.failed == (old(pipe.failed) || !ok)
    ensures ok ==> received == ps && pipe.bytes == []
  {
    received := [];
    StreamParses(ps, pads);
    ok := SendAll(ps, pads, pipe);
    if ok {
      assert pipe.bytes == Stream(ps, pads);
      ok, received := ReceiveAll(pipe);
    }
  }
}
