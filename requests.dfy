/** The API request `xbee_nsenddata` lays out in its `buf[]` for a
    connection: the local AT command, the remote AT command, or the 16- or
    64-bit transmit request, each a header followed by the caller's bytes. */
module Requests {
  import opened Types
  import opened Connections

  /** The result of `xbee_nsenddata` before the frame is built: -1, -2, or
      the bytes handed to `xbee_make_pkt`. */
  datatype SendResult =
    | Refused             // -1: no connection, unknown type, too long or too short
    | NotSent             // -2: a type nothing is sent for (IO and status types)
    | Request(bytes: seq<byte>)

  /** The C return code. */
  function ReturnCode(r: SendResult): int {
    match r
    case Refused => -1
    case NotSent => -2
    case Request(_) => 0
  }

  predicate IsAT(t: XbeeType) {
    t == LocalAT || t == RemoteAT16 || t == RemoteAT64
  }

  predicate IsData(t: XbeeType) {
    t == Data16 || t == Data64
  }

  /** The transmit options byte: bit 0 disables the ACK, bit 2 broadcasts. */
  function Options(disableAck: bool, broadcast: bool): (b: byte)
    ensures Bit(b, 0) == disableAck && Bit(b, 2) == broadcast
  {
    (if disableAck then 1 else 0) + (if broadcast then 4 else 0)
  }

  /** The number of header bytes before the caller's data. */
  function HeaderSize(t: XbeeType): nat {
    if t == LocalAT then 2
    else if t == RemoteAT16 || t == RemoteAT64 then 13
    else if t == Data16 then 5
    else 11
  }

  /** The header bytes for connection `c`: API identifier, frame ID, then
      for a remote AT command the 64-bit address (or zeros), the 16-bit
      address (0xFFFE for a 64-bit connection) and the apply-changes
      option, and for a transmit request the destination address and the
      options byte. */
  function Header(c: Con): (h: seq<byte>)
    reads c
    requires IsAT(c.ctype) || IsData(c.ctype)
  {
    if c.ctype == LocalAT then
      [if c.atQueue then 0x09 else 0x08, c.frameID]
    else if c.ctype == RemoteAT16 || c.ctype == RemoteAT64 then
      [0x17, c.frameID]
      + (if c.tAddr64 then c.tAddr + [0xFF, 0xFE] else Zeros(8) + c.tAddr[..2])
      + [if c.atQueue then 0x00 else 0x02]
    else if c.ctype == Data16 then
      [0x01, c.frameID] + c.tAddr[..2] + [Options(c.txDisableACK, c.txBroadcast)]
    else
      [0x00, c.frameID] + c.tAddr + [Options(c.txDisableACK, c.txBroadcast)]
  }

  /** `xbee_nsenddata` up to the call of `xbee_make_pkt`. */
  function SendRequest(c: Con?, data: seq<byte>): (r: SendResult)
    reads c
    ensures r.Request? ==> c != null && |data| <= 127 && |r.bytes| == HeaderSize(c.ctype) + |data|
  {
    if c == null || c.ctype == Unknown || |data| > 127 then Refused
    else if IsAT(c.ctype) && |data| < 2 then Refused
    else if IsAT(c.ctype) || IsData(c.ctype) then Request(Header(c) + data)
    else NotSent
  }

  /** -1 exactly for a missing connection, an unknown type, more than 127
      bytes, or fewer than two bytes of AT command; -2 exactly for the
      other types; otherwise a request ending with the caller's bytes after
      a header of the size its type fixes. */
  lemma SendRequestCases(c: Con?, data: seq<byte>)
    ensures SendRequest(c, data).Refused?
        <==> c == null || c.ctype == Unknown || |data| > 127 || (IsAT(c.ctype) && |data| < 2)
    ensures SendRequest(c, data).NotSent?
        <==> c != null && c.ctype != Unknown && |data| <= 127 && !IsAT(c.ctype) && !IsData(c.ctype)
    ensures SendRequest(c, data).Request? ==>
              var b := SendRequest(c, data).bytes;
              |b| == HeaderSize(c.ctype) + |data| && b[HeaderSize(c.ctype)..] == data
  {
  }

  // ---------------------------------------------------------------------
  // The request as the modem reads it

  /** The fields of an API request. */
  datatype ApiRequest =
    | ATCommand(queued: bool, frameID: byte, command: seq<byte>)
    | RemoteCommand(frameID: byte, addr64: seq<byte>, addr16: seq<byte>, apply: bool, command: seq<byte>)
    | Transmit16(frameID: byte, dest: seq<byte>, options: byte, payload: seq<byte>)
    | Transmit64(frameID: byte, dest: seq<byte>, options: byte, payload: seq<byte>)

  /** Reads an API request by its identifier byte, as the radio does. */
  function ParseRequest(b: seq<byte>): Option<ApiRequest> {
    if |b| < 2 then None
    else if b[0] == 0x08 || b[0] == 0x09 then Some(ATCommand(b[0] == 0x09, b[1], b[2..]))
    else if b[0] == 0x17 && |b| >= 13 then Some(RemoteCommand(b[1], b[2..10], b[10..12], b[12] == 0x02, b[13..]))
    else if b[0] == 0x01 && |b| >= 5 then Some(Transmit16(b[1], b[2..4], b[4], b[5..]))
    else if b[0] == 0x00 && |b| >= 11 then Some(Transmit64(b[1], b[2..10], b[10], b[11..]))
    else None
  }

  /** The request carries the connection's settings and the caller's data:
      the queue flag, the frame ID, the destination address as the
      connection's width gives it, the options, and the bytes unchanged. */
  lemma RequestParses(c: Con, data: seq<byte>)
    requires SendRequest(c, data).Request?
    ensures var r := ParseRequest(SendRequest(c, data).bytes);
      r.Some?
      && (c.ctype == LocalAT ==> r.value == ATCommand(c.atQueue, c.frameID, data))
      && (c.ctype == RemoteAT16 || c.ctype == RemoteAT64 ==>
            r.value == RemoteCommand(c.frameID,
                                     if c.tAddr64 then c.tAddr else Zeros(8),
                                     if c.tAddr64 then [0xFF, 0xFE] else c.tAddr[..2],
                                     !c.atQueue, data))
      && (c.ctype == Data16 ==> r.value == Transmit16(c.frameID, c.tAddr[..2], Options(c.txDisableACK, c.txBroadcast), data))
      && (c.ctype == Data64 ==> r.value == Transmit64(c.frameID, c.tAddr, Options(c.txDisableACK, c.txBroadcast), data))
  {
    if c.ctype == LocalAT {
      assert SendRequest(c, data).bytes[2..] == data;
    } else if c.ctype == RemoteAT16 || c.ctype == RemoteAT64 {
      RemoteRequestParses(c, data);
    } else {
      TransmitRequestParses(c, data);
    }
  }

  /** The remote AT request of a connection parses back to its fields. */
  lemma RemoteRequestParses(c: Con, data: seq<byte>)
    requires SendRequest(c, data).Request? && (c.ctype == RemoteAT16 || c.ctype == RemoteAT64)
    ensures ParseRequest(SendRequest(c, data).bytes)
         == Some(RemoteCommand(c.frameID,
                               if c.tAddr64 then c.tAddr else Zeros(8),
                               if c.tAddr64 then [0xFF, 0xFE] else c.tAddr[..2],
                               !c.atQueue, data))
  {
    var b := SendRequest(c, data).bytes;
    if c.tAddr64 {
      assert b[2..10] == c.tAddr && b[10..12] == [0xFF, 0xFE];
    } else {
      assert b[2..10] == Zeros(8) && b[10..12] == c.tAddr[..2];
    }
    assert b[13..] == data;
  }

  /** The transmit request of a data connection parses back to its fields. */
  lemma TransmitRequestParses(c: Con, data: seq<byte>)
    requires SendRequest(c, data).Request? && (c.ctype == Data16 || c.ctype == Data64)
    ensures c.ctype == Data16 ==>
              ParseRequest(SendRequest(c, data).bytes)
              == Some(Transmit16(c.frameID, c.tAddr[..2], Options(c.txDisableACK, c.txBroadcast), data))
    ensures c.ctype == Data64 ==>
              ParseRequest(SendRequest(c, data).bytes)
              == Some(Transmit64(c.frameID, c.tAddr, Options(c.txDisableACK, c.txBroadcast), data))
  {
    var b := SendRequest(c, data).bytes;
    if c.ctype == Data16 {
      assert b[2..4] == c.tAddr[..2] && b[5..] == data;
    } else {
      assert b[2..10] == c.tAddr && b[11..] == data;
    }
  }

  // ---------------------------------------------------------------------
  // The code that fills buf[]

  /** `buf[i + offset] = data[i]` for every byte of the caller's data. */
  method CopyData(buf: array<byte>, offset: nat, data: seq<byte>)
    requires offset + |data| <= buf.Length
    modifies buf
    ensures buf[..offset] == old(buf[..offset])
    ensures buf[offset..offset + |data|] == data
  {
    for i := 0 to |data|
      invariant buf[..offset] == old(buf[..offset])
      invariant buf[offset..offset + i] == data[..i]
    {
      buf[i + offset] := data[i];
      assert buf[offset..offset + i + 1] == buf[offset..offset + i] + [data[i]];
    }
  }

  /** `buf[0..2)` of a local AT command: the API identifier (0x09 when
      the command is only queued) and the frame ID. */
  method LocalHeader(buf: array<byte>, c: Con)
    requires buf.Length >= 2 && c.ctype == LocalAT
    modifies buf
    ensures buf[..2] == Header(c)
  {
    buf[0] := if c.atQueue then 0x09 else 0x08;
    buf[1] := c.frameID;
  }

  /** `buf[0..13)` of a remote AT command: identifier 0x17, the frame ID,
      the `memcpy` of the 64-bit address or the `memset` to zero, the 16-bit
      address, and the apply-changes option. */
  method RemoteHeader(buf: array<byte>, c: Con)
    requires buf.Length >= 13 && (c.ctype == RemoteAT16 || c.ctype == RemoteAT64)
    modifies buf
    ensures buf[..13] == Header(c)
  {
    buf[0] := 0x17;
    buf[1] := c.frameID;
    var a := if c.tAddr64 then c.tAddr else Zeros(8);
    var j := 0;
    while j < 8
      invariant 0 <= j <= 8
      invariant buf[0] == 0x17 && buf[1] == c.frameID
      invariant forall k :: 0 <= k < j ==> buf[2 + k] == a[k]
    {
      buf[2 + j] := a[j];
      j := j + 1;
    }
    if c.tAddr64 {
      buf[10] := 0xFF;
      buf[11] := 0xFE;
    } else {
      buf[10] := c.tAddr[0];
      buf[11] := c.tAddr[1];
    }
    buf[12] := if c.atQueue then 0x00 else 0x02;
    assert buf[2..10] == a;
  }

  /** `buf[0..offset)` of a transmit request: identifier 0x01 or 0x00, the
      frame ID, the `memcpy` of the 2- or 8-byte destination and the
      options byte at `offset - 1`. */
  method DataHeader(buf: array<byte>, c: Con) returns (offset: nat)
    requires buf.Length >= 11 && IsData(c.ctype)
    modifies buf
    ensures offset == HeaderSize(c.ctype) && buf[..offset] == Header(c)
  {
    if c.ctype == Data16 {
      buf[0] := 0x01;
      offset := 5;
    } else {
      buf[0] := 0x00;
      offset := 11;
    }
    var j := 0;
    while j < offset - 3
      invariant 0 <= j <= offset - 3
      invariant buf[0] == (if c.ctype == Data16 then 0x01 else 0x00)
      invariant forall k :: 0 <= k < j ==> buf[2 + k] == c.tAddr[k]
    {
      buf[2 + j] := c.tAddr[j];
      j := j + 1;
    }
    buf[1] := c.frameID;
    buf[offset - 1] := Options(c.txDisableACK, c.txBroadcast);
    assert buf[2..offset - 1] == c.tAddr[..offset - 3];
  }

  /** `xbee_nsenddata` up to the call of `xbee_make_pkt`: the checks, then
      the header written into the 128-byte `buf` and the data copied after
      it.  The request must fit the buffer. */
  method BuildRequest(c: Con?, data: seq<byte>) returns (r: SendResult)
    requires SendRequest(c, data).Request? ==> |SendRequest(c, data).bytes| <= 128
    ensures r == SendRequest(c, data)
  {
    if c == null || c.ctype == Unknown || |data| > 127 {
      return Refused;
    }
    if !IsAT(c.ctype) && !IsData(c.ctype) {
      return NotSent;
    }
    if IsAT(c.ctype) && |data| < 2 {
      return Refused;
    }
    var buf := new byte[128];
    var offset: nat;
    if c.ctype == LocalAT {
      LocalHeader(buf, c);
      offset := 2;
    } else if c.ctype == RemoteAT16 || c.ctype == RemoteAT64 {
      RemoteHeader(buf, c);
      offset := 13;
    } else {
      offset := DataHeader(buf, c);
    }
    ghost var h := Header(c);
    assert |h| == offset;
    CopyData(buf, offset, data);
    assert buf[..offset + |data|] == buf[..offset] + buf[offset..offset + |data|];
    r := Request(buf[..offset + |data|]);
  }
}
