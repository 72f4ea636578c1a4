/** The frame codec of the XBee API mode: byte stuffing, the length and
    checksum framing built by `xbee_make_pkt`, the unescaping read of
    `xbee_getByte`, and one iteration of the receive loop of `xbee_listen`
    (delimiter hunt, length checks, body, checksum).  A serial stream is the
    sequence of bytes not yet read; a read returns what it got and the rest
    of the stream. */
module Codec {
  import opened Types

  /** Bytes that never travel raw after the delimiter: XON, XOFF, the escape
      marker and the frame delimiter. */
  predicate Reserved(b: byte) {
    b == 0x11 || b == 0x13 || b == 0x7D || b == 0x7E
  }

  /** The wire form of one logical byte. */
  function Escaped(b: byte): seq<byte> {
    if Reserved(b) then [0x7D, Xor20(b)] else [b]
  }

  /** Number of reserved bytes in `s`. */
  function Escapes(s: seq<byte>): (n: nat)
    ensures n <= |s|
  {
    if s == [] then 0
    else (if Reserved(s[0]) then 1 else 0) + Escapes(s[1..])
  }

  /** Byte stuffing of a whole logical sequence: every reserved byte grows
      into two bytes. */
  function Stuff(s: seq<byte>): (r: seq<byte>)
    ensures |r| == |s| + Escapes(s)
  {
    if s == [] then [] else Escaped(s[0]) + Stuff(s[1..])
  }

  /** No 0x7E, 0x11 or 0x13 survives stuffing. */
  lemma {:induction false} StuffHasNoReservedRaw(s: seq<byte>)
    ensures forall i :: 0 <= i < |Stuff(s)| ==> Stuff(s)[i] != 0x7E && Stuff(s)[i] != 0x11 && Stuff(s)[i] != 0x13
    decreases |s|
  {
    if s != [] {
      StuffHasNoReservedRaw(s[1..]);
      var e := Escaped(s[0]);
      forall i | 0 <= i < |Stuff(s)|
        ensures Stuff(s)[i] != 0x7E && Stuff(s)[i] != 0x11 && Stuff(s)[i] != 0x13
      {
        if i >= |e| {
          assert Stuff(s)[i] == Stuff(s[1..])[i - |e|];
        }
      }
    }
  }

  lemma {:induction false} StuffAppend(a: seq<byte>, b: seq<byte>)
    ensures Stuff(a + b) == Stuff(a) + Stuff(b)
    decreases |a|
  {
    if a == [] {
      assert a + b == b;
    } else {
      assert (a + b)[1..] == a[1..] + b;
      StuffAppend(a[1..], b);
    }
  }

  /** Stuffing leaves a sequence without reserved bytes unchanged. */
  lemma {:induction false} StuffPlain(s: seq<byte>)
    requires forall i :: 0 <= i < |s| ==> !Reserved(s[i])
    ensures Stuff(s) == s
    decreases |s|
  {
    if s != [] {
      StuffPlain(s[1..]);
    }
  }

  // ---------------------------------------------------------------------
  // Sending: xbee_make_pkt

  /** `M8(0xFF - M8(t))` where `t` is the sum of the frame data. */
  function Checksum(data: seq<byte>): (c: byte)
    ensures (Sum(data) + c) % 256 == 0xFF
  {
    0xFF - Sum(data) % 256
  }

  /** The logical frame `[length >> 8, length & 0xFF, data..., checksum]`. */
  function Logical(data: seq<byte>): seq<byte>
    requires |data| <= 112
  {
    [|data| / 256, |data| % 256] + data + [Checksum(data)]
  }

  /** What `xbee_make_pkt` writes for `data` of at most 112 bytes.  With empty
      data the driver's `i == length` test fires before the length bytes are
      written, so all three bytes after the delimiter are the checksum 0xFF. */
  function Framed(data: seq<byte>): (r: seq<byte>)
    requires |data| <= 112
    ensures |r| >= 4 && r[0] == 0x7E
  {
    if |data| == 0 then [0x7E, 0xFF, 0xFF, 0xFF] else [0x7E] + Stuff(Logical(data))
  }

  /** The delimiter is the only raw 0x7E of a built frame, which is four bytes
      longer than the data plus one byte per escape, and whose checksum byte
      completes the data sum to 0xFF. */
  lemma {:induction false} FramedShape(data: seq<byte>)
    requires 1 <= |data| <= 112
    ensures |Framed(data)| == 4 + |data| + Escapes(Logical(data))
    ensures forall i :: 1 <= i < |Framed(data)| ==> Framed(data)[i] != 0x7E
    ensures (Sum(data) + Logical(data)[|data| + 2]) % 256 == 0xFF
  {
    var r := Framed(data);
    StuffHasNoReservedRaw(Logical(data));
    forall i | 1 <= i < |r| ensures r[i] != 0x7E {
      assert r[i] == Stuff(Logical(data))[i - 1];
    }
  }

  /** The running sum `t` of `xbee_make_pkt` after `i` data bytes. */
  function SumTo(data: seq<byte>, i: nat): int
    requires i <= |data|
  {
    if i == 0 then 0 else SumTo(data, i - 1) + data[i - 1]
  }

  lemma {:induction false} SumToIsSum(data: seq<byte>, i: nat)
    requires i <= |data|
    ensures SumTo(data, i) == Sum(data[..i])
  {
    if i > 0 {
      SumToIsSum(data, i - 1);
      assert data[..i][..i - 1] == data[..i - 1];
    }
  }

  /** The checksum byte from the running sum over all of the data. */
  lemma {:induction false} ChecksumOfSumTo(data: seq<byte>)
    ensures Checksum(data) == 0xFF - SumTo(data, |data|) % 256
  {
    SumToIsSum(data, |data|);
    assert data[..|data|] == data;
  }

  /** The byte chosen by the `if` chain of `xbee_make_pkt` on pass `k + 1`:
      `i` counts the data bytes consumed before that pass. */
  function StepByte(data: seq<byte>, k: nat): byte
    requires |data| <= 112 && k < |data| + 3
  {
    var i := if k < 2 then 0 else k - 2;
    if i == |data| then 0xFF - SumTo(data, i) % 256
    else if k == 0 then |data| / 256
    else if k == 1 then |data| % 256
    else data[i]
  }

  /** The logical bytes `xbee_make_pkt` stuffs, one per pass of its loop. */
  function Emitted(data: seq<byte>): (r: seq<byte>)
    requires |data| <= 112
    ensures |r| == |data| + 3
  {
    seq(|data| + 3, k requires 0 <= k < |data| + 3 => StepByte(data, k))
  }

  /** For non-empty data the passes emit the length bytes, the data and the
      checksum; for empty data the checksum test fires on all three passes. */
  lemma {:induction false} EmittedIsFramed(data: seq<byte>)
    requires |data| <= 112
    ensures [0x7E] + Stuff(Emitted(data)) == Framed(data)
  {
    var e := Emitted(data);
    ChecksumOfSumTo(data);
    if |data| == 0 {
      assert e == [0xFF, 0xFF, 0xFF];
      StuffPlain(e);
    } else {
      assert e == Logical(data);
    }
  }

  /** The bytes written after the delimiter by the first `k` passes of the
      loop of `xbee_make_pkt`. */
  function Wire(data: seq<byte>, k: nat): (r: seq<byte>)
    requires |data| <= 112 && k <= |data| + 3
    ensures k <= |r| <= 2 * k
  {
    if k == 0 then [] else Wire(data, k - 1) + Escaped(StepByte(data, k - 1))
  }

  /** The bytes of the first `k` passes followed by the stuffing of the
      remaining logical bytes make up the whole stuffed sequence. */
  lemma {:induction false} WireThenStuff(data: seq<byte>, k: nat)
    requires |data| <= 112 && k <= |data| + 3
    ensures Wire(data, k) + Stuff(Emitted(data)[k..]) == Stuff(Emitted(data))
  {
    var e := Emitted(data);
    if k == 0 {
      assert e[0..] == e;
    } else {
      WireThenStuff(data, k - 1);
      assert e[k - 1..][1..] == e[k..];
      assert Stuff(e[k - 1..]) == Escaped(e[k - 1]) + Stuff(e[k..]);
      ConcatAssoc(Wire(data, k - 1), Escaped(e[k - 1]), Stuff(e[k..]));
    }
  }

  /** The bytes written by all passes of the loop form the frame. */
  lemma {:induction false} StuffedSteps(data: seq<byte>)
    requires |data| <= 112
    ensures [0x7E] + Wire(data, |data| + 3) == Framed(data)
  {
    var e := Emitted(data);
    WireThenStuff(data, |e|);
    assert e[|e|..] == [];
    EmittedIsFramed(data);
  }

  /** The `if` chain at the top of the loop of `xbee_make_pkt`: the checksum
      once all data is consumed, else the length bytes on the first two
      passes, else the next data byte. */
  method NextByte(data: seq<byte>, m: nat, i: nat, t: int) returns (d: byte)
    requires |data| <= 112 && 1 <= m <= |data| + 3 && i == (if m <= 3 then 0 else m - 3)
    requires t == SumTo(data, i)
    ensures d == StepByte(data, m - 1)
  {
    var length := |data|;
    if i == length {
      d := 0xFF - t % 256;
    } else if m == 1 {
      d := length / 256;
    } else if m == 2 {
      d := length % 256;
    } else {
      d := data[i];
    }
  }

  /** The escape test and the store of one byte `d` in the loop of
      `xbee_make_pkt`: the escape marker and `d ^ 0x20` for a reserved byte,
      which also grows the frame length `l` by one, or `d` itself; returns the
      position after the byte and the new length. */
  method PutEscaped(buf: array<byte>, o: nat, d: byte, l: nat) returns (o': nat, l': nat)
    requires o + 2 <= buf.Length
    modifies buf
    ensures o' == o + |Escaped(d)| && l' + o == l + o' - 1
    ensures buf[..o'] == old(buf[..o]) + Escaped(d)
  {
    o', l' := o, l;
    var x := false;
    if Reserved(d) {
      l' := l' + 1;
      buf[o'] := 0x7D;
      o' := o' + 1;
      x := true;
    }
    buf[o'] := if !x then d else Xor20(d);
    o' := o' + 1;
  }

  /** The copy loop of `xbee_make_pkt`: the delimiter, then one pass per
      length, data and checksum byte, each stored escaped; returns the buffer
      and the frame length `l`. */
  method CopyLoop(data: seq<byte>) returns (buf: array<byte>, l: nat)
    requires |data| <= 112
    ensures l <= buf.Length && buf[..l] == [0x7E] + Wire(data, |data| + 3)
  {
    var length := |data|;
    l := 3 + length + 1;
    buf := new byte[2 * length + 7];
    buf[0] := 0x7E;
    var t, i, o, m := 0, 0, 1, 1;
    var d: byte := 0;
    while i <= length
      invariant 1 <= m <= length + 4 && i == (if m <= 3 then 0 else m - 3)
      invariant i <= length ==> t == SumTo(data, i)
      invariant o == 1 + |Wire(data, m - 1)| && l + m - 1 == o + length + 3
      invariant buf[..o] == [0x7E] + Wire(data, m - 1)
      decreases length + 4 - m
    {
      d := NextByte(data, m, i, t);
      ConcatAssoc([0x7E], Wire(data, m - 1), Escaped(d));
      o, l := PutEscaped(buf, o, d, l);
      assert buf[..o] == [0x7E] + Wire(data, m) && o == 1 + |Wire(data, m)|;
      if m > 2 {
        assert i < length ==> SumTo(data, i + 1) == t + StepByte(data, m - 1);
        i := i + 1;
        t := t + d;
      }
      m := m + 1;
    }
  }

  /** `xbee_make_pkt`: no frame (NULL) for more than 112 bytes; otherwise the
      stuffed frame. */
  method MakePkt(data: seq<byte>) returns (pkt: Option<seq<byte>>)
    ensures |data| > 112 <==> pkt == None
    ensures |data| <= 112 ==> pkt == Some(Framed(data))
  {
    if |data| > 100 + 12 {
      return None;
    }
    var buf, l := CopyLoop(data);
    StuffedSteps(data);
    return Some(buf[..l]);
  }

  // ---------------------------------------------------------------------
  // Receiving: xbee_getByte and the loop of xbee_listen

  /** `xbee_getByte`: one raw byte, or, after the escape marker 0x7D, the next
      raw byte XOR 0x20, with the rest of the stream.  None when the stream
      ends first (the driver would block waiting for more). */
  function GetByte(s: seq<byte>): (r: Option<(byte, seq<byte>)>)
    ensures r.Some? ==> |r.value.1| < |s|
  {
    if s == [] then None
    else if s[0] == 0x7D then
      if |s| >= 2 then Some((Xor20(s[1]), s[2..])) else None
    else Some((s[0], s[1..]))
  }

  /** `n` successive unescaped bytes, and the rest of the stream after them. */
  function GetBytes(s: seq<byte>, n: nat): (r: Option<(seq<byte>, seq<byte>)>)
    ensures r.Some? ==> |r.value.0| == n && |r.value.1| + n <= |s|
    decreases n
  {
    if n == 0 then Some(([], s))
    else
      var first := GetByte(s);
      if first.None? then None
      else
        var rest := GetBytes(first.value.1, n - 1);
        if rest.None? then None
        else Some(([first.value.0] + rest.value.0, rest.value.1))
  }

  /** The bytes read so far, extended by one more unescaped byte. */
  function ReadOneMore(a: Option<(seq<byte>, seq<byte>)>): Option<(seq<byte>, seq<byte>)> {
    if a.None? then None
    else
      var b := GetByte(a.value.1);
      if b.None? then None else Some((a.value.0 + [b.value.0], b.value.1))
  }

  /** Reading one byte more extends the bytes read so far at their end. */
  lemma {:induction false} GetBytesSnoc(s: seq<byte>, n: nat)
    ensures GetBytes(s, n + 1) == ReadOneMore(GetBytes(s, n))
    decreases n
  {
    var first := GetByte(s);
    if n == 0 {
      if first.Some? {
        assert GetBytes(first.value.1, 0) == Some(([], first.value.1));
        assert [first.value.0] + [] == [] + [first.value.0];
      }
    } else if first.Some? {
      GetBytesSnoc(first.value.1, n - 1);
      var mid := GetBytes(first.value.1, n - 1);
      if mid.Some? {
        var b := GetByte(mid.value.1);
        if b.Some? {
          assert [first.value.0] + (mid.value.0 + [b.value.0])
              == ([first.value.0] + mid.value.0) + [b.value.0];
        }
      }
    }
  }

  /** Once the stream runs out, reading further bytes runs out too. */
  lemma {:induction false} GetBytesNoneGrows(s: seq<byte>, k: nat, m: nat)
    requires k <= m && GetBytes(s, k).None?
    ensures GetBytes(s, m).None?
    decreases m - k
  {
    if k < m {
      GetBytesSnoc(s, k);
      GetBytesNoneGrows(s, k + 1, m);
    }
  }

  /** Unescaping the wire form of one byte gives the byte back. */
  lemma {:induction false} GetByteOfEscaped(b: byte, rest: seq<byte>)
    ensures GetByte(Escaped(b) + rest) == Some((b, rest))
  {
    var s := Escaped(b) + rest;
    if Reserved(b) {
      assert s[0] == 0x7D && s[1] == Xor20(b) && s[2..] == rest;
      Xor20Involutive(b);
    } else {
      assert s[0] == b && s[1..] == rest;
    }
  }

  /** Reading `n + 1` bytes starts with the first unescaped byte. */
  lemma {:induction false} GetBytesCons(s: seq<byte>, b: byte, t: seq<byte>, n: nat)
    requires GetByte(s) == Some((b, t))
    ensures GetBytes(t, n).Some? ==> GetBytes(s, n + 1) == Some(([b] + GetBytes(t, n).value.0, GetBytes(t, n).value.1))
  {
  }

  /** Unescaping inverts stuffing, and stops exactly after the stuffed bytes. */
  lemma {:induction false} GetBytesOfStuff(x: seq<byte>, rest: seq<byte>)
    ensures GetBytes(Stuff(x) + rest, |x|) == Some((x, rest))
    decreases |x|
  {
    if x == [] {
      assert Stuff(x) + rest == rest;
    } else {
      var t := Stuff(x[1..]) + rest;
      assert Stuff(x) + rest == Escaped(x[0]) + t;
      GetByteOfEscaped(x[0], t);
      GetBytesOfStuff(x[1..], rest);
      GetBytesCons(Stuff(x) + rest, x[0], t, |x| - 1);
      assert [x[0]] + x[1..] == x;
    }
  }

  /** What one iteration of the receive loop ends with. */
  datatype Outcome =
    | Skipped                                 // the byte read was not 0x7E
    | ZeroLength                              // declared length 0
    | Oversized                               // declared length over 100
    | BadChecksum                             // sum of type, body and checksum is not 0xFF
    | Accepted(ftype: byte, body: seq<byte>)  // a verified frame

  /** Either the stream ran out inside the iteration (the driver keeps
      waiting for bytes), or the iteration finished, leaving `rest` unread. */
  datatype Iteration = Blocked | Step(outcome: Outcome, rest: seq<byte>)

  /** The length announced by two length bytes. */
  function FrameLength(hdr: seq<byte>): nat
    requires |hdr| == 2
  {
    hdr[0] as int * 256 + hdr[1] as int
  }

  /** One pass of the `while (1)` loop of `xbee_listen` up to the checksum
      test: the type byte, `length - 1` body bytes and the checksum byte are
      read after the two length bytes, `length + 1` unescaped bytes in all. */
  function ListenIteration(s: seq<byte>): (r: Iteration)
    ensures r.Step? ==> |r.rest| < |s|
    ensures r.Step? && r.outcome.Accepted? ==> |r.outcome.body| <= 99
    ensures r.Step? && r.outcome.Skipped? <==> s != [] && s[0] != 0x7E
  {
    if s == [] then Blocked
    else if s[0] != 0x7E then Step(Skipped, s[1..])
    else match GetBytes(s[1..], 2)
      case None => Blocked
      case Some(lenBytes) =>
        var l := FrameLength(lenBytes.0);
        if l == 0 then Step(ZeroLength, lenBytes.1)
        else if l > 100 then Step(Oversized, lenBytes.1)
        else match GetBytes(lenBytes.1, l + 1)
          case None => Blocked
          case Some(frame) =>
            if Sum(frame.0) % 256 != 0xFF then Step(BadChecksum, frame.1)
            else Step(Accepted(frame.0[0], frame.0[1..l]), frame.1)
  }

  /** An iteration that finds a delimiter, a length of 1..100 and the whole
      frame ends with the checksum test. */
  lemma {:induction false} ListenIterationOfFrame(s: seq<byte>, hdr: seq<byte>, t1: seq<byte>, fb: seq<byte>, t2: seq<byte>)
    requires s != [] && s[0] == 0x7E
    requires GetBytes(s[1..], 2) == Some((hdr, t1))
    requires 1 <= FrameLength(hdr) <= 100
    requires GetBytes(t1, FrameLength(hdr) + 1) == Some((fb, t2))
    ensures ListenIteration(s)
         == if Sum(fb) % 256 != 0xFF then Step(BadChecksum, t2)
            else Step(Accepted(fb[0], fb[1..|fb| - 1]), t2)
  {
  }

  /** The wire form of a frame of `data` whose checksum byte is `c`. */
  function FramedWithChecksum(data: seq<byte>, c: byte): seq<byte>
    requires |data| <= 112
  {
    [0x7E] + Stuff([0, |data|]) + Stuff(data + [c])
  }

  /** With the right checksum byte this is the frame `xbee_make_pkt` builds. */
  lemma {:induction false} FramedWithRightChecksum(data: seq<byte>)
    requires 1 <= |data| <= 112
    ensures FramedWithChecksum(data, Checksum(data)) == Framed(data)
  {
    assert Logical(data) == [0, |data|] + (data + [Checksum(data)]);
    StuffAppend([0, |data|], data + [Checksum(data)]);
  }

  lemma {:induction false} SumSnoc(a: seq<byte>, b: byte)
    ensures Sum(a + [b]) == Sum(a) + b
  {
    assert (a + [b])[..|a + [b]| - 1] == a;
  }

  /** The checksum test passes exactly for the right checksum byte. */
  lemma {:induction false} ChecksumTest(data: seq<byte>, c: byte)
    ensures Sum(data + [c]) % 256 == 0xFF <==> c == Checksum(data)
  {
    SumSnoc(data, c);
  }

  /** The stuffed length bytes and the stuffed frame after a delimiter are
      read back, leaving the rest of the stream. */
  lemma {:induction false} ReadStuffedFrame(s: seq<byte>, hdr: seq<byte>, tail: seq<byte>, rest: seq<byte>)
    requires |hdr| == 2 && s == [0x7E] + Stuff(hdr) + Stuff(tail) + rest
    ensures s != [] && s[0] == 0x7E
    ensures GetBytes(s[1..], 2) == Some((hdr, Stuff(tail) + rest))
    ensures GetBytes(Stuff(tail) + rest, |tail|) == Some((tail, rest))
  {
    assert s[1..] == Stuff(hdr) + (Stuff(tail) + rest);
    GetBytesOfStuff(hdr, Stuff(tail) + rest);
    GetBytesOfStuff(tail, rest);
  }

  /** A delimited, length-prefixed frame of 1..100 bytes with checksum byte
      `c` is read whole; the checksum test alone decides its fate. */
  lemma {:induction false} ReadFramedWithChecksum(data: seq<byte>, c: byte, rest: seq<byte>)
    requires 1 <= |data| <= 100
    ensures ListenIteration(FramedWithChecksum(data, c) + rest)
         == if c != Checksum(data) then Step(BadChecksum, rest)
            else Step(Accepted(data[0], data[1..]), rest)
  {
    var s := FramedWithChecksum(data, c) + rest;
    var hdr: seq<byte> := [0, |data|];
    var tail := data + [c];
    ReadStuffedFrame(s, hdr, tail, rest);
    ListenIterationOfFrame(s, hdr, Stuff(tail) + rest, tail, rest);
    ChecksumTest(data, c);
    assert tail[1..|tail| - 1] == data[1..];
  }

  /** Round trip: a frame built from 1..100 bytes is read back as type byte
      `data[0]` and body `data[1..]`, consuming exactly the frame. */
  lemma {:induction false} FrameRoundTrip(data: seq<byte>, rest: seq<byte>)
    requires 1 <= |data| <= 100
    ensures ListenIteration(Framed(data) + rest) == Step(Accepted(data[0], data[1..]), rest)
  {
    FramedWithRightChecksum(data);
    ReadFramedWithChecksum(data, Checksum(data), rest);
  }

  /** A frame with a wrong checksum is discarded, and the receiver resumes
      hunting exactly at the first byte after it, so the next frame is not
      disturbed. */
  lemma {:induction false} WrongChecksumDiscarded(data: seq<byte>, c: byte, rest: seq<byte>)
    requires 1 <= |data| <= 100 && c != Checksum(data)
    ensures ListenIteration(FramedWithChecksum(data, c) + rest) == Step(BadChecksum, rest)
  {
    ReadFramedWithChecksum(data, c, rest);
  }

  /** A stream that starts with a delimiter and a stuffed length over 100 is
      dropped right after the length bytes. */
  lemma {:induction false} HeaderOversized(s: seq<byte>, hdr: seq<byte>, rest: seq<byte>)
    requires |hdr| == 2 && FrameLength(hdr) > 100
    requires s == [0x7E] + Stuff(hdr) + rest
    ensures ListenIteration(s) == Step(Oversized, rest)
  {
    assert s[1..] == Stuff(hdr) + rest;
    GetBytesOfStuff(hdr, rest);
  }

  /** Frames of 101..112 bytes, which `xbee_make_pkt` still builds, are
      dropped by the receiver right after their length bytes: hunting for the
      next delimiter resumes inside the frame's own stuffed data. */
  lemma {:induction false} OversizedFrameDropped(data: seq<byte>, rest: seq<byte>)
    requires 100 < |data| <= 112
    ensures ListenIteration(Framed(data) + rest) == Step(Oversized, Stuff(data + [Checksum(data)]) + rest)
  {
    FramedWithRightChecksum(data);
    ConcatAssoc([0x7E] + Stuff([0, |data|]), Stuff(data + [Checksum(data)]), rest);
    HeaderOversized(Framed(data) + rest, [0, |data|], Stuff(data + [Checksum(data)]) + rest);
  }

  /** The frame built for empty data, `7E FF FF FF`, announces length 0xFFFF
      and is dropped as oversized, leaving its last byte unread. */
  lemma {:induction false} EmptyFrameDropped(rest: seq<byte>)
    ensures ListenIteration(Framed([]) + rest) == Step(Oversized, [0xFF] + rest)
  {
    StuffPlain([0xFF, 0xFF]);
    assert Framed([]) + rest == [0x7E] + Stuff([0xFF, 0xFF]) + ([0xFF] + rest);
    HeaderOversized(Framed([]) + rest, [0xFF, 0xFF], [0xFF] + rest);
  }

  /** A delimiter followed by two zero length bytes is dropped right after
      them. */
  lemma {:induction false} ZeroLengthDropped(rest: seq<byte>)
    ensures ListenIteration([0x7E, 0, 0] + rest) == Step(ZeroLength, rest)
  {
    var s := [0x7E, 0, 0] + rest;
    StuffPlain([0, 0]);
    assert s[1..] == Stuff([0, 0]) + rest;
    GetBytesOfStuff([0, 0], rest);
  }

  lemma {:induction false} SumUpdate(s: seq<byte>, k: nat, b: byte)
    requires k < |s|
    ensures Sum(s[k := b]) == Sum(s) - s[k] + b
    decreases |s|
  {
    var n := |s| - 1;
    if k < n {
      assert s[k := b][..n] == s[..n][k := b];
      SumUpdate(s[..n], k, b);
    } else {
      assert s[k := b][..n] == s[..n];
    }
  }

  /** A sum that is 0xFF modulo 256 stops being so when it moves by less
      than 256 in either direction. */
  lemma {:induction false} ShiftedResidue(t: int, d: int)
    requires t % 256 == 0xFF && -256 < d < 256 && d != 0
    ensures (t + d) % 256 != 0xFF
  {
    var q := t / 256;
    assert t == 256 * q + 0xFF;
    if d > 0 {
      assert t + d == 256 * (q + 1) + (d - 1);
    } else {
      assert t + d == 256 * q + (0xFF + d);
    }
  }

  /** Changing any one byte of the type, body or checksum of a valid frame
      makes the checksum test fail. */
  lemma {:induction false} CorruptedByteRejected(data: seq<byte>, k: nat, b: byte)
    requires k <= |data| && b != (data + [Checksum(data)])[k]
    ensures Sum((data + [Checksum(data)])[k := b]) % 256 != 0xFF
  {
    var fb := data + [Checksum(data)];
    SumSnoc(data, Checksum(data));
    SumUpdate(fb, k, b);
    ShiftedResidue(Sum(fb), b - fb[k]);
  }

  /** A frame whose type or body has one byte changed in transit, with the
      checksum byte of the original, is dropped by the receiver, which
      resumes hunting exactly at the first byte after it. */
  lemma {:induction false} CorruptedBodyDropped(data: seq<byte>, k: nat, b: byte, rest: seq<byte>)
    requires 1 <= |data| <= 100 && k < |data| && b != data[k]
    ensures ListenIteration(FramedWithChecksum(data[k := b], Checksum(data)) + rest) == Step(BadChecksum, rest)
  {
    CorruptedByteRejected(data, k, b);
    assert (data + [Checksum(data)])[k := b] == data[k := b] + [Checksum(data)];
    ChecksumTest(data[k := b], Checksum(data));
    ReadFramedWithChecksum(data[k := b], Checksum(data), rest);
  }

  /** The sum of the data of a local AT "NI" query with frame ID 1. */
  lemma {:induction false} NodeIdentifierSum(data: seq<byte>)
    requires data == [0x08, 0x01, 0x4E, 0x49]
    ensures Sum(data) == 0xA0
  {
    assert data[..1][..0] == [];
    assert data[..2][..1] == data[..1];
    assert data[..3][..2] == data[..2];
    assert data[..4][..3] == data[..3];
    assert Sum(data[..1]) == 0x08;
    assert Sum(data[..2]) == 0x09;
    assert Sum(data[..3]) == 0x57;
  }

  /** The logical frame of that query: length 4, the data, checksum 0x5F. */
  lemma NodeIdentifierLogical(data: seq<byte>)
    requires data == [0x08, 0x01, 0x4E, 0x49]
    ensures Logical(data) == [0, 4, 0x08, 0x01, 0x4E, 0x49, 0x5F]
  {
    NodeIdentifierSum(data);
    assert Checksum(data) == 0x5F;
  }

  /** The request bytes of a local AT "NI" query with frame ID 1 are sent as
      `7E 00 04 08 01 4E 49 5F`. */
  lemma {:induction false} NodeIdentifierFrame(data: seq<byte>)
    requires data == [0x08, 0x01, 0x4E, 0x49]
    ensures Framed(data) == [0x7E, 0x00, 0x04, 0x08, 0x01, 0x4E, 0x49, 0x5F]
  {
    var w := Logical(data);
    NodeIdentifierLogical(data);
    assert forall i :: 0 <= i < |w| ==> !Reserved(w[i]);
    StuffPlain(w);
  }
}
