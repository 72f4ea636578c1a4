/** The packet decoder of `xbee_listen`: the dispatch on the frame type byte
    that fills a zeroed packet record from fixed offsets of the frame body,
    and the splitting of an IO frame into one packet per sample with a
    moving read cursor.  Also the IO accessors `xbee_hasdigital`,
    `xbee_getdigital`, `xbee_hasanalog` and the raw branch of
    `xbee_getanalog`.

    Throughout, `d` is the frame body after the type byte (the driver's
    `d[]` buffer) and `t` is the type byte. */
module Decoder {
  import opened Types

  /** `xbee_pkt` without its `next` link (a chain is a sequence) and without
      the per-kind flags `dataPkt`, `txStatusPkt`, `modemStatusPkt`,
      `remoteATPkt` and `IOPkt`, which are set from `ptype` alone. */
  datatype Packet = Packet(
    ptype: XbeeType,
    sAddr64: bool,
    addr64: seq<byte>,
    addr16: seq<byte>,
    frameID: byte,
    atCmd: seq<byte>,
    status: byte,
    rssi: byte,
    data: seq<byte>,
    ioMask: nat,
    io: Reading)

  /** The words of one IO sample: `IOdata` and `IOanalog[0..6)`. */
  datatype Reading = Reading(digital: nat, analog: seq<nat>)

  /** The fixed-size arrays of the record have their C sizes. */
  predicate WellFormed(p: Packet) {
    |p.addr64| == 8 && |p.addr16| == 2 && |p.atCmd| == 2 && |p.io.analog| == 6
  }

  /** A packet as `Xcalloc` hands it out: every field zero, no data. */
  function Blank(): (p: Packet)
    ensures WellFormed(p) && p.data == [] && p.ioMask == 0 && p.io.digital == 0
  {
    Packet(Unknown, false, Zeros(8), Zeros(2), 0, Zeros(2), 0, 0, [], 0, Reading(0, [0, 0, 0, 0, 0, 0]))
  }

  predicate IsIO(t: byte) {
    t == 0x82 || t == 0x83
  }

  /** The width of the source address of data and IO frames: `offset` in
      the driver. */
  function AddrWidth(t: byte): nat {
    if t == 0x80 || t == 0x82 then 8 else 2
  }

  /** The number of body bytes the fixed layout of a non-IO type reads. */
  function HeaderLength(t: byte): nat {
    if t == 0x8A then 1
    else if t == 0x88 then 4
    else if t == 0x97 then 14
    else if t == 0x89 then 2
    else if t == 0x80 then 10
    else if t == 0x81 then 4
    else 0
  }

  /** The layout of a non-IO frame: a modem status, a local or remote AT
      response, a transmit status, a 64- or 16-bit data frame, or a frame of
      unknown type, which yields a packet typed `Unknown` and nothing else. */
  function DecodeFixed(t: byte, d: seq<byte>): (r: Packet)
    requires !IsIO(t) && |d| >= HeaderLength(t)
    ensures WellFormed(r) && r.ioMask == 0 && r.io == Blank().io
    ensures KnownFixed(t) ==> ResponseCode(r.ptype) == t
    ensures !KnownFixed(t) ==> r.ptype == Unknown
  {
    var b := Blank();
    if t == 0x8A then
      b.(ptype := ModemStatus, data := d[..1])
    else if t == 0x88 then
      b.(ptype := LocalAT, frameID := d[0], atCmd := d[1..3], status := d[3], data := d[4..])
    else if t == 0x97 then
      b.(ptype := RemoteAT, frameID := d[0], addr64 := d[1..9], addr16 := d[9..11],
         atCmd := d[11..13], status := d[13], data := d[14..])
    else if t == 0x89 then
      b.(ptype := TxStatus, frameID := d[0], status := d[1])
    else if t == 0x80 then
      b.(ptype := Data64, sAddr64 := true, addr64 := d[..8], rssi := d[8], status := d[9], data := d[10..])
    else if t == 0x81 then
      b.(ptype := Data16, addr16 := d[..2], rssi := d[2], status := d[3], data := d[4..])
    else
      b.(ptype := Unknown)
  }

  // ---------------------------------------------------------------------
  // IO frames: header, sample count, channel mask, then the samples

  /** The fields every packet of an IO frame shares: type, source address,
      RSSI, options byte (kept as `status`) and the 15-bit channel mask. */
  function IOHeader(t: byte, d: seq<byte>): Packet
    requires IsIO(t) && |d| >= AddrWidth(t) + 5
  {
    var w := AddrWidth(t);
    var b := Blank().(rssi := d[w], status := d[w + 1], ioMask := Word(d, w + 3) % 0x8000);
    if t == 0x82 then b.(ptype := IO64, sAddr64 := true, addr64 := d[..8])
    else b.(ptype := IO16, addr16 := d[..2])
  }

  /** The driver's test for a digital word in each sample: mask bit 8 (bit 0
      of the high mask byte) or any of mask bits 0..7. */
  predicate DigitalPresent(d: seq<byte>, w: nat)
    requires w + 4 < |d|
  {
    Bit(d[w + 3], 0) || d[w + 4] != 0
  }

  /** Which analog channels 0..5 (mask bits 9..14, bits 1..6 of the high
      mask byte `amask`) are sampled. */
  function Channels(amask: byte): (on: seq<bool>)
    ensures |on| == 6
  {
    [Bit(amask, 1), Bit(amask, 2), Bit(amask, 3), Bit(amask, 4), Bit(amask, 5), Bit(amask, 6)]
  }

  /** The number of sampled analog channels among `0..k-1`. */
  function OnBefore(on: seq<bool>, k: nat): (n: nat)
    requires k <= 6 && |on| == 6
    ensures n <= k
  {
    if k == 0 then 0 else OnBefore(on, k - 1) + (if on[k - 1] then 1 else 0)
  }

  lemma {:induction false} OnBeforeGrows(on: seq<bool>, k: nat)
    requires k <= 6 && |on| == 6
    ensures OnBefore(on, k) <= OnBefore(on, 6)
    decreases 6 - k
  {
    if k < 6 {
      OnBeforeGrows(on, k + 1);
    }
  }

  /** The bytes one sample occupies: the digital word when present and one
      word per sampled analog channel. */
  function SampleSize(dig: bool, on: seq<bool>): nat
    requires |on| == 6
  {
    (if dig then 2 else 0) + 2 * OnBefore(on, 6)
  }

  /** The analog word of channel `ch` when its words start at cursor `c`:
      a sampled channel's big-endian pair, masked to 10 bits, follows one
      pair per sampled channel below it; a channel not sampled reads 0. */
  function AnalogAt(d: seq<byte>, c: nat, on: seq<bool>, ch: nat): nat
    requires |on| == 6 && ch < 6 && c + 2 * OnBefore(on, 6) <= |d|
  {
    OnBeforeGrows(on, ch + 1);
    if on[ch] then Word(d, c + 2 * OnBefore(on, ch)) % 0x400 else 0
  }

  /** `IOanalog[0..6)` of a sample whose analog words start at cursor `c`. */
  function AnalogWords(d: seq<byte>, c: nat, on: seq<bool>): (r: seq<nat>)
    requires |on| == 6 && c + 2 * OnBefore(on, 6) <= |d|
    ensures |r| == 6
  {
    seq(6, ch requires 0 <= ch < 6 => AnalogAt(d, c, on, ch))
  }

  /** The reads of one sample at cursor `c` stay inside the body (the
      digital word is read even when absent). */
  predicate SampleFits(d: seq<byte>, c: nat, sz: nat) {
    c + 2 <= |d| && c + sz <= |d|
  }

  /** The words of the sample at cursor `c`: the digital word is read
      there whether or not it is present. */
  function ReadingAt(d: seq<byte>, c: nat, dig: bool, on: seq<bool>): Reading
    requires |on| == 6 && SampleFits(d, c, SampleSize(dig, on))
  {
    Reading(Word(d, c) % 0x200, AnalogWords(d, c + (if dig then 2 else 0), on))
  }

  /** The packet of the sample at cursor `c`. */
  function Sample(hdr: Packet, d: seq<byte>, c: nat, dig: bool, on: seq<bool>): Packet
    requires |on| == 6 && SampleFits(d, c, SampleSize(dig, on))
  {
    hdr.(io := ReadingAt(d, c, dig, on))
  }

  /** Every one of `n` samples from cursor `c` on fits in the body. */
  predicate ChainFits(d: seq<byte>, c: nat, n: nat, sz: nat)
    decreases n
  {
    n == 0 || (SampleFits(d, c, sz) && ChainFits(d, c + sz, n - 1, sz))
  }

  /** The packets of `n` samples from cursor `c` on, in sample order. */
  function IOChain(hdr: Packet, d: seq<byte>, c: nat, n: nat, dig: bool, on: seq<bool>): (r: seq<Packet>)
    requires |on| == 6 && ChainFits(d, c, n, SampleSize(dig, on))
    ensures |r| == n
    decreases n
  {
    if n == 0 then []
    else [Sample(hdr, d, c, dig, on)] + IOChain(hdr, d, c + SampleSize(dig, on), n - 1, dig, on)
  }

  /** An IO frame holds its header, at least one sample, and every byte its
      samples read. */
  predicate IOFits(t: byte, d: seq<byte>)
    requires IsIO(t)
  {
    var w := AddrWidth(t);
    |d| >= w + 5 && d[w + 2] >= 1
    && ChainFits(d, w + 5, d[w + 2], SampleSize(DigitalPresent(d, w), Channels(d[w + 3])))
  }

  /** The body holds every byte the layout of its type reads. */
  predicate Decodable(t: byte, d: seq<byte>) {
    if IsIO(t) then IOFits(t, d) else |d| >= HeaderLength(t)
  }

  /** The packets one verified frame yields: one for a non-IO type, one per
      sample for an IO type. */
  function Decode(t: byte, d: seq<byte>): (r: seq<Packet>)
    requires Decodable(t, d)
    ensures |r| == if IsIO(t) then d[AddrWidth(t) + 2] else 1
  {
    if IsIO(t) then
      var w := AddrWidth(t);
      IOChain(IOHeader(t, d), d, w + 5, d[w + 2], DigitalPresent(d, w), Channels(d[w + 3]))
    else [DecodeFixed(t, d)]
  }

  // ---------------------------------------------------------------------
  // The decoding code

  /** `for (; i > from - 1; i--) p->data[i - from] = d[i]`: the data tail of
      the body, copied from its last byte down. */
  method CopyTail(d: seq<byte>, from: nat) returns (r: seq<byte>)
    requires from <= |d|
    ensures r == d[from..]
  {
    var a := new byte[|d| - from];
    var i := |d|;
    while i > from
      invariant from <= i <= |d|
      invariant a[i - from..] == d[i..]
      decreases i
    {
      i := i - 1;
      a[i - from] := d[i];
      assert a[i - from..] == [d[i]] + d[i + 1..];
    }
    r := a[..];
  }

  /** The six analog tests of one sample, in ascending channel order: a
      sampled channel reads the pair at the cursor into its zeroed
      `IOanalog` slot and advances the cursor by two. */
  method ReadAnalog(d: seq<byte>, c: nat, on: seq<bool>) returns (analog: seq<nat>, next: nat)
    requires |on| == 6 && c + 2 * OnBefore(on, 6) <= |d|
    ensures analog == AnalogWords(d, c, on)
    ensures next == c + 2 * OnBefore(on, 6)
  {
    analog := [0, 0, 0, 0, 0, 0];
    next := c;
    for k := 0 to 6
      invariant next == c + 2 * OnBefore(on, k)
      invariant |analog| == 6
      invariant forall j :: 0 <= j < k ==> analog[j] == AnalogAt(d, c, on, j)
      invariant forall j :: k <= j < 6 ==> analog[j] == 0
    {
      OnBeforeGrows(on, k + 1);
      if on[k] {
        analog := analog[k := Word(d, next) % 0x400];
        next := next + 2;
      }
    }
    assert forall j :: 0 <= j < 6 ==> analog[j] == AnalogWords(d, c, on)[j];
  }

  /** The first sample of a chain, and the chain of the samples after it. */
  lemma IOChainStep(hdr: Packet, d: seq<byte>, c: nat, n: nat, dig: bool, on: seq<bool>)
    requires |on| == 6 && n > 0 && ChainFits(d, c, n, SampleSize(dig, on))
    ensures SampleFits(d, c, SampleSize(dig, on)) && ChainFits(d, c + SampleSize(dig, on), n - 1, SampleSize(dig, on))
    ensures IOChain(hdr, d, c, n, dig, on)
         == [Sample(hdr, d, c, dig, on)] + IOChain(hdr, d, c + SampleSize(dig, on), n - 1, dig, on)
  {
  }

  /** One pass of the sample loop: the header fields, the digital word at
      the cursor (read whether or not it is present), the cursor moved over
      it when present, then the analog words. */
  method ReadSample(hdr: Packet, d: seq<byte>, i: nat, dig: bool, on: seq<bool>) returns (p: Packet, next: nat)
    requires |on| == 6 && SampleFits(d, i, SampleSize(dig, on))
    ensures p == Sample(hdr, d, i, dig, on)
    ensures next == i + SampleSize(dig, on)
  {
    var digital := Word(d, i) % 0x200;
    next := i;
    if dig {
      next := next + 2;
    }
    var analog;
    analog, next := ReadAnalog(d, next, on);
    p := hdr.(io := Reading(digital, analog));
  }

  /** `for (o = samples; o > 0; o--)`: the loop over the samples of an IO
      frame, each sample's packet linked to the end of the chain. */
  method SampleLoop(hdr: Packet, d: seq<byte>, c: nat, samples: nat, dig: bool, on: seq<bool>)
    returns (chain: seq<Packet>)
    requires |on| == 6 && ChainFits(d, c, samples, SampleSize(dig, on))
    ensures chain == IOChain(hdr, d, c, samples, dig, on)
  {
    var i := c;
    chain := [];
    var o := samples;
    ghost var all := IOChain(hdr, d, c, samples, dig, on);
    while o > 0
      invariant ChainFits(d, i, o, SampleSize(dig, on))
      invariant chain + IOChain(hdr, d, i, o, dig, on) == all
      decreases o
    {
      IOChainStep(hdr, d, i, o, dig, on);
      ghost var rest := IOChain(hdr, d, i, o, dig, on);
      ghost var before := chain;
      var p;
      p, i := ReadSample(hdr, d, i, dig, on);
      chain := chain + [p];
      ConcatAssoc(before, [p], IOChain(hdr, d, i, o - 1, dig, on));
      o := o - 1;
    }
  }

  /** An IO frame: the shared header, the digital-word test and the analog
      channel set are read once, then the samples from offset `w + 5`. */
  method DecodeIO(t: byte, d: seq<byte>) returns (chain: seq<Packet>)
    requires IsIO(t) && IOFits(t, d)
    ensures chain == Decode(t, d)
  {
    var w := AddrWidth(t);
    chain := SampleLoop(IOHeader(t, d), d, w + 5, d[w + 2], DigitalPresent(d, w), Channels(d[w + 3]));
  }

  /** The dispatch on the type byte for one verified frame. */
  method DecodeFrame(t: byte, d: seq<byte>) returns (chain: seq<Packet>)
    requires Decodable(t, d)
    ensures chain == Decode(t, d)
  {
    if IsIO(t) {
      chain := DecodeIO(t, d);
      return;
    }
    var p := Blank();
    if t == 0x8A {
      p := p.(ptype := ModemStatus, data := [d[0]]);
      assert [d[0]] == d[..1];
    } else if t == 0x88 {
      var data := CopyTail(d, 4);
      p := p.(ptype := LocalAT, frameID := d[0], atCmd := [d[1], d[2]], status := d[3], data := data);
      assert [d[1], d[2]] == d[1..3];
    } else if t == 0x97 {
      var data := CopyTail(d, 14);
      p := p.(ptype := RemoteAT, frameID := d[0], addr64 := d[1..9], addr16 := [d[9], d[10]],
              atCmd := [d[11], d[12]], status := d[13], data := data);
      assert [d[9], d[10]] == d[9..11] && [d[11], d[12]] == d[11..13];
    } else if t == 0x89 {
      p := p.(ptype := TxStatus, frameID := d[0], status := d[1]);
    } else if t == 0x80 || t == 0x81 {
      var w := AddrWidth(t);
      var data := CopyTail(d, w + 2);
      if t == 0x80 {
        p := p.(ptype := Data64, sAddr64 := true, addr64 := d[..8]);
      } else {
        p := p.(ptype := Data16, addr16 := [d[0], d[1]]);
        assert [d[0], d[1]] == d[..2];
      }
      p := p.(rssi := d[w], status := d[w + 1], data := data);
    } else {
      p := p.(ptype := Unknown);
    }
    chain := [p];
  }

  // ---------------------------------------------------------------------
  // What the decoder keeps of a frame

  /** The response code of each decoded type: the inverse of the dispatch. */
  function ResponseCode(pt: XbeeType): byte {
    match pt
    case ModemStatus => 0x8A
    case LocalAT => 0x88
    case RemoteAT => 0x97
    case TxStatus => 0x89
    case Data64 => 0x80
    case Data16 => 0x81
    case IO64 => 0x82
    case IO16 => 0x83
    case _ => 0
  }

  /** The body bytes a fixed-layout packet was read from, laid out again. */
  function FixedBody(p: Packet): seq<byte> {
    match p.ptype
    case ModemStatus => p.data
    case LocalAT => [p.frameID] + p.atCmd + [p.status] + p.data
    case RemoteAT => [p.frameID] + p.addr64 + p.addr16 + p.atCmd + [p.status] + p.data
    case TxStatus => [p.frameID, p.status]
    case Data64 => p.addr64 + [p.rssi, p.status] + p.data
    case Data16 => p.addr16 + [p.rssi, p.status] + p.data
    case _ => []
  }

  predicate KnownFixed(t: byte) {
    t == 0x8A || t == 0x88 || t == 0x97 || t == 0x89 || t == 0x80 || t == 0x81
  }

  /** Decoding a fixed-layout frame loses nothing: the packet's type gives
      the type byte back, and its fields laid out again give the header the
      type reads followed, for AT responses and data frames, by the rest of
      the body.  Any other non-IO type byte gives an empty `Unknown` packet. */
  lemma {:induction false} FixedDecodeLossless(t: byte, d: seq<byte>)
    requires !IsIO(t) && Decodable(t, d)
    ensures var p := Decode(t, d)[0];
      WellFormed(p)
      && (KnownFixed(t) ==> ResponseCode(p.ptype) == t)
      && (t == 0x88 || t == 0x97 || t == 0x80 || t == 0x81 ==> FixedBody(p) == d)
      && (t == 0x89 || t == 0x8A ==> FixedBody(p) == d[..HeaderLength(t)])
      && (!KnownFixed(t) ==> p == Blank().(ptype := Unknown))
  {
    assert Decode(t, d)[0] == DecodeFixed(t, d);
    if t == 0x88 || t == 0x97 {
      ATBodyLossless(t, d);
    } else if t == 0x80 || t == 0x81 {
      DataBodyLossless(t, d);
    } else if t == 0x89 {
      assert d[..2] == [d[0], d[1]];
    }
  }

  /** The AT responses lay their whole body out again. */
  lemma ATBodyLossless(t: byte, d: seq<byte>)
    requires (t == 0x88 || t == 0x97) && |d| >= HeaderLength(t)
    ensures FixedBody(DecodeFixed(t, d)) == d
  {
    if t == 0x88 {
      assert d == [d[0]] + d[1..3] + [d[3]] + d[4..];
    } else {
      assert d == [d[0]] + d[1..9] + d[9..11] + d[11..13] + [d[13]] + d[14..];
    }
  }

  /** The data frames lay their whole body out again. */
  lemma DataBodyLossless(t: byte, d: seq<byte>)
    requires (t == 0x80 || t == 0x81) && |d| >= HeaderLength(t)
    ensures FixedBody(DecodeFixed(t, d)) == d
  {
    if t == 0x80 {
      assert d == d[..8] + [d[8], d[9]] + d[10..];
    } else {
      assert d == d[..2] + [d[2], d[3]] + d[4..];
    }
  }

  /** A transmit status frame for frame ID 3 with status 1 (no ACK). */
  lemma TxStatusExample()
    ensures Decodable(0x89, [0x03, 0x01])
    ensures Decode(0x89, [0x03, 0x01]) == [Blank().(ptype := TxStatus, frameID := 0x03, status := 0x01)]
  {
  }

  // ---------------------------------------------------------------------
  // Properties of IO decoding

  /** `p` carries the header fields of `hdr`. */
  predicate SameHeader(p: Packet, hdr: Packet) {
    p.ptype == hdr.ptype && p.sAddr64 == hdr.sAddr64 && p.addr64 == hdr.addr64
    && p.addr16 == hdr.addr16 && p.frameID == hdr.frameID && p.atCmd == hdr.atCmd
    && p.status == hdr.status && p.rssi == hdr.rssi && p.data == hdr.data && p.ioMask == hdr.ioMask
  }

  /** Every packet of a sample chain shares the header, and its analog words
      are six. */
  lemma {:induction false} IOChainShares(hdr: Packet, d: seq<byte>, c: nat, n: nat, dig: bool, on: seq<bool>)
    requires |on| == 6 && ChainFits(d, c, n, SampleSize(dig, on))
    ensures forall j :: 0 <= j < n ==> SameHeader(IOChain(hdr, d, c, n, dig, on)[j], hdr)
    ensures forall j :: 0 <= j < n ==> |IOChain(hdr, d, c, n, dig, on)[j].io.analog| == 6
    decreases n
  {
    if n > 0 {
      var sz := SampleSize(dig, on);
      IOChainShares(hdr, d, c + sz, n - 1, dig, on);
      var r := IOChain(hdr, d, c, n, dig, on);
      forall j | 0 <= j < n
        ensures SameHeader(r[j], hdr) && |r[j].io.analog| == 6
      {
        if j > 0 {
          assert r[j] == IOChain(hdr, d, c + sz, n - 1, dig, on)[j - 1];
        }
      }
    }
  }

  /** Sample `j` of a chain is read at cursor `c + j * size`: the cursor
      moves by the same amount for every sample. */
  lemma {:induction false} IOChainAt(hdr: Packet, d: seq<byte>, c: nat, n: nat, dig: bool, on: seq<bool>, j: nat)
    requires |on| == 6 && ChainFits(d, c, n, SampleSize(dig, on)) && j < n
    ensures SampleFits(d, c + j * SampleSize(dig, on), SampleSize(dig, on))
    ensures IOChain(hdr, d, c, n, dig, on)[j] == Sample(hdr, d, c + j * SampleSize(dig, on), dig, on)
    decreases j
  {
    var sz := SampleSize(dig, on);
    IOChainStep(hdr, d, c, n, dig, on);
    if j > 0 {
      IOChainAt(hdr, d, c + sz, n - 1, dig, on, j - 1);
      var at := c + sz + (j - 1) * sz;
      assert at == c + j * sz by {
        assert sz + (j - 1) * sz == j * sz;
      }
      assert IOChain(hdr, d, c, n, dig, on)[j] == IOChain(hdr, d, c + sz, n - 1, dig, on)[j - 1];
    }
  }

  // ---------------------------------------------------------------------
  // The IO accessors

  /** `xbee_hasdigital`: digital line `input` (0..7) is in the mask. */
  predicate HasDigital(p: Packet, input: int)
  {
    0 <= input <= 7 && Bit(p.ioMask, input)
  }

  /** `xbee_getdigital`: the line is sampled and high. */
  predicate GetDigital(p: Packet, input: int)
  {
    HasDigital(p, input) && Bit(p.io.digital, input)
  }

  /** `xbee_hasanalog`: analog channel `input` (0..5, mask bit `9 + input`)
      is in the mask. */
  predicate HasAnalog(p: Packet, input: int)
  {
    0 <= input <= 5 && Bit(p.ioMask, 9 + input)
  }

  /** What the accessors promise: a line or channel outside the range is
      never present, a present one has its mask bit, so the mask is at least
      that bit's value, and only a present line can read high. */
  lemma AccessorBounds(p: Packet, input: int)
    ensures HasDigital(p, input) ==> 0 <= input <= 7 && p.ioMask >= Pow2(input)
    ensures GetDigital(p, input) ==> HasDigital(p, input) && p.io.digital >= Pow2(input)
    ensures HasAnalog(p, input) ==> 0 <= input <= 5 && p.ioMask >= Pow2(9 + input)
  {
    if GetDigital(p, input) {
      BitBound(p.io.digital, input);
    }
    if HasDigital(p, input) {
      BitBound(p.ioMask, input);
    }
    if HasAnalog(p, input) {
      BitBound(p.ioMask, 9 + input);
    }
  }

  /** `xbee_getanalog` with a zero reference voltage: the raw 10-bit word,
      or 0 when the channel is out of range or not sampled. */
  function AnalogRaw(p: Packet, input: int): (r: nat)
    requires WellFormed(p)
    ensures r != 0 ==> HasAnalog(p, input) && r == p.io.analog[input]
  {
    if HasAnalog(p, input) then p.io.analog[input] else 0
  }

  /** `xbee_getanalog` as the driver has it: with a non-zero reference
      voltage it scales the word of channel 0, whichever channel was asked
      for.  Real arithmetic stands for the C `double`. */
  function GetAnalogAsWritten(p: Packet, input: int, vref: real): (r: real)
    requires WellFormed(p)
    ensures vref == 0.0 ==> r == AnalogRaw(p, input) as real
    ensures !HasAnalog(p, input) ==> r == 0.0
  {
    if !HasAnalog(p, input) then 0.0
    else if vref != 0.0 then (vref / 1024.0) * (p.io.analog[0] as real)
    else p.io.analog[input] as real
  }

  /** `xbee_getanalog` as intended: the word of the channel asked for, in
      units of `vref / 1024` when a reference voltage is given. */
  function GetAnalog(p: Packet, input: int, vref: real): (r: real)
    requires WellFormed(p)
    ensures vref == 0.0 ==> r == AnalogRaw(p, input) as real
    ensures vref != 0.0 ==> r * 1024.0 == vref * (AnalogRaw(p, input) as real)
    ensures !HasAnalog(p, input) ==> r == 0.0
  {
    if vref == 0.0 then AnalogRaw(p, input) as real
    else (vref / 1024.0) * (AnalogRaw(p, input) as real)
  }

  /** The two agree on channel 0 and whenever no reference is given. */
  lemma GetAnalogAgrees(p: Packet, input: int, vref: real)
    requires WellFormed(p) && (input == 0 || vref == 0.0)
    ensures GetAnalogAsWritten(p, input, vref) == GetAnalog(p, input, vref)
  {
  }

  /** A packet with channels 0 and 1 sampled at 0x100 and 0x200: asked for
      channel 1 against a 1024 V reference, the driver answers 256.0 (the
      scaled channel 0) where the channel's own word gives 512.0. */
  lemma AsWrittenScalesChannelZero()
    ensures var p := Blank().(ioMask := 0x600, io := Reading(0, [0x100, 0x200, 0, 0, 0, 0]));
      WellFormed(p) && HasAnalog(p, 1)
      && GetAnalogAsWritten(p, 1, 1024.0) == 256.0
      && GetAnalog(p, 1, 1024.0) == 512.0
  {
    var p := Blank().(ioMask := 0x600, io := Reading(0, [0x100, 0x200, 0, 0, 0, 0]));
    assert Pow2(10) == 1024;
    assert HasAnalog(p, 1);
  }

  lemma ChannelsBit(amask: byte, k: nat)
    requires k < 6
    ensures Channels(amask)[k] == Bit(amask, k + 1)
  {
  }

  /** The digital accessors of a sample in terms of the frame bytes. */
  lemma SampleDigital(t: byte, d: seq<byte>, c: nat, k: int)
    requires IsIO(t) && |d| >= AddrWidth(t) + 5
    requires SampleFits(d, c, SampleSize(DigitalPresent(d, AddrWidth(t)), Channels(d[AddrWidth(t) + 3])))
    ensures var w := AddrWidth(t);
      var p := Sample(IOHeader(t, d), d, c, DigitalPresent(d, w), Channels(d[w + 3]));
      (HasDigital(p, k) <==> 0 <= k <= 7 && Bit(d[w + 4], k))
      && (GetDigital(p, k) <==> 0 <= k <= 7 && Bit(d[w + 4], k) && Bit(d[c + 1], k))
  {
    var w := AddrWidth(t);
    var p := Sample(IOHeader(t, d), d, c, DigitalPresent(d, w), Channels(d[w + 3]));
    assert p.ioMask == (d[w + 3] as int * 256 + d[w + 4]) % 0x8000;
    assert p.io.digital == (d[c] as int * 256 + d[c + 1]) % 0x200;
    if 0 <= k <= 7 {
      MaskBits(d[w + 3], d[w + 4], k);
      DigitalBits(d[c], d[c + 1], k);
    }
  }

  /** The analog accessors of a sample in terms of the frame bytes. */
  lemma SampleAnalog(t: byte, d: seq<byte>, c: nat, k: int)
    requires IsIO(t) && |d| >= AddrWidth(t) + 5
    requires SampleFits(d, c, SampleSize(DigitalPresent(d, AddrWidth(t)), Channels(d[AddrWidth(t) + 3])))
    ensures var w := AddrWidth(t);
      var dig := DigitalPresent(d, w);
      var on := Channels(d[w + 3]);
      var p := Sample(IOHeader(t, d), d, c, dig, on);
      var first := c + (if dig then 2 else 0);
      WellFormed(p)
      && (HasAnalog(p, k) <==> 0 <= k <= 5 && Bit(d[w + 3], k + 1))
      && (0 <= k <= 5 && Bit(d[w + 3], k + 1) ==>
            first + 2 * OnBefore(on, k) + 1 < |d|
            && AnalogRaw(p, k) == Word(d, first + 2 * OnBefore(on, k)) % 0x400)
      && (!(0 <= k <= 5 && Bit(d[w + 3], k + 1)) ==> AnalogRaw(p, k) == 0)
  {
    var w := AddrWidth(t);
    var on := Channels(d[w + 3]);
    var p := Sample(IOHeader(t, d), d, c, DigitalPresent(d, w), on);
    assert p.ioMask == (d[w + 3] as int * 256 + d[w + 4]) % 0x8000;
    if 0 <= k <= 5 {
      MaskBits(d[w + 3], d[w + 4], 9 + k);
      ChannelsBit(d[w + 3], k);
      OnBeforeGrows(on, k + 1);
    }
  }

  /** The accessor results for a sample at cursor `c` of an IO frame, in
      terms of the frame bytes: the digital lines come from the low mask
      byte and the low byte of the digital word, the analog channels from
      bits 1..6 of the high mask byte and the words after the digital word. */
  lemma SampleAccessors(t: byte, d: seq<byte>, c: nat, k: int)
    requires IsIO(t) && |d| >= AddrWidth(t) + 5
    requires SampleFits(d, c, SampleSize(DigitalPresent(d, AddrWidth(t)), Channels(d[AddrWidth(t) + 3])))
    ensures var w := AddrWidth(t);
      var dig := DigitalPresent(d, w);
      var on := Channels(d[w + 3]);
      var p := Sample(IOHeader(t, d), d, c, dig, on);
      var first := c + (if dig then 2 else 0);
      WellFormed(p)
      && (HasDigital(p, k) <==> 0 <= k <= 7 && Bit(d[w + 4], k))
      && (GetDigital(p, k) <==> 0 <= k <= 7 && Bit(d[w + 4], k) && Bit(d[c + 1], k))
      && (HasAnalog(p, k) <==> 0 <= k <= 5 && Bit(d[w + 3], k + 1))
      && (0 <= k <= 5 && Bit(d[w + 3], k + 1) ==>
            first + 2 * OnBefore(on, k) + 1 < |d|
            && AnalogRaw(p, k) == Word(d, first + 2 * OnBefore(on, k)) % 0x400)
      && (!(0 <= k <= 5 && Bit(d[w + 3], k + 1)) ==> AnalogRaw(p, k) == 0)
  {
    SampleDigital(t, d, c, k);
    SampleAnalog(t, d, c, k);
  }

  // ---------------------------------------------------------------------
  // The analog presence test as the driver writes it

  /** The driver tests analog presence on `d[11]` for both widths; that is
      the high mask byte only when the address is 64 bits wide.  The chain
      it decodes for an IO frame with at least twelve body bytes. */
  function DecodeIOAsWritten(t: byte, d: seq<byte>): (r: seq<Packet>)
    requires IsIO(t) && |d| > 11 && |d| >= AddrWidth(t) + 5
    requires ChainFits(d, AddrWidth(t) + 5, d[AddrWidth(t) + 2], SampleSize(DigitalPresent(d, AddrWidth(t)), Channels(d[11])))
    ensures |r| == d[AddrWidth(t) + 2]
  {
    var w := AddrWidth(t);
    IOChain(IOHeader(t, d), d, w + 5, d[w + 2], DigitalPresent(d, w), Channels(d[11]))
  }

  /** On 64-bit IO frames the driver's test reads the right byte. */
  lemma AsWrittenAgreesOn64(d: seq<byte>)
    requires |d| > 11 && IOFits(0x82, d)
    ensures DecodeIOAsWritten(0x82, d) == Decode(0x82, d)
  {
  }

  /** A 16-bit IO frame from address 0x1234 with three samples of analog
      channel 0 only (mask 0x0200): 0x123, 0x234 and 0x045. */
  function Io16Frame(): seq<byte> {
    [0x12, 0x34, 0x28, 0x00, 0x03, 0x02, 0x00, 0x01, 0x23, 0x02, 0x34, 0x00, 0x45]
  }

  /** The layout of `Io16Frame`: no digital word, analog channel 0 only
      for the correct test and no channel at all for the driver's test. */
  lemma Io16Layout(d: seq<byte>)
    requires d == Io16Frame()
    ensures !DigitalPresent(d, 2) && d[4] == 3 && d[5] == 0x02 && d[11] == 0x00
      && Channels(0x02) == [true, false, false, false, false, false]
      && Channels(0x00) == [false, false, false, false, false, false]
      && SampleSize(false, Channels(0x02)) == 2 && SampleSize(false, Channels(0x00)) == 0
      && IOFits(0x83, d)
  {
    var on := Channels(0x02);
    assert on == [true, false, false, false, false, false];
    assert ChainFits(d, 11, 1, 2) && ChainFits(d, 9, 2, 2);
  }

  /** When bit 1 of `d[11]` is clear but the mask of a 16-bit frame
      enables analog channel 0, the driver's first packet says channel 0 is
      sampled and reports 0 for it. */
  lemma {:induction false} AsWrittenChannelZero(d: seq<byte>)
    requires |d| > 11 && d[4] >= 1
    requires ChainFits(d, 7, d[4], SampleSize(DigitalPresent(d, 2), Channels(d[11])))
    requires Bit(d[5], 1) && !Bit(d[11], 1)
    ensures var p := DecodeIOAsWritten(0x83, d)[0];
      WellFormed(p) && HasAnalog(p, 0) && AnalogRaw(p, 0) == 0
  {
    var dig, off := DigitalPresent(d, 2), Channels(d[11]);
    var hdr := IOHeader(0x83, d);
    IOChainStep(hdr, d, 7, d[4], dig, off);
    var p := DecodeIOAsWritten(0x83, d)[0];
    assert p == Sample(hdr, d, 7, dig, off);
    assert p.ioMask == (d[5] as int * 256 + d[6]) % 0x8000;
    MaskBits(d[5], d[6], 9);
    assert !off[0];
    assert p.io.analog[0] == AnalogAt(d, 7 + (if dig then 2 else 0), off, 0);
  }

  /** The driver's test sees the clear bit 1 of the third sample's high
      byte and reads no analog word: the first packet says channel 0 is
      sampled but reports 0 for it. */
  lemma AsWrittenAnalogMissed(d: seq<byte>)
    requires d == Io16Frame()
    ensures IOFits(0x83, d) && |d| > 11
    ensures var p := DecodeIOAsWritten(0x83, d)[0];
      WellFormed(p) && HasAnalog(p, 0) && AnalogRaw(p, 0) == 0
  {
    Io16Layout(d);
    assert ChainFits(d, 7, 3, 0);
    assert Bit(d[5], 1) && !Bit(d[11], 1);
    AsWrittenChannelZero(d);
  }

  /** In a 16-bit IO frame without a digital word whose mask samples
      analog channel 0 only, packet `j` of the decoded chain reports the
      10-bit word of sample `j`. */
  lemma {:induction false} ChannelZeroRead(d: seq<byte>, j: nat)
    requires IOFits(0x83, d) && !DigitalPresent(d, 2) && d[5] == 0x02 && j < d[4]
    ensures 7 + 2 * j + 1 < |d|
    ensures var r := Decode(0x83, d);
      |r| == d[4] && WellFormed(r[j]) && HasAnalog(r[j], 0)
      && AnalogRaw(r[j], 0) == Word(d, 7 + 2 * j) % 0x400
  {
    var on := Channels(0x02);
    assert on == [true, false, false, false, false, false];
    assert SampleSize(false, on) == 2;
    var hdr := IOHeader(0x83, d);
    assert Decode(0x83, d) == IOChain(hdr, d, 7, d[4], false, on);
    IOChainAt(hdr, d, 7, d[4], false, on, j);
    SampleAccessors(0x83, d, 7 + 2 * j, 0);
    assert OnBefore(on, 0) == 0;
    MaskBits(d[5], d[6], 9);
  }

  /** The intended decoding of a 16-bit IO frame laid out as `Io16Frame`,
      with no digital word, analog channel 0 only and the first sample word
      `01 23`, reads channel 0 of the first sample as 0x123, where the
      driver reports 0. */
  lemma IntendedAnalogRead(d: seq<byte>)
    requires IOFits(0x83, d) && !DigitalPresent(d, 2) && d[5] == 0x02
    requires d[7] == 0x01 && d[8] == 0x23
    ensures WellFormed(Decode(0x83, d)[0]) && HasAnalog(Decode(0x83, d)[0], 0)
    ensures AnalogRaw(Decode(0x83, d)[0], 0) == 0x123
  {
    ChannelZeroRead(d, 0);
  }

  /** `Io16Frame` meets the premises of `IntendedAnalogRead`. */
  lemma Io16Intended(d: seq<byte>)
    requires d == Io16Frame()
    ensures IOFits(0x83, d) && !DigitalPresent(d, 2) && d[5] == 0x02
    ensures d[7] == 0x01 && d[8] == 0x23
  {
    Io16Layout(d);
  }

  /** The sample words of `Io16Frame`. */
  lemma Io16Words(d: seq<byte>)
    requires d == Io16Frame()
    ensures Word(d, 7) == 0x123 && Word(d, 9) == 0x234 && Word(d, 11) == 0x045
  {
  }
}
