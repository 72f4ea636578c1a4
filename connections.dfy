/** The connection registry: the connection record, how `xbee_newcon`
    normalises the type and packs the remote address, the key its lookup
    compares, the routing predicate `xbee_matchpktcon`, and the unlink step
    of `xbee_endcon2`. */
module Connections {
  import opened Types
  import opened Decoder

  /** A C `int`. */
  type int32 = x: int | -0x8000_0000 <= x < 0x8000_0000

  /** The eight-byte `tAddr` buffer of a connection. */
  type Addr = s: seq<byte> | |s| == 8 witness [0, 0, 0, 0, 0, 0, 0, 0]

  /** `xbee_con` without its `next` link (the registry is a sequence).  The
      type, frame ID and address are set once when the connection is made;
      the three option flags are left for the caller to change. */
  class Con {
    const ctype: XbeeType
    const frameID: byte
    const tAddr: Addr
    const tAddr64: bool
    var atQueue: bool
    var txDisableACK: bool
    var txBroadcast: bool

    /** `Xcalloc` and the field assignments that follow it: the flags
        start cleared and `tAddr64` is set for the 64-bit types. */
    constructor (ctype: XbeeType, frameID: byte, tAddr: Addr)
      ensures this.ctype == ctype && this.frameID == frameID && this.tAddr == tAddr
      ensures tAddr64 == Is64(ctype)
      ensures !atQueue && !txDisableACK && !txBroadcast
    {
      this.ctype := ctype;
      this.frameID := frameID;
      this.tAddr := tAddr;
      this.tAddr64 := Is64(ctype);
      this.atQueue := false;
      this.txDisableACK := false;
      this.txBroadcast := false;
    }
  }

  // ---------------------------------------------------------------------
  // The arguments of xbee_newcon

  /** Type 0 (`xbee_unknown`) asks for a local AT connection, and the
      width-generic remote AT type for a 64-bit one; other types are kept. */
  function NormaliseType(t: XbeeType): (r: XbeeType)
    ensures r != Unknown && r != RemoteAT
    ensures t != Unknown && t != RemoteAT ==> r == t
    ensures t == RemoteAT ==> r == RemoteAT64
    ensures t == Unknown ==> r == LocalAT
  {
    if t == Unknown then LocalAT
    else if t == RemoteAT then RemoteAT64
    else t
  }

  lemma NormaliseIdempotent(t: XbeeType)
    ensures NormaliseType(NormaliseType(t)) == NormaliseType(t)
  {
  }

  /** The 32-bit two's complement bit pattern of an `int`. */
  function Unsigned(v: int32): (u: nat)
    ensures u < 0x1_0000_0000
  {
    if v < 0 then v + 0x1_0000_0000 else v
  }

  /** `(t >> 24) & 0xFF`, `(t >> 16) & 0xFF`, `(t >> 8) & 0xFF`, `t & 0xFF`:
      an `int` as four bytes, most significant first. */
  function Be32(v: int32): (r: seq<byte>)
    ensures |r| == 4
  {
    var u := Unsigned(v);
    [u / 0x100_0000, (u / 0x1_0000) % 256, (u / 256) % 256, u % 256]
  }

  /** `(t >> 8) & 0xFF`, `t & 0xFF`: the low 16 bits of an `int`, most
      significant byte first. */
  function Be16(v: int32): (r: seq<byte>)
    ensures |r| == 2
  {
    var u := Unsigned(v);
    [(u / 256) % 256, u % 256]
  }

  /** The value of a sequence of bytes read most significant first. */
  function BigEndian(s: seq<byte>): nat {
    if s == [] then 0 else BigEndian(s[..|s| - 1]) * 256 + s[|s| - 1]
  }

  /** The four bytes give back the bit pattern of the `int`. */
  lemma Be32Value(v: int32)
    ensures BigEndian(Be32(v)) == Unsigned(v)
  {
    var u := Unsigned(v);
    var b := Be32(v);
    var q1, q2, q3 := u / 256, u / 0x1_0000, u / 0x100_0000;
    assert q2 == q1 / 256;
    assert q3 == q2 / 256 && q3 < 256;
    assert b == [q3, q2 % 256, q1 % 256, u % 256];
    assert b[..3][..2][..1][..0] == [];
    assert BigEndian(b[..1]) == q3;
    assert BigEndian(b[..2]) == q2 by {
      assert b[..2][..1] == b[..1];
      assert q2 == q3 * 256 + q2 % 256;
    }
    assert BigEndian(b[..3]) == q1 by {
      assert b[..3][..2] == b[..2];
      assert q1 == q2 * 256 + q1 % 256;
    }
    assert b[..4][..3] == b[..3];
    assert u == q1 * 256 + u % 256;
  }

  /** The two bytes give back the low 16 bits of the `int`. */
  lemma Be16Value(v: int32)
    ensures BigEndian(Be16(v)) == Unsigned(v) % 0x1_0000
  {
    var u := Unsigned(v);
    var b := Be16(v);
    assert b[..1][..0] == [];
    assert b[..2][..1] == b[..1];
    var q := u / 256;
    assert u == q * 256 + u % 256;
    assert q == (q / 256) * 256 + q % 256;
    assert u == (q / 256) * 0x1_0000 + ((q % 256) * 256 + u % 256);
    assert BigEndian(b[..1]) == b[0];
    assert BigEndian(b) == (q % 256) * 256 + u % 256;
  }

  /** The `tAddr` a new connection of (normalised) type `t` records: two
      `int`s for the 64-bit types, the low 16 bits of the first one followed
      by zeros for the 16-bit types, all zeros otherwise. */
  function PackAddress(t: XbeeType, a0: int32, a1: int32): (r: Addr)
    ensures Is64(t) ==> r[..4] == Be32(a0) && r[4..] == Be32(a1)
    ensures Is16(t) ==> r[..2] == Be16(a0) && r[2..] == Zeros(6)
    ensures !Is64(t) && !Is16(t) ==> r == Zeros(8)
  {
    if Is64(t) then Be32(a0) + Be32(a1)
    else if Is16(t) then Be16(a0) + Zeros(6)
    else Zeros(8)
  }

  /** The address arguments are recorded without loss: the 64-bit address
      is the two patterns side by side, the 16-bit one the low half of the
      first. */
  lemma PackAddressValue(t: XbeeType, a0: int32, a1: int32)
    ensures Is64(t) ==> (BigEndian(PackAddress(t, a0, a1)[..4]) == Unsigned(a0)
                         && BigEndian(PackAddress(t, a0, a1)[4..]) == Unsigned(a1))
    ensures Is16(t) ==> BigEndian(PackAddress(t, a0, a1)[..2]) == Unsigned(a0) % 0x1_0000
  {
    Be32Value(a0);
    Be32Value(a1);
    Be16Value(a0);
  }

  // ---------------------------------------------------------------------
  // The lookup of xbee_newcon

  /** The four tests of the lookup loop: a modem status connection of any
      frame ID, a transmit status or local AT connection with the same
      frame ID, or any connection with the same type, frame ID and address. */
  predicate KeyMatches(c: Con, t: XbeeType, frameID: byte, tAddr: Addr)
    ensures KeyMatches(c, t, frameID, tAddr) ==> c.ctype == t
  {
    (t == ModemStatus && c.ctype == t)
    || (t == TxStatus && c.ctype == t && frameID == c.frameID)
    || (t == LocalAT && c.ctype == t && frameID == c.frameID)
    || (t == c.ctype && frameID == c.frameID && tAddr == c.tAddr)
  }

  /** The same tests relate connections with equal type (and frame ID, and
      address where the type needs it); a connection always satisfies the
      tests for its own fields. */
  lemma KeyMatchesOwn(c: Con)
    ensures KeyMatches(c, c.ctype, c.frameID, c.tAddr)
  {
  }

  /** The position of the first listed connection the lookup returns. */
  function FirstKey(list: seq<Con>, t: XbeeType, frameID: byte, tAddr: Addr): (r: Option<nat>)
    ensures r.Some? ==> r.value < |list| && KeyMatches(list[r.value], t, frameID, tAddr)
    ensures r.Some? ==> forall j :: 0 <= j < r.value ==> !KeyMatches(list[j], t, frameID, tAddr)
    ensures r.None? <==> forall j :: 0 <= j < |list| ==> !KeyMatches(list[j], t, frameID, tAddr)
  {
    if list == [] then None
    else if KeyMatches(list[0], t, frameID, tAddr) then Some(0)
    else
      var r := FirstKey(list[1..], t, frameID, tAddr);
      if r.None? then None else Some(r.value + 1)
  }

  /** The loop over the connection list stops at the first connection the
      lookup tests accept. */
  lemma FirstKeyIs(list: seq<Con>, t: XbeeType, frameID: byte, tAddr: Addr, i: nat)
    requires i < |list| && KeyMatches(list[i], t, frameID, tAddr)
    requires forall j :: 0 <= j < i ==> !KeyMatches(list[j], t, frameID, tAddr)
    ensures FirstKey(list, t, frameID, tAddr) == Some(i)
  {
  }

  /** The lookup over a list with one more connection at its tail: an
      earlier hit stays where it was, and after a miss the new connection
      is found when its fields satisfy the tests. */
  lemma FirstKeyAppend(list: seq<Con>, c: Con, t: XbeeType, frameID: byte, tAddr: Addr)
    ensures FirstKey(list + [c], t, frameID, tAddr)
         == if FirstKey(list, t, frameID, tAddr).Some? then FirstKey(list, t, frameID, tAddr)
            else if KeyMatches(c, t, frameID, tAddr) then Some(|list|)
            else None
  {
    var all := list + [c];
    var k := FirstKey(list, t, frameID, tAddr);
    assert forall j :: 0 <= j < |list| ==> all[j] == list[j];
    if k.Some? {
      FirstKeyIs(all, t, frameID, tAddr, k.value);
    } else if KeyMatches(c, t, frameID, tAddr) {
      FirstKeyIs(all, t, frameID, tAddr, |list|);
    } else {
      assert forall j :: 0 <= j < |all| ==> !KeyMatches(all[j], t, frameID, tAddr);
    }
  }

  /** No two connections of the registry answer the lookup for the same
      key: which one `xbee_newcon` returns never depends on list order. */
  predicate KeysDistinct(list: seq<Con>) {
    forall i, j :: 0 <= i < j < |list| ==> !KeyMatches(list[j], list[i].ctype, list[i].frameID, list[i].tAddr)
  }

  /** Appending a connection that the lookup missed keeps the keys apart. */
  lemma {:induction false} KeysDistinctAppend(list: seq<Con>, c: Con)
    requires KeysDistinct(list)
    requires c.ctype != RemoteAT
    requires FirstKey(list, c.ctype, c.frameID, c.tAddr).None?
    ensures KeysDistinct(list + [c])
  {
    var all := list + [c];
    forall i, j | 0 <= i < j < |all|
      ensures !KeyMatches(all[j], all[i].ctype, all[i].frameID, all[i].tAddr)
    {
      if j == |list| {
        KeyMatchesSymmetric(list[i], c);
      } else {
        assert all[i] == list[i] && all[j] == list[j];
      }
    }
  }

  /** The lookup tests are symmetric between two connections' fields. */
  lemma KeyMatchesSymmetric(a: Con, b: Con)
    ensures KeyMatches(a, b.ctype, b.frameID, b.tAddr) <==> KeyMatches(b, a.ctype, a.frameID, a.tAddr)
  {
  }

  // ---------------------------------------------------------------------
  // xbee_matchpktcon

  /** The AT and status responses, routed by frame ID. */
  predicate ByFrameID(t: XbeeType) {
    t == TxStatus || t == LocalAT || t == RemoteAT
  }

  /** `xbee_matchpktcon`: the types agree (a remote AT response goes to
      either width of remote AT connection), and then a modem status always
      matches, a response routed by frame ID matches on the frame ID, and
      anything else matches on its source address, eight bytes when
      `sAddr64` is set and two otherwise. */
  predicate Match(p: Packet, c: Con)
  {
    (p.ptype == c.ctype || (p.ptype == RemoteAT && (c.ctype == RemoteAT16 || c.ctype == RemoteAT64)))
    && (p.ptype == ModemStatus
        || (ByFrameID(p.ptype) && p.frameID == c.frameID)
        || (!ByFrameID(p.ptype) && p.sAddr64 && p.addr64 == c.tAddr)
        || (!ByFrameID(p.ptype) && !p.sAddr64 && p.addr16 == c.tAddr[..2]))
  }

  /** A packet reaches only a connection of its own type, except that a
      remote AT response reaches a remote AT connection of either width. */
  lemma MatchOwnType(p: Packet, c: Con)
    requires Match(p, c)
    ensures p.ptype != RemoteAT ==> c.ctype == p.ptype
    ensures p.ptype == RemoteAT ==> c.ctype in {RemoteAT, RemoteAT16, RemoteAT64}
  {
  }

  /** The packets of one IO frame all share a header, so the driver's test
      of the last packet of a chain routes the chain as a test of any of its
      packets would. */
  lemma MatchDependsOnHeader(p: Packet, q: Packet, c: Con)
    requires SameHeader(p, q)
    ensures Match(p, c) <==> Match(q, c)
  {
  }

  /** A connection made by `xbee_newcon` never has type `Unknown`, so a
      packet of unknown type is never routed. */
  lemma UnknownNeverRouted(p: Packet, c: Con)
    requires p.ptype == Unknown && c.ctype != Unknown
    ensures !Match(p, c)
  {
  }

  /** Whom a verified frame is for, read off the frame bytes: the modem
      status connection; the AT or transmit status connection of the frame
      ID in `d[0]`; or the data or IO connection of the source address in
      `d[0..8)` or `d[0..2)`.  A frame of unknown type reaches only an
      `Unknown` connection with a zero 16-bit address. */
  predicate AddressedTo(t: byte, d: seq<byte>, c: Con)
    requires Decodable(t, d)
  {
    if t == 0x8A then c.ctype == ModemStatus
    else if t == 0x88 then c.ctype == LocalAT && c.frameID == d[0]
    else if t == 0x89 then c.ctype == TxStatus && c.frameID == d[0]
    else if t == 0x97 then (c.ctype == RemoteAT || c.ctype == RemoteAT16 || c.ctype == RemoteAT64) && c.frameID == d[0]
    else if t == 0x80 then c.ctype == Data64 && c.tAddr == d[..8]
    else if t == 0x81 then c.ctype == Data16 && c.tAddr[..2] == d[..2]
    else if t == 0x82 then c.ctype == IO64 && c.tAddr == d[..8]
    else if t == 0x83 then c.ctype == IO16 && c.tAddr[..2] == d[..2]
    else c.ctype == Unknown && c.tAddr[..2] == [0, 0]
  }

  /** Every packet of a verified frame is routed to a connection exactly
      when the frame is addressed to it. */
  lemma {:induction false} DecodedRouting(t: byte, d: seq<byte>, c: Con, j: nat)
    requires Decodable(t, d) && j < |Decode(t, d)|
    ensures Match(Decode(t, d)[j], c) <==> AddressedTo(t, d, c)
  {
    if IsIO(t) {
      IORouting(t, d, c, j);
    } else {
      FixedRouting(t, d, c);
    }
  }

  lemma IORouting(t: byte, d: seq<byte>, c: Con, j: nat)
    requires IsIO(t) && IOFits(t, d) && j < d[AddrWidth(t) + 2]
    ensures Match(Decode(t, d)[j], c) <==> AddressedTo(t, d, c)
  {
    var w := AddrWidth(t);
    var dig := DigitalPresent(d, w);
    var on := Channels(d[w + 3]);
    var hdr := IOHeader(t, d);
    IOChainShares(hdr, d, w + 5, d[w + 2], dig, on);
    MatchDependsOnHeader(Decode(t, d)[j], hdr, c);
    assert Zeros(2) == [0, 0];
  }

  lemma FixedRouting(t: byte, d: seq<byte>, c: Con)
    requires !IsIO(t) && Decodable(t, d)
    ensures Match(Decode(t, d)[0], c) <==> AddressedTo(t, d, c)
  {
    assert Zeros(2) == [0, 0];
  }

  // ---------------------------------------------------------------------
  // The unlink step of xbee_endcon2

  /** The list without the element at `k`. */
  function Unlink<T>(list: seq<T>, k: nat): (r: seq<T>)
    requires k < |list|
    ensures |r| == |list| - 1
    ensures forall j :: 0 <= j < k ==> r[j] == list[j]
    ensures forall j :: k <= j < |r| ==> r[j] == list[j + 1]
  {
    list[..k] + list[k + 1..]
  }

  /** No element is listed twice. */
  predicate Distinct<T(==)>(list: seq<T>) {
    forall i, j :: 0 <= i < j < |list| ==> list[i] != list[j]
  }

  /** Unlinking an element of a list without repetitions removes it and
      nothing else. */
  lemma UnlinkRemoves<T>(list: seq<T>, k: nat)
    requires k < |list| && Distinct(list)
    ensures list[k] !in Unlink(list, k)
    ensures forall x :: x in list && x != list[k] ==> x in Unlink(list, k)
    ensures Distinct(Unlink(list, k))
  {
    var r := Unlink(list, k);
    forall x | x in list && x != list[k]
      ensures x in r
    {
      var i :| 0 <= i < |list| && list[i] == x;
      if i < k {
        assert r[i] == x;
      } else {
        assert r[i - 1] == x;
      }
    }
  }

  /** `u->next = u->next->next` where `u` trails the search for the
      connection at `k`: for `k > 0` that is the node before it, but for the
      list head `u` is the head itself, so the second node is unlinked
      instead.  Defined when that second node exists. */
  function UnlinkAsWritten<T>(list: seq<T>, k: nat): (r: seq<T>)
    requires k < |list| && (k == 0 ==> |list| >= 2)
    ensures |r| == |list| - 1
  {
    if k == 0 then Unlink(list, 1) else Unlink(list, k)
  }

  /** Closing the first of two connections leaves it listed and drops the
      second one. */
  lemma UnlinkHeadAsWritten()
    ensures UnlinkAsWritten([1, 2], 0) == [1]
    ensures Unlink([1, 2], 0) == [2]
  {
  }

  /** Away from the head the driver's unlink is the intended one. */
  lemma UnlinkAsWrittenAwayFromHead<T>(list: seq<T>, k: nat)
    requires 0 < k < |list|
    ensures UnlinkAsWritten(list, k) == Unlink(list, k)
  {
  }
}
