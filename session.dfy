/** The driver state `xbee` with its connection list and packet list, the
    serial line as the bytes still to be read and the bytes written, and
    the operations on them: `xbee_newcon`, `xbee_endcon2`,
    `xbee_getpacket`, `xbee_getpacketwait`, `xbee_flushcon`,
    `xbee_nsenddata` and the body of the `xbee_listen` loop.  The three
    mutexes are gone: one caller owns the state. */
module Session {
  import opened Types
  import opened Codec
  import opened Decoder
  import opened Connections
  import opened Queue
  import opened Requests

  /** The packets one finished iteration of the receive loop appends: the
      routed chain of a verified frame that holds every byte its layout
      reads, nothing otherwise. */
  function Delivered(conlist: seq<Con>, o: Outcome): (r: seq<Packet>)
    ensures r != [] ==> o.Accepted?
  {
    if o.Accepted? && Decodable(o.ftype, o.body) then Routed(conlist, Decode(o.ftype, o.body)) else []
  }

  /** The receive loop run until the stream runs out: the packets it
      appends, and the bytes it is still waiting to complete. */
  function Receive(conlist: seq<Con>, s: seq<byte>): (r: (seq<Packet>, seq<byte>))
    ensures |r.1| <= |s|
    decreases |s|
  {
    match ListenIteration(s)
    case Blocked => ([], s)
    case Step(o, rest) =>
      var next := Receive(conlist, rest);
      (Delivered(conlist, o) + next.0, next.1)
  }

  /** A frame built by `xbee_make_pkt` from the type byte and body of a
      response is received as that response: its routed packets come
      first, and the receiver goes on with the bytes after it. */
  lemma ReceiveFrame(conlist: seq<Con>, data: seq<byte>, rest: seq<byte>)
    requires 1 <= |data| <= 100
    ensures Receive(conlist, Framed(data) + rest).0
         == Delivered(conlist, Accepted(data[0], data[1..])) + Receive(conlist, rest).0
    ensures Receive(conlist, Framed(data) + rest).1 == Receive(conlist, rest).1
  {
    FrameRoundTrip(data, rest);
  }

  /** Bytes before a delimiter are skipped one by one without effect. */
  lemma ReceiveSkipsNoise(conlist: seq<Con>, b: byte, s: seq<byte>)
    requires b != 0x7E
    ensures Receive(conlist, [b] + s) == Receive(conlist, s)
  {
    assert ([b] + s)[1..] == s;
    assert ListenIteration([b] + s) == Step(Skipped, s);
    ReceiveStep(conlist, [b] + s);
    assert [] + Receive(conlist, s).0 == Receive(conlist, s).0;
  }

  /** One finished pass, then the rest of the run. */
  lemma ReceiveStep(conlist: seq<Con>, s: seq<byte>)
    requires ListenIteration(s).Step?
    ensures var it := ListenIteration(s);
      Receive(conlist, s) == (Delivered(conlist, it.outcome) + Receive(conlist, it.rest).0, Receive(conlist, it.rest).1)
  {
  }

  /** The state of the driver: `xbee.conlist`, `xbee.pktlist`, and the two
      directions of the serial line. */
  class Xbee {
    var conlist: seq<Con>
    var pktlist: seq<Packet>
    /** The bytes the radio has sent that the driver has not read yet. */
    var rx: seq<byte>
    /** The bytes the driver has written to the radio. */
    var tx: seq<byte>

    /** Every connection is listed once, none answers the lookup for an
        other's key, and none has a type `xbee_newcon` normalises away. */
    predicate Valid()
      reads this
    {
      Distinct(conlist) && KeysDistinct(conlist)
      && forall i :: 0 <= i < |conlist| ==> conlist[i].ctype != Unknown && conlist[i].ctype != RemoteAT
    }

    /** A driver with no connections and no packets, about to read `input`. */
    constructor (input: seq<byte>)
      ensures conlist == [] && pktlist == [] && rx == input && tx == []
      ensures Valid()
    {
      conlist := [];
      pktlist := [];
      rx := input;
      tx := [];
    }

    // -------------------------------------------------------------------
    // xbee_newcon

    /** `xbee_newcon(frameID, type, a0, a1)`: the type normalised, the
        address packed, then the first listed connection the lookup tests
        accept, or else a new connection at the tail.  Either way the
        connection returned is the one a lookup of the same arguments
        finds afterwards. */
    method NewCon(frameID: byte, t: XbeeType, a0: int32, a1: int32) returns (con: Con)
      requires Valid()
      modifies this
      ensures Valid()
      ensures var nt := NormaliseType(t);
        var addr := PackAddress(nt, a0, a1);
        var k := FirstKey(old(conlist), nt, frameID, addr);
        (k.Some? ==> con == old(conlist)[k.value] && conlist == old(conlist))
        && (k.None? ==> fresh(con) && conlist == old(conlist) + [con]
                        && con.ctype == nt && con.frameID == frameID && con.tAddr == addr
                        && con.tAddr64 == Is64(nt)
                        && !con.atQueue && !con.txDisableACK && !con.txBroadcast)
        && FirstKey(conlist, nt, frameID, addr).Some?
        && conlist[FirstKey(conlist, nt, frameID, addr).value] == con
      ensures pktlist == old(pktlist) && rx == old(rx) && tx == old(tx)
    {
      var nt := NormaliseType(t);
      var addr := PackAddress(nt, a0, a1);
      var i := 0;
      while i < |conlist|
        invariant 0 <= i <= |conlist|
        invariant forall j :: 0 <= j < i ==> !KeyMatches(conlist[j], nt, frameID, addr)
      {
        if KeyMatches(conlist[i], nt, frameID, addr) {
          assert FirstKey(conlist, nt, frameID, addr) == Some(i) by {
            FirstKeyIs(conlist, nt, frameID, addr, i);
          }
          return conlist[i];
        }
        i := i + 1;
      }
      con := new Con(nt, frameID, addr);
      ghost var before := conlist;
      FirstKeyAppend(before, con, nt, frameID, addr);
      KeyMatchesOwn(con);
      KeysDistinctAppend(before, con);
      conlist := conlist + [con];
      assert forall j :: 0 <= j < |before| ==> conlist[j] == before[j];
    }

    /** Two calls of `xbee_newcon` with the same arguments return the same
        connection, and the list grows by at most one. */
    method NewConTwice(frameID: byte, t: XbeeType, a0: int32, a1: int32) returns (first: Con, second: Con)
      requires Valid()
      modifies this
      ensures Valid()
      ensures first == second
      ensures |old(conlist)| <= |conlist| <= |old(conlist)| + 1
    {
      first := NewCon(frameID, t, a0, a1);
      second := NewCon(frameID, t, a0, a1);
    }

    // -------------------------------------------------------------------
    // xbee_getpacket, xbee_getpacketwait, xbee_flushcon

    /** `xbee_getpacket`: the first queued packet that matches `con`,
        taken out of the list with the others kept in order; nothing, and
        the list unchanged, when no packet matches. */
    method GetPacket(con: Con) returns (p: Option<Packet>)
      modifies this
      ensures var k := FirstMatch(old(pktlist), con);
        (k.None? ==> p.None? && pktlist == old(pktlist))
        && (k.Some? ==> p == Some(old(pktlist)[k.value]) && pktlist == Unlink(old(pktlist), k.value))
      ensures conlist == old(conlist) && rx == old(rx) && tx == old(tx)
    {
      var i := 0;
      while i < |pktlist|
        invariant 0 <= i <= |pktlist|
        invariant forall j :: 0 <= j < i ==> !Match(pktlist[j], con)
      {
        if Match(pktlist[i], con) {
          assert FirstMatch(pktlist, con) == Some(i) by {
            FirstMatchIs(pktlist, con, i);
          }
          p := Some(pktlist[i]);
          pktlist := Unlink(pktlist, i);
          return;
        }
        i := i + 1;
      }
      p := None;
    }

    /** `xbee_getpacketwait`: up to twenty tries of `xbee_getpacket`.  With
        no receiver running between the tries, waiting gives what one try
        gives. */
    method GetPacketWait(con: Con) returns (p: Option<Packet>)
      modifies this
      ensures var k := FirstMatch(old(pktlist), con);
        (k.None? ==> p.None? && pktlist == old(pktlist))
        && (k.Some? ==> p == Some(old(pktlist)[k.value]) && pktlist == Unlink(old(pktlist), k.value))
      ensures conlist == old(conlist) && rx == old(rx) && tx == old(tx)
    {
      p := GetPacket(con);
      var i := 1;
      while i < 20 && p.None?
        invariant 1 <= i <= 20
        invariant p.None? ==> FirstMatch(old(pktlist), con).None? && pktlist == old(pktlist)
        invariant p.Some? ==> var k := FirstMatch(old(pktlist), con);
          k.Some? && p == Some(old(pktlist)[k.value]) && pktlist == Unlink(old(pktlist), k.value)
        invariant conlist == old(conlist) && rx == old(rx) && tx == old(tx)
      {
        p := GetPacket(con);
        i := i + 1;
      }
    }

    /** `xbee_flushcon`: `xbee_getpacket` until it finds nothing.  What is
        left is the queue without the packets for `con`. */
    method FlushCon(con: Con)
      modifies this
      ensures pktlist == Unmatched(old(pktlist), con)
      ensures FirstMatch(pktlist, con).None?
      ensures conlist == old(conlist) && rx == old(rx) && tx == old(tx)
    {
      var more := true;
      while more
        invariant Unmatched(pktlist, con) == Unmatched(old(pktlist), con)
        invariant !more ==> FirstMatch(pktlist, con).None?
        invariant conlist == old(conlist) && rx == old(rx) && tx == old(tx)
        decreases |pktlist| + (if more then 1 else 0)
      {
        ghost var before := pktlist;
        var p := GetPacket(con);
        more := p.Some?;
        if more {
          UnlinkFirstMatchKeepsUnmatched(before, con);
        }
      }
      UnmatchedOfNoMatch(pktlist, con);
    }

    // -------------------------------------------------------------------
    // xbee_endcon2

    /** `xbee_endcon2` as intended: with connections listed, `con` must be
        one of them (the driver dereferences a null link otherwise); it is
        unlinked and every queued packet for it is dropped.  With no
        connections nothing happens. */
    method EndCon(con: Con)
      requires Valid()
      requires conlist == [] || con in conlist
      modifies this
      ensures Valid()
      ensures old(conlist) == [] ==> conlist == [] && pktlist == old(pktlist)
      ensures old(conlist) != [] ==>
                con !in conlist
                && (forall c :: c in old(conlist) && c != con ==> c in conlist)
                && |conlist| == |old(conlist)| - 1
                && pktlist == Unmatched(old(pktlist), con)
      ensures old(conlist) != [] ==>
                exists k :: 0 <= k < |old(conlist)| && old(conlist)[k] == con && conlist == Unlink(old(conlist), k)
      ensures rx == old(rx) && tx == old(tx)
    {
      if conlist == [] {
        return;
      }
      var k := 0;
      while k < |conlist| && conlist[k] != con
        invariant 0 <= k <= |conlist|
        invariant forall j :: 0 <= j < k ==> conlist[j] != con
      {
        k := k + 1;
      }
      ghost var before := conlist;
      UnlinkRemoves(before, k);
      conlist := Unlink(conlist, k);
      assert KeysDistinct(conlist) by {
        forall i, j | 0 <= i < j < |conlist|
          ensures !KeyMatches(conlist[j], conlist[i].ctype, conlist[i].frameID, conlist[i].tAddr)
        {
          var i', j' := if i < k then i else i + 1, if j < k then j else j + 1;
          assert conlist[i] == before[i'] && conlist[j] == before[j'];
        }
      }
      Purge(con);
    }

    /** The purge loop of `xbee_endcon2`, as intended: every packet that
        matches `con` is dropped and the others keep their order. */
    method Purge(con: Con)
      modifies this
      ensures pktlist == Unmatched(old(pktlist), con)
      ensures conlist == old(conlist) && rx == old(rx) && tx == old(tx)
    {
      var kept := [];
      var i := 0;
      while i < |pktlist|
        invariant 0 <= i <= |pktlist|
        invariant kept == Unmatched(pktlist[..i], con)
      {
        assert pktlist[..i + 1][..i] == pktlist[..i];
        if !Match(pktlist[i], con) {
          kept := kept + [pktlist[i]];
        }
        i := i + 1;
      }
      assert pktlist[..i] == pktlist;
      pktlist := kept;
    }

    // -------------------------------------------------------------------
    // xbee_nsenddata

    /** `xbee_nsenddata`: the request for `con` built, framed by
        `xbee_make_pkt` and written out; -1 or -2, and nothing written, when
        the request is refused or not supported.  The request must fit the
        112 bytes `xbee_make_pkt` accepts (the driver would write a null
        frame). */
    method SendData(con: Con?, data: seq<byte>) returns (ret: int)
      requires SendRequest(con, data).Request? ==> |SendRequest(con, data).bytes| <= 112
      modifies this
      ensures ret == ReturnCode(SendRequest(con, data))
      ensures SendRequest(con, data).Request? ==> tx == old(tx) + Framed(SendRequest(con, data).bytes)
      ensures !SendRequest(con, data).Request? ==> tx == old(tx)
      ensures conlist == old(conlist) && pktlist == old(pktlist) && rx == old(rx)
    {
      var r := BuildRequest(con, data);
      if r.Request? {
        var pkt := MakePkt(r.bytes);
        tx := tx + pkt.value;
      }
      ret := ReturnCode(r);
    }

    // -------------------------------------------------------------------
    // xbee_getByte and the xbee_listen loop

    /** `xbee_getByte`: one unescaped byte; nothing, and no byte consumed,
        when the stream ends first. */
    method ReadByte() returns (b: Option<byte>)
      modifies this
      ensures GetByte(old(rx)).None? ==> b.None? && rx == old(rx)
      ensures GetByte(old(rx)).Some? ==> b == Some(GetByte(old(rx)).value.0) && rx == GetByte(old(rx)).value.1
      ensures conlist == old(conlist) && pktlist == old(pktlist) && tx == old(tx)
    {
      if rx == [] {
        return None;
      }
      var c := rx[0];
      if c == 0x7D {
        if |rx| < 2 {
          return None;
        }
        b := Some(Xor20(rx[1]));
        rx := rx[2..];
      } else {
        b := Some(c);
        rx := rx[1..];
      }
    }

    /** The type byte, the `length - 1` body bytes and the checksum
        byte, with the running checksum; `ok` is false when the stream ends
        first. */
    method ReadFrame(l: nat) returns (ok: bool, t: byte, body: seq<byte>, chksum: int)
      requires 1 <= l <= 100
      modifies this
      ensures var g := GetBytes(old(rx), l + 1);
        (ok <==> g.Some?)
        && (ok ==> t == g.value.0[0] && body == g.value.0[1..l] && chksum == Sum(g.value.0) && rx == g.value.1)
      ensures conlist == old(conlist) && pktlist == old(pktlist) && tx == old(tx)
    {
      ghost var s := rx;
      var tb := ReadByte();
      GetBytesSnoc(s, 0);
      assert GetBytes(s, 0) == Some(([], s));
      if tb.None? {
        GetBytesNoneGrows(s, 1, l + 1);
        return false, 0, [], 0;
      }
      t := tb.value;
      assert [] + [t] == [t];
      var got;
      got, body, chksum := ReadBody(s, t, l);
      if !got {
        GetBytesNoneGrows(s, l, l + 1);
        return false, 0, [], 0;
      }
      ghost var read := [t] + body;
      var ck := ReadByte();
      GetBytesSnoc(s, l);
      if ck.None? {
        return false, 0, [], 0;
      }
      SumAppend(read, [ck.value]);
      chksum := chksum + ck.value;
      assert (read + [ck.value])[1..l] == body;
      ok := true;
    }

    /** `for (i = 0; l > 1 && i < 128; l--, i++)` (the bound 128 is never
        reached, as `l` is at most 100): the body bytes after the
        type byte `t` sucked into `d[]`, the checksum running over them. */
    method ReadBody(ghost s: seq<byte>, t: byte, l: nat) returns (ok: bool, body: seq<byte>, chksum: int)
      requires 1 <= l <= 100 && GetBytes(s, 1) == Some(([t], rx))
      modifies this
      ensures ok <==> GetBytes(s, l).Some?
      ensures ok ==> GetBytes(s, l) == Some(([t] + body, rx)) && chksum == Sum([t] + body)
      ensures conlist == old(conlist) && pktlist == old(pktlist) && tx == old(tx)
    {
      chksum := t;
      assert Sum([t]) == t by {
        assert [t][..0] == [];
      }
      var d := new byte[128];
      var i := 0;
      var m := l;
      while m > 1
        invariant m >= 1 && m + i == l
        invariant GetBytes(s, 1 + i) == Some(([t] + d[..i], rx))
        invariant chksum == Sum([t] + d[..i])
        invariant conlist == old(conlist) && pktlist == old(pktlist) && tx == old(tx)
      {
        ghost var read := [t] + d[..i];
        var c := ReadByte();
        GetBytesSnoc(s, 1 + i);
        if c.None? {
          GetBytesNoneGrows(s, 2 + i, l);
          return false, [], 0;
        }
        d[i] := c.value;
        assert [t] + d[..i + 1] == read + [c.value];
        SumAppend(read, [c.value]);
        chksum := chksum + c.value;
        m := m - 1;
        i := i + 1;
      }
      body := d[..i];
      ok := true;
    }

    /** The two length bytes, most significant first. */
    method ReadLength() returns (ok: bool, l: nat)
      modifies this
      ensures var g := GetBytes(old(rx), 2);
        (ok <==> g.Some?)
        && (ok ==> l == FrameLength(g.value.0) && rx == g.value.1)
      ensures conlist == old(conlist) && pktlist == old(pktlist) && tx == old(tx)
    {
      ghost var s := rx;
      GetBytesSnoc(s, 0);
      GetBytesSnoc(s, 1);
      var hi := ReadByte();
      if hi.None? {
        return false, 0;
      }
      assert GetBytes(s, 0) == Some(([], s));
      assert [] + [hi.value] == [hi.value];
      assert GetBytes(s, 1) == Some(([hi.value], rx));
      var lo := ReadByte();
      if lo.None? {
        return false, 0;
      }
      assert [hi.value] + [lo.value] == [hi.value, lo.value];
      assert GetBytes(s, 2) == Some(([hi.value, lo.value], rx));
      return true, hi.value * 256 + lo.value;
    }

    /** Whether some connection matches the packet: the routing loop of
        `xbee_listen`. */
    method FindCon(p: Packet) returns (hasCon: bool)
      ensures hasCon <==> HasCon(conlist, p)
    {
      hasCon := false;
      var i := 0;
      while i < |conlist| && !hasCon
        invariant 0 <= i <= |conlist|
        invariant hasCon <==> exists j :: 0 <= j < i && Match(p, conlist[j])
      {
        hasCon := Match(p, conlist[i]);
        i := i + 1;
      }
    }

    /** One pass of the `while (1)` loop of `xbee_listen`: hunt for the
        delimiter, read the length, the frame and the checksum, decode a
        verified frame, and append its chain to the packet list when a
        connection matches the chain's last packet.  When the stream ends
        inside a pass, the whole pass waits: nothing is consumed. */
    method ListenOnce() returns (it: Iteration)
      modifies this
      ensures it == ListenIteration(old(rx))
      ensures it.Blocked? ==> rx == old(rx) && pktlist == old(pktlist)
      ensures it.Step? ==> rx == it.rest && pktlist == old(pktlist) + Delivered(conlist, it.outcome)
      ensures conlist == old(conlist) && tx == old(tx)
    {
      var s := rx;
      if rx == [] {
        return Blocked;
      }
      var start := rx[0];
      rx := rx[1..];
      if start != 0x7E {
        return Step(Skipped, rx);
      }
      var got, l := ReadLength();
      if !got {
        rx := s;
        return Blocked;
      }
      if l == 0 {
        return Step(ZeroLength, rx);
      }
      if l > 100 {
        return Step(Oversized, rx);
      }
      var ok, t, body, chksum := ReadFrame(l);
      if !ok {
        rx := s;
        return Blocked;
      }
      if chksum % 256 != 0xFF {
        return Step(BadChecksum, rx);
      }
      it := Step(Accepted(t, body), rx);
      Deliver(t, body);
    }

    /** The end of a pass for a verified frame: decode it when it holds
        every byte its layout reads, and append the chain when a connection
        matches the chain's last packet. */
    method Deliver(t: byte, body: seq<byte>)
      modifies this
      ensures pktlist == old(pktlist) + Delivered(conlist, Accepted(t, body))
      ensures conlist == old(conlist) && rx == old(rx) && tx == old(tx)
    {
      if Decodable(t, body) {
        var chain := DecodeFrame(t, body);
        var hasCon := FindCon(chain[|chain| - 1]);
        if hasCon {
          pktlist := pktlist + chain;
        }
      } else {
        assert pktlist + [] == pktlist;
      }
    }

    /** The `xbee_listen` thread over the bytes the radio has sent: passes
        of the loop until the stream ends inside one. */
    method Listen()
      modifies this
      ensures pktlist == old(pktlist) + Receive(conlist, old(rx)).0
      ensures rx == Receive(conlist, old(rx)).1
      ensures conlist == old(conlist) && tx == old(tx)
    {
      var blocked := false;
      while !blocked
        invariant old(pktlist) + Receive(conlist, old(rx)).0 == pktlist + Receive(conlist, rx).0
        invariant Receive(conlist, rx).1 == Receive(conlist, old(rx)).1
        invariant blocked ==> ListenIteration(rx).Blocked?
        invariant conlist == old(conlist) && tx == old(tx)
        decreases |rx|, if blocked then 0 else 1
      {
        ghost var before, queued := rx, pktlist;
        var it := ListenOnce();
        blocked := it.Blocked?;
        if !blocked {
          ReceiveStep(conlist, before);
          ghost var now := Delivered(conlist, it.outcome);
          assert queued + (now + Receive(conlist, rx).0) == (queued + now) + Receive(conlist, rx).0;
        }
      }
    }
  }

  /** The loop over the packet list stops at the first matching packet. */
  lemma FirstMatchIs(list: seq<Packet>, c: Con, i: nat)
    requires i < |list| && Match(list[i], c)
    requires forall j :: 0 <= j < i ==> !Match(list[j], c)
    ensures FirstMatch(list, c) == Some(i)
  {
  }
}
