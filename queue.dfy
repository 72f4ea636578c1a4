/** The packet queue `xbee.pktlist` as a sequence: which packet
    `xbee_getpacket` takes for a connection, what a purge for a connection
    leaves, and which decoded chains the receiver appends. */
module Queue {
  import opened Types
  import opened Decoder
  import opened Connections

  /** The position of the first queued packet that matches `c`. */
  function FirstMatch(list: seq<Packet>, c: Con): (r: Option<nat>)
    ensures r.Some? ==> r.value < |list| && Match(list[r.value], c)
    ensures r.Some? ==> forall j :: 0 <= j < r.value ==> !Match(list[j], c)
    ensures r.None? <==> forall j :: 0 <= j < |list| ==> !Match(list[j], c)
  {
    if list == [] then None
    else if Match(list[0], c) then Some(0)
    else
      var r := FirstMatch(list[1..], c);
      if r.None? then None else Some(r.value + 1)
  }

  /** The queued packets that do not match `c`, in queue order. */
  function Unmatched(list: seq<Packet>, c: Con): (r: seq<Packet>)
    ensures |r| <= |list|
  {
    if list == [] then []
    else
      var front := Unmatched(list[..|list| - 1], c);
      var last := list[|list| - 1];
      if Match(last, c) then front else front + [last]
  }

  /** A purge keeps exactly the packets that do not match. */
  lemma {:induction false} UnmatchedMembers(list: seq<Packet>, c: Con)
    ensures forall p :: p in Unmatched(list, c) <==> p in list && !Match(p, c)
    decreases |list|
  {
    if list != [] {
      var front := list[..|list| - 1];
      var last := list[|list| - 1];
      UnmatchedMembers(front, c);
      assert list == front + [last];
      forall p
        ensures p in list <==> p in front || p == last
      {
      }
    }
  }

  /** Purging distributes over the two halves of a queue. */
  lemma {:induction false} UnmatchedAppend(a: seq<Packet>, b: seq<Packet>, c: Con)
    ensures Unmatched(a + b, c) == Unmatched(a, c) + Unmatched(b, c)
    decreases |b|
  {
    if b == [] {
      assert a + b == a;
    } else {
      var b' := b[..|b| - 1];
      assert (a + b)[..|a + b| - 1] == a + b';
      assert (a + b)[|a + b| - 1] == b[|b| - 1];
      UnmatchedAppend(a, b', c);
    }
  }

  /** A queue in which nothing matches is left as it is. */
  lemma {:induction false} UnmatchedOfNoMatch(list: seq<Packet>, c: Con)
    requires FirstMatch(list, c).None?
    ensures Unmatched(list, c) == list
    decreases |list|
  {
    if list != [] {
      var front, last := list[..|list| - 1], list[|list| - 1];
      assert FirstMatch(front, c).None? by {
        forall j | 0 <= j < |front|
          ensures !Match(front[j], c)
        {
          assert front[j] == list[j];
        }
      }
      UnmatchedOfNoMatch(front, c);
      assert !Match(last, c);
      assert Unmatched(list, c) == Unmatched(front, c) + [last];
      assert front + [last] == list;
    }
  }

  /** Taking the first matching packet out does not change what a purge
      would leave: the dequeue loop of `xbee_flushcon` and the purge loop of
      `xbee_endcon2` agree. */
  lemma {:induction false} UnlinkFirstMatchKeepsUnmatched(list: seq<Packet>, c: Con)
    requires FirstMatch(list, c).Some?
    ensures Unmatched(Unlink(list, FirstMatch(list, c).value), c) == Unmatched(list, c)
  {
    var k := FirstMatch(list, c).value;
    var a, x, b := list[..k], list[k], list[k + 1..];
    assert list == a + ([x] + b);
    assert Unlink(list, k) == a + b;
    UnmatchedAppend(a, [x] + b, c);
    UnmatchedAppend([x], b, c);
    UnmatchedAppend(a, b, c);
    UnmatchedOfMatch(x, c);
  }

  lemma UnmatchedOfMatch(x: Packet, c: Con)
    requires Match(x, c)
    ensures Unmatched([x], c) == []
  {
    assert [x][..0] == [];
  }

  /** A purge leaves nothing for the connection, and purging twice is
      purging once. */
  lemma UnmatchedIdempotent(list: seq<Packet>, c: Con)
    ensures FirstMatch(Unmatched(list, c), c).None?
    ensures Unmatched(Unmatched(list, c), c) == Unmatched(list, c)
  {
    var r := Unmatched(list, c);
    UnmatchedMembers(list, c);
    assert forall j :: 0 <= j < |r| ==> r[j] in r;
    UnmatchedOfNoMatch(r, c);
  }

  /** Packets for one connection leave the queue in arrival order: packets
      appended later are taken only when nothing earlier matches. */
  lemma {:induction false} FirstMatchAppend(a: seq<Packet>, b: seq<Packet>, c: Con)
    ensures FirstMatch(a + b, c)
         == if FirstMatch(a, c).Some? then FirstMatch(a, c)
            else if FirstMatch(b, c).Some? then Some(|a| + FirstMatch(b, c).value)
            else None
    decreases |a|
  {
    if a == [] {
      assert a + b == b;
    } else {
      var ab := a + b;
      assert ab[0] == a[0] && ab[1..] == a[1..] + b;
      FirstMatchAppend(a[1..], b, c);
      var tail, tailA := FirstMatch(ab[1..], c), FirstMatch(a[1..], c);
      if !Match(a[0], c) {
        assert FirstMatch(ab, c) == if tail.None? then None else Some(tail.value + 1);
        assert FirstMatch(a, c) == if tailA.None? then None else Some(tailA.value + 1);
      }
    }
  }

  // ---------------------------------------------------------------------
  // The routing filter of the receiver

  /** Some registered connection matches the packet. */
  predicate HasCon(conlist: seq<Con>, p: Packet) {
    exists i :: 0 <= i < |conlist| && Match(p, conlist[i])
  }

  /** What the receiver appends for a decoded chain: all of it when a
      connection matches its last packet, nothing otherwise. */
  function Routed(conlist: seq<Con>, chain: seq<Packet>): (r: seq<Packet>)
    ensures r == [] || r == chain
  {
    if chain != [] && HasCon(conlist, chain[|chain| - 1]) then chain else []
  }

  /** The chain of a verified frame is kept exactly when one of the
      registered connections is the one the frame is addressed to, whichever
      packet of the chain the test looks at. */
  lemma RoutedFrame(conlist: seq<Con>, t: byte, d: seq<byte>)
    requires Decodable(t, d)
    ensures Routed(conlist, Decode(t, d)) == Decode(t, d)
        <==> exists i :: 0 <= i < |conlist| && AddressedTo(t, d, conlist[i])
    ensures Routed(conlist, Decode(t, d)) == []
        <==> !exists i :: 0 <= i < |conlist| && AddressedTo(t, d, conlist[i])
  {
    var chain := Decode(t, d);
    var last := |chain| - 1;
    if IsIO(t) {
      assert |chain| >= 1;
    }
    forall i | 0 <= i < |conlist|
      ensures Match(chain[last], conlist[i]) <==> AddressedTo(t, d, conlist[i])
    {
      DecodedRouting(t, d, conlist[i], last);
    }
  }
}
