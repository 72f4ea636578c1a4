/** Basic vocabulary shared by every part of the XBee driver model:
    bytes, an Option type, the connection/packet type enumeration and a
    few arithmetic helpers for checksums and bit masks. */
module Types {

  /** One octet, as `unsigned char` in the driver. */
  type byte = x: int | 0 <= x < 256

  datatype Option<T> = None | Some(value: T)

  /** `xbee_types`: the kinds of connection and packet.  `RemoteAT` is the
      width-generic remote AT response; connections are never of that type
      because `xbee_newcon` turns it into `RemoteAT64`. */
  datatype XbeeType =
    | Unknown
    | LocalAT
    | RemoteAT
    | RemoteAT16
    | RemoteAT64
    | Data16
    | Data64
    | IO16
    | IO64
    | TxStatus
    | ModemStatus

  /** Types whose remote address is 64 bits wide. */
  predicate Is64(t: XbeeType) {
    t == RemoteAT64 || t == Data64 || t == IO64
  }

  /** Types whose remote address is 16 bits wide. */
  predicate Is16(t: XbeeType) {
    t == RemoteAT16 || t == Data16 || t == IO16
  }

  /** Plain integer sum of a byte sequence. */
  function Sum(s: seq<byte>): (r: int)
    ensures 0 <= r <= 255 * |s|
  {
    if s == [] then 0 else Sum(s[..|s| - 1]) + s[|s| - 1]
  }

  lemma {:induction false} SumAppend(a: seq<byte>, b: seq<byte>)
    ensures Sum(a + b) == Sum(a) + Sum(b)
    decreases |b|
  {
    if b == [] {
      assert a + b == a;
    } else {
      assert (a + b)[..|a + b| - 1] == a + b[..|b| - 1];
      SumAppend(a, b[..|b| - 1]);
    }
  }

  /** Regrouping a concatenation, for the loops that move an element from
      the part still to do to the part done. */
  lemma ConcatAssoc<T>(a: seq<T>, b: seq<T>, c: seq<T>)
    ensures a + b + c == a + (b + c)
  {
  }

  /** `n` zero bytes (memory obtained from calloc, or cleared with memset). */
  function Zeros(n: nat): (r: seq<byte>)
    ensures |r| == n && forall i :: 0 <= i < n ==> r[i] == 0
  {
    seq(n, _ => 0)
  }

  /** `b ^ 0x20` for a byte: flips bit 5. */
  function Xor20(b: byte): byte {
    if (b / 32) % 2 == 0 then b + 32 else b - 32
  }

  lemma Xor20Involutive(b: byte)
    ensures Xor20(Xor20(b)) == b
  {
  }

  function Pow2(n: nat): (r: nat)
    ensures r >= 1
  {
    if n == 0 then 1 else 2 * Pow2(n - 1)
  }

  /** Bit `n` of a non-negative integer, i.e. `x & (1 << n)` is non-zero. */
  predicate Bit(x: nat, n: nat) {
    if n == 0 then x % 2 == 1 else Bit(x / 2, n - 1)
  }

  /** A value with bit `n` set is at least `2^n`. */
  lemma {:induction false} BitBound(x: nat, n: nat)
    requires Bit(x, n)
    ensures x >= Pow2(n)
    decreases n
  {
    if n > 0 {
      BitBound(x / 2, n - 1);
    }
  }

  /** The bits of `hi * 2^m + lo` are those of `lo` below position `m` and
      those of `hi` from position `m` on. */
  lemma {:induction false} BitSplit(hi: nat, lo: nat, m: nat, j: nat)
    requires lo < Pow2(m)
    ensures Bit(hi * Pow2(m) + lo, j) == if j < m then Bit(lo, j) else Bit(hi, j - m)
    decreases m
  {
    if m > 0 {
      var p := Pow2(m - 1);
      var x := hi * Pow2(m) + lo;
      assert x == 2 * (hi * p + lo / 2) + lo % 2;
      assert x / 2 == hi * p + lo / 2 && x % 2 == lo % 2;
      if j > 0 {
        BitSplit(hi, lo / 2, m - 1, j - 1);
      }
    }
  }

  /** The low seven bits of a byte are those of the byte reduced modulo
      128. */
  lemma LowSeven(h: byte, j: nat)
    requires j < 7
    ensures Bit(h % 128, j) == Bit(h, j)
  {
    assert Pow2(7) == 128;
    assert h == (h / 128) * 128 + h % 128;
    BitSplit(h / 128, h % 128, 7, j);
  }

  /** Bits of the 15-bit channel mask `((hi << 8) | lo) & 0x7FFF`: bits
      0..7 are those of `lo`, bits 8..14 those of `hi`. */
  lemma MaskBits(hi: byte, lo: byte, k: nat)
    requires k < 15
    ensures Bit((hi * 256 + lo) % 0x8000, k) == if k < 8 then Bit(lo, k) else Bit(hi, k - 8)
  {
    assert Pow2(8) == 256;
    var h1, h0 := hi / 128, hi % 128;
    assert hi * 256 + lo == h1 * 0x8000 + (h0 * 256 + lo) && h0 * 256 + lo < 0x8000;
    assert (hi * 256 + lo) % 0x8000 == h0 * 256 + lo;
    BitSplit(h0, lo, 8, k);
    if k >= 8 {
      LowSeven(hi, k - 8);
    }
  }

  /** Bits 0..7 of the 9-bit digital word `((hi << 8) | lo) & 0x01FF` are
      those of `lo`. */
  lemma DigitalBits(hi: byte, lo: byte, k: nat)
    requires k < 8
    ensures Bit((hi * 256 + lo) % 0x200, k) == Bit(lo, k)
  {
    assert Pow2(8) == 256;
    var h1, h0 := hi / 2, hi % 2;
    assert hi * 256 + lo == h1 * 0x200 + (h0 * 256 + lo) && h0 * 256 + lo < 0x200;
    assert (hi * 256 + lo) % 0x200 == h0 * 256 + lo;
    BitSplit(h0, lo, 8, k);
  }

  /** The big-endian 16-bit value `(s[i] << 8) | s[i + 1]`. */
  function Word(s: seq<byte>, i: nat): (r: nat)
    requires i + 1 < |s|
    ensures r < 0x10000
  {
    s[i] as int * 256 + s[i + 1] as int
  }
}
