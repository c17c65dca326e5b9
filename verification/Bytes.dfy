/** Fixed-width unsigned integers in either byte order, as `encoding/binary` writes and reads them. */
module Bytes {

  type byte = b: nat | b < 256

  datatype Order = BigEndian | LittleEndian

  function Pow256(w: nat): (p: nat)
    ensures p > 0
  {
    if w == 0 then 1 else 256 * Pow256(w - 1)
  }

  function PutLE(n: nat, w: nat): (bs: seq<byte>)
    ensures |bs| == w
    decreases w
  {
    if w == 0 then [] else [n % 256] + PutLE(n / 256, w - 1)
  }

  function GetLE(bs: seq<byte>): (n: nat)
    ensures n < Pow256(|bs|)
  {
    if bs == [] then 0 else bs[0] + 256 * GetLE(bs[1..])
  }

  function PutBE(n: nat, w: nat): (bs: seq<byte>)
    ensures |bs| == w
    decreases w
  {
    if w == 0 then [] else PutBE(n / 256, w - 1) + [n % 256]
  }

  function GetBE(bs: seq<byte>): (n: nat)
    ensures n < Pow256(|bs|)
  {
    if bs == [] then 0 else 256 * GetBE(bs[..|bs| - 1]) + bs[|bs| - 1]
  }

  function PutUint(n: nat, w: nat, o: Order): (bs: seq<byte>)
    ensures |bs| == w
  {
    if o.BigEndian? then PutBE(n, w) else PutLE(n, w)
  }

  function GetUint(bs: seq<byte>, o: Order): (n: nat)
    ensures n < Pow256(|bs|)
  {
    if o.BigEndian? then GetBE(bs) else GetLE(bs)
  }

  lemma {:induction false} PutGet(n: nat, w: nat, o: Order)
    requires n < Pow256(w)
    ensures GetUint(PutUint(n, w, o), o) == n
    decreases w
  {
    if w > 0 {
      PutGet(n / 256, w - 1, o);
      if o.BigEndian? {
        assert PutBE(n, w)[..w - 1] == PutBE(n / 256, w - 1);
      } else {
        assert PutLE(n, w)[1..] == PutLE(n / 256, w - 1);
      }
    }
  }

  lemma {:induction false} GetPut(bs: seq<byte>, o: Order)
    ensures PutUint(GetUint(bs, o), |bs|, o) == bs
    decreases |bs|
  {
    if bs != [] {
      if o.BigEndian? {
        GetPut(bs[..|bs| - 1], o);
        assert bs == bs[..|bs| - 1] + [bs[|bs| - 1]];
      } else {
        GetPut(bs[1..], o);
        assert bs == [bs[0]] + bs[1..];
      }
    }
  }

  /** Writing keeps only the low `w` bytes of the number: Go's `uint8(x)` and `uint16(x)`. */
  lemma {:induction false} PutTruncates(n: nat, w: nat, o: Order)
    ensures PutUint(n, w, o) == PutUint(n % Pow256(w), w, o)
    decreases w
  {
    if w > 0 {
      var p := Pow256(w - 1);
      var m := n % Pow256(w);
      DivModPow(n, p);
      PutTruncates(n / 256, w - 1, o);
      PutTruncates(m / 256, w - 1, o);
    }
  }

  lemma DivDiv(n: nat, p: nat)
    requires p > 0
    ensures n / 256 / p == n / (256 * p)
  {
    var q, r := n / (256 * p), n % (256 * p);
    assert n == 256 * (p * q) + r;
    assert n / 256 == p * q + r / 256;
    assert r / 256 < p;
    ModUnique(p * q + r / 256, p, q, r / 256);
  }

  /** Which byte goes where: big-endian writes the most significant byte first, little-endian the least significant. */
  lemma {:induction false} PutUintAt(n: nat, w: nat, o: Order, i: nat)
    requires i < w
    ensures PutUint(n, w, o)[i] == match o
      case BigEndian => n / Pow256(w - 1 - i) % 256
      case LittleEndian => n / Pow256(i) % 256
    decreases w
  {
    var place := if o.BigEndian? then w - 1 - i else i;
    if place > 0 {
      PutUintAt(n / 256, w - 1, o, if o.BigEndian? then i else i - 1);
      DivDiv(n, Pow256(place - 1));
    }
  }

  /** And which byte counts how much when two are read. */
  lemma GetTwo(a: byte, b: byte)
    ensures GetUint([a, b], BigEndian) == 256 * a + b && GetUint([a, b], LittleEndian) == a + 256 * b
  {
    assert [a, b][..1] == [a] && [a][..0] == [];
    assert [a, b][1..] == [b] && [b][1..] == [];
    assert GetBE([a]) == a && GetLE([b]) == b;
  }

  lemma TwoBytesWritten(n: nat)
    ensures PutUint(n, 2, BigEndian) == [n / 256 % 256, n % 256]
    ensures PutUint(n, 2, LittleEndian) == [n % 256, n / 256 % 256]
    ensures n < 0x1_0000 ==> n / 256 % 256 == n / 256
  {
    Powers();
    PutUintAt(n, 2, BigEndian, 0);
    PutUintAt(n, 2, BigEndian, 1);
    PutUintAt(n, 2, LittleEndian, 0);
    PutUintAt(n, 2, LittleEndian, 1);
  }

  lemma FourBytesWritten(n: nat)
    ensures PutUint(n, 4, BigEndian) == [n / 0x100_0000 % 256, n / 0x1_0000 % 256, n / 256 % 256, n % 256]
    ensures n < 0x1_0000_0000 ==> n / 0x100_0000 % 256 == n / 0x100_0000
  {
    Powers();
    PutUintAt(n, 4, BigEndian, 0);
    PutUintAt(n, 4, BigEndian, 1);
    PutUintAt(n, 4, BigEndian, 2);
    PutUintAt(n, 4, BigEndian, 3);
  }

  lemma Powers()
    ensures Pow256(0) == 1 && Pow256(1) == 256 && Pow256(2) == 0x1_0000 && Pow256(3) == 0x100_0000
  {
    assert Pow256(3) == 256 * Pow256(2) && Pow256(2) == 256 * Pow256(1);
  }

  lemma DivModPow(n: nat, p: nat)
    requires p > 0
    ensures (n % (256 * p)) % 256 == n % 256
    ensures ((n % (256 * p)) / 256) % p == (n / 256) % p
  {
    var q := n / (256 * p);
    var m := n % (256 * p);
    assert n == 256 * (p * q) + m;
    assert n / 256 == p * q + m / 256;
    assert m / 256 < p;
    ModUnique(p * q + m / 256, p, q, m / 256);
  }

  lemma ModUnique(x: int, d: int, q: int, r: int)
    requires d > 0 && 0 <= r < d && x == d * q + r
    ensures x % d == r && x / d == q
  {
    var q', r' := x / d, x % d;
    assert d * (q - q') == r' - r by {
      assert d * (q - q') == d * q - d * q';
    }
    MultipleWithin(d, q - q');
  }

  /** The only multiple of `d` strictly between `-d` and `d` is zero. */
  lemma MultipleWithin(d: int, k: int)
    requires d > 0 && -d < d * k < d
    ensures k == 0
  {
    assert k >= 1 ==> d * k >= d;
    assert k <= -1 ==> d * k <= -d;
  }
}
