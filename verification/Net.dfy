// IP addresses and CIDR prefixes (`std::net::IpAddr`, `ipnet::IpNet`), section 3.1 of RFC 4632.

module Net {

  datatype Family = V4 | V6

  /** Address width of a family, in bits. */
  function Width(f: Family): nat {
    if f.V4? then 32 else 128
  }

  /** An address: its family and its value in network byte order. */
  datatype IpAddr = Ip(family: Family, bits: nat)

  datatype RawNet = Cidr(addr: IpAddr, len: nat) {
    predicate Valid() {
      len <= Width(addr.family) && addr.bits < Pow2(Width(addr.family))
    }
  }

  /** A prefix. As in `ipnet`, the address may carry host bits; they never matter for membership. */
  type IpNet = n: RawNet | n.Valid() witness Cidr(Ip(V4, 0), 0)

  function Pow2(n: nat): (p: nat)
    ensures p > 0
  {
    if n == 0 then 1 else 2 * Pow2(n - 1)
  }

  /** Number of addresses in a prefix. */
  function Size(n: IpNet): (s: nat)
    ensures s > 0
  {
    Pow2(Width(n.addr.family) - n.len)
  }

  /** The network address (`IpNet::network`). */
  function Network(n: IpNet): (a: IpAddr)
  {
    Ip(n.addr.family, n.addr.bits / Size(n) * Size(n))
  }

  /** `IpNet::contains` for an address: same family and the same leading `len` bits. */
  predicate Contains(n: IpNet, a: IpAddr) {
    a.family == n.addr.family && a.bits / Size(n) == n.addr.bits / Size(n)
  }

  /** Every address of `inner` is an address of `outer`. */
  ghost predicate Covers(outer: IpNet, inner: IpNet) {
    forall a: IpAddr :: Contains(inner, a) ==> Contains(outer, a)
  }

  lemma {:induction false} Pow2Add(a: nat, b: nat)
    ensures Pow2(a + b) == Pow2(a) * Pow2(b)
  {
    if a != 0 {
      Pow2Add(a - 1, b);
      assert a + b - 1 == (a - 1) + b;
      assert 2 * (Pow2(a - 1) * Pow2(b)) == (2 * Pow2(a - 1)) * Pow2(b);
    }
  }

  lemma {:induction false} MulMonotone(a: int, b: int, d: nat)
    requires a <= b
    ensures a * d <= b * d
  {
    assert (b - a) * d >= 0;
  }

  lemma {:induction false} FactorNotPositive(m: int, d: nat)
    requires m * d < d
    ensures m <= 0
  {
    if m >= 1 {
      MulMonotone(1, m, d);
    }
  }

  lemma {:induction false} QuotientUnique(q: int, r: int, q': int, r': int, d: nat)
    requires q * d + r == q' * d + r'
    requires 0 <= r < d && 0 <= r' < d
    ensures q == q' && r == r'
  {
    assert (q - q') * d == q * d - q' * d == r' - r;
    assert (q' - q) * d == q' * d - q * d == r - r';
    FactorNotPositive(q - q', d);
    FactorNotPositive(q' - q, d);
  }

  lemma {:induction false} DivModUnique(x: int, d: int, q: int, r: int)
    requires 0 < d && 0 <= r < d && x == q * d + r
    ensures x / d == q && x % d == r
  {
    assert x == x / d * d + x % d;
    QuotientUnique(q, r, x / d, x % d, d);
  }

  lemma {:induction false} DivDiv(x: nat, s: nat, k: nat)
    requires s > 0 && k > 0
    ensures s * k > 0 && x / (s * k) == (x / s) / k
  {
    var q, r := (x / s) / k, (x / s) % k;
    var t := x % s;
    assert x == (x / s) * s + t;
    assert x / s == q * k + r;
    assert x == (q * k + r) * s + t;
    assert (q * k + r) * s == q * (s * k) + r * s;
    assert r * s + t < s * k by {
      assert r <= k - 1;
      assert r * s <= (k - 1) * s;
      assert (k - 1) * s == s * k - s;
    }
    assert s * k > 0;
    assert r * s >= 0;
    DivModUnique(x, s * k, q, r * s + t);
  }

  /** Membership is an interval: from the network address, `Size` addresses. */
  lemma {:induction false} ContainsIffInRange(n: IpNet, a: IpAddr)
    ensures Contains(n, a) <==>
            a.family == n.addr.family && Network(n).bits <= a.bits < Network(n).bits + Size(n)
  {
    var s, q := Size(n), n.addr.bits / Size(n);
    assert a.bits == a.bits / s * s + a.bits % s;
    if Network(n).bits <= a.bits < Network(n).bits + s {
      DivModUnique(a.bits, s, q, a.bits - q * s);
    }
  }

  /** The whole interval lies below 2^width, so it is made of real addresses. */
  lemma {:induction false} RangeFits(n: IpNet)
    ensures Network(n).bits + Size(n) <= Pow2(Width(n.addr.family))
  {
    var w, s, k := Width(n.addr.family), Size(n), Pow2(n.len);
    Pow2Add(n.len, w - n.len);
    FullBlockBelow(n.addr.bits, s, k);
  }

  lemma {:induction false} FullBlockBelow(x: nat, s: nat, k: nat)
    requires s > 0 && x < k * s
    ensures x / s * s + s <= k * s
  {
    var q := x / s;
    assert x == q * s + x % s;
    if q >= k {
      MulMonotone(k, q, s);
    } else {
      MulMonotone(q + 1, k, s);
      assert (q + 1) * s == q * s + s;
    }
  }

  /** Prefixes nest or are disjoint: sharing one address, the shorter covers the longer. */
  lemma {:induction false} SharedAddressNests(outer: IpNet, inner: IpNet, a: IpAddr)
    requires outer.len <= inner.len
    requires Contains(outer, a) && Contains(inner, a)
    ensures Covers(outer, inner)
  {
    forall b: IpAddr | Contains(inner, b)
      ensures Contains(outer, b)
    {
      var w := Width(outer.addr.family);
      Pow2Add(w - inner.len, inner.len - outer.len);
      assert w - inner.len + (inner.len - outer.len) == w - outer.len;
      var k := Pow2(inner.len - outer.len);
      assert Size(outer) == Size(inner) * k;
      DivDiv(a.bits, Size(inner), k);
      DivDiv(b.bits, Size(inner), k);
      assert a.bits / Size(inner) == b.bits / Size(inner);
    }
  }

  /** A longer prefix is strictly smaller: at most half the size. */
  lemma {:induction false} LongerIsSmaller(a: IpNet, b: IpNet)
    requires a.addr.family == b.addr.family && a.len < b.len
    ensures 2 * Size(b) <= Size(a)
  {
    var w := Width(a.addr.family);
    Pow2Add(w - b.len, b.len - a.len);
    assert w - b.len + (b.len - a.len) == w - a.len;
    var k := Pow2(b.len - a.len);
    assert k == 2 * Pow2(b.len - a.len - 1);
    MulMonotone(2, k, Size(b));
  }

  /** Cover can be read off the two prefixes: the length comparison and one address. */
  lemma {:induction false} CoversIff(outer: IpNet, inner: IpNet)
    ensures Covers(outer, inner) <==> outer.len <= inner.len && Contains(outer, Network(inner))
  {
    var base := Network(inner);
    ContainsIffInRange(inner, base);
    assert Contains(inner, base);
    if outer.len <= inner.len && Contains(outer, base) {
      SharedAddressNests(outer, inner, base);
    }
    if Covers(outer, inner) {
      assert Contains(outer, base);
      if inner.len < outer.len {
        LongerIsSmaller(inner, outer);
        var far := Ip(base.family, base.bits + Size(outer));
        ContainsIffInRange(inner, far);
        assert Contains(inner, far);
        ContainsIffInRange(outer, base);
        ContainsIffInRange(outer, far);
      }
    }
  }
}
