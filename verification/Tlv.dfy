// Netlink attributes: type, length and value, padded to 4 bytes. Numbers are little-endian, the byte
// order of the host; ports and addresses are in network byte order.

module Tlv {
  import opened Wrappers
  import opened Net
  import opened Pools

  type Bytes = seq<Byte>

  // ---- numbers --------------------------------------------------------------------------------

  /** `to_ne_bytes`. */
  function Le(v: nat, n: nat): (s: Bytes)
    ensures |s| == n
  {
    if n == 0 then [] else [v % 256] + Le(v / 256, n - 1)
  }

  /** `from_ne_bytes`. */
  function FromLe(s: Bytes): nat {
    if s == [] then 0 else s[0] + 256 * FromLe(s[1..])
  }

  lemma {:induction false} LeRoundTrip(v: nat, n: nat)
    requires v < Pow2(8 * n)
    ensures FromLe(Le(v, n)) == v
  {
    if n != 0 {
      Pow256Step(n - 1);
      LeRoundTrip(v / 256, n - 1);
      assert Le(v, n)[1..] == Le(v / 256, n - 1);
    }
  }

  /** Low byte first. */
  lemma {:induction false} LeBytes(v: nat)
    ensures Le(v, 2) == [v % 256, v / 256 % 256]
    ensures Le(v, 4) == [v % 256, v / 256 % 256, v / 0x1_0000 % 256, v / 0x100_0000 % 256]
  {
    assert Le(v / 256 / 256 / 256 / 256, 0) == [];
    assert Le(v / 256 / 256 / 256, 1) == [v / 256 / 256 / 256 % 256];
    assert Le(v / 256 / 256, 0) == [] && Le(v / 256, 1) == [v / 256 % 256];
    assert Le(v / 256 / 256, 2) == [v / 256 / 256 % 256, v / 256 / 256 / 256 % 256];
    assert Le(v / 256, 3) == [v / 256 % 256, v / 256 / 256 % 256, v / 256 / 256 / 256 % 256];
  }

  /** The number in two or four bytes, low byte first. */
  function Half(a: int, b: int): int {
    a + 256 * b
  }

  function Word(t: Bytes): int
    requires |t| == 4
  {
    Half(t[0], t[1]) + 0x1_0000 * Half(t[2], t[3])
  }

  lemma {:induction false} LeWord(v: nat)
    requires v < 0x1_0000_0000
    ensures Word(Le(v, 4)) == v
  {
    LeBytes(v);
    assert v / 256 / 256 == v / 0x1_0000 && v / 0x1_0000 / 256 == v / 0x100_0000;
  }

  lemma {:induction false} WordSizes()
    ensures Pow2(8 * 1) == 0x100 && Pow2(8 * 2) == 0x1_0000 && Pow2(8 * 4) == 0x1_0000_0000
    ensures Pow2(32) == 0x1_0000_0000
  {
    assert Pow2(0) == 1;
    Pow256Step(0);
    Pow256Step(1);
    Pow256Step(2);
    Pow256Step(3);
  }

  // ---- one attribute ----------------------------------------------------------------------------

  datatype Attr = Attr(kind: nat, payload: Bytes)

  /** Bytes of padding after `n`. */
  function Padding(n: nat): (p: nat)
    ensures p < 4 && (n + p) % 4 == 0
  {
    (4 - n % 4) % 4
  }

  /** The encoding; the length field is 16 bits wide. */
  function Nla(a: Attr): Bytes {
    Le((4 + |a.payload|) % 0x1_0000, 2) + Le(a.kind, 2) + a.payload + Zeros(Padding(4 + |a.payload|))
  }

  /** `nla`. */
  method EncodeNla(kind: nat, payload: Bytes) returns (out: Bytes)
    ensures out == Nla(Attr(kind, payload))
  {
    var total := 4 + |payload|;
    out := [];
    out := out + Le(total % 0x1_0000, 2);
    out := out + Le(kind, 2);
    out := out + payload;
    ghost var body := out;
    ghost var pad := 0;
    while |out| % 4 != 0
      invariant out == body + Zeros(pad) && pad <= Padding(total)
      decreases Padding(total) - pad
    {
      out := out + [0];
      pad := pad + 1;
      assert Zeros(pad) == Zeros(pad - 1) + [0];
    }
  }

  // ---- the walk -----------------------------------------------------------------------------------

  /** Length and kind fields at the head of some bytes. */
  function LengthField(b: Bytes): nat
    requires |b| >= 4
  {
    FromLe(b[..2])
  }

  function KindField(b: Bytes): nat
    requires |b| >= 4
  {
    FromLe(b[2..4])
  }

  /** A length the walk stops at: shorter than a header, or longer than what is left. */
  predicate Broken(b: Bytes)
    requires |b| >= 4
  {
    LengthField(b) < 4 || LengthField(b) > |b|
  }

  function Aligned(n: nat): (m: nat)
    ensures n <= m < n + 4
  {
    n + Padding(n)
  }

  /** What is left after the first attribute. */
  function Rest(b: Bytes): (r: Bytes)
    requires |b| >= 4 && !Broken(b)
    ensures |r| < |b|
  {
    var next := Aligned(LengthField(b));
    if next <= |b| then b[next..] else []
  }

  function Walk(b: Bytes): seq<Attr>
    decreases |b|
  {
    if |b| < 4 || Broken(b) then [] else [Attr(KindField(b), b[4..LengthField(b)])] + Walk(Rest(b))
  }

  function Encode(attrs: seq<Attr>): Bytes {
    if attrs == [] then [] else Nla(attrs[0]) + Encode(attrs[1..])
  }

  const MAX_PAYLOAD: nat := 65531

  predicate Encodable(a: Attr) {
    a.kind < 0x1_0000 && |a.payload| <= MAX_PAYLOAD
  }

  /** The bytes of one attribute: length with the header, then kind, both low byte first, then the payload, then
      zeros up to a multiple of 4. */
  lemma {:induction false} NlaBytes(a: Attr)
    requires Encodable(a)
    ensures var b, n := Nla(a), 4 + |a.payload|;
            && n <= |b| < n + 4 && |b| % 4 == 0
            && Half(b[0], b[1]) == n && Half(b[2], b[3]) == a.kind
            && b[4..n] == a.payload && forall i :: n <= i < |b| ==> b[i] == 0
  {
    hide Le, Zeros;
    LeBytes(4 + |a.payload|);
    LeBytes(a.kind);
    ZerosAreZero(Padding(4 + |a.payload|));
  }

  lemma {:induction false} ZerosAreZero(n: nat)
    ensures |Zeros(n)| == n && forall i :: 0 <= i < n ==> Zeros(n)[i] == 0
  {
    if n != 0 {
      ZerosAreZero(n - 1);
    }
  }

  /** Header, payload and padding of one encoding, as a reader finds them. */
  lemma {:induction false} NlaFields(a: Attr, rest: Bytes)
    requires a.kind < 0x1_0000
    ensures var b := Nla(a) + rest;
            && |b| >= 4 && LengthField(b) == (4 + |a.payload|) % 0x1_0000 && KindField(b) == a.kind
            && |Nla(a)| == Aligned(4 + |a.payload|) && b[4..4 + |a.payload|] == a.payload
            && b[|Nla(a)|..] == rest
  {
    hide Le, FromLe, Pow2;
    WordSizes();
    var size := (4 + |a.payload|) % 0x1_0000;
    LeRoundTrip(size, 2);
    LeRoundTrip(a.kind, 2);
    var b := Nla(a) + rest;
    assert b[..2] == Le(size, 2);
    assert b[2..4] == Le(a.kind, 2);
  }

  lemma {:induction false} WalkOne(a: Attr, rest: Bytes)
    requires Encodable(a)
    ensures Walk(Nla(a) + rest) == [a] + Walk(rest)
  {
    hide Nla, LengthField, KindField;
    NlaFields(a, rest);
    var b := Nla(a) + rest;
    assert LengthField(b) == 4 + |a.payload|;
    assert Rest(b) == rest;
  }

  /** Walking a concatenation of encodings gives back the attributes, in order. */
  lemma {:induction false} WalkEncode(attrs: seq<Attr>)
    requires forall a :: a in attrs ==> Encodable(a)
    ensures Walk(Encode(attrs)) == attrs
  {
    hide Nla;
    if attrs == [] {
      assert Walk([]) == [];
    } else {
      assert attrs[0] in attrs;
      assert forall a :: a in attrs[1..] ==> a in attrs;
      WalkEncode(attrs[1..]);
      WalkOne(attrs[0], Encode(attrs[1..]));
      assert [attrs[0]] + attrs[1..] == attrs;
    }
  }

  /** 65531 bytes is the exact limit: one more and the 16-bit length field wraps. */
  lemma {:induction false} WalkOneIff(a: Attr)
    requires a.kind < 0x1_0000
    ensures Walk(Nla(a)) == [a] <==> |a.payload| <= MAX_PAYLOAD
  {
    hide Nla, LengthField, KindField;
    assert Nla(a) + [] == Nla(a);
    if |a.payload| <= MAX_PAYLOAD {
      WalkOne(a, []);
      assert Walk([]) == [];
    } else {
      NlaFields(a, []);
      var b := Nla(a);
      assert LengthField(b) < 4 + |a.payload|;
      if !Broken(b) {
        assert |Walk(b)[0].payload| == LengthField(b) - 4;
      }
    }
  }

  // ---- the family id in a controller reply ----------------------------------------------------------

  const CTRL_ATTR_FAMILY_ID: nat := 1

  predicate IsFamilyId(a: Attr) {
    a.kind == 1 && |a.payload| >= 2
  }

  function FamilyIdIn(attrs: seq<Attr>): Option<nat> {
    if attrs == [] then None
    else if IsFamilyId(attrs[0]) then Some(FromLe(attrs[0].payload[..2]))
    else FamilyIdIn(attrs[1..])
  }

  function Suffix(attrs: Bytes, i: nat): Bytes {
    if i <= |attrs| then attrs[i..] else []
  }

  lemma {:induction false} RoundUp(n: nat)
    ensures (n + 3) / 4 * 4 == Aligned(n)
  {
  }

  /** One turn of the scan, in terms of the walk. */
  lemma {:induction false} ScanStep(attrs: Bytes, i: nat, len: nat, t: nat)
    requires i + 4 <= |attrs| && len == FromLe([attrs[i], attrs[i+1]]) && t == FromLe([attrs[i+2], attrs[i+3]])
    ensures var found := FamilyIdIn(Walk(Suffix(attrs, i)));
            if len < 4 || i + len > |attrs| then found == None
            else if t == CTRL_ATTR_FAMILY_ID && len >= 6 then found == Some(FromLe([attrs[i+4], attrs[i+5]]))
            else found == FamilyIdIn(Walk(Suffix(attrs, i + Aligned(len))))
  {
    hide FromLe, Padding;
    var b := attrs[i..];
    assert b[..2] == [attrs[i], attrs[i+1]] && b[2..4] == [attrs[i+2], attrs[i+3]];
    if len < 4 || i + len > |attrs| {
      assert Broken(b);
    } else {
      var first := Attr(t, b[4..len]);
      assert Rest(b) == Suffix(attrs, i + Aligned(len));
      assert ([first] + Walk(Rest(b)))[1..] == Walk(Rest(b));
      if len >= 6 {
        assert first.payload[..2] == [attrs[i+4], attrs[i+5]];
      }
    }
  }

  /** The scan of `resolve_family`, on any bytes at all: it stays in bounds, ends, and finds the first
      family-id attribute of the walk. */
  method ResolveFamily(response: Bytes) returns (id: Option<nat>)
    ensures id == FamilyIdIn(Walk(if |response| >= 20 then response[20..] else []))
  {
    hide FromLe, Walk, FamilyIdIn, Padding;
    var attrs := if |response| >= 20 then response[20..] else [];
    var i := 0;
    assert Suffix(attrs, 0) == attrs;
    while i + 4 <= |attrs|
      invariant 0 <= i
      invariant FamilyIdIn(Walk(attrs)) == FamilyIdIn(Walk(Suffix(attrs, i)))
      decreases |attrs| - i
    {
      var len := FromLe([attrs[i], attrs[i + 1]]);
      var t := FromLe([attrs[i + 2], attrs[i + 3]]);
      ScanStep(attrs, i, len, t);
      if len < 4 || i + len > |attrs| {
        return None;
      }
      if t == CTRL_ATTR_FAMILY_ID && len >= 6 {
        return Some(FromLe([attrs[i + 4], attrs[i + 5]]));
      }
      RoundUp(len);
      i := i + (len + 3) / 4 * 4;
    }
    ShortWalk(Suffix(attrs, i));
    return None;
  }

  lemma {:induction false} ShortWalk(b: Bytes)
    requires |b| < 4
    ensures FamilyIdIn(Walk(b)) == None
  {
  }
}
