// LoadBalancer address pools: the byte-wise increment and the wrap-around cursor over CIDR ranges.

module Pools {
  import opened Wrappers
  import opened Net

  // ---- octets ---------------------------------------------------------------------------------

  type Byte = n: nat | n < 256

  /** Big-endian value of some octets. */
  function Value(s: seq<Byte>): nat {
    if s == [] then 0 else Value(s[..|s|-1]) * 256 + s[|s|-1]
  }

  function Octets(v: nat, n: nat): (s: seq<Byte>)
    ensures |s| == n
  {
    if n == 0 then [] else Octets(v / 256, n - 1) + [v % 256]
  }

  lemma {:induction false} Pow256Step(n: nat)
    ensures Pow2(8 * (n + 1)) == 256 * Pow2(8 * n)
  {
    Pow2Add(8, 8 * n);
    assert 8 + 8 * n == 8 * (n + 1);
    assert Pow2(8) == 256 by {
      assert Pow2(4) == 16;
      Pow2Add(4, 4);
    }
  }

  lemma {:induction false} ValueOctets(v: nat, n: nat)
    requires v < Pow2(8 * n)
    ensures Value(Octets(v, n)) == v
  {
    if n != 0 {
      Pow256Step(n - 1);
      ValueOctets(v / 256, n - 1);
      assert Octets(v, n)[..n-1] == Octets(v / 256, n - 1);
    }
  }

  lemma {:induction false} ValueBelow(s: seq<Byte>)
    ensures Value(s) < Pow2(8 * |s|)
  {
    if s != [] {
      ValueBelow(s[..|s|-1]);
      Pow256Step(|s| - 1);
    }
  }

  function Zeros(n: nat): (s: seq<Byte>)
    ensures |s| == n && forall i :: 0 <= i < n ==> s[i] == 0
  {
    seq(n, i => 0)
  }

  /** Adding one with carry, on values. */
  function Bumped(s: seq<Byte>): (r: seq<Byte>)
    ensures |r| == |s|
  {
    if s == [] then [] else
      var rest, last := s[..|s|-1], s[|s|-1];
      if last == 255 then Bumped(rest) + [0] else rest + [last + 1]
  }

  /** `v + 1`, starting over at `limit`. */
  function WrappingNext(v: nat, limit: nat): nat {
    if v + 1 == limit then 0 else v + 1
  }

  lemma {:induction false} BumpedIsNext(s: seq<Byte>)
    ensures Value(Bumped(s)) == WrappingNext(Value(s), Pow2(8 * |s|))
  {
    hide Pow2;
    if s == [] {
      assert Pow2(0) == 1 by {
        Pow2Zero();
      }
    } else {
      var rest, last := s[..|s|-1], s[|s|-1];
      Pow256Step(|rest|);
      ValueBelow(s);
      ValueBelow(rest);
      if last == 255 {
        BumpedIsNext(rest);
        assert Bumped(s)[..|s|-1] == Bumped(rest);
      } else {
        assert Bumped(s)[..|s|-1] == rest;
        ValueBelow(Bumped(s));
      }
    }
  }

  lemma {:induction false} Pow2Zero()
    ensures Pow2(0) == 1
  {
  }

  /** `bump`: the in-place increment, from the last octet while there is a carry. */
  method Bump(octets: array<Byte>)
    modifies octets
    ensures octets[..] == Bumped(old(octets[..]))
  {
    ghost var was := octets[..];
    assert was[..octets.Length] == was;
    var i := octets.Length;
    while i > 0
      invariant 0 <= i <= octets.Length
      invariant octets[..] == was[..i] + Zeros(octets.Length - i)
      invariant Bumped(was) == Bumped(was[..i]) + Zeros(octets.Length - i)
    {
      i := i - 1;
      octets[i] := if octets[i] == 255 then 0 else octets[i] + 1;
      assert was[..i+1][..i] == was[..i];
      if octets[i] != 0 {
        assert octets[..] == (was[..i] + [was[i] + 1]) + Zeros(octets.Length - i - 1);
        return;
      }
      assert [0] + Zeros(octets.Length - i - 1) == Zeros(octets.Length - i);
      assert octets[..] == was[..i] + ([0] + Zeros(octets.Length - i - 1));
    }
    assert was[..0] == [];
  }

  /** The address after `ip`; the last of a family is followed by the first. */
  function NextIp(ip: IpAddr): IpAddr {
    Ip(ip.family, WrappingNext(ip.bits, Pow2(Width(ip.family))))
  }

  /** `inc_ip`. */
  method IncIp(ip: IpAddr) returns (next: IpAddr)
    requires ip.bits < Pow2(Width(ip.family))
    ensures next == NextIp(ip)
  {
    var n := if ip.family.V4? then 4 else 16;
    var bytes := Octets(ip.bits, n);
    var o := new Byte[n](i requires 0 <= i < n => bytes[i]);
    assert o[..] == bytes;
    Bump(o);
    ValueOctets(ip.bits, n);
    BumpedIsNext(bytes);
    next := Ip(ip.family, Value(o[..]));
  }

  // ---- the cursor -----------------------------------------------------------------------------

  datatype Cursor = Cursor(index: nat, ip: IpAddr)

  predicate SingleFamily(ranges: seq<IpNet>, family: Family) {
    forall r | r in ranges :: r.addr.family == family
  }

  predicate CursorValid(ranges: seq<IpNet>, c: Cursor) {
    c.index < |ranges| && Contains(ranges[c.index], c.ip)
  }

  function Wrap(i: nat, n: nat): (r: nat)
    requires n > 0
    ensures r < n
  {
    if i >= n then 0 else i
  }

  /** One step: the next address of the range, or the first of the next range. */
  function Advance(ranges: seq<IpNet>, c: Cursor): (d: Cursor)
    requires CursorValid(ranges, c)
    ensures CursorValid(ranges, d)
  {
    var next := NextIp(c.ip);
    if Contains(ranges[c.index], next) then Cursor(c.index, next) else
      var j := Wrap(c.index + 1, |ranges|);
      ContainsIffInRange(ranges[j], Network(ranges[j]));
      Cursor(j, Network(ranges[j]))
  }

  lemma {:induction false} NetworkInside(n: IpNet)
    ensures Network(n).family == n.addr.family && Contains(n, Network(n))
  {
    ContainsIffInRange(n, Network(n));
  }

  /** The cursor after `k` steps. */
  function After(ranges: seq<IpNet>, c: Cursor, k: nat): (d: Cursor)
    requires CursorValid(ranges, c)
    ensures CursorValid(ranges, d)
  {
    if k == 0 then c else Advance(ranges, After(ranges, c, k - 1))
  }

  lemma {:induction false} AfterAdd(ranges: seq<IpNet>, c: Cursor, j: nat, k: nat)
    requires CursorValid(ranges, c)
    ensures After(ranges, c, j + k) == After(ranges, After(ranges, c, j), k)
  {
    if k != 0 {
      AfterAdd(ranges, c, j, k - 1);
      assert j + k - 1 == j + (k - 1);
    }
  }

  predicate Full(n: IpNet) {
    n.len == 0
  }

  lemma {:induction false} FullHoldsAll(n: IpNet, a: IpAddr)
    requires Full(n) && a.family == n.addr.family && a.bits < Pow2(Width(a.family))
    ensures Contains(n, a) && Network(n).bits == 0 && Size(n) == Pow2(Width(a.family))
  {
    hide Pow2;
    ContainsIffInRange(n, a);
    RangeFits(n);
    DivModUnique(n.addr.bits, Size(n), 0, n.addr.bits);
  }

  lemma {:induction false} AddressFits(n: IpNet, a: IpAddr)
    requires Contains(n, a)
    ensures a.bits < Pow2(Width(a.family))
  {
    ContainsIffInRange(n, a);
    RangeFits(n);
  }

  /** A step inside a range, when the next address is not past its end. */
  lemma {:induction false} StepInside(ranges: seq<IpNet>, c: Cursor)
    requires CursorValid(ranges, c)
    requires c.ip.bits + 1 < Network(ranges[c.index]).bits + Size(ranges[c.index])
    ensures Advance(ranges, c) == Cursor(c.index, Ip(c.ip.family, c.ip.bits + 1))
  {
    hide Pow2, Size, Contains, Network;
    var r := ranges[c.index];
    ContainsIffInRange(r, c.ip);
    RangeFits(r);
    ContainsIffInRange(r, NextIp(c.ip));
  }

  /** The step past the end of a range that is not everything. */
  lemma {:induction false} StepOver(ranges: seq<IpNet>, c: Cursor)
    requires CursorValid(ranges, c) && !Full(ranges[c.index])
    requires c.ip.bits + 1 == Network(ranges[c.index]).bits + Size(ranges[c.index])
    ensures var j := Wrap(c.index + 1, |ranges|);
            Advance(ranges, c) == Cursor(j, Network(ranges[j]))
  {
    hide Pow2, Contains, Network;
    var r := ranges[c.index];
    RangeFits(r);
    ContainsIffInRange(r, c.ip);
    ContainsIffInRange(r, NextIp(c.ip));
    if NextIp(c.ip).bits == 0 {
      var whole := Cidr(r.addr, 0);
      LongerIsSmaller(whole, r);
      assert Size(whole) == Pow2(Width(r.addr.family));
    }
  }

  /** Walking forward inside a range. */
  lemma {:induction false} WalkInside(ranges: seq<IpNet>, c: Cursor, k: nat)
    requires CursorValid(ranges, c)
    requires c.ip.bits + k < Network(ranges[c.index]).bits + Size(ranges[c.index])
    ensures After(ranges, c, k) == Cursor(c.index, Ip(c.ip.family, c.ip.bits + k))
  {
    if k != 0 {
      WalkInside(ranges, c, k - 1);
      StepInside(ranges, After(ranges, c, k - 1));
    }
  }

  /** Walking out of a range: its remaining addresses, then the first of the next. */
  lemma {:induction false} WalkOut(ranges: seq<IpNet>, c: Cursor) returns (k: nat)
    requires CursorValid(ranges, c) && !Full(ranges[c.index])
    ensures k > 0 && c.ip.bits + k == Network(ranges[c.index]).bits + Size(ranges[c.index])
    ensures var j := Wrap(c.index + 1, |ranges|);
            After(ranges, c, k) == Cursor(j, Network(ranges[j]))
  {
    var r := ranges[c.index];
    ContainsIffInRange(r, c.ip);
    k := Network(r).bits + Size(r) - c.ip.bits;
    WalkInside(ranges, c, k - 1);
    StepOver(ranges, After(ranges, c, k - 1));
  }

  /** Ranges still to leave before range `m` is entered. */
  function Hops(i: nat, m: nat, n: nat): nat
    requires i < n && m < n
  {
    if i <= m then m - i else n - i + m
  }

  /** From the first address of a range, every address of the pool is reached. */
  lemma {:induction false} ReachesFromFirst(ranges: seq<IpNet>, family: Family, i: nat, m: nat, a: IpAddr) returns (k: nat)
    requires SingleFamily(ranges, family) && i < |ranges| && m < |ranges| && Contains(ranges[m], a)
    ensures CursorValid(ranges, Cursor(i, Network(ranges[i])))
    ensures After(ranges, Cursor(i, Network(ranges[i])), k).ip == a
    decreases Hops(i, m, |ranges|)
  {
    hide Pow2, Size, Contains, Network, Advance, Full;
    var c, r := Cursor(i, Network(ranges[i])), ranges[i];
    assert r in ranges && ranges[m] in ranges;
    NetworkInside(r);
    ContainsIffInRange(ranges[m], a);
    if i == m || Full(r) {
      AddressFits(ranges[m], a);
      if Full(r) {
        FullHoldsAll(r, a);
      }
      ContainsIffInRange(r, a);
      k := a.bits - c.ip.bits;
      WalkInside(ranges, c, k);
    } else {
      var out := WalkOut(ranges, c);
      var j := Wrap(i + 1, |ranges|);
      var rest := ReachesFromFirst(ranges, family, j, m, a);
      k := out + rest;
      AfterAdd(ranges, c, out, rest);
    }
  }

  lemma {:induction false} WrapFull(ranges: seq<IpNet>, c: Cursor) returns (k: nat)
    requires CursorValid(ranges, c) && Full(ranges[c.index])
    ensures k > 0 && c.ip.bits + k == Size(ranges[c.index])
    ensures After(ranges, c, k) == Cursor(c.index, Ip(c.ip.family, 0))
  {
    hide Pow2, Size, Contains, Network;
    var r := ranges[c.index];
    ContainsIffInRange(r, c.ip);
    AddressFits(r, c.ip);
    FullHoldsAll(r, c.ip);
    k := Size(r) - c.ip.bits;
    WalkInside(ranges, c, k - 1);
    var last := After(ranges, c, k - 1);
    assert NextIp(last.ip) == Ip(c.ip.family, 0);
    FullHoldsAll(r, Ip(c.ip.family, 0));
  }

  /** From anywhere, every address of the pool is reached. */
  lemma {:induction false} Reaches(ranges: seq<IpNet>, family: Family, c: Cursor, m: nat, a: IpAddr) returns (k: nat)
    requires SingleFamily(ranges, family) && CursorValid(ranges, c) && m < |ranges| && Contains(ranges[m], a)
    ensures After(ranges, c, k).ip == a
  {
    hide Pow2, Size, Network, Advance, Full, Contains;
    var r := ranges[c.index];
    assert r in ranges && ranges[m] in ranges;
    var out, rest: nat;
    if Full(r) {
      out := WrapFull(ranges, c);
      NetworkInside(r);
      ContainsIffInRange(r, c.ip);
      AddressFits(r, c.ip);
      FullHoldsAll(r, c.ip);
      rest := ReachesFromFirst(ranges, family, c.index, m, a);
      assert Network(r) == Ip(c.ip.family, 0);
    } else {
      out := WalkOut(ranges, c);
      rest := ReachesFromFirst(ranges, family, Wrap(c.index + 1, |ranges|), m, a);
    }
    k := out + rest;
    AfterAdd(ranges, c, out, rest);
  }

  // ---- the search -----------------------------------------------------------------------------

  /** `IpRanges::contains`. */
  predicate InPool(ranges: seq<IpNet>, a: IpAddr) {
    exists r | r in ranges :: Contains(r, a)
  }

  /** The search stopped after `k` steps: at the first address not allocated, or back at the first one. */
  ghost predicate ScannedIn(ranges: seq<IpNet>, c: Cursor, taken: seq<IpAddr>, r: Option<IpAddr>, k: nat)
    requires CursorValid(ranges, c)
  {
    var ip := After(ranges, c, k).ip;
    && (forall j :: 0 <= j < k ==> After(ranges, c, j).ip in taken)
    && (forall j :: 0 < j < k ==> After(ranges, c, j).ip != c.ip)
    && match r
       case Some(a) => a == ip && a !in taken
       case None => k > 0 && ip == c.ip
  }

  ghost predicate Scanned(ranges: seq<IpNet>, c: Cursor, taken: seq<IpAddr>, r: Option<IpAddr>, d: Cursor)
    requires CursorValid(ranges, c)
  {
    exists k: nat :: d == After(ranges, c, k) && ScannedIn(ranges, c, taken, r, k)
  }

  /** The cursor comes back to its address. */
  lemma {:induction false} Returns(ranges: seq<IpNet>, family: Family, c: Cursor) returns (k: nat)
    requires SingleFamily(ranges, family) && CursorValid(ranges, c)
    ensures k > 0 && After(ranges, c, k).ip == c.ip
  {
    var rest := Reaches(ranges, family, Advance(ranges, c), c.index, c.ip);
    k := 1 + rest;
    AfterAdd(ranges, c, 1, rest);
    assert After(ranges, c, 1) == Advance(ranges, After(ranges, c, 0));
  }

  class IpRanges {
    const ranges: seq<IpNet>
    ghost const family: Family
    var rangeIndex: nat
    var currentIp: Option<IpAddr>

    ghost predicate Valid()
      reads this
    {
      && SingleFamily(ranges, family)
      && if ranges == [] then currentIp.None? else currentIp.Some? && CursorValid(ranges, Position())
    }

    function Position(): Cursor
      requires currentIp.Some?
      reads this
    {
      Cursor(rangeIndex, currentIp.value)
    }

    /** `IpRanges::new`; the ranges of one pool are of one family. */
    constructor (ranges: seq<IpNet>, ghost family: Family)
      requires SingleFamily(ranges, family)
      ensures Valid() && this.ranges == ranges && this.family == family
      ensures ranges != [] ==> Position() == Cursor(0, Network(ranges[0]))
    {
      this.ranges, this.family, this.rangeIndex := ranges, family, 0;
      if ranges == [] {
        this.currentIp := None;
      } else {
        NetworkInside(ranges[0]);
        this.currentIp := Some(Network(ranges[0]));
      }
    }

    /** `inc`. */
    method Inc()
      requires Valid()
      modifies this
      ensures Valid()
      ensures if ranges == [] then currentIp == old(currentIp) && rangeIndex == old(rangeIndex)
              else Position() == Advance(ranges, old(Position()))
    {
      if currentIp.None? {
        return;
      }
      AddressFits(ranges[rangeIndex], currentIp.value);
      var next := IncIp(currentIp.value);
      if Contains(ranges[rangeIndex], next) {
        currentIp := Some(next);
      } else {
        rangeIndex := if rangeIndex + 1 >= |ranges| then 0 else rangeIndex + 1;
        NetworkInside(ranges[rangeIndex]);
        currentIp := Some(Network(ranges[rangeIndex]));
      }
    }

    /** `next_free_ip`. */
    method NextFreeIp(taken: seq<IpAddr>) returns (r: Option<IpAddr>)
      requires Valid()
      modifies this
      ensures Valid()
      ensures ranges == [] ==> r.None?
      ensures ranges != [] ==> Scanned(ranges, old(Position()), taken, r, Position())
    {
      hide Contains, Advance, Size, Network, Pow2, SingleFamily;
      if currentIp.None? {
        return None;
      }
      var start := currentIp.value;
      ghost var c := Position();
      ghost var back := Returns(ranges, family, c);
      ghost var k := 0;
      var ip := start;
      while true
        invariant Valid() && k < back && Position() == After(ranges, c, k) && ip == currentIp.value
        invariant forall j :: 0 <= j < k ==> After(ranges, c, j).ip in taken
        invariant forall j :: 0 < j <= k ==> After(ranges, c, j).ip != start
        decreases back - k
      {
        if ip !in taken {
          assert ScannedIn(ranges, c, taken, Some(ip), k);
          return Some(ip);
        }
        Inc();
        k := k + 1;
        ip := currentIp.value;
        if ip == start {
          assert ScannedIn(ranges, c, taken, None, k);
          return None;
        }
      }
    }
  }

  // ---- what the search finds --------------------------------------------------------------------

  /** An address found is free and of the pool. */
  lemma {:induction false} FoundIsFree(ranges: seq<IpNet>, c: Cursor, taken: seq<IpAddr>, r: Option<IpAddr>, d: Cursor)
    requires CursorValid(ranges, c) && Scanned(ranges, c, taken, r, d) && r.Some?
    ensures InPool(ranges, r.value) && r.value !in taken
  {
    var k: nat :| d == After(ranges, c, k) && ScannedIn(ranges, c, taken, r, k);
    assert ranges[d.index] in ranges;
  }

  // ---- what a search sees -----------------------------------------------------------------------

  /** An address of the ranges entered one after the other from range `j` on, up to the first that holds `stop`,
      and of that one below `stop`. Range `home` holds it. */
  predicate SeenFrom(ranges: seq<IpNet>, j: nat, home: nat, stop: IpAddr, a: IpAddr)
    requires j < |ranges| && home < |ranges| && Contains(ranges[home], stop)
    decreases Hops(j, home, |ranges|)
  {
    if Contains(ranges[j], stop) then Contains(ranges[j], a) && a.bits < stop.bits
    else Contains(ranges[j], a) || SeenFrom(ranges, Wrap(j + 1, |ranges|), home, stop, a)
  }

  /** An address a search from the cursor looks at before it meets its first address again: the rest of the
      cursor's range, then the ranges up to the next one holding that address. A range of the whole address
      space is never left. */
  predicate Seen(ranges: seq<IpNet>, c: Cursor, a: IpAddr)
    requires CursorValid(ranges, c)
  {
    if Full(ranges[c.index]) then Contains(ranges[c.index], a)
    else (Contains(ranges[c.index], a) && a.bits >= c.ip.bits)
         || SeenFrom(ranges, Wrap(c.index + 1, |ranges|), c.index, c.ip, a)
  }

  /** Everything in the pool is seen. */
  ghost predicate SeesPool(ranges: seq<IpNet>, c: Cursor)
    requires CursorValid(ranges, c)
  {
    forall a: IpAddr :: InPool(ranges, a) ==> Seen(ranges, c, a)
  }

  /** The search visits the address in its first `k` steps. */
  ghost predicate Visits(ranges: seq<IpNet>, c: Cursor, k: nat, a: IpAddr)
    requires CursorValid(ranges, c)
  {
    exists t: nat :: t < k && After(ranges, c, t).ip == a
  }

  /** After `k` steps the address comes up for the first time. */
  ghost predicate FirstMeets(ranges: seq<IpNet>, c: Cursor, k: nat, stop: IpAddr)
    requires CursorValid(ranges, c)
  {
    After(ranges, c, k).ip == stop && forall t: nat :: t < k ==> After(ranges, c, t).ip != stop
  }

  /** Walking inside a range visits an interval. */
  lemma {:induction false} VisitsInside(ranges: seq<IpNet>, c: Cursor, k: nat, a: IpAddr)
    requires CursorValid(ranges, c)
    requires c.ip.bits + k <= Network(ranges[c.index]).bits + Size(ranges[c.index])
    ensures Visits(ranges, c, k, a) <==> a.family == c.ip.family && c.ip.bits <= a.bits < c.ip.bits + k
  {
    hide Contains, Network, Size, Advance;
    forall t: nat | t < k
      ensures After(ranges, c, t).ip == Ip(c.ip.family, c.ip.bits + t)
    {
      WalkInside(ranges, c, t);
    }
    if a.family == c.ip.family && c.ip.bits <= a.bits < c.ip.bits + k {
      var t := a.bits - c.ip.bits;
      assert After(ranges, c, t).ip == a;
    }
  }

  lemma {:induction false} VisitsSplit(ranges: seq<IpNet>, c: Cursor, j: nat, k: nat, a: IpAddr)
    requires CursorValid(ranges, c)
    ensures Visits(ranges, c, j + k, a) <==> Visits(ranges, c, j, a) || Visits(ranges, After(ranges, c, j), k, a)
  {
    hide Contains, Advance;
    if t: nat :| t < j + k && After(ranges, c, t).ip == a && t >= j {
      AfterAdd(ranges, c, j, t - j);
      assert j + (t - j) == t;
      assert After(ranges, After(ranges, c, j), t - j).ip == a;
    }
    if t: nat :| t < k && After(ranges, After(ranges, c, j), t).ip == a {
      AfterAdd(ranges, c, j, t);
      assert After(ranges, c, j + t).ip == a;
    }
  }

  /** From the first address of a range, up to the next meeting with `stop`. */
  lemma {:induction false} SeenFromIsVisited(ranges: seq<IpNet>, family: Family, j: nat, home: nat, stop: IpAddr) returns (k: nat)
    requires SingleFamily(ranges, family) && j < |ranges| && home < |ranges| && Contains(ranges[home], stop)
    ensures CursorValid(ranges, Cursor(j, Network(ranges[j])))
    ensures FirstMeets(ranges, Cursor(j, Network(ranges[j])), k, stop)
    ensures forall a :: Visits(ranges, Cursor(j, Network(ranges[j])), k, a) <==> SeenFrom(ranges, j, home, stop, a)
    decreases Hops(j, home, |ranges|)
  {
    hide Contains, Network, Size, Advance, Full, Visits, FirstMeets;
    var r, c := ranges[j], Cursor(j, Network(ranges[j]));
    NetworkInside(r);
    assert r in ranges && ranges[home] in ranges;
    ContainsIffInRange(ranges[home], stop);
    ContainsIffInRange(r, stop);
    if Contains(r, stop) {
      k := stop.bits - c.ip.bits;
      MeetsInside(ranges, c, k, stop);
      forall a
        ensures Visits(ranges, c, k, a) <==> SeenFrom(ranges, j, home, stop, a)
      {
        VisitsInside(ranges, c, k, a);
        ContainsIffInRange(r, a);
      }
    } else {
      NotFull(r, ranges[home], stop);
      var out := WalkOut(ranges, c);
      var next := Wrap(j + 1, |ranges|);
      var rest := SeenFromIsVisited(ranges, family, next, home, stop);
      k := out + rest;
      VisitsInside(ranges, c, out, stop);
      MeetsLater(ranges, c, out, rest, stop);
      forall a
        ensures Visits(ranges, c, k, a) <==> SeenFrom(ranges, j, home, stop, a)
      {
        VisitsSplit(ranges, c, out, rest, a);
        VisitsInside(ranges, c, out, a);
        ContainsIffInRange(r, a);
      }
    }
  }

  lemma {:induction false} NotFull(r: IpNet, home: IpNet, stop: IpAddr)
    requires Contains(home, stop) && !Contains(r, stop) && r.addr.family == home.addr.family
    ensures !Full(r)
  {
    hide Contains, Network, Size, Pow2;
    ContainsIffInRange(home, stop);
    AddressFits(home, stop);
    if Full(r) {
      FullHoldsAll(r, stop);
    }
  }

  lemma {:induction false} MeetsInside(ranges: seq<IpNet>, c: Cursor, k: nat, stop: IpAddr)
    requires CursorValid(ranges, c) && stop == Ip(c.ip.family, c.ip.bits + k)
    requires stop.bits < Network(ranges[c.index]).bits + Size(ranges[c.index])
    ensures FirstMeets(ranges, c, k, stop)
  {
    hide Contains, Network, Size, Advance;
    WalkInside(ranges, c, k);
    forall t: nat | t < k
      ensures After(ranges, c, t).ip != stop
    {
      WalkInside(ranges, c, t);
    }
  }

  lemma {:induction false} MeetsLater(ranges: seq<IpNet>, c: Cursor, j: nat, k: nat, stop: IpAddr)
    requires CursorValid(ranges, c) && !Visits(ranges, c, j, stop) && FirstMeets(ranges, After(ranges, c, j), k, stop)
    ensures FirstMeets(ranges, c, j + k, stop)
  {
    hide Contains, Advance;
    AfterAdd(ranges, c, j, k);
    forall t: nat | t < j + k
      ensures After(ranges, c, t).ip != stop
    {
      if t >= j {
        AfterAdd(ranges, c, j, t - j);
        assert j + (t - j) == t;
      }
    }
  }

  /** The first return to the cursor's address, and the addresses seen until then. */
  lemma {:induction false} SeenIsVisited(ranges: seq<IpNet>, family: Family, c: Cursor) returns (k: nat)
    requires SingleFamily(ranges, family) && CursorValid(ranges, c)
    ensures k > 0 && After(ranges, c, k).ip == c.ip && forall t: nat :: 0 < t < k ==> After(ranges, c, t).ip != c.ip
    ensures forall a :: Visits(ranges, c, k, a) <==> Seen(ranges, c, a)
  {
    hide Contains, Network, Size, Advance, Full, Visits, FirstMeets, SeenFrom;
    var r := ranges[c.index];
    if Full(r) {
      k := FullIsVisited(ranges, c);
    } else {
      var out := WalkOut(ranges, c);
      var next := Wrap(c.index + 1, |ranges|);
      var rest := SeenFromIsVisited(ranges, family, next, c.index, c.ip);
      k := out + rest;
      ReturnsAfter(ranges, c, out, rest);
      forall a
        ensures Visits(ranges, c, k, a) <==> Seen(ranges, c, a)
      {
        VisitsSplit(ranges, c, out, rest, a);
        VisitsInside(ranges, c, out, a);
        ContainsIffInRange(r, a);
        ContainsIffInRange(r, c.ip);
      }
    }
  }

  /** Leaving the range and then meeting the address again is the first return. */
  lemma {:induction false} ReturnsAfter(ranges: seq<IpNet>, c: Cursor, out: nat, rest: nat)
    requires CursorValid(ranges, c) && out > 0
    requires c.ip.bits + out <= Network(ranges[c.index]).bits + Size(ranges[c.index])
    requires FirstMeets(ranges, After(ranges, c, out), rest, c.ip)
    ensures After(ranges, c, out + rest).ip == c.ip && forall t: nat :: 0 < t < out + rest ==> After(ranges, c, t).ip != c.ip
  {
    hide Contains, Network, Size, Advance;
    AfterAdd(ranges, c, out, rest);
    forall t: nat | 0 < t < out + rest
      ensures After(ranges, c, t).ip != c.ip
    {
      if t < out {
        WalkInside(ranges, c, t);
      } else {
        AfterAdd(ranges, c, out, t - out);
        assert out + (t - out) == t;
      }
    }
  }

  /** In a range of the whole address space the cursor goes round it. */
  lemma {:induction false} FullIsVisited(ranges: seq<IpNet>, c: Cursor) returns (k: nat)
    requires CursorValid(ranges, c) && Full(ranges[c.index])
    ensures k > 0 && After(ranges, c, k).ip == c.ip && forall t: nat :: 0 < t < k ==> After(ranges, c, t).ip != c.ip
    ensures forall a :: Visits(ranges, c, k, a) <==> Contains(ranges[c.index], a)
  {
    hide Contains, Network, Size, Advance, Pow2, Visits;
    var r := ranges[c.index];
    AddressFits(r, c.ip);
    ContainsIffInRange(r, c.ip);
    FullHoldsAll(r, c.ip);
    var out := WrapFull(ranges, c);
    var zero := Cursor(c.index, Ip(c.ip.family, 0));
    FullHoldsAll(r, zero.ip);
    MeetsInside(ranges, zero, c.ip.bits, c.ip);
    k := out + c.ip.bits;
    ReturnsAfter(ranges, c, out, c.ip.bits);
    forall a
      ensures Visits(ranges, c, k, a) <==> Contains(r, a)
    {
      VisitsSplit(ranges, c, out, c.ip.bits, a);
      VisitsInside(ranges, c, out, a);
      VisitsInside(ranges, zero, c.ip.bits, a);
      ContainsIffInRange(r, a);
    }
  }

  // ---- when exhaustion is right -------------------------------------------------------------------

  /** Exhaustion is reported exactly when every address of the pool is allocated, as far as the search sees it. */
  lemma {:induction false} ExhaustedIff(ranges: seq<IpNet>, family: Family, c: Cursor, taken: seq<IpAddr>, r: Option<IpAddr>, d: Cursor)
    requires SingleFamily(ranges, family) && CursorValid(ranges, c) && SeesPool(ranges, c)
    requires Scanned(ranges, c, taken, r, d)
    ensures r.None? <==> forall a: IpAddr :: InPool(ranges, a) ==> a in taken
  {
    hide Contains, Size, Network, Advance, Seen, InPool;
    if r.Some? {
      FoundIsFree(ranges, c, taken, r, d);
    } else {
      var k: nat :| d == After(ranges, c, k) && ScannedIn(ranges, c, taken, r, k);
      var first := SeenIsVisited(ranges, family, c);
      assert k == first;
      forall a: IpAddr | InPool(ranges, a)
        ensures a in taken
      {
        assert Visits(ranges, c, first, a);
      }
    }
  }

  /** Exhaustion is right whatever is allocated. */
  ghost predicate ExhaustionRight(ranges: seq<IpNet>, c: Cursor)
    requires CursorValid(ranges, c)
  {
    forall taken, r, d :: Scanned(ranges, c, taken, r, d) ==> (r.None? <==> forall a: IpAddr :: InPool(ranges, a) ==> a in taken)
  }

  /** For given ranges and cursor, that is so exactly when the search sees the whole pool: when the ranges
      between the cursor and the next range holding its address, with the parts of those two, cover it. */
  lemma {:induction false} ExhaustionRightIff(ranges: seq<IpNet>, family: Family, c: Cursor)
    requires SingleFamily(ranges, family) && CursorValid(ranges, c)
    ensures ExhaustionRight(ranges, c) <==> SeesPool(ranges, c)
  {
    hide Contains, Size, Network, Advance, Seen, InPool, Scanned;
    if SeesPool(ranges, c) {
      forall taken, r, d | Scanned(ranges, c, taken, r, d)
        ensures r.None? <==> forall a: IpAddr :: InPool(ranges, a) ==> a in taken
      {
        ExhaustedIff(ranges, family, c, taken, r, d);
      }
    }
    if a: IpAddr :| InPool(ranges, a) && !Seen(ranges, c, a) {
      UnseenHides(ranges, family, c, a);
    }
  }

  /** With everything seen allocated, an unseen address stays hidden. */
  lemma {:induction false} UnseenHides(ranges: seq<IpNet>, family: Family, c: Cursor, a: IpAddr)
    requires SingleFamily(ranges, family) && CursorValid(ranges, c) && InPool(ranges, a) && !Seen(ranges, c, a)
    ensures !ExhaustionRight(ranges, c)
  {
    hide Contains, Size, Network, Advance, Seen, InPool;
    var k := SeenIsVisited(ranges, family, c);
    var taken := seq(k, t requires 0 <= t < k => After(ranges, c, t).ip);
    forall t: nat | t < k
      ensures After(ranges, c, t).ip in taken
    {
      assert taken[t] == After(ranges, c, t).ip;
    }
    assert ScannedIn(ranges, c, taken, None, k);
    assert Scanned(ranges, c, taken, None, After(ranges, c, k));
    assert !Visits(ranges, c, k, a);
    assert a !in taken;
  }

  /** The cursor's address lies in no other range: true of every cursor when ranges do not overlap. */
  predicate Unshared(ranges: seq<IpNet>, c: Cursor)
    requires CursorValid(ranges, c)
  {
    forall m | 0 <= m < |ranges| :: Contains(ranges[m], c.ip) ==> m == c.index
  }

  /** Then the search goes all the way round and sees everything. */
  lemma {:induction false} UnsharedSeesPool(ranges: seq<IpNet>, family: Family, c: Cursor)
    requires SingleFamily(ranges, family) && CursorValid(ranges, c) && Unshared(ranges, c)
    ensures SeesPool(ranges, c)
  {
    hide Contains, Size, Network, Advance, Seen;
    var k := SeenIsVisited(ranges, family, c);
    assert After(ranges, c, k) == c;
    forall a: IpAddr | InPool(ranges, a)
      ensures Seen(ranges, c, a)
    {
      var m :| 0 <= m < |ranges| && Contains(ranges[m], a);
      var at := Reaches(ranges, family, c, m, a);
      var j := CycleRepeats(ranges, c, k, at);
      assert Visits(ranges, c, k, a);
    }
  }

  ghost predicate RangesDisjoint(ranges: seq<IpNet>) {
    forall i, j, a: IpAddr :: 0 <= i < |ranges| && 0 <= j < |ranges| && Contains(ranges[i], a) && Contains(ranges[j], a) ==> i == j
  }

  lemma {:induction false} CycleRepeats(ranges: seq<IpNet>, c: Cursor, period: nat, k: nat) returns (j: nat)
    requires CursorValid(ranges, c) && period > 0 && After(ranges, c, period) == c
    ensures j < period && After(ranges, c, k) == After(ranges, c, j)
    decreases k
  {
    hide Contains, Advance;
    if k < period {
      j := k;
    } else {
      AfterAdd(ranges, c, period, k - period);
      assert period + (k - period) == k;
      j := CycleRepeats(ranges, c, period, k - period);
    }
  }

  lemma {:induction false} DisjointIsUnshared(ranges: seq<IpNet>, c: Cursor)
    requires RangesDisjoint(ranges) && CursorValid(ranges, c)
    ensures Unshared(ranges, c)
  {
  }

  /** The three shapes of a step, in arithmetic. */
  lemma {:induction false} AdvanceShape(ranges: seq<IpNet>, c: Cursor)
    requires CursorValid(ranges, c)
    ensures var r, d := ranges[c.index], Advance(ranges, c);
            && c.ip.family == r.addr.family && Network(r).bits <= c.ip.bits < Network(r).bits + Size(r)
            && if Full(r) then d == Cursor(c.index, NextIp(c.ip))
               else if c.ip.bits + 1 < Network(r).bits + Size(r) then d == Cursor(c.index, Ip(c.ip.family, c.ip.bits + 1))
               else d == Cursor(Wrap(c.index + 1, |ranges|), Network(ranges[Wrap(c.index + 1, |ranges|)]))
  {
    hide Contains, Network, Size, Pow2;
    var r := ranges[c.index];
    ContainsIffInRange(r, c.ip);
    if Full(r) {
      AddressFits(r, c.ip);
      FullHoldsAll(r, NextIp(c.ip));
    } else if c.ip.bits + 1 < Network(r).bits + Size(r) {
      StepInside(ranges, c);
    } else {
      StepOver(ranges, c);
    }
  }

  lemma {:induction false} FullIsAlone(ranges: seq<IpNet>, family: Family, i: nat, j: nat)
    requires SingleFamily(ranges, family) && RangesDisjoint(ranges) && i < |ranges| && j < |ranges| && Full(ranges[i])
    ensures i == j
  {
    assert ranges[i] in ranges && ranges[j] in ranges;
    NetworkInside(ranges[j]);
    AddressFits(ranges[j], Network(ranges[j]));
    FullHoldsAll(ranges[i], Network(ranges[j]));
  }

  /** Over disjoint ranges, a cursor is reached from one cursor only. */
  lemma {:induction false} AdvanceInjective(ranges: seq<IpNet>, family: Family, c: Cursor, d: Cursor)
    requires SingleFamily(ranges, family) && RangesDisjoint(ranges)
    requires CursorValid(ranges, c) && CursorValid(ranges, d) && Advance(ranges, c) == Advance(ranges, d)
    ensures c == d
  {
    hide Contains, Network, Size, Pow2, Advance, RangesDisjoint;
    AdvanceShape(ranges, c);
    AdvanceShape(ranges, d);
    if Full(ranges[c.index]) {
      FullIsAlone(ranges, family, c.index, d.index);
      AddressFits(ranges[c.index], c.ip);
      AddressFits(ranges[d.index], d.ip);
    } else if Full(ranges[d.index]) {
      FullIsAlone(ranges, family, d.index, c.index);
    }
  }

  lemma {:induction false} BackToStart(ranges: seq<IpNet>, family: Family, c: Cursor, i: nat, j: nat)
    requires SingleFamily(ranges, family) && RangesDisjoint(ranges) && CursorValid(ranges, c)
    requires i <= j && After(ranges, c, i) == After(ranges, c, j)
    ensures After(ranges, c, j - i) == c
    decreases i
  {
    hide Contains, Advance, RangesDisjoint;
    if i != 0 {
      AdvanceInjective(ranges, family, After(ranges, c, i - 1), After(ranges, c, j - 1));
      BackToStart(ranges, family, c, i - 1, j - 1);
    }
  }

  /** Over disjoint ranges, a search looks at no address twice. */
  lemma {:induction false} VisitedOnce(
    ranges: seq<IpNet>, family: Family, c: Cursor, taken: seq<IpAddr>, r: Option<IpAddr>, k: nat, i: nat, j: nat)
    requires SingleFamily(ranges, family) && RangesDisjoint(ranges) && CursorValid(ranges, c)
    requires ScannedIn(ranges, c, taken, r, k) && i < j < k
    ensures After(ranges, c, i).ip != After(ranges, c, j).ip
  {
    hide Contains, Advance;
    if After(ranges, c, i).ip == After(ranges, c, j).ip {
      BackToStart(ranges, family, c, i, j);
    }
  }

  // ---- overlapping ranges -------------------------------------------------------------------------

  const NARROW: IpNet := Cidr(Ip(V4, 0), 31)
  const WIDE: IpNet := Cidr(Ip(V4, 0), 30)

  /** Exhaustion reported with an address free: the search compares addresses, not positions, and meets its
      first address again in the overlapping range before it has seen the rest of it. */
  lemma {:induction false} OverlapHidesFreeAddress()
    ensures var ranges, c, taken := [NARROW, WIDE], Cursor(0, Ip(V4, 0)), [Ip(V4, 0), Ip(V4, 1)];
            && SingleFamily(ranges, V4) && CursorValid(ranges, c)
            && Scanned(ranges, c, taken, None, After(ranges, c, 2))
            && InPool(ranges, Ip(V4, 2)) && Ip(V4, 2) !in taken
  {
    var ranges, c, taken := [NARROW, WIDE], Cursor(0, Ip(V4, 0)), [Ip(V4, 0), Ip(V4, 1)];
    assert Pow2(1) == 2 && Pow2(2) == 4;
    assert Size(NARROW) == 2 && Size(WIDE) == 4;
    StepInside(ranges, c);
    StepOver(ranges, Advance(ranges, c));
    assert After(ranges, c, 1) == Advance(ranges, After(ranges, c, 0));
    assert After(ranges, c, 2) == Advance(ranges, After(ranges, c, 1));
    assert ScannedIn(ranges, c, taken, None, 2);
    assert ranges[1] in ranges && Contains(WIDE, Ip(V4, 2));
  }

  /** Overlap alone does no harm: of the same range twice, the first is seen whole. */
  lemma {:induction false} RepeatedRangeIsRight()
    ensures var ranges, c := [NARROW, NARROW], Cursor(0, Ip(V4, 0));
            CursorValid(ranges, c) && !Unshared(ranges, c) && ExhaustionRight(ranges, c)
  {
    hide ExhaustionRight;
    var ranges, c := [NARROW, NARROW], Cursor(0, Ip(V4, 0));
    assert Contains(ranges[1], c.ip);
    assert forall r :: r in ranges ==> r == NARROW;
    ExhaustionRightIff(ranges, V4, c);
  }
}
