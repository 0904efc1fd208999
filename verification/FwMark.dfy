// The FWMARK registry of DSR services: open addressing over a 14-bit hash, keyed by service text.

module FwMark {
  import opened Wrappers
  import opened ServiceModel

  const MAX_UNIQUE_FWMARK_INC: nat := 16380

  // ---- service keys ---------------------------------------------------------------------------

  function ProtoName(p: Protocol): string {
    match p
    case Tcp => "tcp"
    case Udp => "udp"
    case Sctp => "sctp"
  }

  function Digit(d: nat): char
    requires d < 10
  {
    "0123456789"[d]
  }

  function Decimal(n: nat): (s: string)
    ensures s != []
  {
    if n < 10 then [Digit(n)] else Decimal(n / 10) + [Digit(n % 10)]
  }

  function DigitValue(c: char): Option<nat> {
    if '0' <= c <= '9' then Some(c as int - '0' as int) else None
  }

  /** Parsing a `u16`; too large a value is an error. */
  function ParseU16(s: string): Option<nat> {
    if s == [] then None else
      match ParseDigits(s)
      case Some(n) => if n < 0x1_0000 then Some(n) else None
      case None => None
  }

  function ParseDigits(s: string): Option<nat> {
    if s == [] then Some(0) else
      match (ParseDigits(s[..|s|-1]), DigitValue(s[|s|-1]))
      case (Some(n), Some(d)) => Some(10 * n + d)
      case _ => None
  }

  lemma {:induction false} DigitRoundTrip(d: nat)
    requires d < 10
    ensures DigitValue(Digit(d)) == Some(d) && Digit(d) != '-'
  {
  }

  lemma {:induction false} DecimalRoundTrip(n: nat)
    ensures ParseDigits(Decimal(n)) == Some(n)
    ensures '-' !in Decimal(n)
  {
    DigitRoundTrip(n % 10);
    var s := Decimal(n);
    if n < 10 {
      assert s[..|s|-1] == [];
      assert ParseDigits([]) == Some(0);
    } else {
      DecimalRoundTrip(n / 10);
      assert s[..|s|-1] == Decimal(n / 10);
    }
  }

  /** `service_key`. */
  function ServiceKey(ip: string, proto: Protocol, port: nat): string {
    ip + "-" + ProtoName(proto) + "-" + Decimal(port)
  }

  /** Keys as they are written. */
  lemma {:induction false} KeyText()
    ensures ServiceKey("10.0.0.1", Tcp, 8) == "10.0.0.1-tcp-8"
    ensures ServiceKey("10.0.0.1", Udp, 53) == "10.0.0.1-udp-53"
    ensures ServiceKey("fd00::1", Sctp, 132) == "fd00::1-sctp-132"
  {
    assert Decimal(8) == "8" && Decimal(5) == "5" && Decimal(53) == "53";
    assert Decimal(1) == "1" && Decimal(13) == "13" && Decimal(132) == "132";
  }

  /** `split('-')`. */
  function Split(s: string): (parts: seq<string>)
    ensures parts != []
  {
    if s == [] then [[]]
    else if s[0] == '-' then [[]] + Split(s[1..])
    else var rest := Split(s[1..]); [[s[0]] + rest[0]] + rest[1..]
  }

  lemma {:induction false} SplitPlain(s: string)
    requires '-' !in s
    ensures Split(s) == [s]
  {
    if s != [] {
      assert s[0] in s;
      assert forall c :: c in s[1..] ==> c in s;
      SplitPlain(s[1..]);
      assert [s[0]] + s[1..] == s;
    }
  }

  lemma {:induction false} SplitFirst(a: string, b: string)
    requires '-' !in a
    ensures Split(a + "-" + b) == [a] + Split(b)
  {
    var s := a + "-" + b;
    if a == [] {
      assert s[1..] == b;
    } else {
      assert a[0] in a;
      assert forall c :: c in a[1..] ==> c in a;
      assert s[1..] == a[1..] + "-" + b;
      SplitFirst(a[1..], b);
      assert [s[0]] + a[1..] == a;
      assert ([a[1..]] + Split(b))[1..] == Split(b);
    }
  }

  lemma {:induction false} SplitLength(s: string, b: string)
    ensures |Split(s + "-" + b)| == |Split(s)| + |Split(b)|
  {
    var t := s + "-" + b;
    if s == [] {
      assert t[1..] == b;
    } else {
      assert t[1..] == s[1..] + "-" + b;
      SplitLength(s[1..], b);
    }
  }

  lemma {:induction false} SplitDashed(s: string)
    requires '-' in s
    ensures |Split(s)| >= 2
  {
    if s[0] != '-' {
      assert '-' in s[1..] by {
        var i :| 0 <= i < |s| && s[i] == '-';
        assert s[1..][i-1] == '-';
      }
      SplitDashed(s[1..]);
    }
  }

  lemma {:induction false} ProtoPlain(p: Protocol)
    ensures '-' !in ProtoName(p)
  {
  }

  function ParseKey(key: string): Option<(string, string, nat)> {
    var parts := Split(key);
    if |parts| != 3 then None else
      match ParseU16(parts[2])
      case Some(port) => Some((parts[0], parts[1], port))
      case None => None
  }

  /** A key reads back as its service, exactly when the address text has no dash in it. */
  lemma {:induction false} KeyRoundTripIff(ip: string, proto: Protocol, port: nat)
    requires port < 0x1_0000
    ensures ParseKey(ServiceKey(ip, proto, port)) == Some((ip, ProtoName(proto), port)) <==> '-' !in ip
    ensures '-' in ip ==> ParseKey(ServiceKey(ip, proto, port)) == None
  {
    var p, d := ProtoName(proto), Decimal(port);
    ProtoPlain(proto);
    DecimalRoundTrip(port);
    var tail := p + "-" + d;
    SplitPlain(d);
    SplitFirst(p, d);
    assert Split(tail) == [p, d];
    assert ServiceKey(ip, proto, port) == ip + "-" + tail;
    if '-' !in ip {
      SplitFirst(ip, tail);
    } else {
      SplitLength(ip, tail);
      SplitDashed(ip);
    }
  }

  lemma {:induction false} SameDash(a: string, b: string, x: string, y: string)
    requires a + "-" + x == b + "-" + y && '-' !in y
    ensures |a| <= |b|
  {
    var s := a + "-" + x;
    assert s[|a|] == '-';
    assert forall k :: |b| < k < |s| ==> s[k] == y[k - |b| - 1] && s[k] in y;
  }

  lemma {:induction false} LastDash(a: string, b: string, x: string, y: string)
    requires a + "-" + x == b + "-" + y && '-' !in x && '-' !in y
    ensures a == b && x == y
  {
    var s := a + "-" + x;
    SameDash(a, b, x, y);
    SameDash(b, a, y, x);
    assert a == s[..|a|] && b == s[..|b|];
    assert x == s[|a|+1..] && y == s[|b|+1..];
  }

  /** Different services never share a key, whatever their address text. */
  lemma {:induction false} KeysInjective(ip: string, proto: Protocol, port: nat, ip': string, proto': Protocol, port': nat)
    requires ServiceKey(ip, proto, port) == ServiceKey(ip', proto', port')
    ensures ip == ip' && proto == proto' && port == port'
  {
    DecimalRoundTrip(port);
    DecimalRoundTrip(port');
    ProtoPlain(proto);
    ProtoPlain(proto');
    LastDash(ip + "-" + ProtoName(proto), ip' + "-" + ProtoName(proto'), Decimal(port), Decimal(port'));
    LastDash(ip, ip', ProtoName(proto), ProtoName(proto'));
    assert "tcp"[0] != "udp"[0] && "udp"[0] != "sctp"[0] && "tcp"[0] != "sctp"[0];
  }

  // ---- the table ------------------------------------------------------------------------------

  /** 14 bits. */
  type Mark = n: nat | n < 0x4000

  type Table = map<Mark, string>

  /** `generate_fwmark`: any hash of the key and the probe number into 14 bits. */
  type Hash = (string, nat) -> Mark

  /** The slot is empty or this service's. */
  predicate Open(t: Table, hash: Hash, key: string, i: nat) {
    hash(key, i) in t ==> t[hash(key, i)] == key
  }

  /** The first open probe. */
  ghost predicate FirstOpen(t: Table, hash: Hash, key: string, i: nat) {
    i < 16380 && Open(t, hash, key, i) && forall j: nat :: j < i ==> !Open(t, hash, key, j)
  }

  ghost predicate AllHeldByOthers(t: Table, hash: Hash, key: string) {
    forall i: nat :: i < 16380 ==> !Open(t, hash, key, i)
  }

  /** Every entry sits at some probe of its service, all earlier ones being held by other services. */
  ghost predicate Placed(t: Table, hash: Hash) {
    forall m :: m in t ==> exists i: nat :: FirstOpen(t, hash, t[m], i) && hash(t[m], i) == m
  }

  /** Ports are 16 bits wide. */
  type Port = n: nat | n < 0x1_0000

  /** Every entry is the key of some service. */
  ghost predicate Keyed(t: Table) {
    forall m :: m in t ==> exists ip, proto, port: Port :: t[m] == ServiceKey(ip, proto, port)
  }

  /** The mark that holds a key; in a placed table there is at most one. */
  ghost function MarkOf(t: Table, key: string): (r: Option<Mark>)
    ensures r.Some? ==> r.value in t && t[r.value] == key
    ensures r.None? ==> forall m :: m in t ==> t[m] != key
  {
    if m :| m in t && t[m] == key then Some(m) else None
  }

  /** `lookup_by_fwmark`. */
  function LookupByFwMark(t: Table, mark: Mark): Option<(string, string, nat)> {
    if mark in t then ParseKey(t[mark]) else None
  }

  class FwMarkRegistry {
    const hash: Hash
    var table: Table

    ghost predicate Valid()
      reads this
    {
      Placed(table, hash) && Keyed(table)
    }

    constructor (hash: Hash)
      ensures Valid() && this.hash == hash && table == map[]
    {
      this.hash, this.table := hash, map[];
    }

    /** `assign`. */
    method Assign(ip: string, proto: Protocol, port: Port) returns (r: Result<Mark, string>)
      requires Valid()
      modifies this
      ensures Valid()
      ensures r.Err? <==> AllHeldByOthers(old(table), hash, ServiceKey(ip, proto, port))
      ensures r.Err? ==> table == old(table)
      ensures r.Ok? ==> exists i: nat :: FirstOpen(old(table), hash, ServiceKey(ip, proto, port), i)
                                         && r.value == hash(ServiceKey(ip, proto, port), i)
      ensures r.Ok? ==> table == old(table)[r.value := ServiceKey(ip, proto, port)]
    {
      var key := ServiceKey(ip, proto, port);
      var increment := 0;
      while true
        invariant table == old(table) && increment < MAX_UNIQUE_FWMARK_INC
        invariant forall j: nat :: j < increment ==> !Open(table, hash, key, j)
        decreases MAX_UNIQUE_FWMARK_INC - increment
      {
        var mark := hash(key, increment);
        if mark in table && table[mark] != key {
          increment := increment + 1;
          if increment >= MAX_UNIQUE_FWMARK_INC {
            return Err(key);
          }
        } else {
          assert FirstOpen(table, hash, key, increment);
          InsertPlaced(table, hash, key, increment);
          table := table[mark := key];
          return Ok(mark);
        }
      }
    }

    /** `lookup_by_service`: the first entry of that service. */
    method LookupByService(ip: string, proto: Protocol, port: Port) returns (r: Option<Mark>)
      requires Valid()
      ensures r == MarkOf(table, ServiceKey(ip, proto, port))
    {
      var key, rest := ServiceKey(ip, proto, port), table.Keys;
      while rest != {}
        invariant rest <= table.Keys && forall m :: m in table.Keys - rest ==> table[m] != key
        decreases |rest|
      {
        var m :| m in rest;
        if table[m] == key {
          OneMarkEach(table, hash, m, MarkOf(table, key).value);
          return Some(m);
        }
        rest := rest - {m};
      }
      return None;
    }
  }

  // ---- runs of assignments ----------------------------------------------------------------------

  lemma {:induction false} StillFirst(t: Table, hash: Hash, key: string, i: nat, other: string, k: nat)
    requires FirstOpen(t, hash, key, i) && FirstOpen(t, hash, other, k)
    requires other == key || hash(other, k) != hash(key, i)
    ensures FirstOpen(t[hash(key, i) := key], hash, other, k)
  {
    var t' := t[hash(key, i) := key];
    forall j: nat | j < k
      ensures !Open(t', hash, other, j)
    {
      assert !Open(t, hash, other, j);
      assert Open(t, hash, key, i);
    }
  }

  /** Taking the first open probe keeps every service in its place. */
  lemma {:induction false} InsertPlaced(t: Table, hash: Hash, key: string, i: nat)
    requires Placed(t, hash) && FirstOpen(t, hash, key, i)
    ensures Placed(t[hash(key, i) := key], hash)
  {
    var t' := t[hash(key, i) := key];
    forall m | m in t'
      ensures exists k: nat :: FirstOpen(t', hash, t'[m], k) && hash(t'[m], k) == m
    {
      var k: nat := i;
      if m != hash(key, i) {
        k :| FirstOpen(t, hash, t[m], k) && hash(t[m], k) == m;
      }
      StillFirst(t, hash, key, i, t'[m], k);
    }
  }

  /** No service holds two marks. */
  lemma {:induction false} OneMarkEach(t: Table, hash: Hash, m: Mark, n: Mark)
    requires Placed(t, hash) && m in t && n in t && t[m] == t[n]
    ensures m == n
  {
    var i: nat :| FirstOpen(t, hash, t[m], i) && hash(t[m], i) == m;
    var j: nat :| FirstOpen(t, hash, t[n], j) && hash(t[n], j) == n;
    assert i == j;
  }

  lemma {:induction false} ProtoNamesDiffer(p: Protocol, q: Protocol)
    requires ProtoName(p) == ProtoName(q)
    ensures p == q
  {
    assert "tcp"[0] != "udp"[0] && "udp"[0] != "sctp"[0] && "tcp"[0] != "sctp"[0];
  }

  /** The two lookups are inverse, for services whose address text has no dash: a mark is the service's exactly
      when the mark reads back as the service. */
  lemma {:induction false} LookupsInverse(t: Table, hash: Hash, ip: string, proto: Protocol, port: Port, m: Mark)
    requires Placed(t, hash) && Keyed(t) && '-' !in ip
    ensures MarkOf(t, ServiceKey(ip, proto, port)) == Some(m) <==> LookupByFwMark(t, m) == Some((ip, ProtoName(proto), port))
  {
    hide ServiceKey, ParseKey, ProtoName;
    var key := ServiceKey(ip, proto, port);
    KeyRoundTripIff(ip, proto, port);
    if m in t {
      if t[m] == key {
        OneMarkEach(t, hash, m, MarkOf(t, key).value);
      }
      var ip', proto', port': Port :| t[m] == ServiceKey(ip', proto', port');
      KeyRoundTripIff(ip', proto', port');
      if LookupByFwMark(t, m) == Some((ip, ProtoName(proto), port)) {
        ProtoNamesDiffer(proto, proto');
      }
    }
  }

  /** A service that holds a mark gets it again, and nothing changes. */
  lemma {:induction false} AssignedAgain(t: Table, hash: Hash, m: Mark, i: nat)
    requires Placed(t, hash) && m in t && FirstOpen(t, hash, t[m], i)
    ensures hash(t[m], i) == m && t[m := t[m]] == t && !AllHeldByOthers(t, hash, t[m])
  {
    var j: nat :| FirstOpen(t, hash, t[m], j) && hash(t[m], j) == m;
    assert i == j;
  }

  /** One assignment as a step: its result and the table it leaves. */
  ghost predicate Assigns(t: Table, hash: Hash, key: string, r: Option<Mark>, t': Table) {
    match r
    case Some(m) => (exists i: nat :: FirstOpen(t, hash, key, i) && m == hash(key, i)) && t' == t[m := key]
    case None => AllHeldByOthers(t, hash, key) && t' == t
  }

  /** A run of assignments from the empty registry. */
  ghost predicate IsRun(hash: Hash, keys: seq<string>, results: seq<Option<Mark>>, tables: seq<Table>) {
    && |results| == |keys| && |tables| == |keys| + 1 && tables[0] == map[]
    && forall k :: 0 <= k < |keys| ==> StepOf(hash, keys, results, tables, k)
  }

  ghost predicate StepOf(hash: Hash, keys: seq<string>, results: seq<Option<Mark>>, tables: seq<Table>, k: nat)
    requires k < |keys| && |results| == |keys| && |tables| == |keys| + 1
  {
    Assigns(tables[k], hash, keys[k], results[k], tables[k+1])
  }

  /** Entries stay: an assignment moves nobody. */
  lemma {:induction false} AssignKeeps(t: Table, hash: Hash, key: string, r: Option<Mark>, t': Table)
    requires Placed(t, hash) && Assigns(t, hash, key, r, t')
    ensures Placed(t', hash) && forall m :: m in t ==> m in t' && t'[m] == t[m]
  {
    if r.Some? {
      var i: nat :| FirstOpen(t, hash, key, i) && r.value == hash(key, i);
      InsertPlaced(t, hash, key, i);
    }
  }

  lemma {:induction false} RunKeeps(hash: Hash, keys: seq<string>, results: seq<Option<Mark>>, tables: seq<Table>, i: nat, j: nat)
    requires IsRun(hash, keys, results, tables) && i <= j <= |keys|
    ensures Placed(tables[j], hash) && forall m :: m in tables[i] ==> m in tables[j] && tables[j][m] == tables[i][m]
    decreases j
  {
    if j > 0 {
      assert StepOf(hash, keys, results, tables, j - 1);
      RunKeeps(hash, keys, results, tables, if i < j then i else j - 1, j - 1);
      AssignKeeps(tables[j-1], hash, keys[j-1], results[j-1], tables[j]);
    }
  }

  /** Over any run, a service that got a mark gets the same one ever after, and two services never get the
      same one. */
  lemma {:induction false} MarksAreStableAndUnique(
    hash: Hash, keys: seq<string>, results: seq<Option<Mark>>, tables: seq<Table>, i: nat, j: nat)
    requires IsRun(hash, keys, results, tables) && i < j < |keys| && results[i].Some?
    ensures keys[j] == keys[i] ==> results[j] == results[i]
    ensures keys[j] != keys[i] ==> results[j] != results[i]
  {
    var m := results[i].value;
    assert StepOf(hash, keys, results, tables, i) && StepOf(hash, keys, results, tables, j);
    RunKeeps(hash, keys, results, tables, i + 1, j);
    assert m in tables[j] && tables[j][m] == keys[i];
    if keys[j] == keys[i] {
      var k: nat :| FirstOpen(tables[j], hash, keys[i], k) && hash(keys[i], k) == m;
      AssignedAgain(tables[j], hash, m, k);
      assert results[j].Some?;
    }
  }
}
