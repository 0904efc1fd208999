// The attributes of the IPVS commands, and reading them back.

module Genetlink {
  import opened Wrappers
  import opened Net
  import opened ServiceModel
  import opened Pools
  import opened Tlv

  const IPVS_CMD_ATTR_SERVICE: nat := 1
  const IPVS_CMD_ATTR_DEST: nat := 2

  const SVC_ATTR_AF: nat := 1
  const SVC_ATTR_PROTOCOL: nat := 2
  const SVC_ATTR_ADDRESS: nat := 3
  const SVC_ATTR_PORT: nat := 4
  const SVC_ATTR_SCHED_NAME: nat := 6
  const SVC_ATTR_FLAGS: nat := 7
  const SVC_ATTR_TIMEOUT: nat := 8
  const SVC_ATTR_NETMASK: nat := 9

  const DEST_ATTR_ADDRESS: nat := 1
  const DEST_ATTR_PORT: nat := 2
  const DEST_ATTR_FWD_METHOD: nat := 3
  const DEST_ATTR_WEIGHT: nat := 4
  const DEST_ATTR_U_THRESH: nat := 5
  const DEST_ATTR_L_THRESH: nat := 6
  const DEST_ATTR_ADDR_FAMILY: nat := 11

  // ---- fields -----------------------------------------------------------------------------------

  function ProtoNum(p: Protocol): nat {
    match p
    case Tcp => 6
    case Udp => 17
    case Sctp => 132
  }

  function ProtoOf(n: nat): Option<Protocol> {
    if n == 6 then Some(Tcp) else if n == 17 then Some(Udp) else if n == 132 then Some(Sctp) else None
  }

  function Af(f: Family): nat {
    if f.V6? then 10 else 2
  }

  function AddrBytes(ip: IpAddr): Bytes {
    Octets(ip.bits, if ip.family.V4? then 4 else 16)
  }

  /** An address field: its length must be that of the announced family. */
  function AddrOf(af: nat, b: Bytes): Option<IpAddr> {
    if af == 2 && |b| == 4 then Some(Ip(V4, Value(b)))
    else if af == 10 && |b| == 16 then Some(Ip(V6, Value(b)))
    else None
  }

  function ZeroTerminated(s: string): (b: Bytes)
    ensures |b| == |s| + 1
  {
    seq(|s|, i requires 0 <= i < |s| => s[i] as int % 256) + [0]
  }

  /** `ipvs_name`. */
  function SchedName(s: Scheduler): string {
    match s
    case Rr => "rr"
    case Lc => "lc"
    case Sh => "sh"
    case Dh => "dh"
    case Mh => "mh"
  }

  function SchedOf(b: Bytes): Option<Scheduler> {
    if b == ZeroTerminated("rr") then Some(Rr)
    else if b == ZeroTerminated("lc") then Some(Lc)
    else if b == ZeroTerminated("sh") then Some(Sh)
    else if b == ZeroTerminated("dh") then Some(Dh)
    else if b == ZeroTerminated("mh") then Some(Mh)
    else None
  }

  /** The flag bits 0x1, 0x8, 0x10 and 0x20; being distinct, they add up. */
  function FlagBits(persistent: bool, f: SchedFlags): nat {
    (if persistent then 0x1 else 0) + (if f.flag1 then 0x8 else 0) + (if f.flag2 then 0x10 else 0) + (if f.flag3 then 0x20 else 0)
  }

  function Bit(v: nat, bit: nat): bool
    requires bit > 0
  {
    v / bit % 2 == 1
  }

  lemma {:induction false} FlagBitsRoundTrip(persistent: bool, f: SchedFlags)
    ensures var v := FlagBits(persistent, f);
            v < 0x40 && Bit(v, 0x1) == persistent && SchedFlags(Bit(v, 0x8), Bit(v, 0x10), Bit(v, 0x20)) == f
  {
  }

  function Netmask(f: Family): nat {
    if f.V6? then 128 else 0xFFFF_FFFF
  }

  // ---- services -----------------------------------------------------------------------------------

  function IdentityAttrs(svc: IpvsService): seq<Attr> {
    [Attr(SVC_ATTR_AF, Le(Af(svc.addr.family), 2)),
     Attr(SVC_ATTR_PROTOCOL, Le(ProtoNum(svc.protocol), 2)),
     Attr(SVC_ATTR_ADDRESS, AddrBytes(svc.addr)),
     Attr(SVC_ATTR_PORT, Octets(svc.port, 2))]
  }

  function Timeout(svc: IpvsService): nat {
    if svc.persistent.Some? then svc.persistent.value else 0
  }

  function ServiceAttrs(svc: IpvsService): seq<Attr> {
    IdentityAttrs(svc) +
    [Attr(SVC_ATTR_SCHED_NAME, ZeroTerminated(SchedName(svc.scheduler))),
     Attr(SVC_ATTR_FLAGS, Le(FlagBits(svc.persistent.Some?, svc.schedFlags), 4) + Le(0xFFFF_FFFF, 4)),
     Attr(SVC_ATTR_TIMEOUT, Le(Timeout(svc), 4)),
     Attr(SVC_ATTR_NETMASK, Le(Netmask(svc.addr.family), 4))]
  }

  function DeletionAttrs(svc: IpvsService): seq<Attr> {
    IdentityAttrs(svc) + [Attr(SVC_ATTR_NETMASK, Le(Netmask(svc.addr.family), 4))]
  }

  /** A buffer that attributes are appended to. */
  class AttrBuffer {
    var bytes: Bytes
    ghost var attrs: seq<Attr>

    ghost predicate Valid()
      reads this
    {
      bytes == Encode(attrs)
    }

    constructor ()
      ensures Valid() && attrs == []
    {
      bytes, attrs := [], [];
    }

    method Extend(kind: nat, payload: Bytes)
      requires Valid()
      modifies this
      ensures Valid() && attrs == old(attrs) + [Attr(kind, payload)]
    {
      var out := EncodeNla(kind, payload);
      EncodePush(attrs, Attr(kind, payload));
      bytes := bytes + out;
      attrs := attrs + [Attr(kind, payload)];
    }
  }

  lemma {:induction false} EncodePush(attrs: seq<Attr>, a: Attr)
    ensures Encode(attrs + [a]) == Encode(attrs) + Nla(a)
  {
    hide Nla;
    if attrs == [] {
      assert [a][1..] == [];
      assert Encode([a]) == Nla(a) + Encode([]);
    } else {
      assert (attrs + [a])[1..] == attrs[1..] + [a];
      EncodePush(attrs[1..], a);
    }
  }

  /** `service_attr`. */
  method ServiceAttr(svc: IpvsService) returns (out: Bytes)
    ensures out == Nla(Attr(IPVS_CMD_ATTR_SERVICE, Encode(ServiceAttrs(svc))))
  {
    hide Le, Octets, Nla, Encode, ZeroTerminated;
    var b := new AttrBuffer();
    b.Extend(SVC_ATTR_AF, Le(Af(svc.addr.family), 2));
    b.Extend(SVC_ATTR_PROTOCOL, Le(ProtoNum(svc.protocol), 2));
    b.Extend(SVC_ATTR_ADDRESS, AddrBytes(svc.addr));
    b.Extend(SVC_ATTR_PORT, Octets(svc.port, 2));
    b.Extend(SVC_ATTR_SCHED_NAME, ZeroTerminated(SchedName(svc.scheduler)));
    var flags := if svc.persistent.Some? then 0x1 else 0;
    if svc.schedFlags.flag1 {
      flags := flags + 0x8;
    }
    if svc.schedFlags.flag2 {
      flags := flags + 0x10;
    }
    if svc.schedFlags.flag3 {
      flags := flags + 0x20;
    }
    b.Extend(SVC_ATTR_FLAGS, Le(flags, 4) + Le(0xFFFF_FFFF, 4));
    b.Extend(SVC_ATTR_TIMEOUT, Le(if svc.persistent.Some? then svc.persistent.value else 0, 4));
    b.Extend(SVC_ATTR_NETMASK, Le(Netmask(svc.addr.family), 4));
    assert b.attrs == ServiceAttrs(svc);
    out := EncodeNla(IPVS_CMD_ATTR_SERVICE, b.bytes);
  }

  /** `service_identity_attr`. */
  method ServiceIdentityAttr(svc: IpvsService) returns (out: Bytes)
    ensures out == Nla(Attr(IPVS_CMD_ATTR_SERVICE, Encode(DeletionAttrs(svc))))
  {
    hide Le, Octets, Nla, Encode;
    var b := new AttrBuffer();
    b.Extend(SVC_ATTR_AF, Le(Af(svc.addr.family), 2));
    b.Extend(SVC_ATTR_PROTOCOL, Le(ProtoNum(svc.protocol), 2));
    b.Extend(SVC_ATTR_ADDRESS, AddrBytes(svc.addr));
    b.Extend(SVC_ATTR_PORT, Octets(svc.port, 2));
    b.Extend(SVC_ATTR_NETMASK, Le(Netmask(svc.addr.family), 4));
    assert b.attrs == DeletionAttrs(svc);
    out := EncodeNla(IPVS_CMD_ATTR_SERVICE, b.bytes);
  }

  // ---- reading back ---------------------------------------------------------------------------------

  /** The payload of the first attribute of a kind. */
  function Field(attrs: seq<Attr>, kind: nat): Option<Bytes> {
    if attrs == [] then None else if attrs[0].kind == kind then Some(attrs[0].payload) else Field(attrs[1..], kind)
  }

  lemma {:induction false} FieldAt(attrs: seq<Attr>, i: nat)
    requires i < |attrs| && forall j :: 0 <= j < i ==> attrs[j].kind != attrs[i].kind
    ensures Field(attrs, attrs[i].kind) == Some(attrs[i].payload)
  {
    if i != 0 {
      assert attrs[1..][i-1] == attrs[i];
      FieldAt(attrs[1..], i - 1);
    }
  }

  function KeyIn(attrs: seq<Attr>): Option<Key> {
    match (Field(attrs, SVC_ATTR_AF), Field(attrs, SVC_ATTR_PROTOCOL), Field(attrs, SVC_ATTR_ADDRESS), Field(attrs, SVC_ATTR_PORT))
    case (Some(af), Some(proto), Some(addr), Some(port)) =>
      (match (AddrOf(FromLe(af), addr), ProtoOf(FromLe(proto)))
       case (Some(a), Some(p)) => Some(Key(a, p, Value(port)))
       case _ => None)
    case _ => None
  }

  function ServiceIn(attrs: seq<Attr>): Option<IpvsService> {
    match (KeyIn(attrs), Field(attrs, SVC_ATTR_SCHED_NAME), Field(attrs, SVC_ATTR_FLAGS), Field(attrs, SVC_ATTR_TIMEOUT))
    case (Some(k), Some(name), Some(flags), Some(timeout)) =>
      (match SchedOf(name)
       case Some(sched) =>
         var v := FromLe(if |flags| >= 4 then flags[..4] else flags);
         Some(IpvsService(k.addr, k.protocol, k.port, sched, SchedFlags(Bit(v, 0x8), Bit(v, 0x10), Bit(v, 0x20)),
                          if Bit(v, 0x1) then Some(FromLe(timeout)) else None))
       case None => None)
    case _ => None
  }

  /** The attributes nested under one attribute of a message. */
  function Nested(message: Bytes, kind: nat): seq<Attr> {
    match Field(Walk(message), kind)
    case Some(b) => Walk(b)
    case None => []
  }

  /** The fields fit their widths. */
  predicate Sized(svc: IpvsService) {
    && svc.addr.bits < Pow2(Width(svc.addr.family)) && svc.port < 0x1_0000
    && (svc.persistent.Some? ==> svc.persistent.value < 0x1_0000_0000)
  }

  lemma {:induction false} EncodeShort(attrs: seq<Attr>)
    requires forall a :: a in attrs ==> |a.payload| <= 16
    ensures |Encode(attrs)| <= 23 * |attrs|
  {
    if attrs != [] {
      assert attrs[0] in attrs;
      assert forall a :: a in attrs[1..] ==> a in attrs;
      EncodeShort(attrs[1..]);
    }
  }

  /** A message of one nested attribute reads back as its list. */
  lemma {:induction false} NestedRoundTrip(kind: nat, attrs: seq<Attr>)
    requires kind < 0x1_0000 && |attrs| <= 16 && forall a :: a in attrs ==> |a.payload| <= 16 && a.kind < 0x1_0000
    ensures Nested(Nla(Attr(kind, Encode(attrs))), kind) == attrs
  {
    hide Nla, Encode, Walk;
    EncodeShort(attrs);
    WalkEncode(attrs);
    var top := Attr(kind, Encode(attrs));
    WalkOneIff(top);
    FieldAt([top], 0);
  }

  lemma {:induction false} AddrRoundTrip(ip: IpAddr)
    requires ip.bits < Pow2(Width(ip.family))
    ensures AddrOf(Af(ip.family), AddrBytes(ip)) == Some(ip)
  {
    ValueOctets(ip.bits, if ip.family.V4? then 4 else 16);
  }

  lemma {:induction false} SchedRoundTrip(s: Scheduler)
    ensures SchedOf(ZeroTerminated(SchedName(s))) == Some(s)
  {
    assert ZeroTerminated("rr")[0] == 114 && ZeroTerminated("lc")[0] == 108 && ZeroTerminated("sh")[0] == 115;
    assert ZeroTerminated("dh")[0] == 100 && ZeroTerminated("mh")[0] == 109;
  }

  lemma {:induction false} KeyRoundTrip(svc: IpvsService, attrs: seq<Attr>)
    requires Sized(svc) && |attrs| >= 4 && attrs[..4] == IdentityAttrs(svc)
    ensures KeyIn(attrs) == Some(svc.KeyOf())
  {
    hide Le, FromLe, Octets, Value, Field, Pow2, AddrOf, AddrBytes;
    WordSizes();
    assert attrs[0] == IdentityAttrs(svc)[0] && attrs[1] == IdentityAttrs(svc)[1];
    assert attrs[2] == IdentityAttrs(svc)[2] && attrs[3] == IdentityAttrs(svc)[3];
    FieldAt(attrs, 0);
    FieldAt(attrs, 1);
    FieldAt(attrs, 2);
    FieldAt(attrs, 3);
    LeRoundTrip(Af(svc.addr.family), 2);
    LeRoundTrip(ProtoNum(svc.protocol), 2);
    AddrRoundTrip(svc.addr);
    ValueOctets(svc.port, 2);
  }

  lemma {:induction false} ServiceAttrsRoundTrip(svc: IpvsService)
    requires Sized(svc)
    ensures ServiceIn(ServiceAttrs(svc)) == Some(svc)
  {
    hide Le, FromLe, Octets, Value, Field, Pow2, KeyIn, SchedOf, ZeroTerminated, IdentityAttrs, Bit, FlagBits;
    var attrs := ServiceAttrs(svc);
    WordSizes();
    IdentityShape(svc);
    KeyRoundTrip(svc, attrs);
    FieldAt(attrs, 4);
    FieldAt(attrs, 5);
    FieldAt(attrs, 6);
    SchedRoundTrip(svc.scheduler);
    var v := FlagBits(svc.persistent.Some?, svc.schedFlags);
    FlagBitsRoundTrip(svc.persistent.Some?, svc.schedFlags);
    assert attrs[5].payload[..4] == Le(v, 4);
    LeRoundTrip(v, 4);
    LeRoundTrip(Timeout(svc), 4);
  }

  lemma {:induction false} IdentityShape(svc: IpvsService)
    ensures var attrs := IdentityAttrs(svc);
            |attrs| == 4 && attrs[0].kind == SVC_ATTR_AF && attrs[1].kind == SVC_ATTR_PROTOCOL
            && attrs[2].kind == SVC_ATTR_ADDRESS && attrs[3].kind == SVC_ATTR_PORT
    ensures forall a :: a in IdentityAttrs(svc) ==> |a.payload| <= 16 && a.kind < 0x1_0000
  {
  }

  /** What `service_attr` encodes reads back as the service. */
  lemma {:induction false} ServiceRoundTrip(svc: IpvsService)
    requires Sized(svc)
    ensures ServiceIn(Nested(Nla(Attr(IPVS_CMD_ATTR_SERVICE, Encode(ServiceAttrs(svc)))), IPVS_CMD_ATTR_SERVICE)) == Some(svc)
  {
    hide Nla, Encode, IdentityAttrs, Le, ServiceIn, Nested, Sized;
    IdentityShape(svc);
    NestedRoundTrip(IPVS_CMD_ATTR_SERVICE, ServiceAttrs(svc));
    ServiceAttrsRoundTrip(svc);
  }

  /** What `service_identity_attr` encodes names the same service. */
  lemma {:induction false} IdentityRoundTrip(svc: IpvsService)
    requires Sized(svc)
    ensures KeyIn(Nested(Nla(Attr(IPVS_CMD_ATTR_SERVICE, Encode(DeletionAttrs(svc)))), IPVS_CMD_ATTR_SERVICE)) == Some(svc.KeyOf())
  {
    hide Nla, Encode, IdentityAttrs, Le, KeyIn, Nested, Sized;
    IdentityShape(svc);
    NestedRoundTrip(IPVS_CMD_ATTR_SERVICE, DeletionAttrs(svc));
    KeyRoundTrip(svc, DeletionAttrs(svc));
  }

  // ---- on the wire ------------------------------------------------------------------------------------

  lemma {:induction false} PortBytes(port: nat)
    requires port < 0x1_0000
    ensures Octets(port, 2) == [port / 256, port % 256]
  {
    assert Octets(port / 256 / 256, 0) == [] && Octets(port / 256, 1) == [port / 256 % 256];
  }

  lemma {:induction false} NameBytes(s: Scheduler)
    ensures ZeroTerminated(SchedName(s)) ==
            match s
            case Rr => [114, 114, 0]
            case Lc => [108, 99, 0]
            case Sh => [115, 104, 0]
            case Dh => [100, 104, 0]
            case Mh => [109, 104, 0]
  {
  }

  /** The four attributes that name a service, byte by byte. */
  ghost predicate NamesOnTheWire(attrs: seq<Attr>, svc: IpvsService)
    requires Sized(svc)
  {
    && |attrs| >= 4
    && attrs[0] == Attr(1, [if svc.addr.family == V6 then 10 else 2, 0])
    && attrs[1] == Attr(2, [match svc.protocol case Tcp => 6 case Udp => 17 case Sctp => 132, 0])
    && attrs[2].kind == 3 && |attrs[2].payload| == (if svc.addr.family == V6 then 16 else 4) && Value(attrs[2].payload) == svc.addr.bits
    && attrs[3] == Attr(4, [svc.port / 256, svc.port % 256])
  }

  lemma {:induction false} IdentityBytes(svc: IpvsService, attrs: seq<Attr>)
    requires Sized(svc) && |attrs| >= 4 && attrs[..4] == IdentityAttrs(svc)
    ensures NamesOnTheWire(attrs, svc)
  {
    hide Le, Octets, Value, Pow2;
    var id := IdentityAttrs(svc);
    assert attrs[0] == id[0] && attrs[1] == id[1] && attrs[2] == id[2] && attrs[3] == id[3];
    LeBytes(Af(svc.addr.family));
    LeBytes(ProtoNum(svc.protocol));
    PortBytes(svc.port);
    ValueOctets(svc.addr.bits, if svc.addr.family.V4? then 4 else 16);
  }

  /** The scheduler, flags and timeout of a service, byte by byte; the flags come with a full mask. */
  ghost predicate ParametersOnTheWire(name: Attr, flags: Attr, timeout: Attr, svc: IpvsService) {
    && name == Attr(6, match svc.scheduler
                       case Rr => [114, 114, 0]
                       case Lc => [108, 99, 0]
                       case Sh => [115, 104, 0]
                       case Dh => [100, 104, 0]
                       case Mh => [109, 104, 0])
    && flags == Attr(7, [(if svc.persistent.Some? then 1 else 0) + (if svc.schedFlags.flag1 then 8 else 0)
                         + (if svc.schedFlags.flag2 then 16 else 0) + (if svc.schedFlags.flag3 then 32 else 0),
                         0, 0, 0, 255, 255, 255, 255])
    && timeout.kind == 8 && |timeout.payload| == 4
    && Word(timeout.payload) == if svc.persistent.Some? then svc.persistent.value else 0
  }

  lemma {:induction false} ParameterBytes(svc: IpvsService)
    requires Sized(svc)
    ensures var attrs := ServiceAttrs(svc); ParametersOnTheWire(attrs[4], attrs[5], attrs[6], svc)
  {
    hide IdentityAttrs, Le, ZeroTerminated, Pow2;
    IdentityShape(svc);
    NameBytes(svc.scheduler);
    var v := FlagBits(svc.persistent.Some?, svc.schedFlags);
    FlagBitsRoundTrip(svc.persistent.Some?, svc.schedFlags);
    LeBytes(v);
    LeBytes(0xFFFF_FFFF);
    assert Le(v, 4) == [v, 0, 0, 0] && Le(0xFFFF_FFFF, 4) == [255, 255, 255, 255];
    LeWord(Timeout(svc));
  }

  lemma {:induction false} NetmaskBytes(f: Family)
    ensures Le(Netmask(f), 4) == if f == V6 then [128, 0, 0, 0] else [255, 255, 255, 255]
  {
    LeBytes(Netmask(f));
  }

  /** A service message holds one attribute of kind 1, and under it eight, of kinds 1, 2, 3, 4, 6, 7, 8 and 9:
      family, protocol, address and port in network order, scheduler name, flags, timeout, netmask. */
  lemma {:induction false} ServiceOnTheWire(svc: IpvsService)
    requires Sized(svc)
    ensures var attrs := Nested(Nla(Attr(1, Encode(ServiceAttrs(svc)))), 1);
            && |attrs| == 8 && NamesOnTheWire(attrs, svc)
            && ParametersOnTheWire(attrs[4], attrs[5], attrs[6], svc)
            && attrs[7] == Attr(9, if svc.addr.family == V6 then [128, 0, 0, 0] else [255, 255, 255, 255])
  {
    hide Nla, Encode, IdentityAttrs, Le, Nested, Sized, ParametersOnTheWire, NamesOnTheWire, FlagBits, ZeroTerminated, Timeout, Netmask;
    IdentityShape(svc);
    NestedRoundTrip(1, ServiceAttrs(svc));
    IdentityBytes(svc, ServiceAttrs(svc));
    ParameterBytes(svc);
    NetmaskBytes(svc.addr.family);
  }

  /** An identity has kinds 1, 2, 3, 4 and 9 only. */
  lemma {:induction false} IdentityOnTheWire(svc: IpvsService)
    requires Sized(svc)
    ensures var attrs := Nested(Nla(Attr(1, Encode(DeletionAttrs(svc)))), 1);
            && |attrs| == 5 && NamesOnTheWire(attrs, svc)
            && attrs[4] == Attr(9, if svc.addr.family == V6 then [128, 0, 0, 0] else [255, 255, 255, 255])
  {
    hide Nla, Encode, IdentityAttrs, Le, Nested, Octets, Value, Pow2;
    IdentityShape(svc);
    NestedRoundTrip(1, DeletionAttrs(svc));
    IdentityBytes(svc, DeletionAttrs(svc));
    NetmaskBytes(svc.addr.family);
  }

  // ---- destinations ---------------------------------------------------------------------------------

  /** `as u32` of a 32-bit signed number, and back. */
  function ToU32(w: int): nat
    requires -0x8000_0000 <= w < 0x8000_0000
  {
    if w < 0 then w + 0x1_0000_0000 else w
  }

  function FromU32(v: nat): int {
    if v >= 0x8000_0000 then v - 0x1_0000_0000 else v
  }

  predicate DestSized(d: IpvsDestination) {
    d.addr.bits < Pow2(Width(d.addr.family)) && d.port < 0x1_0000 && -0x8000_0000 <= d.weight < 0x8000_0000
  }

  function DestAttrs(d: IpvsDestination): seq<Attr>
    requires -0x8000_0000 <= d.weight < 0x8000_0000
  {
    [Attr(DEST_ATTR_ADDRESS, AddrBytes(d.addr)),
     Attr(DEST_ATTR_PORT, Octets(d.port, 2)),
     Attr(DEST_ATTR_FWD_METHOD, Le(if d.tunnel then 2 else 0, 4)),
     Attr(DEST_ATTR_WEIGHT, Le(ToU32(d.weight), 4)),
     Attr(DEST_ATTR_U_THRESH, Le(0, 4)),
     Attr(DEST_ATTR_L_THRESH, Le(0, 4)),
     Attr(DEST_ATTR_ADDR_FAMILY, Le(Af(d.addr.family), 2))]
  }

  /** `dest_attr`. */
  method DestAttr(d: IpvsDestination) returns (out: Bytes)
    requires -0x8000_0000 <= d.weight < 0x8000_0000
    ensures out == Nla(Attr(IPVS_CMD_ATTR_DEST, Encode(DestAttrs(d))))
  {
    hide Le, Octets, Nla, Encode;
    var b := new AttrBuffer();
    b.Extend(DEST_ATTR_ADDRESS, AddrBytes(d.addr));
    b.Extend(DEST_ATTR_PORT, Octets(d.port, 2));
    var fwd := if d.tunnel then 2 else 0;
    b.Extend(DEST_ATTR_FWD_METHOD, Le(fwd, 4));
    b.Extend(DEST_ATTR_WEIGHT, Le(ToU32(d.weight), 4));
    b.Extend(DEST_ATTR_U_THRESH, Le(0, 4));
    b.Extend(DEST_ATTR_L_THRESH, Le(0, 4));
    b.Extend(DEST_ATTR_ADDR_FAMILY, Le(Af(d.addr.family), 2));
    assert b.attrs == DestAttrs(d);
    out := EncodeNla(IPVS_CMD_ATTR_DEST, b.bytes);
  }

  /** A full destination entry: forwarding method, weight and both thresholds are required. */
  function DestIn(attrs: seq<Attr>): Option<IpvsDestination> {
    match (Field(attrs, DEST_ATTR_ADDRESS), Field(attrs, DEST_ATTR_PORT), Field(attrs, DEST_ATTR_FWD_METHOD), Field(attrs, DEST_ATTR_WEIGHT))
    case (Some(addr), Some(port), Some(fwd), Some(weight)) =>
      (match (Field(attrs, DEST_ATTR_U_THRESH), Field(attrs, DEST_ATTR_L_THRESH), Field(attrs, DEST_ATTR_ADDR_FAMILY))
       case (Some(_), Some(_), Some(af)) =>
         (match AddrOf(FromLe(af), addr)
          case Some(a) => Some(IpvsDestination(a, Value(port), FromU32(FromLe(weight)), FromLe(fwd) == 2))
          case None => None)
       case _ => None)
    case _ => None
  }

  lemma {:induction false} DestAttrsRoundTrip(d: IpvsDestination)
    requires DestSized(d)
    ensures DestIn(DestAttrs(d)) == Some(d)
  {
    hide Le, FromLe, Octets, Value, Field, Pow2, AddrOf, AddrBytes;
    var attrs := DestAttrs(d);
    WordSizes();
    FieldAt(attrs, 0);
    FieldAt(attrs, 1);
    FieldAt(attrs, 2);
    FieldAt(attrs, 3);
    FieldAt(attrs, 4);
    FieldAt(attrs, 5);
    FieldAt(attrs, 6);
    AddrRoundTrip(d.addr);
    ValueOctets(d.port, 2);
    LeRoundTrip(if d.tunnel then 2 else 0, 4);
    LeRoundTrip(ToU32(d.weight), 4);
    LeRoundTrip(Af(d.addr.family), 2);
  }

  /** What `dest_attr` encodes reads back as the destination, negative weights included. */
  lemma {:induction false} DestRoundTrip(d: IpvsDestination)
    requires DestSized(d)
    ensures DestIn(Nested(Nla(Attr(IPVS_CMD_ATTR_DEST, Encode(DestAttrs(d)))), IPVS_CMD_ATTR_DEST)) == Some(d)
  {
    hide Nla, Encode, Le, DestIn, Nested, Pow2;
    NestedRoundTrip(IPVS_CMD_ATTR_DEST, DestAttrs(d));
    DestAttrsRoundTrip(d);
  }

  /** The seven attributes of a destination, byte by byte: address and port in network order, method 2 for a
      tunnel and 0 for masquerading, weight, two zero thresholds, family. */
  ghost predicate DestinationOnTheWire(attrs: seq<Attr>, d: IpvsDestination)
    requires DestSized(d)
  {
    && |attrs| == 7
    && attrs[0].kind == 1 && |attrs[0].payload| == (if d.addr.family == V6 then 16 else 4) && Value(attrs[0].payload) == d.addr.bits
    && attrs[1] == Attr(2, [d.port / 256, d.port % 256])
    && attrs[2] == Attr(3, [if d.tunnel then 2 else 0, 0, 0, 0])
    && attrs[3].kind == 4 && |attrs[3].payload| == 4
    && Word(attrs[3].payload) == (if d.weight < 0 then d.weight + 0x1_0000_0000 else d.weight)
    && attrs[4] == Attr(5, [0, 0, 0, 0]) && attrs[5] == Attr(6, [0, 0, 0, 0])
    && attrs[6] == Attr(11, [if d.addr.family == V6 then 10 else 2, 0])
  }

  lemma {:induction false} DestBytes(d: IpvsDestination)
    requires DestSized(d)
    ensures DestinationOnTheWire(DestAttrs(d), d)
  {
    hide Le, Value, Octets, Pow2;
    PortBytes(d.port);
    ValueOctets(d.addr.bits, if d.addr.family.V4? then 4 else 16);
    LeBytes(if d.tunnel then 2 else 0);
    LeBytes(0);
    LeBytes(Af(d.addr.family));
    LeWord(ToU32(d.weight));
  }

  /** A destination message holds one attribute of kind 2, and under it kinds 1 to 6 and 11. */
  lemma {:induction false} DestOnTheWire(d: IpvsDestination)
    requires DestSized(d)
    ensures DestinationOnTheWire(Nested(Nla(Attr(2, Encode(DestAttrs(d)))), 2), d)
  {
    hide Nla, Encode, Nested, DestinationOnTheWire, Pow2, Le, Octets;
    DestShape(d);
    NestedRoundTrip(2, DestAttrs(d));
    DestBytes(d);
  }

  /** The payload of `add_destination` and `del_destination`: the service's identity, then the destination. */
  method DestinationMessage(svc: IpvsService, d: IpvsDestination) returns (p: Bytes)
    requires -0x8000_0000 <= d.weight < 0x8000_0000
    ensures p == Encode([Attr(IPVS_CMD_ATTR_SERVICE, Encode(DeletionAttrs(svc))), Attr(IPVS_CMD_ATTR_DEST, Encode(DestAttrs(d)))])
  {
    hide Nla, DeletionAttrs, DestAttrs;
    p := ServiceIdentityAttr(svc);
    var dest := DestAttr(d);
    p := p + dest;
    TwoAttrs(Attr(IPVS_CMD_ATTR_SERVICE, Encode(DeletionAttrs(svc))), Attr(IPVS_CMD_ATTR_DEST, Encode(DestAttrs(d))));
  }

  lemma {:induction false} TwoAttrs(a: Attr, b: Attr)
    ensures Encode([a, b]) == Nla(a) + Nla(b)
  {
    hide Nla;
    EncodePush([a], b);
    EncodePush([], a);
    assert [] + [a] == [a] && [a] + [b] == [a, b];
    assert Encode([]) + Nla(a) == Nla(a);
  }

  /** A destination command names its service and its destination, both as they were. */
  lemma {:induction false} DestinationMessageRoundTrip(svc: IpvsService, d: IpvsDestination)
    requires Sized(svc) && DestSized(d)
    ensures var p := Encode([Attr(IPVS_CMD_ATTR_SERVICE, Encode(DeletionAttrs(svc))), Attr(IPVS_CMD_ATTR_DEST, Encode(DestAttrs(d)))]);
            KeyIn(Nested(p, IPVS_CMD_ATTR_SERVICE)) == Some(svc.KeyOf()) && DestIn(Nested(p, IPVS_CMD_ATTR_DEST)) == Some(d)
  {
    hide Nla, Encode, IdentityAttrs, Le, Octets, KeyIn, DestIn, Sized, Pow2, Walk, AddrBytes;
    IdentityShape(svc);
    var top, dest := Attr(IPVS_CMD_ATTR_SERVICE, Encode(DeletionAttrs(svc))), Attr(IPVS_CMD_ATTR_DEST, Encode(DestAttrs(d)));
    DestShape(d);
    EncodeShort(DeletionAttrs(svc));
    EncodeShort(DestAttrs(d));
    WalkEncode(DeletionAttrs(svc));
    WalkEncode(DestAttrs(d));
    WalkEncode([top, dest]);
    FieldAt([top, dest], 0);
    FieldAt([top, dest], 1);
    KeyRoundTrip(svc, DeletionAttrs(svc));
    DestAttrsRoundTrip(d);
  }

  lemma {:induction false} DestShape(d: IpvsDestination)
    requires -0x8000_0000 <= d.weight < 0x8000_0000
    ensures |DestAttrs(d)| == 7 && forall a :: a in DestAttrs(d) ==> |a.payload| <= 16 && a.kind < 0x1_0000
  {
  }
}
