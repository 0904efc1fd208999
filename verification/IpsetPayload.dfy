// Atomic replacement of an ipset: the `ipset restore` payload, and what the kernel's sets look like
// after any part of it.

module IpsetPayload {
  import opened Net
  import opened Translate
  import opened RuleLang

  datatype KernelName = Live(set_: SetName) | Tmp(set_: SetName)

  datatype Shape = Shape(prefixes: bool, family: Family)

  datatype KSet = KSet(family: Family, contents: SetContents) {
    function ShapeOf(): Shape {
      Shape(contents.HashNet?, family)
    }
  }

  type SetTable = map<KernelName, KSet>

  datatype Entry = Address(addr: IpAddr) | Prefix(entry: NetEntry)

  datatype Command =
    | Create(name: KernelName, shape: Shape)
    | Flush(name: KernelName)
    | Add(name: KernelName, entry: Entry)
    | Swap(name: KernelName, other: KernelName)
    | Destroy(name: KernelName)

  // ---- what the kernel does with one command -----------------------------------------------

  function Empty(shape: Shape): KSet {
    KSet(shape.family, if shape.prefixes then HashNet([]) else HashIp({}))
  }

  /** What a set stores: elements of its own type and family; a zero-length prefix is refused. */
  predicate Storable(shape: Shape, e: Entry) {
    match e
    case Address(a) => !shape.prefixes && a.family == shape.family
    case Prefix(p) => shape.prefixes && p.net.addr.family == shape.family && p.net.len > 0
  }

  function Insert(s: KSet, e: Entry): KSet
    requires Storable(s.ShapeOf(), e)
  {
    match e
    case Address(a) => s.(contents := HashIp(s.contents.ips + {a}))
    case Prefix(p) => s.(contents := HashNet(s.contents.nets + [p]))
  }

  /** Creation and addition carry `-exist`: repeating them is no error. */
  predicate Permitted(k: SetTable, c: Command) {
    match c
    case Create(n, shape) => n in k ==> k[n].ShapeOf() == shape
    case Flush(n) => n in k
    case Add(n, e) => n in k && Storable(k[n].ShapeOf(), e)
    case Swap(m, n) => m in k && n in k && k[m].ShapeOf() == k[n].ShapeOf()
    case Destroy(n) => n in k
  }

  function Step(k: SetTable, c: Command): SetTable
    requires Permitted(k, c)
  {
    match c
    case Create(n, shape) => if n in k then k else k[n := Empty(shape)]
    case Flush(n) => k[n := Empty(k[n].ShapeOf())]
    case Add(n, e) => k[n := Insert(k[n], e)]
    case Swap(m, n) => k[m := k[n]][n := k[m]]
    case Destroy(n) => k - {n}
  }

  datatype Restored = Restored(sets: SetTable, ok: bool)

  /** `ipset restore` runs the commands in order and stops at the first one refused. */
  function Run(k: SetTable, cs: seq<Command>): Restored
    decreases |cs|
  {
    if cs == [] then Restored(k, true)
    else if !Permitted(k, cs[0]) then Restored(k, false)
    else Run(Step(k, cs[0]), cs[1..])
  }

  // ---- the payload ---------------------------------------------------------------------------

  function Fill(name: SetName, shape: Shape, entries: seq<Entry>): seq<Command> {
    [Create(Live(name), shape), Create(Tmp(name), shape), Flush(Tmp(name))] + Adds(Tmp(name), entries)
  }

  function Adds(name: KernelName, entries: seq<Entry>): (cs: seq<Command>)
    ensures |cs| == |entries| && forall i :: 0 <= i < |cs| ==> cs[i] == Add(name, entries[i])
  {
    seq(|entries|, i requires 0 <= i < |entries| => Add(name, entries[i]))
  }

  function Payload(name: SetName, shape: Shape, entries: seq<Entry>): seq<Command> {
    Fill(name, shape, entries) + [Swap(Tmp(name), Live(name)), Destroy(Tmp(name))]
  }

  /** `build_restore_payload`. */
  method BuildRestorePayload(name: SetName, shape: Shape, entries: seq<Entry>) returns (out: seq<Command>)
    ensures out == Payload(name, shape, entries)
  {
    var tmp := Tmp(name);
    out := [];
    out := out + [Create(Live(name), shape)];
    out := out + [Create(tmp, shape)];
    out := out + [Flush(tmp)];
    for i := 0 to |entries|
      invariant out == Fill(name, shape, entries[..i])
    {
      out := out + [Add(tmp, entries[i])];
      assert Adds(tmp, entries[..i+1]) == Adds(tmp, entries[..i]) + [Add(tmp, entries[i])];
    }
    assert entries[..|entries|] == entries;
    out := out + [Swap(tmp, Live(name))];
    out := out + [Destroy(tmp)];
  }

  /** The entries list the contents: in any order for addresses, in order for prefixes. */
  ghost predicate Lists(entries: seq<Entry>, contents: SetContents) {
    match contents
    case HashIp(ips) =>
      && (forall e :: e in entries ==> e.Address? && e.addr in ips)
      && (forall a :: a in ips ==> Address(a) in entries)
    case HashNet(nets) =>
      |entries| == |nets| && forall i :: 0 <= i < |nets| ==> entries[i] == Prefix(nets[i])
  }

  // ---- running it ------------------------------------------------------------------------------

  lemma {:induction false} RunAppend(k: SetTable, a: seq<Command>, b: seq<Command>)
    ensures Run(k, a + b) == if Run(k, a).ok then Run(Run(k, a).sets, b) else Run(k, a)
    decreases |a|
  {
    if a == [] {
      assert a + b == b;
    } else {
      assert (a + b)[0] == a[0] && (a + b)[1..] == a[1..] + b;
      if Permitted(k, a[0]) {
        RunAppend(Step(k, a[0]), a[1..], b);
      }
    }
  }

  /** A command of the filling phase: it creates the live set or works on the temporary one. */
  predicate Preparatory(c: Command, name: SetName, shape: Shape) {
    c == Create(Live(name), shape) || (!c.Swap? && c.name == Tmp(name))
  }

  /** The two tables agree on every set but `name` and its temporary. */
  ghost predicate OthersKept(k: SetTable, after: SetTable, name: SetName) {
    forall n :: n != Live(name) && n != Tmp(name) ==> (n in after <==> n in k) && (n in k ==> after[n] == k[n])
  }

  /** The live set is as it was, or empty where there was none. */
  ghost predicate LiveKept(k: SetTable, after: SetTable, name: SetName, shape: Shape) {
    if Live(name) in k then Live(name) in after && after[Live(name)] == k[Live(name)]
    else Live(name) in after ==> after[Live(name)] == Empty(shape)
  }

  lemma {:induction false} PreparatoryRun(k: SetTable, cs: seq<Command>, name: SetName, shape: Shape)
    requires forall c :: c in cs ==> Preparatory(c, name, shape)
    ensures LiveKept(k, Run(k, cs).sets, name, shape) && OthersKept(k, Run(k, cs).sets, name)
    decreases |cs|
  {
    if cs != [] && Permitted(k, cs[0]) {
      var c := cs[0];
      assert c in cs && Preparatory(c, name, shape);
      assert OthersKept(k, Step(k, c), name) && LiveKept(k, Step(k, c), name, shape);
      assert forall d :: d in cs[1..] ==> d in cs;
      PreparatoryRun(Step(k, cs[0]), cs[1..], name, shape);
    }
  }

  ghost predicate AllStorable(shape: Shape, entries: seq<Entry>) {
    forall e :: e in entries ==> Storable(shape, e)
  }

  function Loaded(s: KSet, entries: seq<Entry>): (r: KSet)
    requires AllStorable(s.ShapeOf(), entries)
    ensures r.ShapeOf() == s.ShapeOf()
    decreases |entries|
  {
    if entries == [] then s else Loaded(Insert(s, entries[0]), entries[1..])
  }

  lemma {:induction false} LoadedContents(s: KSet, entries: seq<Entry>)
    requires AllStorable(s.ShapeOf(), entries)
    ensures s.contents.HashIp? ==>
              Loaded(s, entries).contents == HashIp(s.contents.ips + (set e | e in entries && e.Address? :: e.addr))
    ensures s.contents.HashNet? ==>
              && |Loaded(s, entries).contents.nets| == |s.contents.nets| + |entries|
              && (forall i :: 0 <= i < |s.contents.nets| ==> Loaded(s, entries).contents.nets[i] == s.contents.nets[i])
              && (forall i :: 0 <= i < |entries| ==>
                    Prefix(Loaded(s, entries).contents.nets[|s.contents.nets| + i]) == entries[i])
    decreases |entries|
  {
    if entries != [] {
      var rest, t := entries[1..], Insert(s, entries[0]);
      LoadedContents(t, rest);
      assert entries == [entries[0]] + rest;
      if s.contents.HashIp? {
        assert entries[0].Address?;
      } else {
        forall i | 0 <= i < |entries|
          ensures Prefix(Loaded(s, entries).contents.nets[|s.contents.nets| + i]) == entries[i]
        {
          if i == 0 {
            assert t.contents.nets[|s.contents.nets|] == entries[0].entry;
          } else {
            assert rest[i-1] == entries[i];
            assert |t.contents.nets| + (i - 1) == |s.contents.nets| + i;
          }
        }
      }
    }
  }

  /** Filled from a list of the contents, a set holds exactly the contents. */
  lemma {:induction false} LoadedLists(shape: Shape, entries: seq<Entry>, contents: SetContents)
    requires Lists(entries, contents) && AllStorable(shape, entries) && contents.HashNet? == shape.prefixes
    ensures Loaded(Empty(shape), entries) == KSet(shape.family, contents)
  {
    LoadedContents(Empty(shape), entries);
    var r := Loaded(Empty(shape), entries);
    if shape.prefixes {
      assert r.contents.nets == contents.nets;
    } else {
      assert r.contents.ips == contents.ips;
    }
  }

  lemma {:induction false} RunAdds(k: SetTable, name: KernelName, entries: seq<Entry>)
    requires name in k
    ensures Run(k, Adds(name, entries)).ok <==> AllStorable(k[name].ShapeOf(), entries)
    ensures AllStorable(k[name].ShapeOf(), entries) ==>
              Run(k, Adds(name, entries)).sets == k[name := Loaded(k[name], entries)]
    decreases |entries|
  {
    if entries == [] {
      assert k[name := k[name]] == k;
    } else {
      var cs, e, rest := Adds(name, entries), entries[0], entries[1..];
      assert entries == [e] + rest;
      assert cs[0] == Add(name, e) && cs[1..] == Adds(name, rest);
      if Storable(k[name].ShapeOf(), e) {
        var k' := Step(k, cs[0]);
        RunAdds(k', name, rest);
        if AllStorable(k[name].ShapeOf(), rest) {
          assert k'[name := Loaded(k'[name], rest)] == k[name := Loaded(k[name], entries)];
        }
      }
    }
  }

  /** Nothing of an incompatible type stands in the way of a set. */
  predicate Fits(k: SetTable, name: SetName, shape: Shape) {
    && (Live(name) in k ==> k[Live(name)].ShapeOf() == shape)
    && (Tmp(name) in k ==> k[Tmp(name)].ShapeOf() == shape)
  }

  lemma {:induction false} RunOpening(k: SetTable, name: SetName, shape: Shape)
    ensures var opening := [Create(Live(name), shape), Create(Tmp(name), shape), Flush(Tmp(name))];
            Run(k, opening).ok == Fits(k, name, shape)
            && (Fits(k, name, shape) ==>
                  var k' := Run(k, opening).sets;
                  && Live(name) in k' && k'[Live(name)].ShapeOf() == shape
                  && Tmp(name) in k' && k'[Tmp(name)] == Empty(shape))
  {
    var a, b, c := Create(Live(name), shape), Create(Tmp(name), shape), Flush(Tmp(name));
    assert [a, b, c][1..] == [b, c] && [b, c][1..] == [c] && [c][1..] == [];
    if Permitted(k, a) {
      var k1 := Step(k, a);
      assert Permitted(k1, b) <==> Fits(k, name, shape);
      if Permitted(k1, b) {
        var k2 := Step(k1, b);
        assert Run(k2, [c]) == Run(Step(k2, c), []);
      }
    }
  }

  /** The filling phase succeeds iff nothing is in the way and every entry can be stored; then the
      temporary set holds exactly the new contents. */
  lemma {:induction false} RunFill(k: SetTable, name: SetName, shape: Shape, entries: seq<Entry>)
    ensures Run(k, Fill(name, shape, entries)).ok <==> Fits(k, name, shape) && AllStorable(shape, entries)
    ensures Run(k, Fill(name, shape, entries)).ok ==>
              var k' := Run(k, Fill(name, shape, entries)).sets;
              && Live(name) in k' && k'[Live(name)].ShapeOf() == shape
              && Tmp(name) in k' && k'[Tmp(name)] == Loaded(Empty(shape), entries)
  {
    var opening := [Create(Live(name), shape), Create(Tmp(name), shape), Flush(Tmp(name))];
    RunAppend(k, opening, Adds(Tmp(name), entries));
    RunOpening(k, name, shape);
    if Fits(k, name, shape) {
      RunAdds(Run(k, opening).sets, Tmp(name), entries);
    }
  }

  lemma {:induction false} FillIsPreparatory(name: SetName, shape: Shape, entries: seq<Entry>)
    ensures forall c :: c in Fill(name, shape, entries) ==> Preparatory(c, name, shape)
  {
    forall c | c in Fill(name, shape, entries)
      ensures Preparatory(c, name, shape)
    {
      if c in Adds(Tmp(name), entries) {
        var i :| 0 <= i < |entries| && Adds(Tmp(name), entries)[i] == c;
      }
    }
  }

  /** Atomicity: however far the payload got, the live set holds its old contents (none, if there was no
      such set) or exactly the new ones, and no other set moved. */
  lemma {:induction false} ReplacementIsAtomic(k: SetTable, name: SetName, shape: Shape, entries: seq<Entry>, contents: SetContents, i: nat)
    requires Lists(entries, contents) && contents.HashNet? == shape.prefixes
    requires i <= |Payload(name, shape, entries)|
    ensures var after := Run(k, Payload(name, shape, entries)[..i]).sets;
            && OthersKept(k, after, name)
            && (LiveKept(k, after, name, shape)
                || (Live(name) in after && after[Live(name)] == KSet(shape.family, contents)))
  {
    var fill, all := Fill(name, shape, entries), Payload(name, shape, entries);
    FillIsPreparatory(name, shape, entries);
    if i <= |fill| {
      assert all[..i] == fill[..i];
      PreparatoryRun(k, all[..i], name, shape);
    } else {
      var closing := [Swap(Tmp(name), Live(name)), Destroy(Tmp(name))][..i - |fill|];
      assert all[..i] == fill + closing;
      RunAppend(k, fill, closing);
      PreparatoryRun(k, fill, name, shape);
      RunFill(k, name, shape, entries);
      if Run(k, fill).ok {
        LoadedLists(shape, entries, contents);
        RunClosing(Run(k, fill).sets, name, i - |fill|);
      }
    }
  }

  lemma {:induction false} RunClosing(k: SetTable, name: SetName, i: nat)
    requires 1 <= i <= 2
    requires Live(name) in k && Tmp(name) in k && k[Live(name)].ShapeOf() == k[Tmp(name)].ShapeOf()
    ensures var r := Run(k, [Swap(Tmp(name), Live(name)), Destroy(Tmp(name))][..i]);
            && r.ok && OthersKept(k, r.sets, name) && Live(name) in r.sets && r.sets[Live(name)] == k[Tmp(name)]
            && (i == 2 ==> r.sets == k[Live(name) := k[Tmp(name)]] - {Tmp(name)})
  {
    var a, b := Swap(Tmp(name), Live(name)), Destroy(Tmp(name));
    var cs := [a, b][..i];
    assert cs[0] == a && cs[1..] == if i == 1 then [] else [b];
    var k1 := Step(k, a);
    if i == 2 {
      assert [b][1..] == [];
      assert Run(k1, [b]) == Run(Step(k1, b), []);
      assert k1 - {Tmp(name)} == k[Live(name) := k[Tmp(name)]] - {Tmp(name)};
    }
  }

  /** The whole payload succeeds iff nothing is in the way and every entry can be stored; it then leaves
      the new contents live, no temporary set, and everything else as it was. */
  lemma {:induction false} ReplacementIsExact(k: SetTable, name: SetName, shape: Shape, entries: seq<Entry>, contents: SetContents)
    requires Lists(entries, contents) && contents.HashNet? == shape.prefixes
    ensures Run(k, Payload(name, shape, entries)).ok <==> Fits(k, name, shape) && AllStorable(shape, entries)
    ensures Run(k, Payload(name, shape, entries)).ok ==>
              Run(k, Payload(name, shape, entries)).sets == k[Live(name) := KSet(shape.family, contents)] - {Tmp(name)}
  {
    var fill, closing := Fill(name, shape, entries), [Swap(Tmp(name), Live(name)), Destroy(Tmp(name))];
    RunAppend(k, fill, closing);
    RunFill(k, name, shape, entries);
    if Run(k, fill).ok {
      var k' := Run(k, fill).sets;
      FillIsPreparatory(name, shape, entries);
      PreparatoryRun(k, fill, name, shape);
      LoadedLists(shape, entries, contents);
      assert closing[..2] == closing;
      RunClosing(k', name, 2);
      assert k'[Live(name) := k'[Tmp(name)]] - {Tmp(name)} == k[Live(name) := KSet(shape.family, contents)] - {Tmp(name)};
    }
  }
}
