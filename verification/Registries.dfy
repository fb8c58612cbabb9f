/** The registries extensions contribute to: database drivers with their name index
    (internal/dbdriver/registry.go), the extension behind each driver (driverOwner), asset types
    (internal/assettype/registry.go) and policy faces (policyTypeOwner, internal/extreg/policy.go).
    Adding and removing one contribution are inverse and commute with other contributions, so the
    registries always equal the built-ins plus what is attached, whatever the order. */
module Registries {
  import opened Collections

  datatype Driver = Driver(ext: string, id: string, aliases: seq<string>)

  /** Descriptor.Names: the id and every alias. */
  function NameList(d: Driver): seq<string> {
    [d.id] + d.aliases
  }

  function Names(d: Driver): (ns: set<string>)
    ensures d.id in ns
  {
    assert NameList(d)[0] == d.id;
    Elems(NameList(d))
  }

  /** One entry an extension puts into a registry, and its undo log puts back. */
  datatype Item = DriverItem(d: Driver) | AssetItem(ext: string, kind: string) | FaceItem(ext: string, face: string)

  function Ext(x: Item): string {
    match x
    case DriverItem(d) => d.ext
    case AssetItem(e, _) => e
    case FaceItem(e, _) => e
  }

  /** `reserved` are the built-in policy types, which no extension may claim. */
  datatype Registry = Registry(
    drivers: map<string, Driver>,
    names: map<string, string>,
    owners: map<string, string>,
    assets: map<string, string>,
    faces: map<string, string>,
    reserved: set<string>)

  /** What TryRegister, register and claimPolicyType demand before they write. */
  predicate Free(r: Registry, x: Item) {
    match x
    case DriverItem(d) => d.id != "" && Names(d) !! r.names.Keys
    case AssetItem(_, k) => k !in r.assets
    case FaceItem(_, f) => f !in r.reserved && f !in r.faces
  }

  function AddNames(names: map<string, string>, ns: set<string>, id: string): map<string, string> {
    map n | n in names.Keys + ns :: if n in ns then id else names[n]
  }

  function DropNames(names: map<string, string>, id: string): map<string, string> {
    map n | n in names && names[n] != id :: names[n]
  }

  function Add(r: Registry, x: Item): Registry {
    match x
    case DriverItem(d) =>
      r.(drivers := r.drivers[d.id := d], names := AddNames(r.names, Names(d), d.id), owners := r.owners[d.id := d.ext])
    case AssetItem(e, k) => r.(assets := r.assets[k := e])
    case FaceItem(e, f) => r.(faces := r.faces[f := e])
  }

  function Remove(r: Registry, x: Item): Registry {
    match x
    case DriverItem(d) =>
      r.(drivers := r.drivers - {d.id}, names := DropNames(r.names, d.id), owners := r.owners - {d.id})
    case AssetItem(_, k) => r.(assets := r.assets - {k})
    case FaceItem(_, f) => r.(faces := r.faces - {f})
  }

  ghost predicate IdsMatch(r: Registry) {
    forall id | id in r.drivers :: r.drivers[id].id == id
  }

  ghost predicate NamesComplete(r: Registry) {
    forall id, n | id in r.drivers && n in Names(r.drivers[id]) :: n in r.names && r.names[n] == id
  }

  ghost predicate NamesSound(r: Registry) {
    forall n | n in r.names :: r.names[n] in r.drivers && n in Names(r.drivers[r.names[n]])
  }

  ghost predicate OwnersMatch(r: Registry) {
    forall id | id in r.owners :: id in r.drivers && r.drivers[id].ext == r.owners[id]
  }

  /** The name index and the owner table agree with the drivers. */
  ghost predicate Coherent(r: Registry) {
    IdsMatch(r) && NamesComplete(r) && NamesSound(r) && OwnersMatch(r)
  }

  /** Two contributions that never meet in a registry. */
  predicate Apart(x: Item, y: Item) {
    match (x, y)
    case (DriverItem(c), DriverItem(d)) => Names(c) !! Names(d)
    case (AssetItem(_, j), AssetItem(_, k)) => j != k
    case (FaceItem(_, e), FaceItem(_, f)) => e != f
    case _ => true
  }

  function AddAll(r: Registry, xs: seq<Item>): Registry {
    if xs == [] then r else Add(AddAll(r, xs[..|xs| - 1]), xs[|xs| - 1])
  }

  /** Every contribution of xs finds its names free when its turn comes. */
  predicate CanAdd(r: Registry, xs: seq<Item>) {
    xs == [] || (CanAdd(r, xs[..|xs| - 1]) && Free(AddAll(r, xs[..|xs| - 1]), xs[|xs| - 1]))
  }

  lemma FreeIdIsNew(r: Registry, d: Driver)
    ensures Coherent(r) && Free(r, DriverItem(d)) ==> d.id !in r.drivers && d.id !in r.owners && d.id !in r.names.Values
  {
    assert d.id in Names(d);
    if Coherent(r) && d.id in r.drivers {
      assert d.id in Names(r.drivers[d.id]);
    }
  }

  lemma AddDriverStaysCoherent(r: Registry, d: Driver)
    requires Coherent(r) && Free(r, DriverItem(d))
    ensures Coherent(Add(r, DriverItem(d)))
  {
    var s := Add(r, DriverItem(d));
    FreeIdIsNew(r, d);
    assert NamesComplete(s) by {
      forall id, n | id in s.drivers && n in Names(s.drivers[id]) ensures n in s.names && s.names[n] == id {
        if id != d.id {
          assert id in r.drivers && s.drivers[id] == r.drivers[id];
        }
      }
    }
  }

  lemma AddStaysCoherent(r: Registry, x: Item)
    requires Coherent(r) && Free(r, x)
    ensures Coherent(Add(r, x))
  {
    if x.DriverItem? {
      AddDriverStaysCoherent(r, x.d);
    }
  }

  lemma {:induction false} AddAllStaysCoherent(r: Registry, xs: seq<Item>)
    requires Coherent(r) && CanAdd(r, xs)
    ensures Coherent(AddAll(r, xs))
  {
    if xs != [] {
      AddAllStaysCoherent(r, xs[..|xs| - 1]);
      AddStaysCoherent(AddAll(r, xs[..|xs| - 1]), xs[|xs| - 1]);
    }
  }

  lemma DropNamesUndoesAdd(names: map<string, string>, ns: set<string>, id: string)
    requires ns !! names.Keys && id !in names.Values
    ensures DropNames(AddNames(names, ns, id), id) == names
  {
  }

  lemma DropNamesCommutes(names: map<string, string>, ns: set<string>, id: string, other: string)
    requires id != other
    ensures DropNames(AddNames(names, ns, other), id) == AddNames(DropNames(names, id), ns, other)
  {
  }

  lemma DropUndoes<K, V>(m: map<K, V>, k: K, v: V)
    requires k !in m
    ensures m[k := v] - {k} == m
  {
  }

  /** Undoing a registration that found its names free restores every registry exactly. */
  lemma RemoveUndoesAdd(r: Registry, x: Item)
    requires Coherent(r) && Free(r, x)
    ensures Remove(Add(r, x), x) == r
  {
    match x {
      case DriverItem(d) =>
        FreeIdIsNew(r, d);
        DropUndoes(r.drivers, d.id, d);
        DropUndoes(r.owners, d.id, d.ext);
        DropNamesUndoesAdd(r.names, Names(d), d.id);
      case AssetItem(e, k) =>
        DropUndoes(r.assets, k, e);
      case FaceItem(e, f) =>
        DropUndoes(r.faces, f, e);
    }
  }

  lemma DropCommutes<K, V>(m: map<K, V>, i: K, j: K, v: V)
    requires i != j
    ensures m[j := v] - {i} == (m - {i})[j := v]
  {
  }

  /** A removal does not care which other contributions came later. */
  lemma RemoveCommutes(r: Registry, x: Item, y: Item)
    requires Apart(x, y)
    ensures Remove(Add(r, y), x) == Add(Remove(r, x), y)
  {
    match (x, y) {
      case (DriverItem(c), DriverItem(d)) =>
        assert c.id in Names(c) && d.id in Names(d);
        DropNamesCommutes(r.names, Names(d), c.id, d.id);
        DropCommutes(r.drivers, c.id, d.id, d);
        DropCommutes(r.owners, c.id, d.id, d.ext);
      case (AssetItem(_, j), AssetItem(e, k)) =>
        DropCommutes(r.assets, j, k, e);
      case (FaceItem(_, j), FaceItem(e, k)) =>
        DropCommutes(r.faces, j, k, e);
      case _ =>
    }
  }

  lemma AddFits(r: Registry, x: Item, y: Item)
    ensures Free(Add(r, x), y) <==> Free(r, y) && Apart(x, y)
  {
  }

  /** A contribution fits exactly when it clashes neither with the built-ins nor with anything attached. */
  lemma {:induction false} FitsExactlyWhenApart(r: Registry, xs: seq<Item>, y: Item)
    ensures Free(AddAll(r, xs), y) <==> (Free(r, y) && forall x | x in xs :: Apart(x, y))
  {
    if xs != [] {
      var init, last := xs[..|xs| - 1], xs[|xs| - 1];
      FitsExactlyWhenApart(r, init, y);
      AddFits(AddAll(r, init), last, y);
      assert xs == init + [last];
    }
  }

  function Keep(xs: seq<Item>, gone: set<Item>): seq<Item> {
    if xs == [] then []
    else if xs[|xs| - 1] in gone then Keep(xs[..|xs| - 1], gone)
    else Keep(xs[..|xs| - 1], gone) + [xs[|xs| - 1]]
  }

  lemma {:induction false} KeepAllGone(xs: seq<Item>, gone: set<Item>)
    requires forall x | x in xs :: x in gone
    ensures Keep(xs, gone) == []
  {
    if xs != [] {
      KeepAllGone(xs[..|xs| - 1], gone);
    }
  }

  lemma {:induction false} KeepKeepsTheRest(xs: seq<Item>, gone: set<Item>)
    ensures forall y :: y in Keep(xs, gone) <==> y in xs && y !in gone
  {
    if xs != [] {
      KeepKeepsTheRest(xs[..|xs| - 1], gone);
      assert xs == xs[..|xs| - 1] + [xs[|xs| - 1]];
    }
  }

  lemma {:induction false} KeepNothingGone(xs: seq<Item>, gone: set<Item>)
    requires forall x | x in xs :: x !in gone
    ensures Keep(xs, gone) == xs
  {
    if xs != [] {
      KeepNothingGone(xs[..|xs| - 1], gone);
      assert xs == xs[..|xs| - 1] + [xs[|xs| - 1]];
    }
  }

  lemma KeepLast(xs: seq<Item>, x: Item, gone: set<Item>)
    ensures Keep(xs + [x], gone) == Keep(xs, gone) + if x in gone then [] else [x]
  {
    assert (xs + [x])[..|xs|] == xs;
  }

  lemma {:induction false} KeepConcat(xs: seq<Item>, ys: seq<Item>, gone: set<Item>)
    ensures Keep(xs + ys, gone) == Keep(xs, gone) + Keep(ys, gone)
  {
    if ys == [] {
      assert xs + ys == xs;
    } else {
      KeepConcat(xs, ys[..|ys| - 1], gone);
      assert (xs + ys)[..|xs + ys| - 1] == xs + ys[..|ys| - 1];
    }
  }

  lemma {:induction false} KeepKeep(xs: seq<Item>, s: set<Item>, t: set<Item>)
    ensures Keep(Keep(xs, s), t) == Keep(xs, s + t)
  {
    if xs != [] {
      KeepKeep(xs[..|xs| - 1], s, t);
      if xs[|xs| - 1] !in s {
        KeepLast(Keep(xs[..|xs| - 1], s), xs[|xs| - 1], t);
      }
    }
  }

  lemma AddLast(r: Registry, xs: seq<Item>, x: Item)
    ensures AddAll(r, xs + [x]) == Add(AddAll(r, xs), x)
    ensures CanAdd(r, xs + [x]) <==> CanAdd(r, xs) && Free(AddAll(r, xs), x)
  {
    assert (xs + [x])[..|xs|] == xs;
  }

  lemma RemoveTheLast(r: Registry, xs: seq<Item>, x: Item)
    requires Coherent(r) && CanAdd(r, xs + [x])
    ensures CanAdd(r, xs) && Remove(AddAll(r, xs + [x]), x) == AddAll(r, xs)
    ensures x !in xs
  {
    AddLast(r, xs, x);
    FitsExactlyWhenApart(r, xs, x);
    NotApartFromItself(x);
    AddAllStaysCoherent(r, xs);
    RemoveUndoesAdd(AddAll(r, xs), x);
  }

  lemma NotApartFromItself(x: Item)
    ensures !Apart(x, x)
  {
    if x.DriverItem? {
      assert x.d.id in Names(x.d);
    }
  }

  /** A removal from before the last one, given what it does to what is before the last one. */
  lemma RemoveAnEarlier(r: Registry, xs: seq<Item>, last: Item, x: Item, left: seq<Item>)
    requires CanAdd(r, xs + [last]) && x in xs
    requires CanAdd(r, left) && Remove(AddAll(r, xs), x) == AddAll(r, left) && forall y | y in left :: y in xs
    ensures CanAdd(r, left + [last]) && Remove(AddAll(r, xs + [last]), x) == AddAll(r, left + [last])
  {
    AddLast(r, xs, last);
    AddLast(r, left, last);
    FitsExactlyWhenApart(r, xs, last);
    FitsExactlyWhenApart(r, left, last);
    RemoveCommutes(AddAll(r, xs), x, last);
  }

  /** Taking out any one attached contribution leaves exactly the others, wherever it stood. */
  lemma {:induction false} RemoveLeavesTheOthers(r: Registry, xs: seq<Item>, x: Item)
    requires Coherent(r) && CanAdd(r, xs) && x in xs
    ensures CanAdd(r, Keep(xs, {x}))
    ensures Remove(AddAll(r, xs), x) == AddAll(r, Keep(xs, {x}))
  {
    var init, last := xs[..|xs| - 1], xs[|xs| - 1];
    assert xs == init + [last];
    KeepLast(init, last, {x});
    if last == x {
      RemoveTheLast(r, init, x);
      KeepNothingGone(init, {x});
    } else {
      RemoveLeavesTheOthers(r, init, x);
      KeepKeepsTheRest(init, {x});
      RemoveAnEarlier(r, init, last, x, Keep(init, {x}));
    }
  }

  lemma {:induction false} EachIsOnce(r: Registry, xs: seq<Item>, i: nat, j: nat)
    requires CanAdd(r, xs) && i < j < |xs|
    ensures Apart(xs[i], xs[j]) && xs[i] != xs[j]
  {
    var init := xs[..|xs| - 1];
    if j == |xs| - 1 {
      FitsExactlyWhenApart(r, init, xs[j]);
      assert xs[i] in init;
    } else {
      EachIsOnce(r, init, i, j);
      assert init[i] == xs[i] && init[j] == xs[j];
    }
  }

  /** ByName: the driver a name resolves to. */
  ghost predicate ByName(r: Registry, n: string, d: Driver) {
    n in r.names && r.names[n] in r.drivers && r.drivers[r.names[n]] == d
  }

  lemma AddResolves(r: Registry, x: Item, n: string, d: Driver)
    requires Coherent(r) && Free(r, x)
    ensures ByName(Add(r, x), n, d) <==> ByName(r, n, d) || (x == DriverItem(d) && n in Names(d))
  {
    if x.DriverItem? {
      FreeIdIsNew(r, x.d);
    }
  }

  /** A name resolves to d exactly when d is a built-in or an attached driver bearing it. */
  lemma {:induction false} NameResolves(r: Registry, xs: seq<Item>, n: string, d: Driver)
    requires Coherent(r) && CanAdd(r, xs)
    ensures ByName(AddAll(r, xs), n, d) <==> ByName(r, n, d) || (DriverItem(d) in xs && n in Names(d))
  {
    if xs != [] {
      var init, last := xs[..|xs| - 1], xs[|xs| - 1];
      NameResolves(r, init, n, d);
      AddAllStaysCoherent(r, init);
      AddResolves(AddAll(r, init), last, n, d);
      assert xs == init + [last];
    }
  }

  /** An asset type is registered exactly by a built-in or by the attached extension that declares it. */
  lemma {:induction false} TypesBelong(r: Registry, xs: seq<Item>, k: string, e: string)
    requires CanAdd(r, xs)
    ensures (k in AddAll(r, xs).assets && AddAll(r, xs).assets[k] == e) <==>
            ((k in r.assets && r.assets[k] == e) || AssetItem(e, k) in xs)
  {
    if xs != [] {
      TypesBelong(r, xs[..|xs| - 1], k, e);
      assert xs == xs[..|xs| - 1] + [xs[|xs| - 1]];
    }
  }

  /** A policy face is owned exactly by the attached extension that claims it. */
  lemma {:induction false} FacesBelong(r: Registry, xs: seq<Item>, f: string, e: string)
    requires CanAdd(r, xs)
    ensures (f in AddAll(r, xs).faces && AddAll(r, xs).faces[f] == e) <==>
            ((f in r.faces && r.faces[f] == e) || FaceItem(e, f) in xs)
  {
    if xs != [] {
      FacesBelong(r, xs[..|xs| - 1], f, e);
      assert xs == xs[..|xs| - 1] + [xs[|xs| - 1]];
    }
  }
}
