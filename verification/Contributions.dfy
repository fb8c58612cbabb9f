/** Attaching and revoking an extension's contributions: ContributionRegistry.Attach and Revoke
    (pkg/extension/contribution.go:154-207) over the points of internal/extreg. Each point undoes its own
    partial work, the registry undoes the points before it, and a revoke undoes the whole attach. */
module Contributions {
  import opened Collections
  import opened Registries

  /** An asset type as attachAssetType meets it: its wiring is there, it declares configuration
      fields, and its configuration validator (if the guest runs) can be registered. */
  datatype AssetDecl = AssetDecl(kind: string, wired: bool, described: bool, validates: bool)

  predicate Attachable(a: AssetDecl) {
    a.wired && a.described && a.validates
  }

  predicate AllAttachable(decls: seq<AssetDecl>) {
    forall a | a in decls :: Attachable(a)
  }

  /** An extension as the points see it. `accepted` is Check's verdict; `tools`, `groups`, `pages` and
      `snippets` say whether the tables outside these registries take its entries. */
  datatype View = View(
    name: string,
    accepted: bool,
    drivers: seq<Driver>,
    assets: seq<AssetDecl>,
    tools: bool,
    face: string,
    groups: bool,
    pages: bool,
    snippets: bool)

  function DriverItems(ds: seq<Driver>): (xs: seq<Item>)
    ensures |xs| == |ds| && forall i | 0 <= i < |ds| :: xs[i] == DriverItem(ds[i])
  {
    seq(|ds|, i requires 0 <= i < |ds| => DriverItem(ds[i]))
  }

  function AssetItems(name: string, decls: seq<AssetDecl>): (xs: seq<Item>)
    ensures |xs| == |decls| && forall i | 0 <= i < |decls| :: xs[i] == AssetItem(name, decls[i].kind)
  {
    seq(|decls|, i requires 0 <= i < |decls| => AssetItem(name, decls[i].kind))
  }

  /** The contribution points; newPoints registers each once, in this order. */
  datatype Point = Drivers | AssetTypes | Tools | Policy | Pages | Snippets

  /** What v contributes to these registries through p. */
  function PointItems(v: View, p: Point): seq<Item> {
    match p
    case Drivers => DriverItems(v.drivers)
    case AssetTypes => AssetItems(v.name, v.assets)
    case Policy => if v.face == "" then [] else [FaceItem(v.name, v.face)]
    case _ => []
  }

  /** Nothing outside these registries makes p refuse v. */
  predicate PointWelcomes(v: View, p: Point) {
    match p
    case Drivers => true
    case AssetTypes => AllAttachable(v.assets)
    case Tools => v.tools
    case Policy => v.face != "" ==> v.groups
    case Pages => v.pages
    case Snippets => v.snippets
  }

  function ItemsOf(v: View, ps: seq<Point>): seq<Item> {
    if ps == [] then [] else ItemsOf(v, ps[..|ps| - 1]) + PointItems(v, ps[|ps| - 1])
  }

  predicate AllWelcome(v: View, ps: seq<Point>) {
    ps == [] || (AllWelcome(v, ps[..|ps| - 1]) && PointWelcomes(v, ps[|ps| - 1]))
  }

  predicate WellNamed(v: View) {
    forall d | d in v.drivers :: d.ext == v.name
  }

  /** What a point hands back for undoing its part; `Foreign` touches none of these registries. */
  datatype Revoke = ReleaseDrivers(ds: seq<Driver>) | UndoLog(log: seq<Item>) | Foreign

  function Undoes(u: Revoke): seq<Item> {
    match u
    case ReleaseDrivers(ds) => DriverItems(ds)
    case UndoLog(log) => log
    case Foreign => []
  }

  function Flat(us: seq<Revoke>): seq<Item> {
    if us == [] then [] else Flat(us[..|us| - 1]) + Undoes(us[|us| - 1])
  }

  datatype Status = InProgress | Done(revokes: seq<Revoke>)

  lemma SplitDistinct(xs: seq<Item>, ys: seq<Item>)
    requires Distinct(xs + ys)
    ensures Distinct(xs) && Distinct(ys) && Elems(xs) !! Elems(ys)
  {
    forall i, j | 0 <= i < j < |xs| ensures xs[i] != xs[j] {
      assert (xs + ys)[i] == xs[i] && (xs + ys)[j] == xs[j];
    }
    forall i, j | 0 <= i < j < |ys| ensures ys[i] != ys[j] {
      assert (xs + ys)[|xs| + i] == ys[i] && (xs + ys)[|xs| + j] == ys[j];
    }
    forall i, j | 0 <= i < |xs| && 0 <= j < |ys| ensures xs[i] != ys[j] {
      assert (xs + ys)[i] == xs[i] && (xs + ys)[|xs| + j] == ys[j];
    }
  }

  lemma FlatLast(us: seq<Revoke>, u: Revoke)
    ensures Flat(us + [u]) == Flat(us) + Undoes(u)
  {
    assert (us + [u])[..|us|] == us;
  }

  lemma {:induction false} AddInParts(r: Registry, xs: seq<Item>, ys: seq<Item>)
    ensures AddAll(r, xs + ys) == AddAll(AddAll(r, xs), ys)
    ensures CanAdd(r, xs + ys) <==> CanAdd(r, xs) && CanAdd(AddAll(r, xs), ys)
  {
    if ys == [] {
      assert xs + ys == xs;
    } else {
      var init, last := ys[..|ys| - 1], ys[|ys| - 1];
      AddInParts(r, xs, init);
      assert xs + ys == xs + init + [last];
      AddLast(r, xs + init, last);
    }
  }

  lemma NextStep(was: seq<Item>, xs: seq<Item>, i: nat)
    requires i < |xs|
    ensures was + xs[..i + 1] == was + xs[..i] + [xs[i]]
  {
  }

  /** One clash on the way is a clash of the whole. */
  lemma StuckOn(r: Registry, was: seq<Item>, xs: seq<Item>, i: nat)
    requires i < |xs| && !CanAdd(r, was + xs[..i + 1])
    ensures !CanAdd(r, was + xs)
  {
    assert was + xs == (was + xs[..i + 1]) + xs[i + 1..];
    AddInParts(r, was + xs[..i + 1], xs[i + 1..]);
  }

  lemma NextType(was: seq<Item>, name: string, decls: seq<AssetDecl>, i: nat)
    requires i < |decls|
    ensures AssetItems(name, decls[..i + 1]) == AssetItems(name, decls[..i]) + [AssetItem(name, decls[i].kind)]
    ensures was + AssetItems(name, decls[..i + 1]) ==
            was + AssetItems(name, decls[..i]) + [AssetItem(name, decls[i].kind)]
    ensures AllAttachable(decls[..i + 1]) <==> AllAttachable(decls[..i]) && Attachable(decls[i])
  {
    assert decls[..i + 1] == decls[..i] + [decls[i]];
  }

  lemma RefusedType(r: Registry, was: seq<Item>, name: string, decls: seq<AssetDecl>, i: nat)
    requires i < |decls|
    requires !Attachable(decls[i]) || !CanAdd(r, was + AssetItems(name, decls[..i + 1]))
    ensures !AllAttachable(decls) || !CanAdd(r, was + AssetItems(name, decls))
  {
    if Attachable(decls[i]) {
      var all := AssetItems(name, decls);
      assert all[..i + 1] == AssetItems(name, decls[..i + 1]);
      StuckOn(r, was, all, i);
    } else {
      assert decls[i] in decls;
    }
  }

  lemma NextPoint(was: seq<Item>, v: View, ps: seq<Point>, p: Point)
    ensures ItemsOf(v, ps + [p]) == ItemsOf(v, ps) + PointItems(v, p)
    ensures was + ItemsOf(v, ps + [p]) == was + ItemsOf(v, ps) + PointItems(v, p)
    ensures AllWelcome(v, ps + [p]) <==> AllWelcome(v, ps) && PointWelcomes(v, p)
  {
    assert (ps + [p])[..|ps|] == ps;
  }

  /** A refusal on the way is a refusal of the whole. */
  lemma {:induction false} RefusedPoint(r: Registry, was: seq<Item>, v: View, done: seq<Point>, rest: seq<Point>)
    requires !AllWelcome(v, done) || !CanAdd(r, was + ItemsOf(v, done))
    ensures !AllWelcome(v, done + rest) || !CanAdd(r, was + ItemsOf(v, done + rest))
  {
    if rest == [] {
      assert done + rest == done;
    } else {
      var init, last := rest[..|rest| - 1], rest[|rest| - 1];
      RefusedPoint(r, was, v, done, init);
      assert done + rest == done + init + [last];
      NextPoint(was, v, done + init, last);
      AddInParts(r, was + ItemsOf(v, done + init), PointItems(v, last));
    }
  }

  lemma {:induction false} ItemsAreOwn(v: View, ps: seq<Point>)
    requires WellNamed(v)
    ensures forall x | x in ItemsOf(v, ps) :: Ext(x) == v.name
  {
    if ps != [] {
      ItemsAreOwn(v, ps[..|ps| - 1]);
    }
  }

  lemma AddedAreDistinct(r: Registry, xs: seq<Item>)
    requires CanAdd(r, xs)
    ensures Distinct(xs)
  {
    forall i, j | 0 <= i < j < |xs| ensures xs[i] != xs[j] {
      EachIsOnce(r, xs, i, j);
    }
  }

  lemma DistinctEnd(r: Registry, xs: seq<Item>, ys: seq<Item>)
    requires CanAdd(r, xs + ys)
    ensures Distinct(ys)
  {
    AddInParts(r, xs, ys);
    AddedAreDistinct(AddAll(r, xs), ys);
  }

  lemma OwnAndDistinct(r: Registry, was: seq<Item>, v: View, ps: seq<Point>, xs: seq<Item>)
    requires WellNamed(v) && xs == ItemsOf(v, ps) && CanAdd(r, was + ItemsOf(v, ps))
    ensures Distinct(xs) && forall x | x in xs :: Ext(x) == v.name
  {
    DistinctEnd(r, was, xs);
    ItemsAreOwn(v, ps);
  }

  /** Undoing what was added last leaves what was there. */
  lemma BackOut(r: Registry, xs: seq<Item>, ys: seq<Item>)
    requires CanAdd(r, xs + ys)
    ensures Keep(xs + ys, Elems(ys)) == xs
    ensures Distinct(ys)
  {
    DistinctEnd(r, xs, ys);
    forall x | x in xs ensures x !in ys {
      if x in ys {
        var i :| 0 <= i < |xs| && xs[i] == x;
        var j :| 0 <= j < |ys| && ys[j] == x;
        EachIsOnce(r, xs + ys, i, |xs| + j);
      }
    }
    KeepNothingGone(xs, Elems(ys));
    KeepConcat(xs, ys, Elems(ys));
    KeepAllGone(ys, Elems(ys));
  }

  function Of(live: seq<Item>, name: string): set<Item> {
    set x | x in live && Ext(x) == name
  }

  /** What is attached is exactly what the undo logs hold. */
  ghost predicate Recorded(attached: map<string, Status>, live: seq<Item>) {
    && (forall x | x in live :: Ext(x) in attached)
    && (forall n | n in attached :: attached[n].Done? && Distinct(Flat(attached[n].revokes)))
    && (forall n | n in attached :: Elems(Flat(attached[n].revokes)) == Of(live, n))
  }

  lemma AttachIsRecorded(attached: map<string, Status>, live: seq<Item>, name: string, us: seq<Revoke>)
    requires Recorded(attached, live) && name !in attached
    requires Distinct(Flat(us)) && forall x | x in Flat(us) :: Ext(x) == name
    ensures Recorded(attached[name := Done(us)], live + Flat(us))
  {
    var now := live + Flat(us);
    assert Elems(Flat(us)) == Of(now, name);
    forall n | n in attached ensures Of(now, n) == Of(live, n) {
    }
  }

  lemma RevokeIsRecorded(attached: map<string, Status>, live: seq<Item>, name: string)
    requires Recorded(attached, live)
    ensures Recorded(attached - {name}, Keep(live, Of(live, name)))
  {
    var now := Keep(live, Of(live, name));
    KeepKeepsTheRest(live, Of(live, name));
    forall n | n in attached && n != name ensures Of(now, n) == Of(live, n) {
    }
  }

  lemma AddNoName(names: map<string, string>, id: string)
    ensures AddNames(names, Elems([]), id) == names
  {
  }

  lemma AddOneName(names: map<string, string>, ns: seq<string>, id: string, n: string)
    ensures AddNames(names, Elems(ns + [n]), id) == AddNames(names, Elems(ns), id)[n := id]
  {
    assert Elems(ns + [n]) == Elems(ns) + {n};
  }

  lemma ElemsFrom(xs: seq<Item>, i: nat)
    requires i < |xs|
    ensures Elems(xs[i..]) == Elems(xs[i + 1..]) + {xs[i]} && xs[i] in xs
    ensures Distinct(xs) ==> xs[i] !in Elems(xs[i + 1..])
  {
    assert xs[i..] == [xs[i]] + xs[i + 1..];
  }

  lemma ElemsTo(xs: seq<Item>, i: nat)
    requires i < |xs|
    ensures Elems(xs[..i + 1]) == Elems(xs[..i]) + {xs[i]} && xs[i] in xs
    ensures Distinct(xs) ==> xs[i] !in Elems(xs[..i])
  {
    assert xs[..i + 1] == xs[..i] + [xs[i]];
  }

  lemma OnePointLess(us: seq<Revoke>, i: nat, all: set<Item>)
    requires i < |us| && Distinct(Flat(us[..i + 1])) && Elems(Flat(us[..i + 1])) <= all
    ensures Distinct(Flat(us[..i])) && Elems(Flat(us[..i])) <= all
    ensures Distinct(Undoes(us[i])) && Elems(Undoes(us[i])) <= Elems(Flat(us[..i + 1]))
    ensures (all - Elems(Flat(us[..i + 1]))) + Elems(Undoes(us[i])) == all - Elems(Flat(us[..i]))
  {
    FlatLast(us[..i], us[i]);
    assert us[..i + 1] == us[..i] + [us[i]];
    SplitDistinct(Flat(us[..i]), Undoes(us[i]));
  }

  lemma OneFurther<T>(xs: seq<T>, i: nat)
    requires i < |xs|
    ensures xs[..i] + [xs[i]] == xs[..i + 1] && xs[..i] + [xs[i]] + xs[i + 1..] == xs
  {
  }

  lemma UpdateAgain<V>(m: map<string, V>, k: string, u: V, v: V)
    ensures m[k := u][k := v] == m[k := v]
  {
  }

  /** The host's registries and the extensions attached to them. */
  class Host {
    var drivers: map<string, Driver>
    var names: map<string, string>
    var owners: map<string, string>
    var assets: map<string, string>
    var faces: map<string, string>
    const reserved: set<string>
    const points: seq<Point>
    var attached: map<string, Status>
    ghost const builtin: Registry
    ghost var live: seq<Item>

    ghost function State(): Registry
      reads this
    {
      Registry(drivers, names, owners, assets, faces, reserved)
    }

    /** The registries are the built-ins plus the contributions in `live`, none clashing. */
    ghost predicate Consistent()
      reads this
    {
      Coherent(builtin) && CanAdd(builtin, live) && State() == AddAll(builtin, live)
    }

    /** Between calls no attach is half done. */
    ghost predicate Valid()
      reads this
    {
      Consistent() && Recorded(attached, live)
    }

    constructor (b: Registry, ps: seq<Point>)
      requires Coherent(b)
      ensures Valid() && builtin == b && points == ps && live == [] && attached == map[]
    {
      drivers, names, owners, assets, faces := b.drivers, b.names, b.owners, b.assets, b.faces;
      reserved := b.reserved;
      points := ps;
      attached := map[];
      builtin := b;
      live := [];
    }

    method AnyTaken(ns: seq<string>) returns (taken: bool)
      ensures taken <==> exists n | n in ns :: n in names
    {
      for i := 0 to |ns|
        invariant forall k | 0 <= k < i :: ns[k] !in names
      {
        if ns[i] in names {
          return true;
        }
      }
      return false;
    }

    method WriteNames(ns: seq<string>, id: string)
      modifies this`names
      ensures names == AddNames(old(names), Elems(ns), id)
    {
      AddNoName(names, id);
      for i := 0 to |ns|
        invariant names == AddNames(old(names), Elems(ns[..i]), id)
      {
        AddOneName(old(names), ns[..i], id, ns[i]);
        names := names[ns[i] := id];
        assert ns[..i + 1] == ns[..i] + [ns[i]];
      }
      assert ns[..|ns|] == ns;
    }

    method TryRegister(d: Driver) returns (ok: bool)
      modifies this`drivers, this`names
      ensures ok == Free(old(State()), DriverItem(d))
      ensures ok ==> drivers == old(drivers)[d.id := d] && names == AddNames(old(names), Names(d), d.id)
      ensures !ok ==> drivers == old(drivers) && names == old(names)
    {
      if d.id == "" {
        return false;
      }
      var taken := AnyTaken(NameList(d));
      if taken {
        return false;
      }
      drivers := drivers[d.id := d];
      WriteNames(NameList(d), d.id);
      return true;
    }

    method Unregister(id: string)
      modifies this`drivers, this`names
      ensures drivers == old(drivers) - {id} && names == DropNames(old(names), id)
    {
      drivers := drivers - {id};
      var todo := names.Keys;
      while todo != {}
        invariant drivers == old(drivers) - {id}
        invariant todo <= names.Keys <= old(names.Keys)
        invariant forall n | n in names :: names[n] == old(names)[n]
        invariant forall n | n in old(names) && n !in todo :: n in names <==> old(names)[n] != id
      {
        var n :| n in todo;
        todo := todo - {n};
        if names[n] == id {
          names := names - {n};
        }
      }
      assert names.Keys == DropNames(old(names), id).Keys;
    }

    /** One undo step of a point, whichever contributions were attached since. */
    method Undo(x: Item)
      requires Consistent() && x in live
      modifies this`drivers, this`names, this`owners, this`assets, this`faces, this`live
      ensures Consistent() && live == Keep(old(live), {x})
    {
      match x {
        case DriverItem(d) =>
          Unregister(d.id);
          owners := owners - {d.id};
        case AssetItem(_, k) =>
          assets := assets - {k};
        case FaceItem(_, f) =>
          faces := faces - {f};
      }
      RemoveLeavesTheOthers(builtin, live, x);
      live := Keep(live, {x});
    }

    /** releaseDrivers: in registration order. */
    method Release(ds: seq<Driver>)
      requires Consistent() && Distinct(DriverItems(ds)) && Elems(DriverItems(ds)) <= Elems(live)
      modifies this`drivers, this`names, this`owners, this`assets, this`faces, this`live
      ensures Consistent() && live == Keep(old(live), Elems(DriverItems(ds)))
    {
      ghost var all := DriverItems(ds);
      KeepNothingGone(live, Elems(all[..0]));
      for i := 0 to |ds|
        invariant Consistent() && live == Keep(old(live), Elems(all[..i]))
      {
        ElemsTo(all, i);
        KeepKeepsTheRest(old(live), Elems(all[..i]));
        Undo(DriverItem(ds[i]));
        KeepKeep(old(live), Elems(all[..i]), {all[i]});
      }
      assert all[..|ds|] == all;
    }

    /** undo.run: in reverse. */
    method Run(log: seq<Item>)
      requires Consistent() && Distinct(log) && Elems(log) <= Elems(live)
      modifies this`drivers, this`names, this`owners, this`assets, this`faces, this`live
      ensures Consistent() && live == Keep(old(live), Elems(log))
    {
      KeepNothingGone(live, Elems(log[|log|..]));
      for i := |log| downto 0
        invariant Consistent() && live == Keep(old(live), Elems(log[i..]))
      {
        ElemsFrom(log, i);
        KeepKeepsTheRest(old(live), Elems(log[i + 1..]));
        Undo(log[i]);
        KeepKeep(old(live), Elems(log[i + 1..]), {log[i]});
      }
    }

    /** One step of registerDrivers: the driver and the extension that owns it. */
    method RegisterOne(d: Driver) returns (ok: bool)
      requires Consistent()
      modifies this`drivers, this`names, this`owners, this`live
      ensures Consistent() && ok == CanAdd(builtin, old(live) + [DriverItem(d)])
      ensures live == old(live) + if ok then [DriverItem(d)] else []
    {
      AddLast(builtin, live, DriverItem(d));
      ok := TryRegister(d);
      if ok {
        owners := owners[d.id := d.ext];
        live := live + [DriverItem(d)];
      }
    }

    /** The driver point's own rollback, of drivers that were registered last. */
    method GiveUp(ghost was: seq<Item>, ds: seq<Driver>)
      requires Consistent() && live == was + DriverItems(ds)
      modifies this`drivers, this`names, this`owners, this`assets, this`faces, this`live
      ensures Consistent() && live == was
    {
      BackOut(builtin, was, DriverItems(ds));
      Release(ds);
    }

    /** registerDrivers, all or nothing. */
    method RegisterDrivers(ds: seq<Driver>) returns (ok: bool)
      requires Consistent()
      modifies this`drivers, this`names, this`owners, this`assets, this`faces, this`live
      ensures Consistent()
      ensures ok <==> CanAdd(builtin, old(live) + DriverItems(ds))
      ensures live == if ok then old(live) + DriverItems(ds) else old(live)
    {
      ghost var all, was := DriverItems(ds), live;
      assert was + all[..0] == was;
      for i := 0 to |ds|
        invariant Consistent() && live == was + all[..i]
      {
        var free := RegisterOne(ds[i]);
        NextStep(was, all, i);
        if !free {
          StuckOn(builtin, was, all, i);
          assert DriverItems(ds[..i]) == all[..i];
          GiveUp(was, ds[..i]);
          return false;
        }
      }
      assert all[..|ds|] == all;
      return true;
    }

    /** attachAssetType: registered, and taken out again when its validator is refused. */
    method AttachAssetType(name: string, a: AssetDecl) returns (ok: bool)
      requires Consistent()
      modifies this`drivers, this`names, this`owners, this`assets, this`faces, this`live
      ensures Consistent()
      ensures ok <==> Attachable(a) && CanAdd(builtin, old(live) + [AssetItem(name, a.kind)])
      ensures live == if ok then old(live) + [AssetItem(name, a.kind)] else old(live)
    {
      var x := AssetItem(name, a.kind);
      AddLast(builtin, live, x);
      if !a.wired || !a.described || a.kind in assets {
        return false;
      }
      assets := assets[a.kind := name];
      live := live + [x];
      if !a.validates {
        BackOut(builtin, old(live), [x]);
        assert Elems([x]) == {x};
        Undo(x);
        return false;
      }
      return true;
    }

    /** A point's own rollback, of entries it registered last. */
    method GiveUpLog(ghost was: seq<Item>, log: seq<Item>)
      requires Consistent() && live == was + log
      modifies this`drivers, this`names, this`owners, this`assets, this`faces, this`live
      ensures Consistent() && live == was
    {
      BackOut(builtin, was, log);
      Run(log);
    }

    /** assetTypesPoint.Attach, with its undo log. */
    method AttachAssetTypes(name: string, decls: seq<AssetDecl>) returns (ok: bool, log: seq<Item>)
      requires Consistent()
      modifies this`drivers, this`names, this`owners, this`assets, this`faces, this`live
      ensures Consistent()
      ensures ok <==> AllAttachable(decls) && CanAdd(builtin, old(live) + AssetItems(name, decls))
      ensures live == if ok then old(live) + AssetItems(name, decls) else old(live)
      ensures ok ==> log == AssetItems(name, decls)
    {
      log := [];
      ghost var was := live;
      assert was + log == was && decls[..0] == [];
      for i := 0 to |decls|
        invariant Consistent() && live == was + log && log == AssetItems(name, decls[..i])
        invariant AllAttachable(decls[..i])
      {
        var done := AttachAssetType(name, decls[i]);
        NextType(was, name, decls, i);
        if !done {
          RefusedType(builtin, was, name, decls, i);
          GiveUpLog(was, log);
          return false, log;
        }
        log := log + [AssetItem(name, decls[i].kind)];
      }
      assert decls[..|decls|] == decls;
      return true, log;
    }

    /** policyPoint.Attach: the face is claimed first and given back when its groups are refused. */
    method AttachFace(v: View) returns (ok: bool, log: seq<Item>)
      requires Consistent()
      modifies this`drivers, this`names, this`owners, this`assets, this`faces, this`live
      ensures Consistent()
      ensures ok <==> PointWelcomes(v, Policy) && CanAdd(builtin, old(live) + PointItems(v, Policy))
      ensures live == if ok then old(live) + PointItems(v, Policy) else old(live)
      ensures ok ==> log == PointItems(v, Policy)
    {
      log := [];
      if v.face == "" {
        assert live + [] == live;
        return true, log;
      }
      var x := FaceItem(v.name, v.face);
      AddLast(builtin, live, x);
      if v.face in reserved || v.face in faces {
        return false, log;
      }
      faces := faces[v.face := v.name];
      live := live + [x];
      log := [x];
      if !v.groups {
        GiveUpLog(old(live), log);
        return false, log;
      }
      return true, log;
    }

    method AttachPoint(v: View, p: Point) returns (ok: bool, undo: Revoke)
      requires Consistent()
      modifies this`drivers, this`names, this`owners, this`assets, this`faces, this`live
      ensures Consistent()
      ensures ok <==> PointWelcomes(v, p) && CanAdd(builtin, old(live) + PointItems(v, p))
      ensures live == if ok then old(live) + PointItems(v, p) else old(live)
      ensures ok ==> Undoes(undo) == PointItems(v, p)
    {
      undo := Foreign;
      var log;
      assert live + [] == live;
      match p {
        case Drivers =>
          ok := RegisterDrivers(v.drivers);
          undo := ReleaseDrivers(v.drivers);
        case AssetTypes =>
          ok, log := AttachAssetTypes(v.name, v.assets);
          undo := UndoLog(log);
        case Tools => ok := v.tools;
        case Policy =>
          ok, log := AttachFace(v);
          undo := UndoLog(log);
        case Pages => ok := v.pages;
        case Snippets => ok := v.snippets;
      }
    }

    /** Calling one point's undo. */
    method UndoPoint(u: Revoke)
      requires Consistent() && Distinct(Undoes(u)) && Elems(Undoes(u)) <= Elems(live)
      modifies this`drivers, this`names, this`owners, this`assets, this`faces, this`live
      ensures Consistent() && live == Keep(old(live), Elems(Undoes(u)))
    {
      match u {
        case ReleaseDrivers(ds) => Release(ds);
        case UndoLog(log) => Run(log);
        case Foreign =>
          assert Elems(Undoes(u)) == {};
          KeepNothingGone(live, {});
      }
    }

    /** revokeAll: the points' undos in reverse attach order. */
    method RevokeAll(us: seq<Revoke>)
      requires Consistent() && Distinct(Flat(us)) && Elems(Flat(us)) <= Elems(live)
      modifies this`drivers, this`names, this`owners, this`assets, this`faces, this`live
      ensures Consistent() && live == Keep(old(live), Elems(Flat(us)))
    {
      assert us[..|us|] == us;
      ghost var all := Elems(Flat(us));
      assert all - Elems(Flat(us[..|us|])) == {};
      KeepNothingGone(live, {});
      for i := |us| downto 0
        invariant Consistent() && Elems(Flat(us[..i])) <= all && Distinct(Flat(us[..i]))
        invariant live == Keep(old(live), all - Elems(Flat(us[..i])))
      {
        OnePointLess(us, i, all);
        KeepKeepsTheRest(old(live), all - Elems(Flat(us[..i + 1])));
        UndoPoint(us[i]);
        KeepKeep(old(live), all - Elems(Flat(us[..i + 1])), Elems(Undoes(us[i])));
      }
      assert all - Elems(Flat(us[..0])) == all;
    }

    /** The registry's rollback, of points that attached last. */
    method RollBack(ghost was: seq<Item>, us: seq<Revoke>)
      requires Consistent() && live == was + Flat(us)
      modifies this`drivers, this`names, this`owners, this`assets, this`faces, this`live
      ensures Consistent() && live == was
    {
      BackOut(builtin, was, Flat(us));
      RevokeAll(us);
    }

    /** One more point after `done`, or everything back to `was`. */
    method AttachNext(ghost was: seq<Item>, v: View, ghost done: seq<Point>, p: Point, us: seq<Revoke>)
      returns (ok: bool, revokes: seq<Revoke>)
      requires Consistent() && Flat(us) == ItemsOf(v, done) && live == was + ItemsOf(v, done) && AllWelcome(v, done)
      modifies this`drivers, this`names, this`owners, this`assets, this`faces, this`live
      ensures Consistent()
      ensures ok <==> AllWelcome(v, done + [p]) && CanAdd(builtin, was + ItemsOf(v, done + [p]))
      ensures live == if ok then was + ItemsOf(v, done + [p]) else was
      ensures ok ==> Flat(revokes) == ItemsOf(v, done + [p])
    {
      NextPoint(was, v, done, p);
      var undo;
      ok, undo := AttachPoint(v, p);
      FlatLast(us, undo);
      revokes := us + [undo];
      if !ok {
        RollBack(was, us);
      }
    }

    /** The points in order, all or nothing: a refusal undoes the points before it. */
    method AttachPoints(v: View, ps: seq<Point>) returns (ok: bool, revokes: seq<Revoke>)
      requires Consistent()
      modifies this`drivers, this`names, this`owners, this`assets, this`faces, this`live
      ensures Consistent()
      ensures ok <==> AllWelcome(v, ps) && CanAdd(builtin, old(live) + ItemsOf(v, ps))
      ensures live == if ok then old(live) + ItemsOf(v, ps) else old(live)
      ensures ok ==> Flat(revokes) == ItemsOf(v, ps)
    {
      revokes := [];
      ghost var was, done := live, [];
      assert was + ItemsOf(v, done) == was;
      for i := 0 to |ps|
        invariant Consistent() && done == ps[..i]
        invariant live == was + ItemsOf(v, done) && Flat(revokes) == ItemsOf(v, done) && AllWelcome(v, done)
      {
        OneFurther(ps, i);
        ok, revokes := AttachNext(was, v, done, ps[i], revokes);
        done := done + [ps[i]];
        if !ok {
          RefusedPoint(builtin, was, v, done, ps[i + 1..]);
          return;
        }
      }
      assert done == ps;
      ok := true;
    }

    /** The attach is over: its undos are kept under its name. */
    method Record(name: string, us: seq<Revoke>, ghost was: seq<Item>, ghost before: map<string, Status>)
      requires Consistent() && live == was + Flat(us) && Recorded(before, was) && name !in before
      requires attached == before[name := InProgress]
      requires Distinct(Flat(us)) && forall x | x in Flat(us) :: Ext(x) == name
      modifies this`attached
      ensures Valid() && attached == before[name := Done(us)]
    {
      AttachIsRecorded(before, was, name, us);
      UpdateAgain(before, name, InProgress, Done(us));
      attached := attached[name := Done(us)];
    }

    /** Attach: everything v contributes, or nothing. */
    method Attach(v: View) returns (ok: bool)
      requires Valid() && WellNamed(v)
      modifies this
      ensures Valid()
      ensures ok <==>
              && v.accepted && v.name !in old(attached) && AllWelcome(v, points)
              && CanAdd(builtin, old(live) + ItemsOf(v, points))
      ensures live == if ok then old(live) + ItemsOf(v, points) else old(live)
      ensures ok ==> v.name in attached && attached == old(attached)[v.name := attached[v.name]]
      ensures !ok ==> attached == old(attached) && State() == old(State())
    {
      if !v.accepted || v.name in attached {
        return false;
      }
      attached := attached[v.name := InProgress];
      var revokes;
      ok, revokes := AttachPoints(v, points);
      if ok {
        OwnAndDistinct(builtin, old(live), v, points, Flat(revokes));
        Record(v.name, revokes, old(live), old(attached));
      } else {
        attached := attached - {v.name};
        assert attached == old(attached);
      }
    }

    /** Revoke: exactly the named extension's contributions leave, whatever was attached since. */
    method Revoke(name: string)
      requires Valid()
      modifies this
      ensures Valid() && attached == old(attached) - {name}
      ensures live == Keep(old(live), Of(old(live), name))
    {
      RevokeIsRecorded(attached, live, name);
      if name !in attached {
        assert Of(live, name) == {};
        KeepNothingGone(live, {});
        assert attached - {name} == attached;
        return;
      }
      var revokes := attached[name].revokes;
      attached := attached - {name};
      RevokeAll(revokes);
    }
  }
}
