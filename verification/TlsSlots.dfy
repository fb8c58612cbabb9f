/** The TLS certificate material of an asset: three slots given as paths or three given as content
    (internal/assettype/connection_args.go:85-107, 330-378). The two sources are meant to exclude each
    other; a request that names keys of both kinds, one of them empty, can leave both in place. */
module TlsSlots {
  import opened Collections
  import opened ConnectionRoute

  /** CA, client certificate and client key, each "" when absent. */
  datatype Slots = Slots(files: seq<string>, pems: seq<string>)

  /** The keys a request names, slot by slot. */
  datatype Keys = Keys(files: seq<Option<string>>, pems: seq<Option<string>>)

  const SLOTS := 3
  const KEY_SLOT := 2

  predicate Shaped(s: Slots) {
    |s.files| == SLOTS && |s.pems| == SLOTS
  }

  predicate ShapedKeys(k: Keys) {
    |k.files| == SLOTS && |k.pems| == SLOTS
  }

  predicate AnyText(xs: seq<string>) {
    exists i :: 0 <= i < |xs| && xs[i] != ""
  }

  predicate AnyNamed(xs: seq<Option<string>>) {
    exists i :: 0 <= i < |xs| && xs[i].Some?
  }

  predicate AnyValue(xs: seq<Option<string>>) {
    exists i :: 0 <= i < |xs| && xs[i].Some? && xs[i].value != ""
  }

  /** validateConnectionArgs: values of one kind only. */
  predicate KeysValid(k: Keys) {
    !(AnyValue(k.files) && AnyValue(k.pems))
  }

  /** One source for all three slots. */
  predicate OneSource(s: Slots) {
    !(AnyText(s.files) && AnyText(s.pems))
  }

  /** Slots after writing the named ones, before any clearing. */
  function Overlay(was: seq<string>, named: seq<Option<string>>): (r: seq<string>)
    requires |was| == |named|
    ensures |r| == |was|
    ensures forall i | 0 <= i < |was| :: r[i] == if named[i].Some? then named[i].value else was[i]
  {
    seq(|was|, i requires 0 <= i < |was| => if named[i].Some? then named[i].value else was[i])
  }

  function Blank(): (r: seq<string>)
    ensures |r| == SLOTS && !AnyText(r)
  {
    ["", "", ""]
  }

  /** The request with its client key encrypted; None when that fails. */
  function Sealed(k: Keys, enc: string -> Option<string>): Option<Keys>
    requires ShapedKeys(k)
  {
    var key := k.pems[KEY_SLOT];
    if key.None? then Some(k)
    else
      var cipher := EncryptText(key.value, enc);
      if cipher.None? then None else Some(k.(pems := k.pems[KEY_SLOT := cipher]))
  }

  function SealedPems(k: Keys, enc: string -> Option<string>): (r: seq<Option<string>>)
    requires ShapedKeys(k)
    ensures |r| == SLOTS && forall i | 0 <= i < SLOTS :: r[i].Some? == k.pems[i].Some?
  {
    if Sealed(k, enc).Some? then Sealed(k, enc).value.pems else k.pems
  }

  /** The first n named slots written. */
  function WrittenTo(was: seq<string>, named: seq<Option<string>>, n: nat): (r: seq<string>)
    requires |was| == |named|
    ensures |r| == |was|
    ensures forall i | 0 <= i < |was| :: r[i] == if i < n && named[i].Some? then named[i].value else was[i]
  {
    seq(|was|, i requires 0 <= i < |was| => if i < n && named[i].Some? then named[i].value else was[i])
  }

  /** applyTLSCertArgs. */
  function Apply(s: Slots, k: Keys): Slots
    requires Shaped(s) && ShapedKeys(k)
  {
    var files, pems := Overlay(s.files, k.files), Overlay(s.pems, k.pems);
    Slots(if AnyNamed(k.pems) && !AnyNamed(k.files) then Blank() else files,
          if AnyNamed(k.files) && !AnyNamed(k.pems) then Blank() else pems)
  }

  class Store {
    var files: seq<string>
    var pems: seq<string>

    ghost predicate Valid()
      reads this
    {
      |files| == SLOTS && |pems| == SLOTS
    }

    ghost function State(): Slots
      reads this
    {
      Slots(files, pems)
    }

    constructor ()
      ensures Valid() && State() == Slots(Blank(), Blank())
    {
      files, pems := Blank(), Blank();
    }

    /** When the client key cannot be encrypted, the caller discards what was written. */
    method ApplyCerts(k: Keys, enc: string -> Option<string>) returns (ok: bool)
      requires Valid() && ShapedKeys(k)
      modifies this
      ensures Valid() && (ok <==> Sealed(k, enc).Some?)
      ensures ok ==> State() == Apply(old(State()), Sealed(k, enc).value)
    {
      var fileGiven, pemGiven := false, false;
      ghost var sealed := SealedPems(k, enc);
      for i := 0 to SLOTS
        invariant Valid() && (i > KEY_SLOT ==> Sealed(k, enc).Some?)
        invariant fileGiven == AnyNamed(k.files[..i]) && pemGiven == AnyNamed(k.pems[..i])
        invariant files == WrittenTo(old(files), k.files, i) && pems == WrittenTo(old(pems), sealed, i)
      {
        NamedSoFar(k.files, i);
        NamedSoFar(k.pems, i);
        if k.files[i].Some? {
          fileGiven := true;
          files := files[i := k.files[i].value];
        }
        if k.pems[i].Some? {
          pemGiven := true;
          var content := k.pems[i].value;
          if i == KEY_SLOT {
            var cipher := EncryptText(content, enc);
            if cipher.None? {
              return false;
            }
            content := cipher.value;
          }
          pems := pems[i := content];
        }
      }
      assert k.files[..SLOTS] == k.files && k.pems[..SLOTS] == k.pems;
      SealingNamesTheSame(k, enc);
      assert files == Overlay(old(files), k.files) && pems == Overlay(old(pems), sealed);
      if fileGiven && !pemGiven {
        pems := Blank();
      }
      if pemGiven && !fileGiven {
        files := Blank();
      }
      return true;
    }
  }

  lemma NamedSoFar(xs: seq<Option<string>>, i: nat)
    requires i < |xs|
    ensures AnyNamed(xs[..i + 1]) <==> AnyNamed(xs[..i]) || xs[i].Some?
  {
    assert xs[..i + 1] == xs[..i] + [xs[i]];
    if AnyNamed(xs[..i]) {
      var j :| 0 <= j < i && xs[..i][j].Some?;
      assert xs[..i + 1][j].Some?;
    }
    if xs[i].Some? {
      assert xs[..i + 1][i].Some?;
    }
  }

  lemma SealingNamesTheSame(k: Keys, enc: string -> Option<string>)
    requires ShapedKeys(k) && Sealed(k, enc).Some?
    ensures ShapedKeys(Sealed(k, enc).value) && Sealed(k, enc).value.files == k.files
    ensures AnyNamed(Sealed(k, enc).value.pems) == AnyNamed(k.pems)
  {
    var sealed := Sealed(k, enc).value;
    assert forall i | 0 <= i < SLOTS :: sealed.pems[i].Some? == k.pems[i].Some?;
    if AnyNamed(k.pems) {
      var i :| 0 <= i < SLOTS && k.pems[i].Some?;
      assert sealed.pems[i].Some?;
    }
  }

  /** A stored slot the request says nothing about. */
  predicate KeepsStored(was: seq<string>, named: seq<Option<string>>)
    requires |was| == |named|
  {
    exists i :: 0 <= i < |was| && was[i] != "" && named[i].None?
  }

  /** What makes the two sources meet: keys of both kinds are named, and a new value of one kind joins a
      stored value of the other that the request leaves alone. */
  predicate Clashes(s: Slots, k: Keys)
    requires Shaped(s) && ShapedKeys(k)
  {
    && AnyNamed(k.files) && AnyNamed(k.pems)
    && ((AnyValue(k.files) && KeepsStored(s.pems, k.pems)) || (AnyValue(k.pems) && KeepsStored(s.files, k.files)))
  }

  /** One source stays one exactly when the request does not clash with what is stored. */
  lemma OneSourceStays(s: Slots, k: Keys)
    requires Shaped(s) && ShapedKeys(k) && OneSource(s) && KeysValid(k)
    ensures OneSource(Apply(s, k)) <==> !Clashes(s, k)
  {
  }

  /** Naming keys of one kind settles the source, whatever was stored. */
  lemma OneKindSettlesTheSource(s: Slots, k: Keys)
    requires Shaped(s) && ShapedKeys(k) && AnyNamed(k.files) != AnyNamed(k.pems)
    ensures OneSource(Apply(s, k))
  {
  }

  // ---- sequences of updates ----

  /** One update: refused, failed in encryption, or saved. */
  function Update(s: Slots, k: Keys, enc: string -> Option<string>): (t: Slots)
    requires Shaped(s) && ShapedKeys(k)
    ensures Shaped(t)
  {
    if !KeysValid(k) || Sealed(k, enc).None? then s else Apply(s, Sealed(k, enc).value)
  }

  /** Encryption never yields an empty text. */
  ghost predicate Encrypts(enc: string -> Option<string>) {
    forall text :: enc(text) != Some("")
  }

  /** Sealing names the same keys and gives values to the same ones, so it changes no clash. */
  lemma SealedClashesAlike(s: Slots, k: Keys, enc: string -> Option<string>)
    requires Shaped(s) && ShapedKeys(k) && Encrypts(enc) && Sealed(k, enc).Some?
    ensures var sealed := Sealed(k, enc).value;
            && ShapedKeys(sealed) && KeysValid(sealed) == KeysValid(k) && Clashes(s, sealed) == Clashes(s, k)
  {
    var sealed := Sealed(k, enc).value;
    SealingNamesTheSame(k, enc);
    assert forall i | 0 <= i < SLOTS ::
        && sealed.pems[i].Some? == k.pems[i].Some?
        && (k.pems[i].Some? ==> (sealed.pems[i].value == "" <==> k.pems[i].value == ""));
    SameValues(k.pems, sealed.pems);
    SameKept(s.pems, k.pems, sealed.pems);
  }

  lemma SameValues(xs: seq<Option<string>>, ys: seq<Option<string>>)
    requires |xs| == |ys|
    requires forall i | 0 <= i < |xs| ::
               xs[i].Some? == ys[i].Some? && (xs[i].Some? ==> (xs[i].value == "" <==> ys[i].value == ""))
    ensures AnyValue(xs) == AnyValue(ys)
  {
    if AnyValue(xs) {
      var i :| 0 <= i < |xs| && xs[i].Some? && xs[i].value != "";
      assert ys[i].Some? && ys[i].value != "";
    }
    if AnyValue(ys) {
      var i :| 0 <= i < |ys| && ys[i].Some? && ys[i].value != "";
      assert xs[i].Some? && xs[i].value != "";
    }
  }

  lemma SameKept(was: seq<string>, xs: seq<Option<string>>, ys: seq<Option<string>>)
    requires |was| == |xs| == |ys| && forall i | 0 <= i < |xs| :: xs[i].Some? == ys[i].Some?
    ensures KeepsStored(was, xs) == KeepsStored(was, ys)
  {
    if KeepsStored(was, xs) {
      var i :| 0 <= i < |was| && was[i] != "" && xs[i].None?;
      assert ys[i].None?;
    }
    if KeepsStored(was, ys) {
      var i :| 0 <= i < |was| && was[i] != "" && ys[i].None?;
      assert xs[i].None?;
    }
  }

  /** The update goes through and clashes. */
  predicate Mixes(s: Slots, k: Keys, enc: string -> Option<string>)
    requires Shaped(s) && ShapedKeys(k)
  {
    KeysValid(k) && Sealed(k, enc).Some? && Clashes(s, k)
  }

  lemma UpdateMixesExactlyWhen(s: Slots, k: Keys, enc: string -> Option<string>)
    requires Shaped(s) && ShapedKeys(k) && Encrypts(enc) && OneSource(s)
    ensures OneSource(Update(s, k, enc)) <==> !Mixes(s, k, enc)
  {
    if KeysValid(k) && Sealed(k, enc).Some? {
      SealedClashesAlike(s, k, enc);
      OneSourceStays(s, Sealed(k, enc).value);
    }
  }

  predicate AllShaped(ks: seq<Keys>) {
    forall i | 0 <= i < |ks| :: ShapedKeys(ks[i])
  }

  /** Every state of the sequence has one source. */
  predicate AlwaysOneSource(s: Slots, ks: seq<Keys>, enc: string -> Option<string>)
    requires Shaped(s) && AllShaped(ks)
    decreases |ks|
  {
    OneSource(s) && (ks == [] || AlwaysOneSource(Update(s, ks[0], enc), ks[1..], enc))
  }

  /** No update of the sequence mixes when its turn comes. */
  predicate NeverMixes(s: Slots, ks: seq<Keys>, enc: string -> Option<string>)
    requires Shaped(s) && AllShaped(ks)
    decreases |ks|
  {
    ks == [] || (!Mixes(s, ks[0], enc) && NeverMixes(Update(s, ks[0], enc), ks[1..], enc))
  }

  lemma {:induction false} OneSourceExactlyWhenNeverMixed(s: Slots, ks: seq<Keys>, enc: string -> Option<string>)
    requires Shaped(s) && AllShaped(ks) && Encrypts(enc) && OneSource(s)
    ensures AlwaysOneSource(s, ks, enc) <==> NeverMixes(s, ks, enc)
    decreases |ks|
  {
    if ks != [] {
      UpdateMixesExactlyWhen(s, ks[0], enc);
      if !Mixes(s, ks[0], enc) {
        OneSourceExactlyWhenNeverMixed(Update(s, ks[0], enc), ks[1..], enc);
      }
    }
  }

  /** Over every sequence of updates of a new asset, the certificates keep one source throughout exactly when
      no request that goes through clashes with what is stored when it comes. */
  lemma UpdatesKeepOneSource(ks: seq<Keys>, enc: string -> Option<string>)
    requires AllShaped(ks) && Encrypts(enc)
    ensures AlwaysOneSource(Slots(Blank(), Blank()), ks, enc) <==> NeverMixes(Slots(Blank(), Blank()), ks, enc)
  {
    OneSourceExactlyWhenNeverMixed(Slots(Blank(), Blank()), ks, enc);
  }

  /** A valid request that clashes: one path set, one content cleared, while the asset stores content in a
      third slot. */
  lemma BothKindsCanMix()
    ensures exists s: Slots, k: Keys ::
              Shaped(s) && ShapedKeys(k) && OneSource(s) && KeysValid(k) && Clashes(s, k) && !OneSource(Apply(s, k))
  {
    var s := Slots(["", "", ""], ["ca", "", ""]);
    var k := Keys([None, Some("client.pem"), None], [None, None, Some("")]);
    assert k.files[1].Some? && k.pems[2].Some? && k.files[1].value != "";
    assert s.pems[0] != "" && k.pems[0].None?;
    assert AnyNamed(k.files) && AnyNamed(k.pems) && AnyValue(k.files) && KeepsStored(s.pems, k.pems);
    assert Clashes(s, k);
    OneSourceStays(s, k);
  }
}
