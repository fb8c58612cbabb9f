/** Driver-specific options of a database asset: their declaration (DriverField.validate and checkValue),
    check and completion (pkg/dbdriver/descriptor.go:222-340), and the merge of an update into the stored
    options (internal/assettype/database_options.go:30-81). */
module DriverOptions {
  import opened Collections

  /** A decoded option value; `Other` is null, a list or an object. */
  datatype Value = Str(s: string) | Flag(b: bool) | Whole(n: int) | Float(r: real) | NotFinite | Other

  datatype Kind = TextLine | TextArea | Password | Switch | Number | Enum | Unknown

  datatype Field = Field(
    key: string, kind: Kind, tab: string, options: seq<string>, default: Option<Value>, required: bool)

  /** FormTabs. */
  const FORM_TABS: set<string> := {"connection", "tunnel", "tls", "advanced"}

  type Options = map<string, Value>

  datatype Error =
    | UnknownOption(key: string)
    | BadValue(key: string)
    | Missing(key: string)
    | NotEncrypted(key: string)

  datatype Outcome = Ok(options: Options) | Err(error: Error)

  // ---- values and declarations ----

  /** checkValue. */
  predicate ValueOk(f: Field, v: Value) {
    match f.kind
    case TextLine => v.Str?
    case TextArea => v.Str?
    case Password => v.Str?
    case Switch => v.Flag?
    case Number => v.Whole? || (v.Float? && v.r == v.r.Floor as real)
    case Enum => v.Str? && v.s in f.options
    case Unknown => true
  }

  /** DriverField.validate; `builtin` are the names of the built-in form fields. */
  predicate FieldOk(f: Field, builtin: set<string>) {
    && f.key != "" && f.key !in builtin
    && !f.kind.Unknown? && f.tab in FORM_TABS
    && (f.kind.Enum? <==> f.options != [])
    && (f.default.Some? ==> !f.kind.Password? && ValueOk(f, f.default.value))
  }

  predicate UniqueKeys(fs: seq<Field>) {
    forall i, j | 0 <= i < j < |fs| :: fs[i].key != fs[j].key
  }

  predicate Validated(fs: seq<Field>, builtin: set<string>) {
    (forall i | 0 <= i < |fs| :: FieldOk(fs[i], builtin)) && UniqueKeys(fs)
  }

  method ValidateFields(fs: seq<Field>, builtin: set<string>) returns (ok: bool)
    ensures ok <==> Validated(fs, builtin)
  {
    var seen: set<string> := {};
    for i := 0 to |fs|
      invariant Validated(fs[..i], builtin)
      invariant seen == set k | 0 <= k < i :: fs[k].key
    {
      if !FieldOk(fs[i], builtin) || fs[i].key in seen {
        return false;
      }
      seen := seen + {fs[i].key};
    }
    assert fs[..|fs|] == fs;
    return true;
  }

  /** The first field with the key. */
  function FieldFor(fs: seq<Field>, key: string): (f: Option<Field>)
    ensures f.Some? ==> f.value in fs && f.value.key == key
    ensures f.None? ==> forall g | g in fs :: g.key != key
  {
    if fs == [] then None else if fs[0].key == key then Some(fs[0]) else FieldFor(fs[1..], key)
  }

  lemma {:induction false} FieldForUnique(fs: seq<Field>, i: nat)
    requires UniqueKeys(fs) && i < |fs|
    ensures FieldFor(fs, fs[i].key) == Some(fs[i])
  {
    if i > 0 {
      FieldForUnique(fs[1..], i - 1);
    }
  }

  // ---- checking ----

  /** What is wrong with one given option, if anything. */
  function Fault(fs: seq<Field>, key: string, v: Value): Option<Error> {
    match FieldFor(fs, key)
    case None => Some(UnknownOption(key))
    case Some(f) => if ValueOk(f, v) then None else Some(BadValue(key))
  }

  function Faults(fs: seq<Field>, opts: Options): (r: set<string>)
    ensures r <= opts.Keys
  {
    set k | k in opts && Fault(fs, k, opts[k]).Some?
  }

  /** The order of keys: by code point, as strings compare. */
  predicate AtMost(s: string, t: string) {
    s == [] || (t != [] && (s[0] < t[0] || (s[0] == t[0] && AtMost(s[1..], t[1..]))))
  }

  lemma {:induction false} TotalOrder(s: string, t: string)
    ensures AtMost(s, t) || AtMost(t, s)
    ensures AtMost(s, t) && AtMost(t, s) ==> s == t
  {
    if s != [] && t != [] {
      TotalOrder(s[1..], t[1..]);
      assert s == [s[0]] + s[1..] && t == [t[0]] + t[1..];
    }
  }

  lemma {:induction false} Transitive(s: string, t: string, u: string)
    ensures AtMost(s, t) && AtMost(t, u) ==> AtMost(s, u)
  {
    if s != [] && t != [] && u != [] {
      Transitive(s[1..], t[1..], u[1..]);
    }
  }

  predicate IsLeast(k: string, ks: set<string>) {
    k in ks && forall x | x in ks :: AtMost(k, x)
  }

  lemma {:induction false} LeastExists(ks: set<string>)
    requires ks != {}
    ensures exists k :: IsLeast(k, ks)
    decreases |ks|
  {
    var k :| k in ks;
    TotalOrder(k, k);
    if ks == {k} {
      assert IsLeast(k, ks);
    } else {
      LeastExists(ks - {k});
      var l :| IsLeast(l, ks - {k});
      TotalOrder(k, l);
      forall x | x in ks ensures AtMost(k, l) ==> AtMost(k, x) {
        Transitive(k, l, x);
      }
      assert IsLeast(k, ks) || IsLeast(l, ks);
    }
  }

  lemma LeastIsOne(ks: set<string>, k: string, l: string)
    requires IsLeast(k, ks) && IsLeast(l, ks)
    ensures k == l
  {
    TotalOrder(k, l);
  }

  /** CheckDriverOptions: the fault of the least faulty key. */
  ghost function CheckOptions(fs: seq<Field>, opts: Options): Option<Error> {
    var bad := Faults(fs, opts);
    if bad == {} then None
    else
      LeastExists(bad);
      var k :| IsLeast(k, bad);
      Fault(fs, k, opts[k])
  }

  method CheckDriverOptions(fs: seq<Field>, opts: Options) returns (r: Option<Error>)
    ensures r == CheckOptions(fs, opts)
  {
    var todo := opts.Keys;
    while todo != {}
      invariant todo <= opts.Keys && Faults(fs, opts) <= todo
      decreases |todo|
    {
      LeastExists(todo);
      var key :| IsLeast(key, todo);
      var fault := Fault(fs, key, opts[key]);
      if fault.Some? {
        assert IsLeast(key, Faults(fs, opts));
        forall l | IsLeast(l, Faults(fs, opts)) ensures l == key {
          LeastIsOne(Faults(fs, opts), key, l);
        }
        return fault;
      }
      todo := todo - {key};
    }
    return None;
  }

  // ---- completing ----

  /** A value counts as given unless it is the empty string. */
  predicate Given(f: Field, opts: Options) {
    f.key in opts && opts[f.key] != Str("")
  }

  predicate Lacks(f: Field, opts: Options) {
    !Given(f, opts) && f.default.None? && f.required
  }

  function Fill(f: Field, opts: Options): Options {
    if !Given(f, opts) && f.default.Some? then opts[f.key := f.default.value] else opts
  }

  /** CompleteDriverOptions, field by field. */
  function Complete(fs: seq<Field>, opts: Options): Outcome {
    if fs == [] then Ok(opts)
    else
      var before := Complete(fs[..|fs| - 1], opts);
      var f := fs[|fs| - 1];
      if before.Err? then before
      else if Lacks(f, before.options) then Err(Missing(f.key))
      else Ok(Fill(f, before.options))
  }

  method CompleteDriverOptions(fs: seq<Field>, opts: Options) returns (r: Outcome)
    ensures r == Complete(fs, opts)
  {
    var out := opts;
    for i := 0 to |fs|
      invariant Complete(fs[..i], opts) == Ok(out)
    {
      var f := fs[i];
      assert fs[..i + 1][..i] == fs[..i];
      var present := f.key in out;
      if present && out[f.key] == Str("") {
        present := false;
      }
      if !present && f.default.Some? {
        out := out[f.key := f.default.value];
        present := true;
      }
      if !present && f.required {
        CompleteStopsEarly(fs, opts, i + 1);
        return Err(Missing(f.key));
      }
    }
    assert fs[..|fs|] == fs;
    return Ok(out);
  }

  lemma {:induction false} CompleteStopsEarly(fs: seq<Field>, opts: Options, i: nat)
    requires i <= |fs| && Complete(fs[..i], opts).Err?
    ensures Complete(fs, opts) == Complete(fs[..i], opts)
  {
    assert fs[..|fs|] == fs;
    if i < |fs| {
      var init := fs[..|fs| - 1];
      assert init[..i] == fs[..i];
      CompleteStopsEarly(init, opts, i);
    }
  }

  // ---- encrypting and merging ----

  predicate Secret(f: Field, opts: Options) {
    f.kind.Password? && f.key in opts && opts[f.key].Str?
  }

  /** The option is a secret the credential service cannot encrypt. */
  predicate Unencryptable(f: Field, opts: Options, enc: string -> Option<string>) {
    Secret(f, opts) && opts[f.key].s != "" && enc(opts[f.key].s).None?
  }

  function EncryptField(f: Field, opts: Options, enc: string -> Option<string>): Outcome {
    if !Secret(f, opts) then Ok(opts)
    else if opts[f.key].s == "" then Ok(opts - {f.key})
    else
      match enc(opts[f.key].s)
      case None => Err(NotEncrypted(f.key))
      case Some(c) => Ok(opts[f.key := Str(c)])
  }

  /** encryptDriverOptions; `enc` is the credential service's encryption. */
  function Encrypt(fs: seq<Field>, opts: Options, enc: string -> Option<string>): Outcome {
    if fs == [] then Ok(opts)
    else
      var before := Encrypt(fs[..|fs| - 1], opts, enc);
      if before.Err? then before else EncryptField(fs[|fs| - 1], before.options, enc)
  }

  lemma {:induction false} EncryptionStopsEarly(fs: seq<Field>, opts: Options, enc: string -> Option<string>, i: nat)
    requires i <= |fs| && Encrypt(fs[..i], opts, enc).Err?
    ensures Encrypt(fs, opts, enc) == Encrypt(fs[..i], opts, enc)
  {
    assert fs[..|fs|] == fs;
    if i < |fs| {
      var init := fs[..|fs| - 1];
      assert init[..i] == fs[..i];
      EncryptionStopsEarly(init, opts, enc, i);
    }
  }

  method EncryptDriverOptions(fs: seq<Field>, opts: Options, enc: string -> Option<string>) returns (r: Outcome)
    ensures r == Encrypt(fs, opts, enc)
  {
    var out := opts;
    for i := 0 to |fs|
      invariant Encrypt(fs[..i], opts, enc) == Ok(out)
    {
      assert fs[..i + 1][..i] == fs[..i];
      var f := fs[i];
      if !f.kind.Password? || f.key !in out || !out[f.key].Str? {
        continue;
      }
      if out[f.key].s == "" {
        out := out - {f.key};
        continue;
      }
      var encrypted := enc(out[f.key].s);
      if encrypted.None? {
        EncryptionStopsEarly(fs, opts, enc, i + 1);
        return Err(NotEncrypted(f.key));
      }
      out := out[f.key := Str(encrypted.value)];
    }
    assert fs[..|fs|] == fs;
    return Ok(out);
  }

  /** mergeDriverOptions. */
  ghost function Merge(fs: seq<Field>, stored: Options, updates: Options, enc: string -> Option<string>): Outcome {
    match CheckOptions(fs, updates)
    case Some(e) => Err(e)
    case None =>
      var encrypted := Encrypt(fs, updates, enc);
      if encrypted.Err? then encrypted else Complete(fs, stored + encrypted.options)
  }

  method MergeDriverOptions(fs: seq<Field>, stored: Options, updates: Options, enc: string -> Option<string>)
    returns (r: Outcome)
    ensures r == Merge(fs, stored, updates, enc)
  {
    var fault := CheckDriverOptions(fs, updates);
    if fault.Some? {
      return Err(fault.value);
    }
    var encrypted := EncryptDriverOptions(fs, updates, enc);
    if encrypted.Err? {
      return encrypted;
    }
    r := CompleteDriverOptions(fs, stored + encrypted.options);
  }

  // ---- what completion and encryption do to each key ----

  function CompletedAt(fs: seq<Field>, opts: Options, key: string): Option<Value> {
    var was := if key in opts then Some(opts[key]) else None;
    match FieldFor(fs, key)
    case None => was
    case Some(f) => if !Given(f, opts) && f.default.Some? then f.default else was
  }

  function At(opts: Options, key: string): Option<Value> {
    if key in opts then Some(opts[key]) else None
  }

  lemma {:induction false} FieldForLast(fs: seq<Field>, f: Field, k: string)
    ensures FieldFor(fs + [f], k) ==
            if FieldFor(fs, k).Some? then FieldFor(fs, k) else if k == f.key then Some(f) else None
  {
    if fs != [] {
      FieldForLast(fs[1..], f, k);
      assert (fs + [f])[1..] == fs[1..] + [f];
    }
  }

  lemma LastIsNew(fs: seq<Field>)
    requires UniqueKeys(fs) && fs != []
    ensures fs == fs[..|fs| - 1] + [fs[|fs| - 1]] && UniqueKeys(fs[..|fs| - 1])
    ensures FieldFor(fs[..|fs| - 1], fs[|fs| - 1].key) == None
  {
  }

  lemma {:induction false} CompletesAt(fs: seq<Field>, opts: Options, k: string)
    requires UniqueKeys(fs) && Complete(fs, opts).Ok?
    ensures At(Complete(fs, opts).options, k) == CompletedAt(fs, opts, k)
  {
    if fs != [] {
      var init, f := fs[..|fs| - 1], fs[|fs| - 1];
      LastIsNew(fs);
      FieldForLast(init, f, k);
      CompletesAt(init, opts, k);
      CompletesAt(init, opts, f.key);
      assert At(Complete(init, opts).options, f.key) == At(opts, f.key);
    }
  }

  lemma {:induction false} CompletesWhenNothingLacks(fs: seq<Field>, opts: Options)
    requires UniqueKeys(fs)
    ensures Complete(fs, opts).Ok? <==> forall f | f in fs :: !Lacks(f, opts)
  {
    if fs != [] {
      var init, f := fs[..|fs| - 1], fs[|fs| - 1];
      LastIsNew(fs);
      CompletesWhenNothingLacks(init, opts);
      assert forall x :: x in fs <==> x in init || x == f;
      if Complete(init, opts).Ok? {
        CompletesAt(init, opts, f.key);
        assert At(Complete(init, opts).options, f.key) == At(opts, f.key);
      }
    }
  }

  /** Two maps that lack the same fields fail on the same one. */
  lemma {:induction false} SameFirstMissing(fs: seq<Field>, u: Options, v: Options)
    requires UniqueKeys(fs) && forall f | f in fs :: Lacks(f, u) == Lacks(f, v)
    ensures Complete(fs, u).Err? == Complete(fs, v).Err?
    ensures Complete(fs, u).Err? ==> Complete(fs, u) == Complete(fs, v)
  {
    CompletesWhenNothingLacks(fs, u);
    CompletesWhenNothingLacks(fs, v);
    if fs != [] {
      var init, f := fs[..|fs| - 1], fs[|fs| - 1];
      LastIsNew(fs);
      SameFirstMissing(init, u, v);
    }
  }

  /** The stored form of one given option: encrypted if it is a secret, dropped if it is an empty one. */
  function EncryptedAt(fs: seq<Field>, opts: Options, enc: string -> Option<string>, k: string): Option<Value> {
    if k !in opts then None
    else
      match FieldFor(fs, k)
      case None => Some(opts[k])
      case Some(f) =>
        if !Secret(f, opts) then Some(opts[k])
        else if opts[k].s == "" || enc(opts[k].s).None? then None
        else Some(Str(enc(opts[k].s).value))
  }

  lemma {:induction false} EncryptsAt(fs: seq<Field>, opts: Options, enc: string -> Option<string>, k: string)
    requires UniqueKeys(fs) && Encrypt(fs, opts, enc).Ok?
    ensures At(Encrypt(fs, opts, enc).options, k) == EncryptedAt(fs, opts, enc, k)
  {
    if fs != [] {
      var init, f := fs[..|fs| - 1], fs[|fs| - 1];
      LastIsNew(fs);
      FieldForLast(init, f, k);
      EncryptsAt(init, opts, enc, k);
      EncryptsAt(init, opts, enc, f.key);
      assert At(Encrypt(init, opts, enc).options, f.key) == At(opts, f.key);
    }
  }

  lemma {:induction false} EncryptsWhenAllCanBe(fs: seq<Field>, opts: Options, enc: string -> Option<string>)
    requires UniqueKeys(fs)
    ensures Encrypt(fs, opts, enc).Ok? <==> forall f | f in fs :: !Unencryptable(f, opts, enc)
  {
    if fs != [] {
      var init, f := fs[..|fs| - 1], fs[|fs| - 1];
      LastIsNew(fs);
      EncryptsWhenAllCanBe(init, opts, enc);
      assert forall x :: x in fs <==> x in init || x == f;
      if Encrypt(init, opts, enc).Ok? {
        EncryptsAt(init, opts, enc, f.key);
        assert At(Encrypt(init, opts, enc).options, f.key) == At(opts, f.key);
      }
    }
  }

  /** Two updates with the same secrets that cannot be encrypted fail on the same one. */
  lemma {:induction false} SameFirstFailure(fs: seq<Field>, u: Options, v: Options, enc: string -> Option<string>)
    requires UniqueKeys(fs) && forall f | f in fs :: Unencryptable(f, u, enc) == Unencryptable(f, v, enc)
    ensures Encrypt(fs, u, enc).Err? == Encrypt(fs, v, enc).Err?
    ensures Encrypt(fs, u, enc).Err? ==> Encrypt(fs, u, enc) == Encrypt(fs, v, enc)
  {
    EncryptsWhenAllCanBe(fs, u, enc);
    EncryptsWhenAllCanBe(fs, v, enc);
    if fs != [] {
      var init, f := fs[..|fs| - 1], fs[|fs| - 1];
      LastIsNew(fs);
      SameFirstFailure(init, u, v, enc);
    }
  }

  lemma SameEverywhere(u: Options, v: Options)
    requires forall k :: At(u, k) == At(v, k)
    ensures u == v
  {
    assert forall k :: k in u <==> At(u, k).Some?;
    assert forall k :: k in v <==> At(v, k).Some?;
    assert forall k | k in u :: At(u, k) == Some(u[k]) && At(v, k) == Some(v[k]);
  }

  // ---- updates compose ----

  /** The update without its empty secrets, which mean "leave as it is". */
  function DropEmptySecrets(fs: seq<Field>, opts: Options): Options {
    map k | k in opts && !EmptySecretAt(fs, k, opts[k]) :: opts[k]
  }

  predicate EmptySecretAt(fs: seq<Field>, k: string, v: Value) {
    v == Str("") && FieldFor(fs, k).Some? && FieldFor(fs, k).value.kind.Password?
  }

  lemma SameCheck(fs: seq<Field>, first: Options, second: Options)
    requires CheckOptions(fs, first) == None
    ensures CheckOptions(fs, first + DropEmptySecrets(fs, second)) == CheckOptions(fs, second)
  {
    var both := first + DropEmptySecrets(fs, second);
    assert Faults(fs, first) == {};
    assert forall k | k in first :: k !in Faults(fs, first);
    assert Faults(fs, both) == Faults(fs, second);
    forall k | k in Faults(fs, second) ensures both[k] == second[k] {
    }
  }

  /** Encrypting the combined update fails like encrypting the second, and otherwise gives both results. */
  lemma SameEncryption(fs: seq<Field>, first: Options, second: Options, enc: string -> Option<string>)
    requires UniqueKeys(fs) && Encrypt(fs, first, enc).Ok?
    ensures var both, e2 := Encrypt(fs, first + DropEmptySecrets(fs, second), enc), Encrypt(fs, second, enc);
            if e2.Err? then both == e2 else both == Ok(Encrypt(fs, first, enc).options + e2.options)
  {
    var both := first + DropEmptySecrets(fs, second);
    EncryptsWhenAllCanBe(fs, first, enc);
    forall f | f in fs ensures Unencryptable(f, both, enc) == Unencryptable(f, second, enc) {
      var i :| 0 <= i < |fs| && fs[i] == f;
      FieldForUnique(fs, i);
    }
    SameFirstFailure(fs, both, second, enc);
    if Encrypt(fs, second, enc).Ok? {
      SameOptions(fs, first, second, enc);
    }
  }

  lemma SameOptions(fs: seq<Field>, first: Options, second: Options, enc: string -> Option<string>)
    requires UniqueKeys(fs) && Encrypt(fs, first, enc).Ok? && Encrypt(fs, second, enc).Ok?
    requires Encrypt(fs, first + DropEmptySecrets(fs, second), enc).Ok?
    ensures Encrypt(fs, first + DropEmptySecrets(fs, second), enc).options ==
            Encrypt(fs, first, enc).options + Encrypt(fs, second, enc).options
  {
    var both := first + DropEmptySecrets(fs, second);
    var l, r := Encrypt(fs, both, enc).options, Encrypt(fs, first, enc).options + Encrypt(fs, second, enc).options;
    EncryptsWhenAllCanBe(fs, second, enc);
    forall k ensures At(l, k) == At(r, k) {
      EncryptsAt(fs, both, enc, k);
      EncryptsAt(fs, first, enc, k);
      EncryptsAt(fs, second, enc, k);
    }
    SameEverywhere(l, r);
  }

  lemma CompletionAbsorbs(fs: seq<Field>, m: Options, e: Options)
    requires UniqueKeys(fs) && Complete(fs, m).Ok?
    ensures Complete(fs, Complete(fs, m).options + e) == Complete(fs, m + e)
  {
    var c := Complete(fs, m).options;
    CompletesWhenNothingLacks(fs, m);
    forall f | f in fs ensures Lacks(f, c + e) == Lacks(f, m + e) {
      AbsorbsField(fs, m, e, f);
    }
    SameFirstMissing(fs, c + e, m + e);
    if Complete(fs, m + e).Ok? {
      forall k ensures At(Complete(fs, c + e).options, k) == At(Complete(fs, m + e).options, k) {
        CompletesAt(fs, c + e, k);
        CompletesAt(fs, m + e, k);
        CompletesAt(fs, m, k);
      }
      SameEverywhere(Complete(fs, c + e).options, Complete(fs, m + e).options);
    }
  }

  lemma AbsorbsField(fs: seq<Field>, m: Options, e: Options, f: Field)
    requires UniqueKeys(fs) && Complete(fs, m).Ok? && f in fs && !Lacks(f, m)
    ensures Lacks(f, Complete(fs, m).options + e) == Lacks(f, m + e)
  {
    var i :| 0 <= i < |fs| && fs[i] == f;
    FieldForUnique(fs, i);
    CompletesAt(fs, m, f.key);
  }

  /** When a first update succeeds, a second one on top of it gives the same options, or the same error,
      as the two merged into one update in which the second overrides the first and leaves out its empty
      secrets. */
  lemma UpdatesCompose(fs: seq<Field>, stored: Options, first: Options, second: Options, enc: string -> Option<string>)
    requires UniqueKeys(fs) && Merge(fs, stored, first, enc).Ok?
    ensures Merge(fs, Merge(fs, stored, first, enc).options, second, enc) ==
            Merge(fs, stored, first + DropEmptySecrets(fs, second), enc)
  {
    SameCheck(fs, first, second);
    SameEncryption(fs, first, second, enc);
    var e1, e2 := Encrypt(fs, first, enc), Encrypt(fs, second, enc);
    if e2.Ok? {
      assert stored + (e1.options + e2.options) == stored + e1.options + e2.options;
      CompletionAbsorbs(fs, stored + e1.options, e2.options);
    }
  }

  // ---- completion ----

  /** Every value is of its field's type and every key declared. */
  predicate Typed(fs: seq<Field>, opts: Options) {
    forall k | k in opts :: Fault(fs, k, opts[k]) == None
  }

  /** Completing changes no given value, gives every required field one, keeps types, and does nothing the
      second time. */
  lemma CompletionIsSettled(fs: seq<Field>, builtin: set<string>, opts: Options)
    requires Validated(fs, builtin) && Complete(fs, opts).Ok?
    ensures var out := Complete(fs, opts).options;
            && Complete(fs, out) == Ok(out)
            && (forall k | k in opts && opts[k] != Str("") :: k in out && out[k] == opts[k])
            && (forall f | f in fs && f.required :: f.key in out && (f.default.None? ==> out[f.key] != Str("")))
            && (Typed(fs, opts) ==> Typed(fs, out))
  {
    var out := Complete(fs, opts).options;
    CompletionAbsorbs(fs, opts, map[]);
    assert out + map[] == out && opts + map[] == opts;
    CompletesWhenNothingLacks(fs, opts);
    forall k | k in opts && opts[k] != Str("") ensures k in out && out[k] == opts[k] {
      CompletesAt(fs, opts, k);
    }
    forall f | f in fs && f.required ensures f.key in out && (f.default.None? ==> out[f.key] != Str("")) {
      RequiredIsThere(fs, opts, f);
    }
    if Typed(fs, opts) {
      forall k | k in out ensures Fault(fs, k, out[k]) == None {
        CompletesAt(fs, opts, k);
      }
    }
  }

  lemma RequiredIsThere(fs: seq<Field>, opts: Options, f: Field)
    requires UniqueKeys(fs) && Complete(fs, opts).Ok? && f in fs && f.required && !Lacks(f, opts)
    ensures var out := Complete(fs, opts).options; f.key in out && (f.default.None? ==> out[f.key] != Str(""))
  {
    var i :| 0 <= i < |fs| && fs[i] == f;
    FieldForUnique(fs, i);
    CompletesAt(fs, opts, f.key);
  }

  /** A merge into well-typed options stays well typed ... */
  lemma MergeStaysTyped(
      fs: seq<Field>, builtin: set<string>, stored: Options, updates: Options, enc: string -> Option<string>)
    requires Validated(fs, builtin) && Typed(fs, stored) && Merge(fs, stored, updates, enc).Ok?
    ensures Typed(fs, Merge(fs, stored, updates, enc).options)
  {
    assert Faults(fs, updates) == {};
    assert forall x | x in updates :: x !in Faults(fs, updates);
    var e := Encrypt(fs, updates, enc).options;
    forall x | x in e ensures Fault(fs, x, e[x]) == None {
      EncryptsAt(fs, updates, enc, x);
    }
    assert Typed(fs, stored + e);
    CompletionIsSettled(fs, builtin, stored + e);
  }

  /** ... and a secret in it is the encryption of the one given, or what was stored if none was. */
  lemma SecretsAreEncrypted(
      fs: seq<Field>, builtin: set<string>, stored: Options, updates: Options, enc: string -> Option<string>,
      f: Field)
    requires Validated(fs, builtin) && f in fs && f.kind.Password? && Merge(fs, stored, updates, enc).Ok?
    ensures var after := At(Merge(fs, stored, updates, enc).options, f.key);
            if f.key !in updates || updates[f.key] == Str("") then after == At(stored, f.key)
            else updates[f.key].Str? && enc(updates[f.key].s).Some? && after == Some(Str(enc(updates[f.key].s).value))
  {
    var i :| 0 <= i < |fs| && fs[i] == f;
    FieldForUnique(fs, i);
    assert FieldOk(fs[i], builtin);
    assert f.key !in Faults(fs, updates);
    EncryptsWhenAllCanBe(fs, updates, enc);
    EncryptsAt(fs, updates, enc, f.key);
    CompletesAt(fs, stored + Encrypt(fs, updates, enc).options, f.key);
  }
}
