/** Which credential declarations are accepted and what they inject: checkAuth and checkAuthBinding
    (internal/extreg/assettypes.go:175-241), activeGroup, fields, render and Inject
    (internal/extreg/auth.go:92-161, 282-319). */
module AuthInject {
  import opened AuthTemplate
  import opened Collections

  datatype Binding = Binding(place: string, name: string, value: string)

  datatype Group = Group(when: string, bindings: seq<Binding>)

  datatype Auth = Auth(selector: string, groups: seq<Group>)

  type Value = seq<Piece>

  /** A binding with its template rendered. */
  datatype Rendered = Rendered(place: string, name: string, value: Value)

  // ---- templates: fields and rendering ----

  function PartFields(ps: seq<Part>): seq<string> {
    if ps == [] then []
    else (if ps[0].FieldPart? then [ps[0].name] else []) + PartFields(ps[1..])
  }

  function SegmentFields(seg: Segment): seq<string> {
    match seg
    case Text(_) => []
    case Field(n) => [n]
    case Base64(ps) => PartFields(ps)
  }

  function TemplateFields(t: seq<Segment>): seq<string> {
    if t == [] then [] else SegmentFields(t[0]) + TemplateFields(t[1..])
  }

  /** The fields a binding's value refers to; an unreadable template refers to none. */
  function FieldsOf(value: string): seq<string> {
    match Parse(value)
    case Ok(t) => TemplateFields(t)
    case Err(_) => []
  }

  /** A field absent from the values renders empty. */
  function Lookup(values: map<string, Value>, f: string): Value {
    if f in values then values[f] else []
  }

  function Runes(s: string): Value {
    seq(|s|, i requires 0 <= i < |s| => Rune(s[i]))
  }

  function RenderParts(ps: seq<Part>, values: map<string, Value>): Value {
    if ps == [] then []
    else
      (match ps[0] case FieldPart(n) => Lookup(values, n) case LitPart(text) => text) + RenderParts(ps[1..], values)
  }

  /** `b64` is the base64 encoder. */
  function RenderSegment(seg: Segment, values: map<string, Value>, b64: Value -> Value): Value {
    match seg
    case Text(s) => Runes(s)
    case Field(n) => Lookup(values, n)
    case Base64(ps) => b64(RenderParts(ps, values))
  }

  function RenderTemplate(t: seq<Segment>, values: map<string, Value>, b64: Value -> Value): Value {
    if t == [] then [] else RenderSegment(t[0], values, b64) + RenderTemplate(t[1..], values, b64)
  }

  function RenderBinding(b: Binding, values: map<string, Value>, b64: Value -> Value): Rendered {
    var t := Parse(b.value);
    Rendered(b.place, b.name, if t.Ok? then RenderTemplate(t.value, values, b64) else [])
  }

  function RenderAll(bs: seq<Binding>, values: map<string, Value>, b64: Value -> Value): seq<Rendered> {
    if bs == [] then [] else [RenderBinding(bs[0], values, b64)] + RenderAll(bs[1..], values, b64)
  }

  /** The two maps say the same about every field in fs. */
  ghost predicate Agree(u: map<string, Value>, v: map<string, Value>, fs: seq<string>) {
    forall f | f in fs :: Lookup(u, f) == Lookup(v, f)
  }

  lemma {:induction false} PartsNeedTheirFields(ps: seq<Part>, u: map<string, Value>, v: map<string, Value>)
    requires Agree(u, v, PartFields(ps))
    ensures RenderParts(ps, u) == RenderParts(ps, v)
  {
    if ps != [] {
      PartsNeedTheirFields(ps[1..], u, v);
      assert ps[0].FieldPart? ==> ps[0].name in PartFields(ps);
    }
  }

  lemma {:induction false} TemplateNeedsItsFields(
      t: seq<Segment>, u: map<string, Value>, v: map<string, Value>, b64: Value -> Value)
    requires Agree(u, v, TemplateFields(t))
    ensures RenderTemplate(t, u, b64) == RenderTemplate(t, v, b64)
  {
    if t != [] {
      assert Agree(u, v, SegmentFields(t[0]));
      match t[0] {
        case Text(_) =>
        case Field(n) => assert n in SegmentFields(t[0]);
        case Base64(ps) => PartsNeedTheirFields(ps, u, v);
      }
      TemplateNeedsItsFields(t[1..], u, v, b64);
    }
  }

  function BindingFields(bs: seq<Binding>): seq<string> {
    if bs == [] then [] else BindingFields(bs[..|bs| - 1]) + FieldsOf(bs[|bs| - 1].value)
  }

  lemma {:induction false} FieldsOfEach(bs: seq<Binding>)
    ensures forall b, f | b in bs && f in FieldsOf(b.value) :: f in BindingFields(bs)
    ensures forall f | f in BindingFields(bs) :: exists b :: b in bs && f in FieldsOf(b.value)
  {
    if bs != [] {
      var init, last := bs[..|bs| - 1], bs[|bs| - 1];
      FieldsOfEach(init);
      assert bs == init + [last];
      forall f | f in BindingFields(bs) ensures exists b :: b in bs && f in FieldsOf(b.value) {
        if f in FieldsOf(last.value) {
          assert last in bs;
        } else {
          assert f in BindingFields(init);
          var b :| b in init && f in FieldsOf(b.value);
          assert b in bs;
        }
      }
    }
  }

  /** A binding list reads nothing but its own fields. */
  lemma {:induction false} BindingsNeedTheirFields(
      bs: seq<Binding>, u: map<string, Value>, v: map<string, Value>, b64: Value -> Value)
    requires forall b | b in bs :: Agree(u, v, FieldsOf(b.value))
    ensures RenderAll(bs, u, b64) == RenderAll(bs, v, b64)
  {
    if bs != [] {
      var t := Parse(bs[0].value);
      if t.Ok? {
        assert Agree(u, v, FieldsOf(bs[0].value));
        TemplateNeedsItsFields(t.value, u, v, b64);
      }
      BindingsNeedTheirFields(bs[1..], u, v, b64);
    }
  }

  // ---- the group's fields, each once ----

  /** fs without repetitions, in order of first occurrence. */
  function FirstOnly(fs: seq<string>): (r: seq<string>)
    ensures forall f :: f in r <==> f in fs
  {
    if fs == [] then []
    else
      var init, last := fs[..|fs| - 1], fs[|fs| - 1];
      assert fs == init + [last];
      FirstOnly(init) + if last in init then [] else [last]
  }

  lemma {:induction false} FirstOnlyIsOnce(fs: seq<string>, i: nat, j: nat)
    requires i < j < |FirstOnly(fs)|
    ensures FirstOnly(fs)[i] != FirstOnly(fs)[j]
  {
    var init, last := fs[..|fs| - 1], fs[|fs| - 1];
    if j < |FirstOnly(init)| {
      FirstOnlyIsOnce(init, i, j);
    }
  }

  function AddOne(out: seq<string>, f: string): seq<string> {
    if f in out then out else out + [f]
  }

  function AddEach(out: seq<string>, fs: seq<string>): seq<string>
    decreases |fs|
  {
    if fs == [] then out else AddEach(AddOne(out, fs[0]), fs[1..])
  }

  lemma OneMore(fs: seq<string>, f: string)
    ensures FirstOnly(fs + [f]) == AddOne(FirstOnly(fs), f)
  {
    assert (fs + [f])[..|fs|] == fs;
  }

  lemma {:induction false} EachMore(all: seq<string>, fs: seq<string>)
    ensures AddEach(FirstOnly(all), fs) == FirstOnly(all + fs)
    decreases |fs|
  {
    if fs == [] {
      assert all + fs == all;
    } else {
      var more := all + [fs[0]];
      assert more + fs[1..] == all + fs;
      OneMore(all, fs[0]);
      EachMore(more, fs[1..]);
    }
  }

  method AddNew(out: seq<string>, seen: set<string>, fs: seq<string>)
    returns (out': seq<string>, seen': set<string>)
    requires seen == Elems(out)
    ensures out' == AddEach(out, fs) && seen' == Elems(out')
  {
    out', seen' := out, seen;
    for k := 0 to |fs|
      invariant AddEach(out', fs[k..]) == AddEach(out, fs) && seen' == Elems(out')
    {
      assert fs[k..][1..] == fs[k + 1..];
      if fs[k] !in seen' {
        seen' := seen' + {fs[k]};
        out' := out' + [fs[k]];
      }
    }
  }

  /** AuthGroup.fields. */
  method GroupFields(g: Group) returns (out: seq<string>)
    ensures out == FirstOnly(BindingFields(g.bindings))
  {
    out := [];
    var seen: set<string> := {};
    for i := 0 to |g.bindings|
      invariant out == FirstOnly(BindingFields(g.bindings[..i])) && seen == Elems(out)
    {
      assert g.bindings[..i + 1][..i] == g.bindings[..i];
      EachMore(BindingFields(g.bindings[..i]), FieldsOf(g.bindings[i].value));
      out, seen := AddNew(out, seen, FieldsOf(g.bindings[i].value));
    }
    assert g.bindings[..|g.bindings|] == g.bindings;
  }

  // ---- what is accepted ----

  predicate IsTokenChar(c: char) {
    || '0' <= c <= '9' || 'A' <= c <= 'Z' || 'a' <= c <= 'z'
    || c in {'!', '#', '$', '%', '&', '\'', '*', '+', '-', '.', '^', '_', '`', '|', '~'}
  }

  /** A token of section 3.2.6 of RFC 7230. */
  predicate IsToken(s: string) {
    s != [] && forall c | c in s :: IsTokenChar(c)
  }

  predicate PlaceOk(b: Binding) {
    || (b.place == "header" && IsToken(b.name))
    || (b.place == "query" && b.name != "")
    || (b.place == "basic" && b.name == "")
  }

  predicate BindingOk(b: Binding, fields: set<string>) {
    PlaceOk(b) && Parse(b.value).Ok? && forall f | f in FieldsOf(b.value) :: f in fields
  }

  predicate GroupOk(g: Group, fields: set<string>) {
    g.bindings != [] && forall b | b in g.bindings :: BindingOk(b, fields)
  }

  predicate SelectorOk(a: Auth, fields: set<string>, secrets: set<string>) {
    if a.selector == "" then |a.groups| == 1 && a.groups[0].when == ""
    else a.selector in fields && a.selector !in secrets
  }

  predicate WhensOk(gs: seq<Group>) {
    && (forall i | 0 <= i < |gs| :: gs[i].when != "")
    && (forall i, j | 0 <= i < j < |gs| :: gs[i].when != gs[j].when)
  }

  predicate Accepted(a: Auth, fields: set<string>, secrets: set<string>) {
    && a.groups != []
    && SelectorOk(a, fields, secrets)
    && (a.selector != "" ==> WhensOk(a.groups))
    && forall g | g in a.groups :: GroupOk(g, fields)
  }

  method CheckBinding(b: Binding, fields: set<string>) returns (ok: bool)
    ensures ok == BindingOk(b, fields)
  {
    if b.place == "header" {
      if !IsToken(b.name) { return false; }
    } else if b.place == "query" {
      if b.name == "" { return false; }
    } else if b.place == "basic" {
      if b.name != "" { return false; }
    } else {
      return false;
    }
    var t := Parse(b.value);
    if t.Err? {
      return false;
    }
    var refs := TemplateFields(t.value);
    for i := 0 to |refs|
      invariant forall k | 0 <= k < i :: refs[k] in fields
    {
      if refs[i] !in fields {
        return false;
      }
    }
    return true;
  }

  method CheckGroup(g: Group, fields: set<string>) returns (ok: bool)
    ensures ok == GroupOk(g, fields)
  {
    if g.bindings == [] {
      return false;
    }
    for j := 0 to |g.bindings|
      invariant forall k | 0 <= k < j :: BindingOk(g.bindings[k], fields)
    {
      var fine := CheckBinding(g.bindings[j], fields);
      if !fine {
        assert g.bindings[j] in g.bindings;
        return false;
      }
    }
    return true;
  }

  method CheckAuth(a: Auth, fields: set<string>, secrets: set<string>) returns (ok: bool)
    ensures ok == Accepted(a, fields, secrets)
  {
    if a.groups == [] {
      return false;
    }
    if a.selector == "" {
      if |a.groups| > 1 || a.groups[0].when != "" {
        return false;
      }
    } else if a.selector !in fields || a.selector in secrets {
      return false;
    }
    var seen: set<string> := {};
    for i := 0 to |a.groups|
      invariant a.selector != "" ==> WhensOk(a.groups[..i]) && seen == set k | 0 <= k < i :: a.groups[k].when
      invariant forall k | 0 <= k < i :: GroupOk(a.groups[k], fields)
    {
      var g := a.groups[i];
      if a.selector != "" {
        if g.when == "" || g.when in seen {
          return false;
        }
        seen := seen + {g.when};
      }
      var fine := CheckGroup(g, fields);
      if !fine {
        assert g in a.groups;
        return false;
      }
    }
    assert a.groups[..|a.groups|] == a.groups;
    return true;
  }

  // ---- selection and injection ----

  predicate Selects(a: Auth, selected: Value, i: int) {
    0 <= i < |a.groups| && (a.selector == "" || Runes(a.groups[i].when) == selected)
  }

  /** i is the first group selected, or |groups| when none is. */
  predicate First(a: Auth, selected: Value, i: nat) {
    && i <= |a.groups| && (i < |a.groups| ==> Selects(a, selected, i))
    && forall k | 0 <= k < i :: !Selects(a, selected, k)
  }

  ghost predicate OnlyFirst(a: Auth, selected: Value, i: nat) {
    First(a, selected, i) && forall j: nat | First(a, selected, j) :: j == i
  }

  lemma OneFirst(a: Auth, selected: Value, i: nat)
    requires First(a, selected, i)
    ensures OnlyFirst(a, selected, i)
  {
    forall j: nat | First(a, selected, j) ensures j == i {
      assert i < j ==> Selects(a, selected, i);
      assert j < i ==> Selects(a, selected, j);
    }
  }

  /** activeGroup: the index of the group, |groups| when none is selected. */
  method ActiveGroup(a: Auth, selected: Value) returns (i: nat)
    requires a.selector == "" ==> a.groups != []
    ensures First(a, selected, i)
  {
    if a.selector == "" {
      return 0;
    }
    for k := 0 to |a.groups|
      invariant forall h | 0 <= h < k :: !Selects(a, selected, h)
    {
      if Runes(a.groups[k].when) == selected {
        return k;
      }
    }
    return |a.groups|;
  }

  lemma RunesDiffer(s: string, t: string)
    requires s != t
    ensures Runes(s) != Runes(t)
  {
    if |s| == |t| {
      var i :| 0 <= i < |s| && s[i] != t[i];
      assert Runes(s)[i] != Runes(t)[i];
    }
  }

  /** No value of the selector ever picks two groups. */
  lemma AtMostOneGroup(a: Auth, fields: set<string>, secrets: set<string>, selected: Value, i: int, j: int)
    requires Accepted(a, fields, secrets) && Selects(a, selected, i) && Selects(a, selected, j)
    ensures i == j
  {
    if a.selector != "" && i < j {
      RunesDiffer(a.groups[i].when, a.groups[j].when);
    } else if a.selector != "" && j < i {
      RunesDiffer(a.groups[j].when, a.groups[i].when);
    }
  }

  datatype Reading = Values(values: map<string, Value>) | Failed

  /** CredentialValues: the named fields of the configuration in plain text; it fails when one of them
      cannot be read, and omits a field the configuration lacks. */
  function Read(config: map<string, Value>, unreadable: set<string>, fs: seq<string>): Reading {
    if exists f | f in fs :: f in unreadable then Failed
    else Values(map f | f in fs && f in config :: config[f])
  }

  datatype Injection = NoCredentials | Credentials(bindings: seq<Rendered>) | Refused

  /** What a group injects, rendered from the whole configuration. */
  function Whole(g: Group, config: map<string, Value>, unreadable: set<string>, b64: Value -> Value): Injection {
    if exists f | f in BindingFields(g.bindings) :: f in unreadable then Refused
    else Credentials(RenderAll(g.bindings, config, b64))
  }

  lemma OwnFieldsAreEnough(g: Group, config: map<string, Value>, unreadable: set<string>, b64: Value -> Value)
    ensures var v := Read(config, unreadable, FirstOnly(BindingFields(g.bindings)));
            Whole(g, config, unreadable, b64) ==
            if v.Failed? then Refused else Credentials(RenderAll(g.bindings, v.values, b64))
  {
    var v := Read(config, unreadable, FirstOnly(BindingFields(g.bindings)));
    if v.Values? {
      FieldsOfEach(g.bindings);
      forall b | b in g.bindings ensures Agree(config, v.values, FieldsOf(b.value)) {
        assert forall f | f in FieldsOf(b.value) :: f in BindingFields(g.bindings);
      }
      BindingsNeedTheirFields(g.bindings, config, v.values, b64);
    }
  }

  lemma SelectsAlike(a: Auth, u: Value, v: Value)
    requires a.selector == "" || u == v
    ensures forall i: nat :: First(a, u, i) == First(a, v, i)
  {
    assert forall k :: Selects(a, u, k) == Selects(a, v, k);
  }

  lemma ReadOne(config: map<string, Value>, unreadable: set<string>, f: string)
    ensures var v := Read(config, unreadable, [f]);
            v.Failed? == (f in unreadable) && (v.Values? ==> Lookup(v.values, f) == Lookup(config, f))
  {
    assert f in [f];
  }

  method InjectGroup(g: Group, config: map<string, Value>, unreadable: set<string>, b64: Value -> Value)
    returns (r: Injection)
    ensures r == Whole(g, config, unreadable, b64)
  {
    OwnFieldsAreEnough(g, config, unreadable, b64);
    var fs := GroupFields(g);
    var v := Read(config, unreadable, fs);
    if v.Failed? {
      return Refused;
    }
    return Credentials(RenderAll(g.bindings, v.values, b64));
  }

  /** What injecting group i gives, |groups| standing for none. */
  function FromGroup(
      a: Auth, i: nat, config: map<string, Value>, unreadable: set<string>, b64: Value -> Value): Injection
    requires i <= |a.groups|
  {
    if i == |a.groups| then NoCredentials else Whole(a.groups[i], config, unreadable, b64)
  }

  /** Inject: the selector is read first, then only the fields of the group it picks. */
  method Inject(a: Auth, config: map<string, Value>, unreadable: set<string>, b64: Value -> Value)
    returns (r: Injection)
    requires a.selector == "" ==> a.groups != []
    ensures a.selector != "" && a.selector in unreadable ==> r == Refused
    ensures a.selector == "" || a.selector !in unreadable ==>
              exists i: nat :: OnlyFirst(a, Lookup(config, a.selector), i)
                               && r == FromGroup(a, i, config, unreadable, b64)
  {
    var selected: Value := [];
    if a.selector != "" {
      ReadOne(config, unreadable, a.selector);
      var chosen := Read(config, unreadable, [a.selector]);
      if chosen.Failed? {
        return Refused;
      }
      selected := Lookup(chosen.values, a.selector);
    }
    SelectsAlike(a, selected, Lookup(config, a.selector));
    var i := ActiveGroup(a, selected);
    OneFirst(a, Lookup(config, a.selector), i);
    if i == |a.groups| {
      return NoCredentials;
    }
    r := InjectGroup(a.groups[i], config, unreadable, b64);
  }

  /** An accepted declaration reads only declared fields, never selects by a secret, and renders every
      template it carries. */
  lemma AcceptedReadsDeclared(a: Auth, fields: set<string>, secrets: set<string>)
    requires Accepted(a, fields, secrets)
    ensures a.selector != "" ==> a.selector in fields - secrets
    ensures forall g, f | g in a.groups && f in BindingFields(g.bindings) :: f in fields
    ensures forall g, b | g in a.groups && b in g.bindings :: Parse(b.value).Ok?
  {
    forall g, f | g in a.groups && f in BindingFields(g.bindings) ensures f in fields {
      FieldsOfEach(g.bindings);
      var b :| b in g.bindings && f in FieldsOf(b.value);
      assert BindingOk(b, fields);
    }
    forall g, b | g in a.groups && b in g.bindings ensures Parse(b.value).Ok? {
      assert GroupOk(g, fields) && BindingOk(b, fields);
    }
  }
}
