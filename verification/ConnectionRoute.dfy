/** How an extension asset is reached, over any sequence of updates: the arguments ssh_asset_id and
    proxy_chain (internal/assettype/connection_args.go:85-107, 129-186, 273-303) as the extension handler
    stores them (internal/assettype/extension.go:222-275). */
module ConnectionRoute {
  import opened Collections
  import opened Whitespace

  // ---- arguments ----

  /** A numeric argument as decoded: an integer, a float, or something that is no number. */
  datatype Numeric = Whole(n: int) | Float(r: real) | NotANumber

  /** ArgInt64 of a given argument: floats are cut toward zero, anything else counts as 0. */
  function AsInt(a: Numeric): int {
    match a
    case Whole(n) => n
    case Float(r) => if r >= 0.0 then r.Floor else -((-r).Floor)
    case NotANumber => 0
  }

  /** One item of proxy_chain. `known` says that its type accepts every field it names. */
  datatype LayerArg =
    | NotAnObject
    | LayerArg(kind: string, known: bool, name: string, ssh: Numeric, host: string, port: Numeric,
               username: string, password: string, url: string, token: string, timeout: Numeric)

  datatype ChainArg = NotAList | Items(items: seq<LayerArg>)

  datatype Request = Request(ssh: Option<Numeric>, chain: Option<ChainArg>)

  // ---- chains ----

  datatype Layer = Layer(order: nat, name: string, kind: string, ssh: int, host: string, port: int,
                         username: string, password: string, url: string, token: string, timeout: int)

  type Chain = seq<Layer>

  const LAYER_NAMES: map<string, string> :=
    map["ssh" := "SSH Layer", "socks5" := "SOCKS5 Proxy", "http_tunnel" := "HTTP Tunnel"]

  const DEFAULT_TIMEOUT := 10

  function ParseLayer(i: nat, a: LayerArg): Option<Layer> {
    if a.NotAnObject? || a.kind !in LAYER_NAMES || !a.known then None
    else
      Some(Layer(i + 1, if a.name == "" then LAYER_NAMES[a.kind] else a.name, a.kind, AsInt(a.ssh),
                 Trim(a.host), AsInt(a.port), a.username, a.password, Trim(a.url), a.token,
                 if a.kind != "http_tunnel" then 0
                 else if AsInt(a.timeout) <= 0 then DEFAULT_TIMEOUT
                 else AsInt(a.timeout)))
  }

  function ParseLayers(items: seq<LayerArg>): (r: Option<Chain>)
    ensures r.Some? ==> |r.value| == |items|
  {
    if items == [] then Some([])
    else
      var init, last := ParseLayers(items[..|items| - 1]), ParseLayer(|items| - 1, items[|items| - 1]);
      if init.None? || last.None? then None else Some(init.value + [last.value])
  }

  datatype Parsed = NotSupplied | Cleared | Given(chain: Chain) | Bad

  /** proxyChainArg; `valid` is ValidateProxyChain. */
  function ParseChain(arg: Option<ChainArg>, valid: Chain -> bool): (p: Parsed)
    ensures p.Given? ==> p.chain != []
  {
    if arg.None? then NotSupplied
    else if arg.value.NotAList? then Bad
    else if arg.value.items == [] then Cleared
    else
      var layers := ParseLayers(arg.value.items);
      if layers.None? || !valid(layers.value) then Bad else Given(layers.value)
  }

  lemma {:induction false} OneBadLayerIsBad(items: seq<LayerArg>, i: nat)
    requires i < |items| && ParseLayer(i, items[i]).None?
    ensures ParseLayers(items).None?
  {
    if i < |items| - 1 {
      OneBadLayerIsBad(items[..|items| - 1], i);
    }
  }

  method ProxyChainArg(arg: Option<ChainArg>, valid: Chain -> bool) returns (p: Parsed)
    ensures p == ParseChain(arg, valid)
  {
    if arg.None? {
      return NotSupplied;
    }
    if arg.value.NotAList? {
      return Bad;
    }
    var items := arg.value.items;
    if items == [] {
      return Cleared;
    }
    var layers: Chain := [];
    for i := 0 to |items|
      invariant ParseLayers(items[..i]) == Some(layers)
    {
      assert items[..i + 1][..i] == items[..i];
      var layer := ParseLayer(i, items[i]);
      if layer.None? {
        OneBadLayerIsBad(items, i);
        return Bad;
      }
      layers := layers + [layer.value];
    }
    assert items[..|items|] == items;
    if !valid(layers) {
      return Bad;
    }
    return Given(layers);
  }

  /** The connection arguments of a request do not contradict each other (validateConnectionArgs). */
  predicate Valid(q: Request, valid: Chain -> bool) {
    var p := ParseChain(q.chain, valid);
    !p.Bad? && !(p.Given? && q.ssh.Some? && AsInt(q.ssh.value) != 0)
  }

  // ---- encryption of a chain's secrets ----

  /** `enc` is the credential service; it can fail, and an empty secret is stored as such. */
  function EncryptText(s: string, enc: string -> Option<string>): Option<string> {
    if s == "" then Some("") else enc(s)
  }

  function EncryptLayer(l: Layer, enc: string -> Option<string>): Option<Layer> {
    var password, token := EncryptText(l.password, enc), EncryptText(l.token, enc);
    if password.None? || token.None? then None else Some(l.(password := password.value, token := token.value))
  }

  function EncryptChain(c: Chain, enc: string -> Option<string>): (r: Option<Chain>)
    ensures r.Some? ==> |r.value| == |c|
  {
    if c == [] then Some([])
    else
      var init, last := EncryptChain(c[..|c| - 1], enc), EncryptLayer(c[|c| - 1], enc);
      if init.None? || last.None? then None else Some(init.value + [last.value])
  }

  lemma {:induction false} OneFailureFails(c: Chain, enc: string -> Option<string>, i: nat)
    requires i < |c| && EncryptLayer(c[i], enc).None?
    ensures EncryptChain(c, enc).None?
  {
    if i < |c| - 1 {
      OneFailureFails(c[..|c| - 1], enc, i);
    }
  }

  method EncryptLayers(c: Chain, enc: string -> Option<string>) returns (r: Option<Chain>)
    ensures r == EncryptChain(c, enc)
  {
    var out: Chain := [];
    for i := 0 to |c|
      invariant EncryptChain(c[..i], enc) == Some(out)
    {
      assert c[..i + 1][..i] == c[..i];
      var layer := EncryptLayer(c[i], enc);
      if layer.None? {
        OneFailureFails(c, enc, i);
        return None;
      }
      out := out + [layer.value];
    }
    assert c[..|c|] == c;
    return Some(out);
  }

  // ---- what is stored ----

  /** The asset's SSHTunnelID column and the chain under the host's reserved key. */
  datatype Stored = Stored(tunnel: int, chain: Option<Chain>)

  /** An update request: refused, failed in encryption, or saved. */
  function Update(s: Stored, q: Request, valid: Chain -> bool, enc: string -> Option<string>): Stored {
    if !Valid(q, valid) then s
    else
      var tunnel := if q.ssh.Some? then AsInt(q.ssh.value) else s.tunnel;
      match ParseChain(q.chain, valid)
      case Bad => s
      case NotSupplied => Stored(tunnel, if q.ssh.Some? then None else s.chain)
      case Cleared => Stored(tunnel, None)
      case Given(c) =>
        var stored := EncryptChain(c, enc);
        if stored.None? then s else Stored(0, stored)
  }

  class Asset {
    var tunnel: int
    var chain: Option<Chain>

    ghost function State(): Stored
      reads this
    {
      Stored(tunnel, chain)
    }

    constructor ()
      ensures State() == Stored(0, None)
    {
      tunnel, chain := 0, None;
    }

    /** applyProxyChainArg. When a secret cannot be encrypted nothing of the chain is stored. */
    method ApplyProxyChain(q: Request, valid: Chain -> bool, enc: string -> Option<string>) returns (ok: bool)
      modifies this
      ensures var p := ParseChain(q.chain, valid);
              && (ok <==> !p.Bad? && (p.Given? ==> EncryptChain(p.chain, enc).Some?))
              && (ok && p.Given? ==> tunnel == 0 && chain == EncryptChain(p.chain, enc))
              && (!(ok && p.Given?) ==> tunnel == old(tunnel))
              && (ok && p.Cleared? ==> chain == None)
              && (ok && p.NotSupplied? ==> chain == if q.ssh.Some? then None else old(chain))
      ensures !ok ==> chain == old(chain)
    {
      var p := ProxyChainArg(q.chain, valid);
      match p {
        case Bad => return false;
        case NotSupplied =>
          if q.ssh.Some? {
            chain := None;
          }
          return true;
        case Cleared =>
          chain := None;
          return true;
        case Given(c) =>
          var stored := EncryptLayers(c, enc);
          if stored.None? {
            return false;
          }
          chain := stored;
          tunnel := 0;
          return true;
      }
    }

    /** One update: validated, applied to the loaded record, and saved unless applying it failed. */
    method Put(q: Request, valid: Chain -> bool, enc: string -> Option<string>)
      modifies this
      ensures State() == Update(old(State()), q, valid, enc)
    {
      var p := ProxyChainArg(q.chain, valid);
      if p.Bad? || (p.Given? && q.ssh.Some? && AsInt(q.ssh.value) != 0) {
        return;
      }
      var before := tunnel;
      if q.ssh.Some? {
        tunnel := AsInt(q.ssh.value);
      }
      var ok := ApplyProxyChain(q, valid, enc);
      if !ok {
        tunnel := before;
      }
    }
  }

  // ---- the route machine ----

  /** How the asset is reached: directly, through one SSH asset, or along a chain. */
  datatype Route = Direct | Tunnel(id: int) | Along(chain: Chain)

  function RouteOf(s: Stored): Route {
    if s.chain.Some? then Along(s.chain.value) else if s.tunnel != 0 then Tunnel(s.tunnel) else Direct
  }

  function Through(id: int): Route {
    if id == 0 then Direct else Tunnel(id)
  }

  /** What a request asks of the route alone: a non-empty chain takes over; ssh_asset_id alone or next to
      an empty chain takes over; an empty chain by itself ends a chain but leaves a tunnel. */
  function Redirect(r: Route, q: Request, valid: Chain -> bool, enc: string -> Option<string>): Route {
    var p := ParseChain(q.chain, valid);
    if !Valid(q, valid) then r
    else if p.Given? then (var stored := EncryptChain(p.chain, enc); if stored.None? then r else Along(stored.value))
    else if q.ssh.Some? then Through(AsInt(q.ssh.value))
    else if p.Cleared? && r.Along? then Direct
    else r
  }

  /** A stored chain leaves no tunnel beside it. */
  predicate Coherent(s: Stored) {
    s.chain.Some? ==> s.tunnel == 0
  }

  function Updates(s: Stored, qs: seq<Request>, valid: Chain -> bool, enc: string -> Option<string>): Stored {
    if qs == [] then s else Update(Updates(s, qs[..|qs| - 1], valid, enc), qs[|qs| - 1], valid, enc)
  }

  function Redirects(r: Route, qs: seq<Request>, valid: Chain -> bool, enc: string -> Option<string>): Route {
    if qs == [] then r else Redirect(Redirects(r, qs[..|qs| - 1], valid, enc), qs[|qs| - 1], valid, enc)
  }

  lemma UpdateRefines(s: Stored, q: Request, valid: Chain -> bool, enc: string -> Option<string>)
    requires Coherent(s)
    ensures Coherent(Update(s, q, valid, enc))
    ensures RouteOf(Update(s, q, valid, enc)) == Redirect(RouteOf(s), q, valid, enc)
  {
  }

  /** Over every sequence of updates of a new asset, tunnel and chain together move exactly as one route. */
  lemma {:induction false} UpdatesRefineOneRoute(qs: seq<Request>, valid: Chain -> bool, enc: string -> Option<string>)
    ensures var s := Updates(Stored(0, None), qs, valid, enc);
            Coherent(s) && RouteOf(s) == Redirects(Direct, qs, valid, enc)
  {
    if qs != [] {
      UpdatesRefineOneRoute(qs[..|qs| - 1], valid, enc);
      UpdateRefines(Updates(Stored(0, None), qs[..|qs| - 1], valid, enc), qs[|qs| - 1], valid, enc);
    }
  }

  /** An empty chain on its own makes the asset direct exactly when no tunnel is stored. */
  lemma ClearingTheChainIsDirectWithoutTunnel(qs: seq<Request>, valid: Chain -> bool, enc: string -> Option<string>)
    ensures var s := Updates(Stored(0, None), qs, valid, enc);
            RouteOf(Update(s, Request(None, Some(Items([]))), valid, enc)) == Direct <==> s.tunnel == 0
  {
  }

  /** Such an asset exists: one update sets a tunnel, and an empty chain after it leaves the tunnel. */
  lemma ClearingCanLeaveATunnel(valid: Chain -> bool, enc: string -> Option<string>)
    ensures exists qs ::
              var s := Updates(Stored(0, None), qs, valid, enc);
              RouteOf(Update(s, Request(None, Some(Items([]))), valid, enc)) == Tunnel(5)
  {
    var qs := [Request(Some(Whole(5)), None)];
    assert qs[..|qs| - 1] == [];
    var s := Updates(Stored(0, None), qs, valid, enc);
    assert Updates(Stored(0, None), [], valid, enc) == Stored(0, None);
    assert s == Stored(5, None);
    assert RouteOf(Update(s, Request(None, Some(Items([]))), valid, enc)) == Tunnel(5);
  }
}
