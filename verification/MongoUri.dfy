/** Building a MongoDB URI from an asset's fields and reading the host back from it: buildMongoURI and
    parseHostFromURI (internal/connpool/mongodb.go:167-203, 225-288). */
module MongoUri {
  import opened Percent

  const MAX := 0x7fff_ffff_ffff_ffff

  /** Go's int. */
  type Int = n: int | -MAX - 1 <= n <= MAX

  datatype Config = Config(
    host: Bytes, port: Int, username: Bytes, database: Bytes, authSource: Bytes, replicaSet: Bytes)

  datatype HostPort = HostPort(host: Bytes, port: Int) | NoHost | BadPort | BadHost

  // ---- decimal numbers ----

  function Digit(d: int): (c: Byte)
    requires 0 <= d < 10
    ensures '0' <= c <= '9'
  {
    ('0' as int + d) as char
  }

  function Digits(n: nat): (s: Bytes)
    ensures s != [] && forall c | c in s :: '0' <= c <= '9'
  {
    if n < 10 then [Digit(n)] else Digits(n / 10) + [Digit(n % 10)]
  }

  /** fmt's %d. */
  function Decimal(n: int): Bytes {
    if n < 0 then "-" + Digits(-n) else Digits(n)
  }

  /** The value of decimal digits; -1 when there are none or one of them is not. */
  function Value(s: Bytes): (v: int)
    ensures v >= -1
  {
    if s == [] || !('0' <= s[|s| - 1] <= '9') then -1
    else
      var d := s[|s| - 1] as int - '0' as int;
      if |s| == 1 then d
      else if Value(s[..|s| - 1]) < 0 then -1
      else 10 * Value(s[..|s| - 1]) + d
  }

  datatype Number = Number(n: Int) | NotANumber

  /** strconv.Atoi. */
  function Atoi(s: Bytes): Number {
    var signed := s != [] && (s[0] == '-' || s[0] == '+');
    var v := Value(if signed then s[1..] else s);
    if v < 0 then NotANumber
    else if signed && s[0] == '-' then (if v <= MAX + 1 then Number(-v) else NotANumber)
    else if v <= MAX then Number(v) else NotANumber
  }

  lemma {:induction false} ValueOfDigits(n: nat)
    ensures Value(Digits(n)) == n
  {
    if n >= 10 {
      ValueOfDigits(n / 10);
      assert Digits(n)[..|Digits(n)| - 1] == Digits(n / 10);
    }
  }

  lemma AtoiOfDecimal(n: Int)
    ensures Atoi(Decimal(n)) == Number(n)
  {
    if n < 0 {
      var m: int := n;
      ValueOfDigits(-m);
      assert Decimal(n)[1..] == Digits(-m);
    } else {
      ValueOfDigits(n);
      assert Decimal(n)[0] in Digits(n);
    }
  }

  predicate IsDecimalByte(c: Byte) {
    '0' <= c <= '9' || c == '-'
  }

  lemma DecimalBytes(n: int)
    ensures Decimal(n) != [] && forall c | c in Decimal(n) :: IsDecimalByte(c)
  {
  }

  // ---- blanks (unicode.IsSpace, in UTF-8) ----

  predicate AsciiBlank(c: Byte) {
    c in {'\t', '\n', '\U{0B}', '\U{0C}', '\r', ' '}
  }

  predicate TwoByteBlank(a: Byte, b: Byte) {
    a == '\U{C2}' && (b == '\U{85}' || b == '\U{A0}')
  }

  predicate ThreeByteBlank(a: Byte, b: Byte, c: Byte) {
    || (a == '\U{E1}' && b == '\U{9A}' && c == '\U{80}')
    || (a == '\U{E2}' && b == '\U{80}'
        && ('\U{80}' <= c <= '\U{8A}' || c == '\U{A8}' || c == '\U{A9}' || c == '\U{AF}'))
    || (a == '\U{E2}' && b == '\U{81}' && c == '\U{9F}')
    || (a == '\U{E3}' && b == '\U{80}' && c == '\U{80}')
  }

  /** The length of the blank s starts with; 0 when it starts with none. */
  function LeadingBlank(s: Bytes): (n: nat)
    ensures n <= |s|
  {
    if |s| >= 1 && AsciiBlank(s[0]) then 1
    else if |s| >= 2 && TwoByteBlank(s[0], s[1]) then 2
    else if |s| >= 3 && ThreeByteBlank(s[0], s[1], s[2]) then 3
    else 0
  }

  function TrailingBlank(s: Bytes): (n: nat)
    ensures n <= |s|
  {
    var e := |s|;
    if e >= 1 && AsciiBlank(s[e - 1]) then 1
    else if e >= 2 && TwoByteBlank(s[e - 2], s[e - 1]) then 2
    else if e >= 3 && ThreeByteBlank(s[e - 3], s[e - 2], s[e - 1]) then 3
    else 0
  }

  function TrimLeft(s: Bytes): Bytes
    decreases |s|
  {
    if LeadingBlank(s) == 0 then s else TrimLeft(s[LeadingBlank(s)..])
  }

  function TrimRight(s: Bytes): Bytes
    decreases |s|
  {
    if TrailingBlank(s) == 0 then s else TrimRight(s[..|s| - TrailingBlank(s)])
  }

  /** strings.TrimSpace. */
  function Trim(s: Bytes): Bytes {
    TrimRight(TrimLeft(s))
  }

  // ---- building ----

  function Host(cfg: Config): Bytes {
    if cfg.host == [] then "localhost" else cfg.host
  }

  function Port(cfg: Config): Int {
    if cfg.port == 0 then 27017 else cfg.port
  }

  function UserInfo(cfg: Config, password: Bytes): Bytes {
    if cfg.username == [] then []
    else Escape(cfg.username, Query) + ":" + Escape(password, Query) + "@"
  }

  /** url.Values.Encode: keys in alphabetical order. */
  function Params(cfg: Config): Bytes {
    var auth := if cfg.authSource == [] then [] else ["authSource=" + Escape(cfg.authSource, Query)];
    var rs := if cfg.replicaSet == [] then [] else ["replicaSet=" + Escape(cfg.replicaSet, Query)];
    Join(auth + rs, '&')
  }

  function PathAndQuery(cfg: Config): Bytes {
    (if cfg.database != [] then "/" + Escape(cfg.database, PathSegment)
     else if Params(cfg) != [] then "/"
     else []) +
    if Params(cfg) != [] then "?" + Params(cfg) else []
  }

  function Build(cfg: Config, password: Bytes): Bytes {
    "mongodb://" + (UserInfo(cfg, password) + Host(cfg) + ":" + Decimal(Port(cfg)) + PathAndQuery(cfg))
  }

  // ---- reading the host back ----

  /** strings.Index of "://"; |s| when there is none. */
  function SchemeEnd(s: Bytes): (n: nat)
    ensures n <= |s| && (n < |s| ==> n + 3 <= |s|)
  {
    if s == [] then 0 else if "://" <= s then 0 else 1 + SchemeEnd(s[1..])
  }

  function StripScheme(s: Bytes): Bytes {
    if SchemeEnd(s) < |s| then s[SchemeEnd(s) + 3..] else s
  }

  function Min(a: nat, b: nat): nat {
    if a < b then a else b
  }

  function Authority(s: Bytes): Bytes {
    s[..Min(IndexOf(s, '/'), IndexOf(s, '?'))]
  }

  /** What follows the last c; all of s when there is none. */
  function AfterLast(s: Bytes, c: Byte): Bytes
    decreases |s|
  {
    if IndexOf(s, c) == |s| then s else AfterLast(s[IndexOf(s, c) + 1..], c)
  }

  function FirstHost(s: Bytes): Bytes {
    Trim(Split(s, ',')[0])
  }

  /** net.SplitHostPort on a host in brackets, and Atoi on the port. */
  function Bracketed(s: Bytes): HostPort
    requires s != [] && s[0] == '['
  {
    if s[|s| - 1] == ']' then HostPort(TrimBrackets(s), 27017)
    else
      var end := IndexOf(s, ']');
      if ':' !in s || end == |s| || end + 1 == |s| || s[end + 1] != ':' || ':' in s[end + 2..] then BadHost
      else if '[' in s[1..] || ']' in s[end + 1..] then BadHost
      else
        var port := Atoi(s[end + 2..]);
        if port.NotANumber? then BadPort else HostPort(s[1..end], port.n)
  }

  predicate Bracket(c: Byte) {
    c == '[' || c == ']'
  }

  /** strings.Trim with "[]". */
  function TrimBrackets(s: Bytes): Bytes
    decreases |s|
  {
    if s != [] && Bracket(s[0]) then TrimBrackets(s[1..])
    else if s != [] && Bracket(s[|s| - 1]) then TrimBrackets(s[..|s| - 1])
    else s
  }

  function Unbracketed(s: Bytes): HostPort {
    var n := IndexOf(s, ':');
    if n == |s| || ':' in s[n + 1..] then HostPort(s, 27017)
    else if n == 0 then NoHost
    else
      var port := Atoi(s[n + 1..]);
      if port.NotANumber? then BadPort else HostPort(s[..n], port.n)
  }

  function HostOf(s: Bytes): HostPort {
    if s == [] then NoHost else if s[0] == '[' then Bracketed(s) else Unbracketed(s)
  }

  function Parse(uri: Bytes): HostPort {
    var authority := Authority(StripScheme(uri));
    if authority == [] then NoHost else HostOf(FirstHost(AfterLast(authority, '@')))
  }

  /** strings.Count of ':'. */
  function Colons(s: Bytes): nat {
    if s == [] then 0 else (if s[0] == ':' then 1 else 0) + Colons(s[1..])
  }

  lemma {:induction false} ColonCount(s: Bytes)
    ensures Colons(s) == 0 <==> ':' !in s
    ensures Colons(s) > 1 <==> (IndexOf(s, ':') < |s| && ':' in s[IndexOf(s, ':') + 1..])
  {
    if s != [] {
      ColonCount(s[1..]);
      if s[0] != ':' {
        assert IndexOf(s[1..], ':') < |s[1..]| ==> s[1..][IndexOf(s[1..], ':') + 1..] == s[IndexOf(s, ':') + 1..];
      }
    }
  }

  lemma {:induction false} Absent(s: Bytes, c: Byte)
    ensures IndexOf(s, c) == |s| <==> c !in s
  {
    if s != [] {
      Absent(s[1..], c);
    }
  }

  /** parseHostFromURI. */
  method ParseHostFromURI(uri: Bytes) returns (r: HostPort)
    ensures r == Parse(uri)
  {
    var rest := StripScheme(uri);
    var end, seps: Bytes := |rest|, "/?";
    for i := 0 to |seps|
      invariant end == if i == 0 then |rest| else if i == 1 then IndexOf(rest, '/')
                       else Min(IndexOf(rest, '/'), IndexOf(rest, '?'))
    {
      var idx := IndexOf(rest, seps[i]);
      if idx < end {
        end := idx;
      }
    }
    var authority := rest[..end];
    if authority == [] {
      return NoHost;
    }
    var hostPort := FirstHost(AfterLast(authority, '@'));
    if hostPort == [] {
      return NoHost;
    }
    if hostPort[0] == '[' {
      return Bracketed(hostPort);
    }
    ColonCount(hostPort);
    Absent(hostPort, ':');
    if Colons(hostPort) == 0 || Colons(hostPort) > 1 {
      return HostPort(hostPort, 27017);
    }
    var cut := IndexOf(hostPort, ':');
    if cut == 0 {
      return NoHost;
    }
    var port := Atoi(hostPort[cut + 1..]);
    if port.NotANumber? {
      return BadPort;
    }
    return HostPort(hostPort[..cut], port.n);
  }
}
