/** Reading the host back from a built URI gives the host and port it was built from, defaults filled in,
    exactly when the host is free of the bytes that delimit it. */
module MongoRoundTrip {
  import opened Percent
  import opened MongoUri

  /** The hosts the URI can carry. */
  predicate CleanHost(h: Bytes) {
    && '/' !in h && '?' !in h && '@' !in h && ',' !in h && ':' !in h
    && h != [] && h[0] != '[' && LeadingBlank(h) == 0
  }

  // ---- the parts of a built URI ----

  /** Host and port as they stand in the URI. */
  function HostAndPort(host: Bytes, port: Int): Bytes {
    host + (":" + Decimal(port))
  }

  lemma {:induction false} SchemeAfter(p: Bytes, rest: Bytes)
    requires ':' !in p
    ensures SchemeEnd(p + "://" + rest) == |p|
  {
    var s := p + "://" + rest;
    if p == [] {
      assert s[..3] == "://";
    } else {
      SchemeAfter(p[1..], rest);
      assert s[1..] == p[1..] + "://" + rest;
      assert s[0] == p[0] && p[0] in p;
    }
  }

  lemma SchemeIsStripped(rest: Bytes)
    ensures StripScheme("mongodb://" + rest) == rest
  {
    SchemeAfter("mongodb", rest);
    assert "mongodb" + "://" + rest == "mongodb://" + rest;
    assert ("mongodb://" + rest)[10..] == rest;
  }

  lemma AuthorityEnds(a: Bytes, path: Bytes)
    requires '/' !in a && '?' !in a && (path == [] || path[0] == '/')
    ensures Authority(a + path) == a
  {
    IndexAfter(a, '/', path);
    IndexAfter(a, '?', path);
    assert (a + path)[..|a|] == a;
  }

  lemma PathStartsWithSlash(cfg: Config)
    ensures PathAndQuery(cfg) == [] || PathAndQuery(cfg)[0] == '/'
  {
  }

  lemma EscapedHasNoDelimiter(s: Bytes)
    ensures var e := Escape(s, Query); '/' !in e && '?' !in e && '@' !in e && ':' !in e
  {
    EscapedBytes(s, Query);
  }

  lemma UserInfoBytes(cfg: Config, password: Bytes)
    ensures var u := UserInfo(cfg, password);
            && '/' !in u && '?' !in u
            && (u != [] ==> u[|u| - 1] == '@' && '@' !in u[..|u| - 1])
  {
    EscapedHasNoDelimiter(cfg.username);
    EscapedHasNoDelimiter(password);
    var u := UserInfo(cfg, password);
    if u != [] {
      assert u[..|u| - 1] == Escape(cfg.username, Query) + ":" + Escape(password, Query);
    }
  }

  lemma UserInfoIsDropped(u: Bytes, rest: Bytes)
    requires u != [] ==> u[|u| - 1] == '@' && '@' !in u[..|u| - 1]
    ensures AfterLast(u + rest, '@') == AfterLast(rest, '@')
  {
    if u == [] {
      assert u + rest == rest;
    } else {
      var name := u[..|u| - 1];
      IndexAfter(name, '@', "@" + rest);
      assert u + rest == name + ("@" + rest);
      assert (u + rest)[|u|..] == rest;
    }
  }

  lemma HostAndPortBytes(host: Bytes, port: Int, c: Byte)
    requires c != ':' && !IsDecimalByte(c)
    ensures c in HostAndPort(host, port) <==> c in host
  {
    DecimalBytes(port);
  }

  lemma AuthorityOfBuilt(u: Bytes, hp: Bytes, path: Bytes)
    requires '/' !in u && '?' !in u && '/' !in hp && '?' !in hp && (path == [] || path[0] == '/')
    ensures Authority(StripScheme("mongodb://" + (u + hp + path))) == u + hp
  {
    SchemeIsStripped(u + hp + path);
    AuthorityEnds(u + hp, path);
  }

  lemma FirstHostOfBuilt(u: Bytes, hp: Bytes)
    requires u != [] ==> u[|u| - 1] == '@' && '@' !in u[..|u| - 1]
    requires '@' !in hp && ',' !in hp
    ensures FirstHost(AfterLast(u + hp, '@')) == Trim(hp)
  {
    UserInfoIsDropped(u, hp);
    Absent(hp, '@');
    Absent(hp, ',');
  }

  /** What the reader sees of a built URI, when the host does not break its frame. */
  lemma ReaderSeesHostAndPort(cfg: Config, password: Bytes)
    requires var h := Host(cfg); '/' !in h && '?' !in h && '@' !in h && ',' !in h
    ensures Parse(Build(cfg, password)) == HostOf(Trim(HostAndPort(Host(cfg), Port(cfg))))
  {
    var u, h, path := UserInfo(cfg, password), Host(cfg), PathAndQuery(cfg);
    var hp := HostAndPort(h, Port(cfg));
    assert u + h + ":" + Decimal(Port(cfg)) + path == u + hp + path;
    UserInfoBytes(cfg, password);
    HostAndPortBytes(h, Port(cfg), '/');
    HostAndPortBytes(h, Port(cfg), '?');
    HostAndPortBytes(h, Port(cfg), '@');
    HostAndPortBytes(h, Port(cfg), ',');
    PathStartsWithSlash(cfg);
    AuthorityOfBuilt(u, hp, path);
    FirstHostOfBuilt(u, hp);
  }

  // ---- trimming ----

  lemma ColonIsNoBlank(a: Byte, b: Byte)
    ensures !AsciiBlank(':') && !TwoByteBlank(':', a) && !TwoByteBlank(a, ':')
    ensures !ThreeByteBlank(':', a, b) && !ThreeByteBlank(a, ':', b) && !ThreeByteBlank(a, b, ':')
  {
  }

  lemma BlankStopsAtColon(h: Bytes, tail: Bytes)
    requires tail != [] && tail[0] == ':'
    ensures LeadingBlank(h + tail) == LeadingBlank(h)
  {
    var s := h + tail;
    assert forall i | 0 <= i < |h| :: s[i] == h[i];
    assert s[|h|] == ':';
    if |h| == 0 {
      ColonIsNoBlank(if |s| > 1 then s[1] else ':', if |s| > 2 then s[2] else ':');
    } else if |h| == 1 {
      ColonIsNoBlank(s[0], if |s| > 2 then s[2] else ':');
    } else if |h| == 2 {
      ColonIsNoBlank(s[0], s[1]);
    }
  }

  lemma {:induction false} TrimLeftStopsAtColon(h: Bytes, tail: Bytes)
    requires tail != [] && tail[0] == ':'
    ensures TrimLeft(h + tail) == TrimLeft(h) + tail
    decreases |h|
  {
    BlankStopsAtColon(h, tail);
    var n := LeadingBlank(h);
    if n > 0 {
      TrimLeftStopsAtColon(h[n..], tail);
      DropFrom(h, tail, n);
    }
  }

  lemma DropFrom(h: Bytes, tail: Bytes, n: nat)
    requires n <= |h|
    ensures (h + tail)[n..] == h[n..] + tail
  {
  }

  lemma TrimHostAndPort(host: Bytes, port: Int)
    ensures Trim(HostAndPort(host, port)) == HostAndPort(TrimLeft(host), port)
  {
    TrimLeftStopsAtColon(host, ":" + Decimal(port));
    DecimalEndIsNoBlank(TrimLeft(host) + ":", port);
    Regroup(TrimLeft(host), ":", Decimal(port));
  }

  lemma Regroup(a: Bytes, b: Bytes, c: Bytes)
    ensures a + b + c == a + (b + c)
  {
  }

  lemma DecimalEndIsNoBlank(s: Bytes, n: int)
    ensures TrailingBlank(s + Decimal(n)) == 0
  {
    var d := Decimal(n);
    DecimalBytes(n);
    assert (s + d)[|s + d| - 1] == d[|d| - 1] && d[|d| - 1] in d;
  }

  lemma {:induction false} TrimLeftLeavesNoBlank(h: Bytes)
    ensures LeadingBlank(TrimLeft(h)) == 0
    ensures LeadingBlank(h) > 0 ==> |TrimLeft(h)| < |h|
    ensures |TrimLeft(h)| <= |h|
    ensures forall c | c in TrimLeft(h) :: c in h
    decreases |h|
  {
    if LeadingBlank(h) > 0 {
      TrimLeftLeavesNoBlank(h[LeadingBlank(h)..]);
    }
  }

  // ---- clean hosts come back ----

  lemma OneColon(h: Bytes, port: Int)
    requires ':' !in h && h != []
    ensures Unbracketed(HostAndPort(h, port)) == HostPort(h, port)
  {
    var d := Decimal(port);
    var s := HostAndPort(h, port);
    DecimalBytes(port);
    IndexAfter(h, ':', ":" + d);
    assert s[|h| + 1..] == d && s[..|h|] == h;
    AtoiOfDecimal(port);
  }

  lemma CleanHostComesBack(cfg: Config, password: Bytes)
    requires CleanHost(Host(cfg))
    ensures Parse(Build(cfg, password)) == HostPort(Host(cfg), Port(cfg))
  {
    ReaderSeesHostAndPort(cfg, password);
    TrimHostAndPort(Host(cfg), Port(cfg));
    OneColon(Host(cfg), Port(cfg));
  }

  // ---- and no other ----

  lemma {:induction false} AfterLastHasNone(s: Bytes, c: Byte)
    ensures c !in AfterLast(s, c) && forall b | b in AfterLast(s, c) :: b in s
    decreases |s|
  {
    Absent(s, c);
    if IndexOf(s, c) < |s| {
      AfterLastHasNone(s[IndexOf(s, c) + 1..], c);
    }
  }

  lemma {:induction false} TrimRightIsInside(s: Bytes)
    ensures forall c | c in TrimRight(s) :: c in s
    decreases |s|
  {
    if TrailingBlank(s) > 0 {
      TrimRightIsInside(s[..|s| - TrailingBlank(s)]);
    }
  }

  lemma {:induction false} TrimBracketsIsInside(s: Bytes)
    ensures forall c | c in TrimBrackets(s) :: c in s
    decreases |s|
  {
    if s != [] && Bracket(s[0]) {
      TrimBracketsIsInside(s[1..]);
    } else if s != [] && Bracket(s[|s| - 1]) {
      TrimBracketsIsInside(s[..|s| - 1]);
    }
  }

  lemma HostIsInside(s: Bytes)
    ensures HostOf(s).HostPort? ==> forall c | c in HostOf(s).host :: c in s
  {
    TrimBracketsIsInside(s);
  }

  /** Whatever URI is read, the host has none of the bytes that end it. */
  lemma ReadHostHasNoDelimiter(uri: Bytes)
    requires Parse(uri).HostPort?
    ensures var h := Parse(uri).host; '/' !in h && '?' !in h && '@' !in h && ',' !in h
  {
    var rest := StripScheme(uri);
    var a := Authority(rest);
    AuthorityIsCut(rest);
    AfterLastHasNone(a, '@');
    var b := AfterLast(a, '@');
    var first := Split(b, ',')[0];
    FirstIsInside(b);
    TrimLeftLeavesNoBlank(first);
    TrimRightIsInside(TrimLeft(first));
    HostIsInside(FirstHost(b));
  }

  lemma FirstIsInside(b: Bytes)
    ensures forall c | c in Split(b, ',')[0] :: c in b && c != ','
  {
    SplitHasNoSeparator(b, ',');
    assert Split(b, ',')[0] in Split(b, ',');
  }

  lemma AuthorityIsCut(rest: Bytes)
    ensures '/' !in Authority(rest) && '?' !in Authority(rest)
  {
    IndexIsFirst(rest, '/');
    IndexIsFirst(rest, '?');
    var n := Min(IndexOf(rest, '/'), IndexOf(rest, '?'));
    assert rest[..n] == rest[..IndexOf(rest, '/')][..n] == rest[..IndexOf(rest, '?')][..n];
  }

  lemma BracketedLosesItsBracket(h: Bytes, port: Int)
    requires h != [] && h[0] == '['
    ensures var r := HostOf(HostAndPort(h, port)); r.HostPort? ==> '[' !in r.host
  {
    var s := HostAndPort(h, port);
    DecimalBytes(port);
    assert s[|s| - 1] == Decimal(port)[|Decimal(port)| - 1];
    assert s[0] == '[';
  }

  lemma {:induction false} IndexInside(s: Bytes, c: Byte, tail: Bytes)
    ensures IndexOf(s, c) < |s| ==> IndexOf(s + tail, c) == IndexOf(s, c)
  {
    if s != [] && s[0] != c {
      IndexInside(s[1..], c, tail);
      assert (s + tail)[1..] == s[1..] + tail;
    }
  }

  lemma ManyColonsKeepThePort(h: Bytes, port: Int)
    requires ':' in h
    ensures Unbracketed(HostAndPort(h, port)).HostPort? ==>
              Unbracketed(HostAndPort(h, port)).host == HostAndPort(h, port)
  {
    var s, tail := HostAndPort(h, port), ":" + Decimal(port);
    Absent(h, ':');
    IndexInside(h, ':', tail);
    var n := IndexOf(h, ':');
    assert s[n + 1..][|h| - n - 1] == ':';
  }

  lemma ReadBackMeansClean(cfg: Config, password: Bytes)
    ensures Parse(Build(cfg, password)) == HostPort(Host(cfg), Port(cfg)) ==> CleanHost(Host(cfg))
  {
    var host, port := Host(cfg), Port(cfg);
    if Parse(Build(cfg, password)) == HostPort(host, port) {
      ReadHostHasNoDelimiter(Build(cfg, password));
      ReaderSeesHostAndPort(cfg, password);
      TrimHostAndPort(host, port);
      TrimLeftLeavesNoBlank(host);
      OnlyCleanFits(host, TrimLeft(host), port);
    }
  }

  lemma NoBracketInFront(host: Bytes, h: Bytes, port: Int)
    ensures HostOf(HostAndPort(h, port)) == HostPort(host, port) && (forall c | c in h :: c in host) ==>
              h == [] || h[0] != '['
  {
    if h != [] && h[0] == '[' {
      BracketedLosesItsBracket(h, port);
      assert h[0] in h;
    }
  }

  lemma NoColonInside(host: Bytes, h: Bytes, port: Int)
    ensures Unbracketed(HostAndPort(h, port)) == HostPort(host, port) &&
            LeadingBlank(h) == 0 && (h == host || LeadingBlank(host) > 0) ==>
              ':' !in h
  {
    if ':' in h {
      ManyColonsKeepThePort(h, port);
      BlankStopsAtColon(h, ":" + Decimal(port));
    }
  }

  lemma NoHostIsNoHost(port: Int)
    ensures Unbracketed(HostAndPort([], port)) == NoHost
  {
    DecimalBytes(port);
    assert HostAndPort([], port)[1..] == Decimal(port);
  }

  lemma OnlyCleanFits(host: Bytes, h: Bytes, port: Int)
    requires HostOf(HostAndPort(h, port)) == HostPort(host, port)
    requires LeadingBlank(h) == 0 && (h == host || LeadingBlank(host) > 0)
    requires forall c | c in h :: c in host
    ensures host != [] && host[0] != '[' && ':' !in host && LeadingBlank(host) == 0
  {
    NoBracketInFront(host, h, port);
    assert HostAndPort(h, port)[0] == if h == [] then ':' else h[0];
    NoColonInside(host, h, port);
    NoHostIsNoHost(port);
    OneColon(h, port);
  }

  /** The host and port come back, for every user name, password, database and option, exactly when the
      host is clean. */
  lemma BuildThenParse(cfg: Config, password: Bytes)
    ensures Parse(Build(cfg, password)) == HostPort(Host(cfg), Port(cfg)) <==> CleanHost(Host(cfg))
  {
    if CleanHost(Host(cfg)) {
      CleanHostComesBack(cfg, password);
    } else {
      ReadBackMeansClean(cfg, password);
    }
  }
}
