/** Percent-encoding (section 2.1 of RFC 3986) as net/url applies it to query components and path segments,
    and splitting and joining strings at a separator. A Go string is a sequence of bytes. */
module Percent {
  import opened HexDigits

  /** A byte, written as the character with that code. */
  type Byte = c: char | c < '\U{100}' witness 'a'

  type Bytes = seq<Byte>

  datatype Mode = Query | PathSegment

  predicate Unreserved(c: Byte) {
    'A' <= c <= 'Z' || 'a' <= c <= 'z' || '0' <= c <= '9' || c == '-' || c == '_' || c == '.' || c == '~'
  }

  /** Bytes that stay as they are. */
  predicate Plain(c: Byte, m: Mode) {
    Unreserved(c) || (m.PathSegment? && c in {'$', '&', '+', '=', ':', '@'})
  }

  function HexDigit(v: int): (c: Byte)
    requires 0 <= v < 16
    ensures Unreserved(c) && HexValue(c) == v
  {
    if v < 10 then ('0' as int + v) as char else ('A' as int + v - 10) as char
  }

  function EscapeByte(c: Byte, m: Mode): Bytes {
    if Plain(c, m) then [c]
    else if c == ' ' && m.Query? then "+"
    else ['%', HexDigit(c as int / 16), HexDigit(c as int % 16)]
  }

  /** url.QueryEscape and url.PathEscape. */
  function Escape(s: Bytes, m: Mode): Bytes {
    if s == [] then [] else EscapeByte(s[0], m) + Escape(s[1..], m)
  }

  datatype Decoded = Text(s: Bytes) | Malformed

  function Before(c: Byte, d: Decoded): Decoded {
    if d.Text? then Text([c] + d.s) else Malformed
  }

  /** url.QueryUnescape and url.PathUnescape. */
  function Unescape(s: Bytes, m: Mode): Decoded
    decreases |s|
  {
    if s == [] then Text([])
    else if s[0] == '%' then
      if |s| < 3 || HexValue(s[1]) < 0 || HexValue(s[2]) < 0 then Malformed
      else Before((16 * HexValue(s[1]) + HexValue(s[2])) as char, Unescape(s[3..], m))
    else if s[0] == '+' && m.Query? then Before(' ', Unescape(s[1..], m))
    else Before(s[0], Unescape(s[1..], m))
  }

  lemma UnescapeByte(c: Byte, tail: Bytes, m: Mode)
    ensures Unescape(EscapeByte(c, m) + tail, m) == Before(c, Unescape(tail, m))
  {
    var e := EscapeByte(c, m);
    assert (e + tail)[|e|..] == tail;
    assert 16 * (c as int / 16) + c as int % 16 == c as int;
  }

  /** Decoding undoes encoding. */
  lemma {:induction false} UnescapeEscape(s: Bytes, m: Mode)
    ensures Unescape(Escape(s, m), m) == Text(s)
  {
    if s != [] {
      UnescapeEscape(s[1..], m);
      UnescapeByte(s[0], Escape(s[1..], m), m);
      assert s == [s[0]] + s[1..];
    }
  }

  /** Escaped text holds nothing but unreserved bytes, the escape sign, and what the mode adds. */
  lemma {:induction false} EscapedBytes(s: Bytes, m: Mode)
    ensures forall c | c in Escape(s, m) ::
              Unreserved(c) || c == '%' || (m.Query? && c == '+') || (m.PathSegment? && Plain(c, m))
  {
    if s != [] {
      EscapedBytes(s[1..], m);
    }
  }

  // ---- splitting and joining ----

  /** strings.IndexByte; |s| when there is none. */
  function IndexOf(s: Bytes, c: Byte): (n: nat)
    ensures n <= |s| && (n < |s| ==> s[n] == c)
  {
    if s == [] || s[0] == c then 0 else 1 + IndexOf(s[1..], c)
  }

  lemma {:induction false} IndexIsFirst(s: Bytes, c: Byte)
    ensures c !in s[..IndexOf(s, c)]
  {
    if s != [] && s[0] != c {
      IndexIsFirst(s[1..], c);
      assert s[..IndexOf(s, c)] == [s[0]] + s[1..][..IndexOf(s[1..], c)];
    }
  }

  lemma {:induction false} IndexAfter(s: Bytes, c: Byte, tail: Bytes)
    requires c !in s
    ensures IndexOf(s + tail, c) == |s| + IndexOf(tail, c)
  {
    if s == [] {
      assert s + tail == tail;
    } else {
      IndexAfter(s[1..], c, tail);
      assert (s + tail)[1..] == s[1..] + tail;
    }
  }

  /** strings.Split at a one-byte separator. */
  function Split(s: Bytes, c: Byte): (ps: seq<Bytes>)
    ensures ps != []
    decreases |s|
  {
    var n := IndexOf(s, c);
    if n == |s| then [s] else [s[..n]] + Split(s[n + 1..], c)
  }

  /** strings.Join. */
  function Join(ps: seq<Bytes>, c: Byte): Bytes {
    if ps == [] then [] else if |ps| == 1 then ps[0] else ps[0] + [c] + Join(ps[1..], c)
  }

  lemma {:induction false} SplitHasNoSeparator(s: Bytes, c: Byte)
    ensures forall p | p in Split(s, c) :: c !in p
    decreases |s|
  {
    IndexIsFirst(s, c);
    var n := IndexOf(s, c);
    if n < |s| {
      SplitHasNoSeparator(s[n + 1..], c);
    } else {
      assert s[..n] == s;
    }
  }

  lemma {:induction false} JoinSplit(s: Bytes, c: Byte)
    ensures Join(Split(s, c), c) == s
    decreases |s|
  {
    var n := IndexOf(s, c);
    if n < |s| {
      JoinSplit(s[n + 1..], c);
      assert Split(s, c)[1..] == Split(s[n + 1..], c);
      assert s == s[..n] + [c] + s[n + 1..];
    }
  }

  lemma SplitFirst(p: Bytes, more: Bytes, c: Byte)
    requires c !in p
    ensures Split(p + [c] + more, c) == [p] + Split(more, c)
  {
    var s := p + [c] + more;
    IndexAfter(p, c, [c] + more);
    assert s == p + ([c] + more);
    assert s[..|p|] == p && s[|p| + 1..] == more;
  }

  /** Parts without the separator come back from joining and splitting. */
  lemma {:induction false} SplitJoin(ps: seq<Bytes>, c: Byte)
    requires ps != [] && forall p | p in ps :: c !in p
    ensures Split(Join(ps, c), c) == ps
  {
    if |ps| == 1 {
      IndexAfter(ps[0], c, []);
      assert ps[0] + [] == ps[0];
    } else {
      SplitJoin(ps[1..], c);
      SplitFirst(ps[0], Join(ps[1..], c), c);
    }
  }
}
