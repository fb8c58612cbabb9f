/** Setting one parameter of a raw query without touching the others (setRawQueryParam,
    pkg/extension/auth.go:126-143). */
module RawQuery {
  import opened Percent

  /** The pairs of a raw query, as written. */
  function Pairs(raw: Bytes): seq<Bytes> {
    if raw == [] then [] else Split(raw, '&')
  }

  /** strings.Cut at the first '='. */
  function KeyOf(pair: Bytes): Bytes {
    pair[..IndexOf(pair, '=')]
  }

  function ValueOf(pair: Bytes): Bytes {
    if IndexOf(pair, '=') == |pair| then [] else pair[IndexOf(pair, '=') + 1..]
  }

  /** The pair's key decodes to the name; a key that does not decode names nothing. */
  predicate Names(pair: Bytes, name: Bytes) {
    Unescape(KeyOf(pair), Query) == Text(name)
  }

  function Kept(ps: seq<Bytes>, name: Bytes): seq<Bytes> {
    if ps == [] then []
    else if Names(ps[|ps| - 1], name) then Kept(ps[..|ps| - 1], name)
    else Kept(ps[..|ps| - 1], name) + [ps[|ps| - 1]]
  }

  function Pair(name: Bytes, value: Bytes): Bytes {
    Escape(name, Query) + "=" + Escape(value, Query)
  }

  /** The pairs the rewritten query consists of. */
  function Rewritten(raw: Bytes, name: Bytes, value: Bytes): seq<Bytes> {
    Kept(Pairs(raw), name) + [Pair(name, value)]
  }

  method SetRawQueryParam(raw: Bytes, name: Bytes, value: Bytes) returns (r: Bytes)
    ensures r == Join(Rewritten(raw, name, value), '&')
  {
    var kept: seq<Bytes> := [];
    if raw != [] {
      var ps := Split(raw, '&');
      for i := 0 to |ps|
        invariant kept == Kept(ps[..i], name)
      {
        assert ps[..i + 1][..i] == ps[..i];
        var key := ps[i][..IndexOf(ps[i], '=')];
        if Unescape(key, Query) != Text(name) {
          kept := kept + [ps[i]];
        }
      }
      assert ps[..|ps|] == ps;
    }
    kept := kept + [Escape(name, Query) + "=" + Escape(value, Query)];
    return Join(kept, '&');
  }

  // ---- what the rewriting means ----

  lemma CutAtEquals(k: Bytes, v: Bytes)
    requires '=' !in k
    ensures KeyOf(k + "=" + v) == k && ValueOf(k + "=" + v) == v
  {
    IndexAfter(k, '=', "=" + v);
    assert k + "=" + v == k + ("=" + v);
    assert (k + "=" + v)[..|k|] == k;
    assert (k + "=" + v)[|k| + 1..] == v;
  }

  lemma EscapedIsClean(s: Bytes)
    ensures '&' !in Escape(s, Query) && '=' !in Escape(s, Query)
  {
    EscapedBytes(s, Query);
  }

  lemma PairReadsBack(name: Bytes, value: Bytes)
    ensures Names(Pair(name, value), name) && Unescape(ValueOf(Pair(name, value)), Query) == Text(value)
    ensures '&' !in Pair(name, value) && Pair(name, value) != []
  {
    EscapedIsClean(name);
    EscapedIsClean(value);
    CutAtEquals(Escape(name, Query), Escape(value, Query));
    UnescapeEscape(name, Query);
    UnescapeEscape(value, Query);
  }

  /** Two names never name the same pair. */
  lemma NamesOnlyItself(name: Bytes, value: Bytes, other: Bytes)
    ensures Names(Pair(name, value), other) <==> name == other
  {
    PairReadsBack(name, value);
  }

  lemma {:induction false} KeptArePairs(ps: seq<Bytes>, name: Bytes)
    ensures forall p :: p in Kept(ps, name) <==> p in ps && !Names(p, name)
  {
    if ps != [] {
      KeptArePairs(ps[..|ps| - 1], name);
      assert ps == ps[..|ps| - 1] + [ps[|ps| - 1]];
    }
  }

  lemma PairsAreClean(raw: Bytes)
    ensures forall p | p in Pairs(raw) :: '&' !in p
  {
    if raw != [] {
      SplitHasNoSeparator(raw, '&');
    }
  }

  /** The pairs of the new query are the old ones that do not name the parameter, in order and byte for
      byte, and then exactly one that does. */
  lemma OnlyTheNamedPairChanges(raw: Bytes, name: Bytes, value: Bytes)
    ensures Pairs(Join(Rewritten(raw, name, value), '&')) == Rewritten(raw, name, value)
    ensures forall p | p in Kept(Pairs(raw), name) :: !Names(p, name)
    ensures Names(Pair(name, value), name) && Unescape(ValueOf(Pair(name, value)), Query) == Text(value)
  {
    var ps := Rewritten(raw, name, value);
    KeptArePairs(Pairs(raw), name);
    PairsAreClean(raw);
    PairReadsBack(name, value);
    SplitJoin(ps, '&');
    JoinIsNotEmpty(Kept(Pairs(raw), name), Pair(name, value));
  }

  lemma {:induction false} JoinIsNotEmpty(ps: seq<Bytes>, last: Bytes)
    requires last != []
    ensures Join(ps + [last], '&') != []
  {
    if ps != [] {
      assert (ps + [last])[1..] == ps[1..] + [last];
    }
  }

  lemma {:induction false} KeptIsStable(ps: seq<Bytes>, name: Bytes)
    requires forall p | p in ps :: !Names(p, name)
    ensures Kept(ps, name) == ps
  {
    if ps != [] {
      KeptIsStable(ps[..|ps| - 1], name);
      assert ps == ps[..|ps| - 1] + [ps[|ps| - 1]];
    }
  }

  lemma KeptLast(ps: seq<Bytes>, p: Bytes, name: Bytes)
    ensures Kept(ps + [p], name) == if Names(p, name) then Kept(ps, name) else Kept(ps, name) + [p]
  {
    assert (ps + [p])[..|ps|] == ps;
  }

  /** Setting a parameter twice is setting it to the second value. */
  lemma SecondValueWins(raw: Bytes, name: Bytes, first: Bytes, second: Bytes)
    ensures Join(Rewritten(Join(Rewritten(raw, name, first), '&'), name, second), '&') ==
            Join(Rewritten(raw, name, second), '&')
  {
    OnlyTheNamedPairChanges(raw, name, first);
    KeptLast(Kept(Pairs(raw), name), Pair(name, first), name);
    KeptIsStable(Kept(Pairs(raw), name), name);
  }

  /** The decoded values of a parameter, in order: what a server reads from the query. */
  function ValuesOf(ps: seq<Bytes>, name: Bytes): seq<Decoded> {
    if ps == [] then []
    else if Names(ps[|ps| - 1], name) then ValuesOf(ps[..|ps| - 1], name) + [Unescape(ValueOf(ps[|ps| - 1]), Query)]
    else ValuesOf(ps[..|ps| - 1], name)
  }

  lemma {:induction false} KeptValues(ps: seq<Bytes>, name: Bytes, other: Bytes)
    ensures ValuesOf(Kept(ps, name), other) == if other == name then [] else ValuesOf(ps, other)
  {
    if ps != [] {
      var init, last := ps[..|ps| - 1], ps[|ps| - 1];
      KeptValues(init, name, other);
      ValuesLast(Kept(init, name), last, other);
    }
  }

  lemma ValuesLast(ps: seq<Bytes>, p: Bytes, name: Bytes)
    ensures ValuesOf(ps + [p], name) ==
            if Names(p, name) then ValuesOf(ps, name) + [Unescape(ValueOf(p), Query)] else ValuesOf(ps, name)
  {
    assert (ps + [p])[..|ps|] == ps;
  }

  /** A reader of the new query finds the new value once, and every other parameter as before. */
  lemma ReadersSeeTheValue(raw: Bytes, name: Bytes, value: Bytes, other: Bytes)
    ensures ValuesOf(Pairs(Join(Rewritten(raw, name, value), '&')), other) ==
            if other == name then [Text(value)] else ValuesOf(Pairs(raw), other)
  {
    OnlyTheNamedPairChanges(raw, name, value);
    KeptValues(Pairs(raw), name, other);
    NamesOnlyItself(name, value, other);
    ValuesLast(Kept(Pairs(raw), name), Pair(name, value), other);
  }
}
