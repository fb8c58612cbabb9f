/** The check on the statements a driver cuts a piece of SQL into (checkStatements,
    pkg/dbdriver/statement.go:85-115), and what an accepted list is over UTF-8 text
    (section 3 of RFC 3629). */
module Statements {

  type Byte = b: int | 0 <= b < 256

  datatype Statement = Statement(start: int, end: int, kind: string, dangerous: bool, reason: string)

  datatype Fault = BadRange | InsideCharacter | Overlap | NoType | NotUpper | BadReason | StrayReason

  datatype Check = Kept | Broken(rule: Fault)

  datatype Verdict = Fine | Faulty(index: nat, fault: Fault)

  const REASONS: seq<string> := ["no_where_update", "no_where_delete", "prepare", "call"]

  /** utf8.RuneStart. */
  predicate RuneStart(b: Byte) {
    b < 0x80 || b >= 0xC0
  }

  predicate Boundary(sql: seq<Byte>, at: int)
    requires 0 <= at <= |sql|
  {
    at == |sql| || RuneStart(sql[at])
  }

  predicate InRange(sql: seq<Byte>, s: Statement) {
    0 <= s.start < s.end <= |sql|
  }

  predicate Bounded(sql: seq<Byte>, s: Statement) {
    InRange(sql, s) && Boundary(sql, s.start) && Boundary(sql, s.end)
  }

  /** `upper` is strings.ToUpper. */
  predicate Labelled(s: Statement, upper: string -> string) {
    && s.kind != "" && s.kind == upper(s.kind)
    && if s.dangerous then s.reason in REASONS else s.reason == ""
  }

  /** Each statement is a non-empty span on character boundaries with its labels right, and any two are
      in order and apart. */
  predicate WellCut(sql: seq<Byte>, ss: seq<Statement>, upper: string -> string) {
    && (forall i | 0 <= i < |ss| :: Bounded(sql, ss[i]) && Labelled(ss[i], upper))
    && (forall i, j | 0 <= i < j < |ss| :: ss[i].end <= ss[j].start)
  }

  /** The first rule s breaks, given where the previous statement ended. */
  function FaultOf(sql: seq<Byte>, s: Statement, prevEnd: int, upper: string -> string): Check {
    if !InRange(sql, s) then Broken(BadRange)
    else if !Bounded(sql, s) then Broken(InsideCharacter)
    else if s.start < prevEnd then Broken(Overlap)
    else if s.kind == "" then Broken(NoType)
    else if s.kind != upper(s.kind) then Broken(NotUpper)
    else if s.dangerous && s.reason !in REASONS then Broken(BadReason)
    else if !s.dangerous && s.reason != "" then Broken(StrayReason)
    else Kept
  }

  function PrevEnd(ss: seq<Statement>): int {
    if ss == [] then 0 else ss[|ss| - 1].end
  }

  /** One more statement fits exactly when it breaks no rule against the last one. */
  lemma OneMoreFits(sql: seq<Byte>, ss: seq<Statement>, s: Statement, upper: string -> string)
    requires WellCut(sql, ss, upper)
    ensures WellCut(sql, ss + [s], upper) <==> FaultOf(sql, s, PrevEnd(ss), upper) == Kept
  {
    var all := ss + [s];
    assert all[|ss|] == s;
    if FaultOf(sql, s, PrevEnd(ss), upper) == Kept {
      forall i, j | 0 <= i < j < |all| ensures all[i].end <= all[j].start {
        if j == |ss| && i < |ss| - 1 {
          assert ss[i].end <= ss[|ss| - 1].start && Bounded(sql, ss[|ss| - 1]);
        }
      }
    }
    if WellCut(sql, all, upper) && ss != [] {
      assert all[|ss| - 1].end <= all[|ss|].start;
    }
  }

  lemma PrefixesAreWellCut(sql: seq<Byte>, ss: seq<Statement>, n: nat, upper: string -> string)
    requires n <= |ss|
    ensures WellCut(sql, ss, upper) ==> WellCut(sql, ss[..n], upper)
  {
  }

  /** The list is accepted exactly when it is well cut; otherwise the first statement that breaks a rule is
      named, with the first rule it breaks. */
  method CheckStatements(sql: seq<Byte>, ss: seq<Statement>, upper: string -> string) returns (v: Verdict)
    ensures v == Fine <==> WellCut(sql, ss, upper)
    ensures v.Faulty? ==>
              && v.index < |ss| && WellCut(sql, ss[..v.index], upper)
              && FaultOf(sql, ss[v.index], PrevEnd(ss[..v.index]), upper) == Broken(v.fault)
  {
    var prevEnd := 0;
    for i := 0 to |ss|
      invariant WellCut(sql, ss[..i], upper) && prevEnd == PrevEnd(ss[..i])
    {
      var s := ss[i];
      OneMoreFits(sql, ss[..i], s, upper);
      assert ss[..i + 1] == ss[..i] + [s];
      PrefixesAreWellCut(sql, ss, i + 1, upper);
      if s.start < 0 || s.end > |sql| || s.start >= s.end {
        return Faulty(i, BadRange);
      }
      for k := 0 to 2
        invariant k > 0 ==> Boundary(sql, s.start)
        invariant k > 1 ==> Boundary(sql, s.end)
      {
        var at := if k == 0 then s.start else s.end;
        if at < |sql| && !RuneStart(sql[at]) {
          return Faulty(i, InsideCharacter);
        }
      }
      if s.start < prevEnd {
        return Faulty(i, Overlap);
      }
      prevEnd := s.end;
      if s.kind == "" {
        return Faulty(i, NoType);
      }
      if s.kind != upper(s.kind) {
        return Faulty(i, NotUpper);
      }
      if s.dangerous && s.reason !in REASONS {
        return Faulty(i, BadReason);
      }
      if !s.dangerous && s.reason != "" {
        return Faulty(i, StrayReason);
      }
    }
    assert ss[..|ss|] == ss;
    return Fine;
  }

  // ---- UTF-8 ----

  predicate Tail(b: Byte) {
    0x80 <= b < 0xC0
  }

  /** The length of the character s starts with; 0 when it starts with none. */
  function CharLen(s: seq<Byte>): (n: nat)
    ensures n <= |s|
    ensures n > 0 ==> RuneStart(s[0]) && forall k | 0 < k < n :: Tail(s[k])
  {
    if s == [] then 0
    else if s[0] < 0x80 then 1
    else if |s| < 2 || !Tail(s[1]) then 0
    else if 0xC2 <= s[0] < 0xE0 then 2
    else if |s| < 3 || !Tail(s[2]) then 0
    else if (s[0] == 0xE0 && s[1] >= 0xA0) || 0xE1 <= s[0] < 0xED
            || (s[0] == 0xED && s[1] < 0xA0) || 0xEE <= s[0] < 0xF0 then 3
    else if |s| < 4 || !Tail(s[3]) then 0
    else if (s[0] == 0xF0 && s[1] >= 0x90) || 0xF1 <= s[0] < 0xF4 || (s[0] == 0xF4 && s[1] < 0x90) then 4
    else 0
  }

  predicate Utf8(s: seq<Byte>)
    decreases |s|
  {
    s == [] || (CharLen(s) > 0 && Utf8(s[CharLen(s)..]))
  }

  lemma CharLenOfPrefix(s: seq<Byte>, i: nat)
    requires i <= |s| && CharLen(s) > 0
    ensures CharLen(s[..i]) == if i >= CharLen(s) then CharLen(s) else 0
  {
  }

  /** Cutting UTF-8 text leaves UTF-8 before the cut exactly when the cut is on a character boundary, and
      then the rest is UTF-8 too. */
  lemma {:induction false} CutsAtBoundaries(s: seq<Byte>, i: nat)
    requires Utf8(s) && i <= |s|
    ensures Utf8(s[..i]) <==> Boundary(s, i)
    ensures Boundary(s, i) ==> Utf8(s[i..])
    decreases |s|
  {
    if s == [] {
    } else if i == 0 {
      assert s[0..] == s;
    } else {
      var n := CharLen(s);
      CharLenOfPrefix(s, i);
      if i >= n {
        CutsAtBoundaries(s[n..], i - n);
        assert s[..i][n..] == s[n..][..i - n];
        assert s[i..] == s[n..][i - n..];
      } else {
        assert Tail(s[i]);
      }
    }
  }

  /** What the statements cut sql into from `from` on: gap, statement, gap, ... , gap. */
  function Pieces(sql: seq<Byte>, ss: seq<Statement>, from: nat): seq<seq<Byte>>
    requires from <= |sql|
    requires forall i | 0 <= i < |ss| :: InRange(sql, ss[i])
    requires ss != [] ==> from <= ss[0].start
    requires forall i, j | 0 <= i < j < |ss| :: ss[i].end <= ss[j].start
  {
    if ss == [] then [sql[from..]]
    else
      assert InRange(sql, ss[0]);
      [sql[from..ss[0].start], sql[ss[0].start..ss[0].end]] + Pieces(sql, ss[1..], ss[0].end)
  }

  function Concat(ps: seq<seq<Byte>>): seq<Byte> {
    if ps == [] then [] else ps[0] + Concat(ps[1..])
  }

  lemma SliceIsUtf8(sql: seq<Byte>, i: nat, j: nat)
    requires Utf8(sql) && i <= j <= |sql| && Boundary(sql, i) && Boundary(sql, j)
    ensures Utf8(sql[i..j])
  {
    CutsAtBoundaries(sql, i);
    CutsAtBoundaries(sql[i..], j - i);
    assert sql[i..][..j - i] == sql[i..j];
  }

  lemma ConcatTwo(p: seq<Byte>, q: seq<Byte>, rest: seq<seq<Byte>>)
    ensures Concat([p, q] + rest) == p + (q + Concat(rest))
  {
    assert ([p, q] + rest)[1..] == [q] + rest;
    assert ([q] + rest)[1..] == rest;
  }

  lemma {:induction false} PiecesJoin(sql: seq<Byte>, ss: seq<Statement>, from: nat, upper: string -> string)
    requires from <= |sql| && WellCut(sql, ss, upper) && (ss != [] ==> from <= ss[0].start)
    ensures Concat(Pieces(sql, ss, from)) == sql[from..]
  {
    if ss == [] {
      assert [sql[from..]][1..] == [];
    } else {
      var gap, span := sql[from..ss[0].start], sql[ss[0].start..ss[0].end];
      PiecesJoin(sql, ss[1..], ss[0].end, upper);
      ConcatTwo(gap, span, Pieces(sql, ss[1..], ss[0].end));
      assert sql[from..] == gap + (span + sql[ss[0].end..]);
    }
  }

  lemma {:induction false} PiecesAreUtf8(sql: seq<Byte>, ss: seq<Statement>, from: nat, upper: string -> string)
    requires from <= |sql| && WellCut(sql, ss, upper) && (ss != [] ==> from <= ss[0].start)
    requires Utf8(sql) && Boundary(sql, from)
    ensures forall p | p in Pieces(sql, ss, from) :: Utf8(p)
  {
    if ss == [] {
      CutsAtBoundaries(sql, from);
    } else {
      assert Bounded(sql, ss[0]);
      SliceIsUtf8(sql, from, ss[0].start);
      SliceIsUtf8(sql, ss[0].start, ss[0].end);
      PiecesAreUtf8(sql, ss[1..], ss[0].end, upper);
    }
  }

  lemma StartsAtBoundary(sql: seq<Byte>)
    requires Utf8(sql)
    ensures Boundary(sql, 0)
  {
  }

  /** An accepted list cuts the text into statements and gaps that together are the text; over UTF-8 text
      each of them is UTF-8 itself. */
  lemma AcceptedCutsTheText(sql: seq<Byte>, ss: seq<Statement>, upper: string -> string)
    requires WellCut(sql, ss, upper)
    ensures Concat(Pieces(sql, ss, 0)) == sql
    ensures |Pieces(sql, ss, 0)| == 2 * |ss| + 1
    ensures Utf8(sql) ==> forall p | p in Pieces(sql, ss, 0) :: Utf8(p)
  {
    PiecesJoin(sql, ss, 0, upper);
    if Utf8(sql) {
      StartsAtBoundary(sql);
      PiecesAreUtf8(sql, ss, 0, upper);
    }
    PieceCount(sql, ss, 0, upper);
  }

  lemma {:induction false} PieceCount(sql: seq<Byte>, ss: seq<Statement>, from: nat, upper: string -> string)
    requires from <= |sql| && WellCut(sql, ss, upper) && (ss != [] ==> from <= ss[0].start)
    ensures |Pieces(sql, ss, from)| == 2 * |ss| + 1
    ensures forall i | 0 <= i < |ss| :: Pieces(sql, ss, from)[2 * i + 1] == sql[ss[i].start..ss[i].end]
  {
    if ss != [] {
      PieceCount(sql, ss[1..], ss[0].end, upper);
      forall i | 0 <= i < |ss| ensures Pieces(sql, ss, from)[2 * i + 1] == sql[ss[i].start..ss[i].end] {
        if i > 0 {
          assert Pieces(sql, ss, from)[2 * i + 1] == Pieces(sql, ss[1..], ss[0].end)[2 * (i - 1) + 1];
          assert ss[1..][i - 1] == ss[i];
        }
      }
    }
  }
}
