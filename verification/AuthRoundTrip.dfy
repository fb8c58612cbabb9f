/** Printing and parsing credential templates are inverse: the templates that survive printing and parsing
    are exactly the well-formed ones, and the parser yields no other. */
module AuthRoundTrip {
  import opened AuthTemplate
  import opened Whitespace

  // ---- trimming ----

  predicate Tight(s: string) {
    s != [] && !IsSpace(s[0]) && !IsSpace(s[|s| - 1])
  }

  lemma TrimTight(s: string)
    requires Tight(s)
    ensures Trim(s) == s
  {
  }

  lemma NameIsTight(s: string)
    requires IsName(s)
    ensures Tight(s) && '"' !in s && ',' !in s && '(' !in s && '}' !in s
  {
    assert IsNameChar(s[|s| - 1]);
  }

  // ---- quoted literals ----

  lemma PieceScans(p: Piece, tail: string)
    ensures var s := PrintPiece(p) + tail;
            && s[0] != '"' && s[0] != '\n'
            && (s[0] != '\\' ==> p == Rune(s[0]) && s[1..] == tail)
            && (s[0] == '\\' ==> |s| > 1 && Escape(s[1..]) == Scanned(p, tail))
  {
    var s := PrintPiece(p) + tail;
    if p.Raw? {
      var hi, lo := HexDigit(p.b as int / 16), HexDigit(p.b as int % 16);
      assert s[1] == 'x' && s[1..][1..][..2] == [hi, lo];
      assert [hi, lo][..1] == [hi] && [hi][..0] == [];
      assert Hex([hi]) == p.b as int / 16;
      assert Hex([hi, lo]) == p.b as int;
      assert s[1..][1..][2..] == tail;
    } else {
      assert s[|PrintPiece(p)|..] == tail;
    }
  }

  lemma Cat3(a: string, b: string, c: string)
    ensures a + b + c == a + (b + c)
  {
  }

  lemma UnquoteOne(p: Piece, rest: string)
    ensures Unquote(rest).Quoted? ==>
              Unquote(PrintPiece(p) + rest) == Quoted([p] + Unquote(rest).text, Unquote(rest).rest)
  {
    PieceScans(p, rest);
  }

  lemma {:induction false} UnquotePrinted(ps: seq<Piece>, tail: string)
    ensures Unquote(PrintPieces(ps) + ("\"" + tail)) == Quoted(ps, tail)
  {
    var end := "\"" + tail;
    if ps == [] {
      assert end[1..] == tail;
      assert PrintPieces(ps) + end == end;
    } else {
      UnquotePrinted(ps[1..], tail);
      UnquoteOne(ps[0], PrintPieces(ps[1..]) + end);
      Cat3(PrintPiece(ps[0]), PrintPieces(ps[1..]), end);
      assert ps == [ps[0]] + ps[1..];
    }
  }

  // ---- lists of parts ----

  lemma PartIsTight(p: Part)
    requires PartOk(p)
    ensures Tight(PrintPart(p))
  {
    if p.FieldPart? {
      NameIsTight(p.name);
    }
  }

  lemma {:induction false} PartsAreTight(ps: seq<Part>)
    requires PartsOk(ps)
    ensures Tight(PrintParts(ps))
  {
    PartIsTight(ps[0]);
    if |ps| > 1 {
      PartsAreTight(ps[1..]);
    }
  }

  lemma {:induction false} CharAtSkips(s: string, tail: string, c: char)
    requires c !in s && (tail == [] || tail[0] == c)
    ensures CharAt(s + tail, c) == |s|
  {
    if s == [] {
      assert s + tail == tail;
    } else {
      CharAtSkips(s[1..], tail, c);
      assert (s + tail)[1..] == s[1..] + tail;
    }
  }

  lemma ParsePrintedField(n: string, tail: string)
    requires IsName(n) && (tail == [] || tail[0] == ',')
    ensures ParsePart(n + tail) == Ok(Item(FieldPart(n), tail))
  {
    NameIsTight(n);
    TrimTight(n);
    CharAtSkips(n, tail, ',');
    assert (n + tail)[..|n|] == n && (n + tail)[|n|..] == tail;
  }

  lemma BehindTheQuote(inner: string, tail: string)
    ensures ("\"" + inner + "\"" + tail)[0] == '"'
    ensures ("\"" + inner + "\"" + tail)[1..] == inner + ("\"" + tail)
  {
  }

  lemma ParsePrintedLiteral(text: seq<Piece>, tail: string)
    ensures ParsePart(PrintPart(LitPart(text)) + tail) == Ok(Item(LitPart(text), tail))
  {
    UnquotePrinted(text, tail);
    BehindTheQuote(PrintPieces(text), tail);
  }

  lemma ParsePrintedPart(p: Part, tail: string)
    requires PartOk(p) && (tail == [] || tail[0] == ',')
    ensures PrintPart(p) + tail != [] && ParsePart(PrintPart(p) + tail) == Ok(Item(p, tail))
  {
    match p {
      case FieldPart(n) => ParsePrintedField(n, tail);
      case LitPart(text) => ParsePrintedLiteral(text, tail);
    }
  }

  lemma ParseOnePart(p: Part)
    requires PartOk(p)
    ensures PrintPart(p) != [] && ParseList(PrintPart(p)) == Ok([p])
  {
    ParsePrintedPart(p, []);
    assert PrintPart(p) + [] == PrintPart(p);
  }

  lemma ParsePartAndMore(p: Part, more: string)
    requires PartOk(p) && Tight(more)
    ensures var s := PrintPart(p) + ("," + more);
            s != [] && (ParseList(more).Ok? ==> ParseList(s) == Ok([p] + ParseList(more).value))
  {
    ParsePrintedPart(p, "," + more);
    CommaAndMore(more);
  }

  lemma CommaAndMore(more: string)
    requires Tight(more)
    ensures Trim("," + more) == "," + more && ("," + more)[1..] == more && Trim(more) == more
  {
    TrimTight("," + more);
    TrimTight(more);
  }

  lemma PrintPartsFirst(ps: seq<Part>)
    requires |ps| > 1
    ensures PrintParts(ps) == PrintPart(ps[0]) + ("," + PrintParts(ps[1..])) && ps == [ps[0]] + ps[1..]
  {
  }

  lemma {:induction false} ParsePrintedParts(ps: seq<Part>)
    requires PartsOk(ps)
    ensures PrintParts(ps) != [] && ParseList(PrintParts(ps)) == Ok(ps)
  {
    if |ps| == 1 {
      ParseOnePart(ps[0]);
      assert ps == [ps[0]];
    } else {
      PartsAreTight(ps[1..]);
      ParsePrintedParts(ps[1..]);
      ParsePartAndMore(ps[0], PrintParts(ps[1..]));
      PrintPartsFirst(ps);
    }
  }

  lemma ArgsParse(inner: string, ps: seq<Part>)
    requires Tight(inner) && ParseList(inner) == Ok(ps)
    ensures Tight(FN + inner + ")") && ParseExpr(FN + inner + ")") == Ok(Base64(ps))
  {
    var s := FN + inner + ")";
    TrimTight(inner);
    assert s[6] == '(';
    assert s[|FN|..|s| - 1] == inner;
    assert s[|s| - 1..] == ")";
  }

  lemma BodyParses(seg: Segment)
    requires PlaceholderOk(seg)
    ensures Tight(PrintBody(seg)) && ParseExpr(PrintBody(seg)) == Ok(seg)
  {
    match seg {
      case Field(n) =>
        NameIsTight(n);
      case Base64(ps) =>
        PartsAreTight(ps);
        ParsePrintedParts(ps);
        ArgsParse(PrintParts(ps), ps);
    }
  }

  // ---- where a placeholder ends ----

  lemma {:induction false} SkipUnquoted(s: string, tail: string)
    requires '"' !in s && '}' !in s
    ensures BodyEnd(s + tail, false) == |s| + BodyEnd(tail, false)
  {
    if s == [] {
      assert s + tail == tail;
    } else {
      SkipUnquoted(s[1..], tail);
      assert (s + tail)[1..] == s[1..] + tail;
      assert s[0] in s;
    }
  }

  lemma SkipQuotedChar(c: char, tail: string)
    requires c != '"' && c != '\\'
    ensures BodyEnd([c] + tail, true) == 1 + BodyEnd(tail, true)
  {
    assert ([c] + tail)[1..] == tail;
  }

  lemma SkipEscaped(c: char, tail: string)
    ensures BodyEnd(['\\', c] + tail, true) == 2 + BodyEnd(tail, true)
  {
    assert (['\\', c] + tail)[2..] == tail;
  }

  lemma SkipPiece(p: Piece, tail: string)
    ensures BodyEnd(PrintPiece(p) + tail, true) == |PrintPiece(p)| + BodyEnd(tail, true)
  {
    match p {
      case Rune(c) =>
        if c == '"' || c == '\\' {
          SkipEscaped(c, tail);
        } else if c == '\n' {
          SkipEscaped('n', tail);
        } else {
          SkipQuotedChar(c, tail);
        }
      case Raw(b) =>
        var hi, lo := HexDigit(b as int / 16), HexDigit(b as int % 16);
        SkipQuotedChar(lo, tail);
        SkipQuotedChar(hi, [lo] + tail);
        SkipEscaped('x', [hi] + ([lo] + tail));
        assert PrintPiece(p) + tail == ['\\', 'x'] + ([hi] + ([lo] + tail));
    }
  }

  lemma {:induction false} SkipPieces(ps: seq<Piece>, tail: string)
    ensures BodyEnd(PrintPieces(ps) + tail, true) == |PrintPieces(ps)| + BodyEnd(tail, true)
  {
    if ps == [] {
      assert PrintPieces(ps) + tail == tail;
    } else {
      SkipPieces(ps[1..], tail);
      SkipPiece(ps[0], PrintPieces(ps[1..]) + tail);
      assert PrintPieces(ps) + tail == PrintPiece(ps[0]) + (PrintPieces(ps[1..]) + tail);
    }
  }

  lemma SkipPart(p: Part, tail: string)
    requires PartOk(p)
    ensures BodyEnd(PrintPart(p) + tail, false) == |PrintPart(p)| + BodyEnd(tail, false)
  {
    match p {
      case FieldPart(n) =>
        NameIsTight(n);
        SkipUnquoted(n, tail);
      case LitPart(text) =>
        var inner := PrintPieces(text) + ("\"" + tail);
        SkipPieces(text, "\"" + tail);
        assert (PrintPart(p) + tail)[1..] == inner;
        assert ("\"" + tail)[1..] == tail;
    }
  }

  lemma SkipPartAndMore(p: Part, more: string)
    requires PartOk(p)
    ensures BodyEnd(PrintPart(p) + ("," + more), false) == |PrintPart(p)| + 1 + BodyEnd(more, false)
  {
    SkipUnquoted(",", more);
    SkipPart(p, "," + more);
  }

  lemma TailLast(first: string, more: string, tail: string)
    ensures first + ("," + more) + tail == first + ("," + (more + tail))
  {
  }

  lemma {:induction false} SkipParts(ps: seq<Part>, tail: string)
    requires PartsOk(ps)
    ensures BodyEnd(PrintParts(ps) + tail, false) == |PrintParts(ps)| + BodyEnd(tail, false)
  {
    if |ps| == 1 {
      SkipPart(ps[0], tail);
    } else {
      SkipParts(ps[1..], tail);
      SkipPartAndMore(ps[0], PrintParts(ps[1..]) + tail);
      PrintPartsFirst(ps);
      TailLast(PrintPart(ps[0]), PrintParts(ps[1..]), tail);
    }
  }

  lemma CallEndsAtBraces(inner: string, close: string)
    requires Starts(close, "}}") && BodyEnd(inner + (")" + close), false) == |inner| + BodyEnd(")" + close, false)
    ensures BodyEnd(FN + inner + ")" + close, false) == |FN| + |inner| + 1
  {
    SkipUnquoted(")", close);
    SkipUnquoted(FN, inner + (")" + close));
    assert FN + inner + ")" + close == FN + (inner + (")" + close));
  }

  lemma ArgsEndAtBraces(ps: seq<Part>, close: string)
    requires PartsOk(ps) && Starts(close, "}}")
    ensures BodyEnd(FN + PrintParts(ps) + ")" + close, false) == |FN| + |PrintParts(ps)| + 1
  {
    SkipParts(ps, ")" + close);
    CallEndsAtBraces(PrintParts(ps), close);
  }

  lemma BodyEndsAtBraces(seg: Segment, tail: string)
    requires PlaceholderOk(seg)
    ensures BodyEnd(PrintBody(seg) + "}}" + tail, false) == |PrintBody(seg)|
  {
    var close := "}}" + tail;
    assert PrintBody(seg) + "}}" + tail == PrintBody(seg) + close;
    match seg {
      case Field(n) =>
        NameIsTight(n);
        SkipUnquoted(n, close);
      case Base64(ps) =>
        ArgsEndAtBraces(ps, close);
    }
  }

  // ---- the round trip ----

  lemma {:induction false} OpensAfterText(s: string, tail: string)
    requires OpenAt(s) == |s| && (s == [] || s[|s| - 1] != '{')
    ensures OpenAt(s + "{{" + tail) == |s|
  {
    var all := s + "{{" + tail;
    if s == [] {
      assert all == "{{" + tail;
      assert Starts(all, "{{");
    } else {
      assert !Starts(s, "{{");
      OpensAfterText(s[1..], tail);
      assert all[1..] == s[1..] + "{{" + tail;
      assert all[0] == s[0] && all[1] == if |s| > 1 then s[1] else '{';
      assert |s| > 1 ==> s[..2] == [s[0], s[1]];
      assert !Starts(all, "{{");
    }
  }

  lemma CutsAt(text: string, body: string, tail: string)
    requires OpenAt(text + "{{" + (body + "}}" + tail)) == |text| && BodyEnd(body + "}}" + tail, false) == |body|
    ensures FirstPlaceholder(text + "{{" + (body + "}}" + tail)) == Open(text, body, tail)
  {
    var inner := body + "}}" + tail;
    var s := text + "{{" + inner;
    assert s[|text| + 2..] == inner;
    assert inner[..|body|] == body;
    assert inner[|body| + 2..] == tail;
    assert s[..|text|] == text;
  }

  lemma Regroup(text: string, body: string, tail: string)
    ensures text + ("{{" + body + "}}" + tail) == text + "{{" + (body + "}}" + tail)
  {
  }

  lemma FindsPrinted(text: string, seg: Segment, tail: string)
    requires OpenAt(text) == |text| && (text == [] || text[|text| - 1] != '{') && PlaceholderOk(seg)
    ensures FirstPlaceholder(text + (PrintSegment(seg) + tail)) == Open(text, PrintBody(seg), tail)
  {
    var body := PrintBody(seg);
    OpensAfterText(text, body + "}}" + tail);
    BodyEndsAtBraces(seg, tail);
    CutsAt(text, body, tail);
    Regroup(text, body, tail);
  }

  lemma ParsesPrinted(text: string, seg: Segment, tail: string)
    requires OpenAt(text) == |text| && (text == [] || text[|text| - 1] != '{') && PlaceholderOk(seg)
    requires Parse(tail).Ok?
    ensures Parse(text + (PrintSegment(seg) + tail)) == Ok(TextOf(text) + [seg] + Parse(tail).value)
  {
    FindsPrinted(text, seg, tail);
    BodyParses(seg);
    TrimTight(PrintBody(seg));
  }

  lemma PrintsInOrder(text: string, seg: Segment, rest: seq<Segment>)
    ensures Print(TextOf(text) + [seg] + rest) == text + (PrintSegment(seg) + Print(rest))
  {
    var tail := [seg] + rest;
    assert tail[1..] == rest;
    assert TextOf(text) + [seg] + rest == TextOf(text) + tail;
    if text != [] {
      assert (TextOf(text) + tail)[1..] == tail;
    } else {
      assert TextOf(text) + tail == tail;
    }
  }

  lemma ParsesInOrder(text: string, seg: Segment, rest: seq<Segment>)
    requires OpenAt(text) == |text| && (text == [] || text[|text| - 1] != '{') && PlaceholderOk(seg)
    requires Parse(Print(rest)) == Ok(rest)
    ensures Parse(Print(TextOf(text) + [seg] + rest)) == Ok(TextOf(text) + [seg] + rest)
  {
    ParsesPrinted(text, seg, Print(rest));
    PrintsInOrder(text, seg, rest);
  }

  lemma Shapes(t: seq<Segment>)
    requires t != []
    ensures t[0].Text? && t[0].text != [] && |t| == 1 ==> t == TextOf(t[0].text)
    ensures t[0].Text? && t[0].text != [] && |t| > 1 ==> t == TextOf(t[0].text) + [t[1]] + t[2..]
    ensures t == TextOf([]) + [t[0]] + t[1..]
  {
  }

  lemma {:induction false} WellFormedParses(t: seq<Segment>)
    requires WellFormed(t)
    ensures Parse(Print(t)) == Ok(t)
    decreases |t|
  {
    if t == [] {
      assert Parse([]) == Ok([]);
    } else {
      Shapes(t);
      if !t[0].Text? {
        WellFormedParses(t[1..]);
        ParsesInOrder([], t[0], t[1..]);
      } else if |t| == 1 {
        LoneTextParses(t[0].text);
      } else {
        WellFormedParses(t[2..]);
        ParsesInOrder(t[0].text, t[1], t[2..]);
      }
    }
  }

  lemma LoneTextParses(text: string)
    requires text != [] && OpenAt(text) == |text|
    ensures Parse(Print(TextOf(text))) == Ok(TextOf(text))
  {
    assert TextOf(text)[1..] == [];
    assert Print([]) == [];
    assert Print(TextOf(text)) == text;
  }

  // ---- the parser yields only well-formed templates ----

  lemma {:induction false} ListIsOk(s: string)
    requires s != [] && ParseList(s).Ok?
    ensures PartsOk(ParseList(s).value)
    decreases |s|
  {
    var first := ParsePart(s);
    var rest := Trim(first.value.rest);
    if rest != [] {
      ListIsOk(Trim(rest[1..]));
    }
  }

  lemma ExprIsOk(s: string)
    requires ParseExpr(s).Ok?
    ensures PlaceholderOk(ParseExpr(s).value)
  {
    if !IsName(s) {
      ListIsOk(Trim(s[|FN|..|s| - 1]));
    }
  }

  lemma {:induction false} TextBeforeOpening(s: string)
    ensures var n := OpenAt(s); OpenAt(s[..n]) == n && (0 < n < |s| ==> s[n - 1] != '{')
  {
    var n := OpenAt(s);
    if n == 0 {
    } else {
      TextBeforeOpening(s[1..]);
      assert s[..n][1..] == s[1..][..n - 1];
      assert !Starts(s[..n], "{{") by {
        if n >= 2 {
          assert s[..n][..2] == s[..2];
        }
      }
      if n == 1 && n < |s| {
        assert s[1] == '{';
        assert s[..2] == [s[0], s[1]];
      }
    }
  }

  lemma PrefixedIsWellFormed(text: string, seg: Segment, rest: seq<Segment>)
    requires OpenAt(text) == |text| && (text == [] || text[|text| - 1] != '{')
    requires PlaceholderOk(seg) && WellFormed(rest)
    ensures WellFormed(TextOf(text) + [seg] + rest)
  {
    var t := TextOf(text) + [seg] + rest;
    if text == [] {
      assert t[1..] == rest;
    } else {
      assert t[2..] == rest;
    }
  }

  lemma {:induction false} ParseIsWellFormed(s: string)
    requires Parse(s).Ok?
    ensures WellFormed(Parse(s).value)
    decreases |s|
  {
    TextBeforeOpening(s);
    match FirstPlaceholder(s) {
      case Plain =>
        assert s[..|s|] == s;
      case Open(text, body, rest) =>
        ExprIsOk(Trim(body));
        ParseIsWellFormed(rest);
        PrefixedIsWellFormed(text, ParseExpr(Trim(body)).value, Parse(rest).value);
    }
  }

  /** A template comes back from printing and parsing exactly when it is well formed. */
  lemma PrintThenParse(t: seq<Segment>)
    ensures Parse(Print(t)) == Ok(t) <==> WellFormed(t)
  {
    if WellFormed(t) {
      WellFormedParses(t);
    } else if Parse(Print(t)).Ok? {
      ParseIsWellFormed(Print(t));
    }
  }

  /** Whatever is accepted has a printed form that means the same. */
  lemma ParseThenPrint(s: string)
    requires Parse(s).Ok?
    ensures Parse(Print(Parse(s).value)) == Parse(s)
  {
    ParseIsWellFormed(s);
    WellFormedParses(Parse(s).value);
  }
}
