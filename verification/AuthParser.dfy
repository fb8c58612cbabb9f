/** The loops of the template parser (internal/extreg/auth.go:174-279), each shown to compute the parser
    stated in AuthTemplate. */
module AuthParser {
  import opened AuthTemplate
  import opened Whitespace

  function After<T>(done: seq<T>, r: Parsed<seq<T>>): Parsed<seq<T>> {
    if r.Err? then r else Ok(done + r.value)
  }

  lemma AfterNothing<T>(r: Parsed<seq<T>>)
    ensures After([], r) == r
  {
    if r.Ok? {
      assert [] + r.value == r.value;
    }
  }

  lemma AfterTwice<T>(xs: seq<T>, ys: seq<T>, r: Parsed<seq<T>>)
    ensures After(xs, After(ys, r)) == After(xs + ys, r)
  {
    if r.Ok? {
      assert xs + (ys + r.value) == xs + ys + r.value;
    }
  }

  /** -1 when the placeholder is never closed. */
  method PlaceholderEnd(s: string) returns (n: int)
    ensures n == if BodyEnd(s, false) <= |s| then BodyEnd(s, false) else -1
  {
    var inQuote, i := false, 0;
    while i < |s|
      invariant i <= |s| + 1
      invariant i <= |s| ==> BodyEnd(s, false) == i + BodyEnd(s[i..], inQuote)
      invariant i > |s| ==> BodyEnd(s, false) == |s| + 1
    {
      assert s[i..][1..] == s[i + 1..];
      if inQuote && s[i] == '\\' {
        assert i + 1 < |s| ==> s[i..][2..] == s[i + 2..];
        i := i + 1;
      } else if s[i] == '"' {
        inQuote := !inQuote;
      } else if !inQuote && Starts(s[i..], "}}") {
        return i;
      }
      i := i + 1;
    }
    return -1;
  }

  /** One part at the head of the list: a quoted literal, or a field up to the next comma. */
  method ReadPart(s: string) returns (r: Parsed<Item>)
    requires s != []
    ensures r == ParsePart(s)
  {
    if s[0] == '"' {
      var q := Unquote(s[1..]);
      if q.NotQuoted? {
        return Err(BadLiteral);
      }
      return Ok(Item(LitPart(q.text), q.rest));
    }
    var n := CharAt(s, ',');
    var name := Trim(s[..n]);
    if !IsName(name) {
      return Err(BadPart);
    }
    return Ok(Item(FieldPart(name), s[n..]));
  }

  lemma ListGoesOn(part: Part, s: string, rest: string)
    requires s != [] && ParsePart(s).Ok? && ParsePart(s).value.part == part
    requires var tail := Trim(ParsePart(s).value.rest);
             tail != [] && tail[0] == ',' && rest == Trim(tail[1..]) && rest != []
    ensures ParseList(s) == After([part], ParseList(rest))
  {
  }

  method ParseArgsLoop(input: string) returns (r: Parsed<seq<Part>>)
    ensures r == ParseArgs(input)
  {
    var parts: seq<Part> := [];
    var s := Trim(input);
    if s != [] {
      AfterNothing(ParseList(s));
    }
    while s != []
      invariant s == [] ==> ParseArgs(input) == Err(NoParts)
      invariant s != [] ==> ParseArgs(input) == After(parts, ParseList(s))
      decreases |s|
    {
      var item := ReadPart(s);
      if item.Err? {
        return Err(item.why);
      }
      var rest := Trim(item.value.rest);
      if rest == [] {
        return Ok(parts + [item.value.part]);
      }
      if rest[0] != ',' {
        return Err(NoComma);
      }
      rest := Trim(rest[1..]);
      if rest == [] {
        return Err(TrailingComma);
      }
      ListGoesOn(item.value.part, s, rest);
      AfterTwice(parts, [item.value.part], ParseList(rest));
      parts := parts + [item.value.part];
      s := rest;
    }
    return Err(NoParts);
  }

  /** The first placeholder: the text before it, its body and what follows. */
  method Next(s: string) returns (c: Cut)
    ensures c == FirstPlaceholder(s)
  {
    var start := OpenAt(s);
    if start == |s| {
      return Plain;
    }
    var inner := s[start + 2..];
    var end := PlaceholderEnd(inner);
    if end < 0 {
      return NoClose;
    }
    return Open(s[..start], inner[..end], inner[end + 2..]);
  }

  lemma TemplateGoesOn(s: string, text: string, body: string, rest: string, seg: Segment)
    requires FirstPlaceholder(s) == Open(text, body, rest)
    ensures ParseExpr(Trim(body)) == Ok(seg) ==> Parse(s) == After(TextOf(text) + [seg], Parse(rest))
  {
  }

  method ParseTemplate(input: string) returns (r: Parsed<seq<Segment>>)
    ensures r == Parse(input)
  {
    var out: seq<Segment> := [];
    var s := input;
    AfterNothing(Parse(s));
    while true
      invariant Parse(input) == After(out, Parse(s))
      decreases |s|
    {
      var cut := Next(s);
      match cut {
        case Plain =>
          return Ok(out + if s != [] then [Text(s)] else []);
        case NoClose =>
          return Err(Unclosed);
        case Open(text, body, rest) =>
          var seg := ParseExpr(Trim(body));
          if seg.Err? {
            return Err(seg.why);
          }
          TemplateGoesOn(s, text, body, rest, seg.value);
          AfterTwice(out, TextOf(text) + [seg.value], Parse(rest));
          out := out + (TextOf(text) + [seg.value]);
          s := rest;
      }
    }
  }
}
