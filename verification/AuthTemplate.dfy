/** Credential templates: text with {{field}} and {{base64(part, ...)}} placeholders, a part being a field
    or a double-quoted literal (internal/extreg/auth.go:160-279). The parser is stated as functions here;
    AuthParser holds its loops. A template is a valid UTF-8 string, so it is a sequence of characters. */
module AuthTemplate {
  import opened HexDigits
  import opened Whitespace

  // ---- the data ----

  /** One piece of an unquoted literal: a character, or the single byte of \x80..\xff and \200..\377. */
  datatype Piece = Rune(c: char) | Raw(b: HighByte)

  newtype HighByte = i: int | 128 <= i < 256 witness 128

  datatype Part = FieldPart(name: string) | LitPart(text: seq<Piece>)

  datatype Segment = Text(text: string) | Field(name: string) | Base64(parts: seq<Part>)

  datatype Problem = Unclosed | BadExpr | BadLiteral | BadPart | NoComma | TrailingComma | NoParts

  datatype Parsed<T> = Ok(value: T) | Err(why: Problem)

  // ---- strings ----

  predicate Starts(s: string, prefix: string) {
    prefix <= s
  }

  predicate Ends(s: string, suffix: string) {
    |suffix| <= |s| && s[|s| - |suffix|..] == suffix
  }

  /** strings.Index of "{{"; |s| when there is none. */
  function OpenAt(s: string): (n: nat)
    ensures n <= |s|
    ensures n < |s| ==> n + 2 <= |s| && s[n] == '{' && s[n + 1] == '{'
  {
    if s == [] then 0
    else if Starts(s, "{{") then 0
    else 1 + OpenAt(s[1..])
  }

  /** strings.IndexByte of c; |s| when there is none. */
  function CharAt(s: string, c: char): (n: nat)
    ensures n <= |s| && c !in s[..n] && (n < |s| ==> s[n] == c)
  {
    if s == [] || s[0] == c then 0 else
      assert s[..1 + CharAt(s[1..], c)] == [s[0]] + s[1..][..CharAt(s[1..], c)];
      1 + CharAt(s[1..], c)
  }

  // ---- names: ^[A-Za-z_][A-Za-z0-9_-]*$ ----

  predicate IsAlpha(c: char) {
    'A' <= c <= 'Z' || 'a' <= c <= 'z' || c == '_'
  }

  predicate IsNameChar(c: char) {
    IsAlpha(c) || '0' <= c <= '9' || c == '-'
  }

  predicate IsName(s: string) {
    s != [] && IsAlpha(s[0]) && forall i | 0 <= i < |s| :: IsNameChar(s[i])
  }

  // ---- quoted literals: strconv.QuotedPrefix and Unquote ----

  /** The value of hexadecimal digits; -1 when one of them is not. */
  function Hex(s: string): (v: int)
    ensures v >= -1
  {
    if s == [] then 0
    else if Hex(s[..|s| - 1]) < 0 || HexValue(s[|s| - 1]) < 0 then -1
    else 16 * Hex(s[..|s| - 1]) + HexValue(s[|s| - 1])
  }

  predicate ValidRune(v: int) {
    0 <= v < 0xD800 || 0xE000 <= v < 0x11_0000
  }

  function OneByte(v: int): Piece
    requires 0 <= v < 256
  {
    if v < 128 then Rune(v as char) else Raw(v as HighByte)
  }

  datatype Scanned = Scanned(piece: Piece, rest: string) | Malformed

  function HexEscape(digits: nat, s: string): (r: Scanned)
    ensures r.Scanned? ==> |r.rest| <= |s|
  {
    if |s| < digits || Hex(s[..digits]) < 0 then Malformed
    else
      var v := Hex(s[..digits]);
      if digits == 2 then
        if v < 256 then Scanned(OneByte(v), s[2..]) else Malformed
      else if ValidRune(v) then Scanned(Rune(v as char), s[digits..])
      else Malformed
  }

  function OctalDigit(c: char): int {
    if '0' <= c <= '7' then c as int - '0' as int else -1
  }

  function OctalEscape(s: string): (r: Scanned)
    ensures r.Scanned? ==> |r.rest| <= |s|
  {
    if |s| < 3 || OctalDigit(s[0]) < 0 || OctalDigit(s[1]) < 0 || OctalDigit(s[2]) < 0 then Malformed
    else
      var v := 64 * OctalDigit(s[0]) + 8 * OctalDigit(s[1]) + OctalDigit(s[2]);
      if v < 256 then Scanned(OneByte(v), s[3..]) else Malformed
  }

  /** The escape after a backslash (strconv.UnquoteChar with quote '"'). */
  function Escape(s: string): (r: Scanned)
    requires s != []
    ensures r.Scanned? ==> |r.rest| <= |s|
  {
    match s[0]
    case 'a' => Scanned(Rune('\U{07}'), s[1..])
    case 'b' => Scanned(Rune('\U{08}'), s[1..])
    case 'f' => Scanned(Rune('\U{0C}'), s[1..])
    case 'n' => Scanned(Rune('\n'), s[1..])
    case 'r' => Scanned(Rune('\r'), s[1..])
    case 't' => Scanned(Rune('\t'), s[1..])
    case 'v' => Scanned(Rune('\U{0B}'), s[1..])
    case '\\' => Scanned(Rune('\\'), s[1..])
    case '"' => Scanned(Rune('"'), s[1..])
    case 'x' => HexEscape(2, s[1..])
    case 'u' => HexEscape(4, s[1..])
    case 'U' => HexEscape(8, s[1..])
    case _ => OctalEscape(s)
  }

  datatype Quoted = Quoted(text: seq<Piece>, rest: string) | NotQuoted

  /** From behind the opening quote to the closing one. */
  function Unquote(s: string): (q: Quoted)
    ensures q.Quoted? ==> |q.rest| < |s|
    decreases |s|
  {
    if s == [] || s[0] == '\n' then NotQuoted
    else if s[0] == '"' then Quoted([], s[1..])
    else
      var one :=
        if s[0] != '\\' then Scanned(Rune(s[0]), s[1..])
        else if |s| == 1 then Malformed
        else Escape(s[1..]);
      if one.Malformed? then NotQuoted
      else
        var more := Unquote(one.rest);
        if more.NotQuoted? then NotQuoted else Quoted([one.piece] + more.text, more.rest)
  }

  // ---- the parser ----

  datatype Item = Item(part: Part, rest: string)

  /** One part at the head of a non-empty list. */
  function ParsePart(s: string): (r: Parsed<Item>)
    requires s != []
    ensures r.Ok? ==> |r.value.rest| <= |s|
  {
    if s[0] == '"' then
      var q := Unquote(s[1..]);
      if q.NotQuoted? then Err(BadLiteral) else Ok(Item(LitPart(q.text), q.rest))
    else
      var n := CharAt(s, ',');
      var name := Trim(s[..n]);
      if !IsName(name) then Err(BadPart) else Ok(Item(FieldPart(name), s[n..]))
  }

  /** The loop of parseAuthArgs, on a trimmed non-empty list. */
  function ParseList(s: string): (r: Parsed<seq<Part>>)
    requires s != []
    decreases |s|
  {
    var first := ParsePart(s);
    if first.Err? then Err(first.why)
    else
      var rest := Trim(first.value.rest);
      if rest == [] then Ok([first.value.part])
      else if rest[0] != ',' then Err(NoComma)
      else
        var next := Trim(rest[1..]);
        if next == [] then Err(TrailingComma)
        else
          var more := ParseList(next);
          if more.Err? then more else Ok([first.value.part] + more.value)
  }

  /** parseAuthArgs. */
  function ParseArgs(s: string): Parsed<seq<Part>> {
    if Trim(s) == [] then Err(NoParts) else ParseList(Trim(s))
  }

  const FN := "base64("

  /** parseAuthExpr. */
  function ParseExpr(expr: string): Parsed<Segment> {
    if IsName(expr) then Ok(Field(expr))
    else if !Starts(expr, FN) || !Ends(expr, ")") || |expr| <= |FN| then Err(BadExpr)
    else
      var parts := ParseArgs(expr[|FN|..|expr| - 1]);
      if parts.Err? then Err(parts.why) else Ok(Base64(parts.value))
  }

  /** placeholderEnd: where the "}}" outside quotes is; |s| + 1 when there is none. */
  function BodyEnd(s: string, inQuote: bool): (n: nat)
    ensures n + 2 <= |s| || n == |s| + 1
    decreases |s|
  {
    if s == [] then 1
    else if inQuote && s[0] == '\\' then
      if |s| == 1 then 2 else 2 + BodyEnd(s[2..], inQuote)
    else if s[0] == '"' then 1 + BodyEnd(s[1..], !inQuote)
    else if !inQuote && Starts(s, "}}") then 0
    else 1 + BodyEnd(s[1..], inQuote)
  }

  datatype Cut = Plain | Open(text: string, body: string, rest: string) | NoClose

  /** The first placeholder of a template. */
  function FirstPlaceholder(s: string): (c: Cut)
    ensures c.Open? ==> |c.rest| < |s|
  {
    var start := OpenAt(s);
    if start == |s| then Plain
    else
      var inner := s[start + 2..];
      var end := BodyEnd(inner, false);
      if end > |inner| then NoClose else Open(s[..start], inner[..end], inner[end + 2..])
  }

  function TextOf(s: string): seq<Segment> {
    if s == [] then [] else [Text(s)]
  }

  /** parseAuthTemplate. */
  function Parse(s: string): Parsed<seq<Segment>>
    decreases |s|
  {
    match FirstPlaceholder(s)
    case Plain => Ok(TextOf(s))
    case NoClose => Err(Unclosed)
    case Open(text, body, rest) =>
      var seg, more := ParseExpr(Trim(body)), Parse(rest);
      if seg.Err? then Err(seg.why)
      else if more.Err? then more
      else Ok(TextOf(text) + [seg.value] + more.value)
  }

  // ---- which templates the parser yields ----

  predicate PartOk(p: Part) {
    p.FieldPart? ==> IsName(p.name)
  }

  predicate PartsOk(ps: seq<Part>) {
    ps != [] && forall p | p in ps :: PartOk(p)
  }

  predicate PlaceholderOk(seg: Segment) {
    match seg
    case Text(_) => false
    case Field(n) => IsName(n)
    case Base64(ps) => PartsOk(ps)
  }

  /** Text is not empty, opens no placeholder, and is followed by none it would run into. */
  predicate WellFormed(t: seq<Segment>) {
    if t == [] then true
    else if t[0].Text? then
      && t[0].text != [] && OpenAt(t[0].text) == |t[0].text|
      && (|t| > 1 ==> t[0].text[|t[0].text| - 1] != '{' && PlaceholderOk(t[1]) && WellFormed(t[2..]))
    else PlaceholderOk(t[0]) && WellFormed(t[1..])
  }

  // ---- printing ----

  function HexDigit(v: int): (c: char)
    requires 0 <= v < 16
    ensures HexValue(c) == v && IsNameChar(c)
  {
    if v < 10 then ('0' as int + v) as char else ('a' as int + v - 10) as char
  }

  function PrintPiece(p: Piece): string {
    match p
    case Rune(c) =>
      if c == '"' || c == '\\' then ['\\', c] else if c == '\n' then "\\n" else [c]
    case Raw(b) => ['\\', 'x', HexDigit(b as int / 16), HexDigit(b as int % 16)]
  }

  function PrintPieces(ps: seq<Piece>): string {
    if ps == [] then [] else PrintPiece(ps[0]) + PrintPieces(ps[1..])
  }

  function PrintPart(p: Part): string {
    match p
    case FieldPart(n) => n
    case LitPart(text) => "\"" + PrintPieces(text) + "\""
  }

  function PrintParts(ps: seq<Part>): string {
    if ps == [] then []
    else if |ps| == 1 then PrintPart(ps[0])
    else PrintPart(ps[0]) + ("," + PrintParts(ps[1..]))
  }

  function PrintBody(seg: Segment): string {
    match seg
    case Text(s) => s
    case Field(n) => n
    case Base64(ps) => FN + PrintParts(ps) + ")"
  }

  function PrintSegment(seg: Segment): string {
    if seg.Text? then seg.text else "{{" + PrintBody(seg) + "}}"
  }

  function Print(t: seq<Segment>): string {
    if t == [] then [] else PrintSegment(t[0]) + Print(t[1..])
  }
}
