// Generated text in Markdown: the positional escape, its decoder, and fences.
module Markdown {
  // ---- One logical line ----

  function LeadingSpaces(s: string): (n: nat)
    ensures n <= |s| && (forall i | 0 <= i < n :: s[i] == ' ') && (n < |s| ==> s[n] != ' ')
  {
    if s == "" || s[0] != ' ' then 0 else 1 + LeadingSpaces(s[1..])
  }

  // Where the line ends once trailing spaces behind `start` are left off.
  function BodyEnd(s: string, start: nat): (n: nat)
    requires start <= |s|
    ensures start <= n <= |s| && (forall i | n <= i < |s| :: s[i] == ' ') && (start < n ==> s[n - 1] != ' ')
  {
    if |s| == start || s[|s| - 1] != ' ' then |s| else BodyEnd(s[..|s| - 1], start)
  }

  function Body(line: string): string {
    var start := LeadingSpaces(line);
    line[start..BodyEnd(line, start)]
  }

  predicate IsDigit(c: char) { '0' <= c <= '9' }

  predicate IsAlphanumeric(c: char) { IsDigit(c) || 'A' <= c <= 'Z' || 'a' <= c <= 'z' }

  function DigitRun(s: string): (n: nat)
    ensures n <= |s| && (forall i | 0 <= i < n :: IsDigit(s[i])) && (n < |s| ==> !IsDigit(s[n]))
  {
    if s == "" || !IsDigit(s[0]) then 0 else 1 + DigitRun(s[1..])
  }

  // The delimiter of an ordered-list marker at the start of the body, or -1.
  function OrderedDelimiter(body: string): int {
    var n := DigitRun(body);
    if 1 <= n <= 9 && n < |body| && EndsMarker(body[n]) && (n + 1 == |body| || body[n + 1] == ' ') then n else -1
  }

  // CommonMark's intraword rule already neutralises this underscore.
  predicate InertUnderscore(body: string, i: nat) {
    0 < i < |body| - 1 && IsAlphanumeric(body[i - 1]) && IsAlphanumeric(body[i + 1])
  }

  function Delimiter(line: string): int {
    if LeadingSpaces(line) == 0 then OrderedDelimiter(Body(line)) else -1
  }

  predicate AlwaysEscaped(c: char) {
    c == '\\' || c == '`' || c == '*' || c == '[' || c == ']' || c == '~'
  }

  predicate EscapedWhenLeading(c: char) {
    c == '-' || c == '+' || c == '#' || c == '>' || c == '=' || c == '|' || c == ':'
  }

  predicate EndsMarker(c: char) { c == '.' || c == ')' }

  function Piece(body: string, i: nat, first: bool, delimiter: int): string
    requires i < |body|
  {
    var c := body[i];
    if c == '\t' then "&#9;"
    else if c == '<' then "&lt;"
    else if c == '&' then "&amp;"
    else if AlwaysEscaped(c) then ['\\', c]
    else if c == '_' then (if InertUnderscore(body, i) then "_" else "\\_")
    else if first && i == 0 && EscapedWhenLeading(c) then ['\\', c]
    else if i == delimiter then ['\\', c]
    else [c]
  }

  function Pieces(body: string, i: nat, first: bool, delimiter: int): string
    requires i <= |body|
    decreases |body| - i
  {
    if i == |body| then "" else Piece(body, i, first, delimiter) + Pieces(body, i + 1, first, delimiter)
  }

  function References(n: nat): string {
    if n == 0 then "" else "&#32;" + References(n - 1)
  }

  function EscapedLine(line: string): string {
    var start := LeadingSpaces(line);
    References(start) + Pieces(Body(line), 0, start == 0, Delimiter(line)) + References(|line| - BodyEnd(line, start))
  }

  // The pieces a loop over the body has appended after i characters.
  function Appended(body: string, i: nat, first: bool, delimiter: int): string
    requires i <= |body|
  {
    if i == 0 then "" else Appended(body, i - 1, first, delimiter) + Piece(body, i - 1, first, delimiter)
  }

  lemma {:induction false} AppendedThenRest(body: string, i: nat, first: bool, delimiter: int)
    requires i <= |body|
    ensures Appended(body, i, first, delimiter) + Pieces(body, i, first, delimiter) == Pieces(body, 0, first, delimiter)
  {
    if i > 0 {
      var before := Appended(body, i - 1, first, delimiter);
      AppendedThenRest(body, i - 1, first, delimiter);
      Regroup(before, Piece(body, i - 1, first, delimiter), Pieces(body, i, first, delimiter));
    }
  }

  lemma Regroup(a: string, b: string, c: string)
    ensures (a + b) + c == a + (b + c)
  {
  }

  lemma LeadingSpacesAt(s: string, n: nat)
    requires n <= |s| && (forall i | 0 <= i < n :: s[i] == ' ') && (n < |s| ==> s[n] != ' ')
    ensures LeadingSpaces(s) == n
  {
  }

  lemma BodyEndAt(s: string, start: nat, n: nat)
    requires start <= n <= |s| && (forall i | n <= i < |s| :: s[i] == ' ') && (start < n ==> s[n - 1] != ' ')
    ensures BodyEnd(s, start) == n
  {
  }

  method EscapeLogicalLine(line: string) returns (r: string)
    ensures r == EscapedLine(line)
  {
    var bodyStart := 0;
    while bodyStart < |line| && line[bodyStart] == ' '
      invariant bodyStart <= |line| && forall i | 0 <= i < bodyStart :: line[i] == ' '
    {
      bodyStart := bodyStart + 1;
    }
    LeadingSpacesAt(line, bodyStart);
    var bodyEnd := |line|;
    while bodyEnd > bodyStart && line[bodyEnd - 1] == ' '
      invariant bodyStart <= bodyEnd <= |line| && forall i | bodyEnd <= i < |line| :: line[i] == ' '
    {
      bodyEnd := bodyEnd - 1;
    }
    BodyEndAt(line, bodyStart, bodyEnd);
    var body := line[bodyStart..bodyEnd];
    var delimiter := -1;
    if bodyStart == 0 { delimiter := FindDelimiter(body); }
    var middle := EscapeBody(body, bodyStart == 0, delimiter);
    r := References(bodyStart) + middle + References(|line| - bodyEnd);
  }

  method EscapeBody(body: string, first: bool, delimiter: int) returns (r: string)
    ensures r == Pieces(body, 0, first, delimiter)
  {
    r := "";
    for i := 0 to |body|
      invariant r == Appended(body, i, first, delimiter)
    {
      var spelled := SpellAt(body, i, first, delimiter);
      r := r + spelled;
    }
    AppendedThenRest(body, |body|, first, delimiter);
  }

  // One to nine digits, a full stop or a parenthesis, and then a space or the end.
  method FindDelimiter(body: string) returns (d: int)
    ensures d == OrderedDelimiter(body)
  {
    var n := 0;
    while n < |body| && body[n] in "0123456789"
      invariant n <= |body| && forall i | 0 <= i < n :: IsDigit(body[i])
    {
      n := n + 1;
    }
    DigitRunAt(body, n);
    d := if n == 0 || n > 9 || n == |body| || body[n] !in ".)" || (n + 1 < |body| && body[n + 1] != ' ') then -1 else n;
  }

  lemma DigitRunAt(s: string, n: nat)
    requires n <= |s| && (forall i | 0 <= i < n :: IsDigit(s[i])) && (n < |s| ==> !IsDigit(s[n]))
    ensures DigitRun(s) == n
  {
  }

  // What one character of a body becomes.
  method SpellAt(body: string, i: nat, first: bool, delimiter: int) returns (r: string)
    requires i < |body|
    ensures r == Piece(body, i, first, delimiter)
  {
    var c := body[i];
    r := [c];
    match c {
      case '\t' => r := "&#9;";
      case '<' => r := "&lt;";
      case '&' => r := "&amp;";
      case '_' =>
        var inside := i > 0 && i + 1 < |body|;
        if inside {
          var a, b := body[i - 1], body[i + 1];
          inside := ('0' <= a <= '9' || 'a' <= a <= 'z' || 'A' <= a <= 'Z')
                    && ('0' <= b <= '9' || 'a' <= b <= 'z' || 'A' <= b <= 'Z');
        }
        if !inside { r := "\\_"; }
      case _ =>
        if c in "\\`*[]~" || (first && i == 0 && c in "#>-+=|:") || i == delimiter { r := ['\\', c]; }
    }
  }

  // ---- Whole texts ----

  function LogicalLines(text: string): (r: seq<string>)
    ensures r != [] && forall l | l in r :: '\n' !in l
    ensures JoinedLines(r) == text
  {
    if text == "" then [""]
    else
      var others := LogicalLines(text[1..]);
      if text[0] == '\n' then [""] + others
      else
        var r := [[text[0]] + others[0]] + others[1..];
        assert others == [others[0]] + others[1..];
        r
  }

  function JoinedLines(lines: seq<string>): string
    requires lines != []
  {
    if |lines| == 1 then lines[0] else lines[0] + "\n" + JoinedLines(lines[1..])
  }

  function Spaces(n: nat): string {
    seq(n, _ => ' ')
  }

  // Two spaces and a line feed are the renderer's hard break; the block supplies the indent.
  function JoinedEscapes(lines: seq<string>, indent: nat): string
    requires lines != []
  {
    if |lines| == 1 then EscapedLine(lines[0])
    else EscapedLine(lines[0]) + ("  \n" + Spaces(indent) + JoinedEscapes(lines[1..], indent))
  }

  // Line endings become LF.
  function Newlines(value: string): string {
    if value == "" then ""
    else if |value| > 1 && value[0] == '\r' && value[1] == '\n' then "\n" + Newlines(value[2..])
    else (if value[0] == '\r' then "\n" else [value[0]]) + Newlines(value[1..])
  }

  // Each CR LF, and each CR without a LF, becomes one LF; nothing else changes.
  lemma NewlinesMeans(a: string, b: string)
    requires '\r' !in a
    ensures Newlines(a) == a && Newlines(a + ("\r\n" + b)) == a + ("\n" + Newlines(b))
    ensures b == "" || b[0] != '\n' ==> Newlines(a + ("\r" + b)) == a + ("\n" + Newlines(b))
  {
    NewlinesBefore(a, "");
    assert a + "" == a;
    NewlinesBefore(a, "\r\n" + b);
    NewlinesBefore(a, "\r" + b);
    NewlinesAtReturn(b);
  }

  lemma {:induction false} NewlinesBefore(a: string, s: string)
    requires '\r' !in a
    ensures Newlines(a + s) == a + Newlines(s)
  {
    if a != "" {
      assert a + s == [a[0]] + (a[1..] + s);
      NewlinesBefore(a[1..], s);
      NewlinesElsewhere(a[0], a[1..] + s);
      Regroup([a[0]], a[1..], Newlines(s));
      assert [a[0]] + a[1..] == a;
    } else {
      assert "" + s == s;
    }
  }

  lemma NewlinesAtReturn(b: string)
    ensures Newlines("\r\n" + b) == "\n" + Newlines(b)
    ensures b == "" || b[0] != '\n' ==> Newlines("\r" + b) == "\n" + Newlines(b)
  {
    assert ("\r\n" + b)[2..] == b && ("\r" + b)[1..] == b;
  }

  lemma NewlinesElsewhere(c: char, t: string)
    requires c != '\r'
    ensures Newlines([c] + t) == [c] + Newlines(t)
  {
    assert ([c] + t)[1..] == t;
  }

  function EscapeGenerated(value: string, nfc: string -> string, indent: nat): string {
    JoinedEscapes(LogicalLines(nfc(Newlines(value))), indent)
  }

  // ---- Reading the text back ----

  // Left to right: references, backslash escapes, hard breaks, plain characters.
  function Decode(s: string, indent: nat): string
    decreases |s|
  {
    if s == "" then ""
    else if s[0] == '\\' && |s| > 1 then [s[1]] + Decode(s[2..], indent)
    else if s[0] == '&' && "&#32;" <= s then " " + Decode(s[5..], indent)
    else if s[0] == '&' && "&#9;" <= s then "\t" + Decode(s[4..], indent)
    else if s[0] == '&' && "&lt;" <= s then "<" + Decode(s[4..], indent)
    else if s[0] == '&' && "&amp;" <= s then "&" + Decode(s[5..], indent)
    else if IsBreak(s) && |s| >= 3 + indent then "\n" + Decode(s[3 + indent..], indent)
    else [s[0]] + Decode(s[1..], indent)
  }

  predicate IsBreak(s: string) {
    |s| >= 3 && s[0] == ' ' && s[1] == ' ' && s[2] == '\n'
  }

  lemma PieceStart(body: string, i: nat, first: bool, delimiter: int)
    requires i < |body| && '\n' !in body
    ensures var p := Piece(body, i, first, delimiter);
            p != "" && p[0] != '\n' && (p[0] == ' ' ==> p == " " && body[i] == ' ')
  {
  }

  lemma ReferenceDecodes(tail: string, indent: nat)
    ensures Decode("&#9;" + tail, indent) == "\t" + Decode(tail, indent)
    ensures Decode("&#32;" + tail, indent) == " " + Decode(tail, indent)
    ensures Decode("&lt;" + tail, indent) == "<" + Decode(tail, indent)
    ensures Decode("&amp;" + tail, indent) == "&" + Decode(tail, indent)
  {
    assert ("&#9;" + tail)[2] == '9' && "&#32;"[2] == '3';
    assert ("&#9;" + tail)[4..] == tail && ("&#32;" + tail)[5..] == tail;
    assert ("&lt;" + tail)[4..] == tail && ("&amp;" + tail)[5..] == tail;
  }

  lemma PlainDecodes(c: char, tail: string, indent: nat)
    ensures Decode(['\\', c] + tail, indent) == [c] + Decode(tail, indent)
    ensures c != '\\' && c != '&' && (c == ' ' ==> !IsBreak(" " + tail)) ==>
      Decode([c] + tail, indent) == [c] + Decode(tail, indent)
  {
    assert (['\\', c] + tail)[2..] == tail && ([c] + tail)[1..] == tail;
    if c == ' ' { assert [c] + tail == " " + tail; }
  }

  // Every piece is a reference, an escape or the plain character.
  lemma PieceKinds(body: string, i: nat, first: bool, delimiter: int)
    requires i < |body|
    ensures var c, p := body[i], Piece(body, i, first, delimiter);
      || (c == '\t' && p == "&#9;") || (c == '<' && p == "&lt;") || (c == '&' && p == "&amp;")
      || p == ['\\', c]
      || (p == [c] && c != '\\' && c != '&' && i != delimiter)
      || (p == [c] && c != '\\' && c != '&' && c != ' ')
  {
  }

  lemma PieceDecodes(body: string, i: nat, first: bool, delimiter: int, tail: string, indent: nat)
    requires i < |body| && '\n' !in body
    requires body[i] == ' ' && i != delimiter ==> !IsBreak(" " + tail)
    ensures Decode(Piece(body, i, first, delimiter) + tail, indent) == [body[i]] + Decode(tail, indent)
  {
    PieceKinds(body, i, first, delimiter);
    var c, p := body[i], Piece(body, i, first, delimiter);
    if p == ['\\', c] || p == [c] {
      PlainDecodes(c, tail, indent);
    } else {
      ReferenceDecodes(tail, indent);
    }
  }

  lemma PiecesStart(body: string, i: nat, first: bool, delimiter: int, tail: string)
    requires i < |body| && '\n' !in body
    ensures var s := Pieces(body, i, first, delimiter) + tail; s != "" && s[0] != '\n'
  {
    PieceStart(body, i, first, delimiter);
    assert (Pieces(body, i, first, delimiter) + tail)[0] == Piece(body, i, first, delimiter)[0];
  }

  // Two characters on, the text of a body that goes on is no line feed.
  lemma BreakNeedsFeed(a: string, b: string)
    requires (a != "" && a[0] == ' ' ==> a == " " && b != "" && b[0] != '\n') && a != ""
    ensures !IsBreak(" " + (a + b))
  {
    var s := " " + (a + b);
    assert s[1] == a[0];
    if a == " " { assert s[2] == b[0]; }
  }

  // Inside a body no raw space begins a hard break: the body goes on behind it.
  lemma NoBreakInside(body: string, i: nat, first: bool, delimiter: int, tail: string)
    requires i < |body| - 1 && '\n' !in body && body[|body| - 1] != ' '
    ensures !IsBreak(" " + (Pieces(body, i + 1, first, delimiter) + tail))
  {
    var p, more := Piece(body, i + 1, first, delimiter), Pieces(body, i + 2, first, delimiter);
    PieceStart(body, i + 1, first, delimiter);
    if i + 2 < |body| { PiecesStart(body, i + 2, first, delimiter, tail); }
    Regroup(p, more, tail);
    BreakNeedsFeed(p, more + tail);
  }

  lemma {:induction false} BodyDecodes(body: string, i: nat, first: bool, delimiter: int, tail: string, indent: nat)
    requires i <= |body| && '\n' !in body && (body != "" ==> body[|body| - 1] != ' ')
    ensures Decode(Pieces(body, i, first, delimiter) + tail, indent) == body[i..] + Decode(tail, indent)
    decreases |body| - i
  {
    if i == |body| {
      assert Pieces(body, i, first, delimiter) + tail == tail;
    } else {
      var p, more := Piece(body, i, first, delimiter), Pieces(body, i + 1, first, delimiter);
      Regroup(p, more, tail);
      if body[i] == ' ' { NoBreakInside(body, i, first, delimiter, tail); }
      PieceDecodes(body, i, first, delimiter, more + tail, indent);
      BodyDecodes(body, i + 1, first, delimiter, tail, indent);
      Regroup([body[i]], body[i + 1..], Decode(tail, indent));
      assert [body[i]] + body[i + 1..] == body[i..];
    }
  }

  lemma {:induction false} ReferencesDecode(n: nat, tail: string, indent: nat)
    ensures Decode(References(n) + tail, indent) == Spaces(n) + Decode(tail, indent)
  {
    if n == 0 {
      assert References(n) + tail == tail;
    } else {
      var more := References(n - 1) + tail;
      Regroup("&#32;", References(n - 1), tail);
      assert ("&#32;" + more)[5..] == more;
      ReferencesDecode(n - 1, tail, indent);
      Regroup(" ", Spaces(n - 1), Decode(tail, indent));
      assert " " + Spaces(n - 1) == Spaces(n);
    }
  }

  lemma ThreeSlices(s: string, i: nat, j: nat)
    requires i <= j <= |s|
    requires (forall k | 0 <= k < i :: s[k] == ' ') && forall k | j <= k < |s| :: s[k] == ' '
    ensures s == Spaces(i) + s[i..j] + Spaces(|s| - j)
  {
  }

  lemma LineParts(line: string, start: nat, end: nat)
    requires start == LeadingSpaces(line) && end == BodyEnd(line, start)
    ensures line == Spaces(start) + Body(line) + Spaces(|line| - end)
  {
    ThreeSlices(line, start, end);
  }

  lemma BodyShape(line: string)
    requires '\n' !in line
    ensures '\n' !in Body(line)
    ensures Body(line) != "" ==> Body(line)[0] != ' ' && Body(line)[|Body(line)| - 1] != ' '
    ensures LeadingSpaces(line) == 0 && Body(line) == "" ==> line == ""
  {
  }

  lemma FourParts(a: string, b: string, c: string, d: string)
    ensures a + b + c + d == a + (b + (c + d))
  {
  }

  lemma PartsDecode(x: string, p: string, r: string, tail: string, a: string, b: string, c: string, indent: nat)
    requires Decode(x + (p + (r + tail)), indent) == a + Decode(p + (r + tail), indent)
    requires Decode(p + (r + tail), indent) == b + Decode(r + tail, indent)
    requires Decode(r + tail, indent) == c + Decode(tail, indent)
    ensures Decode(x + p + r + tail, indent) == a + b + c + Decode(tail, indent)
  {
    FourParts(x, p, r, tail);
    FourParts(a, b, c, Decode(tail, indent));
  }

  /** A rendered line reads back as the line it renders. */
  lemma LineDecodes(line: string, tail: string, indent: nat)
    requires '\n' !in line
    ensures Decode(EscapedLine(line) + tail, indent) == line + Decode(tail, indent)
  {
    var start := LeadingSpaces(line);
    var after := |line| - BodyEnd(line, start);
    var body, rest := Body(line), References(after) + tail;
    var pieces := Pieces(body, 0, start == 0, Delimiter(line));
    BodyShape(line);
    ReferencesDecode(start, pieces + rest, indent);
    BodyDecodes(body, 0, start == 0, Delimiter(line), rest, indent);
    ReferencesDecode(after, tail, indent);
    assert body[0..] == body;
    PartsDecode(References(start), pieces, References(after), tail, Spaces(start), body, Spaces(after), indent);
    assert line == Spaces(start) + body + Spaces(after) by { LineParts(line, start, |line| - after); }
  }

  lemma {:induction false} LinesDecode(lines: seq<string>, indent: nat)
    requires lines != [] && forall l | l in lines :: '\n' !in l
    ensures Decode(JoinedEscapes(lines, indent), indent) == JoinedLines(lines)
  {
    if |lines| == 1 {
      LineDecodes(lines[0], "", indent);
      assert EscapedLine(lines[0]) + "" == EscapedLine(lines[0]);
    } else {
      var more := JoinedEscapes(lines[1..], indent);
      var joint := "  \n" + Spaces(indent) + more;
      LineDecodes(lines[0], joint, indent);
      assert IsBreak(joint) && joint[3 + indent..] == more;
      LinesDecode(lines[1..], indent);
      Regroup(lines[0], "\n", JoinedLines(lines[1..]));
    }
  }

  /** Escaping loses nothing: whatever the indent, reading the rendered text
      back gives the normalised value. */
  lemma EscapeGeneratedReturns(value: string, nfc: string -> string, indent: nat)
    ensures Decode(EscapeGenerated(value, nfc, indent), indent) == nfc(Newlines(value))
  {
    LinesDecode(LogicalLines(nfc(Newlines(value))), indent);
  }

  // ---- Rendered lines open no block ----

  predicate OpensBlock(c: char) {
    || c == ' ' || c == '\t' || EscapedWhenLeading(c)
    || c == '`' || c == '~' || c == '*' || c == '_' || c == '<' || c == '['
  }

  // An ordered-list marker in the sense of section 5.2 of CommonMark 0.31.
  ghost predicate ListMarker(s: string) {
    exists n | 1 <= n <= 9 && n < |s| ::
      && (forall i | 0 <= i < n :: IsDigit(s[i])) && EndsMarker(s[n])
      && (n + 1 == |s| || s[n + 1] == ' ' || s[n + 1] == '\t')
  }

  lemma {:induction false} DigitsUnchanged(body: string, i: nat, n: nat, delimiter: int)
    requires i <= n <= |body| && (forall k | i <= k < n :: IsDigit(body[k])) && !(i <= delimiter < n)
    ensures Pieces(body, i, true, delimiter) == body[i..n] + Pieces(body, n, true, delimiter)
    decreases n - i
  {
    if i < n {
      DigitsUnchanged(body, i + 1, n, delimiter);
      DigitStays(body, i, delimiter);
      Regroup([body[i]], body[i + 1..n], Pieces(body, n, true, delimiter));
      assert [body[i]] + body[i + 1..n] == body[i..n];
    }
  }

  lemma DigitStays(body: string, i: nat, delimiter: int)
    requires i < |body| && IsDigit(body[i]) && i != delimiter
    ensures Pieces(body, i, true, delimiter) == [body[i]] + Pieces(body, i + 1, true, delimiter)
  {
  }

  lemma PieceOpensNoBlock(body: string, delimiter: int)
    requires body != "" && body[0] != ' '
    ensures Piece(body, 0, true, delimiter) != "" && !OpensBlock(Piece(body, 0, true, delimiter)[0])
  {
  }

  // A marker would have to end right behind the leading digits.
  lemma MarkerAt(digits: string, s: string)
    requires (forall i | 0 <= i < |digits| :: IsDigit(digits[i])) && (s == "" || !IsDigit(s[0]))
    ensures ListMarker(digits + s) ==>
      1 <= |digits| <= 9 && s != "" && EndsMarker(s[0]) && (|s| == 1 || s[1] == ' ' || s[1] == '\t')
  {
    var r := digits + s;
    assert forall i | 0 <= i < |digits| :: r[i] == digits[i];
    assert s != "" ==> r[|digits|] == s[0];
    assert |s| > 1 ==> r[|digits| + 1] == s[1];
  }

  // What follows the leading digits never completes a marker.
  lemma MarkerBroken(body: string, delimiter: int, tail: string)
    requires delimiter == OrderedDelimiter(body) && '\n' !in body && (tail == "" || tail[0] == '&')
    ensures var run := DigitRun(body); var s := Pieces(body, run, true, delimiter) + tail;
      && (s == "" || !IsDigit(s[0]))
      && (1 <= run <= 9 && s != "" && EndsMarker(s[0]) ==> |s| > 1 && s[1] != ' ' && s[1] != '\t')
  {
    var run := DigitRun(body);
    var s := Pieces(body, run, true, delimiter) + tail;
    if run < |body| {
      var p, more := Piece(body, run, true, delimiter), Pieces(body, run + 1, true, delimiter) + tail;
      Regroup(p, Pieces(body, run + 1, true, delimiter), tail);
      assert s[0] == p[0];
      if EndsMarker(s[0]) {
        assert p == [body[run]] && run != delimiter;
        assert s == p + more && (|s| > 1 ==> s[1] == more[0]);
        if run + 1 < |body| {
          PieceStart(body, run + 1, true, delimiter);
          assert more[0] == Piece(body, run + 1, true, delimiter)[0];
        }
      }
    }
  }

  lemma BodyOpensNoBlock(body: string, delimiter: int, tail: string)
    requires body != "" && body[0] != ' ' && '\n' !in body && delimiter == OrderedDelimiter(body)
    requires tail == "" || tail[0] == '&'
    ensures var r := Pieces(body, 0, true, delimiter) + tail; r != "" && !OpensBlock(r[0]) && !ListMarker(r)
  {
    var run, pieces := DigitRun(body), Pieces(body, 0, true, delimiter);
    PieceOpensNoBlock(body, delimiter);
    assert (pieces + tail)[0] == Piece(body, 0, true, delimiter)[0];
    DigitsUnchanged(body, 0, run, delimiter);
    Regroup(body[..run], Pieces(body, run, true, delimiter), tail);
    MarkerBroken(body, delimiter, tail);
    MarkerAt(body[..run], Pieces(body, run, true, delimiter) + tail);
  }

  /** No rendered logical line begins with a character that opens a block, or
      with an ordered-list marker. */
  lemma LineOpensNoBlock(line: string)
    requires '\n' !in line
    ensures EscapedLine(line) != "" ==> !OpensBlock(EscapedLine(line)[0])
    ensures !ListMarker(EscapedLine(line))
  {
    BodyShape(line);
    if LeadingSpaces(line) > 0 {
      IndentedLine(line);
    } else if line != "" {
      NoIndent(Pieces(Body(line), 0, true, Delimiter(line)), References(|line| - BodyEnd(line, 0)));
      BodyOpensNoBlock(Body(line), Delimiter(line), References(|line| - BodyEnd(line, 0)));
    }
  }

  lemma IndentedLine(line: string)
    requires LeadingSpaces(line) > 0
    ensures EscapedLine(line) != "" && !OpensBlock(EscapedLine(line)[0]) && !ListMarker(EscapedLine(line))
  {
    var start := LeadingSpaces(line);
    var pieces, tail := Pieces(Body(line), 0, false, -1), References(|line| - BodyEnd(line, start));
    FourParts("&#32;", References(start - 1), pieces, tail);
    IndentedOpensNoBlock(References(start - 1), pieces + tail);
  }

  lemma NoIndent(p: string, tail: string)
    ensures References(0) + p + tail == p + tail
  {
  }

  lemma IndentedOpensNoBlock(a: string, b: string)
    ensures var r := "&#32;" + (a + b); !OpensBlock(r[0]) && !ListMarker(r)
  {
  }

  // ---- Fenced source voice ----

  // The longest run of backticks, and the run the bytes end in.
  function Runs(s: string): (r: (nat, nat))
    ensures r.1 <= r.0 <= |s|
  {
    if s == "" then (0, 0)
    else
      var before := Runs(s[..|s| - 1]);
      var last := if s[|s| - 1] == '`' then before.1 + 1 else 0;
      (if last > before.0 then last else before.0, last)
  }

  predicate TicksAt(s: string, i: int, j: int) {
    0 <= i <= j <= |s| && forall k | i <= k < j :: s[k] == '`'
  }

  // Bytes are characters here; the fence is one backtick longer than any run.
  function SourceVoiceFence(excerpt: string): string {
    Ticks(excerpt) + "\n" + excerpt + Boundary(excerpt) + Ticks(excerpt) + "\n"
  }

  // The line end the closing fence needs, unless the excerpt brings its own.
  function Boundary(excerpt: string): string {
    if excerpt != "" && (excerpt[|excerpt| - 1] == '\n' || excerpt[|excerpt| - 1] == '\r') then "" else "\n"
  }

  function Ticks(excerpt: string): string {
    var longest := Runs(excerpt).0;
    seq(if longest + 1 > 3 then longest + 1 else 3, _ => '`')
  }

  // The run at the end is maximal.
  lemma {:induction false} LastRun(s: string, i: nat)
    requires TicksAt(s, i, |s|)
    ensures |s| - i <= Runs(s).1
  {
    if i < |s| { LastRun(s[..|s| - 1], i); }
  }

  lemma {:induction false} RunsAreShorter(excerpt: string, i: nat, j: nat)
    requires TicksAt(excerpt, i, j)
    ensures j - i <= Runs(excerpt).0 < |Ticks(excerpt)|
  {
    if j == |excerpt| {
      LastRun(excerpt, i);
    } else {
      RunsAreShorter(excerpt[..|excerpt| - 1], i, j);
    }
  }

  // The output is the fence on a line of its own, the excerpt, and the fence on the last line.
  lemma FenceShape(excerpt: string) returns (out: string, f: nat, c: nat)
    ensures out == SourceVoiceFence(excerpt) && f == |Ticks(excerpt)| >= 3
    ensures f + 1 + |excerpt| <= c == |out| - f - 1 && out[f + 1..f + 1 + |excerpt|] == excerpt
    ensures TicksAt(out, 0, f) && out[f] == '\n'
    ensures (out[c - 1] == '\n' || out[c - 1] == '\r') && TicksAt(out, c, c + f) && out[c + f] == '\n'
    ensures c - 1 <= f + 1 + |excerpt|
  {
    var fence, boundary := Ticks(excerpt), Boundary(excerpt);
    out, f := SourceVoiceFence(excerpt), |fence|;
    c := f + 1 + |excerpt| + |boundary|;
    assert out == fence + "\n" + excerpt + boundary + fence + "\n";
  }

  /** In the rendered source voice exactly two runs of backticks reach the length
      of the fence: its first line and its last. So the excerpt between them,
      unchanged, cannot close the block. */
  lemma NoRunReachesFence(excerpt: string, i: nat, j: nat)
    requires TicksAt(SourceVoiceFence(excerpt), i, j)
    ensures var out, f := SourceVoiceFence(excerpt), |Ticks(excerpt)|;
            && |out| >= 2 * f + 2 + |excerpt| && out[f + 1..f + 1 + |excerpt|] == excerpt
            && (j - i >= f <==> (i == 0 && j == f) || (i == |out| - f - 1 && j == |out| - 1))
  {
    var out, f, c := FenceShape(excerpt);
    if f < i && j < c {
      forall k | i - f - 1 <= k < j - f - 1 && k < |excerpt| ensures excerpt[k] == '`' {
        assert out[f + 1..f + 1 + |excerpt|][k] == out[f + 1 + k];
      }
      RunsAreShorter(excerpt, i - f - 1, if j - f - 1 <= |excerpt| then j - f - 1 else |excerpt|);
    }
  }

  // The longest run occurs, so a fence of four backticks or more cannot be shorter.
  lemma {:induction false} LongestRunOccurs(s: string) returns (i: nat)
    ensures TicksAt(s, i, i + Runs(s).0) && TicksAt(s, |s| - Runs(s).1, |s|)
  {
    if s == "" {
      i := 0;
    } else {
      i := LongestRunOccurs(s[..|s| - 1]);
      if Runs(s).0 == Runs(s).1 { i := |s| - Runs(s).1; }
    }
  }

  ghost predicate EndsLine(s: string) {
    s != "" && (s[|s| - 1] == '\n' || s[|s| - 1] == '\r')
  }

  /** The fence has at least three backticks, and four or more only because the
      excerpt holds a run of one less; the closing fence begins a line, for which
      one LF is added exactly where the excerpt does not end one itself. */
  lemma FenceLayout(excerpt: string)
    ensures var out, f := SourceVoiceFence(excerpt), |Ticks(excerpt)|;
            && f >= 3 && (f > 3 ==> exists i: int, j: int :: j == i + f - 1 && TicksAt(excerpt, i, j))
            && |out| == 2 * f + 2 + |excerpt| + (if EndsLine(excerpt) then 0 else 1)
            && EndsLine(out[..|out| - f - 1])
  {
    var i := LongestRunOccurs(excerpt);
    var f := |Ticks(excerpt)|;
    assert f > 3 ==> TicksAt(excerpt, i, i + f - 1);
    var out, head := SourceVoiceFence(excerpt), Ticks(excerpt) + "\n" + excerpt + Boundary(excerpt);
    assert out[..|out| - f - 1] == head;
    assert Boundary(excerpt) == "" ==> head[|head| - 1] == excerpt[|excerpt| - 1];
  }
}
