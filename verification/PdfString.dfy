/** Escaping text for a PDF literal string, and reading it back (src/msgate/ops/digest_pdf.py; section 7.3.4.2 of ISO 32000-1). */
module PdfString {

  // ----- what the code does -----

  /** Python's `s.replace(c, sub)` for a single character. */
  function ReplaceAll(s: string, c: char, sub: string): string {
    if s == [] then [] else (if s[0] == c then sub else [s[0]]) + ReplaceAll(s[1..], c, sub)
  }

  function ChainedReplaces(text: string): string {
    var s1 := ReplaceAll(text, '\\', "\\\\");
    var s2 := ReplaceAll(s1, '(', "\\(");
    var s3 := ReplaceAll(s2, ')', "\\)");
    var s4 := ReplaceAll(s3, '\r', " ");
    ReplaceAll(s4, '\n', " ")
  }

  const CUT: nat := 200

  function Take(s: string, n: nat): string {
    if |s| <= n then s else s[..n]
  }

  /** `_esc` */
  function Esc(text: string): string {
    Take(ChainedReplaces(text), CUT)
  }

  // ----- the same in one pass -----

  function EscapeChar(c: char): string {
    if c == '\\' then "\\\\"
    else if c == '(' then "\\("
    else if c == ')' then "\\)"
    else if c == '\r' || c == '\n' then " "
    else [c]
  }

  function Escape(text: string): string {
    if text == [] then [] else EscapeChar(text[0]) + Escape(text[1..])
  }

  lemma {:induction false} ReplaceAppend(a: string, b: string, c: char, sub: string)
    ensures ReplaceAll(a + b, c, sub) == ReplaceAll(a, c, sub) + ReplaceAll(b, c, sub)
  {
    if a == [] {
      assert a + b == b;
    } else {
      assert (a + b)[0] == a[0] && (a + b)[1..] == a[1..] + b;
      ReplaceAppend(a[1..], b, c, sub);
    }
  }

  lemma ReplaceOne(x: char, c: char, sub: string)
    ensures ReplaceAll([x], c, sub) == if x == c then sub else [x]
  {
    assert [x][1..] == [];
  }

  lemma ReplaceTwo(x: char, y: char, c: char, sub: string)
    requires x != c && y != c
    ensures ReplaceAll([x, y], c, sub) == [x, y]
  {
    assert [x, y] == [x] + [y];
    ReplaceAppend([x], [y], c, sub);
    ReplaceOne(x, c, sub);
    ReplaceOne(y, c, sub);
  }

  lemma ChainedAppend(a: string, b: string)
    ensures ChainedReplaces(a + b) == ChainedReplaces(a) + ChainedReplaces(b)
  {
    var a1, b1 := ReplaceAll(a, '\\', "\\\\"), ReplaceAll(b, '\\', "\\\\");
    var a2, b2 := ReplaceAll(a1, '(', "\\("), ReplaceAll(b1, '(', "\\(");
    var a3, b3 := ReplaceAll(a2, ')', "\\)"), ReplaceAll(b2, ')', "\\)");
    var a4, b4 := ReplaceAll(a3, '\r', " "), ReplaceAll(b3, '\r', " ");
    ReplaceAppend(a, b, '\\', "\\\\");
    ReplaceAppend(a1, b1, '(', "\\(");
    ReplaceAppend(a2, b2, ')', "\\)");
    ReplaceAppend(a3, b3, '\r', " ");
    ReplaceAppend(a4, b4, '\n', " ");
  }

  lemma ChainedChar(c: char)
    ensures ChainedReplaces([c]) == EscapeChar(c)
  {
    ReplaceOne(c, '\\', "\\\\");
    if c == '\\' {
      ReplaceTwo('\\', '\\', '(', "\\(");
      ReplaceTwo('\\', '\\', ')', "\\)");
      ReplaceTwo('\\', '\\', '\r', " ");
      ReplaceTwo('\\', '\\', '\n', " ");
    } else {
      ReplaceOne(c, '(', "\\(");
      if c == '(' {
        ReplaceTwo('\\', '(', ')', "\\)");
        ReplaceTwo('\\', '(', '\r', " ");
        ReplaceTwo('\\', '(', '\n', " ");
      } else {
        ReplaceOne(c, ')', "\\)");
        if c == ')' {
          ReplaceTwo('\\', ')', '\r', " ");
          ReplaceTwo('\\', ')', '\n', " ");
        } else {
          ReplaceOne(c, '\r', " ");
          ReplaceOne(' ', '\n', " ");
          ReplaceOne(c, '\n', " ");
        }
      }
    }
  }

  /** The order of the five replaces does no harm: together they escape every character on its own. */
  lemma {:induction false} ChainedIsOnePass(text: string)
    ensures ChainedReplaces(text) == Escape(text)
  {
    if text == [] {
    } else {
      assert text == [text[0]] + text[1..];
      ChainedAppend([text[0]], text[1..]);
      ChainedChar(text[0]);
      ChainedIsOnePass(text[1..]);
    }
  }

  // ----- reading a literal string -----

  datatype Read = Unterminated | Text(text: string, rest: string)

  /** The result with more text in front. */
  function Prepend(text: string, r: Read): Read {
    if r.Text? then Text(text + r.text, r.rest) else Unterminated
  }

  predicate IsOctal(c: char) {
    '0' <= c <= '7'
  }

  /** How many octal digits, up to three, `s` starts with. */
  function OctalDigits(s: string): (n: nat)
    ensures n <= 3 && n <= |s|
    ensures s != [] && IsOctal(s[0]) ==> n >= 1
  {
    if s == [] || !IsOctal(s[0]) then 0
    else if |s| == 1 || !IsOctal(s[1]) then 1
    else if |s| == 2 || !IsOctal(s[2]) then 2
    else 3
  }

  function OctalValue(s: string): nat
    requires forall i :: 0 <= i < |s| ==> IsOctal(s[i])
  {
    if s == [] then 0
    else
      assert IsOctal(s[|s| - 1]);
      8 * OctalValue(s[..|s| - 1]) + (s[|s| - 1] - '0') as nat
  }

  /** What an escape sequence stands for, given what follows the backslash, and how many characters it takes up. */
  function ReadEscape(s: string): (r: (string, nat))
    requires s != []
    ensures 1 <= r.1 <= |s|
  {
    var c := s[0];
    if c == 'n' then ("\n", 1)
    else if c == 'r' then ("\r", 1)
    else if c == 't' then ("\t", 1)
    else if c == 'b' then ([8 as char], 1)
    else if c == 'f' then ([12 as char], 1)
    else if IsOctal(c) then
      var n := OctalDigits(s);
      ([(OctalValue(s[..n]) % 256) as char], n)
    else if c == '\r' && |s| >= 2 && s[1] == '\n' then ("", 2)
    else if c == '\r' || c == '\n' then ("", 1)
    else ([c], 1)
  }

  /** The rest of a literal string inside `depth` further open parentheses: parentheses balance, line ends become LF. */
  function ReadBody(s: string, depth: nat): Read
    decreases |s|
  {
    if s == [] then Unterminated
    else if s[0] == '\\' then
      if |s| == 1 then Unterminated
      else
        var (text, n) := ReadEscape(s[1..]);
        Prepend(text, ReadBody(s[1 + n..], depth))
    else if s[0] == '(' then Prepend("(", ReadBody(s[1..], depth + 1))
    else if s[0] == ')' then
      if depth == 0 then Text("", s[1..]) else Prepend(")", ReadBody(s[1..], depth - 1))
    else if s[0] == '\r' && |s| >= 2 && s[1] == '\n' then Prepend("\n", ReadBody(s[2..], depth))
    else if s[0] == '\r' then Prepend("\n", ReadBody(s[1..], depth))
    else Prepend([s[0]], ReadBody(s[1..], depth))
  }

  /** A literal string at the start of `s`. */
  function ReadLiteral(s: string): Read {
    if s != [] && s[0] == '(' then ReadBody(s[1..], 0) else Unterminated
  }

  lemma {:induction false} ReadingConsumes(s: string, depth: nat)
    ensures ReadBody(s, depth).Text? ==> |ReadBody(s, depth).rest| < |s|
    decreases |s|
  {
    if s == [] {
    } else if s[0] == '\\' {
      if |s| > 1 {
        ReadingConsumes(s[1 + ReadEscape(s[1..]).1..], depth);
      }
    } else if s[0] == '\r' && |s| >= 2 && s[1] == '\n' {
      ReadingConsumes(s[2..], depth);
    } else if s[0] == ')' && depth > 0 {
      ReadingConsumes(s[1..], depth - 1);
    } else if s[0] == '(' {
      ReadingConsumes(s[1..], depth + 1);
    } else {
      ReadingConsumes(s[1..], depth);
    }
  }

  // ----- the round trip -----

  function Spaced(c: char): char {
    if c == '\r' || c == '\n' then ' ' else c
  }

  /** The text with line ends as spaces. */
  function Spaces(text: string): (t: string)
    ensures |t| == |text|
  {
    if text == [] then [] else [Spaced(text[0])] + Spaces(text[1..])
  }

  lemma ReadEscapedChar(c: char, tail: string)
    ensures ReadBody(EscapeChar(c) + tail, 0) == Prepend([Spaced(c)], ReadBody(tail, 0))
  {
    var s := EscapeChar(c) + tail;
    if c == '\\' || c == '(' || c == ')' {
      assert s == ['\\', c] + tail;
      assert s[1..] == [c] + tail && s[2..] == tail;
    } else {
      assert s[1..] == tail;
    }
  }

  lemma PrependTwice(a: string, b: string, r: Read)
    ensures Prepend(a, Prepend(b, r)) == Prepend(a + b, r)
  {
    if r.Text? {
      assert a + (b + r.text) == a + b + r.text;
    }
  }

  lemma {:induction false} ReadEscaped(text: string, tail: string)
    ensures ReadBody(Escape(text) + tail, 0) == Prepend(Spaces(text), ReadBody(tail, 0))
  {
    if text == [] {
      assert Escape(text) + tail == tail;
      if ReadBody(tail, 0).Text? {
        assert [] + ReadBody(tail, 0).text == ReadBody(tail, 0).text;
      }
    } else {
      var rest := Escape(text[1..]) + tail;
      assert Escape(text) + tail == EscapeChar(text[0]) + rest;
      ReadEscapedChar(text[0], rest);
      ReadEscaped(text[1..], tail);
      PrependTwice([Spaced(text[0])], Spaces(text[1..]), ReadBody(tail, 0));
    }
  }

  /** A cut falls between two escaped characters, or splits an escape right after its backslash. */
  lemma {:induction false} CutShape(text: string, n: nat) returns (k: nat)
    requires n < |Escape(text)|
    ensures k < |text|
    ensures Escape(text)[..n] == Escape(text[..k]) || Escape(text)[..n] == Escape(text[..k]) + ['\\']
  {
    var first := EscapeChar(text[0]);
    if n < |first| {
      k := 0;
      assert Escape(text)[..n] == first[..n];
      assert n == 1 ==> first[..n] == ['\\'];
    } else {
      k := CutShape(text[1..], n - |first|);
      var shorter := text[1..][..k];
      assert Escape(text)[..n] == first + Escape(text[1..])[..n - |first|];
      assert text[..k + 1][0] == text[0] && text[..k + 1][1..] == shorter;
      assert first + (Escape(shorter) + ['\\']) == first + Escape(shorter) + ['\\'];
      k := k + 1;
    }
  }

  /** The literal the code writes. */
  function Literal(text: string): string {
    "(" + Esc(text) + ")"
  }

  lemma LiteralBody(text: string, rest: string)
    ensures ReadLiteral(Literal(text) + rest) == ReadBody(Esc(text) + (")" + rest), 0)
  {
    assert (Literal(text) + rest)[1..] == Esc(text) + (")" + rest);
  }

  lemma ShortRoundTrip(text: string, rest: string)
    requires |Escape(text)| <= CUT
    ensures ReadLiteral(Literal(text) + rest) == Text(Spaces(text), rest)
  {
    ChainedIsOnePass(text);
    LiteralBody(text, rest);
    ReadEscaped(text, ")" + rest);
    assert (")" + rest)[1..] == rest;
    assert Spaces(text) + "" == Spaces(text);
  }

  /** A cut between two escaped characters loses the rest of the text, a cut inside an escape the end of the string. */
  lemma LongIsMisread(text: string, rest: string)
    requires |Escape(text)| > CUT
    ensures ReadLiteral(Literal(text) + rest) != Text(Spaces(text), rest)
  {
    ChainedIsOnePass(text);
    LiteralBody(text, rest);
    var tail := ")" + rest;
    var k := CutShape(text, CUT);
    assert tail[1..] == rest;
    if Esc(text) == Escape(text[..k]) {
      ReadEscaped(text[..k], tail);
    } else {
      assert Esc(text) + tail == Escape(text[..k]) + (['\\'] + tail);
      ReadEscaped(text[..k], ['\\'] + tail);
      assert (['\\'] + tail)[1..] == tail && (['\\'] + tail)[2..] == rest;
      ReadingConsumes(rest, 0);
    }
  }

  /**
   Whatever follows it in the file, the literal is read as the text with line ends as spaces, ending exactly at its own
   last parenthesis, if and only if the escaped text is at most 200 characters long.
   */
  lemma LiteralRoundTrip(text: string, rest: string)
    ensures ReadLiteral(Literal(text) + rest) == Text(Spaces(text), rest) <==> |Escape(text)| <= CUT
  {
    if |Escape(text)| <= CUT {
      ShortRoundTrip(text, rest);
    } else {
      LongIsMisread(text, rest);
    }
  }

  // ----- in the bytes of the file -----

  function Latin1Char(c: char): char {
    if c as int < 256 then c else '?'
  }

  /** `encode("latin-1", errors="replace")`: one byte for each character, shown here as a character below 256. */
  function Latin1(s: string): (t: string)
    ensures |t| == |s|
    ensures forall i :: 0 <= i < |s| ==> t[i] == Latin1Char(s[i])
  {
    seq(|s|, i requires 0 <= i < |s| => Latin1Char(s[i]))
  }

  /** A character with a byte of its own stays; any other becomes a question mark. */
  lemma OneByteEach(s: string, i: nat)
    requires i < |s|
    ensures Latin1(s)[i] == s[i] <==> s[i] as int <= 255
    ensures s[i] as int > 255 ==> Latin1(s)[i] == '?'
  {
  }

  lemma Latin1Append(a: string, b: string)
    ensures Latin1(a + b) == Latin1(a) + Latin1(b)
  {
  }

  lemma {:induction false} EncodingCommutes(text: string)
    ensures Latin1(Escape(text)) == Escape(Latin1(text))
  {
    if text != [] {
      EncodingCommutes(text[1..]);
      Latin1Append(EscapeChar(text[0]), Escape(text[1..]));
      assert Latin1(text)[1..] == Latin1(text[1..]);
      assert Latin1(EscapeChar(text[0])) == EscapeChar(Latin1Char(text[0]));
    }
  }

  /** The same for the encoded literal: characters Latin-1 does not have come back as question marks. */
  lemma EncodedRoundTrip(text: string, rest: string)
    ensures ReadLiteral(Latin1(Literal(text)) + rest) == Text(Spaces(Latin1(text)), rest) <==> |Escape(text)| <= CUT
  {
    ChainedIsOnePass(text);
    ChainedIsOnePass(Latin1(text));
    EncodingCommutes(text);
    assert Latin1(Esc(text)) == Esc(Latin1(text));
    Latin1Append("(" + Esc(text), ")");
    Latin1Append("(", Esc(text));
    assert Latin1("(") == "(" && Latin1(")") == ")";
    LiteralRoundTrip(Latin1(text), rest);
  }
}
