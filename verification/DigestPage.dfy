/** What a reader of the digest sees: the text on the page, read back from the finished file (src/msgate/ops/digest_pdf.py). */
module DigestPage {
  import opened Options
  import opened Text
  import opened PdfString
  import opened DigestPdf

  // ----- the reader -----

  /** A line of text on the page: its size, its place, and what it says. */
  datatype Shown = Shown(size: nat, x: nat, y: nat, text: string)

  /** What follows `word` at the start of `s`. */
  function After(s: string, word: string): Option<string> {
    if word <= s then Some(s[|word|..]) else None
  }

  /** A number at the start of `s`, and what follows it. */
  function ReadNat(s: string): Option<(nat, string)> {
    var n := DigitsAt(s, 0);
    if n == 0 then None else Some((Value(s[..n]), s[n..]))
  }

  /** A word and then a number. */
  function ReadField(s: string, word: string): Option<(nat, string)> {
    match After(s, word)
    case None => None
    case Some(rest) => ReadNat(rest)
  }

  /** The literal string and the operators behind the coordinates. */
  function ReadTail(s: string): Option<(string, string)> {
    match After(s, " Td ")
    case None => None
    case Some(literal) =>
      match ReadLiteral(literal)
      case Unterminated => None
      case Text(text, rest) =>
        match After(rest, " Tj ET")
        case None => None
        case Some(end) => Some((text, end))
  }

  /** "BT /F1 size Tf x y Td (text) Tj ET", and what follows it. */
  function ReadShow(s: string): Option<(Shown, string)> {
    match ReadField(s, "BT /F1 ")
    case None => None
    case Some((size, s1)) =>
      match ReadField(s1, " Tf ")
      case None => None
      case Some((x, s2)) =>
        match ReadField(s2, " ")
        case None => None
        case Some((y, s3)) =>
          match ReadTail(s3)
          case None => None
          case Some((text, rest)) => Some((Shown(size, x, y, text), rest))
  }

  /** Pieces read one after the other, with line feeds between them. */
  function ReadLines<T>(s: string, read: string -> Option<(T, string)>): Option<seq<T>>
    decreases |s|
  {
    match read(s)
    case None => None
    case Some((shown, rest)) =>
      if rest == [] then Some([shown])
      else if rest[0] == '\n' && |rest| < |s| then
        match ReadLines(rest[1..], read)
        case None => None
        case Some(more) => Some([shown] + more)
      else None
  }

  /** The lines of a page, one to a line of the stream. */
  function ReadPage(s: string): Option<seq<Shown>> {
    ReadLines(s, line => ReadShow(line))
  }

  // ----- one line -----

  lemma AfterWord(word: string, rest: string)
    ensures After(word + rest, word) == Some(rest)
  {
  }

  lemma NatReads(n: nat, rest: string)
    requires rest != [] && !IsDigit(rest[0])
    ensures ReadNat(Dec(n) + rest) == Some((n, rest))
  {
    DecReadsBack(n);
    var s := Dec(n) + rest;
    DigitsAtRun(s, 0, |Dec(n)|);
    assert s[..|Dec(n)|] == Dec(n) && s[|Dec(n)|..] == rest;
  }

  lemma FieldThen(word: string, number: string)
    ensures ReadField(word + number, word) == ReadNat(number)
  {
    AfterWord(word, number);
  }

  lemma FieldReads(word: string, n: nat, rest: string)
    requires rest != [] && !IsDigit(rest[0])
    ensures ReadField(word + Dec(n) + rest, word) == Some((n, rest))
  {
    var number := Dec(n) + rest;
    assert word + Dec(n) + rest == word + number;
    NatReads(n, rest);
    FieldThen(word, number);
  }

  /** The line as it stands in the stream, in the bytes of the file. */
  function Drawn(size: nat, y: nat, text: string): string {
    "BT /F1 " + Dec(size) + (" Tf " + Dec(50) + (" " + Dec(y) + (" Td " + Latin1(Literal(text)) + " Tj ET")))
  }

  lemma TailReads(text: string, rest: string)
    ensures ReadTail(" Td " + Latin1(Literal(text)) + " Tj ET" + rest) == Some((Spaces(Latin1(text)), rest)) <==> |Escape(text)| <= CUT
  {
    var literal := Latin1(Literal(text)) + (" Tj ET" + rest);
    assert " Td " + Latin1(Literal(text)) + " Tj ET" + rest == " Td " + literal;
    AfterWord(" Td ", literal);
    AfterWord(" Tj ET", rest);
    EncodedRoundTrip(text, " Tj ET" + rest);
    match ReadLiteral(literal) {
      case Unterminated =>
      case Text(seen, behind) =>
        if After(behind, " Tj ET") == Some(rest) {
          assert behind == " Tj ET" + rest;
        }
    }
  }

  /** A line is read as it was meant, up to its own end, if and only if its escaped text was not cut. */
  lemma ShowReads(size: nat, y: nat, text: string, rest: string)
    ensures ReadShow(Drawn(size, y, text) + rest) == Some((Shown(size, 50, y, Spaces(Latin1(text))), rest))
            <==> |Escape(text)| <= CUT
  {
    var s3 := " Td " + Latin1(Literal(text)) + " Tj ET" + rest;
    var s2 := " " + Dec(y) + s3;
    var s1 := " Tf " + Dec(50) + s2;
    assert Drawn(size, y, text) + rest == "BT /F1 " + Dec(size) + s1;
    FieldReads("BT /F1 ", size, s1);
    FieldReads(" Tf ", 50, s2);
    FieldReads(" ", y, s3);
    TailReads(text, rest);
  }

  // ----- the page -----

  lemma {:induction false} PlainLatin1(s: string)
    requires forall i :: 0 <= i < |s| ==> s[i] as int < 256
    ensures Latin1(s) == s
  {
  }

  lemma DecIsPlain(n: nat)
    ensures Latin1(Dec(n)) == Dec(n)
  {
    DecReadsBack(n);
    PlainLatin1(Dec(n));
  }

  lemma PlainWords()
    ensures Latin1("BT /F1 ") == "BT /F1 " && Latin1(" Tf 50 ") == " Tf 50 " && Latin1(" Td ") == " Td " && Latin1(" Tj ET") == " Tj ET"
  {
  }

  /** What the builder writes for a line is that line. */
  lemma LineIsDrawn(size: nat, y: nat, text: string)
    ensures Latin1(TextLine(Dec(size), y, text)) == Drawn(size, y, text)
  {
    var a, b, c, d, e, f, g := "BT /F1 ", Dec(size), " Tf 50 ", Dec(y), " Td ", Literal(text), " Tj ET";
    assert TextLine(Dec(size), y, text) == a + b + c + d + e + f + g;
    Latin1Append(a, b);
    Latin1Append(a + b, c);
    Latin1Append(a + b + c, d);
    Latin1Append(a + b + c + d, e);
    Latin1Append(a + b + c + d + e, f);
    Latin1Append(a + b + c + d + e + f, g);
    PlainWords();
    DecIsPlain(size);
    DecIsPlain(y);
    Fifty(b, d, Latin1(f));
  }

  lemma Fifty(size: string, y: string, literal: string)
    ensures "BT /F1 " + size + " Tf 50 " + y + " Td " + literal + " Tj ET"
            == "BT /F1 " + size + (" Tf " + Dec(50) + (" " + y + (" Td " + literal + " Tj ET")))
  {
    assert Dec(50) == "50";
    assert " Tf 50 " == " Tf " + "50" + " ";
  }

  /** A line that is to be on the page. */
  datatype Line = Line(size: nat, y: nat, text: string)

  function DrawnLine(line: Line): string {
    Drawn(line.size, line.y, line.text)
  }

  /** How a reader should see it: at the left margin, with line ends as spaces and foreign characters as question marks. */
  function ShownLine(line: Line): Shown {
    Shown(line.size, 50, line.y, Spaces(Latin1(line.text)))
  }

  /** The page in numbers: the title at 742 in size 14, then up to 48 lines in size 10, from 712 downwards, 14 apart. */
  function Page(title: string, lines: seq<string>): seq<Line> {
    [Line(14, 742, title)]
    + seq(if |lines| <= 48 then |lines| else 48, i requires 0 <= i < |lines| && i < 48 => Line(10, 712 - 14 * i, lines[i]))
  }

  /** How many lines fit below the title, from height `y` down to 50. */
  function Room(y: int): nat {
    if y < 50 then 0 else (y - 50) / 14 + 1
  }

  lemma {:induction false} BodyCount(lines: seq<string>, y: int)
    ensures |BodyLines(lines, y)| == if |lines| <= Room(y) then |lines| else Room(y)
  {
    if lines != [] && y >= 50 {
      BodyCount(lines[1..], y - 14);
    }
  }

  lemma {:induction false} BodyLineAt(lines: seq<string>, y: int, i: nat)
    requires i < |BodyLines(lines, y)|
    ensures i < |lines| && y - 14 * i >= 50 && BodyLines(lines, y)[i] == TextLine("10", y - 14 * i, lines[i])
  {
    if i > 0 {
      BodyLineAt(lines[1..], y - 14, i - 1);
      assert lines[1..][i - 1] == lines[i];
      assert y - 14 - 14 * (i - 1) == y - 14 * i;
    }
  }

  lemma ContentCount(title: string, lines: seq<string>)
    ensures |Content(title, lines, HEIGHT)| == |Page(title, lines)|
  {
    BodyCount(lines, 712);
  }

  lemma SizesInDigits()
    ensures Dec(14) == "14" && Dec(10) == "10"
  {
  }

  lemma TitleIsDrawn(title: string)
    ensures Latin1(TextLine("14", 742, title)) == DrawnLine(Line(14, 742, title))
  {
    SizesInDigits();
    LineIsDrawn(14, 742, title);
  }

  lemma BodyLineIsDrawn(lines: seq<string>, i: nat)
    requires i < |BodyLines(lines, 712)|
    ensures i < |lines| && 712 - 14 * i >= 50
    ensures Latin1(BodyLines(lines, 712)[i]) == DrawnLine(Line(10, 712 - 14 * i, lines[i]))
  {
    BodyLineAt(lines, 712, i);
    SizesInDigits();
    LineIsDrawn(10, 712 - 14 * i, lines[i]);
  }

  /** The builder's lines are the lines of the page. */
  lemma ContentIsPage(title: string, lines: seq<string>, i: nat)
    requires i < |Page(title, lines)|
    ensures i < |Content(title, lines, HEIGHT)|
    ensures Latin1(Content(title, lines, HEIGHT)[i]) == DrawnLine(Page(title, lines)[i])
  {
    ContentCount(title, lines);
    if i == 0 {
      TitleIsDrawn(title);
    } else {
      BodyLineIsDrawn(lines, i - 1);
    }
  }

  function Drawings(page: seq<Line>): seq<string> {
    seq(|page|, i requires 0 <= i < |page| => DrawnLine(page[i]))
  }

  lemma {:induction false} JoinEncoded(a: seq<string>, b: seq<string>)
    requires |a| == |b| && forall i :: 0 <= i < |a| ==> Latin1(a[i]) == b[i]
    ensures Latin1(Join(a)) == Join(b)
  {
    if |a| > 1 {
      var n := |a| - 1;
      JoinEncoded(a[..n], b[..n]);
      Latin1Append(Join(a[..n]) + "\n", a[n]);
      Latin1Append(Join(a[..n]), "\n");
      assert Latin1("\n") == "\n";
    }
  }

  /** The stream is the drawn lines, one below the other. */
  lemma StreamIsPage(title: string, lines: seq<string>)
    ensures Stream(title, lines, HEIGHT) == Join(Drawings(Page(title, lines)))
  {
    var content, drawings := Content(title, lines, HEIGHT), Drawings(Page(title, lines));
    ContentCount(title, lines);
    forall i | 0 <= i < |content| ensures Latin1(content[i]) == drawings[i] {
      ContentIsPage(title, lines, i);
    }
    JoinEncoded(content, drawings);
  }

  lemma {:induction false} JoinFromFront(parts: seq<string>)
    requires |parts| >= 2
    ensures Join(parts) == parts[0] + "\n" + Join(parts[1..])
  {
    var n := |parts| - 1;
    if n > 1 {
      JoinFromFront(parts[..n]);
      assert parts[..n][1..] == parts[1..][..n - 1];
      Regroup(parts[0] + "\n", Join(parts[1..][..n - 1]), "\n", parts[n]);
    } else {
      assert parts[..1] == [parts[0]] && parts[1..] == [parts[1]];
    }
  }

  lemma Regroup(a: string, b: string, c: string, d: string)
    ensures (a + b) + c + d == a + (b + c + d)
  {
  }

  predicate Fits(line: Line) {
    |Escape(line.text)| <= CUT
  }

  /** Pieces that are each read up to their own end are read one after the other. */
  lemma {:induction false} LinesRead<T>(drawings: seq<string>, shown: seq<T>, read: string -> Option<(T, string)>)
    requires drawings != [] && |drawings| == |shown| && [] !in drawings
    requires forall i, rest :: 0 <= i < |drawings| ==> read(drawings[i] + rest) == Some((shown[i], rest))
    ensures ReadLines(Join(drawings), read) == Some(shown)
  {
    if |drawings| == 1 {
      assert drawings[0] + "" == drawings[0];
      assert shown == [shown[0]];
    } else {
      var below, rest := drawings[1..], "\n" + Join(drawings[1..]);
      JoinFromFront(drawings);
      assert Join(drawings) == drawings[0] + rest;
      assert read(drawings[0] + rest) == Some((shown[0], rest));
      forall i, after | 0 <= i < |below| ensures read(below[i] + after) == Some((shown[1..][i], after)) {
        assert below[i] == drawings[i + 1];
      }
      LinesRead(below, shown[1..], read);
      assert rest[1..] == Join(below);
      assert shown == [shown[0]] + shown[1..];
    }
  }

  function ShownPage(page: seq<Line>): seq<Shown> {
    seq(|page|, i requires 0 <= i < |page| => ShownLine(page[i]))
  }

  lemma PageReads(page: seq<Line>)
    requires page != [] && forall i :: 0 <= i < |page| ==> Fits(page[i])
    ensures ReadPage(Join(Drawings(page))) == Some(ShownPage(page))
  {
    var read := (line: string) => ReadShow(line);
    forall i, rest | 0 <= i < |page| ensures read(Drawings(page)[i] + rest) == Some((ShownPage(page)[i], rest)) {
      FittingLineReads(page[i], rest);
    }
    forall i | 0 <= i < |page| ensures Drawings(page)[i] != [] {
      DrawnIsNotEmpty(page[i]);
    }
    LinesRead(Drawings(page), ShownPage(page), read);
  }

  lemma DrawnIsNotEmpty(line: Line)
    ensures DrawnLine(line) != []
  {
    assert DrawnLine(line)[0] == 'B';
  }

  lemma FittingLineReads(line: Line, rest: string)
    requires Fits(line)
    ensures ReadShow(DrawnLine(line) + rest) == Some((ShownLine(line), rest))
  {
    ShowReads(line.size, line.y, line.text, rest);
  }

  /**
   The whole way: the reader who follows the cross-reference table to object 4 and reads the page there sees the title and
   the first 48 lines, each at its place and with nothing lost, as long as none of them was cut. No further line is drawn.
   */
  lemma DigestShowsItsText(title: string, lines: seq<string>)
    requires forall i :: 0 <= i < |Page(title, lines)| ==> Fits(Page(title, lines)[i])
    ensures var pdf, page := Pdf(title, lines, WIDTH, HEIGHT), Page(title, lines);
            && ReadStream(pdf, Locate(pdf, 4)).Some?
            && ReadPage(ReadStream(pdf, Locate(pdf, 4)).value)
               == Some(ShownPage(page))
  {
    DigestIsReadable(title, lines, 4);
    StreamIsPage(title, lines);
    PageReads(Page(title, lines));
  }

  // ----- each line on its own -----

  /** Where line `i` begins among joined ones. */
  function LineStart(drawings: seq<string>, i: nat): nat
    requires i < |drawings|
  {
    if i == 0 then 0 else |Join(drawings[..i])| + 1
  }

  lemma {:induction false} LineStands(drawings: seq<string>, i: nat) returns (before: string, after: string)
    requires i < |drawings|
    ensures Join(drawings) == before + drawings[i] + after && |before| == LineStart(drawings, i)
  {
    var n := |drawings| - 1;
    if n == 0 {
      before, after := "", "";
    } else if i == n {
      before, after := Join(drawings[..n]) + "\n", "";
    } else {
      before, after := LineStands(drawings[..n], i);
      assert drawings[..n][..i] == drawings[..i];
      assert before + drawings[i] + after + "\n" + drawings[n] == before + drawings[i] + (after + "\n" + drawings[n]);
      after := after + "\n" + drawings[n];
    }
  }

  /**
   Whatever the other lines are, each drawn line stands at its place in the stream of object 4, and a reader who begins
   there sees it as it was meant, up to its own end, if and only if its escaped text has at most 200 characters.
   */
  lemma EachLineIsThere(title: string, lines: seq<string>, i: nat) returns (before: string, after: string)
    requires i < |Page(title, lines)|
    ensures var pdf, page := Pdf(title, lines, WIDTH, HEIGHT), Page(title, lines);
            && ReadStream(pdf, Locate(pdf, 4)) == Some(before + DrawnLine(page[i]) + after)
            && |before| == LineStart(Drawings(page), i)
            && (ReadShow(DrawnLine(page[i]) + after) == Some((ShownLine(page[i]), after)) <==> |Escape(page[i].text)| <= 200)
  {
    var page := Page(title, lines);
    DigestIsReadable(title, lines, 4);
    StreamIsPage(title, lines);
    before, after := LineStands(Drawings(page), i);
    ShowReads(page[i].size, page[i].y, page[i].text, after);
  }
}
