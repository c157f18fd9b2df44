/** The digest's PDF file and its cross-reference table (src/msgate/ops/digest_pdf.py; section 7.5.4 of ISO 32000-1). */
module DigestPdf {
  import opened Options
  import opened Text
  import PdfString

  // ----- the file as text; every character is one byte -----

  const HEADER := "%PDF-1.4\n"
  const XREF := "xref\n0 "
  const FREE_ENTRY := "0000000000 65535 f \n"
  const IN_USE := " 00000 n \n"
  const TRAILER := "trailer<< /Size "
  const ROOT := " /Root 1 0 R >>\n"
  const START := "startxref\n"
  const EOF := "\n%%EOF\n"

  function Zeros(n: nat): string {
    seq(n, _ => '0')
  }

  /** `f"{n:010d}"` */
  function Pad10(n: nat): string {
    Zeros(if |Dec(n)| < 10 then 10 - |Dec(n)| else 0) + Dec(n)
  }

  function Entry(offset: nat): string {
    Pad10(offset) + IN_USE
  }

  /** The parts one after the other. */
  function Concat(parts: seq<string>): string {
    if parts == [] then "" else Concat(parts[..|parts| - 1]) + parts[|parts| - 1]
  }

  /** Where part `k` begins. */
  function Position(parts: seq<string>, k: nat): nat
    requires k <= |parts|
  {
    |Concat(parts[..k])|
  }

  /** Where object `k` (from 0) begins in the file. */
  function Offset(objects: seq<string>, k: nat): nat
    requires k <= |objects|
  {
    Position([HEADER] + objects, k + 1)
  }

  function Entries(objects: seq<string>): seq<string> {
    seq(|objects|, k requires 0 <= k < |objects| => Entry(Offset(objects, k)))
  }

  /** Everything before the entries. */
  function FrontParts(objects: seq<string>): seq<string> {
    [HEADER] + objects + [XREF, Dec(|objects| + 1), "\n", FREE_ENTRY]
  }

  function TrailerParts(count: nat, xref: nat): seq<string> {
    [TRAILER, Dec(count), ROOT, START, Dec(xref), EOF]
  }

  /** Everything that is written, in order. */
  function Parts(objects: seq<string>): seq<string> {
    FrontParts(objects) + Entries(objects) + TrailerParts(|objects| + 1, Offset(objects, |objects|))
  }

  function Assemble(objects: seq<string>): string {
    Concat(Parts(objects))
  }

  // ----- reading the file the way a PDF reader does -----

  /** How many digits `s` ends with. */
  function DigitsAtEnd(s: string): (n: nat)
    ensures n <= |s|
    ensures forall i :: |s| - n <= i < |s| ==> IsDigit(s[i])
  {
    if s == [] || !IsDigit(s[|s| - 1]) then 0 else 1 + DigitsAtEnd(s[..|s| - 1])
  }

  /** How many digits follow position `at`. */
  function DigitsAt(s: string, at: nat): (n: nat)
    requires at <= |s|
    ensures at + n <= |s|
    ensures forall i :: at <= i < at + n ==> IsDigit(s[i])
    decreases |s| - at
  {
    if at == |s| || !IsDigit(s[at]) then 0 else 1 + DigitsAt(s, at + 1)
  }

  /** The number after "startxref", found from the end of the file; -1 if there is none. */
  function StartXref(pdf: string): int {
    if !OccursAt(pdf, EOF, |pdf| - 7) then -1
    else
      var s := pdf[..|pdf| - 7];
      var n := DigitsAtEnd(s);
      if OccursAt(s, START, |s| - n - 10) then Value(s[|s| - n..]) else -1
  }

  /** What the k-th entry of the cross-reference table says, or -1 if it is not twenty bytes of the required form. */
  function Locate(pdf: string, k: nat): int {
    var x := StartXref(pdf);
    if x < 0 || !OccursAt(pdf, XREF, x) then -1
    else
      var n := DigitsAt(pdf, x + 7);
      var at := x + 7 + n + 1 + 20 * k;
      if OccursAt(pdf, "\n", x + 7 + n) && at + 20 <= |pdf| && AllDigits(pdf[at..at + 10]) && OccursAt(pdf, IN_USE, at + 10)
      then Value(pdf[at..at + 10])
      else -1
  }

  // ----- numbers -----

  function Pow10(n: nat): nat {
    if n == 0 then 1 else 10 * Pow10(n - 1)
  }

  lemma {:induction false} DecLength(n: nat, width: nat)
    requires width >= 1 && n < Pow10(width)
    ensures |Dec(n)| <= width
  {
    if n >= 10 {
      assert width > 1;
      DecLength(n / 10, width - 1);
    }
  }

  lemma TenDigits()
    ensures Pow10(10) == 10_000_000_000 && Pow10(3) == 1000
  {
    assert Pow10(1) == 10;
    assert Pow10(2) == 100;
    assert Pow10(4) == 10000;
    assert Pow10(6) == 1000000;
    assert Pow10(8) == 100000000;
  }

  lemma {:induction false} LeadingZeros(n: nat, s: string)
    requires AllDigits(s)
    ensures AllDigits(Zeros(n) + s) && Value(Zeros(n) + s) == Value(s)
    decreases |s|, n
  {
    var t := Zeros(n) + s;
    if s != [] {
      assert t[..|t| - 1] == Zeros(n) + s[..|s| - 1];
      LeadingZeros(n, s[..|s| - 1]);
    } else if n > 0 {
      assert t[..|t| - 1] == Zeros(n - 1) + s;
      LeadingZeros(n - 1, s);
    }
  }

  /** Ten digits that read back, as long as the offset has no more than ten. */
  lemma PadReadsBack(n: nat)
    requires n < Pow10(10)
    ensures |Pad10(n)| == 10 && AllDigits(Pad10(n)) && Value(Pad10(n)) == n
  {
    DecReadsBack(n);
    DecLength(n, 10);
    LeadingZeros(10 - |Dec(n)|, Dec(n));
  }

  lemma {:induction false} DigitsAtEndRun(s: string, n: nat)
    requires n <= |s| && forall i :: |s| - n <= i < |s| ==> IsDigit(s[i])
    requires n < |s| ==> !IsDigit(s[|s| - n - 1])
    ensures DigitsAtEnd(s) == n
  {
    if n > 0 {
      DigitsAtEndRun(s[..|s| - 1], n - 1);
    }
  }

  lemma {:induction false} DigitsAtRun(s: string, at: nat, n: nat)
    requires at + n <= |s| && forall i :: at <= i < at + n ==> IsDigit(s[i])
    requires at + n < |s| ==> !IsDigit(s[at + n])
    ensures DigitsAt(s, at) == n
    decreases n
  {
    if n > 0 {
      DigitsAtRun(s, at + 1, n - 1);
    }
  }

  /** Decimal digits in the text, with something else behind them, are read as they were written. */
  lemma NumberAt(s: string, n: nat, at: nat)
    requires OccursAt(s, Dec(n), at) && at + |Dec(n)| < |s| && !IsDigit(s[at + |Dec(n)|])
    ensures DigitsAt(s, at) == |Dec(n)|
  {
    DecReadsBack(n);
    forall i | at <= i < at + |Dec(n)| ensures IsDigit(s[i]) {
      assert s[at + (i - at)] == Dec(n)[i - at];
    }
    DigitsAtRun(s, at, |Dec(n)|);
  }

  lemma OccurrenceIsSlice(s: string, word: string, at: nat)
    requires OccursAt(s, word, at)
    ensures s[at..at + |word|] == word
  {
  }

  // ----- where parts are -----

  lemma ConcatOneMore(parts: seq<string>, part: string)
    ensures Concat(parts + [part]) == Concat(parts) + part
  {
    assert (parts + [part])[..|parts|] == parts;
  }

  lemma {:induction false} ConcatAppend(a: seq<string>, b: seq<string>)
    ensures Concat(a + b) == Concat(a) + Concat(b)
  {
    if b == [] {
      assert a + b == a;
    } else {
      assert (a + b)[..|a + b| - 1] == a + b[..|b| - 1];
      ConcatAppend(a, b[..|b| - 1]);
    }
  }

  /** Each part stands at its position, and the next one follows it. */
  lemma PartOccurs(parts: seq<string>, k: nat)
    requires k < |parts|
    ensures OccursAt(Concat(parts), parts[k], Position(parts, k))
    ensures Position(parts, k + 1) == Position(parts, k) + |parts[k]| <= |Concat(parts)|
  {
    var upTo := parts[..k + 1];
    assert upTo[..k] == parts[..k] && parts == upTo + parts[k + 1..];
    ConcatAppend(upTo, parts[k + 1..]);
    assert Concat(upTo) == Concat(parts[..k]) + parts[k];
    MiddleOccurs(Concat(parts[..k]), parts[k], Concat(parts[k + 1..]));
  }

  lemma MiddleOccurs(a: string, b: string, c: string)
    ensures OccursAt(a + b + c, b, |a|)
  {
  }

  lemma PositionInPrefix(a: seq<string>, b: seq<string>, k: nat)
    requires k <= |a|
    ensures Position(a + b, k) == Position(a, k)
  {
    assert (a + b)[..k] == a[..k];
  }

  lemma {:induction false} PositionsOfEqualWidth(parts: seq<string>, from: nat, k: nat, width: nat)
    requires from + k <= |parts| && forall i :: from <= i < from + k ==> |parts[i]| == width
    ensures Position(parts, from + k) == Position(parts, from) + width * k
  {
    if k > 0 {
      PositionsOfEqualWidth(parts, from, k - 1, width);
      PartOccurs(parts, from + k - 1);
    }
  }

  // ----- the table is right -----

  lemma NextOffset(objects: seq<string>, k: nat)
    requires k < |objects|
    ensures Offset(objects, k + 1) == Offset(objects, k) + |objects[k]|
  {
    PartOccurs([HEADER] + objects, k + 1);
  }

  /** Object `k` stands at the offset the table gives for it. */
  lemma ObjectOccurs(objects: seq<string>, k: nat)
    requires k < |objects|
    ensures OccursAt(Assemble(objects), objects[k], Offset(objects, k))
  {
    var front, parts := [HEADER] + objects, Parts(objects);
    assert parts == front + parts[|front|..] && parts[k + 1] == objects[k] == front[k + 1];
    PositionInPrefix(front, parts[|front|..], k + 1);
    PartOccurs(parts, k + 1);
  }

  lemma {:induction false} OffsetsGrow(objects: seq<string>, j: nat, k: nat)
    requires j <= k <= |objects|
    ensures Offset(objects, j) <= Offset(objects, k)
  {
    if j < k {
      OffsetsGrow(objects, j, k - 1);
      NextOffset(objects, k - 1);
    }
  }

  lemma TableParts(objects: seq<string>)
    ensures var parts, x, n := Parts(objects), Offset(objects, |objects|), |objects|;
            && parts[n + 1] == XREF && parts[n + 2] == Dec(n + 1) && parts[n + 3] == "\n"
            && Position(parts, n + 1) == x && Position(parts, n + 2) == x + 7
            && Position(parts, n + 3) == x + 7 + |Dec(n + 1)| && Position(parts, n + 4) == x + 8 + |Dec(n + 1)|
  {
    var front, parts, n := [HEADER] + objects, Parts(objects), |objects|;
    assert parts == front + parts[|front|..];
    PositionInPrefix(front, parts[|front|..], n + 1);
    PartOccurs(parts, n + 1);
    PartOccurs(parts, n + 2);
    PartOccurs(parts, n + 3);
  }

  lemma TablePosition(objects: seq<string>)
    ensures Position(Parts(objects), |objects| + 4) == Offset(objects, |objects|) + 8 + |Dec(|objects| + 1)|
  {
    TableParts(objects);
  }

  /** A number is read up to whatever follows it. */
  lemma NumberReads(s: string, n: nat, at: nat, next: string)
    requires next != [] && !IsDigit(next[0])
    requires OccursAt(s, Dec(n), at) && OccursAt(s, next, at + |Dec(n)|)
    ensures DigitsAt(s, at) == |Dec(n)| && Value(s[at..at + |Dec(n)|]) == n
  {
    assert s[at + |Dec(n)| + 0] == next[0];
    NumberAt(s, n, at);
    DecReadsBack(n);
    OccurrenceIsSlice(s, Dec(n), at);
  }

  /** The head of the table stands right after the last object. */
  lemma TableHead(objects: seq<string>)
    ensures var pdf, x, digits := Assemble(objects), Offset(objects, |objects|), |Dec(|objects| + 1)|;
            && OccursAt(pdf, XREF, x) && DigitsAt(pdf, x + 7) == digits && OccursAt(pdf, "\n", x + 7 + digits)
  {
    var parts, n := Parts(objects), |objects|;
    TableParts(objects);
    PartOccurs(parts, n + 1);
    PartOccurs(parts, n + 2);
    PartOccurs(parts, n + 3);
    NumberReads(Assemble(objects), n + 1, Offset(objects, n) + 7, "\n");
  }

  lemma EntryWidth(objects: seq<string>, k: nat)
    requires k < |objects| && Offset(objects, |objects|) < Pow10(10)
    ensures |Entries(objects)[k]| == 20
  {
    OffsetsGrow(objects, k, |objects|);
    PadReadsBack(Offset(objects, k));
  }

  lemma TablePartWidth(objects: seq<string>, i: nat)
    requires i <= |objects| && Offset(objects, |objects|) < Pow10(10)
    ensures |Parts(objects)[|objects| + 4 + i]| == 20
  {
    if i == 0 {
      assert Parts(objects)[|objects| + 4] == FREE_ENTRY;
    } else {
      assert Parts(objects)[|objects| + 4 + i] == Entries(objects)[i - 1];
      EntryWidth(objects, i - 1);
    }
  }

  lemma EntryPosition(objects: seq<string>, k: nat)
    requires k < |objects| && Offset(objects, |objects|) < Pow10(10)
    ensures |objects| + 5 + k < |Parts(objects)| && Parts(objects)[|objects| + 5 + k] == Entry(Offset(objects, k))
    ensures Position(Parts(objects), |objects| + 5 + k) == Position(Parts(objects), |objects| + 4) + 20 * (k + 1)
  {
    var parts, n := Parts(objects), |objects|;
    forall i | n + 4 <= i < n + 4 + (k + 1) ensures |parts[i]| == 20 {
      TablePartWidth(objects, i - n - 4);
    }
    PositionsOfEqualWidth(parts, n + 4, k + 1, 20);
    assert parts[n + 5 + k] == Entries(objects)[k];
  }

  /** Entry `k` (from 0) stands 20 (k + 1) bytes after the start of the table proper, which the free entry heads. */
  lemma EntryOccurs(objects: seq<string>, k: nat)
    requires k < |objects| && Offset(objects, |objects|) < Pow10(10)
    ensures var table := Offset(objects, |objects|) + 8 + |Dec(|objects| + 1)|;
            OccursAt(Assemble(objects), Entry(Offset(objects, k)), table + 20 * (k + 1))
  {
    TablePosition(objects);
    EntryPosition(objects, k);
    PartOccurs(Parts(objects), |objects| + 5 + k);
  }

  lemma EntryReads(pdf: string, at: nat, offset: nat)
    requires offset < Pow10(10) && OccursAt(pdf, Entry(offset), at)
    ensures at + 20 <= |pdf| && AllDigits(pdf[at..at + 10]) && OccursAt(pdf, IN_USE, at + 10)
    ensures Value(pdf[at..at + 10]) == offset
  {
    PadReadsBack(offset);
    var e := Entry(offset);
    assert |e| == 20 && forall j :: 0 <= j < 10 ==> e[j] == Pad10(offset)[j] && e[10 + j] == IN_USE[j];
    assert pdf[at..at + 10] == Pad10(offset);
    forall j | 0 <= j < 10 ensures pdf[at + 10 + j] == IN_USE[j] {
      assert pdf[at + (10 + j)] == e[10 + j];
    }
  }

  /** A number at the very end is read back to whatever stands before it. */
  lemma NumberAtEnd(s: string, before: string, x: nat)
    requires before != [] && !IsDigit(before[|before| - 1])
    ensures DigitsAtEnd(s + before + Dec(x)) == |Dec(x)|
  {
    var t := s + before + Dec(x);
    DecReadsBack(x);
    forall i | |t| - |Dec(x)| <= i < |t| ensures IsDigit(t[i]) {
      assert t[i] == Dec(x)[i - |s + before|];
    }
    DigitsAtEndRun(t, |Dec(x)|);
  }

  /** The last three parts, found from the end. */
  lemma EndReads(s: string, x: nat)
    ensures StartXref(s + START + Dec(x) + EOF) == x
  {
    var t := s + START + Dec(x);
    assert (t + EOF)[..|t + EOF| - 7] == t;
    NumberAtEnd(s, START, x);
    DecReadsBack(x);
    assert t[|t| - |Dec(x)|..] == Dec(x);
  }

  lemma LastThree(parts: seq<string>, x: string, y: string, z: string)
    ensures Concat(parts + [x, y, z]) == Concat(parts) + x + y + z
  {
    ConcatOneMore(parts, x);
    ConcatOneMore(parts + [x], y);
    ConcatOneMore(parts + [x] + [y], z);
    assert parts + [x, y, z] == parts + [x] + [y] + [z];
  }

  lemma StartXrefReads(objects: seq<string>)
    ensures StartXref(Assemble(objects)) == Offset(objects, |objects|)
  {
    var parts, x := Parts(objects), Offset(objects, |objects|);
    var front := parts[..|parts| - 3];
    assert parts == front + [START, Dec(x), EOF];
    LastThree(front, START, Dec(x), EOF);
    EndReads(Concat(front), x);
  }

  /** The reader gets the offset out of a file that has the table where it looks. */
  lemma LocateReads(pdf: string, x: nat, digits: nat, k: nat, offset: nat)
    requires StartXref(pdf) == x && OccursAt(pdf, XREF, x)
    requires DigitsAt(pdf, x + 7) == digits && OccursAt(pdf, "\n", x + 7 + digits)
    requires OccursAt(pdf, Entry(offset), x + 8 + digits + 20 * k) && offset < Pow10(10)
    ensures Locate(pdf, k) == offset
  {
    EntryReads(pdf, x + 8 + digits + 20 * k, offset);
  }

  lemma EntryLocates(objects: seq<string>, k: nat)
    requires 1 <= k <= |objects| && Offset(objects, |objects|) < Pow10(10)
    ensures Locate(Assemble(objects), k) == Offset(objects, k - 1)
  {
    StartXrefReads(objects);
    TableHead(objects);
    EntryOccurs(objects, k - 1);
    OffsetsGrow(objects, k - 1, |objects|);
    LocateReads(Assemble(objects), Offset(objects, |objects|), |Dec(|objects| + 1)|, k, Offset(objects, k - 1));
  }

  /**
   A reader who starts from the end of the file finds the table, and its k-th entry (k from 1) is twenty bytes whose ten
   digits are the byte position at which object k begins, provided the objects end before byte ten to the tenth.
   */
  lemma EntriesLocateObjects(objects: seq<string>, k: nat)
    requires 1 <= k <= |objects| && Offset(objects, |objects|) < Pow10(10)
    ensures OccursAt(Assemble(objects), XREF, StartXref(Assemble(objects)))
    ensures Locate(Assemble(objects), k) == Offset(objects, k - 1)
    ensures OccursAt(Assemble(objects), objects[k - 1], Locate(Assemble(objects), k))
  {
    assert OccursAt(Assemble(objects), XREF, StartXref(Assemble(objects))) by {
      StartXrefReads(objects);
      TableHead(objects);
    }
    EntryLocates(objects, k);
    ObjectOccurs(objects, k - 1);
  }

  // ----- what the digest puts in the file -----

  function IntText(n: int): string {
    if n < 0 then "-" + Dec(-n) else Dec(n)
  }

  function TextLine(size: string, y: int, text: string): string {
    "BT /F1 " + size + " Tf 50 " + IntText(y) + " Td " + PdfString.Literal(text) + " Tj ET"
  }

  /** The lines that fit, from height `y` down to 50, 14 apart. */
  function BodyLines(lines: seq<string>, y: int): seq<string> {
    if lines == [] || y < 50 then [] else [TextLine("10", y, lines[0])] + BodyLines(lines[1..], y - 14)
  }

  function Join(parts: seq<string>): string {
    if parts == [] then ""
    else if |parts| == 1 then parts[0]
    else Join(parts[..|parts| - 1]) + "\n" + parts[|parts| - 1]
  }

  function Content(title: string, lines: seq<string>, height: int): seq<string> {
    [TextLine("14", height - 50, title)] + BodyLines(lines, height - 80)
  }

  const CATALOG := "<< /Type /Catalog /Pages 2 0 R >>endobj\n"
  const PAGES := "<< /Type /Pages /Kids [3 0 R] /Count 1 >>endobj\n"
  const FONT := "<< /Type /Font /Subtype /Type1 /BaseFont /Helvetica >>endobj\n"

  function Page(width: int, height: int): string {
    "<< /Type /Page /Parent 2 0 R /MediaBox [0 0 " + IntText(width) + " " + IntText(height) + "] "
    + "/Contents 4 0 R /Resources << /Font << /F1 5 0 R >> >> >>endobj\n"
  }

  const LENGTH := "<< /Length "
  const STREAM_BEGIN := " >>stream\n"
  const STREAM_END := "\nendstream\nendobj\n"

  function Counted(stream: string): string {
    LENGTH + Dec(|stream|) + STREAM_BEGIN + stream + STREAM_END
  }

  function Numbered(number: string, rest: string): string {
    number + " 0 obj" + rest
  }

  function Objects(stream: string, width: int, height: int): seq<string> {
    [Numbered("1", CATALOG), Numbered("2", PAGES), Numbered("3", Page(width, height)), Numbered("4", Counted(stream)),
     Numbered("5", FONT)]
  }

  // ----- the stream -----

  /** The number at `at`, and where it ends. */
  function ReadNumber(s: string, at: nat): (nat, nat)
    requires at <= |s|
  {
    (Value(s[at..at + DigitsAt(s, at)]), at + DigitsAt(s, at))
  }

  /** The `n` bytes before whatever `end` says must follow them. */
  function ReadBytes(s: string, at: nat, n: nat, end: string): Option<string> {
    if OccursAt(s, end, at + n) then Some(s[at..at + n]) else None
  }

  /** Between `head` and `begin` a number, after `begin` as many bytes, and then `end`: those bytes. */
  function ReadCounted(pdf: string, at: int, head: string, begin: string, end: string): Option<string> {
    if !OccursAt(pdf, head, at) then None
    else
      var (length, after) := ReadNumber(pdf, at + |head|);
      if OccursAt(pdf, begin, after) then ReadBytes(pdf, after + |begin|, length, end) else None
  }

  /** The bytes of the stream of object 4 at `at`: as many as its /Length says, if "endstream" follows them. */
  function ReadStream(pdf: string, at: int): Option<string> {
    ReadCounted(pdf, at, "4" + " 0 obj" + LENGTH, STREAM_BEGIN, STREAM_END)
  }

  lemma OccursThrough(pdf: string, part: string, at: nat, word: string, within: nat)
    requires OccursAt(pdf, part, at) && OccursAt(part, word, within)
    ensures OccursAt(pdf, word, at + within)
  {
    forall i | 0 <= i < |word| ensures pdf[at + within + i] == word[i] {
      assert pdf[at + (within + i)] == part[within + i];
    }
  }

  lemma {:induction false} PieceOccurs(pdf: string, at: nat, parts: seq<string>, k: nat)
    requires k < |parts| && OccursAt(pdf, Concat(parts), at)
    ensures OccursAt(pdf, parts[k], at + Position(parts, k))
  {
    PartOccurs(parts, k);
    OccursThrough(pdf, Concat(parts), at, parts[k], Position(parts, k));
  }

  /** The reader gets the bytes out of an object that has its pieces in order. */
  lemma CountedReads(pdf: string, at: nat, head: string, begin: string, bytes: string, end: string)
    requires begin != [] && !IsDigit(begin[0])
    requires OccursAt(pdf, head, at) && OccursAt(pdf, Dec(|bytes|), at + |head|)
    requires OccursAt(pdf, begin, at + |head| + |Dec(|bytes|)|)
    requires OccursAt(pdf, bytes, at + |head| + |Dec(|bytes|)| + |begin|)
    requires OccursAt(pdf, end, at + |head| + |Dec(|bytes|)| + |begin| + |bytes|)
    ensures ReadCounted(pdf, at, head, begin, end) == Some(bytes)
  {
    var after := at + |head| + |Dec(|bytes|)|;
    LengthReads(pdf, |bytes|, at + |head|, begin);
    BytesRead(pdf, bytes, after + |begin|, end);
  }

  lemma LengthReads(s: string, n: nat, at: nat, next: string)
    requires next != [] && !IsDigit(next[0])
    requires OccursAt(s, Dec(n), at) && OccursAt(s, next, at + |Dec(n)|)
    ensures ReadNumber(s, at) == (n, at + |Dec(n)|)
  {
    NumberReads(s, n, at, next);
  }

  lemma BytesRead(s: string, bytes: string, at: nat, end: string)
    requires OccursAt(s, bytes, at) && OccursAt(s, end, at + |bytes|)
    ensures ReadBytes(s, at, |bytes|, end) == Some(bytes)
  {
    OccurrenceIsSlice(s, bytes, at);
  }

  function StreamParts(stream: string): seq<string> {
    ["4" + " 0 obj" + LENGTH, Dec(|stream|), STREAM_BEGIN, stream, STREAM_END]
  }

  lemma Regrouped(a: string, b: string, c: string, d: string, e: string, f: string)
    ensures a + (b + c + d + e + f) == a + b + c + d + e + f
  {
  }

  lemma StreamObject(stream: string)
    ensures Numbered("4", Counted(stream)) == Concat(StreamParts(stream))
  {
    FiveParts(StreamParts(stream));
    Regrouped("4" + " 0 obj", LENGTH, Dec(|stream|), STREAM_BEGIN, stream, STREAM_END);
  }

  lemma FivePiecesOccur(pdf: string, at: nat, parts: seq<string>)
    requires |parts| == 5 && OccursAt(pdf, Concat(parts), at)
    ensures OccursAt(pdf, parts[0], at) && OccursAt(pdf, parts[1], at + |parts[0]|)
    ensures OccursAt(pdf, parts[2], at + |parts[0]| + |parts[1]|)
    ensures OccursAt(pdf, parts[3], at + |parts[0]| + |parts[1]| + |parts[2]|)
    ensures OccursAt(pdf, parts[4], at + |parts[0]| + |parts[1]| + |parts[2]| + |parts[3]|)
  {
    FiveParts(parts);
    PieceOccurs(pdf, at, parts, 0);
    PieceOccurs(pdf, at, parts, 1);
    PieceOccurs(pdf, at, parts, 2);
    PieceOccurs(pdf, at, parts, 3);
    PieceOccurs(pdf, at, parts, 4);
  }

  lemma StreamReads(pdf: string, at: nat, stream: string)
    requires OccursAt(pdf, Numbered("4", Counted(stream)), at)
    ensures ReadStream(pdf, at) == Some(stream)
  {
    StreamObject(stream);
    FivePiecesOccur(pdf, at, StreamParts(stream));
    CountedReads(pdf, at, "4" + " 0 obj" + LENGTH, STREAM_BEGIN, stream, STREAM_END);
  }

  lemma FiveParts(parts: seq<string>)
    requires |parts| == 5
    ensures Concat(parts) == parts[0] + parts[1] + parts[2] + parts[3] + parts[4]
    ensures Position(parts, 0) == 0 && Position(parts, 1) == |parts[0]|
    ensures Position(parts, 2) == |parts[0]| + |parts[1]| && Position(parts, 3) == |parts[0]| + |parts[1]| + |parts[2]|
    ensures Position(parts, 4) == |parts[0]| + |parts[1]| + |parts[2]| + |parts[3]|
  {
    assert parts[..5] == parts && parts[..5][..4] == parts[..4] && parts[..4][..3] == parts[..3];
    assert parts[..3][..2] == parts[..2] && parts[..2][..1] == parts[..1] && parts[..1][..0] == [];
    assert Concat(parts[..1]) == "" + parts[0] == parts[0];
    assert Concat(parts[..2]) == Concat(parts[..1]) + parts[1];
    assert Concat(parts[..3]) == Concat(parts[..2]) + parts[2];
    assert Concat(parts[..4]) == Concat(parts[..3]) + parts[3];
  }

  // ----- how long it gets -----

  lemma LiteralLength(text: string)
    ensures |PdfString.Literal(text)| <= 202
  {
  }

  lemma TextLineLength(size: string, y: int, text: string)
    requires |size| == 2 && 0 <= y < 1000
    ensures |TextLine(size, y, text)| <= 240
  {
    TenDigits();
    DecLength(y, 3);
    LiteralLength(text);
  }

  /** The lines fit in fourteens between `y` and 50, each of them at most 240 characters long. */
  lemma {:induction false} BodyLinesFit(lines: seq<string>, y: int)
    requires y < 1000
    ensures |BodyLines(lines, y)| <= (if y < 50 then 0 else (y - 50) / 14 + 1)
    ensures forall i :: 0 <= i < |BodyLines(lines, y)| ==> |BodyLines(lines, y)[i]| <= 240
  {
    if lines != [] && y >= 50 {
      TextLineLength("10", y, lines[0]);
      BodyLinesFit(lines[1..], y - 14);
    }
  }

  lemma {:induction false} JoinLength(parts: seq<string>, width: nat)
    requires forall i :: 0 <= i < |parts| ==> |parts[i]| <= width
    ensures |Join(parts)| <= (width + 1) * |parts|
  {
    if |parts| > 1 {
      JoinLength(parts[..|parts| - 1], width);
    }
  }

  const WIDTH: int := 612
  const HEIGHT: int := 792

  function Stream(title: string, lines: seq<string>, height: int): string {
    PdfString.Latin1(Join(Content(title, lines, height)))
  }

  lemma ContentFits(title: string, lines: seq<string>)
    ensures |Content(title, lines, HEIGHT)| <= 49
    ensures forall i :: 0 <= i < |Content(title, lines, HEIGHT)| ==> |Content(title, lines, HEIGHT)[i]| <= 240
  {
    TextLineLength("14", HEIGHT - 50, title);
    BodyLinesFit(lines, HEIGHT - 80);
  }

  /** On the default page at most 49 lines of text are drawn, so the whole stream stays below twelve thousand bytes. */
  lemma StreamFits(title: string, lines: seq<string>)
    ensures |Content(title, lines, HEIGHT)| <= 49 && |Stream(title, lines, HEIGHT)| <= 11_809
  {
    var content := Content(title, lines, HEIGHT);
    ContentFits(title, lines);
    JoinLength(content, 240);
    assert |Stream(title, lines, HEIGHT)| == |Join(content)|;
  }

  lemma FirstOffset(objects: seq<string>)
    ensures Offset(objects, 0) == 9
  {
    assert ([HEADER] + objects)[..1] == [HEADER] && [HEADER][..0] == [];
    assert Concat([HEADER]) == "" + HEADER == HEADER;
  }

  lemma {:induction false} OffsetsFit(objects: seq<string>, k: nat, width: nat)
    requires k <= |objects| && forall i :: 0 <= i < |objects| ==> |objects[i]| <= width
    ensures Offset(objects, k) <= 9 + width * k
  {
    if k == 0 {
      FirstOffset(objects);
    } else {
      OffsetsFit(objects, k - 1, width);
      NextOffset(objects, k - 1);
      assert width * k == width * (k - 1) + width;
    }
  }

  lemma ObjectsFit(stream: string)
    requires |stream| < 100_000
    ensures Offset(Objects(stream, WIDTH, HEIGHT), 5) < Pow10(10)
  {
    TenDigits();
    DecLength(|stream|, 10);
    DecLength(WIDTH, 3);
    DecLength(HEIGHT, 3);
    OffsetsFit(Objects(stream, WIDTH, HEIGHT), 5, 200_000);
  }

  lemma NumberHead(k: nat, number: string, rest: string)
    requires 1 <= k < 10 && number == [Digit(k)]
    ensures OccursAt(Numbered(number, rest), Dec(k) + " 0 obj", 0)
  {
    assert Dec(k) == [Digit(k)];
  }

  /** The k-th object begins with its own number. */
  lemma ObjectsAreNumbered(stream: string, width: int, height: int, k: nat)
    requires 1 <= k <= 5
    ensures OccursAt(Objects(stream, width, height)[k - 1], Dec(k) + " 0 obj", 0)
  {
    var rests := [CATALOG, PAGES, Page(width, height), Counted(stream), FONT];
    NumberHead(k, [Digit(k)], rests[k - 1]);
  }

  function Pdf(title: string, lines: seq<string>, width: int, height: int): string {
    Assemble(Objects(Stream(title, lines, height), width, height))
  }

  /**
   For every title and every list of lines, on the default page: each entry of the cross-reference table leads to its
   object, which begins with its own number, and the stream of object 4 is exactly the encoded text, as long as its
   /Length says.
   */
  lemma DigestIsReadable(title: string, lines: seq<string>, k: nat)
    requires 1 <= k <= 5
    ensures var pdf, stream := Pdf(title, lines, WIDTH, HEIGHT), Stream(title, lines, HEIGHT);
            && OccursAt(pdf, XREF, StartXref(pdf))
            && OccursAt(pdf, Objects(stream, WIDTH, HEIGHT)[k - 1], Locate(pdf, k))
            && OccursAt(pdf, Dec(k) + " 0 obj", Locate(pdf, k))
            && ReadStream(pdf, Locate(pdf, 4)) == Some(stream)
  {
    var stream := Stream(title, lines, HEIGHT);
    StreamFits(title, lines);
    ObjectsFit(stream);
    EntriesLocateObjects(Objects(stream, WIDTH, HEIGHT), k);
    ObjectsAreNumbered(stream, WIDTH, HEIGHT, k);
    OccursThrough(Pdf(title, lines, WIDTH, HEIGHT), Objects(stream, WIDTH, HEIGHT)[k - 1],
                  Locate(Pdf(title, lines, WIDTH, HEIGHT), k), Dec(k) + " 0 obj", 0);
    EntriesLocateObjects(Objects(stream, WIDTH, HEIGHT), 4);
    StreamReads(Pdf(title, lines, WIDTH, HEIGHT), Locate(Pdf(title, lines, WIDTH, HEIGHT), 4), stream);
  }

  lemma PageSizeInWords()
    ensures IntText(612) == "612" && IntText(792) == "792" && IntText(-10) == "-10"
  {
    assert Dec(6) == "6" && Dec(61) == "61" && Dec(612) == "612";
    assert Dec(1) == "1" && Dec(10) == "10";
    assert Dec(7) == "7" && Dec(79) == "79" && Dec(792) == "792";
  }

  lemma PageInWords()
    ensures Page(WIDTH, HEIGHT)
            == "<< /Type /Page /Parent 2 0 R /MediaBox [0 0 " + "612" + " " + "792" + "] "
               + "/Contents 4 0 R /Resources << /Font << /F1 5 0 R >> >> >>endobj\n"
  {
    PageSizeInWords();
  }

  /** The objects of the default page, word for word. */
  lemma ObjectsInWords(stream: string)
    ensures |Objects(stream, WIDTH, HEIGHT)| == 5
    ensures Objects(stream, WIDTH, HEIGHT)[0] == "1" + " 0 obj" + "<< /Type /Catalog /Pages 2 0 R >>endobj\n"
    ensures Objects(stream, WIDTH, HEIGHT)[1] == "2" + " 0 obj" + "<< /Type /Pages /Kids [3 0 R] /Count 1 >>endobj\n"
    ensures Objects(stream, WIDTH, HEIGHT)[2] == "3" + " 0 obj" + Page(WIDTH, HEIGHT)
    ensures Objects(stream, WIDTH, HEIGHT)[3]
            == "4" + " 0 obj" + ("<< /Length " + Dec(|stream|) + " >>stream\n" + stream + "\nendstream\nendobj\n")
    ensures Objects(stream, WIDTH, HEIGHT)[4] == "5" + " 0 obj" + "<< /Type /Font /Subtype /Type1 /BaseFont /Helvetica >>endobj\n"
  {
  }

  /** The file around them, word for word. */
  lemma FileInWords(objects: seq<string>)
    ensures Assemble(objects) == Concat(
              ["%PDF-1.4\n"] + objects + ["xref\n0 ", Dec(|objects| + 1), "\n", "0000000000 65535 f \n"] + Entries(objects)
              + ["trailer<< /Size ", Dec(|objects| + 1), " /Root 1 0 R >>\n", "startxref\n", Dec(Offset(objects, |objects|)),
                 "\n%%EOF\n"])
    ensures forall k :: 0 <= k < |objects| ==> Entries(objects)[k] == Pad10(Offset(objects, k)) + " 00000 n \n"
  {
  }

  // ----- writing it -----

  /** Objects, cross-reference table and trailer, with each offset noted as the object is written. */
  method WriteFile(objects: seq<string>) returns (pdf: string)
    ensures pdf == Assemble(objects)
  {
    var count := |objects|;
    pdf := HEADER;
    var offsets: seq<nat> := [];
    assert Concat([HEADER]) == Concat([]) + HEADER by {
      ConcatOneMore([], HEADER);
    }
    for k := 0 to count
      invariant pdf == Concat([HEADER] + objects[..k])
      invariant |offsets| == k && forall i :: 0 <= i < k ==> offsets[i] == Offset(objects, i)
    {
      ObjectWritten(objects, k);
      offsets := offsets + [|pdf|];
      pdf := pdf + objects[k];
    }
    assert objects[..count] == objects && ([HEADER] + objects)[..count + 1] == [HEADER] + objects;
    var xref := |pdf|;
    FrontWritten(objects);
    pdf := pdf + (XREF + Dec(count + 1) + "\n" + FREE_ENTRY);
    assert FrontParts(objects) + Entries(objects)[..0] == FrontParts(objects);
    for k := 0 to count
      invariant pdf == Concat(FrontParts(objects) + Entries(objects)[..k])
    {
      EntryWritten(objects, k);
      pdf := pdf + Entry(offsets[k]);
    }
    assert Entries(objects)[..count] == Entries(objects);
    SixParts(FrontParts(objects) + Entries(objects), TrailerParts(count + 1, xref));
    pdf := pdf + (TRAILER + Dec(count + 1) + ROOT + START + Dec(xref) + EOF);
  }

  lemma ObjectWritten(objects: seq<string>, k: nat)
    requires k < |objects|
    ensures Concat([HEADER] + objects[..k + 1]) == Concat([HEADER] + objects[..k]) + objects[k]
    ensures |Concat([HEADER] + objects[..k])| == Offset(objects, k)
  {
    assert ([HEADER] + objects)[..k + 1] == [HEADER] + objects[..k];
    ConcatOneMore([HEADER] + objects[..k], objects[k]);
    assert [HEADER] + objects[..k] + [objects[k]] == [HEADER] + objects[..k + 1];
  }

  lemma {:induction false} FrontWritten(objects: seq<string>)
    ensures Concat(FrontParts(objects)) == Concat([HEADER] + objects) + (XREF + Dec(|objects| + 1) + "\n" + FREE_ENTRY)
  {
    FourParts([HEADER] + objects, XREF, Dec(|objects| + 1), "\n", FREE_ENTRY);
  }

  lemma FourParts(parts: seq<string>, a: string, b: string, c: string, d: string)
    ensures Concat(parts + [a, b, c, d]) == Concat(parts) + (a + b + c + d)
  {
    ConcatOneMore(parts, a);
    LastThree(parts + [a], b, c, d);
    assert parts + [a] + [b, c, d] == parts + [a, b, c, d];
  }

  lemma EntryWritten(objects: seq<string>, k: nat)
    requires k < |objects|
    ensures Concat(FrontParts(objects) + Entries(objects)[..k + 1])
            == Concat(FrontParts(objects) + Entries(objects)[..k]) + Entry(Offset(objects, k))
  {
    var before := FrontParts(objects) + Entries(objects)[..k];
    ConcatOneMore(before, Entries(objects)[k]);
    assert FrontParts(objects) + Entries(objects)[..k + 1] == before + [Entries(objects)[k]];
  }

  lemma SixParts(parts: seq<string>, six: seq<string>)
    requires |six| == 6
    ensures Concat(parts + six) == Concat(parts) + (six[0] + six[1] + six[2] + six[3] + six[4] + six[5])
  {
    LastThree(parts, six[0], six[1], six[2]);
    LastThree(parts + [six[0], six[1], six[2]], six[3], six[4], six[5]);
    assert parts + six == parts + [six[0], six[1], six[2]] + [six[3], six[4], six[5]];
  }

  /** The builder: one line for the title, then as many lines as fit. */
  method TextPdf(title: string, lines: seq<string>, width: int, height: int) returns (pdf: string)
    ensures pdf == Pdf(title, lines, width, height)
  {
    var content := [TextLine("14", height - 50, title)];
    var y := height - 80;
    var i := 0;
    while i < |lines|
      invariant 0 <= i <= |lines|
      invariant content + BodyLines(lines[i..], y) == Content(title, lines, height)
    {
      if y < 50 {
        break;
      }
      assert lines[i..][1..] == lines[i + 1..];
      content := content + [TextLine("10", y, lines[i])];
      y := y - 14;
      i := i + 1;
    }
    assert content == Content(title, lines, height);
    var stream := PdfString.Latin1(Join(content));
    pdf := WriteFile(Objects(stream, width, height));
  }
}
