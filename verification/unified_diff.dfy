/** Reading one file's unified diff: hunk headers, body lines and their line numbers. */
module UnifiedDiff {
  import opened Machine
  import opened Wrappers

  datatype LineType = Context | Added | Deleted
  datatype Line = Line(kind: LineType, oldNo: int, newNo: int, text: string)
  datatype Hunk = Hunk(oldStart: int, oldLines: int, newStart: int, newLines: int, lines: seq<Line>)
  datatype FileDiff = FileDiff(path: string, oldPath: string, status: char, binary: bool, truncated: bool,
                               hunks: seq<Hunk>)

  // ---------------------------------------------------------------- text helpers

  predicate HasPrefix(s: string, p: string) { p <= s }

  predicate HasSuffix(s: string, p: string) {
    |p| <= |s| && s[|s| - |p|..] == p
  }

  predicate NoNewline(s: string) { '\n' !in s }

  /** The pieces of s between newlines; always at least one. */
  function Split(s: string): (lines: seq<string>)
    ensures lines != [] && forall k :: 0 <= k < |lines| ==> NoNewline(lines[k])
  {
    if s == "" then [""]
    else
      var rest := Split(s[1..]);
      if s[0] == '\n' then [""] + rest else [[s[0]] + rest[0]] + rest[1..]
  }

  function Join(lines: seq<string>): string {
    if lines == [] then ""
    else if |lines| == 1 then lines[0]
    else lines[0] + "\n" + Join(lines[1..])
  }

  lemma {:induction false} SplitPrefix(a: string, b: string)
    requires NoNewline(a)
    ensures Split(a + b) == [a + Split(b)[0]] + Split(b)[1..]
  {
    if a == "" {
      assert a + b == b;
      assert a + Split(b)[0] == Split(b)[0];
    } else {
      assert (a + b)[1..] == a[1..] + b;
      SplitPrefix(a[1..], b);
      assert [a[0]] + (a[1..] + Split(b)[0]) == a + Split(b)[0];
    }
  }

  /** Splitting undoes joining. */
  lemma {:induction false} SplitJoin(lines: seq<string>)
    requires lines != [] && forall k :: 0 <= k < |lines| ==> NoNewline(lines[k])
    ensures Split(Join(lines)) == lines
  {
    if |lines| == 1 {
      SplitPrefix(lines[0], "");
      assert lines[0] + "" == lines[0];
      assert lines == [lines[0]];
    } else {
      SplitJoin(lines[1..]);
      var tail := "\n" + Join(lines[1..]);
      assert tail[1..] == Join(lines[1..]);
      SplitPrefix(lines[0], tail);
      assert lines[0] + "\n" + Join(lines[1..]) == lines[0] + tail;
      assert Split(tail) == [""] + lines[1..];
      assert lines[0] + "" == lines[0];
      assert lines == [lines[0]] + lines[1..];
    }
  }

  // ---------------------------------------------------------------- numbers

  predicate IsDigit(c: char) { '0' <= c <= '9' }

  predicate AllDigits(s: string) { forall k :: 0 <= k < |s| ==> IsDigit(s[k]) }

  /** The length of the longest prefix of digits. */
  function DigitsLen(s: string): (n: nat)
    ensures n <= |s| && AllDigits(s[..n]) && (n < |s| ==> !IsDigit(s[n]))
  {
    if s == "" || !IsDigit(s[0]) then 0
    else
      assert forall k :: 1 <= k < |s| ==> s[k] == s[1..][k - 1];
      1 + DigitsLen(s[1..])
  }

  lemma {:induction false} DigitsLenIs(a: string, b: string)
    requires AllDigits(a) && (b == "" || !IsDigit(b[0]))
    ensures DigitsLen(a + b) == |a|
  {
    if a == "" {
      assert a + b == b;
    } else {
      assert (a + b)[1..] == a[1..] + b;
      DigitsLenIs(a[1..], b);
    }
  }

  function Value(s: string): nat
    requires AllDigits(s)
  {
    if s == "" then 0 else Value(s[..|s| - 1]) * 10 + (s[|s| - 1] as int - '0' as int)
  }

  function Digit(d: nat): (c: char)
    requires d < 10
    ensures IsDigit(c) && c as int - '0' as int == d
  {
    ('0' as int + d) as char
  }

  function Itoa(n: nat): (s: string)
    ensures s != "" && AllDigits(s)
  {
    if n < 10 then [Digit(n)] else Itoa(n / 10) + [Digit(n % 10)]
  }

  lemma {:induction false} ValueOfItoa(n: nat)
    ensures Value(Itoa(n)) == n
  {
    if n >= 10 {
      ValueOfItoa(n / 10);
      assert Itoa(n)[..|Itoa(n)| - 1] == Itoa(n / 10);
    } else {
      assert Value([]) == 0;
      assert [Digit(n)][..0] == [];
    }
  }

  /** A missing number, or one too large for a machine integer, counts as the default. */
  function AtoiDefault(s: string, default: int): int
    requires AllDigits(s)
  {
    if s == "" || Value(s) > MAX_INT64 then default else Value(s)
  }

  // ---------------------------------------------------------------- hunk headers

  /** A range "start" or "start,count" at the front of s: the two digit strings and what follows. */
  datatype Range = Range(start: string, count: string, rest: string)

  function ParseRange(s: string): (r: Option<Range>)
    ensures r.Some? ==> AllDigits(r.value.start) && AllDigits(r.value.count)
  {
    var n := DigitsLen(s);
    if n == 0 then None
    else
      var rest := s[n..];
      if rest != "" && rest[0] == ',' && DigitsLen(rest[1..]) > 0 then
        var m := DigitsLen(rest[1..]);
        Some(Range(s[..n], rest[1..][..m], rest[1..][m..]))
      else Some(Range(s[..n], "", rest))
  }

  datatype Header = Header(oldSide: Range, newSide: Range)

  /** The header pattern: "@@ -range +range @@", whatever follows. */
  function ParseHeader(line: string): (h: Option<Header>)
    ensures h.Some? ==> AllDigits(h.value.oldSide.start) && AllDigits(h.value.oldSide.count)
    ensures h.Some? ==> AllDigits(h.value.newSide.start) && AllDigits(h.value.newSide.count)
  {
    if !HasPrefix(line, "@@ -") then None
    else
      match ParseRange(line[4..])
      case None => None
      case Some(oldSide) =>
        if !HasPrefix(oldSide.rest, " +") then None
        else
          match ParseRange(oldSide.rest[2..])
          case None => None
          case Some(newSide) => if HasPrefix(newSide.rest, " @@") then Some(Header(oldSide, newSide)) else None
  }

  function HeaderHunk(h: Header): Hunk
    requires AllDigits(h.oldSide.start) && AllDigits(h.oldSide.count)
    requires AllDigits(h.newSide.start) && AllDigits(h.newSide.count)
  {
    Hunk(AtoiDefault(h.oldSide.start, 0), AtoiDefault(h.oldSide.count, 1),
         AtoiDefault(h.newSide.start, 0), AtoiDefault(h.newSide.count, 1), [])
  }

  // ---------------------------------------------------------------- the parser

  datatype Parser = Parser(fd: FileDiff, oldNo: int, newNo: int)

  function AddLine(fd: FileDiff, line: Line): FileDiff
    requires fd.hunks != []
  {
    var last := |fd.hunks| - 1;
    fd.(hunks := fd.hunks[last := fd.hunks[last].(lines := fd.hunks[last].lines + [line])])
  }

  function ReadLine(p: Parser, line: string): Parser {
    if HasPrefix(line, "rename from ") then p.(fd := p.fd.(oldPath := line[|"rename from "|..], status := 'R'))
    else if HasPrefix(line, "rename to ") then p.(fd := p.fd.(path := line[|"rename to "|..]))
    else if HasPrefix(line, "new file mode") then p.(fd := p.fd.(status := 'A'))
    else if HasPrefix(line, "deleted file mode") then p.(fd := p.fd.(status := 'D'))
    else if HasPrefix(line, "Binary files ") && HasSuffix(line, " differ") then p.(fd := p.fd.(binary := true))
    else if HasPrefix(line, "@@ ") then
      match ParseHeader(line)
      case None => p
      case Some(h) =>
        var hunk := HeaderHunk(h);
        Parser(p.fd.(hunks := p.fd.hunks + [hunk]), hunk.oldStart, hunk.newStart)
    else if p.fd.hunks == [] || line == "" then p
    else if HasPrefix(line, "\\ No newline") then p
    else if line[0] == ' ' then
      Parser(AddLine(p.fd, Line(Context, p.oldNo, p.newNo, line[1..])), Int64(p.oldNo + 1), Int64(p.newNo + 1))
    else if line[0] == '+' then
      Parser(AddLine(p.fd, Line(Added, 0, p.newNo, line[1..])), p.oldNo, Int64(p.newNo + 1))
    else if line[0] == '-' then
      Parser(AddLine(p.fd, Line(Deleted, p.oldNo, 0, line[1..])), Int64(p.oldNo + 1), p.newNo)
    else p
  }

  function ReadLines(p: Parser, lines: seq<string>): Parser
    decreases |lines|
  {
    if lines == [] then p else ReadLines(ReadLine(p, lines[0]), lines[1..])
  }

  function Fresh(path: string): Parser {
    Parser(FileDiff(path, "", 'M', false, false, []), 0, 0)
  }

  function Parsed(path: string, out: string): FileDiff {
    ReadLines(Fresh(path), Split(out)).fd
  }

  /** The line-by-line loop over the command's output. */
  method ParseUnifiedDiff(path: string, out: string) returns (fd: FileDiff)
    ensures fd == Parsed(path, out)
  {
    fd := FileDiff(path, "", 'M', false, false, []);
    var oldNo, newNo := 0, 0;
    var lines := Split(out);
    var n := 0;
    assert lines[0..] == lines;
    while n < |lines|
      invariant n <= |lines|
      invariant ReadLines(Parser(fd, oldNo, newNo), lines[n..]) == ReadLines(Fresh(path), lines)
    {
      var line := lines[n];
      assert lines[n..][0] == line && lines[n..][1..] == lines[n + 1..];
      ghost var before := Parser(fd, oldNo, newNo);
      if HasPrefix(line, "rename from ") {
        fd := fd.(oldPath := line[|"rename from "|..], status := 'R');
      } else if HasPrefix(line, "rename to ") {
        fd := fd.(path := line[|"rename to "|..]);
      } else if HasPrefix(line, "new file mode") {
        fd := fd.(status := 'A');
      } else if HasPrefix(line, "deleted file mode") {
        fd := fd.(status := 'D');
      } else if HasPrefix(line, "Binary files ") && HasSuffix(line, " differ") {
        fd := fd.(binary := true);
      } else if HasPrefix(line, "@@ ") {
        var m := ParseHeader(line);
        if m.Some? {
          var hunk := HeaderHunk(m.value);
          fd := fd.(hunks := fd.hunks + [hunk]);
          oldNo, newNo := hunk.oldStart, hunk.newStart;
        }
      } else if fd.hunks != [] && HasPrefix(line, "\\ No newline") {
      } else if fd.hunks != [] && |line| > 0 && (line[0] == ' ' || line[0] == '+' || line[0] == '-') {
        if line[0] == ' ' {
          fd := AddLine(fd, Line(Context, oldNo, newNo, line[1..]));
          oldNo, newNo := Int64(oldNo + 1), Int64(newNo + 1);
        } else if line[0] == '+' {
          fd := AddLine(fd, Line(Added, 0, newNo, line[1..]));
          newNo := Int64(newNo + 1);
        } else {
          fd := AddLine(fd, Line(Deleted, oldNo, 0, line[1..]));
          oldNo := Int64(oldNo + 1);
        }
      }
      assert Parser(fd, oldNo, newNo) == ReadLine(before, line);
      n := n + 1;
    }
  }

  // ---------------------------------------------------------------- numbering

  /** How many lines are of another kind than skip. */
  function Count(lines: seq<Line>, skip: LineType): nat {
    if lines == [] then 0
    else Count(lines[..|lines| - 1], skip) + (if lines[|lines| - 1].kind == skip then 0 else 1)
  }

  function OldCount(lines: seq<Line>): nat { Count(lines, Added) }

  function NewCount(lines: seq<Line>): nat { Count(lines, Deleted) }

  /** Line k carries the next number of each side it belongs to, and 0 for the other. */
  predicate NumberedAt(h: Hunk, k: nat)
    requires k < |h.lines|
  {
    && h.lines[k].oldNo == (if h.lines[k].kind == Added then 0 else Int64(h.oldStart + OldCount(h.lines[..k])))
    && h.lines[k].newNo == (if h.lines[k].kind == Deleted then 0 else Int64(h.newStart + NewCount(h.lines[..k])))
  }

  /** Numbers in range, texts without newlines, lines numbered consecutively on both sides. */
  predicate WellFormed(h: Hunk) {
    && 0 <= h.oldStart <= MAX_INT64 && 0 <= h.oldLines <= MAX_INT64
    && 0 <= h.newStart <= MAX_INT64 && 0 <= h.newLines <= MAX_INT64
    && forall k :: 0 <= k < |h.lines| ==> NumberedAt(h, k) && NoNewline(h.lines[k].text)
  }

  /** The counters stand just past the last hunk. */
  ghost predicate Counting(p: Parser) {
    && (forall k :: 0 <= k < |p.fd.hunks| ==> WellFormed(p.fd.hunks[k]))
    && (p.fd.hunks != [] ==>
          var h := p.fd.hunks[|p.fd.hunks| - 1];
          p.oldNo == Int64(h.oldStart + OldCount(h.lines)) && p.newNo == Int64(h.newStart + NewCount(h.lines)))
  }

  lemma CountsOfNone()
    ensures OldCount([]) == 0 && NewCount([]) == 0
  {}

  lemma CountsGrow(lines: seq<Line>, line: Line)
    ensures OldCount(lines + [line]) == OldCount(lines) + (if line.kind == Added then 0 else 1)
    ensures NewCount(lines + [line]) == NewCount(lines) + (if line.kind == Deleted then 0 else 1)
  {
    assert (lines + [line])[..|lines|] == lines;
  }

  /** The numbers the next line takes. */
  predicate FollowsOn(h: Hunk, line: Line) {
    && NoNewline(line.text)
    && line.oldNo == (if line.kind == Added then 0 else Int64(h.oldStart + OldCount(h.lines)))
    && line.newNo == (if line.kind == Deleted then 0 else Int64(h.newStart + NewCount(h.lines)))
  }

  lemma AddLineWellFormed(h: Hunk, line: Line)
    requires WellFormed(h) && FollowsOn(h, line)
    ensures WellFormed(h.(lines := h.lines + [line]))
  {
    hide Int64, OldCount, NewCount, NoNewline;
    var h' := h.(lines := h.lines + [line]);
    forall k | 0 <= k < |h'.lines| ensures NumberedAt(h', k) && NoNewline(h'.lines[k].text) {
      assert h'.lines[..k] == h.lines[..k];
      if k < |h.lines| {
        assert NumberedAt(h, k);
      } else {
        assert h.lines[..k] == h.lines;
      }
    }
  }

  /** What one more body line does to the parser. */
  function Push(p: Parser, kind: LineType, text: string): Parser
    requires p.fd.hunks != []
  {
    Parser(AddLine(p.fd, Line(kind, if kind == Added then 0 else p.oldNo, if kind == Deleted then 0
        else p.newNo, text)),
           if kind == Added then p.oldNo else Int64(p.oldNo + 1),
           if kind == Deleted then p.newNo else Int64(p.newNo + 1))
  }

  lemma PushCounting(p: Parser, kind: LineType, text: string)
    requires Counting(p) && p.fd.hunks != [] && NoNewline(text)
    ensures Counting(Push(p, kind, text))
  {
    hide WellFormed, Int64, OldCount, NewCount;
    var h := p.fd.hunks[|p.fd.hunks| - 1];
    var line := Line(kind, if kind == Added then 0 else p.oldNo, if kind == Deleted then 0 else p.newNo, text);
    Int64Succ(h.oldStart + OldCount(h.lines));
    Int64Succ(h.newStart + NewCount(h.lines));
    CountsGrow(h.lines, line);
    AddLineWellFormed(h, line);
  }

  /** A line of the input leaves hunks and counters alone, opens a hunk, or extends the last one. */
  lemma ReadLineCases(p: Parser, line: string)
    ensures var p' := ReadLine(p, line);
            || (p'.fd.hunks == p.fd.hunks && p'.oldNo == p.oldNo && p'.newNo == p.newNo)
            || (ParseHeader(line).Some? && var h := HeaderHunk(ParseHeader(line).value);
                p' == Parser(p.fd.(hunks := p.fd.hunks + [h]), h.oldStart, h.newStart))
            || (p.fd.hunks != [] && line != ""
                && (p' == Push(p, Context, line[1..]) || p' == Push(p, Added, line[1..]) || p' ==
                    Push(p, Deleted, line[1..])))
  {
    hide HasPrefix, HasSuffix, ParseHeader, HeaderHunk, AddLine, Int64;
  }

  lemma HeaderWellFormed(p: Parser, h: Header)
    requires AllDigits(h.oldSide.start) && AllDigits(h.oldSide.count)
    requires AllDigits(h.newSide.start) && AllDigits(h.newSide.count)
    requires Counting(p)
    ensures var hunk := HeaderHunk(h);
            Counting(Parser(p.fd.(hunks := p.fd.hunks + [hunk]), hunk.oldStart, hunk.newStart))
  {
    CountsOfNone();
  }

  lemma ReadLineCounting(p: Parser, line: string)
    requires Counting(p) && NoNewline(line)
    ensures Counting(ReadLine(p, line))
  {
    hide ReadLine, WellFormed, ParseHeader, HeaderHunk, Push, Int64, OldCount, NewCount;
    ReadLineCases(p, line);
    if ParseHeader(line).Some? {
      HeaderWellFormed(p, ParseHeader(line).value);
    }
    if p.fd.hunks != [] && line != "" {
      PushCounting(p, Context, line[1..]);
      PushCounting(p, Added, line[1..]);
      PushCounting(p, Deleted, line[1..]);
    }
  }

  lemma {:induction false} ReadLinesCounting(p: Parser, lines: seq<string>)
    requires Counting(p) && forall k :: 0 <= k < |lines| ==> NoNewline(lines[k])
    ensures Counting(ReadLines(p, lines))
    decreases |lines|
  {
    if lines != [] {
      ReadLineCounting(p, lines[0]);
      ReadLinesCounting(ReadLine(p, lines[0]), lines[1..]);
    }
  }

  /** Whatever the input, every hunk parsed has its lines numbered consecutively on both sides. */
  lemma ParsedIsNumbered(path: string, out: string)
    ensures forall k :: 0 <= k < |Parsed(path, out).hunks| ==> WellFormed(Parsed(path, out).hunks[k])
  {
    ReadLinesCounting(Fresh(path), Split(out));
  }

  // ---------------------------------------------------------------- printing

  /** How a header may look beyond its numbers: whether a count of 1 is left out, and the text after its end. */
  datatype Style = Style(oldBrief: bool, newBrief: bool, section: string)

  /** What else is free: the mode, the names in the line about a binary file, and the headers. */
  datatype Look = Look(mode: string, names: string, styles: seq<Style>)

  function PrintRange(start: nat, count: nat, brief: bool): string {
    Itoa(start) + (if count == 1 && brief then "" else "," + Itoa(count))
  }

  function PrintHeader(h: Hunk, style: Style): string
    requires WellFormed(h)
  {
    "@@ -" + PrintRange(h.oldStart, h.oldLines, style.oldBrief) +
    " +" + PrintRange(h.newStart, h.newLines, style.newBrief) + " @@" + style.section
  }

  function PrintLine(l: Line): string {
    [match l.kind case Context => ' ' case Added => '+' case Deleted => '-'] + l.text
  }

  function PrintBody(lines: seq<Line>): seq<string> {
    if lines == [] then [] else [PrintLine(lines[0])] + PrintBody(lines[1..])
  }

  function PrintHunks(hunks: seq<Hunk>, styles: seq<Style>): seq<string>
    requires |styles| == |hunks| && forall k :: 0 <= k < |hunks| ==> WellFormed(hunks[k])
  {
    if hunks == [] then []
    else [PrintHeader(hunks[0], styles[0])] + PrintBody(hunks[0].lines) + PrintHunks(hunks[1..], styles[1..])
  }

  /** The extended header lines that record a file's status. */
  function PrintStatus(fd: FileDiff, look: Look): seq<string> {
    (if fd.status == 'R' then ["rename from " + fd.oldPath, "rename to " + fd.path]
     else if fd.status == 'A' then ["new file mode" + look.mode]
     else if fd.status == 'D' then ["deleted file mode" + look.mode]
     else [])
    + (if fd.binary then ["Binary files " + look.names + " differ"] else [])
  }

  /** A diff that can be printed, and a look without newlines for it. */
  ghost predicate Printable(fd: FileDiff, look: Look) {
    && (fd.status == 'M' || fd.status == 'A' || fd.status == 'D' || fd.status == 'R')
    && (fd.status != 'R' ==> fd.oldPath == "") && !fd.truncated
    && (forall k :: 0 <= k < |fd.hunks| ==> WellFormed(fd.hunks[k]))
    && |look.styles| == |fd.hunks|
  }

  /** The lines that carry the diff. */
  function Print(fd: FileDiff, look: Look): seq<string>
    requires |look.styles| == |fd.hunks| && forall k :: 0 <= k < |fd.hunks| ==> WellFormed(fd.hunks[k])
  {
    PrintStatus(fd, look) + PrintHunks(fd.hunks, look.styles)
  }

  // ---------------------------------------------------------------- reading back what was printed

  lemma StartOnly(a: string, rest: string)
    requires a != "" && AllDigits(a) && rest != "" && rest[0] == ' '
    ensures ParseRange(a + rest) == Some(Range(a, "", rest))
  {
    hide DigitsLen, Value;
    DigitsLenIs(a, rest);
    assert (a + rest)[..|a|] == a && (a + rest)[|a|..] == rest;
  }

  lemma StartAndCount(a: string, b: string, rest: string)
    requires a != "" && AllDigits(a) && b != "" && AllDigits(b) && rest != "" && rest[0] == ' '
    ensures ParseRange(a + ("," + (b + rest))) == Some(Range(a, b, rest))
  {
    hide DigitsLen, Value;
    var tail := "," + (b + rest);
    DigitsLenIs(a, tail);
    assert (a + tail)[..|a|] == a && (a + tail)[|a|..] == tail;
    assert tail[1..] == b + rest;
    DigitsLenIs(b, rest);
    assert (b + rest)[..|b|] == b && (b + rest)[|b|..] == rest;
  }

  lemma RangeBack(start: nat, count: nat, brief: bool, rest: string)
    requires rest != "" && rest[0] == ' '
    ensures var r := ParseRange(PrintRange(start, count, brief) + rest);
            && r.Some? && r.value.rest == rest
            && AtoiDefault(r.value.start, 0) == (if start <= MAX_INT64 then start else 0)
            && AtoiDefault(r.value.count, 1) == (if count <= MAX_INT64 then count else 1)
  {
    hide ParseRange, Itoa, Value;
    ValueOfItoa(start);
    ValueOfItoa(count);
    var a, b := Itoa(start), Itoa(count);
    if count == 1 && brief {
      assert PrintRange(start, count, brief) + rest == a + rest;
      StartOnly(a, rest);
    } else {
      assert PrintRange(start, count, brief) + rest == a + ("," + (b + rest));
      StartAndCount(a, b, rest);
    }
  }

  /** A printed header reads back as its four numbers, with or without counts of 1 and whatever follows it. */
  lemma HeaderBack(h: Hunk, style: Style)
    requires WellFormed(h)
    ensures var p := ParseHeader(PrintHeader(h, style));
            p.Some? && HeaderHunk(p.value) == h.(lines := [])
  {
    hide ParseRange, PrintRange, AtoiDefault, AllDigits;
    var third := " @@" + style.section;
    var second := PrintRange(h.newStart, h.newLines, style.newBrief) + third;
    var first := PrintRange(h.oldStart, h.oldLines, style.oldBrief) + (" +" + second);
    assert PrintHeader(h, style) == "@@ -" + first;
    assert ("@@ -" + first)[4..] == first;
    RangeBack(h.oldStart, h.oldLines, style.oldBrief, " +" + second);
    assert (" +" + second)[2..] == second;
    RangeBack(h.newStart, h.newLines, style.newBrief, third);
  }

  lemma ReadHeader(p: Parser, h: Hunk, style: Style)
    requires WellFormed(h)
    ensures ReadLine(p, PrintHeader(h, style)) ==
        Parser(p.fd.(hunks := p.fd.hunks + [h.(lines := [])]), h.oldStart, h.newStart)
  {
    hide HasPrefix, HasSuffix, HeaderHunk, WellFormed, ParseHeader, PrintHeader;
    HeaderBack(h, style);
    HeaderPrefix(h, style);
    var s := PrintHeader(h, style);
    NotPrefix(s, "rename from ");
    NotPrefix(s, "rename to ");
    NotPrefix(s, "new file mode");
    NotPrefix(s, "deleted file mode");
    NotPrefix(s, "Binary files ");
  }

  lemma HeaderPrefix(h: Hunk, style: Style)
    requires WellFormed(h)
    ensures PrintHeader(h, style) != "" && PrintHeader(h, style)[0] == '@' && HasPrefix(PrintHeader(h, style), "@@ ")
  {
    var s := PrintHeader(h, style);
    assert s[..4] == "@@ -";
    assert s[..3] == "@@ ";
  }

  /** A body line starts with its marker, so no other rule of the parser can claim it. */
  lemma ReadBodyLine(p: Parser, l: Line)
    requires p.fd.hunks != []
    ensures ReadLine(p, PrintLine(l)) == Push(p, l.kind, l.text)
  {
    hide AddLine, Int64, HasPrefix, HasSuffix;
    var s := PrintLine(l);
    assert s[1..] == l.text;
    NotPrefix(s, "rename from ");
    NotPrefix(s, "rename to ");
    NotPrefix(s, "new file mode");
    NotPrefix(s, "deleted file mode");
    NotPrefix(s, "Binary files ");
    NotPrefix(s, "@@ ");
    NotPrefix(s, "\\ No newline");
  }

  lemma NotPrefix(s: string, p: string)
    requires s != "" && p != "" && s[0] != p[0]
    ensures !HasPrefix(s, p)
  {}

  /** The parser has read a hunk up to body line k. */
  ghost predicate Inside(p: Parser, before: seq<Hunk>, fd: FileDiff, h: Hunk, k: nat) {
    && k <= |h.lines|
    && p.fd == fd.(hunks := before + [h.(lines := h.lines[..k])])
    && p.oldNo == Int64(h.oldStart + OldCount(h.lines[..k]))
    && p.newNo == Int64(h.newStart + NewCount(h.lines[..k]))
  }

  lemma InsideStep(p: Parser, before: seq<Hunk>, fd: FileDiff, h: Hunk, k: nat)
    requires WellFormed(h) && Inside(p, before, fd, h, k) && k < |h.lines|
    ensures Inside(ReadLine(p, PrintLine(h.lines[k])), before, fd, h, k + 1)
  {
    hide ReadLine, PrintLine, Int64, OldCount, NewCount;
    var l := h.lines[k];
    assert NumberedAt(h, k);
    ReadBodyLine(p, l);
    assert h.lines[..k + 1] == h.lines[..k] + [l];
    CountsGrow(h.lines[..k], l);
    Int64Succ(h.oldStart + OldCount(h.lines[..k]));
    Int64Succ(h.newStart + NewCount(h.lines[..k]));
    assert AddLine(p.fd, l).hunks == before + [h.(lines := h.lines[..k + 1])];
  }

  lemma {:induction false} ReadBody(p: Parser, before: seq<Hunk>, fd: FileDiff, h: Hunk, k: nat)
    requires WellFormed(h) && Inside(p, before, fd, h, k) && k <= |h.lines|
    ensures Inside(ReadLines(p, PrintBody(h.lines[k..])), before, fd, h, |h.lines|)
    decreases |h.lines| - k
  {
    hide Inside, WellFormed, ReadLine, PrintLine;
    if k < |h.lines| {
      InsideStep(p, before, fd, h, k);
      assert h.lines[k..][1..] == h.lines[k + 1..];
      ReadBody(ReadLine(p, PrintLine(h.lines[k])), before, fd, h, k + 1);
      var printed := PrintBody(h.lines[k..]);
      assert printed == [PrintLine(h.lines[k])] + PrintBody(h.lines[k + 1..]);
      assert printed != [] && printed[0] == PrintLine(h.lines[k]) && printed[1..] == PrintBody(h.lines[k + 1..]);
    } else {
      assert h.lines[k..] == [];
    }
  }

  lemma InsideStart(p: Parser, h: Hunk)
    requires WellFormed(h)
    ensures Inside(Parser(p.fd.(hunks := p.fd.hunks + [h.(lines := [])]), h.oldStart, h.newStart), p.fd.hunks, p.fd, h,
        0)
  {
    assert h.lines[..0] == [];
    CountsOfNone();
  }

  lemma {:induction false} ReadAppend(p: Parser, a: seq<string>, b: seq<string>)
    ensures ReadLines(p, a + b) == ReadLines(ReadLines(p, a), b)
    decreases |a|
  {
    if a == [] {
      assert a + b == b;
    } else {
      assert (a + b)[1..] == a[1..] + b;
      ReadAppend(ReadLine(p, a[0]), a[1..], b);
    }
  }

  lemma ReadHunk(p: Parser, h: Hunk, style: Style)
    requires WellFormed(h)
    ensures ReadLines(p, [PrintHeader(h, style)] + PrintBody(h.lines)).fd == p.fd.(hunks := p.fd.hunks + [h])
  {
    hide ReadLine, PrintHeader, WellFormed, PrintBody;
    var head := PrintHeader(h, style);
    var p1 := ReadLine(p, head);
    ReadHeader(p, h, style);
    assert h.lines[..0] == [];
    InsideStart(p, h);
    ReadBody(p1, p.fd.hunks, p.fd, h, 0);
    assert h.lines[0..] == h.lines && h.lines[..|h.lines|] == h.lines;
    assert ([head] + PrintBody(h.lines))[1..] == PrintBody(h.lines);
  }

  lemma {:induction false} ReadHunks(p: Parser, hunks: seq<Hunk>, styles: seq<Style>)
    requires |styles| == |hunks| && forall k :: 0 <= k < |hunks| ==> WellFormed(hunks[k])
    ensures ReadLines(p, PrintHunks(hunks, styles)).fd == p.fd.(hunks := p.fd.hunks + hunks)
    decreases |hunks|
  {
    hide ReadLine, PrintHeader, WellFormed, PrintBody;
    if hunks == [] {
      assert p.fd.hunks + hunks == p.fd.hunks;
    } else {
      var front := [PrintHeader(hunks[0], styles[0])] + PrintBody(hunks[0].lines);
      ReadHunk(p, hunks[0], styles[0]);
      ReadAppend(p, front, PrintHunks(hunks[1..], styles[1..]));
      ReadHunks(ReadLines(p, front), hunks[1..], styles[1..]);
      assert p.fd.hunks + [hunks[0]] + hunks[1..] == p.fd.hunks + hunks;
    }
  }

  // ---------------------------------------------------------------- main results

  lemma IsPrefix(p: string, rest: string)
    ensures HasPrefix(p + rest, p) && (p + rest)[|p|..] == rest
  {}

  lemma IsSuffix(front: string, q: string)
    ensures HasSuffix(front + q, q)
  {}

  lemma RenameLines(p: Parser, from: string, to: string)
    ensures ReadLines(p, ["rename from " + from, "rename to " + to]) ==
        p.(fd := p.fd.(oldPath := from, path := to, status := 'R'))
  {
    hide HasSuffix, HasPrefix, ParseHeader, AddLine;
    var a, b := "rename from " + from, "rename to " + to;
    IsPrefix("rename from ", from);
    IsPrefix("rename to ", to);
    NotPrefixAt(b, "rename from ", 7);
    assert [a, b][1..] == [b];
    var q := ReadLine(p, a);
    assert ReadLine(q, b) == q.(fd := q.fd.(path := to));
    assert ReadLines(q, [b]) == ReadLine(q, b) by {
      assert |[b][1..]| == 0;
    }
  }

  lemma NotPrefixAt(s: string, p: string, k: nat)
    requires k < |s| && k < |p| && s[k] != p[k]
    ensures !HasPrefix(s, p)
  {}

  lemma ModeLines(p: Parser, mode: string)
    ensures ReadLine(p, "new file mode" + mode) == p.(fd := p.fd.(status := 'A'))
    ensures ReadLine(p, "deleted file mode" + mode) == p.(fd := p.fd.(status := 'D'))
  {
    hide HasSuffix, HasPrefix, ParseHeader, AddLine;
    var added, deleted := "new file mode" + mode, "deleted file mode" + mode;
    IsPrefix("new file mode", mode);
    NotPrefix(added, "rename from ");
    NotPrefix(added, "rename to ");
    IsPrefix("deleted file mode", mode);
    NotPrefix(deleted, "rename from ");
    NotPrefix(deleted, "rename to ");
    NotPrefix(deleted, "new file mode");
  }

  lemma BinaryLine(p: Parser, names: string)
    ensures ReadLine(p, "Binary files " + names + " differ") == p.(fd := p.fd.(binary := true))
  {
    hide HasPrefix, HasSuffix, ParseHeader, AddLine;
    var s := "Binary files " + names + " differ";
    IsPrefix("Binary files ", names + " differ");
    assert s == "Binary files " + (names + " differ");
    IsSuffix("Binary files " + names, " differ");
    NotPrefix(s, "rename from ");
    NotPrefix(s, "rename to ");
    NotPrefix(s, "new file mode");
    NotPrefix(s, "deleted file mode");
  }

  lemma ReadStatus(path: string, fd: FileDiff, look: Look)
    requires Printable(fd, look) && (fd.status != 'R' ==> path == fd.path)
    ensures ReadLines(Fresh(path), PrintStatus(fd, look)) == Parser(fd.(hunks := []), 0, 0)
  {
    hide WellFormed, HasPrefix, HasSuffix;
    var p := Fresh(path);
    RenameLines(p, fd.oldPath, fd.path);
    ModeLines(p, look.mode);
    var q := if fd.status == 'R' then Parser(p.fd.(oldPath := fd.oldPath, path := fd.path, status := 'R'), 0, 0)
             else p.(fd := p.fd.(status := fd.status));
    BinaryLine(q, look.names);
    assert q.fd == fd.(binary := false, hunks := []);
    var binary := if fd.binary then ["Binary files " + look.names + " differ"] else [];
    var status := PrintStatus(fd.(binary := false), look);
    assert PrintStatus(fd, look) == status + binary;
    ReadAppend(p, status, binary);
    assert ReadLines(p, status) == q;
  }

  // ---------------------------------------------------------------- the header pattern

  /** "start" or "start,count". */
  predicate IsRange(s: string, r: Range) {
    && r.start != "" && AllDigits(r.start) && AllDigits(r.count)
    && s == r.start + (if r.count == "" then "" else "," + r.count)
  }

  /** The line is "@@ -range +range @@" followed by anything. */
  ghost predicate Matches(line: string, a: string, b: string, tail: string) {
    line == "@@ -" + a + " +" + b + " @@" + tail
  }

  ghost predicate IsHeader(line: string) {
    exists a, ra, b, rb, tail ::
      IsRange(a, ra) && IsRange(b, rb) && Matches(line, a, b, tail)
  }

  lemma RangeIs(s: string)
    ensures var r := ParseRange(s);
            r.Some? ==> exists front :: IsRange(front, r.value) && s == front + r.value.rest
  {
    hide DigitsLen;
    var n := DigitsLen(s);
    if n > 0 {
      var rest := s[n..];
      if rest != "" && rest[0] == ',' && DigitsLen(rest[1..]) > 0 {
        var m := DigitsLen(rest[1..]);
        var front := s[..n] + ("," + rest[1..][..m]);
        assert s == front + rest[1..][m..];
      } else {
        assert s[..n] + "" == s[..n];
        assert s == s[..n] + rest;
      }
    }
  }

  lemma RangeRead(front: string, r: Range, rest: string)
    requires IsRange(front, r) && rest != "" && rest[0] == ' '
    ensures ParseRange(front + rest) == Some(Range(r.start, r.count, rest))
  {
    hide ParseRange;
    if r.count == "" {
      assert front == r.start;
      StartOnly(r.start, rest);
    } else {
      assert front + rest == r.start + ("," + (r.count + rest));
      StartAndCount(r.start, r.count, rest);
    }
  }

  /** A line opens a hunk exactly when it has the shape of a header, and then with the digits in it. */
  lemma HeaderExactly(line: string)
    ensures ParseHeader(line).Some? <==> IsHeader(line)
    ensures forall a, ra, b, rb, tail ::
              IsRange(a, ra) && IsRange(b, rb) && Matches(line, a, b, tail) ==>
                && ParseHeader(line).Some?
                && ParseHeader(line).value.oldSide.start == ra.start
                && ParseHeader(line).value.oldSide.count == ra.count
                && ParseHeader(line).value.newSide.start == rb.start
                && ParseHeader(line).value.newSide.count == rb.count
  {
    hide ParseHeader, ParseRange, IsRange;
    forall a, ra, b, rb, tail |
      IsRange(a, ra) && IsRange(b, rb) && Matches(line, a, b, tail)
      ensures ParseHeader(line) == Some(Header(Range(ra.start, ra.count, " +" + b + " @@" + tail),
                                               Range(rb.start, rb.count, " @@" + tail)))
    {
      ShapeIsRead(line, a, ra, b, rb, tail);
    }
    if ParseHeader(line).Some? {
      ReadHasShape(line);
    }
  }

  /** What a header's digits come to: each number as written, and 0 for a start or 1 for a count that is missing or does
      not fit a machine integer. */
  lemma HeaderNumbers(line: string, a: string, ra: Range, b: string, rb: Range, tail: string)
    requires IsRange(a, ra) && IsRange(b, rb) && Matches(line, a, b, tail)
    ensures ParseHeader(line).Some?
    ensures var h := HeaderHunk(ParseHeader(line).value);
            && h.lines == []
            && h.oldStart == (if Value(ra.start) <= 0x7fff_ffff_ffff_ffff then Value(ra.start) else 0)
            && h.newStart == (if Value(rb.start) <= 0x7fff_ffff_ffff_ffff then Value(rb.start) else 0)
            && h.oldLines == (if ra.count != "" && Value(ra.count) <= 0x7fff_ffff_ffff_ffff then Value(ra.count) else 1)
            && h.newLines == (if rb.count != "" && Value(rb.count) <= 0x7fff_ffff_ffff_ffff then Value(rb.count) else 1)
  {
    hide ParseHeader, Value;
    ShapeIsRead(line, a, ra, b, rb, tail);
  }

  lemma ShapeIsRead(line: string, a: string, ra: Range, b: string, rb: Range, tail: string)
    requires IsRange(a, ra) && IsRange(b, rb) && Matches(line, a, b, tail)
    ensures ParseHeader(line) == Some(Header(Range(ra.start, ra.count, " +" + b + " @@" + tail),
                                             Range(rb.start, rb.count, " @@" + tail)))
  {
    hide ParseRange, IsRange;
    var third := " @@" + tail;
    var second := " +" + b + " @@" + tail;
    assert second[2..] == b + third;
    assert line[4..] == a + second;
    assert line[..4] == "@@ -" && second[..2] == " +" && third[..3] == " @@";
    RangeRead(a, ra, second);
    RangeRead(b, rb, third);
  }

  lemma ReadHasShape(line: string)
    requires ParseHeader(line).Some?
    ensures IsHeader(line)
  {
    hide ParseRange, IsRange;
    RangeIs(line[4..]);
    var oldSide := ParseRange(line[4..]).value;
    var a :| IsRange(a, oldSide) && line[4..] == a + oldSide.rest;
    RangeIs(oldSide.rest[2..]);
    var newSide := ParseRange(oldSide.rest[2..]).value;
    var b :| IsRange(b, newSide) && oldSide.rest[2..] == b + newSide.rest;
    var tail := newSide.rest[3..];
    assert newSide.rest == " @@" + tail;
    assert oldSide.rest == " +" + (b + newSide.rest);
    assert line == "@@ -" + (a + oldSide.rest);
    assert line == "@@ -" + a + " +" + b + " @@" + tail;
    assert Matches(line, a, b, tail);
  }

  // ---------------------------------------------------------------- which lines count

  predicate IsStatusLine(line: string) {
    || HasPrefix(line, "rename from ") || HasPrefix(line, "rename to ")
    || HasPrefix(line, "new file mode") || HasPrefix(line, "deleted file mode")
    || (HasPrefix(line, "Binary files ") && HasSuffix(line, " differ"))
  }

  predicate IsBodyLine(line: string) {
    line != "" && (line[0] == ' ' || line[0] == '+' || line[0] == '-')
  }

  /** The lines that say something: status lines, headers, and body lines once a header has been seen. */
  ghost function Informative(lines: seq<string>, inside: bool): seq<string> {
    if lines == [] then []
    else if IsStatusLine(lines[0]) then [lines[0]] + Informative(lines[1..], inside)
    else if IsHeader(lines[0]) then [lines[0]] + Informative(lines[1..], true)
    else if inside && IsBodyLine(lines[0]) then [lines[0]] + Informative(lines[1..], inside)
    else Informative(lines[1..], inside)
  }

  lemma OtherLine(p: Parser, line: string)
    requires !IsStatusLine(line) && !IsHeader(line) && !(p.fd.hunks != [] && IsBodyLine(line))
    ensures ReadLine(p, line) == p
  {
    hide HasPrefix, HasSuffix, IsHeader, AddLine;
    HeaderExactly(line);
  }

  /** Only a header opens a hunk, and no line closes one. */
  lemma HunksOpen(p: Parser, line: string)
    ensures ReadLine(p, line).fd.hunks != [] <==> p.fd.hunks != [] || (!IsStatusLine(line) && IsHeader(line))
  {
    hide ReadLine, IsHeader, IsStatusLine, ParseHeader, HeaderHunk, Int64;
    HeaderExactly(line);
    ReadLineCases(p, line);
    if IsStatusLine(line) {
      StatusLineOpensNone(p, line);
    } else if IsHeader(line) {
      HeaderOpens(p, line);
    } else if p.fd.hunks == [] {
      OtherLine(p, line);
    }
  }

  lemma StatusLineOpensNone(p: Parser, line: string)
    requires IsStatusLine(line)
    ensures ReadLine(p, line).fd.hunks == p.fd.hunks
  {
    hide HasPrefix, HasSuffix, ParseHeader, AddLine, Int64;
  }

  lemma HeaderOpens(p: Parser, line: string)
    requires !IsStatusLine(line) && IsHeader(line)
    ensures ReadLine(p, line).fd.hunks != []
  {
    HeaderExactly(line);
    HeaderStarts(line);
    hide HasPrefix, HasSuffix, ParseHeader, AddLine, Int64, IsHeader, HeaderHunk;
  }

  lemma HeaderStarts(line: string)
    requires IsHeader(line)
    ensures HasPrefix(line, "@@ ")
  {}

  /** The other lines of the output, wherever they are, make no difference. */
  lemma {:induction false} OthersMakeNoDifference(p: Parser, lines: seq<string>)
    ensures ReadLines(p, Informative(lines, p.fd.hunks != [])) == ReadLines(p, lines)
    decreases |lines|
  {
    hide ReadLine, IsHeader, IsStatusLine, IsBodyLine;
    if lines != [] {
      var line, inside := lines[0], p.fd.hunks != [];
      var p' := ReadLine(p, line);
      HunksOpen(p, line);
      OthersMakeNoDifference(p', lines[1..]);
      if IsStatusLine(line) || IsHeader(line) || (inside && IsBodyLine(line)) {
        var rest := Informative(lines[1..], p'.fd.hunks != []);
        assert Informative(lines, inside) == [line] + rest;
        assert ([line] + rest)[0] == line && ([line] + rest)[1..] == rest;
      } else {
        OtherLine(p, line);
      }
    }
  }

  // ---------------------------------------------------------------- round trips

  lemma {:induction false} StatusFirst(front: seq<string>, rest: seq<string>, inside: bool)
    requires forall k :: 0 <= k < |front| ==> IsStatusLine(front[k])
    ensures Informative(front + rest, inside) == front + Informative(rest, inside)
    decreases |front|
  {
    hide IsStatusLine, IsHeader, IsBodyLine;
    if front == [] {
      assert front + rest == rest;
    } else {
      assert (front + rest)[0] == front[0] && (front + rest)[1..] == front[1..] + rest;
      StatusFirst(front[1..], rest, inside);
      assert [front[0]] + (front[1..] + Informative(rest, inside)) == front + Informative(rest, inside);
    }
  }

  lemma {:induction false} BodyFirst(front: seq<string>, rest: seq<string>)
    requires forall k :: 0 <= k < |front| ==> IsBodyLine(front[k])
    ensures Informative(front + rest, true) == front + Informative(rest, true)
    decreases |front|
  {
    hide IsStatusLine, IsHeader, IsBodyLine;
    if front == [] {
      assert front + rest == rest;
    } else {
      assert (front + rest)[0] == front[0] && (front + rest)[1..] == front[1..] + rest;
      BodyIsNoOther(front[0]);
      BodyFirst(front[1..], rest);
      assert [front[0]] + (front[1..] + Informative(rest, true)) == front + Informative(rest, true);
    }
  }

  lemma BodyIsNoOther(line: string)
    requires IsBodyLine(line)
    ensures !IsStatusLine(line) && !IsHeader(line)
  {
    hide HasPrefix, HasSuffix;
    NotPrefix(line, "rename from ");
    NotPrefix(line, "rename to ");
    NotPrefix(line, "new file mode");
    NotPrefix(line, "deleted file mode");
    NotPrefix(line, "Binary files ");
    NotPrefix(line, "@@ ");
    if IsHeader(line) {
      HeaderStarts(line);
    }
  }

  lemma {:induction false} PrintedBody(lines: seq<Line>)
    ensures forall k :: 0 <= k < |PrintBody(lines)| ==> IsBodyLine(PrintBody(lines)[k])
  {
    if lines != [] {
      PrintedBody(lines[1..]);
      assert IsBodyLine(PrintLine(lines[0]));
    }
  }

  lemma {:induction false} PrintedHunks(hunks: seq<Hunk>, styles: seq<Style>, inside: bool)
    requires |styles| == |hunks| && forall k :: 0 <= k < |hunks| ==> WellFormed(hunks[k])
    ensures Informative(PrintHunks(hunks, styles), inside) == PrintHunks(hunks, styles)
    decreases |hunks|
  {
    hide WellFormed, PrintHeader, PrintBody, IsStatusLine, IsHeader, IsBodyLine;
    if hunks != [] {
      var head, body := PrintHeader(hunks[0], styles[0]), PrintBody(hunks[0].lines);
      var rest := PrintHunks(hunks[1..], styles[1..]);
      var printed := PrintHunks(hunks, styles);
      assert printed == [head] + (body + rest);
      assert printed[0] == head && printed[1..] == body + rest;
      PrintedHeader(hunks[0], styles[0]);
      PrintedBody(hunks[0].lines);
      BodyFirst(body, rest);
      PrintedHunks(hunks[1..], styles[1..], true);
    }
  }

  lemma PrintedHeader(h: Hunk, style: Style)
    requires WellFormed(h)
    ensures !IsStatusLine(PrintHeader(h, style)) && IsHeader(PrintHeader(h, style))
  {
    hide HasPrefix, HasSuffix, PrintHeader, WellFormed, IsHeader, HeaderHunk;
    HeaderBack(h, style);
    HeaderExactly(PrintHeader(h, style));
    HeaderPrefix(h, style);
    var s := PrintHeader(h, style);
    NotPrefix(s, "rename from ");
    NotPrefix(s, "rename to ");
    NotPrefix(s, "new file mode");
    NotPrefix(s, "deleted file mode");
    NotPrefix(s, "Binary files ");
  }

  /** Every printed line counts. */
  lemma PrintedIsInformative(fd: FileDiff, look: Look)
    requires Printable(fd, look)
    ensures Informative(Print(fd, look), false) == Print(fd, look)
  {
    hide WellFormed, HasPrefix, HasSuffix, PrintHunks, IsHeader;
    var status := PrintStatus(fd, look);
    IsPrefix("rename from ", fd.oldPath);
    IsPrefix("rename to ", fd.path);
    IsPrefix("new file mode", look.mode);
    IsPrefix("deleted file mode", look.mode);
    IsPrefix("Binary files ", look.names + " differ");
    assert "Binary files " + look.names + " differ" == "Binary files " + (look.names + " differ");
    IsSuffix("Binary files " + look.names, " differ");
    assert forall k :: 0 <= k < |status| ==> IsStatusLine(status[k]);
    StatusFirst(status, PrintHunks(fd.hunks, look.styles), false);
    PrintedHunks(fd.hunks, look.styles, false);
  }

  /** Reading lines with the printed diff in them, in order and among any that say nothing, gives the diff. */
  lemma LinesBack(path: string, fd: FileDiff, look: Look, lines: seq<string>)
    requires Printable(fd, look) && (fd.status != 'R' ==> path == fd.path)
    requires Informative(lines, false) == Print(fd, look)
    ensures ReadLines(Fresh(path), lines).fd == fd
  {
    hide WellFormed, ReadLine, PrintStatus, PrintHunks, Informative;
    OthersMakeNoDifference(Fresh(path), lines);
    ReadAppend(Fresh(path), PrintStatus(fd, look), PrintHunks(fd.hunks, look.styles));
    ReadStatus(path, fd, look);
    ReadHunks(Parser(fd.(hunks := []), 0, 0), fd.hunks, look.styles);
    assert [] + fd.hunks == fd.hunks;
  }

  /** Printing a file's diff, in any look and with any lines that say nothing in between, and parsing it gives the same
      diff back. */
  lemma RoundTrip(path: string, fd: FileDiff, look: Look, out: string)
    requires Printable(fd, look) && (fd.status != 'R' ==> path == fd.path)
    requires Informative(Split(out), false) == Print(fd, look)
    ensures Parsed(path, out) == fd
  {
    hide Informative, Split, Printable, Print;
    LinesBack(path, fd, look, Split(out));
  }

  /** In particular the printed lines alone, one after the other. */
  lemma PrintedBack(path: string, fd: FileDiff, look: Look)
    requires Printable(fd, look) && (fd.status != 'R' ==> path == fd.path)
    requires Print(fd, look) != [] && forall k :: 0 <= k < |Print(fd, look)| ==> NoNewline(Print(fd, look)[k])
    ensures Parsed(path, Join(Print(fd, look))) == fd
  {
    hide Informative, Split, Join, Print, Parsed, NoNewline;
    SplitJoin(Print(fd, look));
    PrintedIsInformative(fd, look);
    RoundTrip(path, fd, look, Join(Print(fd, look)));
  }

  /** Whatever was parsed, its hunks survive being printed and parsed again, in any look. */
  lemma ParsedHunksSurvive(path: string, out: string, styles: seq<Style>)
    requires |styles| == |Parsed(path, out).hunks|
    ensures var hunks := Parsed(path, out).hunks;
            (forall k :: 0 <= k < |hunks| ==> WellFormed(hunks[k]))
            && forall again :: Informative(Split(again), false) == PrintHunks(hunks, styles) ==>
                 Parsed(path, again).hunks == hunks
  {
    hide WellFormed, ReadLine, PrintHunks, Informative, Split;
    ParsedIsNumbered(path, out);
    var hunks := Parsed(path, out).hunks;
    ReadHunks(Fresh(path), hunks, styles);
    assert [] + hunks == hunks;
    forall again | Informative(Split(again), false) == PrintHunks(hunks, styles)
      ensures Parsed(path, again).hunks == hunks
    {
      OthersMakeNoDifference(Fresh(path), Split(again));
    }
  }

  lemma {:induction false} CountBefore(lines: seq<Line>, skip: LineType, j: nat, k: nat)
    requires j < k <= |lines| && lines[j].kind != skip
    ensures Count(lines[..j], skip) < Count(lines[..k], skip)
  {
    assert lines[..k][..k - 1] == lines[..k - 1];
    if j < k - 1 {
      CountBefore(lines, skip, j, k - 1);
    }
  }

  lemma {:induction false} NthCounted(lines: seq<Line>, skip: LineType, n: nat) returns (k: nat)
    requires n < Count(lines, skip)
    ensures k < |lines| && lines[k].kind != skip && Count(lines[..k], skip) == n
  {
    var front := lines[..|lines| - 1];
    if n == Count(front, skip) {
      k := |lines| - 1;
    } else {
      k := NthCounted(front, skip, n);
      assert lines[..k] == front[..k];
    }
  }

  /** The old-side (new-side) number a line carries. */
  function NumberOn(line: Line, skip: LineType): int {
    if skip == Added then line.oldNo else line.newNo
  }

  ghost predicate Carries(h: Hunk, skip: LineType, n: int) {
    exists k :: 0 <= k < |h.lines| && h.lines[k].kind != skip && NumberOn(h.lines[k], skip) == n
  }

  /** One side of a hunk carries start .. start + count - 1, each once, in order. */
  ghost predicate SideIsExact(h: Hunk, skip: LineType, start: int, count: int) {
    && (forall k :: 0 <= k < |h.lines| && h.lines[k].kind != skip ==>
        start <= NumberOn(h.lines[k], skip) < start + count)
    && (forall j, k :: 0 <= j < k < |h.lines| && h.lines[j].kind != skip && h.lines[k].kind != skip ==>
          NumberOn(h.lines[j], skip) < NumberOn(h.lines[k], skip))
    && (forall n :: start <= n < start + count ==> Carries(h, skip, n))
  }

  lemma SideExact(h: Hunk, skip: LineType, start: nat)
    requires forall k :: 0 <= k < |h.lines| && h.lines[k].kind != skip ==>
               NumberOn(h.lines[k], skip) == Int64(start + Count(h.lines[..k], skip))
    requires start + Count(h.lines, skip) - 1 <= MAX_INT64
    ensures SideIsExact(h, skip, start, Count(h.lines, skip))
  {
    hide Count;
    var count := Count(h.lines, skip);
    assert h.lines[..|h.lines|] == h.lines;
    forall k | 0 <= k < |h.lines| && h.lines[k].kind != skip
      ensures NumberOn(h.lines[k], skip) == start + Count(h.lines[..k], skip) < start + count
    {
      CountBefore(h.lines, skip, k, |h.lines|);
    }
    forall j, k | 0 <= j < k < |h.lines| && h.lines[j].kind != skip && h.lines[k].kind != skip
      ensures NumberOn(h.lines[j], skip) < NumberOn(h.lines[k], skip)
    {
      CountBefore(h.lines, skip, j, k);
    }
    forall n | start <= n < start + count
      ensures Carries(h, skip, n)
    {
      var k := NthCounted(h.lines, skip, n - start);
      assert NumberOn(h.lines[k], skip) == n;
    }
  }

  lemma NumbersAt(h: Hunk, k: nat)
    requires WellFormed(h) && k < |h.lines|
    ensures h.lines[k].kind != Added ==> h.lines[k].oldNo == Int64(h.oldStart + Count(h.lines[..k], Added))
    ensures h.lines[k].kind != Deleted ==> h.lines[k].newNo == Int64(h.newStart + Count(h.lines[..k], Deleted))
  {
    hide Int64, Count;
    assert NumberedAt(h, k);
  }

  lemma StartsInRange(h: Hunk)
    requires WellFormed(h)
    ensures 0 <= h.oldStart && 0 <= h.newStart
  {}

  lemma BothSidesExact(h: Hunk)
    requires WellFormed(h)
    requires h.oldStart + OldCount(h.lines) - 1 <= MAX_INT64 && h.newStart + NewCount(h.lines) - 1 <= MAX_INT64
    ensures SideIsExact(h, Added, h.oldStart, OldCount(h.lines)) &&
        SideIsExact(h, Deleted, h.newStart, NewCount(h.lines))
  {
    hide SideIsExact, Int64, Count, WellFormed, NumberedAt;
    forall k | 0 <= k < |h.lines|
      ensures h.lines[k].kind != Added ==> NumberOn(h.lines[k], Added) == Int64(h.oldStart + Count(h.lines[..k], Added))
      ensures h.lines[k].kind != Deleted ==>
          NumberOn(h.lines[k], Deleted) == Int64(h.newStart + Count(h.lines[..k], Deleted))
    {
      NumbersAt(h, k);
    }
    StartsInRange(h);
    SideExact(h, Added, h.oldStart);
    SideExact(h, Deleted, h.newStart);
  }

  /** In every hunk parsed whose counts match its body, the numbers on each side run from start to start + count - 1. */
  lemma NumbersMatchCounts(path: string, out: string, i: nat)
    requires i < |Parsed(path, out).hunks|
    requires var h := Parsed(path, out).hunks[i];
             OldCount(h.lines) == h.oldLines && NewCount(h.lines) == h.newLines
             && h.oldStart + h.oldLines - 1 <= MAX_INT64 && h.newStart + h.newLines - 1 <= MAX_INT64
    ensures var h := Parsed(path, out).hunks[i];
            SideIsExact(h, Added, h.oldStart, h.oldLines) && SideIsExact(h, Deleted, h.newStart, h.newLines)
  {
    hide SideIsExact, Parsed, WellFormed;
    ParsedIsNumbered(path, out);
    BothSidesExact(Parsed(path, out).hunks[i]);
  }

  // ---------------------------------------------------------------- untracked files

  const MAX_DIFF_BYTES := 2 * 1024 * 1024
  const PROBE_BYTES := 8192

  /** The lines of data, without the empty piece after a final newline. */
  function SplitLines(data: string): seq<string> {
    if data == "" then []
    else
      var lines := Split(data);
      if lines[|lines| - 1] == "" then lines[..|lines| - 1] else lines
  }

  lemma {:induction false} JoinSplit(s: string)
    ensures Join(Split(s)) == s
  {
    if s != "" {
      JoinSplit(s[1..]);
      assert s == [s[0]] + s[1..];
      var rest := Split(s[1..]);
      if s[0] == '\n' {
        assert ([""] + rest)[1..] == rest;
        assert "" + "\n" + s[1..] == s;
      } else {
        var lines := [[s[0]] + rest[0]] + rest[1..];
        assert lines[1..] == rest[1..];
        if |rest| > 1 {
          assert [s[0]] + rest[0] + "\n" + Join(rest[1..]) == [s[0]] + (rest[0] + "\n" + Join(rest[1..]));
        }
      }
    }
  }

  lemma {:induction false} JoinLast(lines: seq<string>)
    requires |lines| > 1 && lines[|lines| - 1] == ""
    ensures Join(lines) == Join(lines[..|lines| - 1]) + "\n"
  {
    var front := lines[..|lines| - 1];
    if |lines| == 2 {
      assert Join(lines[1..]) == "";
      assert lines[0] + "\n" + "" == lines[0] + "\n";
    } else {
      JoinLast(lines[1..]);
      assert lines[1..][..|lines| - 2] == front[1..];
      assert lines[0] + "\n" + (Join(front[1..]) + "\n") == lines[0] + "\n" + Join(front[1..]) + "\n";
    }
  }

  /** The last piece is empty exactly when the text ends in a newline. */
  lemma {:induction false} LastPiece(s: string)
    requires s != ""
    ensures Split(s)[|Split(s)| - 1] == "" <==> s[|s| - 1] == '\n'
  {
    var rest := Split(s[1..]);
    if |s| > 1 {
      LastPiece(s[1..]);
      JoinSplit(s[1..]);
    } else {
      assert s[1..] == "" && rest == [""];
    }
  }

  /** No byte is lost and none is added: the lines, joined again and closed by the final newline if there was one, are
      the data. */
  lemma SplitLinesBack(data: string)
    requires data != ""
    ensures SplitLines(data) != []
    ensures data == Join(SplitLines(data)) + (if data[|data| - 1] == '\n' then "\n" else "")
    ensures forall k :: 0 <= k < |SplitLines(data)| ==> NoNewline(SplitLines(data)[k])
  {
    hide NoNewline;
    JoinSplit(data);
    LastPiece(data);
    var lines := Split(data);
    assert lines != [""] by {
      assert Join([""]) == "";
    }
    if lines[|lines| - 1] == "" {
      assert |lines| == 1 ==> lines == [""];
      JoinLast(lines);
    }
  }

  function Texts(lines: seq<Line>): (t: seq<string>)
    ensures |t| == |lines| && forall k :: 0 <= k < |t| ==> t[k] == lines[k].text
  {
    seq(|lines|, k requires 0 <= k < |lines| => lines[k].text)
  }

  /** The body of a file that is all additions. */
  ghost predicate AllAdded(lines: seq<Line>, texts: seq<string>) {
    && |lines| <= |texts|
    && forall k :: 0 <= k < |lines| ==> lines[k] == Line(Added, 0, k + 1, texts[k])
  }

  lemma {:induction false} CountAdded(lines: seq<Line>, texts: seq<string>)
    requires AllAdded(lines, texts)
    ensures OldCount(lines) == 0 && NewCount(lines) == |lines|
  {
    if lines != [] {
      CountAdded(lines[..|lines| - 1], texts);
    }
  }

  lemma AllAddedWellFormed(lines: seq<Line>, texts: seq<string>)
    requires AllAdded(lines, texts) && |lines| <= MAX_INT64
    requires forall k :: 0 <= k < |texts| ==> NoNewline(texts[k])
    ensures WellFormed(Hunk(0, 0, 1, |lines|, lines))
  {
    hide OldCount, NewCount;
    forall k | 0 <= k < |lines| ensures NumberedAt(Hunk(0, 0, 1, |lines|, lines), k) {
      CountAdded(lines[..k], texts);
    }
  }

  /**
   * A file git does not track: one hunk that adds every line, or nothing for an empty or binary file.
   * What the hunk holds is the file's content up to the size limit.
   */
  method UntrackedFileDiff(path: string, data: string) returns (fd: FileDiff)
    ensures fd.path == path && fd.oldPath == "" && fd.status == 'A'
    ensures fd.binary <==> exists k :: 0 <= k < |data| && k < 8192 && data[k] == '\0'
    ensures fd.truncated <==> !fd.binary && |data| > 2 * 1024 * 1024
    ensures fd.hunks == [] <==> fd.binary || data == ""
    ensures fd.hunks != [] ==>
              var h := fd.hunks[0];
              var shown := if fd.truncated then data[..2 * 1024 * 1024] else data;
              && |fd.hunks| == 1 && WellFormed(h)
              && (h.oldStart, h.oldLines, h.newStart, h.newLines) == (0, 0, 1, |h.lines|)
              && (forall k :: 0 <= k < |h.lines| ==> h.lines[k].kind == Added)
              && shown == Join(Texts(h.lines)) + (if shown[|shown| - 1] == '\n' then "\n" else "")
  {
    hide Split, SplitLines, Join, WellFormed, Texts;
    fd := FileDiff(path, "", 'A', false, false, []);
    var n := 0;
    while n < |data| && n < PROBE_BYTES && data[n] != '\0'
      invariant n <= |data| && forall k :: 0 <= k < n ==> data[k] != '\0'
    {
      n := n + 1;
    }
    if n < |data| && n < PROBE_BYTES {
      fd := fd.(binary := true);
      return;
    }
    var shown := data;
    if |data| > MAX_DIFF_BYTES {
      shown := data[..MAX_DIFF_BYTES];
      fd := fd.(truncated := true);
    }
    var lines := SplitLines(shown);
    EmptyHasNoLines(shown);
    if |lines| == 0 {
      return;
    }
    SplitLinesBack(shown);
    FewLines(shown);
    var h := Hunk(0, 0, 1, |lines|, []);
    var i := 0;
    while i < |lines|
      invariant i <= |lines| && i == |h.lines| && AllAdded(h.lines, lines)
      invariant h == Hunk(0, 0, 1, |lines|, h.lines)
    {
      h := h.(lines := h.lines + [Line(Added, 0, i + 1, lines[i])]);
      i := i + 1;
    }
    AllAddedWellFormed(h.lines, lines);
    TextsOfAdded(h.lines, lines);
    fd := fd.(hunks := [h]);
  }

  lemma TextsOfAdded(lines: seq<Line>, texts: seq<string>)
    requires AllAdded(lines, texts) && |lines| == |texts|
    ensures Texts(lines) == texts
  {}

  lemma EmptyHasNoLines(data: string)
    ensures SplitLines(data) == [] <==> data == ""
  {
    if data != "" {
      SplitLinesBack(data);
    }
  }

  lemma {:induction false} FewPieces(s: string)
    ensures |Split(s)| <= |s| + 1
  {
    if s != "" {
      FewPieces(s[1..]);
    }
  }

  lemma FewLines(data: string)
    ensures |SplitLines(data)| <= |data| + 1
  {
    FewPieces(data);
  }
}
