/** The repo-slice section of a workspace change document (change.go): upsert writes one row of its
    table, parse reads the table back, and the text around the section's lines is left as it was
    written. */
module RepoSlices {
  import opened Options
  import opened Text
  import opened Sections
  import opened SliceRows

  const SectionTitle := "Repo Slices"
  const Heading := "## " + SectionTitle
  const TitleRow := "| " + TitlePair + " | Target | Name | Status |"
  const RuleRow := "| " + Dashes + " | --- | --- | --- | --- |"
  const NotesMark := "\n## Notes"
  /** The heading as it is searched for, on a line of its own. */
  function HeadingMark(): string { "\n" + Heading + "\n" }

  function Table(): string { TitleRow + "\n" + RuleRow + "\n" }

  function Header(): string { Heading + "\n" + Table() }

  // ---------------------------------------------------------------- upsert

  /** Lines with the row put over the first line that has the mention, or in front when none has. */
  function UpsertLines(lines: seq<string>, mention: string, row: string): seq<string> {
    var i := FirstMention(lines, mention);
    if i < |lines| then lines[i := row] else [row] + lines
  }

  function FirstMention(lines: seq<string>, mention: string): (i: nat)
    ensures i <= |lines|
    ensures i < |lines| ==> Contains(lines[i], mention)
    ensures forall k :: 0 <= k < i ==> !Contains(lines[k], mention)
  {
    if lines == [] || Contains(lines[0], mention) then 0 else 1 + FirstMention(lines[1..], mention)
  }

  /** The lines of the section a text starts in. */
  function SectionLines(rest: string): (lines: seq<string>)
    ensures lines != []
  {
    Split('\n', SectionText(rest))
  }

  /** The text behind the table header after writing a row: the lines of its section rebuilt, the text from
      the next section on as it was. */
  function Rewritten(rest: string, mention: string, row: string): string {
    Rebuild(UpsertLines(SectionLines(rest), mention, row)) + rest[|SectionText(rest)|..]
  }

  function NewSection(body: string, row: string): string {
    var section := "\n" + Header() + row + "\n" + "\n";
    var notes := Index(body, NotesMark);
    if 0 <= notes <= |body| then body[..notes] + section + body[notes..]
    else if body != "" && body[|body| - 1] == '\n' then body + section
    else body + "\n" + section
  }

  /** Upsert for a given mention and row. */
  function WriteInto(body: string, mention: string, row: string): string {
    var start := Index(body, HeadingMark());
    if start < 0 then NewSection(body, row)
    else
      var bodyStart := start + 1 + |Header()|;
      if bodyStart > |body| then body + "\n" + Header() + row + "\n"
      else body[..bodyStart] + Rewritten(body[bodyStart..], mention, row)
  }

  function Upsert(body: string, l: Slice): string {
    WriteInto(body, Mention(l.alias), RowLine(l))
  }

  method WriteRow(lines0: seq<string>, mention: string, row: string) returns (lines: seq<string>)
    ensures lines == UpsertLines(lines0, mention, row)
  {
    lines := lines0;
    for i := 0 to |lines|
      invariant lines == lines0
      invariant forall k :: 0 <= k < i ==> !Contains(lines0[k], mention)
    {
      if Contains(lines[i], mention) {
        assert i == FirstMention(lines0, mention);
        lines := lines[i := row];
        return;
      }
    }
    lines := [row] + lines;
  }

  method UpsertRepoSlice(body: string, l: Slice) returns (updated: string)
    ensures updated == Upsert(body, l)
  {
    var row := RowLine(l);
    var start := Index(body, HeadingMark());
    if start < 0 {
      return NewSection(body, row);
    }
    var bodyStart := start + 1 + |Header()|;
    if bodyStart > |body| {
      return body + "\n" + Header() + row + "\n";
    }
    var text := SectionText(body[bodyStart..]);
    var lines := Split('\n', text);
    lines := WriteRow(lines, Mention(l.alias), row);
    updated := body[..bodyStart] + (Rebuild(lines) + body[bodyStart..][|text|..]);
  }

  // ---------------------------------------------------------------- parse

  /** How a line is read; RowOf is the reader of the source. */
  type Reader = string -> Option<Slice>

  function Rows(read: Reader, lines: seq<string>): seq<Slice> {
    if lines == [] then []
    else match read(lines[0]) case None => Rows(read, lines[1..]) case Some(r) => [r] + Rows(read, lines[1..])
  }

  /** The rows of the section whose text starts here. */
  function ParseSection(rest: string): seq<Slice> {
    Rows(RowOf, Split('\n', SectionText(rest)))
  }

  function TextBehind(body: string, mark: string): Option<string> {
    var start := Index(body, mark);
    if start < 0 || start + |mark| > |body| then None else Some(body[start + |mark|..])
  }

  function Parse(body: string): seq<Slice> {
    match TextBehind(body, HeadingMark())
    case None => []
    case Some(rest) => ParseSection(rest)
  }

  method ReadRow(raw: string) returns (row: Option<Slice>)
    ensures row == RowOf(raw)
  {
    var line := TrimSpace(raw);
    if line == "" || !("|" <= line) || Contains(line, Dashes) || Contains(line, TitlePair) {
      return None;
    }
    var cells := MarkdownTableCells(line);
    if |cells| < 5 {
      return None;
    }
    row := Some(Slice(StripCode(cells[0]), StripCode(cells[1]), StripCode(cells[2]), StripCode(cells[3]),
                      StripCode(cells[4])));
  }

  lemma RowsStep(read: Reader, rows: seq<Slice>, lines: seq<string>)
    requires lines != []
    ensures rows + Rows(read, lines)
         == (match read(lines[0]) case None => rows case Some(r) => rows + [r]) + Rows(read, lines[1..])
  {
    var tail := Rows(read, lines[1..]);
    match read(lines[0])
    case None =>
    case Some(r) => assert rows + ([r] + tail) == (rows + [r]) + tail;
  }

  method ReadRows(lines: seq<string>) returns (rows: seq<Slice>)
    ensures rows == Rows(RowOf, lines)
  {
    rows := [];
    assert lines[0..] == lines && [] + Rows(RowOf, lines) == Rows(RowOf, lines);
    for i := 0 to |lines|
      invariant rows + Rows(RowOf, lines[i..]) == Rows(RowOf, lines)
    {
      RowsStep(RowOf, rows, lines[i..]);
      assert lines[i..][0] == lines[i] && lines[i..][1..] == lines[i + 1..];
      var row := ReadRow(lines[i]);
      if row.None? {
        continue;
      }
      rows := rows + [row.value];
    }
    assert rows + [] == rows;
  }

  method ParseRepoSlices(body: string) returns (rows: seq<Slice>)
    ensures rows == Parse(body)
  {
    var start := Index(body, HeadingMark());
    IndexIsFirst(body, HeadingMark());
    if start < 0 {
      return [];
    }
    rows := ReadRows(Split('\n', SectionText(body[start + |HeadingMark()|..])));
  }

  // ---------------------------------------------------------------- rows of lines

  lemma {:induction false} RowsAppend(read: Reader, a: seq<string>, b: seq<string>)
    ensures Rows(read, a + b) == Rows(read, a) + Rows(read, b)
  {
    if a == [] {
      assert a + b == b;
    } else {
      assert (a + b)[1..] == a[1..] + b;
      RowsAppend(read, a[1..], b);
    }
  }

  lemma {:induction false} RowsOfBlank(read: Reader, lines: seq<string>)
    requires read("") == None
    requires forall k :: 0 <= k < |lines| ==> lines[k] == ""
    ensures Rows(read, lines) == []
  {
    if lines != [] {
      RowsOfBlank(read, lines[1..]);
    }
  }

  // ---------------------------------------------------------------- documents with the heading

  /** A document with the heading: what stands before its line, a text as long as the table header, and the
      rest, which is where upsert looks for lines. */
  function Sectioned(pre: string, gap: string, rest: string): string {
    pre + HeadingMark() + gap + rest
  }

  ghost predicate HeadingFound(pre: string, gap: string, rest: string) {
    |gap| == |Table()| && Index(Sectioned(pre, gap, rest), HeadingMark()) == |pre|
  }

  lemma HeaderLength()
    ensures 1 + |Header()| == |HeadingMark()| + |Table()|
  {
  }

  lemma Placed(pre: string, mark: string, gap: string, rest: string)
    ensures var d := pre + mark + gap + rest;
            && At(d, |pre|, mark)
            && d[|pre| + |mark|..] == gap + rest
            && d[..|pre| + |mark| + |gap|] == pre + mark + gap
            && d[|pre| + |mark| + |gap|..] == rest
  {
    var d := pre + mark + gap + rest;
    assert d[|pre|..|pre| + |mark|] == mark;
  }

  /** Every document with the heading and enough text behind it is one of these. */
  lemma EverySectioned(body: string) returns (pre: string, gap: string, rest: string)
    requires 0 <= Index(body, HeadingMark()) && Index(body, HeadingMark()) + 1 + |Header()| <= |body|
    ensures body == Sectioned(pre, gap, rest) && HeadingFound(pre, gap, rest)
  {
    var k := Index(body, HeadingMark());
    HeaderLength();
    IndexIsFirst(body, HeadingMark());
    pre, gap, rest := CutBehind(body, k, HeadingMark(), |Table()|);
  }

  lemma CutBehind(body: string, k: nat, mark: string, n: nat) returns (pre: string, gap: string, rest: string)
    requires At(body, k, mark) && k + |mark| + n <= |body|
    ensures body == pre + mark + gap + rest && |pre| == k && |gap| == n
  {
    var from := k + |mark|;
    pre, gap, rest := body[..k], body[from..from + n], body[from + n..];
    assert body[k..from] == mark;
    assert body == body[..k] + body[k..from] + body[from..from + n] + body[from + n..];
  }

  lemma FoundStays(pre: string, mark: string, gap: string, rest: string, rest': string)
    requires Index(pre + mark + gap + rest, mark) == |pre|
    ensures Index(pre + mark + gap + rest', mark) == |pre|
  {
    Placed(pre, mark, gap, rest);
    Placed(pre, mark, gap, rest');
    var d, d', n := pre + mark + gap + rest, pre + mark + gap + rest', |pre| + |mark| + |gap|;
    assert d[..n] == d'[..n];
    IndexStable(d, d', mark, n);
  }

  /** Upsert leaves everything outside the lines of the section behind the header as it was. */
  lemma WriteIntoSectioned(pre: string, gap: string, rest: string, mention: string, row: string)
    requires HeadingFound(pre, gap, rest)
    ensures var rest' := Rewritten(rest, mention, row);
            && WriteInto(Sectioned(pre, gap, rest), mention, row) == Sectioned(pre, gap, rest')
            && HeadingFound(pre, gap, rest')
  {
    HeaderLength();
    Placed(pre, HeadingMark(), gap, rest);
    FoundStays(pre, HeadingMark(), gap, rest, Rewritten(rest, mention, row));
  }

  lemma SectionSplits(rest: string)
    ensures var text := SectionText(rest); var post := rest[|text|..];
            rest == text + post && (post == "" || SectionMark <= post)
  {
    SectionTextSectionless(rest);
  }

  /** Parsing reads the lines up to the next heading, wherever upsert looks for its lines. */
  lemma ParseSectioned(pre: string, gap: string, rest: string)
    requires HeadingFound(pre, gap, rest)
    ensures Parse(Sectioned(pre, gap, rest)) == Rows(RowOf, Visible(Seam(Split('\n', gap), SectionLines(rest))))
  {
    Placed(pre, HeadingMark(), gap, rest);
    TextBehindAt(Sectioned(pre, gap, rest), HeadingMark(), |pre|);
    SectionSplits(rest);
    SectionOfParts(gap, SectionText(rest), rest[|SectionText(rest)|..]);
  }

  // ---------------------------------------------------------------- what parse reads after an upsert

  ghost predicate PlainRow(row: string) {
    row != "" && row[0] == '|' && '\n' !in row
  }

  lemma UpsertedPlain(lines: seq<string>, mention: string, row: string)
    requires LinesOfText(lines) && PlainRow(row)
    ensures var lines' := UpsertLines(lines, mention, row); LinesOfText(lines') && Compact(lines') != []
  {
    var lines' := UpsertLines(lines, mention, row);
    CompactPart(lines');
    var i := FirstMention(lines, mention);
    assert lines'[if i < |lines| then i else 0] == row;
  }

  lemma SectionLinesPlain(rest: string)
    ensures LinesOfText(SectionLines(rest)) && NoHeadings(SectionLines(rest)[1..])
    ensures OpensSection(rest) <==> OpensSection(SectionLines(rest)[0])
  {
    SectionTextSectionless(rest);
    SectionlessLines(SectionText(rest));
    SplitParts('\n', SectionText(rest));
    SectionIsVisible(rest);
    PrefixOfFirstLine(rest, "## ");
  }

  lemma RowsOfVisibleBlanks(read: Reader, lines: seq<string>, blanks: seq<string>)
    requires read("") == None && lines != [] && forall k :: 0 <= k < |blanks| ==> blanks[k] == ""
    ensures Rows(read, Visible(lines + blanks)) == Rows(read, Visible(lines))
  {
    assert (lines + blanks)[1..] == lines[1..] + blanks;
    UpToAppend(lines[1..], blanks);
    UpToAll(blanks);
    if NoHeadings(lines[1..]) {
      UpToAll(lines[1..]);
      assert Visible(lines) == lines && Visible(lines + blanks) == lines + blanks;
      RowsAppend(read, lines, blanks);
      RowsOfBlank(read, blanks);
    }
  }

  lemma RowsOfVisibleCompact(read: Reader, gap: seq<string>, lines: seq<string>)
    requires read("") == None && gap != [] && lines != [] && Compact(lines) != []
    ensures Rows(read, Visible(Seam(gap, Compact(lines) + [""]))) == Rows(read, Visible(Seam(gap, lines)))
  {
    var kept := Compact(lines);
    CompactPart(lines);
    var blanks := lines[|kept|..];
    assert lines == kept + blanks;
    SeamTail(gap, kept, [""]);
    SeamTail(gap, kept, blanks);
    RowsOfVisibleBlanks(read, Seam(gap, kept), [""]);
    RowsOfVisibleBlanks(read, Seam(gap, kept), blanks);
  }

  /** Whatever stands behind the heading, the rows read after an upsert are those of the upserted lines, up to
      the first of them that opens a section. */
  lemma ParseWritten(pre: string, gap: string, rest: string, mention: string, row: string)
    requires HeadingFound(pre, gap, rest) && PlainRow(row)
    ensures Parse(WriteInto(Sectioned(pre, gap, rest), mention, row))
         == Rows(RowOf, Visible(Seam(Split('\n', gap), UpsertLines(SectionLines(rest), mention, row))))
  {
    var lines := UpsertLines(SectionLines(rest), mention, row);
    var post := rest[|SectionText(rest)|..];
    WriteIntoSectioned(pre, gap, rest, mention, row);
    Placed(pre, HeadingMark(), gap, Rebuild(lines) + post);
    TextBehindAt(Sectioned(pre, gap, Rebuild(lines) + post), HeadingMark(), |pre|);
    SectionSplits(rest);
    SectionLinesPlain(rest);
    UpsertedPlain(SectionLines(rest), mention, row);
    SectionOfParts(gap, Rebuild(lines), post);
    RebuildLines(lines);
    BlankIsNoRow();
    RowsOfVisibleCompact(RowOf, Split('\n', gap), lines);
  }

  /** A section closes before the place of the link: in the text as long as the header, or where that text
      and the lines meet, when the link goes over a later line. */
  ghost predicate ClosesEarly(gap: seq<string>, lines: seq<string>, mention: string)
    requires gap != [] && lines != []
  {
    || !NoHeadings(gap[1..])
    || (0 < FirstMention(lines, mention) < |lines| && |gap| > 1 && OpensSection(gap[|gap| - 1] + lines[0]))
  }

  /** The lines that stand before the link, its own line, and the lines behind it up to the next heading. */
  function Before(gap: seq<string>, lines: seq<string>, mention: string): seq<string>
    requires gap != [] && lines != []
  {
    var i, m := FirstMention(lines, mention), |gap| - 1;
    gap[..m] + if 0 < i < |lines| then [gap[m] + lines[0]] + lines[1..i] else []
  }

  function LinkLine(gap: seq<string>, lines: seq<string>, mention: string, row: string): string
    requires gap != []
  {
    if 0 < FirstMention(lines, mention) < |lines| then row else gap[|gap| - 1] + row
  }

  function Behind(lines: seq<string>, mention: string): seq<string> {
    var i := FirstMention(lines, mention);
    if i < |lines| then lines[i + 1..] else UpTo(lines)
  }

  lemma RowOpensNothing(text: string, row: string)
    requires row != "" && row[0] == '|' && OpensSection(text + row)
    ensures OpensSection(text)
  {
    var s := text + row;
    assert s[..3] == "## ";
    assert s[0] == s[..3][0] && s[1] == s[..3][1] && s[2] == s[..3][2];
    assert s[|text|] == row[0];
    assert text[..3] == s[..3];
  }

  lemma HiddenByRow(gap: seq<string>, row: string)
    requires gap != [] && row != "" && row[0] == '|'
    ensures Hidden(gap, row) <==> !NoHeadings(gap[1..])
  {
    var x := gap[|gap| - 1];
    if |gap| > 1 && OpensSection(x + row) {
      RowOpensNothing(x, row);
      assert gap[1..][|gap| - 2] == x;
    }
  }

  lemma HiddenExactly(gap: seq<string>, lines: seq<string>, mention: string, row: string)
    requires gap != [] && lines != [] && row != "" && row[0] == '|'
    ensures Hidden(gap, UpsertLines(lines, mention, row)[0]) <==> ClosesEarly(gap, lines, mention)
  {
    HiddenByRow(gap, row);
  }

  /** When a section closes early the visible lines do not depend on what is written. */
  lemma VisibleClosed(gap: seq<string>, lines: seq<string>, mention: string, row: string)
    requires gap != [] && lines != [] && row != "" && row[0] == '|' && ClosesEarly(gap, lines, mention)
    ensures Visible(Seam(gap, UpsertLines(lines, mention, row))) == Visible(gap[..|gap| - 1])
    ensures Visible(Seam(gap, lines)) == Visible(gap[..|gap| - 1])
  {
    HiddenExactly(gap, lines, mention, row);
    HiddenVisible(gap, UpsertLines(lines, mention, row));
    HiddenVisible(gap, lines);
  }

  lemma VisibleOpen(gap: seq<string>, lines: seq<string>, mention: string, row: string)
    requires gap != [] && lines != [] && row != "" && row[0] == '|' && !ClosesEarly(gap, lines, mention)
    requires NoHeadings(lines[1..])
    ensures Visible(Seam(gap, UpsertLines(lines, mention, row)))
         == Before(gap, lines, mention) + [LinkLine(gap, lines, mention, row)] + Behind(lines, mention)
  {
    var i, m := FirstMention(lines, mention), |gap| - 1;
    HiddenExactly(gap, lines, mention, row);
    if 0 < i < |lines| {
      VisiblePut(gap, lines, i, row);
    } else {
      VisibleInFront(gap, lines, i, row);
      assert gap[..m] + [] == gap[..m];
    }
  }

  lemma PutBehindFirst(lines: seq<string>, i: nat, row: string)
    requires 0 < i < |lines|
    ensures lines[i := row][1..] == lines[1..i] + [row] + lines[i + 1..]
    ensures lines[i := row] != [] && lines[i := row][0] == lines[0]
  {
  }

  lemma VisiblePut(gap: seq<string>, lines: seq<string>, i: nat, row: string)
    requires gap != [] && 0 < i < |lines| && row != "" && row[0] == '|' && NoHeadings(lines[1..])
             && !Hidden(gap, lines[0])
    ensures Visible(Seam(gap, lines[i := row]))
         == gap[..|gap| - 1] + ([gap[|gap| - 1] + lines[0]] + lines[1..i]) + [row] + lines[i + 1..]
  {
    var lines', m := lines[i := row], |gap| - 1;
    ShownVisible(gap, lines');
    NoHeadingsPut(lines, i, row);
    UpToAll(lines'[1..]);
    PutBehindFirst(lines, i, row);
    Regroup(gap[..m], [gap[m] + lines[0]], lines[1..i], [row], lines[i + 1..]);
  }

  lemma VisibleInFront(gap: seq<string>, lines: seq<string>, i: nat, row: string)
    requires gap != [] && lines != [] && (i == 0 || i == |lines|) && row != "" && row[0] == '|'
    requires NoHeadings(lines[1..]) && !Hidden(gap, row)
    ensures Visible(Seam(gap, if i == 0 then lines[0 := row] else [row] + lines))
         == gap[..|gap| - 1] + [gap[|gap| - 1] + row] + if i == 0 then lines[1..] else UpTo(lines)
  {
    var lines' := if i == 0 then lines[0 := row] else [row] + lines;
    ShownVisible(gap, lines');
    if i == 0 {
      assert lines'[1..] == lines[1..];
      UpToAll(lines[1..]);
    } else {
      assert lines'[1..] == lines;
    }
  }

  lemma NoHeadingsPut(lines: seq<string>, i: nat, row: string)
    requires i < |lines| && row != "" && row[0] == '|' && NoHeadings(lines[1..])
    ensures NoHeadings(lines[i := row][1..])
  {
    var put := lines[i := row];
    if i > 0 {
      assert put[1..] == lines[1..][i - 1 := row];
    } else {
      assert put[1..] == lines[1..];
    }
  }

  lemma Regroup(a: seq<string>, b: seq<string>, c: seq<string>, d: seq<string>, e: seq<string>)
    ensures a + b + (c + d + e) == a + (b + c) + d + e
  {
  }

  lemma {:induction false} UpToIsPrefix(lines: seq<string>)
    ensures UpTo(lines) <= lines
  {
    if lines != [] && !OpensSection(lines[0]) {
      UpToIsPrefix(lines[1..]);
    }
  }

  lemma VisibleReadsLess(read: Reader, lines: seq<string>)
    ensures |Rows(read, Visible(lines))| <= |Rows(read, lines)|
  {
    var visible := Visible(lines);
    VisibleIsPrefix(lines);
    RowsAppend(read, visible, lines[|visible|..]);
  }

  lemma VisibleIsPrefix(lines: seq<string>)
    ensures |Visible(lines)| <= |lines| && lines == Visible(lines) + lines[|Visible(lines)|..]
  {
    if lines != [] {
      UpToIsPrefix(lines[1..]);
      PrefixBehindFirst(lines, UpTo(lines[1..]));
    }
  }

  lemma PrefixBehindFirst(lines: seq<string>, part: seq<string>)
    requires lines != [] && part <= lines[1..]
    ensures |[lines[0]] + part| <= |lines| && lines == ([lines[0]] + part) + lines[|[lines[0]] + part|..]
  {
    assert ([lines[0]] + part) <= lines;
  }

  lemma ReadsInPlace(read: Reader, before: seq<string>, line: string, behind: seq<string>, value: Slice)
    ensures Rows(read, before + [line] + behind)
         == Rows(read, before) + (match read(line) case None => [] case Some(r) => [r]) + Rows(read, behind)
    ensures Rows(read, before + [line] + behind) == Rows(read, before) + [value] + Rows(read, behind)
       <==> read(line) == Some(value)
  {
    RowsAppend(read, before + [line], behind);
    RowsAppend(read, before, [line]);
    RowsOfOneLine(read, line);
    var a, b := Rows(read, before), Rows(read, behind);
    if read(line).Some? {
      assert (a + [read(line).value] + b)[|a|] == read(line).value && (a + [value] + b)[|a|] == value;
    }
  }

  /** The link is read in its place exactly when no section closes before it and its line reads as it: for a
      row put in front, the line is what remains of the text before it with the row. */
  lemma LineReadExactly(read: Reader, gap: seq<string>, lines: seq<string>, mention: string, row: string, value: Slice)
    requires gap != [] && lines != [] && row != "" && row[0] == '|' && NoHeadings(lines[1..])
    ensures Rows(read, Visible(Seam(gap, UpsertLines(lines, mention, row))))
            == Rows(read, Before(gap, lines, mention)) + [value] + Rows(read, Behind(lines, mention))
       <==> !ClosesEarly(gap, lines, mention) && read(LinkLine(gap, lines, mention, row)) == Some(value)
  {
    var before, behind := Before(gap, lines, mention), Behind(lines, mention);
    if ClosesEarly(gap, lines, mention) {
      var front := gap[..|gap| - 1];
      VisibleClosed(gap, lines, mention, row);
      VisibleReadsLess(read, front);
      assert before == front + before[|front|..];
      RowsAppend(read, front, before[|front|..]);
    } else {
      VisibleOpen(gap, lines, mention, row);
      ReadsInPlace(read, before, LinkLine(gap, lines, mention, row), behind, value);
    }
  }

  // ---------------------------------------------------------------- the table header

  lemma TitleRowSkipped()
    ensures RowOf(TitleRow).None? && '\n' !in TitleRow
  {
    TrimReaches(IsSpace, TitleRow);
    ContainsInside("| ", TitlePair, " | Target | Name | Status |");
    SkippedByTitle(TitleRow);
  }

  lemma ContainsInside(before: string, pat: string, after: string)
    ensures Contains(before + pat + after, pat)
  {
    var s := before + pat + after;
    assert s[|before|..|before| + |pat|] == pat;
    assert At(s, |before|, pat);
    ContainsIff(s, pat);
  }

  lemma SkippedByTitle(line: string)
    requires TrimSpace(line) == line && Contains(line, TitlePair)
    ensures RowOf(line).None?
  {
  }

  lemma SkippedByDashes(line: string)
    requires TrimSpace(line) == line && Contains(line, Dashes)
    ensures RowOf(line).None?
  {
  }

  lemma RuleRowSkipped()
    ensures RowOf(RuleRow).None? && '\n' !in RuleRow && !OpensSection(RuleRow)
  {
    TrimReaches(IsSpace, RuleRow);
    ContainsInside("| ", Dashes, " | --- | --- | --- | --- |");
    SkippedByDashes(RuleRow);
    assert RuleRow[0] == '|';
  }

  lemma TwoLines(title: string, rule: string, text: string)
    requires '\n' !in title && '\n' !in rule
    ensures Split('\n', title + "\n" + rule + "\n" + text) == [title, rule] + Split('\n', text)
  {
    assert title + "\n" + rule + "\n" + text == title + "\n" + (rule + "\n" + text);
    LineThen(title, rule + "\n" + text);
    LineThen(rule, text);
  }

  lemma SkippedLines(read: Reader, title: string, rule: string, lines: seq<string>)
    requires read(title).None? && read(rule).None?
    ensures Rows(read, [title, rule] + lines) == Rows(read, lines)
  {
    assert ([title, rule] + lines)[1..] == [rule] + lines;
    assert ([rule] + lines)[1..] == lines;
  }

  lemma TwoLinesSectionless(title: string, rule: string)
    requires '\n' !in title && '\n' !in rule && !OpensSection(rule)
    ensures Sectionless(title + "\n" + rule + "\n")
  {
    var table := title + "\n" + rule + "\n";
    assert table == title + "\n" + rule + "\n" + "";
    TwoLines(title, rule, "");
    SectionlessLines(table);
    assert Split('\n', "") == [""];
    assert ([title, rule] + [""])[1..] == [rule, ""];
  }

  lemma TableSectionless()
    ensures Sectionless(Table()) && Table()[|Table()| - 1] == '\n'
  {
    TitleRowSkipped();
    RuleRowSkipped();
    TwoLinesSectionless(TitleRow, RuleRow);
  }

  // ---------------------------------------------------------------- links that fit on a line

  /** A clean link whose cells hold no newline and whose alias is written trimmed. */
  predicate Writable(l: Slice) {
    var c := Canon(l);
    Clean(l) && l.alias == c.alias && Free(c, '\n')
  }

  lemma {:induction false} JoinFree(parts: seq<string>)
    requires forall part :: part in parts ==> '\n' !in part
    ensures '\n' !in Join('|', parts)
  {
    if |parts| > 1 {
      assert parts[0] in parts;
      JoinFree(parts[1..]);
    } else if |parts| == 1 {
      assert parts[0] in parts;
    }
  }

  lemma WritablePlain(l: Slice)
    requires Writable(l)
    ensures PlainRow(RowLine(l))
  {
    PlainParts(l);
    JoinFree(LinkParts(l));
  }

  // ---------------------------------------------------------------- a rendered row as text

  lemma {:induction false} EscapeKeepsLine(s: string)
    requires '\n' !in s
    ensures '\n' !in EscapePipes(s)
  {
    if s != "" {
      assert s[0] in s && forall c :: c in s[1..] ==> c in s;
      EscapeKeepsLine(s[1..]);
    }
  }

  lemma RowOnOneLine(l: Slice)
    requires Free(Canon(l), '\n')
    ensures '\n' !in RowLine(l)
  {
    var c := Canon(l);
    EscapeKeepsLine(c.alias);
    EscapeKeepsLine(c.task);
    EscapeKeepsLine(c.target);
    EscapeKeepsLine(c.name);
    EscapeKeepsLine(c.status);
    PartsFree(EscapePipes(c.alias), EscapePipes(c.task), EscapePipes(c.target), EscapePipes(c.name),
              EscapePipes(c.status));
    JoinFree(LinkParts(l));
  }

  lemma PartsFree(alias: string, task: string, target: string, name: string, status: string)
    requires '\n' !in alias && '\n' !in task && '\n' !in target && '\n' !in name && '\n' !in status
    ensures forall part :: part in Parts(alias, task, target, name, status) ==> '\n' !in part
  {
  }

  lemma {:induction false} RowsFromLines(read: Reader, lines: seq<string>, r: Slice)
    requires r in Rows(read, lines)
    ensures exists line :: line in lines && read(line) == Some(r)
  {
    if read(lines[0]) != Some(r) {
      RowsFromLines(read, lines[1..], r);
    }
  }

  lemma RowsOfOneLine(read: Reader, line: string)
    ensures Rows(read, [line]) == match read(line) case None => [] case Some(r) => [r]
  {
    assert [line][1..] == [];
  }

  /** The text of a rendered row is read back, line by line, as its link exactly when every trimmed cell has
      no pipe, no backtick at its ends, no run of three dashes, and no line break. */
  lemma RowTextReadsBack(l: Slice)
    ensures Rows(RowOf, Split('\n', RowLine(l))) == [Canon(l)] <==> Clean(l) && Free(Canon(l), '\n')
  {
    RowReadsBack(l);
    if Free(Canon(l), '\n') {
      RowOnOneLine(l);
      SplitFree('\n', RowLine(l));
      RowsOfOneLine(RowOf, RowLine(l));
    } else if Rows(RowOf, Split('\n', RowLine(l))) == [Canon(l)] {
      RowsFromLines(RowOf, Split('\n', RowLine(l)), Canon(l));
      var line :| line in Split('\n', RowLine(l)) && RowOf(line) == Some(Canon(l));
      SplitParts('\n', RowLine(l));
      RowOfFree(line, '\n');
    }
  }

  lemma BlankIsNoRow()
    ensures RowOf("") == None
  {
    assert TrimSpace("") == "";
  }

  // ---------------------------------------------------------------- writing a link and reading it back

  /** Whether a link is read in its place, by what stands in the document before the upsert: the text as long
      as the header closes no section and, when the link goes over a later line of the rest, none is closed
      where the two meet; when it goes in front, its row reads as it behind the last line of that text. */
  predicate Takes(gap: string, rest: string, l: Slice) {
    var before, lines := Split('\n', gap), SectionLines(rest);
    var last := before[|before| - 1];
    && Sectionless(gap)
    && if 0 < FirstMention(lines, Mention(l.alias)) < |lines| then |before| > 1 ==> !OpensSection(last + lines[0])
       else RowOf(last + RowLine(l)) == Some(Canon(l))
  }

  /** For every document with the heading and enough text behind it, the link is read back in its place if and
      only if the document takes it; where a section closes before that place, nothing that is read changes. */
  lemma UpsertReadExactly(pre: string, gap: string, rest: string, l: Slice)
    requires HeadingFound(pre, gap, rest) && Writable(l)
    ensures var before, lines := Split('\n', gap), SectionLines(rest);
            && (Parse(Upsert(Sectioned(pre, gap, rest), l))
                == Rows(RowOf, Before(before, lines, Mention(l.alias))) + [Canon(l)]
                    + Rows(RowOf, Behind(lines, Mention(l.alias)))
                <==> Takes(gap, rest, l))
            && (ClosesEarly(before, lines, Mention(l.alias)) ==>
                  Parse(Upsert(Sectioned(pre, gap, rest), l)) == Parse(Sectioned(pre, gap, rest)))
  {
    var mention, row, before, lines := Mention(l.alias), RowLine(l), Split('\n', gap), SectionLines(rest);
    WritablePlain(l);
    RowReadsBack(l);
    ParseWritten(pre, gap, rest, mention, row);
    ParseSectioned(pre, gap, rest);
    SectionLinesPlain(rest);
    SectionlessLines(gap);
    LineReadExactly(RowOf, before, lines, mention, row, Canon(l));
    if ClosesEarly(before, lines, mention) {
      VisibleClosed(before, lines, mention, row);
    }
  }

  /** A row in front of the lines shares its line with what is left of the text before it: behind blank text
      it reads as it would alone, behind text that starts no table row it is not read. */
  lemma RowBehindText(text: string, row: string)
    requires PlainRow(row)
    ensures TrimSpace(text) == "" ==> RowOf(text + row) == RowOf(row)
    ensures TrimSpace(text) != "" && TrimSpace(text)[0] != '|' ==> RowOf(text + row) == None
  {
    TrimLeftAppend(IsSpace, text, row);
    TrimLeftEnds(IsSpace, text);
    var inner := TrimLeft(IsSpace, text);
    if inner != "" {
      TrimRightKeeps(IsSpace, inner);
      TrimRightKeeps(IsSpace, inner + row);
    }
  }

  lemma {:induction false} TrimLeftAppend(p: char -> bool, a: string, b: string)
    ensures TrimLeft(p, a + b) == if TrimLeft(p, a) == "" then TrimLeft(p, b) else TrimLeft(p, a) + b
  {
    if a == "" {
      assert a + b == b;
    } else {
      assert (a + b)[0] == a[0] && (a + b)[1..] == a[1..] + b;
      if p(a[0]) {
        TrimLeftAppend(p, a[1..], b);
      }
    }
  }

  lemma {:induction false} TrimRightKeeps(p: char -> bool, s: string)
    requires s != "" && !p(s[0])
    ensures TrimRight(p, s) != "" && TrimRight(p, s)[0] == s[0]
  {
    if p(s[|s| - 1]) {
      TrimRightKeeps(p, s[..|s| - 1]);
    }
  }

  /** The rows read after an upsert, in terms of the section's lines. */
  function RowsWith(read: Reader, lines: seq<string>, mention: string, value: Slice): seq<Slice> {
    var i := FirstMention(lines, mention);
    if i < |lines| then Rows(read, lines[..i]) + [value] + Rows(read, lines[i + 1..]) else [value] + Rows(read, lines)
  }

  /** What parse reads of the rest after an upsert, when the text before it ends a line: the rows with the
      link over the first line that mentions its alias, or in front when no line does. When the rest opens
      another section, a link in front displaces that section, a link over its heading line joins its lines to
      the table, and a link over a later line of it is not read. */
  function ReadWith(read: Reader, lines: seq<string>, mention: string, value: Slice): seq<Slice>
    requires lines != []
  {
    if !OpensSection(lines[0]) || FirstMention(lines, mention) == 0 then RowsWith(read, lines, mention, value)
    else if FirstMention(lines, mention) == |lines| then [value]
    else []
  }

  /** The lines of a text that ends a line and closes no section: the last is what a row would run on from. */
  ghost predicate Ended(gap: seq<string>, front: seq<string>) {
    gap == front + [""] && front != [] && NoHeadings(front[1..])
  }

  lemma EndedLines(gap: seq<string>, front: seq<string>)
    requires Ended(gap, front)
    ensures gap != [] && gap[..|gap| - 1] == front && gap[|gap| - 1] == "" && NoHeadings(gap[1..])
    ensures Visible(front) == front
  {
    assert gap[1..] == front[1..] + [""];
    UpToAll(front[1..]);
  }

  lemma HiddenPastLine(gap: seq<string>, front: seq<string>, first: string)
    requires Ended(gap, front)
    ensures gap != [] && (Hidden(gap, first) <==> OpensSection(first))
  {
    EndedLines(gap, front);
    assert "" + first == first;
  }

  lemma VisiblePastLine(gap: seq<string>, front: seq<string>, lines: seq<string>)
    requires Ended(gap, front) && lines != [] && NoHeadings(lines[1..])
    ensures gap != [] && Visible(Seam(gap, lines)) == if OpensSection(lines[0]) then front else front + lines
  {
    EndedLines(gap, front);
    HiddenPastLine(gap, front, lines[0]);
    if OpensSection(lines[0]) {
      HiddenVisible(gap, lines);
    } else {
      ShownVisible(gap, lines);
      UpToAll(lines[1..]);
      FirstOnward(front, lines);
    }
  }

  lemma FirstOnward(front: seq<string>, lines: seq<string>)
    requires lines != []
    ensures front + ["" + lines[0]] + lines[1..] == front + lines
  {
    assert "" + lines[0] == lines[0];
  }

  lemma RowsPastLine(read: Reader, gap: seq<string>, front: seq<string>, lines: seq<string>)
    requires read("") == None && Ended(gap, front) && lines != [] && NoHeadings(lines[1..])
    ensures gap != []
    ensures Rows(read, Visible(Seam(gap, lines)))
         == Rows(read, gap) + if OpensSection(lines[0]) then [] else Rows(read, lines)
  {
    VisiblePastLine(gap, front, lines);
    RowsOfEnded(read, gap, front);
    RowsAppend(read, front, lines);
  }

  lemma RowsOfEnded(read: Reader, gap: seq<string>, front: seq<string>)
    requires read("") == None && Ended(gap, front)
    ensures Rows(read, gap) == Rows(read, front)
  {
    RowsAppend(read, front, [""]);
    RowsOfBlank(read, [""]);
  }

  /** The upserted lines behind a text that ends a line. */
  lemma UpsertedPastLine(gap: seq<string>, front: seq<string>, lines: seq<string>, mention: string, row: string)
    requires Ended(gap, front) && lines != [] && NoHeadings(lines[1..]) && row != "" && row[0] == '|'
    ensures var i := FirstMention(lines, mention);
            gap != [] && Visible(Seam(gap, UpsertLines(lines, mention, row)))
            == front + if 0 < i < |lines| && OpensSection(lines[0]) then []
                       else if i < |lines| then lines[..i] + [row] + lines[i + 1..]
                       else [row] + UpTo(lines)
  {
    var i := FirstMention(lines, mention);
    if i < |lines| {
      PutPastLine(gap, front, lines, i, row);
      assert front + [] == front;
    } else {
      InFrontPastLine(gap, front, lines, row);
    }
  }

  lemma PutPastLine(gap: seq<string>, front: seq<string>, lines: seq<string>, i: nat, row: string)
    requires Ended(gap, front) && i < |lines| && NoHeadings(lines[1..]) && row != "" && row[0] == '|'
    ensures gap != [] && Visible(Seam(gap, lines[i := row]))
         == if 0 < i && OpensSection(lines[0]) then front else front + (lines[..i] + [row] + lines[i + 1..])
  {
    NoHeadingsPut(lines, i, row);
    VisiblePastLine(gap, front, lines[i := row]);
    assert lines[i := row] == lines[..i] + [row] + lines[i + 1..];
  }

  lemma InFrontPastLine(gap: seq<string>, front: seq<string>, lines: seq<string>, row: string)
    requires Ended(gap, front) && row != "" && row[0] == '|'
    ensures gap != [] && Visible(Seam(gap, [row] + lines)) == front + ([row] + UpTo(lines))
  {
    var put := [row] + lines;
    EndedLines(gap, front);
    HiddenPastLine(gap, front, row);
    assert put[0] == row && put[1..] == lines && "" + row == row;
    ShownVisible(gap, put);
    RowThen(front, row, UpTo(lines));
  }

  lemma RowThen(front: seq<string>, row: string, behind: seq<string>)
    ensures front + ([row] + behind) == front + [row] + behind
  {
  }

  lemma LinkPastLine(read: Reader, gap: seq<string>, front: seq<string>, lines: seq<string>, mention: string,
                     row: string,
                     value: Slice)
    requires read("") == None && Ended(gap, front) && lines != [] && NoHeadings(lines[1..])
    requires row != "" && row[0] == '|' && read(row) == Some(value)
    ensures gap != []
    ensures Rows(read, Visible(Seam(gap, UpsertLines(lines, mention, row))))
         == Rows(read, gap) + ReadWith(read, lines, mention, value)
  {
    var i := FirstMention(lines, mention);
    UpsertedPastLine(gap, front, lines, mention, row);
    RowsOfEnded(read, gap, front);
    if i < |lines| {
      RowsAppend(read, front, lines[..i] + [row] + lines[i + 1..]);
      RowsAppend(read, front, []);
      ReadsInPlace(read, lines[..i], row, lines[i + 1..], value);
    } else {
      RowsAppend(read, front, [row] + UpTo(lines));
      RowsInFront(read, lines, row, value);
    }
  }

  lemma RowsInFront(read: Reader, lines: seq<string>, row: string, value: Slice)
    requires lines != [] && NoHeadings(lines[1..]) && read(row) == Some(value)
    ensures Rows(read, [row] + UpTo(lines)) == [value] + if OpensSection(lines[0]) then [] else Rows(read, lines)
  {
    assert ([row] + UpTo(lines))[1..] == UpTo(lines);
    if !OpensSection(lines[0]) {
      assert lines == [lines[0]] + lines[1..];
      UpToAll(lines);
    }
  }

  /** A text that ends a line and closes no section. */
  predicate EndsLine(text: string) {
    text != "" && text[|text| - 1] == '\n' && Sectionless(text)
  }

  lemma LinesOfEnded(text: string) returns (front: seq<string>)
    requires EndsLine(text)
    ensures Ended(Split('\n', text), front)
  {
    var n := |text| - 1;
    front := Split('\n', text[..n]);
    SplitAppend('\n', text[..n], "");
    assert text == text[..n] + "\n" + "";
    SectionlessLines(text);
    assert (front + [""])[1..] == front[1..] + [""];
    assert forall k :: 0 <= k < |front| - 1 ==> front[1..][k] == (front[1..] + [""])[k];
  }

  /** Writing a link behind a header, or any text as long that ends a line and closes no section, and reading
      it back: around the lines of the section nothing changes, and what is read is what was read of the text,
      then the table with the link. */
  lemma UpsertThenParse(pre: string, gap: string, rest: string, l: Slice)
    requires HeadingFound(pre, gap, rest) && EndsLine(gap) && Writable(l)
    ensures Parse(Sectioned(pre, gap, rest))
         == Rows(RowOf, Split('\n', gap)) + if OpensSection(rest) then [] else Rows(RowOf, SectionLines(rest))
    ensures Parse(Upsert(Sectioned(pre, gap, rest), l))
         == Rows(RowOf, Split('\n', gap)) + ReadWith(RowOf, SectionLines(rest), Mention(l.alias), Canon(l))
    ensures exists text ::
              Upsert(Sectioned(pre, gap, rest), l) == Sectioned(pre, gap, text + rest[|SectionText(rest)|..])
  {
    var lines := SectionLines(rest);
    var front := LinesOfEnded(gap);
    WritablePlain(l);
    RowReadsBack(l);
    BlankIsNoRow();
    SectionLinesPlain(rest);
    ParseSectioned(pre, gap, rest);
    RowsPastLine(RowOf, Split('\n', gap), front, lines);
    ParseWritten(pre, gap, rest, Mention(l.alias), RowLine(l));
    LinkPastLine(RowOf, Split('\n', gap), front, lines, Mention(l.alias), RowLine(l), Canon(l));
    WriteIntoSectioned(pre, gap, rest, Mention(l.alias), RowLine(l));
  }

  /** So behind such a text, as behind a header, the link is lost exactly when another section follows directly
      and a line of it other than its heading mentions the alias first; then nothing that is read changes. */
  lemma LineTakesExactly(pre: string, gap: string, rest: string, l: Slice)
    requires HeadingFound(pre, gap, rest) && EndsLine(gap) && Writable(l)
    ensures var i := FirstMention(SectionLines(rest), Mention(l.alias));
            Takes(gap, rest, l) <==> !OpensSection(rest) || i == 0 || i == |SectionLines(rest)|
    ensures !Takes(gap, rest, l) ==> Parse(Upsert(Sectioned(pre, gap, rest), l)) == Parse(Sectioned(pre, gap, rest))
  {
    var lines := SectionLines(rest);
    var front := LinesOfEnded(gap);
    EndedLines(Split('\n', gap), front);
    SectionLinesPlain(rest);
    RowReadsBack(l);
    assert "" + RowLine(l) == RowLine(l) && "" + lines[0] == lines[0];
    UpsertThenParse(pre, gap, rest, l);
  }

  // ---------------------------------------------------------------- canonical documents

  /** A document with the table header: what stands before the heading's line, and what follows the header. */
  function Document(pre: string, rest: string): string {
    pre + "\n" + Header() + rest
  }

  /** The section heading of the document is the one found. */
  ghost predicate CanonicalParts(pre: string, rest: string) {
    Index(Document(pre, rest), HeadingMark()) == |pre|
  }

  lemma DocumentSectioned(pre: string, rest: string)
    ensures Document(pre, rest) == Sectioned(pre, Table(), rest)
    ensures CanonicalParts(pre, rest) <==> HeadingFound(pre, Table(), rest)
  {
    HeaderApart(pre, Heading, Table(), rest);
  }

  lemma HeaderApart(pre: string, h: string, t: string, rest: string)
    ensures pre + "\n" + (h + "\n" + t) + rest == pre + ("\n" + h + "\n") + t + rest
  {
  }

  lemma TableLines3()
    ensures Split('\n', Table()) == [TitleRow, RuleRow, ""] && Rows(RowOf, [TitleRow, RuleRow, ""]) == []
  {
    TitleRowSkipped();
    RuleRowSkipped();
    var title, rule := TitleRow, RuleRow;
    assert Table() == title + "\n" + rule + "\n" + "";
    TwoLines(title, rule, "");
    SkippedLines(RowOf, title, rule, [""]);
    assert [title, rule] + [""] == [title, rule, ""];
    BlankIsNoRow();
    RowsOfBlank(RowOf, [""]);
  }

  /** The same for a document with the header: what is read is the table with the link. */
  lemma UpsertCanonical(pre: string, rest: string, l: Slice)
    requires CanonicalParts(pre, rest) && Writable(l)
    ensures Parse(Document(pre, rest)) == if OpensSection(rest) then [] else Rows(RowOf, SectionLines(rest))
    ensures Parse(Upsert(Document(pre, rest), l)) == ReadWith(RowOf, SectionLines(rest), Mention(l.alias), Canon(l))
  {
    DocumentSectioned(pre, rest);
    TableSectionless();
    TableLines3();
    UpsertThenParse(pre, Table(), rest, l);
  }

  lemma ParseDocument(pre: string, rest: string)
    requires CanonicalParts(pre, rest)
    ensures Parse(Document(pre, rest)) == if OpensSection(rest) then [] else Rows(RowOf, SectionLines(rest))
  {
    DocumentSectioned(pre, rest);
    TableSectionless();
    TableLines3();
    var front := LinesOfEnded(Table());
    BlankIsNoRow();
    SectionLinesPlain(rest);
    ParseSectioned(pre, Table(), rest);
    RowsPastLine(RowOf, Split('\n', Table()), front, SectionLines(rest));
  }

  lemma MentionStartIn(line: string, mention: string)
    requires mention != ""
    ensures Contains(line, mention) ==> mention[0] in line
  {
    ContainsIff(line, mention);
    if j :| At(line, j, mention) {
      assert line[j] == line[j..j + |mention|][0];
    }
  }

  lemma MentionIn(mention: string)
    ensures Contains(mention, mention)
  {
    ContainsInside("", mention, "");
    assert "" + mention + "" == mention;
  }

  /** A link of any repo is lost this way: behind the header stand notes that name the repo in a cell. */
  lemma NotesBehindHeaderLoseLink(l: Slice)
    requires Writable(l)
    ensures var d := Document("", "## Notes" + "\n" + Mention(l.alias)); Parse(Upsert(d, l)) == [] && Parse(d) == []
  {
    var notes, mention := "## Notes", Mention(l.alias);
    assert mention[0] == '|' && '|' !in notes && OpensSection(notes);
    NotesLines(notes, mention);
    NotesMention(notes, mention);
    HeadingFirst(notes + "\n" + mention);
    UpsertCanonical("", notes + "\n" + mention, l);
    SectionLinesPlain(notes + "\n" + mention);
  }

  lemma HeadingFirst(rest: string)
    ensures CanonicalParts("", rest)
  {
    DocumentSectioned("", rest);
    Placed("", HeadingMark(), Table(), rest);
    IndexAt(Document("", rest), HeadingMark(), 0);
  }

  lemma NotesMention(notes: string, mention: string)
    requires mention != "" && mention[0] !in notes
    ensures FirstMention([notes, mention], mention) == 1
  {
    MentionStartIn(notes, mention);
    MentionIn(mention);
    FirstMentionIs([notes, mention], mention, 1);
  }

  lemma NotesLines(notes: string, mention: string)
    requires '\n' !in notes && '\n' !in mention && !OpensSection(mention)
    ensures SectionLines(notes + "\n" + mention) == [notes, mention]
  {
    LineThen(notes, mention);
    SplitFree('\n', mention);
    assert [notes] + [mention] == [notes, mention];
    SectionIsVisible(notes + "\n" + mention);
    assert [notes, mention][1..] == [mention];
    UpToAll([mention]);
  }

  // ---------------------------------------------------------------- the section after an upsert

  /** The rest opens another section and no line mentions the alias: the row is put in front of that section. */
  predicate Displaces(rest: string, mention: string) {
    OpensSection(rest) && FirstMention(SectionLines(rest), mention) == |SectionLines(rest)|
  }

  lemma RebuiltSection(lines: seq<string>, post: string)
    requires lines != [] && NoHeadings(lines[1..]) && LinesOfText(lines) && Compact(lines) != []
    requires post == "" || SectionMark <= post
    ensures SectionText(Rebuild(lines) + post) == Rebuild(lines)
    ensures SectionLines(Rebuild(lines) + post) == Compact(lines) + [""]
  {
    var text, kept := Rebuild(lines), Compact(lines);
    RebuildLines(lines);
    KeptHeadings(lines);
    SectionlessLines(text);
    SectionTextOf(text, post);
  }

  lemma KeptHeadings(lines: seq<string>)
    requires lines != [] && NoHeadings(lines[1..]) && Compact(lines) != []
    ensures NoHeadings((Compact(lines) + [""])[1..])
  {
    var kept := Compact(lines);
    CompactPart(lines);
    assert (kept + [""])[1..] == kept[1..] + [""];
    assert kept[1..] <= lines[1..];
  }

  lemma UpsertedHeadings(lines: seq<string>, mention: string, row: string)
    requires lines != [] && NoHeadings(lines[1..]) && PlainRow(row)
    requires OpensSection(lines[0]) ==> FirstMention(lines, mention) < |lines|
    ensures NoHeadings(UpsertLines(lines, mention, row)[1..])
  {
    var i := FirstMention(lines, mention);
    if i < |lines| {
      NoHeadingsPut(lines, i, row);
    } else {
      assert ([row] + lines)[1..] == lines && lines == [lines[0]] + lines[1..];
    }
  }

  /** Unless a section was displaced, the section after an upsert holds the upserted lines and ends where it
      ended before. */
  lemma RewrittenSection(rest: string, mention: string, row: string)
    requires PlainRow(row) && !Displaces(rest, mention)
    ensures var rest' := Rewritten(rest, mention, row);
            && SectionText(rest') == Rebuild(UpsertLines(SectionLines(rest), mention, row))
            && SectionLines(rest') == Compact(UpsertLines(SectionLines(rest), mention, row)) + [""]
            && rest'[|SectionText(rest')|..] == rest[|SectionText(rest)|..]
  {
    SectionLinesPlain(rest);
    UpsertedPlain(SectionLines(rest), mention, row);
    UpsertedHeadings(SectionLines(rest), mention, row);
    SectionSplits(rest);
    RebuiltSection(UpsertLines(SectionLines(rest), mention, row), rest[|SectionText(rest)|..]);
  }

  lemma WriteIntoDocument(pre: string, rest: string, mention: string, row: string)
    requires CanonicalParts(pre, rest) && PlainRow(row) && !Displaces(rest, mention)
    ensures var rest' := Rewritten(rest, mention, row);
            && WriteInto(Document(pre, rest), mention, row) == Document(pre, rest')
            && CanonicalParts(pre, rest')
            && SectionLines(rest') == Compact(UpsertLines(SectionLines(rest), mention, row)) + [""]
            && rest'[|SectionText(rest')|..] == rest[|SectionText(rest)|..]
  {
    DocumentSectioned(pre, rest);
    DocumentSectioned(pre, Rewritten(rest, mention, row));
    WriteIntoSectioned(pre, Table(), rest, mention, row);
    RewrittenSection(rest, mention, row);
  }

  // ---------------------------------------------------------------- upsert as a map update

  /** Rows as upsert itself writes them. */
  predicate Written(rows: seq<Slice>) {
    forall r :: r in rows ==> Writable(r) && Canon(r) == r
  }

  function TableLines(write: Slice -> string, rows: seq<Slice>): seq<string> {
    if rows == [] then [] else [write(rows[0])] + TableLines(write, rows[1..])
  }

  /** The lines of a table that upsert wrote. */
  function WrittenLines(rows: seq<Slice>): seq<string> {
    TableLines(RowLine, rows)
  }

  /** The rows that mention an alias, as upsert's search sees them. */
  function MentionOf(alias: string): Slice -> bool {
    r => Mentions(r, alias)
  }

  function FirstRow(rows: seq<Slice>, hit: Slice -> bool): (i: nat)
    ensures i <= |rows|
    ensures i < |rows| ==> hit(rows[i])
    ensures forall k :: 0 <= k < i ==> !hit(rows[k])
  {
    if rows == [] || hit(rows[0]) then 0 else 1 + FirstRow(rows[1..], hit)
  }

  /** The value over the first row that is hit, or in front. */
  function PutAt(rows: seq<Slice>, hit: Slice -> bool, value: Slice): seq<Slice> {
    var i := FirstRow(rows, hit);
    if i < |rows| then rows[i := value] else [value] + rows
  }

  /** The table as a map from alias to slice: an alias keeps its place, a new alias comes first. */
  function KeyedUpdate(rows: seq<Slice>, alias: string, value: Slice): seq<Slice> {
    PutAt(rows, Own(alias), value)
  }

  function Own(alias: string): Slice -> bool {
    (r: Slice) => r.alias == alias
  }

  lemma {:induction false} TableLinesRead(read: Reader, write: Slice -> string, rows: seq<Slice>, blanks: seq<string>)
    requires forall r :: r in rows ==> read(write(r)) == Some(r)
    requires read("") == None && forall k :: 0 <= k < |blanks| ==> blanks[k] == ""
    ensures Rows(read, TableLines(write, rows) + blanks) == rows
  {
    var lines := TableLines(write, rows) + blanks;
    if rows == [] {
      assert lines == blanks;
      RowsOfBlank(read, blanks);
    } else {
      assert rows[0] in rows;
      TableLinesRead(read, write, rows[1..], blanks);
      assert lines[0] == write(rows[0]) && lines[1..] == TableLines(write, rows[1..]) + blanks;
    }
  }

  lemma {:induction false} TableLinesMention(write: Slice -> string, rows: seq<Slice>, blanks: seq<string>,
                                             hit: Slice -> bool, mention: string)
    requires forall r :: r in rows ==> (Contains(write(r), mention) <==> hit(r))
    requires mention != "" && forall k :: 0 <= k < |blanks| ==> blanks[k] == ""
    ensures FirstMention(TableLines(write, rows) + blanks, mention)
            == if FirstRow(rows, hit) < |rows| then FirstRow(rows, hit) else |rows| + |blanks|
  {
    var lines := TableLines(write, rows) + blanks;
    if rows == [] {
      assert lines == blanks;
      BlankMentionsNothing(blanks, mention);
    } else {
      assert rows[0] in rows;
      TableLinesMention(write, rows[1..], blanks, hit, mention);
      FirstMentionBehind(write(rows[0]), TableLines(write, rows[1..]) + blanks, mention);
      assert lines == [write(rows[0])] + (TableLines(write, rows[1..]) + blanks);
    }
  }

  lemma FirstMentionBehind(line: string, lines: seq<string>, mention: string)
    ensures FirstMention([line] + lines, mention)
         == if Contains(line, mention) then 0 else 1 + FirstMention(lines, mention)
  {
    assert ([line] + lines)[1..] == lines;
  }

  lemma {:induction false} BlankMentionsNothing(blanks: seq<string>, mention: string)
    requires forall k :: 0 <= k < |blanks| ==> blanks[k] == ""
    requires mention != ""
    ensures FirstMention(blanks, mention) == |blanks|
  {
    if blanks != [] {
      assert Index("", mention) == -1;
      BlankMentionsNothing(blanks[1..], mention);
    }
  }

  lemma {:induction false} TableLinesCut(write: Slice -> string, rows: seq<Slice>, i: nat)
    requires i <= |rows|
    ensures |TableLines(write, rows)| == |rows|
    ensures TableLines(write, rows)[..i] == TableLines(write, rows[..i])
    ensures TableLines(write, rows)[i..] == TableLines(write, rows[i..])
  {
    if i > 0 {
      TableLinesCut(write, rows[1..], i - 1);
      assert rows[..i][1..] == rows[1..][..i - 1] && rows[i..] == rows[1..][i - 1..];
    } else {
      TableLinesLength(write, rows);
      assert rows[..0] == [] && rows[0..] == rows;
    }
  }

  lemma {:induction false} TableLinesLength(write: Slice -> string, rows: seq<Slice>)
    ensures |TableLines(write, rows)| == |rows|
  {
    if rows != [] {
      TableLinesLength(write, rows[1..]);
    }
  }

  lemma TableAround(read: Reader, write: Slice -> string, rows: seq<Slice>, blanks: seq<string>, i: nat)
    requires forall r :: r in rows ==> read(write(r)) == Some(r)
    requires read("") == None && forall k :: 0 <= k < |blanks| ==> blanks[k] == ""
    requires i < |rows|
    ensures var lines := TableLines(write, rows) + blanks;
            |lines| == |rows| + |blanks| && Rows(read, lines[..i]) == rows[..i]
                && Rows(read, lines[i + 1..]) == rows[i + 1..]
  {
    var lines := TableLines(write, rows) + blanks;
    TableLinesCut(write, rows, i);
    TableLinesCut(write, rows, i + 1);
    assert lines[..i] == TableLines(write, rows[..i]) + [];
    assert lines[i + 1..] == TableLines(write, rows[i + 1..]) + blanks;
    TableLinesRead(read, write, rows[..i], []);
    TableLinesRead(read, write, rows[i + 1..], blanks);
  }

  lemma PutSplits(rows: seq<Slice>, i: nat, value: Slice)
    requires i < |rows|
    ensures rows[i := value] == rows[..i] + [value] + rows[i + 1..]
  {
  }

  lemma RowsWithTable(read: Reader, write: Slice -> string, rows: seq<Slice>, blanks: seq<string>, hit: Slice -> bool,
                      mention: string, value: Slice)
    requires forall r :: r in rows ==> read(write(r)) == Some(r)
    requires forall r :: r in rows ==> (Contains(write(r), mention) <==> hit(r))
    requires mention != "" && read("") == None && forall k :: 0 <= k < |blanks| ==> blanks[k] == ""
    ensures RowsWith(read, TableLines(write, rows) + blanks, mention, value) == PutAt(rows, hit, value)
  {
    TableLinesMention(write, rows, blanks, hit, mention);
    TableLinesCut(write, rows, 0);
    var i := FirstRow(rows, hit);
    if i < |rows| {
      TableAround(read, write, rows, blanks, i);
      PutSplits(rows, i, value);
    } else {
      TableLinesRead(read, write, rows, blanks);
    }
  }

  lemma WrittenFacts(rows: seq<Slice>, alias: string)
    requires Written(rows) && '|' !in alias
    ensures forall r :: r in rows ==> RowOf(RowLine(r)) == Some(r)
    ensures forall r :: r in rows ==> (Contains(RowLine(r), Mention(alias)) <==> MentionOf(alias)(r))
  {
    forall r | r in rows
      ensures RowOf(RowLine(r)) == Some(r) && (Contains(RowLine(r), Mention(alias)) <==> MentionOf(alias)(r))
    {
      RowReadsBack(r);
      RowMentions(r, alias);
    }
  }

  lemma WrittenOpensNothing(rest: string, rows: seq<Slice>, blanks: seq<string>)
    requires SectionLines(rest) == WrittenLines(rows) + blanks && forall k :: 0 <= k < |blanks| ==> blanks[k] == ""
    ensures !OpensSection(rest) && !OpensSection(SectionLines(rest)[0])
  {
    SectionLinesPlain(rest);
    if rows != [] {
      assert SectionLines(rest)[0] == RowLine(rows[0]);
      assert RowLine(rows[0])[0] == '|';
    } else {
      assert SectionLines(rest)[0] == blanks[0];
    }
  }

  /** On a table that upsert wrote, one more upsert puts the link over the first row that mentions its
      alias in a repo, task, target or status cell, or in front; all other rows stay as they are. */
  lemma UpsertWrittenTable(pre: string, rest: string, rows: seq<Slice>, blanks: seq<string>, l: Slice)
    requires CanonicalParts(pre, rest) && Writable(l) && Written(rows)
    requires SectionLines(rest) == WrittenLines(rows) + blanks && forall k :: 0 <= k < |blanks| ==> blanks[k] == ""
    ensures Parse(Document(pre, rest)) == rows
    ensures Parse(Upsert(Document(pre, rest), l)) == PutAt(rows, MentionOf(l.alias), Canon(l))
  {
    UpsertCanonical(pre, rest, l);
    WrittenFacts(rows, l.alias);
    WrittenOpensNothing(rest, rows, blanks);
    BlankIsNoRow();
    TableLinesRead(RowOf, RowLine, rows, blanks);
    RowsWithTable(RowOf, RowLine, rows, blanks, MentionOf(l.alias), Mention(l.alias), Canon(l));
  }

  lemma PutAtIsKeyed(rows: seq<Slice>, hit: Slice -> bool, alias: string, value: Slice)
    requires value.alias == alias && forall r :: r in rows && r.alias == alias ==> hit(r)
    ensures PutAt(rows, hit, value) == KeyedUpdate(rows, alias, value)
            <==> (FirstRow(rows, hit) < |rows| ==> rows[FirstRow(rows, hit)].alias == alias)
  {
    var own := Own(alias);
    var i, k := FirstRow(rows, hit), FirstRow(rows, own);
    if k < |rows| {
      assert hit(rows[k]);
      assert i <= k;
    }
    if i < |rows| && rows[i].alias == alias {
      assert own(rows[i]);
      assert k <= i;
    }
    if i < |rows| && rows[i].alias != alias {
      assert rows[i := value][i] == value;
      if k < |rows| {
        assert rows[k := value][i] == rows[i];
      }
    }
  }

  /** On a table that upsert wrote it is the update of a map keyed by alias exactly when no row of another repo
      mentions the alias before the alias' own row; otherwise it overwrites that other repo's row. */
  lemma UpsertIsMapUpdate(pre: string, rest: string, rows: seq<Slice>, blanks: seq<string>, l: Slice)
    requires CanonicalParts(pre, rest) && Writable(l) && Written(rows)
    requires SectionLines(rest) == WrittenLines(rows) + blanks && forall k :: 0 <= k < |blanks| ==> blanks[k] == ""
    ensures Parse(Upsert(Document(pre, rest), l)) == KeyedUpdate(Parse(Document(pre, rest)), l.alias, Canon(l))
            <==> (FirstRow(rows, MentionOf(l.alias)) < |rows|
                  ==> rows[FirstRow(rows, MentionOf(l.alias))].alias == l.alias)
  {
    UpsertWrittenTable(pre, rest, rows, blanks, l);
    PutAtIsKeyed(rows, MentionOf(l.alias), l.alias, Canon(l));
  }

  // ---------------------------------------------------------------- any table, as a map

  /** Some neighbouring rows of a table: one row, or the place before one. */
  datatype Span = Span(from: nat, to: nat)

  predicate Within(span: Span, rows: seq<Slice>) {
    span.from <= span.to <= span.from + 1 && span.to <= |rows|
  }

  function Shift(span: Span, n: nat): Span {
    Span(n + span.from, n + span.to)
  }

  /** The rows with the value in place of these. */
  function PutRow(rows: seq<Slice>, span: Span, value: Slice): seq<Slice>
    requires Within(span, rows)
  {
    rows[..span.from] + [value] + rows[span.to..]
  }

  function Listed(row: Option<Slice>): seq<Slice> {
    match row case None => [] case Some(r) => [r]
  }

  function SpanAt(before: seq<Slice>, row: Option<Slice>): Span {
    Span(|before|, |before| + |Listed(row)|)
  }

  /** The row of the line that the link goes to, or the place of that line when it reads as no row. */
  function Place(read: Reader, lines: seq<string>, mention: string): Span {
    var i := FirstMention(lines, mention);
    if i < |lines| then SpanAt(Rows(read, lines[..i]), read(lines[i])) else Span(0, 0)
  }

  lemma RowsCut(read: Reader, before: seq<string>, line: string, behind: seq<string>)
    ensures Rows(read, before + [line] + behind) == Rows(read, before) + Listed(read(line)) + Rows(read, behind)
  {
    RowsAppend(read, before + [line], behind);
    RowsAppend(read, before, [line]);
    RowsOfOneLine(read, line);
  }

  lemma RowsAround(read: Reader, lines: seq<string>, i: nat)
    requires i < |lines|
    ensures Rows(read, lines) == Rows(read, lines[..i]) + Listed(read(lines[i])) + Rows(read, lines[i + 1..])
  {
    RowsCut(read, lines[..i], lines[i], lines[i + 1..]);
    CutAt(lines, i);
  }

  lemma CutAt(lines: seq<string>, i: nat)
    requires i < |lines|
    ensures lines[..i] + [lines[i]] + lines[i + 1..] == lines
  {
  }

  lemma PutBetween(rows: seq<Slice>, before: seq<Slice>, row: Option<Slice>, behind: seq<Slice>, value: Slice)
    requires rows == before + Listed(row) + behind
    ensures Within(SpanAt(before, row), rows)
    ensures before + [value] + behind == PutRow(rows, SpanAt(before, row), value)
  {
    assert rows[..|before|] == before && rows[|before| + |Listed(row)|..] == behind;
  }

  lemma PutInFront(rows: seq<Slice>, value: Slice)
    ensures PutRow(rows, Span(0, 0), value) == [value] + rows
  {
  }

  lemma WithPutsRow(read: Reader, lines: seq<string>, mention: string, value: Slice)
    ensures Within(Place(read, lines, mention), Rows(read, lines))
    ensures RowsWith(read, lines, mention, value) == PutRow(Rows(read, lines), Place(read, lines, mention), value)
  {
    var i := FirstMention(lines, mention);
    if i < |lines| {
      PutAround(read, lines, i, value);
      PlaceOfLine(read, lines, mention, value);
    } else {
      PutInFront(Rows(read, lines), value);
    }
  }

  lemma PlaceOfLine(read: Reader, lines: seq<string>, mention: string, value: Slice)
    requires FirstMention(lines, mention) < |lines|
    ensures var i := FirstMention(lines, mention);
            && Place(read, lines, mention) == SpanAt(Rows(read, lines[..i]), read(lines[i]))
            && RowsWith(read, lines, mention, value) == Rows(read, lines[..i]) + [value] + Rows(read, lines[i + 1..])
  {
  }

  lemma PutAround(read: Reader, lines: seq<string>, i: nat, value: Slice)
    requires i < |lines|
    ensures var span := SpanAt(Rows(read, lines[..i]), read(lines[i]));
            && Within(span, Rows(read, lines))
            && Rows(read, lines[..i]) + [value] + Rows(read, lines[i + 1..]) == PutRow(Rows(read, lines), span, value)
  {
    RowsAround(read, lines, i);
    PutBetween(Rows(read, lines), Rows(read, lines[..i]), read(lines[i]), Rows(read, lines[i + 1..]), value);
  }

  lemma PutBehind(front: seq<Slice>, rows: seq<Slice>, span: Span, value: Slice)
    requires Within(span, rows)
    ensures front + PutRow(rows, span, value) == PutRow(front + rows, Shift(span, |front|), value)
  {
    RowsBehind(front, rows, span.from);
    RowsBehind(front, rows, span.to);
    PutAssociates(front, rows[..span.from], value, rows[span.to..]);
  }

  lemma RowsBehind(front: seq<Slice>, rows: seq<Slice>, i: nat)
    requires i <= |rows|
    ensures (front + rows)[..|front| + i] == front + rows[..i] && (front + rows)[|front| + i..] == rows[i..]
  {
  }

  lemma PutAssociates(front: seq<Slice>, a: seq<Slice>, value: Slice, b: seq<Slice>)
    ensures front + (a + [value] + b) == front + a + [value] + b
  {
  }

  /** Putting a value in place of a row, or of none, is the update of the map exactly when it goes over the first
      row of its key, or over a row that equals it while the first of its key does too, or when its key is new
      and it goes in front. */
  predicate PutsKeyed(rows: seq<Slice>, span: Span, value: Slice)
    requires Within(span, rows)
  {
    var k := FirstRow(rows, Own(value.alias));
    if span.from < span.to then k < |rows| && (k == span.from || (rows[k] == value && rows[span.from] == value))
    else k == |rows| && span.from == 0
  }

  lemma OverIsKeyed(rows: seq<Slice>, at: nat, value: Slice)
    requires at < |rows|
    ensures rows[at := value] == KeyedUpdate(rows, value.alias, value) <==> PutsKeyed(rows, Span(at, at + 1), value)
  {
    var k := FirstRow(rows, Own(value.alias));
    if k < |rows| && k != at && rows[at := value] == rows[k := value] {
      assert rows[at := value][at] == rows[k := value][at] && rows[at := value][k] == rows[k := value][k];
    }
    if k < |rows| && rows[k] == value && rows[at] == value {
      assert rows[at := value] == rows && rows[k := value] == rows;
    }
    if k == |rows| {
      assert |rows[at := value]| < |[value] + rows|;
    }
  }

  lemma InsertIsKeyed(rows: seq<Slice>, at: nat, value: Slice)
    requires at <= |rows|
    ensures PutRow(rows, Span(at, at), value) == KeyedUpdate(rows, value.alias, value)
       <==> PutsKeyed(rows, Span(at, at), value)
  {
    var k := FirstRow(rows, Own(value.alias));
    var put := PutRow(rows, Span(at, at), value);
    if k < |rows| {
      assert |put| > |rows[k := value]|;
    } else if at == 0 {
      PutInFront(rows, value);
    } else {
      assert put[0] == rows[0] && ([value] + rows)[0] == value;
      assert !Own(value.alias)(rows[0]);
    }
  }

  lemma PutRowIsKeyed(rows: seq<Slice>, span: Span, value: Slice)
    requires Within(span, rows)
    ensures PutRow(rows, span, value) == KeyedUpdate(rows, value.alias, value) <==> PutsKeyed(rows, span, value)
  {
    if span.from < span.to {
      assert span == Span(span.from, span.from + 1);
      assert PutRow(rows, span, value) == rows[span.from := value];
      OverIsKeyed(rows, span.from, value);
    } else {
      assert span == Span(span.from, span.from);
      InsertIsKeyed(rows, span.from, value);
    }
  }

  /** Whether the table read after an upsert is the map update of the one before: by the rows in front of the
      lines, the lines, and the line that mentions the alias first. */
  predicate UpdatesMap(read: Reader, front: seq<Slice>, lines: seq<string>, mention: string, value: Slice)
    requires lines != []
  {
    var i, table := FirstMention(lines, mention), front + Rows(read, lines);
    var span, k := Shift(Place(read, lines, mention), |front|), FirstRow(front, Own(value.alias));
    if !OpensSection(lines[0]) then Within(span, table) && PutsKeyed(table, span, value)
    else if 0 < i < |lines| then k < |front| && front[k] == value
    else front == [] && (i == 0 ==> Rows(read, lines[1..]) == [])
  }

  lemma TablePut(front: seq<Slice>, rows: seq<Slice>, with: seq<Slice>, table: seq<Slice>, after: seq<Slice>,
                 span: Span, value: Slice)
    requires table == front + rows && after == front + with && Within(span, rows) && with == PutRow(rows, span, value)
    ensures Within(Shift(span, |front|), table) && after == PutRow(table, Shift(span, |front|), value)
  {
    PutBehind(front, rows, span, value);
  }

  lemma TableIsKeyed(front: seq<Slice>, rows: seq<Slice>, with: seq<Slice>, span: Span, value: Slice)
    requires Within(span, rows) && with == PutRow(rows, span, value)
    ensures Within(Shift(span, |front|), front + rows)
    ensures front + with == KeyedUpdate(front + rows, value.alias, value)
       <==> PutsKeyed(front + rows, Shift(span, |front|), value)
  {
    PutBehind(front, rows, span, value);
    PutRowIsKeyed(front + rows, Shift(span, |front|), value);
  }

  lemma AppendIsKeyed(front: seq<Slice>, tail: seq<Slice>, value: Slice)
    ensures front + ([value] + tail) == KeyedUpdate(front, value.alias, value) <==> front == [] && tail == []
    ensures front == KeyedUpdate(front, value.alias, value)
       <==> var k := FirstRow(front, Own(value.alias)); k < |front| && front[k] == value
  {
    var k := FirstRow(front, Own(value.alias));
    if k < |front| {
      assert |front + ([value] + tail)| > |front[k := value]|;
      assert front[k := value][k] == value;
    } else if front != [] {
      assert (front + ([value] + tail))[0] == front[0] && !Own(value.alias)(front[0]);
      assert ([value] + front)[0] == value;
    }
  }

  lemma ReadWithIsKeyed(read: Reader, front: seq<Slice>, lines: seq<string>, mention: string, value: Slice)
    requires lines != [] && (OpensSection(lines[0]) ==> read(lines[0]) == None)
    ensures front + ReadWith(read, lines, mention, value)
         == KeyedUpdate(front + if OpensSection(lines[0]) then [] else Rows(read, lines), value.alias, value)
       <==> UpdatesMap(read, front, lines, mention, value)
  {
    var i := FirstMention(lines, mention);
    if !OpensSection(lines[0]) {
      WithPutsRow(read, lines, mention, value);
      TableIsKeyed(front, Rows(read, lines), RowsWith(read, lines, mention, value), Place(read, lines, mention), value);
    } else {
      assert front + [] == front;
      AppendIsKeyed(front, if i == 0 then Rows(read, lines[1..]) else [], value);
      if i == 0 {
        assert lines[..0] == [] && [] + [value] == [value];
      } else {
        assert [value] + [] == [value];
      }
    }
  }

  lemma HeadingIsNoRow(line: string)
    requires OpensSection(line)
    ensures RowOf(line) == None
  {
    assert line[..3] == "## " && line[0] == line[..3][0];
    TrimRightKeeps(IsSpace, line);
  }

  /** For every document whose text behind the heading is as long as the header, ends a line and closes no
      section, the table read after an upsert is the update of the map keyed by alias if and only if the line
      that mentions the alias first is right for that: see UpdatesMap. */
  lemma UpsertIsMapUpdateExactly(pre: string, gap: string, rest: string, l: Slice)
    requires HeadingFound(pre, gap, rest) && EndsLine(gap) && Writable(l)
    ensures Parse(Upsert(Sectioned(pre, gap, rest), l))
         == KeyedUpdate(Parse(Sectioned(pre, gap, rest)), l.alias, Canon(l))
       <==> UpdatesMap(RowOf, Rows(RowOf, Split('\n', gap)), SectionLines(rest), Mention(l.alias), Canon(l))
  {
    UpsertThenParse(pre, gap, rest, l);
    SectionLinesPlain(rest);
    if OpensSection(rest) {
      HeadingIsNoRow(SectionLines(rest)[0]);
    }
    ReadWithIsKeyed(RowOf, Rows(RowOf, Split('\n', gap)), SectionLines(rest), Mention(l.alias), Canon(l));
  }

  /** Whatever the rows look like: unless another section follows directly, the link takes the place of the row
      of the line that mentions the alias first, or is put in at that line, and all other rows stay in order. */
  lemma UpsertPutsRow(pre: string, gap: string, rest: string, l: Slice)
    requires HeadingFound(pre, gap, rest) && EndsLine(gap) && Writable(l) && !OpensSection(rest)
    ensures var table, n := Parse(Sectioned(pre, gap, rest)), |Rows(RowOf, Split('\n', gap))|;
            var span := Shift(Place(RowOf, SectionLines(rest), Mention(l.alias)), n);
            Within(span, table) && Parse(Upsert(Sectioned(pre, gap, rest), l)) == PutRow(table, span, Canon(l))
  {
    var lines, mention := SectionLines(rest), Mention(l.alias);
    UpsertThenParse(pre, gap, rest, l);
    SectionLinesPlain(rest);
    WithPutsRow(RowOf, lines, mention, Canon(l));
    TablePut(Rows(RowOf, Split('\n', gap)), Rows(RowOf, lines), RowsWith(RowOf, lines, mention, Canon(l)),
             Parse(Sectioned(pre, gap, rest)), Parse(Upsert(Sectioned(pre, gap, rest), l)),
             Place(RowOf, lines, mention), Canon(l));
  }

  /** A row of the alias itself that upsert did not render, here with a blank more in a cell, is not found: the
      alias is listed twice. */
  lemma PaddedRowListedTwice(l: Slice)
    requires Writable(l) && Canon(l) == l && l.alias != l.task && l.alias != l.target && l.alias != l.status
    ensures var d := Document("", PaddedLine(l)); Parse(d) == [l] && Parse(Upsert(d, l)) == [l, l]
  {
    var line := PaddedLine(l);
    PaddedReads(l);
    PaddedUnmentioned(l);
    PaddedOnOneLine(l);
    OneLineSection(line);
    HeadingFirst(line);
    UpsertCanonical("", line, l);
    SectionLinesPlain(line);
    TwiceListed(RowOf, line, Mention(l.alias), l);
  }

  lemma TwiceListed(read: Reader, line: string, mention: string, value: Slice)
    requires read(line) == Some(value) && !Contains(line, mention) && !OpensSection(line)
    ensures Rows(read, [line]) == [value] && ReadWith(read, [line], mention, value) == [value, value]
  {
    RowsOfOneLine(read, line);
    assert FirstMention([line], mention) == 1;
    assert [value] + [value] == [value, value];
  }

  lemma PaddedOnOneLine(l: Slice)
    requires Writable(l) && Canon(l) == l
    ensures '\n' !in PaddedLine(l) && !OpensSection(PaddedLine(l))
  {
    assert forall part :: part in PaddedParts(l) ==> '\n' !in part;
    JoinFree(PaddedParts(l));
    assert PaddedLine(l)[0] == '|';
  }

  lemma OneLineSection(line: string)
    requires '\n' !in line
    ensures SectionLines(line) == [line]
  {
    SplitFree('\n', line);
    SectionIsVisible(line);
  }

  // ---------------------------------------------------------------- repeated upserts

  lemma {:induction false} FirstMentionIs(lines: seq<string>, mention: string, i: nat)
    requires i < |lines| && Contains(lines[i], mention) && forall k :: 0 <= k < i ==> !Contains(lines[k], mention)
    ensures FirstMention(lines, mention) == i
  {
    if i > 0 {
      FirstMentionIs(lines[1..], mention, i - 1);
    }
  }

  /** Writing the same row again into lines it was written into changes nothing. */
  lemma UpsertLinesTwice(lines: seq<string>, mention: string, row: string)
    requires Contains(row, mention) && row != ""
    ensures var lines' := Compact(UpsertLines(lines, mention, row)) + [""]; UpsertLines(lines', mention, row) == lines'
  {
    var once := UpsertLines(lines, mention, row);
    var i := FirstMention(lines, mention);
    var at := if i < |lines| then i else 0;
    assert once[at] == row;
    CompactKeepsUpTo(once, at);
    var lines' := Compact(once) + [""];
    assert lines'[at] == once[..at + 1][at] == row;
    forall k | 0 <= k < at ensures !Contains(lines'[k], mention) {
      assert lines'[k] == once[..at + 1][k] == lines[k];
    }
    FirstMentionIs(lines', mention, at);
  }

  lemma RewrittenTwice(rest: string, mention: string, row: string)
    requires PlainRow(row) && Contains(row, mention) && !Displaces(rest, mention)
    ensures var once := Rewritten(rest, mention, row); Rewritten(once, mention, row) == once
  {
    var lines := UpsertLines(SectionLines(rest), mention, row);
    RewrittenSection(rest, mention, row);
    SectionLinesPlain(rest);
    UpsertedPlain(SectionLines(rest), mention, row);
    UpsertLinesTwice(SectionLines(rest), mention, row);
    RebuildTwice(lines);
  }

  /** A row put in front of a section ends the lines that are searched: the row without its newline. */
  lemma RowInFront(rest: string, mention: string, row: string) returns (tail: string)
    requires PlainRow(row) && Displaces(rest, mention)
    ensures SectionMark <= tail && Rewritten(rest, mention, row) == row + tail
  {
    var lines, post := SectionLines(rest), rest[|SectionText(rest)|..];
    SectionLinesPlain(rest);
    assert lines[0] != "";
    RebuildInFront(row, lines);
    PrefixOfFirstLine(Rebuild(lines), "## ");
    tail := "\n" + Rebuild(lines) + post;
    LineOpens(Rebuild(lines), post);
    InFrontAndBehind(row, Rebuild(lines), post);
  }

  lemma LineOpens(text: string, post: string)
    requires OpensSection(text)
    ensures SectionMark <= "\n" + text + post
  {
    var tail := "\n" + text + post;
    MarkStep(tail);
    assert tail[1..] == text + post;
    RunOnOpens(text, post);
  }

  lemma InFrontAndBehind(row: string, text: string, post: string)
    ensures (row + "\n" + text) + post == row + ("\n" + text + post)
  {
  }

  lemma RebuildInFront(row: string, lines: seq<string>)
    requires PlainRow(row) && LinesOfText(lines) && lines != [] && lines[0] != ""
    ensures Rebuild([row] + lines) == row + "\n" + Rebuild(lines)
    ensures Split('\n', Rebuild(lines))[0] == lines[0]
  {
    var kept := Compact(lines);
    CompactKeepsUpTo(lines, 0);
    CompactInFront(row, lines);
    TrimJoined(lines);
    TrimJoined([row] + lines);
    assert ([row] + kept)[1..] == kept;
    RebuildLines(lines);
    CompactPart(lines);
    JoinNonblank(kept);
    assert Join('\n', [row] + kept) == row + "\n" + Join('\n', kept);
  }

  lemma {:induction false} CompactInFront(row: string, lines: seq<string>)
    requires Compact(lines) != []
    ensures Compact([row] + lines) == [row] + Compact(lines)
  {
    var n := |lines| - 1;
    if lines[n] == "" {
      assert ([row] + lines)[..n + 1] == [row] + lines[..n];
      CompactInFront(row, lines[..n]);
    }
  }

  lemma RowLines(row: string, tail: string)
    requires PlainRow(row) && SectionMark <= tail
    ensures SectionText(row + tail) == row && SectionLines(row + tail) == [row]
    ensures SectionText(row + "\n" + tail) == row + "\n" && SectionLines(row + "\n" + tail) == [row, ""]
  {
    SplitFree('\n', row);
    SectionlessLines(row);
    SectionTextBefore(row, tail);
    SectionTextAll(row);
    LineThen(row, "");
    assert row + "\n" + "" == row + "\n" && Split('\n', "") == [""];
    SectionlessLines(row + "\n");
    assert [row, ""][1..] == [""];
    SectionTextOf(row + "\n", tail);
  }

  lemma SectionTextAll(text: string)
    requires Sectionless(text)
    ensures SectionText(text) == text
  {
  }

  lemma RebuildRow(row: string)
    requires PlainRow(row)
    ensures Rebuild([row]) == row + "\n" && Rebuild([row, ""]) == row + "\n"
  {
    TrimJoined([row]);
    TrimJoined([row, ""]);
    assert [row, ""][..1] == [row];
  }

  lemma RewrittenRow(row: string, tail: string, mention: string)
    requires PlainRow(row) && Contains(row, mention) && SectionMark <= tail
    ensures Rewritten(row + tail, mention, row) == row + "\n" + tail
    ensures Rewritten(row + "\n" + tail, mention, row) == row + "\n" + tail
  {
    RowLines(row, tail);
    RebuildRow(row);
    FirstMentionIs([row], mention, 0);
    FirstMentionIs([row, ""], mention, 0);
    assert [row][0 := row] == [row] && [row, ""][0 := row] == [row, ""];
    assert (row + tail)[|row|..] == tail && (row + "\n" + tail)[|row + "\n"|..] == tail;
  }

  /** Writing a row again and again into a document with the heading reaches a fixed document at the second
      time at the latest, and at the first unless a section was displaced. */
  lemma WriteTwice(pre: string, gap: string, rest: string, mention: string, row: string)
    requires HeadingFound(pre, gap, rest) && PlainRow(row) && Contains(row, mention)
    ensures var once := WriteInto(Sectioned(pre, gap, rest), mention, row);
            var twice := WriteInto(once, mention, row);
            (twice == once <==> !Displaces(rest, mention)) && WriteInto(twice, mention, row) == twice
  {
    var once := Rewritten(rest, mention, row);
    var twice := Rewritten(once, mention, row);
    WriteIntoSectioned(pre, gap, rest, mention, row);
    WriteIntoSectioned(pre, gap, once, mention, row);
    WriteIntoSectioned(pre, gap, twice, mention, row);
    if Displaces(rest, mention) {
      var tail := RowInFront(rest, mention, row);
      RewrittenRow(row, tail, mention);
      assert |Sectioned(pre, gap, once)| < |Sectioned(pre, gap, twice)|;
    } else {
      RewrittenTwice(rest, mention, row);
    }
  }

  /** Upsert is idempotent on a document with the heading exactly when it displaces no section; the third time
      never changes anything. */
  lemma UpsertTwice(pre: string, gap: string, rest: string, l: Slice)
    requires HeadingFound(pre, gap, rest) && Writable(l)
    ensures var once := Upsert(Sectioned(pre, gap, rest), l);
            var twice := Upsert(once, l);
            (twice == once <==> !Displaces(rest, Mention(l.alias))) && Upsert(twice, l) == twice
  {
    WritablePlain(l);
    RowMentions(l, l.alias);
    WriteTwice(pre, gap, rest, Mention(l.alias), RowLine(l));
  }

  // ---------------------------------------------------------------- the first upsert

  /** Where a new section goes: before the notes if there are any, else at the end. */
  function InsertPoint(body: string): (string, string) {
    var notes := Index(body, NotesMark);
    if 0 <= notes <= |body| then (body[..notes], body[notes..])
    else if body != "" && body[|body| - 1] == '\n' then (body, "")
    else (body + "\n", "")
  }

  /** No notes, and the text ends in a section heading whose newline is missing. */
  predicate DanglingHeading(body: string) {
    Index(body, NotesMark) < 0 && |body| >= |Heading| + 1 && body[|body| - |Heading| - 1..] == "\n" + Heading
  }

  lemma NewSectionDocument(body: string, row: string)
    ensures NewSection(body, row) == Document(InsertPoint(body).0, row + "\n" + "\n" + InsertPoint(body).1)
  {
    var (pre, post) := InsertPoint(body);
    assert NewSection(body, row) == pre + ("\n" + Header() + row + "\n" + "\n") + post;
  }

  /** A heading line inside pre, newline, heading line ... lies in pre or ends exactly at its end. */
  lemma HeadingPlace(h: string, pre: string, tail: string, j: int)
    requires '\n' !in h && 0 <= j < |pre|
    requires At(pre + ("\n" + h + "\n") + tail, j, "\n" + h + "\n")
    ensures At(pre, j, "\n" + h + "\n") || (j + 1 + |h| == |pre| && pre[j..] == "\n" + h)
  {
    var pat := "\n" + h + "\n";
    var d := pre + pat + tail;
    var w := d[j..j + |pat|];
    if j + |pat| <= |pre| {
      assert pre[j..j + |pat|] == w;
    } else {
      var offset := |pre| - j;
      assert w == pat && d[|pre|] == pat[0] == '\n';
      assert d[j..j + |pat|][offset] == d[j + offset];
      assert pat[offset] == '\n' && offset > 0;
      assert offset == |h| + 1 by {
        assert forall k :: 0 < k < |h| + 1 ==> pat[k] == h[k - 1] && h[k - 1] in h;
      }
      assert pre[j..] == d[j..j + |pat|][..offset];
      assert pat[..|h| + 1] == "\n" + h;
    }
  }

  /** Unless the document ends in a dangling heading, the heading of a new section is the one found. */
  lemma NewSectionFound(body: string, rest: string)
    requires Index(body, HeadingMark()) < 0 && !DanglingHeading(body)
    ensures Index(Document(InsertPoint(body).0, rest), HeadingMark()) == |InsertPoint(body).0|
  {
    var (pre, post) := InsertPoint(body);
    var d := Document(pre, rest);
    DocumentSectioned(pre, rest);
    Placed(pre, HeadingMark(), Table(), rest);
    assert d == pre + HeadingMark() + (Table() + rest);
    forall j | 0 <= j < |pre| ensures !At(d, j, HeadingMark()) {
      NoHeadingBefore(body, Table() + rest, j);
    }
    IndexAt(d, HeadingMark(), |pre|);
  }

  lemma NoHeadingBefore(body: string, tail: string, j: nat)
    requires Index(body, HeadingMark()) < 0 && !DanglingHeading(body) && j < |InsertPoint(body).0|
    ensures !At(InsertPoint(body).0 + HeadingMark() + tail, j, HeadingMark())
  {
    var pre := InsertPoint(body).0;
    if At(pre + HeadingMark() + tail, j, HeadingMark()) {
      HeadingPlace(Heading, pre, tail, j);
      HeadingAtEnd(Heading, body, j);
    }
  }

  /** In front of a new section a heading can only stand where the document dangles one. */
  lemma HeadingAtEnd(h: string, body: string, j: int)
    requires h == Heading && Index(body, HeadingMark()) < 0 && 0 <= j
    ensures var pre := InsertPoint(body).0;
            At(pre, j, "\n" + h + "\n") || (j + 1 + |h| == |pre| && pre[j..] == "\n" + h) ==> DanglingHeading(body)
  {
    var (pre, post) := InsertPoint(body);
    IndexIsFirst(body, HeadingMark());
    assert !At(body, j, "\n" + h + "\n");
    assert h[|h| - 1] == 's';
    InsertPointPost(body);
    assert SectionMark[0] == '\n';
    HeadingAtEndOf(h, body, pre, post, j);
  }

  lemma HeadingAtEndOf(h: string, body: string, pre: string, post: string, j: int)
    requires 0 <= j && h != "" && h[|h| - 1] != '\n' && !At(body, j, "\n" + h + "\n")
    requires (pre + post == body && (post != "" ==> post[0] == '\n')
              && (post == "" ==> pre != "" && pre[|pre| - 1] == '\n'))
             || (post == "" && pre == body + "\n")
    ensures At(pre, j, "\n" + h + "\n") || (j + 1 + |h| == |pre| && pre[j..] == "\n" + h) ==>
              post == "" && pre == body + "\n" && j + 1 + |h| == |body| && body[j..] == "\n" + h
  {
    var pat := "\n" + h + "\n";
    assert pat[..|h| + 1] == "\n" + h && ("\n" + h)[|h|] == h[|h| - 1];
    if j + |pat| <= |pre| && j + |pat| <= |body| {
      assert pre[j..j + |pat|] == body[j..j + |pat|];
    } else if j + |pat| <= |pre| {
      assert pre[j..j + |pat|] == body[j..] + "\n";
      assert (body[j..] + "\n")[..|h| + 1] == body[j..];
    } else if j + 1 + |h| == |pre| {
      assert pre[|pre| - 1] == pre[j..][|h|];
      assert post != "" ==> body[j..j + |pat|] == pre[j..] + [post[0]];
    }
  }

  lemma SectionOfNewRow(row: string, post: string)
    requires PlainRow(row) && (post == "" || SectionMark <= post)
    ensures SectionText(row + "\n" + "\n" + post) == row + "\n" + "\n"
    ensures SectionLines(row + "\n" + "\n" + post) == [row, "", ""]
    ensures !OpensSection(row + "\n" + "\n" + post)
  {
    var text := row + "\n" + "\n";
    assert text == row + "\n" + "" + "\n" + "";
    TwoLines(row, "", "");
    assert Split('\n', "") == [""];
    SectionlessLines(text);
    assert [row, "", ""][1..] == ["", ""];
    SectionTextOf(text, post);
  }

  lemma InsertPointPost(body: string)
    ensures var (pre, post) := InsertPoint(body);
            && (post == "" || SectionMark <= post)
            && (pre + post == body || (post == "" && pre == body + "\n"))
            && (post == "" <==> Index(body, NotesMark) < 0)
            && (post == "" && pre == body ==> pre != "" && pre[|pre| - 1] == '\n')
  {
    NotesOpenSection();
    CutAtMark(body, NotesMark, SectionMark);
    InsertPointSplits(body);
  }

  lemma NotesOpenSection()
    ensures SectionMark <= NotesMark
  {
    assert NotesMark == SectionMark + "Notes";
  }

  lemma CutAtMark(body: string, mark: string, opening: string)
    requires mark != "" && opening <= mark
    ensures var k := Index(body, mark);
            -1 <= k && (k >= 0 ==> k < |body| && opening <= body[k..])
  {
    var k := Index(body, mark);
    IndexIsFirst(body, mark);
    if k >= 0 {
      var post := body[k..];
      assert post[..|mark|] == mark;
      assert post[..|mark|][..|opening|] == post[..|opening|];
    }
  }

  /** A new section is read back as the one link exactly when the document did not end in a dangling
      heading; then the text before and after the new section is the old document. */
  lemma FirstUpsertParses(body: string, l: Slice)
    requires Index(body, HeadingMark()) < 0 && Writable(l)
    ensures Parse(Upsert(body, l)) == if DanglingHeading(body) then [] else [Canon(l)]
    ensures !DanglingHeading(body) ==> Upsert(body, l) == NewSection(body, RowLine(l)) && Inserted(body, RowLine(l))
  {
    WritablePlain(l);
    RowReadsBack(l);
    FirstWrite(body, RowLine(l), Canon(l));
  }

  /** Where a new section stands: the text around it is the old document. */
  ghost predicate Inserted(body: string, row: string) {
    var (pre, post) := InsertPoint(body);
    && NewSection(body, row) == Document(pre, row + "\n" + "\n" + post)
    && CanonicalParts(pre, row + "\n" + "\n" + post)
    && (pre + post == body || pre + post == body + "\n")
  }

  lemma InsertPointSplits(body: string)
    ensures var (pre, post) := InsertPoint(body); pre + post == body || (post == "" && pre == body + "\n")
  {
    if 0 <= Index(body, NotesMark) <= |body| {
      Halves(body, Index(body, NotesMark));
    }
  }

  lemma Halves(s: string, k: nat)
    requires k <= |s|
    ensures s[..k] + s[k..] == s
  {
  }

  lemma NewSectionPlaces(body: string, row: string)
    requires Index(body, HeadingMark()) < 0 && PlainRow(row) && !DanglingHeading(body)
    ensures Inserted(body, row)
  {
    var (pre, post) := InsertPoint(body);
    InsertPointPost(body);
    InsertPointSplits(body);
    NewSectionDocument(body, row);
    SectionOfNewRow(row, post);
    NewSectionFound(body, row + "\n" + "\n" + post);
  }

  lemma NewSectionRead(body: string, row: string, value: Slice)
    requires PlainRow(row) && RowOf(row) == Some(value) && Inserted(body, row)
    ensures Parse(NewSection(body, row)) == [value]
  {
    var (pre, post) := InsertPoint(body);
    InsertPointPost(body);
    SectionOfNewRow(row, post);
    NewRowRead(pre, row + "\n" + "\n" + post, row, value);
  }

  lemma FirstWrite(body: string, row: string, value: Slice)
    requires Index(body, HeadingMark()) < 0 && PlainRow(row) && RowOf(row) == Some(value)
    ensures Parse(NewSection(body, row)) == if DanglingHeading(body) then [] else [value]
    ensures !DanglingHeading(body) ==> Inserted(body, row)
  {
    if DanglingHeading(body) {
      DanglingUnread(body, row);
    } else {
      NewSectionPlaces(body, row);
      NewSectionRead(body, row, value);
    }
  }

  lemma DanglingInsert(body: string, h: string)
    requires h == Heading && DanglingHeading(body) && h != "" && h[|h| - 1] != '\n'
    ensures InsertPoint(body) == (body + "\n", "")
  {
    assert body[|body| - |h| - 1..] == "\n" + h;
    assert body[|body| - 1] == ("\n" + h)[|h|] == h[|h| - 1];
  }

  lemma DanglingUnread(body: string, row: string)
    requires Index(body, HeadingMark()) < 0 && DanglingHeading(body)
    ensures Parse(NewSection(body, row)) == []
  {
    HeadingEnds();
    DanglingInsert(body, Heading);
    NewSectionDocument(body, row);
    DanglingLosesLink(body, row + "\n" + "\n" + "");
  }

  lemma HeadingEnds()
    ensures Heading != "" && Heading[|Heading| - 1] != '\n'
  {
    assert Heading == "## " + SectionTitle;
    assert SectionTitle[|SectionTitle| - 1] != '\n';
  }

  lemma NewRowRead(pre: string, rest: string, row: string, value: Slice)
    requires CanonicalParts(pre, rest) && PlainRow(row) && RowOf(row) == Some(value)
             && SectionLines(rest) == [row, "", ""]
    ensures Parse(Document(pre, rest)) == [value]
  {
    ParseDocument(pre, rest);
    SectionLinesPlain(rest);
    BlankIsNoRow();
    RowsOfNew(RowOf, row, value);
  }

  lemma RowsOfNew(read: Reader, row: string, value: Slice)
    requires read(row) == Some(value)
    ensures read("") == None ==> Rows(read, [row, "", ""]) == [value]
  {
    assert [row, "", ""][1..] == ["", ""];
    if read("") == None {
      RowsOfBlank(read, ["", ""]);
    }
  }

  lemma DanglingFound(body: string, h: string, tail: string)
    requires h == Heading && Index(body, HeadingMark()) < 0
    requires |body| >= |h| + 1 && body[|body| - |h| - 1..] == "\n" + h
    ensures var d := body + "\n" + tail;
            var at := |body| - |h| - 1;
            Index(d, HeadingMark()) == at && at + |HeadingMark()| <= |d| && d[at + |HeadingMark()|..] == tail
  {
    var d := body + "\n" + tail;
    var at := |body| - |h| - 1;
    var pat := "\n" + h + "\n";
    assert d[at..at + |pat|] == body[at..] + "\n" == pat;
    IndexIsFirst(body, HeadingMark());
    forall j | 0 <= j < at ensures !At(d, j, pat) {
      assert d[..|body|] == body;
      AtStable(body, d, pat, |body|, j);
    }
    IndexAt(d, pat, at);
  }

  lemma DanglingLosesLink(body: string, rest: string)
    requires Index(body, HeadingMark()) < 0 && DanglingHeading(body)
    ensures Parse(Document(body + "\n", rest)) == []
  {
    var tail := HeaderTail(rest);
    HeaderTailBehind(body + "\n", rest);
    DanglingFound(body, Heading, tail);
    TailOpens(rest);
    EmptyTextRead();
  }

  lemma EmptyTextRead()
    ensures Rows(RowOf, Split('\n', "")) == []
  {
    BlankIsNoRow();
    assert Split('\n', "") == [""];
    RowsOfBlank(RowOf, [""]);
  }

  lemma Reassociate(x: string, a: string, b: string, t: string, rest: string)
    ensures x + "\n" + ((a + b) + "\n" + t) + rest == x + (("\n" + a) + (b + "\n" + t + rest))
  {
  }

  lemma HeaderTailBehind(x: string, rest: string)
    ensures x + "\n" + Header() + rest == x + HeaderTail(rest)
  {
    Reassociate(x, "## ", SectionTitle, Table(), rest);
  }

  /** The header on its own line, and what follows it. */
  function HeaderTail(rest: string): string {
    SectionMark + (SectionTitle + "\n" + Table() + rest)
  }

  lemma MarkOpens(x: string)
    ensures SectionMark <= SectionMark + x && SectionText(SectionMark + x) == ""
  {
  }

  lemma TailOpens(rest: string)
    ensures SectionMark <= HeaderTail(rest) && SectionText(HeaderTail(rest)) == ""
  {
    MarkOpens(SectionTitle + "\n" + Table() + rest);
  }

  /** Upserting a link again and again reaches a fixed document: the second time drops one of the blank
      lines the first time left, the third time changes nothing. */
  lemma RepeatedUpsert(body: string, l: Slice)
    requires Index(body, HeadingMark()) < 0 && !DanglingHeading(body) && Writable(l)
    ensures var once := Upsert(body, l);
            var twice := Upsert(once, l);
            twice != once && Upsert(twice, l) == twice
  {
    var (pre, post) := InsertPoint(body);
    FirstUpsertParses(body, l);
    WritablePlain(l);
    RowMentions(l, l.alias);
    InsertPointPost(body);
    SectionOfNewRow(RowLine(l), post);
    NewRowTwice(pre, RowLine(l) + "\n" + "\n" + post, l);
    SecondWrite(pre, post, Mention(l.alias), RowLine(l));
  }

  lemma NewRowTwice(pre: string, rest: string, l: Slice)
    requires CanonicalParts(pre, rest) && !OpensSection(rest) && Writable(l)
    ensures var once := Upsert(Document(pre, rest), l); Upsert(once, l) == once
  {
    DocumentSectioned(pre, rest);
    UpsertTwice(pre, Table(), rest, l);
  }

  lemma SecondWrite(pre: string, post: string, mention: string, row: string)
    requires PlainRow(row) && Contains(row, mention) && (post == "" || SectionMark <= post)
    requires CanonicalParts(pre, row + "\n" + "\n" + post)
    ensures WriteInto(Document(pre, row + "\n" + "\n" + post), mention, row) == Document(pre, row + "\n" + post)
    ensures Document(pre, row + "\n" + post) != Document(pre, row + "\n" + "\n" + post)
  {
    var rest := row + "\n" + "\n" + post;
    SectionOfNewRow(row, post);
    WriteIntoDocument(pre, rest, mention, row);
    FirstMentionIs([row, "", ""], mention, 0);
    assert [row, "", ""][0 := row] == [row, "", ""];
    RebuildNew(row);
    assert rest[|row + "\n" + "\n"|..] == post;
    ShorterRest(pre, row + "\n" + post, rest);
  }

  lemma ShorterRest(pre: string, a: string, b: string)
    requires |a| < |b|
    ensures Document(pre, a) != Document(pre, b)
  {
    assert |Document(pre, a)| < |Document(pre, b)|;
  }

  lemma RebuildNew(row: string)
    requires PlainRow(row)
    ensures Rebuild([row, "", ""]) == row + "\n"
  {
    TrimJoined([row, "", ""]);
    assert [row, "", ""][..2] == [row, ""] && [row, ""][..1] == [row];
    assert Compact([row, ""]) == Compact([row]);
  }

  lemma MarkStays(body: string, tail: string, mark: string)
    requires 0 <= Index(body, mark)
    ensures TextBehind(body, mark).Some?
    ensures TextBehind(body + tail, mark) == Some(TextBehind(body, mark).value + tail)
  {
    IndexStays(body, tail, mark);
    MarkStaysAt(body, body + tail, tail, mark, Index(body, mark));
  }

  lemma MarkStaysAt(body: string, longer: string, tail: string, mark: string, k: nat)
    requires longer == body + tail && Index(body, mark) == Index(longer, mark) == k && k + |mark| <= |body|
    ensures TextBehind(body, mark).Some? && TextBehind(longer, mark) == Some(TextBehind(body, mark).value + tail)
  {
    TextBehindAt(body, mark, k);
    TextBehindAt(longer, mark, k);
    BehindStays(body, tail, k + |mark|);
  }

  lemma IndexStays(body: string, tail: string, mark: string)
    requires 0 <= Index(body, mark)
    ensures Index(body + tail, mark) == Index(body, mark) && Index(body, mark) + |mark| <= |body|
  {
    IndexIsFirst(body, mark);
    BehindStays(body, tail, |body|);
    IndexStable(body, body + tail, mark, |body|);
  }

  lemma TextBehindAt(s: string, mark: string, k: nat)
    requires Index(s, mark) == k && k + |mark| <= |s|
    ensures TextBehind(s, mark) == Some(s[k + |mark|..])
  {
  }

  lemma BehindStays(body: string, tail: string, n: nat)
    requires n <= |body|
    ensures (body + tail)[n..] == body[n..] + tail && (body + tail)[..|body|] == body[..|body|]
  {
  }

  /** Text appended behind a document that has the heading is not read once it opens a section. */
  lemma AppendedSectionUnread(body: string, tail: string)
    requires 0 <= Index(body, HeadingMark()) && SectionMark <= tail
    ensures Parse(body + tail) == Parse(body)
  {
    MarkStays(body, tail, HeadingMark());
    var rest := TextBehind(body, HeadingMark()).value;
    SectionTextBefore(rest, tail);
    SectionFollows(rest + tail, rest);
  }

  /** What is read depends only on the text of the section. */
  lemma SectionFollows(a: string, b: string)
    requires SectionText(a) == SectionText(b)
    ensures ParseSection(a) == ParseSection(b)
  {
  }

  /** The section under the heading ends before a table header could: the text stops, or the next section
      starts, within the header's length. */
  predicate EndsEarly(body: string) {
    var from := Index(body, HeadingMark()) + |HeadingMark()|;
    0 <= Index(body, HeadingMark()) && from <= |body|
        && (from + |Table()| > |body| || !Sectionless(body[from..from + |Table()|]))
  }

  /** When the section under the heading ends that early, upsert writes where parse never looks: the link is
      lost, and nothing that is read changes. */
  lemma ShortSectionLosesLink(body: string, l: Slice)
    requires EndsEarly(body)
    ensures Parse(Upsert(body, l)) == Parse(body)
  {
    HeaderLength();
    if Index(body, HeadingMark()) + 1 + |Header()| > |body| {
      var rest := RowLine(l) + "\n";
      TailOpens(rest);
      WriteBehindShort(body, Mention(l.alias), RowLine(l));
      AppendedSectionUnread(body, HeaderTail(rest));
    } else {
      var pre, gap, rest := EverySectioned(body);
      Placed(pre, HeadingMark(), gap, rest);
      assert gap == (gap + rest)[..|gap|];
      WriteIntoSectioned(pre, gap, rest, Mention(l.alias), RowLine(l));
      ParseClosed(pre, gap, rest);
      ParseClosed(pre, gap, Rewritten(rest, Mention(l.alias), RowLine(l)));
    }
  }

  lemma ParseClosed(pre: string, gap: string, rest: string)
    requires HeadingFound(pre, gap, rest) && !Sectionless(gap)
    ensures Parse(Sectioned(pre, gap, rest)) == ParseSection(gap)
  {
    Placed(pre, HeadingMark(), gap, rest);
    TextBehindAt(Sectioned(pre, gap, rest), HeadingMark(), |pre|);
    SectionTextClosed(gap, rest);
    SectionFollows(gap + rest, gap);
  }

  lemma WriteBehindShort(body: string, mention: string, row: string)
    requires 0 <= Index(body, HeadingMark()) && Index(body, HeadingMark()) + 1 + |Header()| > |body|
    ensures WriteInto(body, mention, row) == body + HeaderTail(row + "\n")
  {
    HeaderTailBehind(body, row + "\n");
    RowBehind(body, Header(), row);
  }

  lemma RowBehind(body: string, header: string, row: string)
    ensures body + "\n" + header + row + "\n" == body + "\n" + header + (row + "\n")
  {
  }

  // ---------------------------------------------------------------- whole runs of upserts

  function UpsertAll(body: string, links: seq<Slice>): string
    decreases |links|
  {
    if links == [] then body else UpsertAll(Upsert(body, links[0]), links[1..])
  }

  function PutAll(rows: seq<Slice>, links: seq<Slice>): seq<Slice>
    decreases |links|
  {
    if links == [] then rows else PutAll(PutAt(rows, MentionOf(links[0].alias), Canon(links[0])), links[1..])
  }

  function KeyedAll(rows: seq<Slice>, links: seq<Slice>): seq<Slice>
    decreases |links|
  {
    if links == [] then rows else KeyedAll(KeyedUpdate(rows, links[0].alias, Canon(links[0])), links[1..])
  }

  lemma CanonTwice(l: Slice)
    ensures Canon(Canon(l)) == Canon(l) && RowLine(Canon(l)) == RowLine(l)
    ensures Writable(l) ==> Writable(Canon(l))
  {
    CanonTrimmed(l);
    var c := Canon(l);
    TrimReaches(IsSpace, c.alias);
    TrimReaches(IsSpace, c.task);
    TrimReaches(IsSpace, c.target);
    TrimReaches(IsSpace, c.name);
    TrimReaches(IsSpace, c.status);
  }

  lemma {:induction false} CompactTable(write: Slice -> string, rows: seq<Slice>, blanks: seq<string>)
    requires forall r :: r in rows ==> write(r) != ""
    requires forall k :: 0 <= k < |blanks| ==> blanks[k] == ""
    ensures Compact(TableLines(write, rows) + blanks) == TableLines(write, rows)
    decreases |blanks|
  {
    var lines := TableLines(write, rows);
    if blanks == [] {
      assert lines + blanks == lines;
      if rows != [] {
        TableLinesCut(write, rows, |rows| - 1);
        assert lines[|rows| - 1..] == TableLines(write, rows[|rows| - 1..]);
        assert rows[|rows| - 1..] == [rows[|rows| - 1]] && rows[|rows| - 1] in rows;
        assert lines[|lines| - 1] == write(rows[|rows| - 1]);
      } else {
        assert lines == [];
      }
    } else {
      var n := |blanks| - 1;
      assert (lines + blanks)[..|lines| + n] == lines + blanks[..n];
      CompactTable(write, rows, blanks[..n]);
    }
  }

  lemma {:induction false} TableLinesAt(write: Slice -> string, rows: seq<Slice>)
    ensures |TableLines(write, rows)| == |rows|
    ensures forall k :: 0 <= k < |rows| ==> TableLines(write, rows)[k] == write(rows[k])
  {
    if rows != [] {
      TableLinesAt(write, rows[1..]);
    }
  }

  lemma TableWith(write: Slice -> string, rows: seq<Slice>, blanks: seq<string>, hit: Slice -> bool, mention: string,
                  value: Slice)
    requires forall r :: r in rows ==> (Contains(write(r), mention) <==> hit(r))
    requires mention != "" && forall k :: 0 <= k < |blanks| ==> blanks[k] == ""
    ensures UpsertLines(TableLines(write, rows) + blanks, mention, write(value))
            == TableLines(write, PutAt(rows, hit, value)) + blanks
  {
    TableLinesMention(write, rows, blanks, hit, mention);
    TableLinesAt(write, rows);
    var rows' := PutAt(rows, hit, value);
    TableLinesAt(write, rows');
    var i := FirstRow(rows, hit);
    var lines, lines' := TableLines(write, rows), TableLines(write, rows');
    if i < |rows| {
      assert lines' == lines[i := write(value)];
      assert (lines + blanks)[i := write(value)] == lines' + blanks;
    } else {
      assert lines' == [write(value)] + lines;
      assert [write(value)] + (lines + blanks) == lines' + blanks;
    }
  }

  /** A table that upsert wrote is after the next upsert again a table that upsert wrote. */
  lemma UpsertKeepsTable(pre: string, rest: string, rows: seq<Slice>, blanks: seq<string>, l: Slice)
    returns (rest': string)
    requires CanonicalParts(pre, rest) && Writable(l) && Written(rows)
    requires SectionLines(rest) == WrittenLines(rows) + blanks && forall k :: 0 <= k < |blanks| ==> blanks[k] == ""
    ensures var rows' := PutAt(rows, MentionOf(l.alias), Canon(l));
            && Upsert(Document(pre, rest), l) == Document(pre, rest') && CanonicalParts(pre, rest')
            && Written(rows') && SectionLines(rest') == WrittenLines(rows') + [""]
  {
    WritablePlain(l);
    WrittenOpensNothing(rest, rows, blanks);
    WriteIntoDocument(pre, rest, Mention(l.alias), RowLine(l));
    rest' := Rebuild(UpsertLines(SectionLines(rest), Mention(l.alias), RowLine(l))) + rest[|SectionText(rest)|..];
    var value := Canon(l);
    CanonTwice(l);
    WrittenFacts(rows, l.alias);
    TableWith(RowLine, rows, blanks, MentionOf(l.alias), Mention(l.alias), value);
    var rows' := PutAt(rows, MentionOf(l.alias), value);
    forall r | r in rows' ensures Writable(r) && Canon(r) == r && RowLine(r) != "" {
      assert r in rows || r == value;
    }
    CompactTable(RowLine, rows', blanks);
  }

  /** A canonical document whose table is these rows. */
  ghost predicate Holds(pre: string, rest: string, rows: seq<Slice>, blanks: seq<string>) {
    && CanonicalParts(pre, rest) && Written(rows)
    && SectionLines(rest) == WrittenLines(rows) + blanks && forall k :: 0 <= k < |blanks| ==> blanks[k] == ""
  }

  lemma HeldIsRead(pre: string, rest: string, rows: seq<Slice>, blanks: seq<string>)
    requires Holds(pre, rest, rows, blanks)
    ensures Parse(Document(pre, rest)) == rows
  {
    ParseDocument(pre, rest);
    WrittenOpensNothing(rest, rows, blanks);
    WrittenFacts(rows, "");
    BlankIsNoRow();
    TableLinesRead(RowOf, RowLine, rows, blanks);
  }

  lemma UpsertHolds(pre: string, rest: string, rows: seq<Slice>, blanks: seq<string>, l: Slice) returns (rest': string)
    requires Holds(pre, rest, rows, blanks) && Writable(l)
    ensures Upsert(Document(pre, rest), l) == Document(pre, rest')
    ensures Holds(pre, rest', PutAt(rows, MentionOf(l.alias), Canon(l)), [""])
  {
    rest' := UpsertKeepsTable(pre, rest, rows, blanks, l);
  }

  lemma {:induction false} UpsertRun(pre: string, rest: string, rows: seq<Slice>, blanks: seq<string>,
                                     links: seq<Slice>)
    requires Holds(pre, rest, rows, blanks)
    requires forall l :: l in links ==> Writable(l)
    ensures Parse(UpsertAll(Document(pre, rest), links)) == PutAll(rows, links)
    decreases |links|
  {
    if links == [] {
      HeldIsRead(pre, rest, rows, blanks);
    } else {
      assert links[0] in links;
      var rest' := UpsertHolds(pre, rest, rows, blanks, links[0]);
      UpsertRun(pre, rest', PutAt(rows, MentionOf(links[0].alias), Canon(links[0])), [""], links[1..]);
    }
  }

  /** No alias of the run is another link's task, target or status. */
  predicate AliasesApart(links: seq<Slice>) {
    forall l, m :: l in links && m in links && Mentions(m, l.alias) ==> Canon(m).alias == l.alias
  }

  /** No alias of the run is a task, target or status of a row already there. */
  predicate RowsApart(rows: seq<Slice>, links: seq<Slice>) {
    forall l, r :: l in links && r in rows && Mentions(r, l.alias) ==> r.alias == l.alias
  }

  lemma StayApart(rows: seq<Slice>, rows': seq<Slice>, links: seq<Slice>)
    requires links != [] && AliasesApart(links) && RowsApart(rows, links)
    requires forall r :: r in rows' ==> r in rows || r == Canon(links[0])
    requires Canon(Canon(links[0])) == Canon(links[0])
    ensures AliasesApart(links[1..]) && RowsApart(rows', links[1..])
  {
    assert links[0] in links;
    assert forall m :: m in links[1..] ==> m in links;
    forall m, r | m in links[1..] && r in rows' && Mentions(r, m.alias) ensures r.alias == m.alias {
      if r !in rows {
        assert Mentions(links[0], m.alias);
      }
    }
  }

  lemma {:induction false} PutAllIsKeyed(rows: seq<Slice>, links: seq<Slice>)
    requires forall l :: l in links ==> Writable(l)
    requires forall r :: r in rows ==> Canon(r) == r
    requires AliasesApart(links) && RowsApart(rows, links)
    ensures PutAll(rows, links) == KeyedAll(rows, links)
    decreases |links|
  {
    if links != [] {
      var l := links[0];
      assert l in links;
      CanonTwice(l);
      PutAtIsKeyed(rows, MentionOf(l.alias), l.alias, Canon(l));
      var rows' := KeyedUpdate(rows, l.alias, Canon(l));
      assert forall r :: r in rows' ==> r in rows || r == Canon(l);
      StayApart(rows, rows', links);
      PutAllIsKeyed(rows', links[1..]);
    }
  }

  lemma FirstOfRun(body: string, l: Slice) returns (pre: string, rest: string)
    requires Index(body, HeadingMark()) < 0 && !DanglingHeading(body) && Writable(l)
    ensures Upsert(body, l) == Document(pre, rest) && CanonicalParts(pre, rest)
    ensures SectionLines(rest) == WrittenLines([Canon(l)]) + ["", ""] && Written([Canon(l)])
  {
    var post := InsertPoint(body).1;
    pre := InsertPoint(body).0;
    rest := RowLine(l) + "\n" + "\n" + post;
    FirstUpsertParses(body, l);
    InsertPointPost(body);
    OneRowLines(l, post);
  }

  lemma OneRowLines(l: Slice, post: string)
    requires Writable(l) && (post == "" || SectionMark <= post)
    ensures SectionLines(RowLine(l) + "\n" + "\n" + post) == WrittenLines([Canon(l)]) + ["", ""] && Written([Canon(l)])
  {
    WritablePlain(l);
    SectionOfNewRow(RowLine(l), post);
    OneRowTable(l, ["", ""]);
    assert [RowLine(l)] + ["", ""] == [RowLine(l), "", ""];
  }

  lemma OneRowTable(l: Slice, blanks: seq<string>)
    requires Writable(l)
    ensures WrittenLines([Canon(l)]) + blanks == [RowLine(l)] + blanks && Written([Canon(l)])
  {
    CanonTwice(l);
    TableLinesAt(RowLine, [Canon(l)]);
    assert WrittenLines([Canon(l)]) == [RowLine(l)];
  }

  /** Any run of upserts on a document without the section leaves a table that reads as the map the run
      built: each alias once, in the place its first link took, with its last link's cells. */
  lemma UpsertRunIsMap(body: string, links: seq<Slice>)
    requires Index(body, HeadingMark()) < 0 && !DanglingHeading(body)
    requires links != [] && AliasesApart(links) && forall l :: l in links ==> Writable(l)
    ensures Parse(UpsertAll(body, links)) == KeyedAll([], links)
  {
    var l := links[0];
    assert l in links;
    var pre, rest := FirstOfRun(body, l);
    UpsertRun(pre, rest, [Canon(l)], ["", ""], links[1..]);
    PutAllIsKeyed([], links);
    PutFirst(MentionOf(l.alias), Canon(l));
  }

  /** The same for a run that starts on a table that upsert wrote, whose rows keep apart from the run too. */
  lemma UpsertRunOnTableIsMap(pre: string, rest: string, rows: seq<Slice>, blanks: seq<string>, links: seq<Slice>)
    requires Holds(pre, rest, rows, blanks)
    requires AliasesApart(links) && RowsApart(rows, links) && forall l :: l in links ==> Writable(l)
    ensures Parse(UpsertAll(Document(pre, rest), links)) == KeyedAll(rows, links)
  {
    UpsertRun(pre, rest, rows, blanks, links);
    PutAllIsKeyed(rows, links);
  }

  lemma PutFirst(hit: Slice -> bool, value: Slice)
    ensures PutAt([], hit, value) == [value]
  {
  }
}
