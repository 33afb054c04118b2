/** Rows of the repo-slice table (change.go): rendering a link as a Markdown row, reading a row back, and
    recognising the row that mentions an alias. */
module SliceRows {
  import opened Options
  import opened Text

  datatype Slice = Slice(alias: string, task: string, target: string, name: string, status: string)

  predicate IsPipe(c: char) { c == '|' }

  predicate IsBacktick(c: char) { c == '`' }

  const Dashes := "---"
  const TitlePair := "Repo | Task ID"

  // ---------------------------------------------------------------- rendering

  function EscapePipes(s: string): string {
    if s == "" then "" else (if s[0] == '|' then "\\|" else [s[0]]) + EscapePipes(s[1..])
  }

  /** What a link should read back as: its cells trimmed, an empty status planned. */
  function Canon(l: Slice): Slice {
    var status := TrimSpace(l.status);
    Slice(TrimSpace(l.alias), TrimSpace(l.task), TrimSpace(l.target), TrimSpace(l.name),
          if status == "" then "planned" else status)
  }

  function Coded(cell: string): string { " `" + cell + "` " }

  function Spaced(cell: string): string { " " + cell + " " }

  /** The text between the pipes of a rendered row. */
  function Parts(alias: string, task: string, target: string, name: string, status: string): seq<string> {
    [Coded(alias), Coded(task), Coded(target), Spaced(name), Coded(status)]
  }

  function LinkParts(l: Slice): seq<string> {
    var c := Canon(l);
    Parts(EscapePipes(c.alias), EscapePipes(c.task), EscapePipes(c.target), EscapePipes(c.name), EscapePipes(c.status))
  }

  /** The rendered row without its final newline. */
  function RowLine(l: Slice): string {
    "|" + Join('|', LinkParts(l)) + "|"
  }

  // ---------------------------------------------------------------- reading

  /** Undoes the escaping of pipes. */
  function Unescape(s: string): string {
    if s == "" then ""
    else if "\\|" <= s then "|" + Unescape(s[2..])
    else [s[0]] + Unescape(s[1..])
  }

  function CellsOf(parts: seq<string>): seq<string> {
    if parts == [] then [] else [TrimSpace(Unescape(parts[0]))] + CellsOf(parts[1..])
  }

  function Cells(line: string): seq<string> {
    CellsOf(Split('|', Trim(IsPipe, line)))
  }

  function StripCode(value: string): string {
    TrimSpace(Trim(IsBacktick, TrimSpace(value)))
  }

  /** The slice a line holds, if it is a table row. */
  function RowOf(raw: string): Option<Slice> {
    var line := TrimSpace(raw);
    if line == "" || !("|" <= line) || Contains(line, Dashes) || Contains(line, TitlePair) then None
    else
      var cells := Cells(line);
      if |cells| < 5 then None
      else Some(Slice(StripCode(cells[0]), StripCode(cells[1]), StripCode(cells[2]), StripCode(cells[3]),
                      StripCode(cells[4])))
  }

  method MarkdownTableCells(raw: string) returns (cells: seq<string>)
    ensures cells == Cells(raw)
  {
    var parts := Split('|', Trim(IsPipe, raw));
    cells := [];
    assert parts[0..] == parts;
    for i := 0 to |parts|
      invariant cells + CellsOf(parts[i..]) == CellsOf(parts)
    {
      assert parts[i..][1..] == parts[i + 1..];
      cells := cells + [TrimSpace(Unescape(parts[i]))];
    }
  }

  // ---------------------------------------------------------------- clean cells

  /** A trimmed cell that survives the table. */
  predicate CleanCell(cell: string) {
    '|' !in cell && Trimmed(IsBacktick, cell) && !Contains(cell, Dashes)
  }

  predicate Clean(l: Slice) {
    var c := Canon(l);
    CleanCell(c.alias) && CleanCell(c.task) && CleanCell(c.target) && CleanCell(c.name) && CleanCell(c.status)
  }

  lemma {:induction false} EscapeNothing(s: string)
    ensures '|' !in s ==> EscapePipes(s) == s
  {
    if s != "" {
      EscapeNothing(s[1..]);
      assert s == [s[0]] + s[1..];
    }
  }

  lemma {:induction false} UnescapeNothing(s: string)
    requires '|' !in s
    ensures Unescape(s) == s
  {
    if s != "" {
      assert |s| > 1 ==> s[1] != '|';
      UnescapeNothing(s[1..]);
      assert s == [s[0]] + s[1..];
    }
  }

  // ---------------------------------------------------------------- what a row contains

  lemma ContainsIff(s: string, pat: string)
    ensures Contains(s, pat) <==> exists j :: At(s, j, pat)
  {
    IndexIsFirst(s, pat);
    if Index(s, pat) < 0 {
      forall j ensures !At(s, j, pat) {
        assert 0 <= j ==> !At(s, j, pat);
      }
    }
  }

  /** Three dashes never run across another character. */
  lemma DashesOnOneSide(a: string, c: char, b: string, j: int)
    requires c != '-' && At(a + [c] + b, j, Dashes)
    ensures At(a, j, Dashes) || At(b, j - |a| - 1, Dashes)
  {
    var s := a + [c] + b;
    assert s[j] == s[j..j + 3][0] && s[j + 1] == s[j..j + 3][1] && s[j + 2] == s[j..j + 3][2];
    assert s[|a|] == c;
    if j < |a| {
      assert a[j..j + 3] == s[j..j + 3];
    } else {
      AtBehind(a + [c], b, Dashes, j);
    }
  }

  lemma DashesAcross(a: string, c: char, b: string)
    requires c != '-'
    ensures Contains(a + [c] + b, Dashes) <==> Contains(a, Dashes) || Contains(b, Dashes)
  {
    var s := a + [c] + b;
    ContainsIff(s, Dashes);
    ContainsIff(a, Dashes);
    ContainsIff(b, Dashes);
    if j :| At(s, j, Dashes) {
      DashesOnOneSide(a, c, b, j);
    }
    if j :| At(a, j, Dashes) {
      assert s[j..j + 3] == a[j..j + 3];
      assert At(s, j, Dashes);
    }
    if j :| At(b, j, Dashes) {
      var k := j + |a| + 1;
      assert s[k..k + 3] == b[j..j + 3];
      assert At(s, k, Dashes);
    }
  }

  lemma DashesShort()
    ensures !Contains("", Dashes) && !Contains(" ", Dashes)
  {
    ContainsIff("", Dashes);
    ContainsIff(" ", Dashes);
  }

  lemma DashesInSpaced(cell: string)
    ensures Contains(Spaced(cell), Dashes) <==> Contains(cell, Dashes)
  {
    DashesShort();
    assert Spaced(cell) == "" + [' '] + (cell + [' '] + "");
    DashesAcross("", ' ', cell + [' '] + "");
    DashesAcross(cell, ' ', "");
  }

  lemma DashesInCoded(cell: string)
    ensures Contains(Coded(cell), Dashes) <==> Contains(cell, Dashes)
  {
    DashesShort();
    var quoted := "" + ['`'] + (cell + ['`'] + "");
    DashesAcross("", '`', cell + ['`'] + "");
    DashesAcross(cell, '`', "");
    assert Coded(cell) == Spaced(quoted);
    DashesInSpaced(quoted);
  }

  lemma {:induction false} DashesInJoin(parts: seq<string>)
    ensures Contains(Join('|', parts), Dashes) <==> exists i :: 0 <= i < |parts| && Contains(parts[i], Dashes)
  {
    DashesShort();
    if |parts| > 1 {
      DashesAcross(parts[0], '|', Join('|', parts[1..]));
      DashesInJoin(parts[1..]);
      if i :| 0 <= i < |parts| && Contains(parts[i], Dashes) {
        assert i == 0 || parts[1..][i - 1] == parts[i];
      }
      if i :| 0 <= i < |parts[1..]| && Contains(parts[1..][i], Dashes) {
        assert parts[i + 1] == parts[1..][i];
      }
    }
  }

  /** A place where x|y stands in p|rest, for pipe-free p and x, is at the end of p or inside rest. */
  lemma PairPlace(p: string, rest: string, x: string, y: string, j: int)
    requires '|' !in p && '|' !in x && At(p + "|" + rest, j, x + "|" + y)
    ensures j + |x| == |p| || j > |p|
  {
    var s, pat := p + "|" + rest, x + "|" + y;
    var q := j + |x|;
    assert s[q] == s[j..j + |pat|][|x|] == '|';
    forall t | j <= t < q ensures s[t] != '|' {
      assert s[t] == s[j..j + |pat|][t - j] == x[t - j];
    }
    assert s[|p|] == '|';
  }

  lemma PairFromFront(p: string, rest: string, x: string, y: string, j: int)
    requires At(p + "|" + rest, j, x + "|" + y) && j + |x| == |p|
    ensures p[j..] == x && y <= rest
  {
    var s, pat := p + "|" + rest, x + "|" + y;
    assert pat[..|x|] == x && pat[|x| + 1..] == y;
    assert p[j..] == s[j..j + |pat|][..|x|];
    assert rest[..|y|] == s[j..j + |pat|][|x| + 1..];
  }

  /** A pattern with one pipe inside lies across two neighbouring parts or further on. */
  lemma PairAcross(p: string, rest: string, x: string, y: string)
    requires '|' !in p && '|' !in x && '|' !in y
    ensures Contains(p + "|" + rest, x + "|" + y) ==>
              (|x| <= |p| && p[|p| - |x|..] == x && y <= rest) || Contains(rest, x + "|" + y)
  {
    var s, pat := p + "|" + rest, x + "|" + y;
    ContainsIff(s, pat);
    ContainsIff(rest, pat);
    if j :| At(s, j, pat) {
      PairPlace(p, rest, x, y, j);
      if j + |x| == |p| {
        PairFromFront(p, rest, x, y, j);
      } else {
        AtBehind(p + "|", rest, pat, j);
      }
    }
  }

  ghost predicate PipeFree(parts: seq<string>) {
    forall part :: part in parts ==> '|' !in part
  }

  ghost predicate Straddles(parts: seq<string>, x: string, y: string, i: int) {
    0 <= i && i + 1 < |parts| && |x| <= |parts[i]| && parts[i][|parts[i]| - |x|..] == x && y <= parts[i + 1]
  }

  lemma PrefixOfJoin(parts: seq<string>, y: string)
    requires parts != [] && '|' !in y && y <= Join('|', parts)
    ensures y <= parts[0]
  {
    if |parts| > 1 {
      var s := Join('|', parts);
      assert s == parts[0] + "|" + Join('|', parts[1..]);
      assert s[|parts[0]|] == '|';
      assert forall i :: 0 <= i < |y| ==> y[i] == s[i];
    }
  }

  lemma NoPipeNoPair(p: string, x: string, y: string)
    requires '|' !in p
    ensures !Contains(p, x + "|" + y)
  {
    var pat := x + "|" + y;
    ContainsIff(p, pat);
    forall j ensures !At(p, j, pat) {
      if 0 <= j && j + |pat| <= |p| {
        assert p[j..j + |pat|][|x|] == p[j + |x|];
        assert pat[|x|] == '|';
      }
    }
  }

  /** A pattern with one pipe occurs in a joined row only across two neighbouring parts. */
  lemma {:induction false} PairInJoin(parts: seq<string>, x: string, y: string)
    requires parts != [] && PipeFree(parts) && '|' !in x && '|' !in y
    ensures Contains(Join('|', parts), x + "|" + y) ==> exists i :: Straddles(parts, x, y, i)
  {
    if |parts| == 1 {
      assert parts[0] in parts;
      NoPipeNoPair(parts[0], x, y);
    } else if Contains(Join('|', parts), x + "|" + y) {
      var rest := parts[1..];
      assert parts[0] in parts && PipeFree(rest);
      PairAcross(parts[0], Join('|', rest), x, y);
      if Contains(Join('|', rest), x + "|" + y) {
        PairInJoin(rest, x, y);
        var i :| Straddles(rest, x, y, i);
        assert parts[i + 1] == rest[i] && parts[i + 2] == rest[i + 1];
        assert Straddles(parts, x, y, i + 1);
      } else {
        PrefixOfJoin(rest, y);
        assert Straddles(parts, x, y, 0);
      }
    }
  }

  /** The parts of a whole row line, with the empty ones outside its outer pipes. */
  function Framed(parts: seq<string>): seq<string> { [""] + parts + [""] }

  lemma FramedRow(parts: seq<string>)
    requires parts != []
    ensures Join('|', Framed(parts)) == "|" + Join('|', parts) + "|"
  {
    JoinAppend('|', [""], parts + [""]);
    JoinAppend('|', parts, [""]);
    assert Framed(parts) == [""] + (parts + [""]);
  }

  lemma PlainParts(l: Slice)
    ensures var c := Canon(l);
            '|' !in c.alias && '|' !in c.task && '|' !in c.target && '|' !in c.name && '|' !in c.status ==>
              LinkParts(l) == Parts(c.alias, c.task, c.target, c.name, c.status) && PipeFree(LinkParts(l))
  {
    var c := Canon(l);
    EscapeNothing(c.alias);
    EscapeNothing(c.task);
    EscapeNothing(c.target);
    EscapeNothing(c.name);
    EscapeNothing(c.status);
    PartsPipeFree(c.alias, c.task, c.target, c.name, c.status);
  }

  lemma PartsPipeFree(alias: string, task: string, target: string, name: string, status: string)
    ensures '|' !in alias && '|' !in task && '|' !in target && '|' !in name && '|' !in status ==>
              PipeFree(Parts(alias, task, target, name, status))
  {
  }

  lemma CodedEnds(cell: string)
    ensures !(" Task ID" <= Coded(cell))
    ensures |Coded(cell)| >= 5 ==> Coded(cell)[|Coded(cell)| - 5..] != "Repo "
  {
    var p := Coded(cell);
    assert p[1] == '`' && p[|p| - 2] == '`';
    assert |p| >= 5 ==> p[|p| - 5..][3] == p[|p| - 2];
  }

  /** No row of pipe-free cells can be taken for the title row. */
  lemma NoTitlePair(alias: string, task: string, target: string, name: string, status: string)
    requires PipeFree(Parts(alias, task, target, name, status))
    ensures !Contains("|" + Join('|', Parts(alias, task, target, name, status)) + "|", TitlePair)
  {
    var parts := Parts(alias, task, target, name, status);
    FramedRow(parts);
    assert TitlePair == "Repo " + "|" + " Task ID";
    PairInJoin(Framed(parts), "Repo ", " Task ID");
    CodedEnds(alias);
    CodedEnds(task);
    CodedEnds(target);
    CodedEnds(status);
  }

  // ---------------------------------------------------------------- a row reads back

  lemma CodedStrips(cell: string)
    requires Trimmed(IsSpace, cell)
    ensures TrimSpace(Coded(cell)) == "`" + cell + "`"
    ensures StripCode(TrimSpace(Coded(cell))) == cell <==> Trimmed(IsBacktick, cell)
  {
    var quoted := "`" + cell + "`";
    assert Coded(cell) == " " + quoted + " ";
    TrimPadding(IsSpace, " ", quoted, " ");
    TrimReaches(IsSpace, quoted);
    if Trimmed(IsBacktick, cell) {
      TrimPadding(IsBacktick, "`", cell, "`");
      TrimReaches(IsSpace, cell);
    } else {
      BacktickLost(quoted, cell);
    }
  }

  /** What is left after backticks and then blanks are trimmed is not longer, and when nothing more is
      lost it has no backtick at its ends. */
  lemma BacktickLost(value: string, cell: string)
    requires !Trimmed(IsBacktick, cell) && Trimmed(IsSpace, cell)
    requires value == cell || value == "`" + cell + "`"
    ensures TrimSpace(Trim(IsBacktick, value)) != cell
  {
    var bare := Trim(IsBacktick, value);
    TrimReaches(IsBacktick, value);
    TrimReaches(IsSpace, bare);
    TrimShrinks(IsBacktick, value);
    TrimShrinks(IsSpace, bare);
    if value != cell {
      QuotedTrimShorter(cell);
    } else if |bare| == |value| {
      TrimSameLength(IsBacktick, value);
    }
  }

  lemma TrimShrinks(p: char -> bool, s: string)
    ensures |Trim(p, s)| <= |s|
  {
    TrimLeftEnds(p, s);
    TrimRightEnds(p, TrimLeft(p, s));
  }

  lemma TrimSameLength(p: char -> bool, s: string)
    requires |Trim(p, s)| == |s|
    ensures Trim(p, s) == s
  {
    TrimLeftEnds(p, s);
    TrimRightEnds(p, TrimLeft(p, s));
  }

  lemma QuotedTrimShorter(cell: string)
    requires !Trimmed(IsBacktick, cell)
    ensures |Trim(IsBacktick, "`" + cell + "`")| < |cell|
  {
    var quoted := "`" + cell + "`";
    if cell[0] == '`' {
      assert quoted[1..] == cell + "`" && (cell + "`")[1..] == cell[1..] + "`";
      assert TrimLeft(IsBacktick, quoted) == TrimLeft(IsBacktick, cell[1..] + "`");
      var rest := TrimLeft(IsBacktick, cell[1..] + "`");
      TrimLeftEnds(IsBacktick, cell[1..] + "`");
      TrimRightEnds(IsBacktick, rest);
      assert rest == "" || rest[|rest| - 1] == '`';
    } else {
      assert quoted[1..] == cell + "`";
      assert TrimLeft(IsBacktick, quoted) == cell + "`";
      assert (cell + "`")[..|cell|] == cell;
      TrimRightEnds(IsBacktick, cell[..|cell| - 1]);
      assert TrimRight(IsBacktick, cell + "`") == TrimRight(IsBacktick, cell);
      assert TrimRight(IsBacktick, cell) == TrimRight(IsBacktick, cell[..|cell| - 1]);
    }
  }

  lemma SpacedStrips(cell: string)
    requires Trimmed(IsSpace, cell)
    ensures TrimSpace(Spaced(cell)) == cell
    ensures StripCode(TrimSpace(Spaced(cell))) == cell <==> Trimmed(IsBacktick, cell)
  {
    TrimPadding(IsSpace, " ", cell, " ");
    TrimReaches(IsSpace, cell);
    TrimReaches(IsBacktick, cell);
    if !Trimmed(IsBacktick, cell) {
      BacktickLost(cell, cell);
    }
  }

  lemma TrimKeepsFree(p: char -> bool, s: string, x: char)
    requires x !in s
    ensures x !in Trim(p, s)
  {
    TrimLeftEnds(p, s);
    TrimRightEnds(p, TrimLeft(p, s));
    var left := TrimLeft(p, s);
    assert forall c :: c in left ==> c in s;
    assert Trim(p, s) == left[..|Trim(p, s)|];
  }

  lemma {:induction false} CellsOfPipeFree(parts: seq<string>)
    requires PipeFree(parts)
    ensures |CellsOf(parts)| == |parts|
    ensures forall i :: 0 <= i < |parts| ==> CellsOf(parts)[i] == TrimSpace(parts[i])
  {
    if parts != [] {
      assert parts[0] in parts;
      UnescapeNothing(parts[0]);
      CellsOfPipeFree(parts[1..]);
    }
  }

  lemma StripKeepsFree(value: string, x: char)
    requires x !in value
    ensures x !in StripCode(value)
  {
    TrimKeepsFree(IsSpace, value, x);
    TrimKeepsFree(IsBacktick, TrimSpace(value), x);
    TrimKeepsFree(IsSpace, Trim(IsBacktick, TrimSpace(value)), x);
  }

  /** No cell of the slice holds the character. */
  predicate Free(r: Slice, x: char) {
    x !in r.alias && x !in r.task && x !in r.target && x !in r.name && x !in r.status
  }

  lemma CellFree(line: string, x: char, i: nat)
    requires i < |Cells(line)| && (x == '|' || x !in line)
    ensures x !in StripCode(Cells(line)[i])
  {
    var parts := Split('|', Trim(IsPipe, line));
    SplitParts('|', Trim(IsPipe, line));
    CellsOfPipeFree(parts);
    assert parts[i] in parts;
    if x != '|' {
      TrimKeepsFree(IsPipe, line, x);
    }
    assert x !in parts[i];
    TrimKeepsFree(IsSpace, parts[i], x);
    StripKeepsFree(Cells(line)[i], x);
  }

  /** A line is never read into a character it does not hold, nor into a pipe: escaping does not help. */
  lemma RowOfFree(raw: string, x: char)
    requires x == '|' || x !in raw
    ensures RowOf(raw).Some? ==> Free(RowOf(raw).value, x)
  {
    var line := TrimSpace(raw);
    if x != '|' {
      TrimKeepsFree(IsSpace, raw, x);
    }
    if RowOf(raw).Some? {
      CellFree(line, x, 0);
      CellFree(line, x, 1);
      CellFree(line, x, 2);
      CellFree(line, x, 3);
      CellFree(line, x, 4);
    }
  }

  /** Whatever a line is read as, no cell of it holds a pipe. */
  lemma RowOfPipeFree(raw: string)
    ensures RowOf(raw).Some? ==> Free(RowOf(raw).value, '|')
  {
    RowOfFree(raw, '|');
  }

  lemma CellsOfRow(parts: seq<string>)
    requires |parts| == 5 && PipeFree(parts)
    requires parts[0] != "" && parts[0][0] == ' ' && parts[4] != "" && parts[4][|parts[4]| - 1] == ' '
    ensures Cells("|" + Join('|', parts) + "|")
            == [TrimSpace(parts[0]), TrimSpace(parts[1]), TrimSpace(parts[2]), TrimSpace(parts[3]), TrimSpace(parts[4])]
    ensures TrimSpace("|" + Join('|', parts) + "|") == "|" + Join('|', parts) + "|"
  {
    var inner := Join('|', parts);
    InnerEnds(parts);
    TrimPadding(IsPipe, "|", inner, "|");
    SplitJoin('|', parts);
    CellsOfPipeFree(parts);
    RowTrims(inner);
  }

  lemma RowTrims(inner: string)
    ensures TrimSpace("|" + inner + "|") == "|" + inner + "|"
  {
    TrimReaches(IsSpace, "|" + inner + "|");
  }

  lemma InnerEnds(parts: seq<string>)
    requires |parts| == 5
    requires parts[0] != "" && parts[0][0] == ' ' && parts[4] != "" && parts[4][|parts[4]| - 1] == ' '
    ensures var inner := Join('|', parts); inner != "" && inner[0] == ' ' && inner[|inner| - 1] == ' '
  {
    JoinFive(parts);
  }

  lemma JoinFive(parts: seq<string>)
    requires |parts| == 5
    ensures Join('|', parts)
            == parts[0] + "|" + (parts[1] + "|" + (parts[2] + "|" + (parts[3] + "|" + parts[4])))
  {
    assert parts[1..][1..] == parts[2..] && parts[2..][1..] == parts[3..] && parts[3..][1..] == parts[4..];
    assert Join('|', parts[4..]) == parts[4];
    assert Join('|', parts[3..]) == parts[3] + "|" + parts[4];
    assert Join('|', parts[2..]) == parts[2] + "|" + Join('|', parts[3..]);
    assert Join('|', parts[1..]) == parts[1] + "|" + Join('|', parts[2..]);
  }

  lemma DashesInRow(alias: string, task: string, target: string, name: string, status: string)
    ensures var row := "|" + Join('|', Parts(alias, task, target, name, status)) + "|";
            Contains(row, Dashes) <==> Contains(alias, Dashes) || Contains(task, Dashes) || Contains(target, Dashes)
                                       || Contains(name, Dashes) || Contains(status, Dashes)
  {
    var parts := Parts(alias, task, target, name, status);
    DashesShort();
    var inner := Join('|', parts);
    assert "|" + inner + "|" == "" + ['|'] + (inner + ['|'] + "");
    DashesAcross("", '|', inner + ['|'] + "");
    DashesAcross(inner, '|', "");
    DashesInJoin(parts);
    DashesInCoded(alias);
    DashesInCoded(task);
    DashesInCoded(target);
    DashesInSpaced(name);
    DashesInCoded(status);
    assert parts[0] == Coded(alias) && parts[1] == Coded(task) && parts[2] == Coded(target) && parts[3] == Spaced(name)
           && parts[4] == Coded(status);
  }

  lemma RowOfPlain(alias: string, task: string, target: string, name: string, status: string)
    requires PipeFree(Parts(alias, task, target, name, status))
    requires Trimmed(IsSpace, alias) && Trimmed(IsSpace, task) && Trimmed(IsSpace, target) && Trimmed(IsSpace, name)
             && Trimmed(IsSpace, status)
    ensures RowOf("|" + Join('|', Parts(alias, task, target, name, status)) + "|")
            == Some(Slice(alias, task, target, name, status))
            <==> && Trimmed(IsBacktick, alias) && Trimmed(IsBacktick, task) && Trimmed(IsBacktick, target)
                 && Trimmed(IsBacktick, name) && Trimmed(IsBacktick, status)
                 && !Contains(alias, Dashes) && !Contains(task, Dashes) && !Contains(target, Dashes)
                 && !Contains(name, Dashes) && !Contains(status, Dashes)
  {
    CellsOfRow(Parts(alias, task, target, name, status));
    NoTitlePair(alias, task, target, name, status);
    DashesInRow(alias, task, target, name, status);
    CodedStrips(alias);
    CodedStrips(task);
    CodedStrips(target);
    SpacedStrips(name);
    CodedStrips(status);
  }

  lemma CanonTrimmed(l: Slice)
    ensures var c := Canon(l);
            Trimmed(IsSpace, c.alias) && Trimmed(IsSpace, c.task) && Trimmed(IsSpace, c.target)
                && Trimmed(IsSpace, c.name)
            && Trimmed(IsSpace, c.status)
  {
    TrimReaches(IsSpace, l.alias);
    TrimReaches(IsSpace, l.task);
    TrimReaches(IsSpace, l.target);
    TrimReaches(IsSpace, l.name);
    TrimReaches(IsSpace, l.status);
  }

  /** A rendered row reads back as its link exactly when every trimmed cell has no pipe, no backtick at
      its ends and no run of three dashes. */
  lemma RowReadsBack(l: Slice)
    ensures RowOf(RowLine(l)) == Some(Canon(l)) <==> Clean(l)
  {
    var c := Canon(l);
    PlainParts(l);
    CanonTrimmed(l);
    if '|' !in c.alias && '|' !in c.task && '|' !in c.target && '|' !in c.name && '|' !in c.status {
      RowOfPlain(c.alias, c.task, c.target, c.name, c.status);
    } else {
      RowOfPipeFree(RowLine(l));
    }
  }

  // ---------------------------------------------------------------- which rows mention an alias

  /** What upsert searches for in a line. */
  function Mention(alias: string): string {
    "|" + Coded(alias) + "|"
  }

  /** Two texts free of pipes, each followed by a pipe, start the same text only when they are equal. */
  lemma PipeEnds(s: string, a: string, b: string)
    requires '|' !in a && '|' !in b && a + "|" <= s && b + "|" <= s
    ensures a == b
  {
    assert s[|a|] == (a + "|")[|a|] == '|' && s[|b|] == (b + "|")[|b|] == '|';
    assert forall i :: 0 <= i < |a| ==> (a + "|")[i] == s[i] == a[i] && a[i] in a;
    assert forall i :: 0 <= i < |b| ==> (b + "|")[i] == s[i] == b[i] && b[i] in b;
    assert |a| == |b|;
    assert a == s[..|a|] && b == s[..|a|];
  }

  lemma PartThenPipe(parts: seq<string>, m: string)
    requires parts != [] && PipeFree(parts) && '|' !in m
    ensures m + "|" <= Join('|', parts) <==> |parts| >= 2 && parts[0] == m
  {
    var s := Join('|', parts);
    assert parts[0] in parts;
    if |parts| == 1 {
      assert (m + "|")[|m|] == '|' && (|m| < |s| ==> s[|m|] in s && s[|m|] != '|');
    } else {
      assert s == parts[0] + "|" + Join('|', parts[1..]);
      assert parts[0] + "|" <= s;
      if m + "|" <= s {
        PipeEnds(s, m, parts[0]);
      }
    }
  }

  /** Where the pattern stands in p|rest: over the pipe, or inside rest. */
  lemma MentionPlace(p: string, rest: string, m: string, j: int)
    requires '|' !in p && At(p + "|" + rest, j, "|" + m + "|")
    ensures (j == |p| && m + "|" <= rest) || (j > |p| && At(rest, j - |p| - 1, "|" + m + "|"))
  {
    var s, pat := p + "|" + rest, "|" + m + "|";
    assert s[j..j + |pat|] == pat;
    assert s[j] == s[j..j + |pat|][0] == '|';
    assert forall k :: 0 <= k < |p| ==> s[k] == p[k] && p[k] in p;
    assert j >= |p|;
    if j == |p| {
      assert rest == s[j + 1..];
      assert m + "|" == pat[1..];
      assert rest[..|m| + 1] == s[j..j + |pat|][1..];
    } else {
      AtBehind(p + "|", rest, pat, j);
    }
  }

  lemma MentionStarts(p: string, rest: string, m: string)
    requires m + "|" <= rest
    ensures At(p + "|" + rest, |p|, "|" + m + "|")
  {
    var s, pat := p + "|" + rest, "|" + m + "|";
    assert s[|p|..|p| + |pat|] == "|" + rest[..|m| + 1] == pat;
  }

  lemma MentionInside(p: string, rest: string, pat: string, j: int)
    requires At(rest, j, pat)
    ensures At(p + "|" + rest, j + |p| + 1, pat)
  {
    var s, k := p + "|" + rest, j + |p| + 1;
    assert s[k..k + |pat|] == rest[j..j + |pat|];
  }

  lemma MentionAcross(p: string, rest: string, m: string)
    requires '|' !in p
    ensures Contains(p + "|" + rest, "|" + m + "|") <==> m + "|" <= rest || Contains(rest, "|" + m + "|")
  {
    var s, pat := p + "|" + rest, "|" + m + "|";
    ContainsIff(s, pat);
    ContainsIff(rest, pat);
    if j :| At(s, j, pat) {
      MentionPlace(p, rest, m, j);
    }
    if m + "|" <= rest {
      MentionStarts(p, rest, m);
    }
    if j :| At(rest, j, pat) {
      MentionInside(p, rest, pat, j);
    }
  }

  lemma {:induction false} MentionInJoin(parts: seq<string>, m: string)
    requires parts != [] && PipeFree(parts) && '|' !in m
    ensures Contains(Join('|', parts), "|" + m + "|") <==> exists i :: 0 < i < |parts| - 1 && parts[i] == m
  {
    assert parts[0] in parts;
    if |parts| == 1 {
      NoPipeNoPair(parts[0], "", m + "|");
      assert "" + "|" + (m + "|") == "|" + m + "|";
    } else {
      var rest := parts[1..];
      assert PipeFree(rest);
      MentionAcross(parts[0], Join('|', rest), m);
      PartThenPipe(rest, m);
      MentionInJoin(rest, m);
      if i :| 0 < i < |parts| - 1 && parts[i] == m {
        assert i == 1 || rest[i - 1] == m;
      }
      if i :| 0 < i < |rest| - 1 && rest[i] == m {
        assert parts[i + 1] == m;
      }
    }
  }

  predicate Mentions(r: Slice, alias: string) {
    var c := Canon(r);
    alias == c.alias || alias == c.task || alias == c.target || alias == c.status
  }

  lemma CodedInjective(a: string, b: string)
    ensures Coded(a) == Coded(b) <==> a == b
  {
    if Coded(a) == Coded(b) {
      assert a == Coded(a)[2..|Coded(a)| - 2] && b == Coded(b)[2..|Coded(b)| - 2];
    }
  }

  /** A clean row contains the mention of an alias exactly when the alias is its repo, its task, its
      target or its status. */
  lemma RowMentions(r: Slice, alias: string)
    requires Clean(r) && '|' !in alias
    ensures Contains(RowLine(r), Mention(alias)) <==> Mentions(r, alias)
  {
    var c := Canon(r);
    PlainParts(r);
    var parts := LinkParts(r);
    FramedRow(parts);
    var framed := Framed(parts);
    MentionInJoin(framed, Coded(alias));
    assert framed[1] == Coded(c.alias) && framed[2] == Coded(c.task) && framed[3] == Coded(c.target)
           && framed[4] == Spaced(c.name) && framed[5] == Coded(c.status);
    CodedInjective(alias, c.alias);
    CodedInjective(alias, c.task);
    CodedInjective(alias, c.target);
    CodedInjective(alias, c.status);
    assert Coded(alias)[1] == '`' && Spaced(c.name)[1] == if c.name == "" then ' ' else c.name[0];
  }
  // ---------------------------------------------------------------- a row that is not as rendered

  /** The parts of a link's row with one more blank behind the alias, as a formatter pads a column. */
  function PaddedParts(l: Slice): seq<string> {
    [Coded(l.alias) + " ", Coded(l.task), Coded(l.target), Spaced(l.name), Coded(l.status)]
  }

  function PaddedLine(l: Slice): string {
    "|" + Join('|', PaddedParts(l)) + "|"
  }

  lemma PaddedPipeFree(l: Slice)
    requires Clean(l) && Canon(l) == l
    ensures PipeFree(PaddedParts(l)) && Clean(l)
  {
  }

  lemma PaddedCell(cell: string)
    ensures TrimSpace(Coded(cell) + " ") == TrimSpace(Coded(cell))
    ensures Contains(Coded(cell) + " ", Dashes) <==> Contains(cell, Dashes)
    ensures !(" Task ID" <= Coded(cell) + " ")
  {
    var quoted := "`" + cell + "`";
    assert Coded(cell) == " " + quoted + " " && Coded(cell) + " " == " " + quoted + "  ";
    TrimPadding(IsSpace, " ", quoted, " ");
    TrimPadding(IsSpace, " ", quoted, "  ");
    DashesShort();
    DashesInCoded(cell);
    assert Coded(cell) + " " == Coded(cell) + [' '] + "";
    DashesAcross(Coded(cell), ' ', "");
    assert (Coded(cell) + " ")[1] == '`';
  }

  lemma NoDashesInRow(parts: seq<string>)
    requires forall i :: 0 <= i < |parts| ==> !Contains(parts[i], Dashes)
    ensures !Contains("|" + Join('|', parts) + "|", Dashes)
  {
    var inner := Join('|', parts);
    DashesShort();
    assert "|" + inner + "|" == "" + ['|'] + (inner + ['|'] + "");
    DashesAcross("", '|', inner + ['|'] + "");
    DashesAcross(inner, '|', "");
    DashesInJoin(parts);
  }

  lemma PaddedNoDashes(l: Slice)
    requires Clean(l) && Canon(l) == l
    ensures !Contains(PaddedLine(l), Dashes)
  {
    PaddedCell(l.alias);
    DashesInCoded(l.task);
    DashesInCoded(l.target);
    DashesInSpaced(l.name);
    DashesInCoded(l.status);
    NoDashesInRow(PaddedParts(l));
  }

  lemma PaddedNoTitle(l: Slice)
    requires Clean(l) && Canon(l) == l
    ensures !Contains(PaddedLine(l), TitlePair)
  {
    PaddedPipeFree(l);
    PaddedEnds(l);
    NoTitleInRow(PaddedParts(l), "Repo ", " Task ID");
    assert TitlePair == "Repo " + "|" + " Task ID";
  }

  lemma PaddedEnds(l: Slice)
    ensures var parts := PaddedParts(l);
            && !(" Task ID" <= parts[0]) && !(" Task ID" <= parts[1]) && !(" Task ID" <= parts[2])
            && !(" Task ID" <= parts[4]) && (|parts[2]| >= 5 ==> parts[2][|parts[2]| - 5..] != "Repo ")
  {
    PaddedCell(l.alias);
    CodedEnds(l.task);
    CodedEnds(l.target);
    CodedEnds(l.status);
  }

  lemma NoTitleInRow(parts: seq<string>, x: string, y: string)
    requires |parts| == 5 && PipeFree(parts) && '|' !in x && '|' !in y && y != ""
    requires !(y <= parts[0]) && !(y <= parts[1]) && !(y <= parts[2]) && !(y <= parts[4])
    requires |x| <= |parts[2]| ==> parts[2][|parts[2]| - |x|..] != x
    ensures !Contains("|" + Join('|', parts) + "|", x + "|" + y)
  {
    var framed := Framed(parts);
    FramedRow(parts);
    PairInJoin(framed, x, y);
    assert framed[0] == "" && framed[6] == "" && forall i :: 0 <= i < 5 ==> framed[i + 1] == parts[i];
  }

  lemma PaddedReads(l: Slice)
    requires Clean(l) && Canon(l) == l
    ensures RowOf(PaddedLine(l)) == Some(l)
  {
    PaddedPipeFree(l);
    CanonTrimmed(l);
    CellsOfRow(PaddedParts(l));
    PaddedNoTitle(l);
    PaddedNoDashes(l);
    PaddedCell(l.alias);
    CodedStrips(l.alias);
    CodedStrips(l.task);
    CodedStrips(l.target);
    SpacedStrips(l.name);
    CodedStrips(l.status);
  }

  lemma PaddedUnmentioned(l: Slice)
    requires Clean(l) && Canon(l) == l && l.alias != l.task && l.alias != l.target && l.alias != l.status
    ensures !Contains(PaddedLine(l), Mention(l.alias))
  {
    var parts := PaddedParts(l);
    PaddedPipeFree(l);
    FramedRow(parts);
    MentionInJoin(Framed(parts), Coded(l.alias));
    CodedInjective(l.alias, l.task);
    CodedInjective(l.alias, l.target);
    CodedInjective(l.alias, l.status);
    assert |Coded(l.alias) + " "| > |Coded(l.alias)|;
    assert Coded(l.alias)[1] == '`' && Spaced(l.name)[1] == if l.name == "" then ' ' else l.name[0];
  }
}
