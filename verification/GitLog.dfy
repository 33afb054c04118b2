/** The git-log receipt parser (find_git_receipts.go). */
module GitLog {
  // A line-driven state machine over the output of git log in a fixed pretty format, against the printer that
  // format stands for.

  import opened Options
  import opened Text
  import opened Paths

  const CommitMarker := "__DEV_SPECS_GIT_RECEIPT_COMMIT__"
  const BodyMarker := "__DEV_SPECS_GIT_RECEIPT_BODY__"
  const FilesMarker := "__DEV_SPECS_GIT_RECEIPT_FILES__"

  /** Unit separator, git's %x1f. */
  const Unit: char := '\U{1F}'

  datatype Commit = Commit(sha: string, committedAt: string, subject: string, body: string, paths: seq<string>,
                           order: nat)

  datatype Section = Outside | InCommit | InBody | InFiles

  datatype Parser = Parser(commits: seq<Commit>, current: Option<Commit>, bodyLines: seq<string>, section: Section)

  const Start := Parser([], None, [], Outside)

  // ---------------------------------------------------------------- the parser

  function CutAt(sep: char, s: string): (k: nat)
    ensures k <= |s| && sep !in s[..k] && (k < |s| ==> s[k] == sep)
  {
    if s == "" || s[0] == sep then 0 else 1 + CutAt(sep, s[1..])
  }

  /** At most n fields: the last one keeps any further separators. */
  function SplitN(sep: char, s: string, n: nat): (fields: seq<string>)
    requires n >= 1
  {
    var k := CutAt(sep, s);
    if n == 1 || k == |s| then [s] else [s[..k]] + SplitN(sep, s[k + 1..], n - 1)
  }

  /** Adds a value unless it is blank or, up to case, already there. */
  function AppendUnique(values: seq<string>, raw: string): seq<string> {
    var value := TrimSpace(raw);
    if value == "" || exists v :: v in values && ToLower(v) == ToLower(value) then values else values + [value]
  }

  predicate IsHeader(line: string) { CommitMarker <= TrimRight(IsReturn, line) }

  function Fields(line: string): seq<string>
    requires IsHeader(line)
  {
    SplitN(Unit, TrimRight(IsReturn, line)[|CommitMarker|..], 4)
  }

  function Flush(p: Parser): Parser {
    match p.current
    case None => p
    case Some(c) => Parser(p.commits + [c.(body := TrimSpace(Join('\n', p.bodyLines)))], None, [], Outside)
  }

  function Step(p: Parser, raw: string): Parser {
    var line := TrimRight(IsReturn, raw);
    if IsHeader(raw) then
      var q := Flush(p);
      var fields := Fields(raw);
      if |fields| < 4 then q
      else q.(current := Some(Commit(fields[1], fields[2], TrimSpace(fields[3]), "", [], |q.commits|)),
              section := InCommit)
    else if p.current.None? then p
    else if line == BodyMarker then p.(section := InBody)
    else if line == FilesMarker then p.(section := InFiles)
    else if p.section == InBody then p.(bodyLines := p.bodyLines + [line])
    else if p.section == InFiles && Normalize(line) != "" then
      p.(current := Some(p.current.value.(paths := AppendUnique(p.current.value.paths, Normalize(line)))))
    else p
  }

  function Run(p: Parser, lines: seq<string>): Parser
    decreases |lines|
  {
    if lines == [] then p else Run(Step(p, lines[0]), lines[1..])
  }

  function ParseLines(lines: seq<string>): seq<Commit> {
    Flush(Run(Start, lines)).commits
  }

  function Parse(raw: string): seq<Commit> {
    ParseLines(Split('\n', raw))
  }

  method ParseGitLog(raw: string) returns (commits: seq<Commit>)
    ensures commits == Parse(raw)
  {
    commits := [];
    var current: Option<Commit> := None;
    var bodyLines: seq<string> := [];
    var state := Outside;
    var lines := Split('\n', raw);
    assert lines[0..] == lines;
    for i := 0 to |lines|
      invariant Run(Parser(commits, current, bodyLines, state), lines[i..]) == Run(Start, lines)
      invariant current.None? ==> bodyLines == [] && state == Outside
    {
      assert lines[i..][1..] == lines[i + 1..];
      var line := TrimRight(IsReturn, lines[i]);
      if CommitMarker <= line {
        commits, current, bodyLines, state := FlushInto(commits, current, bodyLines, state);
        var fields := SplitN(Unit, line[|CommitMarker|..], 4);
        if |fields| < 4 {
          continue;
        }
        current := Some(Commit(fields[1], fields[2], TrimSpace(fields[3]), "", [], |commits|));
        state := InCommit;
        continue;
      }
      if current.None? {
        continue;
      }
      if line == BodyMarker {
        state := InBody;
        continue;
      }
      if line == FilesMarker {
        state := InFiles;
        continue;
      }
      if state == InBody {
        bodyLines := bodyLines + [line];
        continue;
      }
      if state == InFiles {
        var path := Normalize(line);
        if path != "" {
          current := Some(current.value.(paths := AppendUnique(current.value.paths, path)));
        }
      }
    }
    commits, current, bodyLines, state := FlushInto(commits, current, bodyLines, state);
  }

  /** The parser's flush closure. */
  method FlushInto(commits0: seq<Commit>, current0: Option<Commit>, bodyLines0: seq<string>, state0: Section)
    returns (commits: seq<Commit>, current: Option<Commit>, bodyLines: seq<string>, state: Section)
    ensures Parser(commits, current, bodyLines, state) == Flush(Parser(commits0, current0, bodyLines0, state0))
  {
    commits, current, bodyLines, state := commits0, current0, bodyLines0, state0;
    if current.None? {
      return;
    }
    commits := commits + [current.value.(body := TrimSpace(Join('\n', bodyLines)))];
    current, bodyLines, state := None, [], Outside;
  }

  // ---------------------------------------------------------------- parsing distributes over blocks

  function Shift(commits: seq<Commit>, offset: nat): seq<Commit> {
    seq(|commits|, i requires 0 <= i < |commits| => commits[i].(order := commits[i].order + offset))
  }

  /** The parser as it would be had it already produced some commits. */
  function Lift(done: seq<Commit>, p: Parser): Parser {
    Parser(done + Shift(p.commits, |done|),
           match p.current case None => None case Some(c) => Some(c.(order := c.order + |done|)),
           p.bodyLines, p.section)
  }

  lemma FlushLift(done: seq<Commit>, p: Parser)
    ensures Flush(Lift(done, p)) == Lift(done, Flush(p))
  {
    if p.current.Some? {
      var c := p.current.value.(body := TrimSpace(Join('\n', p.bodyLines)));
      assert Shift(p.commits + [c], |done|) == Shift(p.commits, |done|) + [c.(order := c.order + |done|)];
    }
  }

  lemma StepLift(done: seq<Commit>, p: Parser, line: string)
    ensures Step(Lift(done, p), line) == Lift(done, Step(p, line))
  {
    FlushLift(done, p);
  }

  lemma {:induction false} RunLift(done: seq<Commit>, p: Parser, lines: seq<string>)
    ensures Run(Lift(done, p), lines) == Lift(done, Run(p, lines))
    decreases |lines|
  {
    if lines != [] {
      StepLift(done, p, lines[0]);
      RunLift(done, Step(p, lines[0]), lines[1..]);
    }
  }

  lemma {:induction false} RunAppend(p: Parser, a: seq<string>, b: seq<string>)
    ensures Run(p, a + b) == Run(Run(p, a), b)
    decreases |a|
  {
    if a == [] {
      assert a + b == b;
    } else {
      assert (a + b)[1..] == a[1..] + b;
      RunAppend(Step(p, a[0]), a[1..], b);
    }
  }

  /** Without an open commit the parser holds nothing else. */
  predicate Tidy(p: Parser) {
    p.current.None? ==> p.bodyLines == [] && p.section == Outside
  }

  lemma {:induction false} RunTidy(p: Parser, lines: seq<string>)
    requires Tidy(p)
    ensures Tidy(Run(p, lines))
    decreases |lines|
  {
    if lines != [] {
      RunTidy(Step(p, lines[0]), lines[1..]);
    }
  }

  /** Parsing distributes over concatenation at a header line: the second part is parsed as if alone, and
      only its order numbers move on by the number of commits before it. */
  lemma ParseDistributes(a: seq<string>, b: seq<string>)
    requires b == [] || IsHeader(b[0])
    ensures ParseLines(a + b) == ParseLines(a) + Shift(ParseLines(b), |ParseLines(a)|)
  {
    var q := Run(Start, a);
    RunTidy(Start, a);
    RunAppend(Start, a, b);
    var done := ParseLines(a);
    if b == [] {
      assert Run(q, b) == q;
    } else {
      assert Flush(q) == Lift(done, Start);
      assert Step(q, b[0]) == Step(Flush(q), b[0]);
      RunLift(done, Start, b);
      assert Run(q, b) == Run(Flush(q), b);
      FlushLift(done, Run(Start, b));
    }
  }

  lemma MarkerSurvives(s: string)
    requires CommitMarker <= s
    ensures CommitMarker <= TrimRight(IsReturn, s)
  {
    var rest := s[|CommitMarker|..];
    assert s == CommitMarker + rest;
    TrimRightKeepsHead(CommitMarker, rest);
  }

  lemma {:induction false} TrimRightKeepsHead(head: string, rest: string)
    requires head != "" && head[|head| - 1] != '\r'
    ensures TrimRight(IsReturn, head + rest) == head + TrimRight(IsReturn, rest)
  {
    var s := head + rest;
    if rest == "" {
      assert s == head;
    } else if rest[|rest| - 1] == '\r' {
      assert s[..|s| - 1] == head + rest[..|rest| - 1];
      TrimRightKeepsHead(head, rest[..|rest| - 1]);
    }
  }

  lemma {:induction false} FirstLine(s: string, k: nat)
    requires k <= |s| && '\n' !in s[..k]
    ensures s[..k] <= Split('\n', s)[0]
  {
    if k > 0 {
      assert s[..k][1..] == s[1..][..k - 1];
      assert s[0] == s[..k][0] && s[0] != '\n';
      FirstLine(s[1..], k - 1);
    }
  }

  lemma NoNewlineInMarker()
    ensures '\n' !in CommitMarker
  {
  }

  /** The same on text: wherever a commit marker starts a line, the log may be cut there. */
  lemma ParseDistributesText(a: string, b: string)
    requires CommitMarker <= b
    ensures Parse(a + "\n" + b) == Parse(a) + Shift(Parse(b), |Parse(a)|)
  {
    SplitAppend('\n', a, b);
    NoNewlineInMarker();
    assert b[..|CommitMarker|] == CommitMarker;
    FirstLine(b, |CommitMarker|);
    MarkerSurvives(Split('\n', b)[0]);
    ParseDistributes(Split('\n', a), Split('\n', b));
  }

  lemma {:induction false} RunWithoutHeader(p: Parser, lines: seq<string>)
    requires p.current.None?
    requires forall l :: l in lines ==> !IsHeader(l)
    ensures Run(p, lines) == p
  {
    if lines != [] {
      assert lines[0] in lines;
      RunWithoutHeader(p, lines[1..]);
    }
  }

  /** A header with fewer than four fields drops its own block and nothing else. */
  lemma MalformedHeaderDropsItsBlock(a: seq<string>, header: string, block: seq<string>, b: seq<string>)
    requires IsHeader(header) && |Fields(header)| < 4
    requires forall l :: l in block ==> !IsHeader(l)
    requires b == [] || IsHeader(b[0])
    ensures ParseLines(a + ([header] + block) + b) == ParseLines(a) + Shift(ParseLines(b), |ParseLines(a)|)
  {
    var bad := [header] + block;
    assert bad[1..] == block;
    RunWithoutHeader(Start, block);
    assert ParseLines(bad) == [];
    ParseDistributes(a, bad);
    assert Shift([], |ParseLines(a)|) == [];
    ParseDistributes(a + bad, b);
  }

  // ---------------------------------------------------------------- the printed form

  function HeaderLine(c: Commit): string {
    CommitMarker + [Unit] + c.sha + [Unit] + c.committedAt + [Unit] + c.subject
  }

  /** git prints a body with its final newline, and nothing for an empty one. */
  function BodyLines(body: string): seq<string> {
    if body == "" then [""] else Split('\n', body) + [""]
  }

  /** One commit as the pretty format and --name-only print it, with the blank line between commits. */
  function PrintCommit(c: Commit): seq<string> {
    [HeaderLine(c), BodyMarker] + BodyLines(c.body) + [FilesMarker] + c.paths + [""]
  }

  function PrintLines(commits: seq<Commit>): seq<string> {
    if commits == [] then [] else PrintCommit(commits[0]) + PrintLines(commits[1..])
  }

  function Print(commits: seq<Commit>): string {
    Join('\n', PrintLines(commits))
  }

  /** A line that the parser takes as it is and not as a marker. */
  predicate PlainLine(l: string) {
    (l == "" || l[|l| - 1] != '\r') && '\n' !in l && !(CommitMarker <= l) && l != BodyMarker && l != FilesMarker
  }

  predicate DistinctFolded(paths: seq<string>) {
    forall i, j :: 0 <= i < j < |paths| ==> ToLower(paths[i]) != ToLower(paths[j])
  }

  predicate WellFormed(c: Commit) {
    && Unit !in c.sha && Unit !in c.committedAt
    && '\n' !in c.sha && '\n' !in c.committedAt && '\n' !in c.subject
    && Trimmed(IsSpace, c.subject) && Trimmed(IsSpace, c.body)
    && (forall l :: l in Split('\n', c.body) ==> PlainLine(l))
    && (forall p :: p in c.paths ==> PlainLine(p) && p != "" && Normalize(p) == p)
    && DistinctFolded(c.paths)
  }

  lemma PlainStays(l: string)
    requires PlainLine(l)
    ensures TrimRight(IsReturn, l) == l && !IsHeader(l)
  {
  }

  lemma SplitNStep(a: string, b: string, n: nat)
    requires Unit !in a && n > 1
    ensures SplitN(Unit, a + [Unit] + b, n) == [a] + SplitN(Unit, b, n - 1)
  {
    CutBefore(a, b);
  }

  lemma FieldsAssociate(sha: string, at: string, subject: string)
    ensures [Unit] + sha + [Unit] + at + [Unit] + subject == "" + [Unit] + (sha + [Unit] + (at + [Unit] + subject))
  {
  }

  lemma SplitNAtUnits(sha: string, at: string, subject: string)
    requires Unit !in sha && Unit !in at
    ensures SplitN(Unit, [Unit] + sha + [Unit] + at + [Unit] + subject, 4) == ["", sha, at, subject]
  {
    FieldsAssociate(sha, at, subject);
    SplitNThree(sha, at, subject);
    SplitNBehindUnit(sha + [Unit] + (at + [Unit] + subject));
    assert [""] + [sha, at, subject] == ["", sha, at, subject];
  }

  lemma SplitNBehindUnit(rest: string)
    ensures SplitN(Unit, "" + [Unit] + rest, 4) == [""] + SplitN(Unit, rest, 3)
  {
    SplitNStep("", rest, 4);
  }

  lemma SplitNThree(a: string, b: string, c: string)
    requires Unit !in a && Unit !in b
    ensures SplitN(Unit, a + [Unit] + (b + [Unit] + c), 3) == [a, b, c]
  {
    SplitNStep(a, b + [Unit] + c, 3);
    SplitNStep(b, c, 2);
    assert SplitN(Unit, c, 1) == [c];
  }

  lemma {:induction false} CutBefore(a: string, b: string)
    requires Unit !in a
    ensures var s := a + [Unit] + b; CutAt(Unit, s) == |a| && s[..|a|] == a && s[|a| + 1..] == b
  {
    if a != "" {
      CutBefore(a[1..], b);
      assert (a + [Unit] + b)[1..] == a[1..] + [Unit] + b;
    }
  }

  lemma StepHeader(p: Parser, c: Commit)
    requires WellFormed(c) && p.current.None? && p.bodyLines == []
    ensures IsHeader(HeaderLine(c))
    ensures Step(p, HeaderLine(c))
            == Parser(p.commits, Some(Commit(c.sha, c.committedAt, c.subject, "", [], |p.commits|)), [], InCommit)
  {
    var rest := [Unit] + c.sha + [Unit] + c.committedAt + [Unit] + c.subject;
    var line := HeaderLine(c);
    assert line == CommitMarker + rest;
    assert line[|line| - 1] == if c.subject == "" then Unit else c.subject[|c.subject| - 1];
    assert TrimRight(IsReturn, line) == line;
    assert line[|CommitMarker|..] == rest;
    SplitNAtUnits(c.sha, c.committedAt, c.subject);
    TrimReaches(IsSpace, c.subject);
  }

  lemma {:induction false} RunBody(p: Parser, lines: seq<string>)
    requires p.current.Some? && p.section == InBody
    requires forall l :: l in lines ==> PlainLine(l)
    ensures Run(p, lines) == p.(bodyLines := p.bodyLines + lines)
    decreases |lines|
  {
    if lines == [] {
    } else {
      var l := lines[0];
      assert l in lines;
      PlainStays(l);
      var p' := p.(bodyLines := p.bodyLines + [l]);
      assert Step(p, l) == p';
      RunBody(p', lines[1..]);
      assert p.bodyLines + lines == p.bodyLines + [l] + lines[1..];
    }
  }

  lemma AppendUniqueNew(values: seq<string>, value: string)
    requires Normalize(value) == value && value != ""
    requires forall v :: v in values ==> ToLower(v) != ToLower(value)
    ensures AppendUnique(values, value) == values + [value]
  {
    NormalizeTwice(value);
    TrimReaches(IsSpace, value);
  }

  lemma {:induction false} RunFiles(p: Parser, paths: seq<string>)
    requires p.current.Some? && p.section == InFiles
    requires forall q :: q in paths ==> PlainLine(q) && q != "" && Normalize(q) == q
    requires DistinctFolded(p.current.value.paths + paths)
    ensures Run(p, paths) == p.(current := Some(p.current.value.(paths := p.current.value.paths + paths)))
    decreases |paths|
  {
    var c := p.current.value;
    if paths == [] {
      assert c.paths + paths == c.paths;
    } else {
      var path := paths[0];
      assert path in paths;
      PlainStays(path);
      forall v | v in c.paths ensures ToLower(v) != ToLower(path) {
        var i :| 0 <= i < |c.paths| && c.paths[i] == v;
        var all := c.paths + paths;
        assert all[i] == v && all[|c.paths|] == path;
      }
      AppendUniqueNew(c.paths, path);
      var p' := p.(current := Some(c.(paths := c.paths + [path])));
      assert Step(p, path) == p';
      assert c.paths + paths == c.paths + [path] + paths[1..];
      assert forall q :: q in paths[1..] ==> q in paths;
      RunFiles(p', paths[1..]);
    }
  }

  lemma MarkersDiffer()
    ensures BodyMarker != FilesMarker && !(CommitMarker <= BodyMarker) && !(CommitMarker <= FilesMarker)
    ensures TrimRight(IsReturn, BodyMarker) == BodyMarker && TrimRight(IsReturn, FilesMarker) == FilesMarker
    ensures PlainLine("")
  {
    assert CommitMarker[24] == 'C' && BodyMarker[24] == 'B' && FilesMarker[24] == 'F';
  }

  lemma BodySurvives(body: string)
    requires Trimmed(IsSpace, body)
    ensures TrimSpace(Join('\n', BodyLines(body))) == body
  {
    TrimReaches(IsSpace, body);
    if body != "" {
      JoinAppend('\n', Split('\n', body), [""]);
      JoinSplit('\n', body);
      assert body + "\n" + "" == "" + body + "\n";
      TrimPadding(IsSpace, "", body, "\n");
    }
  }

  lemma RunTwo(p: Parser, a: string, b: string)
    ensures Run(p, [a, b]) == Step(Step(p, a), b)
  {
    assert [a, b][1..] == [b] && [b][1..] == [];
    assert Run(Step(p, a), [b]) == Run(Step(Step(p, a), b), []);
  }

  lemma RunOpening(c: Commit)
    requires WellFormed(c)
    ensures Run(Start, [HeaderLine(c), BodyMarker])
            == Parser([], Some(Commit(c.sha, c.committedAt, c.subject, "", [], 0)), [], InBody)
  {
    MarkersDiffer();
    StepHeader(Start, c);
    RunTwo(Start, HeaderLine(c), BodyMarker);
  }

  lemma RunBodyAndMarker(p: Parser, lines: seq<string>)
    requires p.current.Some? && p.section == InBody && p.bodyLines == []
    requires forall l :: l in lines ==> PlainLine(l)
    ensures Run(p, lines + [FilesMarker]) == p.(bodyLines := lines, section := InFiles)
  {
    MarkersDiffer();
    RunAppend(p, lines, [FilesMarker]);
    RunBody(p, lines);
    var p' := p.(bodyLines := lines);
    assert [FilesMarker][1..] == [];
    assert Run(p', [FilesMarker]) == Run(Step(p', FilesMarker), []);
  }

  lemma RunPathsAndBlank(p: Parser, paths: seq<string>)
    requires p.current.Some? && p.section == InFiles && p.current.value.paths == []
    requires forall q :: q in paths ==> PlainLine(q) && q != "" && Normalize(q) == q
    requires DistinctFolded(paths)
    ensures Run(p, paths + [""]) == p.(current := Some(p.current.value.(paths := paths)))
  {
    MarkersDiffer();
    PlainStays("");
    RunAppend(p, paths, [""]);
    assert [] + paths == paths;
    RunFiles(p, paths);
    var p' := p.(current := Some(p.current.value.(paths := paths)));
    assert [""][1..] == [] && Normalize("") == "";
    assert Run(p', [""]) == Run(Step(p', ""), []);
  }

  lemma RunCommit(c: Commit)
    requires WellFormed(c)
    ensures Run(Start, PrintCommit(c))
            == Parser([], Some(Commit(c.sha, c.committedAt, c.subject, "", c.paths, 0)), BodyLines(c.body), InFiles)
  {
    MarkersDiffer();
    var opening, middle, closing := [HeaderLine(c), BodyMarker], BodyLines(c.body) + [FilesMarker], c.paths + [""];
    assert PrintCommit(c) == opening + (middle + closing);
    RunAppend(Start, opening, middle + closing);
    RunOpening(c);
    RunAppend(Run(Start, opening), middle, closing);
    RunBodyAndMarker(Run(Start, opening), BodyLines(c.body));
    RunPathsAndBlank(Run(Run(Start, opening), middle), c.paths);
  }

  /** The commits, numbered by their position. */
  function Numbered(commits: seq<Commit>): seq<Commit> {
    seq(|commits|, i requires 0 <= i < |commits| => commits[i].(order := i))
  }

  lemma ParseOne(c: Commit)
    requires WellFormed(c)
    ensures ParseLines(PrintCommit(c)) == [c.(order := 0)]
  {
    RunCommit(c);
    BodySurvives(c.body);
  }

  lemma NumberedCons(c: Commit, rest: seq<Commit>)
    ensures Numbered([c] + rest) == [c.(order := 0)] + Shift(Numbered(rest), 1)
  {
  }

  lemma PrintStartsWithHeader(commits: seq<Commit>)
    requires commits != [] && WellFormed(commits[0])
    ensures PrintLines(commits) != [] && IsHeader(PrintLines(commits)[0])
  {
    StepHeader(Start, commits[0]);
  }

  lemma {:induction false} ParsePrintedLines(commits: seq<Commit>)
    requires forall c :: c in commits ==> WellFormed(c)
    ensures ParseLines(PrintLines(commits)) == Numbered(commits)
  {
    if commits == [] {
      assert Run(Start, []) == Start;
    } else {
      var c, rest := commits[0], commits[1..];
      assert c in commits && forall d :: d in rest ==> d in commits;
      assert commits == [c] + rest;
      ParseOne(c);
      ParsePrintedLines(rest);
      if rest != [] {
        assert rest[0] in rest;
        PrintStartsWithHeader(rest);
      }
      ParseDistributes(PrintCommit(c), PrintLines(rest));
      NumberedCons(c, rest);
    }
  }

  lemma {:induction false} PrintedLinesPlain(commits: seq<Commit>)
    requires forall c :: c in commits ==> WellFormed(c)
    ensures forall l :: l in PrintLines(commits) ==> '\n' !in l
  {
    if commits != [] {
      var c := commits[0];
      assert c in commits;
      PrintedLinesPlain(commits[1..]);
      SplitParts('\n', c.body);
      NoNewlineInMarker();
      assert '\n' !in HeaderLine(c) && '\n' !in BodyMarker && '\n' !in FilesMarker;
    }
  }

  /** Round trip: parsing the printed form of any list of well-formed commits returns exactly those
      commits, numbered in order. */
  lemma ParsePrinted(commits: seq<Commit>)
    requires forall c :: c in commits ==> WellFormed(c)
    ensures Parse(Print(commits)) == Numbered(commits)
  {
    if commits == [] {
      assert Split('\n', "") == [""];
      RunWithoutHeader(Start, [""]);
      assert Numbered(commits) == [];
    } else {
      PrintedLinesPlain(commits);
      SplitJoin('\n', PrintLines(commits));
      ParsePrintedLines(commits);
    }
  }

  // ---------------------------------------------------------------- what any text parses to

  /** No two of the paths are equal up to case, and none is blank or has blanks at an end. */
  ghost predicate CleanPaths(paths: seq<string>) {
    && (forall path :: path in paths ==> path != "" && Trimmed(IsSpace, path))
    && forall i, j :: 0 <= i < j < |paths| ==> ToLower(paths[i]) != ToLower(paths[j])
  }

  lemma AppendUniqueClean(values: seq<string>, raw: string)
    requires CleanPaths(values)
    ensures CleanPaths(AppendUnique(values, raw)) && values <= AppendUnique(values, raw)
  {
    TrimReaches(IsSpace, raw);
    assert forall i :: 0 <= i < |values| ==> values[i] in values;
  }

  /** The commits so far are numbered in order and clean, and so is the one at hand. */
  ghost predicate CleanParser(p: Parser) {
    && (forall i :: 0 <= i < |p.commits| ==>
          p.commits[i].order == i && CleanPaths(p.commits[i].paths) && Trimmed(IsSpace, p.commits[i].subject)
          && Trimmed(IsSpace, p.commits[i].body))
    && (p.current.Some? ==>
          p.current.value.order == |p.commits| && CleanPaths(p.current.value.paths)
          && Trimmed(IsSpace, p.current.value.subject))
  }

  lemma FlushClean(p: Parser)
    requires CleanParser(p)
    ensures CleanParser(Flush(p)) && Flush(p).current.None?
  {
    TrimReaches(IsSpace, Join('\n', p.bodyLines));
  }

  lemma HeaderClean(p: Parser, line: string)
    requires CleanParser(p) && IsHeader(line)
    ensures CleanParser(Step(p, line))
  {
    FlushClean(p);
    if |Fields(line)| >= 4 {
      TrimReaches(IsSpace, Fields(line)[3]);
    }
  }

  lemma StepClean(p: Parser, line: string)
    requires CleanParser(p)
    ensures CleanParser(Step(p, line))
  {
    if IsHeader(line) {
      HeaderClean(p, line);
    } else if p.current.Some? {
      AppendUniqueClean(p.current.value.paths, Normalize(TrimRight(IsReturn, line)));
    }
  }

  lemma {:induction false} RunClean(p: Parser, lines: seq<string>)
    requires CleanParser(p)
    ensures CleanParser(Run(p, lines))
    decreases |lines|
  {
    if lines != [] {
      StepClean(p, lines[0]);
      RunClean(Step(p, lines[0]), lines[1..]);
    }
  }

  /** Whatever the text, the commits are numbered in order, no commit lists a blank path or two that are equal up to
      case, and subjects and bodies have no blanks at their ends. */
  lemma ParsedClean(raw: string, i: nat)
    requires i < |Parse(raw)|
    ensures var c := Parse(raw)[i];
            && c.order == i && Trimmed(IsSpace, c.subject) && Trimmed(IsSpace, c.body)
            && (forall path :: path in c.paths ==> path != "" && Trimmed(IsSpace, path))
            && forall j, k :: 0 <= j < k < |c.paths| ==> ToLower(c.paths[j]) != ToLower(c.paths[k])
  {
    RunClean(Start, Split('\n', raw));
    FlushClean(Run(Start, Split('\n', raw)));
  }

  /** The path of a line, in lower case; blank when the line names none. */
  function FoldedPath(line: string): string {
    ToLower(TrimSpace(Normalize(TrimRight(IsReturn, line))))
  }

  ghost predicate HasFolded(paths: seq<string>, folded: string) {
    exists path :: path in paths && ToLower(path) == folded
  }

  /** A line that is neither a header nor one of the two markers. */
  predicate IsContent(line: string) {
    !IsHeader(line) && TrimRight(IsReturn, line) != BodyMarker && TrimRight(IsReturn, line) != FilesMarker
  }

  lemma AppendUniqueHas(values: seq<string>, raw: string, folded: string)
    ensures HasFolded(AppendUnique(values, raw), folded)
       <==> HasFolded(values, folded) || (ToLower(TrimSpace(raw)) == folded && folded != "")
  {
    var value := TrimSpace(raw);
    var after := AppendUnique(values, raw);
    assert ToLower(value) == "" <==> value == "";
    assert forall path :: path in after ==> path in values || path == value;
    if after != values {
      assert after == values + [value] && forall path :: path in values ==> path in after;
      assert value in after;
    }
  }

  lemma FileLine(p: Parser, line: string, folded: string)
    requires p.current.Some? && p.section == InFiles && IsContent(line)
    ensures var q := Step(p, line);
            && q == p.(current := q.current) && q.current.Some?
            && q.current.value == p.current.value.(paths := q.current.value.paths)
            && p.current.value.paths <= q.current.value.paths
            && (HasFolded(q.current.value.paths, folded)
                <==> HasFolded(p.current.value.paths, folded) || (FoldedPath(line) == folded && folded != ""))
  {
    AppendUniqueHas(p.current.value.paths, Normalize(TrimRight(IsReturn, line)), folded);
  }

  /** Behind the files marker a commit lists the path of every line up to the next header or marker, once however it
      is spelt, and nothing else; paths listed before stay, the first spelling of each, in order. */
  lemma {:induction false} FilesExactly(p: Parser, lines: seq<string>, folded: string)
    requires p.current.Some? && p.section == InFiles && forall line :: line in lines ==> IsContent(line)
    ensures var q := Run(p, lines);
            && q == p.(current := q.current) && q.current.Some?
            && q.current.value == p.current.value.(paths := q.current.value.paths)
            && p.current.value.paths <= q.current.value.paths
            && (HasFolded(q.current.value.paths, folded)
                <==> || HasFolded(p.current.value.paths, folded)
                     || (folded != "" && exists line :: line in lines && FoldedPath(line) == folded))
    decreases |lines|
  {
    if lines != [] {
      assert lines[0] in lines && forall line :: line in lines <==> line == lines[0] || line in lines[1..];
      FileLine(p, lines[0], folded);
      FilesExactly(Step(p, lines[0]), lines[1..], folded);
    }
  }
}
