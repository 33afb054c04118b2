/** Markdown text as sections of lines: a section reaches to the next level-two heading that starts a line, and
    what it reads as is a matter of its lines (change.go). */
module Sections {

  import opened Text

  const SectionMark := "\n" + "## "

  predicate OpensSection(line: string) { "## " <= line }

  /** The section's text: up to the next level-two heading. */
  function SectionText(rest: string): (text: string)
    ensures text <= rest
  {
    var next := Index(rest, SectionMark);
    if 0 <= next <= |rest| then rest[..next] else rest
  }

  /** Text in which no line but possibly the first opens a level-two section. */
  predicate Sectionless(text: string) {
    Index(text, SectionMark) == -1
  }

  // ---------------------------------------------------------------- the place of a pattern is stable

  lemma AtStable(s: string, t: string, pat: string, n: nat, i: int)
    requires n <= |s| && n <= |t| && s[..n] == t[..n] && i + |pat| <= n
    ensures At(s, i, pat) <==> At(t, i, pat)
  {
    if 0 <= i {
      assert s[i..i + |pat|] == s[..n][i..i + |pat|];
      assert t[i..i + |pat|] == t[..n][i..i + |pat|];
    }
  }

  /** Where a pattern is first found does not depend on the text behind its first occurrence. */
  lemma IndexStable(s: string, t: string, pat: string, n: nat)
    requires n <= |s| && n <= |t| && s[..n] == t[..n]
    requires 0 <= Index(s, pat) && Index(s, pat) + |pat| <= n
    ensures Index(t, pat) == Index(s, pat)
  {
    var i := Index(s, pat);
    IndexIsFirst(s, pat);
    AtStable(s, t, pat, n, i);
    forall j | 0 <= j < i ensures !At(t, j, pat) {
      AtStable(s, t, pat, n, j);
    }
    IndexAt(t, pat, i);
  }

  // ---------------------------------------------------------------- sections line by line

  lemma {:induction false} PrefixOfFirstLine(text: string, pre: string)
    requires '\n' !in pre
    ensures pre <= text <==> pre <= Split('\n', text)[0]
  {
    if pre != "" && text != "" {
      assert pre == [pre[0]] + pre[1..] && text == [text[0]] + text[1..];
      if text[0] != '\n' {
        PrefixOfFirstLine(text[1..], pre[1..]);
        var line := Split('\n', text)[0];
        assert line == [text[0]] + Split('\n', text[1..])[0];
        assert pre <= text <==> pre[0] == text[0] && pre[1..] <= text[1..];
        assert pre <= line <==> pre[0] == line[0] && pre[1..] <= line[1..];
      }
    }
  }

  lemma MarkStep(text: string)
    requires text != ""
    ensures SectionMark <= text <==> text[0] == '\n' && OpensSection(text[1..])
    ensures Sectionless(text) <==> !(text[0] == '\n' && OpensSection(text[1..])) && Sectionless(text[1..])
  {
    assert SectionMark == ['\n'] + "## " && text == [text[0]] + text[1..];
    assert SectionMark[1..] == "## ";
    if SectionMark <= text {
      assert text[1..][..3] == text[..4][1..];
    }
    if text[0] == '\n' && OpensSection(text[1..]) {
      assert text[..4] == ['\n'] + text[1..][..3];
    }
  }

  ghost predicate NoHeadings(lines: seq<string>) {
    forall k :: 0 <= k < |lines| ==> !OpensSection(lines[k])
  }

  lemma {:induction false} SectionlessLines(text: string)
    ensures Sectionless(text) <==> NoHeadings(Split('\n', text)[1..])
  {
    if text == "" {
      IndexAbsent("", SectionMark);
    } else {
      var inner := Split('\n', text[1..]);
      MarkStep(text);
      SectionlessLines(text[1..]);
      PrefixOfFirstLine(text[1..], "## ");
      if text[0] == '\n' {
        assert Split('\n', text)[1..] == inner;
        assert inner == [inner[0]] + inner[1..];
        assert NoHeadings(inner) <==> !OpensSection(inner[0]) && NoHeadings(inner[1..]);
      } else {
        assert Split('\n', text)[1..] == inner[1..];
      }
    }
  }

  /** A text closed by a newline, followed by nothing or by a section heading, is a section's text. */
  lemma {:induction false} SectionTextOf(text: string, post: string)
    requires Sectionless(text) && text != "" && text[|text| - 1] == '\n'
    requires post == "" || SectionMark <= post
    ensures SectionText(text + post) == text
  {
    var s := text + post;
    forall j | 0 <= j < |text| ensures !At(s, j, SectionMark) {
      IndexIsFirst(text, SectionMark);
      if j + 4 <= |text| {
        assert s[j..j + 4] == text[j..j + 4];
        assert !At(text, j, SectionMark);
      } else if j + 4 <= |s| {
        var w := s[j..j + 4];
        assert w[|text| - 1 - j] == '\n';
        assert SectionMark[1] == '#' && SectionMark[2] == '#' && SectionMark[3] == ' ';
        if j == |text| - 1 {
          assert w[1] == post[0] == '\n';
        }
      }
    }
    if post == "" {
      assert s == text;
      IndexAbsent(s, SectionMark);
    } else {
      assert s[|text|..|text| + 4] == post[..4] == SectionMark;
      IndexAt(s, SectionMark, |text|);
    }
  }

  /** A section's text stops before the first heading: none of its later lines opens a section. */
  lemma SectionTextSectionless(rest: string)
    ensures Sectionless(SectionText(rest)) && SectionText(rest) <= rest
    ensures rest[|SectionText(rest)|..] == "" || SectionMark <= rest[|SectionText(rest)|..]
  {
    var text := SectionText(rest);
    IndexIsFirst(rest, SectionMark);
    forall j | 0 <= j <= |text| ensures !At(text, j, SectionMark) {
      if j + 4 <= |text| {
        assert text[j..j + 4] == rest[j..j + 4];
        assert !At(rest, j, SectionMark);
      }
    }
    IndexAbsent(text, SectionMark);
    var next := Index(rest, SectionMark);
    if next >= 0 {
      assert rest[next..][..4] == rest[next..next + 4];
    }
  }

  lemma LineThen(line: string, text: string)
    requires '\n' !in line
    ensures Split('\n', line + "\n" + text) == [line] + Split('\n', text)
  {
    SplitAppend('\n', line, text);
    SplitFree('\n', line);
  }

  // ---------------------------------------------------------------- rebuilding a section

  /** Lines without the blank ones at the end. */
  function Compact(lines: seq<string>): seq<string> {
    if lines != [] && lines[|lines| - 1] == "" then Compact(lines[..|lines| - 1]) else lines
  }

  function Rebuild(lines: seq<string>): string {
    var rebuilt := TrimRight(IsNewline, Join('\n', lines));
    if rebuilt != "" then rebuilt + "\n" else rebuilt
  }

  ghost predicate LinesOfText(lines: seq<string>) {
    forall line :: line in lines ==> '\n' !in line
  }

  lemma {:induction false} TrimJoined(lines: seq<string>)
    requires LinesOfText(lines)
    ensures TrimRight(IsNewline, Join('\n', lines)) == Join('\n', Compact(lines))
  {
    if lines != [] {
      var n := |lines| - 1;
      var last := lines[n];
      assert last in lines;
      if n == 0 {
        if last != "" {
          assert last[|last| - 1] in last;
        }
      } else {
        JoinAppend('\n', lines[..n], [last]);
        assert lines == lines[..n] + [last];
        var s := Join('\n', lines);
        assert s == Join('\n', lines[..n]) + "\n" + last;
        if last == "" {
          assert s[..|s| - 1] == Join('\n', lines[..n]);
          TrimJoined(lines[..n]);
        } else {
          assert s[|s| - 1] == last[|last| - 1] && last[|last| - 1] in last;
        }
      }
    }
  }

  lemma {:induction false} CompactPart(lines: seq<string>)
    ensures Compact(lines) <= lines
    ensures Compact(lines) == [] || Compact(lines)[|Compact(lines)| - 1] != ""
    ensures forall k :: |Compact(lines)| <= k < |lines| ==> lines[k] == ""
  {
    if lines != [] && lines[|lines| - 1] == "" {
      CompactPart(lines[..|lines| - 1]);
    }
  }

  lemma {:induction false} JoinNonblank(lines: seq<string>)
    requires lines != [] && lines[|lines| - 1] != ""
    ensures Join('\n', lines) != ""
  {
    if |lines| > 1 {
      JoinAppend('\n', lines[..|lines| - 1], [lines[|lines| - 1]]);
      assert lines == lines[..|lines| - 1] + [lines[|lines| - 1]];
    }
  }

  /** Rebuilding lines that are not all blank keeps them up to the last nonblank one and closes the
      text with one newline. */
  lemma RebuildLines(lines: seq<string>)
    requires LinesOfText(lines) && Compact(lines) != []
    ensures Split('\n', Rebuild(lines)) == Compact(lines) + [""]
    ensures Rebuild(lines) != "" && Rebuild(lines)[|Rebuild(lines)| - 1] == '\n'
  {
    TrimJoined(lines);
    CompactPart(lines);
    var kept := Compact(lines);
    JoinNonblank(kept);
    JoinAppend('\n', kept, [""]);
    assert Rebuild(lines) == Join('\n', kept + [""]);
    SplitJoin('\n', kept + [""]);
  }

  lemma {:induction false} CompactKeepsUpTo(lines: seq<string>, k: nat)
    requires k < |lines| && lines[k] != ""
    ensures |Compact(lines)| > k && Compact(lines)[..k + 1] == lines[..k + 1]
  {
    CompactPart(lines);
  }

  lemma {:induction false} CompactTwice(lines: seq<string>)
    ensures Compact(Compact(lines) + [""]) == Compact(lines)
  {
    CompactPart(lines);
    var kept := Compact(lines);
    assert (kept + [""])[..|kept|] == kept;
  }

  lemma RebuildTwice(lines: seq<string>)
    requires LinesOfText(lines)
    ensures Rebuild(Compact(lines) + [""]) == Rebuild(lines)
  {
    CompactTwice(lines);
    CompactPart(lines);
    TrimJoined(lines);
    TrimJoined(Compact(lines) + [""]);
  }

  /** Text behind a heading does not matter to the section before it. */
  lemma SectionTextClosed(text: string, tail: string)
    requires !Sectionless(text)
    ensures SectionText(text + tail) == SectionText(text)
  {
    IndexIsFirst(text, SectionMark);
    assert (text + tail)[..|text|] == text;
    IndexStable(text, text + tail, SectionMark, |text|);
    var k := Index(text, SectionMark);
    assert (text + tail)[..k] == text[..k];
  }

  lemma SectionTextBefore(rest: string, tail: string)
    requires SectionMark <= tail
    ensures SectionText(rest + tail) == SectionText(rest)
  {
    var s := rest + tail;
    var k := Index(rest, SectionMark);
    IndexIsFirst(rest, SectionMark);
    if k >= 0 {
      IndexStable(rest, s, SectionMark, |rest|);
    } else {
      forall j | 0 <= j < |rest| ensures !At(s, j, SectionMark) {
        if j + 4 <= |rest| {
          AtStable(rest, s, SectionMark, |rest|, j);
        } else if j + 4 <= |s| {
          assert s[j..j + 4][|rest| - j] == tail[0] == SectionMark[0] == '\n';
          assert SectionMark[1] == '#' && SectionMark[2] == '#' && SectionMark[3] == ' ';
        }
      }
      assert s[|rest|..|rest| + 4] == tail[..4];
      IndexAt(s, SectionMark, |rest|);
    }
  }

  // ---------------------------------------------------------------- the lines of a section

  /** The lines in front of the first that opens a section. */
  function UpTo(lines: seq<string>): seq<string> {
    if lines == [] || OpensSection(lines[0]) then [] else [lines[0]] + UpTo(lines[1..])
  }

  /** The lines of the section these lines start in: the first line cannot close it. */
  function Visible(lines: seq<string>): seq<string> {
    if lines == [] then [] else [lines[0]] + UpTo(lines[1..])
  }

  /** The lines of two texts in a row: the last line of the one runs on into the first line of the other. */
  function Seam(a: seq<string>, b: seq<string>): seq<string>
    requires a != [] && b != []
  {
    a[..|a| - 1] + [a[|a| - 1] + b[0]] + b[1..]
  }

  lemma {:induction false} UpToAppend(a: seq<string>, b: seq<string>)
    ensures UpTo(a + b) == if NoHeadings(a) then a + UpTo(b) else UpTo(a)
  {
    if a == [] {
      assert a + b == b;
    } else {
      assert (a + b)[0] == a[0] && (a + b)[1..] == a[1..] + b;
      UpToAppend(a[1..], b);
      assert a == [a[0]] + a[1..];
      assert NoHeadings(a) <==> !OpensSection(a[0]) && NoHeadings(a[1..]);
    }
  }

  lemma UpToAll(lines: seq<string>)
    requires NoHeadings(lines)
    ensures UpTo(lines) == lines
  {
    UpToAppend(lines, []);
    assert lines + [] == lines;
  }

  lemma SectionTextStep(text: string)
    requires text != ""
    ensures SectionText(text) == if SectionMark <= text then "" else [text[0]] + SectionText(text[1..])
  {
    IndexIsFirst(text, SectionMark);
    if !(SectionMark <= text) {
      assert text == [text[0]] + text[1..];
      var k := Index(text[1..], SectionMark);
      IndexIsFirst(text[1..], SectionMark);
      if k >= 0 {
        assert text[..k + 1] == [text[0]] + text[1..][..k];
      }
    }
  }

  /** The lines of a section's text are the visible ones. */
  lemma {:induction false} SectionIsVisible(text: string)
    ensures Split('\n', SectionText(text)) == Visible(Split('\n', text))
  {
    if text == "" {
      assert SectionText("") == "";
    } else {
      var inner := Split('\n', text[1..]);
      SectionIsVisible(text[1..]);
      SectionTextStep(text);
      MarkStep(text);
      PrefixOfFirstLine(text[1..], "## ");
      VisibleStep(text[0], SectionText(text[1..]), text[1..], inner);
    }
  }

  lemma VisibleStep(c: char, section: string, text: string, inner: seq<string>)
    requires Split('\n', section) == Visible(inner) && Split('\n', text) == inner
    ensures c == '\n' && OpensSection(inner[0]) ==> Visible(Split('\n', [c] + text)) == [""]
    ensures !(c == '\n' && OpensSection(inner[0])) ==> Split('\n', [c] + section) == Visible(Split('\n', [c] + text))
  {
    assert ([c] + text)[1..] == text && ([c] + section)[1..] == section;
    assert ([""] + inner)[1..] == inner;
    if c != '\n' {
      assert ([[c] + inner[0]] + inner[1..])[1..] == inner[1..];
      assert Visible(inner)[1..] == UpTo(inner[1..]);
    }
  }

  /** The lines of the text behind a section's end. */
  function LinesBehind(post: string): seq<string> {
    if post == "" then [] else Split('\n', post[1..])
  }

  lemma SplitAtSection(text: string, post: string)
    requires post == "" || SectionMark <= post
    ensures Split('\n', text + post) == Split('\n', text) + LinesBehind(post)
    ensures LinesBehind(post) == [] || OpensSection(LinesBehind(post)[0])
  {
    if post == "" {
      assert text + post == text && Split('\n', text) + [] == Split('\n', text);
    } else {
      var behind := post[1..];
      MarkStep(post);
      PrefixOfFirstLine(behind, "## ");
      SplitAppend('\n', text, behind);
      assert post == "\n" + behind;
      assert text + post == text + "\n" + behind;
    }
  }

  lemma {:induction false} SplitSeam(a: string, b: string)
    ensures Split('\n', a + b) == Seam(Split('\n', a), Split('\n', b))
  {
    var rest := Split('\n', b);
    if a == "" {
      assert a + b == b;
      SeamBlank(rest);
    } else {
      assert (a + b)[0] == a[0] && (a + b)[1..] == a[1..] + b;
      SplitSeam(a[1..], b);
      SeamStep(a[0], Split('\n', a[1..]), rest);
    }
  }

  lemma SeamBlank(lines: seq<string>)
    requires lines != []
    ensures Seam([""], lines) == lines
  {
    assert "" + lines[0] == lines[0];
  }

  lemma SeamStep(c: char, a: seq<string>, b: seq<string>)
    requires a != [] && b != []
    ensures Seam([""] + a, b) == [""] + Seam(a, b)
    ensures Seam([[c] + a[0]] + a[1..], b) == [[c] + Seam(a, b)[0]] + Seam(a, b)[1..]
  {
    var n := |a| - 1;
    assert ([""] + a)[..n + 1] == [""] + a[..n];
    if n == 0 {
      assert [c] + (a[0] + b[0]) == ([c] + a[0]) + b[0];
      assert Seam(a, b) == [a[0] + b[0]] + b[1..];
      assert Seam([[c] + a[0]] + a[1..], b) == [[c] + a[0] + b[0]] + b[1..];
    } else {
      assert ([[c] + a[0]] + a[1..])[..n] == [[c] + a[0]] + a[1..][..n - 1];
      assert a[..n] == [a[0]] + a[1..][..n - 1];
    }
  }

  lemma VisibleStops(lines: seq<string>, tail: seq<string>)
    requires lines != [] && (tail == [] || OpensSection(tail[0]))
    ensures Visible(lines + tail) == Visible(lines)
  {
    assert (lines + tail)[1..] == lines[1..] + tail;
    UpToAppend(lines[1..], tail);
    if NoHeadings(lines[1..]) {
      UpToAll(lines[1..]);
      assert lines[1..] + [] == lines[1..];
    }
  }

  lemma SeamTail(a: seq<string>, b: seq<string>, tail: seq<string>)
    requires a != [] && b != []
    ensures Seam(a, b + tail) == Seam(a, b) + tail
  {
    assert (b + tail)[1..] == b[1..] + tail;
  }

  /** The section that a text starts in, when another text with a known section follows. */
  lemma SectionOfParts(gap: string, text: string, post: string)
    requires post == "" || SectionMark <= post
    ensures Split('\n', SectionText(gap + (text + post))) == Visible(Seam(Split('\n', gap), Split('\n', text)))
  {
    SectionIsVisible(gap + (text + post));
    SplitSeam(gap, text + post);
    SplitAtSection(text, post);
    SeamTail(Split('\n', gap), Split('\n', text), LinesBehind(post));
    VisibleStops(Seam(Split('\n', gap), Split('\n', text)), LinesBehind(post));
  }

  // ---------------------------------------------------------------- what a seam hides

  /** A section closes before the seam of the lines with a text that starts with this line, or there. */
  ghost predicate Hidden(lines: seq<string>, first: string)
    requires lines != []
  {
    |lines| > 1 && (!NoHeadings(lines[1..]) || OpensSection(lines[|lines| - 1] + first))
  }

  lemma RunOnOpens(line: string, more: string)
    ensures OpensSection(line) ==> OpensSection(line + more)
  {
    if OpensSection(line) {
      assert (line + more)[..3] == line[..3];
    }
  }

  lemma HiddenVisible(a: seq<string>, b: seq<string>)
    requires a != [] && b != [] && Hidden(a, b[0])
    ensures Visible(Seam(a, b)) == Visible(a[..|a| - 1])
  {
    var n := |a| - 1;
    var x, inner := a[n], a[1..n];
    assert a[1..] == inner + [x] && a[..n][1..] == inner;
    assert Seam(a, b)[1..] == inner + ([x + b[0]] + b[1..]);
    UpToAppend(inner, [x + b[0]] + b[1..]);
    if NoHeadings(inner) {
      RunOnOpens(x, b[0]);
      assert NoHeadings(a[1..]) <==> !OpensSection(x);
      UpToAll(inner);
      assert inner + [] == inner;
    }
  }

  lemma ShownVisible(a: seq<string>, b: seq<string>)
    requires a != [] && b != [] && !Hidden(a, b[0])
    ensures Visible(Seam(a, b)) == a[..|a| - 1] + [a[|a| - 1] + b[0]] + UpTo(b[1..])
  {
    var n := |a| - 1;
    var line := a[n] + b[0];
    if n == 0 {
      assert Seam(a, b)[1..] == b[1..];
      assert a[..0] == [];
    } else {
      var inner := a[1..n];
      assert a[1..] == inner + [a[n]];
      assert Seam(a, b)[1..] == inner + ([line] + b[1..]);
      UpToAppend(inner, [line] + b[1..]);
      assert NoHeadings(inner);
      assert ([line] + b[1..])[1..] == b[1..];
      assert inner + ([line] + UpTo(b[1..])) == inner + [line] + UpTo(b[1..]);
      assert a[..n] == [a[0]] + inner;
    }
  }
}
