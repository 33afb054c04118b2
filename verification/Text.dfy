/** The string operations of Go's strings package that the modelled code calls, on ASCII text. */
module Text {

  predicate IsSpace(c: char) {
    c == ' ' || c == '\t' || c == '\n' || c == '\r' || c == '\U{B}' || c == '\U{C}'
  }

  predicate IsSlash(c: char) { c == '/' }

  predicate IsReturn(c: char) { c == '\r' }

  predicate IsNewline(c: char) { c == '\n' }

  function TrimLeft(p: char -> bool, s: string): string {
    if s != "" && p(s[0]) then TrimLeft(p, s[1..]) else s
  }

  function TrimRight(p: char -> bool, s: string): string {
    if s != "" && p(s[|s| - 1]) then TrimRight(p, s[..|s| - 1]) else s
  }

  function Trim(p: char -> bool, s: string): string {
    TrimRight(p, TrimLeft(p, s))
  }

  function TrimSpace(s: string): string {
    Trim(IsSpace, s)
  }

  function TrimPrefix(prefix: string, s: string): string {
    if prefix <= s then s[|prefix|..] else s
  }

  /** No character of the cut set at either end. */
  predicate Trimmed(p: char -> bool, s: string) {
    s == "" || (!p(s[0]) && !p(s[|s| - 1]))
  }

  lemma {:induction false} TrimRightEnds(p: char -> bool, s: string)
    ensures TrimRight(p, s) <= s
    ensures TrimRight(p, s) == "" || !p(TrimRight(p, s)[|TrimRight(p, s)| - 1])
  {
    if s != "" && p(s[|s| - 1]) {
      TrimRightEnds(p, s[..|s| - 1]);
    }
  }

  lemma {:induction false} TrimLeftEnds(p: char -> bool, s: string)
    ensures TrimLeft(p, s) == "" || !p(TrimLeft(p, s)[0])
    ensures |TrimLeft(p, s)| <= |s| && TrimLeft(p, s) == s[|s| - |TrimLeft(p, s)|..]
  {
    if s != "" && p(s[0]) {
      TrimLeftEnds(p, s[1..]);
    }
  }

  /** Trimming reaches a trimmed string, and a string is trimmed exactly when trimming leaves it alone. */
  lemma TrimReaches(p: char -> bool, s: string)
    ensures Trimmed(p, Trim(p, s))
    ensures Trim(p, s) == s <==> Trimmed(p, s)
  {
    TrimLeftEnds(p, s);
    TrimRightEnds(p, TrimLeft(p, s));
  }

  lemma {:induction false} TrimRightOfTrimmedAppend(p: char -> bool, s: string, tail: string)
    requires s == "" || !p(s[|s| - 1])
    requires forall c :: c in tail ==> p(c)
    ensures TrimRight(p, s + tail) == s
  {
    if tail == "" {
      assert s + tail == s;
    } else {
      var t := s + tail;
      assert t[|t| - 1] == tail[|tail| - 1] && tail[|tail| - 1] in tail;
      assert t[..|t| - 1] == s + tail[..|tail| - 1];
      TrimRightOfTrimmedAppend(p, s, tail[..|tail| - 1]);
    }
  }

  lemma {:induction false} TrimLeftOfTrimmedPrepend(p: char -> bool, lead: string, s: string)
    requires s == "" || !p(s[0])
    requires forall c :: c in lead ==> p(c)
    ensures TrimLeft(p, lead + s) == s
  {
    if lead == "" {
      assert lead + s == s;
    } else {
      assert lead[0] in lead;
      assert (lead + s)[1..] == lead[1..] + s;
      TrimLeftOfTrimmedPrepend(p, lead[1..], s);
    }
  }

  /** Padding made only of the cut set is removed from both ends. */
  lemma TrimPadding(p: char -> bool, lead: string, s: string, tail: string)
    requires Trimmed(p, s)
    requires forall c :: c in lead + tail ==> p(c)
    ensures Trim(p, lead + s + tail) == s
  {
    assert forall c :: c in lead || c in tail ==> c in lead + tail;
    if s == "" {
      assert lead + s + tail == (lead + tail) + "";
      TrimLeftOfTrimmedPrepend(p, lead + tail, "");
    } else {
      assert lead + s + tail == lead + (s + tail);
      TrimLeftOfTrimmedPrepend(p, lead, s + tail);
      TrimRightOfTrimmedAppend(p, s, tail);
    }
  }

  /** The pattern stands at position i of s. */
  predicate At(s: string, i: int, pat: string) {
    0 <= i && i + |pat| <= |s| && s[i..i + |pat|] == pat
  }

  /** First position of the pattern, or -1. */
  function Index(s: string, pat: string): (i: int)
    ensures -1 <= i
  {
    if pat <= s then 0
    else if s == "" then -1
    else var i := Index(s[1..], pat); if i < 0 then -1 else i + 1
  }

  predicate Contains(s: string, pat: string) {
    Index(s, pat) >= 0
  }

  lemma AtBehind(a: string, b: string, pat: string, j: int)
    requires j >= |a|
    ensures At(a + b, j, pat) <==> At(b, j - |a|, pat)
  {
    if j + |pat| <= |a + b| {
      assert (a + b)[j..j + |pat|] == b[j - |a|..j - |a| + |pat|];
    }
  }

  lemma AtShift(s: string, j: int, pat: string)
    requires s != "" && 0 <= j
    ensures At(s, j + 1, pat) <==> At(s[1..], j, pat)
  {
    if j + 1 + |pat| <= |s| {
      assert s[j + 1..j + 1 + |pat|] == s[1..][j..j + |pat|];
    }
  }

  lemma AtStart(s: string, pat: string)
    ensures At(s, 0, pat) <==> pat <= s
  {
  }

  lemma {:induction false} IndexIsFirst(s: string, pat: string)
    ensures Index(s, pat) >= 0 ==> At(s, Index(s, pat), pat)
    ensures forall j :: 0 <= j && (Index(s, pat) < 0 || j < Index(s, pat)) ==> !At(s, j, pat)
  {
    AtStart(s, pat);
    if !(pat <= s) && s != "" {
      var i := Index(s[1..], pat);
      IndexIsFirst(s[1..], pat);
      if i >= 0 {
        AtShift(s, i, pat);
      }
      forall j | 0 <= j && (i < 0 || j < i + 1) ensures !At(s, j, pat) {
        if j > 0 {
          AtShift(s, j - 1, pat);
        }
      }
    }
  }

  /** A position where the pattern stands and before which it never stands is the one Index finds. */
  lemma IndexAt(s: string, pat: string, i: int)
    requires At(s, i, pat)
    requires forall j :: 0 <= j < i ==> !At(s, j, pat)
    ensures Index(s, pat) == i
  {
    IndexIsFirst(s, pat);
  }

  lemma IndexAbsent(s: string, pat: string)
    requires forall j :: 0 <= j <= |s| ==> !At(s, j, pat)
    ensures Index(s, pat) == -1
  {
    IndexIsFirst(s, pat);
  }

  function Split(sep: char, s: string): (parts: seq<string>)
    ensures |parts| >= 1
  {
    if s == "" then [""]
    else
      var rest := Split(sep, s[1..]);
      if s[0] == sep then [""] + rest else [[s[0]] + rest[0]] + rest[1..]
  }

  function Join(sep: char, parts: seq<string>): string {
    if parts == [] then ""
    else if |parts| == 1 then parts[0]
    else parts[0] + [sep] + Join(sep, parts[1..])
  }

  lemma {:induction false} SplitParts(sep: char, s: string)
    ensures forall part :: part in Split(sep, s) ==> sep !in part
    ensures forall part :: part in Split(sep, s) ==> forall c :: c in part ==> c in s
  {
    if s != "" {
      SplitParts(sep, s[1..]);
      var rest := Split(sep, s[1..]);
      assert rest[0] in rest;
      forall part | part in Split(sep, s) ensures sep !in part && forall c :: c in part ==> c in s {
        if s[0] == sep {
          assert part == "" || part in rest;
        } else {
          assert part == [s[0]] + rest[0] || part in rest;
        }
      }
    }
  }

  lemma {:induction false} SplitFree(sep: char, s: string)
    requires sep !in s
    ensures Split(sep, s) == [s]
  {
    if s != "" {
      assert s == [s[0]] + s[1..];
      SplitFree(sep, s[1..]);
    }
  }

  lemma {:induction false} SplitAppend(sep: char, a: string, b: string)
    ensures Split(sep, a + [sep] + b) == Split(sep, a) + Split(sep, b)
  {
    var s := a + [sep] + b;
    if a == "" {
      assert s[1..] == b;
    } else {
      assert s[1..] == a[1..] + [sep] + b;
      SplitAppend(sep, a[1..], b);
    }
  }

  /** Splitting a joined list of separator-free parts gives the list back. */
  lemma {:induction false} SplitJoin(sep: char, parts: seq<string>)
    requires parts != [] && forall part :: part in parts ==> sep !in part
    ensures Split(sep, Join(sep, parts)) == parts
  {
    SplitFree(sep, parts[0]);
    if |parts| == 1 {
    } else {
      SplitAppend(sep, parts[0], Join(sep, parts[1..]));
      SplitJoin(sep, parts[1..]);
      assert parts == [parts[0]] + parts[1..];
    }
  }

  /** Joining the parts of a split gives the text back. */
  lemma {:induction false} JoinSplit(sep: char, s: string)
    ensures Join(sep, Split(sep, s)) == s
  {
    if s != "" {
      JoinSplit(sep, s[1..]);
      var rest := Split(sep, s[1..]);
      if s[0] == sep {
        assert ([""] + rest)[1..] == rest;
      } else {
        assert ([[s[0]] + rest[0]] + rest[1..])[1..] == rest[1..];
      }
    }
  }

  lemma {:induction false} JoinAppend(sep: char, a: seq<string>, b: seq<string>)
    requires a != [] && b != []
    ensures Join(sep, a + b) == Join(sep, a) + [sep] + Join(sep, b)
  {
    if |a| == 1 {
      assert (a + b)[1..] == b;
    } else {
      assert (a + b)[1..] == a[1..] + b;
      JoinAppend(sep, a[1..], b);
    }
  }

  function LowerChar(c: char): char {
    if 'A' <= c <= 'Z' then (c as int + 32) as char else c
  }

  function ToLower(s: string): (r: string)
    ensures |r| == |s|
  {
    if s == "" then "" else [LowerChar(s[0])] + ToLower(s[1..])
  }

  lemma {:induction false} ToLowerAt(s: string, i: nat)
    requires i < |s|
    ensures ToLower(s)[i] == LowerChar(s[i])
  {
    if i > 0 {
      ToLowerAt(s[1..], i - 1);
    }
  }

  lemma {:induction false} ToLowerTwice(s: string)
    ensures ToLower(ToLower(s)) == ToLower(s)
  {
    if s != "" {
      ToLowerTwice(s[1..]);
      assert ToLower(s)[1..] == ToLower(s[1..]);
    }
  }
}
