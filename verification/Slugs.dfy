/** Slugs of titles (compose.go composeSlug), on ASCII text. */
module Slugs {
  import opened Text
  import opened Sorting

  predicate SlugChar(c: char) {
    'a' <= c <= 'z' || '0' <= c <= '9'
  }

  predicate IsDash(c: char) {
    c == '-'
  }

  /** Words of slug characters, one dash between two words. */
  predicate CleanSlug(s: string) {
    && s != "" && SlugChar(s[0]) && SlugChar(s[|s| - 1])
    && (forall c :: c in s ==> SlugChar(c) || c == '-')
    && (forall i, j :: 0 <= i && j == i + 1 < |s| ==> SlugChar(s[i]) || SlugChar(s[j]))
  }

  /** What has been written after reading s, and whether a separator is pending. */
  function Written(s: string): (r: (string, bool)) {
    if s == "" then ("", false)
    else
      var n := |s| - 1;
      var (b, separator) := Written(s[..n]);
      if SlugChar(s[n]) then ((if separator && b != "" then b + "-" else b) + [s[n]], false) else (b, true)
  }

  function Slug(title: string): string {
    var slug := Trim(IsDash, Written(ToLower(TrimSpace(title))).0);
    if slug == "" then "decision" else slug
  }

  method ComposeSlug(title: string) returns (slug: string)
    ensures slug == Slug(title)
  {
    var text := ToLower(TrimSpace(title));
    var b := "";
    var separator := false;
    for i := 0 to |text|
      invariant Written(text[..i]) == (b, separator)
    {
      assert text[..i + 1][..i] == text[..i];
      if SlugChar(text[i]) {
        if separator && |b| > 0 {
          b := b + "-";
        }
        b := b + [text[i]];
        separator := false;
        continue;
      }
      separator := true;
    }
    assert text[..|text|] == text;
    slug := Trim(IsDash, b);
    if slug == "" {
      return "decision";
    }
  }

  lemma {:induction false} WrittenIsClean(s: string)
    ensures Written(s).0 == "" || CleanSlug(Written(s).0)
  {
    if s != "" {
      WrittenIsClean(s[..|s| - 1]);
    }
  }

  lemma {:induction false} WrittenOfClean(s: string, n: nat)
    requires CleanSlug(s) && n <= |s|
    ensures Written(s[..n]) == if n > 0 && s[n - 1] == '-' then (s[..n - 1], true) else (s[..n], false)
  {
    if n > 0 {
      WrittenOfClean(s, n - 1);
      assert s[..n][..n - 1] == s[..n - 1];
      assert s[n - 1] in s && s[..n] == s[..n - 1] + [s[n - 1]];
      if n > 1 {
        assert SlugChar(s[n - 2]) || SlugChar(s[n - 1]);
        assert s[n - 2] in s && s[..n - 1] == s[..n - 2] + [s[n - 2]];
      }
    }
  }

  lemma {:induction false} LowerOfClean(s: string)
    requires forall c :: c in s ==> SlugChar(c) || c == '-'
    ensures ToLower(s) == s
  {
    if s != "" {
      assert s[0] in s && forall c :: c in s[1..] ==> c in s;
      LowerOfClean(s[1..]);
    }
  }

  lemma CleanIsOwnSlug(title: string)
    requires CleanSlug(title)
    ensures Slug(title) == title
  {
    CleanTrimmed(title);
    LowerOfClean(title);
    CleanWritten(title);
  }

  lemma CleanTrimmed(s: string)
    requires CleanSlug(s)
    ensures TrimSpace(s) == s && Trim(IsDash, s) == s
  {
    TrimReaches(IsSpace, s);
    TrimReaches(IsDash, s);
  }

  lemma CleanWritten(s: string)
    requires CleanSlug(s)
    ensures Written(s).0 == s
  {
    WrittenOfClean(s, |s|);
    assert s[..|s|] == s;
  }

  lemma SlugIsClean(title: string)
    ensures CleanSlug(Slug(title))
  {
    var b := Written(ToLower(TrimSpace(title))).0;
    WrittenIsClean(ToLower(TrimSpace(title)));
    TrimReaches(IsDash, b);
    assert CleanSlug("decision");
  }

  /** A slug is never empty and always clean, and the clean texts are exactly the ones that are their own
      slug. */
  lemma SlugFixesClean(title: string)
    ensures CleanSlug(Slug(title))
    ensures Slug(title) == title <==> CleanSlug(title)
  {
    SlugIsClean(title);
    if CleanSlug(title) {
      CleanIsOwnSlug(title);
    }
  }

  // ---------------------------------------------------------------- the words of a title

  /** Letters in lower case, digits as they are, and a blank for everything else. */
  function Blanked(c: char): char {
    if 'a' <= c <= 'z' || '0' <= c <= '9' then c else if 'A' <= c <= 'Z' then 'a' + (c - 'A') else ' '
  }

  predicate NonEmpty(word: string) {
    word != ""
  }

  function Pieces(title: string): (r: seq<string>)
    ensures r != []
  {
    Split(' ', Map(Blanked, title))
  }

  function Words(title: string): seq<string> {
    Filter(NonEmpty, Pieces(title))
  }

  lemma PiecesFirst(c: char, s: string)
    ensures Pieces([c] + s)
         == if Blanked(c) == ' ' then [""] + Pieces(s) else [[Blanked(c)] + Pieces(s)[0]] + Pieces(s)[1..]
  {
    assert Map(Blanked, [c] + s)[1..] == Map(Blanked, s);
  }

  lemma PiecesBlank(s: string, c: char)
    requires Blanked(c) == ' '
    ensures Pieces(s + [c]) == Pieces(s) + [""] && Words(s + [c]) == Words(s)
  {
    assert Map(Blanked, s + [c]) == Map(Blanked, s) + [' '] + [];
    SplitAppend(' ', Map(Blanked, s), []);
    FilterAppend(NonEmpty, Pieces(s), [""]);
    assert Filter(NonEmpty, [""]) == [] + Filter(NonEmpty, [""][1..]);
  }

  /** One more letter or digit makes the last piece longer. */
  lemma {:induction false} PiecesLetter(s: string, c: char)
    requires Blanked(c) != ' '
    ensures var p := Pieces(s); Pieces(s + [c]) == p[..|p| - 1] + [p[|p| - 1] + [Blanked(c)]]
  {
    if s == "" {
      assert s + [c] == [c] + "";
      PiecesFirst(c, "");
      assert Pieces("") == [""];
      assert [Blanked(c)] + "" == "" + [Blanked(c)] && [""][..0] == [] && [""][1..] == [];
    } else {
      PiecesLetter(s[1..], c);
      assert s == [s[0]] + s[1..] && s + [c] == [s[0]] + (s[1..] + [c]);
      PiecesFirst(s[0], s[1..]);
      PiecesFirst(s[0], s[1..] + [c]);
      LongerBehind(Pieces(s[1..]), Blanked(s[0]), Blanked(c));
    }
  }

  /** Making the first piece longer, or putting an empty one in front, leaves the last to be made longer. */
  lemma LongerBehind(p: seq<string>, b: char, c: char)
    requires p != []
    ensures var n := |p| - 1; var q := p[..n] + [p[n] + [c]];
            && (var r := [""] + p; [""] + q == r[..n + 1] + [r[n + 1] + [c]])
            && (var r := [[b] + p[0]] + p[1..]; [[b] + q[0]] + q[1..] == r[..n] + [r[n] + [c]])
  {
    var n := |p| - 1;
    var r := [[b] + p[0]] + p[1..];
    if n == 0 {
      assert [b] + (p[0] + [c]) == [b] + p[0] + [c];
    } else {
      assert r[n] == p[n];
    }
  }

  lemma WordsOf(pieces: seq<string>)
    requires pieces != []
    ensures var n := |pieces| - 1;
            Filter(NonEmpty, pieces)
            == Filter(NonEmpty, pieces[..n]) + if pieces[n] == "" then [] else [pieces[n]]
  {
    var n := |pieces| - 1;
    assert pieces == pieces[..n] + [pieces[n]];
    FilterAppend(NonEmpty, pieces[..n], [pieces[n]]);
    assert [pieces[n]][1..] == [];
  }

  lemma JoinLonger(words: seq<string>, last: string, c: char)
    ensures Join('-', words + [last + [c]]) == Join('-', words + [last]) + [c]
  {
    if words == [] {
      assert [] + [last] == [last] && [] + [last + [c]] == [last + [c]];
    } else {
      JoinAppend('-', words, [last]);
      JoinAppend('-', words, [last + [c]]);
    }
  }

  lemma JoinedWords(words: seq<string>)
    requires forall w :: w in words ==> w != ""
    ensures Join('-', words) == "" <==> words == []
  {
    if |words| == 1 {
      assert words[0] in words;
    }
  }

  /** What has been written is the words so far; a separator is pending behind a blank. */
  ghost predicate WritesWords(s: string) {
    var p, (b, separator) := Pieces(s), Written(ToLower(s));
    b == Join('-', Words(s)) && (separator <==> s != "" && p[|p| - 1] == "")
  }

  lemma WriteLetter(s: string, c: char)
    requires WritesWords(s) && Blanked(c) != ' ' && (s == "" ==> Pieces(s) == [""])
    ensures WritesWords(s + [c])
  {
    var p, q := Pieces(s), Pieces(s + [c]);
    var n := |p| - 1;
    var front := Filter(NonEmpty, p[..n]);
    PiecesLetter(s, c);
    WordsOf(p);
    WordsOf(q);
    assert q[..n] == p[..n];
    FilterMembers(NonEmpty, p[..n]);
    LowerSnoc(s, c);
    if p[n] == "" {
      JoinNew(front, Blanked(c));
      assert front + [] == front && "" + [Blanked(c)] == [Blanked(c)];
    } else {
      JoinLonger(front, p[n], Blanked(c));
    }
  }

  lemma JoinNew(words: seq<string>, c: char)
    requires forall w :: w in words ==> w != ""
    ensures var b := Join('-', words); Join('-', words + [[c]]) == (if b != "" then b + "-" else b) + [c]
  {
    JoinedWords(words);
    if words == [] {
      assert [] + [[c]] == [[c]];
    } else {
      JoinAppend('-', words, [[c]]);
    }
  }

  lemma LowerSnoc(s: string, c: char)
    ensures ToLower(s + [c]) == ToLower(s) + [LowerChar(c)]
    ensures SlugChar(LowerChar(c)) <==> Blanked(c) != ' '
    ensures Blanked(c) != ' ' ==> Blanked(c) == LowerChar(c)
    ensures Written(ToLower(s + [c]))
         == var (b, separator) := Written(ToLower(s));
            if Blanked(c) == ' ' then (b, true)
            else ((if separator && b != "" then b + "-" else b) + [Blanked(c)], false)
  {
    var lower := ToLower(s + [c]);
    forall i | 0 <= i < |lower| ensures lower[i] == (ToLower(s) + [LowerChar(c)])[i] {
      ToLowerAt(s + [c], i);
      if i < |s| {
        ToLowerAt(s, i);
      }
    }
    assert lower[..|lower| - 1] == ToLower(s);
  }

  lemma {:induction false} WrittenIsWords(s: string)
    ensures WritesWords(s)
  {
    if s == "" {
      assert Pieces("") == [""] && [""][1..] == [];
    } else {
      var n := |s| - 1;
      WrittenIsWords(s[..n]);
      assert s == s[..n] + [s[n]];
      if Blanked(s[n]) == ' ' {
        PiecesBlank(s[..n], s[n]);
        LowerSnoc(s[..n], s[n]);
      } else {
        WriteLetter(s[..n], s[n]);
      }
    }
  }

  lemma {:induction false} WordsOfTrimmedLeft(s: string)
    ensures Words(TrimLeft(IsSpace, s)) == Words(s)
  {
    if s != "" && IsSpace(s[0]) {
      WordsOfTrimmedLeft(s[1..]);
      assert s == [s[0]] + s[1..];
      PiecesFirst(s[0], s[1..]);
      assert ([""] + Pieces(s[1..]))[1..] == Pieces(s[1..]);
      assert [] + Words(s[1..]) == Words(s[1..]);
    }
  }

  lemma {:induction false} WordsOfTrimmedRight(s: string)
    ensures Words(TrimRight(IsSpace, s)) == Words(s)
  {
    if s != "" && IsSpace(s[|s| - 1]) {
      var n := |s| - 1;
      WordsOfTrimmedRight(s[..n]);
      assert s == s[..n] + [s[n]];
      PiecesBlank(s[..n], s[n]);
    }
  }

  /** The slug of a title is its words, in lower case and joined by dashes; of a title without words, "decision". */
  lemma SlugJoinsWords(title: string)
    ensures Slug(title) == if Words(title) == [] then "decision" else Join('-', Words(title))
  {
    var trimmed := TrimSpace(title);
    var b := Written(ToLower(trimmed)).0;
    WordsOfTrimmedLeft(title);
    WordsOfTrimmedRight(TrimLeft(IsSpace, title));
    WrittenIsWords(trimmed);
    WrittenIsClean(ToLower(trimmed));
    TrimReaches(IsDash, b);
    FilterMembers(NonEmpty, Pieces(title));
    JoinedWords(Words(title));
  }

  /** Only the words count: titles with the same words have the same slug, whatever their case and what stands
      between, before and behind them; and a slug has the words it was made of. */
  lemma SlugKeepsWords(title: string)
    requires Words(title) != []
    ensures Words(Slug(title)) == Words(title)
  {
    var words := Words(title);
    SlugJoinsWords(title);
    FilterMembers(NonEmpty, Pieces(title));
    SlugIsClean(title);
    BlankedSlug(words, title);
    assert forall w :: w in words ==> ' ' !in w by {
      SplitParts(' ', Map(Blanked, title));
    }
    SplitJoin(' ', words);
    AllKept(words);
  }

  lemma {:induction false} AllKept(words: seq<string>)
    requires forall w :: w in words ==> w != ""
    ensures Filter(NonEmpty, words) == words
  {
    if words != [] {
      assert words[0] in words && forall w :: w in words[1..] ==> w in words;
      AllKept(words[1..]);
    }
  }

  /** Blanking joined words makes the dashes blanks. */
  lemma BlankedSlug(words: seq<string>, title: string)
    requires words == Words(title) && words != []
    ensures Map(Blanked, Join('-', words)) == Join(' ', words)
  {
    SplitParts(' ', Map(Blanked, title));
    FilterMembers(NonEmpty, Pieces(title));
    forall w, c | w in words && c in w ensures Blanked(c) == c && c != ' ' {
      assert c in Map(Blanked, title);
      var i :| 0 <= i < |title| && Map(Blanked, title)[i] == c;
      assert c == Blanked(title[i]);
    }
    BlankedJoin(words);
  }

  lemma {:induction false} BlankedJoin(words: seq<string>)
    requires words != [] && forall w, c :: w in words && c in w ==> Blanked(c) == c
    ensures Map(Blanked, Join('-', words)) == Join(' ', words)
  {
    assert words[0] in words && forall w :: w in words[1..] ==> w in words;
    assert Map(Blanked, words[0]) == words[0] by {
      forall i | 0 <= i < |words[0]| ensures Blanked(words[0][i]) == words[0][i] {
        assert words[0][i] in words[0];
      }
    }
    if |words| > 1 {
      BlankedJoin(words[1..]);
      var joined := Join('-', words[1..]);
      assert Map(Blanked, words[0] + ['-'] + joined) == Map(Blanked, words[0]) + [' '] + Map(Blanked, joined);
    }
  }
}
