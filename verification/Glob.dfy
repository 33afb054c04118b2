/** Path globs of the classifier (engine.go). */
module Glob {
  // A glob is compiled to the text of a regular expression, which is then matched against the whole path.

  import opened Options
  import opened Text

  // ---------------------------------------------------------------- regular expressions

  /** The character classes the compiler emits. */
  datatype Class = Exactly(c: char) | NotNewline | NotSlash

  datatype Regex = Empty | Chars(class_: Class) | Star(body: Regex) | Then(first: Regex, second: Regex)

  predicate InClass(k: Class, c: char) {
    match k
    case Exactly(d) => c == d
    case NotNewline => c != '\n'
    case NotSlash => c != '/'
  }

  /** The language of a regular expression. */
  predicate Matches(r: Regex, s: string)
    decreases |s|, r
  {
    match r
    case Empty => s == ""
    case Chars(k) => |s| == 1 && InClass(k, s[0])
    case Star(b) => s == "" || exists i :: 0 < i <= |s| && Matches(b, s[..i]) && Matches(r, s[i..])
    case Then(a, b) => exists i :: 0 <= i <= |s| && Matches(a, s[..i]) && Matches(b, s[i..])
  }

  /** Characters with a meaning of their own in a regular expression; quoting puts a backslash before them. */
  predicate IsMeta(c: char) {
    c in "\\.+*?()|[]{}^$"
  }

  /** One atom at the start of an expression's text, and its length: an escaped or plain character, the
      dot, or the class of everything but a slash. */
  function ReadAtom(text: string): Option<(Class, nat)> {
    if text == "" then None
    else if text[0] == '\\' then
      if |text| >= 2 && IsMeta(text[1]) then Some((Exactly(text[1]), 2)) else None
    else if text[0] == '.' then Some((NotNewline, 1))
    else if "[^/]" <= text then Some((NotSlash, 4))
    else if IsMeta(text[0]) then None
    else Some((Exactly(text[0]), 1))
  }

  /** Reads the text of an expression in that fragment of the syntax: atoms, each possibly starred. */
  function Read(text: string): Option<Regex> {
    if text == "" then Some(Empty)
    else
      match ReadAtom(text)
      case None => None
      case Some((k, n)) =>
        if n > |text| || n == 0 then None
        else
          var starred := n < |text| && text[n] == '*';
          match Read(text[if starred then n + 1 else n..])
          case None => None
          case Some(rest) => Some(Then(if starred then Star(Chars(k)) else Chars(k), rest))
  }

  /** A whole-text match of an expression given by its text. */
  predicate RegexMatches(text: string, s: string) {
    Read(text).Some? && Matches(Read(text).value, s)
  }

  // ---------------------------------------------------------------- the compiler

  function QuoteMeta(c: char): string {
    if IsMeta(c) then ['\\', c] else [c]
  }

  function GlobToRegex(pattern: string): string {
    if pattern == "" then ""
    else if "**" <= pattern then ".*" + GlobToRegex(pattern[2..])
    else if pattern[0] == '*' then "[^/]*" + GlobToRegex(pattern[1..])
    else if pattern[0] == '?' then "." + GlobToRegex(pattern[1..])
    else QuoteMeta(pattern[0]) + GlobToRegex(pattern[1..])
  }

  method GlobPatternToRegex(pattern: string) returns (text: string)
    ensures text == GlobToRegex(pattern)
  {
    text := "";
    var i := 0;
    assert pattern[0..] == pattern;
    while i < |pattern|
      invariant 0 <= i <= |pattern|
      invariant text + GlobToRegex(pattern[i..]) == GlobToRegex(pattern)
    {
      GlobStep(pattern, i);
      ghost var before := text;
      if pattern[i] == '*' {
        if i + 1 < |pattern| && pattern[i + 1] == '*' {
          text := text + ".*";
          Regroup(before, ".*", GlobToRegex(pattern[i + 2..]));
          i := i + 1;
        } else {
          text := text + "[^/]*";
          Regroup(before, "[^/]*", GlobToRegex(pattern[i + 1..]));
        }
      } else if pattern[i] == '?' {
        text := text + ".";
        Regroup(before, ".", GlobToRegex(pattern[i + 1..]));
      } else {
        text := text + QuoteMeta(pattern[i]);
        Regroup(before, QuoteMeta(pattern[i]), GlobToRegex(pattern[i + 1..]));
      }
      i := i + 1;
    }
  }

  lemma Regroup(a: string, b: string, c: string)
    ensures a + (b + c) == (a + b) + c
  {
  }

  lemma GlobStep(pattern: string, i: nat)
    requires i < |pattern|
    ensures GlobToRegex(pattern[i..])
            == if pattern[i] == '*' then
                 if i + 1 < |pattern| && pattern[i + 1] == '*' then ".*" + GlobToRegex(pattern[i + 2..])
                 else "[^/]*" + GlobToRegex(pattern[i + 1..])
               else if pattern[i] == '?' then "." + GlobToRegex(pattern[i + 1..])
               else QuoteMeta(pattern[i]) + GlobToRegex(pattern[i + 1..])
  {
    assert pattern[i..][1..] == pattern[i + 1..];
    StarsStart(pattern[i..]);
    if |pattern| >= i + 2 {
      assert pattern[i..][2..] == pattern[i + 2..];
    }
  }

  lemma StarsStart(s: string)
    ensures "**" <= s <==> |s| >= 2 && s[0] == '*' && s[1] == '*'
  {
    if |s| >= 2 && s[0] == '*' && s[1] == '*' {
      assert s[..2] == "**";
    }
  }

  // ---------------------------------------------------------------- what a glob means

  /** A glob read directly: two stars stand for any run without a newline, one star for any run without a
      slash, a question mark for one character but a newline, anything else for itself. */
  predicate GlobMatch(pattern: string, s: string)
    decreases |pattern| + |s|
  {
    if pattern == "" then s == ""
    else if "**" <= pattern then
      GlobMatch(pattern[2..], s) || (s != "" && s[0] != '\n' && GlobMatch(pattern, s[1..]))
    else if pattern[0] == '*' then
      GlobMatch(pattern[1..], s) || (s != "" && s[0] != '/' && GlobMatch(pattern, s[1..]))
    else if pattern[0] == '?' then
      s != "" && s[0] != '\n' && GlobMatch(pattern[1..], s[1..])
    else
      s != "" && s[0] == pattern[0] && GlobMatch(pattern[1..], s[1..])
  }

  /** The expression a glob is compiled to, as a tree. */
  function RegexOf(pattern: string): Regex {
    if pattern == "" then Empty
    else if "**" <= pattern then Then(Star(Chars(NotNewline)), RegexOf(pattern[2..]))
    else if pattern[0] == '*' then Then(Star(Chars(NotSlash)), RegexOf(pattern[1..]))
    else if pattern[0] == '?' then Then(Chars(NotNewline), RegexOf(pattern[1..]))
    else Then(Chars(Exactly(pattern[0])), RegexOf(pattern[1..]))
  }

  /** Compiled text never starts with a star, so a star in it always belongs to the atom before it. */
  lemma NoLeadingStar(pattern: string)
    ensures GlobToRegex(pattern) == "" || GlobToRegex(pattern)[0] != '*'
  {
  }

  lemma ReadStarred(atom: string, k: Class, rest: string)
    requires ReadAtom(atom + "*" + rest) == Some((k, |atom|)) && atom != "" && Read(rest).Some?
    ensures Read(atom + "*" + rest) == Some(Then(Star(Chars(k)), Read(rest).value))
  {
    var text := atom + "*" + rest;
    assert text[|atom|] == '*' && text[|atom| + 1..] == rest;
  }

  lemma ReadPlain(atom: string, k: Class, rest: string)
    requires ReadAtom(atom + rest) == Some((k, |atom|)) && atom != "" && Read(rest).Some?
    requires rest == "" || rest[0] != '*'
    ensures Read(atom + rest) == Some(Then(Chars(k), Read(rest).value))
  {
    var text := atom + rest;
    assert text[|atom|..] == rest;
  }

  /** Reading the compiled text gives exactly the intended expression. */
  lemma {:induction false} ReadCompiled(pattern: string)
    ensures Read(GlobToRegex(pattern)) == Some(RegexOf(pattern))
  {
    if pattern == "" {
    } else if "**" <= pattern {
      ReadCompiled(pattern[2..]);
      var rest := GlobToRegex(pattern[2..]);
      assert ".*" + rest == "." + "*" + rest;
      ReadStarred(".", NotNewline, rest);
    } else if pattern[0] == '*' {
      ReadCompiled(pattern[1..]);
      var rest := GlobToRegex(pattern[1..]);
      assert "[^/]*" + rest == "[^/]" + "*" + rest;
      ReadStarred("[^/]", NotSlash, rest);
    } else {
      ReadCompiled(pattern[1..]);
      var rest := GlobToRegex(pattern[1..]);
      NoLeadingStar(pattern[1..]);
      if pattern[0] == '?' {
        ReadPlain(".", NotNewline, rest);
      } else {
        ReadPlain(QuoteMeta(pattern[0]), Exactly(pattern[0]), rest);
      }
    }
  }

  // ---------------------------------------------------------------- the language is the glob's

  lemma ThenOne(k: Class, r: Regex, s: string)
    ensures Matches(Then(Chars(k), r), s) <==> s != "" && InClass(k, s[0]) && Matches(r, s[1..])
  {
    if s != "" && InClass(k, s[0]) && Matches(r, s[1..]) {
      assert |s[..1]| == 1 && s[..1][0] == s[0];
      assert Matches(Chars(k), s[..1]);
    }
    if Matches(Then(Chars(k), r), s) {
      var i :| 0 <= i <= |s| && Matches(Chars(k), s[..i]) && Matches(r, s[i..]);
      assert i == 1 && s[..i][0] == s[0];
    }
  }

  lemma StarPeels(k: Class, s: string)
    ensures Matches(Star(Chars(k)), s) <==> s == "" || (InClass(k, s[0]) && Matches(Star(Chars(k)), s[1..]))
  {
    if s != "" {
      if Matches(Star(Chars(k)), s) {
        var i :| 0 < i <= |s| && Matches(Chars(k), s[..i]) && Matches(Star(Chars(k)), s[i..]);
        assert i == 1 && s[..i][0] == s[0];
      }
      if InClass(k, s[0]) && Matches(Star(Chars(k)), s[1..]) {
        assert Matches(Chars(k), s[..1]);
      }
    }
  }

  lemma ThenStar(k: Class, r: Regex, s: string)
    ensures Matches(Then(Star(Chars(k)), r), s)
            <==> Matches(r, s) || (s != "" && InClass(k, s[0]) && Matches(Then(Star(Chars(k)), r), s[1..]))
  {
    ThenStarTakes(k, r, s);
    if Matches(r, s) {
      assert s[..0] == "" && s[0..] == s;
      assert Matches(Star(Chars(k)), s[..0]);
    }
    if s != "" && InClass(k, s[0]) && Matches(Then(Star(Chars(k)), r), s[1..]) {
      ThenStarGrows(k, r, s);
    }
  }

  lemma ThenStarTakes(k: Class, r: Regex, s: string)
    ensures Matches(Then(Star(Chars(k)), r), s)
            ==> Matches(r, s) || (s != "" && InClass(k, s[0]) && Matches(Then(Star(Chars(k)), r), s[1..]))
  {
    var star := Star(Chars(k));
    if Matches(Then(star, r), s) {
      var i :| 0 <= i <= |s| && Matches(star, s[..i]) && Matches(r, s[i..]);
      if i == 0 {
        assert s[0..] == s;
      } else {
        StarPeels(k, s[..i]);
        assert s[..i][1..] == s[1..][..i - 1] && s[i..] == s[1..][i - 1..];
      }
    }
  }

  lemma ThenStarGrows(k: Class, r: Regex, s: string)
    requires s != "" && InClass(k, s[0]) && Matches(Then(Star(Chars(k)), r), s[1..])
    ensures Matches(Then(Star(Chars(k)), r), s)
  {
    var star := Star(Chars(k));
    var i :| 0 <= i <= |s[1..]| && Matches(star, s[1..][..i]) && Matches(r, s[1..][i..]);
    StarPeels(k, s[..i + 1]);
    assert s[..i + 1][1..] == s[1..][..i] && s[i + 1..] == s[1..][i..];
    assert s[..i + 1][0] == s[0];
  }

  lemma {:induction false} RegexIsGlob(pattern: string, s: string)
    ensures Matches(RegexOf(pattern), s) <==> GlobMatch(pattern, s)
    decreases |pattern| + |s|
  {
    if pattern == "" {
    } else if "**" <= pattern {
      ThenStar(NotNewline, RegexOf(pattern[2..]), s);
      RegexIsGlob(pattern[2..], s);
      if s != "" {
        RegexIsGlob(pattern, s[1..]);
      }
    } else if pattern[0] == '*' {
      ThenStar(NotSlash, RegexOf(pattern[1..]), s);
      RegexIsGlob(pattern[1..], s);
      if s != "" {
        RegexIsGlob(pattern, s[1..]);
      }
    } else {
      var k := if pattern[0] == '?' then NotNewline else Exactly(pattern[0]);
      ThenOne(k, RegexOf(pattern[1..]), s);
      if s != "" {
        RegexIsGlob(pattern[1..], s[1..]);
      }
    }
  }

  /** Compilation preserves meaning: the emitted text is well formed, and its language is the glob's. */
  lemma CompilationPreservesMeaning(pattern: string, s: string)
    ensures Read(GlobToRegex(pattern)).Some?
    ensures RegexMatches(GlobToRegex(pattern), s) <==> GlobMatch(pattern, s)
  {
    ReadCompiled(pattern);
    RegexIsGlob(pattern, s);
  }

  // ---------------------------------------------------------------- the emitted text can be decoded

  function Decode(text: string): string {
    if text == "" then ""
    else if ".*" <= text then "**" + Decode(text[2..])
    else if text[0] == '.' then "?" + Decode(text[1..])
    else if "[^/]*" <= text then "*" + Decode(text[5..])
    else if text[0] == '\\' && |text| >= 2 then [text[1]] + Decode(text[2..])
    else [text[0]] + Decode(text[1..])
  }

  /** A reader recovers the glob from the emitted text. */
  lemma {:induction false} DecodeCompiled(pattern: string)
    ensures Decode(GlobToRegex(pattern)) == pattern
  {
    if pattern == "" {
    } else if "**" <= pattern {
      DecodeCompiled(pattern[2..]);
      var rest := GlobToRegex(pattern[2..]);
      assert (".*" + rest)[2..] == rest;
      assert pattern == "**" + pattern[2..];
    } else if pattern[0] == '*' {
      DecodeCompiled(pattern[1..]);
      var rest := GlobToRegex(pattern[1..]);
      assert ("[^/]*" + rest)[5..] == rest && ("[^/]*" + rest)[0] == '[';
      assert pattern == "*" + pattern[1..];
    } else {
      DecodeCompiled(pattern[1..]);
      var rest := GlobToRegex(pattern[1..]);
      NoLeadingStar(pattern[1..]);
      assert pattern == [pattern[0]] + pattern[1..];
      if pattern[0] == '?' {
        assert ("." + rest)[1..] == rest;
        assert |rest| > 0 ==> ("." + rest)[1] != '*';
      } else if IsMeta(pattern[0]) {
        assert (['\\', pattern[0]] + rest)[2..] == rest;
      } else {
        assert ([pattern[0]] + rest)[1..] == rest && ([pattern[0]] + rest)[0] == pattern[0];
      }
    }
  }

  /** Different globs are compiled to different texts. */
  lemma CompilationInjective(p: string, q: string)
    requires GlobToRegex(p) == GlobToRegex(q)
    ensures p == q
  {
    DecodeCompiled(p);
    DecodeCompiled(q);
  }

  // ---------------------------------------------------------------- matching paths

  predicate GlobMatches(pattern: string, path: string) {
    RegexMatches(GlobToRegex(TrimPrefix("./", pattern)), TrimPrefix("./", path))
  }

  function FirstGlob(patterns: seq<string>, path: string): string {
    if patterns == [] then ""
    else if GlobMatches(ToLower(patterns[0]), ToLower(path)) then ToLower(patterns[0])
    else FirstGlob(patterns[1..], path)
  }

  predicate MatchesAnyGlob(patterns: seq<string>, path: string) {
    FirstGlob(patterns, path) != ""
  }

  method FirstMatchingGlob(patterns: seq<string>, path: string) returns (pattern: string)
    ensures pattern == FirstGlob(patterns, path)
  {
    var lower := ToLower(path);
    assert patterns[0..] == patterns;
    for i := 0 to |patterns|
      invariant FirstGlob(patterns[i..], path) == FirstGlob(patterns, path)
    {
      assert patterns[i..][1..] == patterns[i + 1..];
      pattern := ToLower(patterns[i]);
      if GlobMatches(pattern, lower) {
        return;
      }
    }
    pattern := "";
  }

  /** The plain reading of "some pattern matches", folded to lower case and without a leading "./". */
  ghost predicate SomeGlobMatches(patterns: seq<string>, path: string) {
    exists p :: p in patterns && GlobMatch(TrimPrefix("./", ToLower(p)), TrimPrefix("./", ToLower(path)))
  }

  /** The answer is reported as the matching pattern, and an empty pattern reads as no answer: some
      pattern is reported exactly when one matches and the first to match is not empty. */
  lemma {:induction false} AnyGlobExact(patterns: seq<string>, path: string)
    ensures MatchesAnyGlob(patterns, path)
            <==> exists i :: 0 <= i < |patterns| && patterns[i] != ""
                             && GlobMatch(TrimPrefix("./", ToLower(patterns[i])), TrimPrefix("./", ToLower(path)))
                             && forall k :: 0 <= k < i ==>
                                  !GlobMatch(TrimPrefix("./", ToLower(patterns[k])), TrimPrefix("./", ToLower(path)))
  {
    if patterns != [] {
      CompilationPreservesMeaning(TrimPrefix("./", ToLower(patterns[0])), TrimPrefix("./", ToLower(path)));
      AnyGlobExact(patterns[1..], path);
    }
  }

  /** For every path but the empty one and "./" this is the plain reading. */
  lemma {:induction false} AnyGlobPlain(patterns: seq<string>, path: string)
    requires TrimPrefix("./", ToLower(path)) != ""
    ensures MatchesAnyGlob(patterns, path) <==> SomeGlobMatches(patterns, path)
  {
    if patterns != [] {
      CompilationPreservesMeaning(TrimPrefix("./", ToLower(patterns[0])), TrimPrefix("./", ToLower(path)));
      AnyGlobPlain(patterns[1..], path);
      assert ToLower("") == "" && !GlobMatch("", TrimPrefix("./", ToLower(path)));
      assert forall p :: p in patterns ==> p == patterns[0] || p in patterns[1..];
    }
  }

  /** Appending patterns never loses a match. */
  lemma MorePatternsMatch(few: seq<string>, extra: seq<string>, path: string)
    ensures MatchesAnyGlob(few, path) ==> MatchesAnyGlob(few + extra, path)
  {
    if few != [] {
      assert (few + extra)[1..] == few[1..] + extra;
      MorePatternsMatch(few[1..], extra, path);
    }
  }

  /** A text taken as a pattern matches itself, wildcards included. */
  lemma {:induction false} GlobMatchesItself(s: string)
    ensures GlobMatch(s, s)
  {
    if s == "" {
    } else if "**" <= s {
      assert s[1..][1..] == s[2..] && s[0] == '*' && s[1] == '*';
      GlobMatchesItself(s[2..]);
      assert GlobMatch(s, s[2..]);
      assert GlobMatch(s, s[1..]);
    } else {
      GlobMatchesItself(s[1..]);
      if s[0] == '*' {
        assert GlobMatch(s, s[1..]);
      }
    }
  }

  /** Every path has a pattern that matches it. */
  lemma SomePatternFor(path: string) returns (pattern: string)
    ensures MatchesAnyGlob([pattern], path)
  {
    pattern := if path == "" then "./" else path;
    assert ToLower("./") == "./" by {
      assert ToLower("/") == "/";
    }
    assert TrimPrefix("./", ToLower(pattern)) == TrimPrefix("./", ToLower(path));
    GlobMatchesItself(TrimPrefix("./", ToLower(path)));
    CompilationPreservesMeaning(TrimPrefix("./", ToLower(pattern)), TrimPrefix("./", ToLower(path)));
  }

  /** Patterns appended behind ones of which some matches make no difference; behind ones of which none
      matches they are asked alone. */
  lemma {:induction false} FirstGlobAppend(patterns: seq<string>, extra: seq<string>, path: string)
    ensures SomeGlobMatches(patterns, path) ==> FirstGlob(patterns + extra, path) == FirstGlob(patterns, path)
    ensures !SomeGlobMatches(patterns, path) ==> FirstGlob(patterns + extra, path) == FirstGlob(extra, path)
  {
    if patterns == [] {
      assert patterns + extra == extra;
    } else {
      assert (patterns + extra)[1..] == patterns[1..] + extra;
      CompilationPreservesMeaning(TrimPrefix("./", ToLower(patterns[0])), TrimPrefix("./", ToLower(path)));
      FirstGlobAppend(patterns[1..], extra, path);
      assert forall p :: p in patterns <==> p == patterns[0] || p in patterns[1..];
    }
  }
}
