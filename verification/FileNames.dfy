/** The file names a compose directory may hold (compose.go): the numbered form
    (?i)^(?:(adr|rfc|prd)[-_])?(\d+)([-_])(.+)\.md$, its style, and the slug of a title. */
module FileNames {
  import opened Options
  import opened Text
  import opened Decimals

  /** A matched name: the lower-cased document prefix with its dash (or nothing), the digits, the separator
      and the text before the extension. */
  datatype Numbered = Numbered(prefix: string, digits: string, sep: char, rest: string)

  predicate IsSep(c: char) {
    c == '-' || c == '_'
  }

  predicate IsKind(word: string) {
    word == "adr" || word == "rfc" || word == "prd"
  }

  predicate IsPrefix(prefix: string) {
    prefix == "" || (|prefix| == 4 && IsKind(prefix[..3]) && prefix[3] == '-')
  }

  predicate HasKind(name: string) {
    |name| >= 4 && IsKind(ToLower(name[..3])) && IsSep(name[3])
  }

  function DigitRun(s: string): (n: nat)
    ensures n <= |s|
  {
    if s != "" && IsDigit(s[0]) then 1 + DigitRun(s[1..]) else 0
  }

  lemma {:induction false} DigitRunSplits(s: string)
    ensures Digits(s[..DigitRun(s)])
    ensures DigitRun(s) < |s| ==> !IsDigit(s[DigitRun(s)])
  {
    if s != "" && IsDigit(s[0]) {
      DigitRunSplits(s[1..]);
      assert s[..DigitRun(s)] == [s[0]] + s[1..][..DigitRun(s[1..])];
    }
  }

  lemma {:induction false} DigitRunOf(digits: string, s: string)
    requires Digits(digits) && (s == "" || !IsDigit(s[0]))
    ensures DigitRun(digits + s) == |digits|
  {
    if digits == "" {
      assert digits + s == s;
    } else {
      assert (digits + s)[0] == digits[0] && digits[0] in digits;
      assert (digits + s)[1..] == digits[1..] + s;
      DigitRunOf(digits[1..], s);
    }
  }

  /** What follows the separator: some text on one line and the extension in any case. */
  predicate Titled(tail: string) {
    |tail| >= 4 && ToLower(tail[|tail| - 3..]) == ".md" && '\n' !in tail[..|tail| - 3]
  }

  function ParseAfterPrefix(prefix: string, s: string): (r: Option<Numbered>)
    ensures r.Some? ==> r.value.prefix == prefix && r.value.digits != "" && Digits(r.value.digits) && IsSep(r.value.sep)
  {
    DigitRunSplits(s);
    var d := DigitRun(s);
    if d == 0 || d >= |s| || !IsSep(s[d]) || !Titled(s[d + 1..]) then None
    else Some(Numbered(prefix, s[..d], s[d], s[d + 1..|s| - 3]))
  }

  function ParseName(name: string): (r: Option<Numbered>) {
    if HasKind(name) then ParseAfterPrefix(ToLower(name[..3]) + "-", name[4..]) else ParseAfterPrefix("", name)
  }

  lemma ParsedShape(name: string)
    requires ParseName(name).Some?
    ensures var m := ParseName(name).value; IsPrefix(m.prefix) && m.digits != "" && Digits(m.digits) && IsSep(m.sep)
  {
    if HasKind(name) {
      assert (ToLower(name[..3]) + "-")[..3] == ToLower(name[..3]);
    }
  }

  function FileName(prefix: string, digits: string, sep: char, slug: string): string {
    prefix + (digits + [sep] + (slug + ".md"))
  }

  predicate OneLine(s: string) {
    s != "" && '\n' !in s
  }

  lemma TitledSlug(slug: string)
    requires OneLine(slug)
    ensures Titled(slug + ".md")
  {
    var tail := slug + ".md";
    assert tail[|tail| - 3..] == ".md" && tail[..|tail| - 3] == slug;
    assert ToLower(".md") == ".md" by {
      assert ToLower("d") == "d" && ToLower("md") == "md";
    }
  }

  lemma ParseAfterPrefixPrinted(prefix: string, digits: string, sep: char, slug: string)
    requires digits != "" && Digits(digits) && IsSep(sep) && OneLine(slug)
    ensures ParseAfterPrefix(prefix, digits + [sep] + (slug + ".md")) == Some(Numbered(prefix, digits, sep, slug))
  {
    var tail := slug + ".md";
    TitledSlug(slug);
    ParseAfterDigits(prefix, digits, sep, tail);
    assert tail[..|tail| - 3] == slug;
  }

  lemma ParseAfterDigits(prefix: string, digits: string, sep: char, tail: string)
    requires digits != "" && Digits(digits) && IsSep(sep) && Titled(tail)
    ensures ParseAfterPrefix(prefix, digits + [sep] + tail) == Some(Numbered(prefix, digits, sep, tail[..|tail| - 3]))
  {
    var s := digits + [sep] + tail;
    assert s == digits + ([sep] + tail);
    DigitRunOf(digits, [sep] + tail);
    assert s[|digits| + 1..] == tail;
    assert s[|digits| + 1..|s| - 3] == tail[..|tail| - 3];
  }

  lemma LowerKind(word: string)
    requires IsKind(word)
    ensures ToLower(word) == word && !IsDigit(word[0])
  {
    assert word[1..][1..] == word[2..];
    assert ToLower(word[2..]) == word[2..];
    assert ToLower(word[1..]) == word[1..];
  }

  lemma NotAKind(name: string)
    requires name != "" && !('a' <= LowerChar(name[0]) <= 'z')
    ensures !HasKind(name)
  {
    if |name| >= 4 {
      ToLowerAt(name[..3], 0);
    }
  }

  /** Every name a style prints reads back as that style, number and slug. */
  lemma ParseNamePrinted(prefix: string, digits: string, sep: char, slug: string)
    requires IsPrefix(prefix) && digits != "" && Digits(digits) && IsSep(sep) && OneLine(slug)
    ensures ParseName(FileName(prefix, digits, sep, slug)) == Some(Numbered(prefix, digits, sep, slug))
  {
    var name := FileName(prefix, digits, sep, slug);
    var rest := digits + [sep] + (slug + ".md");
    ParseAfterPrefixPrinted(prefix, digits, sep, slug);
    if prefix == "" {
      assert name == rest && name[0] == digits[0] && digits[0] in digits;
      NotAKind(name);
    } else {
      KindPrinted(prefix, rest);
    }
  }

  lemma KindPrinted(prefix: string, rest: string)
    requires IsPrefix(prefix) && prefix != ""
    ensures ParseName(prefix + rest) == ParseAfterPrefix(prefix, rest)
  {
    var name := prefix + rest;
    assert name[..3] == prefix[..3] && name[3] == '-' && name[4..] == rest;
    LowerKind(prefix[..3]);
    assert prefix == prefix[..3] + "-";
  }

  /** A number printed with a sign does not read back as a numbered name. */
  lemma SignedNotNumbered(prefix: string, digits: string, sep: char, slug: string)
    requires IsPrefix(prefix)
    ensures ParseName(FileName(prefix, "-" + digits, sep, slug)) == None
  {
    var name := FileName(prefix, "-" + digits, sep, slug);
    if prefix == "" {
      assert name[0] == '-';
      NotAKind(name);
      assert DigitRun(name) == 0;
    } else {
      assert name[..3] == prefix[..3] && name[3] == '-' && name[4] == '-';
      LowerKind(prefix[..3]);
      assert DigitRun(name[4..]) == 0;
    }
  }

  // ---------------------------------------------------------------- styles

  /** The text that identifies a style: its prefix, width and separator. */
  function StyleKey(prefix: string, width: nat, sep: char): string {
    prefix + ("|" + Decimal(width) + ("|" + [sep]))
  }

  lemma PrefixFreeOfBar(prefix: string)
    requires IsPrefix(prefix)
    ensures '|' !in prefix
  {
    if prefix != "" {
      assert prefix == prefix[..3] + [prefix[3]];
    }
  }

  lemma SplitAtBar(a: string, x: string, b: string, y: string)
    requires '|' !in a && '|' !in b && a + ("|" + x) == b + ("|" + y)
    ensures a == b && x == y
  {
    var s := a + ("|" + x);
    assert s[|a|] == '|' && s[|b|] == '|';
    assert forall k :: 0 <= k < |a| ==> s[k] == a[k] && a[k] in a;
    assert forall k :: 0 <= k < |b| ==> s[k] == b[k] && b[k] in b;
    assert |a| == |b|;
    assert a == s[..|a|] && b == s[..|a|];
    assert x == s[|a| + 1..] && y == s[|a| + 1..];
  }

  /** Names share a key exactly when they share prefix, width and separator. */
  lemma StyleKeyInjective(prefix: string, width: nat, sep: char, prefix': string, width': nat, sep': char)
    requires IsPrefix(prefix) && IsPrefix(prefix') && StyleKey(prefix, width, sep) == StyleKey(prefix', width', sep')
    ensures prefix == prefix' && width == width' && sep == sep'
  {
    PrefixFreeOfBar(prefix);
    PrefixFreeOfBar(prefix');
    DecimalValue(width);
    DecimalValue(width');
    var w, w' := Decimal(width), Decimal(width');
    assert StyleKey(prefix, width, sep) == prefix + ("|" + (w + ("|" + [sep])));
    assert StyleKey(prefix', width', sep') == prefix' + ("|" + (w' + ("|" + [sep'])));
    SplitAtBar(prefix, w + ("|" + [sep]), prefix', w' + ("|" + [sep']));
    SplitAtBar(w, [sep], w', [sep']);
    DecimalInjective(width, width');
  }

  /** composeRecordIDFromFilename: the digits of a numbered name. */
  function RecordIDFromFilename(name: string): string {
    match ParseName(name) case Some(m) => m.digits case None => "0001"
  }
}
