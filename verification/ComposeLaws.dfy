/** Which names count as numbered, and what a directory of names decides. */
module ComposeLaws {
  import opened Options
  import opened Text
  import opened Sorting
  import opened Decimals
  import opened FileNames
  import opened Slugs
  import opened Modal
  import opened Compose

  // ---------------------------------------------------------------- which names are numbered

  /** A name in its five parts: a kind of document with its dash or nothing, digits, a dash, a title on one line and
      the extension; letters in any case, underscores for dashes. */
  ghost predicate Form(name: string, kind: string, digits: string, sep: char, title: string, ext: string) {
    && name == kind + (digits + [sep] + (title + ext))
    && (kind == ""
        || (|kind| == 4 && ToLower(kind[..3]) in {"adr", "rfc", "prd"} && (kind[3] == '-' || kind[3] == '_')))
    && digits != "" && (forall c :: c in digits ==> '0' <= c <= '9')
    && (sep == '-' || sep == '_') && title != "" && '\n' !in title && |ext| == 3 && ToLower(ext) == ".md"
  }

  /** What is read of a name in that form: the kind in lower case with a dash, and the other parts as they are. */
  function ReadOf(kind: string, digits: string, sep: char, title: string): Numbered
    requires kind == "" || |kind| == 4
  {
    Numbered(if kind == "" then "" else ToLower(kind[..3]) + "-", digits, sep, title)
  }

  lemma TailParses(prefix: string, digits: string, sep: char, title: string, ext: string)
    requires Form(digits + [sep] + (title + ext), "", digits, sep, title, ext)
    ensures ParseAfterPrefix(prefix, digits + [sep] + (title + ext)) == Some(Numbered(prefix, digits, sep, title))
  {
    var tail := title + ext;
    assert tail[|tail| - 3..] == ext && tail[..|tail| - 3] == title;
    ParseAfterDigits(prefix, digits, sep, tail);
  }

  lemma KindParses(kind: string, rest: string)
    requires |kind| == 4 && IsKind(ToLower(kind[..3])) && IsSep(kind[3])
    ensures ParseName(kind + rest) == ParseAfterPrefix(ToLower(kind[..3]) + "-", rest)
  {
    KindCut(kind, rest);
  }

  lemma KindCut(kind: string, rest: string)
    requires |kind| == 4
    ensures var name := kind + rest; name[..3] == kind[..3] && name[3] == kind[3] && name[4..] == rest
  {
  }

  lemma FormParses(name: string, kind: string, digits: string, sep: char, title: string, ext: string)
    requires Form(name, kind, digits, sep, title, ext)
    ensures ParseName(name) == Some(ReadOf(kind, digits, sep, title))
  {
    var rest := digits + [sep] + (title + ext);
    assert "" + rest == rest;
    TailParses(if kind == "" then "" else ToLower(kind[..3]) + "-", digits, sep, title, ext);
    if kind == "" {
      assert name == rest && name[0] == digits[0] && digits[0] in digits;
      NotAKind(name);
    } else {
      KindParses(kind, rest);
    }
  }

  lemma CutAt(s: string, d: nat)
    requires d < |s| - 3
    ensures s == s[..d] + [s[d]] + (s[d + 1..|s| - 3] + s[|s| - 3..])
    ensures var tail := s[d + 1..]; tail[..|tail| - 3] == s[d + 1..|s| - 3] && tail[|tail| - 3..] == s[|s| - 3..]
  {
  }

  lemma TailForm(s: string)
    requires ParseAfterPrefix("", s).Some?
    ensures |s| >= 3
    ensures var m := ParseAfterPrefix("", s).value; Form(s, "", m.digits, m.sep, m.rest, s[|s| - 3..])
  {
    DigitRunSplits(s);
    CutAt(s, DigitRun(s));
    assert "" + s == s;
  }

  lemma ParsedForm(name: string) returns (kind: string, ext: string)
    requires ParseName(name).Some?
    ensures kind == "" || |kind| == 4
    ensures var m := ParseName(name).value;
            && Form(name, kind, m.digits, m.sep, m.rest, ext) && m == ReadOf(kind, m.digits, m.sep, m.rest)
  {
    kind := if HasKind(name) then name[..4] else "";
    var s := name[|kind|..];
    var m := ParseName(name).value;
    assert ParseAfterPrefix("", s) == Some(m.(prefix := ""));
    TailForm(s);
    ext := s[|s| - 3..];
    assert name == kind + s && kind != "" ==> kind[..3] == name[..3];
  }

  /** A name is numbered if and only if it has that form, and is read as its parts say, however it is split. */
  lemma ParseExactly(name: string)
    ensures ParseName(name).Some?
       <==> exists kind, digits, sep, title, ext :: Form(name, kind, digits, sep, title, ext)
    ensures forall kind, digits, sep, title, ext :: Form(name, kind, digits, sep, title, ext) ==>
              ParseName(name) == Some(ReadOf(kind, digits, sep, title))
  {
    forall kind, digits, sep, title, ext | Form(name, kind, digits, sep, title, ext)
      ensures ParseName(name) == Some(ReadOf(kind, digits, sep, title))
    {
      FormParses(name, kind, digits, sep, title, ext);
    }
    if ParseName(name).Some? {
      var kind, ext := ParsedForm(name);
    }
  }

  // ---------------------------------------------------------------- styles in use

  /** The same kind, the same number of digits and the same dash. */
  predicate SameStyle(a: Numbered, b: Numbered) {
    a.prefix == b.prefix && |a.digits| == |b.digits| && a.sep == b.sep
  }

  function InStyle(m: Numbered): string -> bool {
    name => ParseName(name).Some? && SameStyle(m, ParseName(name).value)
  }

  /** How many names of the directory are in the style. */
  function Mates(m: Numbered, names: seq<string>): nat {
    |Filter(InStyle(m), names)|
  }

  /** Read from some name of the directory. */
  ghost predicate InUse(m: Numbered, names: seq<string>) {
    exists name :: name in names && ParseName(name) == Some(m)
  }

  /** In use, and used more often than every other style. */
  ghost predicate MostUsed(m: Numbered, names: seq<string>) {
    InUse(m, names) && forall o :: InUse(o, names) && !SameStyle(o, m) ==> Mates(o, names) < Mates(m, names)
  }

  lemma KeysAreStyles(name: string, other: string)
    requires ParseName(name).Some? && ParseName(other).Some?
    ensures KeyOf(ParseName(name).value) == KeyOf(ParseName(other).value)
       <==> SameStyle(ParseName(name).value, ParseName(other).value)
  {
    var a, b := ParseName(name).value, ParseName(other).value;
    ParsedShape(name);
    ParsedShape(other);
    if KeyOf(a) == KeyOf(b) {
      StyleKeyInjective(a.prefix, |a.digits|, a.sep, b.prefix, |b.digits|, b.sep);
    }
  }

  lemma {:induction false} FilterSame(p: string -> bool, q: string -> bool, s: seq<string>)
    requires forall x :: x in s ==> p(x) == q(x)
    ensures Filter(p, s) == Filter(q, s)
  {
    if s != [] {
      assert s[0] in s && forall x :: x in s[1..] ==> x in s;
      FilterSame(p, q, s[1..]);
    }
  }

  /** The counts by key are the counts by style. */
  lemma CountedMates(m: Numbered, names: seq<string>)
    requires InUse(m, names)
    ensures KeyOf(m) in Counts(names) && Counts(names)[KeyOf(m)] == Mates(m, names) > 0
  {
    var name :| name in names && ParseName(name) == Some(m);
    var key := KeyOf(m);
    MaxBounds(names, name);
    SameKeys(names);
    CountsOccurrences(names, key);
    forall x | x in names ensures InStyle(m)(x) == HasKey(key, x) {
      if ParseName(x).Some? {
        KeysAreStyles(name, x);
      }
    }
    FilterSame(InStyle(m), x => HasKey(key, x), names);
    SameOccurrences(key, names);
  }

  lemma SameOccurrences(key: string, names: seq<string>)
    ensures Occurrences(key, names) == |Filter(x => HasKey(key, x), names)|
  {
    FilterSame(x => HasKey(key, x), name => HasKey(key, name), names);
  }

  /** Every key counted is that of a name. */
  lemma {:induction false} KeyInUse(names: seq<string>, key: string) returns (m: Numbered)
    requires key in Counts(names)
    ensures InUse(m, names) && KeyOf(m) == key
  {
    var n := |names| - 1;
    assert names[n] in names && forall name :: name in names[..n] ==> name in names;
    if key in Counts(names[..n]) {
      m := KeyInUse(names[..n], key);
      var name :| name in names[..n] && ParseName(name) == Some(m);
    } else {
      m := ParseName(names[n]).value;
    }
  }

  lemma StylesDiffer(names: seq<string>, a: Numbered, b: Numbered)
    requires InUse(a, names) && InUse(b, names)
    ensures KeyOf(a) == KeyOf(b) <==> SameStyle(a, b)
  {
    var name :| name in names && ParseName(name) == Some(a);
    var other :| other in names && ParseName(other) == Some(b);
    KeysAreStyles(name, other);
  }

  lemma MostUsedIsMode(names: seq<string>, m: Numbered)
    requires InUse(m, names)
    ensures MostUsed(m, names) <==> UniqueMode(Counts(names)) == Unique(KeyOf(m))
  {
    var counts, key := Counts(names), KeyOf(m);
    UniqueModeIs(counts, key);
    CountedMates(m, names);
    if MostUsed(m, names) {
      forall j | j in counts && j != key ensures counts[j] < counts[key] {
        var o := KeyInUse(names, j);
        StylesDiffer(names, o, m);
        CountedMates(o, names);
      }
    }
    if UniqueMode(counts) == Unique(key) {
      forall o | InUse(o, names) && !SameStyle(o, m) ensures Mates(o, names) < Mates(m, names) {
        StylesDiffer(names, o, m);
        CountedMates(o, names);
      }
    }
  }

  // ---------------------------------------------------------------- what a directory decides

  /** Of the names: none numbered, then the slug is the name, behind a first number in a new directory of decisions or
      requests; some numbered but no more than not, then a refusal; more numbered than not, then a name if and only
      if one style is used more often than every other, else a refusal. */
  lemma DirectoryDecides(title: string, product: bool, names: seq<string>)
    ensures var r, n := Compose.Compose(title, product, names), |Filter(IsNumbered, names)|;
            && (n == 0 ==>
                  r == Named((if names == [] && !product then "0001-" else "") + (Slug(title) + ".md"), "0001"))
            && (r.Mixed? <==> 0 < n <= |names| - n)
            && (n > |names| - n ==> (r.Named? <==> exists m :: MostUsed(m, names)))
            && (r.Conflicting? <==> n > |names| - n && !exists m :: MostUsed(m, names))
  {
    NumberedOccurrences(names);
    if NumberedCount(names) > |names| - NumberedCount(names) {
      NamedWhenMostUsed(title, product, names);
    }
  }

  lemma ModeInUse(names: seq<string>)
    ensures UniqueMode(Counts(names)).Unique? <==> exists m :: MostUsed(m, names)
  {
    var mode := UniqueMode(Counts(names));
    if mode.Unique? {
      UniqueModeIs(Counts(names), mode.value);
      var m := KeyInUse(names, mode.value);
      MostUsedIsMode(names, m);
    }
    if m :| MostUsed(m, names) {
      MostUsedIsMode(names, m);
    }
  }

  lemma NamedWhenMostUsed(title: string, product: bool, names: seq<string>)
    requires NumberedCount(names) > |names| - NumberedCount(names)
    ensures !Compose.Compose(title, product, names).Mixed?
    ensures Compose.Compose(title, product, names).Named? <==> exists m :: MostUsed(m, names)
  {
    SameKeys(names);
    NoValueIs(Counts(names));
    ModeInUse(names);
    if UniqueMode(Counts(names)).Unique? {
      UniqueModeIs(Counts(names), UniqueMode(Counts(names)).value);
    }
  }

  /** The name is in the most used style, and its number one more than the largest in that style. */
  lemma NumberedNext(title: string, product: bool, names: seq<string>, m: Numbered) returns (max: nat)
    requires |Filter(IsNumbered, names)| > |names| - |Filter(IsNumbered, names)| && MostUsed(m, names)
    ensures forall o :: InUse(o, names) && SameStyle(o, m) ==> Digits(o.digits) && Atoi(o.digits) <= max
    ensures max == 0 || exists o :: InUse(o, names) && SameStyle(o, m) && Digits(o.digits) && Atoi(o.digits) == max
    ensures var id := Padded(|m.digits|, Succ(max));
            Compose.Compose(title, product, names) == Named(m.prefix + (id + [m.sep] + (Slug(title) + ".md")), id)
  {
    var key := KeyOf(m);
    NumberedOccurrences(names);
    MostUsedIsMode(names, m);
    ComposeSettled(names, key, title, product);
    SettledStyle(names, key);
    var style := Styles(names)[key];
    max := style.max;
    var name :| name in names && ParseName(name) == Some(m);
    ParsedShape(name);
    StyleKeyInjective(style.prefix, style.width, style.sep, m.prefix, |m.digits|, m.sep);
    forall o | InUse(o, names) && SameStyle(o, m) ensures Digits(o.digits) && Atoi(o.digits) <= max {
      var other :| other in names && ParseName(other) == Some(o);
      ParsedShape(other);
      MaxBounds(names, other);
    }
    if max > 0 {
      MaxInUse(names, m);
    }
  }

  lemma MaxInUse(names: seq<string>, m: Numbered)
    requires InUse(m, names) && KeyOf(m) in Styles(names) && Styles(names)[KeyOf(m)].max > 0
    ensures exists o :: InUse(o, names) && SameStyle(o, m)
                        && Digits(o.digits) && Atoi(o.digits) == Styles(names)[KeyOf(m)].max
  {
    MaxAttained(names, KeyOf(m));
    var other :| other in names && HasKey(KeyOf(m), other)
                 && NumberOf(ParseName(other).value) == Styles(names)[KeyOf(m)].max;
    var o := ParseName(other).value;
    ParsedShape(other);
    assert InUse(o, names);
    StylesDiffer(names, o, m);
  }

  /** In a directory without numbered names every document gets the same record id, and the documents go on until a
      slug reads as a numbered name itself: the creation after it is refused. */
  lemma UnnumberedGoesOnExactly(names: seq<string>, title: string, next: string, product: bool)
    requires names != [] && Filter(IsNumbered, names) == []
    ensures var r := Compose.Compose(title, product, names);
            && r == Named(Slug(title) + ".md", "0001")
            && var r' := Compose.Compose(next, product, names + [r.filename]);
               if ParseName(r.filename).None? then r' == Named(Slug(next) + ".md", "0001") else r' == Mixed
  {
    NumberedOccurrences(names);
    var filename := Compose.Compose(title, product, names).filename;
    assert "" + (Slug(title) + ".md") == Slug(title) + ".md" && "" + (Slug(next) + ".md") == Slug(next) + ".md";
    if ParseName(filename).None? {
      AppendPlain(names, filename);
    } else {
      AppendNumbered(names, filename, ParseName(filename).value);
    }
  }
}
