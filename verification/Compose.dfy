/** Following the numbering of a directory (compose.go). */
module Compose {
  import opened Options
  import opened Sorting
  import opened Decimals
  import opened FileNames
  import opened Modal
  import opened Slugs

  datatype Convention = Convention(prefix: string, width: nat, sep: char, max: nat)

  /** A file name and its record id, or one of the two refusals. */
  datatype Outcome = Named(filename: string, recordID: string) | Mixed | Conflicting(winners: seq<string>)

  function KeyOf(m: Numbered): string {
    StyleKey(m.prefix, |m.digits|, m.sep)
  }

  function NumberOf(m: Numbered): nat {
    if Digits(m.digits) then Atoi(m.digits) else 0
  }

  function Note(styles: map<string, Convention>, m: Numbered): map<string, Convention> {
    var key := KeyOf(m);
    var style := if key in styles then styles[key] else Convention(m.prefix, |m.digits|, m.sep, 0);
    styles[key := style.(max := if NumberOf(m) > style.max then NumberOf(m) else style.max)]
  }

  function Tally(counts: map<string, nat>, m: Numbered): map<string, nat> {
    var key := KeyOf(m);
    counts[key := (if key in counts then counts[key] else 0) + 1]
  }

  function Styles(names: seq<string>): map<string, Convention> {
    if names == [] then map[]
    else
      var n := |names| - 1;
      match ParseName(names[n]) case None => Styles(names[..n]) case Some(m) => Note(Styles(names[..n]), m)
  }

  function Counts(names: seq<string>): map<string, nat> {
    if names == [] then map[]
    else
      var n := |names| - 1;
      match ParseName(names[n]) case None => Counts(names[..n]) case Some(m) => Tally(Counts(names[..n]), m)
  }

  function NumberedCount(names: seq<string>): (k: nat)
    ensures k <= |names|
  {
    if names == [] then 0
    else
      var n := |names| - 1;
      NumberedCount(names[..n]) + if ParseName(names[n]).Some? then 1 else 0
  }

  function NextName(style: Convention, slug: string): Outcome {
    var recordID := Padded(style.width, Succ(style.max));
    Named(FileName(style.prefix, recordID, style.sep, slug), recordID)
  }

  /** The count table has a value whenever something is numbered, and its keys are those of the styles, so
      the last two branches do not arise. */
  ghost function Compose(title: string, product: bool, names: seq<string>): Outcome {
    var numbered := NumberedCount(names);
    if numbered == 0 then
      Named((if names == [] && !product then "0001-" else "") + (Slug(title) + ".md"), "0001")
    else if numbered <= |names| - numbered then Mixed
    else
      match UniqueMode(Counts(names))
      case Tie(winners) => Conflicting(winners)
      case Unique(key) => if key in Styles(names) then NextName(Styles(names)[key], Slug(title)) else Mixed
      case NoValue => Mixed
  }

  lemma {:induction false} SameKeys(names: seq<string>)
    ensures Styles(names).Keys == Counts(names).Keys
    ensures forall k :: k in Counts(names) ==> Counts(names)[k] > 0
    ensures NumberedCount(names) > 0 ==> exists k :: k in Counts(names) && Counts(names)[k] > 0
  {
    if names != [] {
      var n := |names| - 1;
      SameKeys(names[..n]);
      match ParseName(names[n])
      case None =>
      case Some(m) => assert KeyOf(m) in Tally(Counts(names[..n]), m);
    }
  }

  method CollectStyles(names: seq<string>) returns (styles: map<string, Convention>, numbered: nat)
    ensures styles == Styles(names) && numbered == NumberedCount(names)
  {
    styles, numbered := map[], 0;
    for i := 0 to |names|
      invariant styles == Styles(names[..i]) && numbered == NumberedCount(names[..i])
    {
      assert names[..i + 1][..i] == names[..i];
      var parsed := ParseName(names[i]);
      if parsed.None? {
        continue;
      }
      var m := parsed.value;
      numbered := numbered + 1;
      var key := KeyOf(m);
      var style := if key in styles then styles[key] else Convention(m.prefix, |m.digits|, m.sep, 0);
      if NumberOf(m) > style.max {
        style := style.(max := NumberOf(m));
      }
      styles := styles[key := style];
    }
    assert names[..|names|] == names;
  }

  method CountStyles(names: seq<string>) returns (counts: map<string, nat>)
    ensures counts == Counts(names)
  {
    counts := map[];
    for i := 0 to |names|
      invariant counts == Counts(names[..i])
    {
      assert names[..i + 1][..i] == names[..i];
      var parsed := ParseName(names[i]);
      if parsed.Some? {
        counts := Tally(counts, parsed.value);
      }
    }
    assert names[..|names|] == names;
  }

  method ComposeFilename(title: string, product: bool, names: seq<string>) returns (r: Outcome)
    ensures r == Compose(title, product, names)
  {
    var slug := ComposeSlug(title);
    var styles, numbered := CollectStyles(names);
    if numbered == 0 && |names| > 0 {
      return Named(slug + ".md", "0001");
    }
    if numbered > 0 && numbered <= |names| - numbered {
      return Mixed;
    }
    if numbered == 0 {
      if product {
        return Named(slug + ".md", "0001");
      }
      return Named("0001-" + (slug + ".md"), "0001");
    }
    var counts := CountStyles(names);
    SameKeys(names);
    NoValueIs(counts);
    var mode := UniqueModalValue(counts);
    if mode.Tie? {
      return Conflicting(mode.winners);
    }
    UniqueModeIs(counts, mode.value);
    r := NextName(styles[mode.value], slug);
  }

  // ---------------------------------------------------------------- what the directory says about a style

  predicate ConventionOk(key: string, style: Convention) {
    && IsPrefix(style.prefix) && style.width > 0 && IsSep(style.sep)
    && key == StyleKey(style.prefix, style.width, style.sep) && style.max <= MaxInt
  }

  lemma {:induction false} StylesOk(names: seq<string>)
    ensures forall k :: k in Styles(names) ==> ConventionOk(k, Styles(names)[k])
  {
    if names != [] {
      var n := |names| - 1;
      StylesOk(names[..n]);
      if ParseName(names[n]).Some? {
        ParsedShape(names[n]);
      }
    }
  }

  /** The style's number is the largest of its names. */
  lemma {:induction false} MaxBounds(names: seq<string>, name: string)
    requires name in names && ParseName(name).Some?
    ensures var m := ParseName(name).value; KeyOf(m) in Styles(names) && NumberOf(m) <= Styles(names)[KeyOf(m)].max
  {
    var n := |names| - 1;
    if name != names[n] {
      assert name in names[..n];
      MaxBounds(names[..n], name);
    }
  }

  /** Most names are numbered and one style is the most frequent. */
  ghost predicate Settled(names: seq<string>, key: string) {
    && NumberedCount(names) > |names| - NumberedCount(names)
    && UniqueMode(Counts(names)) == Unique(key)
  }

  /** The next number is one the style's width can hold. */
  predicate Fits(style: Convention) {
    style.max < MaxInt && style.max + 1 < Pow10(style.width)
  }

  lemma SettledStyle(names: seq<string>, key: string)
    requires Settled(names, key)
    ensures key in Styles(names) && key in Counts(names) && ConventionOk(key, Styles(names)[key])
  {
    UniqueModeIs(Counts(names), key);
    SameKeys(names);
    StylesOk(names);
  }

  lemma SlugOneLine(title: string)
    ensures OneLine(Slug(title))
  {
    SlugFixesClean(title);
    assert forall c :: c in Slug(title) ==> c != '\n';
  }

  lemma NextNameParses(key: string, style: Convention, title: string)
    requires ConventionOk(key, style) && Fits(style)
    ensures var r := NextName(style, Slug(title));
            && r.recordID == Pad(style.width, style.max + 1) && |r.recordID| == style.width
            && ParseName(r.filename) == Some(Numbered(style.prefix, r.recordID, style.sep, Slug(title)))
            && KeyOf(ParseName(r.filename).value) == key && NumberOf(ParseName(r.filename).value) == style.max + 1
  {
    var id := Pad(style.width, style.max + 1);
    PadReadsBack(style.width, style.max + 1);
    SlugOneLine(title);
    ParseNamePrinted(style.prefix, id, style.sep, Slug(title));
  }

  lemma TallyKeepsMode(counts: map<string, nat>, m: Numbered, key: string)
    requires UniqueMode(counts) == Unique(key) && KeyOf(m) == key
    ensures UniqueMode(Tally(counts, m)) == Unique(key)
  {
    UniqueModeIs(counts, key);
    UniqueModeIs(Tally(counts, m), key);
  }

  /** A new name of the settled style, numbered next, is not among the old ones. */
  lemma NewNumberIsNew(names: seq<string>, name: string)
    requires ParseName(name).Some?
    requires var m := ParseName(name).value; KeyOf(m) in Styles(names) ==> NumberOf(m) > Styles(names)[KeyOf(m)].max
    ensures name !in names
  {
    if name in names {
      MaxBounds(names, name);
    }
  }

  lemma AppendNumbered(names: seq<string>, name: string, m: Numbered)
    requires ParseName(name) == Some(m)
    ensures Styles(names + [name]) == Note(Styles(names), m) && Counts(names + [name]) == Tally(Counts(names), m)
    ensures NumberedCount(names + [name]) == NumberedCount(names) + 1
  {
    assert (names + [name])[..|names|] == names;
  }

  lemma ComposeSettled(names: seq<string>, key: string, title: string, product: bool)
    requires Settled(names, key)
    ensures key in Styles(names) && Compose(title, product, names) == NextName(Styles(names)[key], Slug(title))
  {
    SettledStyle(names, key);
  }

  /** A document of the style: the file's name carries the number and the slug of the title, was not there
      before, and reads back to its record id. */
  ghost predicate CreatedIn(prefix: string, width: nat, sep: char, before: seq<string>, name: string, number: nat,
                            title: string) {
    && name == FileName(prefix, Pad(width, number), sep, Slug(title))
    && name !in before
    && RecordIDFromFilename(name) == Pad(width, number)
  }

  lemma SettledStays(names: seq<string>, key: string, name: string, m: Numbered)
    requires Settled(names, key) && key in Styles(names)
    requires ParseName(name) == Some(m) && KeyOf(m) == key && NumberOf(m) == Styles(names)[key].max + 1
    ensures Settled(names + [name], key) && key in Styles(names + [name])
    ensures Styles(names + [name])[key] == Styles(names)[key].(max := Styles(names)[key].max + 1)
  {
    AppendNumbered(names, name, m);
    TallyKeepsMode(Counts(names), m, key);
  }

  /** One creation in a settled directory: it is named in the same style with the next number, and the
      directory is settled as before with that number as its largest. */
  lemma CreateOnce(names: seq<string>, key: string, title: string, product: bool)
    requires Settled(names, key) && key in Styles(names) && Fits(Styles(names)[key])
    ensures var style := Styles(names)[key]; var r := Compose(title, product, names);
            && r == NextName(style, Slug(title)) && r.recordID == Pad(style.width, style.max + 1)
            && CreatedIn(style.prefix, style.width, style.sep, names, r.filename, style.max + 1, title)
            && Settled(names + [r.filename], key)
            && key in Styles(names + [r.filename])
            && Styles(names + [r.filename])[key] == style.(max := style.max + 1)
  {
    SettledStyle(names, key);
    ComposeSettled(names, key, title, product);
    var style := Styles(names)[key];
    NextNameParses(key, style, title);
    var r := NextName(style, Slug(title));
    NewNumberIsNew(names, r.filename);
    SettledStays(names, key, r.filename, ParseName(r.filename).value);
  }

  // ---------------------------------------------------------------- any run of creations

  /** The directory after creating documents with these titles, one after another; None when one is refused. */
  ghost function CreateAll(names: seq<string>, titles: seq<string>, product: bool): Option<seq<string>>
    decreases |titles|
  {
    if titles == [] then Some(names)
    else
      match Compose(titles[0], product, names)
      case Named(filename, _) => CreateAll(names + [filename], titles[1..], product)
      case _ => None
  }

  /** The names go on from the ones before with the documents of these titles, numbered from first. */
  ghost predicate NumberedOn(created: (seq<string>, string, nat, string) -> bool, before: seq<string>,
                             names: seq<string>,
                             first: nat, titles: seq<string>)
    decreases |titles|
  {
    if titles == [] then names == before
    else
      && before < names
      && created(before, names[|before|], first, titles[0])
      && NumberedOn(created, before + [names[|before|]], names, first + 1, titles[1..])
  }

  lemma {:induction false} NumberedOnAt(created: (seq<string>, string, nat, string) -> bool, before: seq<string>,
                                        names: seq<string>,
                                        first: nat, titles: seq<string>, i: nat)
    requires NumberedOn(created, before, names, first, titles) && i < |titles|
    ensures before <= names && |names| == |before| + |titles|
    ensures created(names[..|before| + i], names[|before| + i], first + i, titles[i])
    decreases |titles|
  {
    var next := before + [names[|before|]];
    if i > 0 {
      NumberedOnAt(created, next, names, first + 1, titles[1..], i - 1);
    } else if |titles| > 1 {
      NumberedOnAt(created, next, names, first + 1, titles[1..], 0);
      assert names[..|before|] == before;
    } else {
      assert titles[1..] == [] && names == next && names[..|before|] == before;
    }
  }

  ghost function Documents(prefix: string, width: nat, sep: char): (seq<string>, string, nat, string) -> bool {
    (before: seq<string>, name: string, number: nat, title: string) =>
      CreatedIn(prefix, width, sep, before, name, number, title)
  }

  lemma CreateFirst(names: seq<string>, titles: seq<string>, product: bool)
    requires titles != [] && Compose(titles[0], product, names).Named?
    ensures CreateAll(names, titles, product)
         == CreateAll(names + [Compose(titles[0], product, names).filename], titles[1..], product)
  {
  }

  lemma StyleContinues(created: (seq<string>, string, nat, string) -> bool, before: seq<string>, name: string,
                       names: seq<string>,
                       first: nat, titles: seq<string>)
    requires titles != [] && created(before, name, first, titles[0])
    requires NumberedOn(created, before + [name], names, first + 1, titles[1..])
    ensures NumberedOn(created, before, names, first, titles)
  {
    if |titles| > 1 {
      NumberedOnAt(created, before + [name], names, first + 1, titles[1..], 0);
    }
    assert names[|before|] == (before + [name])[|before|];
  }

  lemma CreateNext(names: seq<string>, key: string, titles: seq<string>, product: bool) returns (name: string)
    requires titles != [] && Settled(names, key) && key in Styles(names) && Fits(Styles(names)[key])
    ensures var style := Styles(names)[key];
            && Documents(style.prefix, style.width, style.sep)(names, name, style.max + 1, titles[0])
            && Settled(names + [name], key) && key in Styles(names + [name])
            && Styles(names + [name])[key] == style.(max := style.max + 1)
            && CreateAll(names, titles, product) == CreateAll(names + [name], titles[1..], product)
  {
    CreateOnce(names, key, titles[0], product);
    CreateFirst(names, titles, product);
    name := Compose(titles[0], product, names).filename;
  }

  /** As long as the numbers fit the width, any run of creations in a settled directory succeeds, keeps the
      style, numbers consecutively, and never takes a name that is there. */
  lemma {:induction false} NumberingIsStable(names: seq<string>, key: string, titles: seq<string>, product: bool)
    requires Settled(names, key) && key in Styles(names)
    requires var style := Styles(names)[key];
             style.max + |titles| <= MaxInt && style.max + |titles| < Pow10(style.width)
    ensures var r := CreateAll(names, titles, product); var style := Styles(names)[key];
            && r.Some? && Settled(r.value, key)
            && NumberedOn(Documents(style.prefix, style.width, style.sep), names, r.value, style.max + 1, titles)
    decreases |titles|
  {
    if titles != [] {
      var style := Styles(names)[key];
      var name := CreateNext(names, key, titles, product);
      NumberingIsStable(names + [name], key, titles[1..], product);
      var created := Documents(style.prefix, style.width, style.sep);
      StyleContinues(created, names, name, CreateAll(names, titles, product).value, style.max + 1, titles);
    } else {
      assert CreateAll(names, titles, product) == Some(names);
    }
  }

  lemma FourDigits(n: nat)
    requires n == 1
    ensures Pad(4, n) == "0001" && Pow10(4) == 10_000 && Value("0001") == 1
  {
    assert Decimal(1) == "1" && Zeros(3) == "000";
    assert Pow10(1) == 10 && Pow10(2) == 100 by { assert Pow10(0) == 1; }
    PadReadsBack(4, 1);
  }

  lemma StylesOfOne(name: string, m: Numbered)
    requires ParseName(name) == Some(m)
    ensures Settled([name], KeyOf(m)) && Styles([name])
            == map[KeyOf(m) := Convention(m.prefix, |m.digits|, m.sep, NumberOf(m))]
  {
    NotedFirst([], name, m);
    assert [] + [name] == [name];
    UniqueModeIs(map[KeyOf(m) := 1], KeyOf(m));
    SettledOn([name], KeyOf(m));
  }

  lemma SettledOn(names: seq<string>, key: string)
    requires |names| == NumberedCount(names) == 1 && UniqueMode(Counts(names)) == Unique(key)
    ensures Settled(names, key)
  {
  }

  lemma NotedFirst(none: seq<string>, name: string, m: Numbered)
    requires ParseName(name) == Some(m) && none == []
    ensures Styles(none + [name]) == map[KeyOf(m) := Convention(m.prefix, |m.digits|, m.sep, NumberOf(m))]
    ensures Counts(none + [name]) == map[KeyOf(m) := 1] && NumberedCount(none + [name]) == 1
  {
    AppendNumbered(none, name, m);
    NoteFirst(m);
  }

  lemma NoteFirst(m: Numbered)
    ensures Tally(map[], m) == map[KeyOf(m) := 1]
    ensures Note(map[], m) == map[KeyOf(m) := Convention(m.prefix, |m.digits|, m.sep, NumberOf(m))]
  {
  }

  lemma FirstDocument(title: string)
    ensures var r := Compose(title, false, []); var key := StyleKey("", 4, '-');
            && r.Named? && CreatedIn("", 4, '-', [], r.filename, 1, title)
            && Settled([r.filename], key) && Styles([r.filename]) == map[key := Convention("", 4, '-', 1)]
  {
    var name := "0001-" + (Slug(title) + ".md");
    FourDigits(1);
    assert name == FileName("", "0001", '-', Slug(title)) by {
      assert "0001" + ['-'] == "0001-";
    }
    assert Compose(title, false, []).filename == name;
    SlugOneLine(title);
    ParseNamePrinted("", "0001", '-', Slug(title));
    StylesOfOne(name, Numbered("", "0001", '-', Slug(title)));
  }

  /** From an empty decision or request directory, up to 9999 creations number the documents from 0001. */
  lemma EmptyDirectoryNumbers(titles: seq<string>)
    requires 0 < |titles| < 10_000
    ensures var r := CreateAll([], titles, false);
            r.Some? && NumberedOn(Documents("", 4, '-'), [], r.value, 1, titles)
  {
    FirstDocument(titles[0]);
    FourDigits(1);
    var name := Compose(titles[0], false, []).filename;
    CreateFirst([], titles, false);
    assert [] + [name] == [name];
    NumberingIsStable([name], StyleKey("", 4, '-'), titles[1..], false);
    StyleContinues(Documents("", 4, '-'), [], name, CreateAll([], titles, false).value, 1, titles);
  }

  // ---------------------------------------------------------------- when the numbers no longer fit

  lemma AppendPlain(names: seq<string>, name: string)
    requires ParseName(name) == None
    ensures Styles(names + [name]) == Styles(names) && Counts(names + [name]) == Counts(names)
    ensures NumberedCount(names + [name]) == NumberedCount(names)
  {
    assert (names + [name])[..|names|] == names;
  }

  lemma TallyElsewhere(counts: map<string, nat>, m: Numbered, key: string, winner: string)
    requires UniqueMode(counts) == Unique(key) && KeyOf(m) != key && UniqueMode(Tally(counts, m)) == Unique(winner)
    ensures winner == key
  {
    UniqueModeIs(counts, key);
    UniqueModeIs(Tally(counts, m), winner);
  }

  /** A created name outside the style leaves the style as it is, so the next creation is refused or gets the
      same record id again. */
  lemma OutsideStyleRepeats(names: seq<string>, key: string, name: string, title: string, product: bool)
    requires Settled(names, key) && key in Styles(names)
    requires ParseName(name).Some? ==> KeyOf(ParseName(name).value) != key
    ensures var r := Compose(title, product, names + [name]);
            r.Named? ==> r.recordID == Padded(Styles(names)[key].width, Succ(Styles(names)[key].max))
  {
    var r := Compose(title, product, names + [name]);
    if ParseName(name).None? {
      AppendPlain(names, name);
    } else {
      var m := ParseName(name).value;
      AppendNumbered(names, name, m);
      if r.Named? {
        TallyElsewhere(Counts(names), m, key, UniqueMode(Counts(names + [name])).value);
      }
    }
  }

  lemma OverflowLeavesStyle(key: string, style: Convention, title: string)
    requires ConventionOk(key, style) && !Fits(style)
    ensures var name := NextName(style, Slug(title)).filename;
            ParseName(name).Some? ==> KeyOf(ParseName(name).value) != key
  {
    SlugOneLine(title);
    if style.max >= MaxInt {
      SignedNotNumbered(style.prefix, Pad(style.width - 1, MaxInt + 1), style.sep, Slug(title));
    } else {
      var id := Pad(style.width, style.max + 1);
      PadReadsBack(style.width, style.max + 1);
      ParseNamePrinted(style.prefix, id, style.sep, Slug(title));
      if StyleKey(style.prefix, |id|, style.sep) == key {
        StyleKeyInjective(style.prefix, |id|, style.sep, style.prefix, style.width, style.sep);
      }
    }
  }

  lemma NextIdDiffers(width: nat, n: nat)
    requires width > 0
    ensures Padded(width, Succ(n)) != Pad(width, n)
  {
    PadReadsBack(width, n);
    assert Pad(width, n)[0] in Pad(width, n);
    if n < MaxInt {
      PadReadsBack(width, n + 1);
    } else {
      assert Padded(width, Succ(n))[0] == '-';
    }
  }

  /** After a creation in a settled directory the next one gets a new record id exactly when the number just
      given fits the width of the style; otherwise it is refused or given the same id again. */
  lemma ContinuesExactly(names: seq<string>, key: string, title: string, next: string, product: bool)
    requires Settled(names, key) && key in Styles(names)
    ensures var r := Compose(title, product, names);
            && r.Named?
            && (var r' := Compose(next, product, names + [r.filename]);
                r'.Named? && r'.recordID != r.recordID <==> Fits(Styles(names)[key]))
  {
    SettledStyle(names, key);
    ComposeSettled(names, key, title, product);
    var style := Styles(names)[key];
    var r := Compose(title, product, names);
    if Fits(style) {
      CreateOnce(names, key, title, product);
      ComposeSettled(names + [r.filename], key, next, product);
      NextIdDiffers(style.width, style.max + 1);
    } else {
      OverflowLeavesStyle(key, style, title);
      OutsideStyleRepeats(names, key, r.filename, next, product);
    }
  }

  // ---------------------------------------------------------------- the order of the directory does not matter

  predicate HasKey(key: string, name: string) {
    ParseName(name).Some? && KeyOf(ParseName(name).value) == key
  }

  function Occurrences(key: string, names: seq<string>): nat {
    |Filter(name => HasKey(key, name), names)|
  }

  lemma {:induction false} CountsOccurrences(names: seq<string>, key: string)
    ensures (if key in Counts(names) then Counts(names)[key] else 0) == Occurrences(key, names)
  {
    if names != [] {
      var n := |names| - 1;
      CountsOccurrences(names[..n], key);
      FilterAppend(name => HasKey(key, name), names[..n], [names[n]]);
      assert names == names[..n] + [names[n]];
      assert [names[n]][1..] == [];
    }
  }

  lemma SameCounts(a: seq<string>, b: seq<string>)
    requires multiset(a) == multiset(b)
    ensures Counts(a) == Counts(b)
  {
    SameKeys(a);
    SameKeys(b);
    forall key ensures key in Counts(a) <==> key in Counts(b)
               ensures key in Counts(a) && key in Counts(b) ==> Counts(a)[key] == Counts(b)[key]
    {
      CountsOccurrences(a, key);
      CountsOccurrences(b, key);
      FilterLengthPermutes(name => HasKey(key, name), a, b);
    }
  }

  predicate IsNumbered(name: string) {
    ParseName(name).Some?
  }

  lemma {:induction false} NumberedOccurrences(names: seq<string>)
    ensures NumberedCount(names) == |Filter(IsNumbered, names)|
  {
    if names != [] {
      var n := |names| - 1;
      NumberedOccurrences(names[..n]);
      FilterAppend(IsNumbered, names[..n], [names[n]]);
      assert names == names[..n] + [names[n]];
      assert [names[n]][1..] == [];
    }
  }

  /** The largest number is that of some name, or zero. */
  lemma {:induction false} MaxAttained(names: seq<string>, key: string)
    requires key in Styles(names)
    ensures Styles(names)[key].max == 0
         || exists name :: name in names && HasKey(key, name)
                           && NumberOf(ParseName(name).value) == Styles(names)[key].max
  {
    var n := |names| - 1;
    assert names[n] in names && forall name :: name in names[..n] ==> name in names;
    if key in Styles(names[..n]) {
      MaxAttained(names[..n], key);
    }
  }

  lemma MaxNotAbove(a: seq<string>, b: seq<string>, key: string)
    requires multiset(a) == multiset(b) && key in Styles(a) && key in Styles(b)
    ensures Styles(a)[key].max <= Styles(b)[key].max
  {
    MaxAttained(a, key);
    if Styles(a)[key].max > 0 {
      var name :| name in a && HasKey(key, name) && NumberOf(ParseName(name).value) == Styles(a)[key].max;
      assert name in multiset(b);
      MaxBounds(b, name);
    }
  }

  lemma SameStyles(a: seq<string>, b: seq<string>)
    requires multiset(a) == multiset(b)
    ensures Styles(a) == Styles(b)
  {
    SameCounts(a, b);
    SameKeys(a);
    SameKeys(b);
    StylesOk(a);
    StylesOk(b);
    forall key | key in Styles(a) && key in Styles(b) ensures Styles(a)[key] == Styles(b)[key] {
      var x, y := Styles(a)[key], Styles(b)[key];
      StyleKeyInjective(x.prefix, x.width, x.sep, y.prefix, y.width, y.sep);
      MaxNotAbove(a, b, key);
      MaxNotAbove(b, a, key);
    }
  }

  /** The name given does not depend on the order in which the directory's documents are listed. */
  lemma ComposeIgnoresOrder(title: string, product: bool, a: seq<string>, b: seq<string>)
    requires multiset(a) == multiset(b)
    ensures Compose(title, product, a) == Compose(title, product, b)
  {
    SameCounts(a, b);
    SameStyles(a, b);
    NumberedOccurrences(a);
    NumberedOccurrences(b);
    FilterLengthPermutes(IsNumbered, a, b);
    assert |a| == |multiset(a)| == |multiset(b)| == |b|;
  }
}
