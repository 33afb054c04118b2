/** Which candidates are tests, noise or weak, by the directories of their paths. */
module PathKinds {
  // The searches for text in a path, read as statements about its segments (find_source_manifest_consumption.go,
  // find_source_manifest_recovery.go).

  import opened Text
  import opened Paths
  import opened PackChain

  // ---------------------------------------------------------------- text in a path and segments

  function Segments(path: string): seq<string> {
    Split('/', path)
  }

  /** These directories stand in the path one behind the other, from segment i on. */
  predicate DirsAt(path: string, dirs: seq<string>, i: nat) {
    i + |dirs| < |Segments(path)| && Segments(path)[i..i + |dirs|] == dirs
  }

  predicate SlashFree(parts: seq<string>) {
    forall part :: part in parts ==> '/' !in part
  }

  lemma ContainsAt(s: string, pat: string)
    ensures Contains(s, pat) <==> exists a, b :: s == a + pat + b
  {
    IndexIsFirst(s, pat);
    if Contains(s, pat) {
      var i := Index(s, pat);
      assert s == s[..i] + pat + s[i + |pat|..];
    }
    if a, b :| s == a + pat + b {
      assert At(s, |a|, pat) by {
        assert s[|a|..|a| + |pat|] == pat;
      }
    }
  }

  lemma SlashesAround(a: string, mid: string, b: string)
    ensures a + ("/" + mid + "/") + b == a + ['/'] + (mid + ['/'] + b)
  {
  }

  /** Around a slash a path splits apart. */
  lemma SplitAround(a: string, dirs: seq<string>, b: string)
    requires dirs != [] && SlashFree(dirs)
    ensures Segments(a + ("/" + Join('/', dirs) + "/") + b) == Segments(a) + (dirs + Segments(b))
  {
    var mid := Join('/', dirs);
    SplitJoin('/', dirs);
    SplitAppend('/', mid, b);
    SplitAppend('/', a, mid + ['/'] + b);
    SlashesAround(a, mid, b);
  }

  lemma JoinAround(a: seq<string>, mid: seq<string>, b: seq<string>)
    requires a != [] && mid != [] && b != []
    ensures Join('/', a + (mid + b)) == Join('/', a) + ("/" + Join('/', mid) + "/") + Join('/', b)
  {
    JoinAppend('/', a, mid + b);
    JoinAppend('/', mid, b);
    SlashesAround(Join('/', a), Join('/', mid), Join('/', b));
  }

  lemma DirsBetween(path: string, a: string, dirs: seq<string>, b: string)
    requires Segments(path) == Segments(a) + (dirs + Segments(b))
    ensures DirsAt(path, dirs, |Segments(a)|)
  {
  }

  lemma CutAround(segs: seq<string>, i: nat, n: nat)
    requires i + n <= |segs|
    ensures segs == segs[..i] + (segs[i..i + n] + segs[i + n..])
  {
  }

  lemma DirsShown(path: string, dirs: seq<string>, i: nat) returns (a: string, b: string)
    requires dirs != [] && 1 <= i && DirsAt(path, dirs, i)
    ensures path == a + ("/" + Join('/', dirs) + "/") + b
  {
    var segs, n := Segments(path), i + |dirs|;
    a, b := Join('/', segs[..i]), Join('/', segs[n..]);
    JoinSplit('/', path);
    CutAround(segs, i, |dirs|);
    JoinAround(segs[..i], dirs, segs[n..]);
  }

  /** Directories between slashes stand behind the first segment. */
  lemma DirsInside(path: string, dirs: seq<string>)
    requires dirs != [] && SlashFree(dirs)
    ensures Contains(path, "/" + Join('/', dirs) + "/") <==> exists i: nat :: 1 <= i && DirsAt(path, dirs, i)
  {
    var pat := "/" + Join('/', dirs) + "/";
    ContainsAt(path, pat);
    if a, b :| path == a + pat + b {
      SplitAround(a, dirs, b);
      DirsBetween(path, a, dirs, b);
    }
    if i: nat :| 1 <= i && DirsAt(path, dirs, i) {
      var a, b := DirsShown(path, dirs, i);
    }
  }

  /** A directory at the start of a path is its first segment. */
  lemma DirFirst(path: string, dir: string)
    requires '/' !in dir
    ensures dir + "/" <= path <==> DirsAt(path, [dir], 0)
  {
    var segs := Segments(path);
    if dir + "/" <= path {
      var b := path[|dir| + 1..];
      assert path == dir + ['/'] + b;
      SplitAppend('/', dir, b);
      SplitFree('/', dir);
      assert ([dir] + Segments(b))[0..1] == [dir];
    }
    if DirsAt(path, [dir], 0) {
      JoinSplit('/', path);
      assert segs[0] == segs[0..1][0] == dir;
      assert path == dir + ['/'] + Join('/', segs[1..]);
    }
  }

  /** The two searches for a directory together find it anywhere. */
  lemma DirAnywhere(path: string, dir: string)
    requires '/' !in dir
    ensures Contains(path, "/" + dir + "/") || dir + "/" <= path <==> exists i: nat :: DirsAt(path, [dir], i)
  {
    assert Join('/', [dir]) == dir;
    DirsInside(path, [dir]);
    DirFirst(path, dir);
  }

  lemma {:induction false} SplitStarts(w: string, s: string)
    requires '/' !in w
    ensures w <= Split('/', w + s)[0]
  {
    if w != "" {
      assert (w + s)[0] == w[0] && w[0] in w && (w + s)[1..] == w[1..] + s;
      SplitStarts(w[1..], s);
    }
  }

  /** Text behind a slash starts a segment other than the first. */
  lemma SegmentStarts(path: string, w: string)
    requires '/' !in w
    ensures Contains(path, "/" + w) <==> exists i :: 1 <= i < |Segments(path)| && w <= Segments(path)[i]
  {
    ContainsAt(path, "/" + w);
    if a, b :| path == a + ("/" + w) + b {
      assert path == a + ['/'] + (w + b);
      SplitAppend('/', a, w + b);
      SplitStarts(w, b);
      assert Segments(path)[|Segments(a)|] == Segments(w + b)[0];
    }
    if i :| 1 <= i < |Segments(path)| && w <= Segments(path)[i] {
      StartsInside(path, w, i);
    }
  }

  lemma StartsInside(path: string, w: string, i: nat)
    requires 1 <= i < |Segments(path)| && w <= Segments(path)[i]
    ensures exists a, b :: path == a + ("/" + w) + b
  {
    var segs := Segments(path);
    JoinSplit('/', path);
    assert segs == segs[..i] + segs[i..];
    JoinAppend('/', segs[..i], segs[i..]);
    var a, tail := Join('/', segs[..i]), Join('/', segs[i..]);
    assert segs[i..][0] == segs[i] && segs[i] <= tail;
    assert path == a + ("/" + w) + tail[|w|..];
  }

  // ---------------------------------------------------------------- tests, noise and weak paths

  /** The directory stands somewhere in the path. */
  ghost predicate Under(path: string, dir: string) {
    exists i: nat :: DirsAt(path, [dir], i)
  }

  /** It stands there, but not first. */
  ghost predicate UnderInner(path: string, dir: string) {
    exists i: nat :: 1 <= i && DirsAt(path, [dir], i)
  }

  /** A segment other than the first starts with the text. */
  ghost predicate StartsSegment(path: string, w: string) {
    exists i :: 1 <= i < |Segments(path)| && w <= Segments(path)[i]
  }

  lemma Anywhere(path: string, dir: string, inner: string, lead: string)
    requires '/' !in dir && inner == "/" + dir + "/" && lead == dir + "/"
    ensures Contains(path, inner) || lead <= path <==> Under(path, dir)
  {
    DirAnywhere(path, dir);
  }

  lemma Inside(path: string, dir: string, inner: string)
    requires '/' !in dir && inner == "/" + dir + "/"
    ensures Contains(path, inner) <==> UnderInner(path, dir)
  {
    assert Join('/', [dir]) == dir;
    DirsInside(path, [dir]);
  }

  /** A candidate is a test when it is a test case or lies under a directory tests, in any case. */
  lemma TestExactly(c: Candidate)
    ensures IsTest(c) <==> ToLower(c.subtype) == "test_case" || Under(ToLower(c.path), "tests")
  {
    Anywhere(ToLower(c.path), "tests", "/tests/", "tests/");
  }

  lemma Examples(path: string)
    ensures Contains(path, "/docs_src/") || "docs_src/" <= path <==> Under(path, "docs_src")
    ensures Contains(path, "/examples/") || "examples/" <= path <==> Under(path, "examples")
    ensures Contains(path, "/tutorial") <==> StartsSegment(path, "tutorial")
  {
    Anywhere(path, "docs_src", "/docs_src/", "docs_src/");
    Anywhere(path, "examples", "/examples/", "examples/");
    SegmentStarts(path, "tutorial");
    assert "/" + "tutorial" == "/tutorial";
  }

  lemma JavaScriptDocs(path: string)
    ensures Contains(path, "/docs/en/docs/js/")
       <==> exists i: nat :: 1 <= i && DirsAt(path, ["docs", "en", "docs", "js"], i)
  {
    var dirs := ["docs", "en", "docs", "js"];
    assert dirs[1..] == ["en", "docs", "js"] && dirs[1..][1..] == ["docs", "js"] && dirs[1..][1..][1..] == ["js"];
    assert Join('/', ["docs", "js"]) == "docs/js" && Join('/', ["en", "docs", "js"]) == "en/docs/js";
    assert "/" + Join('/', dirs) + "/" == "/docs/en/docs/js/";
    DirsInside(path, dirs);
  }

  /** A candidate is noise when it is no test and lies under docs_src or examples, or under docs/en/docs/js inside
      another directory, or inside a directory has a segment that starts with tutorial. */
  lemma NoiseExactly(c: Candidate)
    ensures var path := ToLower(c.path);
            WeakNoise(c)
            <==> !IsTest(c)
                 && (Under(path, "docs_src") || Under(path, "examples") || StartsSegment(path, "tutorial")
                     || exists i: nat :: 1 <= i && DirsAt(path, ["docs", "en", "docs", "js"], i))
  {
    Examples(ToLower(c.path));
    JavaScriptDocs(ToLower(c.path));
  }

  /** A path is weak when nothing is left of it, when it lies under docs_src or examples or inside a directory has a
      segment that starts with tutorial, and when it lies under fixtures, testdata, vendor, node_modules, generated
      or dist inside another directory: at the top of the repository these make no path weak. */
  lemma WeakExactly(raw: string)
    ensures var path := FoldKey(raw);
            WeakPath(raw)
            <==> || path == "" || Under(path, "docs_src") || Under(path, "examples") || StartsSegment(path, "tutorial")
                 || UnderInner(path, "fixtures") || UnderInner(path, "testdata") || UnderInner(path, "vendor")
                 || UnderInner(path, "node_modules") || UnderInner(path, "generated") || UnderInner(path, "dist")
  {
    Examples(FoldKey(raw));
    InnerDirectories(FoldKey(raw));
  }

  lemma InnerDirectories(path: string)
    ensures Contains(path, "/fixtures/") <==> UnderInner(path, "fixtures")
    ensures Contains(path, "/testdata/") <==> UnderInner(path, "testdata")
    ensures Contains(path, "/vendor/") <==> UnderInner(path, "vendor")
    ensures Contains(path, "/node_modules/") <==> UnderInner(path, "node_modules")
    ensures Contains(path, "/generated/") <==> UnderInner(path, "generated")
    ensures Contains(path, "/dist/") <==> UnderInner(path, "dist")
  {
    Inside(path, "fixtures", "/fixtures/");
    Inside(path, "testdata", "/testdata/");
    Inside(path, "vendor", "/vendor/");
    Inside(path, "node_modules", "/node_modules/");
    Inside(path, "generated", "/generated/");
    Inside(path, "dist", "/dist/");
  }
}
