/** The directory family of a source path, under which the selection of tests and of related files is
    budgeted (find_source_test_receipts.go). */
module PathFamilies {

  import opened Text
  import opened Paths

  // ---------------------------------------------------------------- the directory of a path

  /** filepath.Clean on the segments of a path that does not start with a slash: blank and "." segments go,
      ".." takes back a segment if there is one to take back. */
  function Cleaned(segs: seq<string>, out: seq<string>): seq<string> {
    if segs == [] then out
    else
      Cleaned(segs[1..],
              if segs[0] == "" || segs[0] == "." then out
              else if segs[0] == ".." && out != [] && out[|out| - 1] != ".." then out[..|out| - 1]
              else out + [segs[0]])
  }

  /** filepath.Dir of such a path. */
  function Dir(path: string): string {
    var segs := Split('/', path);
    var out := Cleaned(segs[..|segs| - 1], []);
    if out == [] then "." else Join('/', out)
  }

  lemma {:induction false} CleanedAppend(a: seq<string>, b: seq<string>, out: seq<string>)
    ensures Cleaned(a + b, out) == Cleaned(b, Cleaned(a, out))
    decreases |a|
  {
    if a == [] {
      assert a + b == b;
    } else {
      assert (a + b)[1..] == a[1..] + b;
      var next := if a[0] == "" || a[0] == "." then out
                  else if a[0] == ".." && out != [] && out[|out| - 1] != ".." then out[..|out| - 1]
                  else out + [a[0]];
      CleanedAppend(a[1..], b, next);
    }
  }

  /** Neither blank nor "." nor "..". */
  predicate Named(seg: string) {
    seg != "" && seg != "." && seg != ".."
  }

  /** A name and the ".." behind it cancel, wherever they stand. */
  lemma NameCancels(a: seq<string>, seg: string, b: seq<string>)
    requires Named(seg)
    ensures Cleaned(a + [seg, ".."] + b, []) == Cleaned(a + b, [])
  {
    var out := Cleaned(a, []);
    CleanedAppend(a, b, []);
    CleanedAppend(a + [seg, ".."], b, []);
    CleanedAppend(a, [seg, ".."], []);
    assert [seg, ".."][1..] == [".."] && [".."][1..] == [] && (out + [seg])[..|out|] == out;
    assert Cleaned([seg, ".."], out) == Cleaned([".."], out + [seg]) == Cleaned([], out) == out;
  }

  /** Blanks and "." count for nothing. */
  lemma BlankGoes(a: seq<string>, seg: string, b: seq<string>)
    requires seg == "" || seg == "."
    ensures Cleaned(a + [seg] + b, []) == Cleaned(a + b, [])
  {
    CleanedAppend(a, b, []);
    CleanedAppend(a + [seg], b, []);
    CleanedAppend(a, [seg], []);
    assert [seg][1..] == [];
  }

  /** Names are left as they are, behind any number of "..". */
  lemma {:induction false} NamesStay(a: seq<string>, n: nat, out: seq<string>)
    requires n <= |a| && (forall i :: 0 <= i < n ==> a[i] == "..") && forall i :: n <= i < |a| ==> Named(a[i])
    requires n > 0 ==> forall i :: 0 <= i < |out| ==> out[i] == ".."
    ensures Cleaned(a, out) == out + a
    decreases |a|
  {
    if a == [] {
      assert out + a == out;
    } else {
      NamesStay(a[1..], if n > 0 then n - 1 else 0, out + [a[0]]);
      assert out + [a[0]] + a[1..] == out + a;
    }
  }

  // ---------------------------------------------------------------- the family

  predicate IsComponents(segs: seq<string>, i: nat)
    requires i < |segs|
  {
    segs[i] == "components" && i + 1 < |segs|
  }

  /** The first segment "components" that has a segment behind it, or the length when there is none. */
  function FirstComponents(segs: seq<string>, from: nat): (i: nat)
    requires from <= |segs|
    ensures from <= i <= |segs|
    ensures i < |segs| ==> IsComponents(segs, i)
    ensures forall k :: from <= k < i ==> !IsComponents(segs, k)
    decreases |segs| - from
  {
    if from == |segs| || IsComponents(segs, from) then from else FirstComponents(segs, from + 1)
  }

  /** How many segments make up the family when no component directory decides. */
  function FamilyDepth(segs: seq<string>): (n: nat)
    requires segs != []
    ensures 0 < n <= |segs|
  {
    if |segs| >= 5 && segs[0] == "apps" then 5
    else if |segs| >= 4 && segs[0] in ["api", "server", "web", "web_src"] then 4
    else if |segs| >= 3 && segs[0] in ["models", "services", "routers", "modules", "packages", "store"] then 3
    else if |segs| > 3 then 3 else |segs|
  }

  function SegmentFamily(segs: seq<string>): string
    requires segs != []
  {
    var i := FirstComponents(segs, 0);
    if segs[0] == "." then "."
    else if i < |segs| then Join('/', segs[..i + 2])
    else Join('/', segs[..FamilyDepth(segs)])
  }

  function PathFamily(path: string): string {
    var bare := Trim(IsSlash, Normalize(path));
    if bare == "" then "" else SegmentFamily(Split('/', Dir(bare)))
  }

  lemma ComponentsFamily(segs: seq<string>, i: nat)
    requires i < |segs| && segs[0] != "." && IsComponents(segs, i)
    requires FirstComponents(segs, i) == FirstComponents(segs, 0)
    ensures SegmentFamily(segs) == Join('/', segs[..i + 2])
  {
  }

  lemma PlainFamily(segs: seq<string>)
    requires segs != [] && segs[0] != "." && FirstComponents(segs, |segs|) == FirstComponents(segs, 0)
    ensures SegmentFamily(segs) == Join('/', segs[..FamilyDepth(segs)])
  {
  }

  method SourceTestPathFamily(path: string) returns (family: string)
    ensures family == PathFamily(path)
  {
    var bare := Trim(IsSlash, Normalize(path));
    if bare == "" {
      return "";
    }
    var segs := Split('/', Dir(bare));
    if segs[0] == "." {
      return ".";
    }
    for i := 0 to |segs|
      invariant FirstComponents(segs, i) == FirstComponents(segs, 0)
    {
      if segs[i] == "components" && |segs| > i + 1 {
        ComponentsFamily(segs, i);
        return Join('/', segs[..i + 2]);
      }
    }
    PlainFamily(segs);
    family := Join('/', segs[..FamilyDepth(segs)]);
  }

  // ---------------------------------------------------------------- which paths share a family

  predicate HasComponents(segs: seq<string>) {
    exists i :: 0 <= i < |segs| - 1 && segs[i] == "components"
  }

  /** How many leading segments of a directory count: through the segment behind its first "components"; else five
      under apps, four under api, server, web and web_src, and three elsewhere, or all there are. */
  ghost predicate Counted(segs: seq<string>, n: nat) {
    && 0 < n <= |segs|
    && if HasComponents(segs) then
         n >= 2 && segs[n - 2] == "components" && forall k :: 0 <= k < n - 2 ==> segs[k] != "components"
       else if |segs| >= 5 && segs[0] == "apps" then n == 5
       else if |segs| >= 4 && segs[0] in {"api", "server", "web", "web_src"} then n == 4
       else if |segs| <= 3 then n == |segs| else n == 3
  }

  lemma CountedFamily(segs: seq<string>, n: nat)
    requires Counted(segs, n) && segs[0] != "."
    ensures SegmentFamily(segs) == Join('/', segs[..n])
  {
    var i := FirstComponents(segs, 0);
    if HasComponents(segs) {
      var k :| 0 <= k < |segs| - 1 && segs[k] == "components";
      assert IsComponents(segs, k) && IsComponents(segs, n - 2);
      assert i == n - 2;
    }
  }

  lemma FamilyTells(a: seq<string>, b: seq<string>)
    requires a != [] && b != [] && forall seg :: seg in a + b ==> '/' !in seg
    ensures Join('/', a) == Join('/', b) <==> a == b
  {
    assert forall seg :: seg in a || seg in b ==> seg in a + b;
    SplitJoin('/', a);
    SplitJoin('/', b);
  }

  /** The directory segments of a path that is not blank. */
  function DirectoryOf(path: string): (r: seq<string>)
    ensures r != []
  {
    Split('/', Dir(Trim(IsSlash, Normalize(path))))
  }

  /** Two paths are budgeted together if and only if the counted segments of their directories are the same; those
      in no directory are one family. */
  lemma FamilyExactly(p: string, q: string, m: nat, n: nat)
    requires Trim(IsSlash, Normalize(p)) != "" && Trim(IsSlash, Normalize(q)) != ""
    requires Counted(DirectoryOf(p), m) && Counted(DirectoryOf(q), n)
    ensures var a, b := DirectoryOf(p), DirectoryOf(q);
            PathFamily(p) == PathFamily(q)
            <==> if a[0] == "." || b[0] == "." then a[0] == b[0] else a[..m] == b[..n]
  {
    var a, b := DirectoryOf(p), DirectoryOf(q);
    SplitParts('/', Dir(Trim(IsSlash, Normalize(p))));
    SplitParts('/', Dir(Trim(IsSlash, Normalize(q))));
    if a[0] != "." {
      CountedFamily(a, m);
      NotTheDot(a[..m]);
    }
    if b[0] != "." {
      CountedFamily(b, n);
      NotTheDot(b[..n]);
    }
    FamilyTells(a[..m], b[..n]);
  }

  lemma NotTheDot(segs: seq<string>)
    requires segs != [] && segs[0] != "." && forall seg :: seg in segs ==> '/' !in seg
    ensures Join('/', segs) != "."
  {
    SplitJoin('/', segs);
    SplitFree('/', ".");
  }

  // ---------------------------------------------------------------- families under repeated normalisation

  /** A path that normalising leaves alone and that may be put behind slashes and blanks. */
  predicate Plain(t: string) {
    t != "" && Trimmed(IsSpace, t) && Trimmed(IsSlash, t) && Unanchored(t) && t != "." && !("./" <= t)
  }

  lemma NormalizePlain(t: string)
    requires Plain(t)
    ensures Normalize(t) == t
  {
    TrimReaches(IsSpace, t);
    TrimReaches(IsSlash, t);
    UnanchoredCut(t);
  }

  lemma UnanchoredBehind(lead: string, t: string)
    requires Unanchored(t) && '#' !in lead
    ensures Unanchored(lead + t)
  {
    var s := lead + t;
    assert forall k :: 0 <= k < |lead| ==> s[k] == lead[k] && lead[k] in lead;
    forall i | 0 <= i < |s| - 1 && s[i] == '#' ensures s[i + 1] != 'L' {
      assert s[i] == t[i - |lead|] && s[i + 1] == t[i + 1 - |lead|];
    }
  }

  function Spaced(t: string): string { " " + t }

  function Slashed(t: string): string { "/" + t }

  /** Normalising peels a slash off the front, and then the blank and the slash behind it. */
  lemma NormalizePeels(t: string)
    requires Plain(t)
    ensures Normalize(Spaced(t)) == t
    ensures Normalize(Spaced(Slashed(Spaced(t)))) == Spaced(t)
    ensures Normalize(Slashed(Spaced(Slashed(Spaced(t))))) == Spaced(Slashed(Spaced(t)))
  {
    NormalizePlain(t);
    PeelSpace(t);
    UnanchoredBehind(" ", t);
    PeelSlash(Spaced(t));
    var slashed := Slashed(Spaced(t));
    PeelSpace(slashed);
    UnanchoredBehind("/", Spaced(t));
    UnanchoredBehind(" ", slashed);
    PeelSlash(Spaced(slashed));
  }

  lemma PeelSpace(t: string)
    requires t != "" && Trimmed(IsSpace, t)
    ensures Normalize(Spaced(t)) == Normalize(t)
  {
    assert (" " + t)[1..] == t;
    assert TrimLeft(IsSpace, " " + t) == TrimLeft(IsSpace, t);
  }

  lemma PeelSlash(t: string)
    requires |t| > 1 && t[0] == ' ' && !IsSpace(t[|t| - 1]) && !IsSlash(t[|t| - 1]) && Unanchored(t)
    ensures Normalize(Slashed(t)) == t
  {
    var s := "/" + t;
    TrimReaches(IsSpace, s);
    UnanchoredBehind("/", t);
    UnanchoredCut(s);
    assert s[1..] == t;
    TrimReaches(IsSlash, t);
    assert TrimLeft(IsSlash, s) == TrimLeft(IsSlash, t);
  }

  lemma OneDirectory(a: string, b: string)
    requires '/' !in a && '/' !in b && a != "" && a != "." && a != ".."
    ensures Split('/', Dir(a + "/" + b)) == [a]
  {
    SplitAppend('/', a, b);
    SplitFree('/', a);
    SplitFree('/', b);
    assert [a] + [b] == [a, b] && [a, b][..1] == [a] && [a][1..] == [];
    assert Cleaned([a], []) == Cleaned([], [] + [a]);
    assert [] + [a] == [a] && Join('/', [a]) == a;
  }

  lemma OneSegmentFamily(a: string)
    requires a != "."
    ensures SegmentFamily([a]) == a
  {
    assert FirstComponents([a], 0) == FirstComponents([a], 1) == 1;
    assert [a][..1] == [a];
  }

  lemma FamilyInDirectory(a: string, b: string)
    requires '/' !in a && '/' !in b && a != "" && b != "" && a != "." && a != ".." && Plain(a + "/" + b)
    ensures PathFamily(Spaced(a + "/" + b)) == a && PathFamily(Spaced(Slashed(Spaced(a + "/" + b)))) == Spaced(a)
  {
    var t := a + "/" + b;
    NormalizePeels(t);
    FamilyOfNormal(Spaced(t), a, b);
    SpacedDirectory(a, b);
    FamilyOfNormal(Spaced(Slashed(Spaced(t))), Spaced(a), b);
  }

  lemma SpacedDirectory(a: string, b: string)
    ensures Spaced(a + "/" + b) == Spaced(a) + "/" + b
    ensures '/' !in a ==> '/' !in Spaced(a)
    ensures Spaced(a) != "" && Spaced(a) != "." && Spaced(a) != ".."
  {
    assert " " + (a + "/" + b) == (" " + a) + "/" + b;
    assert Spaced(a)[0] == ' ';
  }

  lemma FamilyOfNormal(path: string, a: string, b: string)
    requires Normalize(path) == a + "/" + b
    requires '/' !in a && '/' !in b && a != "" && b != "" && a != "." && a != ".."
    ensures PathFamily(path) == a
  {
    var t := a + "/" + b;
    assert t[0] == a[0] && t[|t| - 1] == b[|b| - 1];
    TrimReaches(IsSlash, t);
    OneDirectory(a, b);
    OneSegmentFamily(a);
  }
}
