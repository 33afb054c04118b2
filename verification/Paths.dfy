/** Path normalisation as the find commands apply it to every path they compare. */
module Paths {
  import opened Text

  /** Cuts a line anchor such as "#L12" and everything after it. */
  function CutLineAnchor(path: string): string {
    var i := Index(path, "#L");
    if i >= 0 && i <= |path| then path[..i] else path
  }

  /** find_git_receipts.go's normalisation on a system whose separator is already '/'. */
  function Normalize(path: string): string {
    var trimmed := TrimSpace(path);
    var relative := TrimPrefix("./", CutLineAnchor(trimmed));
    var bare := Trim(IsSlash, relative);
    if bare == "." then "" else bare
  }

  /** The form under which two path spellings count as one file. */
  function FoldKey(path: string): string {
    ToLower(Normalize(path))
  }

  /** What a normalised path still has to satisfy for a second normalisation to leave it alone. */
  predicate Settled(path: string) {
    Trimmed(IsSpace, path) && !("./" <= path)
  }

  predicate Unanchored(s: string) {
    forall i :: 0 <= i < |s| - 1 && s[i] == '#' ==> s[i + 1] != 'L'
  }

  lemma UnanchoredCut(s: string)
    ensures Unanchored(CutLineAnchor(s)) && CutLineAnchor(s) <= s
    ensures Unanchored(s) ==> CutLineAnchor(s) == s
  {
    IndexIsFirst(s, "#L");
    var cut := CutLineAnchor(s);
    forall i | 0 <= i < |cut| - 1 && cut[i] == '#' ensures cut[i + 1] != 'L' {
      assert !At(s, i, "#L");
      assert s[i..i + 2] == [s[i], s[i + 1]];
    }
    var i := Index(s, "#L");
    if i >= 0 {
      assert s[i..i + 2] == "#L";
      assert s[i] == s[i..i + 2][0] && s[i + 1] == s[i..i + 2][1];
    }
  }

  lemma TrimSlice(p: char -> bool, s: string) returns (from: nat, to: nat)
    ensures from <= to <= |s| && Trim(p, s) == s[from..to]
  {
    var left := TrimLeft(p, s);
    TrimLeftEnds(p, s);
    TrimRightEnds(p, left);
    from := |s| - |left|;
    to := from + |TrimRight(p, left)|;
    assert s[from..to] == left[..|TrimRight(p, left)|];
  }

  /** A normalised path carries no line anchor and no slash at either end. */
  lemma NormalizeClean(path: string)
    ensures Unanchored(Normalize(path))
    ensures Trimmed(IsSlash, Normalize(path)) && Normalize(path) != "."
  {
    var cut := CutLineAnchor(TrimSpace(path));
    UnanchoredCut(TrimSpace(path));
    var relative := TrimPrefix("./", cut);
    assert Unanchored(relative);
    var from, to := TrimSlice(IsSlash, relative);
    assert Unanchored(relative[from..to]);
    TrimReaches(IsSlash, relative);
  }

  /** Normalising twice is normalising once exactly for the paths whose normal form is settled.
      For example "././a" becomes "./a", which a second pass turns into "a". */
  lemma NormalizeTwice(path: string)
    ensures Normalize(Normalize(path)) == Normalize(path) <==> Settled(Normalize(path))
  {
    var n := Normalize(path);
    NormalizeClean(path);
    TrimReaches(IsSpace, n);
    TrimReaches(IsSlash, n);
    UnanchoredCut(n);
    if Trimmed(IsSpace, n) {
      assert CutLineAnchor(TrimSpace(n)) == n;
      if "./" <= n {
        var from, to := TrimSlice(IsSlash, n[2..]);
      }
    } else {
      NormalizeShrinks(n);
      var from, to := TrimSlice(IsSpace, n);
    }
  }

  lemma NormalizeShrinks(path: string)
    ensures |Normalize(path)| <= |TrimSpace(path)|
  {
    UnanchoredCut(TrimSpace(path));
    var from, to := TrimSlice(IsSlash, TrimPrefix("./", CutLineAnchor(TrimSpace(path))));
  }
}
