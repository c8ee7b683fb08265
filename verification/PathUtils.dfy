/** Path normalisation and the case-insensitive keys of the comparison tables. */
module PathUtils {
  function Slash(c: char): char {
    if c == '\\' then '/' else c
  }

  function LowerChar(c: char): char {
    if 'A' <= c <= 'Z' then ((c as int) + 32) as char else c
  }

  function Slashes(s: string): (t: string)
    ensures |t| == |s|
  {
    seq(|s|, i requires 0 <= i < |s| => Slash(s[i]))
  }

  function Lower(s: string): (t: string)
    ensures |t| == |s|
  {
    seq(|s|, i requires 0 <= i < |s| => LowerChar(s[i]))
  }

  /** Without the trailing slashes, but never without its first character. */
  function Trim(s: string): string {
    if |s| > 1 && s[|s| - 1] == '/' then Trim(s[..|s| - 1]) else s
  }

  function Normal(s: string): string {
    Trim(Slashes(s))
  }

  /** What the comparison tables hash and compare by. */
  function Key(path: string): string {
    Lower(Normal(path))
  }

  method Normalize(path: string) returns (r: string)
    ensures r == Normal(path)
  {
    if path == "" { return path; }
    r := path;
    for i := 0 to |path|
      invariant |r| == |path|
      invariant forall k :: 0 <= k < |path| ==> r[k] == if k < i then Slash(path[k]) else path[k]
    {
      if r[i] == '\\' { r := r[i := '/']; }
    }
    assert r == Slashes(path);
    while |r| > 1 && r[|r| - 1] == '/'
      invariant Trim(r) == Normal(path)
    {
      r := r[..|r| - 1];
    }
  }

  /** Two strings are equal keys exactly when their lower-case forms are the same string, so
      equal keys have equal hashes. */
  method CaseInsensitiveEqual(a: string, b: string) returns (equal: bool)
    ensures equal <==> Lower(a) == Lower(b)
  {
    if |a| != |b| { return false; }
    for i := 0 to |a|
      invariant forall k :: 0 <= k < i ==> Lower(a)[k] == Lower(b)[k]
    {
      if LowerChar(a[i]) != LowerChar(b[i]) {
        assert Lower(a)[i] != Lower(b)[i];
        return false;
      }
    }
    return true;
  }

  lemma {:induction false} TrimShape(s: string)
    ensures Trim(s) <= s
    ensures |Trim(s)| <= 1 || Trim(s)[|Trim(s)| - 1] != '/'
    ensures forall k :: |Trim(s)| <= k < |s| ==> s[k] == '/'
  {
    if |s| > 1 && s[|s| - 1] == '/' { TrimShape(s[..|s| - 1]); }
  }

  /** A normal path has no backslash and no trailing slash, and is its own normal form. */
  lemma NormalIsFinal(path: string)
    ensures '\\' !in Normal(path)
    ensures |Normal(path)| <= 1 || Normal(path)[|Normal(path)| - 1] != '/'
    ensures Normal(Normal(path)) == Normal(path)
  {
    TrimShape(Slashes(path));
    assert Slashes(Normal(path)) == Normal(path);
  }

  /** A separator of either kind at the end makes no difference. */
  lemma TrailingSeparator(path: string, c: char)
    requires path != "" && (c == '/' || c == '\\')
    ensures Normal(path + [c]) == Normal(path)
  {
    assert Slashes(path + [c]) == Slashes(path) + ['/'];
    assert (Slashes(path) + ['/'])[..|path|] == Slashes(path);
  }

  lemma {:induction false} TrimLower(s: string)
    ensures Trim(Lower(s)) == Lower(Trim(s))
  {
    if |s| > 1 && s[|s| - 1] == '/' {
      TrimLower(s[..|s| - 1]);
      assert Lower(s)[..|s| - 1] == Lower(s[..|s| - 1]);
    }
  }

  /** Lowering before the trimming, as on one platform, or only in the key, as on the others,
      gives the same key. */
  lemma KeyIsPlatformIndependent(path: string)
    ensures Lower(Trim(Lower(Slashes(path)))) == Key(path)
  {
    TrimLower(Slashes(path));
    assert Lower(Lower(Normal(path))) == Lower(Normal(path));
  }

  /** The same letter, in either case; only the letters of ASCII have cases. */
  predicate SameLetter(c: char, d: char) {
    || c == d
    || ('A' <= c <= 'Z' && d as int == c as int + 32)
    || ('A' <= d <= 'Z' && c as int == d as int + 32)
  }

  /** Two paths have one key exactly when their normal forms are the same but for the case of
      letters. */
  lemma SameKeyExactly(a: string, b: string)
    ensures var m, n := Normal(a), Normal(b);
      Key(a) == Key(b) <==> |m| == |n| && forall i :: 0 <= i < |m| ==> SameLetter(m[i], n[i])
  {
    var m, n := Normal(a), Normal(b);
    assert forall i :: 0 <= i < |m| && i < |n| ==> (Lower(m)[i] == Lower(n)[i] <==> SameLetter(m[i], n[i]));
    if Key(a) == Key(b) {
      assert |Lower(m)| == |Lower(n)|;
      assert forall i :: 0 <= i < |m| ==> Lower(m)[i] == Lower(n)[i];
    }
  }
}
