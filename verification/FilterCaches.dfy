/** When the lookup caches may be trusted: exactly which rules they agree with, and that a
    list of such rules is judged by its last match alone. */
module FilterCaches {
  import opened Wrappers
  import opened Regex
  import opened Glob
  import opened GlobProof
  import opened FileFilter

  // ---------------------------------------------------------------- the flag

  lemma {:induction false} DefaultsAddNoUserRule(f: Filter, rules: seq<string>)
    ensures var g := ParseDefaults(f, rules);
      g.userRules == f.userRules && g.userFast == f.userFast && g.hasNegation == f.hasNegation
    decreases |rules|
  {
    if rules != [] { DefaultsAddNoUserRule(f, rules[..|rules| - 1]); }
  }

  /** Whatever is loaded, a missing negation flag means there is no negated rule. */
  lemma {:induction false} LoadedIsCoherent(lines: seq<Line>)
    ensures Coherent(Loaded(lines))
    decreases |lines|
  {
    DefaultsAddNoUserRule(EMPTY_FILTER, DEFAULT_IGNORE_PATTERNS);
    if lines != [] { LoadedIsCoherent(lines[..|lines| - 1]); }
  }

  // ---------------------------------------------------------------- literal patterns

  predicate NoBreaks(s: string) {
    forall k :: 0 <= k < |s| ==> !LineBreak(s[k])
  }

  function Norm(p: string): (n: string)
    ensures |n| == |p|
    ensures forall k :: 0 <= k < |p| ==> n[k] == if p[k] == '\\' then '/' else p[k]
  {
    seq(|p|, k requires 0 <= k < |p| => if p[k] == '\\' then '/' else p[k])
  }

  lemma {:induction false} LiteralReadable(p: string)
    requires LiteralFrom(p, 0)
    ensures ClassesReadable(p)
  {
    if p != "" {
      assert !Wildcard(p[0]) && PieceLength(p) == 1;
      assert forall k :: 0 <= k < |p[1..]| ==> p[1..][k] == p[k + 1];
      LiteralReadable(p[1..]);
    }
  }

  lemma {:induction false} LiteralMatches(p: string, t: string, isDir: bool)
    requires LiteralFrom(p, 0) && ClassesReadable(p)
    ensures GlobMatches(p, t, isDir) <==> |t| >= |p| && t[..|p|] == Norm(p) && Ends(t[|p|..], isDir)
    decreases |p|
  {
    if p == "" {
      assert t[..0] == Norm(p) && t[0..] == t;
    } else {
      assert !Wildcard(p[0]) && PieceLength(p) == 1;
      assert forall k :: 0 <= k < |p[1..]| ==> p[1..][k] == p[k + 1];
      if t != "" {
        LiteralMatches(p[1..], t[1..], isDir);
        if |t| >= |p| {
          assert t[|p|..] == t[1..][|p| - 1..];
          assert t[..|p|] == [t[0]] + t[1..][..|p| - 1];
          assert Norm(p) == [Norm(p)[0]] + Norm(p[1..]);
        }
      }
    }
  }

  lemma {:induction false} NoSlashNotBelow(p: string, t: string, isDir: bool)
    requires ClassesReadable(p) && '/' !in t
    ensures !BelowSomeDirectory(p, t, isDir)
    decreases |t|
  {
    if t != "" {
      assert forall k :: 0 <= k < |t[1..]| ==> t[1..][k] == t[k + 1];
      NoSlashNotBelow(p, t[1..], isDir);
    }
  }

  lemma NormDiffers(p: string, k: nat)
    requires k < |p| && p[k] == '\\'
    ensures Norm(p) != p
  {
    assert Norm(p)[k] == '/';
  }

  // ---------------------------------------------------------------- one cached rule

  function CacheOf(rule: string): Fast {
    Cached(NO_FAST, rule)
  }

  /** The suffix of a rule cached by suffix, without star and dot. */
  function Suffix(rule: string): string
    requires CachesExt(rule)
  {
    DropSlash(rule)[2..]
  }

  /** The cache never claims a path that the rule's own regular expression does not match. */
  ghost predicate Redundant(rule: string)
    requires Readable(rule)
  {
    forall path :: path != "" && NoBreaks(path) && FastHit(CacheOf(rule), path) ==> Means(rule, path)
  }

  predicate Rooted(rule: string) {
    rule != "" && rule[0] == '/'
  }

  /** A suffix rule that can never hit, or is neither rooted nor holds a backslash; a path
      rule that ends in a slash and holds no backslash. */
  predicate CacheAgrees(rule: string) {
    && (CachesExt(rule) ==> '.' in Suffix(rule) || ('\\' !in Suffix(rule) && !Rooted(rule)))
    && (CachesDir(rule) ==> '\\' !in rule && rule[|rule| - 1] == '/')
  }

  lemma StarDotReadable(e: string)
    requires LiteralFrom("*." + e, 2)
    ensures ClassesReadable("." + e) && LiteralFrom("." + e, 0)
    ensures ClassesReadable("*." + e) && PieceLength("*." + e) == 1 && ("*." + e)[1..] == "." + e
  {
    var p := "*." + e;
    assert p[1..] == "." + e;
    forall k | 0 <= k < |"." + e| ensures !Wildcard(("." + e)[k]) {
      assert ("." + e)[k] == p[k + 1];
    }
    LiteralReadable("." + e);
    assert PieceLength(p) == 1;
  }

  /** How a suffix rule and a path rule come apart. */
  lemma SplitExt(rule: string)
    requires CachesExt(rule)
    ensures var p := DropSlash(rule);
      && p == "*." + Suffix(rule) && LiteralFrom(p, 2) && Split(rule) == Parts(p, Rooted(rule), false)
      && Readable(rule) && !CachesDir(rule)
  {
    var p := DropSlash(rule);
    assert p == "*." + Suffix(rule);
    assert p[|p| - 1] != '/' && Wildcard(p[0]);
    assert rule[|rule| - 1] == p[|p| - 1];
    StarDotReadable(Suffix(rule));
  }

  lemma SplitDir(rule: string)
    requires CachesDir(rule)
    ensures var s, p := Split(rule), DropSlash(rule);
      && LiteralFrom(s.pattern, 0) && Readable(rule) && !CachesExt(rule)
      && s.isDir == (rule[|rule| - 1] == '/')
      && s.pattern == DropTrailingSlash(p)
      && (!s.rooted ==> '/' !in s.pattern)
  {
    var s, p := Split(rule), DropSlash(rule);
    assert p[|p| - 1] == rule[|rule| - 1];
    assert s.pattern == DropTrailingSlash(p);
    assert forall k :: 0 <= k < |s.pattern| ==> s.pattern[k] == p[k];
    LiteralReadable(s.pattern);
    assert !Wildcard(p[0]);
  }

  // ---------------------------------------------------------------- suffix rules

  lemma {:induction false} ExtensionOf(u: string, e: string)
    requires '.' !in e
    ensures Extension(u + "." + e) == Some("." + e)
    decreases |u|
  {
    var path := u + "." + e;
    if u == "" {
      assert path == "." + e && path[1..] == e;
      NoExtension(e);
    } else {
      assert path[1..] == u[1..] + "." + e;
      ExtensionOf(u[1..], e);
    }
  }

  lemma {:induction false} NoExtension(e: string)
    requires '.' !in e
    ensures Extension(e) == None
  {
    if e != "" {
      assert forall k :: 0 <= k < |e[1..]| ==> e[1..][k] == e[k + 1];
      NoExtension(e[1..]);
    }
  }

  lemma {:induction false} ExtensionParts(path: string) returns (u: string, e: string)
    requires Extension(path).Some?
    ensures path == u + "." + e && '.' !in e && Extension(path) == Some("." + e)
    decreases |path|
  {
    if Extension(path[1..]).Some? {
      u, e := ExtensionParts(path[1..]);
      u := [path[0]] + u;
    } else {
      u, e := "", path[1..];
      if '.' in e { ExtensionThere(e); }
      assert path == "." + e;
    }
  }

  lemma {:induction false} ExtensionThere(e: string)
    requires '.' in e
    ensures Extension(e).Some?
  {
    assert e == [e[0]] + e[1..];
    if '.' in e[1..] { ExtensionThere(e[1..]); }
  }

  /** *.e matches below any directories whatever ends in .e and has no line break. */
  lemma {:induction false} SuffixAnywhere(u: string, e: string)
    requires LiteralFrom("*." + e, 2) && '\\' !in e && NoBreaks(u) && ClassesReadable("*." + e)
    ensures GlobMatches("*." + e, u + ("." + e), false) || BelowSomeDirectory("*." + e, u + ("." + e), false)
    decreases |u|
  {
    var p, t := "*." + e, u + ("." + e);
    StarDotReadable(e);
    if u == "" {
      assert t == "." + e && t[..|t|] == t && t[|t|..] == "";
      LiteralMatches("." + e, t, false);
      assert GlobMatches(p[PieceLength(p)..], t, false);
    } else {
      assert t[1..] == u[1..] + ("." + e) && t[0] == u[0];
      SuffixAnywhere(u[1..], e);
    }
  }

  /** What *.e matches ends in .e. */
  lemma {:induction false} SuffixNeeded(e: string, t: string)
    requires LiteralFrom("*." + e, 2) && ClassesReadable("*." + e) && GlobMatches("*." + e, t, false)
    ensures |t| > |e| && t[|t| - |e| - 1..] == Norm("." + e)
    decreases |t|
  {
    var p := "*." + e;
    StarDotReadable(e);
    if GlobMatches("." + e, t, false) {
      LiteralMatches("." + e, t, false);
      assert t[..|e| + 1] == t;
    } else {
      SuffixNeeded(e, t[1..]);
      assert t[|t| - |e| - 1..] == t[1..][|t| - 1 - |e| - 1..];
    }
  }

  lemma ExtRedundant(rule: string)
    requires CachesExt(rule) && CacheAgrees(rule)
    ensures Readable(rule) && Redundant(rule)
  {
    SplitExt(rule);
    var e := Suffix(rule);
    StarDotReadable(e);
    forall path | path != "" && NoBreaks(path) && FastHit(CacheOf(rule), path) ensures Means(rule, path) {
      var u, e' := ExtensionParts(path);
      assert DropSlash(rule)[1..] == "." + e;
      assert ("." + e)[1..] == e && ("." + e')[1..] == e';
      assert path == u + ("." + e);
      assert forall k :: 0 <= k < |u| ==> u[k] == path[k];
      SuffixAnywhere(u, e);
    }
  }

  lemma ExtNotRedundant(rule: string) returns (path: string)
    requires CachesExt(rule) && !CacheAgrees(rule) && NoBreaks(rule)
    ensures Readable(rule)
    ensures path != "" && NoBreaks(path) && FastHit(CacheOf(rule), path) && !Means(rule, path)
  {
    SplitExt(rule);
    var e := Suffix(rule);
    StarDotReadable(e);
    path := (if Rooted(rule) then "d/" else "") + "." + e;
    SuffixHit(rule, if Rooted(rule) then "d/" else "");
    hide FastHit, CachesExt, Suffix, NoBreaks, Norm, Readable, ClassesReadable;
    if Rooted(rule) {
      RootedSuffixStops(e);
    } else {
      assert path == "." + e;
      BackslashSuffixMisses(e);
    }
  }

  lemma SuffixPlain(rule: string)
    requires CachesExt(rule) && NoBreaks(rule)
    ensures NoBreaks(Suffix(rule)) && CacheOf(rule).exts == {"." + Suffix(rule)}
  {
    var p, e := DropSlash(rule), Suffix(rule);
    assert forall k :: 0 <= k < |p| ==> p[k] in rule;
    assert forall k :: 0 <= k < |e| ==> e[k] == p[k + 2];
    assert p[1..] == "." + e;
  }

  /** The cache is hit by the suffix behind anything without a dot. */
  lemma SuffixHit(rule: string, before: string)
    requires CachesExt(rule) && NoBreaks(rule) && '.' !in Suffix(rule) && (before == "" || before == "d/")
    ensures var path := before + "." + Suffix(rule); path != "" && NoBreaks(path) && FastHit(CacheOf(rule), path)
  {
    SuffixPlain(rule);
    hide CacheOf, CachesExt, Suffix;
    ExtensionOf(before, Suffix(rule));
  }

  /** A backslash in a suffix asks for a slash that the path does not have. */
  lemma BackslashSuffixMisses(e: string)
    requires LiteralFrom("*." + e, 2) && ClassesReadable("*." + e) && '\\' in e && '/' !in e
    ensures !GlobMatches("*." + e, "." + e, false) && !BelowSomeDirectory("*." + e, "." + e, false)
  {
    var path := "." + e;
    if GlobMatches("*." + e, path, false) {
      SuffixNeeded(e, path);
      var k :| 0 <= k < |e| && e[k] == '\\';
      NormDiffers(path, k + 1);
    }
    NoSlashNotBelow("*." + e, path, false);
  }

  /** A rooted *.e does not reach into a directory. */
  lemma RootedSuffixStops(e: string)
    requires LiteralFrom("*." + e, 2) && ClassesReadable("*." + e)
    ensures !GlobMatches("*." + e, "d/" + "." + e, false)
  {
    var p, t := "*." + e, "d/" + "." + e;
    StarDotReadable(e);
    LiteralMatches("." + e, t, false);
    LiteralMatches("." + e, t[1..], false);
    assert Norm("." + e)[0] == '.' && t[..|e| + 1][0] == 'd' && t[1..][..|e| + 1][0] == '/';
    assert t[1] == '/' && t[1..][0] == '/';
    assert !GlobMatches(p, t[1..], false);
  }

  // ---------------------------------------------------------------- path rules

  lemma DirRedundant(rule: string)
    requires CachesDir(rule) && CacheAgrees(rule)
    ensures Readable(rule) && Redundant(rule)
  {
    SplitDir(rule);
    var d := Split(rule).pattern;
    assert forall k :: 0 <= k < |d| ==> d[k] == DropSlash(rule)[k] && DropSlash(rule)[k] in rule;
    forall path | path != "" && NoBreaks(path) && FastHit(CacheOf(rule), path) ensures Means(rule, path) {
      assert Under(path, d);
      assert path[..|d|] == d;
      LiteralMatches(d, path, true);
      assert forall k :: 0 <= k < |path[|d|..]| ==> path[|d|..][k] == path[k + |d|];
    }
  }

  lemma DirNotRedundant(rule: string) returns (path: string)
    requires CachesDir(rule) && !CacheAgrees(rule) && NoBreaks(rule)
    ensures Readable(rule)
    ensures path != "" && NoBreaks(path) && FastHit(CacheOf(rule), path) && !Means(rule, path)
  {
    SplitDir(rule);
    var s := Split(rule);
    if !s.isDir {
      path := s.pattern + "/x";
      DescendantMissed(s.pattern);
    } else {
      path := s.pattern;
      var k :| 0 <= k < |rule| && rule[k] == '\\';
      BackslashKept(rule, k);
      BackslashMissed(path);
      if !s.rooted { NoSlashNotBelow(path, path, true); }
    }
  }

  lemma DescendantMissed(d: string)
    requires LiteralFrom(d, 0) && ClassesReadable(d)
    ensures Under(d + "/x", d) && !GlobMatches(d, d + "/x", false)
  {
    var path := d + "/x";
    assert path[..|d|] == d && path[|d|..] == "/x";
    LiteralMatches(d, path, false);
  }

  lemma BackslashMissed(d: string)
    requires LiteralFrom(d, 0) && ClassesReadable(d) && '\\' in d
    ensures !GlobMatches(d, d, true)
  {
    assert d[..|d|] == d;
    LiteralMatches(d, d, true);
    var j :| 0 <= j < |d| && d[j] == '\\';
    NormDiffers(d, j);
  }

  lemma BackslashKept(rule: string, k: nat)
    requires CachesDir(rule) && Split(rule).isDir && k < |rule| && rule[k] == '\\'
    ensures exists j :: 0 <= j < |Split(rule).pattern| && Split(rule).pattern[j] == '\\'
  {
    var d := Split(rule).pattern;
    if rule[0] == '/' {
      assert d[k - 1] == '\\';
    } else {
      assert d[k] == '\\';
    }
  }

  /** The cached form of a rule agrees with its regular expression on every path exactly when
      it is one of the forms above. */
  lemma CacheRedundantExactly(rule: string)
    requires NoBreaks(rule) && (CachesExt(rule) || CachesDir(rule))
    ensures Readable(rule) && (Redundant(rule) <==> CacheAgrees(rule))
  {
    if CachesExt(rule) { SplitExt(rule); } else { SplitDir(rule); }
    if CacheAgrees(rule) {
      if CachesExt(rule) { ExtRedundant(rule); } else { DirRedundant(rule); }
    } else if CachesExt(rule) {
      var path := ExtNotRedundant(rule);
    } else {
      var path := DirNotRedundant(rule);
    }
  }

  // ---------------------------------------------------------------- rule lists

  /** A rule as it is compiled: without its negating mark. */
  function Text(line: Line): string {
    if Negates(line.text, line.bangEscaped) then line.text[1..] else line.text
  }

  /** Every rule that can reach the caches agrees with them. */
  predicate WellFormed(lines: seq<Line>) {
    forall k :: 0 <= k < |lines| && !Negates(lines[k].text, lines[k].bangEscaped) ==>
      NoBreaks(lines[k].text) && CacheAgrees(lines[k].text)
  }

  predicate SomeRuleMatches(rules: seq<Rule>, path: string) {
    exists k :: 0 <= k < |rules| && Matches(rules[k].regex, path)
  }

  lemma CachedHit(fast: Fast, rule: string, path: string)
    requires FastHit(Cached(fast, rule), path)
    ensures FastHit(fast, path) || FastHit(CacheOf(rule), path)
  {
  }

  lemma ListedMatches(f: Filter, rule: string, negated: bool, original: string, path: string)
    requires SomeRuleMatches(f.userRules, path) || (Readable(rule) && Means(rule, path))
    ensures SomeRuleMatches(Listed(f, rule, negated, original).userRules, path)
  {
    var g := Listed(f, rule, negated, original);
    if SomeRuleMatches(f.userRules, path) {
      var k :| 0 <= k < |f.userRules| && Matches(f.userRules[k].regex, path);
      assert g.userRules[k] == f.userRules[k];
    } else {
      GlobToRegexPreservesMeaning(rule, path);
      assert Matches(g.userRules[|f.userRules|].regex, path);
    }
  }

  /** With well-formed rules a cache hit means some rule's regular expression matches. */
  lemma {:induction false} HitMeansMatch(f: Filter, lines: seq<Line>, path: string)
    requires WellFormed(lines) && path != "" && NoBreaks(path)
    requires FastHit(f.userFast, path) ==> SomeRuleMatches(f.userRules, path)
    ensures var g := ParseUsers(f, lines); FastHit(g.userFast, path) ==> SomeRuleMatches(g.userRules, path)
    decreases |lines|
  {
    if lines != [] {
      var line := lines[|lines| - 1];
      var init := lines[..|lines| - 1];
      assert forall k :: 0 <= k < |init| ==> init[k] == lines[k];
      HitMeansMatch(f, init, path);
      ParsedHit(ParseUsers(f, init), line, path);
    }
  }

  lemma ParsedHit(f: Filter, line: Line, path: string)
    requires path != "" && NoBreaks(path)
    requires !Negates(line.text, line.bangEscaped) ==> NoBreaks(line.text) && CacheAgrees(line.text)
    requires FastHit(f.userFast, path) ==> SomeRuleMatches(f.userRules, path)
    ensures var g := ParseUser(f, line.text, line.bangEscaped);
      FastHit(g.userFast, path) ==> SomeRuleMatches(g.userRules, path)
  {
    var rule := Text(line);
    if Negates(line.text, line.bangEscaped) {
      if |line.text| > 1 && FastHit(f.userFast, path) {
        ListedMatches(f.(hasNegation := true), rule, true, line.text, path);
      }
    } else if line.text != "" {
      var g := if f.hasNegation then f else f.(userFast := Cached(f.userFast, rule));
      if FastHit(g.userFast, path) {
        if !FastHit(f.userFast, path) {
          CachedHit(f.userFast, rule, path);
          if CachesExt(rule) { ExtRedundant(rule); } else { DirRedundant(rule); }
        }
        ListedMatches(g, rule, false, line.text, path);
      }
    }
  }

  lemma {:induction false} MatchDecides(rules: seq<Rule>, path: string, a: bool, b: bool)
    requires SomeRuleMatches(rules, path)
    ensures LastMatch(rules, path, a) == LastMatch(rules, path, b)
  {
    if !Matches(rules[|rules| - 1].regex, path) {
      var init := rules[..|rules| - 1];
      var k :| 0 <= k < |rules| && Matches(rules[k].regex, path);
      assert init[k] == rules[k];
      MatchDecides(init, path, a, b);
    }
  }

  /** A well-formed list is judged by its last matching rule alone. */
  lemma LastMatchWins(lines: seq<Line>, path: string)
    requires WellFormed(lines) && path != "" && NoBreaks(path)
    ensures var f := Loaded(lines);
      Ignored(f, path) <==> DefaultIgnores(f, path) || LastMatch(f.userRules, path, false)
  {
    DefaultsAddNoUserRule(EMPTY_FILTER, DEFAULT_IGNORE_PATTERNS);
    var f := Loaded(lines);
    HitMeansMatch(ParseDefaults(EMPTY_FILTER, DEFAULT_IGNORE_PATTERNS), lines, path);
    if FastHit(f.userFast, path) { MatchDecides(f.userRules, path, true, false); }
  }

  lemma {:induction false} UsersKeepDefaults(f: Filter, lines: seq<Line>)
    ensures var g := ParseUsers(f, lines);
      g.defaultFast == f.defaultFast && g.defaultComplex == f.defaultComplex
    decreases |lines|
  {
    if lines != [] { UsersKeepDefaults(f, lines[..|lines| - 1]); }
  }

  /** Appending a rule that does not match a path leaves the path's verdict as it was; one
      that matches decides it. */
  lemma AppendedRule(lines: seq<Line>, line: Line, path: string)
    requires WellFormed(lines + [line]) && path != "" && NoBreaks(path)
    requires line.text != "" && Text(line) != "" && Readable(Text(line))
    ensures var f, g := Loaded(lines), Loaded(lines + [line]);
      if Means(Text(line), path) && !DefaultIgnores(f, path)
      then Ignored(g, path) <==> !Negates(line.text, line.bangEscaped)
      else Ignored(g, path) <==> Ignored(f, path)
  {
    var all := lines + [line];
    assert all[..|lines|] == lines && all[|lines|] == line;
    assert WellFormed(lines) by { assert forall k :: 0 <= k < |lines| ==> lines[k] == all[k]; }
    LastMatchWins(lines, path);
    LastMatchWins(all, path);
    var start := ParseDefaults(EMPTY_FILTER, DEFAULT_IGNORE_PATTERNS);
    UsersKeepDefaults(start, lines);
    UsersKeepDefaults(start, all);
    GlobToRegexPreservesMeaning(Text(line), path);
    var f, g := Loaded(lines), Loaded(all);
    assert g == ParseUser(f, line.text, line.bangEscaped);
    assert g.userRules[..|f.userRules|] == f.userRules;
  }
}
