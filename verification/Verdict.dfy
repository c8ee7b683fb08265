/** What is ignored, told from the rules alone: what the built-in patterns take, whatever is loaded
    after them, and what the loaded rules make of the rest. */
module Verdict {
  import opened Wrappers
  import opened Regex
  import opened Glob
  import opened GlobProof
  import opened FileFilter
  import opened FilterCaches
  import opened KcpProto
  import opened Receiving

  // ---------------------------------------------------------------- any built-in list

  /** What one built-in rule ignores: by suffix, at and below a path from the root, or by its
      meaning as a glob. */
  predicate Covers(rule: string, path: string) {
    var p := DropSlash(rule);
    if p == "" then false
    else if CachesExt(rule) then Extension(path) == Some(p[1..])
    else if CachesDir(rule) then Under(path, DropTrailingSlash(p))
    else Readable(rule) && Means(rule, path)
  }

  lemma OneMoreDefault(f: Filter, rule: string, path: string)
    ensures DefaultIgnores(ParseDefault(f, rule), path) <==> DefaultIgnores(f, path) || Covers(rule, path)
  {
    hide Means, Matches, Extension, Under, CachesExt, CachesDir;
    var g := ParseDefault(f, rule);
    if DropSlash(rule) != "" && !CachesExt(rule) && !CachesDir(rule) {
      CompilesExactly(rule);
      if Readable(rule) {
        GlobToRegexPreservesMeaning(rule, path);
        var r := Compile(RegexText(rule)).value;
        assert g.defaultComplex[|f.defaultComplex|] == r;
        assert forall k :: 0 <= k < |f.defaultComplex| ==> g.defaultComplex[k] == f.defaultComplex[k];
      }
    }
  }

  /** A list of built-in rules ignores what one of them covers, in whatever order. */
  lemma {:induction false} DefaultsCover(f: Filter, rules: seq<string>, path: string)
    ensures DefaultIgnores(ParseDefaults(f, rules), path)
        <==> DefaultIgnores(f, path) || exists rule :: rule in rules && Covers(rule, path)
    decreases |rules|
  {
    hide DefaultIgnores, Covers;
    if rules != [] {
      var init, last := rules[..|rules| - 1], rules[|rules| - 1];
      assert rules == init + [last];
      DefaultsCover(f, init, path);
      OneMoreDefault(ParseDefaults(f, init), last, path);
    }
  }

  // ---------------------------------------------------------------- the rules there are

  /** The path's last component is the name. */
  predicate Named(path: string, name: string) {
    path == name || (|path| > |name| && path[|path| - |name| - 1..] == "/" + name)
  }

  predicate Plain(name: string) {
    name != "" && LiteralFrom(name, 0) && '/' !in name && '\\' !in name
  }

  /** A plain name is neither cached by suffix nor as a directory. */
  lemma PlainIsComplex(name: string)
    requires Plain(name)
    ensures DropSlash(name) == name && !CachesExt(name) && !CachesDir(name)
    ensures Split(name) == Parts(name, false, false) && Readable(name)
  {
    assert name[0] in name && name[|name| - 1] in name && !Wildcard(name[0]);
    LiteralReadable(name);
  }

  lemma {:induction false} NameBelow(name: string, t: string)
    requires Plain(name) && ClassesReadable(name) && NoBreaks(t)
    ensures BelowSomeDirectory(name, t, false)
        <==> |t| > |name| && t[|t| - |name| - 1..] == "/" + name
    decreases |t|
  {
    if t != "" {
      var u := t[1..];
      assert forall k :: 0 <= k < |u| ==> u[k] == t[k + 1];
      NameBelow(name, u);
      NameHere(name, u);
      if |t| > |name| + 1 {
        assert t[|t| - |name| - 1..] == u[|u| - |name| - 1..];
      } else if |t| == |name| + 1 {
        assert t[0..] == t && t == [t[0]] + u;
      }
    }
  }

  lemma NameHere(name: string, t: string)
    requires Plain(name) && ClassesReadable(name)
    ensures GlobMatches(name, t, false) <==> t == name
  {
    LiteralMatches(name, t, false);
    assert Norm(name) == name by { assert forall k :: 0 <= k < |name| ==> name[k] in name; }
    if |t| >= |name| { assert t == t[..|name|] + t[|name|..]; }
  }

  lemma PlainCovers(name: string, path: string)
    requires Plain(name) && NoBreaks(path)
    ensures Covers(name, path) <==> Named(path, name)
  {
    PlainIsComplex(name);
    NameHere(name, path);
    NameBelow(name, path);
  }

  lemma SuffixCovers(e: string, path: string)
    requires e != "" && LiteralFrom("*." + e, 2) && '/' !in e
    ensures Covers("*." + e, path) <==> Extension(path) == Some("." + e)
  {
    var rule := "*." + e;
    assert DropSlash(rule) == rule && rule[1..] == "." + e;
    assert '/' !in rule;
  }

  lemma DirCovers(dir: string, path: string)
    requires Plain(dir)
    ensures Covers(dir + "/", path) <==> Under(path, dir)
  {
    var rule := dir + "/";
    assert dir[0] in dir && rule[0] == dir[0] && DropSlash(rule) == rule;
    assert rule[|rule| - 1] == '/' && '/' in rule && rule[..|rule| - 1] == dir;
    assert forall k :: 0 <= k < |dir| ==> rule[k] == dir[k];
    assert LiteralFrom(rule, 0);
    assert !Wildcard(rule[0]);
  }

  // ---------------------------------------------------------------- what is built in

  predicate BuiltIn(path: string) {
    || Extension(path) == Some(".veritas_tmp") || Extension(path) == Some(".part")
    || Under(path, ".git") || Under(path, "build") || Under(path, "bin") || Under(path, "out")
    || Named(path, ".git") || Named(path, ".veritasignore") || Named(path, ".DS_Store") || Named(path, "Thumbs.db")
    || Named(path, ".veritas.db") || Named(path, ".veritas.db-journal")
    || Named(path, ".veritas.db-wal") || Named(path, ".veritas.db-shm")
  }

  lemma NamesCover(path: string)
    requires NoBreaks(path)
    ensures Covers(".git", path) <==> Named(path, ".git")
    ensures Covers(".veritasignore", path) <==> Named(path, ".veritasignore")
    ensures Covers(".DS_Store", path) <==> Named(path, ".DS_Store")
    ensures Covers("Thumbs.db", path) <==> Named(path, "Thumbs.db")
  {
    hide Covers, Named;
    PlainCovers(".git", path);
    PlainCovers(".veritasignore", path);
    PlainCovers(".DS_Store", path);
    PlainCovers("Thumbs.db", path);
  }

  lemma DatabaseCovers(path: string)
    requires NoBreaks(path)
    ensures Covers(".veritas.db", path) <==> Named(path, ".veritas.db")
    ensures Covers(".veritas.db-journal", path) <==> Named(path, ".veritas.db-journal")
    ensures Covers(".veritas.db-wal", path) <==> Named(path, ".veritas.db-wal")
    ensures Covers(".veritas.db-shm", path) <==> Named(path, ".veritas.db-shm")
  {
    hide Covers, Named;
    PlainCovers(".veritas.db", path);
    PlainCovers(".veritas.db-journal", path);
    PlainCovers(".veritas.db-wal", path);
    PlainCovers(".veritas.db-shm", path);
  }

  lemma SuffixesAndDirsCover(path: string)
    ensures Covers("*.veritas_tmp", path) <==> Extension(path) == Some(".veritas_tmp")
    ensures Covers("*.part", path) <==> Extension(path) == Some(".part")
    ensures Covers(".git/", path) <==> Under(path, ".git")
    ensures Covers("build/", path) <==> Under(path, "build")
    ensures Covers("bin/", path) <==> Under(path, "bin")
    ensures Covers("out/", path) <==> Under(path, "out")
  {
    hide Covers, Extension, Under;
    SuffixCovers("veritas_tmp", path);
    SuffixCovers("part", path);
    assert "*." + "veritas_tmp" == "*.veritas_tmp" && "*." + "part" == "*.part";
    assert "." + "veritas_tmp" == ".veritas_tmp" && "." + "part" == ".part";
    DirCovers(".git", path);
    DirCovers("build", path);
    DirCovers("bin", path);
    DirCovers("out", path);
    assert ".git" + "/" == ".git/" && "build" + "/" == "build/" && "bin" + "/" == "bin/" && "out" + "/" == "out/";
  }

  /** The built-in patterns ignore two suffixes everywhere, four directories at the root only,
      and eight names everywhere; no loaded rule takes from that or adds to it. */
  lemma DefaultsExactly(lines: seq<Line>, path: string)
    requires NoBreaks(path)
    ensures DefaultIgnores(Loaded(lines), path) <==> BuiltIn(path)
  {
    var start := ParseDefaults(EMPTY_FILTER, DEFAULT_IGNORE_PATTERNS);
    UsersKeepDefaults(start, lines);
    hide Covers, Named, Under, Extension;
    assert DefaultIgnores(Loaded(lines), path) <==> DefaultIgnores(start, path);
    DefaultsCover(EMPTY_FILTER, DEFAULT_IGNORE_PATTERNS, path);
    NamesCover(path);
    DatabaseCovers(path);
    SuffixesAndDirsCover(path);
    Patterns(path);
  }

  lemma Patterns(path: string)
    ensures (exists rule :: rule in DEFAULT_IGNORE_PATTERNS && Covers(rule, path)) <==>
      || Covers(".git", path) || Covers(".git/", path) || Covers("*.veritas_tmp", path)
      || Covers(".veritasignore", path) || Covers("*.part", path) || Covers(".DS_Store", path)
      || Covers("Thumbs.db", path) || Covers("build/", path) || Covers("bin/", path) || Covers("out/", path)
      || Covers(".veritas.db", path) || Covers(".veritas.db-journal", path)
      || Covers(".veritas.db-wal", path) || Covers(".veritas.db-shm", path)
  {
    hide Covers;
  }

  /** What is built in is ignored under every rule list, negated rules and all. */
  lemma BuiltInAlways(lines: seq<Line>, path: string)
    requires NoBreaks(path) && path != "" && BuiltIn(path)
    ensures Ignored(Loaded(lines), path)
  {
    hide BuiltIn, DefaultIgnores;
    DefaultsExactly(lines, path);
  }

  // ---------------------------------------------------------------- the engine's own files

  function Characters(bytes: seq<byte>): (s: string)
    ensures |s| == |bytes| && forall k :: 0 <= k < |s| ==> s[k] == bytes[k] as char
  {
    seq(|bytes|, k requires 0 <= k < |bytes| => bytes[k] as char)
  }

  lemma SuffixSpelled(p: seq<byte>)
    ensures Characters(TempOf(p)) == Characters(p) + "." + "veritas_tmp"
  {
    var suffix := "." + "veritas_tmp";
    assert Characters(TEMP_SUFFIX) == suffix;
  }

  /** No rule list makes the engine take one of its own partial downloads for a file. */
  lemma TempAlwaysIgnored(lines: seq<Line>, p: seq<byte>)
    ensures Ignored(Loaded(lines), Characters(TempOf(p)))
  {
    var path := Characters(TempOf(p));
    SuffixSpelled(p);
    ExtensionOf(Characters(p), "veritas_tmp");
    assert "." + "veritas_tmp" == ".veritas_tmp";
    var start := ParseDefaults(EMPTY_FILTER, DEFAULT_IGNORE_PATTERNS);
    UsersKeepDefaults(start, lines);
    hide Covers, Extension, Characters, TempOf;
    DefaultsCover(EMPTY_FILTER, DEFAULT_IGNORE_PATTERNS, path);
    SuffixesAndDirsCover(path);
    assert "*.veritas_tmp" in DEFAULT_IGNORE_PATTERNS;
  }

  lemma NameHasDot(path: string, name: string, k: nat)
    requires '.' !in path && k < |name| && name[k] == '.'
    ensures !Named(path, name)
  {
    if |path| > |name| {
      assert path[|path| - |name| - 1..][k + 1] == path[|path| - |name| + k] && ("/" + name)[k + 1] == name[k];
    }
  }

  /** A path without a dot is built in exactly at or below three directories of the root:
      unlike in a .gitignore, not where a path goes into a build directory further down. */
  lemma DotlessExactly(path: string)
    requires '.' !in path
    ensures BuiltIn(path) <==> Under(path, "build") || Under(path, "bin") || Under(path, "out")
  {
    NoExtension(path);
    NameHasDot(path, ".git", 0);
    NameHasDot(path, ".veritasignore", 0);
    NameHasDot(path, ".DS_Store", 0);
    NameHasDot(path, "Thumbs.db", 6);
    NameHasDot(path, ".veritas.db", 0);
    NameHasDot(path, ".veritas.db-journal", 0);
    NameHasDot(path, ".veritas.db-wal", 0);
    NameHasDot(path, ".veritas.db-shm", 0);
    hide Named, Extension;
  }

  // ---------------------------------------------------------------- loaded rules

  /** A negating mark with nothing behind it is no rule. */
  predicate Negative(line: Line) {
    Negates(line.text, line.bangEscaped) && |line.text| > 1
  }

  predicate LineMatches(line: Line, path: string) {
    Text(line) != "" && Readable(Text(line)) && Means(Text(line), path)
  }

  /** What the last matching line says, or else what stood before the lines. */
  predicate LastLine(lines: seq<Line>, path: string, before: bool) {
    if lines == [] then before
    else
      var last := lines[|lines| - 1];
      if LineMatches(last, path) then !Negates(last.text, last.bangEscaped)
      else LastLine(lines[..|lines| - 1], path, before)
  }

  /** A line that is cached by suffix or as a path, and what it then takes. */
  predicate Hits(line: Line, path: string) {
    var rule := line.text;
    var p := DropSlash(rule);
    && !Negates(rule, line.bangEscaped)
    && ((CachesExt(rule) && Extension(path) == Some(p[1..]))
        || (CachesDir(rule) && Under(path, DropTrailingSlash(p))))
  }

  /** A rule without wildcards is cached as a path exactly if it has a slash: it then takes the
      path itself, without a slash at its ends, and what is below. */
  lemma LiteralHits(p: string, path: string)
    requires p != "" && LiteralFrom(p, 0) && p[0] != '/' && p[0] != '!'
    ensures Hits(Line("/" + p, false), path) <==> Under(path, DropTrailingSlash(p))
    ensures Hits(Line(p, false), path) <==> '/' in p && Under(path, DropTrailingSlash(p))
  {
    var rooted := "/" + p;
    assert DropSlash(rooted) == p && DropSlash(p) == p && !Wildcard(p[0]);
  }

  /** A rule of a star and a suffix, rooted or not, is cached by suffix wherever the dot is. */
  lemma SuffixHits(e: string, path: string)
    requires e != "" && LiteralFrom("*." + e, 2) && '/' !in e
    ensures Hits(Line("*." + e, false), path) <==> Extension(path) == Some("." + e)
    ensures Hits(Line("/*." + e, false), path) <==> Extension(path) == Some("." + e)
  {
    var rule, rooted := "*." + e, "/*." + e;
    assert DropSlash(rule) == rule && DropSlash(rooted) == rule && rule[1..] == "." + e && '/' !in rule;
    assert Wildcard(rule[0]) && !LiteralFrom(rule, 0);
  }

  predicate AnyNegative(lines: seq<Line>) {
    exists k :: 0 <= k < |lines| && Negative(lines[k])
  }

  /** A line above the first negated one hits. */
  predicate HitAbove(lines: seq<Line>, path: string) {
    exists k :: 0 <= k < |lines| && Hits(lines[k], path) && !AnyNegative(lines[..k])
  }

  lemma OneMoreLine(lines: seq<Line>, path: string)
    requires lines != []
    ensures var init, last := lines[..|lines| - 1], lines[|lines| - 1];
      && (AnyNegative(lines) <==> AnyNegative(init) || Negative(last))
      && (HitAbove(lines, path) <==> HitAbove(init, path) || (Hits(last, path) && !AnyNegative(init)))
  {
    hide Hits, Negative;
    var init, last := lines[..|lines| - 1], lines[|lines| - 1];
    assert forall k :: 0 <= k < |init| ==> init[k] == lines[k] && init[..k] == lines[..k];
    assert lines[..|lines| - 1] == init;
    if AnyNegative(init) {
      var k :| 0 <= k < |init| && Negative(init[k]);
      assert Negative(lines[k]);
    }
    if HitAbove(init, path) {
      var k :| 0 <= k < |init| && Hits(init[k], path) && !AnyNegative(init[..k]);
      assert Hits(lines[k], path) && !AnyNegative(lines[..k]);
    }
  }

  /** What one line adds to the filter. */
  lemma LineParsed(f: Filter, line: Line, path: string, before: bool)
    ensures var g := ParseUser(f, line.text, line.bangEscaped);
      && (g.hasNegation <==> f.hasNegation || Negative(line))
      && (FastHit(g.userFast, path) <==> FastHit(f.userFast, path) || (Hits(line, path) && !f.hasNegation))
      && (LastMatch(g.userRules, path, before) <==>
            if LineMatches(line, path) then !Negates(line.text, line.bangEscaped)
            else LastMatch(f.userRules, path, before))
  {
    var g := ParseUser(f, line.text, line.bangEscaped);
    hide Means, Matches, Extension, Under, Compile, RegexText, Readable;
    if Text(line) != "" {
      CompilesExactly(Text(line));
      if Readable(Text(line)) {
        GlobToRegexPreservesMeaning(Text(line), path);
        assert g.userRules[..|g.userRules| - 1] == f.userRules;
      }
    }
  }

  lemma {:induction false} LinesParsed(f: Filter, lines: seq<Line>, path: string, before: bool)
    requires f.userRules == [] && f.userFast == NO_FAST && !f.hasNegation
    ensures var g := ParseUsers(f, lines);
      && (g.hasNegation <==> AnyNegative(lines)) && (FastHit(g.userFast, path) <==> HitAbove(lines, path))
      && (LastMatch(g.userRules, path, before) <==> LastLine(lines, path, before))
    decreases |lines|
  {
    if lines != [] {
      hide LineMatches, Hits, Negative, AnyNegative, HitAbove;
      var init, last := lines[..|lines| - 1], lines[|lines| - 1];
      LinesParsed(f, init, path, before);
      LineParsed(ParseUsers(f, init), last, path, before);
      OneMoreLine(lines, path);
    }
  }

  /** The verdict on every path under every rule list: what is built in; else what the last
      line that matches says; else whether a line above the first negated one hits. */
  lemma VerdictExactly(lines: seq<Line>, path: string)
    requires NoBreaks(path)
    ensures Ignored(Loaded(lines), path)
        <==> path != "" && (BuiltIn(path) || LastLine(lines, path, HitAbove(lines, path)))
  {
    var start := ParseDefaults(EMPTY_FILTER, DEFAULT_IGNORE_PATTERNS);
    DefaultsAddNoUserRule(EMPTY_FILTER, DEFAULT_IGNORE_PATTERNS);
    DefaultsExactly(lines, path);
    hide BuiltIn, DefaultIgnores, ParseDefaults, HitAbove, FastHit;
    LinesParsed(start, lines, path, HitAbove(lines, path));
  }
}
