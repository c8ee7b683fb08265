/** The ignore-rule list: how rules are read and cached, and how a path is judged. */
module FileFilter {
  import opened Wrappers
  import opened Regex
  import opened Glob

  const DEFAULT_IGNORE_PATTERNS: seq<string> := [
    ".git", ".git/", "*.veritas_tmp", ".veritasignore", "*.part", ".DS_Store", "Thumbs.db",
    "build/", "bin/", "out/",
    ".veritas.db", ".veritas.db-journal", ".veritas.db-wal", ".veritas.db-shm"]

  /** The lookup caches: suffixes with their dot, and directory or file paths. */
  datatype Fast = Fast(exts: set<string>, dirs: set<string>)

  const NO_FAST := Fast({}, {})

  datatype Rule = Rule(regex: Regex, negated: bool, original: string)

  datatype Filter = Filter(defaultFast: Fast, defaultComplex: seq<Regex>,
                           userRules: seq<Rule>, userFast: Fast, hasNegation: bool)

  const EMPTY_FILTER := Filter(NO_FAST, [], [], NO_FAST, false)

  // ---------------------------------------------------------------- reading one rule

  predicate Wildcard(c: char) {
    c == '*' || c == '?' || c == '['
  }

  /** No wildcard from a position on. */
  predicate LiteralFrom(p: string, from: nat) {
    forall k :: from <= k < |p| ==> !Wildcard(p[k])
  }

  function DropSlash(rule: string): string {
    if rule != "" && rule[0] == '/' then rule[1..] else rule
  }

  function DropTrailingSlash(p: string): string {
    if p != "" && p[|p| - 1] == '/' then p[..|p| - 1] else p
  }

  /** *.ext, cached by suffix; looked for after a leading slash is gone. */
  predicate CachesExt(rule: string) {
    var p := DropSlash(rule);
    |p| > 2 && p[0] == '*' && p[1] == '.' && LiteralFrom(p, 2) && '/' !in p
  }

  /** A path without wildcards, rooted or with a slash in it, cached as a directory. */
  predicate CachesDir(rule: string) {
    var p := DropSlash(rule);
    p != "" && LiteralFrom(p, 0) && (p != rule || '/' in p)
  }

  function ParseDefault(f: Filter, rule: string): Filter {
    var p := DropSlash(rule);
    if p == "" then f
    else if CachesExt(rule) then f.(defaultFast := f.defaultFast.(exts := f.defaultFast.exts + {p[1..]}))
    else if CachesDir(rule) then f.(defaultFast := f.defaultFast.(dirs := f.defaultFast.dirs + {DropTrailingSlash(p)}))
    else match Compile(RegexText(rule))
      case None => f
      case Some(r) => f.(defaultComplex := f.defaultComplex + [r])
  }

  function Cached(fast: Fast, rule: string): Fast {
    var p := DropSlash(rule);
    Fast(if CachesExt(rule) then fast.exts + {p[1..]} else fast.exts,
         if CachesDir(rule) then fast.dirs + {DropTrailingSlash(p)} else fast.dirs)
  }

  function Listed(f: Filter, rule: string, negated: bool, original: string): Filter {
    match Compile(RegexText(rule))
    case None => f
    case Some(r) => f.(userRules := f.userRules + [Rule(r, negated, original)])
  }

  predicate Negates(raw: string, bangEscaped: bool) {
    raw != "" && raw[0] == '!' && !bangEscaped
  }

  /** The caches stop being filled at the first negated rule. */
  function ParseUser(f: Filter, raw: string, bangEscaped: bool): Filter {
    if raw == "" then f
    else if Negates(raw, bangEscaped) then
      if |raw| == 1 then f else Listed(f.(hasNegation := true), raw[1..], true, raw)
    else
      Listed(if f.hasNegation then f else f.(userFast := Cached(f.userFast, raw)), raw, false, raw)
  }

  function ParseDefaults(f: Filter, rules: seq<string>): Filter {
    if rules == [] then f else ParseDefault(ParseDefaults(f, rules[..|rules| - 1]), rules[|rules| - 1])
  }

  /** A user rule as it leaves line processing: its text, and whether a leading ! was escaped. */
  datatype Line = Line(text: string, bangEscaped: bool)

  function ParseUsers(f: Filter, lines: seq<Line>): Filter {
    if lines == [] then f
    else ParseUser(ParseUsers(f, lines[..|lines| - 1]), lines[|lines| - 1].text, lines[|lines| - 1].bangEscaped)
  }

  function Loaded(lines: seq<Line>): Filter {
    ParseUsers(ParseDefaults(EMPTY_FILTER, DEFAULT_IGNORE_PATTERNS), lines)
  }

  // ---------------------------------------------------------------- judging a path

  /** The path from its last dot on. */
  function Extension(path: string): Option<string> {
    if path == "" then None
    else match Extension(path[1..])
      case Some(e) => Some(e)
      case None => if path[0] == '.' then Some(path) else None
  }

  predicate Under(path: string, dir: string) {
    path == dir || (|path| > |dir| && path[..|dir|] == dir && path[|dir|] == '/')
  }

  predicate ExtHit(fast: Fast, path: string) {
    Extension(path).Some? && Extension(path).value in fast.exts
  }

  predicate FastHit(fast: Fast, path: string) {
    ExtHit(fast, path) || exists d :: d in fast.dirs && Under(path, d)
  }

  predicate DefaultIgnores(f: Filter, path: string) {
    FastHit(f.defaultFast, path) || exists k :: 0 <= k < |f.defaultComplex| && Matches(f.defaultComplex[k], path)
  }

  /** The verdict of the last rule that matches, or else what stood before the rules. */
  function LastMatch(rules: seq<Rule>, path: string, before: bool): bool {
    if rules == [] then before
    else
      var last := rules[|rules| - 1];
      if Matches(last.regex, path) then !last.negated else LastMatch(rules[..|rules| - 1], path, before)
  }

  /** The one meaning of a rule list: a default rule decides, else the last user rule that
      matches, else the caches. */
  predicate Ignored(f: Filter, path: string) {
    path != "" && (DefaultIgnores(f, path) || LastMatch(f.userRules, path, FastHit(f.userFast, path)))
  }

  /** Without the negation flag there is no negated rule. */
  predicate Coherent(f: Filter) {
    !f.hasNegation ==> forall k :: 0 <= k < |f.userRules| ==> !f.userRules[k].negated
  }

  lemma {:induction false} PositiveRules(rules: seq<Rule>, path: string, before: bool)
    requires forall k :: 0 <= k < |rules| ==> !rules[k].negated
    ensures LastMatch(rules, path, before) <==> before || exists k :: 0 <= k < |rules| && Matches(rules[k].regex, path)
  {
    if rules != [] {
      var init := rules[..|rules| - 1];
      PositiveRules(init, path, before);
      assert forall k :: 0 <= k < |init| ==> init[k] == rules[k];
      if exists k :: 0 <= k < |rules| && Matches(rules[k].regex, path) {
        var k :| 0 <= k < |rules| && Matches(rules[k].regex, path);
        if k < |init| { assert Matches(init[k].regex, path); }
      }
    }
  }

  // ---------------------------------------------------------------- the filter object

  class FileFilter {
    var defaultFast: Fast
    var defaultComplex: seq<Regex>
    var userRules: seq<Rule>
    var userFast: Fast
    var hasNegation: bool

    ghost function View(): Filter
      reads this
    {
      Filter(defaultFast, defaultComplex, userRules, userFast, hasNegation)
    }

    constructor ()
      ensures View() == Loaded([])
    {
      defaultFast, defaultComplex, userRules, userFast, hasNegation := NO_FAST, [], [], NO_FAST, false;
      new;
      LoadDefaults();
    }

    method LoadDefaults()
      requires View() == EMPTY_FILTER
      modifies this
      ensures View() == Loaded([])
    {
      ghost var start := View();
      for i := 0 to |DEFAULT_IGNORE_PATTERNS|
        invariant View() == ParseDefaults(start, DEFAULT_IGNORE_PATTERNS[..i])
      {
        assert DEFAULT_IGNORE_PATTERNS[..i + 1][..i] == DEFAULT_IGNORE_PATTERNS[..i];
        ParseDefaultRule(DEFAULT_IGNORE_PATTERNS[i]);
      }
      assert DEFAULT_IGNORE_PATTERNS[..|DEFAULT_IGNORE_PATTERNS|] == DEFAULT_IGNORE_PATTERNS;
    }

    method ParseDefaultRule(rule: string)
      modifies this
      ensures View() == ParseDefault(old(View()), rule)
    {
      var pattern := DropSlash(rule);
      if pattern == "" { return; }
      if CachesExt(rule) {
        defaultFast := defaultFast.(exts := defaultFast.exts + {pattern[1..]});
        return;
      }
      if CachesDir(rule) {
        defaultFast := defaultFast.(dirs := defaultFast.dirs + {DropTrailingSlash(pattern)});
        return;
      }
      var text := GlobToRegex(rule);
      match Compile(text)
      case None =>
      case Some(r) => defaultComplex := defaultComplex + [r];
    }

    method ParseRule(raw: string, bangEscaped: bool)
      modifies this
      ensures View() == ParseUser(old(View()), raw, bangEscaped)
    {
      if raw == "" { return; }
      var rule := raw;
      var negated := false;
      if !bangEscaped && rule[0] == '!' {
        negated := true;
        rule := rule[1..];
        if rule == "" { return; }
        hasNegation := true;
      }
      if !negated && !hasNegation {
        var pattern := DropSlash(rule);
        if CachesExt(rule) {
          userFast := userFast.(exts := userFast.exts + {pattern[1..]});
        }
        if CachesDir(rule) {
          userFast := userFast.(dirs := userFast.dirs + {DropTrailingSlash(pattern)});
        }
      }
      var text := GlobToRegex(rule);
      match Compile(text)
      case None =>
      case Some(r) => userRules := userRules + [Rule(r, negated, raw)];
    }

    /** What loading begins with: everything forgotten and the built-in patterns read again. */
    method Reload()
      modifies this
      ensures View() == Loaded([])
    {
      defaultFast, defaultComplex, userRules, userFast, hasNegation := NO_FAST, [], [], NO_FAST, false;
      LoadDefaults();
    }

    static method FastLookup(fast: Fast, ext: Option<string>, path: string) returns (hit: bool)
      requires ext == Extension(path)
      ensures hit == FastHit(fast, path)
    {
      if ext.Some? && ext.value in fast.exts { return true; }
      var dirs := fast.dirs;
      while dirs != {}
        invariant dirs <= fast.dirs
        invariant forall d :: d in fast.dirs && d !in dirs ==> !Under(path, d)
        decreases dirs
      {
        var d :| d in dirs;
        if Under(path, d) { return true; }
        dirs := dirs - {d};
      }
      return false;
    }

    static method FindExtension(path: string) returns (ext: Option<string>)
      ensures ext == Extension(path)
    {
      ext := None;
      var i := |path|;
      while i > 0
        invariant 0 <= i <= |path| && ext == Extension(path[i..]) == None
      {
        i := i - 1;
        assert path[i..][1..] == path[i + 1..];
        if path[i] == '.' {
          ext := Some(path[i..]);
          DotDecides(path, i);
          return;
        }
      }
      assert path[0..] == path;
    }

    /** Both branches of the evaluation: without negation any hit decides, with it the rules
        are walked in order over the caches' answer. */
    method ShouldIgnore(path: string) returns (ignored: bool)
      requires Coherent(View())
      ensures ignored == Ignored(View(), path)
    {
      if path == "" { return false; }
      var ext := FindExtension(path);
      var byDefault := FastLookup(defaultFast, ext, path);
      if byDefault { return true; }
      for k := 0 to |defaultComplex|
        invariant forall j :: 0 <= j < k ==> !Matches(defaultComplex[j], path)
      {
        if Matches(defaultComplex[k], path) { return true; }
      }
      if !hasNegation {
        ignored := JudgeWithoutNegation(ext, path);
        return;
      }
      ignored := FastLookup(userFast, ext, path);
      ghost var base := ignored;
      for k := 0 to |userRules|
        invariant ignored == LastMatch(userRules[..k], path, base)
      {
        assert userRules[..k + 1][..k] == userRules[..k];
        if Matches(userRules[k].regex, path) { ignored := !userRules[k].negated; }
      }
      assert userRules[..|userRules|] == userRules;
    }

    method JudgeWithoutNegation(ext: Option<string>, path: string) returns (ignored: bool)
      requires ext == Extension(path)
      requires forall k :: 0 <= k < |userRules| ==> !userRules[k].negated
      ensures ignored == LastMatch(userRules, path, FastHit(userFast, path))
    {
      PositiveRules(userRules, path, FastHit(userFast, path));
      ignored := FastLookup(userFast, ext, path);
      if ignored { return; }
      for k := 0 to |userRules|
        invariant forall j :: 0 <= j < k ==> !Matches(userRules[j].regex, path)
      {
        if Matches(userRules[k].regex, path) { return true; }
      }
    }
  }

  lemma {:induction false} DotDecides(path: string, i: nat)
    requires i < |path| && path[i] == '.' && Extension(path[i + 1..]) == None
    ensures Extension(path) == Some(path[i..])
    decreases i
  {
    if i > 0 {
      assert path[1..][i..] == path[i + 1..];
      assert path[1..][i - 1..] == path[i..] && path[1..][i - 1 + 1..] == path[i + 1..];
      DotDecides(path[1..], i - 1);
    }
  }
}
