/** The emitted text compiles, and to a regular expression with the glob's own language. */
module GlobProof {
  import opened Wrappers
  import opened Regex
  import opened Glob

  const NOT_SLASH := Class(true, [One('/')])
  // What the emitted optional prefix group reads as: any directory prefix, or none.
  const DIR_PREFIX := Opt(Seq(Star(Any), Seq(Char('/'), Eps)))
  const DIR_TAIL := Opt(Seq(Char('/'), Seq(Star(Any), Eps)))

  // ---------------------------------------------------------------- the tree of a pattern

  function PieceTree(p: string): Regex
    requires p != "" && PieceReadable(p)
  {
    if p[0] == '*' && |p| > 1 && p[1] == '*' then
      if |p| > 2 && p[2] == '/' then DIR_PREFIX else Star(Any)
    else if p[0] == '*' then Star(NOT_SLASH)
    else if p[0] == '?' then NOT_SLASH
    else if p[0] == '[' && FindClose(p, 1) < |p| then
      var (negated, body) := ClassParts(p[1..FindClose(p, 1)]);
      Class(negated, ClassItems(body).value)
    else Char(if p[0] == '\\' then '/' else p[0])
  }

  function Tree(p: string, isDir: bool): Regex
    requires ClassesReadable(p)
  {
    if p == "" then if isDir then Seq(DIR_TAIL, Eps) else Eps
    else Seq(PieceTree(p), Tree(p[PieceLength(p)..], isDir))
  }

  function WholeTree(glob: string): Regex
    requires Readable(glob)
  {
    var s := Split(glob);
    if s.rooted then Tree(s.pattern, s.isDir) else Seq(DIR_PREFIX, Tree(s.pattern, s.isDir))
  }

  // ---------------------------------------------------------------- reading the text back

  predicate Quantifier(s: string) {
    s != "" && s[0] in "*?+{"
  }

  lemma ParseTermOf(s: string, atom: Regex, more: string)
    requires s != "" && ParseAtom(s) == Some((atom, more)) && !Quantifier(more)
    ensures ParseTerm(s) == Some((atom, more))
  {
  }

  lemma ParsePlain(c: char, more: string)
    requires c == ']' || !Special(c)
    ensures ParseAtom([c] + more) == Some((Char(c), more))
  {
    assert ([c] + more)[1..] == more;
  }

  lemma ParseEscaped(c: char, more: string)
    requires Special(c)
    ensures ParseAtom(['\\', c] + more) == Some((Char(c), more))
  {
    assert (['\\', c] + more)[2..] == more;
  }

  lemma ParseAnyStar(more: string)
    ensures ParseTerm(".*" + more) == Some((Star(Any), more))
  {
    assert (".*" + more)[1..] == "*" + more;
    assert ("*" + more)[1..] == more;
  }

  lemma ParseDirPrefix(more: string)
    ensures ParseTerm("(.*/)?" + more) == Some((DIR_PREFIX, more))
  {
    var end := ")?" + more;
    var slash := ['/'] + end;
    ParsePlain('/', end);
    ParseTermOf(slash, Char('/'), end);
    assert ParseSeq(slash) == Some((Seq(Char('/'), Eps), end));
    ParseAnyStar(slash);
    assert ParseSeq(".*" + slash) == Some((Seq(Star(Any), Seq(Char('/'), Eps)), end));
    var s := "(.*/)?" + more;
    assert s[1..] == ".*" + slash;
    assert end[1..] == "?" + more && ("?" + more)[1..] == more;
  }

  lemma ParseDirTail(more: string)
    ensures ParseTerm("(/.*)?" + more) == Some((DIR_TAIL, more))
  {
    var end := ")?" + more;
    ParseAnyStar(end);
    assert ParseSeq(".*" + end) == Some((Seq(Star(Any), Eps), end));
    var slash := ['/'] + (".*" + end);
    ParsePlain('/', ".*" + end);
    ParseTermOf(slash, Char('/'), ".*" + end);
    assert ParseSeq(slash) == Some((Seq(Char('/'), Seq(Star(Any), Eps)), end));
    hide ParseSeq, Special;
    var s := "(/.*)?" + more;
    assert s[1..] == slash;
    assert end[1..] == "?" + more && ("?" + more)[1..] == more;
  }

  lemma ParseNotSlash(more: string)
    ensures ParseAtom("[^/]" + more) == Some((NOT_SLASH, more))
  {
    var s := "[^/]" + more;
    assert s[1..] == "^/]" + more && s[1..][1..] == "/]" + more;
    var t := "/]" + more;
    assert ("]" + more)[1..] == more;
    ClassTextPlain('/', "]" + more, "", more);
    assert ['/'] + "" == "/" && t == ['/'] + ("]" + more);
    assert "/"[1..] == "" && [One('/')] + [] == [One('/')];
  }

  lemma ClassTextEscape(tail: string, text: string, more: string)
    requires ClassText(tail) == Some((text, more))
    ensures ClassText("\\\\" + tail) == Some((['\\'] + text, more))
  {
    assert ("\\\\" + tail)[2..] == tail;
  }

  lemma ClassTextPlain(c: char, tail: string, text: string, more: string)
    requires c != ']' && c != '\\' && ClassText(tail) == Some((text, more))
    ensures ClassText([c] + tail) == Some(([c] + text, more))
  {
    assert ([c] + tail)[1..] == tail;
  }

  lemma {:induction false} ClassTextOfEscaped(content: string, more: string)
    requires ']' !in content
    ensures ClassText(EscapeClass(content) + ("]" + more)) == Some((content, more))
  {
    if content == "" {
      assert EscapeClass(content) + ("]" + more) == "]" + more;
      assert ("]" + more)[1..] == more;
    } else {
      hide ClassText;
      var c, rest := content[0], content[1..];
      var tail := EscapeClass(rest) + ("]" + more);
      assert content == [c] + rest;
      assert forall d :: d in rest ==> d in content;
      ClassTextOfEscaped(rest, more);
      OneMoreEscaped(content, more);
      if c == '\\' {
        ClassTextEscape(tail, rest, more);
      } else {
        ClassTextPlain(c, tail, rest, more);
      }
    }
  }

  lemma OneMoreEscaped(content: string, more: string)
    requires content != ""
    ensures var c, tail := content[0], EscapeClass(content[1..]) + ("]" + more);
      EscapeClass(content) + ("]" + more) == if c == '\\' then "\\\\" + tail else [c] + tail
  {
    var rest, end := EscapeClass(content[1..]), "]" + more;
    if content[0] == '\\' {
      assert ("\\\\" + rest) + end == "\\\\" + (rest + end);
    } else {
      assert ([content[0]] + rest) + end == [content[0]] + (rest + end);
    }
  }

  function ClassParsed(negated: bool, body: string, more: string): Parsed {
    match ClassItems(body)
    case None => None
    case Some(items) => Some((Class(negated, items), more))
  }

  lemma ParseClassText(negated: bool, inner: string, body: string, more: string)
    requires inner != "" && ClassText(inner) == Some((body, more)) && (negated || inner[0] != '^')
    ensures ParseAtom("[" + (if negated then "^" + inner else inner)) == ClassParsed(negated, body, more)
  {
    var t := if negated then "^" + inner else inner;
    assert ("[" + t)[1..] == t;
    assert negated ==> t[1..] == inner;
  }

  lemma EmitClassSplits(content: string)
    ensures var (negated, body) := ClassParts(content);
      && EmitClass(content) == (if negated then "^" else "") + EscapeClass(body)
      && (!negated && EscapeClass(body) != "" ==> EscapeClass(body)[0] != '^')
  {
  }

  lemma ParseEmittedClass(content: string, more: string)
    requires ']' !in content
    ensures ParseAtom("[" + EmitClass(content) + "]" + more)
         == ClassParsed(ClassParts(content).0, ClassParts(content).1, more)
  {
    EmitClassSplits(content);
    var (negated, body) := ClassParts(content);
    assert ']' !in body;
    hide EmitClass, EscapeClass, ClassParts, ClassParsed, ClassText, ParseAtom;
    var inner := EscapeClass(body) + ("]" + more);
    ClassTextOfEscaped(body, more);
    ParseClassText(negated, inner, body, more);
    Bracketed(negated, EscapeClass(body), more);
  }

  lemma Bracketed(negated: bool, text: string, more: string)
    ensures var inner := text + ("]" + more);
      "[" + ((if negated then "^" else "") + text) + "]" + more == "[" + (if negated then "^" + inner else inner)
  {
    if negated {
      assert ("^" + text) + ("]" + more) == "^" + (text + ("]" + more));
    } else {
      assert "" + text == text;
    }
    var e := (if negated then "^" else "") + text;
    assert "[" + e + "]" + more == "[" + (e + ("]" + more));
  }

  lemma ParseChar(c: char, more: string)
    requires c != '*' && c != '?'
    ensures ParseAtom(EmitChar(c) + more) == Some((Char(if c == '\\' then '/' else c), more))
  {
    if c == '\\' {
      ParsePlain('/', more);
    } else if c in ".+(){}^$|[" {
      ParseEscaped(c, more);
    } else {
      ParsePlain(c, more);
    }
  }

  /** Each piece of output is one term, whatever follows it. */
  lemma PieceParses(p: string, more: string)
    requires p != "" && PieceReadable(p) && !Quantifier(more)
    ensures ParseTerm(Piece(p) + more) == Some((PieceTree(p), more))
  {
    if p[0] == '*' && |p| > 1 && p[1] == '*' {
      if |p| > 2 && p[2] == '/' { ParseDirPrefix(more); } else { ParseAnyStar(more); }
    } else if p[0] == '*' {
      ParseNotSlash("*" + more);
      assert "[^/]*" + more == "[^/]" + ("*" + more);
      assert ("*" + more)[1..] == more;
    } else if p[0] == '?' {
      ParseNotSlash(more);
    } else if p[0] == '[' && FindClose(p, 1) < |p| {
      var content := p[1..FindClose(p, 1)];
      ParseEmittedClass(content, more);
    } else {
      ParseChar(p[0], more);
    }
  }

  lemma PieceStarts(p: string, more: string)
    requires p != ""
    ensures var s := Piece(p) + more;
      s != "" && !Quantifier(s) && s[0] != ')' && s[0] != '$'
  {
  }

  function TailText(isDir: bool): string {
    if isDir then "(/.*)?$" else "$"
  }

  lemma EmittedStarts(p: string, isDir: bool)
    ensures !Quantifier(Emit(p) + TailText(isDir))
  {
    if p != "" {
      var more := Emit(p[PieceLength(p)..]) + TailText(isDir);
      PieceStarts(p, more);
      assert Emit(p) + TailText(isDir) == Piece(p) + more;
    } else {
      assert Emit(p) + TailText(isDir) == TailText(isDir);
    }
  }

  lemma {:induction false} EmittedParses(p: string, isDir: bool)
    requires ClassesReadable(p)
    ensures ParseSeq(Emit(p) + TailText(isDir)) == Some((Tree(p, isDir), "$"))
    decreases |p|
  {
    hide ParseSeq, ParseTerm, Piece, PieceTree, TailText, Quantifier;
    if p == "" {
      TailParses(isDir);
      assert Emit(p) + TailText(isDir) == TailText(isDir);
    } else {
      var rest := p[PieceLength(p)..];
      var more := Emit(rest) + TailText(isDir);
      EmittedParses(rest, isDir);
      EmittedStarts(rest, isDir);
      PieceParses(p, more);
      PieceStarts(p, more);
      assert Emit(p) + TailText(isDir) == Piece(p) + more;
      ParseSeqStep(Piece(p) + more, PieceTree(p), more, Tree(rest, isDir), "$");
    }
  }

  lemma TailParses(isDir: bool)
    ensures ParseSeq(TailText(isDir)) == Some((Tree("", isDir), "$")) && !Quantifier(TailText(isDir))
  {
    assert ParseSeq("$") == Some((Eps, "$"));
    if isDir {
      ParseDirTail("$");
      assert "(/.*)?" + "$" == "(/.*)?$";
    }
  }

  lemma ParseSeqStep(s: string, term: Regex, more: string, rest: Regex, end: string)
    requires s != "" && s[0] != ')' && s[0] != '$'
    requires ParseTerm(s) == Some((term, more)) && ParseSeq(more) == Some((rest, end))
    ensures ParseSeq(s) == Some((Seq(term, rest), end))
  {
  }

  /** The emitted text is a regular expression std::regex accepts, and this one. */
  lemma TextCompiles(glob: string)
    requires Readable(glob)
    ensures Compile(RegexText(glob)) == Some(WholeTree(glob))
  {
    var s := Split(glob);
    var more := Emit(s.pattern) + TailText(s.isDir);
    EmittedParses(s.pattern, s.isDir);
    var text := if s.rooted then more else "(.*/)?" + more;
    if !s.rooted {
      ParseDirPrefix(more);
      ParseSeqStep(text, DIR_PREFIX, more, Tree(s.pattern, s.isDir), "$");
    }
    RegexTextParts(glob);
    assert ("^" + text)[1..] == text;
  }

  lemma RegexTextParts(glob: string)
    ensures var s := Split(glob);
      var more := Emit(s.pattern) + TailText(s.isDir);
      RegexText(glob) == "^" + (if s.rooted then more else "(.*/)?" + more)
  {
    hide Split, Emit;
    if !Split(glob).rooted {
      assert "^(.*/)?" == "^" + "(.*/)?";
    }
  }

  // ---------------------------------------------------------------- unreadable classes

  lemma UnreadablePieceFails(p: string, more: string)
    requires p != "" && !PieceReadable(p)
    ensures ParseAtom(Piece(p) + more) == None
  {
    ParseEmittedClass(p[1..FindClose(p, 1)], more);
  }

  lemma {:induction false} UnreadableFails(p: string, isDir: bool)
    requires !ClassesReadable(p)
    ensures ParseSeq(Emit(p) + TailText(isDir)) == None
    decreases |p|
  {
    var rest := p[PieceLength(p)..];
    var more := Emit(rest) + TailText(isDir);
    PieceStarts(p, more);
    assert Emit(p) + TailText(isDir) == Piece(p) + more;
    if PieceReadable(p) {
      EmittedStarts(rest, isDir);
      PieceParses(p, more);
      UnreadableFails(rest, isDir);
    } else {
      UnreadablePieceFails(p, more);
    }
  }

  /** A rule survives compilation exactly when every class in it is readable. */
  lemma CompilesExactly(glob: string)
    ensures Compile(RegexText(glob)).Some? <==> Readable(glob)
  {
    if Readable(glob) {
      TextCompiles(glob);
    } else {
      var s := Split(glob);
      var more := Emit(s.pattern) + TailText(s.isDir);
      UnreadableFails(s.pattern, s.isDir);
      RegexTextParts(glob);
      if s.rooted {
        assert ("^" + more)[1..] == more;
      } else {
        EmittedStarts(s.pattern, s.isDir);
        ParseDirPrefix(more);
        assert ("^" + ("(.*/)?" + more))[1..] == "(.*/)?" + more;
      }
    }
  }

  // ---------------------------------------------------------------- the language

  const SLASH_THEN := Seq(Char('/'), Eps)

  predicate Below(r: Regex, t: string) {
    t != "" && !LineBreak(t[0]) && ((t[0] == '/' && Matches(r, t[1..])) || Below(r, t[1..]))
  }

  lemma SlashThen(r: Regex, t: string)
    ensures Matches(Seq(SLASH_THEN, r), t) <==> t != "" && t[0] == '/' && Matches(r, t[1..])
  {
    SeqAssociates(Char('/'), Eps, r, t);
    SeqOfSingle(Char('/'), Seq(Eps, r), t);
    if t != "" { SeqOfEps(r, t[1..]); }
  }

  lemma {:induction false} AnyThenSlash(r: Regex, t: string)
    ensures Matches(Seq(Star(Any), Seq(SLASH_THEN, r)), t) <==> Below(r, t)
    decreases |t|
  {
    SeqOfStar(Any, Seq(SLASH_THEN, r), t);
    SlashThen(r, t);
    if t != "" { AnyThenSlash(r, t[1..]); }
  }

  lemma DirPrefixThen(r: Regex, t: string)
    ensures Matches(Seq(DIR_PREFIX, r), t) <==> Matches(r, t) || Below(r, t)
  {
    SeqOfOpt(Seq(Star(Any), SLASH_THEN), r, t);
    SeqAssociates(Star(Any), SLASH_THEN, r, t);
    AnyThenSlash(r, t);
  }

  lemma {:induction false} AnyToEnd(t: string)
    ensures Matches(Seq(Star(Any), Seq(Eps, Eps)), t) <==> forall k :: 0 <= k < |t| ==> !LineBreak(t[k])
    decreases |t|
  {
    SeqOfStar(Any, Seq(Eps, Eps), t);
    SeqOfEps(Eps, t);
    if t != "" {
      AnyToEnd(t[1..]);
      assert (forall k :: 0 <= k < |t[1..]| ==> !LineBreak(t[1..][k])) <==> forall k :: 1 <= k < |t| ==>
        !LineBreak(t[k]) by {
        assert forall k :: 1 <= k < |t| ==> t[k] == t[1..][k - 1];
      }
    }
  }

  lemma TailMatches(t: string)
    ensures Matches(Seq(DIR_TAIL, Eps), t) <==> Ends(t, true)
  {
    var anyEnd := Seq(Star(Any), Eps);
    SeqOfOpt(Seq(Char('/'), anyEnd), Eps, t);
    SeqAssociates(Char('/'), anyEnd, Eps, t);
    SeqOfSingle(Char('/'), Seq(anyEnd, Eps), t);
    if t != "" {
      SeqAssociates(Star(Any), Eps, Eps, t[1..]);
      AnyToEnd(t[1..]);
      assert forall k :: 0 < k < |t| ==> t[k] == t[1..][k - 1];
    }
  }

  lemma NotSlashChar(c: char)
    ensures MatchesChar(NOT_SLASH, c) <==> c != '/'
  {
    assert InItem([One('/')][0], '/');
  }

  lemma {:induction false} TreeMatches(p: string, t: string, isDir: bool)
    requires ClassesReadable(p)
    ensures Matches(Tree(p, isDir), t) <==> GlobMatches(p, t, isDir)
    decreases |p|, |t|, 1
  {
    if p == "" {
      if isDir { TailMatches(t); }
    } else {
      var rest := p[PieceLength(p)..];
      var r := Tree(rest, isDir);
      if p[0] == '*' && |p| > 1 && p[1] == '*' && |p| > 2 && p[2] == '/' {
        DirPrefixThen(r, t);
        TreeMatches(rest, t, isDir);
        BelowMatches(rest, t, isDir);
      } else if p[0] == '*' {
        StarMatches(p, t, isDir);
      } else {
        SeqOfSingle(PieceTree(p), r, t);
        if t != "" {
          NotSlashChar(t[0]);
          TreeMatches(rest, t[1..], isDir);
        }
      }
    }
  }

  lemma {:induction false} StarMatches(p: string, t: string, isDir: bool)
    requires p != "" && ClassesReadable(p) && PieceTree(p).Star?
    ensures Matches(Tree(p, isDir), t) <==> GlobMatches(p, t, isDir)
    decreases |p|, |t|, 0
  {
    var rest := p[PieceLength(p)..];
    SeqOfStar(PieceTree(p).body, Tree(rest, isDir), t);
    TreeMatches(rest, t, isDir);
    if t != "" {
      NotSlashChar(t[0]);
      StarMatches(p, t[1..], isDir);
    }
  }

  lemma {:induction false} BelowMatches(p: string, t: string, isDir: bool)
    requires ClassesReadable(p)
    ensures Below(Tree(p, isDir), t) <==> BelowSomeDirectory(p, t, isDir)
    decreases |p|, |t|, 2
  {
    if t != "" {
      TreeMatches(p, t[1..], isDir);
      BelowMatches(p, t[1..], isDir);
    }
  }

  /** The compiler preserves meaning: what it emits is accepted, and matches exactly the
      paths the glob means. */
  lemma GlobToRegexPreservesMeaning(glob: string, path: string)
    requires Readable(glob)
    ensures Compile(RegexText(glob)).Some?
    ensures Matches(Compile(RegexText(glob)).value, path) <==> Means(glob, path)
  {
    TextCompiles(glob);
    var s := Split(glob);
    TreeMatches(s.pattern, path, s.isDir);
    if !s.rooted {
      DirPrefixThen(Tree(s.pattern, s.isDir), path);
      BelowMatches(s.pattern, path, s.isDir);
    }
  }

  // ---------------------------------------------------------------- depth

  function Slashes(t: string): nat {
    if t == "" then 0 else (if t[0] == '/' then 1 else 0) + Slashes(t[1..])
  }

  /** A backslash of a pattern stands for a slash of the path. */
  function PatternSlashes(p: string): nat {
    if p == "" then 0 else (if p[0] == '/' || p[0] == '\\' then 1 else 0) + PatternSlashes(p[1..])
  }

  /** No class, and no two stars in a row. */
  predicate Flat(p: string) {
    forall k :: 0 <= k < |p| ==> p[k] != '[' && (p[k] == '*' && k + 1 < |p| ==> p[k + 1] != '*')
  }

  lemma {:induction false} FlatKeepsDepth(p: string, t: string)
    requires Flat(p) && ClassesReadable(p) && GlobMatches(p, t, false)
    ensures Slashes(t) == PatternSlashes(p)
    decreases |p|, |t|
  {
    if p != "" {
      assert p[0] != '[' && PieceLength(p) == 1;
      assert Flat(p[1..]) by { assert forall k :: 0 <= k < |p[1..]| ==> p[1..][k] == p[k + 1]; }
      if p[0] == '*' {
        if GlobMatches(p[1..], t, false) { FlatKeepsDepth(p[1..], t); } else { FlatKeepsDepth(p, t[1..]); }
      } else {
        FlatKeepsDepth(p[1..], t[1..]);
      }
    }
  }

  /** A rooted rule without double star, class or trailing slash matches only paths as deep
      as itself. */
  lemma RootedRuleKeepsDepth(glob: string, path: string)
    requires Readable(glob) && Split(glob).rooted && !Split(glob).isDir && Flat(Split(glob).pattern)
    requires Means(glob, path)
    ensures Slashes(path) == PatternSlashes(Split(glob).pattern)
  {
    FlatKeepsDepth(Split(glob).pattern, path);
  }
}
