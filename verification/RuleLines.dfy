/** Lines of the ignore file: trimming, comments and escapes. */
module RuleLines {
  import opened Wrappers
  import opened FileFilter

  predicate Blank(c: char) {
    c == ' ' || c == '\t'
  }

  function TrimLeft(s: string): (t: string)
    ensures |t| <= |s|
    ensures t != "" ==> !Blank(t[0])
  {
    if s != "" && Blank(s[0]) then TrimLeft(s[1..]) else s
  }

  function TrimRight(s: string): (t: string)
    ensures |t| <= |s|
    ensures t != "" ==> !Blank(t[|t| - 1])
  {
    if s != "" && Blank(s[|s| - 1]) then TrimRight(s[..|s| - 1]) else s
  }

  function DropReturn(s: string): string {
    if s != "" && s[|s| - 1] == '\r' then s[..|s| - 1] else s
  }

  predicate Escapable(c: char) {
    c == '#' || c == '!' || c == '\\'
  }

  /** Escapes become literals and an unescaped # ends the line. */
  function Unescape(s: string): string {
    if s == "" then ""
    else if s[0] == '\\' && |s| > 1 && Escapable(s[1]) then [s[1]] + Unescape(s[2..])
    else if s[0] == '#' then ""
    else [s[0]] + Unescape(s[1..])
  }

  /** A line of the ignore file; a leading ! that was escaped does not negate. */
  function ReadLine(line: string): Option<Line> {
    var s := TrimLeft(DropReturn(line));
    var text := TrimRight(Unescape(s));
    if s == "" || text == "" then None
    else Some(Line(text, |s| > 1 && s[0] == '\\' && s[1] == '!'))
  }

  /** The dry-run form, without escapes. */
  function BeforeHash(s: string): string {
    if s == "" || s[0] == '#' then "" else [s[0]] + BeforeHash(s[1..])
  }

  function ReadDryLine(line: string): Option<Line> {
    var s := TrimLeft(DropReturn(line));
    var text := TrimRight(BeforeHash(s));
    if s == "" || text == "" then None else Some(Line(text, false))
  }

  /** The character loop over one trimmed line. */
  method ProcessLine(s: string) returns (processed: string, bangEscaped: bool)
    ensures processed == Unescape(s)
    ensures bangEscaped == (|s| > 1 && s[0] == '\\' && s[1] == '!')
  {
    processed, bangEscaped := "", false;
    var i := 0;
    while i < |s|
      invariant 0 <= i <= |s| && processed + Unescape(s[i..]) == Unescape(s)
      invariant i == 0 <==> processed == ""
      invariant bangEscaped == (i > 0 && |s| > 1 && s[0] == '\\' && s[1] == '!')
    {
      if s[i] == '\\' && i + 1 < |s| && Escapable(s[i + 1]) {
        if s[i + 1] == '!' && processed == "" { bangEscaped := true; }
        assert s[i..][2..] == s[i + 2..];
        assert processed + ([s[i + 1]] + Unescape(s[i + 2..])) == (processed + [s[i + 1]]) + Unescape(s[i + 2..]);
        processed := processed + [s[i + 1]];
        i := i + 2;
        continue;
      }
      if s[i] == '#' { break; }
      assert s[i..][1..] == s[i + 1..];
      assert processed + ([s[i]] + Unescape(s[i + 1..])) == (processed + [s[i]]) + Unescape(s[i + 1..]);
      processed := processed + [s[i]];
      i := i + 1;
    }
  }

  method ParseLine(line: string) returns (parsed: Option<Line>)
    ensures parsed == ReadLine(line)
  {
    var s := TrimLeft(DropReturn(line));
    if s == "" { return None; }
    var processed, bangEscaped := ProcessLine(s);
    var text := TrimRight(processed);
    if text == "" { return None; }
    return Some(Line(text, bangEscaped));
  }

  /** The line up to its first #, escaped or not. */
  method CutComment(s: string) returns (text: string)
    ensures text == BeforeHash(s)
  {
    var i := 0;
    while i < |s| && s[i] != '#'
      invariant 0 <= i <= |s| && s[..i] + BeforeHash(s[i..]) == BeforeHash(s)
    {
      assert s[i..][1..] == s[i + 1..] && s[..i + 1] == s[..i] + [s[i]];
      assert s[..i] + ([s[i]] + BeforeHash(s[i + 1..])) == s[..i + 1] + BeforeHash(s[i + 1..]);
      i := i + 1;
    }
    assert s[..i] == s[..i] + BeforeHash(s[i..]);
    text := s[..i];
  }

  method ParseDryLine(line: string) returns (parsed: Option<Line>)
    ensures parsed == ReadDryLine(line)
  {
    var s := TrimLeft(DropReturn(line));
    var text := CutComment(s);
    text := TrimRight(text);
    if text == "" { return None; }
    return Some(Line(text, false));
  }

  // ---------------------------------------------------------------- whole files

  /** Where the first line of a text ends. */
  function LineEnd(text: string): (k: nat)
    ensures k <= |text| && (forall j :: 0 <= j < k ==> text[j] != '\n') && (k < |text| ==> text[k] == '\n')
  {
    if text == "" || text[0] == '\n' then 0 else 1 + LineEnd(text[1..])
  }

  function AfterLine(text: string): (rest: string)
    ensures text != "" ==> |rest| < |text|
  {
    if LineEnd(text) < |text| then text[LineEnd(text) + 1..] else ""
  }

  /** The rules of a text, line by line; nothing follows a final line break. */
  function RulesOf(text: string, read: string -> Option<Line>): seq<Line>
    decreases |text|
  {
    if text == "" then []
    else
      var rest := RulesOf(AfterLine(text), read);
      match read(text[..LineEnd(text)])
      case None => rest
      case Some(line) => [line] + rest
  }

  method GetLine(text: string) returns (line: string, rest: string)
    ensures line == text[..LineEnd(text)] && rest == AfterLine(text)
  {
    var k := 0;
    while k < |text| && text[k] != '\n'
      invariant 0 <= k <= |text| && LineEnd(text) == k + LineEnd(text[k..])
    {
      assert text[k..][1..] == text[k + 1..];
      k := k + 1;
    }
    return text[..k], if k < |text| then text[k + 1..] else "";
  }

  lemma MoreRules(done: seq<Line>, line: Line)
    ensures Loaded(done + [line]) == ParseUser(Loaded(done), line.text, line.bangEscaped)
  {
    assert (done + [line])[..|done|] == done;
  }

  /** The text of the ignore file, if there is one that opens. */
  method LoadRules(filter: FileFilter, file: Option<string>)
    modifies filter
    ensures filter.View() == Loaded(if file.None? then [] else RulesOf(file.value, ReadLine))
  {
    hide Loaded, ParseUser, ReadLine, ReadDryLine, LineEnd, AfterLine;
    filter.Reload();
    if file.None? { return; }
    var rest := file.value;
    ghost var done: seq<Line> := [];
    while rest != ""
      invariant filter.View() == Loaded(done)
      invariant done + RulesOf(rest, ReadLine) == RulesOf(file.value, ReadLine)
      decreases |rest|
    {
      var line;
      line, rest := GetLine(rest);
      var parsed := ParseLine(line);
      if parsed.Some? {
        MoreRules(done, parsed.value);
        filter.ParseRule(parsed.value.text, parsed.value.bangEscaped);
        done := done + [parsed.value];
      }
    }
    assert done == done + RulesOf(rest, ReadLine);
  }

  /** The dry run, over rules given as a string. */
  method LoadRulesFromString(filter: FileFilter, rules: string)
    modifies filter
    ensures filter.View() == Loaded(RulesOf(rules, ReadDryLine))
  {
    hide Loaded, ParseUser, ReadLine, ReadDryLine, LineEnd, AfterLine;
    filter.Reload();
    var rest := rules;
    ghost var done: seq<Line> := [];
    while rest != ""
      invariant filter.View() == Loaded(done)
      invariant done + RulesOf(rest, ReadDryLine) == RulesOf(rules, ReadDryLine)
      decreases |rest|
    {
      var line;
      line, rest := GetLine(rest);
      var parsed := ParseDryLine(line);
      if parsed.Some? {
        MoreRules(done, parsed.value);
        filter.ParseRule(parsed.value.text, parsed.value.bangEscaped);
        done := done + [parsed.value];
      }
    }
    assert done == done + RulesOf(rest, ReadDryLine);
  }

  // ---------------------------------------------------------------- escaping round trip

  /** How to write a rule so that it is read back as it is. */
  function Escape(rule: string): string {
    if rule == "" then "" else (if Escapable(rule[0]) then ['\\', rule[0]] else [rule[0]]) + Escape(rule[1..])
  }

  lemma UnescapeOne(c: char, more: string)
    ensures Escapable(c) ==> Unescape(['\\', c] + more) == [c] + Unescape(more)
    ensures !Escapable(c) ==> Unescape([c] + more) == [c] + Unescape(more)
  {
    assert (['\\', c] + more)[2..] == more && ([c] + more)[1..] == more;
  }

  lemma EscapeOne(rule: string, rest: string)
    requires rule != ""
    ensures var c, more := rule[0], Escape(rule[1..]) + rest;
      Escape(rule) + rest == if Escapable(c) then ['\\', c] + more else [c] + more
  {
    var c, tail := rule[0], Escape(rule[1..]);
    if Escapable(c) {
      assert (['\\', c] + tail) + rest == ['\\', c] + (tail + rest);
    } else {
      assert ([c] + tail) + rest == [c] + (tail + rest);
    }
  }

  lemma Prepend(c: char, s: string, t: string)
    ensures [c] + (s + t) == ([c] + s) + t
  {
  }

  /** What follows an escaped rule is read by itself. */
  lemma {:induction false} UnescapeThen(rule: string, rest: string)
    ensures Unescape(Escape(rule) + rest) == rule + Unescape(rest)
  {
    if rule == "" {
      assert Escape(rule) + rest == rest && rule + Unescape(rest) == Unescape(rest);
    } else {
      UnescapeThen(rule[1..], rest);
      Prepend(rule[0], rule[1..], Unescape(rest));
      EscapeOne(rule, rest);
      UnescapeOne(rule[0], Escape(rule[1..]) + rest);
      hide Unescape, Escape, Escapable;
      assert rule == [rule[0]] + rule[1..];
    }
  }

  lemma {:induction false} EscapeKeepsEnd(rule: string)
    requires rule != ""
    ensures Escape(rule) != "" && Escape(rule)[|Escape(rule)| - 1] == rule[|rule| - 1]
  {
    if |rule| > 1 {
      EscapeKeepsEnd(rule[1..]);
    } else {
      assert Escape(rule[1..]) == "";
    }
  }

  /** Any rule text can be written in the file: escaped, it is read back unchanged, and a
      leading ! is not taken for negation. */
  lemma EscapedRuleIsReadBack(rule: string)
    requires rule != "" && !Blank(rule[0]) && !Blank(rule[|rule| - 1]) && rule[|rule| - 1] != '\r'
    ensures ReadLine(Escape(rule)) == Some(Line(rule, rule[0] == '!'))
    ensures !Negates(rule, rule[0] == '!')
  {
    UnescapeThen(rule, "");
    EscapeKeepsEnd(rule);
    var s := Escape(rule);
    assert s + "" == s && rule + "" == rule;
    assert DropReturn(s) == s;
    assert !Blank(s[0]) && TrimLeft(s) == s;
    assert TrimRight(rule) == rule;
  }

  lemma {:induction false} NoEscapes(s: string)
    requires '\\' !in s
    ensures Unescape(s) == BeforeHash(s)
  {
    if s != "" {
      assert forall k :: 0 <= k < |s[1..]| ==> s[1..][k] == s[k + 1];
      NoEscapes(s[1..]);
    }
  }

  lemma {:induction false} TrimLeftKeeps(s: string, c: char)
    requires c !in s
    ensures c !in TrimLeft(s)
  {
    if s != "" && Blank(s[0]) {
      assert forall k :: 0 <= k < |s[1..]| ==> s[1..][k] == s[k + 1];
      TrimLeftKeeps(s[1..], c);
    }
  }

  /** The dry-run loader reads a line as the real one does unless it holds a backslash. */
  lemma LoadersAgree(line: string)
    requires '\\' !in line
    ensures ReadLine(line) == ReadDryLine(line)
  {
    var s := DropReturn(line);
    assert forall k :: 0 <= k < |s| ==> s[k] == line[k];
    TrimLeftKeeps(s, '\\');
    NoEscapes(TrimLeft(s));
  }

  /** The file that holds the given rules, escaped, a line each. */
  function Written(rules: seq<string>): string {
    if rules == [] then "" else Escape(rules[0]) + "\n" + Written(rules[1..])
  }

  function Verbatim(rules: seq<string>): seq<Line> {
    seq(|rules|, k requires 0 <= k < |rules| => Line(rules[k], rules[k] != "" && rules[k][0] == '!'))
  }

  predicate Writable(rule: string) {
    rule != "" && !Blank(rule[0]) && !Blank(rule[|rule| - 1]) && rule[|rule| - 1] != '\r' && '\n' !in rule
  }

  lemma {:induction false} EscapeStaysOnLine(rule: string)
    requires '\n' !in rule
    ensures '\n' !in Escape(rule)
  {
    if rule != "" {
      assert rule[0] in rule && forall c :: c in rule[1..] ==> c in rule;
      EscapeStaysOnLine(rule[1..]);
    }
  }

  lemma LineOf(line: string, rest: string)
    requires '\n' !in line
    ensures var text := line + "\n" + rest; text[..LineEnd(text)] == line && AfterLine(text) == rest
  {
    var text := line + "\n" + rest;
    assert text[..|line|] == line && text[|line|] == '\n' && text[|line| + 1..] == rest;
    assert forall j :: 0 <= j < |line| ==> text[j] == line[j] && line[j] in line;
    assert LineEnd(text) == |line|;
  }

  /** Any list of rules can be put in a file: what is loaded is those rules in order, and none of
      them negates. */
  lemma {:induction false} WrittenRulesAreLoaded(rules: seq<string>)
    requires forall k :: 0 <= k < |rules| ==> Writable(rules[k])
    ensures RulesOf(Written(rules), ReadLine) == Verbatim(rules)
    ensures forall l :: l in RulesOf(Written(rules), ReadLine) ==> !Negates(l.text, l.bangEscaped)
  {
    hide ReadLine, Escape, LineEnd, AfterLine;
    if rules != [] {
      WrittenRulesAreLoaded(rules[1..]);
      EscapedRuleIsReadBack(rules[0]);
      EscapeStaysOnLine(rules[0]);
      LineOf(Escape(rules[0]), Written(rules[1..]));
      assert Verbatim(rules) == [Line(rules[0], rules[0][0] == '!')] + Verbatim(rules[1..]);
    }
  }

  /** On files without a backslash the dry run sees the rules the filter will use. */
  lemma {:induction false} DryRunAgrees(text: string)
    requires '\\' !in text
    ensures RulesOf(text, ReadDryLine) == RulesOf(text, ReadLine)
    decreases |text|
  {
    if text != "" {
      var line, rest := text[..LineEnd(text)], AfterLine(text);
      assert forall c :: c in line || c in rest ==> c in text;
      LoadersAgree(line);
      DryRunAgrees(rest);
    }
  }

  // ---------------------------------------------------------------- what does not matter

  predicate AllBlank(s: string) {
    forall k :: 0 <= k < |s| ==> s[k] == ' ' || s[k] == '\t'
  }

  lemma {:induction false} BlanksTrimmed(blanks: string, s: string)
    requires AllBlank(blanks) && (s == "" || !Blank(s[0]))
    ensures TrimLeft(blanks + s) == s
  {
    if blanks == "" {
      assert blanks + s == s;
    } else {
      assert (blanks + s)[1..] == blanks[1..] + s;
      BlanksTrimmed(blanks[1..], s);
    }
  }

  lemma {:induction false} EndTrimmed(s: string, blanks: string)
    requires AllBlank(blanks) && s != "" && !Blank(s[|s| - 1])
    ensures TrimRight(s + blanks) == s
    decreases |blanks|
  {
    if blanks == "" {
      assert s + blanks == s;
    } else {
      assert (s + blanks)[..|s + blanks| - 1] == s + blanks[..|blanks| - 1];
      EndTrimmed(s, blanks[..|blanks| - 1]);
    }
  }

  lemma {:induction false} UnescapeBlanks(blanks: string, comment: string)
    requires AllBlank(blanks) && (comment == "" || comment[0] == '#')
    ensures Unescape(blanks + comment) == blanks
  {
    if blanks == "" {
      assert blanks + comment == comment;
    } else {
      assert (blanks + comment)[1..] == blanks[1..] + comment;
      UnescapeBlanks(blanks[1..], comment);
    }
  }

  lemma RuleThen(rule: string, after: string, comment: string)
    requires rule != "" && !Blank(rule[0]) && !Blank(rule[|rule| - 1])
    requires AllBlank(after) && (comment == "" || comment[0] == '#')
    ensures var s := Escape(rule) + (after + comment);
      && s != "" && !Blank(s[0]) && TrimRight(Unescape(s)) == rule
      && (|s| > 1 && s[0] == '\\' && s[1] == '!' <==> rule[0] == '!')
  {
    UnescapeThen(rule, after + comment);
    UnescapeBlanks(after, comment);
    EndTrimmed(rule, after);
    StartOf(rule, after + comment);
    hide Unescape, TrimRight;
  }

  /** Blanks around a rule, a comment behind it, and a carriage return at the end of the line make
      no difference. */
  lemma AroundRuleNothingMatters(before: string, rule: string, after: string, comment: string)
    requires rule != "" && !Blank(rule[0]) && !Blank(rule[|rule| - 1])
    requires AllBlank(before) && AllBlank(after) && (comment == "" || comment[0] == '#')
    ensures ReadLine(before + Escape(rule) + after + comment + "\r") == Some(Line(rule, rule[0] == '!'))
  {
    var s := Escape(rule) + (after + comment);
    var line := before + Escape(rule) + after + comment + "\r";
    RuleThen(rule, after, comment);
    BlanksTrimmed(before, s);
    InOnePiece(before, Escape(rule), after, comment);
    hide Unescape, TrimRight, TrimLeft, Escape;
    assert line[..|line| - 1] == before + s;
  }

  lemma InOnePiece(a: string, b: string, c: string, d: string)
    ensures a + b + c + d == a + (b + (c + d))
  {
  }

  lemma StartOf(rule: string, rest: string)
    requires rule != ""
    ensures var s := Escape(rule) + rest;
      && (s != "" && (Blank(s[0]) <==> Blank(rule[0])))
      && (|s| > 1 && s[0] == '\\' && s[1] == '!' <==> rule[0] == '!')
  {
    var s, more := Escape(rule) + rest, Escape(rule[1..]);
    if Escapable(rule[0]) { assert Escape(rule) == ['\\', rule[0]] + more && s[1] == rule[0]; }
  }

  /** A line of blanks, or of a comment behind blanks, is no rule. */
  lemma NoRule(before: string, comment: string)
    requires AllBlank(before) && (comment == "" || comment[0] == '#')
    ensures ReadLine(before + comment) == None || '\r' in comment
  {
    var line := before + comment;
    if '\r' !in comment {
      assert line != "" ==> line[|line| - 1] in before || line[|line| - 1] in comment;
      assert DropReturn(line) == line;
      BlanksTrimmed(before, comment);
      assert Unescape(comment) == "";
    }
  }
}
