/** The regular expressions the ignore rules compile to: their text, read with the part of
    the ECMAScript grammar that the compiler emits, and what a whole-string match means. */
module Regex {
  import opened Wrappers

  datatype Item = One(c: char) | Range(lo: char, hi: char)

  datatype Regex =
    | Eps
    | Char(c: char)
    | Any
    | Class(negated: bool, items: seq<Item>)
    | Seq(first: Regex, rest: Regex)
    | Star(body: Regex)
    | Opt(body: Regex)

  /** What a dot does not match. */
  predicate LineBreak(c: char) {
    c == '\n' || c == '\r'
  }

  predicate InItem(item: Item, c: char) {
    match item
    case One(d) => c == d
    case Range(lo, hi) => lo <= c <= hi
  }

  predicate InItems(items: seq<Item>, c: char) {
    exists k :: 0 <= k < |items| && InItem(items[k], c)
  }

  /** The regular expressions that match one character. */
  predicate Single(r: Regex) {
    r.Char? || r.Any? || r.Class?
  }

  predicate MatchesChar(r: Regex, c: char)
    requires Single(r)
  {
    match r
    case Char(d) => c == d
    case Any => !LineBreak(c)
    case Class(negated, items) => InItems(items, c) != negated
  }

  /** Whole-string match. */
  predicate Matches(r: Regex, s: string)
    decreases r, |s|
  {
    match r
    case Eps => s == ""
    case Seq(first, rest) => exists k :: 0 <= k <= |s| && Matches(first, s[..k]) && Matches(rest, s[k..])
    case Star(body) => s == "" || exists k :: 0 < k <= |s| && Matches(body, s[..k]) && Matches(r, s[k..])
    case Opt(body) => s == "" || Matches(body, s)
    case _ => |s| == 1 && MatchesChar(r, s[0])
  }

  // ---------------------------------------------------------------- one step of a match

  lemma SeqOfEps(rest: Regex, s: string)
    ensures Matches(Seq(Eps, rest), s) <==> Matches(rest, s)
  {
    assert s[..0] == "" && s[0..] == s;
    if Matches(Seq(Eps, rest), s) {
      var k :| 0 <= k <= |s| && Matches(Eps, s[..k]) && Matches(rest, s[k..]);
      assert k == 0;
    } else {
      assert !(Matches(Eps, s[..0]) && Matches(rest, s[0..]));
    }
  }

  lemma SeqOfSingle(r: Regex, rest: Regex, s: string)
    requires Single(r)
    ensures Matches(Seq(r, rest), s) <==> s != "" && MatchesChar(r, s[0]) && Matches(rest, s[1..])
  {
    if Matches(Seq(r, rest), s) {
      var k :| 0 <= k <= |s| && Matches(r, s[..k]) && Matches(rest, s[k..]);
      assert k == 1;
    } else if s != "" {
      assert s[..1][0] == s[0];
      assert !(Matches(r, s[..1]) && Matches(rest, s[1..]));
    }
  }

  lemma SeqOfOpt(body: Regex, rest: Regex, s: string)
    ensures Matches(Seq(Opt(body), rest), s) <==> Matches(rest, s) || Matches(Seq(body, rest), s)
  {
    assert s[..0] == "" && s[0..] == s;
    if Matches(Seq(Opt(body), rest), s) {
      var k :| 0 <= k <= |s| && Matches(Opt(body), s[..k]) && Matches(rest, s[k..]);
      if s[..k] == "" { assert k == 0; }
    } else {
      assert !(Matches(Opt(body), s[..0]) && Matches(rest, s[0..]));
      if Matches(Seq(body, rest), s) {
        var k :| 0 <= k <= |s| && Matches(body, s[..k]) && Matches(rest, s[k..]);
        assert Matches(Opt(body), s[..k]);
      }
    }
  }

  lemma SeqMatches(a: Regex, b: Regex, s: string, k: nat)
    requires k <= |s| && Matches(a, s[..k]) && Matches(b, s[k..])
    ensures Matches(Seq(a, b), s)
  {
  }

  lemma SeqSplit(a: Regex, b: Regex, s: string) returns (k: nat)
    requires Matches(Seq(a, b), s)
    ensures k <= |s| && Matches(a, s[..k]) && Matches(b, s[k..])
  {
    k :| 0 <= k <= |s| && Matches(a, s[..k]) && Matches(b, s[k..]);
  }

  lemma SeqAssociates(a: Regex, b: Regex, c: Regex, s: string)
    ensures Matches(Seq(Seq(a, b), c), s) <==> Matches(Seq(a, Seq(b, c)), s)
  {
    if Matches(Seq(Seq(a, b), c), s) { AssociateRight(a, b, c, s); }
    if Matches(Seq(a, Seq(b, c)), s) { AssociateLeft(a, b, c, s); }
  }

  lemma AssociateRight(a: Regex, b: Regex, c: Regex, s: string)
    requires Matches(Seq(Seq(a, b), c), s)
    ensures Matches(Seq(a, Seq(b, c)), s)
  {
    var k := SeqSplit(Seq(a, b), c, s);
    var j := SeqSplit(a, b, s[..k]);
    hide Matches;
    SliceOfSlice(s, j, k - j);
    SeqMatches(b, c, s[j..], k - j);
    SeqMatches(a, Seq(b, c), s, j);
  }

  lemma SliceOfSlice(s: string, j: nat, m: nat)
    requires j + m <= |s|
    ensures s[..j + m][..j] == s[..j] && s[..j + m][j..] == s[j..][..m] && s[j + m..] == s[j..][m..]
  {
  }

  lemma AssociateLeft(a: Regex, b: Regex, c: Regex, s: string)
    requires Matches(Seq(a, Seq(b, c)), s)
    ensures Matches(Seq(Seq(a, b), c), s)
  {
    var j := SeqSplit(a, Seq(b, c), s);
    var m := SeqSplit(b, c, s[j..]);
    hide Matches;
    var k := j + m;
    SliceOfSlice(s, j, m);
    SeqMatches(a, b, s[..k], j);
    SeqMatches(Seq(a, b), c, s, k);
  }

  /** A starred single character either takes nothing, or takes the next character and goes on. */
  lemma SeqOfStar(r: Regex, rest: Regex, s: string)
    requires Single(r)
    ensures Matches(Seq(Star(r), rest), s)
      <==> Matches(rest, s) || (s != "" && MatchesChar(r, s[0]) && Matches(Seq(Star(r), rest), s[1..]))
  {
    StarTakes(r, rest, s);
    if Matches(Seq(Star(r), rest), s) {
      var k := SeqSplit(Star(r), rest, s);
      StarOfSingle(r, s[..k]);
      hide Matches;
      if k == 0 {
        assert s[0..] == s;
      } else {
        SliceOfSlice(s, 1, k - 1);
        SeqMatches(Star(r), rest, s[1..], k - 1);
      }
    }
  }

  lemma StarOfSingle(r: Regex, t: string)
    requires Single(r)
    ensures Matches(Star(r), t) <==> t == "" || (MatchesChar(r, t[0]) && Matches(Star(r), t[1..]))
  {
    if t != "" && MatchesChar(r, t[0]) && Matches(Star(r), t[1..]) {
      assert Matches(r, t[..1]) && Matches(Star(r), t[1..]);
    }
  }

  lemma StarTakes(r: Regex, rest: Regex, s: string)
    requires Single(r)
    ensures Matches(rest, s) ==> Matches(Seq(Star(r), rest), s)
    ensures s != "" && MatchesChar(r, s[0]) && Matches(Seq(Star(r), rest), s[1..]) ==> Matches(Seq(Star(r), rest), s)
  {
    StarOfSingle(r, s[..0]);
    assert s[0..] == s;
    if Matches(rest, s) { SeqMatches(Star(r), rest, s, 0); }
    if s != "" && MatchesChar(r, s[0]) && Matches(Seq(Star(r), rest), s[1..]) {
      var k := SeqSplit(Star(r), rest, s[1..]);
      StarOfSingle(r, s[..k + 1]);
      SliceOfSlice(s, 1, k);
      SeqMatches(Star(r), rest, s, k + 1);
    }
  }

  // ---------------------------------------------------------------- reading the text

  /** Characters that stand for themselves only when escaped. */
  predicate Special(c: char) {
    c in "^$\\.*+?()[]{}|"
  }

  type Parsed = Option<(Regex, string)>

  function ParseSeq(s: string): (p: Parsed)
    ensures p.Some? ==> |p.value.1| <= |s|
    decreases |s|, 2
  {
    if s == "" || s[0] == ')' || s[0] == '$' then Some((Eps, s))
    else
      match ParseTerm(s)
      case None => None
      case Some((term, more)) =>
        match ParseSeq(more)
        case None => None
        case Some((rest, end)) => Some((Seq(term, rest), end))
  }

  function Quantified(atom: Regex, more: string): (p: Parsed)
    ensures p.Some? ==> |p.value.1| <= |more|
  {
    if more == "" then Some((atom, more))
    else if more[0] == '*' then Some((Star(atom), more[1..]))
    else if more[0] == '?' then Some((Opt(atom), more[1..]))
    else if more[0] == '+' || more[0] == '{' then None
    else Some((atom, more))
  }

  function ParseTerm(s: string): (p: Parsed)
    requires s != ""
    ensures p.Some? ==> |p.value.1| < |s|
    decreases |s|, 1
  {
    match ParseAtom(s)
    case None => None
    case Some((atom, more)) => Quantified(atom, more)
  }

  function ParseAtom(s: string): (p: Parsed)
    requires s != ""
    ensures p.Some? ==> |p.value.1| < |s|
    decreases |s|, 0
  {
    if s[0] == '(' then
      match ParseSeq(s[1..])
      case None => None
      case Some((body, more)) => if more != "" && more[0] == ')' then Some((body, more[1..])) else None
    else if s[0] == '.' then Some((Any, s[1..]))
    else if s[0] == '[' then ParseClass(s[1..])
    else if s[0] == '\\' then
      if |s| > 1 && Special(s[1]) then Some((Char(s[1]), s[2..])) else None
    else if s[0] == ']' || !Special(s[0]) then Some((Char(s[0]), s[1..]))
    else None
  }

  /** The characters of a class up to its closing bracket, escapes resolved. */
  function ClassText(s: string): (p: Option<(string, string)>)
    ensures p.Some? ==> |p.value.1| < |s|
  {
    if s == "" then None
    else if s[0] == ']' then Some(("", s[1..]))
    else if s[0] == '\\' then
      if |s| == 1 || !Special(s[1]) then None
      else match ClassText(s[2..])
        case None => None
        case Some((text, more)) => Some(([s[1]] + text, more))
    else match ClassText(s[1..])
      case None => None
      case Some((text, more)) => Some(([s[0]] + text, more))
  }

  /** Single characters and ranges, left to right; a range that runs backwards is an error,
      and the bracketed names of POSIX classes are not read. */
  function ClassItems(text: string): Option<seq<Item>> {
    if text == "" then Some([])
    else if text[0] == '[' && |text| > 1 && text[1] in ":.=" then None
    else if |text| > 2 && text[1] == '-' then
      if text[2] < text[0] then None
      else match ClassItems(text[3..])
        case None => None
        case Some(items) => Some([Range(text[0], text[2])] + items)
    else match ClassItems(text[1..])
      case None => None
      case Some(items) => Some([One(text[0])] + items)
  }

  function ParseClass(s: string): (p: Parsed)
    ensures p.Some? ==> |p.value.1| < |s| + 1
  {
    var negated := s != "" && s[0] == '^';
    match ClassText(if negated then s[1..] else s)
    case None => None
    case Some((text, more)) =>
      match ClassItems(text)
      case None => None
      case Some(items) => Some((Class(negated, items), more))
  }

  /** std::regex on an anchored pattern: None when it would throw. */
  function Compile(text: string): Option<Regex> {
    if text == "" || text[0] != '^' then None
    else
      match ParseSeq(text[1..])
      case None => None
      case Some((r, end)) => if end == "$" then Some(r) else None
  }
}
