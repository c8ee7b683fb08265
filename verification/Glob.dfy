/** The glob compiler: the text it emits, and the glob's own meaning by a matcher that knows no
    regular expressions. */
module Glob {
  import opened Regex

  // ---------------------------------------------------------------- the compiler

  /** The index of the first closing bracket from a position on, or the length. */
  function FindClose(p: string, from: nat): (close: nat)
    requires from <= |p|
    ensures from <= close <= |p|
    ensures close < |p| ==> p[close] == ']'
    ensures forall k :: from <= k < close ==> p[k] != ']'
    decreases |p| - from
  {
    if from == |p| || p[from] == ']' then from else FindClose(p, from + 1)
  }

  function EscapeClass(content: string): (text: string) {
    if content == "" then "" else (if content[0] == '\\' then "\\\\" else [content[0]]) + EscapeClass(content[1..])
  }

  /** The class text between its brackets: a leading ! becomes ^. */
  function EmitClass(content: string): string {
    if content != "" && content[0] == '!' then "^" + EscapeClass(content[1..]) else EscapeClass(content)
  }

  /** A character outside wildcards and classes. */
  function EmitChar(c: char): string {
    if c == '\\' then "/"
    else if c in ".+(){}^$|[" then ['\\', c]
    else [c]
  }

  /** How many characters of the pattern the next piece of output stands for. */
  function PieceLength(p: string): (n: nat)
    requires p != ""
    ensures 0 < n <= |p|
  {
    if p[0] == '*' && |p| > 1 && p[1] == '*' then
      if |p| > 2 && p[2] == '/' then 3 else 2
    else if p[0] == '[' && FindClose(p, 1) < |p| then FindClose(p, 1) + 1
    else 1
  }

  function Piece(p: string): string
    requires p != ""
  {
    if p[0] == '*' && |p| > 1 && p[1] == '*' then
      if |p| > 2 && p[2] == '/' then "(.*/)?" else ".*"
    else if p[0] == '*' then "[^/]*"
    else if p[0] == '?' then "[^/]"
    else if p[0] == '[' && FindClose(p, 1) < |p| then "[" + EmitClass(p[1..FindClose(p, 1)]) + "]"
    else EmitChar(p[0])
  }

  function Emit(p: string): string {
    if p == "" then "" else Piece(p) + Emit(p[PieceLength(p)..])
  }

  /** A glob taken apart: what is left of the pattern, whether it is rooted, whether it names
      a directory. */
  datatype Parts = Parts(pattern: string, rooted: bool, isDir: bool)

  function Split(glob: string): Parts {
    var isDir := glob != "" && glob[|glob| - 1] == '/';
    var body := if isDir then glob[..|glob| - 1] else glob;
    if body != "" && body[0] == '/' then Parts(body[1..], true, isDir)
    else Parts(body, '/' in body, isDir)
  }

  function RegexText(glob: string): string {
    var s := Split(glob);
    (if s.rooted then "^" else "^(.*/)?") + Emit(s.pattern) + (if s.isDir then "(/.*)?$" else "$")
  }

  /** The index loop of the compiler. */
  method GlobToRegex(glob: string) returns (regex: string)
    ensures regex == RegexText(glob)
  {
    regex := "^";
    var isDir := false;
    var pattern := glob;
    if pattern != "" && pattern[|pattern| - 1] == '/' {
      isDir := true;
      pattern := pattern[..|pattern| - 1];
    }
    var rooted := false;
    if pattern != "" && pattern[0] == '/' {
      rooted := true;
      pattern := pattern[1..];
    } else if '/' in pattern {
      rooted := true;
    }
    assert Split(glob) == Parts(pattern, rooted, isDir);
    if !rooted { regex := regex + "(.*/)?"; }
    assert regex == if rooted then "^" else "^(.*/)?";
    var body := EmitPattern(pattern);
    regex := regex + body;
    if isDir { regex := regex + "(/.*)?$"; } else { regex := regex + "$"; }
  }

  method EmitPattern(pattern: string) returns (regex: string)
    ensures regex == Emit(pattern)
  {
    regex := "";
    var i := 0;
    while i < |pattern|
      invariant i <= |pattern|
      invariant regex + Emit(pattern[i..]) == Emit(pattern)
    {
      var piece, next := NextPiece(pattern, i);
      assert pattern[i..][PieceLength(pattern[i..])..] == pattern[next..];
      assert regex + (piece + Emit(pattern[next..])) == (regex + piece) + Emit(pattern[next..]);
      regex, i := regex + piece, next;
    }
    assert pattern[i..] == "";
  }

  /** A bracket: a class if it is closed, or itself. */
  method ClassPiece(pattern: string, i: nat) returns (piece: string, next: nat)
    requires i < |pattern| && pattern[i] == '['
    ensures piece == Piece(pattern[i..]) && next == i + PieceLength(pattern[i..])
  {
    var close := FindClose(pattern, i + 1);
    FindCloseShift(pattern, i, 1);
    next := i + 1;
    if close == |pattern| {
      piece := "\\[";
    } else {
      var content := EmitClassAt(pattern, i + 1, close);
      assert pattern[i..][1..close - i] == pattern[i + 1..close];
      piece, next := "[" + content + "]", close + 1;
    }
  }

  method NextPiece(pattern: string, i: nat) returns (piece: string, next: nat)
    requires i < |pattern|
    ensures piece == Piece(pattern[i..]) && next == i + PieceLength(pattern[i..])
  {
    var c := pattern[i];
    next := i + 1;
    if c == '*' && i + 1 < |pattern| && pattern[i + 1] == '*' {
      if i + 2 < |pattern| && pattern[i + 2] == '/' {
        piece, next := "(.*/)?", i + 3;
      } else if i == 0 || pattern[i - 1] == '/' {
        piece, next := ".*", i + 2;
      } else {
        piece, next := ".*", i + 2;
      }
    } else if c == '*' {
      piece := "[^/]*";
    } else if c == '?' {
      piece := "[^/]";
    } else if c == '[' {
      piece, next := ClassPiece(pattern, i);
    } else {
      piece := EmitChar(c);
    }
  }

  method EmitClassAt(pattern: string, from: nat, close: nat) returns (text: string)
    requires from <= close <= |pattern|
    ensures text == EmitClass(pattern[from..close])
  {
    var negated := from < close && pattern[from] == '!';
    ghost var content := pattern[from..close];
    var j := if negated then from + 1 else from;
    assert content != "" ==> content[0] == pattern[from];
    assert pattern[j..close] == if negated then content[1..] else content;
    var body := EscapeAt(pattern, j, close);
    text := if negated then "^" + body else body;
  }

  method EscapeAt(pattern: string, from: nat, close: nat) returns (text: string)
    requires from <= close <= |pattern|
    ensures text == EscapeClass(pattern[from..close])
  {
    text := "";
    for j := from to close
      invariant text + EscapeClass(pattern[j..close]) == EscapeClass(pattern[from..close])
    {
      var piece := if pattern[j] == '\\' then "\\\\" else [pattern[j]];
      assert pattern[j..close][1..] == pattern[j + 1..close];
      assert text + (piece + EscapeClass(pattern[j + 1..close])) == (text + piece) + EscapeClass(pattern[j + 1..close]);
      text := text + piece;
    }
    assert pattern[close..close] == "";
  }

  lemma {:induction false} FindCloseShift(p: string, i: nat, from: nat)
    requires i + from <= |p|
    ensures FindClose(p, i + from) == i + FindClose(p[i..], from)
    decreases |p| - i - from
  {
    if i + from < |p| && p[i + from] != ']' {
      FindCloseShift(p, i, from + 1);
    }
  }

  // ---------------------------------------------------------------- the glob's own meaning

  /** A class negates on a leading ! and, since it is copied, on a leading ^. */
  function ClassParts(content: string): (bool, string) {
    if content != "" && (content[0] == '!' || content[0] == '^') then (true, content[1..]) else (false, content)
  }

  predicate InClass(content: string, c: char)
    requires ClassItems(ClassParts(content).1).Some?
  {
    var (negated, body) := ClassParts(content);
    InItems(ClassItems(body).value, c) != negated
  }

  /** The class a pattern starts with, if any, is one std::regex accepts. */
  predicate PieceReadable(p: string)
    requires p != ""
  {
    p[0] == '[' && FindClose(p, 1) < |p| ==> ClassItems(ClassParts(p[1..FindClose(p, 1)]).1).Some?
  }

  predicate ClassesReadable(p: string) {
    p == "" || (PieceReadable(p) && ClassesReadable(p[PieceLength(p)..]))
  }

  /** Where a pattern may end in a path: at its end, and for a directory before any descendant. */
  predicate Ends(t: string, isDir: bool) {
    t == "" || (isDir && t[0] == '/' && forall k :: 0 < k < |t| ==> !LineBreak(t[k]))
  }

  /** The glob matcher: pattern and path consumed from the left. */
  predicate GlobMatches(p: string, t: string, isDir: bool)
    requires ClassesReadable(p)
    decreases |p|, |t|, 0
  {
    if p == "" then Ends(t, isDir)
    else
      var rest := p[PieceLength(p)..];
      if p[0] == '*' && |p| > 1 && p[1] == '*' then
        if |p| > 2 && p[2] == '/' then
          GlobMatches(rest, t, isDir) || BelowSomeDirectory(rest, t, isDir)
        else
          GlobMatches(rest, t, isDir) || (t != "" && !LineBreak(t[0]) && GlobMatches(p, t[1..], isDir))
      else if p[0] == '*' then
        GlobMatches(rest, t, isDir) || (t != "" && t[0] != '/' && GlobMatches(p, t[1..], isDir))
      else if t == "" then false
      else if p[0] == '?' then t[0] != '/' && GlobMatches(rest, t[1..], isDir)
      else if p[0] == '[' && FindClose(p, 1) < |p| then
        InClass(p[1..FindClose(p, 1)], t[0]) && GlobMatches(rest, t[1..], isDir)
      else t[0] == (if p[0] == '\\' then '/' else p[0]) && GlobMatches(rest, t[1..], isDir)
  }

  /** The pattern matches what follows some slash of the path. */
  predicate BelowSomeDirectory(p: string, t: string, isDir: bool)
    requires ClassesReadable(p)
    decreases |p|, |t|, 1
  {
    t != "" && !LineBreak(t[0])
    && ((t[0] == '/' && GlobMatches(p, t[1..], isDir)) || BelowSomeDirectory(p, t[1..], isDir))
  }

  predicate Readable(glob: string) {
    ClassesReadable(Split(glob).pattern)
  }

  /** What a glob means for a whole path. */
  predicate Means(glob: string, path: string)
    requires Readable(glob)
  {
    var s := Split(glob);
    GlobMatches(s.pattern, path, s.isDir) || (!s.rooted && BelowSomeDirectory(s.pattern, path, s.isDir))
  }
}
