/**
 * `MathMate.reformat_block`: the pretty-printer.  Each statement the scanner
 * finds is re-emitted line by line, character by character, under a stack of
 * scopes shared by the whole block: string literals and comments are copied
 * as they are; in source, blanks are dropped (one space is kept between two
 * letters or digits), operators are surrounded by spaces, a comma is
 * followed by one, and every line opens with its indentation.
 */
module Reformat {
  import opened Wrappers
  import Statements
  import Indents

  /** The entries of the scope stack: `"source"`, `"define"`, `"nest"`,
      `"comment"` and `"string"`. */
  datatype Frame = Source | Define | Nest | Comment | Str

  /** The exceptions the source can raise while reformatting: `IndexError`
      from `scope.pop()` or `scope[-1]` on an empty stack, and `TypeError`
      from `None in vsc` when a blank after a letter or digit ends a line
      that has no line break; and `ZeroDivisionError` from `count_indents`
      when no initial level is given and the indent size is zero. */
  datatype Error = IndexError | TypeError | ZeroDivisionError

  /** The stack as `reformat_block` keeps it once a statement has begun: the
      first `"source"` pushed is still at its bottom. */
  predicate Grounded(scope: seq<Frame>)
  {
    scope != [] && scope[0] == Source
  }

  /** The stack is in source: neither a string nor a comment is open. */
  predicate InSource(scope: seq<Frame>)
  {
    Str !in scope && Comment !in scope
  }

  // ---------------------------------------------------------------------------
  // Characters and slices
  // ---------------------------------------------------------------------------

  /** A character of `string.ascii_letters + string.digits`. */
  predicate Alnum(c: char)
  {
    'a' <= c <= 'z' || 'A' <= c <= 'Z' || '0' <= c <= '9'
  }

  /** The text with every space and tab deleted. */
  function Solid(s: string): string
  {
    if s == [] then [] else Solid(s[..|s| - 1]) + if Indents.Indenting(s[|s| - 1]) then [] else [s[|s| - 1]]
  }

  /** Python's `line[pos:pos + n]`, cut short at the end of the line. */
  function Slice(line: string, pos: nat, n: nat): (t: string)
    requires pos <= |line|
    ensures |t| == if pos + n <= |line| then n else |line| - pos
    ensures t == line[pos..pos + |t|]
  {
    if pos + n <= |line| then line[pos..pos + n] else line[pos..]
  }

  /** `nnsc`: the first character at or after `i` that is not a space or a
      tab, if any. */
  function NextSolid(line: string, i: nat): (c: Option<char>)
    requires i <= |line|
    ensures c.None? <==> forall j :: i <= j < |line| ==> Indents.Indenting(line[j])
    ensures c.Some? ==> exists j :: i <= j < |line| && line[j] == c.value && !Indents.Indenting(c.value)
    decreases |line| - i
  {
    if i == |line| then None
    else if !Indents.Indenting(line[i]) then Some(line[i])
    else NextSolid(line, i + 1)
  }

  /** The offset of the first character at or after `i` that is not
      whitespace, or the length of the line. */
  function StripStart(line: string, i: nat): (j: nat)
    requires i <= |line|
    ensures i <= j <= |line|
    ensures forall k :: i <= k < j ==> Indents.Whitespace(line[k])
    ensures j < |line| ==> !Indents.Whitespace(line[j])
    decreases |line| - i
  {
    if i == |line| || !Indents.Whitespace(line[i]) then i else StripStart(line, i + 1)
  }

  /** The first character of `line.strip()`, if any. */
  function FirstNonWhitespace(line: string): (c: Option<char>)
    ensures c.None? <==> forall j :: 0 <= j < |line| ==> Indents.Whitespace(line[j])
  {
    var j := StripStart(line, 0);
    if j < |line| then Some(line[j]) else None
  }

  // ---------------------------------------------------------------------------
  // Lines
  // ---------------------------------------------------------------------------

  /** The length of the line of `s` that goes on at `i`, its break included:
      Python 2 `str.splitlines` breaks at `\n`, `\r` and `\r\n`. */
  function LineLength(s: string, i: nat): (n: nat)
    requires i <= |s|
    ensures i < n <= |s| || n == i == |s|
    decreases |s| - i
  {
    if i == |s| then |s|
    else if s[i] == '\n' then i + 1
    else if s[i] == '\r' then (if i + 1 < |s| && s[i + 1] == '\n' then i + 2 else i + 1)
    else LineLength(s, i + 1)
  }

  /** `statement.splitlines(True)`: the lines of `s`, with their breaks. */
  function SplitLines(s: string): (ls: seq<string>)
    ensures Concat(ls) == s
    ensures forall k :: 0 <= k < |ls| ==> ls[k] != []
    decreases |s|
  {
    if s == [] then []
    else
      var n := LineLength(s, 0);
      var rest := SplitLines(s[n..]);
      ConcatCons(s[..n], rest);
      assert s == s[..n] + s[n..];
      [s[..n]] + rest
  }

  /** `"".join(...)`. */
  function Concat(ls: seq<string>): string
  {
    if ls == [] then "" else Concat(ls[..|ls| - 1]) + ls[|ls| - 1]
  }

  lemma {:induction false} ConcatCons(a: string, rest: seq<string>)
    ensures Concat([a] + rest) == a + Concat(rest)
    decreases |rest|
  {
    if rest != [] {
      var n := |rest| - 1;
      assert ([a] + rest)[..n + 1] == [a] + rest[..n];
      ConcatCons(a, rest[..n]);
    }
  }

  /** `self.indent * n`: `n` copies, none when `n` is not positive. */
  function Repeat(indent: string, n: int): (r: string)
    decreases n
  {
    if n <= 0 then "" else indent + Repeat(indent, n - 1)
  }

  /** `n` copies of the indent make `n` times its length, and hold no solid
      character when the indent is spaces and tabs. */
  lemma {:induction false} RepeatShape(indent: string, n: int)
    ensures |Repeat(indent, n)| == if n <= 0 then 0 else n * |indent|
    ensures Solid(indent) == [] ==> Solid(Repeat(indent, n)) == []
    decreases n
  {
    if n > 0 {
      RepeatShape(indent, n - 1);
      SolidAppend(indent, Repeat(indent, n - 1));
    }
  }

  /** The indentation a line opens with in source: one indent fewer than the
      level when its first non-whitespace character closes a bracket. */
  function Margin(line: string, level: int, indent: string): string
  {
    var first := FirstNonWhitespace(line);
    Repeat(indent, if first.Some? && Closing(first.value) then level - 1 else level)
  }

  // ---------------------------------------------------------------------------
  // One step of the character loop
  // ---------------------------------------------------------------------------

  /** What one step emits, told by the characters it takes from the line:
      how many it takes, whether one space goes before them, whether they
      are kept (a blank in source is dropped), whether one space goes after
      them, and the stack and indent level after the step. */
  datatype Token = Token(width: nat, before: bool, keep: bool, after: bool, scope: seq<Frame>, level: int)

  /** The characters taken, copied as they are. */
  function Copy(width: nat, scope: seq<Frame>, level: int): Token
  {
    Token(width, false, true, false, scope, level)
  }

  /** The characters taken, with one space on either side. */
  function Padded(width: nat, scope: seq<Frame>, level: int): Token
  {
    Token(width, true, true, true, scope, level)
  }

  /** The text a step that starts at `pos` emits. */
  function Emitted(line: string, pos: nat, t: Token): string
    requires pos + t.width <= |line|
  {
    (if t.before then " " else "") + (if t.keep then line[pos..pos + t.width] else "") + (if t.after then " " else "")
  }

  /** The line holds `c` at index `i`. */
  predicate At(line: string, i: int, c: char)
  {
    0 <= i < |line| && line[i] == c
  }

  /** The characters `]`, `}` and `)` that close a bracket. */
  predicate Closing(c: char)
  {
    c == ']' || c == '}' || c == ')'
  }

  /** The operators of three characters: `^:=`, which also opens a
      definition, `===` and `>>>`. */
  predicate Op3(a: char, b: char, c: char)
  {
    (a == '^' && b == ':' && c == '=') ||
    (a == '=' && b == '=' && c == '=') ||
    (a == '>' && b == '>' && c == '>')
  }

  /** The operators of two characters: `:=` and `^=`, which also open a
      definition, then `*^ && || == >= <= ;; /. -> :> @@ <> >> /@ /; // ~~`. */
  predicate Op2(a: char, b: char)
  {
    (a == ':' && b == '=') || (a == '^' && b == '=') ||
    (a == '*' && b == '^') || (a == '&' && b == '&') || (a == '|' && b == '|') ||
    (a == '=' && b == '=') || (a == '>' && b == '=') || (a == '<' && b == '=') ||
    (a == ';' && b == ';') || (a == '/' && b == '.') || (a == '-' && b == '>') ||
    (a == ':' && b == '>') || (a == '@' && b == '@') || (a == '<' && b == '>') ||
    (a == '>' && b == '>') || (a == '/' && b == '@') || (a == '/' && b == ';') ||
    (a == '/' && b == '/') || (a == '~' && b == '~')
  }

  /** The operators of one character: `+ - * / ^ ! > < | ?`, and `=`, which
      also opens a definition. */
  predicate Operator1(c: char)
  {
    c == '+' || c == '-' || c == '*' || c == '/' || c == '^' || c == '!' ||
    c == '>' || c == '<' || c == '|' || c == '?' || c == '='
  }

  /** A slice of three characters that is an operator. */
  predicate Operator3(t: string)
  {
    |t| == 3 && Op3(t[0], t[1], t[2])
  }

  /** A slice of two characters that is an operator. */
  predicate Operator2(t: string)
  {
    |t| == 2 && Op2(t[0], t[1])
  }

  /** One step of the loop inside a string literal: `\"` is copied whole, a
      bare `"` closes the string. */
  function LexString(line: string, pos: nat, scope: seq<Frame>, level: int): (t: Token)
    requires pos < |line| && Grounded(scope) && Str in scope
    ensures 1 <= t.width <= 2 && pos + t.width <= |line| && Grounded(t.scope)
    ensures t.keep && !t.before && !t.after && t.level == level
    ensures t.scope != scope <==> line[pos] == '"'
  {
    if line[pos] == '\\' && At(line, pos + 1, '"') then Copy(2, scope, level)
    else if line[pos] == '"' then
      assert scope[0] != Str;
      Copy(1, scope[..|scope| - 1], level)
    else Copy(1, scope, level)
  }

  /** One step of the loop inside a comment: `\*)` is copied whole, a bare
      `*)` closes the comment. */
  function LexComment(line: string, pos: nat, scope: seq<Frame>, level: int): (t: Token)
    requires pos < |line| && Grounded(scope) && Comment in scope
    ensures 1 <= t.width <= 3 && pos + t.width <= |line| && Grounded(t.scope)
    ensures t.keep && !t.before && !t.after && t.level == level
    ensures t.scope != scope <==> line[pos] == '*' && At(line, pos + 1, ')')
  {
    if line[pos] == '\\' && At(line, pos + 1, '*') && At(line, pos + 2, ')') then Copy(3, scope, level)
    else if line[pos] == '*' && At(line, pos + 1, ')') then
      assert scope[0] != Comment;
      Copy(2, scope[..|scope| - 1], level)
    else Copy(1, scope, level)
  }

  /** A blank in source: dropped, or kept as one space between a letter or
      digit and the next letter or digit of the line. */
  function LexBlank(line: string, pos: nat, scope: seq<Frame>, level: int): (r: Result<Token, Error>)
    requires pos < |line|
    ensures r.Ok? ==> r.value.width == 1 && !r.value.keep && !r.value.after
    ensures r.Ok? ==> r.value.scope == scope && r.value.level == level
  {
    if pos > 0 && Alnum(line[pos - 1]) then
      match NextSolid(line, pos)
      case None => Err(TypeError)
      case Some(c) => Ok(Token(1, Alnum(c), false, false, scope, level))
    else Ok(Token(1, false, false, false, scope, level))
  }

  /** The tokens of two or three characters in source: operators, `..` and
      the opening `(*` of a comment; none when no such token starts here. */
  function LexLong(line: string, pos: nat, scope: seq<Frame>, level: int): (t: Option<Token>)
    requires pos < |line| && Grounded(scope)
    ensures t.Some? ==> 2 <= t.value.width <= 3 && pos + t.value.width <= |line|
    ensures t.Some? ==> t.value.keep && Grounded(t.value.scope)
  {
    var c1 := line[pos];
    if pos + 2 < |line| && Op3(c1, line[pos + 1], line[pos + 2]) then
      if c1 == '^' then Some(Padded(3, scope + [Define], level + 1))
      else Some(Padded(3, scope, level))
    else if pos + 1 < |line| && Op2(c1, line[pos + 1]) then
      if (c1 == ':' || c1 == '^') && line[pos + 1] == '=' then Some(Padded(2, scope + [Define], level + 1))
      else Some(Padded(2, scope, level))
    else if c1 == '.' && At(line, pos + 1, '.') then Some(Token(2, false, true, true, scope, level))
    else if c1 == '(' && At(line, pos + 1, '*') then Some(Copy(2, scope + [Comment], level))
    else None
  }

  /** The single characters in source: brackets, which open and close
      nesting, the comma, the operators, the separators that end a
      definition, the quote that opens a string, and everything else. */
  function LexShort(line: string, pos: nat, scope: seq<Frame>, level: int): (r: Result<Token, Error>)
    requires pos < |line| && Grounded(scope)
    ensures r.Ok? ==> r.value.width == 1 && r.value.keep && Grounded(r.value.scope)
  {
    var c1 := line[pos];
    if c1 == '[' || c1 == '{' || c1 == '(' then Ok(Copy(1, scope + [Nest], level + 1))
    else if Closing(c1) then
      var popped := scope[..|scope| - 1];
      if popped == [] then Err(IndexError)
      else if popped[|popped| - 1] == Define then Ok(Copy(1, popped[..|popped| - 1], level - 2))
      else Ok(Copy(1, popped, level - 1))
    else if c1 == ',' then Ok(Token(1, false, true, true, scope, level))
    else if c1 == '=' then Ok(Padded(1, scope + [Define], level + 1))
    else if Operator1(c1) then Ok(Padded(1, scope, level))
    else if c1 == '&' then Ok(Token(1, true, true, false, scope, level))
    else if c1 == '@' || c1 == ';' || c1 == '#' then
      if scope[|scope| - 1] == Define then Ok(Copy(1, scope[..|scope| - 1], level - 1))
      else Ok(Copy(1, scope, level))
    else if c1 == '"' then Ok(Copy(1, scope + [Str], level))
    else Ok(Copy(1, scope, level))
  }

  /** One step of the loop in source, in the order of the source's tests. */
  function LexSource(line: string, pos: nat, scope: seq<Frame>, level: int): (r: Result<Token, Error>)
    requires pos < |line| && Grounded(scope)
    ensures r.Ok? ==> 1 <= r.value.width <= 3 && pos + r.value.width <= |line| && Grounded(r.value.scope)
    ensures r.Ok? ==> r.value.keep || (r.value.width == 1 && Indents.Indenting(line[pos]) && !r.value.after)
  {
    if Indents.Indenting(line[pos]) then LexBlank(line, pos, scope, level)
    else match LexLong(line, pos, scope, level)
      case Some(t) => Ok(t)
      case None => LexShort(line, pos, scope, level)
  }

  /** Blanks are dropped, but one space is kept between two letters or
      digits; a blank after a letter or digit with nothing but blanks after
      it on the line raises. */
  lemma BlankRule(line: string, pos: nat, scope: seq<Frame>, level: int)
    requires pos < |line| && Grounded(scope) && Indents.Indenting(line[pos])
    ensures var r := LexSource(line, pos, scope, level);
      (r.Err? <==> pos > 0 && Alnum(line[pos - 1]) && NextSolid(line, pos).None?) &&
      (r.Ok? ==>
        r.value.scope == scope &&
        (Emitted(line, pos, r.value) == " " <==>
          pos > 0 && Alnum(line[pos - 1]) && exists c :: NextSolid(line, pos) == Some(c) && Alnum(c)) &&
        (Emitted(line, pos, r.value) == " " || Emitted(line, pos, r.value) == ""))
  {
  }

  /** The slices `c2` and `c3` hold the characters at `pos` and after it, as
      far as the line goes. */
  lemma SliceChars(line: string, pos: nat)
    requires pos < |line|
    ensures var c2 := Slice(line, pos, 2);
      |c2| == (if pos + 1 < |line| then 2 else 1) && c2[0] == line[pos] &&
      (|c2| == 2 ==> c2[1] == line[pos + 1])
    ensures var c3 := Slice(line, pos, 3);
      |c3| == (if pos + 2 < |line| then 3 else |line| - pos) && c3[0] == line[pos] &&
      (|c3| >= 2 ==> c3[1] == line[pos + 1]) && (|c3| == 3 ==> c3[2] == line[pos + 2])
  {
  }

  /** The slice `c2` equals a given two-character text exactly when the two
      characters at `pos` are that text. */
  lemma SliceIs(line: string, pos: nat, a: char, b: char)
    requires pos < |line|
    ensures Slice(line, pos, 2) == [a, b] <==> line[pos] == a && At(line, pos + 1, b)
  {
    SliceChars(line, pos);
  }

  /** A token of `w` characters padded on both sides emits the slice of `w`
      characters with a space on either side. */
  lemma PaddedText(line: string, pos: nat, t: Token, w: nat)
    requires pos + t.width <= |line| && t.width == w && t.before && t.keep && t.after
    ensures Emitted(line, pos, t) == " " + Slice(line, pos, w) + " "
  {
  }

  /** The tokens of two or three characters, in the order they are tested. */
  lemma LongRule(line: string, pos: nat, scope: seq<Frame>, level: int)
    requires pos < |line| && Grounded(scope)
    ensures var t, c2, c3 := LexLong(line, pos, scope, level), Slice(line, pos, 2), Slice(line, pos, 3);
      (Operator3(c3) ==> t.Some? && t.value.width == 3 && Emitted(line, pos, t.value) == " " + c3 + " ") &&
      (!Operator3(c3) && Operator2(c2) ==> t.Some? && t.value.width == 2 && Emitted(line, pos, t.value) == " " + c2 + " ") &&
      (t.None? <==> !Operator3(c3) && !Operator2(c2) && c2 != ".." && c2 != "(*") &&
      (t.Some? ==> (t.value.scope == scope || t.value.scope == scope + [Define] || t.value.scope == scope + [Comment])) &&
      (t.Some? ==> (t.value.scope == scope + [Comment] <==> c2 == "(*"))
  {
    SliceChars(line, pos);
    SliceIs(line, pos, '.', '.');
    SliceIs(line, pos, '(', '*');
    assert (scope + [Define])[|scope|] == Define;
    var t := LexLong(line, pos, scope, level);
    if t.Some? && t.value.before {
      PaddedText(line, pos, t.value, t.value.width);
    }
  }

  /** The single characters, by class. */
  lemma ShortRule(line: string, pos: nat, scope: seq<Frame>, level: int)
    requires pos < |line| && Grounded(scope)
    ensures var r, c1 := LexShort(line, pos, scope, level), line[pos];
      (Operator1(c1) ==> r.Ok? && Emitted(line, pos, r.value) == [' ', c1, ' ']) &&
      (c1 == ',' ==> r.Ok? && Emitted(line, pos, r.value) == ", " && r.value.scope == scope && r.value.level == level) &&
      (Closing(c1) ==> (r.Err? <==> |scope| == 1)) &&
      (r.Ok? ==> (r.value.scope <= scope || r.value.scope == scope + [Nest] ||
                  r.value.scope == scope + [Define] || r.value.scope == scope + [Str])) &&
      (r.Ok? ==> (r.value.scope == scope + [Str] <==> c1 == '"'))
  {
    assert (scope + [Define])[|scope|] == Define;
    assert (scope + [Nest])[|scope|] == Nest;
    assert line[pos..pos + 1] == [line[pos]];
  }

  lemma Dispatch(line: string, pos: nat, scope: seq<Frame>, level: int)
    requires pos < |line| && Grounded(scope)
    ensures Indents.Indenting(line[pos]) ==> LexSource(line, pos, scope, level) == LexBlank(line, pos, scope, level)
    ensures !Indents.Indenting(line[pos]) && LexLong(line, pos, scope, level).Some? ==>
      LexSource(line, pos, scope, level) == Ok(LexLong(line, pos, scope, level).value)
    ensures !Indents.Indenting(line[pos]) && LexLong(line, pos, scope, level).None? ==>
      LexSource(line, pos, scope, level) == LexShort(line, pos, scope, level)
  {
  }

  /** Operators are surrounded by single spaces, the longest match first. */
  lemma OperatorRule(line: string, pos: nat, scope: seq<Frame>, level: int)
    requires pos < |line| && Grounded(scope)
    ensures var r, c2, c3 := LexSource(line, pos, scope, level), Slice(line, pos, 2), Slice(line, pos, 3);
      (Operator3(c3) ==> r.Ok? && r.value.width == 3 && Emitted(line, pos, r.value) == " " + c3 + " ") &&
      (!Operator3(c3) && Operator2(c2) ==> r.Ok? && r.value.width == 2 && Emitted(line, pos, r.value) == " " + c2 + " ") &&
      (!Operator3(c3) && !Operator2(c2) && Operator1(line[pos]) ==>
        r.Ok? && r.value.width == 1 && Emitted(line, pos, r.value) == [' ', line[pos], ' '])
  {
    Dispatch(line, pos, scope, level);
    LongRule(line, pos, scope, level);
    ShortRule(line, pos, scope, level);
    SliceChars(line, pos);
  }

  /** A comma is followed by one space, and opens or closes nothing. */
  lemma CommaRule(line: string, pos: nat, scope: seq<Frame>, level: int)
    requires pos < |line| && Grounded(scope) && line[pos] == ','
    ensures var r := LexSource(line, pos, scope, level);
      r.Ok? && r.value.width == 1 && Emitted(line, pos, r.value) == ", " &&
      r.value.scope == scope && r.value.level == level
  {
    Dispatch(line, pos, scope, level);
    ShortRule(line, pos, scope, level);
  }

  /** A closing bracket pops the nesting it closes, and the definition under
      it, if any; it raises when the pop empties the stack. */
  lemma ClosingRule(line: string, pos: nat, scope: seq<Frame>, level: int)
    requires pos < |line| && Grounded(scope) && Closing(line[pos])
    ensures var r := LexSource(line, pos, scope, level);
      (r.Err? <==> |scope| == 1) &&
      (r.Ok? ==> r.value.scope == scope[..|scope| - (if scope[|scope| - 2] == Define then 2 else 1)])
  {
    Dispatch(line, pos, scope, level);
  }

  /** In source, a string opens only at a `"` and a comment only at `(*`. */
  lemma OpeningRule(line: string, pos: nat, scope: seq<Frame>, level: int)
    requires pos < |line| && Grounded(scope) && InSource(scope)
    ensures var r := LexSource(line, pos, scope, level);
      r.Ok? ==>
        (Str in r.value.scope <==> line[pos] == '"') &&
        (Comment in r.value.scope <==> Slice(line, pos, 2) == "(*")
  {
    Dispatch(line, pos, scope, level);
    LongRule(line, pos, scope, level);
    ShortRule(line, pos, scope, level);
    var r := LexSource(line, pos, scope, level);
    if r.Ok? {
      var s := r.value.scope;
      if s <= scope {
        assert Str !in s && Comment !in s by {
          forall i | 0 <= i < |s| ensures s[i] == scope[i] {}
        }
      }
    }
  }

  /** One step of the loop: the string test first, then the comment test,
      then source.  The stack always holds `"source"` at its bottom, so the
      source's fourth case, where none of the three is on the stack, cannot
      arise. */
  function Lex(line: string, pos: nat, scope: seq<Frame>, level: int): (r: Result<Token, Error>)
    requires pos < |line| && Grounded(scope)
    ensures r.Ok? ==> 1 <= r.value.width <= 3 && pos + r.value.width <= |line| && Grounded(r.value.scope)
    ensures r.Ok? ==> r.value.keep || (r.value.width == 1 && Indents.Indenting(line[pos]) && !r.value.after)
    // string literals and comments are copied character for character
    ensures !InSource(scope) ==> r.Ok? && r.value.keep && !r.value.before && !r.value.after && r.value.level == level
  {
    if Str in scope then Ok(LexString(line, pos, scope, level))
    else if Comment in scope then Ok(LexComment(line, pos, scope, level))
    else LexSource(line, pos, scope, level)
  }

  // ---------------------------------------------------------------------------
  // Only blanks change
  // ---------------------------------------------------------------------------

  lemma {:induction false} SolidAppend(a: string, b: string)
    ensures Solid(a + b) == Solid(a) + Solid(b)
    decreases |b|
  {
    if b == [] {
      assert a + b == a;
    } else {
      var b' := b[..|b| - 1];
      assert (a + b)[..|a + b| - 1] == a + b';
      SolidAppend(a, b');
    }
  }

  /** A step adds or removes nothing but spaces and tabs: it keeps what it
      takes, or drops a single blank. */
  lemma TokenKeepsSolid(line: string, pos: nat, t: Token)
    requires pos + t.width <= |line|
    requires t.keep || (t.width == 1 && Indents.Indenting(line[pos]) && !t.after)
    ensures Solid(Emitted(line, pos, t)) == Solid(line[pos..pos + t.width])
  {
    var taken := line[pos..pos + t.width];
    var kept := if t.keep then taken else "";
    SolidPadded(if t.before then " " else "", kept, if t.after then " " else "");
    if !t.keep {
      SolidBlank(taken);
    }
  }

  /** Spaces around a text add no solid character. */
  lemma SolidPadded(b: string, kept: string, a: string)
    requires b == "" || b == " "
    requires a == "" || a == " "
    ensures Solid(b + kept + a) == Solid(kept)
  {
    assert Solid(b) == [] && Solid(a) == [];
    SolidAppend(b, kept);
    SolidAppend(b + kept, a);
  }

  /** A single blank holds no solid character. */
  lemma SolidBlank(s: string)
    requires |s| == 1 && Indents.Indenting(s[0])
    ensures Solid(s) == []
  {
    assert s[..0] == [];
  }

  /** The indent is made of spaces and tabs, as `self.indent` is. */
  predicate Blanks(indent: string)
  {
    forall i :: 0 <= i < |indent| ==> Indents.Indenting(indent[i])
  }

  lemma {:induction false} BlanksAreNotSolid(s: string)
    requires Blanks(s)
    ensures Solid(s) == []
    decreases |s|
  {
    if s != [] {
      BlanksAreNotSolid(s[..|s| - 1]);
    }
  }

  // ---------------------------------------------------------------------------
  // What the loops compute
  // ---------------------------------------------------------------------------

  /** What a run of steps leaves: the text emitted, the stack and the indent
      level. */
  type Outcome = Result<(string, seq<Frame>, int), Error>

  /** `text` emitted before whatever `r` emits; an error stays the error. */
  function Prepend(text: string, r: Outcome): Outcome
  {
    if r.Err? then r else Ok((text + r.value.0, r.value.1, r.value.2))
  }

  lemma PrependNothing(r: Outcome)
    ensures Prepend([], r) == r
  {
    if r.Ok? {
      assert [] + r.value.0 == r.value.0;
    }
  }

  lemma PrependPrepend(a: string, b: string, r: Outcome)
    ensures Prepend(a, Prepend(b, r)) == Prepend(a + b, r)
  {
    if r.Ok? {
      assert a + (b + r.value.0) == (a + b) + r.value.0;
    }
  }

  /** The steps of the character loop from `pos` to the end of the line. */
  function Emit(line: string, pos: nat, scope: seq<Frame>, level: int): (r: Outcome)
    requires pos <= |line| && Grounded(scope)
    ensures r.Ok? ==> Grounded(r.value.1)
    decreases |line| - pos, 1
  {
    if pos == |line| then Ok(([], scope, level)) else EmitFrom(line, pos, Lex(line, pos, scope, level))
  }

  /** The step at `pos` has given `r`: it raises, or its text comes before
      the steps after it. */
  function EmitFrom(line: string, pos: nat, r: Result<Token, Error>): (o: Outcome)
    requires pos < |line|
    requires r.Ok? ==> 1 <= r.value.width && pos + r.value.width <= |line| && Grounded(r.value.scope)
    ensures o.Ok? ==> Grounded(o.value.1)
    decreases |line| - pos, 0
  {
    match r
    case Err(e) => Err(e)
    case Ok(t) => Prepend(Emitted(line, pos, t), Emit(line, pos + t.width, t.scope, t.level))
  }

  /** One line as the character loop leaves it: when it opens in source, its
      margin comes first. */
  function FormatLine(line: string, scope: seq<Frame>, level: int, indent: string): (r: Outcome)
    requires Grounded(scope)
    ensures r.Ok? ==> Grounded(r.value.1)
  {
    Prepend(if line != [] && InSource(scope) then Margin(line, level, indent) else [], Emit(line, 0, scope, level))
  }

  /** The lines of a statement, one after the other, each starting from the
      stack and level the previous one left. */
  function FormatLines(lines: seq<string>, scope: seq<Frame>, level: int, indent: string): (r: Outcome)
    requires Grounded(scope)
    ensures r.Ok? ==> Grounded(r.value.1)
    decreases |lines|
  {
    if lines == [] then Ok(([], scope, level))
    else match FormatLine(lines[0], scope, level, indent)
      case Err(e) => Err(e)
      case Ok((out, scope', level')) => Prepend(out, FormatLines(lines[1..], scope', level', indent))
  }

  /** One statement: `"source"` pushed on the shared stack, then its lines. */
  function FormatStatement(text: string, scope: seq<Frame>, level: int, indent: string): (r: Outcome)
    requires scope == [] || Grounded(scope)
    ensures r.Ok? ==> Grounded(r.value.1)
  {
    FormatLines(SplitLines(text), scope + [Source], level, indent)
  }

  /** The statements of a block, in order, under one shared stack; each
      starts at the initial level. */
  function FormatStatements(stmts: seq<Statements.Statement>, scope: seq<Frame>, level: int, indent: string)
    : (r: Result<seq<string>, Error>)
    requires scope == [] || Grounded(scope)
    ensures r.Ok? ==> |r.value| == |stmts|
    decreases |stmts|
  {
    if stmts == [] then Ok([])
    else match FormatStatement(stmts[0].text, scope, level, indent)
      case Err(e) => Err(e)
      case Ok((out, scope', _)) =>
        match FormatStatements(stmts[1..], scope', level, indent)
        case Err(e) => Err(e)
        case Ok(rest) => Ok([out] + rest)
  }

  // ---------------------------------------------------------------------------
  // What they preserve
  // ---------------------------------------------------------------------------

  /** One step of `Emit`: the step's text, which matches the characters it
      takes in solid characters, then the steps after it. */
  lemma EmitStep(line: string, pos: nat, scope: seq<Frame>, level: int)
    returns (text: string, next: nat, scope': seq<Frame>, level': int)
    requires pos < |line| && Grounded(scope)
    requires Emit(line, pos, scope, level).Ok?
    ensures pos < next <= |line| && Grounded(scope')
    ensures Emit(line, next, scope', level').Ok?
    ensures Emit(line, pos, scope, level).value.0 == text + Emit(line, next, scope', level').value.0
    ensures Solid(text) == Solid(line[pos..next])
  {
    var t := EmitUnfold(line, pos, scope, level);
    TokenKeepsSolid(line, pos, t);
    text, next, scope', level' := Emitted(line, pos, t), pos + t.width, t.scope, t.level;
  }

  /** What has been emitted, then the steps from `pos`: the first step
      raises, or its text joins what has been emitted. */
  lemma EmitNext(line: string, pos: nat, scope: seq<Frame>, level: int, done: string)
    requires pos < |line| && Grounded(scope)
    ensures var r := Lex(line, pos, scope, level);
      Prepend(done, Emit(line, pos, scope, level)) ==
        if r.Err? then Err(r.error)
        else Prepend(done + Emitted(line, pos, r.value), Emit(line, pos + r.value.width, r.value.scope, r.value.level))
  {
    var r := Lex(line, pos, scope, level);
    if r.Ok? {
      var t := r.value;
      PrependPrepend(done, Emitted(line, pos, t), Emit(line, pos + t.width, t.scope, t.level));
    }
  }

  /** The first step of `Emit`, and the steps after it. */
  lemma EmitUnfold(line: string, pos: nat, scope: seq<Frame>, level: int) returns (t: Token)
    requires pos < |line| && Grounded(scope)
    requires Emit(line, pos, scope, level).Ok?
    ensures 1 <= t.width && pos + t.width <= |line| && Grounded(t.scope)
    ensures t.keep || (t.width == 1 && Indents.Indenting(line[pos]) && !t.after)
    ensures Emit(line, pos, scope, level) == Prepend(Emitted(line, pos, t), Emit(line, pos + t.width, t.scope, t.level))
  {
    t := Lex(line, pos, scope, level).value;
  }

  lemma SolidSplit(line: string, pos: nat, next: nat)
    requires pos <= next <= |line|
    ensures Solid(line[pos..]) == Solid(line[pos..next]) + Solid(line[next..])
  {
    assert line[pos..] == line[pos..next] + line[next..];
    SolidAppend(line[pos..next], line[next..]);
  }

  /** The steps change nothing but spaces and tabs. */
  lemma {:induction false} EmitKeepsSolid(line: string, pos: nat, scope: seq<Frame>, level: int)
    requires pos <= |line| && Grounded(scope)
    requires Emit(line, pos, scope, level).Ok?
    ensures Solid(Emit(line, pos, scope, level).value.0) == Solid(line[pos..])
    decreases |line| - pos
  {
    if pos < |line| {
      var text, next, scope', level' := EmitStep(line, pos, scope, level);
      EmitKeepsSolid(line, next, scope', level');
      SolidAppend(text, Emit(line, next, scope', level').value.0);
      SolidSplit(line, pos, next);
    }
  }

  /** A line changes only in spaces and tabs, its margin included, when the
      indent is made of them. */
  lemma FormatLineKeepsSolid(line: string, scope: seq<Frame>, level: int, indent: string)
    requires Grounded(scope) && Blanks(indent)
    requires FormatLine(line, scope, level, indent).Ok?
    ensures Solid(FormatLine(line, scope, level, indent).value.0) == Solid(line)
  {
    var out := Emit(line, 0, scope, level).value.0;
    EmitKeepsSolid(line, 0, scope, level);
    assert line[0..] == line;
    var m := if line != [] && InSource(scope) then Margin(line, level, indent) else [];
    MarginIsBlank(line, level, indent);
    SolidBehind(m, out, line);
  }

  /** The margin is made of copies of a blank indent, so it holds no solid
      character. */
  lemma MarginIsBlank(line: string, level: int, indent: string)
    requires Blanks(indent)
    ensures Solid(Margin(line, level, indent)) == []
  {
    var first := FirstNonWhitespace(line);
    BlanksAreNotSolid(indent);
    RepeatShape(indent, if first.Some? && Closing(first.value) then level - 1 else level);
  }

  lemma SolidBehind(m: string, out: string, line: string)
    requires Solid(m) == [] && Solid(out) == Solid(line)
    ensures Solid(m + out) == Solid(line)
  {
    SolidAppend(m, out);
  }

  /** Inside a string literal that the rest of the line does not close, the
      rest is copied as it is and the stack stays as it was. */
  lemma {:induction false} EmitQuoted(line: string, pos: nat, scope: seq<Frame>, level: int)
    requires pos <= |line| && Grounded(scope) && Str in scope
    requires forall j :: pos <= j < |line| ==> line[j] != '"'
    ensures Emit(line, pos, scope, level) == Ok((line[pos..], scope, level))
    decreases |line| - pos
  {
    if pos < |line| {
      assert !At(line, pos + 1, '"');
      var t := Copy(1, scope, level);
      assert Lex(line, pos, scope, level) == Ok(t);
      EmitQuoted(line, pos + 1, scope, level);
      assert Emitted(line, pos, t) == line[pos..pos + 1];
      assert line[pos..] == line[pos..pos + 1] + line[pos + 1..];
    }
  }

  /** A line that begins inside a string literal and holds no `"` is copied
      verbatim: no margin, no spacing, and the string stays open. */
  lemma QuotedLineIsVerbatim(line: string, scope: seq<Frame>, level: int, indent: string)
    requires Grounded(scope) && Str in scope && '"' !in line
    ensures FormatLine(line, scope, level, indent) == Ok((line, scope, level))
  {
    forall j | 0 <= j < |line| ensures line[j] != '"' {
      assert line[j] in line;
    }
    EmitQuoted(line, 0, scope, level);
    assert line[0..] == line;
    PrependNothing(Emit(line, 0, scope, level));
  }

  /** A line that opens in source starts with its margin. */
  lemma LineOpensWithMargin(line: string, scope: seq<Frame>, level: int, indent: string)
    requires Grounded(scope) && InSource(scope) && line != []
    requires FormatLine(line, scope, level, indent).Ok?
    ensures var out, m := FormatLine(line, scope, level, indent).value.0, Margin(line, level, indent);
      |m| <= |out| && out[..|m|] == m
  {
  }

  /** The lines of a statement change only in spaces and tabs. */
  lemma {:induction false} FormatLinesKeepsSolid(lines: seq<string>, scope: seq<Frame>, level: int, indent: string)
    requires Grounded(scope) && Blanks(indent)
    requires FormatLines(lines, scope, level, indent).Ok?
    ensures Solid(FormatLines(lines, scope, level, indent).value.0) == Solid(Concat(lines))
    decreases |lines|
  {
    if lines != [] {
      var (out, scope', level') := FormatLine(lines[0], scope, level, indent).value;
      FormatLineKeepsSolid(lines[0], scope, level, indent);
      FormatLinesKeepsSolid(lines[1..], scope', level', indent);
      SolidAppend(out, FormatLines(lines[1..], scope', level', indent).value.0);
      ConcatCons(lines[0], lines[1..]);
      assert lines == [lines[0]] + lines[1..];
      SolidAppend(lines[0], Concat(lines[1..]));
    }
  }

  /** Every statement of a block changes only in spaces and tabs. */
  lemma {:induction false} FormatStatementsKeepSolid(stmts: seq<Statements.Statement>, scope: seq<Frame>, level: int, indent: string)
    requires (scope == [] || Grounded(scope)) && Blanks(indent)
    requires FormatStatements(stmts, scope, level, indent).Ok?
    ensures SolidEach(FormatStatements(stmts, scope, level, indent).value, stmts)
    decreases |stmts|
  {
    if stmts != [] {
      var head := FormatStatement(stmts[0].text, scope, level, indent).value;
      var rest := FormatStatements(stmts[1..], head.1, level, indent).value;
      FormatLinesKeepsSolid(SplitLines(stmts[0].text), scope + [Source], level, indent);
      FormatStatementsKeepSolid(stmts[1..], head.1, level, indent);
      SolidEachCons(head.0, rest, stmts);
    }
  }

  /** Each output matches its statement in solid characters. */
  ghost predicate SolidEach(outs: seq<string>, stmts: seq<Statements.Statement>)
  {
    |outs| == |stmts| && forall k :: 0 <= k < |stmts| ==> Solid(outs[k]) == Solid(stmts[k].text)
  }

  lemma SolidEachCons(out: string, rest: seq<string>, stmts: seq<Statements.Statement>)
    requires stmts != [] && Solid(out) == Solid(stmts[0].text) && SolidEach(rest, stmts[1..])
    ensures SolidEach([out] + rest, stmts)
  {
    forall k | 0 < k < |stmts| ensures Solid(([out] + rest)[k]) == Solid(stmts[k].text) {
      assert ([out] + rest)[k] == rest[k - 1] && stmts[k] == stmts[1..][k - 1];
    }
  }

  /** A reformatted block has one output per statement, and the outputs,
      joined, differ from the block only in spaces and tabs when the indent
      is made of them. */
  lemma BlockKeepsSolid(block: string, stmts: seq<Statements.Statement>, level: int, indent: string)
    requires Statements.Split(block, stmts) && Blanks(indent)
    requires FormatStatements(stmts, [], level, indent).Ok?
    ensures var outs := FormatStatements(stmts, [], level, indent).value;
      |outs| == |stmts| && Solid(Concat(outs)) == Solid(block)
  {
    FormatStatementsKeepSolid(stmts, [], level, indent);
    SolidJoined(FormatStatements(stmts, [], level, indent).value, stmts, block);
  }

  // ---------------------------------------------------------------------------
  // The loops
  // ---------------------------------------------------------------------------

  /** The character loop over one line. */
  method ReformatLine(line: string, scope: seq<Frame>, level: int, indent: string) returns (r: Outcome)
    requires Grounded(scope)
    ensures r == FormatLine(line, scope, level, indent)
  {
    var result := "";
    var stack := scope;
    var indentLevel := level;
    var pos := 0;
    while pos < |line|
      invariant 0 <= pos <= |line| && Grounded(stack)
      invariant pos == 0 ==> result == [] && stack == scope && indentLevel == level
      invariant pos > 0 ==> FormatLine(line, scope, level, indent) == Prepend(result, Emit(line, pos, stack, indentLevel))
      decreases |line| - pos
    {
      if pos == 0 && InSource(stack) {
        result := result + Margin(line, indentLevel, indent);
      }
      if pos == 0 {
        LineStart(line, scope, level, indent, result);
      }
      var step := Lex(line, pos, stack, indentLevel);
      EmitNext(line, pos, stack, indentLevel, result);
      if step.Err? {
        return Err(step.error);
      }
      var t := step.value;
      result := result + Emitted(line, pos, t);
      stack := t.scope;
      indentLevel := t.level;
      pos := pos + t.width;
    }
    if pos == 0 {
      PrependNothing(Emit(line, 0, stack, indentLevel));
    } else {
      assert result + [] == result;
    }
    return Ok((result, stack, indentLevel));
  }

  /** A line that is not empty opens with its margin when it opens in
      source, then its steps. */
  lemma LineStart(line: string, scope: seq<Frame>, level: int, indent: string, margin: string)
    requires Grounded(scope) && line != []
    requires margin == [] + if InSource(scope) then Margin(line, level, indent) else []
    ensures FormatLine(line, scope, level, indent) == Prepend(margin, Emit(line, 0, scope, level))
  {
    var m := if InSource(scope) then Margin(line, level, indent) else [];
    assert [] + m == m;
  }

  /** The line loop of one statement, with `"source"` pushed first. */
  method ReformatStatement(text: string, scope: seq<Frame>, level: int, indent: string) returns (r: Outcome)
    requires scope == [] || Grounded(scope)
    ensures r == FormatStatement(text, scope, level, indent)
  {
    var stack := scope + [Source];
    var indentLevel := level;
    var result := "";
    var lines := SplitLines(text);
    assert lines[0..] == lines;
    PrependNothing(FormatLines(lines, stack, indentLevel, indent));
    for k := 0 to |lines|
      invariant Grounded(stack)
      invariant FormatStatement(text, scope, level, indent) == Prepend(result, FormatLines(lines[k..], stack, indentLevel, indent))
    {
      var step := ReformatLine(lines[k], stack, indentLevel, indent);
      assert lines[k..][1..] == lines[k + 1..];
      if step.Err? {
        return Err(step.error);
      }
      var (out, stack', level') := step.value;
      PrependPrepend(result, out, FormatLines(lines[k + 1..], stack', level', indent));
      result := result + out;
      stack := stack';
      indentLevel := level';
    }
    assert result + [] == result;
    return Ok((result, stack, indentLevel));
  }

  /** `reformat_block(block, initial_indent_level)`: the statements of the
      block, each reformatted under the stack the previous ones left.
      Without an initial level, the block's own indentation is used. */
  method ReformatBlock(block: string, initialIndentLevel: Option<int>, indent: string, indentSize: int)
    returns (r: Result<seq<string>, Error>)
    ensures forall stmts: seq<Statements.Statement> | Statements.Split(block, stmts) ::
      r == FormatBlock(stmts, InitialLevel(block, initialIndentLevel, indentSize), indent)
    ensures r == Err(ZeroDivisionError) <==>
      initialIndentLevel.None? && !Indents.Countable(block, indentSize)
    ensures block == [] ==> r == Ok([])
  {
    var stmts := Statements.GetStatements(block);
    Statements.PartitionTexts(stmts, block);
    var initial: int;
    if initialIndentLevel.Some? {
      initial := initialIndentLevel.value;
    } else {
      var counted := Indents.CountIndents(block, indentSize);
      if counted.None? {
        r := Err(ZeroDivisionError);
        forall other | Statements.Split(block, other)
          ensures r == FormatBlock(other, InitialLevel(block, initialIndentLevel, indentSize), indent)
        {
        }
        return;
      }
      initial := counted.value;
    }
    r := ReformatStatements(stmts, initial, indent);
    StatementsRaise(stmts, [], initial, indent);
    forall other | Statements.Split(block, other)
      ensures r == FormatBlock(other, InitialLevel(block, initialIndentLevel, indentSize), indent)
    {
      Statements.SplitUnique(block, stmts, other);
    }
  }

  /** Only `count_indents` divides: the statement loop raises `IndexError`
      or `TypeError`, never `ZeroDivisionError`. */
  lemma {:induction false} StatementsRaise(stmts: seq<Statements.Statement>, scope: seq<Frame>, level: int, indent: string)
    requires scope == [] || Grounded(scope)
    ensures var r := FormatStatements(stmts, scope, level, indent);
      r.Err? ==> r.error == IndexError || r.error == TypeError
    decreases |stmts|
  {
    if stmts != [] {
      LinesRaise(SplitLines(stmts[0].text), scope + [Source], level, indent);
      var head := FormatStatement(stmts[0].text, scope, level, indent);
      if head.Ok? {
        StatementsRaise(stmts[1..], head.value.1, level, indent);
      }
    }
  }

  lemma {:induction false} LinesRaise(lines: seq<string>, scope: seq<Frame>, level: int, indent: string)
    requires Grounded(scope)
    ensures var r := FormatLines(lines, scope, level, indent);
      r.Err? ==> r.error == IndexError || r.error == TypeError
    decreases |lines|
  {
    if lines != [] {
      EmitRaises(lines[0], 0, scope, level);
      var head := FormatLine(lines[0], scope, level, indent);
      if head.Ok? {
        LinesRaise(lines[1..], head.value.1, head.value.2, indent);
      }
    }
  }

  lemma {:induction false} EmitRaises(line: string, pos: nat, scope: seq<Frame>, level: int)
    requires pos <= |line| && Grounded(scope)
    ensures var r := Emit(line, pos, scope, level);
      r.Err? ==> r.error == IndexError || r.error == TypeError
    decreases |line| - pos
  {
    if pos < |line| {
      LexRaises(line, pos, scope, level);
      var t := Lex(line, pos, scope, level);
      if t.Ok? {
        EmitRaises(line, pos + t.value.width, t.value.scope, t.value.level);
      }
    }
  }

  /** A step raises `IndexError` at a closing bracket or `TypeError` at a
      blank, nothing else. */
  lemma LexRaises(line: string, pos: nat, scope: seq<Frame>, level: int)
    requires pos < |line| && Grounded(scope)
    ensures var t := Lex(line, pos, scope, level);
      t.Err? ==> t.error == IndexError || t.error == TypeError
  {
    if Str !in scope && Comment !in scope && !Indents.Indenting(line[pos]) && LexLong(line, pos, scope, level).None? {
      var t := LexShort(line, pos, scope, level);
      assert t.Err? ==> t.error == IndexError;
    }
  }

  /** The outcome of the block once its initial level is settled: the
      error `count_indents` raised, or what its statements give. */
  function FormatBlock(stmts: seq<Statements.Statement>, initial: Result<int, Error>, indent: string): Result<seq<string>, Error>
  {
    if initial.Err? then Err(initial.error) else FormatStatements(stmts, [], initial.value, indent)
  }

  /** The statement loop of `reformat_block`: each statement reformatted
      under the stack the previous ones left, each starting at `level`. */
  method ReformatStatements(stmts: seq<Statements.Statement>, level: int, indent: string)
    returns (r: Result<seq<string>, Error>)
    ensures r == FormatStatements(stmts, [], level, indent)
  {
    var scope: seq<Frame> := [];
    ghost var all := FormatStatements(stmts, [], level, indent);
    var indented: seq<string> := [];
    assert stmts[0..] == stmts;
    GlueNothing(all);
    for k := 0 to |stmts|
      invariant scope == [] || Grounded(scope)
      invariant all == Glue(indented, FormatStatements(stmts[k..], scope, level, indent))
    {
      var step := ReformatStatement(stmts[k].text, scope, level, indent);
      StatementsStep(stmts, k, scope, level, indent, indented, step);
      if step.Err? {
        return Err(step.error);
      }
      indented := indented + [step.value.0];
      scope := step.value.1;
    }
    assert indented + [] == indented;
    return Ok(indented);
  }

  /** The statements from the `k`-th, behind the outputs `done`: the
      `k`-th raises, or its output joins `done` and the statements after it
      follow under the stack it leaves. */
  lemma StatementsStep(stmts: seq<Statements.Statement>, k: nat, scope: seq<Frame>, level: int, indent: string,
                       done: seq<string>, head: Outcome)
    requires k < |stmts| && (scope == [] || Grounded(scope))
    requires head == FormatStatement(stmts[k].text, scope, level, indent)
    ensures head.Ok? ==> Grounded(head.value.1)
    ensures Glue(done, FormatStatements(stmts[k..], scope, level, indent)) ==
      if head.Err? then Err(head.error)
      else Glue(done + [head.value.0], FormatStatements(stmts[k + 1..], head.value.1, level, indent))
  {
    assert stmts[k..][1..] == stmts[k + 1..];
    if head.Ok? {
      GlueGlue(done, head.value.0, FormatStatements(stmts[k + 1..], head.value.1, level, indent));
    }
  }

  /** The level every statement starts at: the one given, or else the
      indentation of the block. */
  function InitialLevel(block: string, initialIndentLevel: Option<int>, indentSize: int): Result<int, Error>
  {
    if initialIndentLevel.Some? then Ok(initialIndentLevel.value)
    else if Indents.Countable(block, indentSize) then Ok(Indents.Indentation(block, indentSize))
    else Err(ZeroDivisionError)
  }

  /** The outputs `done` ahead of whatever `r` yields; an error stays the
      error. */
  function Glue(done: seq<string>, r: Result<seq<string>, Error>): Result<seq<string>, Error>
  {
    if r.Err? then r else Ok(done + r.value)
  }

  lemma GlueNothing(r: Result<seq<string>, Error>)
    ensures Glue([], r) == r
  {
    if r.Ok? {
      assert [] + r.value == r.value;
    }
  }

  lemma GlueGlue(done: seq<string>, out: string, r: Result<seq<string>, Error>)
    ensures Glue(done, Glue([out], r)) == Glue(done + [out], r)
  {
    if r.Ok? {
      assert done + ([out] + r.value) == (done + [out]) + r.value;
    }
  }

  /** Outputs that match their statements in solid characters match the
      whole block in them once joined. */
  lemma SolidJoined(outs: seq<string>, stmts: seq<Statements.Statement>, block: string)
    requires Statements.Split(block, stmts) && |outs| == |stmts|
    requires forall k :: 0 <= k < |stmts| ==> Solid(outs[k]) == Solid(stmts[k].text)
    ensures Solid(Concat(outs)) == Solid(block)
  {
    Statements.PartitionTexts(stmts, block);
    SolidTexts(outs, stmts);
  }

  lemma {:induction false} SolidTexts(outs: seq<string>, stmts: seq<Statements.Statement>)
    requires |outs| == |stmts|
    requires forall k :: 0 <= k < |stmts| ==> Solid(outs[k]) == Solid(stmts[k].text)
    ensures Solid(Concat(outs)) == Solid(Statements.Texts(stmts))
    decreases |outs|
  {
    if outs != [] {
      var n := |outs| - 1;
      SolidTexts(outs[..n], stmts[..n]);
      SolidAppend(Concat(outs[..n]), outs[n]);
      SolidAppend(Statements.Texts(stmts[..n]), stmts[n].text);
    }
  }
}
