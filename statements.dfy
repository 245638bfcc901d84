/**
 * `MathMate.get_statements`: the scanner that cuts a Mathematica document
 * into statements.  It walks the text in four scopes (between statements,
 * source, string, comment) and keeps a bracket depth; a `;` in source at depth
 * zero ends a statement, and the blanks after it belong to that statement.
 */
module Statements {

  /** One statement: where it starts and ends (line, index in the line and
      offset in the document) and its text. */
  datatype Statement = Statement(startLine: int, startIndex: int, startPos: int,
                                 endLine: int, endIndex: int, endPos: int, text: string)

  /** The scanner's scopes: between statements, and the three inside one. */
  datatype Scope = Next | Source | Str | Comment

  /** What one step of the scan reads: its width, and the scope and the
      bracket depth after it. */
  datatype Move = Move(width: nat, scope: Scope, level: int)

  /** The characters skipped between statements. */
  predicate Blank(c: char)
  {
    c == ' ' || c == '\t' || c == '\n'
  }

  predicate AllBlank(s: string)
  {
    forall i :: 0 <= i < |s| ==> Blank(s[i])
  }

  /** The two characters `a`, `b` start at `i`. */
  predicate At2(s: string, i: int, a: char, b: char)
  {
    0 <= i && i + 1 < |s| && s[i] == a && s[i + 1] == b
  }

  /** The three characters `a`, `b`, `c` start at `i`. */
  predicate At3(s: string, i: int, a: char, b: char, c: char)
  {
    0 <= i && i + 2 < |s| && s[i] == a && s[i + 1] == b && s[i + 2] == c
  }

  /** The number of newlines in `s`. */
  function Newlines(s: string): nat
  {
    if s == [] then 0 else Newlines(s[..|s| - 1]) + if s[|s| - 1] == '\n' then 1 else 0
  }

  /** The offset where the last line of `s` starts: just after its last
      newline, or 0. */
  function LineStart(s: string): (r: nat)
    ensures r <= |s|
    ensures r > 0 ==> s[r - 1] == '\n'
    ensures forall i :: r <= i < |s| ==> s[i] != '\n'
  {
    if s == [] then 0
    else if s[|s| - 1] == '\n' then |s|
    else LineStart(s[..|s| - 1])
  }

  /** One token of a statement in the source, string or comment scope: how
      many characters it takes, and the scope and bracket depth after it. */
  function Step(block: string, pos: nat, scope: Scope, level: int): (r: Move)
    requires pos < |block| && scope != Next
    ensures 1 <= r.width <= 3 && pos + r.width <= |block|
    ensures forall i :: pos < i < pos + r.width ==> block[i] != '\n'
    // a `;` ends the statement only in source and at depth zero
    ensures r.scope == Next <==> scope == Source && level == 0 && block[pos] == ';'
    // brackets count only in source
    ensures scope != Source ==> r.level == level
    ensures scope == Source && r.scope == Source ==>
      r.width == 1 && r.level == level + (if block[pos] in "[({" then 1 else if block[pos] in "])}" then -1 else 0)
    // `(*` opens a comment and `"` a string, from source only
    ensures r.scope == Comment && scope != Comment ==> scope == Source && At2(block, pos, '(', '*')
    ensures r.scope == Str && scope != Str ==> scope == Source && block[pos] == '"'
    ensures scope == Source && (At2(block, pos, '(', '*') || block[pos] == '"') ==> r.scope != Source
    // only an unescaped `"` closes a string
    ensures scope == Str ==> (r.scope == Source <==> block[pos] == '"') && r.scope != Comment
    ensures scope == Str && At2(block, pos, '\\', '"') ==> r == Move(2, Str, level)
    // only an unescaped `*)` closes a comment
    ensures scope == Comment ==> (r.scope == Source <==> At2(block, pos, '*', ')')) && r.scope != Str
    ensures scope == Comment && At3(block, pos, '\\', '*', ')') ==> r == Move(3, Comment, level)
  {
    if scope == Source then
      if At2(block, pos, '(', '*') then Move(2, Comment, level)
      else if level == 0 && block[pos] == ';' then Move(1, Next, level)
      else if block[pos] in "[({" then Move(1, Source, level + 1)
      else if block[pos] in "])}" then Move(1, Source, level - 1)
      else if block[pos] == '"' then Move(1, Str, level)
      else Move(1, Source, level)
    else if scope == Str then
      if At2(block, pos, '\\', '"') then Move(2, Str, level)
      else if block[pos] == '"' then Move(1, Source, level)
      else Move(1, Str, level)
    else
      assert scope == Comment;
      if At3(block, pos, '\\', '*', ')') then Move(3, Comment, level)
      else if At2(block, pos, '*', ')') then Move(2, Source, level)
      else Move(1, Comment, level)
  }

  // ---------------------------------------------------------------------------
  // Where statements end
  // ---------------------------------------------------------------------------

  /** Where the body of a statement ends, scanning from `pos` in `scope` at
      depth `level`: just after the `;` that takes the scan from source at
      depth zero back between statements, or else at the end of the block. */
  function BodyEnd(block: string, pos: nat, scope: Scope, level: int): (e: nat)
    requires pos <= |block| && scope != Next
    ensures pos <= e <= |block|
    ensures pos < |block| ==> pos < e
    ensures e < |block| ==> block[e - 1] == ';'
    decreases |block| - pos
  {
    if pos == |block| then pos
    else
      var r := Step(block, pos, scope, level);
      if r.scope == Next then pos + r.width else BodyEnd(block, pos + r.width, r.scope, r.level)
  }

  /** The first offset at or after `pos` that does not hold a blank, or the
      end of the block. */
  function SkipBlanks(block: string, pos: nat): (e: nat)
    requires pos <= |block|
    ensures pos <= e <= |block|
    ensures forall i :: pos <= i < e ==> Blank(block[i])
    ensures e < |block| ==> !Blank(block[e])
    decreases |block| - pos
  {
    if pos == |block| || !Blank(block[pos]) then pos else SkipBlanks(block, pos + 1)
  }

  /** Where the statement that starts at `start` ends: leading blanks run up
      to the first non-blank; any other statement runs from source at depth
      zero through the `;` that ends its body, then through the blanks after
      it. */
  function StatementEnd(block: string, start: nat): (e: nat)
    requires start < |block|
    ensures start < e <= |block|
  {
    if Blank(block[start]) then SkipBlanks(block, start)
    else SkipBlanks(block, BodyEnd(block, start, Source, 0))
  }

  /** The offset of the last step of the scan from `pos`, when the block ends
      inside this statement: the start of the token that reaches the end, or,
      once a `;` has ended the body, the last character, since the blanks
      after it are read one at a time. */
  function LastStep(block: string, pos: nat, scope: Scope, level: int): (q: nat)
    requires pos < |block| && scope != Next
    ensures pos <= q < |block| <= q + 3
    decreases |block| - pos
  {
    var r := Step(block, pos, scope, level);
    if r.scope == Next then |block| - 1
    else if pos + r.width == |block| then pos
    else LastStep(block, pos + r.width, r.scope, r.level)
  }

  /** The offset the scan reads last, when the last statement starts at
      `start`. */
  function LastRead(block: string, start: nat): (q: nat)
    requires start < |block|
    ensures start <= q < |block|
  {
    if Blank(block[start]) then |block| - 1 else LastStep(block, start, Source, 0)
  }

  /** A `;` in source at depth zero ends the body there; inside brackets, a
      string or a comment it does not. */
  lemma SemicolonEndsBody(block: string, pos: nat, scope: Scope, level: int)
    requires pos < |block| && block[pos] == ';' && scope != Next
    requires scope != Comment || !At2(block, pos, '*', ')')
    ensures scope == Source && level == 0 ==> BodyEnd(block, pos, scope, level) == pos + 1
    ensures !(scope == Source && level == 0) ==> BodyEnd(block, pos, scope, level) == BodyEnd(block, pos + 1, scope, level)
  {
  }

  /** Every statement ends where `StatementEnd` says. */
  ghost predicate Ended(block: string, stmts: seq<Statement>)
  {
    forall k :: 0 <= k < |stmts| ==>
      0 <= stmts[k].startPos < |block| && stmts[k].endPos == StatementEnd(block, stmts[k].startPos)
  }

  lemma EndedSnoc(block: string, stmts: seq<Statement>, s: Statement)
    requires Ended(block, stmts)
    requires 0 <= s.startPos < |block| && s.endPos == StatementEnd(block, s.startPos)
    ensures Ended(block, stmts + [s])
  {
  }

  /** What the scan knows about the open statement.  Between statements the
      depth is zero, and once something has been read the statement's end is
      the next non-blank and the last character is the last one read.
      Inside a statement, scanning on from here reaches the same body end,
      and the same last step, as scanning from its start. */
  ghost predicate Tracking(block: string, ssPos: int, pos: int, scope: Scope, level: int, q: int)
  {
    0 <= ssPos <= pos <= |block| &&
    if scope == Next then
      level == 0 &&
      (ssPos < pos ==>
        StatementEnd(block, ssPos) == SkipBlanks(block, pos) && q == pos - 1 &&
        LastRead(block, ssPos) == |block| - 1)
    else
      ssPos < |block| && !Blank(block[ssPos]) &&
      BodyEnd(block, ssPos, Source, 0) == BodyEnd(block, pos, scope, level) &&
      (pos < |block| ==> LastStep(block, ssPos, Source, 0) == LastStep(block, pos, scope, level)) &&
      (pos == |block| ==> q == LastStep(block, ssPos, Source, 0))
  }

  lemma TrackBlank(block: string, ssPos: int, pos: int, q: int)
    requires Tracking(block, ssPos, pos, Next, 0, q)
    requires pos < |block| && Blank(block[pos])
    ensures Tracking(block, ssPos, pos + 1, Next, 0, pos)
  {
  }

  /** A non-blank between statements: the open statement, if any, ends here,
      and the next one starts here in source at depth zero. */
  lemma TrackStart(block: string, stmts: seq<Statement>, ssPos: int, pos: int, level: int, q: int,
                   stmts': seq<Statement>, s: Statement)
    requires Tracking(block, ssPos, pos, Next, level, q) && Ended(block, stmts)
    requires pos < |block| && !Blank(block[pos])
    requires s.startPos == ssPos && s.endPos == pos
    requires stmts' == if ssPos < pos then stmts + [s] else stmts
    ensures Tracking(block, pos, pos, Source, level, pos) && Ended(block, stmts')
  {
    if ssPos < pos {
      EndedSnoc(block, stmts, s);
    }
  }

  lemma TrackStep(block: string, ssPos: int, pos: int, scope: Scope, level: int, q: int,
                  pos': int, scope': Scope, level': int)
    requires Tracking(block, ssPos, pos, scope, level, q)
    requires pos < |block| && scope != Next
    requires var r := Step(block, pos, scope, level); pos' == pos + r.width && scope' == r.scope && level' == r.level
    ensures Tracking(block, ssPos, pos', scope', level', pos)
  {
  }

  /** At the end of the block the open statement ends there, and the last
      offset read is the one `LastRead` names. */
  lemma TrackDone(block: string, ssPos: int, scope: Scope, level: int, q: int)
    requires Tracking(block, ssPos, |block|, scope, level, q) && ssPos < |block|
    ensures StatementEnd(block, ssPos) == |block| && q == LastRead(block, ssPos)
  {
  }

  // ---------------------------------------------------------------------------
  // What a list of statements must be
  // ---------------------------------------------------------------------------

  /** The statements cut `block[..upTo]` into consecutive nonempty pieces,
      each holding the text of its own range. */
  ghost predicate Covers(stmts: seq<Statement>, block: string, upTo: int)
    decreases |stmts|
  {
    if stmts == [] then upTo == 0
    else
      var s := stmts[|stmts| - 1];
      s.endPos == upTo && 0 <= s.startPos < s.endPos <= |block| &&
      s.text == block[s.startPos..s.endPos] &&
      Covers(stmts[..|stmts| - 1], block, s.startPos)
  }

  /** The statements partition the whole block. */
  ghost predicate Partition(stmts: seq<Statement>, block: string)
  {
    Covers(stmts, block, |block|)
  }

  /** What covering means statement by statement. */
  lemma {:induction false} CoversEach(stmts: seq<Statement>, block: string, upTo: int)
    requires Covers(stmts, block, upTo)
    ensures 0 <= upTo <= |block|
    ensures stmts == [] <==> upTo == 0
    ensures stmts != [] ==> stmts[0].startPos == 0 && stmts[|stmts| - 1].endPos == upTo
    ensures forall k :: 0 <= k < |stmts| ==>
      0 <= stmts[k].startPos < stmts[k].endPos <= upTo &&
      stmts[k].text == block[stmts[k].startPos..stmts[k].endPos]
    ensures forall k :: 0 < k < |stmts| ==> stmts[k].startPos == stmts[k - 1].endPos
    decreases |stmts|
  {
    if stmts != [] {
      var n := |stmts| - 1;
      CoversEach(stmts[..n], block, stmts[n].startPos);
      assert forall k :: 0 <= k < n ==> stmts[..n][k] == stmts[k];
    }
  }

  /** The line and index fields of a start or an end offset: one more than
      the newlines before it, and the distance from the start of its line. */
  ghost predicate StartsAt(block: string, s: Statement)
    requires 0 <= s.startPos <= |block|
  {
    s.startLine == 1 + Newlines(block[..s.startPos]) &&
    s.startIndex == s.startPos - LineStart(block[..s.startPos])
  }

  ghost predicate EndsAt(block: string, s: Statement)
    requires 0 <= s.endPos <= |block|
  {
    s.endLine == 1 + Newlines(block[..s.endPos]) &&
    s.endIndex == s.endPos - LineStart(block[..s.endPos])
  }

  /** A statement body up to its closing `;`, then blanks. */
  predicate Closed(s: string)
  {
    exists n :: 0 < n <= |s| && s[n - 1] == ';' && AllBlank(s[n..])
  }

  /** How a statement looks: leading blanks of the block stand alone; any
      other statement starts with a non-blank character. */
  predicate Shaped(s: string, first: bool)
  {
    s != [] && ((first && AllBlank(s)) || !Blank(s[0]))
  }

  function Texts(stmts: seq<Statement>): string
  {
    if stmts == [] then "" else Texts(stmts[..|stmts| - 1]) + stmts[|stmts| - 1].text
  }

  /** The statement texts put back together give the block. */
  lemma {:induction false} TextsCover(stmts: seq<Statement>, block: string, upTo: int)
    requires Covers(stmts, block, upTo)
    ensures Texts(stmts) == block[..upTo]
    decreases |stmts|
  {
    if stmts != [] {
      var n := |stmts| - 1;
      var start := stmts[n].startPos;
      TextsCover(stmts[..n], block, start);
      assert block[..upTo] == block[..start] + block[start..upTo];
    }
  }

  lemma PartitionTexts(stmts: seq<Statement>, block: string)
    requires Partition(stmts, block)
    ensures Texts(stmts) == block
    ensures block == [] <==> stmts == []
  {
    TextsCover(stmts, block, |block|);
    CoversEach(stmts, block, |block|);
    assert block[..|block|] == block;
  }

  // ---------------------------------------------------------------------------
  // Step lemmas for the scanner loop
  // ---------------------------------------------------------------------------

  /** Line facts after consuming `block[pos..pos + k]`, whose only possible
      newline is its first character. */
  lemma Advance(block: string, pos: nat, k: nat)
    requires 1 <= k && pos + k <= |block|
    requires forall i :: pos < i < pos + k ==> block[i] != '\n'
    ensures Newlines(block[..pos + k]) == Newlines(block[..pos]) + if block[pos] == '\n' then 1 else 0
    ensures LineStart(block[..pos + k]) == if block[pos] == '\n' then pos + 1 else LineStart(block[..pos])
    decreases k
  {
    if k == 1 {
      assert block[..pos + 1][..pos] == block[..pos];
    } else {
      Advance(block, pos, k - 1);
      assert block[..pos + k][..pos + k - 1] == block[..pos + k - 1];
    }
  }

  lemma Extend(block: string, a: nat, b: nat, c: nat)
    requires a <= b <= c <= |block|
    ensures block[a..b] + block[b..c] == block[a..c]
  {
  }

  lemma ClosedSemicolon(s: string)
    requires s != [] && s[|s| - 1] == ';'
    ensures Closed(s)
  {
    assert AllBlank(s[|s|..]);
  }

  lemma ClosedBlank(s: string, c: char)
    requires Closed(s) && Blank(c)
    ensures Closed(s + [c])
  {
    var n :| 0 < n <= |s| && s[n - 1] == ';' && AllBlank(s[n..]);
    assert (s + [c])[n..] == s[n..] + [c];
  }

  /** The next statement's range, where the last cut left off. */
  lemma Flush(stmts: seq<Statement>, block: string, s: Statement)
    requires Covers(stmts, block, s.startPos)
    requires 0 <= s.startPos < s.endPos <= |block| && s.text == block[s.startPos..s.endPos]
    ensures Covers(stmts + [s], block, s.endPos)
  {
    assert (stmts + [s])[..|stmts|] == stmts;
  }

  /** The invariant of the scanner's loop, apart from its line counters. */
  ghost predicate Scanning(block: string, stmts: seq<Statement>, ssPos: int, pos: int,
                           scope: Scope, current: string)
  {
    0 <= ssPos <= pos <= |block| &&
    current == block[ssPos..pos] &&
    Covers(stmts, block, ssPos) &&
    Cut(block, stmts) &&
    (scope == Next ==>
      (ssPos == 0 && AllBlank(current)) ||
      (current != [] && !Blank(current[0]) && Closed(current))) &&
    (scope != Next ==> ssPos < |block| && !Blank(block[ssPos]))
  }

  /** The statements cut so far: their fields agree with their offsets, they
      are shaped, and each ends with a `;` and blanks unless it is the leading
      blanks. */
  ghost predicate Cut(block: string, stmts: seq<Statement>)
  {
    forall k :: 0 <= k < |stmts| ==>
      0 <= stmts[k].startPos <= stmts[k].endPos <= |block| &&
      StartsAt(block, stmts[k]) && EndsAt(block, stmts[k]) &&
      Shaped(stmts[k].text, k == 0) &&
      (Blank(stmts[k].text[0]) || Closed(stmts[k].text))
  }

  lemma ScanBlank(block: string, stmts: seq<Statement>, ssPos: int, pos: int, current: string)
    requires Scanning(block, stmts, ssPos, pos, Next, current)
    requires pos < |block| && Blank(block[pos])
    ensures Scanning(block, stmts, ssPos, pos + 1, Next, current + [block[pos]])
  {
    Extend(block, ssPos, pos, pos + 1);
    if current != [] && !Blank(current[0]) {
      ClosedBlank(current, block[pos]);
    }
  }

  lemma ScanStep(block: string, stmts: seq<Statement>, ssPos: int, pos: int, scope: Scope, level: int,
                 current: string, pos': int, scope': Scope, current': string)
    requires Scanning(block, stmts, ssPos, pos, scope, current)
    requires pos < |block| && scope != Next
    requires var r := Step(block, pos, scope, level);
      pos' == pos + r.width && scope' == r.scope && current' == current + block[pos..pos']
    ensures Scanning(block, stmts, ssPos, pos', scope', current')
  {
    Extend(block, ssPos, pos, pos');
    assert current'[0] == block[ssPos];
    if scope' == Next {
      ClosedSemicolon(current');
    }
  }


  lemma ScanCut(block: string, stmts: seq<Statement>, ssPos: int, pos: int, current: string, s: Statement)
    requires Scanning(block, stmts, ssPos, pos, Next, current)
    requires pos < |block| && !Blank(block[pos]) && current != []
    requires s.startPos == ssPos && s.endPos == pos && s.text == current
    requires LinesAt(block, ssPos, s.startLine, ssPos - s.startIndex)
    requires LinesAt(block, pos, s.endLine, pos - s.endIndex)
    ensures Scanning(block, stmts + [s], pos, pos, Source, [])
  {
    Flush(stmts, block, s);
    CoversEach(stmts, block, ssPos);
    var stmts' := stmts + [s];
    assert Shaped(s.text, |stmts| == 0);
    forall k | 0 <= k < |stmts'|
      ensures 0 <= stmts'[k].startPos <= stmts'[k].endPos <= |block| &&
        StartsAt(block, stmts'[k]) && EndsAt(block, stmts'[k]) &&
        Shaped(stmts'[k].text, k == 0) && (Blank(stmts'[k].text[0]) || Closed(stmts'[k].text))
    {
      if k < |stmts| {
        assert stmts'[k] == stmts[k];
      }
    }
  }

  lemma ScanStart(block: string, stmts: seq<Statement>, pos: int, current: string)
    requires Scanning(block, stmts, pos, pos, Next, current)
    requires pos < |block| && !Blank(block[pos])
    ensures Scanning(block, stmts, pos, pos, Source, [])
  {
  }

  /** The scan's line counters at offset `pos`. */
  ghost predicate LinesAt(block: string, pos: int, line: int, lineStart: int)
    requires 0 <= pos <= |block|
  {
    line == 1 + Newlines(block[..pos]) && lineStart == LineStart(block[..pos])
  }

  /** The counters after the newline check on `block[pos]`, and after the
      token of `k` characters starting there. */
  lemma AdvanceLines(block: string, pos: nat, k: nat, line: int, lineStart: int)
    requires 1 <= k && pos + k <= |block|
    requires forall i :: pos < i < pos + k ==> block[i] != '\n'
    requires LinesAt(block, pos, line, lineStart)
    ensures var nl := block[pos] == '\n';
      LinesAt(block, pos + k, if nl then line + 1 else line, if nl then pos + 1 else lineStart)
  {
    Advance(block, pos, k);
  }

  lemma StayLines(block: string, pos: nat, line: int, lineStart: int)
    requires pos < |block| && block[pos] != '\n'
    requires LinesAt(block, pos, line, lineStart)
    ensures LinesAt(block, pos + 1, line, lineStart)
    ensures IndexAt(block, pos) == pos - lineStart
  {
    Advance(block, pos, 1);
  }

  lemma IndexLines(block: string, pos: nat, line: int, lineStart: int)
    requires pos < |block|
    requires LinesAt(block, pos, line, lineStart)
    ensures IndexAt(block, pos) == pos - (if block[pos] == '\n' then pos + 1 else lineStart)
  {
    Advance(block, pos, 1);
  }

  /** The index in its line of the character at `q`, as the scan records it. */
  function IndexAt(block: string, q: int): int
    requires 0 <= q < |block|
  {
    q - LineStart(block[..q + 1])
  }

  /** What `get_statements` returns for a block.  The statements partition
      the block; each ends where `StatementEnd` says, so a `;` cuts only in
      source at depth zero; their line and index fields agree with their
      offsets; leading blanks form their own statement and every other
      statement starts with a non-blank character; every statement but the
      last ends with a `;` and blanks.  The last statement ends on the last
      line, and its index is that of the offset the scan reads last. */
  ghost predicate Split(block: string, stmts: seq<Statement>)
  {
    Partition(stmts, block) && Ended(block, stmts) &&
    (forall k :: 0 <= k < |stmts| ==>
      0 <= stmts[k].startPos <= stmts[k].endPos <= |block| &&
      StartsAt(block, stmts[k]) &&
      Shaped(stmts[k].text, k == 0) &&
      (k < |stmts| - 1 ==> EndsAt(block, stmts[k]) && (Blank(stmts[k].text[0]) || Closed(stmts[k].text)))) &&
    (stmts != [] ==>
      stmts[|stmts| - 1].endLine == 1 + Newlines(block) &&
      0 <= stmts[|stmts| - 1].startPos < |block| &&
      stmts[|stmts| - 1].endIndex == IndexAt(block, LastRead(block, stmts[|stmts| - 1].startPos)))
  }

  /** `Split` leaves no choice: a block has exactly one list of statements,
      so whatever meets it is what `get_statements` returns. */
  lemma SplitUnique(block: string, a: seq<Statement>, b: seq<Statement>)
    requires Split(block, a) && Split(block, b)
    ensures a == b
  {
    SameLength(block, a, b);
    forall k | 0 <= k < |a|
      ensures a[k] == b[k]
    {
      SameStatement(block, a, b, k);
    }
  }

  lemma SameLength(block: string, a: seq<Statement>, b: seq<Statement>)
    requires Split(block, a) && Split(block, b)
    ensures |a| == |b|
  {
    NotLonger(block, a, b);
    NotLonger(block, b, a);
  }

  lemma NotLonger(block: string, a: seq<Statement>, b: seq<Statement>)
    requires Split(block, a) && Split(block, b)
    ensures |b| <= |a|
  {
    OnlyLastAtEnd(block, a);
    OnlyLastAtEnd(block, b);
    if 0 < |a| < |b| {
      SplitChained(block, a);
      SplitChained(block, b);
      SameEnd(block, a, b, |a| - 1);
    }
  }

  /** A split is empty exactly for the empty block, and only its last
      statement reaches the end of the block. */
  lemma OnlyLastAtEnd(block: string, stmts: seq<Statement>)
    requires Split(block, stmts)
    ensures stmts == [] <==> block == []
    ensures stmts != [] ==> stmts[|stmts| - 1].endPos == |block|
    ensures forall k :: 0 <= k < |stmts| - 1 ==> stmts[k].endPos < |block|
  {
    CoversEach(stmts, block, |block|);
    forall k | 0 <= k < |stmts| - 1
      ensures stmts[k].endPos < |block|
    {
      EndsEarly(block, stmts, k);
    }
  }

  /** Two splits end their `k`th statements at the same offset. */
  lemma SameEnd(block: string, a: seq<Statement>, b: seq<Statement>, k: nat)
    requires Chained(block, a) && Chained(block, b) && k < |a| && k < |b|
    ensures a[k].endPos == b[k].endPos
  {
    SameStart(block, a, b, k);
  }

  /** Only the last statement of a split reaches the end of the block. */
  lemma EndsEarly(block: string, stmts: seq<Statement>, k: nat)
    requires Split(block, stmts) && k + 1 < |stmts|
    ensures stmts[k].endPos < |block|
  {
    CoversEach(stmts, block, |block|);
    assert stmts[k + 1].startPos == stmts[k].endPos;
  }


  lemma SameStatement(block: string, a: seq<Statement>, b: seq<Statement>, k: nat)
    requires Split(block, a) && Split(block, b) && |a| == |b| && k < |a|
    ensures a[k] == b[k]
  {
    SplitChained(block, a);
    SplitChained(block, b);
    SameStart(block, a, b, k);
    SameEnd(block, a, b, k);
    Placement(block, a, k);
    Placement(block, b, k);
  }

  /** The statement a split holds over `block[p..e]`: its fields are fixed by
      the two offsets and by whether it is the last one. */
  ghost function Placed(block: string, p: int, e: int, last: bool): Statement
    requires 0 <= p < e <= |block|
  {
    Statement(1 + Newlines(block[..p]), p - LineStart(block[..p]), p,
              if last then 1 + Newlines(block) else 1 + Newlines(block[..e]),
              if last then IndexAt(block, LastRead(block, p)) else e - LineStart(block[..e]),
              e, block[p..e])
  }

  lemma Placement(block: string, stmts: seq<Statement>, k: nat)
    requires Split(block, stmts) && k < |stmts|
    ensures 0 <= stmts[k].startPos < stmts[k].endPos <= |block|
    ensures stmts[k] == Placed(block, stmts[k].startPos, stmts[k].endPos, k == |stmts| - 1)
  {
    CoversEach(stmts, block, |block|);
  }

  /** `;` cuts in source at depth zero, and not inside brackets. */
  lemma CutAtSemicolon()
    ensures StatementEnd("a;b", 0) == 2 && StatementEnd("a;b", 2) == 3
  {
    assert Step("a;b", 0, Source, 0) == Move(1, Source, 0);
    assert Step("a;b", 1, Source, 0) == Move(1, Next, 0);
  }

  lemma NoCutInBrackets()
    ensures StatementEnd("f[a;b]", 0) == 6
  {
    var b := "f[a;b]";
    assert Step(b, 0, Source, 0) == Move(1, Source, 0);
    assert Step(b, 1, Source, 0) == Move(1, Source, 1);
    assert Step(b, 2, Source, 1) == Move(1, Source, 1);
    assert Step(b, 3, Source, 1) == Move(1, Source, 1);
    assert Step(b, 4, Source, 1) == Move(1, Source, 1);
    assert Step(b, 5, Source, 1) == Move(1, Source, 0);
  }

  /** So `a;b` splits into `a;` and `b`. */
  lemma SplitAtSemicolon(stmts: seq<Statement>)
    requires Split("a;b", stmts)
    ensures |stmts| == 2 && stmts[0].text == "a;" && stmts[1].text == "b"
  {
    CutAtSemicolon();
    SplitInTwo("a;b", stmts, 2);
  }

  /** And `f[a;b]` stays whole. */
  lemma SplitKeepsBrackets(stmts: seq<Statement>)
    requires Split("f[a;b]", stmts)
    ensures |stmts| == 1 && stmts[0].text == "f[a;b]"
  {
    NoCutInBrackets();
    SplitWhole("f[a;b]", stmts);
  }

  /** A block whose first statement runs to its end is one statement. */
  lemma SplitWhole(block: string, stmts: seq<Statement>)
    requires Split(block, stmts) && |block| > 0 && StatementEnd(block, 0) == |block|
    ensures |stmts| == 1 && stmts[0].text == block
  {
    CoversEach(stmts, block, |block|);
    if |stmts| > 1 {
      EndsEarly(block, stmts, 0);
    }
  }

  /** A block whose first statement ends at `m`, the second at the end of
      the block, is two statements. */
  lemma SplitInTwo(block: string, stmts: seq<Statement>, m: int)
    requires Split(block, stmts) && 0 < m < |block|
    requires StatementEnd(block, 0) == m && StatementEnd(block, m) == |block|
    ensures |stmts| == 2 && stmts[0].text == block[..m] && stmts[1].text == block[m..]
  {
    CoversEach(stmts, block, |block|);
    if |stmts| > 2 {
      EndsEarly(block, stmts, 1);
    }
  }

  /** The statements of two splits start at the same offsets. */
  /** What fixes the start offsets of a split: the first starts the block,
      each ends where `StatementEnd` says and the next starts there. */
  ghost predicate Chained(block: string, stmts: seq<Statement>)
  {
    (stmts != [] ==> stmts[0].startPos == 0) &&
    (forall k :: 0 < k < |stmts| ==> stmts[k].startPos == stmts[k - 1].endPos) &&
    Ended(block, stmts)
  }

  lemma SplitChained(block: string, stmts: seq<Statement>)
    requires Split(block, stmts)
    ensures Chained(block, stmts)
  {
    CoversEach(stmts, block, |block|);
  }

  lemma {:induction false} SameStart(block: string, a: seq<Statement>, b: seq<Statement>, k: nat)
    requires Chained(block, a) && Chained(block, b) && k < |a| && k < |b|
    ensures a[k].startPos == b[k].startPos
    decreases k
  {
    if k > 0 {
      SameStart(block, a, b, k - 1);
    }
  }

  /** The whole invariant of the scanner's loop: the cut so far, and the line
      counters at the scan position and at the start of the open statement. */
  ghost predicate Scan(block: string, stmts: seq<Statement>, ssPos: int, pos: int, scope: Scope,
                       current: string, line: int, lineStart: int, ssLine: int, ssIndex: int)
  {
    Scanning(block, stmts, ssPos, pos, scope, current) &&
    LinesAt(block, pos, line, lineStart) &&
    LinesAt(block, ssPos, ssLine, ssPos - ssIndex)
  }

  /** The index last recorded, taken at `q`, at most three characters back. */
  ghost predicate Indexed(block: string, pos: int, q: int, lineIndex: int)
  {
    pos > 0 ==> 0 <= q < |block| && q <= pos <= q + 3 && lineIndex == IndexAt(block, q)
  }

  /** A blank between statements joins the open statement. */
  lemma LoopBlank(block: string, stmts: seq<Statement>, ssPos: int, pos: int, current: string,
                  line0: int, lineStart0: int, ssLine: int, ssIndex: int,
                  pos': int, current': string, line: int, lineStart: int, lineIndex: int, q: int)
    requires Scan(block, stmts, ssPos, pos, Next, current, line0, lineStart0, ssLine, ssIndex)
    requires pos < |block| && Blank(block[pos])
    requires NewlineChecked(block, pos, line0, lineStart0, line, lineStart, lineIndex)
    requires pos' == pos + 1 && current' == current + [block[pos]] && q == pos
    ensures Scan(block, stmts, ssPos, pos', Next, current', line, lineStart, ssLine, ssIndex)
    ensures Indexed(block, pos', q, lineIndex)
  {
    IndexLines(block, pos, line0, lineStart0);
    AdvanceLines(block, pos, 1, line0, lineStart0);
    ScanBlank(block, stmts, ssPos, pos, current);
  }

  /** A non-blank between statements cuts the open statement, if any, and
      opens the next one there. */
  lemma LoopNonBlank(block: string, stmts: seq<Statement>, ssPos: int, pos: int, current: string,
                     line0: int, lineStart0: int, ssLine: int, ssIndex: int,
                     stmts': seq<Statement>, line: int, lineStart: int, lineIndex: int, q: int)
    requires Scan(block, stmts, ssPos, pos, Next, current, line0, lineStart0, ssLine, ssIndex)
    requires pos < |block| && !Blank(block[pos])
    requires NewlineChecked(block, pos, line0, lineStart0, line, lineStart, lineIndex)
    requires stmts' == if current != [] then stmts + [Statement(ssLine, ssIndex, ssPos, line, lineIndex, pos, current)]
                       else stmts
    requires q == pos
    ensures Scan(block, stmts', pos, pos, Source, [], line, lineStart, line, lineIndex)
    ensures Indexed(block, pos, q, lineIndex)
  {
    StayLines(block, pos, line, lineStart);
    if current != [] {
      var s := Statement(ssLine, ssIndex, ssPos, line, lineIndex, pos, current);
      ScanCut(block, stmts, ssPos, pos, current, s);
    } else {
      ScanStart(block, stmts, pos, current);
    }
  }

  /** One token inside a statement. */
  lemma LoopStep(block: string, stmts: seq<Statement>, ssPos: int, pos: int, scope: Scope, level: int,
                 current: string, line0: int, lineStart0: int, ssLine: int, ssIndex: int,
                 pos': int, scope': Scope, current': string, line: int, lineStart: int, lineIndex: int, q: int)
    requires Scan(block, stmts, ssPos, pos, scope, current, line0, lineStart0, ssLine, ssIndex)
    requires pos < |block| && scope != Next
    requires NewlineChecked(block, pos, line0, lineStart0, line, lineStart, lineIndex)
    requires var r := Step(block, pos, scope, level);
      pos' == pos + r.width && scope' == r.scope && current' == current + block[pos..pos + r.width] && q == pos
    ensures Scan(block, stmts, ssPos, pos', scope', current', line, lineStart, ssLine, ssIndex)
    ensures Indexed(block, pos', q, lineIndex)
  {
    IndexLines(block, pos, line0, lineStart0);
    AdvanceLines(block, pos, pos' - pos, line0, lineStart0);
    ScanStep(block, stmts, ssPos, pos, scope, level, current, pos', scope', current');
  }

  /** The counters after the newline check at the top of the loop. */
  predicate NewlineChecked(block: string, pos: int, line0: int, lineStart0: int,
                           line: int, lineStart: int, lineIndex: int)
    requires 0 <= pos < |block|
  {
    var nl := block[pos] == '\n';
    line == (if nl then line0 + 1 else line0) &&
    lineStart == (if nl then pos + 1 else lineStart0) &&
    lineIndex == pos - lineStart
  }

  /** At the end of the block, flushing the open statement, if any, gives
      the split. */
  lemma LoopDone(block: string, stmts: seq<Statement>, ssPos: int, scope: Scope, level: int, current: string,
                 line: int, lineStart: int, ssLine: int, ssIndex: int, q: int, lineIndex: int)
    requires Scan(block, stmts, ssPos, |block|, scope, current, line, lineStart, ssLine, ssIndex)
    requires Indexed(block, |block|, q, lineIndex)
    requires Tracking(block, ssPos, |block|, scope, level, q) && Ended(block, stmts)
    ensures Split(block, if current != [] then stmts + [Statement(ssLine, ssIndex, ssPos, line, lineIndex, |block|, current)]
                         else stmts)
  {
    assert block[..|block|] == block;
    if current != [] {
      var s := Statement(ssLine, ssIndex, ssPos, line, lineIndex, |block|, current);
      TrackDone(block, ssPos, scope, level, q);
      EndedSnoc(block, stmts, s);
      Finish(block, stmts, ssPos, scope, current, s);
    } else {
      CoversEach(stmts, block, ssPos);
    }
  }

  /** The variables of `get_statements` between two turns of its loop; the
      offset of the character read last is kept to state the last index. */
  datatype Scanner = Scanner(stmts: seq<Statement>, scope: Scope, level: int, pos: int, ssPos: int,
                             current: string, ssLine: int, ssIndex: int,
                             line: int, lineStart: int, lineIndex: int, lastRead: int)

  /** The invariant of the scanner's loop. */
  ghost predicate Scanned(block: string, sc: Scanner)
  {
    Scan(block, sc.stmts, sc.ssPos, sc.pos, sc.scope, sc.current, sc.line, sc.lineStart, sc.ssLine, sc.ssIndex) &&
    Indexed(block, sc.pos, sc.lastRead, sc.lineIndex) &&
    Tracking(block, sc.ssPos, sc.pos, sc.scope, sc.level, sc.lastRead) && Ended(block, sc.stmts)
  }

  /** `get_statements`.  What it returns is what `Split` describes. */
  method GetStatements(block: string) returns (stmts: seq<Statement>)
    ensures Split(block, stmts)
  {
    var sc := Scanner([], Next, 0, 0, 0, "", 1, 0, 1, 0, 0, 0);
    while sc.pos < |block|
      invariant Scanned(block, sc)
      decreases |block| - sc.pos, if sc.scope == Next then 1 else 0
    {
      sc := Turn(block, sc);
    }
    LoopDone(block, sc.stmts, sc.ssPos, sc.scope, sc.level, sc.current, sc.line, sc.lineStart,
             sc.ssLine, sc.ssIndex, sc.lastRead, sc.lineIndex);
    stmts := sc.stmts;
    if sc.current != [] {
      stmts := stmts + [Statement(sc.ssLine, sc.ssIndex, sc.ssPos, sc.line, sc.lineIndex, sc.pos, sc.current)];
    }
  }

  /** One turn of the loop of `get_statements`: the newline check, then the
      character at `pos` between statements, or the token at `pos` inside
      one.  Either `pos` advances, or a statement starts at it. */
  method Turn(block: string, sc: Scanner) returns (sc': Scanner)
    requires Scanned(block, sc) && sc.pos < |block|
    ensures Scanned(block, sc')
    ensures sc.pos < sc'.pos || (sc'.pos == sc.pos && sc.scope == Next && sc'.scope != Next)
  {
    var line, lineStart := sc.line, sc.lineStart;
    if block[sc.pos] == '\n' {
      line := line + 1;
      lineStart := sc.pos + 1;
    }
    var lineIndex := sc.pos - lineStart;
    if sc.scope == Next {
      sc' := Between(block, sc, line, lineStart, lineIndex);
    } else {
      sc' := Inside(block, sc, line, lineStart, lineIndex);
    }
  }

  /** Between statements: a blank joins the open text; anything else
      closes it as a statement, if there is one, and starts the next. */
  method Between(block: string, sc: Scanner, line: int, lineStart: int, lineIndex: int) returns (sc': Scanner)
    requires Scanned(block, sc) && sc.pos < |block| && sc.scope == Next
    requires NewlineChecked(block, sc.pos, sc.line, sc.lineStart, line, lineStart, lineIndex)
    ensures Scanned(block, sc')
    ensures sc.pos < sc'.pos || (sc'.pos == sc.pos && sc'.scope != Next)
  {
    var pos := sc.pos;
    var c1 := block[pos];
    if !Blank(c1) {
      var s := Statement(sc.ssLine, sc.ssIndex, sc.ssPos, line, lineIndex, pos, sc.current);
      var stmts := if sc.current != [] then sc.stmts + [s] else sc.stmts;
      TrackStart(block, sc.stmts, sc.ssPos, pos, sc.level, sc.lastRead, stmts, s);
      LoopNonBlank(block, sc.stmts, sc.ssPos, pos, sc.current, sc.line, sc.lineStart, sc.ssLine, sc.ssIndex,
                   stmts, line, lineStart, lineIndex, pos);
      sc' := Scanner(stmts, Source, sc.level, pos, pos, [], line, lineIndex, line, lineStart, lineIndex, pos);
    } else {
      TrackBlank(block, sc.ssPos, pos, sc.lastRead);
      LoopBlank(block, sc.stmts, sc.ssPos, pos, sc.current, sc.line, sc.lineStart, sc.ssLine, sc.ssIndex,
                pos + 1, sc.current + [c1], line, lineStart, lineIndex, pos);
      sc' := sc.(pos := pos + 1, current := sc.current + [c1], line := line, lineStart := lineStart,
                 lineIndex := lineIndex, lastRead := pos);
    }
  }

  /** Inside a statement: the token at `pos` joins its text and moves the
      scope and the depth as `Step` says. */
  method Inside(block: string, sc: Scanner, line: int, lineStart: int, lineIndex: int) returns (sc': Scanner)
    requires Scanned(block, sc) && sc.pos < |block| && sc.scope != Next
    requires NewlineChecked(block, sc.pos, sc.line, sc.lineStart, line, lineStart, lineIndex)
    ensures Scanned(block, sc')
    ensures sc.pos < sc'.pos
  {
    var pos := sc.pos;
    var m := Step(block, pos, sc.scope, sc.level);
    var pos', scope', level' := pos + m.width, m.scope, m.level;
    var current := sc.current + block[pos..pos'];
    LoopStep(block, sc.stmts, sc.ssPos, pos, sc.scope, sc.level, sc.current, sc.line, sc.lineStart,
             sc.ssLine, sc.ssIndex, pos', scope', current, line, lineStart, lineIndex, pos);
    TrackStep(block, sc.ssPos, pos, sc.scope, sc.level, sc.lastRead, pos', scope', level');
    sc' := sc.(scope := scope', level := level', pos := pos', current := current,
               line := line, lineStart := lineStart, lineIndex := lineIndex, lastRead := pos);
  }






  lemma Finish(block: string, stmts: seq<Statement>, ssPos: int, scope: Scope, current: string, s: Statement)
    requires Scanning(block, stmts, ssPos, |block|, scope, current) && current != []
    requires s.startPos == ssPos && s.endPos == |block| && s.text == current
    requires LinesAt(block, ssPos, s.startLine, ssPos - s.startIndex)
    requires s.endLine == 1 + Newlines(block)
    requires 0 <= s.startPos < |block| && s.endIndex == IndexAt(block, LastRead(block, s.startPos))
    requires Ended(block, stmts + [s])
    ensures Split(block, stmts + [s])
  {
    Flush(stmts, block, s);
    CoversEach(stmts, block, ssPos);
    var stmts' := stmts + [s];
    var n := |stmts|;
    assert current[0] == block[ssPos];
    assert Shaped(s.text, n == 0);
    assert StartsAt(block, s);
    forall k | 0 <= k < |stmts'|
      ensures 0 <= stmts'[k].startPos <= stmts'[k].endPos <= |block|
      ensures StartsAt(block, stmts'[k])
      ensures Shaped(stmts'[k].text, k == 0)
      ensures k < |stmts'| - 1 ==> EndsAt(block, stmts'[k]) && (Blank(stmts'[k].text[0]) || Closed(stmts'[k].text))
    {
      if k < n {
        assert stmts'[k] == stmts[k];
      }
    }
    assert stmts'[|stmts'| - 1] == s;
  }
}
