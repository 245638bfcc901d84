/**
 * `MathMate.get_current_statement`: the statement the editor's cursor is in,
 * or else the last statement that ends before it.  The cursor is the line
 * number and the index in that line that the editor reports.
 */
module Cursor {
  import opened Wrappers
  import opened Statements

  /** The position (line `l`, index `i`) comes no later than (`l'`, `i'`). */
  predicate NotAfter(l: int, i: int, l': int, i': int)
  {
    l < l' || (l == l' && i <= i')
  }

  /** The scan does not skip the statement: the cursor is not on an earlier
      line, nor on its first line before its first index. */
  predicate Reached(s: Statement, line: int, index: int)
  {
    !(line < s.startLine) && !(line == s.startLine && index < s.startIndex)
  }

  /** The statement the scan returns at once: the cursor lies between its
      start and its end, both included. */
  predicate Contains(s: Statement, line: int, index: int)
  {
    !(line < s.startLine) && !(line > s.endLine) &&
    !(line == s.startLine && index < s.startIndex) &&
    !(line == s.endLine && index > s.endIndex)
  }

  /** A statement the scan keeps as a candidate: the cursor is on a later
      line than its end, or, not before its start, on its end line past its
      end index. */
  predicate EndsBefore(s: Statement, line: int, index: int)
  {
    !(line < s.startLine) &&
    (line > s.endLine || (Reached(s, line, index) && line == s.endLine && index > s.endIndex))
  }

  /** Containment is the lexicographic order on (line, index); ending before
      the cursor is the strict order on the end, once the start is reached. */
  lemma ContainsIsRange(s: Statement, line: int, index: int)
    ensures Contains(s, line, index) <==>
      NotAfter(s.startLine, s.startIndex, line, index) && NotAfter(line, index, s.endLine, s.endIndex)
    ensures NotAfter(s.startLine, s.startIndex, s.endLine, s.endIndex) ==>
      (EndsBefore(s, line, index) <==>
        NotAfter(s.startLine, s.startIndex, line, index) && !NotAfter(line, index, s.endLine, s.endIndex))
  {
  }

  /** What `get_current_statement` selects: the first statement that contains
      the cursor; failing that, among the statements that end before it, the
      first one with the greatest start offset; failing that, none. */
  ghost predicate Selected(stmts: seq<Statement>, line: int, index: int, r: Option<Statement>)
  {
    ((exists k :: 0 <= k < |stmts| && Contains(stmts[k], line, index)) ==>
      exists k :: 0 <= k < |stmts| && r == Some(stmts[k]) && Contains(stmts[k], line, index) &&
        forall j :: 0 <= j < k ==> !Contains(stmts[j], line, index)) &&
    ((forall k :: 0 <= k < |stmts| ==> !Contains(stmts[k], line, index)) &&
     (exists k :: 0 <= k < |stmts| && EndsBefore(stmts[k], line, index)) ==>
      exists k :: 0 <= k < |stmts| && r == Some(stmts[k]) && EndsBefore(stmts[k], line, index) &&
        (forall j :: 0 <= j < |stmts| && EndsBefore(stmts[j], line, index) ==> stmts[j].startPos <= stmts[k].startPos) &&
        (forall j :: 0 <= j < k && EndsBefore(stmts[j], line, index) ==> stmts[j].startPos < stmts[k].startPos)) &&
    ((forall k :: 0 <= k < |stmts| ==> !Contains(stmts[k], line, index) && !EndsBefore(stmts[k], line, index)) ==>
      r == None)
  }

  /** The selection loop of `get_current_statement`. */
  method SelectStatement(stmts: seq<Statement>, line: int, index: int) returns (r: Option<Statement>)
    ensures Selected(stmts, line, index, r)
  {
    var previous: Option<Statement> := None;
    ghost var p := 0;
    for n := 0 to |stmts|
      invariant forall j :: 0 <= j < n ==> !Contains(stmts[j], line, index)
      invariant previous.None? <==> forall j :: 0 <= j < n ==> !EndsBefore(stmts[j], line, index)
      invariant previous.Some? ==> Best(stmts, n, line, index, p) && previous == Some(stmts[p])
    {
      var s := stmts[n];
      if line < s.startLine {
        continue;
      }
      if line > s.endLine {
        if previous.None? || s.startPos > previous.value.startPos {
          previous := Some(s);
          p := n;
        }
        continue;
      }
      if line == s.startLine && index < s.startIndex {
        continue;
      }
      if line == s.endLine && index > s.endIndex {
        if previous.None? || s.startPos > previous.value.startPos {
          previous := Some(s);
          p := n;
        }
        continue;
      }
      return Some(s);
    }
    return previous;
  }

  /** Among the first `n` statements, `p` is the first of greatest start
      offset that ends before the cursor. */
  ghost predicate Best(stmts: seq<Statement>, n: int, line: int, index: int, p: int)
  {
    0 <= p < n <= |stmts| && EndsBefore(stmts[p], line, index) &&
    (forall j :: 0 <= j < n && EndsBefore(stmts[j], line, index) ==> stmts[j].startPos <= stmts[p].startPos) &&
    (forall j :: 0 <= j < p && EndsBefore(stmts[j], line, index) ==> stmts[j].startPos < stmts[p].startPos)
  }

  /** `get_current_statement`, with the document and the cursor as
      parameters instead of stdin and `TM_LINE_NUMBER`/`TM_LINE_INDEX`. */
  method GetCurrentStatement(doc: string, line: int, index: int) returns (r: Option<Statement>)
    ensures forall stmts :: Split(doc, stmts) ==> Selected(stmts, line, index, r)
    ensures doc == [] ==> r == None
  {
    var stmts := GetStatements(doc);
    PartitionTexts(stmts, doc);
    r := SelectStatement(stmts, line, index);
    forall other | Split(doc, other)
      ensures Selected(other, line, index, r)
    {
      SplitUnique(doc, stmts, other);
    }
  }

  /** In a split, start offsets grow along the list, so the statement chosen
      among those ending before the cursor is the last of them. */
  lemma {:induction false} SplitStartsIncrease(doc: string, stmts: seq<Statement>)
    requires Split(doc, stmts)
    ensures forall i, j :: 0 <= i < j < |stmts| ==> stmts[i].startPos < stmts[j].startPos
  {
    CoversEach(stmts, doc, |doc|);
    forall i, j | 0 <= i < j < |stmts| ensures stmts[i].startPos < stmts[j].startPos {
      StartsIncrease(stmts, i, j);
    }
  }

  lemma {:induction false} StartsIncrease(stmts: seq<Statement>, i: int, j: int)
    requires 0 <= i < j < |stmts|
    requires forall k :: 0 <= k < |stmts| ==> stmts[k].startPos < stmts[k].endPos
    requires forall k :: 0 < k < |stmts| ==> stmts[k].startPos == stmts[k - 1].endPos
    ensures stmts[i].startPos < stmts[j].startPos
    decreases j - i
  {
    if j > i + 1 {
      StartsIncrease(stmts, i, j - 1);
    }
  }

  /** Over the statements of a document, the statement of greatest start
      offset among those that end before the cursor is the last of them. */
  lemma GreatestStartIsLast(doc: string, stmts: seq<Statement>, line: int, index: int, k: int)
    requires Split(doc, stmts)
    requires 0 <= k < |stmts| && EndsBefore(stmts[k], line, index)
    requires forall j :: 0 <= j < |stmts| && EndsBefore(stmts[j], line, index) ==> stmts[j].startPos <= stmts[k].startPos
    ensures forall j :: k < j < |stmts| ==> !EndsBefore(stmts[j], line, index)
  {
    SplitStartsIncrease(doc, stmts);
  }
}
