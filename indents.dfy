/**
 * `MathMate.count_indents`: how many indentation units a line starts with.
 * The line is first stripped of trailing whitespace; then every tab of its
 * leading blanks counts one, and every `indent_size` spaces count one.
 */
module Indents {
  import opened Wrappers

  /** The characters Python 2's `str.rstrip()` removes: space, tab, line
      feed, vertical tab, form feed and carriage return. */
  predicate Whitespace(c: char)
  {
    c == ' ' || '\t' <= c <= '\r'
  }

  /** `line.rstrip()`. */
  function RStrip(s: string): (r: string)
    ensures |r| <= |s| && r == s[..|r|]
    ensures r == [] || !Whitespace(r[|r| - 1])
    ensures forall i :: |r| <= i < |s| ==> Whitespace(s[i])
  {
    if s == [] || !Whitespace(s[|s| - 1]) then s else RStrip(s[..|s| - 1])
  }

  /** A space or a tab: the characters `count_indents` counts. */
  predicate Indenting(c: char)
  {
    c == ' ' || c == '\t'
  }

  /** The leading spaces and tabs of `s`. */
  function Lead(s: string): (r: string)
    ensures |r| <= |s| && r == s[..|r|]
    ensures forall i :: 0 <= i < |r| ==> Indenting(r[i])
    ensures |r| < |s| ==> !Indenting(s[|r|])
  {
    if s == [] || !Indenting(s[0]) then [] else [s[0]] + Lead(s[1..])
  }

  /** How often `c` occurs in `s`. */
  function Occurrences(s: string, c: char): (n: nat)
    ensures n <= |s|
  {
    if s == [] then 0 else Occurrences(s[..|s| - 1], c) + if s[|s| - 1] == c then 1 else 0
  }

  /** Python's `%`, whose result takes the sign of the divisor. */
  function PyMod(a: int, b: int): int
    requires b != 0
  {
    if b > 0 then a % b
    else if a % -b == 0 then 0
    else a % -b + b
  }

  function Abs(n: int): nat
  {
    if n < 0 then -n else n
  }

  /** `count_indents` divides by the indent size only when it meets a
      leading space: with a size of zero, a line whose leading blanks hold a
      space raises `ZeroDivisionError`, and any other line is counted. */
  predicate Countable(line: string, indentSize: int)
  {
    indentSize != 0 || ' ' !in Lead(RStrip(line))
  }

  /** The indentation of a line: one per tab of its leading blanks, plus one
      per `|indentSize|` spaces of them, once trailing whitespace is gone.
      (A negative size counts like its absolute value under Python's `%`;
      a size of zero leaves only the tabs, there being no spaces.) */
  function Indentation(line: string, indentSize: int): int
    requires Countable(line, indentSize)
  {
    var lead := Lead(RStrip(line));
    Occurrences(lead, '\t') + if indentSize == 0 then 0 else Occurrences(lead, ' ') / Abs(indentSize)
  }

  /** The indentation never exceeds the length of the line, and a line of
      whitespace only has none, whatever it holds. */
  lemma IndentationBounds(line: string, indentSize: int)
    requires Countable(line, indentSize)
    ensures 0 <= Indentation(line, indentSize) <= |line|
    ensures (forall i :: 0 <= i < |line| ==> Whitespace(line[i])) ==> Indentation(line, indentSize) == 0
  {
    var lead := Lead(RStrip(line));
    OccurrencesSplit(lead, '\t', ' ');
    var tabs, spaces := Occurrences(lead, '\t'), Occurrences(lead, ' ');
    if indentSize != 0 {
      var m := Abs(indentSize);
      assert spaces / m <= spaces by {
        DivBelow(spaces, m);
      }
    }
    if forall i :: 0 <= i < |line| ==> Whitespace(line[i]) {
      assert RStrip(line) == [];
    }
  }

  /** The leading blanks are tabs and spaces and nothing else. */
  lemma {:induction false} OccurrencesSplit(s: string, a: char, b: char)
    requires a != b && forall i :: 0 <= i < |s| ==> s[i] == a || s[i] == b
    ensures Occurrences(s, a) + Occurrences(s, b) == |s|
    decreases |s|
  {
    if s != [] {
      OccurrencesSplit(s[..|s| - 1], a, b);
    }
  }

  lemma DivBelow(n: nat, m: nat)
    requires m > 0
    ensures n / m <= n
  {
    var q := n / m;
    assert q * m <= n;
    if q >= 1 {
      MulAtLeast(m, q);
    }
  }

  lemma {:induction false} MulAtLeast(d: int, m: int)
    requires d >= 1 && m > 0
    ensures d * m >= m
    decreases d
  {
    if d > 1 {
      MulAtLeast(d - 1, m);
      assert d * m == (d - 1) * m + m;
    }
  }

  /** One more space: the quotient grows when the remainder wraps to zero. */
  lemma DivModStep(k: nat, m: nat)
    requires m > 0
    ensures (k + 1) % m == if k % m + 1 == m then 0 else k % m + 1
    ensures (k + 1) / m == k / m + if k % m + 1 == m then 1 else 0
  {
    var q, r := k / m, k % m;
    assert k == q * m + r;
    if r + 1 == m {
      assert k + 1 == (q + 1) * m;
      DivModUnique(k + 1, m, q + 1, 0);
    } else {
      DivModUnique(k + 1, m, q, r + 1);
    }
  }

  lemma DivModUnique(a: int, m: int, q: int, r: int)
    requires m > 0 && 0 <= r < m && a == q * m + r
    ensures a / m == q && a % m == r
  {
    var q', r' := a / m, a % m;
    assert a == q' * m + r';
    assert (q - q') * m == r' - r;
    if q' < q {
      MulAtLeast(q - q', m);
    } else if q' > q {
      MulAtLeast(q' - q, m);
    }
  }

  /** The remainder kept in `space_count`, after one more space, under
      Python's `%`. */
  lemma PyModStep(k: nat, n: int)
    requires n != 0
    ensures PyMod(PyMod(k, n) + 1, n) == PyMod(k + 1, n)
    ensures PyMod(k + 1, n) == 0 <==> (k + 1) % Abs(n) == 0
  {
    var m := Abs(n);
    DivModStep(k, m);
    var r := k % m;
    if n > 0 {
      DivModUnique(r + 1, m, if r + 1 == m then 1 else 0, if r + 1 == m then 0 else r + 1);
    } else if r == 0 {
      if m == 1 {
        DivModUnique(1, m, 1, 0);
      } else {
        DivModUnique(1, m, 0, 1);
      }
    } else {
      DivModUnique(r - m + 1, m, if r + 1 == m then 0 else -1, if r + 1 == m then 0 else r + 1);
    }
  }

  /** `count_indents(line)`: walks the stripped line and stops at the first
      character that is neither a tab nor a space.  `None` stands for the
      `ZeroDivisionError` that `% indent_size` raises at the first leading
      space when the size is zero. */
  method CountIndents(line: string, indentSize: int) returns (r: Option<int>)
    ensures r.None? <==> !Countable(line, indentSize)
    ensures r.Some? ==> r.value == Indentation(line, indentSize)
  {
    var s := RStrip(line);
    var lead := Lead(s);
    var count := 0;
    var spaceCount := 0;
    var i := 0;
    while i < |s|
      invariant 0 <= i <= |lead|
      invariant lead[..i] == s[..i]
      invariant indentSize == 0 ==> forall j :: 0 <= j < i ==> s[j] != ' '
      invariant count == Occurrences(s[..i], '\t') +
        if indentSize == 0 then 0 else Occurrences(s[..i], ' ') / Abs(indentSize)
      invariant indentSize != 0 ==> spaceCount == PyMod(Occurrences(s[..i], ' '), indentSize)
    {
      var c := s[i];
      assert s[..i + 1][..i] == s[..i];
      if c == '\t' {
        count := count + 1;
      } else if c == ' ' {
        if indentSize == 0 {
          assert lead[i] == ' ';
          return None;
        }
        var k := Occurrences(s[..i], ' ');
        PyModStep(k, indentSize);
        DivModStep(k, Abs(indentSize));
        spaceCount := PyMod(spaceCount + 1, indentSize);
        if spaceCount == 0 {
          count := count + 1;
        }
      } else {
        break;
      }
      i := i + 1;
    }
    assert lead == s[..i];
    return Some(count);
  }
}
