/**
 * The HTML escaper of `Resources.Resource.getHtmlEscapedValue`: the text is
 * scanned left to right, one character at a time, and each of `<`, `>`, `&`
 * and `"` is replaced by its named entity; every other character is copied.
 */
module Html {

  /** The characters that would be read as markup: `<`, `>` and `"`. */
  predicate Markup(c: char)
  {
    c == '<' || c == '>' || c == '"'
  }

  /** The characters the escaper replaces: the markup characters and `&`,
      which starts an entity. */
  predicate Special(c: char)
  {
    Markup(c) || c == '&'
  }

  /** The replacement text of one character. */
  function EscapeChar(c: char): (r: string)
    ensures |r| >= 1
    ensures !Special(c) <==> r == [c]
  {
    match c
    case '<' => "&lt;"
    case '>' => "&gt;"
    case '&' => "&amp;"
    case '"' => "&quot;"
    case _ => [c]
  }

  /** The escaped form of `s`: the replacement texts of its characters, in order. */
  function Escaped(s: string): string
  {
    if s == [] then [] else Escaped(s[..|s| - 1]) + EscapeChar(s[|s| - 1])
  }

  /** A reading of an escaped text back into the original characters. */
  function Unescaped(s: string): string
  {
    if s == [] then []
    else if |s| >= 4 && s[0] == '&' && s[1] == 'l' && s[2] == 't' && s[3] == ';' then "<" + Unescaped(s[4..])
    else if |s| >= 4 && s[0] == '&' && s[1] == 'g' && s[2] == 't' && s[3] == ';' then ">" + Unescaped(s[4..])
    else if |s| >= 5 && s[0] == '&' && s[1] == 'a' && s[2] == 'm' && s[3] == 'p' && s[4] == ';' then
      "&" + Unescaped(s[5..])
    else if |s| >= 6 && s[0] == '&' && s[1] == 'q' && s[2] == 'u' && s[3] == 'o' && s[4] == 't' && s[5] == ';' then
      "\"" + Unescaped(s[6..])
    else [s[0]] + Unescaped(s[1..])
  }

  /** Escaping works character by character, so it distributes over concatenation. */
  lemma {:induction false} EscapedAppend(a: string, b: string)
    ensures Escaped(a + b) == Escaped(a) + Escaped(b)
    decreases |b|
  {
    if b == [] {
      assert a + b == a;
    } else {
      var b', c := b[..|b| - 1], b[|b| - 1];
      var x, y, z := Escaped(a), Escaped(b'), EscapeChar(c);
      calc {
        Escaped(a + b);
        { assert (a + b)[..|a + b| - 1] == a + b'; }
        Escaped(a + b') + z;
        { EscapedAppend(a, b'); }
        (x + y) + z;
        { AppendAssoc(x, y, z); }
        x + (y + z);
      }
    }
  }

  lemma AppendAssoc(x: string, y: string, z: string)
    ensures (x + y) + z == x + (y + z)
  {
  }

  /** Escaping a character followed by a text. */
  lemma EscapedCons(c: char, t: string)
    ensures Escaped([c] + t) == EscapeChar(c) + Escaped(t)
  {
    EscapedAppend([c], t);
    assert [c][..0] == [];
  }

  /** The escaped text contains no raw `<`, `>` or `"`. */
  lemma {:induction false} EscapedHasNoMarkup(s: string)
    ensures forall i :: 0 <= i < |Escaped(s)| ==> !Markup(Escaped(s)[i])
  {
    if s != [] {
      EscapedHasNoMarkup(s[..|s| - 1]);
      var e, c := Escaped(s[..|s| - 1]), EscapeChar(s[|s| - 1]);
      assert Escaped(s) == e + c;
      forall i | 0 <= i < |e + c| ensures !Markup((e + c)[i]) {
        if i >= |e| {
          assert (e + c)[i] == c[i - |e|];
        }
      }
    }
  }

  /** Escaping never makes a text shorter; it keeps it unchanged exactly when
      the text holds none of the four escaped characters. */
  lemma {:induction false} EscapedLength(s: string)
    ensures |Escaped(s)| >= |s|
    ensures Escaped(s) == s <==> forall i :: 0 <= i < |s| ==> !Special(s[i])
  {
    if s != [] {
      var s' := s[..|s| - 1];
      EscapedLength(s');
      var c := s[|s| - 1];
      if Escaped(s) == s {
        assert |Escaped(s')| >= |s'|;
        assert |EscapeChar(c)| == 1;
        assert Escaped(s') == s[..|s| - 1];
        assert EscapeChar(c) == [c];
      }
      if forall i :: 0 <= i < |s| ==> !Special(s[i]) {
        assert forall i :: 0 <= i < |s'| ==> s'[i] == s[i];
        assert s == s' + [c];
      }
    }
  }

  /** Reading back the replacement of one character, followed by any text. */
  lemma UnescapeEscapeChar(c: char, t: string)
    ensures Unescaped(EscapeChar(c) + t) == [c] + Unescaped(t)
  {
    var r := EscapeChar(c) + t;
    if c == '<' {
      assert r[0] == '&' && r[1] == 'l' && r[2] == 't' && r[3] == ';' && r[4..] == t;
    } else if c == '>' {
      assert r[0] == '&' && r[1] == 'g' && r[2] == 't' && r[3] == ';' && r[4..] == t;
    } else if c == '&' {
      assert r[0] == '&' && r[1] == 'a' && r[2] == 'm' && r[3] == 'p' && r[4] == ';' && r[5..] == t;
    } else if c == '"' {
      assert r[0] == '&' && r[1] == 'q' && r[2] == 'u' && r[3] == 'o' && r[4] == 't' && r[5] == ';' && r[6..] == t;
    } else {
      assert r[0] == c && r[1..] == t;
    }
  }

  /** Escaping loses nothing: reading the entities back gives the original text. */
  lemma {:induction false} UnescapeEscaped(s: string)
    ensures Unescaped(Escaped(s)) == s
  {
    if s != [] {
      var c, t := s[0], s[1..];
      assert s == [c] + t;
      EscapedCons(c, t);
      UnescapeEscaped(t);
      UnescapeEscapeChar(c, Escaped(t));
    }
  }

  /** `getHtmlEscapedValue`'s loop: one character per iteration, appending its
      replacement to a buffer. */
  method HtmlEscape(base: string) returns (sb: string)
    ensures sb == Escaped(base)
  {
    sb := "";
    var i := 0;
    while i < |base|
      invariant 0 <= i <= |base|
      invariant sb == Escaped(base[..i])
    {
      assert base[..i + 1][..i] == base[..i];
      sb := sb + EscapeChar(base[i]);
      i := i + 1;
    }
    assert base[..i] == base;
  }
}
