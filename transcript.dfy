/**
 * The transcript `Resources.render` builds from the resource log: a status
 * bar, then one `cellgroup` div per maximal run of resources with equal
 * count, then the whole merged into the page layout at its yield token.
 */
module Transcript {
  import opened Wrappers
  import opened Cells
  import Html

  /** The status bar `render` writes before the cell groups. */
  function StatusBar(sessionId: string): string
  {
    "<div id='status_bar'>"
    + "  <div id='session_id'>"
    + "    <span class='label'>Session ID:</span>"
    + "    <span class='value'>" + sessionId + "</span>"
    + "  </div>"
    + "  <div id='white_space'>"
    + "    <span class='label'>White Space:</span>"
    + "    <span class='value'>Normal</span>"
    + "  </div>"
    + "</div>"
  }

  /** The opening tag of the group of resources with count `count`. */
  function GroupOpening(count: int): string
  {
    "<div id='resource_" + IntToString(count) + "' class='cellgroup'>"
  }

  /** The maximal runs of consecutive resources with the same count, in order. */
  function Runs(s: seq<Resource>): (gs: seq<seq<Resource>>)
    ensures s != [] ==> |gs| > 0 && |gs[|gs| - 1]| > 0 && gs[|gs| - 1][|gs[|gs| - 1]| - 1] == s[|s| - 1]
    ensures s == [] ==> gs == []
  {
    if s == [] then []
    else
      var p, x := Runs(s[..|s| - 1]), s[|s| - 1];
      if |s| > 1 && s[|s| - 2].count == x.count then p[..|p| - 1] + [p[|p| - 1] + [x]]
      else p + [[x]]
  }

  /** The resources of a sequence of groups, in order. */
  function Flatten(gs: seq<seq<Resource>>): seq<Resource>
  {
    if gs == [] then [] else Flatten(gs[..|gs| - 1]) + gs[|gs| - 1]
  }

  /** A nonempty group whose resources share one count. */
  predicate Uniform(g: seq<Resource>)
  {
    g != [] && forall j :: 0 <= j < |g| ==> g[j].count == g[0].count
  }

  /** Groups that are nonempty, share one count inside, and differ in count
      from the next group: the maximal runs of their concatenation. */
  predicate MaximalRuns(gs: seq<seq<Resource>>)
  {
    (forall k :: 0 <= k < |gs| ==> Uniform(gs[k])) &&
    (forall k :: 0 < k < |gs| ==> gs[k][0].count != gs[k - 1][0].count)
  }

  /** `Runs` loses nothing and reorders nothing. */
  lemma {:induction false} RunsFlatten(s: seq<Resource>)
    ensures Flatten(Runs(s)) == s
  {
    if s != [] {
      var s', x := s[..|s| - 1], s[|s| - 1];
      var p := Runs(s');
      if |s| > 1 && s[|s| - 2].count == x.count {
        var q, l := p[..|p| - 1], p[|p| - 1];
        calc {
          Flatten(Runs(s));
          Flatten(q + [l + [x]]);
          { FlattenSnoc(q, l + [x]); }
          Flatten(q) + (l + [x]);
          { GroupAssoc(Flatten(q), l, [x]); }
          (Flatten(q) + l) + [x];
          { FlattenSnoc(q, l); assert q + [l] == p; }
          Flatten(p) + [x];
          { RunsFlatten(s'); }
          s' + [x];
        }
      } else {
        calc {
          Flatten(Runs(s));
          Flatten(p + [[x]]);
          { FlattenSnoc(p, [x]); }
          Flatten(p) + [x];
          { RunsFlatten(s'); }
          s' + [x];
        }
      }
      assert s' + [x] == s;
    }
  }

  lemma FlattenSnoc(gs: seq<seq<Resource>>, g: seq<Resource>)
    ensures Flatten(gs + [g]) == Flatten(gs) + g
  {
    assert (gs + [g])[..|gs|] == gs;
  }

  lemma GroupAssoc(a: seq<Resource>, b: seq<Resource>, c: seq<Resource>)
    ensures a + (b + c) == (a + b) + c
  {
  }

  /** The groups `Runs` produces are the maximal runs of equal count. */
  lemma {:induction false} RunsMaximal(s: seq<Resource>)
    ensures MaximalRuns(Runs(s))
  {
    if s != [] {
      var s', x := s[..|s| - 1], s[|s| - 1];
      RunsMaximal(s');
      var p := Runs(s');
      if |s| > 1 && s[|s| - 2].count == x.count {
        var q, l := p[..|p| - 1], p[|p| - 1];
        assert l[|l| - 1] == s'[|s'| - 1];
        assert Uniform(l);
        assert Uniform(l + [x]);
        var gs := q + [l + [x]];
        assert forall k :: 0 <= k < |q| ==> gs[k] == p[k];
      } else {
        var gs := p + [[x]];
        assert Uniform([x]);
        assert forall k :: 0 <= k < |p| ==> gs[k] == p[k];
        if |s| > 1 {
          var l := p[|p| - 1];
          assert l[|l| - 1] == s'[|s'| - 1];
          assert Uniform(l);
        }
      }
    }
  }

  /** `Runs` cuts a log into its maximal runs and loses nothing. */
  lemma RunsPartition(s: seq<Resource>)
    ensures Flatten(Runs(s)) == s
    ensures MaximalRuns(Runs(s))
  {
    RunsFlatten(s);
    RunsMaximal(s);
  }

  /** The set of counts in a log. */
  function Counts(s: seq<Resource>): (cs: set<int>)
    ensures forall c :: c in cs <==> exists i :: 0 <= i < |s| && s[i].count == c
  {
    if s == [] then {}
    else
      var cs' := Counts(s[..|s| - 1]);
      assert forall i :: 0 <= i < |s| - 1 ==> s[..|s| - 1][i] == s[i];
      cs' + {s[|s| - 1].count}
  }

  /** With counts that never decrease, as in a session log, there is one
      group per distinct count. */
  lemma {:induction false} RunsPerCount(s: seq<Resource>)
    requires forall i, j :: 0 <= i < j < |s| ==> s[i].count <= s[j].count
    ensures |Runs(s)| == |Counts(s)|
  {
    if s != [] {
      var s' := s[..|s| - 1];
      assert forall i :: 0 <= i < |s'| ==> s'[i] == s[i];
      RunsPerCount(s');
      RunsStep(s);
      CountsStep(s);
    }
  }

  /** The last resource joins the last group exactly when it has the count
      of the one before it; otherwise it opens a group of its own. */
  lemma RunsStep(s: seq<Resource>)
    requires s != []
    ensures |Runs(s)| == |Runs(s[..|s| - 1])| + if |s| > 1 && s[|s| - 2].count == s[|s| - 1].count then 0 else 1
  {
  }

  /** With counts that never decrease, the last resource brings a new count
      exactly when it does not have the count of the one before it. */
  lemma CountsStep(s: seq<Resource>)
    requires s != []
    requires forall i, j :: 0 <= i < j < |s| ==> s[i].count <= s[j].count
    ensures var s', x := s[..|s| - 1], s[|s| - 1];
      if |s| > 1 && s[|s| - 2].count == x.count then Counts(s) == Counts(s')
      else Counts(s) == Counts(s') + {x.count} && x.count !in Counts(s')
  {
    var s', x := s[..|s| - 1], s[|s| - 1];
    assert Counts(s) == Counts(s') + {x.count};
    if |s| > 1 && s[|s| - 2].count == x.count {
      assert s'[|s'| - 1] == s[|s| - 2];
    } else if |s| > 1 {
      forall i | 0 <= i < |s'| ensures s'[i].count != x.count {
        assert s[i].count <= s[|s| - 2].count < x.count;
      }
    }
  }

  /** Whether a group's resources so far include a display. */
  predicate HasDisplay(prefix: seq<Resource>)
  {
    exists i :: 0 <= i < |prefix| && prefix[i].kind == Display
  }

  /** A return cell is hidden exactly when a display came before it in its
      group; every other cell is shown. */
  predicate Visible(prefix: seq<Resource>, r: Resource)
  {
    !(r.kind == Return && HasDisplay(prefix))
  }

  /** The cells of a group, each with its visibility. */
  function GroupCells(g: seq<Resource>, folder: string): string
  {
    if g == [] then ""
    else GroupCells(g[..|g| - 1], folder) + RenderCell(g[|g| - 1], Visible(g[..|g| - 1], g[|g| - 1]), folder)
  }

  /** One group: its opening tag, its cells, the closing tag. */
  function RenderGroup(g: seq<Resource>, folder: string): string
  {
    if g == [] then "" else GroupOpening(g[0].count) + GroupCells(g, folder) + "</div>"
  }

  function RenderGroups(gs: seq<seq<Resource>>, folder: string): string
  {
    if gs == [] then "" else RenderGroups(gs[..|gs| - 1], folder) + RenderGroup(gs[|gs| - 1], folder)
  }

  /** The content `render` assembles from the log: the status bar and one
      closed `cellgroup` div per maximal run; no group div for an empty log. */
  function Content(sessionId: string, folder: string, log: seq<Resource>): string
  {
    StatusBar(sessionId) + RenderGroups(Runs(log), folder)
  }

  /** What `render` has built once the groups `gs` are read, the last of them
      still open. */
  function OpenContent(header: string, folder: string, gs: seq<seq<Resource>>): string
    requires gs != [] && gs[|gs| - 1] != []
  {
    var last := gs[|gs| - 1];
    header + RenderGroups(gs[..|gs| - 1], folder) + GroupOpening(last[0].count) + GroupCells(last, folder)
  }

  /** How `Runs` grows by one resource. */
  lemma RunsSnoc(s: seq<Resource>, x: Resource)
    ensures s != [] && s[|s| - 1].count == x.count ==>
      Runs(s) != [] && Runs(s + [x]) == Runs(s)[..|Runs(s)| - 1] + [Runs(s)[|Runs(s)| - 1] + [x]]
    ensures !(s != [] && s[|s| - 1].count == x.count) ==> Runs(s + [x]) == Runs(s) + [[x]]
  {
    assert (s + [x])[..|s|] == s;
  }

  lemma GroupCellsSnoc(g: seq<Resource>, x: Resource, folder: string)
    ensures GroupCells(g + [x], folder) == GroupCells(g, folder) + RenderCell(x, Visible(g, x), folder)
  {
    assert (g + [x])[..|g|] == g;
  }

  lemma FirstStep(header: string, folder: string, x: Resource)
    ensures OpenContent(header, folder, [[x]]) ==
            header + GroupOpening(x.count) + RenderCell(x, true, folder)
  {
    assert [x][..0] == [];
    assert GroupCells([x], folder) == RenderCell(x, true, folder);
    assert [[x]][..0] == [];
    assert RenderGroups([[x]][..0], folder) == "";
    EmptyMiddle(header, GroupOpening(x.count), RenderCell(x, true, folder));
  }

  lemma EmptyMiddle(h: string, o: string, c: string)
    ensures h + "" + o + c == h + o + c
  {
    assert h + "" == h;
  }

  lemma NewGroupStep(header: string, folder: string, gs: seq<seq<Resource>>, x: Resource)
    requires gs != [] && gs[|gs| - 1] != []
    ensures OpenContent(header, folder, gs + [[x]]) ==
            OpenContent(header, folder, gs) + "</div>" + GroupOpening(x.count) + RenderCell(x, true, folder)
  {
    var gs' := gs + [[x]];
    assert gs'[..|gs'| - 1] == gs;
    assert gs'[|gs'| - 1] == [x];
    var last := gs[|gs| - 1];
    var r, o, c := RenderGroups(gs[..|gs| - 1], folder), GroupOpening(last[0].count), GroupCells(last, folder);
    var o', c' := GroupOpening(x.count), RenderCell(x, true, folder);
    SingleCell(x, folder);
    assert OpenContent(header, folder, gs) == header + r + o + c;
    assert RenderGroups(gs, folder) == r + (o + c + "</div>");
    assert OpenContent(header, folder, gs') == header + RenderGroups(gs, folder) + o' + c';
    CloseRegroup(header, r, o, c, "</div>", o', c');
  }

  lemma SingleCell(x: Resource, folder: string)
    ensures GroupCells([x], folder) == RenderCell(x, true, folder)
  {
    assert [x][..0] == [];
  }

  lemma CloseRegroup(h: string, r: string, o: string, c: string, e: string, o': string, c': string)
    ensures h + (r + (o + c + e)) + o' + c' == h + r + o + c + e + o' + c'
  {
  }

  lemma SameGroupStep(header: string, folder: string, gs: seq<seq<Resource>>, x: Resource)
    requires gs != [] && gs[|gs| - 1] != []
    ensures var last := gs[|gs| - 1];
      OpenContent(header, folder, gs[..|gs| - 1] + [last + [x]]) ==
      OpenContent(header, folder, gs) + RenderCell(x, Visible(last, x), folder)
  {
    var last := gs[|gs| - 1];
    var gs' := gs[..|gs| - 1] + [last + [x]];
    assert gs'[..|gs'| - 1] == gs[..|gs| - 1];
    assert (last + [x])[0] == last[0];
    GroupCellsSnoc(last, x, folder);
    var p := header + RenderGroups(gs[..|gs| - 1], folder) + GroupOpening(last[0].count);
    Html.AppendAssoc(p, GroupCells(last, folder), RenderCell(x, Visible(last, x), folder));
  }

  /** The state of `render`'s loop once the resources `done` are read: with
      nothing read, only the status bar and the sentinel count -1; otherwise
      the count of the last resource read, whether its group has shown a
      display, and the content with that group still open. */
  ghost predicate Rendered(header: string, folder: string, done: seq<Resource>,
                           currentCount: int, renderedDisplay: bool, content: string)
  {
    if done == [] then content == header && currentCount == -1 && !renderedDisplay
    else
      var gs := Runs(done);
      currentCount == done[|done| - 1].count &&
      renderedDisplay == HasDisplay(gs[|gs| - 1]) &&
      content == OpenContent(header, folder, gs)
  }

  /** The first resource opens the first group; its cell is shown. */
  lemma RenderFirst(header: string, folder: string, x: Resource, content: string)
    requires Rendered(header, folder, [], -1, false, content)
    ensures Rendered(header, folder, [x], x.count, x.kind == Display,
                     content + GroupOpening(x.count) + RenderCell(x, true, folder))
  {
    RunsSnoc([], x);
    assert [] + [x] == [x];
    FirstStep(header, folder, x);
    HasDisplayOne(x);
  }

  /** A change of count closes the open group and opens a new one, in which
      no display has been shown yet, so the cell is shown. */
  lemma RenderNewGroup(header: string, folder: string, done: seq<Resource>, x: Resource,
                       currentCount: int, renderedDisplay: bool, content: string)
    requires Rendered(header, folder, done, currentCount, renderedDisplay, content)
    requires done != [] && x.count != currentCount
    ensures Rendered(header, folder, done + [x], x.count, x.kind == Display,
                     content + "</div>" + GroupOpening(x.count) + RenderCell(x, true, folder))
  {
    RunsSnoc(done, x);
    var gs := Runs(done);
    NewGroupStep(header, folder, gs, x);
    assert (gs + [[x]])[|gs|] == [x];
    HasDisplayOne(x);
  }

  /** A resource with the open group's count joins it; a return cell is hidden
      when the group has shown a display. */
  lemma RenderSameGroup(header: string, folder: string, done: seq<Resource>, x: Resource,
                        currentCount: int, renderedDisplay: bool, content: string)
    requires Rendered(header, folder, done, currentCount, renderedDisplay, content)
    requires done != [] && x.count == currentCount
    ensures Rendered(header, folder, done + [x], x.count, renderedDisplay || x.kind == Display,
                     content + RenderCell(x, !(x.kind == Return && renderedDisplay), folder))
  {
    RunsSnoc(done, x);
    var gs := Runs(done);
    var last := gs[|gs| - 1];
    SameGroupStep(header, folder, gs, x);
    var gs' := gs[..|gs| - 1] + [last + [x]];
    assert gs'[|gs'| - 1] == last + [x];
    HasDisplaySnoc(last, x);
  }

  lemma HasDisplayOne(x: Resource)
    ensures HasDisplay([x]) == (x.kind == Display)
  {
    if x.kind == Display {
      assert [x][0].kind == Display;
    }
  }

  lemma HasDisplaySnoc(g: seq<Resource>, x: Resource)
    ensures HasDisplay(g + [x]) == (HasDisplay(g) || x.kind == Display)
  {
    if x.kind == Display {
      assert (g + [x])[|g|].kind == Display;
    }
    if x.kind != Display && HasDisplay(g + [x]) {
      var k :| 0 <= k < |g + [x]| && (g + [x])[k].kind == Display;
      assert g[k].kind == Display;
    }
    if HasDisplay(g) {
      var k :| 0 <= k < |g| && g[k].kind == Display;
      assert (g + [x])[k].kind == Display;
    }
  }

  /** The loop of `render`: `currentCount` starts at -1 and opens the first
      group; a change of count closes the open group and opens the next one,
      resetting `renderedDisplay`; the last group is closed after the loop.
      Counts in a session log are never negative. */
  method RenderContent(sessionId: string, folder: string, log: seq<Resource>) returns (content: string)
    requires forall i :: 0 <= i < |log| ==> log[i].count >= 0
    ensures content == Content(sessionId, folder, log)
  {
    var renderedDisplay := false;
    var currentCount := -1;
    content := StatusBar(sessionId);
    ghost var header := content;
    var i := 0;
    Prefix(log, 0);
    while i < |log|
      invariant 0 <= i <= |log|
      invariant Rendered(header, folder, log[..i], currentCount, renderedDisplay, content)
    {
      var resource := log[i];
      Prefix(log, i);
      if currentCount == -1 {
        RenderFirst(header, folder, resource, content);
      } else if resource.count != currentCount {
        RenderNewGroup(header, folder, log[..i], resource, currentCount, renderedDisplay, content);
      } else {
        RenderSameGroup(header, folder, log[..i], resource, currentCount, renderedDisplay, content);
      }
      if currentCount == -1 {
        currentCount := resource.count;
        content := content + GroupOpening(currentCount);
      }
      if resource.count != currentCount {
        content := content + "</div>";
        currentCount := resource.count;
        content := content + GroupOpening(currentCount);
        renderedDisplay := false;
      }
      if resource.kind == Display {
        renderedDisplay := true;
        content := content + RenderCell(resource, true, folder);
      } else if resource.kind == Return {
        if renderedDisplay {
          content := content + RenderCell(resource, false, folder);
        } else {
          content := content + RenderCell(resource, true, folder);
        }
      } else {
        content := content + RenderCell(resource, true, folder);
      }
      i := i + 1;
    }
    Prefix(log, i);
    CloseLast(header, folder, log, currentCount, renderedDisplay, content);
    if currentCount != -1 {
      content := content + "</div>";
    }
  }

  /** Facts about the prefixes of the log the loop has read, kept out of the
      loop's own proof, whose context is large. */
  lemma Prefix(log: seq<Resource>, i: nat)
    requires i <= |log|
    ensures i == 0 ==> log[..i] == []
    ensures i == |log| ==> log[..i] == log
    ensures i < |log| ==> log[..i + 1] == log[..i] + [log[i]]
    ensures i > 0 ==> log[..i][i - 1] == log[i - 1]
  {
  }

  /** Closing the open group after the loop gives the whole content. */
  lemma CloseLast(header: string, folder: string, log: seq<Resource>,
                  currentCount: int, renderedDisplay: bool, content: string)
    requires Rendered(header, folder, log, currentCount, renderedDisplay, content)
    requires forall i :: 0 <= i < |log| ==> log[i].count >= 0
    ensures (if currentCount != -1 then content + "</div>" else content) == header + RenderGroups(Runs(log), folder)
  {
    if log != [] {
      CloseGroups(header, folder, Runs(log));
    }
  }

  lemma CloseGroups(header: string, folder: string, gs: seq<seq<Resource>>)
    requires gs != [] && gs[|gs| - 1] != []
    ensures OpenContent(header, folder, gs) + "</div>" == header + RenderGroups(gs, folder)
  {
    var last := gs[|gs| - 1];
    var r, o, c := RenderGroups(gs[..|gs| - 1], folder), GroupOpening(last[0].count), GroupCells(last, folder);
    assert RenderGroups(gs, folder) == r + (o + c + "</div>");
    CloseRegroup(header, r, o, c, "</div>", "", "");
    EmptyTail(header + r + o + c + "</div>");
  }

  lemma EmptyTail(s: string)
    ensures s + "" + "" == s
  {
  }

  /** The yield token of the page layout. */
  const YieldToken := "<%= yield %>"

  /** Whether `t` occurs in `s` at position `j`. */
  predicate OccursAt(s: string, t: string, j: int)
  {
    0 <= j && j + |t| <= |s| && s[j..j + |t|] == t
  }

  /** Java's `indexOf`: the first position at which `t` occurs in `s`, or -1. */
  function IndexOf(s: string, t: string): (k: int)
    ensures k == -1 || OccursAt(s, t, k)
    ensures k == -1 ==> forall j :: !OccursAt(s, t, j)
    ensures k >= 0 ==> forall j :: 0 <= j < k ==> !OccursAt(s, t, j)
    decreases |s|
  {
    if |s| < |t| then
      assert forall j :: !OccursAt(s, t, j);
      -1
    else if s[..|t|] == t then 0
    else
      var k := IndexOf(s[1..], t);
      ShiftOccurs(s, t);
      assert k == -1 ==> forall j :: !OccursAt(s, t, j) by {
        if k == -1 {
          forall j ensures !OccursAt(s, t, j) {
            if j >= 1 { assert !OccursAt(s[1..], t, j - 1); }
          }
        }
      }
      assert k >= 0 ==> forall j :: 0 <= j < k + 1 ==> !OccursAt(s, t, j) by {
        if k >= 0 {
          forall j | 0 <= j < k + 1 ensures !OccursAt(s, t, j) {
            if j >= 1 { assert !OccursAt(s[1..], t, j - 1); }
          }
        }
      }
      if k == -1 then -1 else k + 1
  }

  lemma ShiftOccurs(s: string, t: string)
    requires |s| >= 1
    ensures forall j :: 1 <= j ==> (OccursAt(s, t, j) <==> OccursAt(s[1..], t, j - 1))
    ensures OccursAt(s, t, 0) <==> |t| <= |s| && s[..|t|] == t
  {
    forall j | 1 <= j ensures OccursAt(s, t, j) <==> OccursAt(s[1..], t, j - 1) {
      if j + |t| <= |s| {
        var a, b := s[j..j + |t|], s[1..][j - 1..j - 1 + |t|];
        assert forall k :: 0 <= k < |a| ==> a[k] == s[j + k] == b[k];
        assert a == b;
      }
    }
  }

  /** The exception `applyLayout` raises when the layout has no yield token:
      `StringBuilder.replace` with start -1. */
  datatype LayoutError = NoYieldToken

  /** `applyLayout`: the first yield token of the layout is replaced by the
      content; any later token is left as it is. */
  function ApplyLayout(layout: string, content: string): Result<string, LayoutError>
  {
    var start := IndexOf(layout, YieldToken);
    if start < 0 then Err(NoYieldToken)
    else Ok(layout[..start] + content + layout[start + |YieldToken|..])
  }

  /** The page keeps the layout up to its first yield token, puts the content
      there, and keeps the rest after the token unchanged; it fails exactly
      when the layout has no yield token. */
  lemma ApplyLayoutReplacesFirstToken(layout: string, content: string)
    ensures ApplyLayout(layout, content).Err? <==> forall j :: !OccursAt(layout, YieldToken, j)
    ensures ApplyLayout(layout, content).Ok? ==>
      exists pre, post ::
        layout == pre + YieldToken + post &&
        ApplyLayout(layout, content).value == pre + content + post &&
        forall j :: !OccursAt(pre, YieldToken, j)
  {
    var start := IndexOf(layout, YieldToken);
    if start >= 0 {
      var pre, post := layout[..start], layout[start + |YieldToken|..];
      assert layout == pre + YieldToken + post;
      forall j ensures !OccursAt(pre, YieldToken, j) {
        if OccursAt(pre, YieldToken, j) {
          assert pre[j..j + |YieldToken|] == layout[j..j + |YieldToken|];
          assert OccursAt(layout, YieldToken, j);
        }
      }
    }
  }
}
