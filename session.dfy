/**
 * The session object `Resources`: the resource log, the group counter and the
 * current view file, and the operations that change them.  The kernel is an
 * oracle: each call takes as parameters what the kernel answers (the packets
 * it sends while the query runs, the result expression, the image bytes).
 * The session folder is a map from the file names the session creates to
 * their contents, and `UUID.randomUUID()` draws from the counter `nextUuid`.
 */
module Session {
  import opened Wrappers
  import opened Cells
  import opened Transcript

  // ---------------------------------------------------------------------------
  // Queries: Java's `String.trim` and the trailing-semicolon rule
  // ---------------------------------------------------------------------------

  /** The characters `String.trim` removes: code points up to U+0020. */
  predicate Space(c: char)
  {
    c <= ' '
  }

  function TrimEnd(s: string): (r: string)
    ensures |r| <= |s| && r == s[..|r|]
    ensures r == [] || !Space(r[|r| - 1])
    ensures forall i :: |r| <= i < |s| ==> Space(s[i])
  {
    if s == [] || !Space(s[|s| - 1]) then s else TrimEnd(s[..|s| - 1])
  }

  function TrimStart(s: string): (r: string)
    ensures |r| <= |s| && r == s[|s| - |r|..]
    ensures r == [] || !Space(r[0])
    ensures forall i :: 0 <= i < |s| - |r| ==> Space(s[i])
  {
    if s == [] || !Space(s[0]) then s else TrimStart(s[1..])
  }

  /** `String.trim`. */
  function Trim(s: string): string
  {
    TrimStart(TrimEnd(s))
  }

  /** A query whose trimmed text ends in `;` asks for no output. */
  predicate Silenced(query: string)
    requires Trim(query) != []
  {
    var t := Trim(query);
    t[|t| - 1] == ';'
  }

  /** A query trims to nothing exactly when it is all spaces and control
      characters; otherwise it is silenced exactly when its last character
      above U+0020 is a semicolon. */
  lemma SilencedIsLastVisibleSemicolon(query: string)
    ensures Trim(query) == [] <==> forall i :: 0 <= i < |query| ==> Space(query[i])
    ensures Trim(query) != [] ==>
      (Silenced(query) <==>
        exists k :: 0 <= k < |query| && query[k] == ';' &&
          forall j :: k < j < |query| ==> Space(query[j]))
  {
    var e := TrimEnd(query);
    var t := TrimStart(e);
    if e != [] {
      assert !Space(query[|e| - 1]);
    }
    if t != [] {
      assert t[|t| - 1] == e[|e| - 1] == query[|e| - 1];
      if Silenced(query) {
        assert query[|e| - 1] == ';';
      }
      forall k | 0 <= k < |query| && query[k] == ';' && (forall j :: k < j < |query| ==> Space(query[j]))
        ensures k == |e| - 1
      {
        assert !Space(query[k]);
      }
    }
  }

  // ---------------------------------------------------------------------------
  // The resources each operation logs
  // ---------------------------------------------------------------------------

  /** The input resource, made by `new Resource(query)`. */
  function InputOf(query: string, count: int): Resource
  {
    Resource(Input, Value(query), count, false)
  }

  /** The return resource, made by `new Resource(RETURNPKT, result)`. */
  function ReturnOf(result: Expr, count: int): Resource
  {
    Resource(Return, ExprValue(result), count, false)
  }

  /** The display resource, made by `new Resource(DISPLAYPKT, data)`. */
  function DisplayOf(file: FileName, count: int): Resource
  {
    Resource(Display, ImageFile(file), count, false)
  }

  /** A packet the kernel sends while a query runs: its packet type and, for a
      text or message packet, the string `ml.getString()` reads. */
  datatype Packet = TextPacket(text: string) | MessagePacket(text: string) | OtherPacket(code: int)

  /** What `packetArrived` logs for one packet. */
  function PacketEntries(p: Packet, count: int): (r: seq<Resource>)
    ensures |r| == if p.OtherPacket? then 0 else 1
    ensures r != [] ==>
      r[0] == Resource(if p.TextPacket? then Text else Message, Value(p.text), count, false)
  {
    (if p.TextPacket? then [Resource(Text, Value(p.text), count, false)] else []) +
    (if p.MessagePacket? then [Resource(Message, Value(p.text), count, false)] else [])
  }

  /** What `packetArrived` logs for a series of packets, in arrival order. */
  function NotesEntries(ps: seq<Packet>, count: int): (r: seq<Resource>)
    ensures |r| <= |ps|
    ensures forall i :: 0 <= i < |r| ==>
      r[i].count == count && (r[i].kind == Text || r[i].kind == Message) &&
      r[i].payload.Value? && !r[i].subdue
  {
    if ps == [] then [] else NotesEntries(ps[..|ps| - 1], count) + PacketEntries(ps[|ps| - 1], count)
  }

  /** The ways `evaluate` and `evaluateToImage` fail once the input is logged:
      `charAt(-1)` on a query that trims to nothing, an exception from
      `isGraphics`, or a `MathLinkException` from the kernel link. */
  datatype EvalError = BlankQuery | Graphics(error: GraphicsError) | LinkFailure

  /** What `evaluate` logs after the input and the packets, given the kernel's
      result, the packets that arrive while it draws the image and the image
      it draws; `uuid` names the image file.  The image is asked for only
      when the result is graphics. */
  function EvaluateTail(query: string, result: Expr, drawn: seq<Packet>, image: Option<seq<bv8>>, count: int, uuid: nat)
    : (r: Result<seq<Resource>, EvalError>)
    ensures r == Err(BlankQuery) <==> Trim(query) == []
    ensures Trim(query) != [] && !Silenced(query) ==>
      (r.Err? <==> IsGraphics(ReturnOf(result, count)).Err?)
    ensures r.Ok? ==> (r.value == [] <==> Silenced(query))
    ensures r.Ok? && r.value != [] ==>
      r.value[|r.value| - 1] == ReturnOf(result, count).(subdue := IsGraphics(ReturnOf(result, count)) == Ok(true))
    ensures r.Ok? ==> (HasDisplay(r.value) <==>
      !Silenced(query) && IsGraphics(ReturnOf(result, count)) == Ok(true) && image.Some?)
    ensures r.Ok? && HasDisplay(r.value) ==>
      r.value == NotesEntries(drawn, count) + [DisplayOf(Gif(uuid), count), ReturnOf(result, count).(subdue := true)]
    ensures r.Ok? && r.value != [] && !HasDisplay(r.value) ==>
      r.value == (if IsGraphics(ReturnOf(result, count)) == Ok(true) then NotesEntries(drawn, count) else [])
                 + [r.value[|r.value| - 1]]
  {
    if Trim(query) == [] then Err(BlankQuery)
    else if Silenced(query) then Ok([])
    else
      var text := ReturnOf(result, count);
      match IsGraphics(text)
      case Err(e) => Err(Graphics(e))
      case Ok(g) =>
        if !g then Ok([text])
        else Ok(Drawn(drawn, image, text, count, uuid))
  }

  /** The image is drawn: the packets that arrive meanwhile, then the image
      if there is one, then the return, subdued. */
  function Drawn(drawn: seq<Packet>, image: Option<seq<bv8>>, text: Resource, count: int, uuid: nat): (r: seq<Resource>)
    requires text.kind == Return
    ensures HasDisplay(r) <==> image.Some?
    ensures r != [] && r[|r| - 1] == text.(subdue := true)
  {
    var notes, shown := NotesEntries(drawn, count), Shown(image, text, count, uuid);
    assert (notes + shown)[|notes|] == shown[0];
    assert forall i :: 0 <= i < |notes| ==> (notes + shown)[i] == notes[i];
    notes + shown
  }

  /** What `new Resource(DISPLAYPKT, data)` and the subdued return add: the
      image, if the kernel drew one, then the return. */
  function Shown(image: Option<seq<bv8>>, text: Resource, count: int, uuid: nat): (r: seq<Resource>)
    requires text.kind == Return
    ensures HasDisplay(r) <==> image.Some?
    ensures r != [] && r[|r| - 1] == text.(subdue := true) && (r[0].kind == Display <==> image.Some?)
  {
    var shown := if image.Some? then [DisplayOf(Gif(uuid), count), text.(subdue := true)] else [text.(subdue := true)];
    assert shown[0].kind == Display <==> image.Some?;
    shown
  }

  /** What `evaluateToImage` logs after the input and the packets: the image
      is drawn whatever the result, and the return is subdued only when there
      is an image. */
  function ImageTail(query: string, result: Expr, drawn: seq<Packet>, image: Option<seq<bv8>>, count: int, uuid: nat)
    : (r: Result<seq<Resource>, EvalError>)
    ensures r.Err? <==> Trim(query) == []
    ensures r.Ok? ==> (r.value == [] <==> Silenced(query))
    ensures r.Ok? && r.value != [] ==>
      r.value[|r.value| - 1] == ReturnOf(result, count).(subdue := image.Some?)
    ensures r.Ok? ==> (HasDisplay(r.value) <==> !Silenced(query) && image.Some?)
    ensures r.Ok? && HasDisplay(r.value) ==>
      r.value == NotesEntries(drawn, count) + [DisplayOf(Gif(uuid), count), ReturnOf(result, count).(subdue := true)]
    ensures r.Ok? && r.value != [] && !HasDisplay(r.value) ==>
      r.value == NotesEntries(drawn, count) + [ReturnOf(result, count)]
  {
    if Trim(query) == [] then Err(BlankQuery)
    else if Silenced(query) then Ok([])
    else
      var text := ReturnOf(result, count);
      if image.Some? then Ok(Drawn(drawn, image, text, count, uuid))
      else
        var notes := NotesEntries(drawn, count);
        assert forall i :: 0 <= i < |notes| ==> (notes + [text])[i] == notes[i];
        Ok(notes + [text])
  }

  /** The tail `evaluate` logs, spelled out once the query is known not to
      be blank and the graphics test not to raise. */
  lemma EvaluateTailValue(query: string, result: Expr, drawn: seq<Packet>, image: Option<seq<bv8>>, count: int, uuid: nat)
    requires Trim(query) != []
    requires !Silenced(query) ==> IsGraphics(ReturnOf(result, count)).Ok?
    ensures EvaluateTail(query, result, drawn, image, count, uuid) == Ok(
      if Silenced(query) then []
      else if !IsGraphics(ReturnOf(result, count)).value then [ReturnOf(result, count)]
      else Drawn(drawn, image, ReturnOf(result, count), count, uuid))
  {
  }

  lemma EvaluateTailFails(query: string, result: Expr, drawn: seq<Packet>, image: Option<seq<bv8>>, count: int, uuid: nat)
    requires Trim(query) != [] && !Silenced(query) && IsGraphics(ReturnOf(result, count)).Err?
    ensures EvaluateTail(query, result, drawn, image, count, uuid) == Err(Graphics(IsGraphics(ReturnOf(result, count)).error))
  {
  }

  /** The tail `evaluateToImage` logs, spelled out once the query is known
      not to be blank. */
  lemma ImageTailValue(query: string, result: Expr, drawn: seq<Packet>, image: Option<seq<bv8>>, count: int, uuid: nat)
    requires Trim(query) != []
    ensures ImageTail(query, result, drawn, image, count, uuid) == Ok(
      if Silenced(query) then []
      else if image.Some? then Drawn(drawn, image, ReturnOf(result, count), count, uuid)
      else NotesEntries(drawn, count) + [ReturnOf(result, count)])
  {
  }

  /** When an evaluation logs an image, the return cell after it is hidden
      when the transcript is rendered: the input and the packets of the group
      come first, and the display cell precedes the return in the same run. */
  /** A group that shares one count and ends in a return cell that rendering
      hides. */
  predicate ReturnHidden(group: seq<Resource>)
  {
    Uniform(group) &&
    group[|group| - 1].kind == Return &&
    !Visible(group[..|group| - 1], group[|group| - 1])
  }

  lemma ImageHidesReturn(query: string, notes: seq<Packet>, result: Expr, drawn: seq<Packet>, image: Option<seq<bv8>>,
                         count: int, uuid: nat, tail: seq<Resource>)
    requires EvaluateTail(query, result, drawn, image, count, uuid) == Ok(tail)
    requires HasDisplay(tail)
    ensures ReturnHidden([InputOf(query, count)] + NotesEntries(notes, count) + tail)
  {
    var input, before, during := InputOf(query, count), NotesEntries(notes, count), NotesEntries(drawn, count);
    var last := [DisplayOf(Gif(uuid), count), ReturnOf(result, count).(subdue := true)];
    assert tail == during + last;
    NotesJoin(before, during, count);
    GroupEndsHidden(input, before + during, last, count);
    Regroup([input], before, during, last);
  }

  lemma Regroup(x: seq<Resource>, a: seq<Resource>, b: seq<Resource>, c: seq<Resource>)
    ensures x + a + (b + c) == x + (a + b) + c
  {
  }

  /** Two series of entries of one count joined are still of that count. */
  lemma NotesJoin(a: seq<Resource>, b: seq<Resource>, count: int)
    requires forall k :: 0 <= k < |a| ==> a[k].count == count
    requires forall k :: 0 <= k < |b| ==> b[k].count == count
    ensures forall k :: 0 <= k < |a + b| ==> (a + b)[k].count == count
  {
  }

  lemma GroupEndsHidden(input: Resource, notes: seq<Resource>, tail: seq<Resource>, count: int)
    requires input.count == count
    requires forall k :: 0 <= k < |notes| ==> notes[k].count == count
    requires |tail| == 2 && tail[0].kind == Display && tail[1].kind == Return
    requires tail[0].count == count && tail[1].count == count
    ensures ReturnHidden([input] + notes + tail)
  {
    var group := [input] + notes + tail;
    var before := group[..|group| - 1];
    assert before[|notes| + 1] == tail[0];
    forall k | 0 <= k < |group| ensures group[k].count == count {
      if 0 < k <= |notes| {
        assert group[k] == notes[k - 1];
      } else if k > |notes| {
        assert group[k] == tail[k - |notes| - 1];
      }
    }
  }

  // ---------------------------------------------------------------------------
  // Files
  // ---------------------------------------------------------------------------

  /** What a file in the session folder holds. */
  datatype FileContent = ImageBytes(data: seq<bv8>) | PageText(text: string)

  /** The image files the resources of a log name. */
  function ImageFiles(rs: seq<Resource>): set<FileName>
  {
    if rs == [] then {} else FilesOf(rs[0]) + ImageFiles(rs[1..])
  }

  function FilesOf(r: Resource): set<FileName>
  {
    if r.payload.ImageFile? then {r.payload.file} else {}
  }

  /** No two resources of the log name the same image file. */
  predicate DistinctFiles(rs: seq<Resource>)
  {
    rs == [] || (FilesOf(rs[0]) !! ImageFiles(rs[1..]) && DistinctFiles(rs[1..]))
  }

  /** A resource's payload fits its type: a display names a `.gif` file, a
      return holds an expression, the others hold a string. */
  predicate WellTyped(r: Resource)
  {
    (r.kind == Display <==> r.payload.ImageFile?) &&
    (r.kind == Return <==> r.payload.ExprValue?) &&
    (r.payload.ImageFile? ==> r.payload.file.Gif?)
  }

  lemma {:induction false} ImageFilesAppend(a: seq<Resource>, b: seq<Resource>)
    ensures ImageFiles(a + b) == ImageFiles(a) + ImageFiles(b)
    decreases |a|
  {
    if a != [] {
      assert (a + b)[1..] == a[1..] + b;
      ImageFilesAppend(a[1..], b);
    } else {
      assert a + b == b;
    }
  }

  lemma {:induction false} DistinctAppend(a: seq<Resource>, b: seq<Resource>)
    requires DistinctFiles(a) && DistinctFiles(b) && ImageFiles(a) !! ImageFiles(b)
    ensures DistinctFiles(a + b)
    decreases |a|
  {
    if a != [] {
      assert (a + b)[1..] == a[1..] + b;
      ImageFilesAppend(a[1..], b);
      DistinctAppend(a[1..], b);
    } else {
      assert a + b == b;
    }
  }

  lemma {:induction false} ImageFilesMember(rs: seq<Resource>, i: int)
    requires 0 <= i < |rs| && rs[i].payload.ImageFile?
    ensures rs[i].payload.file in ImageFiles(rs)
    decreases i
  {
    if i > 0 {
      ImageFilesMember(rs[1..], i - 1);
    }
  }

  lemma {:induction false} NoImages(rs: seq<Resource>)
    requires forall i :: 0 <= i < |rs| ==> !rs[i].payload.ImageFile?
    ensures ImageFiles(rs) == {}
    decreases |rs|
  {
    if rs != [] {
      NoImages(rs[1..]);
    }
  }

  /** The error `render` reports: the layout file `layout.html.erb` cannot be
      read, the view file cannot be created (the session folder is gone), or
      the layout has no yield token. */
  datatype RenderError = NoLayoutFile | CannotCreateView | Layout(error: LayoutError)

  /** The page `render` writes for a given transcript content. */
  function PageOf(layout: Option<string>, content: string): (r: Result<string, RenderError>)
    ensures layout.None? ==> r == Err(NoLayoutFile)
    ensures layout.Some? ==> (r.Ok? <==> exists j :: OccursAt(layout.value, YieldToken, j))
    ensures r.Ok? ==> exists pre, post ::
      layout.value == pre + YieldToken + post && r.value == pre + content + post
  {
    if layout.None? then Err(NoLayoutFile)
    else
      ApplyLayoutReplacesFirstToken(layout.value, content);
      match ApplyLayout(layout.value, content)
      case Err(e) => Err(Layout(e))
      case Ok(page) => Ok(page)
  }

  // ---------------------------------------------------------------------------
  // Static `delete`: removing a file tree
  // ---------------------------------------------------------------------------

  /** A file or directory, and whether `File.delete` is allowed on it. */
  datatype Node = FileNode(name: string, removable: bool)
                | DirNode(name: string, removable: bool, children: seq<Node>)

  /** Every node of the tree can be deleted. */
  predicate AllRemovable(n: Node)
  {
    n.removable && (n.DirNode? ==> forall i :: 0 <= i < |n.children| ==> AllRemovable(n.children[i]))
  }

  /** `delete(file)`: the children of a directory first, stopping at the first
      that fails, then the node itself, which `File.delete` removes only when it
      is allowed and, for a directory, when it is empty.  The result is the
      returned flag and what is left of the tree. */
  function Delete(n: Node): (r: (bool, Option<Node>))
    decreases n, 1
  {
    match n
    case FileNode(_, ok) => if ok then (true, None) else (false, Some(n))
    case DirNode(name, ok, cs) =>
      var (done, rest) := DeleteChildren(cs);
      if !done then (false, Some(DirNode(name, ok, rest)))
      else if ok then (true, None)
      else (false, Some(DirNode(name, ok, [])))
  }

  /** The loop over `listFiles()`: the result tells whether every child was
      deleted, and lists what is left of the children. */
  function DeleteChildren(cs: seq<Node>): (r: (bool, seq<Node>))
    decreases cs, 0
    ensures r.0 ==> r.1 == []
  {
    if cs == [] then (true, [])
    else
      var (done, rest) := Delete(cs[0]);
      if !done then (false, (if rest.Some? then [rest.value] else []) + cs[1..])
      else DeleteChildren(cs[1..])
  }

  /** `delete` returns true exactly when the whole tree can be deleted, and
      then nothing of it is left; when it returns false something is left. */
  lemma {:induction false} DeleteSucceedsIff(n: Node)
    ensures Delete(n).0 <==> AllRemovable(n)
    ensures Delete(n).0 <==> Delete(n).1 == None
    decreases n
  {
    match n
    case FileNode(_, _) =>
    case DirNode(name, ok, cs) =>
      DeleteChildrenSucceedsIff(cs);
  }

  lemma {:induction false} DeleteChildrenSucceedsIff(cs: seq<Node>)
    ensures DeleteChildren(cs).0 <==> forall i :: 0 <= i < |cs| ==> AllRemovable(cs[i])
    decreases cs
  {
    if cs != [] {
      DeleteSucceedsIff(cs[0]);
      if Delete(cs[0]).0 {
        DeleteChildrenSucceedsIff(cs[1..]);
        assert forall i :: 1 <= i < |cs| ==> cs[i] == cs[1..][i - 1];
      }
    }
  }

  // ---------------------------------------------------------------------------
  // The session object
  // ---------------------------------------------------------------------------

  /** The log invariant: every resource is stamped with a count no later than
      the counter, counts never decrease along the log, payloads fit types,
      and no two resources share an image file. */
  predicate Logged(rs: seq<Resource>, counter: int)
  {
    0 <= counter &&
    (forall i :: 0 <= i < |rs| ==> 0 <= rs[i].count <= counter && WellTyped(rs[i])) &&
    (forall i, j :: 0 <= i < j < |rs| ==> rs[i].count <= rs[j].count) &&
    DistinctFiles(rs)
  }

  lemma LoggedSnoc(rs: seq<Resource>, counter: int, x: Resource)
    requires Logged(rs, counter) && x.count == counter && WellTyped(x)
    requires FilesOf(x) !! ImageFiles(rs)
    ensures Logged(rs + [x], counter)
    ensures ImageFiles(rs + [x]) == ImageFiles(rs) + FilesOf(x)
  {
    assert [x][1..] == [];
    ImageFilesAppend(rs, [x]);
    DistinctAppend(rs, [x]);
  }

  lemma {:induction false} ImageFilesAreGif(rs: seq<Resource>)
    requires forall i :: 0 <= i < |rs| ==> WellTyped(rs[i])
    ensures forall f :: f in ImageFiles(rs) ==> f.Gif?
    decreases |rs|
  {
    if rs != [] {
      assert forall i :: 0 <= i < |rs| - 1 ==> rs[1..][i] == rs[i + 1];
      ImageFilesAreGif(rs[1..]);
    }
  }

  class Resources {
    const sessionId: string
    const cacheFolder: string
    /** The resource log, in the order resources were added. */
    var resources: seq<Resource>
    /** The count the next resource is stamped with. */
    var currentCount: int
    /** The page `render` wrote last, if any. */
    var resourceView: Option<FileName>
    /** The files of the session folder and what they hold. */
    var disk: map<FileName, FileContent>
    /** Whether the session folder exists. */
    var folderExists: bool
    /** Whether the kernel link is open. */
    var linked: bool
    /** The fresh-name supply standing for `UUID.randomUUID()`. */
    var nextUuid: nat

    /** `getSessionFolder`, as the path the pages refer to. */
    function SessionFolder(): string
    {
      cacheFolder + "/" + sessionId
    }

    /** The session's invariant: the log invariant; every image file of the
        log is on disk; the folder holds nothing but those files and the
        current view; every name on disk or in use is a name the supply has
        handed out; an open link has a folder, and a folder that is gone is
        empty. */
    ghost predicate Valid()
      reads this
    {
      Logged(resources, currentCount) &&
      ImageFiles(resources) <= disk.Keys &&
      (forall f :: f in disk ==> f in ImageFiles(resources) || resourceView == Some(f)) &&
      (forall f :: f in disk ==> f.uuid < nextUuid) &&
      (resourceView.Some? ==> resourceView.value.Page? && resourceView.value.uuid < nextUuid) &&
      (linked ==> folderExists) &&
      (!folderExists ==> disk == map[])
    }

    /** The constructor: counter 0, no view, an open kernel link, and a
        freshly made, empty session folder.  The listener is registered
        before `discardAnswer`, so the packets the kernel sends as it starts
        up, `banner`, are the first entries of the log, at count 0. */
    constructor(sessionId: string, cacheFolder: string, banner: seq<Packet>)
      ensures Valid()
      ensures this.sessionId == sessionId && this.cacheFolder == cacheFolder
      ensures resources == NotesEntries(banner, 0) && currentCount == 0 && resourceView == None
      ensures disk == map[] && folderExists && linked
    {
      this.sessionId := sessionId;
      this.cacheFolder := cacheFolder;
      resources := [];
      currentCount := 0;
      resourceView := None;
      disk := map[];
      folderExists := true;
      linked := true;
      nextUuid := 0;
      new;
      Await(banner);
      assert [] + NotesEntries(banner, 0) == NotesEntries(banner, 0);
    }

    /** `resources.add` of a resource made now, which is not an image. */
    method Log(x: Resource)
      requires Valid() && x.count == currentCount && WellTyped(x) && !x.payload.ImageFile?
      modifies this
      ensures Valid()
      ensures resources == old(resources) + [x]
      ensures currentCount == old(currentCount) && resourceView == old(resourceView) && disk == old(disk)
      ensures folderExists == old(folderExists) && linked == old(linked) && nextUuid == old(nextUuid)
    {
      LoggedSnoc(resources, currentCount, x);
      resources := resources + [x];
    }

    /** `resources.add(new Resource(DISPLAYPKT, data))`: the constructor
        writes the bytes to a fresh `.gif` file of the session folder. */
    method LogDisplay(data: seq<bv8>)
      requires Valid() && linked
      modifies this
      ensures Valid()
      ensures Gif(old(nextUuid)) !in old(disk)
      ensures disk == old(disk)[Gif(old(nextUuid)) := ImageBytes(data)]
      ensures resources == old(resources) + [DisplayOf(Gif(old(nextUuid)), currentCount)]
      ensures nextUuid == old(nextUuid) + 1
      ensures currentCount == old(currentCount) && resourceView == old(resourceView)
      ensures folderExists == old(folderExists) && linked == old(linked)
    {
      var f := Gif(nextUuid);
      LoggedSnoc(resources, currentCount, DisplayOf(f, currentCount));
      nextUuid := nextUuid + 1;
      disk := disk[f := ImageBytes(data)];
      resources := resources + [DisplayOf(f, currentCount)];
    }

    /** `packetArrived`: a text or a message packet logs one resource holding
        the packet's string; any other packet logs nothing. */
    method PacketArrived(p: Packet) returns (handled: bool)
      requires Valid()
      modifies this
      ensures Valid()
      ensures handled
      ensures resources == old(resources) + PacketEntries(p, currentCount)
      ensures currentCount == old(currentCount) && resourceView == old(resourceView) && disk == old(disk)
      ensures folderExists == old(folderExists) && linked == old(linked) && nextUuid == old(nextUuid)
    {
      if p.TextPacket? {
        Log(Resource(Text, Value(p.text), currentCount, false));
      }
      if p.MessagePacket? {
        Log(Resource(Message, Value(p.text), currentCount, false));
      }
      handled := true;
    }

    /** `waitForAnswer`: the packets the kernel sends arrive one by one. */
    method Await(notes: seq<Packet>)
      requires Valid()
      modifies this
      ensures Valid()
      ensures resources == old(resources) + NotesEntries(notes, currentCount)
      ensures currentCount == old(currentCount) && resourceView == old(resourceView) && disk == old(disk)
      ensures folderExists == old(folderExists) && linked == old(linked) && nextUuid == old(nextUuid)
    {
      ghost var log, count := resources, currentCount;
      var k := 0;
      while k < |notes|
        invariant 0 <= k <= |notes|
        invariant Valid() && currentCount == count
        invariant resources == log + NotesEntries(notes[..k], count)
        invariant resourceView == old(resourceView) && disk == old(disk)
        invariant folderExists == old(folderExists) && linked == old(linked) && nextUuid == old(nextUuid)
      {
        ghost var before := resources;
        var _ := PacketArrived(notes[k]);
        NotesStep(log, notes, k, count, before, resources);
        k := k + 1;
      }
      assert notes[..|notes|] == notes;
    }

    /** `evaluate`: the input is logged first; then the packets the kernel
        sends; then, unless the query is silenced, the return, preceded, when
        the result is graphics, by the packets that arrive while the kernel
        draws it and by the image if it draws one, and subdued whenever the
        result is graphics.  The counter advances by one at the end; a
        failure on the way leaves it where it was.  On a closed link the
        kernel call fails at once; `answered` is false when the link fails
        while the answer is awaited, after the packets have arrived. */
    method Evaluate(query: string, notes: seq<Packet>, answered: bool, result: Expr, drawn: seq<Packet>,
                    image: Option<seq<bv8>>)
      returns (outcome: Result<(), EvalError>)
      requires Valid()
      modifies this
      ensures Valid()
      ensures Appended(Awaited(old(resources), query, notes, old(currentCount), old(linked)),
                       old(currentCount), old(disk), old(nextUuid),
                       if old(linked) && answered then EvaluateTail(query, result, drawn, image, old(currentCount), old(nextUuid))
                       else Err(LinkFailure),
                       image, outcome, resources, currentCount, disk, nextUuid)
      ensures resourceView == old(resourceView) && folderExists == old(folderExists) && linked == old(linked)
    {
      Log(InputOf(query, currentCount));
      if !linked {
        return Err(LinkFailure);
      }
      Await(notes);
      if !answered {
        return Err(LinkFailure);
      }
      outcome := Answer(query, result, drawn, image);
    }

    /** What `evaluate` does once the kernel has answered. */
    method Answer(query: string, result: Expr, drawn: seq<Packet>, image: Option<seq<bv8>>)
      returns (outcome: Result<(), EvalError>)
      requires Valid() && linked
      modifies this
      ensures Valid()
      ensures Appended(old(resources), old(currentCount), old(disk), old(nextUuid),
                       EvaluateTail(query, result, drawn, image, old(currentCount), old(nextUuid)), image,
                       outcome, resources, currentCount, disk, nextUuid)
      ensures resourceView == old(resourceView) && folderExists == old(folderExists) && linked == old(linked)
    {
      if Trim(query) == [] {
        return Err(BlankQuery);
      }
      if !Silenced(query) {
        var text := ReturnOf(result, currentCount);
        var graphics := IsGraphics(text);
        if graphics.Err? {
          EvaluateTailFails(query, result, drawn, image, currentCount, nextUuid);
          return Err(Graphics(graphics.error));
        }
        if graphics.value {
          Draw(text, drawn, image);
        } else {
          Log(text);
        }
      }
      EvaluateTailValue(query, result, drawn, image, old(currentCount), old(nextUuid));
      Bump();
      outcome := Ok(());
    }

    /** `currentCount++`. */
    method Bump()
      requires Valid()
      modifies this
      ensures Valid()
      ensures currentCount == old(currentCount) + 1
      ensures resources == old(resources) && resourceView == old(resourceView) && disk == old(disk)
      ensures folderExists == old(folderExists) && linked == old(linked) && nextUuid == old(nextUuid)
    {
      currentCount := currentCount + 1;
    }

    /** `evaluateToImage`: as `evaluate`, but the image is asked for whatever
        the result is, and the return is subdued only when there is one. */
    method EvaluateToImage(query: string, notes: seq<Packet>, answered: bool, result: Expr, drawn: seq<Packet>,
                           image: Option<seq<bv8>>)
      returns (outcome: Result<(), EvalError>)
      requires Valid()
      modifies this
      ensures Valid()
      ensures Appended(Awaited(old(resources), query, notes, old(currentCount), old(linked)),
                       old(currentCount), old(disk), old(nextUuid),
                       if old(linked) && answered then ImageTail(query, result, drawn, image, old(currentCount), old(nextUuid))
                       else Err(LinkFailure),
                       image, outcome, resources, currentCount, disk, nextUuid)
      ensures resourceView == old(resourceView) && folderExists == old(folderExists) && linked == old(linked)
    {
      Log(InputOf(query, currentCount));
      if !linked {
        return Err(LinkFailure);
      }
      Await(notes);
      if !answered {
        return Err(LinkFailure);
      }
      outcome := AnswerWithImage(query, result, drawn, image);
    }

    /** What `evaluateToImage` does once the kernel has answered. */
    method AnswerWithImage(query: string, result: Expr, drawn: seq<Packet>, image: Option<seq<bv8>>)
      returns (outcome: Result<(), EvalError>)
      requires Valid() && linked
      modifies this
      ensures Valid()
      ensures Appended(old(resources), old(currentCount), old(disk), old(nextUuid),
                       ImageTail(query, result, drawn, image, old(currentCount), old(nextUuid)), image,
                       outcome, resources, currentCount, disk, nextUuid)
      ensures resourceView == old(resourceView) && folderExists == old(folderExists) && linked == old(linked)
    {
      if Trim(query) == [] {
        return Err(BlankQuery);
      }
      if !Silenced(query) {
        var text := ReturnOf(result, currentCount);
        if image.Some? {
          Draw(text, drawn, image);
        } else {
          Undrawn(text, drawn);
        }
      }
      ImageTailValue(query, result, drawn, image, old(currentCount), old(nextUuid));
      Bump();
      outcome := Ok(());
    }

    /** The kernel draws the result: the packets it sends meanwhile, then the
        image if it drew one, which goes to a fresh `.gif` file, then the
        return, subdued. */
    method Draw(text: Resource, drawn: seq<Packet>, image: Option<seq<bv8>>)
      requires Valid() && linked
      requires text.kind == Return && text.count == currentCount && WellTyped(text) && !text.payload.ImageFile?
      modifies this
      ensures Valid()
      ensures resources == old(resources) + Drawn(drawn, image, text, old(currentCount), old(nextUuid))
      ensures image.Some? ==>
        disk == old(disk)[Gif(old(nextUuid)) := ImageBytes(image.value)] && nextUuid == old(nextUuid) + 1
      ensures image.None? ==> disk == old(disk) && nextUuid == old(nextUuid)
      ensures currentCount == old(currentCount) && resourceView == old(resourceView)
      ensures folderExists == old(folderExists) && linked == old(linked)
    {
      Await(drawn);
      ghost var mid := resources;
      if image.Some? {
        LogDisplay(image.value);
      }
      Log(text.(subdue := true));
      ghost var notes, shown := NotesEntries(drawn, old(currentCount)), Shown(image, text, old(currentCount), old(nextUuid));
      assert resources == mid + shown;
      assert old(resources) + notes + shown == old(resources) + (notes + shown);
    }

    /** The kernel draws no image: the packets it sends meanwhile, then the
        return as it is. */
    method Undrawn(text: Resource, drawn: seq<Packet>)
      requires Valid() && text.count == currentCount && WellTyped(text) && !text.payload.ImageFile?
      modifies this
      ensures Valid()
      ensures resources == old(resources) + (NotesEntries(drawn, old(currentCount)) + [text])
      ensures currentCount == old(currentCount) && resourceView == old(resourceView) && disk == old(disk)
      ensures folderExists == old(folderExists) && linked == old(linked) && nextUuid == old(nextUuid)
    {
      Await(drawn);
      Log(text);
      assert old(resources) + NotesEntries(drawn, old(currentCount)) + [text] ==
             old(resources) + (NotesEntries(drawn, old(currentCount)) + [text]);
    }

    /** `Resource.release`: a display resource deletes its image file. */
    method ReleaseResource(r: Resource)
      modifies this
      ensures disk == if r.kind == Display then old(disk) - FilesOf(r) else old(disk)
      ensures resources == old(resources) && currentCount == old(currentCount)
      ensures resourceView == old(resourceView) && nextUuid == old(nextUuid)
      ensures folderExists == old(folderExists) && linked == old(linked)
    {
      if r.kind == Display && r.payload.ImageFile? {
        disk := disk - {r.payload.file};
      }
    }

    /** `release`: deletes the view file, then releases and removes the
        resources from the front until the log is empty.  The folder ends up
        empty; the counter and the view name are kept. */
    method Release()
      requires Valid()
      modifies this
      ensures Valid()
      ensures resources == [] && disk == map[]
      ensures currentCount == old(currentCount) && resourceView == old(resourceView)
      ensures folderExists == old(folderExists) && linked == old(linked) && nextUuid == old(nextUuid)
    {
      DeleteView();
      ImageFilesAreGif(resources);
      assert disk.Keys == ImageFiles(resources);
      while resources != []
        invariant Logged(resources, currentCount)
        invariant disk.Keys == ImageFiles(resources)
        invariant forall f :: f in disk ==> f.uuid < nextUuid
        invariant currentCount == old(currentCount) && resourceView == old(resourceView)
        invariant folderExists == old(folderExists) && linked == old(linked) && nextUuid == old(nextUuid)
        decreases |resources|
      {
        ReleaseResource(resources[0]);
        LoggedTail(resources, currentCount);
        resources := resources[1..];
      }
    }

    /** `close`: closes the kernel link, releases everything, and deletes the
        session folder, which is empty by then. */
    method Close()
      requires Valid()
      modifies this
      ensures Valid()
      ensures !linked && !folderExists && resources == [] && disk == map[]
      ensures currentCount == old(currentCount) && resourceView == old(resourceView) && nextUuid == old(nextUuid)
    {
      linked := false;
      Release();
      if folderExists {
        folderExists := false;
      }
    }

    /** `render`: deletes the old view file, renders the log, names a fresh
        view, creates its file, and writes the layout with the content in
        place of its yield token.  When the layout cannot be used, the new
        view file is left empty; when the folder is gone, no file is made. */
    method Render(layout: Option<string>) returns (page: Result<FileName, RenderError>)
      requires Valid()
      modifies this
      ensures Valid()
      ensures resources == old(resources) && currentCount == old(currentCount)
      ensures folderExists == old(folderExists) && linked == old(linked)
      ensures nextUuid == old(nextUuid) + 1 && resourceView == Some(Page(old(nextUuid)))
      ensures ViewWritten(WithoutView(old(disk), old(resourceView)), old(folderExists), Page(old(nextUuid)),
                          PageOf(layout, Content(sessionId, SessionFolder(), old(resources))), page, disk)
    {
      DeleteView();
      var content := RenderContent(sessionId, SessionFolder(), resources);
      page := WriteView(content, layout);
    }

    /** The start of `render`: the current view file, if any, is deleted. */
    method DeleteView()
      requires Valid()
      modifies this
      ensures Valid()
      ensures disk == WithoutView(old(disk), old(resourceView))
      ensures resources == old(resources) && currentCount == old(currentCount) && resourceView == old(resourceView)
      ensures folderExists == old(folderExists) && linked == old(linked) && nextUuid == old(nextUuid)
    {
      ImageFilesAreGif(resources);
      if resourceView.Some? {
        disk := disk - {resourceView.value};
      }
    }

    /** The end of `render`: a fresh view name, its file created, and the page
        written into it. */
    method WriteView(content: string, layout: Option<string>) returns (page: Result<FileName, RenderError>)
      requires Valid() && (resourceView.Some? ==> resourceView.value !in disk)
      modifies this
      ensures Valid()
      ensures resources == old(resources) && currentCount == old(currentCount)
      ensures folderExists == old(folderExists) && linked == old(linked)
      ensures nextUuid == old(nextUuid) + 1 && resourceView == Some(Page(old(nextUuid)))
      ensures ViewWritten(old(disk), old(folderExists), Page(old(nextUuid)), PageOf(layout, content), page, disk)
    {
      var view := Page(nextUuid);
      nextUuid := nextUuid + 1;
      resourceView := Some(view);
      if !folderExists {
        return Err(CannotCreateView);
      }
      disk := disk[view := PageText("")];
      if layout.None? {
        return Err(NoLayoutFile);
      }
      var text := ApplyLayout(layout.value, content);
      if text.Err? {
        return Err(Layout(text.error));
      }
      disk := disk[view := PageText(text.value)];
      page := Ok(view);
    }
  }

  lemma NotesPrefix(notes: seq<Packet>, k: nat, count: int)
    requires k < |notes|
    ensures NotesEntries(notes[..k + 1], count) == NotesEntries(notes[..k], count) + PacketEntries(notes[k], count)
  {
    assert notes[..k + 1][..k] == notes[..k];
  }

  /** The log after one more packet, read from the log before it. */
  lemma NotesStep(log: seq<Resource>, notes: seq<Packet>, k: nat, count: int, before: seq<Resource>, after: seq<Resource>)
    requires k < |notes|
    requires before == log + NotesEntries(notes[..k], count)
    requires after == before + PacketEntries(notes[k], count)
    ensures after == log + NotesEntries(notes[..k + 1], count)
  {
    NotesPrefix(notes, k, count);
    var a, b := NotesEntries(notes[..k], count), PacketEntries(notes[k], count);
    assert (log + a) + b == log + (a + b);
  }

  lemma LoggedTail(rs: seq<Resource>, counter: int)
    requires Logged(rs, counter) && rs != []
    ensures Logged(rs[1..], counter)
    ensures ImageFiles(rs[1..]) == ImageFiles(rs) - FilesOf(rs[0])
  {
  }

  /** The state after the kernel's answer is logged: on failure nothing
      changed; on success the tail follows the log, the counter is one further
      on, and an image in the tail was written to the fresh file it names. */
  ghost predicate Appended(log: seq<Resource>, counter: int, files: map<FileName, FileContent>, uuid: nat,
                           tail: Result<seq<Resource>, EvalError>, image: Option<seq<bv8>>,
                           outcome: Result<(), EvalError>,
                           log': seq<Resource>, counter': int, files': map<FileName, FileContent>, uuid': nat)
  {
    match tail
    case Err(e) =>
      outcome == Err(e) && log' == log && counter' == counter && files' == files && uuid' == uuid
    case Ok(t) =>
      outcome == Ok(()) && log' == log + t && counter' == counter + 1 &&
      if HasDisplay(t) then
        image.Some? && files' == files[Gif(uuid) := ImageBytes(image.value)] && uuid' == uuid + 1
      else
        files' == files && uuid' == uuid
  }

  /** The log once the input is logged and, on an open link, the packets
      the kernel sends have arrived. */
  function Awaited(log: seq<Resource>, query: string, notes: seq<Packet>, count: int, linked: bool): seq<Resource>
  {
    log + [InputOf(query, count)] + if linked then NotesEntries(notes, count) else []
  }

  /** The folder once the view file is deleted. */
  function WithoutView(files: map<FileName, FileContent>, view: Option<FileName>): map<FileName, FileContent>
  {
    if view.Some? then files - {view.value} else files
  }

  /** The files `render` leaves: unless the folder is gone, the fresh view
      holds the page, or nothing when the page could not be made; the result
      names the view or the failure. */
  ghost predicate ViewWritten(files: map<FileName, FileContent>, folder: bool, view: FileName,
                              text: Result<string, RenderError>,
                              page: Result<FileName, RenderError>, files': map<FileName, FileContent>)
  {
    if !folder then
      page == Err(CannotCreateView) && files' == files
    else
      files' == files[view := PageText(if text.Ok? then text.value else "")] &&
      match text
      case Ok(_) => page == Ok(view)
      case Err(e) => page == Err(e)
  }
}
