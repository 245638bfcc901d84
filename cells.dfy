/**
 * The inner class `Resources.Resource`: one logged unit of session output,
 * its graphics classification and its rendering as one HTML cell.
 */
module Cells {
  import opened Wrappers
  import Html

  /** A kernel expression, kept abstract: its head's name, its parts and the
      text `Expr.toString()` gives for it. */
  datatype Expr = Expr(head: string, parts: seq<Expr>, form: string)

  /** The type of a resource: `Input` is the source's type -1, the others are
      the J/Link packet types TEXTPKT, MESSAGEPKT, DISPLAYPKT and RETURNPKT. */
  datatype Kind = Input | Text | Message | Display | Return

  /** A file in the session folder, named by a fresh UUID and an extension. */
  datatype FileName = Gif(uuid: nat) | Page(uuid: nat)

  /** What a resource holds: `value` (a string), `expr`, or, for a display
      resource, the name of the image file that holds its bytes. */
  datatype Payload = Value(text: string) | ExprValue(expr: Expr) | ImageFile(file: FileName)

  /** A resource: its type, payload, the group count in force when it was made,
      and the `subdue` flag. */
  datatype Resource = Resource(kind: Kind, payload: Payload, count: int, subdue: bool)

  /** The exceptions `isGraphics` can raise. */
  datatype GraphicsError =
    | NotReturnPacket   // the RuntimeException for a resource that is not RETURNPKT
    | NoFirstPart       // `expr.part(1)` on a `List` with no parts

  /** Decimal text of an integer, as Java's string concatenation writes it. */
  function IntToString(n: int): (s: string)
    ensures |s| >= 1
  {
    if n < 0 then "-" + NatToString(-n) else NatToString(n)
  }

  function NatToString(n: nat): (s: string)
    ensures |s| >= 1
    ensures forall i :: 0 <= i < |s| ==> '0' <= s[i] <= '9'
  {
    var d := ["0123456789"[n % 10]];
    if n < 10 then d else NatToString(n / 10) + d
  }

  /** The text of a `UUID.randomUUID()`; its format is kept abstract. */
  function UuidText(uuid: nat): string
  {
    NatToString(uuid)
  }

  /** The file name as a string: the UUID text and `.gif` or `.html`. */
  function FileText(f: FileName): string
  {
    match f
    case Gif(u) => UuidText(u) + ".gif"
    case Page(u) => UuidText(u) + ".html"
  }

  /** The string `getHtmlEscapedValue` starts from: `value` when it is set,
      otherwise `expr.toString()`. */
  function Base(r: Resource): string
  {
    match r.payload
    case Value(s) => s
    case ExprValue(e) => e.form
    case ImageFile(f) => FileText(f)
  }

  function EndsWith(s: string, suffix: string): bool
  {
    |suffix| <= |s| && s[|s| - |suffix|..] == suffix
  }

  /** `Resource.isGraphics`, branch for branch. */
  function IsGraphics(r: Resource): Result<bool, GraphicsError>
  {
    if r.kind != Return then Err(NotReturnPacket)
    else if !r.payload.ExprValue? then Ok(false)
    else
      var e := r.payload.expr;
      if e.head == "InputForm" then Ok(false)
      else if e.head == "Graphics" then Ok(true)
      else if e.head == "Graphics3D" then Ok(true)
      else if EndsWith(e.head, "Form") then Ok(true)
      else if e.head == "List" then
        if |e.parts| == 0 then Err(NoFirstPart)
        else
          var sub := e.parts[0].head;
          if sub == "InputForm" then Ok(false)
          else if sub == "Graphics" then Ok(true)
          else if sub == "Graphics3D" then Ok(true)
          else if EndsWith(sub, "Form") then Ok(true)
          else Ok(false)
      else Ok(false)
  }

  /** The classification table: a head denotes graphics when it is `Graphics`,
      `Graphics3D` or any name ending in `Form`, except `InputForm`. */
  predicate GraphicsHead(h: string)
  {
    h != "InputForm" && (h == "Graphics" || h == "Graphics3D" || EndsWith(h, "Form"))
  }

  /** `isGraphics` applies the table to the head, and, for a `List`, to the head
      of its first part; it raises for any resource other than a return. */
  lemma IsGraphicsClassifies(r: Resource)
    ensures r.kind != Return <==> IsGraphics(r) == Err(NotReturnPacket)
    ensures r.kind == Return && r.payload.ExprValue? ==>
      var e := r.payload.expr;
      if e.head == "List" && |e.parts| == 0 then IsGraphics(r) == Err(NoFirstPart)
      else IsGraphics(r) == Ok(GraphicsHead(e.head) || (e.head == "List" && GraphicsHead(e.parts[0].head)))
  {
    if r.kind == Return && r.payload.ExprValue? {
      var e := r.payload.expr;
      assert e.head == "List" ==> !EndsWith(e.head, "Form") by {
        if e.head == "List" {
          assert e.head[|e.head| - 4..] == "List";
        }
      }
    }
  }

  /** `InputForm` is never graphics, although its name ends in `Form`. */
  lemma InputFormIsNotGraphics(parts: seq<Expr>, form: string)
    ensures EndsWith("InputForm", "Form")
    ensures IsGraphics(Resource(Return, ExprValue(Expr("InputForm", parts, form)), 0, false)) == Ok(false)
  {
    assert "InputForm"[5..] == "Form";
  }

  /** Only one level of `List` is unwrapped: a list whose first part is a list
      of graphics is not graphics. */
  lemma OneListLevelOnly(g: Expr, form: string)
    requires g.head == "Graphics"
    ensures IsGraphics(Resource(Return, ExprValue(Expr("List", [Expr("List", [g], form)], form)), 0, false)) == Ok(false)
    ensures IsGraphics(Resource(Return, ExprValue(Expr("List", [g], form)), 0, false)) == Ok(true)
  {
    assert !EndsWith("List", "Form") by { assert "List"[0..] == "List"; }
  }

  /** The ` style='display:none;'` attribute of an invisible cell. */
  function Style(visible: bool): string
  {
    if visible then "" else " style='display:none;'"
  }

  /** The role class of each type of cell. */
  function ClassName(k: Kind): string
  {
    match k
    case Input => "input"
    case Text => "text"
    case Message => "message"
    case Display => "display"
    case Return => "return"
  }

  /** The margin label of each type of cell. */
  function Label(k: Kind): string
  {
    match k
    case Input => "In"
    case Text => "Msg"
    case Message => "Msg"
    case Display => "Out"
    case Return => "Out"
  }

  /** The opening tag of a cell, up to where the style attribute goes; only a
      return cell carries ` subdue`, and only when its flag is set. */
  function CellOpening(r: Resource): string
  {
    match r.kind
    case Input => "<div class='cell input'"
    case Text => "<div class='cell text'"
    case Message => "<div class='cell message'"
    case Display => "<div class='cell display'"
    case Return => "<div class='cell return" + (if r.subdue then " subdue" else "") + "'"
  }

  /** The margin of a cell, with its label and group count. */
  function CellMargin(r: Resource): string
  {
    var count := IntToString(r.count);
    match r.kind
    case Input => "  <div class='margin'>In[" + count + "] := </div>"
    case Text => "  <div class='margin'>Msg[" + count + "] := </div>"
    case Message => "  <div class='margin'>Msg[" + count + "] := </div>"
    case Display => "  <div class='margin'>Out[" + count + "] := </div>"
    case Return => "  <div class='margin'>Out[" + count + "] := </div>"
  }

  /** The content region of a cell: an image reference for a display cell,
      the escaped text for any other. */
  function CellContent(r: Resource, folder: string): string
  {
    if r.kind == Display then
      "  <div class='content'>"
      + "    <img src='" + folder + "/" + Base(r) + "' onclick='toggle(" + IntToString(r.count) + ")' />"
      + "  </div>"
    else
      "  <div class='content'>" + Html.Escaped(Base(r)) + "</div>"
  }

  /** `Resource.render(visible)`; `folder` is the session folder, which
      `getFilePointer()` prefixes to the image file name. */
  function RenderCell(r: Resource, visible: bool, folder: string): string
  {
    CellOpening(r) + Style(visible) + CellRest(r, folder)
  }

  /** Everything after the style attribute: the end of the opening tag, the
      margin, the content and the closing tag. */
  function CellRest(r: Resource, folder: string): string
  {
    ">" + CellMargin(r) + CellContent(r, folder) + "</div>"
  }

  /** The opening tag names the cell's role class, and adds ` subdue` exactly
      for a subdued return cell. */
  lemma CellOpeningLayout(r: Resource)
    ensures CellOpening(r) == "<div class='cell " + ClassName(r.kind)
                              + (if r.kind == Return && r.subdue then " subdue" else "") + "'"
  {
  }

  /** So two cells open alike exactly when they are of one type and, for
      return cells, agree on `subdue`. */
  lemma CellOpeningNamesRole(r: Resource, s: Resource)
    ensures CellOpening(r) == CellOpening(s) <==>
      r.kind == s.kind && (r.kind == Return ==> r.subdue == s.subdue)
  {
    if r.kind != s.kind {
      assert CellOpening(r)[17] != CellOpening(s)[17];
    } else if r.kind == Return && r.subdue != s.subdue {
      assert |CellOpening(r)| != |CellOpening(s)|;
    }
  }

  /** The margin label is `In` for input, `Msg` for text and message, `Out` for
      display and return, followed by the group count in brackets. */
  lemma CellMarginLayout(r: Resource)
    ensures CellMargin(r) == "  <div class='margin'>" + Label(r.kind) + "[" + IntToString(r.count) + "] := </div>"
  {
  }

  /** So two margins are alike exactly when label and count are. */
  lemma CellMarginLabels(r: Resource, s: Resource)
    ensures CellMargin(r) == CellMargin(s) <==> Label(r.kind) == Label(s.kind) && r.count == s.count
  {
    CellMarginLayout(r);
    CellMarginLayout(s);
    var m, m' := CellMargin(r), CellMargin(s);
    var a, b := IntToString(r.count), IntToString(s.count);
    if m == m' {
      assert m[22] == m'[22];
      assert Label(r.kind) == Label(s.kind);
      var n := 22 + |Label(r.kind)| + 1;
      assert m[n..|m| - 11] == a;
      assert m'[n..|m'| - 11] == b;
      IntToStringInjective(r.count, s.count);
    }
  }

  /** Different integers have different decimal texts. */
  lemma IntToStringInjective(a: int, b: int)
    requires IntToString(a) == IntToString(b)
    ensures a == b
  {
    SameSign(a, b);
    if a < 0 {
      SameMagnitude(a, b);
      NatToStringInjective(-a, -b);
    } else {
      NatToStringInjective(a, b);
    }
  }

  lemma SameSign(a: int, b: int)
    requires IntToString(a) == IntToString(b)
    ensures a < 0 <==> b < 0
  {
    SignShows(a);
    SignShows(b);
  }

  /** After their signs, the texts of two negative integers are those of
      their magnitudes. */
  lemma SameMagnitude(a: int, b: int)
    requires a < 0 && b < 0 && IntToString(a) == IntToString(b)
    ensures NatToString(-a) == NatToString(-b)
  {
    assert ("-" + NatToString(-a))[1..] == NatToString(-a);
    assert ("-" + NatToString(-b))[1..] == NatToString(-b);
  }

  /** The text of an integer starts with `-` exactly when it is negative. */
  lemma SignShows(n: int)
    ensures IntToString(n)[0] == '-' <==> n < 0
  {
    if n >= 0 {
      assert '0' <= NatToString(n)[0] <= '9';
    }
  }

  lemma {:induction false} NatToStringInjective(a: nat, b: nat)
    requires NatToString(a) == NatToString(b)
    ensures a == b
  {
    LastDigit(a);
    LastDigit(b);
    if a >= 10 && b >= 10 {
      NatToStringInjective(a / 10, b / 10);
    }
  }

  /** The last character of a decimal text is the last digit; what comes
      before it is the text of the rest, of which there is none below ten. */
  lemma LastDigit(n: nat)
    ensures var s := NatToString(n);
      s[|s| - 1] as int == n % 10 + '0' as int &&
      (n < 10 <==> |s| == 1) &&
      (n >= 10 ==> s[..|s| - 1] == NatToString(n / 10))
  {
    var d := n % 10;
    assert "0123456789"[d] as int == d + '0' as int;
  }


  /** Visibility changes nothing but the style attribute, which sits right
      after the cell's class. */
  lemma HiddenCellAddsOnlyStyle(r: Resource, folder: string)
    ensures var shown := RenderCell(r, true, folder);
      |CellOpening(r)| <= |shown| &&
      RenderCell(r, false, folder) == shown[..|CellOpening(r)|] + " style='display:none;'" + shown[|CellOpening(r)|..]
  {
    InsertAfter(CellOpening(r), " style='display:none;'", CellRest(r, folder));
  }

  lemma InsertAfter(o: string, x: string, t: string)
    ensures |o| <= |o + "" + t|
    ensures o + x + t == (o + "" + t)[..|o|] + x + (o + "" + t)[|o|..]
  {
    assert o + "" + t == o + t;
    assert (o + t)[..|o|] == o;
    assert (o + t)[|o|..] == t;
  }

  /** The text of a cell other than an image reaches the page only escaped, so
      it contributes no raw `<`, `>` or `"`. */
  lemma CellTextIsEscaped(r: Resource, folder: string)
    requires r.kind != Display
    ensures var t := Html.Escaped(Base(r));
      CellContent(r, folder) == "  <div class='content'>" + t + "</div>" &&
      forall i :: 0 <= i < |t| ==> !Html.Markup(t[i])
  {
    Html.EscapedHasNoMarkup(Base(r));
  }
}
