# Mathematica bundle: session transcript and statement tools, in Dafny

This project models two parts of a TextMate bundle for Mathematica and proves
properties of the models.

The first part is the session object `Resources` of the Java bridge to the
kernel. A session keeps a log of resources: inputs, text and message packets,
images and results. Each resource is stamped with the group count in force
when it was made. The session also keeps a counter of evaluations and a
folder of files (image files and the current view page). It renders the log
as an HTML transcript:
- a status bar;
- one `cellgroup` div per run of resources that share a count;
- each resource as one cell, with its text HTML-escaped;
- a result cell hidden when an image came before it in its group.

The transcript is then merged into a page layout at its yield token.

The model's modules for this part:
- `Html`: the escaper, proved lossless.
- `Cells`: one resource, its graphics test and its cell.
- `Transcript`: grouping and the page.
- `Session`: the class `Resources`, with the log, the counter, the view and
  the folder as fields. Its methods change these fields, and it keeps an
  invariant tying the log to the files on disk.

The kernel is an oracle. A new session takes as a parameter the packets the
kernel sends as it starts up; they are logged at count 0. Each evaluation
takes as parameters what the kernel answers:
- the packets it sends while the query runs;
- whether the answer arrives, or the link fails while it is awaited;
- the result expression;
- the packets it sends while it draws the result as an image;
- the image bytes, if it draws one.

The second part is the Python helper `mathmate.py`, which works on the text
of a Mathematica document. Python 2 reads the document from stdin as bytes,
so each `char` of the model stands for one byte:
- `Statements.GetStatements` cuts the document into statements. It is proved
  to produce a partition of the text, cut exactly after each `;` met in
  source at depth zero and the blanks after it, with the line numbers and
  indices the scanner records. That description admits one list of
  statements only.
- `Cursor.GetCurrentStatement` picks the statement under the cursor, or else
  the last one that ends before it.
- `Indents.CountIndents` counts indentation units under Python's `%`.
- `Reformat.ReformatBlock` is the pretty-printer. Each of its three nested
  loops is a method proved equal to a recursive function (`FormatStatements`,
  `FormatLines`, `Emit`) over the same step function `Lex`.
  - The lexing rules are proved as lemmas about `Lex`: blanks, operators,
    commas, closing brackets, and where strings and comments open.
  - Reformatting changes nothing but spaces and tabs.
  - The scope stack shared by the statements keeps `"source"` at its bottom.
    So the source's fourth case, where none of `"string"`, `"comment"` and
    `"source"` is on the stack, cannot arise.
  - Python's exceptions are error values. Popping the last frame of the stack
    raises `IndexError`. Testing `None in vsc` raises `TypeError`; this
    happens for a blank after a letter or digit when the rest of the line is
    blank and has no line break. `count_indents` raises `ZeroDivisionError`
    when the indent size is 0 and it meets a leading space.

## Model

| member | source | states |
|---|---|---|
| Html.EscapeChar | Support/tmjlink/com/shadanan/textmatejlink/Resources.java:331-335 | a character is copied unchanged exactly when it is none of `<`, `>`, `&`, `"`; those four become entities |
| Html.HtmlEscape | Support/tmjlink/com/shadanan/textmatejlink/Resources.java:325-382 | the buffer the loop builds is the escaped form of the base text |
| Html.UnescapeEscaped | Support/tmjlink/com/shadanan/textmatejlink/Resources.java:329-379 | escaping loses nothing: reading the entities back gives the original text |
| Html.EscapedHasNoMarkup | Support/tmjlink/com/shadanan/textmatejlink/Resources.java:331-335 | escaped text holds no raw `<`, `>` or `"` |
| Html.EscapedLength | Support/tmjlink/com/shadanan/textmatejlink/Resources.java:329-379 | escaping never shortens a text, and leaves it unchanged exactly when none of the four characters occurs |
| Html.EscapedAppend | Support/tmjlink/com/shadanan/textmatejlink/Resources.java:329-379 | escaping works character by character, so it distributes over concatenation |
| Cells.IsGraphicsClassifies | Support/tmjlink/com/shadanan/textmatejlink/Resources.java:392-427 | a non-return resource raises; otherwise the result is graphics exactly when the head, or for a `List` the head of its first part, is `Graphics`, `Graphics3D` or ends in `Form` but is not `InputForm`; a `List` without parts raises |
| Cells.InputFormIsNotGraphics | Support/tmjlink/com/shadanan/textmatejlink/Resources.java:397-408 | `InputForm` ends in `Form` yet is not graphics, because its test comes first |
| Cells.OneListLevelOnly | Support/tmjlink/com/shadanan/textmatejlink/Resources.java:410-424 | a list of graphics is graphics, a list of lists of graphics is not |
| Cells.CellOpeningNamesRole | Support/tmjlink/com/shadanan/textmatejlink/Resources.java:443-478 | two cells open with the same tag exactly when they have the same type and, for returns, the same subdue flag: the tag names the role, and ` subdue` is added for a subdued return |
| Cells.CellMarginLabels | Support/tmjlink/com/shadanan/textmatejlink/Resources.java:445-479 | two cells have the same margin exactly when their labels (`In`, `Msg` or `Out`) and their group counts are the same |
| Cells.IntToStringInjective | Support/tmjlink/com/shadanan/textmatejlink/Resources.java:445-479 | distinct counts print as distinct decimal texts |
| Cells.HiddenCellAddsOnlyStyle | Support/tmjlink/com/shadanan/textmatejlink/Resources.java:439-444 | a hidden cell is the shown cell with ` style='display:none;'` inserted after its class, nothing else |
| Cells.CellTextIsEscaped | Support/tmjlink/com/shadanan/textmatejlink/Resources.java:446-480 | every non-image cell carries its text escaped, so it adds no raw markup |
| Transcript.RunsFlatten | Support/tmjlink/com/shadanan/textmatejlink/Resources.java:236-247 | grouping loses and reorders nothing: the groups joined give back the log |
| Transcript.RunsMaximal | Support/tmjlink/com/shadanan/textmatejlink/Resources.java:237-247 | each group is nonempty with one count, and neighbouring groups differ in count |
| Transcript.RunsPartition | Support/tmjlink/com/shadanan/textmatejlink/Resources.java:236-264 | the groups are exactly the maximal runs of equal count of the log |
| Transcript.RunsPerCount | Support/tmjlink/com/shadanan/textmatejlink/Resources.java:237-247 | with counts that never decrease, there is one group per distinct count |
| Transcript.RenderContent | Support/tmjlink/com/shadanan/textmatejlink/Resources.java:214-264 | the loop's output is the status bar, then each maximal run as one closed group, with a return hidden after a display of its group |
| Transcript.IndexOf | Support/tmjlink/com/shadanan/textmatejlink/Resources.java:207-208 | the first position where the token occurs, or -1 exactly when it does not occur |
| Transcript.ApplyLayoutReplacesFirstToken | Support/tmjlink/com/shadanan/textmatejlink/Resources.java:195-211 | the page is the layout with its first yield token replaced by the content; it fails exactly when there is no token |
| Session.SilencedIsLastVisibleSemicolon | Support/tmjlink/com/shadanan/textmatejlink/Resources.java:151 | a query trims to nothing exactly when it is all characters up to U+0020; otherwise it asks for no output exactly when its last such visible character is `;` |
| Session.PacketEntries | Support/tmjlink/com/shadanan/textmatejlink/Resources.java:491-497 | a text or message packet logs one resource of its type holding its string; any other packet logs nothing |
| Session.NotesEntries | Support/tmjlink/com/shadanan/textmatejlink/Resources.java:488-497 | packets arriving during a query log at most one resource each, all text or message, stamped with the current count |
| Session.EvaluateTail | Support/tmjlink/com/shadanan/textmatejlink/Resources.java:151-162 | a blank query fails; a silenced one logs nothing; a graphics test that raises fails; otherwise the return is logged last, subdued exactly when it is graphics; for graphics it is preceded by the packets that arrive while the image is drawn and by the image exactly when the kernel draws one |
| Session.Drawn | Support/tmjlink/com/shadanan/textmatejlink/Resources.java:156-159 | drawing logs the packets that arrive meanwhile, then an image exactly when there is one, and ends with the subdued return |
| Session.Shown | Support/tmjlink/com/shadanan/textmatejlink/Resources.java:157-159 | the image is logged first exactly when the kernel drew one, and the return, subdued, comes last |
| Session.ImageTail | Support/tmjlink/com/shadanan/textmatejlink/Resources.java:177-188 | a blank query fails; a silenced one logs nothing; otherwise the packets that arrive while the image is drawn are logged, then the image whenever the kernel draws one, then the return, subdued exactly when there is an image |
| Session.ImageHidesReturn | Support/tmjlink/com/shadanan/textmatejlink/Resources.java:249-256 | when an evaluation logs an image, its whole group shares one count and its return cell is rendered hidden |
| Session.PageOf | Support/tmjlink/com/shadanan/textmatejlink/Resources.java:266-269 | no layout file fails; otherwise the page exists exactly when the layout has a yield token, and is the layout around the content |
| Session.DeleteSucceedsIff | Support/tmjlink/com/shadanan/textmatejlink/Resources.java:50-59 | `delete` returns true exactly when every node of the tree may be deleted, and exactly when nothing is left |
| Session.DeleteChildrenSucceedsIff | Support/tmjlink/com/shadanan/textmatejlink/Resources.java:51-56 | the loop over the children succeeds exactly when every child tree may be deleted |
| Session.LoggedSnoc | Support/tmjlink/com/shadanan/textmatejlink/Resources.java:145 | appending a resource stamped with the current count and naming a fresh file keeps the log invariant |
| Session.ImageFilesAreGif | Support/tmjlink/com/shadanan/textmatejlink/Resources.java:305-307 | every image file named by a log of well-typed resources is a `.gif` |
| Session.Resources.constructor | Support/tmjlink/com/shadanan/textmatejlink/Resources.java:32-48 | a new session logs the kernel's start-up packets at count 0, and has count 0, no view, an open link and a fresh empty folder |
| Session.Resources.Log | Support/tmjlink/com/shadanan/textmatejlink/Resources.java:145 | the resource is appended to the log and nothing else changes |
| Session.Resources.LogDisplay | Support/tmjlink/com/shadanan/textmatejlink/Resources.java:305-315 | the bytes go to a fresh `.gif` file that was not on disk, and a display resource naming it is appended |
| Session.Resources.PacketArrived | Support/tmjlink/com/shadanan/textmatejlink/Resources.java:488-514 | the packet's entries are appended, the packet is reported handled, and nothing else changes |
| Session.Resources.Await | Support/tmjlink/com/shadanan/textmatejlink/Resources.java:148 | the packets' entries are appended in arrival order |
| Session.Resources.Evaluate | Support/tmjlink/com/shadanan/textmatejlink/Resources.java:143-167 | the input is logged first; on a closed link the call fails with `LinkFailure`; otherwise the packets follow, and then, if the answer arrives, the evaluation tail, else `LinkFailure`; on success the counter advances by one and an image is written to the fresh file it names; on failure the counter and the files are unchanged |
| Session.Resources.Answer | Support/tmjlink/com/shadanan/textmatejlink/Resources.java:149-166 | after the kernel's answer the log grows by the evaluation tail, drawing packets included, and the counter and the files change as that tail says |
| Session.Resources.Bump | Support/tmjlink/com/shadanan/textmatejlink/Resources.java:166 | the counter advances by one and nothing else changes |
| Session.Resources.EvaluateToImage | Support/tmjlink/com/shadanan/textmatejlink/Resources.java:169-193 | as `Evaluate`, with the image tail |
| Session.Resources.AnswerWithImage | Support/tmjlink/com/shadanan/textmatejlink/Resources.java:175-192 | after the kernel's answer the log grows by the image tail, drawing packets included, and the counter and the files change as that tail says |
| Session.Resources.Draw | Support/tmjlink/com/shadanan/textmatejlink/Resources.java:156-159 | the log grows by the drawn packets, the image and the subdued return; the image goes to a fresh `.gif` file exactly when there is one |
| Session.Resources.Undrawn | Support/tmjlink/com/shadanan/textmatejlink/Resources.java:179-185 | with no image, the log grows by the drawn packets and the return as it is; the files are unchanged |
| Session.Resources.ReleaseResource | Support/tmjlink/com/shadanan/textmatejlink/Resources.java:429-434 | a display resource deletes its image file; any other resource changes nothing |
| Session.Resources.Release | Support/tmjlink/com/shadanan/textmatejlink/Resources.java:103-115 | the view file and every image file are deleted and the log is emptied; the counter and the view name are kept |
| Session.Resources.Close | Support/tmjlink/com/shadanan/textmatejlink/Resources.java:91-101 | the link is closed, the log and the folder are emptied, and the folder is deleted |
| Session.Resources.Render | Support/tmjlink/com/shadanan/textmatejlink/Resources.java:213-272 | the old view is deleted, a fresh view is named, and its file holds the layout around the rendered log (empty when the layout is unusable; no file when the folder is gone); the log and counter are unchanged |
| Session.Resources.DeleteView | Support/tmjlink/com/shadanan/textmatejlink/Resources.java:218-222 | the current view file, if any, is removed from the folder |
| Session.Resources.WriteView | Support/tmjlink/com/shadanan/textmatejlink/Resources.java:266-271 | a fresh view name is drawn and its file created and filled with the page, or the failure is reported |
| Statements.Step | Support/bin/mathmate.py:270-335 | one token of a statement: `;` ends it only in source at depth zero; brackets count only in source; strings and comments open only from source, and only an unescaped `"` or `*)` closes them |
| Statements.BodyEnd | Support/bin/mathmate.py:270-335 | the body of a statement ends just after a `;`, or at the end of the block |
| Statements.SemicolonEndsBody | Support/bin/mathmate.py:277-281 | a `;` ends the body exactly in source at depth zero; elsewhere the scan goes on past it |
| Statements.SkipBlanks | Support/bin/mathmate.py:254-268 | the blanks after a statement's `;` are skipped up to the next non-blank |
| Statements.StatementEnd | Support/bin/mathmate.py:254-335 | a statement runs from its start through its body and the blanks after it, and is never empty |
| Statements.LastRead | Support/bin/mathmate.py:243-252 | the offset the scan reads last, which gives the last statement its end index |
| Statements.GetStatements | Support/bin/mathmate.py:230-340 | the statements partition the document and each ends where `StatementEnd` says; each holds the text of its range and the line and index of its start and end, all but the last end with `;` and blanks, and the last ends on the last line at the index of the last character read |
| Statements.PartitionTexts | Support/bin/mathmate.py:230-340 | the statement texts joined give back the document, and there are none exactly for an empty document |
| Statements.CoversEach | Support/bin/mathmate.py:254-259 | statements are nonempty, consecutive and hold the text of their own range |
| Statements.SplitUnique | Support/bin/mathmate.py:230-340 | two lists of statements that both meet the description are equal, so the description fixes what `get_statements` returns |
| Statements.OnlyLastAtEnd | Support/bin/mathmate.py:337-338 | there are no statements exactly for an empty document, and only the last one reaches its end |
| Statements.Placement | Support/bin/mathmate.py:257-338 | each statement is fixed by its start and end offsets and by whether it is the last one |
| Statements.SplitWhole | Support/bin/mathmate.py:230-340 | a document whose first statement runs to its end is one statement |
| Statements.SplitInTwo | Support/bin/mathmate.py:230-340 | a document whose first statement ends at `m` and whose second runs to the end is two statements, cut at `m` |
| Statements.CutAtSemicolon | Support/bin/mathmate.py:277-281 | in `a;b` the first statement ends after the `;` and the second at the end |
| Statements.NoCutInBrackets | Support/bin/mathmate.py:283-293 | in `f[a;b]` the `;` inside the brackets ends nothing |
| Statements.SplitAtSemicolon | Support/bin/mathmate.py:277-281 | `a;b` is split into `a;` and `b` |
| Statements.SplitKeepsBrackets | Support/bin/mathmate.py:283-293 | `f[a;b]` stays one statement |
| Indents.RStrip | Support/bin/mathmate.py:25 | the stripped line is a prefix of the line that ends in no whitespace, and everything cut off is whitespace |
| Indents.Lead | Support/bin/mathmate.py:25-33 | the prefix of spaces and tabs that the loop reads before it breaks |
| Indents.PyModStep | Support/bin/mathmate.py:29 | keeping the space count reduced under Python's `%` gives the same value as reducing the full count, and it is zero exactly when the count is a multiple of the size |
| Indents.CountIndents | Support/bin/mathmate.py:21-34 | no count (Python's `ZeroDivisionError`) exactly when the size is 0 and a leading space is met; otherwise one per leading tab plus one per full indent of leading spaces, after trailing whitespace is stripped |
| Indents.IndentationBounds | Support/bin/mathmate.py:21-34 | the count, when there is one, is between 0 and the line's length, and 0 for a line of whitespace |
| Cursor.ContainsIsRange | Support/bin/mathmate.py:352-366 | the checks select statements whose start and end enclose the cursor in (line, index) order, and keep as candidates those that end before it |
| Cursor.SelectStatement | Support/bin/mathmate.py:347-373 | the first statement containing the cursor; else the first of greatest start among those ending before it; else none |
| Cursor.GetCurrentStatement | Support/bin/mathmate.py:342-373 | the selection over the statements of the document, the one list that meets their description; none for an empty document |
| Cursor.SplitStartsIncrease | Support/bin/mathmate.py:254-259 | statement start offsets strictly increase along the list |
| Cursor.GreatestStartIsLast | Support/bin/mathmate.py:355-366 | the candidate of greatest start is the last statement that ends before the cursor |
| Reformat.Slice | Support/bin/mathmate.py:55-56 | Python's slice: at most `n` characters from `pos`, cut short at the end of the line |
| Reformat.NextSolid | Support/bin/mathmate.py:61-65 | the first character from `pos` on that is not a space or tab, none exactly when the rest is blanks |
| Reformat.FirstNonWhitespace | Support/bin/mathmate.py:101-102 | the first character of the stripped line, none exactly when the line is whitespace |
| Reformat.SplitLines | Support/bin/mathmate.py:51 | the lines, with their breaks at `\n`, `\r` or `\r\n`, are nonempty and join to the text |
| Reformat.RepeatShape | Support/bin/mathmate.py:102-105 | `n` copies of the indent, none for `n` at most 0, and no visible character when the indent is blanks |
| Reformat.LexString | Support/bin/mathmate.py:67-82 | inside a string characters are copied as they are; the stack changes exactly at a bare `"` |
| Reformat.LexComment | Support/bin/mathmate.py:84-99 | inside a comment characters are copied as they are; the stack changes exactly at a bare `*)` |
| Reformat.LexBlank | Support/bin/mathmate.py:107-112 | a blank is dropped, with at most one space in its place, and leaves the stack and level alone |
| Reformat.LexLong | Support/bin/mathmate.py:114-154 | a token of two or three characters is emitted whole, with at most one space before and after it, and `"source"` stays at the bottom of the stack |
| Reformat.LexShort | Support/bin/mathmate.py:156-203 | a single character is emitted, with at most one space before and after it, and `"source"` stays at the bottom of the stack |
| Reformat.LexSource | Support/bin/mathmate.py:101-203 | a step in source takes one to three characters and emits them, unless it drops a single blank; `"source"` stays at the bottom of the stack |
| Reformat.Lex | Support/bin/mathmate.py:67-203 | strings and comments are copied verbatim at the same level; every step emits what it takes unless it drops a single blank, and keeps `"source"` at the bottom |
| Reformat.BlankRule | Support/bin/mathmate.py:107-112 | a blank raises exactly after a letter or digit with only blanks left; otherwise one space is kept exactly between a letter or digit and the next letter or digit |
| Reformat.LongRule | Support/bin/mathmate.py:114-154 | three-character operators are matched before two-character ones; the only other tokens are `..` and `(*`, and only `(*` opens a comment |
| Reformat.ShortRule | Support/bin/mathmate.py:156-203 | single operators get a space on each side; a comma becomes `, `; a closing bracket raises exactly on a stack of one frame; only `"` opens a string |
| Reformat.OperatorRule | Support/bin/mathmate.py:114-185 | every operator is surrounded by single spaces, the longest match first |
| Reformat.CommaRule | Support/bin/mathmate.py:172-175 | a comma is followed by one space and changes neither stack nor level |
| Reformat.ClosingRule | Support/bin/mathmate.py:163-170 | a closing bracket pops its frame and a definition under it, and raises exactly when the stack holds only `"source"` |
| Reformat.OpeningRule | Support/bin/mathmate.py:142-196 | in source a string opens exactly at `"` and a comment exactly at `(*` |
| Reformat.TokenKeepsSolid | Support/bin/mathmate.py:67-203 | a step that emits what it takes, or drops a single blank, changes nothing but spaces and tabs |
| Reformat.Emit | Support/bin/mathmate.py:53-203 | the steps to the end of a line keep `"source"` at the bottom of the stack |
| Reformat.EmitKeepsSolid | Support/bin/mathmate.py:53-203 | the steps of a line change nothing but spaces and tabs |
| Reformat.FormatLineKeepsSolid | Support/bin/mathmate.py:51-203 | a reformatted line, its margin included, differs from the line only in spaces and tabs when the indent is blanks |
| Reformat.QuotedLineIsVerbatim | Support/bin/mathmate.py:67-82 | a line that starts inside a string and holds no `"` is copied verbatim, with no margin, and the string stays open |
| Reformat.MarginIsBlank | Support/bin/mathmate.py:100-104 | the margin holds no visible character when the indent is blanks |
| Reformat.LineOpensWithMargin | Support/bin/mathmate.py:101-105 | a line that opens in source starts with its margin: one indent fewer when it begins with a closing bracket |
| Reformat.FormatLinesKeepsSolid | Support/bin/mathmate.py:51-206 | a statement's reformatted lines differ from its text only in spaces and tabs |
| Reformat.FormatStatements | Support/bin/mathmate.py:46-206 | one output per statement |
| Reformat.FormatStatementsKeepSolid | Support/bin/mathmate.py:46-206 | each output differs from its statement only in spaces and tabs |
| Reformat.BlockKeepsSolid | Support/bin/mathmate.py:36-208 | one output per statement, and the outputs joined differ from the block only in spaces and tabs |
| Reformat.ReformatLine | Support/bin/mathmate.py:51-203 | the character loop yields the margin and the steps of the line, or the first error |
| Reformat.ReformatStatement | Support/bin/mathmate.py:46-206 | the line loop pushes `"source"` and yields the lines reformatted in turn |
| Reformat.ReformatStatements | Support/bin/mathmate.py:46-207 | the statement loop yields the statements reformatted in turn under one shared stack, or the first error |
| Reformat.ReformatBlock | Support/bin/mathmate.py:36-208 | the block's statements, as `get_statements` cuts them, are reformatted in turn under one shared stack, at the given level or the block's own indentation; `ZeroDivisionError` exactly when no level is given and the indentation cannot be counted; nothing for an empty block |
| Reformat.StatementsRaise | Support/bin/mathmate.py:46-206 | the statement loop raises only `IndexError` or `TypeError` |

## Left out

- The kernel link is not modelled: `MathLinkFactory`, `evaluate`, `waitForAnswer`, `getExpr`, `evaluateToImage`, `newPacket` and `discardAnswer`. What the kernel answers is a parameter of each evaluation, and the link is a flag.
- `getSuggestions` (Resources.java:117-141) is not modelled: it queries the kernel for symbol names. The packets that arrive during its two waits (Resources.java:122, 128) are logged like any other, and the model has no operation for them.
- `reconnect` (Resources.java:82-89) is not modelled: it replaces the kernel link, and the start-up packets of the new kernel are logged as the constructor's are.
- The getters (Resources.java:61-80) are not modelled.
- The console report of each packet's type, found through reflection (Resources.java:499-511), is not modelled; it prints and changes nothing.
- Concurrency is not modelled. Packets arrive on the kernel's thread at start-up, while a query is answered and while a result is drawn; each of these is a sequence, handled in order at its place.
- Session.Resources.Evaluate: a `MathLinkException` from `getExpr`, `evaluateToImage` or `newPacket` is not modelled; only a closed link and a link that fails while the answer is awaited give `LinkFailure`. The same holds for `EvaluateToImage`.
- The buffered reading of `layout.html.erb` (Resources.java:197-205) is not modelled. The layout is a parameter (`None` when the file cannot be read).
- I/O failures are not modelled beyond the two modelled errors: a missing layout file, and a view file that cannot be created because the folder is gone.
- Html.EscapeChar: the accented-letter entities (Resources.java:336-373) are not modelled. Their characters are unreadable in the file as stored, so the model escapes only `<`, `>`, `&` and `"` and copies every other character.
- Cells.Expr: `Expr.toString()` is not computed; each expression carries the text it prints as.
- UUIDs are not modelled: a fresh name comes from a counter, and its text is the counter in decimal.
- `Resource` is a value, not a shared object. Java marks the result `subdue` while it still holds the object, and that object is already in the log for `evaluateToImage`. The model builds the final value before logging it. The logged result is the same, but aliasing is not captured.
- Session.Resources.ReleaseResource: a display's file is removed from the model's folder. Whether Java's `exists()` test passes is not modelled separately, because a missing file is simply absent from the map.
- Strings are sequences of `char`, one per byte of the document as Python 2 reads it; no decoding is modelled.
- `get_statements` never returns `None`, so the `statements is None` guards (mathmate.py:39-40, 344-345) are not modelled.
- `__init__`, `show_current_statement`, `reformat`, `reformat_current_statement`, `reformat_selection` and `main` are not modelled. They read stdin and environment variables and print results; the document, the cursor, the indent and the indent size are parameters instead.
