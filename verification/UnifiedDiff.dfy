/**
  The unified-diff reader of internal/contextpack/diff.go, with the format it
  reads: the output of diff -u ("Diff -u or -U Output Format" in the STDOUT
  section of the diff utility, POSIX.1-2017) as git writes it.

  A diff is a list of `FileDiff`s; `Render` writes one, `Walk` is the reader's
  loop, and the main results say what the reader makes of every rendered diff.
 */
module UnifiedDiff {
  import opened Prelude
  import opened Text

  // ---- The reader ----

  /** A hunk's line as it is handed out: its marker, its text, and each side's path, "" for none, and line number. */
  datatype DiffLine = DiffLine(
    kind: char, text: string, oldPath: string, newPath: string, oldLine: int, newLine: int, hunk: int)

  /** What the loop carries from one line to the next. */
  datatype Cursor = Cursor(
    oldPath: string, newPath: string, oldLine: int, newLine: int, hunk: int, oldLeft: int, newLeft: int)

  const Start := Cursor("", "", 0, 0, -1, 0, 0)

  datatype HunkHeader = HunkHeader(oldStart: int, oldCount: int, newStart: int, newCount: int)

  /** "start,count", or "start" for a count of one. */
  function HunkRange(s: string): Option<(int, int)> {
    var comma := IndexOf(s, ',');
    match Atoi(if comma < 0 then s else s[..comma])
    case None => None
    case Some(start) =>
      if comma < 0 then Some((start, 1))
      else
        match Atoi(s[comma + 1..])
        case None => None
        case Some(count) => Some((start, count))
  }

  function ParseHunkHeader(l: string): Option<HunkHeader> {
    var fields := Fields(l);
    if |fields| < 3 || !HasPrefix(fields[1], "-") || !HasPrefix(fields[2], "+") then None
    else
      match (HunkRange(fields[1][1..]), HunkRange(fields[2][1..]))
      case (Some(o), Some(n)) => Some(HunkHeader(o.0, o.1, n.0, n.1))
      case _ => None
  }

  function StripPrefix(p: string, prefix: string): string {
    var path := TrimSpace(p);
    if path == "/dev/null" then "" else TrimPrefix(path, prefix)
  }

  function Emitted(c: Cursor, kind: char, text: string): DiffLine {
    DiffLine(kind, text, c.oldPath, c.newPath, c.oldLine, c.newLine, c.hunk)
  }

  /** A line outside a hunk. */
  function ReadHeader(c: Cursor, l: string): Cursor {
    if HasPrefix(l, "diff --git ") then c.(oldPath := "", newPath := "")
    else if HasPrefix(l, "--- ") then c.(oldPath := StripPrefix(l[4..], "a/"))
    else if HasPrefix(l, "+++ ") then c.(newPath := StripPrefix(l[4..], "b/"))
    else if HasPrefix(l, "@@") then
      match ParseHunkHeader(l)
      case None => c
      case Some(h) =>
        c.(oldLine := h.oldStart, oldLeft := h.oldCount, newLine := h.newStart, newLeft := h.newCount, hunk := c.hunk + 1)
    else c
  }

  /** One turn of walkDiff's loop: the next cursor and the line handed to the callback, if any. */
  function ReadLine(c: Cursor, line: string): (Cursor, seq<DiffLine>) {
    if c.oldLeft > 0 || c.newLeft > 0 then
      // An empty line is a context line that lost its space.
      var l := if line == "" then " " else line;
      match l[0]
      case '+' => (c.(newLine := c.newLine + 1, newLeft := c.newLeft - 1), [Emitted(c, '+', l[1..])])
      case '-' => (c.(oldLine := c.oldLine + 1, oldLeft := c.oldLeft - 1), [Emitted(c, '-', l[1..])])
      case ' ' =>
        (c.(oldLine := c.oldLine + 1, newLine := c.newLine + 1, oldLeft := c.oldLeft - 1, newLeft := c.newLeft - 1),
         [Emitted(c, ' ', l[1..])])
      case '\\' => (c, [])
      case _ => (ReadHeader(c.(oldLeft := 0, newLeft := 0), l), [])
    else (ReadHeader(c, line), [])
  }

  function Next(c: Cursor, line: string): Cursor {
    ReadLine(c, line).0
  }

  /** The cursor after `lines`. */
  function End(c: Cursor, lines: seq<string>): Cursor
    decreases |lines|
  {
    if lines == [] then c else End(Next(c, lines[0]), lines[1..])
  }

  /** What the loop hands out over `lines`. */
  function Walk(c: Cursor, lines: seq<string>): seq<DiffLine>
    decreases |lines|
  {
    if lines == [] then [] else ReadLine(c, lines[0]).1 + Walk(Next(c, lines[0]), lines[1..])
  }

  /** The lines of every hunk of `diff`, in order. */
  function HunkLines(diff: string): seq<DiffLine> {
    Walk(Start, Split(diff))
  }

  lemma ReadFirst(c: Cursor, lines: seq<string>)
    requires lines != []
    ensures End(c, lines) == End(Next(c, lines[0]), lines[1..])
    ensures Walk(c, lines) == ReadLine(c, lines[0]).1 + Walk(Next(c, lines[0]), lines[1..])
  {
  }

  lemma ReadNone(c: Cursor)
    ensures End(c, []) == c && Walk(c, []) == []
  {
  }

  lemma {:induction false} WalkConcat(c: Cursor, a: seq<string>, b: seq<string>)
    ensures End(c, a + b) == End(End(c, a), b)
    ensures Walk(c, a + b) == Walk(c, a) + Walk(End(c, a), b)
    decreases |a|
  {
    hide *;
    if a == [] {
      assert a + b == b;
      ReadNone(c);
      assert [] + Walk(c, b) == Walk(c, b);
    } else {
      var next := Next(c, a[0]);
      WalkConcat(next, a[1..], b);
      assert (a + b)[1..] == a[1..] + b;
      ReadFirst(c, a);
      ReadFirst(c, a + b);
      Assoc(ReadLine(c, a[0]).1, Walk(next, a[1..]), Walk(End(c, a), b));
    }
  }

  lemma WalkOne(c: Cursor, line: string)
    ensures End(c, [line]) == Next(c, line) && Walk(c, [line]) == ReadLine(c, line).1
  {
    hide ReadLine;
    assert [line][1..] == [];
    assert End(Next(c, line), []) == Next(c, line);
  }

  /** walkDiff itself: the lines it hands to its callback. */
  method WalkDiff(diff: string) returns (out: seq<DiffLine>)
    ensures out == HunkLines(diff)
  {
    var lines := Split(diff);
    var cur := Start;
    out := [];
    for i := 0 to |lines|
      invariant cur == End(Start, lines[..i]) && out == Walk(Start, lines[..i])
    {
      assert lines[..i + 1] == lines[..i] + [lines[i]];
      WalkConcat(Start, lines[..i], [lines[i]]);
      WalkOne(cur, lines[i]);
      var (next, emitted) := ReadLine(cur, lines[i]);
      cur, out := next, out + emitted;
    }
    assert lines[..|lines|] == lines;
  }

  // ---- The format ----

  datatype Mark =
    | Context(text: string, stripped: bool) // stripped: its leading space was lost, as mail and editors do to an empty line
    | Add(text: string)
    | Del(text: string)
    | NoNewline

  /** `short` ranges leave out a count of one; `section` is what follows the closing @@. */
  datatype Hunk = Hunk(oldStart: nat, newStart: nat, body: seq<Mark>, shortOld: bool, shortNew: bool, section: string)

  /**
    One file of a diff. A side that does not exist has path ""; `tab` is the tab git ends a path holding a space
    with, and `quotes` says that the writer quotes unusual names, as git does by default and other writers may not.
    A file with no hunk (a pure rename, a mode change, a binary file) names no side.
   */
  datatype FileDiff = FileDiff(
    names: string, meta: seq<string>, oldPath: string, newPath: string, tab: bool, quotes: bool, hunks: seq<Hunk>)

  function OldCount(body: seq<Mark>): nat {
    if body == [] then 0 else (if body[0].Context? || body[0].Del? then 1 else 0) + OldCount(body[1..])
  }

  function NewCount(body: seq<Mark>): nat {
    if body == [] then 0 else (if body[0].Context? || body[0].Add? then 1 else 0) + NewCount(body[1..])
  }

  function RenderMark(m: Mark): string {
    match m
    case Context(text, stripped) => if stripped && text == "" then "" else " " + text
    case Add(text) => "+" + text
    case Del(text) => "-" + text
    case NoNewline => "\\ No newline at end of file"
  }

  function RenderBody(body: seq<Mark>): seq<string> {
    if body == [] then [] else [RenderMark(body[0])] + RenderBody(body[1..])
  }

  function RenderRange(start: nat, count: nat, short: bool): string {
    if short && count == 1 then Itoa(start) else Itoa(start) + "," + Itoa(count)
  }

  function RenderHunkHeader(h: Hunk): string {
    "@@" + (" " + ("-" + RenderRange(h.oldStart, OldCount(h.body), h.shortOld) +
    (" " + ("+" + RenderRange(h.newStart, NewCount(h.body), h.shortNew) + (" @@" + h.section)))))
  }

  function RenderHunk(h: Hunk): seq<string> {
    [RenderHunkHeader(h)] + RenderBody(h.body)
  }

  function RenderHunks(hunks: seq<Hunk>): seq<string> {
    if hunks == [] then [] else RenderHunk(hunks[0]) + RenderHunks(hunks[1..])
  }

  /** A character that git quotes a name for: a control, a quote, a backslash, or one that is not ASCII. */
  predicate UnusualChar(c: char) {
    c < ' ' || c as int >= 0x7f || c == '"' || c == '\\'
  }

  predicate Unusual(path: string) {
    exists i :: 0 <= i < |path| && UnusualChar(path[i])
  }

  function OctalDigit(n: nat): char {
    '0' + (n % 8) as char
  }

  /** How a quoted name spells a character: by its letter as in C, after a backslash, or by its octal number. */
  function Escape(c: char): string {
    if !UnusualChar(c) then [c]
    else if c == '"' || c == '\\' then ['\\', c]
    else if 7 <= c as int <= 13 then ['\\', "abtnvfr"[c as int - 7]]
    else ['\\', OctalDigit(c as int / 64), OctalDigit(c as int / 8), OctalDigit(c as int)]
  }

  function Escaped(s: string): string {
    if s == "" then "" else Escape(s[0]) + Escaped(s[1..])
  }

  function Quoted(s: string): string {
    "\"" + Escaped(s) + "\""
  }

  function RenderName(prefix: string, path: string, tab: bool, quotes: bool): string {
    (if path == "" then "/dev/null" else if quotes && Unusual(path) then Quoted(prefix + path) else prefix + path) +
    if tab then "\t" else ""
  }

  function RenderSide(marker: string, prefix: string, path: string, tab: bool, quotes: bool): string {
    marker + RenderName(prefix, path, tab, quotes)
  }

  function RenderSides(f: FileDiff): seq<string> {
    [RenderSide("--- ", "a/", f.oldPath, f.tab, f.quotes), RenderSide("+++ ", "b/", f.newPath, f.tab, f.quotes)]
  }

  function RenderHead(f: FileDiff): seq<string> {
    ["diff --git " + f.names] + f.meta
  }

  function RenderFile(f: FileDiff): seq<string> {
    RenderHead(f) + if f.hunks == [] then [] else RenderSides(f) + RenderHunks(f.hunks)
  }

  function RenderLines(files: seq<FileDiff>): seq<string> {
    if files == [] then [] else RenderFile(files[0]) + RenderLines(files[1..])
  }

  /** The diff as git prints it: every line ended by a newline. */
  function Render(files: seq<FileDiff>): string {
    Join(RenderLines(files) + [""])
  }

  predicate OneLine(s: string) {
    '\n' !in s
  }

  /** An extended header line of git (index, mode, similarity, rename, Binary files): none that begins a file or a hunk. */
  predicate MetaLine(l: string) {
    OneLine(l) && !HasPrefix(l, "diff --git ") && !HasPrefix(l, "--- ") && !HasPrefix(l, "+++ ") && !HasPrefix(l, "@@")
  }

  predicate WellFormedMark(m: Mark) {
    m.NoNewline? || OneLine(m.text)
  }

  predicate WellFormedHunk(h: Hunk) {
    && h.oldStart <= MAX_INT && h.newStart <= MAX_INT
    && OldCount(h.body) <= MAX_INT && NewCount(h.body) <= MAX_INT
    && OneLine(h.section)
    && forall m :: m in h.body ==> WellFormedMark(m)
  }

  /** A name that is not quoted cannot hold a newline. */
  predicate NamedOnOneLine(path: string, quotes: bool) {
    quotes || OneLine(path)
  }

  predicate WellFormedFile(f: FileDiff) {
    && OneLine(f.names)
    && (forall l :: l in f.meta ==> MetaLine(l))
    && NamedOnOneLine(f.oldPath, f.quotes) && NamedOnOneLine(f.newPath, f.quotes)
    && forall h :: h in f.hunks ==> WellFormedHunk(h)
  }

  predicate WellFormed(files: seq<FileDiff>) {
    forall f :: f in files ==> WellFormedFile(f)
  }

  // ---- What the reader must yield ----

  /** The path the reader takes for a side: a quoted name as it is spelled, another one trimmed at its end. */
  function ReadName(prefix: string, path: string, quotes: bool): string {
    if quotes && Unusual(path) then Quoted(prefix + path) else TrimRight(path)
  }

  /** A file under the paths the reader takes. */
  function AsRead(f: FileDiff): FileDiff {
    f.(oldPath := ReadName("a/", f.oldPath, f.quotes), newPath := ReadName("b/", f.newPath, f.quotes))
  }

  function AllAsRead(files: seq<FileDiff>): seq<FileDiff> {
    if files == [] then [] else [AsRead(files[0])] + AllAsRead(files[1..])
  }

  /** A path, if there is one, that is not quoted and does not end in white space. */
  predicate PlainPath(path: string, quotes: bool) {
    path != "" ==> !(quotes && Unusual(path)) && !IsSpace(path[|path| - 1])
  }

  /** The lines of one hunk body, numbered from `oldLine` and `newLine` on. */
  function BodyLines(body: seq<Mark>, oldPath: string, newPath: string, oldLine: int, newLine: int, hunk: int): seq<DiffLine>
  {
    if body == [] then []
    else
      match body[0]
      case Context(text, _) =>
        [DiffLine(' ', text, oldPath, newPath, oldLine, newLine, hunk)] +
        BodyLines(body[1..], oldPath, newPath, oldLine + 1, newLine + 1, hunk)
      case Add(text) =>
        [DiffLine('+', text, oldPath, newPath, oldLine, newLine, hunk)] +
        BodyLines(body[1..], oldPath, newPath, oldLine, newLine + 1, hunk)
      case Del(text) =>
        [DiffLine('-', text, oldPath, newPath, oldLine, newLine, hunk)] +
        BodyLines(body[1..], oldPath, newPath, oldLine + 1, newLine, hunk)
      case NoNewline => BodyLines(body[1..], oldPath, newPath, oldLine, newLine, hunk)
  }

  function HunksLines(f: FileDiff, hunks: seq<Hunk>, first: int): seq<DiffLine> {
    if hunks == [] then []
    else
      BodyLines(hunks[0].body, f.oldPath, f.newPath, hunks[0].oldStart, hunks[0].newStart, first) +
      HunksLines(f, hunks[1..], first + 1)
  }

  function FilesLines(files: seq<FileDiff>, first: int): seq<DiffLine> {
    if files == [] then []
    else HunksLines(files[0], files[0].hunks, first) + FilesLines(files[1..], first + |files[0].hunks|)
  }

  // ---- The header of a hunk reads back ----

  lemma CutAtComma(a: string, b: string)
    requires ',' !in a
    ensures
      var s := a + [','] + b;
      IndexOf(s, ',') == |a| && s[..|a|] == a && s[|a| + 1..] == b
  {
    IndexOfConcat(a, ',', b);
  }

  lemma RangeReadsBack(start: nat, count: nat, short: bool)
    requires start <= MAX_INT && count <= MAX_INT
    ensures HunkRange(RenderRange(start, count, short)) == Some((start as int, count as int))
  {
    hide Itoa, Atoi;
    AtoiItoa(start);
    AtoiItoa(count);
    NumbersHaveNoSpace(start);
    if short && count == 1 {
      assert RenderRange(start, count, short) == Itoa(start);
    } else {
      assert RenderRange(start, count, short) == Itoa(start) + [','] + Itoa(count);
      CutAtComma(Itoa(start), Itoa(count));
    }
  }

  lemma RangeIsPlain(start: nat, count: nat, short: bool)
    ensures NoSpace(RenderRange(start, count, short)) && OneLine(RenderRange(start, count, short))
  {
    hide Itoa;
    NumbersHaveNoSpace(start);
    NumbersHaveNoSpace(count);
  }

  lemma HeaderFields(at: string, o: string, n: string, rest: string)
    requires at != [] && NoSpace(at) && o != [] && NoSpace(o) && n != [] && NoSpace(n)
    requires rest != [] && IsSpace(rest[0])
    ensures Fields(at + (" " + (o + (" " + (n + rest))))) == [at] + ([o] + ([n] + Fields(rest)))
  {
    var rest1 := n + rest;
    var rest0 := o + (" " + rest1);
    assert IsSpace((" " + rest0)[0]) && IsSpace((" " + rest1)[0]);
    hide *;
    FieldsOfWord(at, " " + rest0);
    FieldsOfSpace(rest0);
    FieldsOfWord(o, " " + rest1);
    FieldsOfSpace(rest1);
    FieldsOfWord(n, rest);
  }

  lemma ParseOfFields(l: string, at: string, o: string, n: string, tail: seq<string>)
    requires Fields(l) == [at] + (["-" + o] + (["+" + n] + tail))
    requires HunkRange(o).Some? && HunkRange(n).Some?
    ensures
      var (a, b) := (HunkRange(o).value, HunkRange(n).value);
      ParseHunkHeader(l) == Some(HunkHeader(a.0, a.1, b.0, b.1))
  {
    hide HunkRange, Fields;
    assert Fields(l)[1] == "-" + o && Fields(l)[2] == "+" + n;
    assert ("-" + o)[1..] == o && ("+" + n)[1..] == n;
  }

  lemma OneLineConcat(a: string, b: string)
    ensures OneLine(a) && OneLine(b) <==> OneLine(a + b)
  {
    assert forall c :: c in a + b <==> c in a || c in b;
  }

  lemma HeaderShape(h: Hunk)
    ensures
      var o := RenderRange(h.oldStart, OldCount(h.body), h.shortOld);
      var n := RenderRange(h.newStart, NewCount(h.body), h.shortNew);
      var tail := " @@" + h.section;
      && RenderHunkHeader(h) == "@@" + (" " + ("-" + o + (" " + ("+" + n + tail))))
      && tail != [] && IsSpace(tail[0]) && "@@" != [] && NoSpace("@@")
  {
    hide RenderRange;
  }

  lemma SignsAreOneLine(h: Hunk)
    requires WellFormedHunk(h)
    ensures OneLine("@@") && OneLine(" ") && OneLine("-") && OneLine("+") && OneLine(" @@") && OneLine(h.section)
  {
  }

  lemma HunkHeaderIsOneLine(h: Hunk)
    requires WellFormedHunk(h)
    ensures OneLine(RenderHunkHeader(h))
  {
    hide *;
    var o := RenderRange(h.oldStart, OldCount(h.body), h.shortOld);
    var n := RenderRange(h.newStart, NewCount(h.body), h.shortNew);
    var tail := " @@" + h.section;
    HeaderShape(h);
    SignsAreOneLine(h);
    RangeIsPlain(h.oldStart, OldCount(h.body), h.shortOld);
    RangeIsPlain(h.newStart, NewCount(h.body), h.shortNew);
    OneLineConcat(" @@", h.section);
    OneLineConcat("+", n);
    OneLineConcat("+" + n, tail);
    OneLineConcat(" ", "+" + n + tail);
    OneLineConcat("-", o);
    OneLineConcat("-" + o, " " + ("+" + n + tail));
    OneLineConcat(" ", "-" + o + (" " + ("+" + n + tail)));
    OneLineConcat("@@", " " + ("-" + o + (" " + ("+" + n + tail))));
  }

  lemma SignedHasNoSpace(sign: string, word: string)
    requires (sign == "-" || sign == "+") && NoSpace(word)
    ensures NoSpace(sign + word) && sign + word != []
  {
  }

  lemma HunkHeaderReadsBack(h: Hunk)
    requires WellFormedHunk(h)
    ensures
      ParseHunkHeader(RenderHunkHeader(h)) == Some(HunkHeader(h.oldStart, OldCount(h.body), h.newStart, NewCount(h.body)))
  {
    hide RenderHunkHeader, RenderRange, ParseHunkHeader, Fields, HunkRange, NoSpace, IsSpace;
    var o := RenderRange(h.oldStart, OldCount(h.body), h.shortOld);
    var n := RenderRange(h.newStart, NewCount(h.body), h.shortNew);
    var tail := " @@" + h.section;
    HeaderShape(h);
    RangeReadsBack(h.oldStart, OldCount(h.body), h.shortOld);
    RangeReadsBack(h.newStart, NewCount(h.body), h.shortNew);
    RangeIsPlain(h.oldStart, OldCount(h.body), h.shortOld);
    RangeIsPlain(h.newStart, NewCount(h.body), h.shortNew);
    SignedHasNoSpace("-", o);
    SignedHasNoSpace("+", n);
    HeaderFields("@@", "-" + o, "+" + n, tail);
    ParseOfFields(RenderHunkHeader(h), "@@", o, n, Fields(tail));
  }

  // ---- Every hunk line reads back ----

  /** Reading `lines` from `c` hands out `out` and leaves the cursor at `e`. */
  ghost predicate Reads(c: Cursor, lines: seq<string>, out: seq<DiffLine>, e: Cursor) {
    Walk(c, lines) == out && End(c, lines) == e
  }

  lemma ReadsOn(c: Cursor, a: seq<string>, out: seq<DiffLine>, c1: Cursor, b: seq<string>, more: seq<DiffLine>, c2: Cursor)
    requires Reads(c, a, out, c1) && Reads(c1, b, more, c2)
    ensures Reads(c, a + b, out + more, c2)
    ensures out == [] ==> Reads(c, a + b, more, c2)
  {
    WalkConcat(c, a, b);
    hide ReadLine;
    assert [] + more == more;
  }

  lemma ReadsThree(
    c: Cursor, a: seq<string>, c1: Cursor, b: seq<string>, c2: Cursor, d: seq<string>, out: seq<DiffLine>, c3: Cursor)
    requires Reads(c, a, [], c1) && Reads(c1, b, [], c2) && Reads(c2, d, out, c3)
    ensures Reads(c, a + (b + d), out, c3)
  {
    hide *;
    ReadsOn(c1, b, [], c2, d, out, c3);
    ReadsOn(c, a, [], c1, b + d, out, c3);
  }

  lemma ReadsLine(c: Cursor, line: string)
    ensures Reads(c, [line], ReadLine(c, line).1, Next(c, line))
  {
    WalkOne(c, line);
  }

  lemma ReadsNothing(c: Cursor)
    ensures Reads(c, [], [], c)
  {
  }

  ghost predicate Between(c: Cursor) {
    c.oldLeft == 0 && c.newLeft == 0
  }

  lemma NotAHeader(c: Cursor, l: string)
    requires l == "" || (l[0] != 'd' && l[0] != '-' && l[0] != '+' && l[0] != '@')
    ensures ReadHeader(c, l) == c
  {
  }

  function AfterMark(c: Cursor, m: Mark): Cursor {
    var o := if m.Context? || m.Del? then 1 else 0;
    var n := if m.Context? || m.Add? then 1 else 0;
    c.(oldLine := c.oldLine + o, newLine := c.newLine + n, oldLeft := c.oldLeft - o, newLeft := c.newLeft - n)
  }

  function MarkLine(c: Cursor, m: Mark): seq<DiffLine> {
    match m
    case Context(text, _) => [Emitted(c, ' ', text)]
    case Add(text) => [Emitted(c, '+', text)]
    case Del(text) => [Emitted(c, '-', text)]
    case NoNewline => []
  }

  /** One line of a hunk, read while the hunk's counts are not used up: whatever its text, it is a line of the hunk. */
  lemma MarkReadsBack(c: Cursor, m: Mark)
    requires m.NoNewline? || c.oldLeft > 0 || c.newLeft > 0
    ensures ReadLine(c, RenderMark(m)) == (AfterMark(c, m), MarkLine(c, m))
  {
    match m
    case Context(text, stripped) =>
      assert (" " + text)[1..] == text && " "[1..] == "";
    case Add(text) =>
      assert ("+" + text)[1..] == text;
    case Del(text) =>
      assert ("-" + text)[1..] == text;
    case NoNewline =>
      NotAHeader(c, RenderMark(m));
  }

  function AfterBody(c: Cursor, body: seq<Mark>): Cursor
    decreases |body|
  {
    if body == [] then c else AfterBody(AfterMark(c, body[0]), body[1..])
  }

  lemma BodyLinesCons(c: Cursor, body: seq<Mark>)
    requires body != []
    ensures
      var next := AfterMark(c, body[0]);
      BodyLines(body, c.oldPath, c.newPath, c.oldLine, c.newLine, c.hunk) ==
      MarkLine(c, body[0]) + BodyLines(body[1..], next.oldPath, next.newPath, next.oldLine, next.newLine, next.hunk)
  {
    if body[0].NoNewline? {
      var rest := BodyLines(body[1..], c.oldPath, c.newPath, c.oldLine, c.newLine, c.hunk);
      assert [] + rest == rest;
    }
  }

  lemma {:induction false} BodyReadsBack(c: Cursor, body: seq<Mark>)
    requires c.oldLeft == OldCount(body) && c.newLeft == NewCount(body)
    ensures
      Reads(c, RenderBody(body), BodyLines(body, c.oldPath, c.newPath, c.oldLine, c.newLine, c.hunk), AfterBody(c, body))
    decreases |body|
  {
    if body == [] {
      ReadsNothing(c);
    } else {
      var next, line := AfterMark(c, body[0]), RenderMark(body[0]);
      MarkReadsBack(c, body[0]);
      BodyLinesCons(c, body);
      assert next.oldLeft == OldCount(body[1..]) && next.newLeft == NewCount(body[1..]);
      hide ReadLine, Reads, BodyLines, AfterMark, MarkLine, RenderMark;
      ReadsLine(c, line);
      BodyReadsBack(next, body[1..]);
      ReadsOn(c, [line], MarkLine(c, body[0]), next, RenderBody(body[1..]),
              BodyLines(body[1..], next.oldPath, next.newPath, next.oldLine, next.newLine, next.hunk),
              AfterBody(next, body[1..]));
    }
  }

  lemma {:induction false} AfterBodyIsBetween(c: Cursor, body: seq<Mark>)
    requires c.oldLeft == OldCount(body) && c.newLeft == NewCount(body)
    ensures
      var e := AfterBody(c, body);
      Between(e) && e.oldPath == c.oldPath && e.newPath == c.newPath && e.hunk == c.hunk
    decreases |body|
  {
    if body != [] {
      AfterBodyIsBetween(AfterMark(c, body[0]), body[1..]);
    }
  }

  function AfterHeader(c: Cursor, h: Hunk): Cursor {
    c.(oldLine := h.oldStart, oldLeft := OldCount(h.body), newLine := h.newStart, newLeft := NewCount(h.body), hunk := c.hunk + 1)
  }

  lemma HeaderLineRead(c: Cursor, l: string, h: HunkHeader)
    requires Between(c) && |l| >= 2 && l[0] == '@' && l[1] == '@' && ParseHunkHeader(l) == Some(h)
    ensures ReadLine(c, l) == (c.(
              oldLine := h.oldStart, oldLeft := h.oldCount, newLine := h.newStart, newLeft := h.newCount, hunk := c.hunk + 1), [])
  {
    hide ParseHunkHeader;
    assert l[..2] == "@@";
  }

  lemma HunkHeaderRead(c: Cursor, h: Hunk)
    requires Between(c) && WellFormedHunk(h)
    ensures Reads(c, [RenderHunkHeader(h)], [], AfterHeader(c, h))
  {
    var l := RenderHunkHeader(h);
    assert |l| >= 2 && l[0] == '@' && l[1] == '@';
    HunkHeaderReadsBack(h);
    HeaderLineRead(c, l, HunkHeader(h.oldStart, OldCount(h.body), h.newStart, NewCount(h.body)));
    hide RenderHunkHeader, ParseHunkHeader, Reads, ReadLine;
    ReadsLine(c, l);
  }

  function AfterHunk(c: Cursor, h: Hunk): Cursor {
    AfterBody(AfterHeader(c, h), h.body)
  }

  lemma AfterHunkIsBetween(c: Cursor, h: Hunk)
    ensures
      var e := AfterHunk(c, h);
      Between(e) && e.oldPath == c.oldPath && e.newPath == c.newPath && e.hunk == c.hunk + 1
  {
    AfterBodyIsBetween(AfterHeader(c, h), h.body);
  }

  lemma HunkReadsBack(c: Cursor, h: Hunk)
    requires Between(c) && WellFormedHunk(h)
    ensures
      Reads(c, RenderHunk(h), BodyLines(h.body, c.oldPath, c.newPath, h.oldStart, h.newStart, c.hunk + 1), AfterHunk(c, h))
  {
    var c1 := AfterHeader(c, h);
    var out := BodyLines(h.body, c.oldPath, c.newPath, h.oldStart, h.newStart, c.hunk + 1);
    HunkHeaderRead(c, h);
    BodyReadsBack(c1, h.body);
    assert Reads(c1, RenderBody(h.body), out, AfterBody(c1, h.body));
    assert RenderHunk(h) == [RenderHunkHeader(h)] + RenderBody(h.body) && AfterHunk(c, h) == AfterBody(c1, h.body);
    hide *;
    ReadsOn(c, [RenderHunkHeader(h)], [], c1, RenderBody(h.body), out, AfterBody(c1, h.body));
  }

  function AfterHunks(c: Cursor, hunks: seq<Hunk>): Cursor
    decreases |hunks|
  {
    if hunks == [] then c else AfterHunks(AfterHunk(c, hunks[0]), hunks[1..])
  }

  lemma {:induction false} AfterHunksIsBetween(c: Cursor, hunks: seq<Hunk>)
    requires Between(c)
    ensures Between(AfterHunks(c, hunks)) && AfterHunks(c, hunks).hunk == c.hunk + |hunks|
    decreases |hunks|
  {
    if hunks != [] {
      AfterHunkIsBetween(c, hunks[0]);
      hide AfterHunk;
      AfterHunksIsBetween(AfterHunk(c, hunks[0]), hunks[1..]);
    }
  }

  lemma {:induction false} HunksReadBack(c: Cursor, f: FileDiff, hunks: seq<Hunk>)
    requires Between(c) && c.oldPath == f.oldPath && c.newPath == f.newPath
    requires forall h :: h in hunks ==> WellFormedHunk(h)
    ensures Reads(c, RenderHunks(hunks), HunksLines(f, hunks, c.hunk + 1), AfterHunks(c, hunks))
    decreases |hunks|
  {
    if hunks == [] {
      ReadsNothing(c);
    } else {
      var h, rest := hunks[0], hunks[1..];
      var c1 := AfterHunk(c, h);
      AfterHunkIsBetween(c, h);
      HunkReadsBack(c, h);
      hide Reads, RenderHunk, WellFormedHunk, BodyLines, AfterHunk;
      HunksReadBack(c1, f, rest);
      ReadsOn(c, RenderHunk(h), BodyLines(h.body, c.oldPath, c.newPath, h.oldStart, h.newStart, c.hunk + 1), c1,
              RenderHunks(rest), HunksLines(f, rest, c1.hunk + 1), AfterHunks(c1, rest));
    }
  }

  // ---- The lines around the hunks are skipped ----

  lemma TrimLeftPlain(s: string)
    requires s != [] && !IsSpace(s[0])
    ensures TrimLeft(s) == s
  {
  }

  lemma TrimRightTab(s: string)
    ensures TrimRight(s + "\t") == TrimRight(s)
  {
    var padded := s + "\t";
    assert padded[|padded| - 1] == '\t' && padded[..|padded| - 1] == s;
  }

  lemma TrimTab(s: string, tab: bool)
    requires s != [] && !IsSpace(s[0])
    ensures TrimSpace(s + if tab then "\t" else "") == TrimRight(s)
  {
    hide TrimRight, TrimLeft, IsSpace;
    var padded := s + if tab then "\t" else "";
    assert padded[0] == s[0];
    TrimLeftPlain(padded);
    TrimRightTab(s);
    assert s + "" == s;
  }

  /** Trimming the end does not reach past a character that is not white space. */
  lemma {:induction false} TrimRightOf(a: string, b: string)
    requires a != [] && !IsSpace(a[|a| - 1])
    ensures TrimRight(a + b) == a + TrimRight(b)
    decreases |b|
  {
    if b == [] {
      assert a + b == a && a + [] == a;
    } else if IsSpace(b[|b| - 1]) {
      assert (a + b)[..|a + b| - 1] == a + b[..|b| - 1];
      TrimRightOf(a, b[..|b| - 1]);
    }
  }

  lemma TrimsIff(path: string)
    ensures TrimRight(path) == path <==> (path != "" ==> !IsSpace(path[|path| - 1]))
  {
  }

  lemma NoSideReadsBack(prefix: string, tab: bool, quotes: bool)
    ensures StripPrefix(RenderName(prefix, "", tab, quotes), prefix) == "" == ReadName(prefix, "", quotes)
  {
    assert !IsSpace("/dev/null"[0]) && !IsSpace("/dev/null"[8]);
    TrimTab("/dev/null", tab);
  }

  lemma {:induction false} EscapedIsLonger(s: string)
    ensures |Escaped(s)| >= |s|
    decreases |s|
  {
    if s != "" {
      EscapedIsLonger(s[1..]);
    }
  }

  lemma QuotedEnds(s: string)
    ensures
      var q := Quoted(s);
      |q| >= |s| + 2 && q[0] == '"' && q[|q| - 1] == '"' && !IsSpace(q[0]) && !IsSpace(q[|q| - 1])
  {
    EscapedIsLonger(s);
  }

  lemma TrimRightPlain(s: string)
    requires s != "" && !IsSpace(s[|s| - 1])
    ensures TrimRight(s) == s
  {
  }

  lemma QuotedName(prefix: string, path: string, tab: bool)
    requires prefix == "a/" || prefix == "b/"
    ensures StripPrefix(Quoted(prefix + path) + if tab then "\t" else "", prefix) == Quoted(prefix + path) != path
  {
    hide TrimSpace, TrimRight, IsSpace, Quoted;
    var q := Quoted(prefix + path);
    QuotedEnds(prefix + path);
    TrimTab(q, tab);
    TrimRightPlain(q);
    assert "/dev/null"[0] != q[0] && prefix[0] != q[0];
  }

  lemma SideName(prefix: string, path: string, tab: bool)
    requires path != "" && (prefix == "a/" || prefix == "b/")
    ensures TrimSpace(prefix + path + if tab then "\t" else "") == prefix + TrimRight(path)
  {
    hide TrimSpace, TrimRight;
    var s := prefix + path;
    assert s[0] == prefix[0];
    TrimTab(s, tab);
    TrimRightOf(prefix, path);
  }

  lemma Stripped(name: string, prefix: string, rest: string)
    requires TrimSpace(name) == prefix + rest && (prefix == "a/" || prefix == "b/")
    ensures StripPrefix(name, prefix) == rest
  {
    hide TrimSpace;
    var read := prefix + rest;
    assert read[0] == prefix[0] && "/dev/null"[0] != prefix[0];
    PrefixSplit(prefix, rest);
  }

  lemma NameIs(prefix: string, path: string, tab: bool, quotes: bool)
    requires path != ""
    ensures
      RenderName(prefix, path, tab, quotes) ==
      (if quotes && Unusual(path) then Quoted(prefix + path) else prefix + path) + if tab then "\t" else ""
    ensures ReadName(prefix, path, quotes) == if quotes && Unusual(path) then Quoted(prefix + path) else TrimRight(path)
    ensures PlainPath(path, quotes) <==> !(quotes && Unusual(path)) && !IsSpace(path[|path| - 1])
  {
  }

  /**
    A side's name reads back trimmed at its end, or as it is quoted, and so to its path exactly when it is not quoted
    and does not end in white space.
   */
  lemma SideReadsBack(prefix: string, path: string, tab: bool, quotes: bool)
    requires path != "" && (prefix == "a/" || prefix == "b/")
    ensures StripPrefix(RenderName(prefix, path, tab, quotes), prefix) == ReadName(prefix, path, quotes)
    ensures StripPrefix(RenderName(prefix, path, tab, quotes), prefix) == path <==>
            !(quotes && Unusual(path)) && !IsSpace(path[|path| - 1])
  {
    hide *;
    NameIs(prefix, path, tab, quotes);
    if quotes && Unusual(path) {
      QuotedName(prefix, path, tab);
    } else {
      SideName(prefix, path, tab);
      Stripped(prefix + path + if tab then "\t" else "", prefix, TrimRight(path));
      TrimsIff(path);
    }
  }

  /** So a file whose name ends in a space is taken for the file named without it. */
  lemma SpaceAtTheEndIsLost(quotes: bool)
    ensures StripPrefix(RenderName("b/", "x ", true, quotes), "b/") == "x"
  {
    hide *;
    SideReadsBack("b/", "x ", true, quotes);
    NameIs("b/", "x ", true, quotes);
    NothingUnusual();
    TrimmedX();
  }

  lemma NothingUnusual()
    ensures !Unusual("x ")
  {
  }

  lemma TrimmedX()
    ensures TrimRight("x ") == "x"
  {
    assert "x "[..1] == "x" && TrimRight("x") == "x";
  }

  /** And a quoted name is taken for the path, its quotes and the side's prefix included. */
  lemma QuotesAreKept(prefix: string, path: string, tab: bool)
    requires Unusual(path) && (prefix == "a/" || prefix == "b/")
    ensures StripPrefix(RenderName(prefix, path, tab, true), prefix) == Quoted(prefix + path) != path
  {
    hide Quoted, StripPrefix;
    NotEmpty(path);
    QuotedName(prefix, path, tab);
  }

  lemma NotEmpty(path: string)
    requires Unusual(path)
    ensures path != ""
  {
  }

  lemma {:induction false} MetaLinesSkipped(c: Cursor, meta: seq<string>)
    requires Between(c) && forall l :: l in meta ==> MetaLine(l)
    ensures Reads(c, meta, [], c)
    decreases |meta|
  {
    if meta != [] {
      assert MetaLine(meta[0]);
      MetaLinesSkipped(c, meta[1..]);
    }
  }

  lemma SideLineRead(c: Cursor, l: string, path: string, base: bool)
    requires Between(c) && |l| >= 4
    requires l[..4] == if base then "--- " else "+++ "
    requires StripPrefix(l[4..], if base then "a/" else "b/") == path
    ensures ReadLine(c, l) == (if base then c.(oldPath := path) else c.(newPath := path), [])
  {
    hide StripPrefix, ParseHunkHeader;
    assert l[0] == if base then '-' else '+';
  }

  lemma PrefixSplit(a: string, b: string)
    ensures |a + b| == |a| + |b| && (a + b)[..|a|] == a && (a + b)[|a|..] == b
  {
  }

  lemma RenderedSide(marker: string, prefix: string, path: string, tab: bool, quotes: bool)
    requires |marker| == 4 && (prefix == "a/" || prefix == "b/")
    ensures
      var l := RenderSide(marker, prefix, path, tab, quotes);
      |l| >= 4 && l[..4] == marker && StripPrefix(l[4..], prefix) == ReadName(prefix, path, quotes)
  {
    if path == "" {
      NoSideReadsBack(prefix, tab, quotes);
    } else {
      SideReadsBack(prefix, path, tab, quotes);
    }
    hide StripPrefix, RenderName, ReadName;
    PrefixSplit(marker, RenderName(prefix, path, tab, quotes));
  }

  lemma SideRead(c: Cursor, path: string, tab: bool, quotes: bool, base: bool)
    requires Between(c)
    ensures
      var l := if base then RenderSide("--- ", "a/", path, tab, quotes) else RenderSide("+++ ", "b/", path, tab, quotes);
      var read := ReadName(if base then "a/" else "b/", path, quotes);
      Reads(c, [l], [], if base then c.(oldPath := read) else c.(newPath := read))
  {
    var l := if base then RenderSide("--- ", "a/", path, tab, quotes) else RenderSide("+++ ", "b/", path, tab, quotes);
    var prefix := if base then "a/" else "b/";
    hide RenderSide, Reads, ReadLine, StripPrefix, ReadName;
    RenderedSide(if base then "--- " else "+++ ", prefix, path, tab, quotes);
    SideLineRead(c, l, ReadName(prefix, path, quotes), base);
    ReadsLine(c, l);
  }

  lemma SidesReadBack(c: Cursor, f: FileDiff)
    requires Between(c)
    ensures Reads(c, RenderSides(f), [], c.(oldPath := AsRead(f).oldPath, newPath := AsRead(f).newPath))
  {
    var c1 := c.(oldPath := ReadName("a/", f.oldPath, f.quotes));
    assert Between(c1);
    hide RenderSide, Reads, ReadName;
    SideRead(c, f.oldPath, f.tab, f.quotes, true);
    SideRead(c1, f.newPath, f.tab, f.quotes, false);
    ReadsOn(c, [RenderSide("--- ", "a/", f.oldPath, f.tab, f.quotes)], [], c1,
            [RenderSide("+++ ", "b/", f.newPath, f.tab, f.quotes)], [], c1.(newPath := ReadName("b/", f.newPath, f.quotes)));
  }

  lemma GitLineRead(c: Cursor, names: string)
    requires Between(c)
    ensures ReadLine(c, "diff --git " + names) == (c.(oldPath := "", newPath := ""), [])
  {
  }

  lemma FileHeadReadsBack(c: Cursor, f: FileDiff)
    requires Between(c) && WellFormedFile(f)
    ensures Reads(c, RenderHead(f), [], c.(oldPath := "", newPath := ""))
  {
    var git := "diff --git " + f.names;
    var c1 := c.(oldPath := "", newPath := "");
    assert Between(c1);
    GitLineRead(c, f.names);
    MetaLinesSkipped(c1, f.meta);
    hide Reads, ReadLine;
    ReadsLine(c, git);
    ReadsOn(c, [git], [], c1, f.meta, [], c1);
  }

  function AfterFile(c: Cursor, f: FileDiff): Cursor {
    if f.hunks == [] then c.(oldPath := "", newPath := "")
    else AfterHunks(c.(oldPath := f.oldPath, newPath := f.newPath), f.hunks)
  }

  lemma AfterFileIsBetween(c: Cursor, f: FileDiff)
    requires Between(c)
    ensures Between(AfterFile(c, f)) && AfterFile(c, f).hunk == c.hunk + |f.hunks|
  {
    AfterHunksIsBetween(c.(oldPath := f.oldPath, newPath := f.newPath), f.hunks);
  }

  lemma FileShape(f: FileDiff)
    ensures f.hunks == [] ==> RenderFile(f) == RenderHead(f) + []
    ensures f.hunks != [] ==> RenderFile(f) == RenderHead(f) + (RenderSides(f) + RenderHunks(f.hunks))
    ensures AsRead(f).hunks == f.hunks
  {
    hide RenderHead, RenderSides, RenderHunks, ReadName;
  }

  lemma AfterFileShape(c: Cursor, f: FileDiff)
    ensures f.hunks == [] ==> AfterFile(c, f) == c.(oldPath := "", newPath := "")
    ensures f.hunks != [] ==> AfterFile(c, f) == AfterHunks(c.(oldPath := f.oldPath, newPath := f.newPath), f.hunks)
  {
  }

  lemma NoHunksShape(f: FileDiff, first: int)
    ensures HunksLines(f, [], first) == []
  {
  }

  lemma StaysBetween(c: Cursor, o: string, n: string)
    requires Between(c)
    ensures Between(c.(oldPath := o, newPath := n))
  {
  }

  lemma FileHunksAreFine(f: FileDiff)
    requires WellFormedFile(f)
    ensures forall h :: h in f.hunks ==> WellFormedHunk(h)
  {
  }

  lemma FileReadsBack(c: Cursor, f: FileDiff)
    requires Between(c) && WellFormedFile(f)
    ensures Reads(c, RenderFile(f), HunksLines(AsRead(f), f.hunks, c.hunk + 1), AfterFile(c, AsRead(f)))
  {
    hide *;
    var g := AsRead(f);
    var c1 := c.(oldPath := "", newPath := "");
    var c2 := c.(oldPath := g.oldPath, newPath := g.newPath);
    FileHeadReadsBack(c, f);
    FileShape(f);
    AfterFileShape(c, g);
    StaysBetween(c, "", "");
    StaysBetween(c, g.oldPath, g.newPath);
    FileHunksAreFine(f);
    if f.hunks == [] {
      NoHunksShape(g, c.hunk + 1);
      ReadsNothing(c1);
      ReadsOn(c, RenderHead(f), [], c1, [], [], c1);
    } else {
      SidesReadBack(c1, f);
      HunksReadBack(c2, g, f.hunks);
      ReadsThree(c, RenderHead(f), c1, RenderSides(f), c2, RenderHunks(f.hunks), HunksLines(g, f.hunks, c.hunk + 1),
                 AfterHunks(c2, f.hunks));
    }
  }

  function AfterFiles(c: Cursor, files: seq<FileDiff>): Cursor
    decreases |files|
  {
    if files == [] then c else AfterFiles(AfterFile(c, files[0]), files[1..])
  }

  lemma {:induction false} AfterFilesIsBetween(c: Cursor, files: seq<FileDiff>)
    requires Between(c)
    ensures Between(AfterFiles(c, files))
    decreases |files|
  {
    if files != [] {
      AfterFileIsBetween(c, files[0]);
      AfterFilesIsBetween(AfterFile(c, files[0]), files[1..]);
    }
  }

  lemma FilesLinesCons(files: seq<FileDiff>, first: int, next: int)
    requires files != [] && next == first + |files[0].hunks|
    ensures
      FilesLines(AllAsRead(files), first) ==
      HunksLines(AsRead(files[0]), files[0].hunks, first) + FilesLines(AllAsRead(files[1..]), next)
    ensures RenderLines(files) == RenderFile(files[0]) + RenderLines(files[1..])
  {
    hide HunksLines;
    assert AllAsRead(files)[0] == AsRead(files[0]) && AllAsRead(files)[1..] == AllAsRead(files[1..]);
  }

  lemma AfterFilesCons(c: Cursor, files: seq<FileDiff>)
    requires files != []
    ensures AfterFiles(c, AllAsRead(files)) == AfterFiles(AfterFile(c, AsRead(files[0])), AllAsRead(files[1..]))
  {
    hide AfterFile;
    assert AllAsRead(files)[0] == AsRead(files[0]) && AllAsRead(files)[1..] == AllAsRead(files[1..]);
  }

  lemma NoFilesReadBack(c: Cursor)
    ensures Reads(c, RenderLines([]), FilesLines(AllAsRead([]), c.hunk + 1), AfterFiles(c, AllAsRead([])))
  {
  }

  lemma {:induction false} FilesReadBack(c: Cursor, files: seq<FileDiff>)
    requires Between(c) && WellFormed(files)
    ensures Reads(c, RenderLines(files), FilesLines(AllAsRead(files), c.hunk + 1), AfterFiles(c, AllAsRead(files)))
    decreases |files|
  {
    assert files != [] ==> WellFormedFile(files[0]) && WellFormed(files[1..]);
    hide *;
    if files == [] {
      NoFilesReadBack(c);
    } else {
      var f, rest := files[0], files[1..];
      var c1 := AfterFile(c, AsRead(f));
      AfterFileIsBetween(c, AsRead(f));
      SameHunks(f);
      FileReadsBack(c, f);
      FilesReadBack(c1, rest);
      FilesLinesCons(files, c.hunk + 1, c1.hunk + 1);
      AfterFilesCons(c, files);
      ReadsOn(c, RenderFile(f), HunksLines(AsRead(f), f.hunks, c.hunk + 1), c1, RenderLines(rest),
              FilesLines(AllAsRead(rest), c1.hunk + 1), AfterFiles(c1, AllAsRead(rest)));
    }
  }

  lemma SameHunks(f: FileDiff)
    ensures AsRead(f).hunks == f.hunks
  {
  }

  // ---- A rendered diff splits into the lines it was rendered from ----

  lemma {:induction false} BodyIsLines(body: seq<Mark>)
    requires forall m :: m in body ==> WellFormedMark(m)
    ensures forall l :: l in RenderBody(body) ==> OneLine(l)
    decreases |body|
  {
    if body != [] {
      assert WellFormedMark(body[0]);
      BodyIsLines(body[1..]);
    }
  }

  lemma {:induction false} HunksAreLines(hunks: seq<Hunk>)
    requires forall h :: h in hunks ==> WellFormedHunk(h)
    ensures forall l :: l in RenderHunks(hunks) ==> OneLine(l)
    decreases |hunks|
  {
    if hunks != [] {
      HunkHeaderIsOneLine(hunks[0]);
      BodyIsLines(hunks[0].body);
      HunksAreLines(hunks[1..]);
      hide OneLine, RenderHunkHeader, RenderBody;
    }
  }

  lemma {:induction false} FilesAreLines(files: seq<FileDiff>)
    requires WellFormed(files)
    ensures forall l :: l in RenderLines(files) ==> OneLine(l)
    decreases |files|
  {
    if files != [] {
      FileIsLines(files[0]);
      FilesAreLines(files[1..]);
      hide OneLine, RenderFile;
    }
  }

  lemma FileIsLines(f: FileDiff)
    requires WellFormedFile(f)
    ensures forall l :: l in RenderFile(f) ==> OneLine(l)
  {
    HunksAreLines(f.hunks);
    assert OneLine("diff --git " + f.names);
    SideIsOneLine("--- ", "a/", f.oldPath, f.tab, f.quotes);
    SideIsOneLine("+++ ", "b/", f.newPath, f.tab, f.quotes);
    hide OneLine, RenderSide, RenderHunks;
  }

  lemma EscapeIsOneLine(c: char)
    ensures OneLine(Escape(c))
  {
    assert OctalDigit(c as int / 64) >= '0' && OctalDigit(c as int / 8) >= '0' && OctalDigit(c as int) >= '0';
    assert OneLine("abtnvfr");
  }

  lemma {:induction false} EscapedIsOneLine(s: string)
    ensures OneLine(Escaped(s))
    decreases |s|
  {
    if s != "" {
      EscapeIsOneLine(s[0]);
      EscapedIsOneLine(s[1..]);
      hide Escape, OneLine;
      OneLineConcat(Escape(s[0]), Escaped(s[1..]));
    }
  }

  lemma SideIsOneLine(marker: string, prefix: string, path: string, tab: bool, quotes: bool)
    requires OneLine(marker) && OneLine(prefix) && NamedOnOneLine(path, quotes)
    ensures OneLine(RenderSide(marker, prefix, path, tab, quotes))
  {
    EscapedIsOneLine(prefix + path);
    UsualIsOneLine(path);
    hide Escaped, Unusual;
    var name := RenderName(prefix, path, tab, quotes);
    assert OneLine(name);
    OneLineConcat(marker, name);
  }

  lemma UsualIsOneLine(path: string)
    ensures !Unusual(path) ==> OneLine(path)
  {
  }

  /**
    For every well-formed diff, the reader yields exactly the lines of the hunks, with each side's number and the
    path it reads: none lost, none invented, whatever the lines' own text. A removed "-- x" and an added "++ x"
    included.
   */
  lemma ReaderYieldsTheHunks(files: seq<FileDiff>)
    requires WellFormed(files)
    ensures HunkLines(Render(files)) == FilesLines(AllAsRead(files), 0)
  {
    var lines, read := RenderLines(files), AllAsRead(files);
    var e := AfterFiles(Start, read);
    FilesAreLines(files);
    SplitJoin(lines + [""]);
    FilesReadBack(Start, files);
    AfterFilesIsBetween(Start, read);
    NotAHeader(e, "");
    assert ReadLine(e, "") == (e, []);
    ReadsLine(e, "");
    ReadsOn(Start, lines, FilesLines(read, 0), e, [""], [], e);
  }

  // ---- Exactly when the paths are the diff's own ----

  predicate ShowsAMark(body: seq<Mark>) {
    exists m :: m in body && !m.NoNewline?
  }

  predicate PlainPaths(f: FileDiff) {
    PlainPath(f.oldPath, f.quotes) && PlainPath(f.newPath, f.quotes)
  }

  lemma ReadsItselfIff(f: FileDiff)
    ensures AsRead(f) == f <==> PlainPaths(f)
    ensures PlainPaths(f) <==> AsRead(f).oldPath == f.oldPath && AsRead(f).newPath == f.newPath
  {
    ReadsAsItselfIff("a/", f.oldPath, f.quotes);
    ReadsAsItselfIff("b/", f.newPath, f.quotes);
    hide ReadName, PlainPath;
  }

  lemma ReadsAsItselfIff(prefix: string, path: string, quotes: bool)
    requires prefix == "a/" || prefix == "b/"
    ensures ReadName(prefix, path, quotes) == path <==> PlainPath(path, quotes)
  {
    TrimsIff(path);
    QuotedEnds(prefix + path);
    hide Quoted, TrimRight;
    assert path == "" ==> !Unusual(path);
  }

  lemma {:induction false} BodyLinesSameIff(
    body: seq<Mark>, o: string, n: string, p: string, q: string, a: int, b: int, h: int)
    ensures |BodyLines(body, o, n, a, b, h)| == |BodyLines(body, p, q, a, b, h)|
    ensures BodyLines(body, o, n, a, b, h) == BodyLines(body, p, q, a, b, h) <==> !ShowsAMark(body) || (o == p && n == q)
    decreases |body|
  {
    if body != [] {
      var c, d := Cursor(o, n, a, b, h, 0, 0), Cursor(p, q, a, b, h, 0, 0);
      var next := AfterMark(c, body[0]);
      BodyLinesCons(c, body);
      BodyLinesCons(d, body);
      BodyLinesSameIff(body[1..], o, n, p, q, next.oldLine, next.newLine, h);
      ShowsCons(body);
      hide BodyLines, ShowsAMark;
      SameConcat(MarkLine(c, body[0]), MarkLine(d, body[0]),
                 BodyLines(body[1..], o, n, next.oldLine, next.newLine, h),
                 BodyLines(body[1..], p, q, next.oldLine, next.newLine, h));
    }
  }

  lemma ShowsCons(body: seq<Mark>)
    requires body != []
    ensures ShowsAMark(body) <==> !body[0].NoNewline? || ShowsAMark(body[1..])
  {
    assert body == [body[0]] + body[1..];
  }

  /** Concatenations of parts of equal lengths are equal exactly when the parts are. */
  lemma SameConcat(a: seq<DiffLine>, b: seq<DiffLine>, c: seq<DiffLine>, d: seq<DiffLine>)
    requires |a| == |b|
    ensures a + c == b + d <==> a == b && c == d
  {
    assert (a + c)[..|a|] == a && (a + c)[|a|..] == c;
    assert (b + d)[..|b|] == b && (b + d)[|b|..] == d;
  }

  predicate HunksShow(hunks: seq<Hunk>) {
    exists h :: h in hunks && ShowsAMark(h.body)
  }

  lemma HunksShowCons(hunks: seq<Hunk>)
    requires hunks != []
    ensures HunksShow(hunks) <==> ShowsAMark(hunks[0].body) || HunksShow(hunks[1..])
  {
    hide ShowsAMark;
    assert hunks == [hunks[0]] + hunks[1..];
  }

  lemma {:induction false} HunksLinesSameIff(f: FileDiff, hunks: seq<Hunk>, first: int)
    ensures |HunksLines(AsRead(f), hunks, first)| == |HunksLines(f, hunks, first)|
    ensures HunksLines(AsRead(f), hunks, first) == HunksLines(f, hunks, first) <==> !HunksShow(hunks) || PlainPaths(f)
    decreases |hunks|
  {
    if hunks != [] {
      var h, g := hunks[0], AsRead(f);
      BodyLinesSameIff(h.body, g.oldPath, g.newPath, f.oldPath, f.newPath, h.oldStart, h.newStart, first);
      HunksLinesSameIff(f, hunks[1..], first + 1);
      HunksShowCons(hunks);
      ReadsItselfIff(f);
      hide BodyLines, ShowsAMark, HunksShow, AsRead, PlainPaths;
      SameConcat(BodyLines(h.body, g.oldPath, g.newPath, h.oldStart, h.newStart, first),
                 BodyLines(h.body, f.oldPath, f.newPath, h.oldStart, h.newStart, first),
                 HunksLines(g, hunks[1..], first + 1), HunksLines(f, hunks[1..], first + 1));
    }
  }

  /** Every file that shows a line has paths that read as themselves. */
  predicate ShownPathsArePlain(files: seq<FileDiff>) {
    forall f :: f in files && HunksShow(f.hunks) ==> PlainPaths(f)
  }

  lemma ShownPathsCons(files: seq<FileDiff>)
    requires files != []
    ensures ShownPathsArePlain(files) <==>
            (HunksShow(files[0].hunks) ==> PlainPaths(files[0])) && ShownPathsArePlain(files[1..])
  {
    hide HunksShow, PlainPaths;
    assert files == [files[0]] + files[1..];
  }

  lemma OwnLinesCons(files: seq<FileDiff>, first: int)
    requires files != []
    ensures FilesLines(files, first) ==
            HunksLines(files[0], files[0].hunks, first) + FilesLines(files[1..], first + |files[0].hunks|)
  {
  }

  lemma NoFilesSame(first: int)
    ensures FilesLines(AllAsRead([]), first) == FilesLines([], first) && ShownPathsArePlain([])
  {
  }

  lemma {:induction false} FilesLinesSameIff(files: seq<FileDiff>, first: int)
    ensures FilesLines(AllAsRead(files), first) == FilesLines(files, first) <==> ShownPathsArePlain(files)
    decreases |files|
  {
    hide *;
    if files == [] {
      NoFilesSame(first);
    } else {
      var f, rest := files[0], files[1..];
      var next := first + |f.hunks|;
      FilesLinesCons(files, first, next);
      OwnLinesCons(files, first);
      ShownPathsCons(files);
      HunksLinesSameIff(f, f.hunks, first);
      FilesLinesSameIff(rest, next);
      SameConcat(HunksLines(AsRead(f), f.hunks, first), HunksLines(f, f.hunks, first),
                 FilesLines(AllAsRead(rest), next), FilesLines(rest, next));
    }
  }

  /**
    The reader yields the diff's own lines, paths included, exactly when no file that shows one has a name that is
    quoted or ends in white space.
   */
  lemma ReaderYieldsTheHunksIff(files: seq<FileDiff>)
    requires WellFormed(files)
    ensures HunkLines(Render(files)) == FilesLines(files, 0) <==> ShownPathsArePlain(files)
  {
    hide *;
    ReaderYieldsTheHunks(files);
    FilesLinesSameIff(files, 0);
  }
}
