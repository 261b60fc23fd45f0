/**
  What internal/contextpack/diff.go gathers from the lines of a diff: the lines shown by path, which
  anchor findings, the count of changed lines, and what each hunk makes of its region.
 */
module DiffFacts {
  import opened Prelude
  import opened Text
  import opened UnifiedDiff

  // ---- parseDiff: the lines by path ----

  datatype Parsed = Parsed(added: map<string, seq<int>>, shown: map<string, map<int, string>>, removed: map<string, seq<int>>)

  const NothingParsed := Parsed(map[], map[], map[])

  function Append(m: map<string, seq<int>>, path: string, line: int): map<string, seq<int>> {
    m[path := (if path in m then m[path] else []) + [line]]
  }

  function Show(m: map<string, map<int, string>>, path: string, line: int, text: string): map<string, map<int, string>> {
    m[path := (if path in m then m[path] else map[])[line := text]]
  }

  function Collect(d: Parsed, l: DiffLine): Parsed {
    if l.kind == '-' && l.oldPath != "" then d.(removed := Append(d.removed, l.oldPath, l.oldLine))
    else if l.kind == '+' && l.newPath != "" then
      d.(added := Append(d.added, l.newPath, l.newLine), shown := Show(d.shown, l.newPath, l.newLine, l.text))
    else if l.kind == ' ' && l.newPath != "" then d.(shown := Show(d.shown, l.newPath, l.newLine, l.text))
    else d
  }

  function CollectAll(lines: seq<DiffLine>): Parsed {
    if lines == [] then NothingParsed else Collect(CollectAll(lines[..|lines| - 1]), lines[|lines| - 1])
  }

  method ParseDiff(diff: string) returns (d: Parsed)
    ensures d == CollectAll(HunkLines(diff))
  {
    var lines := WalkDiff(diff);
    d := NothingParsed;
    for i := 0 to |lines|
      invariant d == CollectAll(lines[..i])
    {
      assert lines[..i + 1][..i] == lines[..i];
      d := Collect(d, lines[i]);
    }
    assert lines[..|lines|] == lines;
  }

  /** The head-side lines a diff shows, by path, with their text: what a finding may be anchored to. */
  function ShownLines(diff: string): map<string, map<int, string>> {
    CollectAll(HunkLines(diff)).shown
  }

  predicate OnHead(l: DiffLine) {
    (l.kind == '+' || l.kind == ' ') && l.newPath != ""
  }

  ghost predicate Shown(shown: map<string, map<int, string>>, path: string, n: int) {
    path in shown && n in shown[path]
  }

  predicate Heads(l: DiffLine, path: string, n: int) {
    OnHead(l) && l.newPath == path && l.newLine == n
  }

  ghost predicate HasLine(lines: seq<DiffLine>, path: string, n: int) {
    exists l :: l in lines && Heads(l, path, n)
  }

  ghost predicate HasText(lines: seq<DiffLine>, path: string, n: int, text: string) {
    exists l :: l in lines && Heads(l, path, n) && l.text == text
  }

  lemma CollectOne(d: Parsed, l: DiffLine, path: string, n: int)
    ensures
      var shown := Collect(d, l).shown;
      && (Shown(shown, path, n) <==> Heads(l, path, n) || Shown(d.shown, path, n))
      && (Shown(shown, path, n) ==> shown[path][n] == if Heads(l, path, n) then l.text else d.shown[path][n])
  {
  }

  lemma HasLineSnoc(lines: seq<DiffLine>, path: string, n: int)
    requires lines != []
    ensures
      var before, last := lines[..|lines| - 1], lines[|lines| - 1];
      && (HasLine(lines, path, n) <==> HasLine(before, path, n) || Heads(last, path, n))
      && (forall text :: HasText(before, path, n, text) ==> HasText(lines, path, n, text))
      && (Heads(last, path, n) ==> HasText(lines, path, n, last.text))
  {
    hide Heads;
    assert lines == lines[..|lines| - 1] + [lines[|lines| - 1]];
  }

  /** A path and number are shown exactly when a line has them, and with a text one such line has. */
  lemma {:induction false} CollectedAreShown(lines: seq<DiffLine>, path: string, n: int)
    ensures
      var shown := CollectAll(lines).shown;
      && (Shown(shown, path, n) <==> HasLine(lines, path, n))
      && (Shown(shown, path, n) ==> HasText(lines, path, n, shown[path][n]))
    decreases |lines|
  {
    if lines != [] {
      var before, last := lines[..|lines| - 1], lines[|lines| - 1];
      hide Collect, Heads, HasLine, HasText, Shown;
      CollectOne(CollectAll(before), last, path, n);
      CollectedAreShown(before, path, n);
      HasLineSnoc(lines, path, n);
    }
  }

  // ---- What a rendered diff shows ----

  /** The head side of a hunk body: its context and added lines. */
  function HeadSide(body: seq<Mark>): (lines: seq<string>)
    ensures |lines| == NewCount(body)
  {
    if body == [] then []
    else (if body[0].Context? || body[0].Add? then [body[0].text] else []) + HeadSide(body[1..])
  }

  predicate Covers(h: Hunk, n: int) {
    h.newStart <= n < h.newStart + NewCount(h.body)
  }

  lemma BodyLinesHead(body: seq<Mark>, oldPath: string, newPath: string, oldLine: int, newLine: int, hunk: int)
    requires body != []
    ensures
      var o := if body[0].Context? || body[0].Del? then 1 else 0;
      var n := if body[0].Context? || body[0].Add? then 1 else 0;
      var kind := if body[0].Context? then ' ' else if body[0].Add? then '+' else '-';
      BodyLines(body, oldPath, newPath, oldLine, newLine, hunk) ==
      (if body[0].NoNewline? then [] else [DiffLine(kind, body[0].text, oldPath, newPath, oldLine, newLine, hunk)]) +
      BodyLines(body[1..], oldPath, newPath, oldLine + o, newLine + n, hunk)
  {
    if body[0].NoNewline? {
      var rest := BodyLines(body[1..], oldPath, newPath, oldLine, newLine, hunk);
      assert [] + rest == rest;
    }
  }

  function OldStep(m: Mark): nat {
    if m.Context? || m.Del? then 1 else 0
  }

  function NewStep(m: Mark): nat {
    if m.Context? || m.Add? then 1 else 0
  }

  function KindOf(m: Mark): char {
    if m.Context? then ' ' else if m.Add? then '+' else '-'
  }

  /** A body's lines are its first mark's, if it has one, and the rest's. */
  lemma BodyLineIsIn(body: seq<Mark>, oldPath: string, newPath: string, oldLine: int, newLine: int, hunk: int, l: DiffLine)
    requires l in BodyLines(body, oldPath, newPath, oldLine, newLine, hunk)
    ensures body != []
    ensures
      || (!body[0].NoNewline? && l == DiffLine(KindOf(body[0]), body[0].text, oldPath, newPath, oldLine, newLine, hunk))
      || l in BodyLines(body[1..], oldPath, newPath, oldLine + OldStep(body[0]), newLine + NewStep(body[0]), hunk)
  {
    if body != [] {
      BodyLinesHead(body, oldPath, newPath, oldLine, newLine, hunk);
    }
  }

  lemma HeadSideCons(body: seq<Mark>)
    requires body != []
    ensures NewCount(body) == NewStep(body[0]) + NewCount(body[1..])
    ensures HeadSide(body) == (if NewStep(body[0]) == 1 then [body[0].text] else []) + HeadSide(body[1..])
  {
  }

  /** A line of the head at its place in the body's head side. */
  predicate OnHeadSide(l: DiffLine, body: seq<Mark>, newLine: int) {
    l.kind != '-' ==> 0 <= l.newLine - newLine < |HeadSide(body)| && l.text == HeadSide(body)[l.newLine - newLine]
  }

  lemma FirstOnHeadSide(body: seq<Mark>, l: DiffLine, newLine: int)
    requires body != [] && !body[0].NoNewline? && l.kind == KindOf(body[0]) && l.text == body[0].text && l.newLine == newLine
    ensures OnHeadSide(l, body, newLine)
  {
    hide NewCount, HeadSide;
    HeadSideCons(body);
  }

  lemma LaterOnHeadSide(body: seq<Mark>, l: DiffLine, newLine: int)
    requires body != [] && OnHeadSide(l, body[1..], newLine + NewStep(body[0]))
    ensures OnHeadSide(l, body, newLine)
  {
    hide NewCount, HeadSide;
    HeadSideCons(body);
  }

  lemma {:induction false} BodyLineOnHead(
    body: seq<Mark>, oldPath: string, newPath: string, oldLine: int, newLine: int, hunk: int, l: DiffLine)
    requires l in BodyLines(body, oldPath, newPath, oldLine, newLine, hunk)
    ensures l.oldPath == oldPath && l.newPath == newPath && l.hunk == hunk
    ensures l.kind == '+' || l.kind == ' ' || l.kind == '-'
    ensures OnHeadSide(l, body, newLine)
    decreases |body|
  {
    hide BodyLines, HeadSide, NewCount, OnHeadSide;
    BodyLineIsIn(body, oldPath, newPath, oldLine, newLine, hunk, l);
    var oldNext, newNext := oldLine + OldStep(body[0]), newLine + NewStep(body[0]);
    if l in BodyLines(body[1..], oldPath, newPath, oldNext, newNext, hunk) {
      BodyLineOnHead(body[1..], oldPath, newPath, oldNext, newNext, hunk, l);
      LaterOnHeadSide(body, l, newLine);
    } else {
      FirstOnHeadSide(body, l, newLine);
    }
  }

  lemma {:induction false} BodyCovers(
    body: seq<Mark>, oldPath: string, newPath: string, oldLine: int, newLine: int, hunk: int, n: int)
    returns (l: DiffLine)
    requires newLine <= n < newLine + NewCount(body)
    ensures l in BodyLines(body, oldPath, newPath, oldLine, newLine, hunk)
    ensures l.kind != '-' && l.newLine == n && l.newPath == newPath
    decreases |body|
  {
    var oldNext := if body[0].Context? || body[0].Del? then oldLine + 1 else oldLine;
    if body[0].Context? || body[0].Add? {
      if n == newLine {
        l := BodyLines(body, oldPath, newPath, oldLine, newLine, hunk)[0];
      } else {
        l := BodyCovers(body[1..], oldPath, newPath, oldNext, newLine + 1, hunk, n);
      }
    } else {
      l := BodyCovers(body[1..], oldPath, newPath, oldNext, newLine, hunk, n);
    }
  }

  ghost predicate FromHunk(l: DiffLine, f: FileDiff, h: Hunk) {
    && l.newPath == f.newPath && (l.kind == '+' || l.kind == ' ' || l.kind == '-')
    && (l.kind != '-' ==> Covers(h, l.newLine) && l.text == HeadSide(h.body)[l.newLine - h.newStart])
  }

  lemma {:induction false} LineOfAHunk(f: FileDiff, hunks: seq<Hunk>, first: int, l: DiffLine) returns (h: Hunk)
    requires l in HunksLines(f, hunks, first)
    ensures h in hunks && FromHunk(l, f, h)
    decreases |hunks|
  {
    var lines := BodyLines(hunks[0].body, f.oldPath, f.newPath, hunks[0].oldStart, hunks[0].newStart, first);
    if l in lines {
      h := hunks[0];
      BodyLineOnHead(h.body, f.oldPath, f.newPath, h.oldStart, h.newStart, first, l);
    } else {
      h := LineOfAHunk(f, hunks[1..], first + 1, l);
    }
  }

  lemma {:induction false} LineOfAFile(files: seq<FileDiff>, first: int, l: DiffLine) returns (f: FileDiff, h: Hunk)
    requires l in FilesLines(files, first)
    ensures f in files && h in f.hunks && FromHunk(l, f, h)
    decreases |files|
  {
    if l in HunksLines(files[0], files[0].hunks, first) {
      f := files[0];
      h := LineOfAHunk(f, f.hunks, first, l);
    } else {
      f, h := LineOfAFile(files[1..], first + |files[0].hunks|, l);
    }
  }

  lemma {:induction false} HunkIsRead(f: FileDiff, hunks: seq<Hunk>, first: int, h: Hunk, n: int) returns (l: DiffLine)
    requires h in hunks && Covers(h, n)
    ensures l in HunksLines(f, hunks, first) && l.kind != '-' && l.newLine == n && l.newPath == f.newPath
    decreases |hunks|
  {
    if h == hunks[0] {
      l := BodyCovers(h.body, f.oldPath, f.newPath, h.oldStart, h.newStart, first, n);
    } else {
      l := HunkIsRead(f, hunks[1..], first + 1, h, n);
    }
  }

  lemma {:induction false} FileIsRead(files: seq<FileDiff>, first: int, f: FileDiff, h: Hunk, n: int) returns (l: DiffLine)
    requires f in files && h in f.hunks && Covers(h, n)
    ensures l in FilesLines(files, first) && l.kind != '-' && l.newLine == n && l.newPath == f.newPath
    decreases |files|
  {
    if f == files[0] {
      l := HunkIsRead(f, f.hunks, first, h, n);
    } else {
      l := FileIsRead(files[1..], first + |files[0].hunks|, f, h, n);
    }
  }

  /** The diff was taken against `head`: each hunk's head side is the lines of the file its header names. */
  ghost predicate DescribesHead(files: seq<FileDiff>, head: map<string, seq<string>>) {
    forall f, h :: f in files && f.newPath != "" && h in f.hunks && NewCount(h.body) > 0 ==>
      && f.newPath in head
      && 1 <= h.newStart && h.newStart - 1 + NewCount(h.body) <= |head[f.newPath]|
      && HeadSide(h.body) == head[f.newPath][h.newStart - 1..h.newStart - 1 + NewCount(h.body)]
  }

  ghost predicate CoveredBy(files: seq<FileDiff>, path: string, n: int) {
    exists f, h :: f in files && f.newPath == path && h in f.hunks && Covers(h, n)
  }

  lemma CoveredIsShown(files: seq<FileDiff>, path: string, n: int)
    requires CoveredBy(files, path, n) && path != ""
    ensures HasLine(FilesLines(files, 0), path, n)
  {
    var f, h :| f in files && f.newPath == path && h in f.hunks && Covers(h, n);
    var l := FileIsRead(files, 0, f, h, n);
    var _, _ := LineOfAFile(files, 0, l);
    hide FilesLines, Covers, FromHunk;
    assert Heads(l, path, n);
  }

  lemma LineIsOfTheHead(files: seq<FileDiff>, head: map<string, seq<string>>, l: DiffLine)
    requires DescribesHead(files, head) && l in FilesLines(files, 0) && OnHead(l)
    ensures CoveredBy(files, l.newPath, l.newLine)
    ensures l.newPath in head && 1 <= l.newLine <= |head[l.newPath]| && l.text == head[l.newPath][l.newLine - 1]
  {
    var f, h := LineOfAFile(files, 0, l);
    hide FilesLines, HeadSide;
    assert l.text == HeadSide(h.body)[l.newLine - h.newStart];
  }

  lemma HeadLineIsCovered(files: seq<FileDiff>, head: map<string, seq<string>>, path: string, n: int)
    requires DescribesHead(files, head) && HasLine(FilesLines(files, 0), path, n)
    ensures CoveredBy(files, path, n)
  {
    hide FilesLines, DescribesHead, CoveredBy;
    var l :| l in FilesLines(files, 0) && Heads(l, path, n);
    LineIsOfTheHead(files, head, l);
  }

  lemma HeadTextIsTheHeads(files: seq<FileDiff>, head: map<string, seq<string>>, path: string, n: int, text: string)
    requires DescribesHead(files, head) && HasText(FilesLines(files, 0), path, n, text)
    ensures path in head && 1 <= n <= |head[path]| && text == head[path][n - 1]
  {
    hide FilesLines, DescribesHead, CoveredBy;
    var l :| l in FilesLines(files, 0) && Heads(l, path, n) && l.text == text;
    LineIsOfTheHead(files, head, l);
  }

  lemma ShownLinesOf(diff: string)
    ensures ShownLines(diff) == CollectAll(HunkLines(diff)).shown
  {
  }

  /** Where the reader hands out the hunks' lines of files described against `head`: what is shown of them. */
  lemma ShownOfLines(
    diff: string, files: seq<FileDiff>, head: map<string, seq<string>>, path: string, n: int)
    requires HunkLines(diff) == FilesLines(files, 0) && DescribesHead(files, head) && path != ""
    ensures
      var shown := ShownLines(diff);
      && (Shown(shown, path, n) <==> CoveredBy(files, path, n))
      && (Shown(shown, path, n) ==> path in head && 1 <= n <= |head[path]| && shown[path][n] == head[path][n - 1])
  {
    hide *;
    var shown := ShownLines(diff);
    ShownLinesOf(diff);
    CollectedAreShown(FilesLines(files, 0), path, n);
    if Shown(shown, path, n) {
      HeadLineIsCovered(files, head, path, n);
      ShownHas(shown, path, n);
      HeadTextIsTheHeads(files, head, path, n, shown[path][n]);
    }
    if CoveredBy(files, path, n) {
      CoveredIsShown(files, path, n);
    }
  }

  /**
    For every well-formed diff against `head`, ShownLines holds exactly the lines its hunks cover, under the paths
    the reader takes, and the text it holds for line n of a path is line n of that file.
   */
  lemma ShownLinesAreTheHeadLines(files: seq<FileDiff>, head: map<string, seq<string>>, path: string, n: int)
    requires WellFormed(files) && DescribesHead(AllAsRead(files), head) && path != ""
    ensures
      var shown := ShownLines(Render(files));
      && (Shown(shown, path, n) <==> CoveredBy(AllAsRead(files), path, n))
      && (Shown(shown, path, n) ==> path in head && 1 <= n <= |head[path]| && shown[path][n] == head[path][n - 1])
  {
    hide *;
    ReaderYieldsTheHunks(files);
    ShownOfLines(Render(files), AllAsRead(files), head, path, n);
  }

  /** Under the diff's own paths, where none of those that show a line is quoted or ends in white space. */
  lemma ShownLinesOfPlainPaths(files: seq<FileDiff>, head: map<string, seq<string>>, path: string, n: int)
    requires WellFormed(files) && ShownPathsArePlain(files) && DescribesHead(files, head) && path != ""
    ensures
      var shown := ShownLines(Render(files));
      && (Shown(shown, path, n) <==> CoveredBy(files, path, n))
      && (Shown(shown, path, n) ==> path in head && 1 <= n <= |head[path]| && shown[path][n] == head[path][n - 1])
  {
    hide *;
    ReaderYieldsTheHunksIff(files);
    ShownOfLines(Render(files), files, head, path, n);
  }

  lemma ShownHas(shown: map<string, map<int, string>>, path: string, n: int)
    requires Shown(shown, path, n)
    ensures path in shown && n in shown[path]
  {
  }

  // ---- The numbers of the added and the removed lines ----

  function NumbersAt(m: map<string, seq<int>>, path: string): seq<int> {
    if path in m then m[path] else []
  }

  function Held(d: Parsed, added: bool): map<string, seq<int>> {
    if added then d.added else d.removed
  }

  /** The head number of an added line of the path, or the base number of a removed one. */
  function NumberOf(l: DiffLine, added: bool, path: string): seq<int> {
    if added then (if l.kind == '+' && l.newPath == path then [l.newLine] else [])
    else if l.kind == '-' && l.oldPath == path then [l.oldLine] else []
  }

  function NumbersOf(lines: seq<DiffLine>, added: bool, path: string): seq<int> {
    if lines == [] then []
    else NumbersOf(lines[..|lines| - 1], added, path) + NumberOf(lines[|lines| - 1], added, path)
  }

  /** What a hunk body adds, or removes, counted from `oldLine` and `newLine`. */
  function BodyNumbers(body: seq<Mark>, added: bool, oldLine: int, newLine: int): seq<int> {
    if body == [] then []
    else
      (if added then (if body[0].Add? then [newLine] else []) else if body[0].Del? then [oldLine] else []) +
      BodyNumbers(body[1..], added, oldLine + OldStep(body[0]), newLine + NewStep(body[0]))
  }

  function HunksNumbers(hunks: seq<Hunk>, added: bool): seq<int> {
    if hunks == [] then []
    else BodyNumbers(hunks[0].body, added, hunks[0].oldStart, hunks[0].newStart) + HunksNumbers(hunks[1..], added)
  }

  /** The numbers of the lines a diff adds to the file at `path`, or removes from it, in the diff's order. */
  function FilesNumbers(files: seq<FileDiff>, added: bool, path: string): seq<int> {
    if files == [] then []
    else
      (if (if added then files[0].newPath else files[0].oldPath) == path then HunksNumbers(files[0].hunks, added) else []) +
      FilesNumbers(files[1..], added, path)
  }

  lemma CollectNumber(d: Parsed, l: DiffLine, added: bool, path: string)
    requires path != ""
    ensures NumbersAt(Held(Collect(d, l), added), path) == NumbersAt(Held(d, added), path) + NumberOf(l, added, path)
    ensures path in Held(Collect(d, l), added) <==> path in Held(d, added) || NumberOf(l, added, path) != []
  {
  }

  lemma {:induction false} CollectNumbers(lines: seq<DiffLine>, added: bool, path: string)
    requires path != ""
    ensures
      var m := Held(CollectAll(lines), added);
      NumbersAt(m, path) == NumbersOf(lines, added, path) && (path in m <==> NumbersOf(lines, added, path) != [])
    decreases |lines|
  {
    if lines != [] {
      hide Collect, NumberOf, NumbersAt, Held;
      var before, last := lines[..|lines| - 1], lines[|lines| - 1];
      CollectNumbers(before, added, path);
      CollectNumber(CollectAll(before), last, added, path);
    } else {
      assert CollectAll(lines) == NothingParsed;
    }
  }

  lemma {:induction false} NumbersConcat(a: seq<DiffLine>, b: seq<DiffLine>, added: bool, path: string)
    ensures NumbersOf(a + b, added, path) == NumbersOf(a, added, path) + NumbersOf(b, added, path)
    decreases |b|
  {
    if b == [] {
      assert a + b == a;
    } else {
      assert (a + b)[..|a + b| - 1] == a + b[..|b| - 1];
      NumbersConcat(a, b[..|b| - 1], added, path);
    }
  }

  lemma NumbersOfOne(l: DiffLine, added: bool, path: string)
    ensures NumbersOf([l], added, path) == NumberOf(l, added, path)
  {
    assert [l][..0] == [];
  }

  lemma BodyNumbersCons(body: seq<Mark>, added: bool, oldLine: int, newLine: int)
    requires body != []
    ensures
      BodyNumbers(body, added, oldLine, newLine) ==
      (if added then (if body[0].Add? then [newLine] else []) else if body[0].Del? then [oldLine] else []) +
      BodyNumbers(body[1..], added, oldLine + OldStep(body[0]), newLine + NewStep(body[0]))
  {
  }

  lemma BodyLinesStep(body: seq<Mark>, oldPath: string, newPath: string, oldLine: int, newLine: int, hunk: int)
    requires body != []
    ensures
      var rest := BodyLines(body[1..], oldPath, newPath, oldLine + OldStep(body[0]), newLine + NewStep(body[0]), hunk);
      BodyLines(body, oldPath, newPath, oldLine, newLine, hunk) ==
      if body[0].NoNewline? then rest
      else [DiffLine(KindOf(body[0]), body[0].text, oldPath, newPath, oldLine, newLine, hunk)] + rest
  {
    BodyLinesHead(body, oldPath, newPath, oldLine, newLine, hunk);
  }

  lemma NumberOfMark(m: Mark, l: DiffLine, added: bool, path: string)
    requires !m.NoNewline? && l.kind == KindOf(m)
    ensures
      NumberOf(l, added, path) ==
      if (if added then l.newPath else l.oldPath) != path then []
      else if added then (if m.Add? then [l.newLine] else []) else if m.Del? then [l.oldLine] else []
  {
  }

  lemma NoBodyNumbers(oldPath: string, newPath: string, oldLine: int, newLine: int, hunk: int, added: bool, path: string)
    ensures NumbersOf(BodyLines([], oldPath, newPath, oldLine, newLine, hunk), added, path) == []
    ensures BodyNumbers([], added, oldLine, newLine) == []
  {
  }

  lemma {:induction false} NumbersOfBody(
    body: seq<Mark>, oldPath: string, newPath: string, oldLine: int, newLine: int, hunk: int, added: bool, path: string)
    ensures NumbersOf(BodyLines(body, oldPath, newPath, oldLine, newLine, hunk), added, path) ==
            if (if added then newPath else oldPath) == path then BodyNumbers(body, added, oldLine, newLine) else []
    decreases |body|
  {
    hide *;
    if body == [] {
      NoBodyNumbers(oldPath, newPath, oldLine, newLine, hunk, added, path);
    } else {
      var oldNext, newNext := oldLine + OldStep(body[0]), newLine + NewStep(body[0]);
      BodyLinesStep(body, oldPath, newPath, oldLine, newLine, hunk);
      BodyNumbersCons(body, added, oldLine, newLine);
      NumbersOfBody(body[1..], oldPath, newPath, oldNext, newNext, hunk, added, path);
      if !body[0].NoNewline? {
        var first := DiffLine(KindOf(body[0]), body[0].text, oldPath, newPath, oldLine, newLine, hunk);
        NumbersOfOne(first, added, path);
        NumberOfMark(body[0], first, added, path);
        NumbersConcat([first], BodyLines(body[1..], oldPath, newPath, oldNext, newNext, hunk), added, path);
      }
    }
  }

  lemma {:induction false} NumbersOfHunks(f: FileDiff, hunks: seq<Hunk>, first: int, added: bool, path: string)
    ensures NumbersOf(HunksLines(f, hunks, first), added, path) ==
            if (if added then f.newPath else f.oldPath) == path then HunksNumbers(hunks, added) else []
    decreases |hunks|
  {
    if hunks != [] {
      var h := hunks[0];
      hide NumbersOf, BodyNumbers, BodyLines;
      NumbersOfBody(h.body, f.oldPath, f.newPath, h.oldStart, h.newStart, first, added, path);
      NumbersOfHunks(f, hunks[1..], first + 1, added, path);
      NumbersConcat(BodyLines(h.body, f.oldPath, f.newPath, h.oldStart, h.newStart, first),
                    HunksLines(f, hunks[1..], first + 1), added, path);
    } else {
      assert HunksLines(f, hunks, first) == [];
    }
  }

  lemma FilesNumbersCons(files: seq<FileDiff>, added: bool, path: string)
    requires files != []
    ensures
      FilesNumbers(files, added, path) ==
      (if (if added then files[0].newPath else files[0].oldPath) == path then HunksNumbers(files[0].hunks, added) else []) +
      FilesNumbers(files[1..], added, path)
  {
  }

  lemma NoNumbers(first: int, added: bool, path: string)
    ensures NumbersOf(FilesLines([], first), added, path) == FilesNumbers([], added, path)
  {
  }

  lemma {:induction false} NumbersOfFiles(files: seq<FileDiff>, first: int, added: bool, path: string)
    ensures NumbersOf(FilesLines(files, first), added, path) == FilesNumbers(files, added, path)
    decreases |files|
  {
    hide *;
    if files == [] {
      NoNumbers(first, added, path);
    } else {
      var f := files[0];
      OwnLinesCons(files, first);
      FilesNumbersCons(files, added, path);
      NumbersOfHunks(f, f.hunks, first, added, path);
      NumbersOfFiles(files[1..], first + |f.hunks|, added, path);
      NumbersConcat(HunksLines(f, f.hunks, first), FilesLines(files[1..], first + |f.hunks|), added, path);
    }
  }

  /**
    For every well-formed diff, `added` holds under a path exactly the head numbers of the lines the diff adds to
    it, and `removed` exactly the base numbers of those it removes, in order; and it holds no path without one.
   */
  lemma NumbersAreTheEdits(files: seq<FileDiff>, added: bool, path: string)
    requires WellFormed(files) && path != ""
    ensures
      var m, numbers := Held(CollectAll(HunkLines(Render(files))), added), FilesNumbers(AllAsRead(files), added, path);
      NumbersAt(m, path) == numbers && (path in m <==> numbers != [])
  {
    hide *;
    ReaderYieldsTheHunks(files);
    NumbersOfFiles(AllAsRead(files), 0, added, path);
    CollectNumbers(FilesLines(AllAsRead(files), 0), added, path);
  }

  // ---- ChangedLines ----

  function CountedPath(l: DiffLine): string {
    if l.newPath == "" then l.oldPath else l.newPath
  }

  function CountChanged(lines: seq<DiffLine>, ignored: string -> bool): nat {
    if lines == [] then 0
    else
      var l := lines[|lines| - 1];
      CountChanged(lines[..|lines| - 1], ignored) + if l.kind != ' ' && !ignored(CountedPath(l)) then 1 else 0
  }

  method ChangedLines(diff: string, ignored: string -> bool) returns (n: nat)
    ensures n == CountChanged(HunkLines(diff), ignored)
  {
    var lines := WalkDiff(diff);
    n := 0;
    for i := 0 to |lines|
      invariant n == CountChanged(lines[..i], ignored)
    {
      assert lines[..i + 1][..i] == lines[..i];
      if lines[i].kind != ' ' {
        var path := lines[i].newPath;
        if path == "" {
          path := lines[i].oldPath;
        }
        if !ignored(path) {
          n := n + 1;
        }
      }
    }
    assert lines[..|lines|] == lines;
  }

  /** The lines a hunk body adds and removes. */
  function Edits(body: seq<Mark>): nat {
    if body == [] then 0 else (if body[0].Add? || body[0].Del? then 1 else 0) + Edits(body[1..])
  }

  function HunkEdits(hunks: seq<Hunk>): nat {
    if hunks == [] then 0 else Edits(hunks[0].body) + HunkEdits(hunks[1..])
  }

  /** The lines added and removed in the files no glob matches: a file goes by its head path, or its base path once deleted. */
  function FileEdits(files: seq<FileDiff>, ignored: string -> bool): nat {
    if files == [] then 0
    else
      (if ignored(if files[0].newPath == "" then files[0].oldPath else files[0].newPath) then 0 else HunkEdits(files[0].hunks)) +
      FileEdits(files[1..], ignored)
  }

  lemma {:induction false} CountConcat(a: seq<DiffLine>, b: seq<DiffLine>, ignored: string -> bool)
    ensures CountChanged(a + b, ignored) == CountChanged(a, ignored) + CountChanged(b, ignored)
    decreases |b|
  {
    if b == [] {
      assert a + b == a;
    } else {
      assert (a + b)[..|a + b| - 1] == a + b[..|b| - 1];
      CountConcat(a, b[..|b| - 1], ignored);
    }
  }

  lemma {:induction false} CountBody(
    body: seq<Mark>, oldPath: string, newPath: string, oldLine: int, newLine: int, hunk: int, ignored: string -> bool)
    ensures CountChanged(BodyLines(body, oldPath, newPath, oldLine, newLine, hunk), ignored) ==
            if ignored(if newPath == "" then oldPath else newPath) then 0 else Edits(body)
    decreases |body|
  {
    if body != [] {
      var lines := BodyLines(body, oldPath, newPath, oldLine, newLine, hunk);
      var oldNext := if body[0].Context? || body[0].Del? then oldLine + 1 else oldLine;
      var newNext := if body[0].Context? || body[0].Add? then newLine + 1 else newLine;
      var rest := BodyLines(body[1..], oldPath, newPath, oldNext, newNext, hunk);
      CountBody(body[1..], oldPath, newPath, oldNext, newNext, hunk, ignored);
      if !body[0].NoNewline? {
        assert lines == [lines[0]] + rest;
        CountConcat([lines[0]], rest, ignored);
        assert [lines[0]][..0] == [];
      }
    }
  }

  lemma {:induction false} CountHunks(f: FileDiff, hunks: seq<Hunk>, first: int, ignored: string -> bool)
    ensures CountChanged(HunksLines(f, hunks, first), ignored) ==
            if ignored(if f.newPath == "" then f.oldPath else f.newPath) then 0 else HunkEdits(hunks)
    decreases |hunks|
  {
    if hunks != [] {
      var h := hunks[0];
      CountBody(h.body, f.oldPath, f.newPath, h.oldStart, h.newStart, first, ignored);
      CountHunks(f, hunks[1..], first + 1, ignored);
      CountConcat(BodyLines(h.body, f.oldPath, f.newPath, h.oldStart, h.newStart, first),
                  HunksLines(f, hunks[1..], first + 1), ignored);
    }
  }

  lemma FileEditsCons(files: seq<FileDiff>, ignored: string -> bool)
    requires files != []
    ensures
      var f := files[0];
      FileEdits(files, ignored) ==
      (if ignored(if f.newPath == "" then f.oldPath else f.newPath) then 0 else HunkEdits(f.hunks)) +
      FileEdits(files[1..], ignored)
  {
  }

  lemma NoFilesCount(first: int, ignored: string -> bool)
    ensures CountChanged(FilesLines([], first), ignored) == FileEdits([], ignored)
  {
  }

  lemma {:induction false} CountFiles(files: seq<FileDiff>, first: int, ignored: string -> bool)
    ensures CountChanged(FilesLines(files, first), ignored) == FileEdits(files, ignored)
    decreases |files|
  {
    hide *;
    if files == [] {
      NoFilesCount(first, ignored);
    } else {
      var f := files[0];
      OwnLinesCons(files, first);
      FileEditsCons(files, ignored);
      CountHunks(f, f.hunks, first, ignored);
      CountFiles(files[1..], first + |f.hunks|, ignored);
      CountConcat(HunksLines(f, f.hunks, first), FilesLines(files[1..], first + |f.hunks|), ignored);
    }
  }

  /** ChangedLines counts exactly the lines added and removed in the files that are not ignored. */
  lemma ChangedLinesCountsTheEdits(files: seq<FileDiff>, ignored: string -> bool)
    requires WellFormed(files)
    ensures CountChanged(HunkLines(Render(files)), ignored) == FileEdits(AllAsRead(files), ignored)
  {
    hide *;
    ReaderYieldsTheHunks(files);
    CountFiles(AllAsRead(files), 0, ignored);
  }

  // ---- Hunks: what each hunk makes of its region ----

  datatype HunkText = HunkText(path: string, text: string)

  /** The loop of Hunks: the hunk being gathered, and those done. */
  datatype Gathering = Gathering(out: seq<HunkText>, last: int, path: string, text: string)

  const NothingGathered := Gathering([], -1, "", "")

  /** flush: a finished hunk is kept when it has a head path and is not blank. */
  function Kept(path: string, text: string): seq<HunkText> {
    if path != "" && TrimSpace(text) != "" then [HunkText(path, text)] else []
  }

  function Flush(g: Gathering): seq<HunkText> {
    g.out + Kept(g.path, g.text)
  }

  function Gather(g: Gathering, l: DiffLine): Gathering {
    var h := if l.hunk != g.last then Gathering(Flush(g), l.hunk, l.newPath, "") else g;
    if l.kind != '-' then h.(text := h.text + l.text + "\n") else h
  }

  function GatherAll(g: Gathering, lines: seq<DiffLine>): Gathering {
    if lines == [] then g else Gather(GatherAll(g, lines[..|lines| - 1]), lines[|lines| - 1])
  }

  method Hunks(diff: string) returns (out: seq<HunkText>)
    ensures out == Flush(GatherAll(NothingGathered, HunkLines(diff)))
  {
    var lines := WalkDiff(diff);
    var g := NothingGathered;
    for i := 0 to |lines|
      invariant g == GatherAll(NothingGathered, lines[..i])
    {
      assert lines[..i + 1][..i] == lines[..i];
      g := Gather(g, lines[i]);
    }
    assert lines[..|lines|] == lines;
    out := Flush(g);
  }

  /** The region of the file as the hunk leaves it: its head-side lines, each ended by a newline. */
  function HeadText(body: seq<Mark>): string {
    if body == [] then ""
    else (if body[0].Context? || body[0].Add? then body[0].text + "\n" else "") + HeadText(body[1..])
  }

  /** It says something: a character that is no white space. */
  predicate Says(text: string) {
    exists k :: 0 <= k < |text| && !IsSpace(text[k])
  }

  /** The regions of the hunks that have a path and say something there. */
  function FileTexts(f: FileDiff, hunks: seq<Hunk>): seq<HunkText> {
    if hunks == [] then []
    else
      var text := HeadText(hunks[0].body);
      (if f.newPath != "" && Says(text) then [HunkText(f.newPath, text)] else []) + FileTexts(f, hunks[1..])
  }

  lemma TrimmedAwayIff(s: string)
    ensures TrimSpace(s) == "" <==> !Says(s)
  {
    hide IsSpace, TrimLeft, TrimRight;
    var left := TrimLeft(s);
    assert left == s[|s| - |left|..];
    assert left != "" ==> !IsSpace(left[0]) && left[0] == s[|s| - |left|] && TrimRight(left) != "";
  }

  lemma KeptIs(path: string, text: string)
    ensures Kept(path, text) == if path != "" && Says(text) then [HunkText(path, text)] else []
  {
    hide TrimSpace, Says;
    TrimmedAwayIff(text);
  }

  function DiffTexts(files: seq<FileDiff>): seq<HunkText> {
    if files == [] then [] else FileTexts(files[0], files[0].hunks) + DiffTexts(files[1..])
  }

  lemma {:induction false} GatherConcat(g: Gathering, a: seq<DiffLine>, b: seq<DiffLine>)
    ensures GatherAll(g, a + b) == GatherAll(GatherAll(g, a), b)
    decreases |b|
  {
    if b == [] {
      assert a + b == a;
    } else {
      assert (a + b)[..|a + b| - 1] == a + b[..|b| - 1];
      GatherConcat(g, a, b[..|b| - 1]);
    }
  }

  lemma GatherOne(g: Gathering, l: DiffLine)
    ensures GatherAll(g, [l]) == Gather(g, l)
  {
    assert [l][..0] == [];
  }

  lemma TextAssoc(a: string, b: string, c: string, d: string)
    ensures a + b + c + d == a + (b + c + d)
  {
  }

  /** Gathering the rest of a hunk already begun. */
  lemma {:induction false} GatherRest(
    g: Gathering, body: seq<Mark>, oldPath: string, newPath: string, oldLine: int, newLine: int)
    ensures GatherAll(g, BodyLines(body, oldPath, newPath, oldLine, newLine, g.last)) == g.(text := g.text + HeadText(body))
    decreases |body|
  {
    if body == [] {
      assert g.text + "" == g.text;
    } else {
      var lines := BodyLines(body, oldPath, newPath, oldLine, newLine, g.last);
      var oldNext := if body[0].Context? || body[0].Del? then oldLine + 1 else oldLine;
      var newNext := if body[0].Context? || body[0].Add? then newLine + 1 else newLine;
      var rest := BodyLines(body[1..], oldPath, newPath, oldNext, newNext, g.last);
      if body[0].NoNewline? {
        assert "" + HeadText(body[1..]) == HeadText(body[1..]);
        GatherRest(g, body[1..], oldPath, newPath, oldNext, newNext);
      } else {
        var l := lines[0];
        var h := Gather(g, l);
        assert lines == [l] + rest && h.last == g.last;
        if l.kind == '-' {
          assert "" + HeadText(body[1..]) == HeadText(body[1..]);
          assert h == g;
        } else {
          TextAssoc(g.text, l.text, "\n", HeadText(body[1..]));
        }
        assert h.(text := h.text + HeadText(body[1..])) == g.(text := g.text + HeadText(body));
        hide *;
        GatherConcat(g, [l], rest);
        GatherOne(g, l);
        GatherRest(h, body[1..], oldPath, newPath, oldNext, newNext);
      }
    }
  }

  lemma FirstLine(g: Gathering, l: DiffLine)
    requires g.last < l.hunk
    ensures Gather(g, l) == Gathering(Flush(g), l.hunk, l.newPath, if l.kind != '-' then l.text + "\n" else "")
  {
    assert "" + l.text == l.text;
  }

  /** Gathering one hunk, from its first line on, adds its text to what is kept. */
  lemma {:induction false} GatherHunk(
    g: Gathering, body: seq<Mark>, oldPath: string, newPath: string, oldLine: int, newLine: int, hunk: int)
    requires g.last < hunk
    ensures
      var e := GatherAll(g, BodyLines(body, oldPath, newPath, oldLine, newLine, hunk));
      e.last <= hunk && Flush(e) == Flush(g) + Kept(newPath, HeadText(body))
    decreases |body|
  {
    if body == [] {
      assert TrimSpace("") == "";
    } else {
      var lines := BodyLines(body, oldPath, newPath, oldLine, newLine, hunk);
      var oldNext := if body[0].Context? || body[0].Del? then oldLine + 1 else oldLine;
      var newNext := if body[0].Context? || body[0].Add? then newLine + 1 else newLine;
      var rest := BodyLines(body[1..], oldPath, newPath, oldNext, newNext, hunk);
      if body[0].NoNewline? {
        GatherHunk(g, body[1..], oldPath, newPath, oldNext, newNext, hunk);
        assert "" + HeadText(body[1..]) == HeadText(body[1..]);
      } else {
        var l := lines[0];
        var h := Gather(g, l);
        FirstLine(g, l);
        assert lines == [l] + rest;
        assert h.text + HeadText(body[1..]) == HeadText(body);
        hide Gather, BodyLines, HeadText, Kept;
        GatherConcat(g, [l], rest);
        GatherOne(g, l);
        GatherRest(h, body[1..], oldPath, newPath, oldNext, newNext);
      }
    }
  }

  lemma HunksLinesCons(f: FileDiff, hunks: seq<Hunk>, first: int)
    requires hunks != []
    ensures HunksLines(f, hunks, first) ==
            BodyLines(hunks[0].body, f.oldPath, f.newPath, hunks[0].oldStart, hunks[0].newStart, first) +
            HunksLines(f, hunks[1..], first + 1)
    ensures FileTexts(f, hunks) == Kept(f.newPath, HeadText(hunks[0].body)) + FileTexts(f, hunks[1..])
  {
    hide Kept, Says;
    KeptIs(f.newPath, HeadText(hunks[0].body));
  }

  lemma {:induction false} GatherHunks(g: Gathering, f: FileDiff, hunks: seq<Hunk>, first: int)
    requires g.last < first
    ensures
      var e := GatherAll(g, HunksLines(f, hunks, first));
      e.last < first + |hunks| && Flush(e) == Flush(g) + FileTexts(f, hunks)
    decreases |hunks|
  {
    if hunks != [] {
      var h := hunks[0];
      var lines := BodyLines(h.body, f.oldPath, f.newPath, h.oldStart, h.newStart, first);
      HunksLinesCons(f, hunks, first);
      hide GatherAll, HunksLines, BodyLines, Flush, FileTexts, Kept;
      GatherHunk(g, h.body, f.oldPath, f.newPath, h.oldStart, h.newStart, first);
      GatherHunks(GatherAll(g, lines), f, hunks[1..], first + 1);
      GatherConcat(g, lines, HunksLines(f, hunks[1..], first + 1));
      Assoc(Flush(g), Kept(f.newPath, HeadText(h.body)), FileTexts(f, hunks[1..]));
    }
  }

  lemma GatherNoFiles(g: Gathering, first: int)
    ensures Flush(GatherAll(g, FilesLines([], first))) == Flush(g) + DiffTexts([])
  {
  }

  lemma DiffTextsCons(files: seq<FileDiff>)
    requires files != []
    ensures DiffTexts(files) == FileTexts(files[0], files[0].hunks) + DiffTexts(files[1..])
  {
  }

  lemma {:induction false} GatherFiles(g: Gathering, files: seq<FileDiff>, first: int)
    requires g.last < first
    ensures Flush(GatherAll(g, FilesLines(files, first))) == Flush(g) + DiffTexts(files)
    decreases |files|
  {
    hide *;
    if files == [] {
      GatherNoFiles(g, first);
    } else {
      var f := files[0];
      var lines, rest := HunksLines(f, f.hunks, first), FilesLines(files[1..], first + |f.hunks|);
      OwnLinesCons(files, first);
      DiffTextsCons(files);
      GatherHunks(g, f, f.hunks, first);
      GatherFiles(GatherAll(g, lines), files[1..], first + |f.hunks|);
      GatherConcat(g, lines, rest);
      Assoc(Flush(g), FileTexts(f, f.hunks), DiffTexts(files[1..]));
    }
  }

  /** Hunks is exactly the head-side text of every hunk that says something there, in order; a deleted file has none. */
  lemma HunksAreTheHeadTexts(files: seq<FileDiff>)
    requires WellFormed(files)
    ensures Flush(GatherAll(NothingGathered, HunkLines(Render(files)))) == DiffTexts(AllAsRead(files))
  {
    hide Render, AllAsRead, FilesLines, HunkLines, GatherAll, DiffTexts;
    ReaderYieldsTheHunks(files);
    GatherFiles(NothingGathered, AllAsRead(files), 0);
  }
}
