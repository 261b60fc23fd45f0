/**
  Cutting files into pieces (internal/chunk/chunk.go, internal/indexer/indexer.go): the text of a line range,
  overlapping windows over a file without declarations, and the choice of declarations to store. Lines are
  numbered from 1, ranges inclusive. Parsing is a parameter: a file's declarations as line ranges.
 */
module Windows {
  import opened Prelude
  import opened Text

  // ---- Lines ----

  /** The lines of a file; nothing after its last newline is no line. */
  function Lines(src: string): seq<string> {
    var split := Split(src);
    if src == "" || src[|src| - 1] == '\n' then split[..|split| - 1] else split
  }

  /** bytes.Count. */
  function Newlines(src: string): nat {
    if src == "" then 0 else (if src[0] == '\n' then 1 else 0) + Newlines(src[1..])
  }

  lemma {:induction false} NewlinesConcat(a: string, b: string)
    ensures Newlines(a + b) == Newlines(a) + Newlines(b)
    decreases |a|
  {
    if a == "" {
      assert a + b == b;
    } else {
      NewlinesConcat(a[1..], b);
      assert (a + b)[1..] == a[1..] + b;
    }
  }

  lemma {:induction false} NoNewlines(a: string)
    requires '\n' !in a
    ensures Newlines(a) == 0
    decreases |a|
  {
    if a != "" {
      NoNewlines(a[1..]);
    }
  }

  lemma {:induction false} SplitCount(src: string)
    ensures |Split(src)| == Newlines(src) + 1
    decreases |src|
  {
    var i := IndexOf(src, '\n');
    if i < 0 {
      NoNewlines(src);
    } else {
      SplitCount(src[i + 1..]);
      assert src == src[..i] + ("\n" + src[i + 1..]);
      NewlinesConcat(src[..i], "\n" + src[i + 1..]);
      NewlinesConcat("\n", src[i + 1..]);
      NoNewlines(src[..i]);
      OneNewline();
    }
  }

  lemma OneNewline()
    ensures Newlines("\n") == 1
  {
    assert "\n"[1..] == "";
  }

  /** A file is its lines joined by newlines, and a last newline if it ends with one; its lines hold none. */
  lemma LinesRejoin(src: string)
    ensures src == Join(Lines(src)) || (Lines(src) != [] && src == Join(Lines(src)) + "\n")
    ensures forall l :: l in Lines(src) ==> '\n' !in l
    ensures |Lines(src)| == Newlines(src) + if src == "" || src[|src| - 1] == '\n' then 0 else 1
  {
    hide Split, Join, Newlines;
    SplitCount(src);
    JoinSplit(src);
    var split := Split(src);
    if src == "" {
      assert split == [""] by { SplitOneLine(""); }
      JoinNone();
    } else if src[|src| - 1] == '\n' {
      var front := src[..|src| - 1];
      assert src == front + "\n" + "";
      SplitEnd(front);
      JoinSplit(front);
      assert Lines(src) == Split(front);
    }
  }

  lemma JoinNone()
    ensures Join([]) == ""
  {
  }

  lemma {:induction false} SplitEnd(s: string)
    ensures Split(s + "\n" + "") == Split(s) + [""]
    decreases |s|
  {
    hide Split, IndexOf;
    var i := IndexOf(s, '\n');
    SplitOneLine("");
    if i < 0 {
      NoneAt(s);
      SplitLine(s, "");
      SplitOneLine(s);
    } else {
      FirstAt(s);
      var head, rest := s[..i], s[i + 1..];
      assert s == head + "\n" + rest;
      assert s + "\n" + "" == head + "\n" + (rest + "\n" + "");
      SplitEnd(rest);
      SplitLine(head, rest);
      SplitLine(head, rest + "\n" + "");
      Assoc([head], Split(rest), [""]);
    }
  }

  lemma NoneAt(s: string)
    ensures IndexOf(s, '\n') < 0 ==> '\n' !in s
  {
  }

  lemma FirstAt(s: string)
    requires IndexOf(s, '\n') >= 0
    ensures var i := IndexOf(s, '\n'); i < |s| && s[i] == '\n' && '\n' !in s[..i]
  {
  }

  method LineCount(src: string) returns (n: nat)
    ensures n == |Lines(src)|
    ensures n == Newlines(src) + if src == "" || src[|src| - 1] == '\n' then 0 else 1
  {
    hide Split;
    SplitCount(src);
    n := Newlines(src);
    if |src| > 0 && src[|src| - 1] != '\n' {
      n := n + 1;
    }
  }

  // ---- Window ----

  /** Past the first newline, or where it stands when there is none. */
  lemma PastTheNewline(rest: string)
    requires |Split(rest)| > 1
    ensures
      var i := IndexOf(rest, '\n');
      i >= 0 && Split(rest)[0] == rest[..i] && Split(rest[i + 1..]) == Split(rest)[1..]
  {
    hide Split;
    var i := IndexOf(rest, '\n');
    if i < 0 {
      SplitOneLine(rest);
    } else {
      assert rest == rest[..i] + "\n" + rest[i + 1..];
      SplitLine(rest[..i], rest[i + 1..]);
    }
  }

  lemma LastLine(rest: string)
    ensures
      var i := IndexOf(rest, '\n');
      Split(rest)[0] == if i >= 0 then rest[..i] else rest
  {
  }

  /** A line more: what is read ends with its newline. */
  lemma {:induction false} JoinedMore(lines: seq<string>, line: string)
    requires lines != []
    ensures Join(lines + [line]) == Join(lines) + "\n" + line
    decreases |lines|
  {
    hide Join;
    if |lines| == 1 {
      assert lines == [lines[0]];
      JoinOne(lines[0]);
      JoinOne(line);
      JoinCons(lines[0], [line]);
      assert lines + [line] == [lines[0]] + [line];
    } else {
      JoinedMore(lines[1..], line);
      JoinCons(lines[0], lines[1..]);
      JoinCons(lines[0], lines[1..] + [line]);
      assert lines + [line] == [lines[0]] + (lines[1..] + [line]);
      assert lines == [lines[0]] + lines[1..];
      assert lines[0] + "\n" + (Join(lines[1..]) + "\n" + line) == lines[0] + "\n" + Join(lines[1..]) + "\n" + line;
    }
  }

  /** The text before a line of the range, its newline included. */
  function Upto(lines: seq<string>): string {
    if lines == [] then "" else Join(lines) + "\n"
  }

  lemma UptoMore(lines: seq<string>, line: string)
    ensures Upto(lines) + line == Join(lines + [line])
    ensures Upto(lines + [line]) == Upto(lines) + (line + "\n")
  {
    hide Join;
    if lines == [] {
      assert lines + [line] == [line];
      JoinOne(line);
    } else {
      JoinedMore(lines, line);
      assert Join(lines) + "\n" + line + "\n" == Join(lines) + "\n" + (line + "\n");
    }
  }

  /** Moves past `count` newlines from `start`, over as many lines. */
  method SkipLines(src: string, start: nat, count: nat) returns (end: nat)
    requires start <= |src| && count < |Split(src[start..])|
    ensures start <= end <= |src|
    ensures Split(src[end..]) == Split(src[start..])[count..]
    ensures src[start..end] == Upto(Split(src[start..])[..count])
  {
    hide Split, Upto;
    ghost var lines := Split(src[start..]);
    end := start;
    NothingYet(src, start, lines);
    for k := 0 to count
      invariant start <= end <= |src| && Split(src[end..]) == lines[k..]
      invariant src[start..end] == Upto(lines[..k])
    {
      var i := IndexOf(src[end..], '\n');
      PastTheNewline(src[end..]);
      OneLineFurther(src, start, end, i, lines, k);
      end := end + (i + 1);
    }
  }

  lemma NothingYet(src: string, start: nat, lines: seq<string>)
    requires start <= |src|
    ensures src[start..start] == Upto(lines[..0]) && lines[0..] == lines
  {
  }

  lemma OneLineFurther(src: string, start: nat, end: nat, i: int, lines: seq<string>, k: nat)
    requires start <= end <= |src| && k + 1 < |lines| && Split(src[end..]) == lines[k..]
    requires i == IndexOf(src[end..], '\n') && i >= 0 && lines[k] == src[end..][..i]
    requires Split(src[end..][i + 1..]) == lines[k..][1..]
    requires src[start..end] == Upto(lines[..k])
    ensures end + i + 1 <= |src| && Split(src[end + (i + 1)..]) == lines[k + 1..]
    ensures src[start..end + (i + 1)] == Upto(lines[..k + 1])
  {
    hide Split, Upto;
    UptoMore(lines[..k], lines[k]);
    assert lines[..k + 1] == lines[..k] + [lines[k]];
    assert src[end..][i + 1..] == src[end + (i + 1)..];
    assert lines[k..][1..] == lines[k + 1..];
    assert src[end..end + (i + 1)] == lines[k] + "\n" by {
      assert src[end + i] == src[end..][i];
    }
    assert src[start..end + (i + 1)] == src[start..end] + src[end..end + (i + 1)];
  }

  /** The lines of a range, as far as the file has them, joined by newlines. */
  function RangeOf(src: string, first: int, last: int): string {
    var lo, hi := Max(first, 1), Min(last, |Lines(src)|);
    if lo > hi then "" else Join(Lines(src)[lo - 1..hi])
  }

  /** The text of the lines from `lo` on up to line `hi`, of a text that has them. */
  method TextOfLines(src: string, lo: nat, hi: nat) returns (text: string)
    requires lo < hi <= |Split(src)|
    ensures text == Join(Split(src)[lo..hi])
  {
    hide *;
    ghost var lines := Split(src);
    assert src[0..] == src;
    var start := SkipLines(src, 0, lo);
    assert lines[lo..][0..] == lines[lo..];
    var mid := SkipLines(src, start, hi - 1 - lo);
    var i := IndexOf(src[mid..], '\n');
    LastLine(src[mid..]);
    FoundInside(src[mid..]);
    var end := if i >= 0 then mid + i else |src|;
    assert src[mid..end] == src[mid..][..end - mid];
    assert lines[lo..][hi - 1 - lo..][0] == lines[hi - 1];
    RangeText(src, start, mid, end, lines, lo, hi);
    text := src[start..end];
  }

  lemma FoundInside(rest: string)
    ensures IndexOf(rest, '\n') <= |rest|
  {
  }

  lemma RangeIs(src: string, first: int, last: int)
    ensures
      var lo, hi := Max(first, 1), Min(last, |Lines(src)|);
      RangeOf(src, first, last) == if lo > hi then "" else Join(Lines(src)[lo - 1..hi])
  {
    hide Join, Lines;
  }

  lemma LinesOfSplit(src: string, lo: nat, hi: nat)
    requires lo <= hi <= |Lines(src)|
    ensures hi <= |Split(src)| && Split(src)[lo..hi] == Lines(src)[lo..hi]
  {
    hide Split, Lines;
    LinesArePrefix(src);
  }

  lemma LeastAndMost(first: int, last: int, radius: int, n: nat)
    ensures Max(first - radius, 1) >= 1 && Min(last + radius, n) <= n
  {
  }

  /** Window: the lines from first - radius to last + radius, as far as the file has them, joined by newlines; none gives zeros. */
  method Window(src: string, first: int, last: int, radius: int) returns (startLine: int, endLine: int, text: string)
    ensures
      var lo, hi := Max(first - radius, 1), Min(last + radius, |Lines(src)|);
      if lo > hi then startLine == 0 && endLine == 0 && text == ""
      else startLine == lo && endLine == hi && text == Join(Lines(src)[lo - 1..hi])
    ensures text == RangeOf(src, first - radius, last + radius)
  {
    hide *;
    RangeIs(src, first - radius, last + radius);
    startLine := Max(first - radius, 1);
    var n := LineCount(src);
    endLine := Min(last + radius, n);
    if startLine > endLine {
      return 0, 0, "";
    }
    LeastAndMost(first, last, radius, n);
    LinesOfSplit(src, startLine - 1, endLine);
    text := TextOfLines(src, startLine - 1, endLine);
  }

  lemma LinesArePrefix(src: string)
    ensures Lines(src) <= Split(src)
  {
    hide Split;
  }

  lemma RangeText(src: string, start: nat, mid: nat, end: nat, lines: seq<string>, lo: nat, hi: nat)
    requires start <= mid <= end <= |src| && lo < hi <= |lines|
    requires src[start..mid] == Upto(lines[lo..][..hi - 1 - lo]) && src[mid..end] == lines[hi - 1]
    ensures src[start..end] == Join(lines[lo..hi])
  {
    hide Upto, Join;
    UptoMore(lines[lo..hi - 1], lines[hi - 1]);
    assert lines[lo..][..hi - 1 - lo] == lines[lo..hi - 1];
    assert lines[lo..hi] == lines[lo..hi - 1] + [lines[hi - 1]];
    assert src[start..end] == src[start..mid] + src[mid..end];
  }

  // ---- Windows ----

  datatype Span = Span(startLine: int, endLine: int)

  function CutFrom(lines: nat, size: nat, step: nat, start: nat): seq<Span>
    requires size > 0 && step > 0
    decreases if start <= lines then lines + 1 - start else 0
  {
    if start > lines then []
    else
      var end := Min(start + size - 1, lines);
      [Span(start, end)] + if end == lines then [] else CutFrom(lines, size, step, start + step)
  }

  /** An overlap as large as a window is taken for a quarter of one. */
  /** An overlap as large as the window is a quarter of it, rounded down. */
  function Overlap(size: int, overlap: int): (r: int)
    ensures if overlap < size then r == overlap else 4 * r <= size < 4 * r + 4
  {
    if overlap >= size then size / 4 else overlap
  }

  function Cut(lines: nat, size: int, overlap: int): seq<Span> {
    if lines == 0 || size <= 0 then [] else CutFrom(lines, size, size - Overlap(size, overlap), 1)
  }

  /** Windows. */
  method WindowsOf(src: string, size: int, overlap: int) returns (out: seq<Span>)
    ensures out == Cut(|Lines(src)|, size, overlap)
  {
    hide Lines, CutFrom;
    out := [];
    var lines := LineCount(src);
    if lines == 0 || size <= 0 {
      return;
    }
    var step := size - Overlap(size, overlap);
    var start := 1;
    ghost var whole := CutFrom(lines, size, step, 1);
    while start <= lines
      invariant start >= 1 && out + CutFrom(lines, size, step, start) == whole
      decreases lines - start
    {
      var end := Min(start + size - 1, lines);
      CutFromStep(lines, size, step, start);
      Assoc(out, [Span(start, end)], if end == lines then [] else CutFrom(lines, size, step, start + step));
      out := out + [Span(start, end)];
      if end == lines {
        assert out + [] == out;
        return;
      }
      start := start + step;
    }
    CutFromPast(lines, size, step, start);
    assert out + [] == out;
  }

  lemma CutFromStep(lines: nat, size: nat, step: nat, start: nat)
    requires size > 0 && step > 0 && start <= lines
    ensures
      var end := Min(start + size - 1, lines);
      CutFrom(lines, size, step, start) ==
      [Span(start, end)] + if end == lines then [] else CutFrom(lines, size, step, start + step)
  {
  }

  lemma CutFromPast(lines: nat, size: nat, step: nat, start: nat)
    requires size > 0 && step > 0 && start > lines
    ensures CutFrom(lines, size, step, start) == []
  {
  }

  predicate Covers(s: Span, line: int) {
    s.startLine <= line <= s.endLine
  }

  lemma {:induction false} CutFromFits(lines: nat, size: nat, step: nat, start: nat, s: Span)
    requires size > 0 && step > 0 && s in CutFrom(lines, size, step, start)
    ensures start <= s.startLine <= s.endLine <= lines && s.endLine - s.startLine < size
    decreases if start <= lines then lines + 1 - start else 0
  {
    if s != Span(start, Min(start + size - 1, lines)) {
      CutFromFits(lines, size, step, start + step, s);
    }
  }

  lemma {:induction false} CutFromCovers(lines: nat, size: nat, step: nat, start: nat, line: nat)
    requires size > 0 && 0 < step <= size && start <= line <= lines
    ensures exists s :: s in CutFrom(lines, size, step, start) && Covers(s, line)
    decreases lines - start
  {
    var first := Span(start, Min(start + size - 1, lines));
    assert first in CutFrom(lines, size, step, start);
    if !Covers(first, line) {
      CutFromCovers(lines, size, step, start + step, line);
      var s :| s in CutFrom(lines, size, step, start + step) && Covers(s, line);
      assert s in CutFrom(lines, size, step, start);
    }
  }

  lemma GapAfterTheFirst(lines: nat, size: nat, step: nat, start: nat, s: Span)
    requires size > 0 && step > size && start + size <= lines && s in CutFrom(lines, size, step, start)
    ensures !Covers(s, start + size)
  {
    hide CutFrom;
    CutFromStep(lines, size, step, start);
    if s != Span(start, start + size - 1) {
      CutFromFits(lines, size, step, start + step, s);
    }
  }

  ghost predicate Covered(spans: seq<Span>, line: int) {
    exists s :: s in spans && Covers(s, line)
  }

  ghost predicate CoversAll(spans: seq<Span>, lines: nat) {
    forall line :: 1 <= line <= lines ==> Covered(spans, line)
  }

  /**
    Windows ends for every size and overlap, cuts no more than `size` lines at a time and none the file does
    not have, and covers every line if and only if the overlap is not negative, or one window is enough.
   */
  lemma WindowsCoverIff(lines: nat, size: int, overlap: int)
    requires size > 0
    ensures forall s :: s in Cut(lines, size, overlap) ==>
              1 <= s.startLine <= s.endLine <= lines && s.endLine - s.startLine < size
    ensures CoversAll(Cut(lines, size, overlap), lines) <==> overlap >= 0 || lines <= size
  {
    hide CutFrom;
    var step := size - Overlap(size, overlap);
    if lines > 0 {
      forall s | s in Cut(lines, size, overlap)
        ensures 1 <= s.startLine <= s.endLine <= lines && s.endLine - s.startLine < size
      {
        CutFromFits(lines, size, step, 1, s);
      }
      if overlap >= 0 {
        forall line | 1 <= line <= lines ensures Covered(Cut(lines, size, overlap), line) {
          CutFromCovers(lines, size, step, 1, line);
        }
      } else if lines <= size {
        OneWindow(lines, size, step);
        assert Span(1, lines) in Cut(lines, size, overlap);
        assert forall line :: 1 <= line <= lines ==> Covers(Span(1, lines), line);
      } else {
        forall s | s in Cut(lines, size, overlap) ensures !Covers(s, 1 + size) {
          GapAfterTheFirst(lines, size, step, 1, s);
        }
        assert !Covered(Cut(lines, size, overlap), 1 + size);
      }
    }
  }

  lemma OneWindow(lines: nat, size: nat, step: nat)
    requires 0 < lines <= size && step > 0
    ensures CutFrom(lines, size, step, 1) == [Span(1, lines)]
  {
  }

  lemma CutFromCons(lines: nat, size: nat, step: nat, start: nat)
    requires size > 0 && step > 0 && |CutFrom(lines, size, step, start)| > 1
    ensures
      var rest := CutFrom(lines, size, step, start + step);
      && CutFrom(lines, size, step, start) == [Span(start, start + size - 1)] + rest
      && rest != [] && rest[0].startLine == start + step
  {
  }

  /** Each window but the last is full, and shares exactly the overlap with the next. */
  lemma {:induction false} NeighboursOverlap(lines: nat, size: nat, step: nat, start: nat, i: nat)
    requires size > 0 && step > 0 && i + 1 < |CutFrom(lines, size, step, start)|
    ensures
      var out := CutFrom(lines, size, step, start);
      && out[i].endLine - out[i].startLine + 1 == size
      && out[i + 1].startLine == out[i].endLine + 1 - (size - step)
    decreases i
  {
    hide CutFrom;
    CutFromCons(lines, size, step, start);
    if i > 0 {
      NeighboursOverlap(lines, size, step, start + step, i - 1);
    }
  }

  // ---- pieces ----

  /** A declaration's lines; the parser gives 1 <= startLine <= endLine. */
  datatype Decl = Decl(symbol: string, startLine: int, endLine: int)

  datatype Options = Options(maxDeclLines: int, windowLines: int, windowOverlap: int)

  datatype Piece = Whole(decl: Decl) | Part(of: Option<Decl>, startLine: int, endLine: int)

  function First(p: Piece): int {
    if p.Whole? then p.decl.startLine else p.startLine
  }

  function Last(p: Piece): int {
    if p.Whole? then p.decl.endLine else p.endLine
  }

  predicate Fits(d: Decl, opts: Options) {
    d.endLine - d.startLine + 1 <= opts.maxDeclLines
  }

  predicate Nested(n: Decl, d: Decl, opts: Options, lastEnd: int) {
    n.startLine > d.startLine && n.endLine <= d.endLine && Fits(n, opts) && n.startLine > lastEnd
  }

  function TakeNested(decls: seq<Decl>, d: Decl, opts: Options, lastEnd: int): seq<Piece>
    decreases |decls|
  {
    if decls == [] then []
    else if Nested(decls[0], d, opts, lastEnd) then [Whole(decls[0])] + TakeNested(decls[1..], d, opts, decls[0].endLine)
    else TakeNested(decls[1..], d, opts, lastEnd)
  }

  function Parts(of: Option<Decl>, from: int, spans: seq<Span>): seq<Piece> {
    if spans == [] then []
    else
      var s := spans[|spans| - 1];
      Parts(of, from, spans[..|spans| - 1]) + [Part(of, from + s.startLine - 1, from + s.endLine - 1)]
  }

  /** The windows over an oversized declaration's own text. */
  function WindowsIn(src: string, d: Decl, opts: Options): seq<Piece> {
    Parts(Some(d), d.startLine, Cut(|Lines(RangeOf(src, d.startLine, d.endLine))|, opts.windowLines, opts.windowOverlap))
  }

  /** What one declaration gives after lines taken up to `lastEnd`. */
  function PiecesOf(all: seq<Decl>, src: string, d: Decl, opts: Options, lastEnd: int): seq<Piece> {
    if d.startLine <= lastEnd then []
    else if Fits(d, opts) then [Whole(d)]
    else
      var nested := TakeNested(all, d, opts, lastEnd);
      if nested != [] then nested else WindowsIn(src, d, opts)
  }

  /** The last line taken after it: the declaration's own, or the last nested one's. */
  function TakenTo(all: seq<Decl>, d: Decl, opts: Options, lastEnd: int): int {
    if d.startLine <= lastEnd then lastEnd
    else if Fits(d, opts) then d.endLine
    else
      var nested := TakeNested(all, d, opts, lastEnd);
      if nested != [] then Last(nested[|nested| - 1]) else d.endLine
  }

  function PiecesFrom(all: seq<Decl>, decls: seq<Decl>, src: string, opts: Options, lastEnd: int): seq<Piece>
    decreases |decls|
  {
    if decls == [] then []
    else PiecesOf(all, src, decls[0], opts, lastEnd) + PiecesFrom(all, decls[1..], src, opts, TakenTo(all, decls[0], opts, lastEnd))
  }

  function Pieces(decls: seq<Decl>, src: string, opts: Options): seq<Piece> {
    if decls == [] then Parts(None, 1, Cut(|Lines(src)|, opts.windowLines, opts.windowOverlap))
    else PiecesFrom(decls, decls, src, opts, 0)
  }

  // ---- What one declaration comes to ----

  /** A declaration inside d, within the limit, that starts after the lines taken. */
  predicate Inside(n: Decl, d: Decl, opts: Options, lastEnd: int) {
    d.startLine < n.startLine && n.endLine <= d.endLine && n.endLine - n.startLine < opts.maxDeclLines && lastEnd < n.startLine
  }

  /** Something taken ends on the line or after it. */
  ghost predicate Reached(out: seq<Piece>, line: int) {
    exists i :: 0 <= i < |out| && line <= Last(out[i])
  }

  predicate AllInside(out: seq<Piece>, all: seq<Decl>, d: Decl, opts: Options, lastEnd: int) {
    forall i :: 0 <= i < |out| ==> out[i].Whole? && out[i].decl in all && Inside(out[i].decl, d, opts, lastEnd)
  }

  /** Nested declarations, leaving out none but those that start within what was taken. */
  ghost predicate TakesNested(out: seq<Piece>, all: seq<Decl>, d: Decl, opts: Options, lastEnd: int) {
    && AllInside(out, all, d, opts, lastEnd)
    && forall n :: n in all && Inside(n, d, opts, lastEnd) ==> Reached(out, n.startLine)
  }

  /** Windows over the declaration's own text. */
  predicate WindowsOver(out: seq<Piece>, src: string, d: Decl, opts: Options) {
    var spans := Cut(|Lines(RangeOf(src, d.startLine, d.endLine))|, opts.windowLines, opts.windowOverlap);
    && |out| == |spans|
    && forall i :: 0 <= i < |out| ==>
         out[i] == Part(Some(d), d.startLine + spans[i].startLine - 1, d.startLine + spans[i].endLine - 1)
  }

  /**
    What a declaration gives, and how far that takes the lines: nothing if it starts within what was taken; itself if
    it is within the limit; of one over it the nested ones that can be taken, and windows where there is none.
   */
  ghost predicate Answers(out: seq<Piece>, to: int, all: seq<Decl>, src: string, d: Decl, opts: Options, lastEnd: int) {
    if d.startLine <= lastEnd then out == [] && to == lastEnd
    else if d.endLine - d.startLine < opts.maxDeclLines then out == [Whole(d)] && to == d.endLine
    else if exists n :: n in all && Inside(n, d, opts, lastEnd) then
      out != [] && TakesNested(out, all, d, opts, lastEnd) && to == Last(out[|out| - 1])
    else WindowsOver(out, src, d, opts) && to == d.endLine
  }

  lemma NestedIs(n: Decl, d: Decl, opts: Options, lastEnd: int)
    ensures Nested(n, d, opts, lastEnd) <==> Inside(n, d, opts, lastEnd)
  {
  }

  lemma {:induction false} TakeNestedTakes(decls: seq<Decl>, d: Decl, opts: Options, lastEnd: int)
    requires forall n :: n in decls ==> n.startLine <= n.endLine
    ensures TakesNested(TakeNested(decls, d, opts, lastEnd), decls, d, opts, lastEnd)
    decreases |decls|
  {
    hide TakesNested;
    if decls == [] {
      NothingTakes(d, opts, lastEnd);
    } else {
      var n, rest := decls[0], decls[1..];
      assert n in decls && forall m :: m in rest ==> m in decls;
      NestedIs(n, d, opts, lastEnd);
      if Nested(n, d, opts, lastEnd) {
        TakeNestedTakes(rest, d, opts, n.endLine);
        TakesMore(TakeNested(rest, d, opts, n.endLine), decls, d, opts, lastEnd);
      } else {
        TakeNestedTakes(rest, d, opts, lastEnd);
        TakesAsMuch(TakeNested(rest, d, opts, lastEnd), decls, d, opts, lastEnd);
      }
    }
  }

  lemma NothingTakes(d: Decl, opts: Options, lastEnd: int)
    ensures TakesNested([], [], d, opts, lastEnd)
  {
  }

  lemma InsideMore(rest: seq<Piece>, decls: seq<Decl>, d: Decl, opts: Options, lastEnd: int)
    requires decls != [] && Inside(decls[0], d, opts, lastEnd) && decls[0].startLine <= decls[0].endLine
    requires AllInside(rest, decls[1..], d, opts, decls[0].endLine)
    ensures AllInside([Whole(decls[0])] + rest, decls, d, opts, lastEnd)
  {
    var out := [Whole(decls[0])] + rest;
    forall i | 0 <= i < |out|
      ensures out[i].Whole? && out[i].decl in decls && Inside(out[i].decl, d, opts, lastEnd)
    {
      if i > 0 {
        assert out[i] == rest[i - 1];
        assert rest[i - 1].decl in decls[1..] && Inside(rest[i - 1].decl, d, opts, decls[0].endLine);
      }
    }
  }

  lemma ReachedMore(first: Piece, rest: seq<Piece>, line: int)
    requires line <= Last(first) || Reached(rest, line)
    ensures Reached([first] + rest, line)
  {
    hide Last;
    var out := [first] + rest;
    if line <= Last(first) {
      assert line <= Last(out[0]);
    } else {
      var i :| 0 <= i < |rest| && line <= Last(rest[i]);
      assert out[i + 1] == rest[i];
    }
  }

  lemma TakesMore(rest: seq<Piece>, decls: seq<Decl>, d: Decl, opts: Options, lastEnd: int)
    requires decls != [] && Inside(decls[0], d, opts, lastEnd) && decls[0].startLine <= decls[0].endLine
    requires TakesNested(rest, decls[1..], d, opts, decls[0].endLine)
    ensures TakesNested([Whole(decls[0])] + rest, decls, d, opts, lastEnd)
  {
    hide Reached, AllInside;
    InsideMore(rest, decls, d, opts, lastEnd);
    forall n | n in decls && Inside(n, d, opts, lastEnd) ensures Reached([Whole(decls[0])] + rest, n.startLine) {
      if n.startLine > decls[0].endLine {
        assert n in decls[1..] && Inside(n, d, opts, decls[0].endLine);
      }
      ReachedMore(Whole(decls[0]), rest, n.startLine);
    }
  }

  lemma TakesAsMuch(out: seq<Piece>, decls: seq<Decl>, d: Decl, opts: Options, lastEnd: int)
    requires decls != [] && !Inside(decls[0], d, opts, lastEnd) && TakesNested(out, decls[1..], d, opts, lastEnd)
    ensures TakesNested(out, decls, d, opts, lastEnd)
  {
    hide Reached, Inside;
    forall n | n in decls && Inside(n, d, opts, lastEnd) ensures Reached(out, n.startLine) {
      assert n in decls[1..];
    }
    assert forall n :: n in decls[1..] ==> n in decls;
  }

  lemma WindowsCoverIt(src: string, d: Decl, opts: Options)
    ensures WindowsOver(WindowsIn(src, d, opts), src, d, opts)
  {
    hide Lines, RangeOf, Cut, Parts;
    PartsAre(Some(d), d.startLine, Cut(|Lines(RangeOf(src, d.startLine, d.endLine))|, opts.windowLines, opts.windowOverlap));
  }

  lemma OneAnswers(all: seq<Decl>, src: string, d: Decl, opts: Options, lastEnd: int)
    requires forall n :: n in all ==> n.startLine <= n.endLine
    ensures Answers(PiecesOf(all, src, d, opts, lastEnd), TakenTo(all, d, opts, lastEnd), all, src, d, opts, lastEnd)
  {
    hide TakeNested, WindowsIn, WindowsOver;
    TakeNestedTakes(all, d, opts, lastEnd);
    WindowsCoverIt(src, d, opts);
  }

  /** Every declaration of a file is answered, in turn, after the lines that the ones before it took. */
  ghost predicate AnsweredAt(decls: seq<Decl>, src: string, opts: Options, k: nat, before: seq<Piece>, out: seq<Piece>,
                             after: seq<Piece>, lastEnd: int, to: int)
    requires k < |decls|
  {
    && Pieces(decls, src, opts) == before + out + after
    && Answers(out, to, decls, src, decls[k], opts, lastEnd)
    && (k == 0 ==> before == [] && lastEnd == 0)
    && (k == |decls| - 1 ==> after == [])
  }

  lemma {:induction false} AnsweredFrom(all: seq<Decl>, decls: seq<Decl>, src: string, opts: Options, lastEnd: int, k: nat)
    returns (before: seq<Piece>, out: seq<Piece>, after: seq<Piece>, reached: int, to: int)
    requires k < |decls| && forall n :: n in all ==> n.startLine <= n.endLine
    ensures PiecesFrom(all, decls, src, opts, lastEnd) == before + out + after
    ensures Answers(out, to, all, src, decls[k], opts, reached)
    ensures k == 0 ==> before == [] && reached == lastEnd
    ensures k == |decls| - 1 ==> after == []
    decreases |decls|
  {
    hide Answers, PiecesOf, TakenTo;
    var first, next := PiecesOf(all, src, decls[0], opts, lastEnd), TakenTo(all, decls[0], opts, lastEnd);
    if k == 0 {
      OneAnswers(all, src, decls[0], opts, lastEnd);
      before, out, after, reached, to := [], first, PiecesFrom(all, decls[1..], src, opts, next), lastEnd, next;
    } else {
      before, out, after, reached, to := AnsweredFrom(all, decls[1..], src, opts, next, k - 1);
      Assoc(first, before, out);
      Assoc(first, before + out, after);
      before := first + before;
    }
  }

  /** A file without declarations is its windows. */
  lemma NoDeclarationsAreWindows(src: string, opts: Options)
    ensures
      var spans := Cut(|Lines(src)|, opts.windowLines, opts.windowOverlap);
      var pieces := Pieces([], src, opts);
      |pieces| == |spans| && forall i :: 0 <= i < |spans| ==> pieces[i] == Part(None, spans[i].startLine, spans[i].endLine)
  {
    hide Cut, Lines, Parts;
    PartsAre(None, 1, Cut(|Lines(src)|, opts.windowLines, opts.windowOverlap));
  }

  lemma EachIsAnswered(decls: seq<Decl>, src: string, opts: Options, k: nat)
    returns (before: seq<Piece>, out: seq<Piece>, after: seq<Piece>, lastEnd: int, to: int)
    requires k < |decls| && forall n :: n in decls ==> n.startLine <= n.endLine
    ensures AnsweredAt(decls, src, opts, k, before, out, after, lastEnd, to)
  {
    hide Answers, PiecesFrom;
    before, out, after, lastEnd, to := AnsweredFrom(decls, decls, src, opts, 0, k);
  }

  method PartsOf(of: Option<Decl>, from: int, src: string, opts: Options) returns (out: seq<Piece>)
    ensures out == Parts(of, from, Cut(|Lines(src)|, opts.windowLines, opts.windowOverlap))
  {
    hide Lines, Cut;
    var spans := WindowsOf(src, opts.windowLines, opts.windowOverlap);
    out := [];
    for i := 0 to |spans|
      invariant out == Parts(of, from, spans[..i])
    {
      assert spans[..i + 1][..i] == spans[..i];
      out := out + [Part(of, from + spans[i].startLine - 1, from + spans[i].endLine - 1)];
    }
    assert spans[..|spans|] == spans;
  }

  method NestedOf(decls: seq<Decl>, d: Decl, opts: Options, start: int) returns (out: seq<Piece>, lastEnd: int)
    ensures out == TakeNested(decls, d, opts, start)
    ensures lastEnd == if out == [] then start else Last(out[|out| - 1])
  {
    hide Nested;
    out, lastEnd := [], start;
    assert decls[0..] == decls;
    for i := 0 to |decls|
      invariant out + TakeNested(decls[i..], d, opts, lastEnd) == TakeNested(decls, d, opts, start)
      invariant lastEnd == if out == [] then start else Last(out[|out| - 1])
    {
      var n := decls[i];
      assert decls[i..][1..] == decls[i + 1..];
      if Nested(n, d, opts, lastEnd) {
        Assoc(out, [Whole(n)], TakeNested(decls[i + 1..], d, opts, n.endLine));
        out := out + [Whole(n)];
        lastEnd := n.endLine;
      }
    }
    assert decls[|decls|..] == [];
  }

  method OneOf(all: seq<Decl>, src: string, d: Decl, opts: Options, start: int) returns (out: seq<Piece>, lastEnd: int)
    ensures out == PiecesOf(all, src, d, opts, start) && lastEnd == TakenTo(all, d, opts, start)
  {
    hide TakeNested, RangeOf, Lines, Cut, Parts;
    if d.startLine <= start {
      return [], start;
    }
    if Fits(d, opts) {
      return [Whole(d)], d.endLine;
    }
    out, lastEnd := NestedOf(all, d, opts, start);
    if out == [] {
      var a, b, text := Window(src, d.startLine, d.endLine, 0);
      out := PartsOf(Some(d), d.startLine, text, opts);
      lastEnd := d.endLine;
    }
  }

  /** pieces. */
  method PiecesOfFile(decls: seq<Decl>, src: string, opts: Options) returns (out: seq<Piece>)
    ensures out == Pieces(decls, src, opts)
  {
    hide PiecesOf, TakenTo, Lines, Cut, Parts;
    if decls == [] {
      out := PartsOf(None, 1, src, opts);
      return;
    }
    out := [];
    var lastEnd := 0;
    assert decls[0..] == decls;
    for i := 0 to |decls|
      invariant out + PiecesFrom(decls, decls[i..], src, opts, lastEnd) == PiecesFrom(decls, decls, src, opts, 0)
    {
      assert decls[i..][1..] == decls[i + 1..];
      var some, last := OneOf(decls, src, decls[i], opts, lastEnd);
      Assoc(out, some, PiecesFrom(decls, decls[i + 1..], src, opts, last));
      out := out + some;
      lastEnd := last;
    }
    assert decls[|decls|..] == [];
  }

  // ---- What is stored ----

  predicate WellFormed(decls: seq<Decl>) {
    forall d :: d in decls ==> 1 <= d.startLine <= d.endLine
  }

  /** One after the other, except windows over one declaration. */
  ghost predicate Disjoint(pieces: seq<Piece>) {
    forall i, j :: 0 <= i < j < |pieces| ==>
      Last(pieces[i]) < First(pieces[j]) || (pieces[i].Part? && pieces[j].Part? && pieces[i].of == pieces[j].of)
  }

  /** A whole declaration is one that fits; a part lies within an oversized one. */
  predicate Sound(p: Piece, all: seq<Decl>, opts: Options) {
    match p
    case Whole(d) => d in all && Fits(d, opts)
    case Part(of, startLine, endLine) =>
      && of.Some? && of.value in all && !Fits(of.value, opts)
      && of.value.startLine <= startLine <= endLine <= of.value.endLine
      && endLine - startLine < opts.windowLines
  }

  ghost predicate Within(pieces: seq<Piece>, from: int, to: int) {
    forall i :: 0 <= i < |pieces| ==> from < First(pieces[i]) <= Last(pieces[i]) <= to
  }

  ghost predicate AllSound(pieces: seq<Piece>, all: seq<Decl>, opts: Options) {
    forall i :: 0 <= i < |pieces| ==> Sound(pieces[i], all, opts)
  }

  lemma Appended(a: seq<Piece>, b: seq<Piece>, all: seq<Decl>, opts: Options, from: int, mid: int, to: int)
    requires Disjoint(a) && Disjoint(b) && Within(a, from, mid) && Within(b, mid, to) && from <= mid <= to
    requires AllSound(a, all, opts) && AllSound(b, all, opts)
    ensures Disjoint(a + b) && Within(a + b, from, to) && AllSound(a + b, all, opts)
  {
    hide Sound;
    var c := a + b;
    forall i, j | 0 <= i < j < |c|
      ensures Last(c[i]) < First(c[j]) || (c[i].Part? && c[j].Part? && c[i].of == c[j].of)
    {
      assert c[i] == if i < |a| then a[i] else b[i - |a|];
      assert c[j] == if j < |a| then a[j] else b[j - |a|];
    }
  }

  lemma Nothing(all: seq<Decl>, opts: Options, from: int, to: int)
    ensures Disjoint([]) && Within([], from, to) && AllSound([], all, opts)
  {
  }

  lemma Single(d: Decl, all: seq<Decl>, opts: Options, from: int)
    requires d in all && Fits(d, opts) && from < d.startLine <= d.endLine
    ensures Disjoint([Whole(d)]) && Within([Whole(d)], from, d.endLine) && AllSound([Whole(d)], all, opts)
  {
  }

  function NestedTo(taken: seq<Piece>, lastEnd: int): int {
    if taken == [] then lastEnd else Last(taken[|taken| - 1])
  }

  lemma NestedToCons(first: Piece, rest: seq<Piece>, lastEnd: int)
    ensures NestedTo([first] + rest, lastEnd) == NestedTo(rest, Last(first))
  {
  }

  lemma {:induction false} NestedAreSound(all: seq<Decl>, decls: seq<Decl>, d: Decl, opts: Options, lastEnd: int)
    requires WellFormed(decls) && forall n :: n in decls ==> n in all
    ensures
      var taken := TakeNested(decls, d, opts, lastEnd);
      var to := NestedTo(taken, lastEnd);
      lastEnd <= to && Disjoint(taken) && Within(taken, lastEnd, to) && AllSound(taken, all, opts)
    decreases |decls|
  {
    hide Disjoint, Within, AllSound, Fits, Last;
    if decls == [] {
      Nothing(all, opts, lastEnd, lastEnd);
    } else {
      var n := decls[0];
      assert n in decls && forall m :: m in decls[1..] ==> m in decls;
      if Nested(n, d, opts, lastEnd) {
        NestedAreSound(all, decls[1..], d, opts, n.endLine);
        var rest := TakeNested(decls[1..], d, opts, n.endLine);
        Single(n, all, opts, lastEnd);
        LastOfWhole(n);
        NestedToCons(Whole(n), rest, lastEnd);
        Appended([Whole(n)], rest, all, opts, lastEnd, n.endLine, NestedTo(rest, n.endLine));
      } else {
        NestedAreSound(all, decls[1..], d, opts, lastEnd);
      }
    }
  }

  lemma LastOfWhole(d: Decl)
    ensures Last(Whole(d)) == d.endLine
  {
  }

  lemma {:induction false} PartsAre(of: Option<Decl>, from: int, spans: seq<Span>)
    ensures |Parts(of, from, spans)| == |spans|
    ensures forall i :: 0 <= i < |spans| ==>
              Parts(of, from, spans)[i] == Part(of, from + spans[i].startLine - 1, from + spans[i].endLine - 1)
    decreases |spans|
  {
    if spans != [] {
      PartsAre(of, from, spans[..|spans| - 1]);
    }
  }

  /** A range has no more lines than it names. */
  lemma RangeIsShort(src: string, first: int, last: int)
    requires 1 <= first <= last
    ensures |Lines(RangeOf(src, first, last))| <= last - first + 1
  {
    hide Split, Join;
    var lo, hi := Max(first, 1), Min(last, |Lines(src)|);
    if lo <= hi {
      var range := Lines(src)[lo - 1..hi];
      LinesArePrefix(src);
      assert forall l :: l in range ==> l in Split(src);
      SplitJoin(range);
    } else {
      SplitOneLine("");
    }
  }

  lemma WindowsInAreSound(all: seq<Decl>, src: string, d: Decl, opts: Options)
    requires d in all && 1 <= d.startLine <= d.endLine && !Fits(d, opts)
    ensures
      var parts := WindowsIn(src, d, opts);
      Disjoint(parts) && Within(parts, d.startLine - 1, d.endLine) && AllSound(parts, all, opts)
  {
    hide RangeOf, Lines, Cut, Parts;
    var lines := |Lines(RangeOf(src, d.startLine, d.endLine))|;
    var spans := Cut(lines, opts.windowLines, opts.windowOverlap);
    RangeIsShort(src, d.startLine, d.endLine);
    PartsAre(Some(d), d.startLine, spans);
    if opts.windowLines > 0 {
      WindowsCoverIff(lines, opts.windowLines, opts.windowOverlap);
      assert forall i :: 0 <= i < |spans| ==> spans[i] in spans;
    } else {
      NoWindows(lines, opts);
    }
  }

  lemma NoWindows(lines: nat, opts: Options)
    requires opts.windowLines <= 0
    ensures Cut(lines, opts.windowLines, opts.windowOverlap) == []
  {
  }

  lemma WithinMore(pieces: seq<Piece>, from: int, to: int, lower: int)
    requires Within(pieces, from, to) && lower <= from
    ensures Within(pieces, lower, to)
  {
  }

  lemma OneIsSound(all: seq<Decl>, src: string, d: Decl, opts: Options, lastEnd: int)
    requires WellFormed(all) && d in all
    ensures
      var pieces, to := PiecesOf(all, src, d, opts, lastEnd), TakenTo(all, d, opts, lastEnd);
      lastEnd <= to && Disjoint(pieces) && Within(pieces, lastEnd, to) && AllSound(pieces, all, opts)
  {
    hide Disjoint, Within, AllSound, TakeNested, WindowsIn;
    if d.startLine <= lastEnd {
      Nothing(all, opts, lastEnd, lastEnd);
    } else if Fits(d, opts) {
      Single(d, all, opts, lastEnd);
    } else {
      NestedAreSound(all, all, d, opts, lastEnd);
      if TakeNested(all, d, opts, lastEnd) == [] {
        WindowsInAreSound(all, src, d, opts);
        WithinMore(WindowsIn(src, d, opts), d.startLine - 1, d.endLine, lastEnd);
      }
    }
  }

  function Greatest(all: seq<Decl>, src: string, decls: seq<Decl>, opts: Options, lastEnd: int): int
    decreases |decls|
  {
    if decls == [] then lastEnd else Greatest(all, src, decls[1..], opts, TakenTo(all, decls[0], opts, lastEnd))
  }

  lemma {:induction false} AllAreSound(all: seq<Decl>, decls: seq<Decl>, src: string, opts: Options, lastEnd: int)
    requires WellFormed(all) && forall d :: d in decls ==> d in all
    ensures
      var pieces, to := PiecesFrom(all, decls, src, opts, lastEnd), Greatest(all, src, decls, opts, lastEnd);
      lastEnd <= to && Disjoint(pieces) && Within(pieces, lastEnd, to) && AllSound(pieces, all, opts)
    decreases |decls|
  {
    hide Disjoint, Within, AllSound, PiecesOf, TakenTo, WellFormed;
    if decls == [] {
      Nothing(all, opts, lastEnd, lastEnd);
    } else {
      assert decls[0] in decls && forall d :: d in decls[1..] ==> d in decls;
      var mid := TakenTo(all, decls[0], opts, lastEnd);
      OneIsSound(all, src, decls[0], opts, lastEnd);
      AllAreSound(all, decls[1..], src, opts, mid);
      Appended(PiecesOf(all, src, decls[0], opts, lastEnd), PiecesFrom(all, decls[1..], src, opts, mid),
        all, opts, lastEnd, mid, Greatest(all, src, decls[1..], opts, mid));
    }
  }

  /**
    The pieces of a file with declarations ascend and share no line, but for the windows over one oversized
    declaration; whole ones are declarations within the limit, and windows stay inside theirs.
   */
  lemma PiecesAreDisjoint(decls: seq<Decl>, src: string, opts: Options)
    requires decls != [] && WellFormed(decls)
    ensures Disjoint(Pieces(decls, src, opts)) && AllSound(Pieces(decls, src, opts), decls, opts)
  {
    hide Disjoint, AllSound, PiecesFrom;
    AllAreSound(decls, decls, src, opts, 0);
  }

  /** Whole declarations in particular: in order, line-disjoint, none over the limit. */
  lemma WholePiecesAscend(decls: seq<Decl>, src: string, opts: Options, i: nat, j: nat)
    requires decls != [] && WellFormed(decls) && i < j < |Pieces(decls, src, opts)|
    requires Pieces(decls, src, opts)[i].Whole? && Pieces(decls, src, opts)[j].Whole?
    ensures
      var a, b := Pieces(decls, src, opts)[i].decl, Pieces(decls, src, opts)[j].decl;
      && a.startLine <= a.endLine < b.startLine && a in decls && b in decls
      && a.endLine - a.startLine + 1 <= opts.maxDeclLines && b.endLine - b.startLine + 1 <= opts.maxDeclLines
  {
    hide Pieces;
    PiecesAreDisjoint(decls, src, opts);
    var pieces := Pieces(decls, src, opts);
    assert Sound(pieces[i], decls, opts) && Sound(pieces[j], decls, opts);
  }
}
