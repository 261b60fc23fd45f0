/**
  The Markdown code scanner (internal/review/links.go), which rewrites prose and leaves code alone, and the
  fence a finding's agent prompt is shown in (internal/review/findings.go). What is code follows sections 4.5
  (fenced code blocks) and 6.1 (code spans) of the CommonMark specification, as far as the scanner reads them.
 */
module ProseScanner {
  import opened Text

  // ---- Runs of one character ----

  predicate AllAt(text: string, i: int, n: int, c: char) {
    0 <= i <= i + n <= |text| && forall k :: i <= k < i + n ==> text[k] == c
  }

  predicate At(text: string, i: int, c: char) {
    0 <= i < |text| && text[i] == c
  }

  function RunLength(text: string, i: nat, c: char): (n: nat)
    requires i <= |text|
    ensures AllAt(text, i, n, c) && !At(text, i + n, c)
    decreases |text| - i
  {
    if At(text, i, c) then 1 + RunLength(text, i + 1, c) else 0
  }

  method Run(text: string, i: nat, c: char) returns (n: nat)
    requires i <= |text|
    ensures n == RunLength(text, i, c)
  {
    n := 0;
    while i + n < |text| && text[i + n] == c
      invariant i + n <= |text| && RunLength(text, i, c) == n + RunLength(text, i + n, c)
    {
      n := n + 1;
    }
  }

  // ---- Lines ----

  function LineStart(text: string, i: nat): (s: nat)
    requires i <= |text|
    ensures s <= i && (s == 0 || text[s - 1] == '\n') && forall k :: s <= k < i ==> text[k] != '\n'
  {
    if i == 0 || text[i - 1] == '\n' then i else LineStart(text, i - 1)
  }

  function LineEnd(text: string, i: nat): (e: nat)
    requires i <= |text|
    ensures i <= e <= |text| && (e == |text| || text[e] == '\n') && forall k :: i <= k < e ==> text[k] != '\n'
    decreases |text| - i
  {
    if i == |text| || text[i] == '\n' then i else LineEnd(text, i + 1)
  }

  function Least(a: nat, b: nat): nat {
    if a <= b then a else b
  }

  /** Just past the line at i, its newline included. */
  function NextLine(text: string, i: nat): (e: nat)
    requires i <= |text|
    ensures i <= e <= |text|
  {
    Least(|text|, LineEnd(text, i) + 1)
  }

  /** Where a fence may open: only spaces, at most three, before it on its line. */
  predicate AtLineStart(text: string, i: nat)
    requires i <= |text|
  {
    AllAt(text, LineStart(text, i), i - LineStart(text, i), ' ') && i - LineStart(text, i) <= 3
  }

  // ---- Fenced blocks ----

  predicate Blank(s: string) {
    forall k :: 0 <= k < |s| ==> IsSpace(s[k])
  }

  /** A line that closes a fence of n characters c: indented at most three, a run at least as long, then only white space. */
  predicate Closer(line: string, c: char, n: nat) {
    var indent := RunLength(line, 0, ' ');
    var m := RunLength(line, indent, c);
    indent <= 3 && m >= n && Blank(line[indent + m..])
  }

  function LineAt(text: string, i: nat): string
    requires i <= |text|
  {
    text[i..LineEnd(text, i)]
  }

  function FenceEnd(text: string, i: nat, c: char, n: nat): nat
    requires i <= |text|
    decreases |text| - i
  {
    var nl := LineEnd(text, i);
    if nl == |text| then |text|
    else if Closer(LineAt(text, nl + 1), c, n) then NextLine(text, nl + 1)
    else FenceEnd(text, nl + 1, c, n)
  }

  /** The test of one line: the indentation first, then the run and what follows it. */
  method Closes(line: string, c: char, n: nat) returns (closes: bool)
    ensures closes == Closer(line, c, n)
  {
    var indent := Run(line, 0, ' ');
    if indent > 3 {
      return false;
    }
    var m := Run(line, indent, c);
    return m >= n && Blank(line[indent + m..]);
  }

  /** At most three spaces, at least n times c, and then nothing but white space. */
  predicate ClosesFrom(line: string, c: char, n: nat, i: nat, m: nat) {
    && i <= 3 && m >= n && i + m <= |line| && (forall k :: 0 <= k < i ==> line[k] == ' ')
    && (forall k :: i <= k < i + m ==> line[k] == c) && (forall k :: i + m <= k < |line| ==> IsSpace(line[k]))
  }

  /** A line closes a fence of n characters exactly when it is such a line. */
  lemma CloserIff(line: string, c: char, n: nat)
    requires n > 0 && !IsSpace(c)
    ensures Closer(line, c, n) <==> exists i: nat, m: nat :: ClosesFrom(line, c, n, i, m)
  {
    hide IsSpace;
    var i := RunLength(line, 0, ' ');
    var m := RunLength(line, i, c);
    if Closer(line, c, n) {
      assert ClosesFrom(line, c, n, i, m) by {
        assert forall k :: i + m <= k < |line| ==> line[k] == line[i + m..][k - i - m];
      }
    }
    if j: nat, q: nat :| ClosesFrom(line, c, n, j, q) {
      SpaceIsSpace();
      assert line[j] == c != ' ';
      assert i == j;
      assert i + q < |line| ==> line[i + q] != c;
      assert i + m < |line| ==> line[i + m] != c;
      assert m == q;
    }
  }

  lemma SpaceIsSpace()
    ensures IsSpace(' ')
  {
  }

  method FindFenceEnd(text: string, start: nat, c: char, n: nat) returns (end: nat)
    requires start <= |text|
    ensures end == FenceEnd(text, start, c, n)
  {
    hide Closer, LineEnd;
    var i := start;
    while true
      invariant i <= |text| && FenceEnd(text, start, c, n) == FenceEnd(text, i, c, n)
      decreases |text| - i
    {
      var nl := LineEnd(text, i);
      if nl == |text| {
        return |text|;
      }
      i := nl + 1;
      var line := text[i..LineEnd(text, i)];
      var closes := Closes(line, c, n);
      if closes {
        return Least(|text|, i + |line| + 1);
      }
    }
  }

  predicate ClosesAt(text: string, s: int, c: char, n: nat) {
    0 < s <= |text| && text[s - 1] == '\n' && Closer(LineAt(text, s), c, n)
  }

  ghost predicate NoneCloses(text: string, from: nat, to: int, c: char, n: nat) {
    forall s :: from < s < to ==> !ClosesAt(text, s, c, n)
  }

  /** A block opened before i ends past the first later line that closes it, or with the text. */
  ghost predicate EndsBlock(text: string, i: nat, c: char, n: nat, end: nat)
    requires i <= |text|
  {
    || (end == |text| && NoneCloses(text, i, |text| + 1, c, n))
    || exists s: nat :: i < s <= |text| && ClosesAt(text, s, c, n) && NoneCloses(text, i, s, c, n) && end == NextLine(text, s)
  }

  lemma NoLineStartsInside(text: string, i: nat, c: char, n: nat)
    requires i <= |text|
    ensures NoneCloses(text, i, LineEnd(text, i) + 1, c, n)
  {
  }

  lemma EndsAtTheNextLine(text: string, i: nat, c: char, n: nat)
    requires i <= |text| && LineEnd(text, i) < |text| && Closer(LineAt(text, LineEnd(text, i) + 1), c, n)
    ensures EndsBlock(text, i, c, n, NextLine(text, LineEnd(text, i) + 1))
  {
    hide Closer, LineAt, NextLine;
    NoLineStartsInside(text, i, c, n);
    assert ClosesAt(text, LineEnd(text, i) + 1, c, n);
  }

  lemma EndsAtTheEnd(text: string, i: nat, c: char, n: nat)
    requires i <= |text| && LineEnd(text, i) == |text|
    ensures EndsBlock(text, i, c, n, |text|)
  {
    hide Closer, LineAt, NextLine;
    NoLineStartsInside(text, i, c, n);
  }

  lemma NoneClosesFurther(text: string, i: nat, to: int, c: char, n: nat)
    requires i <= |text| && LineEnd(text, i) < |text| && !Closer(LineAt(text, LineEnd(text, i) + 1), c, n)
    requires NoneCloses(text, LineEnd(text, i) + 1, to, c, n)
    ensures NoneCloses(text, i, to, c, n)
  {
    hide Closer, LineAt;
    NoLineStartsInside(text, i, c, n);
    assert !ClosesAt(text, LineEnd(text, i) + 1, c, n);
    hide ClosesAt;
  }

  lemma EndsFurther(text: string, i: nat, c: char, n: nat, end: nat)
    requires i <= |text| && LineEnd(text, i) < |text| && !Closer(LineAt(text, LineEnd(text, i) + 1), c, n)
    requires EndsBlock(text, LineEnd(text, i) + 1, c, n, end)
    ensures EndsBlock(text, i, c, n, end)
  {
    hide Closer, LineAt, NextLine, NoneCloses, ClosesAt;
    var next := LineEnd(text, i) + 1;
    if end == |text| && NoneCloses(text, next, |text| + 1, c, n) {
      NoneClosesFurther(text, i, |text| + 1, c, n);
    } else {
      var s: nat :| next < s <= |text| && ClosesAt(text, s, c, n) && NoneCloses(text, next, s, c, n) && end == NextLine(text, s);
      NoneClosesFurther(text, i, s, c, n);
    }
  }

  lemma {:induction false} FenceEndIsFirstCloser(text: string, i: nat, c: char, n: nat)
    requires i <= |text|
    ensures EndsBlock(text, i, c, n, FenceEnd(text, i, c, n))
    decreases |text| - i
  {
    hide Closer, LineAt, EndsBlock, NextLine, LineEnd;
    var nl := LineEnd(text, i);
    if nl == |text| {
      EndsAtTheEnd(text, i, c, n);
    } else if Closer(LineAt(text, nl + 1), c, n) {
      EndsAtTheNextLine(text, i, c, n);
    } else {
      FenceEndIsFirstCloser(text, nl + 1, c, n);
      EndsFurther(text, i, c, n, FenceEnd(text, nl + 1, c, n));
    }
  }

  /** There is but one such end. */
  lemma BlockEndsOnce(text: string, i: nat, c: char, n: nat, s: nat)
    requires i < s <= |text| && ClosesAt(text, s, c, n) && NoneCloses(text, i, s, c, n)
    ensures FenceEnd(text, i, c, n) == NextLine(text, s)
  {
    hide FenceEnd, ClosesAt;
    FenceEndIsFirstCloser(text, i, c, n);
  }

  // ---- Code spans ----

  /** The run of backticks at s is exactly n long. */
  predicate RunAt(text: string, s: int, n: nat) {
    AllAt(text, s, n, '`') && !At(text, s - 1, '`') && !At(text, s + n, '`')
  }

  /** Position i is not inside a run. */
  predicate Between(text: string, i: nat) {
    !At(text, i - 1, '`') || !At(text, i, '`')
  }

  function NextTick(text: string, i: nat): (j: nat)
    requires i <= |text|
    ensures i <= j <= |text| && (j < |text| ==> text[j] == '`') && forall k :: i <= k < j ==> text[k] != '`'
    decreases |text| - i
  {
    if i == |text| || text[i] == '`' then i else NextTick(text, i + 1)
  }

  function SpanEnd(text: string, i: nat, n: nat): nat
    requires i <= |text|
    decreases |text| - i
  {
    var j := NextTick(text, i);
    if j == |text| then 0
    else
      var m := RunLength(text, j, '`');
      if m == n then j + m else SpanEnd(text, j + m, n)
  }

  method FindSpanEnd(text: string, start: nat, n: nat) returns (end: nat)
    requires start <= |text|
    ensures end == SpanEnd(text, start, n)
  {
    var i := start;
    while i < |text|
      invariant i <= |text| && SpanEnd(text, start, n) == SpanEnd(text, i, n)
    {
      var j := NextTick(text, i);
      if j == |text| {
        return 0;
      }
      var m := Run(text, j, '`');
      if m == n {
        return j + m;
      }
      i := j + m;
    }
    return 0;
  }

  ghost predicate NoRunAt(text: string, from: nat, to: int, n: nat) {
    forall s :: from <= s < to ==> !RunAt(text, s, n)
  }

  /** A span opened by a run of n backticks before i ends past the next run of exactly n; end 0 says there is none. */
  ghost predicate EndsSpan(text: string, i: nat, n: nat, end: nat) {
    if end == 0 then NoRunAt(text, i, |text|, n)
    else i <= end - n && RunAt(text, end - n, n) && NoRunAt(text, i, end - n, n)
  }

  lemma TicksFit(text: string, i: nat)
    requires i < |text|
    ensures i + RunLength(text, i, '`') <= |text| && Between(text, i + RunLength(text, i, '`'))
    ensures text[i] == '`' ==> RunLength(text, i, '`') > 0 && text[i + RunLength(text, i, '`') - 1] == '`'
  {
  }

  lemma NoRunsBefore(text: string, i: nat, n: nat)
    requires i <= |text| && n > 0
    ensures NoRunAt(text, i, NextTick(text, i), n)
  {
    assert forall s :: i <= s < NextTick(text, i) && AllAt(text, s, n, '`') ==> text[s] == '`';
  }

  lemma WrongRun(text: string, j: nat, n: nat)
    requires j < |text| && text[j] == '`' && n > 0 && n != RunLength(text, j, '`')
    ensures NoRunAt(text, j, j + RunLength(text, j, '`'), n)
  {
    var m := RunLength(text, j, '`');
    forall s | j <= s < j + m ensures !RunAt(text, s, n) {
      assert s > j ==> At(text, s - 1, '`');
      assert n < m ==> At(text, j + n, '`');
      assert n > m && AllAt(text, j, n, '`') ==> At(text, j + m, '`');
    }
  }

  lemma {:induction false} SpanEndIsNextRun(text: string, i: nat, n: nat)
    requires i <= |text| && n > 0 && Between(text, i)
    ensures EndsSpan(text, i, n, SpanEnd(text, i, n))
    decreases |text| - i
  {
    hide RunAt, AllAt, RunLength, NextTick;
    var j := NextTick(text, i);
    NoRunsBefore(text, i, n);
    if j < |text| {
      var m := RunLength(text, j, '`');
      TicksFit(text, j);
      if m == n {
        RunHere(text, i, j);
      } else {
        WrongRun(text, j, n);
        SpanEndIsNextRun(text, j + m, n);
      }
    }
  }

  lemma RunHere(text: string, i: nat, j: nat)
    requires i <= |text| && j == NextTick(text, i) && j < |text| && Between(text, i)
    ensures RunAt(text, j, RunLength(text, j, '`'))
  {
    assert j > i ==> text[j - 1] != '`';
  }

  // ---- mapProse ----

  datatype Segment = Prose(text: string) | Code(text: string)

  function Fence(text: string, i: nat): (n: nat)
    requires i < |text|
    ensures n > 0 ==> n >= 3 && i + n <= |text|
  {
    if text[i] != '`' && text[i] != '~' then 0
    else
      var n := RunLength(text, i, text[i]);
      if n >= 3 then n else 0
  }

  /** Where the code that starts at i ends, 0 when none does. */
  function CodeEnd(text: string, i: nat): nat
    requires i < |text|
  {
    var n := Fence(text, i);
    if AtLineStart(text, i) && n > 0 then FenceEnd(text, i + n, text[i], n)
    else if text[i] == '`' then SpanEnd(text, i + RunLength(text, i, '`'), RunLength(text, i, '`'))
    else 0
  }

  /** How far to go on where no code starts: past a whole run of backticks, or one character. */
  function Skip(text: string, i: nat): (n: nat)
    requires i < |text|
    ensures 0 < n <= |text| - i
  {
    if text[i] == '`' then RunLength(text, i, '`') else 1
  }

  lemma {:induction false} FenceEndInside(text: string, i: nat, c: char, n: nat)
    requires i <= |text|
    ensures i <= FenceEnd(text, i, c, n) <= |text|
    ensures FenceEnd(text, i, c, n) < |text| ==> FenceEnd(text, i, c, n) > 0 && text[FenceEnd(text, i, c, n) - 1] == '\n'
    decreases |text| - i
  {
    hide Closer;
    if LineEnd(text, i) < |text| {
      FenceEndInside(text, LineEnd(text, i) + 1, c, n);
    }
  }

  lemma {:induction false} SpanEndInside(text: string, i: nat, n: nat)
    requires i <= |text| && n > 0
    ensures SpanEnd(text, i, n) == 0 || (i < SpanEnd(text, i, n) <= |text| && text[SpanEnd(text, i, n) - 1] == '`')
    decreases |text| - i
  {
    hide AllAt, At, RunLength, Between;
    var j := NextTick(text, i);
    if j < |text| {
      TicksFit(text, j);
      SpanEndInside(text, j + RunLength(text, j, '`'), n);
    }
  }

  lemma CodeEndInside(text: string, i: nat)
    requires i < |text|
    ensures CodeEnd(text, i) == 0 || i < CodeEnd(text, i) <= |text|
  {
    hide FenceEnd, SpanEnd, AtLineStart, AllAt, At, Fence, RunLength, Between;
    var n := Fence(text, i);
    if AtLineStart(text, i) && n > 0 {
      FenceEndInside(text, i + n, text[i], n);
    } else if text[i] == '`' {
      TicksFit(text, i);
      SpanEndInside(text, i + RunLength(text, i, '`'), RunLength(text, i, '`'));
    }
  }

  /** The segments of text from `prose` on, where nothing before i is left to read as code. */
  function Scan(text: string, prose: nat, i: nat): seq<Segment>
    requires prose <= i <= |text|
    decreases |text| - i
  {
    if i == |text| then [Prose(text[prose..])]
    else
      CodeEndInside(text, i);
      var end := CodeEnd(text, i);
      if end > 0 then [Prose(text[prose..i]), Code(text[i..end])] + Scan(text, end, end)
      else Scan(text, prose, i + Skip(text, i))
  }

  function Segments(text: string): seq<Segment> {
    Scan(text, 0, 0)
  }

  function Mapped(s: Segment, fn: string -> string): string {
    match s
    case Prose(text) => fn(text)
    case Code(text) => text
  }

  function Render(segments: seq<Segment>, fn: string -> string): string
    decreases |segments|
  {
    if segments == [] then "" else Mapped(segments[0], fn) + Render(segments[1..], fn)
  }

  lemma RenderTwo(a: Segment, b: Segment, rest: seq<Segment>, fn: string -> string)
    ensures Render([a, b] + rest, fn) == Mapped(a, fn) + (Mapped(b, fn) + Render(rest, fn))
  {
    var all := [a, b] + rest;
    assert all[1..] == [b] + rest;
    assert all[1..][1..] == rest;
  }

  lemma RenderOne(a: Segment, fn: string -> string)
    ensures Render([a], fn) == Mapped(a, fn)
  {
    assert Render([a][1..], fn) == "";
  }

  lemma ScanStep(text: string, prose: nat, i: nat)
    requires prose <= i < |text|
    ensures CodeEnd(text, i) == 0 || i < CodeEnd(text, i) <= |text|
    ensures Scan(text, prose, i) ==
            if CodeEnd(text, i) > 0
            then [Prose(text[prose..i]), Code(text[i..CodeEnd(text, i)])] + Scan(text, CodeEnd(text, i), CodeEnd(text, i))
            else Scan(text, prose, i + Skip(text, i))
  {
    CodeEndInside(text, i);
  }

  /** The flag the loop keeps: a newline sets it, a space leaves it for the first three, anything else clears it. */
  lemma LineStartStep(text: string, i: nat)
    requires i < |text|
    ensures AtLineStart(text, i + 1) <==>
            text[i] == '\n' || (AtLineStart(text, i) && text[i] == ' ' && i - LineStart(text, i) < 3)
  {
    if text[i] != '\n' {
      assert LineStart(text, i + 1) == LineStart(text, i);
    }
  }

  lemma NotAfterTick(text: string, i: nat)
    requires 0 < i <= |text| && text[i - 1] == '`'
    ensures !AtLineStart(text, i)
  {
    assert LineStart(text, i) == LineStart(text, i - 1);
  }

  lemma Flushed(b: string, text: string, prose: nat, i: nat, end: nat, fn: string -> string, whole: string)
    requires prose <= i < end <= |text| && CodeEnd(text, i) == end
    requires b + Render(Scan(text, prose, i), fn) == whole
    ensures b + fn(text[prose..i]) + text[i..end] + Render(Scan(text, end, end), fn) == whole
  {
    hide Render, CodeEnd, Scan;
    ScanStep(text, prose, i);
    RenderTwo(Prose(text[prose..i]), Code(text[i..end]), Scan(text, end, end), fn);
    Assoc(b, fn(text[prose..i]), text[i..end], Render(Scan(text, end, end), fn));
  }

  lemma Assoc(a: string, b: string, c: string, d: string)
    ensures a + b + c + d == a + (b + (c + d))
  {
  }

  lemma FenceCode(text: string, i: nat)
    requires i < |text| && AtLineStart(text, i) && Fence(text, i) > 0
    ensures CodeEnd(text, i) == FenceEnd(text, i + Fence(text, i), text[i], Fence(text, i))
    ensures i < CodeEnd(text, i) <= |text|
    ensures CodeEnd(text, i) < |text| ==> AtLineStart(text, CodeEnd(text, i))
  {
    hide FenceEnd, AtLineStart, AllAt, At, Fence;
    var n := Fence(text, i);
    FenceEndInside(text, i + n, text[i], n);
    if CodeEnd(text, i) < |text| {
      AfterNewline(text, CodeEnd(text, i));
    }
  }

  lemma AfterNewline(text: string, i: nat)
    requires 0 < i <= |text| && text[i - 1] == '\n'
    ensures AtLineStart(text, i)
  {
  }

  lemma SpanCode(text: string, i: nat)
    requires i < |text| && !(AtLineStart(text, i) && Fence(text, i) > 0) && text[i] == '`'
    ensures
      var n := RunLength(text, i, '`');
      && n > 0
      && CodeEnd(text, i) == SpanEnd(text, i + n, n)
      && (CodeEnd(text, i) == 0 || (i < CodeEnd(text, i) <= |text| && !AtLineStart(text, CodeEnd(text, i))))
      && Skip(text, i) == n && !AtLineStart(text, i + n)
  {
    hide SpanEnd, AtLineStart, AllAt, At, Fence, RunLength, Between;
    var n := RunLength(text, i, '`');
    TicksFit(text, i);
    SpanEndInside(text, i + n, n);
    NotAfterTick(text, i + n);
    if CodeEnd(text, i) > 0 {
      NotAfterTick(text, CodeEnd(text, i));
    }
  }

  lemma NoCode(text: string, i: nat)
    requires i < |text| && !(AtLineStart(text, i) && Fence(text, i) > 0) && text[i] != '`'
    ensures CodeEnd(text, i) == 0 && Skip(text, i) == 1
  {
  }

  /** mapProse: fn maps the prose, and the code is written as it stands. */
  method MapProse(text: string, fn: string -> string) returns (out: string)
    ensures out == Render(Segments(text), fn)
  {
    hide *;
    ghost var whole := Render(Segments(text), fn);
    SegmentsAreTheScan(text);
    var b := "";
    var prose := 0;
    var atLineStart := true;
    var i := 0;
    StartsALine(text);
    while i < |text|
      invariant prose <= i <= |text|
      invariant i < |text| ==> atLineStart == AtLineStart(text, i)
      invariant b + Render(Scan(text, prose, i), fn) == whole
    {
      var c := text[i];
      if atLineStart {
        var n := Fence(text, i);
        if n > 0 {
          FenceCode(text, i);
          FenceFits(text, i);
          var end := FindFenceEnd(text, i + n, c, n);
          Flushed(b, text, prose, i, end, fn, whole);
          b := b + fn(text[prose..i]) + text[i..end];
          prose, i := end, end;
          continue;
        }
      }
      if c == '`' {
        SpanCode(text, i);
        TicksFit(text, i);
        var n := Run(text, i, '`');
        var end := FindSpanEnd(text, i + n, n);
        atLineStart := false;
        if end > 0 {
          Flushed(b, text, prose, i, end, fn, whole);
          b := b + fn(text[prose..i]) + text[i..end];
          prose, i := end, end;
          continue;
        }
        ScanStep(text, prose, i);
        i := i + n;
        continue;
      }
      NoCode(text, i);
      ScanStep(text, prose, i);
      LineStartStep(text, i);
      atLineStart := c == '\n' || (atLineStart && c == ' ' && i - LineStart(text, i) < 3);
      i := i + 1;
    }
    ScanEnds(text, prose, fn);
    out := b + fn(text[prose..]);
  }

  lemma SegmentsAreTheScan(text: string)
    ensures Segments(text) == Scan(text, 0, 0)
    ensures forall whole: string :: "" + whole == whole
  {
  }

  lemma StartsALine(text: string)
    ensures AtLineStart(text, 0)
  {
  }

  lemma FenceFits(text: string, i: nat)
    requires i < |text| && Fence(text, i) > 0
    ensures i + Fence(text, i) <= |text|
  {
  }

  lemma ScanEnds(text: string, prose: nat, fn: string -> string)
    requires prose <= |text|
    ensures Render(Scan(text, prose, |text|), fn) == fn(text[prose..])
  {
    RenderOne(Prose(text[prose..]), fn);
  }

  // ---- What the scan finds ----

  function Concat(segments: seq<Segment>): string
    decreases |segments|
  {
    if segments == [] then "" else segments[0].text + Concat(segments[1..])
  }

  lemma ConcatTwo(a: Segment, b: Segment, rest: seq<Segment>)
    ensures Concat([a, b] + rest) == a.text + (b.text + Concat(rest))
  {
    var all := [a, b] + rest;
    assert all[1..] == [b] + rest;
    assert all[1..][1..] == rest;
  }

  lemma ConcatOne(a: Segment)
    ensures Concat([a]) == a.text
  {
    assert Concat([a][1..]) == "";
  }

  lemma Pieces(text: string, a: nat, b: nat, c: nat)
    requires a <= b <= c <= |text|
    ensures text[a..b] + (text[b..c] + text[c..]) == text[a..]
  {
  }

  /** Nothing is lost or moved: the segments concatenate back to the text. */
  lemma {:induction false} ScanConcatenates(text: string, prose: nat, i: nat)
    requires prose <= i <= |text|
    ensures Concat(Scan(text, prose, i)) == text[prose..]
    decreases |text| - i
  {
    hide *;
    if i == |text| {
      ScanDone(text, prose);
      ConcatOne(Prose(text[prose..]));
    } else {
      ScanStep(text, prose, i);
      var end := CodeEnd(text, i);
      if end > 0 {
        ScanConcatenates(text, end, end);
        ConcatTwo(Prose(text[prose..i]), Code(text[i..end]), Scan(text, end, end));
        Pieces(text, prose, i, end);
      } else {
        SkipFits(text, i);
        ScanConcatenates(text, prose, i + Skip(text, i));
      }
    }
  }

  lemma ScanDone(text: string, prose: nat)
    requires prose <= |text|
    ensures Scan(text, prose, |text|) == [Prose(text[prose..])]
  {
  }

  lemma SkipFits(text: string, i: nat)
    requires i < |text|
    ensures 0 < Skip(text, i) <= |text| - i
  {
  }

  /** The segments alternate, prose first and last: fn sees every stretch of prose, the empty ones too. */
  predicate Alternates(segments: seq<Segment>)
    decreases |segments|
  {
    |segments| >= 1 && segments[0].Prose? &&
    (|segments| == 1 || (segments[1].Code? && Alternates(segments[2..])))
  }

  lemma {:induction false} ScanAlternates(text: string, prose: nat, i: nat)
    requires prose <= i <= |text|
    ensures Alternates(Scan(text, prose, i))
    decreases |text| - i
  {
    hide CodeEnd, Skip;
    if i < |text| {
      ScanStep(text, prose, i);
      var end := CodeEnd(text, i);
      if end > 0 {
        ScanAlternates(text, end, end);
        assert Scan(text, prose, i)[2..] == Scan(text, end, end);
      } else {
        SkipFits(text, i);
        ScanAlternates(text, prose, i + Skip(text, i));
      }
    }
  }

  lemma {:induction false} RenderIdentity(segments: seq<Segment>, fn: string -> string)
    requires forall s :: fn(s) == s
    ensures Render(segments, fn) == Concat(segments)
    decreases |segments|
  {
    if segments != [] {
      RenderIdentity(segments[1..], fn);
    }
  }

  /** A text's segments alternate between prose and code and concatenate back to it; mapping prose to itself changes nothing. */
  lemma ProseAndCodeSplitTheText(text: string, fn: string -> string)
    ensures Concat(Segments(text)) == text && Alternates(Segments(text))
    ensures (forall s :: fn(s) == s) ==> Render(Segments(text), fn) == text
  {
    hide Concat, Alternates, Render, Scan;
    ScanConcatenates(text, 0, 0);
    ScanAlternates(text, 0, 0);
    assert text[0..] == text;
    if forall s :: fn(s) == s {
      RenderIdentity(Segments(text), fn);
    }
  }

  /**
    What counts as code at i. A fence where a line may start runs to its first closing line, or the text's end;
    any other run of backticks opens a span up to the next run of exactly its length, and is text without one.
   */
  lemma CodeIsABlockOrASpan(text: string, i: nat)
    requires i < |text|
    ensures
      var n := Fence(text, i);
      if AtLineStart(text, i) && n > 0 then EndsBlock(text, i + n, text[i], n, CodeEnd(text, i))
      else if text[i] == '`' then
        var m := RunLength(text, i, '`');
        EndsSpan(text, i + m, m, CodeEnd(text, i))
      else CodeEnd(text, i) == 0
  {
    hide FenceEnd, SpanEnd, EndsBlock, EndsSpan, AtLineStart, AllAt, At, Fence, RunLength, Between;
    var n := Fence(text, i);
    if AtLineStart(text, i) && n > 0 {
      FenceEndIsFirstCloser(text, i + n, text[i], n);
    } else if text[i] == '`' {
      TicksFit(text, i);
      SpanEndIsNextRun(text, i + RunLength(text, i, '`'), RunLength(text, i, '`'));
    }
  }

  // ---- The fence around an agent prompt ----

  ghost predicate HasRun(text: string, c: char, n: nat) {
    exists i :: AllAt(text, i, n, c)
  }

  function Ticks(n: nat): (s: string)
    ensures |s| == n && AllAt(s, 0, n, '`')
  {
    if n == 0 then "" else "`" + Ticks(n - 1)
  }

  /** The run of backticks that ends text is exactly n long. */
  predicate EndsWithRun(text: string, n: nat) {
    AllAt(text, |text| - n, n, '`') && !At(text, |text| - n - 1, '`')
  }

  lemma RunsAfterOneMore(text: string, c: char, run: nat, n: nat)
    requires EndsWithRun(text, run)
    ensures HasRun(text + [c], '`', n) <==> HasRun(text, '`', n) || (c == '`' && n <= run + 1)
  {
    var more := text + [c];
    if i :| AllAt(text, i, n, '`') {
      assert AllAt(more, i, n, '`');
    }
    if c == '`' && n <= run + 1 {
      assert AllAt(more, |more| - n, n, '`');
    }
    if i :| AllAt(more, i, n, '`') {
      if i + n <= |text| {
        assert forall k :: i <= k < i + n ==> text[k] == more[k];
        assert AllAt(text, i, n, '`');
      } else if n > 0 {
        assert more[|text|] == c;
        assert At(more, |text| - run - 1, '`') <==> At(text, |text| - run - 1, '`');
      } else {
        assert AllAt(text, |text|, 0, '`');
      }
    }
  }

  lemma EndRunGrows(text: string, c: char, run: nat)
    requires EndsWithRun(text, run)
    ensures EndsWithRun(text + [c], if c == '`' then run + 1 else 0)
  {
    if c == '`' && |text| - run - 1 >= 0 {
      assert (text + [c])[|text| - run - 1] == text[|text| - run - 1];
    }
  }

  ghost predicate Longest(text: string, longest: nat) {
    forall n: nat :: HasRun(text, '`', n) <==> n <= longest
  }

  lemma LongestGrows(text: string, c: char, run: nat, longest: nat)
    requires EndsWithRun(text, run) && Longest(text, longest)
    ensures Longest(text + [c], if c == '`' && run + 1 > longest then run + 1 else longest)
  {
    hide HasRun, EndsWithRun;
    forall n: nat
      ensures HasRun(text + [c], '`', n) <==> HasRun(text, '`', n) || (c == '`' && n <= run + 1)
    {
      RunsAfterOneMore(text, c, run, n);
    }
  }

  lemma NothingRuns()
    ensures Longest("", 0) && EndsWithRun("", 0)
  {
    assert AllAt("", 0, 0, '`');
  }

  /** AgentPromptFence: the shortest fence, of three backticks or more, that is longer than every run in the prompt. */
  method AgentPromptFence(prompt: string) returns (fence: string)
    ensures exists n: nat :: fence == Ticks(n) && n >= 3 && !HasRun(prompt, '`', n) && (n == 3 || HasRun(prompt, '`', n - 1))
  {
    hide *;
    var longest, run := 0, 0;
    NothingRuns();
    assert prompt[..0] == "";
    for i := 0 to |prompt|
      invariant Longest(prompt[..i], longest) && EndsWithRun(prompt[..i], run)
    {
      assert prompt[..i + 1] == prompt[..i] + [prompt[i]];
      LongestGrows(prompt[..i], prompt[i], run, longest);
      EndRunGrows(prompt[..i], prompt[i], run);
      if prompt[i] == '`' {
        run := run + 1;
        longest := if longest >= run then longest else run;
      } else {
        run := 0;
      }
    }
    assert prompt[..|prompt|] == prompt;
    var n: nat := if longest + 1 > 3 then longest + 1 else 3;
    LongestAt(prompt, longest, n);
    LongestAt(prompt, longest, n - 1);
    fence := Ticks(n);
  }

  lemma LongestAt(text: string, longest: nat, n: nat)
    requires Longest(text, longest)
    ensures HasRun(text, '`', n) <==> n <= longest
  {
  }

  lemma CloserHasRun(line: string, c: char, n: nat)
    requires Closer(line, c, n)
    ensures HasRun(line, c, n)
  {
    var indent := RunLength(line, 0, ' ');
    assert AllAt(line, indent, n, c);
  }

  lemma PartHasRun(text: string, a: nat, b: nat, c: char, n: nat)
    requires a <= b <= |text| && HasRun(text[a..b], c, n)
    ensures HasRun(text, c, n)
  {
    var i :| AllAt(text[a..b], i, n, c);
    assert forall k :: a + i <= k < a + i + n ==> text[k] == text[a..b][k - a];
    assert AllAt(text, a + i, n, c);
  }

  lemma TicksClose(n: nat)
    requires n >= 3
    ensures Closer(Ticks(n), '`', n)
  {
    var line := Ticks(n);
    assert line[0] == '`';
    assert RunLength(line, 0, ' ') == 0;
    var m := RunLength(line, 0, '`');
    assert m >= n;
  }

  /** The block of a prompt: the fence, the prompt and the fence, each on its own line. */
  function PromptBlock(prompt: string, n: nat): string {
    Ticks(n) + "\n" + prompt + "\n" + Ticks(n)
  }

  /** No line of the prompt closes its block. */
  lemma NoLineOfThePromptCloses(text: string, i: nat, prompt: string, s: nat, n: nat)
    requires i < s <= |text| && text[s - 1] == '\n' && |prompt| == s - i - 2 && text[i + 1..s - 1] == prompt
    requires !HasRun(prompt, '`', n)
    ensures NoneCloses(text, i, s, '`', n)
  {
    hide Closer, HasRun;
    forall p | i < p < s ensures !ClosesAt(text, p, '`', n) {
      var e := LineEnd(text, p);
      assert e <= s - 1;
      if Closer(LineAt(text, p), '`', n) {
        CloserHasRun(LineAt(text, p), '`', n);
        PartOfPart(text, i + 1, s - 1, p, e);
        PartHasRun(prompt, p - i - 1, e - i - 1, '`', n);
      }
    }
  }

  lemma PartOfPart(text: string, a: nat, b: nat, p: nat, e: nat)
    requires a <= p <= e <= b <= |text|
    ensures text[a..b][p - a..e - a] == text[p..e]
  {
    var part, inner := text[a..b][p - a..e - a], text[p..e];
    assert |part| == |inner|;
    forall k | 0 <= k < |inner| ensures part[k] == inner[k] {
      assert part[k] == text[a..b][p - a + k] == text[p + k];
    }
  }

  /**
    A prompt in a fence longer than any run of backticks in it renders as one block, whatever stands before
    and after it: the block opened by the first fence ends just past the second.
   */
  lemma PromptIsOneBlock(before: string, prompt: string, n: nat, after: string)
    requires n >= 3 && !HasRun(prompt, '`', n) && (after == "" || after[0] == '\n')
    ensures
      var text := before + PromptBlock(prompt, n) + after;
      var end := |before| + |PromptBlock(prompt, n)|;
      FenceEnd(text, |before| + n, '`', n) == Least(|text|, end + 1)
  {
    hide Closer, HasRun, FenceEnd;
    var text := before + PromptBlock(prompt, n) + after;
    var i := |before| + n;
    var s := i + |prompt| + 2;
    assert text[s - 1] == '\n';
    assert text[i + 1..s - 1] == prompt;
    NoLineOfThePromptCloses(text, i, prompt, s, n);
    assert text[s..s + n] == Ticks(n);
    ClosingLine(text, s, n);
    BlockEndsOnce(text, i, '`', n, s);
  }

  lemma ClosingLine(text: string, s: nat, n: nat)
    requires n >= 3 && 0 < s && s + n <= |text| && text[s - 1] == '\n' && text[s..s + n] == Ticks(n)
    requires s + n == |text| || text[s + n] == '\n'
    ensures ClosesAt(text, s, '`', n) && NextLine(text, s) == Least(|text|, s + n + 1)
  {
    hide Closer;
    assert forall k :: s <= k < s + n ==> text[k] == text[s..s + n][k - s];
    assert LineEnd(text, s) == s + n;
    assert LineAt(text, s) == Ticks(n);
    TicksClose(n);
  }

  lemma NothingAround(text: string)
    ensures "" + text + "" == text && text[0..|text|] == text && text[0..0] == "" && text[|text|..] == ""
  {
  }

  /** As the scanner reads it, the whole block is one piece of code. */
  lemma ScannerKeepsThePromptWhole(prompt: string, n: nat)
    requires n >= 3 && !HasRun(prompt, '`', n)
    ensures Segments(PromptBlock(prompt, n)) == [Prose(""), Code(PromptBlock(prompt, n)), Prose("")]
  {
    hide *;
    var text := PromptBlock(prompt, n);
    NothingAround(text);
    PromptIsOneBlock("", prompt, n, "");
    OpeningFence(prompt, n);
    StartsALine(text);
    FenceCode(text, 0);
    LeastOf(|text|);
    SegmentsAreTheScan(text);
    ScanStep(text, 0, 0);
    ScanDone(text, |text|);
    assert [Prose(""), Code(text)] + [Prose("")] == [Prose(""), Code(text), Prose("")];
  }

  lemma LeastOf(n: nat)
    ensures Least(n, n + 1) == n
  {
  }

  lemma OpeningFence(prompt: string, n: nat)
    requires n >= 3
    ensures |PromptBlock(prompt, n)| > 0 && PromptBlock(prompt, n)[0] == '`' && Fence(PromptBlock(prompt, n), 0) == n
  {
    var text := PromptBlock(prompt, n);
    assert forall k :: 0 <= k < n ==> text[k] == Ticks(n)[k];
    assert text[n] == '\n';
    var m := RunLength(text, 0, '`');
    assert !At(text, n, '`') && forall k :: 0 <= k < m ==> At(text, k, '`');
    assert forall k :: 0 <= k < n ==> At(text, k, '`');
  }
}
