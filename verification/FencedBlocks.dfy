/**
  Fenced code blocks as section 4.5 of the CommonMark specification has them, read line by line, and exactly when
  the scanner of internal/review/links.go finds the same ones. A line is what a newline ends, with the carriage
  return before it (section 2.1); containers, indented code and HTML blocks are not part of this model.
 */
module FencedBlocks {
  import opened Prelude
  import opened ProseScanner
  import Text

  // ---- Section 4.5 ----

  /** How many c's the line begins with. */
  function Leading(line: string, c: char): (n: nat)
    ensures n <= |line|
  {
    if line != "" && line[0] == c then 1 + Leading(line[1..], c) else 0
  }

  /** A fence `at` so far into its line: n characters c. */
  datatype OpeningFence = OpeningFence(at: nat, c: char, n: nat)

  /**
    An opening fence: indented by three spaces at most, three backticks or tildes at least, and an info string that
    holds no backtick when the fence is of backticks.
   */
  function Opening(line: string): Option<OpeningFence> {
    var k := Leading(line, ' ');
    if k > 3 || k == |line| || (line[k] != '`' && line[k] != '~') then None
    else
      var n := Leading(line[k..], line[k]);
      if n < 3 || (line[k] == '`' && '`' in line[k + n..]) then None else Some(OpeningFence(k, line[k], n))
  }

  /** Spaces or tabs, and the carriage return of the line's ending. */
  predicate Padding(s: string) {
    forall j :: 0 <= j < |s| ==> s[j] == ' ' || s[j] == '\t' || (s[j] == '\r' && j == |s| - 1)
  }

  /** A closing fence: indented by three spaces at most, at least as long as the opening one, and then only padding. */
  predicate Closing(line: string, c: char, n: nat) {
    var k := Leading(line, ' ');
    var m := Leading(line[k..], c);
    k <= 3 && m >= n && Padding(line[k + m..])
  }

  datatype Block = Block(start: nat, end: nat)

  /** Where a block ends whose last line so far ends at e: past the first closing fence, or with the text. */
  function BlockEnd(text: string, e: nat, c: char, n: nat): (end: nat)
    requires e <= |text|
    ensures e <= end <= |text|
    decreases |text| - e
  {
    if e == |text| then |text|
    else
      var next := LineEnd(text, e + 1);
      if Closing(text[e + 1..next], c, n) then (if next == |text| then |text| else next + 1)
      else BlockEnd(text, next, c, n)
  }

  /** The blocks of the lines from p on, where none is open. */
  function Blocks(text: string, p: nat): seq<Block>
    requires p <= |text|
    decreases |text| - p
  {
    var e := LineEnd(text, p);
    match Opening(text[p..e])
    case None => if e == |text| then [] else Blocks(text, e + 1)
    case Some(f) =>
      OpeningIsInside(text[p..e]);
      var end := BlockEnd(text, e, f.c, f.n);
      [Block(p + f.at, end)] + Blocks(text, end)
  }

  lemma OpeningIsInside(line: string)
    requires Opening(line).Some?
    ensures Opening(line).value.at < |line|
  {
  }

  // ---- What the scanner finds ----

  /** A stretch of code: a block, or a span. */
  datatype Stretch = Stretch(start: nat, end: nat, block: bool)

  predicate Opens(text: string, i: nat)
    requires i < |text|
  {
    AtLineStart(text, i) && Fence(text, i) > 0
  }

  /** The code among the scanner's segments, the first of which is at `at`. */
  function Codes(text: string, segments: seq<Segment>, at: nat): seq<Stretch>
    decreases |segments|
  {
    if segments == [] then []
    else
      var end := at + |segments[0].text|;
      (if segments[0].Code? then [Stretch(at, end, at < |text| && Opens(text, at))] else []) +
      Codes(text, segments[1..], end)
  }

  function BlocksAmong(codes: seq<Stretch>): seq<Block> {
    if codes == [] then []
    else (if codes[0].block then [Block(codes[0].start, codes[0].end)] else []) + BlocksAmong(codes[1..])
  }

  // ---- When a stretch of code is what section 4.5 makes of it ----

  /** No backtick follows a backtick fence on its line. */
  predicate PlainInfo(text: string, i: nat)
    requires i < |text|
  {
    text[i] == '~' || forall k :: i + Fence(text, i) <= k < LineEnd(text, i) ==> text[k] != '`'
  }

  /** The line before `end`, its newline not included. */
  function LastLine(text: string, end: nat): string
    requires 0 < end <= |text|
  {
    text[LineStart(text, end - 1)..end - 1]
  }

  /** On a line that closes with c's, padding follows them. */
  predicate PaddedAfter(line: string, c: char) {
    var k := RunLength(line, 0, ' ');
    Padding(line[k + RunLength(line, k, c)..])
  }

  /** What follows the closing fence before `end` is padding; where the text ends there, it does not matter. */
  predicate PlainClose(text: string, i: nat, end: nat)
    requires i < end <= |text|
  {
    end < |text| ==> PaddedAfter(LastLine(text, end), text[i])
  }

  /** No line that opens a block starts in it. */
  predicate NoLineOpensIn(text: string, i: nat, end: nat)
    requires end <= |text|
  {
    forall q: nat :: i < q < end && text[q - 1] == '\n' ==> OpensNothing(text, q)
  }

  predicate OpensNothing(text: string, q: nat)
    requires q <= |text|
  {
    Opening(LineAt(text, q)).None?
  }

  predicate Plain(text: string, code: Stretch) {
    code.start < code.end <= |text| &&
    if code.block then PlainInfo(text, code.start) && PlainClose(text, code.start, code.end)
    else NoLineOpensIn(text, code.start, code.end)
  }

  predicate AllPlain(text: string, codes: seq<Stretch>) {
    forall code :: code in codes ==> Plain(text, code)
  }

  // ---- The two ways of counting ----

  lemma {:induction false} LeadingIsRun(text: string, i: nat, e: nat, c: char)
    requires i <= e <= |text| && (e < |text| ==> text[e] != c)
    ensures Leading(text[i..e], c) == RunLength(text, i, c)
    decreases e - i
  {
    if i < e {
      assert text[i..e][1..] == text[i + 1..e];
      LeadingIsRun(text, i + 1, e, c);
    }
  }

  lemma LeadingFrom(line: string, k: nat, c: char)
    requires k <= |line|
    ensures Leading(line[k..], c) == RunLength(line, k, c)
  {
    LeadingIsRun(line, k, |line|, c);
    assert line[k..|line|] == line[k..];
  }

  /** Section 4.5 of an opening fence, character by character: its indentation, its run, and its info string. */
  predicate OpensAs(line: string, at: nat, c: char, n: nat) {
    && at <= 3 && n >= 3 && (c == '`' || c == '~') && at + n <= |line|
    && (forall j :: 0 <= j < at ==> line[j] == ' ') && (forall j :: at <= j < at + n ==> line[j] == c)
    && (forall j :: at + n <= j < |line| && (j == at + n || c == '`') ==> line[j] != c)
  }

  /** And of a closing one: its indentation, its run, and spaces, tabs or the carriage return of the line's ending. */
  predicate ClosesAs(line: string, c: char, n: nat, at: nat, m: nat) {
    && at <= 3 && m >= n && at + m <= |line|
    && (forall j :: 0 <= j < at ==> line[j] == ' ') && (forall j :: at <= j < at + m ==> line[j] == c)
    && (forall j :: at + m <= j < |line| ==> line[j] == ' ' || line[j] == '\t' || (line[j] == '\r' && j == |line| - 1))
  }

  lemma RunLengthIs(line: string, i: nat, c: char, n: nat)
    requires i + n <= |line| && (forall j :: i <= j < i + n ==> line[j] == c) && (i + n < |line| ==> line[i + n] != c)
    ensures RunLength(line, i, c) == n
  {
    var m := RunLength(line, i, c);
    assert forall j :: i <= j < i + m ==> line[j] == c;
    assert i + m < |line| ==> line[i + m] != c;
  }

  /** How a line begins: its spaces, and then its run of c. */
  lemma LineBegins(line: string, c: char)
    ensures
      var k := Leading(line, ' ');
      && k <= |line| && RunLength(line, 0, ' ') == k && Leading(line[k..], c) == RunLength(line, k, c)
      && k + RunLength(line, k, c) <= |line|
      && (forall j :: 0 <= j < k ==> line[j] == ' ')
      && (forall j :: k <= j < k + RunLength(line, k, c) ==> line[j] == c)
      && (k + RunLength(line, k, c) < |line| ==> line[k + RunLength(line, k, c)] != c)
  {
    LeadingFrom(line, 0, ' ');
    assert line[0..] == line;
    LeadingFrom(line, Leading(line, ' '), c);
    hide Leading;
  }

  lemma BeginsWith(line: string, at: nat, c: char, m: nat)
    requires c != ' ' && m > 0 && at + m <= |line| && (forall j :: 0 <= j < at ==> line[j] == ' ')
    requires (forall j :: at <= j < at + m ==> line[j] == c) && (at + m < |line| ==> line[at + m] != c)
    ensures Leading(line, ' ') == at && Leading(line[at..], c) == m
  {
    LineBegins(line, c);
    hide Leading, RunLength;
    assert line[at] == c;
    RunLengthIs(line, 0, ' ', at);
    RunLengthIs(line, at, c, m);
  }

  lemma InfoHolds(line: string, from: nat)
    requires from <= |line|
    ensures '`' in line[from..] <==> exists j :: from <= j < |line| && line[j] == '`'
  {
    if j :| from <= j < |line| && line[j] == '`' {
      assert line[from..][j - from] == '`';
    }
  }

  lemma PaddingFrom(line: string, from: nat)
    requires from <= |line|
    ensures Padding(line[from..]) <==>
            forall j :: from <= j < |line| ==> line[j] == ' ' || line[j] == '\t' || (line[j] == '\r' && j == |line| - 1)
  {
    var s := line[from..];
    assert forall j :: from <= j < |line| ==> line[j] == s[j - from];
  }

  lemma OpeningShows(line: string, f: OpeningFence)
    requires Opening(line) == Some(f)
    ensures OpensAs(line, f.at, f.c, f.n)
  {
    hide Leading, RunLength;
    LineBegins(line, f.c);
    InfoHolds(line, f.at + f.n);
  }

  lemma OpensThen(line: string, f: OpeningFence)
    requires OpensAs(line, f.at, f.c, f.n)
    ensures Opening(line) == Some(f)
  {
    hide Leading;
    assert line[f.at] == f.c;
    BeginsWith(line, f.at, f.c, f.n);
    InfoHolds(line, f.at + f.n);
  }

  /** A line opens a block exactly when it is such a line. */
  lemma OpeningIff(line: string, f: OpeningFence)
    ensures Opening(line) == Some(f) <==> OpensAs(line, f.at, f.c, f.n)
  {
    hide Opening, OpensAs;
    if Opening(line) == Some(f) {
      OpeningShows(line, f);
    }
    if OpensAs(line, f.at, f.c, f.n) {
      OpensThen(line, f);
    }
  }

  lemma ClosingShows(line: string, c: char, n: nat)
    requires Closing(line, c, n)
    ensures exists at: nat, m: nat :: ClosesAs(line, c, n, at, m)
  {
    hide Leading, RunLength, Padding;
    LineBegins(line, c);
    var k := Leading(line, ' ');
    var m := RunLength(line, k, c);
    PaddingFrom(line, k + m);
    assert ClosesAs(line, c, n, k, m);
  }

  lemma ClosesThen(line: string, c: char, n: nat, at: nat, m: nat)
    requires n > 0 && (c == '`' || c == '~') && ClosesAs(line, c, n, at, m)
    ensures Closing(line, c, n)
  {
    hide Leading, Padding;
    BeginsWith(line, at, c, m);
    PaddingFrom(line, at + m);
  }

  /** And closes one exactly when it is such a line. */
  lemma ClosingIff(line: string, c: char, n: nat)
    requires n > 0 && (c == '`' || c == '~')
    ensures Closing(line, c, n) <==> exists at: nat, m: nat :: ClosesAs(line, c, n, at, m)
  {
    hide Closing, ClosesAs;
    if Closing(line, c, n) {
      ClosingShows(line, c, n);
    }
    if at: nat, m: nat :| ClosesAs(line, c, n, at, m) {
      ClosesThen(line, c, n, at, m);
    }
  }

  lemma PaddingIsBlank(s: string)
    requires Padding(s)
    ensures Blank(s)
  {
  }

  lemma ClosingOf(line: string, c: char, n: nat, k: nat, m: nat)
    requires Leading(line, ' ') == k <= |line| && Leading(line[k..], c) == m && k + m <= |line|
    ensures Closing(line, c, n) <==> k <= 3 && m >= n && Padding(line[k + m..])
  {
    hide Leading, Padding;
  }

  lemma CloserOf(line: string, c: char, n: nat, k: nat, m: nat)
    requires RunLength(line, 0, ' ') == k <= |line| && RunLength(line, k, c) == m && k + m <= |line|
    ensures Closer(line, c, n) <==> k <= 3 && m >= n && Blank(line[k + m..])
  {
    hide RunLength, Blank;
  }

  lemma RunFits(line: string, k: nat, c: char)
    requires k <= |line|
    ensures k + RunLength(line, k, c) <= |line|
  {
  }

  /** A closing fence closes for the scanner, and one of the scanner's is one when padding follows it. */
  lemma ClosingIs(line: string, c: char, n: nat)
    ensures
      var k := RunLength(line, 0, ' ');
      && k <= |line| && k + RunLength(line, k, c) <= |line|
      && (Closing(line, c, n) <==> Closer(line, c, n) && Padding(line[k + RunLength(line, k, c)..]))
  {
    hide *;
    RunFits(line, 0, ' ');
    var k := RunLength(line, 0, ' ');
    RunFits(line, k, c);
    var m := RunLength(line, k, c);
    LeadingFrom(line, 0, ' ');
    LeadingFrom(line, k, c);
    assert line[0..] == line;
    ClosingOf(line, c, n, k, m);
    CloserOf(line, c, n, k, m);
    if Padding(line[k + m..]) {
      PaddingIsBlank(line[k + m..]);
    }
  }

  // ---- Where a block ends ----

  lemma EmptyClosesNothing(c: char, n: nat)
    requires n > 0
    ensures !Closing("", c, n)
  {
  }

  lemma BlockEndsLater(text: string, e: nat, c: char, n: nat)
    requires e + 1 < |text| && n > 0
    ensures BlockEnd(text, e, c, n) > e + 1
  {
    hide Closing, LineEnd;
    EmptyClosesNothing(c, n);
    if LineEnd(text, e + 1) == e + 1 {
      assert text[e + 1..e + 1] == "";
      assert LineEnd(text, e + 2) >= e + 2;
    }
  }

  lemma BlockEndsWithTheText(text: string, e: nat, c: char, n: nat)
    requires |text| <= e + 1 && e <= |text| && n > 0
    ensures BlockEnd(text, e, c, n) == |text|
  {
    EmptyClosesNothing(c, n);
    if e < |text| {
      assert text[|text|..|text|] == "";
    }
  }

  lemma {:induction false} LineStartIs(text: string, q: nat, x: nat)
    requires q <= x <= |text| && (q == 0 || text[q - 1] == '\n') && forall k :: q <= k < x ==> text[k] != '\n'
    ensures LineStart(text, x) == q
    decreases x
  {
    if q < x {
      LineStartIs(text, q, x - 1);
    }
  }

  lemma LastLineIs(text: string, q: nat)
    requires q <= |text| && LineEnd(text, q) < |text| && (q == 0 || text[q - 1] == '\n')
    ensures LastLine(text, LineEnd(text, q) + 1) == LineAt(text, q)
  {
    LineStartIs(text, q, LineEnd(text, q));
  }

  lemma BlockEndStep(text: string, e: nat, c: char, n: nat)
    requires e < |text|
    ensures
      var next := LineEnd(text, e + 1);
      BlockEnd(text, e, c, n) ==
      if Closing(LineAt(text, e + 1), c, n) then (if next == |text| then |text| else next + 1) else BlockEnd(text, next, c, n)
  {
  }

  lemma FenceEndStep(text: string, i: nat, c: char, n: nat)
    requires i <= |text|
    ensures
      var e := LineEnd(text, i);
      FenceEnd(text, i, c, n) ==
      if e == |text| then |text|
      else if Closer(LineAt(text, e + 1), c, n)
      then (if LineEnd(text, e + 1) == |text| then |text| else LineEnd(text, e + 1) + 1)
      else FenceEnd(text, e + 1, c, n)
  {
    hide Closer;
  }

  lemma NoMoreLines(text: string, c: char, n: nat)
    ensures BlockEnd(text, |text|, c, n) == |text|
  {
  }

  /** A closing line of the scanner's closes the block when padding follows the fence, or the text ends with it. */
  lemma ClosesAlikeIff(text: string, e: nat, c: char, n: nat)
    requires e < |text| && text[e] == '\n' && n > 0 && Closer(LineAt(text, e + 1), c, n)
    ensures
      var next := LineEnd(text, e + 1);
      var end := if next == |text| then |text| else next + 1;
      BlockEnd(text, e, c, n) == end <==> (end < |text| ==> PaddedAfter(LastLine(text, end), c))
  {
    hide *;
    var next := LineEnd(text, e + 1);
    BlockEndStep(text, e, c, n);
    ClosingIs(LineAt(text, e + 1), c, n);
    PaddedAfterIs(LineAt(text, e + 1), c);
    if next < |text| {
      LastLineIs(text, e + 1);
    }
    if next + 1 < |text| {
      BlockEndsLater(text, next, c, n);
    } else {
      BlockEndsWithTheText(text, next, c, n);
    }
  }

  lemma AtNewline(text: string, i: nat)
    requires i <= |text|
    ensures i <= LineEnd(text, i) <= |text| && (LineEnd(text, i) < |text| ==> text[LineEnd(text, i)] == '\n')
  {
  }

  /** The scanner's end is the block's exactly when padding alone follows the closing fence, or the text ends there. */
  lemma {:induction false} EndsAlikeIff(text: string, i: nat, c: char, n: nat)
    requires i <= |text| && n > 0
    ensures
      var end := FenceEnd(text, i, c, n);
      BlockEnd(text, LineEnd(text, i), c, n) == end <==> (0 < end < |text| ==> PaddedAfter(LastLine(text, end), c))
    decreases |text| - i
  {
    hide *;
    var e := LineEnd(text, i);
    AtNewline(text, i);
    FenceEndStep(text, i, c, n);
    NoMoreLines(text, c, n);
    if e < |text| {
      if Closer(LineAt(text, e + 1), c, n) {
        ClosesAlikeIff(text, e, c, n);
        AtNewline(text, e + 1);
      } else {
        BlockEndStep(text, e, c, n);
        ClosingIs(LineAt(text, e + 1), c, n);
        EndsAlikeIff(text, e + 1, c, n);
      }
    }
  }

  lemma PaddedAfterIs(line: string, c: char)
    ensures
      var k := RunLength(line, 0, ' ');
      PaddedAfter(line, c) <==> Padding(line[k + RunLength(line, k, c)..])
  {
  }

  // ---- The lines still to read ----

  /** The blocks of the lines after the one at i. */
  function Next(text: string, i: nat): seq<Block>
    requires i <= |text|
  {
    if LineEnd(text, i) == |text| then [] else Blocks(text, LineEnd(text, i) + 1)
  }

  /** The blocks still to come where the scan is at i: its own line's, while a fence may open there. */
  function Pending(text: string, i: nat): seq<Block>
    requires i <= |text|
  {
    if AtLineStart(text, i) then Blocks(text, LineStart(text, i)) else Next(text, i)
  }

  lemma BlocksStep(text: string, p: nat)
    requires p <= |text|
    ensures Opening(LineAt(text, p)).None? ==> Blocks(text, p) == Next(text, p)
    ensures
      Opening(LineAt(text, p)).Some? ==>
        var f := Opening(LineAt(text, p)).value;
        var end := BlockEnd(text, LineEnd(text, p), f.c, f.n);
        Blocks(text, p) == [Block(p + f.at, end)] + Blocks(text, end)
  {
    hide Opening, BlockEnd;
  }

  lemma {:induction false} SameLineEnd(text: string, i: nat, j: nat)
    requires i <= j <= |text| && forall k :: i <= k < j ==> text[k] != '\n'
    ensures LineEnd(text, i) == LineEnd(text, j)
    decreases j - i
  {
    if i < j {
      SameLineEnd(text, i + 1, j);
    }
  }

  lemma SameNext(text: string, i: nat, j: nat)
    requires i <= j <= |text| && forall k :: i <= k < j ==> text[k] != '\n'
    ensures Next(text, i) == Next(text, j)
  {
    hide Blocks;
    SameLineEnd(text, i, j);
  }

  /** Where a line starts with spaces only, up to i. */
  lemma LineOf(text: string, i: nat)
    requires i < |text| && AtLineStart(text, i)
    ensures
      var p := LineStart(text, i);
      && i - p <= 3 && LineEnd(text, p) == LineEnd(text, i) && (forall k :: p <= k < i ==> text[k] == ' ')
      && |LineAt(text, p)| == LineEnd(text, i) - p
      && forall k :: p <= k < LineEnd(text, i) ==> LineAt(text, p)[k - p] == text[k]
  {
    hide LineEnd;
    SameLineEnd(text, LineStart(text, i), i);
  }

  lemma {:induction false} LeadingPast(line: string, k: nat, c: char)
    requires k <= |line| && forall j :: 0 <= j < k ==> line[j] == c
    ensures Leading(line, c) == k + Leading(line[k..], c)
    decreases k
  {
    if k > 0 {
      LeadingPast(line[1..], k - 1, c);
      assert line[1..][k - 1..] == line[k..];
    } else {
      assert line[0..] == line;
    }
  }

  lemma LeadingCons(line: string, c: char)
    requires line != ""
    ensures line[0] == c ==> Leading(line, c) > 0
    ensures line[0] != c ==> Leading(line, c) == 0
  {
  }

  lemma NothingLeads(c: char)
    ensures Leading("", c) == 0
  {
  }

  lemma IndentOf(text: string, i: nat)
    requires i < |text| && AtLineStart(text, i)
    ensures
      var line := LineAt(text, LineStart(text, i));
      if text[i] == ' ' then Leading(line, ' ') > i - LineStart(text, i) else Leading(line, ' ') == i - LineStart(text, i)
  {
    hide *;
    LineOf(text, i);
    AtNewline(text, i);
    var p := LineStart(text, i);
    var line := LineAt(text, p);
    assert forall j :: 0 <= j < i - p ==> line[j] == text[p + j];
    LeadingPast(line, i - p, ' ');
    var rest := line[i - p..];
    if LineEnd(text, i) > i {
      assert rest[0] == line[i - p] == text[i];
      LeadingCons(rest, ' ');
    } else {
      assert rest == "";
      NothingLeads(' ');
    }
  }

  lemma RunInLine(text: string, i: nat)
    requires i < |text| && text[i] != '\n'
    ensures i < i + RunLength(text, i, text[i]) <= LineEnd(text, i)
    ensures Leading(text[i..LineEnd(text, i)], text[i]) == RunLength(text, i, text[i])
  {
    hide LineEnd, Leading;
    AtNewline(text, i);
    var e := LineEnd(text, i);
    assert e < |text| ==> text[e] != text[i];
    LeadingIsRun(text, i, e, text[i]);
    assert AllAt(text, i, RunLength(text, i, text[i]), text[i]);
  }

  lemma FenceOf(text: string, i: nat)
    requires i < |text| && AtLineStart(text, i) && (text[i] == '`' || text[i] == '~')
    ensures
      var p := LineStart(text, i);
      var line := LineAt(text, p);
      && i - p < |line| && line[i - p] == text[i]
      && Leading(line[i - p..], text[i]) == RunLength(text, i, text[i])
      && i + RunLength(text, i, text[i]) <= LineEnd(text, i)
  {
    hide *;
    LineOf(text, i);
    var p, e := LineStart(text, i), LineEnd(text, i);
    LineAtIs(text, p);
    RunInLine(text, i);
    assert text[p..e][i - p..] == text[i..e];
  }

  lemma SliceHas(text: string, a: nat, b: nat, c: char)
    requires a <= b <= |text|
    ensures c in text[a..b] <==> exists k :: a <= k < b && text[k] == c
  {
    assert forall k :: a <= k < b ==> text[a..b][k - a] == text[k];
  }

  lemma LineAtIs(text: string, p: nat)
    requires p <= |text|
    ensures p <= LineEnd(text, p) <= |text| && LineAt(text, p) == text[p..LineEnd(text, p)]
  {
  }

  lemma InfoOf(text: string, i: nat, n: nat)
    requires i < |text| && AtLineStart(text, i) && i + n <= LineEnd(text, i)
    ensures
      var line := LineAt(text, LineStart(text, i));
      && i - LineStart(text, i) + n <= |line|
      && ('`' in line[i - LineStart(text, i) + n..] <==> exists k :: i + n <= k < LineEnd(text, i) && text[k] == '`')
  {
    hide *;
    LineOf(text, i);
    var p, e := LineStart(text, i), LineEnd(text, i);
    LineAtIs(text, p);
    AtNewline(text, i);
    SliceHas(text, i + n, e, '`');
    assert text[p..e][i - p + n..] == text[i + n..e];
  }

  lemma OpeningOf(line: string, k: nat, c: char, n: nat)
    requires Leading(line, ' ') == k <= 3 && k < |line| && line[k] == c && (c == '`' || c == '~') && Leading(line[k..], c) == n
    ensures k + n <= |line|
    ensures Opening(line) == if n < 3 || (c == '`' && '`' in line[k + n..]) then None else Some(OpeningFence(k, c, n))
  {
    hide Leading;
  }

  lemma NoOpeningOf(line: string, k: nat)
    requires Leading(line, ' ') == k && (k == |line| || (k < |line| && line[k] != '`' && line[k] != '~'))
    ensures Opening(line).None?
  {
    hide Leading;
  }

  lemma FenceIs(text: string, i: nat)
    requires i < |text|
    ensures
      var n := RunLength(text, i, text[i]);
      Fence(text, i) == if (text[i] == '`' || text[i] == '~') && n >= 3 then n else 0
    ensures PlainInfo(text, i) <==>
            text[i] == '~' || !exists k :: i + Fence(text, i) <= k < LineEnd(text, i) && text[k] == '`'
  {
    hide RunLength;
  }

  /** At the first character past a line's spaces: what the line opens. */
  lemma OpeningAt(text: string, i: nat)
    requires i < |text| && AtLineStart(text, i) && text[i] != ' '
    ensures
      Opening(LineAt(text, LineStart(text, i))) ==
      if Fence(text, i) > 0 && PlainInfo(text, i) then Some(OpeningFence(i - LineStart(text, i), text[i], Fence(text, i)))
      else None
  {
    hide *;
    LineOf(text, i);
    IndentOf(text, i);
    FenceIs(text, i);
    AtNewline(text, i);
    var p := LineStart(text, i);
    var line := LineAt(text, p);
    if text[i] == '`' || text[i] == '~' {
      var n := RunLength(text, i, text[i]);
      FenceOf(text, i);
      InfoOf(text, i, n);
      OpeningOf(line, i - p, text[i], n);
    } else {
      NoOpeningOf(line, i - p);
    }
  }

  /** A fourth space: nothing opens on the line. */
  lemma IndentedTooFar(text: string, i: nat)
    requires i < |text| && AtLineStart(text, i) && text[i] == ' ' && i - LineStart(text, i) == 3
    ensures Opening(LineAt(text, LineStart(text, i))).None?
  {
    IndentOf(text, i);
    hide LineStart, LineAt, Leading;
  }

  lemma PendingOnStart(text: string, i: nat)
    requires i < |text| && AtLineStart(text, i) && Opening(LineAt(text, LineStart(text, i))).None?
    ensures Pending(text, i) == Next(text, i)
  {
    LineOf(text, i);
    hide LineStart, AtLineStart, LineEnd, LineAt, Opening, Blocks;
    var p := LineStart(text, i);
    BlocksStep(text, p);
    SameNext(text, p, i);
  }

  /** Where no fence opens and no more spaces may come, what is pending is on later lines. */
  lemma PendingIsNext(text: string, i: nat)
    requires i < |text| && !Opens(text, i)
    requires !(AtLineStart(text, i) && text[i] == ' ' && i - LineStart(text, i) < 3)
    ensures Pending(text, i) == Next(text, i)
  {
    hide Opening, Blocks, LineAt, LineEnd, Next, Fence, PlainInfo;
    if AtLineStart(text, i) {
      if text[i] == ' ' {
        AtMostThree(text, i);
        IndentedTooFar(text, i);
      } else {
        OpeningAt(text, i);
      }
      PendingOnStart(text, i);
    }
  }

  lemma AtMostThree(text: string, i: nat)
    requires i <= |text| && AtLineStart(text, i)
    ensures i - LineStart(text, i) <= 3
  {
  }

  lemma NextAfterNewline(text: string, i: nat)
    requires i < |text| && text[i] == '\n'
    ensures Next(text, i) == Pending(text, i + 1)
  {
    hide Blocks;
    AfterNewline(text, i + 1);
    assert LineStart(text, i + 1) == i + 1;
  }

  lemma SpaceKeepsPending(text: string, i: nat)
    requires i < |text| && AtLineStart(text, i) && text[i] == ' ' && i - LineStart(text, i) < 3
    ensures Pending(text, i) == Pending(text, i + 1)
  {
    hide Blocks, Next;
    LineStartStep(text, i);
    assert LineStart(text, i + 1) == LineStart(text, i);
  }

  lemma SkippedAreNoNewlines(text: string, i: nat)
    requires i < |text| && text[i] != '\n' && !Opens(text, i)
    requires !(AtLineStart(text, i) && text[i] == ' ' && i - LineStart(text, i) < 3)
    ensures forall k :: i <= k < i + Skip(text, i) ==> text[k] != '\n'
    ensures !AtLineStart(text, i + Skip(text, i))
  {
    hide AtLineStart, Fence, RunLength;
    if text[i] == '`' {
      TicksFit(text, i);
      NotAfterTick(text, i + Skip(text, i));
      TicksAreTicks(text, i);
    } else {
      LineStartStep(text, i);
    }
  }

  lemma TicksAreTicks(text: string, i: nat)
    requires i < |text|
    ensures forall k :: i <= k < i + RunLength(text, i, '`') ==> k < |text| && text[k] == '`'
  {
    assert AllAt(text, i, RunLength(text, i, '`'), '`');
  }

  /** Going on where the scanner finds no code leaves what is pending. */
  lemma SkipKeepsPending(text: string, i: nat)
    requires i < |text| && !Opens(text, i)
    ensures Pending(text, i) == Pending(text, i + Skip(text, i))
  {
    hide *;
    SkipFits(text, i);
    if AtLineStart(text, i) && text[i] == ' ' && i - LineStart(text, i) < 3 {
      SpaceKeepsPending(text, i);
      SkipsOne(text, i);
    } else {
      PendingIsNext(text, i);
      if text[i] == '\n' {
        NextAfterNewline(text, i);
        SkipsOne(text, i);
      } else {
        SkippedAreNoNewlines(text, i);
        SameNext(text, i, i + Skip(text, i));
        PendingInLine(text, i + Skip(text, i));
      }
    }
  }

  lemma SkipsOne(text: string, i: nat)
    requires i < |text| && text[i] != '`'
    ensures Skip(text, i) == 1
  {
  }

  // ---- Spans ----

  /** Up to `end`, in a stretch no line of which opens a block, nothing that is pending is read. */
  lemma {:induction false} NothingOpensIn(text: string, i: nat, end: nat)
    requires i < end <= |text| && text[end - 1] != '\n' && NoLineOpensIn(text, i, end)
    ensures Next(text, i) == Next(text, end)
    decreases end - i
  {
    hide Opening, Blocks, LineAt, LineEnd;
    AtNewline(text, i);
    var q := LineEnd(text, i) + 1;
    if q <= end {
      assert q < end && text[q - 1] == '\n' && OpensNothing(text, q);
      BlocksStep(text, q);
      NothingOpensIn(text, q, end);
      NextIs(text, i);
    } else {
      NoNewlineBefore(text, i, end);
      SameNext(text, i, end);
    }
  }

  lemma NextIs(text: string, i: nat)
    requires i <= |text| && LineEnd(text, i) < |text|
    ensures Next(text, i) == Blocks(text, LineEnd(text, i) + 1)
  {
  }

  lemma NoNewlineBefore(text: string, i: nat, end: nat)
    requires i <= end <= |text| && end <= LineEnd(text, i)
    ensures forall k :: i <= k < end ==> text[k] != '\n'
  {
  }

  lemma NewlineEndsTheLine(text: string, i: nat, r: nat)
    requires i < r <= |text| && text[r - 1] == '\n'
    ensures LineEnd(text, i) < r
  {
  }

  /** A line that opens a block before a backtick opens it before that backtick. */
  lemma OpensBefore(text: string, q: nat, end: nat)
    requires q < end <= |text| && text[end - 1] == '`' && Opening(LineAt(text, q)).Some?
    ensures q + Opening(LineAt(text, q)).value.at < end
  {
    hide *;
    OpeningIsIndent(LineAt(text, q));
    AtNewline(text, q);
    LineAtIs(text, q);
    LeadingIsRun(text, q, LineEnd(text, q), ' ');
    NotASpace(text, q, end - 1);
  }

  lemma OpeningIsIndent(line: string)
    requires Opening(line).Some?
    ensures Opening(line).value.at == Leading(line, ' ')
  {
    hide Leading;
  }

  lemma NotASpace(text: string, q: nat, x: nat)
    requires q <= x < |text| && text[x] != ' '
    ensures q + RunLength(text, q, ' ') <= x
  {
    assert AllAt(text, q, RunLength(text, q, ' '), ' ');
  }

  lemma {:induction false} LeadingIsAll(line: string, c: char)
    ensures forall j :: 0 <= j < Leading(line, c) ==> line[j] == c
    decreases |line|
  {
    if line != "" && line[0] == c {
      LeadingIsAll(line[1..], c);
      forall j | 0 <= j < Leading(line, c) ensures line[j] == c {
        assert j > 0 ==> line[j] == line[1..][j - 1];
      }
    }
  }

  /** The next line, when some line opens a block before `end`: it does, or one after it. */
  lemma FirstOfTheLines(text: string, i: nat, end: nat)
    requires i < end <= |text| && !NoLineOpensIn(text, i, end)
    ensures LineEnd(text, i) + 1 < end
    ensures OpensNothing(text, LineEnd(text, i) + 1) ==> !NoLineOpensIn(text, LineEnd(text, i) + 1, end)
  {
    hide OpensNothing, LineEnd;
    var q := LineEnd(text, i) + 1;
    var r: nat :| i < r < end && text[r - 1] == '\n' && !OpensNothing(text, r);
    NewlineEndsTheLine(text, i, r);
  }

  lemma OpensNothingIs(text: string, q: nat)
    requires q <= |text|
    ensures OpensNothing(text, q) <==> Opening(LineAt(text, q)).None?
  {
  }

  /** Where a line opens a block in a stretch that ends in a backtick, a block of section 4.5 starts there. */
  lemma {:induction false} SomethingOpensIn(text: string, i: nat, end: nat) returns (b: Block)
    requires i < end <= |text| && text[end - 1] == '`' && !NoLineOpensIn(text, i, end)
    ensures b in Next(text, i) && b.start < end
    decreases end - i
  {
    hide *;
    AtNewline(text, i);
    var q := LineEnd(text, i) + 1;
    FirstOfTheLines(text, i, end);
    OpensNothingIs(text, q);
    NextIs(text, i);
    BlocksStep(text, q);
    if OpensNothing(text, q) {
      b := SomethingOpensIn(text, q, end);
    } else {
      OpensBefore(text, q, end);
      b := Blocks(text, q)[0];
    }
  }

  // ---- The scan ----

  /** The code the scan finds from i on. */
  function ScanCodes(text: string, i: nat): seq<Stretch>
    requires i <= |text|
    decreases |text| - i
  {
    if i == |text| then []
    else
      CodeEndInside(text, i);
      var end := CodeEnd(text, i);
      if end > 0 then [Stretch(i, end, Opens(text, i))] + ScanCodes(text, end) else ScanCodes(text, i + Skip(text, i))
  }

  lemma ScanCodesStep(text: string, i: nat)
    requires i < |text|
    ensures CodeEnd(text, i) == 0 || i < CodeEnd(text, i) <= |text|
    ensures 0 < Skip(text, i) <= |text| - i
    ensures ScanCodes(text, i) ==
            if CodeEnd(text, i) > 0 then [Stretch(i, CodeEnd(text, i), Opens(text, i))] + ScanCodes(text, CodeEnd(text, i))
            else ScanCodes(text, i + Skip(text, i))
  {
    CodeEndInside(text, i);
  }

  lemma CodesOfTwo(text: string, a: Segment, b: Segment, rest: seq<Segment>, at: nat)
    requires a.Prose? && b.Code?
    ensures
      var i := at + |a.text|;
      var end := i + |b.text|;
      Codes(text, [a, b] + rest, at) == [Stretch(i, end, i < |text| && Opens(text, i))] + Codes(text, rest, end)
  {
    hide Opens;
    var all := [a, b] + rest;
    assert all[1..] == [b] + rest && all[1..][1..] == rest;
  }

  lemma CodesOfOne(text: string, a: Segment, at: nat)
    requires a.Prose?
    ensures Codes(text, [a], at) == []
  {
    assert [a][1..] == [];
  }

  /** The code among the scanner's segments is what the scan finds, where it finds it. */
  lemma {:induction false} CodesOfScan(text: string, prose: nat, i: nat)
    requires prose <= i <= |text|
    ensures Codes(text, Scan(text, prose, i), prose) == ScanCodes(text, i)
    decreases |text| - i
  {
    hide CodeEnd, Skip, Opens, Codes;
    if i == |text| {
      ScanDone(text, prose);
      CodesOfOne(text, Prose(text[prose..]), prose);
    } else {
      ScanStep(text, prose, i);
      ScanCodesStep(text, i);
      var end := CodeEnd(text, i);
      if end > 0 {
        CodesOfTwo(text, Prose(text[prose..i]), Segment.Code(text[i..end]), Scan(text, end, end), prose);
        CodesOfScan(text, end, end);
      } else {
        CodesOfScan(text, prose, i + Skip(text, i));
      }
    }
  }

  /** What the scan finds from i on lies from i on. */
  lemma {:induction false} FoundLater(text: string, i: nat, b: Block)
    requires i <= |text| && b in BlocksAmong(ScanCodes(text, i))
    ensures b.start >= i
    decreases |text| - i
  {
    hide CodeEnd, Skip, Opens, ScanCodes;
    NothingFound(text);
    if i < |text| {
      ScanCodesStep(text, i);
      var end := CodeEnd(text, i);
      if end > 0 {
        var first := Stretch(i, end, Opens(text, i));
        AmongCons(first, ScanCodes(text, end));
        if b in BlocksAmong(ScanCodes(text, end)) {
          FoundLater(text, end, b);
        }
      } else {
        FoundLater(text, i + Skip(text, i), b);
      }
    }
  }

  lemma NothingFound(text: string)
    ensures ScanCodes(text, |text|) == [] && BlocksAmong([]) == []
  {
  }

  lemma AmongCons(first: Stretch, rest: seq<Stretch>)
    ensures BlocksAmong([first] + rest) == (if first.block then [Block(first.start, first.end)] else []) + BlocksAmong(rest)
  {
    assert ([first] + rest)[1..] == rest;
  }

  lemma {:induction false} BlocksLater(text: string, p: nat, b: Block)
    requires p <= |text| && b in Blocks(text, p)
    ensures b.start >= p
    decreases |text| - p
  {
    hide Opening, BlockEnd, LineAt, LineEnd, Blocks;
    AtNewline(text, p);
    BlocksStep(text, p);
    if Opening(LineAt(text, p)).None? {
      if LineEnd(text, p) < |text| {
        NextIs(text, p);
        BlocksLater(text, LineEnd(text, p) + 1, b);
      } else {
        NoNext(text, p);
      }
    } else {
      var f := Opening(LineAt(text, p)).value;
      var end := BlockEnd(text, LineEnd(text, p), f.c, f.n);
      BlockIsLonger(text, p);
      if b in Blocks(text, end) {
        BlocksLater(text, end, b);
      }
    }
  }

  lemma NoNext(text: string, p: nat)
    requires p <= |text| && LineEnd(text, p) == |text|
    ensures Next(text, p) == []
  {
  }

  lemma BlockIsLonger(text: string, p: nat)
    requires p <= |text| && Opening(LineAt(text, p)).Some?
    ensures
      var f := Opening(LineAt(text, p)).value;
      p < BlockEnd(text, LineEnd(text, p), f.c, f.n) <= |text|
  {
    hide BlockEnd, LineEnd;
    AtNewline(text, p);
    OpeningIsInside(LineAt(text, p));
  }

  // ---- Exactly when the two agree ----

  /** From i on the scan finds the blocks that are pending. */
  ghost predicate Agrees(text: string, i: nat)
    requires i <= |text|
  {
    BlocksAmong(ScanCodes(text, i)) == Pending(text, i) <==> AllPlain(text, ScanCodes(text, i))
  }

  lemma AgreesAtTheEnd(text: string)
    ensures Agrees(text, |text|)
  {
    hide Opening, LineStart, LineAt;
    NothingFound(text);
    assert LineEnd(text, |text|) == |text|;
    if AtLineStart(text, |text|) {
      SpacesOpenNothing(text);
    }
  }

  /** A last line of spaces opens nothing. */
  lemma SpacesOpenNothing(text: string)
    requires AtLineStart(text, |text|)
    ensures Pending(text, |text|) == []
  {
    hide Blocks;
    var p := LineStart(text, |text|);
    var line := LineAt(text, p);
    SameLineEnd(text, p, |text|);
    assert line == text[p..];
    LeadingPast(line, |line|, ' ');
    NoOpeningOf(line, |line|);
    BlocksStep(text, p);
    NoNext(text, p);
  }

  lemma AllPlainCons(text: string, first: Stretch, rest: seq<Stretch>)
    ensures AllPlain(text, [first] + rest) <==> Plain(text, first) && AllPlain(text, rest)
  {
    hide Plain;
    var all := [first] + rest;
    assert first in all && forall code :: code in all <==> code == first || code in rest;
  }

  lemma PlainBlock(text: string, i: nat, end: nat)
    requires i < end <= |text|
    ensures Plain(text, Stretch(i, end, true)) <==>
            PlainInfo(text, i) && (end < |text| ==> PaddedAfter(LastLine(text, end), text[i]))
  {
    hide PaddedAfter, LastLine;
  }

  lemma PlainSpan(text: string, i: nat, end: nat)
    requires i < end <= |text|
    ensures Plain(text, Stretch(i, end, false)) <==> NoLineOpensIn(text, i, end)
  {
    hide NoLineOpensIn;
  }

  /** Past a block the scan is at a line's start. */
  lemma PendingAfterBlock(text: string, i: nat)
    requires i < |text| && Opens(text, i)
    ensures i < CodeEnd(text, i) <= |text|
    ensures Pending(text, CodeEnd(text, i)) == Blocks(text, CodeEnd(text, i))
  {
    hide Opening, LineAt, BlockEnd, FenceEnd, Fence;
    FenceCode(text, i);
    FenceFits(text, i);
    FenceEndInside(text, i + Fence(text, i), text[i], Fence(text, i));
    var end := CodeEnd(text, i);
    if end < |text| {
      assert text[end - 1] == '\n';
      assert LineStart(text, end) == end;
    } else {
      NothingPendingAtTheEnd(text);
    }
  }

  lemma NothingPendingAtTheEnd(text: string)
    ensures Pending(text, |text|) == [] && Blocks(text, |text|) == []
  {
    hide Blocks;
    assert LineEnd(text, |text|) == |text|;
    if AtLineStart(text, |text|) {
      SpacesOpenNothing(text);
    }
    NoOpeningOf("", 0);
    BlocksStep(text, |text|);
  }

  lemma OpensIs(text: string, i: nat)
    requires i < |text|
    ensures Opens(text, i) <==> AtLineStart(text, i) && Fence(text, i) > 0
    ensures Opens(text, i) ==> text[i] != ' ' && i + Fence(text, i) <= |text|
    ensures Pending(text, i) == if AtLineStart(text, i) then Blocks(text, LineStart(text, i)) else Next(text, i)
  {
  }

  lemma SameLineForFence(text: string, i: nat)
    requires i < |text| && Opens(text, i)
    ensures LineEnd(text, i + Fence(text, i)) == LineEnd(text, i) == LineEnd(text, LineStart(text, i))
  {
    LineOf(text, i);
    FenceOf(text, i);
    SameLineEnd(text, i, i + Fence(text, i));
  }

  /** With a plain info string the block that is pending opens where the scan's does, and may end elsewhere. */
  lemma PendingBlock(text: string, i: nat, end: nat) returns (e: nat)
    requires i < |text| && Opens(text, i) && PlainInfo(text, i) && end == CodeEnd(text, i) && i < end <= |text|
    ensures e <= |text| && Pending(text, i) == [Block(i, e)] + Blocks(text, e)
    ensures e == end <==> (end < |text| ==> PaddedAfter(LastLine(text, end), text[i]))
  {
    hide *;
    OpensIs(text, i);
    var p, n := LineStart(text, i), Fence(text, i);
    OpeningAt(text, i);
    BlocksStep(text, p);
    FenceCode(text, i);
    SameLineForFence(text, i);
    EndsAlikeIff(text, i + n, text[i], n);
    e := BlockEnd(text, LineEnd(text, p), text[i], n);
  }

  lemma NothingPending(text: string, i: nat)
    requires i < |text| && Opens(text, i) && !PlainInfo(text, i)
    ensures Pending(text, i) == Next(text, i)
  {
    hide *;
    OpensIs(text, i);
    OpeningAt(text, i);
    PendingOnStart(text, i);
  }

  /** A block that the scan opens. */
  lemma BlockAgrees(text: string, i: nat)
    requires i < |text| && Opens(text, i) && i < CodeEnd(text, i) <= |text| && Agrees(text, CodeEnd(text, i))
    ensures Agrees(text, i)
  {
    hide *;
    var end := CodeEnd(text, i);
    var first, rest := Stretch(i, end, true), ScanCodes(text, end);
    AgreesIs(text, i);
    AgreesIs(text, end);
    ScanCodesStep(text, i);
    AmongCons(first, rest);
    AllPlainCons(text, first, rest);
    PlainBlock(text, i, end);
    PendingAfterBlock(text, i);
    if PlainInfo(text, i) {
      var e := PendingBlock(text, i, end);
      SameCons(Block(i, end), Block(i, e), BlocksAmong(rest), Blocks(text, end));
      FirstDiffers(Block(i, end), Block(i, e), BlocksAmong(rest), Blocks(text, e));
    } else {
      NotAmongNext(text, i, Block(i, end));
      NothingPending(text, i);
    }
  }

  lemma AgreesIs(text: string, i: nat)
    requires i <= |text|
    ensures Agrees(text, i) <==> (BlocksAmong(ScanCodes(text, i)) == Pending(text, i) <==> AllPlain(text, ScanCodes(text, i)))
  {
  }

  lemma SameCons(a: Block, b: Block, x: seq<Block>, y: seq<Block>)
    ensures a == b ==> ([a] + x == [b] + y <==> x == y)
  {
    assert ([a] + x)[1..] == x && ([b] + y)[1..] == y;
  }

  lemma FirstDiffers(a: Block, b: Block, x: seq<Block>, y: seq<Block>)
    ensures a != b ==> [a] + x != [b] + y
  {
    assert ([a] + x)[0] == a && ([b] + y)[0] == b;
  }

  lemma NotAmongNext(text: string, i: nat, b: Block)
    requires i <= |text| && b.start == i
    ensures b !in Next(text, i)
  {
    hide Blocks;
    AtNewline(text, i);
    if LineEnd(text, i) < |text| && b in Next(text, i) {
      BlocksLater(text, LineEnd(text, i) + 1, b);
    }
  }

  /** A span that the scan takes. */
  lemma SpanAgrees(text: string, i: nat)
    requires i < |text| && !Opens(text, i) && i < CodeEnd(text, i) <= |text| && Agrees(text, CodeEnd(text, i))
    ensures Agrees(text, i)
  {
    hide *;
    OpensIs(text, i);
    var end := CodeEnd(text, i);
    var first, rest := Stretch(i, end, false), ScanCodes(text, end);
    AgreesIs(text, i);
    AgreesIs(text, end);
    ScanCodesStep(text, i);
    AmongCons(first, rest);
    AllPlainCons(text, first, rest);
    PlainSpan(text, i, end);
    assert [] + BlocksAmong(rest) == BlocksAmong(rest);
    TickOpensSpan(text, i);
    PendingIsNext(text, i);
    PendingInLine(text, end);
    if NoLineOpensIn(text, i, end) {
      NothingOpensIn(text, i, end);
    } else {
      var b := SomethingOpensIn(text, i, end);
      if b in BlocksAmong(rest) {
        FoundLater(text, end, b);
      }
    }
  }

  lemma TickOpensSpan(text: string, i: nat)
    requires i < |text| && !Opens(text, i) && CodeEnd(text, i) > 0
    ensures text[i] == '`' && CodeEnd(text, i) <= |text|
    ensures text[CodeEnd(text, i) - 1] == '`' && !AtLineStart(text, CodeEnd(text, i))
  {
    hide SpanEnd, FenceEnd, AtLineStart, Fence, RunLength, AllAt, At, Between;
    if text[i] == '`' {
      SpanCode(text, i);
      TicksFit(text, i);
      SpanEndInside(text, i + RunLength(text, i, '`'), RunLength(text, i, '`'));
    } else {
      NoCode(text, i);
    }
  }

  lemma PendingInLine(text: string, i: nat)
    requires i <= |text| && !AtLineStart(text, i)
    ensures Pending(text, i) == Next(text, i)
  {
  }

  lemma SkipAgrees(text: string, i: nat)
    requires i < |text| && CodeEnd(text, i) == 0 && i + Skip(text, i) <= |text| && Agrees(text, i + Skip(text, i))
    requires !Opens(text, i)
    ensures Agrees(text, i)
  {
    hide *;
    AgreesIs(text, i);
    AgreesIs(text, i + Skip(text, i));
    ScanCodesStep(text, i);
    SkipKeepsPending(text, i);
  }

  lemma OpensHasAnEnd(text: string, i: nat)
    requires i < |text| && Opens(text, i)
    ensures CodeEnd(text, i) > 0
  {
    hide AtLineStart, Fence, FenceEnd, CodeEnd;
    FenceCode(text, i);
  }

  lemma {:induction false} AgreesFrom(text: string, i: nat)
    requires i <= |text|
    ensures Agrees(text, i)
    decreases |text| - i
  {
    hide *;
    if i == |text| {
      AgreesAtTheEnd(text);
    } else {
      ScanCodesStep(text, i);
      if Opens(text, i) {
        OpensHasAnEnd(text, i);
        AgreesFrom(text, CodeEnd(text, i));
        BlockAgrees(text, i);
      } else if CodeEnd(text, i) > 0 {
        AgreesFrom(text, CodeEnd(text, i));
        SpanAgrees(text, i);
      } else {
        AgreesFrom(text, i + Skip(text, i));
        SkipAgrees(text, i);
      }
    }
  }

  /**
    For every text, the blocks among the scanner's code are those of section 4.5 if and only if no backtick fence it
    opens has a backtick after it on its line, no span it takes holds the start of a line that opens a block, and
    on no line it closes a block at, with text to follow, anything but padding follows the fence.
   */
  lemma BlocksAgreeIff(text: string)
    ensures
      var codes := Codes(text, Segments(text), 0);
      BlocksAmong(codes) == Blocks(text, 0) <==> AllPlain(text, codes)
  {
    hide *;
    AgreesFrom(text, 0);
    AgreesIs(text, 0);
    SegmentsAreTheScan(text);
    CodesOfScan(text, 0, 0);
    PendingAtTheStart(text);
  }

  lemma PendingAtTheStart(text: string)
    ensures Pending(text, 0) == Blocks(text, 0)
  {
    assert LineStart(text, 0) == 0;
  }

  // ---- Where they part ----

  /** No fence, no span and no line's end. */
  predicate Bare(s: string) {
    forall k :: 0 <= k < |s| ==> s[k] != '`' && s[k] != '~' && s[k] != '\n'
  }

  predicate BareFrom(text: string, i: nat, j: nat) {
    j <= |text| && forall k :: i <= k < j ==> text[k] != '`' && text[k] != '~' && text[k] != '\n'
  }

  lemma NoCodeAt(text: string, i: nat)
    requires i < |text| && text[i] != '`' && text[i] != '~'
    ensures ScanCodes(text, i) == ScanCodes(text, i + 1)
  {
    hide *;
    ScanCodesStep(text, i);
    NoFence(text, i);
    NoCode(text, i);
  }

  lemma NoFence(text: string, i: nat)
    requires i < |text| && text[i] != '`' && text[i] != '~'
    ensures Fence(text, i) == 0
  {
  }

  lemma BareFirst(text: string, i: nat, j: nat)
    requires i < j && BareFrom(text, i, j)
    ensures i < |text| && text[i] != '`' && text[i] != '~' && BareFrom(text, i + 1, j)
  {
  }

  lemma BareFits(text: string, i: nat, j: nat)
    requires BareFrom(text, i, j)
    ensures j <= |text|
  {
  }

  /** The scan finds no code where there are no fence characters. */
  lemma {:induction false} NoCodeIn(text: string, i: nat, j: nat)
    requires i <= j && BareFrom(text, i, j)
    ensures j <= |text| && ScanCodes(text, i) == ScanCodes(text, j)
    decreases j - i
  {
    hide *;
    BareFits(text, i, j);
    if i < j {
      BareFirst(text, i, j);
      NoCodeAt(text, i);
      NoCodeIn(text, i + 1, j);
    }
  }

  /** A line with fewer than three ticks or tildes together opens nothing and closes nothing. */
  predicate NoThree(line: string) {
    forall k :: 0 <= k < |line| - 2 && (line[k] == '`' || line[k] == '~') ==> !(line[k] == line[k + 1] == line[k + 2])
  }

  lemma {:induction false} LeadingAtLeast(line: string, k: nat, c: char)
    requires k <= |line| && Leading(line[k..], c) >= 3
    ensures k + 2 < |line| && line[k] == c && line[k + 1] == c && line[k + 2] == c
  {
    LeadingIsAll(line[k..], c);
    hide Leading;
    var rest := line[k..];
    assert rest[0] == c && rest[1] == c && rest[2] == c;
  }

  lemma NoThreeOpensNothing(line: string)
    requires NoThree(line)
    ensures Opening(line).None?
  {
    hide Leading, NoThree;
    if Opening(line).Some? {
      var f := Opening(line).value;
      LeadingAtLeast(line, f.at, f.c);
      ThreeAt(line, f.at, f.c);
    }
  }

  lemma ThreeAt(line: string, k: nat, c: char)
    requires k + 2 < |line| && line[k] == c && line[k + 1] == c && line[k + 2] == c && (c == '`' || c == '~')
    ensures !NoThree(line)
  {
  }

  lemma NoThreeClosesNothing(line: string, n: nat)
    requires NoThree(line) && n >= 3
    ensures !Closing(line, '`', n)
  {
    hide Leading, NoThree, Padding;
    if Closing(line, '`', n) {
      LeadingAtLeast(line, Leading(line, ' '), '`');
      ThreeAt(line, Leading(line, ' '), '`');
    }
  }

  lemma {:induction false} LineEndIs(text: string, i: nat, e: nat)
    requires i <= e <= |text| && (e < |text| ==> text[e] == '\n') && forall k :: i <= k < e ==> text[k] != '\n'
    ensures LineEnd(text, i) == e
    decreases e - i
  {
    if i < e {
      LineEndIs(text, i + 1, e);
    }
  }

  lemma {:induction false} RunIs(text: string, i: nat, n: nat)
    requires AllAt(text, i, n, '`') && !At(text, i + n, '`')
    ensures RunLength(text, i, '`') == n
    decreases n
  {
    if n > 0 {
      RunIs(text, i + 1, n - 1);
    }
  }

  /** The next backtick ends the text before it. */
  lemma TickAfter(text: string, i: nat, j: nat)
    requires i <= j < |text| && text[j] == '`' && forall k :: i <= k < j ==> text[k] != '`'
    ensures NextTick(text, i) == j
  {
    var t := NextTick(text, i);
    assert t <= j;
  }

  /** The line at p is a fence of three ticks and nothing more, and no line after it closes one. */
  lemma OneOpenBlock(text: string, p: nat)
    requires p + 3 < |text| && text[p..p + 3] == "```" && text[p + 3] == '\n'
    requires (forall k :: p + 4 <= k < |text| ==> text[k] != '\n') && NoThree(text[p + 4..])
    ensures Blocks(text, p) == [Block(p, |text|)]
  {
    hide Blocks, Opening, BlockEnd, LineEnd, Closing, NoThree;
    assert text[p] == text[p..p + 3][0] && text[p + 1] == text[p..p + 3][1] && text[p + 2] == text[p..p + 3][2];
    LineEndIs(text, p, p + 3);
    LineEndIs(text, p + 4, |text|);
    ThreeTicksOpen();
    BlocksStep(text, p);
    BlockEndStep(text, p + 3, '`', 3);
    assert text[p + 4..|text|] == text[p + 4..];
    NoThreeClosesNothing(text[p + 4..], 3);
    NoMoreLines(text, '`', 3);
    NothingPendingAtTheEnd(text);
  }

  lemma ThreeTicksOpen()
    ensures Opening("```") == Some(OpeningFence(0, '`', 3))
  {
    assert Leading("```", ' ') == 0;
    assert "```"[1..] == "``" && "``"[1..] == "`" && "`"[1..] == "";
    assert Leading("`", '`') == 1;
    assert Leading("``", '`') == 2;
    assert Leading("```", '`') == 3;
    assert "```"[0..] == "```";
  }

  /** Where the parts of a text with a span over a fence stand. */
  lemma SpanLayout(a: string, b: string, c: string, d: string)
    requires Bare(a) && Bare(b) && Bare(c) && Bare(d)
    ensures
      var text := a + "`" + b + "\n```\n" + c + "`" + d;
      var i := |a|;
      var f := i + |b| + 2;
      var t := f + 4 + |c|;
      && |text| == t + 1 + |d|
      && BareFrom(text, 0, i) && text[i] == '`' && BareFrom(text, i + 1, f - 1) && text[f - 1] == '\n'
      && text[f..f + 3] == "```" && text[f + 3] == '\n'
      && BareFrom(text, f + 4, t) && text[t] == '`' && BareFrom(text, t + 1, |text|)
  {
    var text := a + "`" + b + "\n```\n" + c + "`" + d;
    var i := |a|;
    var f := i + |b| + 2;
    var t := f + 4 + |c|;
    assert forall k :: 0 <= k < i ==> text[k] == a[k];
    assert forall k :: i + 1 <= k < f - 1 ==> text[k] == b[k - i - 1];
    assert forall k :: f + 4 <= k < t ==> text[k] == c[k - f - 4];
    assert forall k :: t + 1 <= k < |text| ==> text[k] == d[k - t - 1];
  }

  /** The line at 0 has one tick, and then comes a fence that nothing closes. */
  lemma FenceAfterALine(text: string, i: nat, f: nat, t: nat)
    requires i < f && f + 3 < t < |text|
    requires BareFrom(text, 0, i) && text[i] == '`' && BareFrom(text, i + 1, f - 1) && text[f - 1] == '\n'
    requires text[f..f + 3] == "```" && text[f + 3] == '\n'
    requires BareFrom(text, f + 4, t) && text[t] == '`' && BareFrom(text, t + 1, |text|)
    ensures Blocks(text, 0) == [Block(f, |text|)]
  {
    hide Blocks, Opening, LineEnd;
    LineEndIs(text, 0, f - 1);
    assert NoThree(text[0..f - 1]);
    NoThreeOpensNothing(text[0..f - 1]);
    BlocksStep(text, 0);
    assert NoThree(text[f + 4..]);
    OneOpenBlock(text, f);
  }

  lemma TicksOf(text: string, f: nat)
    requires f + 3 < |text| && text[f..f + 3] == "```" && text[f + 3] != '`'
    ensures text[f] == '`' && RunLength(text, f, '`') == 3
  {
    assert text[f] == text[f..f + 3][0] && text[f + 1] == text[f..f + 3][1] && text[f + 2] == text[f..f + 3][2];
    RunIs(text, f, 3);
  }

  lemma SpanEndStep(text: string, i: nat, j: nat, n: nat)
    requires i <= j < |text| && text[j] == '`' && forall k :: i <= k < j ==> text[k] != '`'
    ensures j + RunLength(text, j, '`') <= |text|
    ensures SpanEnd(text, i, n) ==
            if RunLength(text, j, '`') == n then j + n else SpanEnd(text, j + RunLength(text, j, '`'), n)
  {
    hide RunLength;
    TicksFit(text, j);
    TickAfter(text, i, j);
  }

  lemma TickOfOne(text: string, i: nat)
    requires i < |text| && text[i] == '`' && (i + 1 < |text| ==> text[i + 1] != '`')
    ensures RunLength(text, i, '`') == 1 && !Opens(text, i) && CodeEnd(text, i) == SpanEnd(text, i + 1, 1)
  {
    hide SpanEnd, FenceEnd, AtLineStart;
    RunIs(text, i, 1);
  }

  lemma OneSpan(text: string, i: nat, f: nat, t: nat)
    requires i < f && f + 3 < t < |text|
    requires BareFrom(text, 0, i) && text[i] == '`' && BareFrom(text, i + 1, f - 1) && text[f - 1] == '\n'
    requires text[f..f + 3] == "```" && text[f + 3] == '\n'
    requires BareFrom(text, f + 4, t) && text[t] == '`' && BareFrom(text, t + 1, |text|)
    ensures ScanCodes(text, 0) == [Stretch(i, t + 1, false)]
  {
    hide ScanCodes, CodeEnd, RunLength, SpanEnd;
    NoCodeIn(text, 0, i);
    TicksOf(text, f);
    TickOfOne(text, i);
    TickOfOne(text, t);
    SpanEndStep(text, i + 1, f, 1);
    SpanEndStep(text, f + 3, t, 1);
    ScanCodesStep(text, i);
    NoCodeIn(text, t + 1, |text|);
    NothingFound(text);
  }

  /** A span that runs over a fence: section 4.5 has a block from the fence on, the scanner a span and prose after it. */
  lemma SpanOverAFence(a: string, b: string, c: string, d: string)
    requires Bare(a) && Bare(b) && Bare(c) && Bare(d)
    ensures
      var text := a + "`" + b + "\n```\n" + c + "`" + d;
      var fence := |a| + |b| + 2;
      && Blocks(text, 0) == [Block(fence, |text|)]
      && Codes(text, Segments(text), 0) == [Stretch(|a|, fence + 5 + |c|, false)]
  {
    hide *;
    var text := a + "`" + b + "\n```\n" + c + "`" + d;
    var f := |a| + |b| + 2;
    SpanLayout(a, b, c, d);
    FenceAfterALine(text, |a|, f, f + 4 + |c|);
    OneSpan(text, |a|, f, f + 4 + |c|);
    SegmentsAreTheScan(text);
    CodesOfScan(text, 0, 0);
  }

  lemma ThreesLayout(code: string, rest: string)
    requires code != "" && Bare(code) && Bare(rest)
    ensures
      var text := "```" + code + "```" + rest;
      var j := 3 + |code|;
      && |text| == j + 3 + |rest|
      && AllAt(text, 0, 3, '`') && BareFrom(text, 3, j) && j > 3 && AllAt(text, j, 3, '`') && BareFrom(text, j + 3, |text|)
  {
    var text := "```" + code + "```" + rest;
    var j := 3 + |code|;
    assert forall k :: 3 <= k < j ==> text[k] == code[k - 3];
    assert forall k :: j + 3 <= k < |text| ==> text[k] == rest[k - j - 3];
  }

  lemma OneBlockToTheEnd(text: string, j: nat)
    requires 3 < j && j + 3 <= |text|
    requires AllAt(text, 0, 3, '`') && BareFrom(text, 3, j) && AllAt(text, j, 3, '`') && BareFrom(text, j + 3, |text|)
    ensures ScanCodes(text, 0) == [Stretch(0, |text|, true)] && SpanEnd(text, 3, 3) == j + 3
    ensures !PlainInfo(text, 0) && Pending(text, 0) == []
  {
    hide ScanCodes, RunLength, SpanEnd, LineEnd, Blocks, Opening, LineAt;
    RunIs(text, 0, 3);
    RunIs(text, j, 3);
    SpanEndStep(text, 3, j, 3);
    LineEndIs(text, 3, |text|);
    LineEndIs(text, 0, |text|);
    StartsALine(text);
    assert Fence(text, 0) == 3;
    assert text[j] == '`';
    FenceCode(text, 0);
    FenceEndStep(text, 3, '`', 3);
    ScanCodesStep(text, 0);
    NothingFound(text);
    OpeningAt(text, 0);
    PendingOnStart(text, 0);
    NoNext(text, 0);
  }

  /**
    A line that begins with a code span of three backticks: section 4.5 has no block, and section 6.1 the span alone;
    the scanner has a block that takes the rest of the text with it.
   */
  lemma SpanOfThreeAtALineStart(code: string, rest: string)
    requires code != "" && Bare(code) && Bare(rest)
    ensures
      var text := "```" + code + "```" + rest;
      && Blocks(text, 0) == [] && SpanEnd(text, 3, 3) == 6 + |code|
      && Codes(text, Segments(text), 0) == [Stretch(0, |text|, true)]
  {
    hide *;
    var text := "```" + code + "```" + rest;
    ThreesLayout(code, rest);
    OneBlockToTheEnd(text, 3 + |code|);
    PendingAtTheStart(text);
    SegmentsAreTheScan(text);
    CodesOfScan(text, 0, 0);
  }

  lemma PaddedLayout(w: char, rest: string)
    requires Bare(rest)
    ensures
      var text := "```\n```" + [w] + "\n" + rest;
      |text| == 9 + |rest| && (rest != "" ==> OddBlock(text, w))
  {
    var text := "```\n```" + [w] + "\n" + rest;
    assert forall k :: 9 <= k < |text| ==> text[k] == rest[k - 9];
  }

  lemma OddlyPadded(w: char)
    requires Text.IsSpace(w) && w != ' ' && w != '\t' && w != '\r'
    ensures Closer("```" + [w], '`', 3) && !Closing("```" + [w], '`', 3)
  {
    var line := "```" + [w];
    RunIs(line, 0, 3);
    assert RunLength(line, 0, ' ') == 0;
    ClosingIs(line, '`', 3);
    assert line[0 + 3..] == [w];
  }

  predicate OddBlock(text: string, w: char) {
    && |text| > 9 && text[0..3] == "```" && text[3] == '\n' && text[4..8] == "```" + [w] && text[8] == '\n'
    && AllAt(text, 0, 3, '`') && BareFrom(text, 9, |text|)
  }

  lemma OddLines(text: string, w: char)
    requires OddBlock(text, w) && w != '\n'
    ensures LineEnd(text, 0) == LineEnd(text, 3) == 3 && LineEnd(text, 4) == 8 && LineEnd(text, 9) == |text| > 9
    ensures LineAt(text, 0) == "```" && LineAt(text, 4) == "```" + [w] && NoThree(LineAt(text, 9))
  {
    hide LineEnd;
    assert forall k :: 4 <= k < 8 ==> text[k] == text[4..8][k - 4];
    LineEndIs(text, 0, 3);
    LineEndIs(text, 3, 3);
    LineEndIs(text, 4, 8);
    LineEndIs(text, 9, |text|);
  }

  lemma OddStart(text: string, w: char)
    requires OddBlock(text, w)
    ensures AtLineStart(text, 0) && text[0] == '`' && Fence(text, 0) == 3
  {
    StartsALine(text);
    RunIs(text, 0, 3);
    hide RunLength;
  }

  lemma OddBare(text: string, w: char)
    requires OddBlock(text, w)
    ensures |text| > 9 && BareFrom(text, 9, |text|)
  {
  }

  lemma OddScan(text: string, w: char)
    requires Text.IsSpace(w) && w != ' ' && w != '\t' && w != '\r' && w != '\n' && OddBlock(text, w)
    ensures ScanCodes(text, 0) == [Stretch(0, 9, true)]
  {
    hide *;
    OddBare(text, w);
    OddlyPadded(w);
    OddLines(text, w);
    OddStart(text, w);
    OpensIs(text, 0);
    FenceCode(text, 0);
    FenceEndStep(text, 3, '`', 3);
    ScanCodesStep(text, 0);
    NoCodeIn(text, 9, |text|);
    NothingFound(text);
  }

  lemma OddBlocks(text: string, w: char)
    requires Text.IsSpace(w) && w != ' ' && w != '\t' && w != '\r' && w != '\n' && OddBlock(text, w)
    ensures Blocks(text, 0) == [Block(0, |text|)]
  {
    hide *;
    OddBare(text, w);
    OddlyPadded(w);
    OddLines(text, w);
    ThreeTicksOpen();
    BlocksStep(text, 0);
    BlockEndStep(text, 3, '`', 3);
    BlockEndStep(text, 8, '`', 3);
    NoThreeClosesNothing(LineAt(text, 9), 3);
    NoMoreLines(text, '`', 3);
    NothingPendingAtTheEnd(text);
  }

  /** Other white space after a closing fence, a form feed say: the scanner's block ends there, section 4.5's does not. */
  lemma OtherSpaceAfterAFence(w: char, rest: string)
    requires Text.IsSpace(w) && w != ' ' && w != '\t' && w != '\r' && w != '\n' && rest != "" && Bare(rest)
    ensures
      var text := "```\n```" + [w] + "\n" + rest;
      Blocks(text, 0) == [Block(0, |text|)] && Codes(text, Segments(text), 0) == [Stretch(0, 9, true)]
  {
    hide *;
    var text := "```\n```" + [w] + "\n" + rest;
    PaddedLayout(w, rest);
    OddScan(text, w);
    OddBlocks(text, w);
    SegmentsAreTheScan(text);
    CodesOfScan(text, 0, 0);
  }
}
