/**
  The review contract (internal/review/findings.go): what Parse keeps of a model's answer, where the kept
  findings are anchored, how they are ordered, and what their suggestions do to the file. Decoding the JSON
  and rewriting references in prose are parameters.
 */
module Findings {
  import opened Prelude
  import opened Text
  import opened UnifiedDiff
  import opened DiffFacts
  import ProseScanner

  datatype Severity = Blocking | Important | Nit | OtherSeverity(name: string)

  datatype Category =
    | Correctness | Security | Performance | Reliability | Maintainability | Tests | OtherCategory(name: string)

  datatype Finding = Finding(
    path: string, line: int, severity: Severity, category: Category, title: string, explanation: string,
    suggestedFix: string, endLine: int, replacement: string, insertAfter: string, agentPrompt: string, rules: seq<string>)

  datatype Options = Options(requireSuggestedFix: bool, focused: bool, rules: seq<string>)

  datatype Reason = Unanchored | Incomplete | NoSuggestedFix | BadSeverity | BadCategory | OutsideFocus

  datatype Dropped = Dropped(finding: Finding, reason: Reason)

  type Anchors = map<string, map<int, string>>

  /** Severity.Rank: most serious first, an unknown one last. */
  function Rank(s: Severity): nat {
    match s
    case Blocking => 0
    case Important => 1
    case Nit => 2
    case OtherSeverity(_) => 3
  }

  predicate InFocus(c: Category) {
    c.Correctness? || c.Security? || c.Reliability?
  }

  // ---- stripFences ----

  /** strings.Trim of newlines. */
  function TrimNewlines(s: string): string
    decreases |s|
  {
    if s == "" then s
    else if s[0] == '\n' then TrimNewlines(s[1..])
    else if s[|s| - 1] == '\n' then TrimNewlines(s[..|s| - 1])
    else s
  }

  predicate FenceLine(line: string) {
    var t := TrimSpace(line);
    |t| >= 3 && t[0] == '`' && t[1] == '`' && t[2] == '`'
  }

  /** Up to k there is only white space, and there stand three backticks. */
  predicate FenceAt(line: string, k: nat) {
    k + 3 <= |line| && line[k] == line[k + 1] == line[k + 2] == '`' && forall j :: 0 <= j < k ==> IsSpace(line[j])
  }

  /** A line that begins a backtick fence, however it is indented. */
  ghost predicate BeginsFence(line: string) {
    exists k: nat :: FenceAt(line, k)
  }

  function WithoutFences(lines: seq<string>): seq<string> {
    if lines == [] then []
    else
      var last := lines[|lines| - 1];
      WithoutFences(lines[..|lines| - 1]) + if FenceLine(last) then [] else [last]
  }

  function StripFences(code: string): string {
    TrimNewlines(Join(WithoutFences(Split(TrimNewlines(code)))))
  }

  lemma WithoutFencesSnoc(lines: seq<string>, line: string)
    ensures WithoutFences(lines + [line]) == WithoutFences(lines) + if FenceLine(line) then [] else [line]
  {
    hide FenceLine;
    assert (lines + [line])[..|lines|] == lines;
  }

  lemma StripIs(code: string)
    ensures StripFences(code) == TrimNewlines(Join(WithoutFences(Split(TrimNewlines(code)))))
    ensures WithoutFences([]) == []
  {
  }

  method StripFencesOf(code: string) returns (stripped: string)
    ensures stripped == StripFences(code)
  {
    hide *;
    StripIs(code);
    var lines := Split(TrimNewlines(code));
    var kept: seq<string> := [];
    for i := 0 to |lines|
      invariant kept == WithoutFences(lines[..i])
    {
      WithoutFencesSnoc(lines[..i], lines[i]);
      assert lines[..i + 1] == lines[..i] + [lines[i]];
      if !FenceLine(lines[i]) {
        kept := kept + [lines[i]];
      }
    }
    assert lines[..|lines|] == lines;
    stripped := TrimNewlines(Join(kept));
  }

  lemma SplitNewlineFirst(rest: string)
    ensures Split("\n" + rest) == [""] + Split(rest)
  {
    assert "" + "\n" + rest == "\n" + rest;
    SplitLine("", rest);
  }

  lemma {:induction false} SplitNewlineLast(s: string)
    ensures Split(s + "\n") == Split(s) + [""]
    decreases |s|
  {
    hide *;
    var i := IndexOf(s, '\n');
    SplitOneLine("");
    if i < 0 {
      assert s + "\n" + "" == s + "\n";
      SplitLine(s, "");
      SplitOneLine(s);
    } else {
      var head, rest := s[..i], s[i + 1..];
      SplitNewlineLast(rest);
      assert s == head + "\n" + rest;
      assert s + "\n" == head + "\n" + (rest + "\n");
      SplitLine(head, rest);
      SplitLine(head, rest + "\n");
      Assoc([head], Split(rest), [""]);
    }
  }

  /** Trimming newlines only takes empty lines away. */
  lemma {:induction false} TrimmedLines(s: string)
    ensures forall l :: l in Split(TrimNewlines(s)) ==> l in Split(s)
    decreases |s|
  {
    hide Split;
    if s == "" {
    } else if s[0] == '\n' {
      assert s == "\n" + s[1..];
      SplitNewlineFirst(s[1..]);
      TrimmedLines(s[1..]);
    } else if s[|s| - 1] == '\n' {
      assert s == s[..|s| - 1] + "\n";
      SplitNewlineLast(s[..|s| - 1]);
      TrimmedLines(s[..|s| - 1]);
    }
  }

  lemma {:induction false} WithoutFencesKeeps(lines: seq<string>)
    ensures forall l :: l in WithoutFences(lines) <==> l in lines && !FenceLine(l)
    decreases |lines|
  {
    hide FenceLine;
    if lines != [] {
      var before, last := lines[..|lines| - 1], lines[|lines| - 1];
      WithoutFencesKeeps(before);
      assert lines == before + [last];
    }
  }

  lemma NoFenceInNothing()
    ensures Split("") == [""] && !FenceLine("") && Join([]) == ""
  {
  }

  /** What is left holds no line that begins a backtick fence, however it is indented, and no line that was not there. */
  lemma StrippedHasNoFenceLine(code: string)
    ensures forall l :: l in Split(StripFences(code)) ==> !FenceLine(l) && (l in Split(code) || l == "")
  {
    hide *;
    var lines := Split(TrimNewlines(code));
    var kept := WithoutFences(lines);
    StripIs(code);
    TrimmedLines(code);
    WithoutFencesKeeps(lines);
    TrimmedLines(Join(kept));
    NoFenceInNothing();
    if kept != [] {
      LinesHoldNoNewline(TrimNewlines(code));
      SplitJoin(kept);
    }
  }

  lemma LinesHoldNoNewline(s: string)
    ensures forall l :: l in Split(s) ==> '\n' !in l
  {
  }

  lemma BothTrimmed(s: string, left: string, t: string)
    requires |left| <= |s| && left == s[|s| - |left|..] && t <= left
    requires forall j :: 0 <= j < |s| - |left| ==> IsSpace(s[j])
    requires forall j :: |t| <= j < |left| ==> IsSpace(left[j])
    ensures
      var k := |s| - |left|;
      && k + |t| <= |s| && s[k..k + |t|] == t
      && forall j :: 0 <= j < k || k + |t| <= j < |s| ==> IsSpace(s[j])
  {
    hide IsSpace;
    var k := |s| - |left|;
    assert left[..|t|] == t;
    forall j | k + |t| <= j < |s| ensures IsSpace(s[j]) {
      assert IsSpace(left[j - k]);
    }
  }

  /** What stands around the trimmed text. */
  lemma TrimmedAt(s: string) returns (k: nat)
    ensures k + |TrimSpace(s)| <= |s| && s[k..k + |TrimSpace(s)|] == TrimSpace(s)
    ensures forall j :: 0 <= j < k || k + |TrimSpace(s)| <= j < |s| ==> IsSpace(s[j])
  {
    hide IsSpace, TrimLeft, TrimRight;
    k := |s| - |TrimLeft(s)|;
    BothTrimmed(s, TrimLeft(s), TrimSpace(s));
  }

  /** A fence line is one that begins a fence. */
  lemma FenceLineIff(line: string)
    ensures FenceLine(line) <==> BeginsFence(line)
  {
    hide TrimSpace, TrimLeft, TrimRight;
    var k := TrimmedAt(line);
    TickIsNoSpace();
    var t := TrimSpace(line);
    assert forall j :: 0 <= j < |t| ==> t[j] == line[k + j];
    if FenceLine(line) {
      assert FenceAt(line, k);
    }
    if q: nat :| FenceAt(line, q) {
      hide IsSpace;
      assert line[q] == line[q + 1] == line[q + 2] == '`';
      TrimReaches(line, k, t, q);
    }
  }

  lemma TrimReaches(line: string, k: nat, t: string, q: nat)
    requires k + |t| <= |line| && line[k..k + |t|] == t && FenceAt(line, q)
    requires forall j :: 0 <= j < k || k + |t| <= j < |line| ==> IsSpace(line[j])
    requires t != "" ==> !IsSpace(t[0])
    ensures |t| >= 3 && t[0] == t[1] == t[2] == '`'
  {
    TickIsNoSpace();
    hide IsSpace;
    assert !IsSpace(line[q]) && !IsSpace(line[q + 2]);
    assert k <= q && q + 2 < k + |t|;
    assert t[0] == line[k];
    assert q <= k;
    assert t[1] == line[k + 1] && t[2] == line[k + 2];
  }

  /** Code that begins no fence, and neither begins nor ends with a newline. */
  ghost predicate PlainCode(code: string) {
    && (forall l :: l in Split(code) ==> !BeginsFence(l))
    && (code != "" ==> code[0] != '\n' && code[|code| - 1] != '\n')
  }

  lemma {:induction false} WithoutFencesOfPlain(lines: seq<string>)
    requires forall l :: l in lines ==> !FenceLine(l)
    ensures WithoutFences(lines) == lines
    decreases |lines|
  {
    hide FenceLine, WithoutFences;
    if lines == [] {
      StripIs("");
    } else {
      var before, last := lines[..|lines| - 1], lines[|lines| - 1];
      assert lines == before + [last];
      assert last in lines && forall l :: l in before ==> l in lines;
      WithoutFencesOfPlain(before);
      WithoutFencesSnoc(before, last);
    }
  }

  lemma NothingToTrim(code: string)
    requires code != "" ==> code[0] != '\n' && code[|code| - 1] != '\n'
    ensures TrimNewlines(code) == code
  {
  }

  lemma PlainHasNoFenceLine(code: string)
    requires PlainCode(code)
    ensures forall l :: l in Split(code) ==> !FenceLine(l)
    ensures TrimNewlines(code) == code
  {
    hide FenceLine, BeginsFence, Split;
    forall l | l in Split(code) ensures !FenceLine(l) {
      FenceLineIff(l);
    }
    NothingToTrim(code);
  }

  /** Code without fences is left as it is. */
  lemma PlainCodeIsKept(code: string)
    requires PlainCode(code)
    ensures StripFences(code) == code
  {
    hide *;
    StripIs(code);
    PlainHasNoFenceLine(code);
    WithoutFencesOfPlain(Split(code));
    JoinSplit(code);
  }

  lemma {:induction false} SplitBoth(a: string, b: string)
    ensures Split(a + "\n" + b) == Split(a) + Split(b)
    decreases |a|
  {
    hide *;
    var i := IndexOf(a, '\n');
    if i < 0 {
      NoIndex(a);
      SplitOneLine(a);
      SplitLine(a, b);
    } else {
      FirstNewline(a);
      var head, rest := a[..i], a[i + 1..];
      assert a == head + "\n" + rest;
      assert a + "\n" + b == head + "\n" + (rest + "\n" + b);
      SplitBoth(rest, b);
      SplitLine(head, rest);
      SplitLine(head, rest + "\n" + b);
      Assoc([head], Split(rest), Split(b));
    }
  }

  lemma NoIndex(a: string)
    ensures IndexOf(a, '\n') < 0 ==> '\n' !in a
  {
  }

  lemma FirstNewline(a: string)
    requires IndexOf(a, '\n') >= 0
    ensures var i := IndexOf(a, '\n'); 0 <= i < |a| && a[i] == '\n' && '\n' !in a[..i]
  {
  }

  lemma FencedLines(open: string, lines: seq<string>, close: string)
    requires FenceLine(open) && FenceLine(close) && forall l :: l in lines ==> !FenceLine(l)
    ensures WithoutFences([open] + lines + [close]) == lines
  {
    hide FenceLine;
    WithoutFencesSnoc([open] + lines, close);
    WithoutOpener(open, lines);
  }

  lemma {:induction false} WithoutOpener(open: string, lines: seq<string>)
    requires FenceLine(open) && forall l :: l in lines ==> !FenceLine(l)
    ensures WithoutFences([open] + lines) == lines
    decreases |lines|
  {
    hide FenceLine;
    if lines == [] {
      assert [open] + lines == [] + [open];
      WithoutFencesSnoc([], open);
    } else {
      var before, last := lines[..|lines| - 1], lines[|lines| - 1];
      WithoutOpener(open, before);
      assert [open] + lines == ([open] + before) + [last];
      WithoutFencesSnoc([open] + before, last);
    }
  }

  /** Code in a fenced block comes out of it as it went in. */
  lemma FencedCodeIsUnwrapped(open: string, code: string, close: string)
    requires BeginsFence(open) && BeginsFence(close) && '\n' !in open && '\n' !in close && PlainCode(code)
    ensures StripFences(open + "\n" + code + "\n" + close) == code
  {
    hide *;
    var block := open + "\n" + code + "\n" + close;
    StripIs(block);
    BlockIsTrimmed(open, code, close);
    PlainHasNoFenceLine(code);
    FenceLineIff(open);
    FenceLineIff(close);
    SplitBoth(open + "\n" + code, close);
    SplitBoth(open, code);
    SplitOneLine(open);
    SplitOneLine(close);
    FencedLines(open, Split(code), close);
    JoinSplit(code);
  }

  lemma BlockIsTrimmed(open: string, code: string, close: string)
    requires BeginsFence(open) && BeginsFence(close) && '\n' !in open && '\n' !in close
    ensures TrimNewlines(open + "\n" + code + "\n" + close) == open + "\n" + code + "\n" + close
  {
    var block := open + "\n" + code + "\n" + close;
    assert open != "" && close != "";
    assert block[0] == open[0] && block[|block| - 1] == close[|close| - 1];
    NothingToTrim(block);
  }

  // ---- citedRules ----

  function CitedRules(cited: seq<string>, given: seq<string>): seq<string> {
    if cited == [] then []
    else
      var out := CitedRules(cited[..|cited| - 1], given);
      var id := TrimSpace(cited[|cited| - 1]);
      if id in given && id !in out then out + [id] else out
  }

  method CitedRulesOf(cited: seq<string>, given: seq<string>) returns (out: seq<string>)
    ensures out == CitedRules(cited, given)
  {
    hide TrimSpace;
    out := [];
    for i := 0 to |cited|
      invariant out == CitedRules(cited[..i], given)
    {
      assert cited[..i + 1][..i] == cited[..i];
      var id := TrimSpace(cited[i]);
      if id in given && id !in out {
        out := out + [id];
      }
    }
    assert cited[..|cited|] == cited;
  }

  /** Exactly the given rules that are cited, once each. */
  lemma {:induction false} CitedRulesAreTheGivenOnesCited(cited: seq<string>, given: seq<string>)
    ensures
      var out := CitedRules(cited, given);
      && (forall id :: id in out <==> id in given && exists c :: c in cited && TrimSpace(c) == id)
      && (forall i, j :: 0 <= i < j < |out| ==> out[i] != out[j])
    decreases |cited|
  {
    hide TrimSpace;
    if cited != [] {
      var before, last := cited[..|cited| - 1], cited[|cited| - 1];
      CitedRulesAreTheGivenOnesCited(before, given);
      assert cited == before + [last];
      assert forall c :: c in cited <==> c in before || c == last;
    }
  }

  /** In the order first cited: what is read so far stays in front. */
  lemma {:induction false} CitedRulesGrow(cited: seq<string>, given: seq<string>, k: nat)
    requires k <= |cited|
    ensures CitedRules(cited[..k], given) <= CitedRules(cited, given)
    decreases |cited|
  {
    hide TrimSpace;
    if k == |cited| {
      assert cited[..k] == cited;
    } else {
      assert cited[..|cited| - 1][..k] == cited[..k];
      CitedRulesGrow(cited[..|cited| - 1], given, k);
    }
  }

  // ---- What Parse keeps ----

  /** One field after another, trimmed, redirected and stripped. */
  function Normal(f: Finding, opts: Options, prose: string -> string): Finding {
    f.(path := TrimSpace(f.path), title := prose(f.title), explanation := prose(f.explanation),
       suggestedFix := prose(f.suggestedFix), replacement := StripFences(f.replacement),
       insertAfter := StripFences(f.insertAfter), agentPrompt := TrimSpace(f.agentPrompt),
       rules := CitedRules(f.rules, opts.rules))
  }

  function ShownIn(anchors: Anchors, path: string): map<int, string> {
    if path in anchors then anchors[path] else map[]
  }

  predicate Anchored(anchors: Anchors, path: string, line: int) {
    line in ShownIn(anchors, path)
  }

  /** The first reason that applies, of a finding already normal; None to keep it. */
  function ReasonOf(f: Finding, anchors: Anchors, opts: Options): Option<Reason> {
    if f.severity.OtherSeverity? then Some(BadSeverity)
    else if f.category.OtherCategory? then Some(BadCategory)
    else if opts.focused && !InFocus(f.category) then Some(OutsideFocus)
    else if f.path == "" || f.line <= 0 || f.title == "" || f.explanation == "" then Some(Incomplete)
    else if opts.requireSuggestedFix && f.suggestedFix == "" && f.replacement == "" && f.insertAfter == "" then
      Some(NoSuggestedFix)
    else if !Anchored(anchors, f.path, f.line) then Some(Unanchored)
    else None
  }

  /** An insertion alone becomes a replacement of its line by the line and what is added. */
  function Fold(f: Finding, text: string): Finding {
    if f.insertAfter == "" then f
    else if f.replacement != "" then f.(insertAfter := "")
    else f.(endLine := 0, replacement := text + "\n" + f.insertAfter, insertAfter := "")
  }

  predicate CoversRange(shown: map<int, string>, from: int, to: int) {
    forall l :: from <= l <= to ==> l in shown
  }

  /** A range the diff does not wholly show is cleared, and with it the replacement. */
  function Ranged(f: Finding, shown: map<int, string>): Finding {
    var g := if f.endLine <= f.line then f.(endLine := 0) else f;
    if CoversRange(shown, g.line + 1, g.endLine) then g else g.(endLine := 0, replacement := "")
  }

  function Kept(f: Finding, anchors: Anchors): Finding
    requires Anchored(anchors, f.path, f.line)
  {
    var shown := ShownIn(anchors, f.path);
    Ranged(Fold(f, shown[f.line]), shown)
  }

  function KeepOne(f: Finding, anchors: Anchors, opts: Options): seq<Finding> {
    if ReasonOf(f, anchors, opts).None? then [Kept(f, anchors)] else []
  }

  function DropOne(f: Finding, anchors: Anchors, opts: Options): seq<Dropped> {
    match ReasonOf(f, anchors, opts)
    case None => []
    case Some(reason) => [Dropped(f, reason)]
  }

  function KeptOf(answer: seq<Finding>, anchors: Anchors, opts: Options, prose: string -> string): seq<Finding> {
    if answer == [] then []
    else
      KeptOf(answer[..|answer| - 1], anchors, opts, prose) +
      KeepOne(Normal(answer[|answer| - 1], opts, prose), anchors, opts)
  }

  function DroppedOf(answer: seq<Finding>, anchors: Anchors, opts: Options, prose: string -> string): seq<Dropped> {
    if answer == [] then []
    else
      DroppedOf(answer[..|answer| - 1], anchors, opts, prose) +
      DropOne(Normal(answer[|answer| - 1], opts, prose), anchors, opts)
  }

  method ClearUncovered(f: Finding, shown: map<int, string>) returns (g: Finding)
    ensures g == Ranged(f, shown)
  {
    g := f;
    if g.endLine <= g.line {
      g := g.(endLine := 0);
    }
    var l := g.line + 1;
    while l <= g.endLine
      invariant l >= g.line + 1 && g == (if f.endLine <= f.line then f.(endLine := 0) else f)
      invariant CoversRange(shown, g.line + 1, l - 1)
    {
      if l !in shown {
        g := g.(endLine := 0, replacement := "");
        return;
      }
      l := l + 1;
    }
  }

  /** One finding of the answer: kept, folded and cleared, or dropped with its reason. */
  method Judge(f: Finding, anchors: Anchors, opts: Options) returns (kept: seq<Finding>, dropped: seq<Dropped>)
    ensures kept == KeepOne(f, anchors, opts) && dropped == DropOne(f, anchors, opts)
  {
    hide ReasonOf, Ranged, Fold;
    var reason := ReasonOf(f, anchors, opts);
    if reason.Some? {
      return [], [Dropped(f, reason.value)];
    }
    KeptIsAnchored(f, anchors, opts);
    var shown := ShownIn(anchors, f.path);
    var text := shown[f.line];
    var g := ClearUncovered(Fold(f, text), shown);
    return [g], [];
  }

  /** Parse, of a decoded answer. */
  method Parse(answer: seq<Finding>, anchors: Anchors, opts: Options, prose: string -> string)
    returns (kept: seq<Finding>, dropped: seq<Dropped>)
    ensures kept == StableSort(KeptOf(answer, anchors, opts, prose))
    ensures dropped == DroppedOf(answer, anchors, opts, prose)
  {
    kept, dropped := [], [];
    for i := 0 to |answer|
      invariant kept == KeptOf(answer[..i], anchors, opts, prose)
      invariant dropped == DroppedOf(answer[..i], anchors, opts, prose)
    {
      hide *;
      OneMore(answer, i, anchors, opts, prose);
      var f := Normalized(answer[i], opts, prose);
      var k, d := Judge(f, anchors, opts);
      kept, dropped := kept + k, dropped + d;
    }
    assert answer[..|answer|] == answer;
    kept := StableSort(kept);
  }

  lemma OneMore(answer: seq<Finding>, i: nat, anchors: Anchors, opts: Options, prose: string -> string)
    requires i < |answer|
    ensures KeptOf(answer[..i + 1], anchors, opts, prose) ==
            KeptOf(answer[..i], anchors, opts, prose) + KeepOne(Normal(answer[i], opts, prose), anchors, opts)
    ensures DroppedOf(answer[..i + 1], anchors, opts, prose) ==
            DroppedOf(answer[..i], anchors, opts, prose) + DropOne(Normal(answer[i], opts, prose), anchors, opts)
  {
    hide KeepOne, DropOne, Normal;
    assert answer[..i + 1][..i] == answer[..i];
  }

  lemma KeptIsAnchored(f: Finding, anchors: Anchors, opts: Options)
    requires ReasonOf(f, anchors, opts).None?
    ensures Anchored(anchors, f.path, f.line)
  {
  }

  method Normalized(f: Finding, opts: Options, prose: string -> string) returns (g: Finding)
    ensures g == Normal(f, opts, prose)
  {
    hide StripFences, CitedRules, TrimSpace;
    var replacement := StripFencesOf(f.replacement);
    var insertAfter := StripFencesOf(f.insertAfter);
    var rules := CitedRulesOf(f.rules, opts.rules);
    g := f.(path := TrimSpace(f.path), title := prose(f.title), explanation := prose(f.explanation),
            suggestedFix := prose(f.suggestedFix), replacement := replacement, insertAfter := insertAfter,
            agentPrompt := TrimSpace(f.agentPrompt), rules := rules);
  }

  // ---- The order ----

  datatype Key = Key(rank: nat, path: string, line: int)

  function KeyOf(f: Finding): Key {
    Key(Rank(f.severity), f.path, f.line)
  }

  predicate Before(a: Key, b: Key) {
    a.rank < b.rank || (a.rank == b.rank && (Compare(a.path, b.path) < 0 || (a.path == b.path && a.line < b.line)))
  }

  /** Inserts x after everything it is not before. */
  function Insert(s: seq<Finding>, x: Finding): seq<Finding> {
    if s == [] || !Before(KeyOf(x), KeyOf(s[|s| - 1])) then s + [x]
    else Insert(s[..|s| - 1], x) + [s[|s| - 1]]
  }

  /** slices.SortStableFunc. */
  function StableSort(s: seq<Finding>): seq<Finding> {
    if s == [] then [] else Insert(StableSort(s[..|s| - 1]), s[|s| - 1])
  }

  ghost predicate Sorted(s: seq<Finding>) {
    forall i, j :: 0 <= i < j < |s| ==> !Before(KeyOf(s[j]), KeyOf(s[i]))
  }

  /** The findings of one rank, path and line, in order. */
  function With(s: seq<Finding>, k: Key): seq<Finding> {
    if s == [] then []
    else With(s[..|s| - 1], k) + if KeyOf(s[|s| - 1]) == k then [s[|s| - 1]] else []
  }

  /** What comes before neither way is the same key; what is not before passes through. */
  lemma NotBeforeIsTransitive(a: Key, b: Key, c: Key)
    requires !Before(b, a) && !Before(c, b)
    ensures !Before(c, a)
  {
    CompareIsAntisymmetric(a.path, b.path);
    CompareIsAntisymmetric(b.path, c.path);
    CompareIsAntisymmetric(a.path, c.path);
    if Compare(a.path, b.path) < 0 && Compare(b.path, c.path) < 0 {
      CompareIsTransitive(a.path, b.path, c.path);
    }
  }

  lemma BeforeIsOneWay(a: Key, b: Key)
    requires Before(a, b)
    ensures !Before(b, a) && a != b
  {
    CompareIsAntisymmetric(a.path, b.path);
  }

  lemma {:induction false} InsertHolds(s: seq<Finding>, x: Finding)
    ensures |Insert(s, x)| == |s| + 1
    ensures forall f :: f in Insert(s, x) <==> f in s || f == x
    decreases |s|
  {
    hide Before;
    if s != [] && Before(KeyOf(x), KeyOf(s[|s| - 1])) {
      var before, last := s[..|s| - 1], s[|s| - 1];
      InsertHolds(before, x);
      assert s == before + [last];
      assert forall f :: f in s <==> f in before || f == last;
    }
  }

  lemma SortedSnoc(s: seq<Finding>, last: Finding)
    requires Sorted(s) && forall f :: f in s ==> !Before(KeyOf(last), KeyOf(f))
    ensures Sorted(s + [last])
  {
    hide Before;
    var t := s + [last];
    forall i, j | 0 <= i < j < |t| ensures !Before(KeyOf(t[j]), KeyOf(t[i])) {
      assert t[i] in s;
    }
  }

  lemma LastIsNotBefore(s: seq<Finding>, f: Finding)
    requires Sorted(s) && s != [] && f in s
    ensures !Before(KeyOf(s[|s| - 1]), KeyOf(f)) || f == s[|s| - 1]
  {
    hide Before;
    var i :| 0 <= i < |s| && s[i] == f;
  }

  lemma {:induction false} InsertSorts(s: seq<Finding>, x: Finding)
    requires Sorted(s)
    ensures Sorted(Insert(s, x))
    decreases |s|
  {
    hide Before, KeyOf;
    if s == [] || !Before(KeyOf(x), KeyOf(s[|s| - 1])) {
      forall f | f in s ensures !Before(KeyOf(x), KeyOf(f)) {
        LastIsNotBefore(s, f);
        if f != s[|s| - 1] {
          NotBeforeIsTransitive(KeyOf(f), KeyOf(s[|s| - 1]), KeyOf(x));
        }
      }
      SortedSnoc(s, x);
    } else {
      var before, last := s[..|s| - 1], s[|s| - 1];
      InsertSorts(before, x);
      InsertHolds(before, x);
      BeforeIsOneWay(KeyOf(x), KeyOf(last));
      assert forall f :: f in before ==> !Before(KeyOf(last), KeyOf(f));
      SortedSnoc(Insert(before, x), last);
    }
  }

  lemma WithSnoc(s: seq<Finding>, x: Finding, k: Key)
    ensures With(s + [x], k) == With(s, k) + if KeyOf(x) == k then [x] else []
  {
    assert (s + [x])[..|s|] == s;
  }

  lemma {:induction false} InsertIsStable(s: seq<Finding>, x: Finding, k: Key)
    ensures With(Insert(s, x), k) == With(s + [x], k)
    decreases |s|
  {
    hide Before, KeyOf, With;
    if s != [] && Before(KeyOf(x), KeyOf(s[|s| - 1])) {
      var before, last := s[..|s| - 1], s[|s| - 1];
      assert s == before + [last];
      InsertIsStable(before, x, k);
      BeforeIsOneWay(KeyOf(x), KeyOf(last));
      WithSnoc(Insert(before, x), last, k);
      WithSnoc(before, x, k);
      WithSnoc(before, last, k);
      WithSnoc(s, x, k);
    }
  }

  /** The kept findings, ordered by severity, path and line, those of equal ones staying as they were answered. */
  lemma {:induction false} SortIsStable(s: seq<Finding>, k: Key)
    ensures Sorted(StableSort(s)) && |StableSort(s)| == |s|
    ensures forall f :: f in StableSort(s) <==> f in s
    ensures With(StableSort(s), k) == With(s, k)
    decreases |s|
  {
    hide Insert, Sorted, With;
    if s == [] {
      SortedNothing();
    } else {
      var before, last := s[..|s| - 1], s[|s| - 1];
      assert s == before + [last];
      SortIsStable(before, k);
      InsertSorts(StableSort(before), last);
      InsertHolds(StableSort(before), last);
      InsertIsStable(StableSort(before), last, k);
      WithSnoc(StableSort(before), last, k);
      WithSnoc(before, last, k);
      assert forall f :: f in s <==> f in before || f == last;
    }
  }

  /** The order of the kept findings: serious ones first, then by path and by line. */
  ghost predicate InOrder(a: Finding, b: Finding) {
    && (b.severity.Blocking? ==> a.severity.Blocking?)
    && (a.severity.Nit? ==> b.severity.Nit? || b.severity.OtherSeverity?)
    && (a.severity.OtherSeverity? ==> b.severity.OtherSeverity?)
    && (a.severity == b.severity && !a.severity.OtherSeverity? ==>
          !Earlier(b.path, a.path) && (a.path == b.path ==> a.line <= b.line))
  }

  lemma NotBeforeIsInOrder(a: Finding, b: Finding)
    requires !Before(KeyOf(b), KeyOf(a))
    ensures InOrder(a, b)
  {
    hide Compare, Earlier;
    ComparesByFirstDifference(b.path, a.path);
  }

  /** Of what Parse keeps, a blocking finding precedes an important one, and that precedes a nit. */
  lemma SeriousFindingsComeFirst(answer: seq<Finding>, anchors: Anchors, opts: Options, prose: string -> string, i: nat, j: nat)
    requires i < j < |StableSort(KeptOf(answer, anchors, opts, prose))|
    ensures
      var kept := StableSort(KeptOf(answer, anchors, opts, prose));
      InOrder(kept[i], kept[j])
  {
    hide KeptOf, StableSort, Before, KeyOf, InOrder;
    var kept := StableSort(KeptOf(answer, anchors, opts, prose));
    SortIsStable(KeptOf(answer, anchors, opts, prose), Key(0, "", 0));
    NotBeforeIsInOrder(kept[i], kept[j]);
  }

  lemma SortedNothing()
    ensures Sorted([])
  {
  }

  // ---- What Parse promises ----

  lemma {:induction false} EachIsKeptOrDropped(answer: seq<Finding>, anchors: Anchors, opts: Options, prose: string -> string)
    ensures |KeptOf(answer, anchors, opts, prose)| + |DroppedOf(answer, anchors, opts, prose)| == |answer|
    decreases |answer|
  {
    hide ReasonOf, Kept, Normal;
    if answer != [] {
      EachIsKeptOrDropped(answer[..|answer| - 1], anchors, opts, prose);
    }
  }

  predicate KeptAs(k: Finding, g: Finding, anchors: Anchors, opts: Options) {
    ReasonOf(g, anchors, opts).None? && k == Kept(g, anchors)
  }

  /** What was kept of one finding of the answer. */
  predicate KeptFrom(k: Finding, f: Finding, anchors: Anchors, opts: Options, prose: string -> string) {
    KeptAs(k, Normal(f, opts, prose), anchors, opts)
  }

  predicate DroppedFrom(d: Dropped, f: Finding, anchors: Anchors, opts: Options, prose: string -> string) {
    var g := Normal(f, opts, prose);
    ReasonOf(g, anchors, opts) == Some(d.reason) && d.finding == g
  }

  lemma OneIsKeptFrom(f: Finding, anchors: Anchors, opts: Options, prose: string -> string)
    ensures forall k :: k in KeepOne(Normal(f, opts, prose), anchors, opts) <==> KeptFrom(k, f, anchors, opts, prose)
    ensures forall d :: d in DropOne(Normal(f, opts, prose), anchors, opts) <==> DroppedFrom(d, f, anchors, opts, prose)
  {
    hide ReasonOf, Kept, Normal;
  }

  lemma {:induction false} KeptAndDroppedFrom(answer: seq<Finding>, anchors: Anchors, opts: Options, prose: string -> string)
    ensures forall k :: k in KeptOf(answer, anchors, opts, prose) <==>
              exists f :: f in answer && KeptFrom(k, f, anchors, opts, prose)
    ensures forall d :: d in DroppedOf(answer, anchors, opts, prose) <==>
              exists f :: f in answer && DroppedFrom(d, f, anchors, opts, prose)
    decreases |answer|
  {
    hide KeptFrom, DroppedFrom, KeepOne, DropOne, Normal;
    if answer != [] {
      var before, last := answer[..|answer| - 1], answer[|answer| - 1];
      assert answer == before + [last];
      assert forall f :: f in answer <==> f in before || f == last;
      KeptAndDroppedFrom(before, anchors, opts, prose);
      OneIsKeptFrom(last, anchors, opts, prose);
    }
  }

  /**
    Parse partitions the answer: each finding is kept or dropped, once; a kept one had no reason against it,
    a dropped one is reported as it was judged, with the first reason that applies.
   */
  lemma ParsePartitions(answer: seq<Finding>, anchors: Anchors, opts: Options, prose: string -> string)
    ensures
      var kept, dropped := StableSort(KeptOf(answer, anchors, opts, prose)), DroppedOf(answer, anchors, opts, prose);
      && |kept| + |dropped| == |answer|
      && (forall k :: k in kept <==> exists f :: f in answer && KeptFrom(k, f, anchors, opts, prose))
      && (forall d :: d in dropped <==> exists f :: f in answer && DroppedFrom(d, f, anchors, opts, prose))
  {
    hide *;
    EachIsKeptOrDropped(answer, anchors, opts, prose);
    KeptAndDroppedFrom(answer, anchors, opts, prose);
    SortIsStable(KeptOf(answer, anchors, opts, prose), Key(0, "", 0));
  }

  /** What a reason says of a finding already normal. */
  predicate Applies(r: Reason, f: Finding, anchors: Anchors, opts: Options) {
    match r
    case BadSeverity => f.severity !in {Blocking, Important, Nit}
    case BadCategory => f.category !in {Correctness, Security, Performance, Reliability, Maintainability, Tests}
    case OutsideFocus => opts.focused && f.category !in {Correctness, Security, Reliability}
    case Incomplete => f.path == "" || f.line < 1 || f.title == "" || f.explanation == ""
    case NoSuggestedFix => opts.requireSuggestedFix && f.suggestedFix == "" && f.replacement == "" && f.insertAfter == ""
    case Unanchored => !(f.path in anchors && f.line in anchors[f.path])
  }

  /** The order in which the reasons are looked for. */
  function Turn(r: Reason): nat {
    match r
    case BadSeverity => 0
    case BadCategory => 1
    case OutsideFocus => 2
    case Incomplete => 3
    case NoSuggestedFix => 4
    case Unanchored => 5
  }

  /** A finding is kept exactly when nothing is against it, and dropped for the first reason that is. */
  lemma DroppedForTheFirstReason(f: Finding, anchors: Anchors, opts: Options, r: Reason)
    ensures ReasonOf(f, anchors, opts).None? <==> forall q :: !Applies(q, f, anchors, opts)
    ensures ReasonOf(f, anchors, opts) == Some(r) <==>
            Applies(r, f, anchors, opts) && forall q :: Turn(q) < Turn(r) ==> !Applies(q, f, anchors, opts)
  {
    var reason := ReasonOf(f, anchors, opts);
    if reason.Some? {
      assert Applies(reason.value, f, anchors, opts);
      assert r == reason.value || Turn(r) < Turn(reason.value) || Turn(reason.value) < Turn(r);
    }
  }

  /** White space, or nothing, around a text that begins and ends without any. */
  ghost predicate TrimmedTo(s: string, t: string, from: nat) {
    && from + |t| <= |s| && s[from..from + |t|] == t
    && (forall j :: 0 <= j < from || from + |t| <= j < |s| ==> IsSpace(s[j]))
    && (t != "" ==> !IsSpace(t[0]) && !IsSpace(t[|t| - 1]))
  }

  /** What Parse makes of a finding before it judges it: what is trimmed, redirected, stripped and left alone. */
  ghost predicate Reads(g: Finding, f: Finding, opts: Options, prose: string -> string) {
    && (exists k: nat :: TrimmedTo(f.path, g.path, k))
    && (exists k: nat :: TrimmedTo(f.agentPrompt, g.agentPrompt, k))
    && g.title == prose(f.title) && g.explanation == prose(f.explanation) && g.suggestedFix == prose(f.suggestedFix)
    && g.line == f.line && g.endLine == f.endLine && g.severity == f.severity && g.category == f.category
    && g.replacement == StripFences(f.replacement) && g.insertAfter == StripFences(f.insertAfter)
    && g.rules == CitedRules(f.rules, opts.rules)
  }

  lemma NormalReads(f: Finding, opts: Options, prose: string -> string)
    ensures Reads(Normal(f, opts, prose), f, opts, prose)
  {
    hide StripFences, CitedRules, TrimSpace, IsSpace;
    var k := TrimmedAt(f.path);
    assert TrimmedTo(f.path, TrimSpace(f.path), k);
    var q := TrimmedAt(f.agentPrompt);
    assert TrimmedTo(f.agentPrompt, TrimSpace(f.agentPrompt), q);
  }

  /** The lines of a range, from the finding's line to its end, are all shown by the diff. */
  predicate RangeShown(g: Finding, shown: map<int, string>) {
    forall l :: g.line < l <= g.endLine ==> l in shown
  }

  /** What is kept of a finding that nothing is against: its range and its suggestion. */
  predicate Posts(k: Finding, g: Finding, shown: map<int, string>)
    requires g.line in shown
  {
    && k == g.(endLine := k.endLine, replacement := k.replacement, insertAfter := "")
    && if g.insertAfter != "" && g.replacement == "" then
         k.endLine == 0 && k.replacement == shown[g.line] + "\n" + g.insertAfter
       else if g.endLine <= g.line then k.endLine == 0 && k.replacement == g.replacement
       else if RangeShown(g, shown) then k.endLine == g.endLine && k.replacement == g.replacement
       else k.endLine == 0 && k.replacement == ""
  }

  lemma KeptPosts(g: Finding, anchors: Anchors, opts: Options)
    requires ReasonOf(g, anchors, opts).None?
    ensures g.path in anchors && g.line in anchors[g.path] && Posts(Kept(g, anchors), g, anchors[g.path])
  {
    var shown := anchors[g.path];
    var f := Fold(g, shown[g.line]);
    assert CoversRange(shown, f.line + 1, f.endLine) <==> RangeShown(f, shown);
  }

  /** A finding of the answer as it was read, and nothing against it; `k` is what is kept of it. */
  ghost predicate KeepsOf(k: Finding, f: Finding, anchors: Anchors, opts: Options, prose: string -> string) {
    exists g :: KeepsRead(k, g, f, anchors, opts, prose)
  }

  ghost predicate KeepsRead(
    k: Finding, g: Finding, f: Finding, anchors: Anchors, opts: Options, prose: string -> string)
  {
    && Reads(g, f, opts, prose) && g.path in anchors && g.line in anchors[g.path] && Posts(k, g, anchors[g.path])
    && forall r :: !Applies(r, g, anchors, opts)
  }

  /** The finding as it was read, with the first reason against it. */
  ghost predicate DropsOf(d: Dropped, f: Finding, anchors: Anchors, opts: Options, prose: string -> string) {
    && Reads(d.finding, f, opts, prose) && Applies(d.reason, d.finding, anchors, opts)
    && forall q :: Turn(q) < Turn(d.reason) ==> !Applies(q, d.finding, anchors, opts)
  }

  lemma KeepsWhatItRead(k: Finding, f: Finding, anchors: Anchors, opts: Options, prose: string -> string)
    requires KeptFrom(k, f, anchors, opts, prose)
    ensures KeepsOf(k, f, anchors, opts, prose)
  {
    hide Normal, ReasonOf, Kept, Reads, Posts, Applies;
    var g := Normal(f, opts, prose);
    NormalReads(f, opts, prose);
    DroppedForTheFirstReason(g, anchors, opts, Incomplete);
    KeptPosts(g, anchors, opts);
    assert KeepsRead(k, g, f, anchors, opts, prose);
  }

  lemma DropsWhatItRead(d: Dropped, f: Finding, anchors: Anchors, opts: Options, prose: string -> string)
    requires DroppedFrom(d, f, anchors, opts, prose)
    ensures DropsOf(d, f, anchors, opts, prose)
  {
    hide Normal, ReasonOf, Reads, Applies;
    NormalReads(f, opts, prose);
    DroppedForTheFirstReason(d.finding, anchors, opts, d.reason);
  }

  /**
    Parse keeps of each finding what can be posted of it, if nothing is against it, and drops it for the first reason
    if something is: every finding of the answer is one of the two, and what is kept or dropped is of a finding of it.
   */
  lemma EachFindingIsJudged(answer: seq<Finding>, anchors: Anchors, opts: Options, prose: string -> string)
    ensures
      var kept, dropped := StableSort(KeptOf(answer, anchors, opts, prose)), DroppedOf(answer, anchors, opts, prose);
      && |kept| + |dropped| == |answer|
      && (forall k :: k in kept ==> exists f :: f in answer && KeepsOf(k, f, anchors, opts, prose))
      && (forall d :: d in dropped ==> exists f :: f in answer && DropsOf(d, f, anchors, opts, prose))
      && (forall f :: f in answer ==>
            (exists k :: k in kept && KeepsOf(k, f, anchors, opts, prose)) ||
            (exists d :: d in dropped && DropsOf(d, f, anchors, opts, prose)))
  {
    hide *;
    var kept, dropped := StableSort(KeptOf(answer, anchors, opts, prose)), DroppedOf(answer, anchors, opts, prose);
    ParsePartitions(answer, anchors, opts, prose);
    forall k | k in kept ensures exists f :: f in answer && KeepsOf(k, f, anchors, opts, prose) {
      var f :| f in answer && KeptFrom(k, f, anchors, opts, prose);
      KeepsWhatItRead(k, f, anchors, opts, prose);
    }
    forall d | d in dropped ensures exists f :: f in answer && DropsOf(d, f, anchors, opts, prose) {
      var f :| f in answer && DroppedFrom(d, f, anchors, opts, prose);
      DropsWhatItRead(d, f, anchors, opts, prose);
    }
    forall f | f in answer
      ensures (exists k :: k in kept && KeepsOf(k, f, anchors, opts, prose)) ||
              (exists d :: d in dropped && DropsOf(d, f, anchors, opts, prose))
    {
      var of := JudgedOne(f, anchors, opts, prose);
      match of {
        case AsKept(k) =>
          assert k in kept;
          KeepsWhatItRead(k, f, anchors, opts, prose);
        case AsDropped(d) =>
          assert d in dropped;
          DropsWhatItRead(d, f, anchors, opts, prose);
      }
    }
  }

  datatype Judged = AsKept(k: Finding) | AsDropped(d: Dropped)

  lemma JudgedOne(f: Finding, anchors: Anchors, opts: Options, prose: string -> string) returns (j: Judged)
    ensures match j
            case AsKept(k) => KeptFrom(k, f, anchors, opts, prose)
            case AsDropped(d) => DroppedFrom(d, f, anchors, opts, prose)
  {
    hide Normal, ReasonOf, Kept;
    var g := Normal(f, opts, prose);
    match ReasonOf(g, anchors, opts) {
      case None =>
        KeptIsAnchored(g, anchors, opts);
        j := AsKept(Kept(g, anchors));
      case Some(reason) => j := AsDropped(Dropped(g, reason));
    }
  }

  function LastLine(f: Finding): int {
    if f.endLine > f.line then f.endLine else f.line
  }

  /** Every kept finding can be posted, and every line of its range is one the diff shows. */
  lemma KeptFindingsAreAnchored(k: Finding, answer: seq<Finding>, anchors: Anchors, opts: Options, prose: string -> string)
    requires k in KeptOf(answer, anchors, opts, prose)
    ensures forall l :: k.line <= l <= LastLine(k) ==> Anchored(anchors, k.path, l)
    ensures k.line > 0 && (k.endLine == 0 || k.endLine > k.line) && k.insertAfter == ""
    ensures !k.severity.OtherSeverity? && !k.category.OtherCategory? && (opts.focused ==> InFocus(k.category))
    ensures k.path != "" && k.title != "" && k.explanation != ""
    ensures forall id :: id in k.rules ==> id in opts.rules
  {
    hide Normal, CitedRules;
    KeptAndDroppedFrom(answer, anchors, opts, prose);
    var f :| f in answer && KeptFrom(k, f, anchors, opts, prose);
    var g := Normal(f, opts, prose);
    NormalRules(f, opts, prose);
    var shown := ShownIn(anchors, g.path);
    FoldKeeps(g, shown[g.line]);
    RangedIsCovered(Fold(g, shown[g.line]), shown);
    CitedRulesAreTheGivenOnesCited(f.rules, opts.rules);
  }

  lemma NormalRules(f: Finding, opts: Options, prose: string -> string)
    ensures Normal(f, opts, prose).rules == CitedRules(f.rules, opts.rules)
  {
    hide CitedRules;
  }

  lemma FoldKeeps(f: Finding, text: string)
    ensures
      var g := Fold(f, text);
      && g.insertAfter == "" && g.path == f.path && g.line == f.line && g.severity == f.severity
      && g.category == f.category && g.title == f.title && g.explanation == f.explanation && g.rules == f.rules
  {
  }

  lemma RangedIsCovered(f: Finding, shown: map<int, string>)
    requires f.line > 0 && f.line in shown
    ensures
      var g := Ranged(f, shown);
      && CoversRange(shown, g.line, LastLine(g))
      && (g.endLine == 0 || g.endLine > g.line)
      && g == f.(endLine := g.endLine, replacement := g.replacement)
  {
  }

  // ---- What a suggestion does to the file ----

  /** The forge replaces the finding's lines by the lines of its replacement. */
  function Apply(file: seq<string>, f: Finding): seq<string>
    requires 1 <= f.line && LastLine(f) <= |file|
  {
    file[..f.line - 1] + Split(f.replacement) + file[LastLine(f)..]
  }

  /** An insertion alone: its line stays, the added lines follow it, and the rest of the file is untouched. */
  lemma InsertionOnlyAdds(files: seq<FileDiff>, head: map<string, seq<string>>, f: Finding, opts: Options)
    requires WellFormed(files) && DescribesHead(AllAsRead(files), head)
    requires forall path, line :: path in head && line in head[path] ==> '\n' !in line
    requires ReasonOf(f, ShownLines(Render(files)), opts).None? && f.replacement == "" && f.insertAfter != ""
    ensures
      var k := Kept(f, ShownLines(Render(files)));
      && f.path in head && 1 <= f.line <= |head[f.path]| && k.line == LastLine(k) == f.line
      && Apply(head[f.path], k) == head[f.path][..f.line] + Split(f.insertAfter) + head[f.path][f.line..]
  {
    hide WellFormed, DescribesHead, Render, Split, ShownLines, AllAsRead, CoveredBy;
    var anchors := ShownLines(Render(files));
    assert Shown(anchors, f.path, f.line);
    ShownLinesAreTheHeadLines(files, head, f.path, f.line);
    var file := head[f.path];
    var line := file[f.line - 1];
    assert line in file;
    assert anchors[f.path][f.line] == line;
    SplitLine(line, f.insertAfter);
    assert file[..f.line] == file[..f.line - 1] + [line];
    Assoc(file[..f.line - 1], [line], Split(f.insertAfter));
  }

  // ---- The suggestion's own fence ----

  /** A fenced block; the inline template puts a replacement in one whose info string is "suggestion". */
  function FencedBlock(info: string, code: string): string {
    ProseScanner.Ticks(3) + info + "\n" + code + "\n" + ProseScanner.Ticks(3)
  }

  lemma {:induction false} TrimLeftAt(line: string, k: nat)
    requires k < |line| && !IsSpace(line[k]) && forall j :: 0 <= j < k ==> IsSpace(line[j])
    ensures TrimLeft(line) == line[k..]
    decreases |line|
  {
    if k > 0 {
      TrimLeftAt(line[1..], k - 1);
      assert line[1..][k - 1..] == line[k..];
    }
  }

  lemma {:induction false} TrimRightKeeps(t: string, n: nat)
    requires 0 < n <= |t| && !IsSpace(t[n - 1])
    ensures |TrimRight(t)| >= n
    decreases |t|
  {
    if n < |t| {
      TrimRightKeeps(t[..|t| - 1], n);
    }
  }

  lemma TicksAt(line: string, k: nat)
    requires ProseScanner.RunLength(line, 0, ' ') == k && ProseScanner.RunLength(line, k, '`') >= 3
    ensures k + 3 <= |line| && line[k] == '`' && line[k + 1] == '`' && line[k + 2] == '`'
    ensures forall j :: 0 <= j < k ==> IsSpace(line[j])
  {
    var m := ProseScanner.RunLength(line, k, '`');
    assert ProseScanner.AllAt(line, k, m, '`') && ProseScanner.AllAt(line, 0, k, ' ');
  }

  lemma CloserIsFenceLine(line: string)
    requires ProseScanner.Closer(line, '`', 3)
    ensures FenceLine(line)
  {
    hide *;
    var k := ProseScanner.RunLength(line, 0, ' ');
    CloserRuns(line);
    TicksAt(line, k);
    TickIsNoSpace();
    TrimLeftAt(line, k);
    TrimRightKeeps(line[k..], 3);
    TrimmedFence(line, k);
  }

  lemma CloserRuns(line: string)
    requires ProseScanner.Closer(line, '`', 3)
    ensures ProseScanner.RunLength(line, ProseScanner.RunLength(line, 0, ' '), '`') >= 3
  {
  }

  lemma TickIsNoSpace()
    ensures !IsSpace('`')
  {
  }

  lemma TrimmedFence(line: string, k: nat)
    requires k + 3 <= |line| && line[k] == '`' && line[k + 1] == '`' && line[k + 2] == '`'
    requires TrimLeft(line) == line[k..] && |TrimRight(line[k..])| >= 3
    ensures FenceLine(line)
  {
    hide TrimLeft, TrimRight;
    var t := TrimSpace(line);
    assert t <= line[k..];
    assert t[0] == line[k] && t[1] == line[k + 1] && t[2] == line[k + 2];
  }

  lemma LineEndAfter(s: string, a: nat, q: nat)
    requires a <= q <= |s|
    ensures ProseScanner.LineEnd(s, q) == a + ProseScanner.LineEnd(s[a..], q - a)
    ensures s[q..ProseScanner.LineEnd(s, q)] == s[a..][q - a..ProseScanner.LineEnd(s[a..], q - a)]
  {
    var e, r := ProseScanner.LineEnd(s, q), ProseScanner.LineEnd(s[a..], q - a);
    assert forall k :: 0 <= k < |s| - a ==> s[a..][k] == s[a + k];
    assert e == a + r;
  }

  lemma FirstLineOf(s: string)
    ensures ProseScanner.LineEnd(s, 0) == if IndexOf(s, '\n') < 0 then |s| else IndexOf(s, '\n')
  {
    var i, e := IndexOf(s, '\n'), ProseScanner.LineEnd(s, 0);
    if i >= 0 {
      assert e >= i by {
        assert forall k :: 0 <= k < i ==> s[k] == s[..i][k];
      }
    }
  }

  /** A line that starts in s is one of its lines. */
  lemma {:induction false} LineIsInSplit(s: string, q: nat)
    requires q <= |s| && (q == 0 || s[q - 1] == '\n')
    ensures s[q..ProseScanner.LineEnd(s, q)] in Split(s)
    decreases |s|
  {
    hide Split, ProseScanner.LineEnd;
    var i := IndexOf(s, '\n');
    if i < 0 {
      assert forall k :: 0 <= k < |s| ==> s[k] in s;
      assert q == 0;
      SplitOneLine(s);
      FirstLineOf(s);
      assert s[0..|s|] == s;
    } else {
      assert s == s[..i] + "\n" + s[i + 1..];
      SplitLine(s[..i], s[i + 1..]);
      if q == 0 {
        FirstLineOf(s);
      } else {
        assert forall k :: 0 <= k < i ==> s[k] == s[..i][k];
        assert q > i;
        assert q > i + 1 ==> s[i + 1..][q - i - 2] == s[q - 1];
        LineIsInSplit(s[i + 1..], q - i - 1);
        LineEndAfter(s, i + 1, q);
      }
    }
  }

  lemma NoLineOfTheInsertionCloses(text: string, from: nat, to: nat, insertAfter: string)
    requires 1 <= from < to <= |text| && |insertAfter| == to - from - 1 && text[from..to - 1] == insertAfter
    requires text[to - 1] == '\n'
    requires forall l :: l in Split(insertAfter) ==> !FenceLine(l)
    ensures ProseScanner.NoneCloses(text, from - 1, to, '`', 3)
  {
    hide Split, FenceLine, ProseScanner.Closer, ProseScanner.LineEnd;
    assert forall k :: 0 <= k < |insertAfter| ==> insertAfter[k] == text[from + k];
    forall p | from <= p < to && text[p - 1] == '\n'
      ensures !ProseScanner.Closer(ProseScanner.LineAt(text, p), '`', 3)
    {
      var q := p - from;
      assert q > 0 ==> insertAfter[q - 1] == text[p - 1];
      LineIsInSplit(insertAfter, q);
      SameLine(text, from, to, insertAfter, p);
      var line := ProseScanner.LineAt(text, p);
      assert line in Split(insertAfter) && !FenceLine(line);
      if ProseScanner.Closer(line, '`', 3) {
        CloserIsFenceLine(line);
      }
    }
  }

  lemma SameLine(text: string, from: nat, to: nat, part: string, p: nat)
    requires from <= p < to <= |text| && |part| == to - from - 1 && text[from..to - 1] == part && text[to - 1] == '\n'
    ensures text[p..ProseScanner.LineEnd(text, p)] == part[p - from..ProseScanner.LineEnd(part, p - from)]
  {
    var e, r := ProseScanner.LineEnd(text, p), ProseScanner.LineEnd(part, p - from);
    assert forall k :: 0 <= k < |part| ==> part[k] == text[from + k];
    assert e <= to - 1;
    assert r == e - from;
  }

  lemma NoLineStartsIn(text: string, from: nat, to: nat, c: char, n: nat)
    requires 0 < from <= to <= |text| && forall k :: from <= k < to ==> text[k] != '\n'
    ensures ProseScanner.NoneCloses(text, from, to + 1, c, n)
  {
    hide ProseScanner.Closer, ProseScanner.LineAt;
  }

  lemma NoneClosesUpTo(text: string, from: nat, mid: nat, to: nat, c: char, n: nat)
    requires mid <= |text| && from < mid < to
    requires ProseScanner.NoneCloses(text, from, mid, c, n) && !ProseScanner.ClosesAt(text, mid, c, n)
    requires ProseScanner.NoneCloses(text, mid, to, c, n)
    ensures ProseScanner.NoneCloses(text, from, to, c, n)
  {
    hide ProseScanner.ClosesAt;
  }

  /** Where the parts of a block around a line and an insertion stand. */
  lemma Layout(before: string, info: string, line: string, insertAfter: string, after: string)
    requires '\n' !in info && '\n' !in line
    ensures
      var text := before + FencedBlock(info, line + "\n" + insertAfter) + after;
      var i := |before| + 3;
      var s1 := i + |info| + 1;
      var s2 := s1 + |line| + 1;
      var s3 := s2 + |insertAfter| + 1;
      && |text| == s3 + 3 + |after|
      && (forall k :: i <= k < s1 - 1 ==> text[k] != '\n') && text[s1 - 1] == '\n'
      && text[s1..s2 - 1] == line && (forall k :: s1 <= k < s2 - 1 ==> text[k] != '\n') && text[s2 - 1] == '\n'
      && text[s2..s3 - 1] == insertAfter && text[s3 - 1] == '\n'
      && text[s3..s3 + 3] == ProseScanner.Ticks(3)
      && (|after| > 0 ==> text[s3 + 3] == after[0])
  {
    var text := before + FencedBlock(info, line + "\n" + insertAfter) + after;
    var i := |before| + 3;
    var s1 := i + |info| + 1;
    assert forall k :: i <= k < s1 - 1 ==> text[k] == info[k - i];
    assert forall k :: s1 <= k < s1 + |line| ==> text[k] == line[k - s1];
    assert text[s1..s1 + |line|] == line;
  }

  lemma LineStartsAt(text: string, s: nat, line: string)
    requires 0 < s && s + |line| < |text| && text[s - 1] == '\n' && text[s + |line|] == '\n'
    requires text[s..s + |line|] == line && forall k :: s <= k < s + |line| ==> text[k] != '\n'
    ensures ProseScanner.ClosesAt(text, s, '`', 3) <==> ProseScanner.Closer(line, '`', 3)
    ensures ProseScanner.NextLine(text, s) == s + |line| + 1
  {
    hide ProseScanner.Closer;
    assert ProseScanner.LineEnd(text, s) == s + |line|;
  }

  /**
    The suggestion of an insertion is one block, closed by its own last line, if and only if the line it keeps
    is not itself one that closes a fence of three backticks: stripFences cleans what is added, not that line.
   */
  lemma SuggestionIsOneBlockIff(before: string, info: string, line: string, code: string, after: string)
    requires '\n' !in info && '\n' !in line && (after == "" || after[0] == '\n')
    ensures
      var block := FencedBlock(info, line + "\n" + StripFences(code));
      var text := before + block + after;
      ProseScanner.FenceEnd(text, |before| + 3, '`', 3) == ProseScanner.Least(|text|, |before| + |block| + 1) <==>
      !ProseScanner.Closer(line, '`', 3)
  {
    hide *;
    var insertAfter := StripFences(code);
    var block := FencedBlock(info, line + "\n" + insertAfter);
    var text := before + block + after;
    var i := |before| + 3;
    var s1 := i + |info| + 1;
    var s2 := s1 + |line| + 1;
    var s3 := s2 + |insertAfter| + 1;
    StrippedHasNoFenceLine(code);
    Layout(before, info, line, insertAfter, after);
    NoLineStartsIn(text, i, s1 - 1, '`', 3);
    LineStartsAt(text, s1, line);
    NoLineStartsIn(text, s1, s2 - 1, '`', 3);
    NoLineOfTheInsertionCloses(text, s2, s3, insertAfter);
    ProseScanner.ClosingLine(text, s3, 3);
    Sizes(|text|, s3 + 4, s2);
    if ProseScanner.Closer(line, '`', 3) {
      ProseScanner.BlockEndsOnce(text, i, '`', 3, s1);
    } else {
      NoneJoin(text, s1, s2, s3);
      NoneClosesUpTo(text, i, s1, s3, '`', 3);
      ProseScanner.BlockEndsOnce(text, i, '`', 3, s3);
    }
  }

  lemma Sizes(size: nat, end: nat, other: nat)
    requires other < size && other < end
    ensures ProseScanner.Least(size, end) > other
  {
  }

  lemma NoneJoin(text: string, s1: nat, s2: nat, s3: nat)
    requires s1 < s2 && s2 >= 1
    requires ProseScanner.NoneCloses(text, s1, s2, '`', 3) && ProseScanner.NoneCloses(text, s2 - 1, s3, '`', 3)
    ensures ProseScanner.NoneCloses(text, s1, s3, '`', 3)
  {
    hide ProseScanner.ClosesAt;
  }

  lemma PlainLayout(before: string, info: string, code: string, after: string)
    requires '\n' !in info
    ensures
      var text := before + FencedBlock(info, code) + after;
      var i := |before| + 3;
      var s1 := i + |info| + 1;
      var s2 := s1 + |code| + 1;
      && |text| == s2 + 3 + |after|
      && (forall k :: i <= k < s1 - 1 ==> text[k] != '\n') && text[s1 - 1] == '\n'
      && text[s1..s2 - 1] == code && text[s2 - 1] == '\n' && text[s2..s2 + 3] == ProseScanner.Ticks(3)
      && (|after| > 0 ==> text[s2 + 3] == after[0])
  {
    var text := before + FencedBlock(info, code) + after;
    var i := |before| + 3;
    assert forall k :: i <= k < i + |info| ==> text[k] == info[k - i];
  }

  /** The suggestion of a plain replacement is always one block, closed by its own last line. */
  lemma ReplacementIsOneBlock(before: string, info: string, code: string, after: string)
    requires '\n' !in info && (after == "" || after[0] == '\n')
    ensures
      var block := FencedBlock(info, StripFences(code));
      var text := before + block + after;
      ProseScanner.FenceEnd(text, |before| + 3, '`', 3) == ProseScanner.Least(|text|, |before| + |block| + 1)
  {
    hide *;
    var stripped := StripFences(code);
    var text := before + FencedBlock(info, stripped) + after;
    var i := |before| + 3;
    var s1 := i + |info| + 1;
    var s2 := s1 + |stripped| + 1;
    StrippedHasNoFenceLine(code);
    PlainLayout(before, info, stripped, after);
    NoLineStartsIn(text, i, s1 - 1, '`', 3);
    NoLineOfTheInsertionCloses(text, s1, s2, stripped);
    NoneJoin(text, i, s1, s2);
    ProseScanner.ClosingLine(text, s2, 3);
    ProseScanner.BlockEndsOnce(text, i, '`', 3, s2);
  }
}
