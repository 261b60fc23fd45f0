/**
  The review prompt within its budget (internal/review/prompt.go): the diff cut at file boundaries, a
  re-review's sections, and the sections that follow while they fit. Texts whose words do not matter to the
  budget (leads, rendered entries) are parameters; their lengths are counted as they are.
 */
module PromptBudget {
  import opened Prelude
  import opened Text

  const NOTE_ROOM := 128
  const HEADROOM := 512

  // ---- splitFiles ----

  datatype Section = Section(path: string, text: string)

  const HEADER := "diff --git "

  predicate IsHeader(line: string) {
    HEADER <= line
  }

  /** Where the last " b/" of the line starts, or -1. */
  function LastB(line: string): (i: int)
    ensures -1 <= i <= |line| - 3 || i == -1
    decreases |line|
  {
    if |line| < 3 then -1
    else if line[|line| - 3] == ' ' && line[|line| - 2] == 'b' && line[|line| - 1] == '/' then |line| - 3
    else LastB(line[..|line| - 1])
  }

  function PathFromHeader(line: string): string {
    var i := LastB(line);
    if i >= 0 then line[i + 3..] else TrimPrefix(line, HEADER)
  }

  /** Lines with their newlines. */
  function LinesText(lines: seq<string>): string {
    if lines == [] then "" else LinesText(lines[..|lines| - 1]) + lines[|lines| - 1] + "\n"
  }

  /** The sections of the lines so far: a header line starts one, unless it is the first line of all. */
  function Sections(lines: seq<string>): seq<Section> {
    if lines == [] then []
    else
      var before, line := Sections(lines[..|lines| - 1]), lines[|lines| - 1];
      var path := if IsHeader(line) then PathFromHeader(line) else "?";
      if before == [] then [Section(path, line + "\n")]
      else if IsHeader(line) then before + [Section(path, line + "\n")]
      else
        var last := before[|before| - 1];
        before[..|before| - 1] + [last.(text := last.text + (line + "\n"))]
  }

  function Concat(sections: seq<Section>): string {
    if sections == [] then "" else Concat(sections[..|sections| - 1]) + sections[|sections| - 1].text
  }

  lemma ConcatSnoc(sections: seq<Section>, s: Section)
    ensures Concat(sections + [s]) == Concat(sections) + s.text
  {
    assert (sections + [s])[..|sections|] == sections;
  }

  lemma {:induction false} SectionsConcat(lines: seq<string>)
    ensures Concat(Sections(lines)) == LinesText(lines)
    ensures lines != [] ==> Sections(lines) != []
    decreases |lines|
  {
    hide Concat, IsHeader, PathFromHeader;
    if lines == [] {
      NoSections();
    } else {
      var before, line := Sections(lines[..|lines| - 1]), lines[|lines| - 1];
      var path := if IsHeader(line) then PathFromHeader(line) else "?";
      SectionsConcat(lines[..|lines| - 1]);
      Assoc(LinesText(lines[..|lines| - 1]), line, "\n");
      if before == [] {
        NoSections();
        ConcatSnoc([], Section(path, line + "\n"));
        assert [] + [Section(path, line + "\n")] == [Section(path, line + "\n")];
      } else if IsHeader(line) {
        ConcatSnoc(before, Section(path, line + "\n"));
      } else {
        var last := before[|before| - 1];
        ConcatSnoc(before[..|before| - 1], last);
        ConcatSnoc(before[..|before| - 1], last.(text := last.text + (line + "\n")));
        assert before == before[..|before| - 1] + [last];
        Assoc(Concat(before[..|before| - 1]), last.text, line + "\n");
      }
    }
  }

  lemma NoSections()
    ensures Concat([]) == "" && Sections([]) == [] && LinesText([]) == ""
  {
  }

  lemma {:induction false} JoinedLines(lines: seq<string>)
    requires lines != []
    ensures Join(lines) + "\n" == LinesText(lines)
    decreases |lines|
  {
    hide Join;
    if |lines| == 1 {
      assert lines == [lines[0]];
      JoinOne(lines[0]);
      assert LinesText(lines[..0]) == "";
    } else {
      JoinedLines(lines[1..]);
      assert lines == [lines[0]] + lines[1..];
      JoinCons(lines[0], lines[1..]);
      LinesTextCons(lines[0], lines[1..]);
      Assoc(lines[0] + "\n", Join(lines[1..]), "\n");
    }
  }

  lemma {:induction false} LinesTextCons(line: string, lines: seq<string>)
    ensures LinesText([line] + lines) == line + "\n" + LinesText(lines)
    decreases |lines|
  {
    var all := [line] + lines;
    if lines == [] {
      assert all[..0] == [];
      assert all == [line];
      assert "" + line == line;
    } else {
      LinesTextCons(line, lines[..|lines| - 1]);
      assert all[..|all| - 1] == [line] + lines[..|lines| - 1];
      Assoc(line + "\n", LinesText(lines[..|lines| - 1]), lines[|lines| - 1]);
      Assoc(line + "\n", LinesText(lines[..|lines| - 1]) + lines[|lines| - 1], "\n");
    }
  }

  function SplitFiles(diff: string): seq<Section> {
    Sections(Split(diff))
  }

  /** The sections concatenate to the diff and a newline. */
  lemma SplitFilesKeepsTheDiff(diff: string)
    ensures Concat(SplitFiles(diff)) == diff + "\n"
  {
    hide Concat, Sections, Split, LinesText;
    SectionsConcat(Split(diff));
    JoinedLines(Split(diff));
    JoinSplit(diff);
  }

  /** A line that begins the diff of a file. */
  predicate OpensAFile(line: string) {
    |line| >= 11 && line[..11] == "diff --git "
  }

  lemma HeaderOpensAFile(line: string)
    ensures IsHeader(line) <==> OpensAFile(line)
  {
    assert |HEADER| == 11;
  }

  /** Every section but the first starts at a header line, and its path is the header's. */
  predicate StartsAtHeader(s: Section, line: string) {
    OpensAFile(line) && s.path == PathFromHeader(line) && line + "\n" <= s.text
  }

  lemma {:induction false} SectionsStartAtHeaders(lines: seq<string>, i: nat)
    requires 0 < i < |Sections(lines)|
    ensures exists l :: l in lines && StartsAtHeader(Sections(lines)[i], l)
    decreases |lines|
  {
    hide IsHeader, PathFromHeader, OpensAFile;
    var before, line := lines[..|lines| - 1], lines[|lines| - 1];
    assert lines == before + [line];
    if i < |Sections(before)| {
      SectionsStartAtHeaders(before, i);
      var l :| l in before && StartsAtHeader(Sections(before)[i], l);
      assert l in lines && StartsAtHeader(Sections(lines)[i], l);
    } else {
      HeaderOpensAFile(line);
      assert StartsAtHeader(Sections(lines)[i], line);
    }
  }

  /** The lines after the first that are headers. */
  function HeadersAfterFirst(lines: seq<string>): nat {
    if |lines| <= 1 then 0
    else HeadersAfterFirst(lines[..|lines| - 1]) + if OpensAFile(lines[|lines| - 1]) then 1 else 0
  }

  /** Every header line starts a section of its own. */
  lemma {:induction false} EveryHeaderStartsASection(lines: seq<string>)
    requires lines != []
    ensures |Sections(lines)| == 1 + HeadersAfterFirst(lines)
    decreases |lines|
  {
    hide IsHeader, PathFromHeader, OpensAFile;
    var before := lines[..|lines| - 1];
    HeaderOpensAFile(lines[|lines| - 1]);
    if before != [] {
      EveryHeaderStartsASection(before);
    } else {
      NoSections();
    }
  }

  /** " b/" is at i. */
  predicate MarksB(line: string, i: int) {
    0 <= i <= |line| - 3 && line[i] == ' ' && line[i + 1] == 'b' && line[i + 2] == '/'
  }

  lemma {:induction false} LastBIs(line: string, i: nat)
    requires MarksB(line, i) && forall j :: i < j ==> !MarksB(line, j)
    ensures LastB(line) == i
    decreases |line|
  {
    if i < |line| - 3 {
      var shorter := line[..|line| - 1];
      assert !MarksB(line, |line| - 3);
      forall j | i < j ensures !MarksB(shorter, j) {
        assert MarksB(shorter, j) ==> MarksB(line, j);
      }
      LastBIs(shorter, i);
    }
  }

  /** A header's path is what follows its last " b/". */
  lemma HeaderPathIsTheNewOne(base: string, path: string)
    requires forall j :: !MarksB(path, j)
    ensures IsHeader(HEADER + "a/" + base + " b/" + path) && PathFromHeader(HEADER + "a/" + base + " b/" + path) == path
  {
    var front := HEADER + "a/" + base;
    var line := front + " b/" + path;
    var i := |front|;
    assert MarksB(line, i);
    forall j | i < j ensures !MarksB(line, j) {
      assert forall k :: i + 3 <= k < |line| ==> line[k] == path[k - i - 3];
      assert !MarksB(path, j - i - 3);
    }
    LastBIs(line, i);
    assert line[i + 3..] == path;
    assert line[..|HEADER|] == HEADER;
  }

  lemma {:induction false} LinesTextPrefix(lines: seq<string>, i: nat)
    requires i <= |lines|
    ensures LinesText(lines[..i]) <= LinesText(lines)
    decreases |lines|
  {
    if i == |lines| {
      assert lines[..i] == lines;
    } else {
      assert lines[..|lines| - 1][..i] == lines[..i];
      LinesTextPrefix(lines[..|lines| - 1], i);
    }
  }

  lemma LinesTextNext(lines: seq<string>, i: nat)
    requires i < |lines|
    ensures LinesText(lines[..i + 1]) == LinesText(lines[..i]) + lines[i] + "\n"
  {
    assert lines[..i + 1][..i] == lines[..i];
  }

  /** Line i of the diff, with its newline, stands right after the lines before it. */
  lemma LineStands(diff: string, i: nat)
    requires i < |Split(diff)|
    ensures
      var lines, whole := Split(diff), diff + "\n";
      var pos := |LinesText(lines[..i])|;
      && pos + |lines[i]| + 1 <= |whole| && whole[pos..pos + |lines[i]| + 1] == lines[i] + "\n"
      && |LinesText(lines[..i + 1])| == pos + |lines[i]| + 1
  {
    hide Split, Join, LinesText;
    var lines, whole := Split(diff), diff + "\n";
    JoinedLines(lines);
    JoinSplit(diff);
    LinesTextPrefix(lines, i + 1);
    LinesTextNext(lines, i);
    var before, upTo := LinesText(lines[..i]), LinesText(lines[..i + 1]);
    Assoc(before, lines[i], "\n");
    assert upTo == whole[..|upTo|];
    assert upTo[|before|..] == lines[i] + "\n";
  }

  lemma AllLines(diff: string)
    ensures |LinesText(Split(diff))| == |diff| + 1
  {
    hide Split, Join, LinesText;
    JoinedLines(Split(diff));
    JoinSplit(diff);
  }

  lemma FirstSection(lines: seq<string>)
    requires lines != []
    ensures Sections(lines[..1]) ==
            [Section(if IsHeader(lines[0]) then PathFromHeader(lines[0]) else "?", lines[0] + "\n")]
  {
    hide IsHeader, PathFromHeader;
    assert lines[..1] == [lines[0]];
    assert lines[..1][..0] == [];
  }

  lemma NextSection(lines: seq<string>, i: nat, out: seq<Section>, path: string, text: string)
    requires i < |lines| && Sections(lines[..i]) == out + [Section(path, text)]
    ensures Sections(lines[..i + 1]) ==
            if IsHeader(lines[i]) then out + [Section(path, text)] + [Section(PathFromHeader(lines[i]), lines[i] + "\n")]
            else out + [Section(path, text + (lines[i] + "\n"))]
  {
    hide IsHeader, PathFromHeader;
    assert lines[..i + 1][..i] == lines[..i];
    assert (out + [Section(path, text)])[..|out|] == out;
  }

  /** splitFiles: the loop cuts the diff by positions. */
  method SplitFilesOf(diff: string) returns (out: seq<Section>)
    ensures out == SplitFiles(diff)
  {
    hide IsHeader, PathFromHeader, Sections, Split, LinesText;
    var lines := Split(diff);
    ghost var whole := diff + "\n";
    out := [];
    var start, pos, path := 0, 0, "?";
    assert lines[..0] == [] && LinesText(lines[..0]) == "" by { NoSections(); }
    for i := 0 to |lines|
      invariant 0 <= start <= pos == |LinesText(lines[..i])| <= |whole|
      invariant i == 0 ==> start == 0 && out == [] && path == "?"
      invariant i > 0 ==> start < pos && Sections(lines[..i]) == out + [Section(path, whole[start..pos])]
    {
      var l := lines[i];
      LineStands(diff, i);
      if i == 0 {
        FirstSection(lines);
      } else {
        NextSection(lines, i, out, path, whole[start..pos]);
        assert whole[start..pos] + whole[pos..pos + |l| + 1] == whole[start..pos + |l| + 1];
      }
      if IsHeader(l) {
        if pos > 0 {
          assert diff[start..pos] == whole[start..pos];
          out := out + [Section(path, diff[start..pos])];
        }
        start, path := pos, PathFromHeader(l);
      }
      pos := pos + |l| + 1;
      assert i == 0 ==> out + [Section(path, whole[start..pos])] == [Section(path, whole[start..pos])];
    }
    AllLines(diff);
    assert lines[..|lines|] == lines;
    assert start <= |diff|;
    assert diff[start..] + "\n" == whole[start..pos];
    out := out + [Section(path, diff[start..] + "\n")];
  }

  // ---- FitDiff ----

  /** What is kept and what is left out, section by section. */
  datatype Fitting = Fitting(kept: seq<Section>, omitted: seq<Section>)

  function Fit(sections: seq<Section>, room: int): Fitting {
    if sections == [] then Fitting([], [])
    else
      var before, s := Fit(sections[..|sections| - 1], room), sections[|sections| - 1];
      if |Concat(before.kept)| + |s.text| > room then before.(omitted := before.omitted + [s])
      else before.(kept := before.kept + [s])
  }

  function Paths(sections: seq<Section>): seq<string> {
    if sections == [] then [] else Paths(sections[..|sections| - 1]) + [sections[|sections| - 1].path]
  }

  lemma PathsSnoc(sections: seq<Section>, s: Section)
    ensures Paths(sections + [s]) == Paths(sections) + [s.path]
  {
    assert (sections + [s])[..|sections|] == sections;
  }

  /** The kept text and the omitted sections. */
  function Fitted(diff: string, room: int): (string, seq<Section>) {
    if |diff| <= room then (diff, [])
    else
      var f := Fit(SplitFiles(diff), room);
      (Concat(f.kept), f.omitted)
  }

  method FitDiff(diff: string, room: int) returns (kept: string, omitted: seq<string>)
    ensures kept == Fitted(diff, room).0 && omitted == Paths(Fitted(diff, room).1)
  {
    hide SplitFiles, Concat;
    if |diff| <= room {
      return diff, [];
    }
    var sections := SplitFilesOf(diff);
    kept, omitted := "", [];
    assert Concat([]) == "" by { NoSections(); }
    assert sections[..0] == [];
    for i := 0 to |sections|
      invariant kept == Concat(Fit(sections[..i], room).kept)
      invariant omitted == Paths(Fit(sections[..i], room).omitted)
    {
      hide Paths;
      assert sections[..i + 1][..i] == sections[..i];
      var s := sections[i];
      PathsSnoc(Fit(sections[..i], room).omitted, s);
      ConcatSnoc(Fit(sections[..i], room).kept, s);
      if |kept| + |s.text| > room {
        omitted := omitted + [s.path];
        continue;
      }
      kept := kept + s.text;
    }
    assert sections[..|sections|] == sections;
  }

  /** In order, each at most once. */
  ghost predicate Subsequence<T>(a: seq<T>, b: seq<T>) {
    if a == [] then true
    else if b == [] then false
    else (a[|a| - 1] == b[|b| - 1] && Subsequence(a[..|a| - 1], b[..|b| - 1])) || Subsequence(a, b[..|b| - 1])
  }

  lemma {:induction false} FitIsSound(sections: seq<Section>, room: int)
    ensures
      var f := Fit(sections, room);
      && Subsequence(f.kept, sections)
      && |Concat(f.kept)| <= Max(room, 0)
      && |f.kept| + |f.omitted| == |sections|
      && |Concat(f.kept)| + |Concat(f.omitted)| == |Concat(sections)|
    decreases |sections|
  {
    hide Concat;
    if sections == [] {
      NoSections();
    } else {
      var before, s := sections[..|sections| - 1], sections[|sections| - 1];
      var f := Fit(before, room);
      assert sections == before + [s];
      FitIsSound(before, room);
      ConcatSnoc(before, s);
      ConcatSnoc(f.kept, s);
      ConcatSnoc(f.omitted, s);
      SubsequenceSnoc(f.kept, before, s);
    }
  }

  /** The sections that `keep` says to keep, or those it does not. */
  function Picked(sections: seq<Section>, keep: seq<bool>, which: bool): seq<Section>
    requires |keep| == |sections|
  {
    if sections == [] then []
    else
      var n := |sections| - 1;
      Picked(sections[..n], keep[..n], which) + if keep[n] == which then [sections[n]] else []
  }

  /** A section is kept exactly when it fits after those kept before it. */
  predicate KeptIffFits(sections: seq<Section>, keep: seq<bool>, room: int) {
    && |keep| == |sections|
    && forall i :: 0 <= i < |sections| ==>
         (keep[i] <==> |Concat(Picked(sections[..i], keep[..i], true))| + |sections[i].text| <= room)
  }

  lemma PickedSnoc(sections: seq<Section>, s: Section, keep: seq<bool>, fits: bool, which: bool)
    requires |keep| == |sections|
    ensures Picked(sections + [s], keep + [fits], which) ==
            Picked(sections, keep, which) + if fits == which then [s] else []
  {
    var all, bits := sections + [s], keep + [fits];
    assert all[..|sections|] == sections && bits[..|sections|] == keep;
  }

  lemma FitSnoc(sections: seq<Section>, s: Section, room: int)
    ensures
      var before := Fit(sections, room);
      Fit(sections + [s], room) ==
      if |Concat(before.kept)| + |s.text| > room then before.(omitted := before.omitted + [s])
      else before.(kept := before.kept + [s])
  {
    hide Concat;
    assert (sections + [s])[..|sections|] == sections;
  }

  lemma KeptIffFitsSnoc(sections: seq<Section>, s: Section, keep: seq<bool>, room: int)
    requires KeptIffFits(sections, keep, room)
    ensures KeptIffFits(sections + [s], keep + [|Concat(Picked(sections, keep, true))| + |s.text| <= room], room)
  {
    hide Concat, Picked;
    var n := |sections|;
    var all, bits := sections + [s], keep + [|Concat(Picked(sections, keep, true))| + |s.text| <= room];
    forall i | 0 <= i < |all|
      ensures bits[i] <==> |Concat(Picked(all[..i], bits[..i], true))| + |all[i].text| <= room
    {
      if i < n {
        assert all[..i] == sections[..i] && bits[..i] == keep[..i];
      } else {
        assert all[..i] == sections && bits[..i] == keep;
      }
    }
  }

  lemma {:induction false} FitIsGreedy(sections: seq<Section>, room: int) returns (keep: seq<bool>)
    ensures KeptIffFits(sections, keep, room)
    ensures Fit(sections, room).kept == Picked(sections, keep, true)
    ensures Fit(sections, room).omitted == Picked(sections, keep, false)
    decreases |sections|
  {
    if sections == [] {
      keep := [];
    } else {
      hide Concat, Picked, KeptIffFits, Fit;
      var before, s := sections[..|sections| - 1], sections[|sections| - 1];
      assert sections == before + [s];
      var kept := FitIsGreedy(before, room);
      var fits := |Concat(Picked(before, kept, true))| + |s.text| <= room;
      keep := kept + [fits];
      KeptIffFitsSnoc(before, s, kept, room);
      FitSnoc(before, s, room);
      PickedSnoc(before, s, kept, fits, true);
      PickedSnoc(before, s, kept, fits, false);
      assert Picked(before, kept, true) + [] == Picked(before, kept, true);
      assert Picked(before, kept, false) + [] == Picked(before, kept, false);
    }
  }

  predicate FitsBy(sections: seq<Section>, room: int, keep: seq<bool>, kept: string, omitted: seq<string>) {
    && KeptIffFits(sections, keep, room)
    && kept == Concat(Picked(sections, keep, true)) && omitted == Paths(Picked(sections, keep, false))
  }

  /** What is kept of a diff: all of it where it fits, or else its file sections one by one as they fit. */
  ghost predicate FitsAs(diff: string, room: int, kept: string, omitted: seq<string>) {
    if |diff| <= room then kept == diff && omitted == []
    else exists keep :: FitsBy(SplitFiles(diff), room, keep, kept, omitted)
  }

  lemma FittedAs(diff: string, room: int)
    ensures FitsAs(diff, room, Fitted(diff, room).0, Paths(Fitted(diff, room).1))
  {
    hide SplitFiles, Concat, Picked, KeptIffFits, Fit;
    if |diff| > room {
      var keep := FitIsGreedy(SplitFiles(diff), room);
      assert FitsBy(SplitFiles(diff), room, keep, Fitted(diff, room).0, Paths(Fitted(diff, room).1));
    }
  }

  lemma SubsequenceSnoc<T>(a: seq<T>, b: seq<T>, x: T)
    requires Subsequence(a, b)
    ensures Subsequence(a + [x], b + [x]) && Subsequence(a, b + [x])
  {
    assert (a + [x])[..|a|] == a && (b + [x])[..|b|] == b;
  }

  /**
    FitDiff keeps whole sections, in order, within the room, and leaves at least one out exactly when the diff
    is over it.
   */
  lemma FitDiffKeepsWholeSections(diff: string, room: int)
    ensures
      var (kept, omitted) := Fitted(diff, room);
      && (omitted != [] <==> |diff| > room)
      && (|diff| <= room ==> kept == diff)
      && (|diff| > room ==>
            exists sections :: Subsequence(sections, SplitFiles(diff)) && kept == Concat(sections)
                               && |sections| + |omitted| == |SplitFiles(diff)| && |kept| <= Max(room, 0))
  {
    hide SplitFiles, Concat, Subsequence;
    if |diff| > room {
      var sections := SplitFiles(diff);
      SplitFilesKeepsTheDiff(diff);
      FitIsSound(sections, room);
      var f := Fit(sections, room);
      assert f.omitted == [] ==> Concat(f.omitted) == "" by { NoSections(); }
      assert Subsequence(f.kept, sections);
    }
  }

  lemma FittedFacts(diff: string, room: int)
    ensures
      var (kept, omitted) := Fitted(diff, room);
      && (omitted != [] <==> |diff| > room)
      && (|diff| > room ==> |kept| <= Max(room, 0))
      && (|diff| <= room ==> kept == diff)
  {
    hide Fitted, Subsequence;
    FitDiffKeepsWholeSections(diff, room);
  }

  lemma {:induction false} FewSections(lines: seq<string>)
    ensures |Sections(lines)| <= |lines| <= |LinesText(lines)|
    decreases |lines|
  {
    hide IsHeader, PathFromHeader;
    if lines != [] {
      FewSections(lines[..|lines| - 1]);
    }
  }

  /** A diff has no more sections than bytes and one. */
  lemma FewOmitted(diff: string, room: int)
    ensures |Fitted(diff, room).1| <= |diff| + 1
  {
    hide Sections, LinesText, Concat, Split;
    FewSections(Split(diff));
    AllLines(diff);
    FitIsSound(SplitFiles(diff), room);
  }

  // ---- A re-review's sections ----

  /** The fixed texts of a re-review, with the short SHA in them. */
  datatype Texts = Texts(header: string, nothingNew: string, deltaOmitted: string, priorLead: string)

  /** What a re-review is told: what changed meanwhile, and the findings made before, a line each. */
  datatype Incremental = Incremental(delta: string, prior: seq<string>, texts: Texts)

  /** As Go holds them: lengths that fit an int. */
  predicate Sized(inc: Incremental) {
    |inc.delta| <= MAX_INT && |inc.prior| <= MAX_INT
  }

  function Joined(lines: seq<string>): string {
    if lines == [] then "" else Joined(lines[..|lines| - 1]) + lines[|lines| - 1]
  }

  lemma JoinedNext(lines: seq<string>, i: nat)
    requires i < |lines|
    ensures Joined(lines[..i + 1]) == Joined(lines[..i]) + lines[i]
  {
    assert lines[..i + 1][..i] == lines[..i];
  }

  lemma JoinedNone(lines: seq<string>)
    ensures Joined(lines[..0]) == "" && lines[..|lines|] == lines
  {
  }

  /** How many lines, from i on, follow what is written already within the limit. */
  function FitCount(lines: seq<string>, i: nat, written: nat, limit: int): (k: nat)
    requires i <= |lines|
    ensures i <= k <= |lines|
    decreases |lines| - i
  {
    if i == |lines| || written + |lines[i]| > limit then i else FitCount(lines, i + 1, written + |lines[i]|, limit)
  }

  lemma {:induction false} FitCountFits(lines: seq<string>, i: nat, written: nat, limit: int)
    requires i <= |lines| && written <= limit
    ensures
      var k := FitCount(lines, i, written, limit);
      && written + |Joined(lines[..k])| - |Joined(lines[..i])| <= limit
      && (k < |lines| ==> written + |Joined(lines[..k])| - |Joined(lines[..i])| + |lines[k]| > limit)
    decreases |lines| - i
  {
    hide Joined;
    if i < |lines| && written + |lines[i]| <= limit {
      JoinedNext(lines, i);
      FitCountFits(lines, i + 1, written + |lines[i]|, limit);
    }
  }

  const PRIOR_NOTE := "more finding(s) from the last review omitted to fit the context budget]"
  const DELTA_NOTE := "file(s) of the diff since the last review were omitted to fit the context budget]"

  function PriorNote(n: nat): string {
    "[" + Itoa(n) + (" " + PRIOR_NOTE + "\n")
  }

  function DeltaNote(n: nat): string {
    "\n[" + Itoa(n) + (" " + DELTA_NOTE + "\n")
  }

  lemma NotesFit(n: nat)
    requires n <= MAX_INT + 1
    ensures |PriorNote(n)| <= NOTE_ROOM && |DeltaNote(n)| <= NOTE_ROOM
  {
    assert |PRIOR_NOTE| < 100 && |DELTA_NOTE| < 100;
    BelowTenToThe19(n);
    ItoaLength(n, 19);
  }

  lemma BelowTenToThe19(n: nat)
    requires n <= MAX_INT + 1
    ensures n < Pow10(19)
  {
    var a := Pow10(4);
    assert Pow10(1) == 10 && Pow10(2) == 100 && Pow10(3) == 1000 && a == 10000;
    assert Pow10(8) == a * 10000 by {
      assert Pow10(5) == 100000 && Pow10(6) == 1000000 && Pow10(7) == 10000000;
    }
    assert Pow10(12) == 1000000000000 by {
      assert Pow10(9) == 1000000000 && Pow10(10) == 10000000000 && Pow10(11) == 100000000000;
    }
    assert Pow10(16) == 10000000000000000 by {
      assert Pow10(13) == 10000000000000 && Pow10(14) == 100000000000000 && Pow10(15) == 1000000000000000;
    }
    assert Pow10(17) == 100000000000000000 && Pow10(18) == 1000000000000000000;
  }

  function Prior(lines: seq<string>, lead: string, room: int): string {
    if lines == [] || |lead| > room then ""
    else if |lead| + |Joined(lines)| <= room then lead + Joined(lines)
    else
      var k := FitCount(lines, 0, |lead|, room - NOTE_ROOM);
      var shown := lead + Joined(lines[..k]);
      if k < |lines| && |shown| + NOTE_ROOM <= room then shown + PriorNote(|lines| - k) else shown
  }

  /** priorSection: whole findings only, and a note on how many are left out. */
  method PriorSection(lines: seq<string>, lead: string, room: int) returns (section: string)
    ensures section == Prior(lines, lead, room)
  {
    hide Joined, PriorNote;
    if lines == [] {
      return "";
    }
    section := lead;
    if |section| > room {
      return "";
    }
    var total := |section|;
    JoinedNone(lines);
    for i := 0 to |lines|
      invariant total == |lead| + |Joined(lines[..i])|
    {
      JoinedNext(lines, i);
      total := total + |lines[i]|;
    }
    if total <= room {
      section := JoinAll(lead, lines);
      return;
    }
    section := PriorCut(lines, lead, room);
  }

  method JoinAll(lead: string, lines: seq<string>) returns (b: string)
    ensures b == lead + Joined(lines)
  {
    hide Joined;
    b := lead;
    JoinedNone(lines);
    assert lead + "" == lead;
    for i := 0 to |lines|
      invariant b == lead + Joined(lines[..i])
    {
      JoinedNext(lines, i);
      Assoc(lead, Joined(lines[..i]), lines[i]);
      b := b + lines[i];
    }
  }

  /** The loop that stops at the first finding that leaves no room for the note. */
  method PriorCut(lines: seq<string>, lead: string, room: int) returns (b: string)
    ensures
      var k := FitCount(lines, 0, |lead|, room - NOTE_ROOM);
      var shown := lead + Joined(lines[..k]);
      b == if k < |lines| && |shown| + NOTE_ROOM <= room then shown + PriorNote(|lines| - k) else shown
  {
    hide Joined, PriorNote;
    b := lead;
    JoinedNone(lines);
    assert lead + "" == lead;
    ghost var k := FitCount(lines, 0, |lead|, room - NOTE_ROOM);
    for i := 0 to |lines|
      invariant b == lead + Joined(lines[..i])
      invariant k == FitCount(lines, i, |b|, room - NOTE_ROOM)
    {
      if |b| + |lines[i]| > room - NOTE_ROOM {
        if |b| + NOTE_ROOM <= room {
          b := b + PriorNote(|lines| - i);
        }
        return;
      }
      JoinedNext(lines, i);
      Assoc(lead, Joined(lines[..i]), lines[i]);
      b := b + lines[i];
    }
  }

  /** The findings of the last review take at most the room; those left out are counted. */
  lemma PriorFits(lines: seq<string>, lead: string, room: int)
    requires |lines| <= MAX_INT
    ensures |Prior(lines, lead, room)| <= Max(room, 0)
  {
    hide Joined, PriorNote;
    if lines != [] && |lead| <= room && |lead| + |Joined(lines)| > room {
      var k := FitCount(lines, 0, |lead|, room - NOTE_ROOM);
      JoinedNone(lines);
      if |lead| <= room - NOTE_ROOM {
        FitCountFits(lines, 0, |lead|, room - NOTE_ROOM);
      }
      NotesFit(|lines| - k);
    }
  }

  /** The delta, or what stands for it. */
  function Delta(inc: Incremental, room: int): string {
    var t := inc.texts;
    if inc.delta == "" then if |t.nothingNew| <= room then t.nothingNew else ""
    else if |t.header| + |inc.delta| <= room then t.header + inc.delta
    else
      var (kept, omitted) := Fitted(inc.delta, room - |t.header| - NOTE_ROOM);
      if kept != "" then t.header + kept + (if omitted != [] then DeltaNote(|omitted|) else "")
      else if |t.deltaOmitted| <= room then t.deltaOmitted
      else ""
  }

  function IncrementalSections(inc: Option<Incremental>, room: int): string {
    match inc
    case None => ""
    case Some(i) =>
      var prior := Prior(i.prior, i.texts.priorLead, room - |i.texts.deltaOmitted|);
      Delta(i, room - |prior|) + prior
  }

  method Incrementals(inc: Option<Incremental>, start: int) returns (out: string)
    ensures out == IncrementalSections(inc, start)
  {
    hide Fitted, Prior, DeltaNote, Paths;
    if inc.None? {
      return "";
    }
    var i := inc.value;
    var room := start;
    var prior := PriorSection(i.prior, i.texts.priorLead, room - |i.texts.deltaOmitted|);
    room := room - |prior|;
    var header := i.texts.header;
    var delta := i.delta;
    var omitted: seq<string> := [];
    if |header| + |delta| > room {
      delta, omitted := FitDiff(i.delta, room - |header| - NOTE_ROOM);
      PathsLength(Fitted(i.delta, room - |header| - NOTE_ROOM).1);
      FittedFacts(i.delta, room - |header| - NOTE_ROOM);
    }
    out := "";
    if i.delta == "" {
      if |i.texts.nothingNew| <= room {
        out := out + i.texts.nothingNew;
      }
    } else if delta != "" {
      out := out + (header + delta);
      if |omitted| > 0 {
        out := out + DeltaNote(|omitted|);
      }
    } else if |i.texts.deltaOmitted| <= room {
      out := out + i.texts.deltaOmitted;
    }
    assert out == Delta(i, room);
    out := out + prior;
  }

  lemma {:induction false} PathsLength(sections: seq<Section>)
    ensures |Paths(sections)| == |sections|
    decreases |sections|
  {
    if sections != [] {
      PathsLength(sections[..|sections| - 1]);
    }
  }

  lemma DeltaFits(inc: Incremental, room: int)
    requires Sized(inc)
    ensures |Delta(inc, room)| <= Max(room, 0)
  {
    hide Fitted, DeltaNote, Itoa;
    var t := inc.texts;
    if inc.delta != "" && |t.header| + |inc.delta| > room {
      FittedFacts(inc.delta, room - |t.header| - NOTE_ROOM);
      FewOmitted(inc.delta, room - |t.header| - NOTE_ROOM);
      NotesFit(|Fitted(inc.delta, room - |t.header| - NOTE_ROOM).1|);
    }
  }

  /** A re-review's sections never exceed the room they are given; with none, they are empty. */
  lemma IncrementalFits(inc: Option<Incremental>, room: int)
    requires inc.Some? ==> Sized(inc.value)
    ensures |IncrementalSections(inc, room)| <= Max(room, 0)
  {
    hide Prior, Delta;
    if inc.Some? {
      var i := inc.value;
      var priorRoom := room - |i.texts.deltaOmitted|;
      PriorFits(i.prior, i.texts.priorLead, priorRoom);
      DeltaFits(i, room - |Prior(i.prior, i.texts.priorLead, priorRoom)|);
    }
  }

  /** Some of the delta: the whole of it, or whole files of it with a count of those left out. */
  ghost predicate ShowsDelta(out: string, inc: Incremental) {
    || inc.texts.header + inc.delta <= out
    || exists kept, n :: kept != "" && n > 0 && Shown(inc.texts.header, kept, n) <= out
  }

  function Shown(header: string, kept: string, n: nat): string {
    header + kept + DeltaNote(n)
  }

  /** A delta that is not empty is shown, or its omission stated, wherever the note on it fits the room. */
  lemma DeltaIsShownOrStated(inc: Incremental, room: int)
    requires Sized(inc) && inc.delta != "" && |inc.texts.deltaOmitted| <= room
    ensures
      var out := IncrementalSections(Some(inc), room);
      ShowsDelta(out, inc) || inc.texts.deltaOmitted <= out
  {
    hide Prior, Fitted, DeltaNote;
    var t := inc.texts;
    var prior := Prior(inc.prior, t.priorLead, room - |t.deltaOmitted|);
    PriorFits(inc.prior, t.priorLead, room - |t.deltaOmitted|);
    var left := room - |prior|;
    var out := IncrementalSections(Some(inc), room);
    if |t.header| + |inc.delta| > left {
      var fitting := left - |t.header| - NOTE_ROOM;
      FittedFacts(inc.delta, fitting);
      var (kept, omitted) := Fitted(inc.delta, fitting);
      if kept != "" {
        assert Shown(t.header, kept, |omitted|) <= out;
      }
    }
  }

  // ---- What a re-review's sections hold ----

  /** The first k lines, none left out that follows within the limit. */
  predicate FirstLines(lines: seq<string>, k: nat, written: nat, limit: int) {
    && k <= |lines|
    && (k > 0 ==> written + |Joined(lines[..k])| <= limit)
    && (k < |lines| ==> written + |Joined(lines[..k])| + |lines[k]| > limit)
  }

  lemma {:induction false} FitCountIsFirst(lines: seq<string>, i: nat, written: nat, limit: int)
    requires i <= |lines| && (i > 0 ==> written + |Joined(lines[..i])| <= limit)
    ensures FirstLines(lines, FitCount(lines, i, written + |Joined(lines[..i])|, limit), written, limit)
    decreases |lines| - i
  {
    hide Joined;
    if i < |lines| && written + |Joined(lines[..i])| + |lines[i]| <= limit {
      JoinedNext(lines, i);
      FitCountIsFirst(lines, i + 1, written, limit);
    }
  }

  /**
    The findings of the last review: nothing where there are none or their lead does not fit; the lead and all of them
    where they do; or else the lead and the first of them, with a count of the rest where it still fits.
   */
  ghost predicate PriorShown(out: string, lines: seq<string>, lead: string, room: int) {
    if lines == [] || |lead| > room then out == ""
    else if |lead| + |Joined(lines)| <= room then out == lead + Joined(lines)
    else
      exists k: nat :: FirstLines(lines, k, |lead|, room - NOTE_ROOM) &&
        out == lead + Joined(lines[..k]) +
               if k < |lines| && |lead + Joined(lines[..k])| + NOTE_ROOM <= room then PriorNote(|lines| - k) else ""
  }

  lemma PriorIsShown(lines: seq<string>, lead: string, room: int)
    ensures PriorShown(Prior(lines, lead, room), lines, lead, room)
  {
    hide Joined, PriorNote;
    if lines != [] && |lead| <= room && |lead| + |Joined(lines)| > room {
      JoinedNone(lines);
      FitCountIsFirst(lines, 0, |lead|, room - NOTE_ROOM);
      var k := FitCount(lines, 0, |lead|, room - NOTE_ROOM);
      assert FirstLines(lines, k, |lead|, room - NOTE_ROOM);
      var shown := lead + Joined(lines[..k]);
      assert shown + "" == shown;
    }
  }

  /**
    What changed since: that nothing did, or all of it under its header, where that fits; or else its files that fit,
    with a count of the others; or else that it was left out, where that fits.
   */
  ghost predicate DeltaShown(out: string, inc: Incremental, room: int) {
    var t := inc.texts;
    if inc.delta == "" then out == if |t.nothingNew| <= room then t.nothingNew else ""
    else if |t.header| + |inc.delta| <= room then out == t.header + inc.delta
    else
      exists kept, omitted :: DeltaCut(out, inc, room, kept, omitted)
  }

  ghost predicate DeltaCut(out: string, inc: Incremental, room: int, kept: string, omitted: seq<string>) {
    var t := inc.texts;
    && FitsAs(inc.delta, room - |t.header| - NOTE_ROOM, kept, omitted)
    && out == if kept != "" then t.header + kept + DeltaNote(|omitted|)
              else if |t.deltaOmitted| <= room then t.deltaOmitted
              else ""
  }

  lemma DeltaIsShown(inc: Incremental, room: int)
    ensures DeltaShown(Delta(inc, room), inc, room)
  {
    hide Fitted, DeltaNote, FitsAs;
    var t := inc.texts;
    if inc.delta != "" && |t.header| + |inc.delta| > room {
      var fitting := room - |t.header| - NOTE_ROOM;
      FittedAs(inc.delta, fitting);
      FittedFacts(inc.delta, fitting);
      var (kept, omitted) := Fitted(inc.delta, fitting);
      PathsLength(omitted);
      assert DeltaCut(Delta(inc, room), inc, room, kept, Paths(omitted));
    }
  }

  /** A re-review's sections: the delta and the prior findings, which have their room first, less that of the note on the delta. */
  ghost predicate Rereviewed(out: string, inc: Option<Incremental>, room: int) {
    match inc
    case None => out == ""
    case Some(i) =>
      exists delta, prior ::
        && out == delta + prior
        && PriorShown(prior, i.prior, i.texts.priorLead, room - |i.texts.deltaOmitted|)
        && DeltaShown(delta, i, room - |prior|)
  }

  lemma SectionsAreRereviewed(inc: Option<Incremental>, room: int)
    ensures Rereviewed(IncrementalSections(inc, room), inc, room)
  {
    hide Prior, Delta, PriorShown, DeltaShown;
    if inc.Some? {
      var i := inc.value;
      var prior := Prior(i.prior, i.texts.priorLead, room - |i.texts.deltaOmitted|);
      PriorIsShown(i.prior, i.texts.priorLead, room - |i.texts.deltaOmitted|);
      DeltaIsShown(i, room - |prior|);
    }
  }

  /** Where there is room for all of them, all of them are there. */
  function AllOfIt(inc: Option<Incremental>): string {
    match inc
    case None => ""
    case Some(i) =>
      (if i.delta == "" then i.texts.nothingNew else i.texts.header + i.delta) +
      if i.prior == [] then "" else i.texts.priorLead + Joined(i.prior)
  }

  lemma RoomForAll(inc: Option<Incremental>, room: int)
    requires |AllOfIt(inc)| + (if inc.Some? then |inc.value.texts.deltaOmitted| else 0) <= room
    ensures IncrementalSections(inc, room) == AllOfIt(inc)
  {
    hide Joined;
  }

  // ---- The sections that follow, while they fit ----

  ghost predicate WroteFirst(out: string, base: string, entries: seq<string>, k: nat, budget: int) {
    && k <= |entries|
    && out == base + Joined(entries[..k])
    && (k < |entries| ==> |out| + |entries[k]| > budget)
  }

  /** writeDismissed and writeReferences: nothing where there are none or the header does not fit, else as far as they fit. */
  ghost predicate EntriesWritten(out: string, b: string, header: string, entries: seq<string>, budget: int) {
    if entries == [] || |b| + |header| > budget then out == b
    else |out| <= budget && exists k :: WroteFirst(out, b + header, entries, k, budget)
  }

  /** writeContext: the header goes with the first chunk. */
  predicate ContextWritten(out: string, b: string, header: string, chunks: seq<string>, budget: int, omitted: nat) {
    && omitted <= |chunks| && |out| <= Max(|b|, budget)
    && var k := |chunks| - omitted;
       && out == b + (if k > 0 then header else "") + Joined(chunks[..k])
       && (omitted > 0 ==> |out| + (if k > 0 then 0 else |header|) + |chunks[k]| > budget)
  }

  function Headed(header: string, entries: seq<string>): string {
    if entries == [] then "" else header + Joined(entries)
  }

  lemma {:induction false} JoinedGrows(lines: seq<string>, k: nat)
    requires k < |lines|
    ensures |Joined(lines[..k])| + |lines[k]| <= |Joined(lines)|
    decreases |lines|
  {
    var n := |lines| - 1;
    if k < n {
      assert lines[..n][..k] == lines[..k];
      JoinedGrows(lines[..n], k);
    }
  }

  lemma AllEntriesFit(out: string, b: string, header: string, entries: seq<string>, budget: int)
    requires EntriesWritten(out, b, header, entries, budget) && |b| + |Headed(header, entries)| <= budget
    ensures out == b + Headed(header, entries)
  {
    hide Joined;
    if entries != [] {
      var k: nat :| WroteFirst(out, b + header, entries, k, budget);
      if k < |entries| {
        JoinedGrows(entries, k);
      }
      JoinedNone(entries);
      assert b + header + Joined(entries) == b + (header + Joined(entries));
    } else {
      assert b + "" == b;
    }
  }

  lemma AllContextFits(out: string, b: string, header: string, chunks: seq<string>, budget: int, omitted: nat)
    requires ContextWritten(out, b, header, chunks, budget, omitted) && |b| + |Headed(header, chunks)| <= budget
    ensures omitted == 0 && out == b + Headed(header, chunks)
  {
    hide Joined;
    JoinedNone(chunks);
    if omitted > 0 {
      JoinedGrows(chunks, |chunks| - omitted);
    }
    if chunks != [] {
      assert b + header + Joined(chunks) == b + (header + Joined(chunks));
    } else {
      assert b + "" + "" == b + "";
    }
  }

  /**
    writeDismissed and writeReferences: a header, then entries in order up to the first that does not fit. What
    is within the budget stays within it, and nothing is added to what is not.
   */
  method WriteEntries(b: string, header: string, entries: seq<string>, budget: int) returns (out: string)
    ensures |out| <= Max(|b|, budget) && b <= out
    ensures entries == [] || |b| + |header| > budget ==> out == b
    ensures entries != [] && |b| + |header| <= budget ==>
              |out| <= budget && exists k :: WroteFirst(out, b + header, entries, k, budget)
    ensures EntriesWritten(out, b, header, entries, budget)
  {
    hide Joined;
    out := b;
    if entries == [] || |b| + |header| > budget {
      return;
    }
    out := out + header;
    JoinedNone(entries);
    for i := 0 to |entries|
      invariant |out| <= budget && out == b + header + Joined(entries[..i])
    {
      if |out| + |entries[i]| > budget {
        assert WroteFirst(out, b + header, entries, i, budget);
        return;
      }
      JoinedNext(entries, i);
      Assoc(b + header, Joined(entries[..i]), entries[i]);
      out := out + entries[i];
    }
    assert WroteFirst(out, b + header, entries, |entries|, budget);
  }

  /** writeContext: the header goes with the first chunk, and what did not fit is counted. */
  method WriteContext(b: string, header: string, chunks: seq<string>, budget: int) returns (out: string, omitted: nat)
    ensures |out| <= Max(|b|, budget) && b <= out && omitted <= |chunks|
    ensures
      var k := |chunks| - omitted;
      && out == b + (if k > 0 then header else "") + Joined(chunks[..k])
      && (omitted > 0 ==> |out| + (if k > 0 then 0 else |header|) + |chunks[k]| > budget)
    ensures ContextWritten(out, b, header, chunks, budget, omitted)
  {
    hide Joined;
    out := b;
    var written := 0;
    JoinedNone(chunks);
    assert b + "" + "" == b;
    for i := 0 to |chunks|
      invariant written == i && |out| <= Max(|b|, budget)
      invariant out == b + (if i > 0 then header else "") + Joined(chunks[..i])
    {
      var section := "";
      if written == 0 {
        section := section + header;
      }
      section := section + chunks[i];
      if |out| + |section| > budget {
        return out, |chunks| - i;
      }
      JoinedNext(chunks, i);
      Assoc(b + header, Joined(chunks[..i]), chunks[i]);
      out := out + section;
      written := written + 1;
      assert i == 0 ==> b + (header + chunks[0]) == b + header + ("" + chunks[0]);
    }
    return out, 0;
  }

  function JoinCommas(paths: seq<string>): string {
    if paths == [] then ""
    else if |paths| == 1 then paths[0]
    else paths[0] + ", " + JoinCommas(paths[1..])
  }

  const OMISSION_NOTE := "file(s) omitted to fit the context budget: "

  function OmissionNote(paths: seq<string>): string {
    if paths == [] then ""
    else "\n\n[" + Itoa(|paths|) + (" " + OMISSION_NOTE + JoinCommas(paths) + "]\n")
  }

  /** A note says how many were left out, first of all. */
  predicate Counts(note: string, lead: string, n: nat) {
    var say := lead + Itoa(n) + " ";
    |note| >= |say| && note[..|say|] == say
  }

  predicate Closes(note: string, end: string) {
    |note| >= |end| && note[|note| - |end|..] == end
  }

  /** A number and then a space, however the note goes on and ends. */
  lemma NoteCounts(lead: string, n: nat, says: string, end: string)
    ensures Counts(lead + Itoa(n) + (" " + says + end), lead, n) && Closes(lead + Itoa(n) + (" " + says + end), end)
  {
    hide Itoa;
    var say := lead + Itoa(n);
    var note := say + (" " + says + end);
    assert note == (say + " ") + (says + end);
    assert note == (say + " " + says) + end;
  }

  lemma OmissionNoteIs(paths: seq<string>)
    ensures OmissionNote(paths) ==
            if paths == [] then "" else "\n\n[" + Itoa(|paths|) + (" " + OMISSION_NOTE + JoinCommas(paths) + "]\n")
  {
  }

  /** Each note counts what it stands for, and ends a line; the one on the diff ends with the files left out. */
  lemma NotesCount(n: nat, paths: seq<string>)
    ensures Counts(PriorNote(n), "[", n) && Closes(PriorNote(n), "\n")
    ensures Counts(DeltaNote(n), "\n[", n) && Closes(DeltaNote(n), "\n")
    ensures
      if paths == [] then OmissionNote(paths) == ""
      else Counts(OmissionNote(paths), "\n\n[", |paths|) && Closes(OmissionNote(paths), JoinCommas(paths) + "]\n")
  {
    hide Counts, Closes, JoinCommas, Itoa, OmissionNote;
    NoteCounts("[", n, PRIOR_NOTE, "\n");
    NoteCounts("\n[", n, DELTA_NOTE, "\n");
    OmissionNoteIs(paths);
    if paths != [] {
      NoteCounts("\n\n[", |paths|, OMISSION_NOTE, JoinCommas(paths) + "]\n");
      Assoc(" " + OMISSION_NOTE, JoinCommas(paths), "]\n");
    }
  }

  /** The text names the path at i, where a comma or the end follows. */
  predicate NamesAt(text: string, path: string, i: nat) {
    && i + |path| <= |text| && text[i..i + |path|] == path
    && (i == 0 || (i >= 2 && text[i - 2..i] == ", "))
    && (i + |path| == |text| || (i + |path| + 2 <= |text| && text[i + |path|..i + |path| + 2] == ", "))
  }

  lemma JoinedByCommas(paths: seq<string>)
    requires paths != []
    ensures JoinCommas(paths) == if |paths| == 1 then paths[0] else paths[0] + ", " + JoinCommas(paths[1..])
  {
  }

  lemma NamedAlone(path: string, rest: string)
    ensures NamesAt(path, path, 0) && NamesAt(path + ", " + rest, path, 0)
  {
    var text := path + ", " + rest;
    assert text[..|path|] == path;
    assert text[|path|..|path| + 2] == ", ";
  }

  /** Every omitted file is named, in order. */
  lemma {:induction false} EachIsNamed(paths: seq<string>, k: nat) returns (i: nat)
    requires k < |paths|
    ensures NamesAt(JoinCommas(paths), paths[k], i)
    ensures k == 0 ==> i == 0
    ensures k == |paths| - 1 ==> i + |paths[k]| == |JoinCommas(paths)|
    decreases |paths|
  {
    hide *;
    JoinedByCommas(paths);
    if k == 0 {
      i := 0;
      NamedAlone(paths[0], JoinCommas(paths[1..]));
    } else {
      var j := EachIsNamed(paths[1..], k - 1);
      i := |paths[0]| + 2 + j;
      NamedLater(paths[0] + ", ", JoinCommas(paths[1..]), paths[k], j);
    }
  }

  lemma SliceLater(lead: string, rest: string, a: nat, b: nat)
    requires a <= b <= |rest|
    ensures (lead + rest)[|lead| + a..|lead| + b] == rest[a..b]
  {
    var later, slice := (lead + rest)[|lead| + a..|lead| + b], rest[a..b];
    assert |later| == |slice|;
    assert forall k :: 0 <= k < |slice| ==> later[k] == slice[k];
  }

  lemma SliceBefore(lead: string, rest: string, a: nat)
    requires a <= |lead|
    ensures (lead + rest)[a..|lead|] == lead[a..]
  {
    var early, slice := (lead + rest)[a..|lead|], lead[a..];
    assert |early| == |slice|;
    assert forall k :: 0 <= k < |slice| ==> early[k] == slice[k];
  }

  lemma NamedLater(lead: string, rest: string, path: string, j: nat)
    requires NamesAt(rest, path, j) && |lead| >= 2 && lead[|lead| - 2..] == ", "
    ensures NamesAt(lead + rest, path, |lead| + j)
  {
    SliceLater(lead, rest, j, j + |path|);
    if j == 0 {
      SliceBefore(lead, rest, |lead| - 2);
    } else {
      SliceLater(lead, rest, j - 2, j);
    }
    if j + |path| < |rest| {
      SliceLater(lead, rest, j + |path|, j + |path| + 2);
    }
  }

  /** The sections' fixed headers. */
  datatype Headers = Headers(dismissed: string, references: string, context: string)

  /** What the parts of a message are, each within the room the ones before it leave. */
  datatype Parts = Parts(kept: string, sections: string, dismissed: string, references: string)

  /** The message and its parts: each begins with the one before. */
  ghost predicate Built(msg: string, parts: Parts, head: string, diff: string, inc: Option<Incremental>,
                        dismissed: seq<string>, references: seq<string>, context: seq<string>, headers: Headers, budget: int,
                        omitted: seq<string>, contextOmitted: nat)
  {
    && FitsAs(diff, budget - |head| - HEADROOM, parts.kept, omitted)
    && var noted := head + parts.kept + OmissionNote(omitted);
       && Rereviewed(parts.sections, inc, budget - |noted|)
       && EntriesWritten(parts.dismissed, noted + parts.sections, headers.dismissed, dismissed, budget)
       && EntriesWritten(parts.references, parts.dismissed, headers.references, references, budget)
       && ContextWritten(msg, parts.references, headers.context, context, budget, contextOmitted)
  }

  /** A message with everything in it. */
  function Whole(head: string, diff: string, inc: Option<Incremental>, dismissed: seq<string>, references: seq<string>,
                 context: seq<string>, headers: Headers): string
  {
    head + diff + AllOfIt(inc) + Headed(headers.dismissed, dismissed) + Headed(headers.references, references) +
    Headed(headers.context, context)
  }

  /** What keeps its room whatever is written. */
  function Reserved(inc: Option<Incremental>): nat {
    HEADROOM + if inc.Some? then |inc.value.texts.deltaOmitted| else 0
  }

  lemma WholeFits(head: string, diff: string, inc: Option<Incremental>, dismissed: seq<string>, references: seq<string>,
                  context: seq<string>, headers: Headers, budget: int, m: string, d: string, r: string, msg: string, left: nat)
    requires |Whole(head, diff, inc, dismissed, references, context, headers)| + Reserved(inc) <= budget
    requires m == head + diff + IncrementalSections(inc, budget - |head + diff|)
    requires EntriesWritten(d, m, headers.dismissed, dismissed, budget)
    requires EntriesWritten(r, d, headers.references, references, budget)
    requires ContextWritten(msg, r, headers.context, context, budget, left)
    ensures msg == Whole(head, diff, inc, dismissed, references, context, headers) && left == 0
  {
    hide IncrementalSections, AllOfIt, Headed, EntriesWritten, ContextWritten;
    RoomForAll(inc, budget - |head + diff|);
    AllEntriesFit(d, m, headers.dismissed, dismissed, budget);
    AllEntriesFit(r, d, headers.references, references, budget);
    AllContextFits(msg, r, headers.context, context, budget, left);
  }

  /**
    Build, from the message's head on: the head, the diff with the note on what is left out of it, the re-review's
    sections, and then the dismissed findings, the references and the context as far as each fits. Every section
    after the diff's note keeps to the budget, so that only the head and the note, which lists every file left out,
    can take a message past it; a note within the headroom never does where the head leaves that room. With room for
    all of it, all of it is there.
   */
  method Build(head: string, diff: string, inc: Option<Incremental>, dismissed: seq<string>, references: seq<string>,
               context: seq<string>, headers: Headers, budget: int)
    returns (msg: string, omitted: seq<string>, contextOmitted: nat, ghost parts: Parts)
    requires inc.Some? ==> Sized(inc.value)
    ensures omitted == Paths(Fitted(diff, budget - |head| - HEADROOM).1)
    ensures |msg| <= Max(budget, |head| + |Fitted(diff, budget - |head| - HEADROOM).0| + |OmissionNote(omitted)|)
    ensures |head| + HEADROOM <= budget && |OmissionNote(omitted)| <= HEADROOM ==> |msg| <= budget
    ensures head + Fitted(diff, budget - |head| - HEADROOM).0 <= msg
    ensures Built(msg, parts, head, diff, inc, dismissed, references, context, headers, budget, omitted, contextOmitted)
    ensures head + parts.kept + OmissionNote(omitted) + parts.sections <= parts.dismissed <= parts.references <= msg
    ensures |Whole(head, diff, inc, dismissed, references, context, headers)| + Reserved(inc) <= budget ==>
              msg == Whole(head, diff, inc, dismissed, references, context, headers) && omitted == [] && contextOmitted == 0
  {
    hide Fitted, Paths, OmissionNote, IncrementalSections, FitsAs, Rereviewed, EntriesWritten, ContextWritten, Whole, Reserved;
    ghost var kept, sections;
    msg, omitted, kept, sections := Open(head, diff, inc, budget);
    ghost var shown := msg;
    ghost var after;
    msg, after := Follow(msg, dismissed, references, headers, budget);
    ghost var before := msg;
    msg, contextOmitted := WriteContext(msg, headers.context, context, budget);
    parts := Parts(kept, sections, after, before);
    if |Whole(head, diff, inc, dismissed, references, context, headers)| + Reserved(inc) <= budget {
      WholeIsLonger(head, diff, inc, dismissed, references, context, headers);
      NothingOmitted(diff, budget - |head| - HEADROOM);
      assert head + diff + OmissionNote([]) == head + diff;
      WholeFits(head, diff, inc, dismissed, references, context, headers, budget, shown, after, before, msg, contextOmitted);
    }
  }

  /** The head, the diff with its note, and the re-review's sections. */
  method Open(head: string, diff: string, inc: Option<Incremental>, budget: int)
    returns (msg: string, omitted: seq<string>, ghost kept: string, ghost sections: string)
    requires inc.Some? ==> Sized(inc.value)
    ensures kept == Fitted(diff, budget - |head| - HEADROOM).0 && omitted == Paths(Fitted(diff, budget - |head| - HEADROOM).1)
    ensures msg == head + kept + OmissionNote(omitted) + sections && head + kept <= msg
    ensures sections == IncrementalSections(inc, budget - |head + kept + OmissionNote(omitted)|)
    ensures |msg| <= Max(budget, |head| + |kept| + |OmissionNote(omitted)|)
    ensures |head| + HEADROOM <= budget && |OmissionNote(omitted)| <= HEADROOM ==> |msg| <= budget
    ensures FitsAs(diff, budget - |head| - HEADROOM, kept, omitted)
    ensures Rereviewed(sections, inc, budget - |head + kept + OmissionNote(omitted)|)
  {
    hide Fitted, Paths, OmissionNote, IncrementalSections, FitsAs, Rereviewed;
    var room := budget - |head| - HEADROOM;
    var diffKept;
    diffKept, omitted := FitDiff(diff, room);
    kept := diffKept;
    FittedFacts(diff, room);
    FittedAs(diff, room);
    msg := head + diffKept;
    msg := msg + OmissionNote(omitted);
    IncrementalFits(inc, budget - |msg|);
    SectionsAreRereviewed(inc, budget - |msg|);
    var shown := Incrementals(inc, budget - |msg|);
    sections := shown;
    msg := msg + shown;
  }

  lemma WholeIsLonger(head: string, diff: string, inc: Option<Incremental>, dismissed: seq<string>, references: seq<string>,
                      context: seq<string>, headers: Headers)
    ensures |head| + |diff| <= |Whole(head, diff, inc, dismissed, references, context, headers)|
    ensures Reserved(inc) >= HEADROOM
  {
    hide AllOfIt, Headed;
  }

  lemma NothingOmitted(diff: string, room: int)
    requires |diff| <= room
    ensures Fitted(diff, room) == (diff, []) && Paths([]) == [] && OmissionNote([]) == ""
  {
  }

  method Follow(b: string, dismissed: seq<string>, references: seq<string>, headers: Headers, budget: int)
    returns (out: string, ghost after: string)
    ensures |out| <= Max(|b|, budget) && b <= after <= out
    ensures EntriesWritten(after, b, headers.dismissed, dismissed, budget)
    ensures EntriesWritten(out, after, headers.references, references, budget)
  {
    hide EntriesWritten;
    out := WriteEntries(b, headers.dismissed, dismissed, budget);
    after := out;
    out := WriteEntries(out, headers.references, references, budget);
  }
}
