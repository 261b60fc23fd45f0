/**
  Trimming a runner's prompt to what its Secret can carry (internal/runner/spec.go). Cutting a text at a rune
  boundary and the size of the encoded prompt are parameters; a size of None is an encoding that failed.
 */
module RunnerPrompt {
  import opened Prelude

  const MAX_PRIOR_FINDINGS := 200
  const MAX_BODY_BYTES := 64 * 1024
  const MAX_ISSUE_BYTES := 16 * 1024
  const MAX_PROMPT_BYTES := 768 * 1024

  /** What Trim cuts: the body, the issues' bodies, and the findings of two kinds. */
  datatype Parts = Parts(body: string, issues: seq<string>, prior: seq<string>, dismissed: seq<string>)

  type Size = Parts -> Option<nat>

  /** The first half of each list. */
  function Halved(p: Parts): Parts {
    p.(prior := p.prior[..|p.prior| / 2], dismissed := p.dismissed[..|p.dismissed| / 2])
  }

  function HalvedTimes(p: Parts, n: nat): Parts {
    if n == 0 then p else Halved(HalvedTimes(p, n - 1))
  }

  /** No further halving: nothing is left to halve, the prompt fits, or it cannot be encoded. */
  predicate Settled(p: Parts, size: Size) {
    (p.prior == [] && p.dismissed == []) || size(p).None? || size(p).value <= MAX_PROMPT_BYTES
  }

  function First(lines: seq<string>): seq<string> {
    lines[..Min(|lines|, MAX_PRIOR_FINDINGS)]
  }

  function CutAll(texts: seq<string>, cut: (string, nat) -> string): seq<string> {
    if texts == [] then []
    else CutAll(texts[..|texts| - 1], cut) + [cut(texts[|texts| - 1], MAX_ISSUE_BYTES)]
  }

  function Capped(p: Parts, cut: (string, nat) -> string): Parts {
    Parts(cut(p.body, MAX_BODY_BYTES), CutAll(p.issues, cut), First(p.prior), First(p.dismissed))
  }

  /** The fewest halvings that settle it. */
  ghost predicate Fewest(p: Parts, size: Size, n: nat) {
    Settled(HalvedTimes(p, n), size) && forall k :: 0 <= k < n ==> !Settled(HalvedTimes(p, k), size)
  }

  ghost predicate NoneSettled(p: Parts, size: Size, n: nat) {
    forall k :: 0 <= k < n ==> !Settled(HalvedTimes(p, k), size)
  }

  lemma NotHalved(p: Parts, size: Size)
    ensures HalvedTimes(p, 0) == p && NoneSettled(p, size, 0)
  {
  }

  lemma SettledIs(p: Parts, size: Size)
    ensures Settled(p, size) <==> (p.prior == [] && p.dismissed == []) || size(p).None? || size(p).value <= MAX_PROMPT_BYTES
  {
  }

  lemma HalvedIs(p: Parts)
    ensures Halved(p) == Parts(p.body, p.issues, p.prior[..|p.prior| / 2], p.dismissed[..|p.dismissed| / 2])
  {
  }

  lemma HalvedOnce(p: Parts, size: Size, n: nat)
    requires NoneSettled(p, size, n) && !Settled(HalvedTimes(p, n), size)
    ensures NoneSettled(p, size, n + 1) && HalvedTimes(p, n + 1) == Halved(HalvedTimes(p, n))
  {
    hide Settled, Halved;
  }

  lemma FewestIs(p: Parts, size: Size, n: nat)
    requires NoneSettled(p, size, n) && Settled(HalvedTimes(p, n), size)
    ensures Fewest(p, size, n)
  {
    hide Settled, HalvedTimes;
  }

  class Prompt {
    var body: string
    var issues: seq<string>
    var prior: seq<string>
    var dismissed: seq<string>

    ghost function Abs(): Parts
      reads this
    {
      Parts(body, issues, prior, dismissed)
    }

    /** Trim: it caps each part, then halves the findings exactly as often as it must. */
    method Trim(cut: (string, nat) -> string, size: Size)
      modifies this
      ensures exists n :: Fewest(Capped(old(Abs()), cut), size, n) && Abs() == HalvedTimes(Capped(old(Abs()), cut), n)
    {
      hide CutAll, Fewest, HalvedTimes;
      body := cut(body, MAX_BODY_BYTES);
      CutIssues(cut);
      prior := prior[..Min(|prior|, MAX_PRIOR_FINDINGS)];
      dismissed := dismissed[..Min(|dismissed|, MAX_PRIOR_FINDINGS)];
      assert Abs() == Capped(old(Abs()), cut);
      HalveToFit(size);
    }

    /** The loop of halvings. */
    method HalveToFit(size: Size)
      modifies `prior, `dismissed
      ensures exists n :: Fewest(old(Abs()), size, n) && Abs() == HalvedTimes(old(Abs()), n)
    {
      hide Fewest, HalvedTimes, Halved;
      ghost var capped := Abs();
      ghost var n: nat := 0;
      NotHalved(capped, size);
      while |prior| > 0 || |dismissed| > 0
        invariant Abs() == HalvedTimes(capped, n) && NoneSettled(capped, size, n)
        decreases |prior| + |dismissed|
      {
        var bytes := size(Parts(body, issues, prior, dismissed));
        if bytes.None? || bytes.value <= MAX_PROMPT_BYTES {
          SettledIs(Abs(), size);
          FewestIs(capped, size, n);
          return;
        }
        SettledIs(Abs(), size);
        HalvedOnce(capped, size, n);
        HalvedIs(Abs());
        prior := prior[..|prior| / 2];
        dismissed := dismissed[..|dismissed| / 2];
        n := n + 1;
      }
      SettledIs(Abs(), size);
      FewestIs(capped, size, n);
    }

    method CutIssues(cut: (string, nat) -> string)
      modifies `issues
      ensures issues == CutAll(old(issues), cut)
    {
      for i := 0 to |issues|
        invariant |issues| == |old(issues)| && issues[..i] == CutAll(old(issues)[..i], cut)
        invariant issues[i..] == old(issues)[i..]
      {
        assert old(issues)[..i + 1][..i] == old(issues)[..i];
        assert issues[i] == issues[i..][0] == old(issues)[i];
        ghost var rest := issues[i..][1..];
        issues := issues[i := cut(issues[i], MAX_ISSUE_BYTES)];
        assert issues[i + 1..] == rest == old(issues)[i..][1..];
      }
      assert old(issues)[..|old(issues)|] == old(issues) && issues[..|issues|] == issues;
    }
  }

  /** Halving keeps a prefix, of at most the length over two to the n. */
  lemma {:induction false} HalvingKeepsTheFirst(p: Parts, n: nat)
    ensures
      var q := HalvedTimes(p, n);
      q.prior <= p.prior && q.dismissed <= p.dismissed && q.body == p.body && q.issues == p.issues
  {
    if n > 0 {
      HalvingKeepsTheFirst(p, n - 1);
    }
  }

  /** After eight halvings of what Trim caps nothing is left, so that it encodes at most nine times. */
  lemma EightHalvingsEmpty(p: Parts, cut: (string, nat) -> string)
    ensures
      var q := HalvedTimes(Capped(p, cut), 8);
      q.prior == [] && q.dismissed == []
  {
    var c := Capped(p, cut);
    TwoHalvings(c, 0);
    TwoHalvings(c, 2);
    TwoHalvings(c, 4);
    TwoHalvings(c, 6);
    assert HalvedTimes(c, 0) == c;
  }

  lemma TwoHalvings(p: Parts, n: nat)
    ensures
      var a, b := HalvedTimes(p, n), HalvedTimes(p, n + 2);
      |b.prior| <= |a.prior| / 4 && |b.dismissed| <= |a.dismissed| / 4
  {
    assert HalvedTimes(p, n + 2) == Halved(HalvedTimes(p, n + 1));
    assert HalvedTimes(p, n + 1) == Halved(HalvedTimes(p, n));
  }

  lemma {:induction false} CutAllAt(texts: seq<string>, cut: (string, nat) -> string)
    ensures |CutAll(texts, cut)| == |texts|
    ensures forall i :: 0 <= i < |texts| ==> CutAll(texts, cut)[i] == cut(texts[i], 16384)
    decreases |texts|
  {
    if texts != [] {
      CutAllAt(texts[..|texts| - 1], cut);
    }
  }

  /**
    What Trim leaves, of any prompt and for any encoding: it fits, cannot be encoded or carries no finding; its
    findings are the first of those it had, in order; and one halving fewer would not have done. Its body and its
    issues are cut, and nothing of either kind of finding goes beyond the cap unless it must.
   */
  lemma TrimmedPromptFits(p: Parts, cut: (string, nat) -> string, size: Size, n: nat)
    requires Fewest(Capped(p, cut), size, n)
    ensures
      var q := HalvedTimes(Capped(p, cut), n);
      && n <= 8
      && (size(q).Some? && size(q).value > MAX_PROMPT_BYTES ==> q.prior == [] && q.dismissed == [])
      && q.prior <= p.prior && q.dismissed <= p.dismissed
      && |q.prior| <= MAX_PRIOR_FINDINGS && |q.dismissed| <= MAX_PRIOR_FINDINGS
      && (n > 0 ==> size(HalvedTimes(Capped(p, cut), n - 1)).Some? &&
                    size(HalvedTimes(Capped(p, cut), n - 1)).value > MAX_PROMPT_BYTES)
      && (n == 0 ==> |q.prior| == Min(|p.prior|, 200) && |q.dismissed| == Min(|p.dismissed|, 200))
      && q.body == cut(p.body, 65536) && |q.issues| == |p.issues|
      && (forall i :: 0 <= i < |p.issues| ==> q.issues[i] == cut(p.issues[i], 16384))
  {
    CutAllAt(p.issues, cut);
    HalvingKeepsTheFirst(Capped(p, cut), n);
    EightHalvingsEmpty(p, cut);
    assert Settled(HalvedTimes(Capped(p, cut), 8), size);
    hide HalvedTimes;
  }
}
