/**
  Masking secrets (internal/adapter/record.go, internal/runner/spec.go): every occurrence of each secret, and
  of its JSON-escaped forms, becomes three stars, longest secrets first. How JSON escapes a text is a parameter.
 */
module Masking {
  import opened Prelude
  import opened Text

  ghost predicate Contains(text: string, s: string) {
    exists i :: OccursAt(text, s, i)
  }

  predicate OccursAt(text: string, s: string, i: int) {
    0 <= i <= |text| - |s| && text[i..i + |s|] == s
  }

  const STARS := "***"

  /** strings.ReplaceAll with three stars, of a non-empty s: from the left, without overlaps. */
  function ReplaceAll(text: string, s: string): string
    requires s != ""
    decreases |text|
  {
    if text == "" then ""
    else if s <= text then STARS + ReplaceAll(text[|s|..], s)
    else [text[0]] + ReplaceAll(text[1..], s)
  }

  // ---- One pass ----

  /** No stars an inserted "***" could complete: none at either end, and no three in a row. */
  ghost predicate Unstarred(s: string) {
    s != "" && s[0] != '*' && s[|s| - 1] != '*' && !Contains(s, STARS)
  }

  /** What an unstarred string may end in. */
  predicate Tail(u: string) {
    (u != "" ==> u[|u| - 1] != '*') && !(STARS <= u)
  }

  lemma TailOf(s: string, k: nat)
    requires Unstarred(s) && k <= |s|
    ensures Tail(s[k..])
  {
    if k + 3 <= |s| {
      assert !OccursAt(s, STARS, k);
      assert s[k..][..3] == s[k..k + 3];
    }
  }

  lemma ReplacedHead(text: string, b: string)
    requires b != "" && text != ""
    ensures b <= text ==> ReplaceAll(text, b) == STARS + ReplaceAll(text[|b|..], b)
    ensures !(b <= text) ==> ReplaceAll(text, b) == [text[0]] + ReplaceAll(text[1..], b)
  {
  }

  /** What of an unstarred s the replaced text begins with, the text began with. */
  lemma {:induction false} PrefixWasThere(text: string, b: string, s: string, k: nat)
    requires b != "" && Unstarred(s) && k <= |s| && s[k..] <= ReplaceAll(text, b)
    ensures s[k..] <= text
    decreases |text|
  {
    hide ReplaceAll, Unstarred;
    var u := s[k..];
    TailOf(s, k);
    if text == "" {
      NothingReplaced(b);
    } else {
      ReplacedHead(text, b);
      var out := ReplaceAll(text, b);
      if b <= text {
        assert out[..3] == STARS;
        if u != "" {
          StarsAreNoTail(u, out);
        }
      } else if u != "" {
        assert out[0] == text[0] && out[1..] == ReplaceAll(text[1..], b);
        assert u[1..] == s[k + 1..] && u[1..] <= out[1..];
        PrefixWasThere(text[1..], b, s, k + 1);
        assert u == [u[0]] + u[1..] && text == [text[0]] + text[1..];
      }
    }
  }

  lemma NothingReplaced(b: string)
    requires b != ""
    ensures ReplaceAll("", b) == ""
  {
  }

  lemma StarsAreNoTail(u: string, out: string)
    requires u != "" && u <= out && |out| >= 3 && out[..3] == STARS
    ensures !Tail(u)
  {
    assert forall k :: 0 <= k < 3 ==> out[k] == out[..3][k] == '*';
    assert forall k :: 0 <= k < |u| ==> u[k] == out[k];
  }

  lemma OccursLater(text: string, s: string, n: nat, i: int)
    requires n <= |text| && n <= i && OccursAt(text, s, i)
    ensures OccursAt(text[n..], s, i - n)
  {
    assert text[n..][i - n..i - n + |s|] == text[i..i + |s|];
  }

  lemma OccursEarlier(text: string, s: string, n: nat)
    requires n <= |text| && Contains(text[n..], s)
    ensures Contains(text, s)
  {
    var i :| OccursAt(text[n..], s, i);
    assert text[n..][i..i + |s|] == text[n + i..n + i + |s|];
    assert OccursAt(text, s, n + i);
  }

  lemma OccursFirst(text: string, s: string)
    ensures s <= text <==> OccursAt(text, s, 0)
  {
  }

  /** Masking b recreates nothing: an unstarred s in the result was in the text. */
  lemma {:induction false} NothingIsRecreated(text: string, b: string, s: string)
    requires b != "" && Unstarred(s) && Contains(ReplaceAll(text, b), s)
    ensures Contains(text, s)
    decreases |text|
  {
    hide ReplaceAll, Contains, OccursAt;
    var out := ReplaceAll(text, b);
    var i := Occurrence(out, s);
    if text == "" {
      NothingReplaced(b);
    } else {
      ReplacedHead(text, b);
      if b <= text {
        NotInTheStars(out, s, i);
        OccursLater(out, s, 3, i);
        assert out[3..] == ReplaceAll(text[|b|..], b);
        IsContained(out[3..], s, i - 3);
        NothingIsRecreated(text[|b|..], b, s);
        OccursEarlier(text, s, |b|);
      } else if i == 0 {
        OccursFirst(out, s);
        assert s[0..] == s;
        PrefixWasThere(text, b, s, 0);
        OccursFirst(text, s);
        IsContained(text, s, 0);
      } else {
        OccursLater(out, s, 1, i);
        assert out[1..] == ReplaceAll(text[1..], b);
        IsContained(out[1..], s, i - 1);
        NothingIsRecreated(text[1..], b, s);
        OccursEarlier(text, s, 1);
      }
    }
  }

  lemma Occurrence(text: string, s: string) returns (i: int)
    requires Contains(text, s)
    ensures 0 <= i <= |text| - |s| && OccursAt(text, s, i)
  {
    i :| OccursAt(text, s, i);
  }

  lemma IsContained(text: string, s: string, i: int)
    requires OccursAt(text, s, i)
    ensures Contains(text, s)
  {
  }

  lemma NotInTheStars(out: string, s: string, i: int)
    requires s != "" && s[0] != '*' && |out| >= 3 && out[..3] == STARS && OccursAt(out, s, i)
    ensures i >= 3
  {
    assert forall k :: 0 <= k < 3 ==> out[k] == out[..3][k] == '*';
    assert s[0] == out[i..i + |s|][0] == out[i];
  }

  /** A pass removes its own secret. */
  lemma {:induction false} PassRemovesItsSecret(text: string, s: string)
    requires Unstarred(s)
    ensures !Contains(ReplaceAll(text, s), s)
    decreases |text|
  {
    hide ReplaceAll, Contains, OccursAt;
    var out := ReplaceAll(text, s);
    if text == "" {
      NothingReplaced(s);
      NotInNothing(s);
    } else {
      ReplacedHead(text, s);
      if s <= text {
        PassRemovesItsSecret(text[|s|..], s);
        assert out[3..] == ReplaceAll(text[|s|..], s);
        if Contains(out, s) {
          var i := Occurrence(out, s);
          NotInTheStars(out, s, i);
          OccursLater(out, s, 3, i);
          IsContained(out[3..], s, i - 3);
        }
      } else {
        PassRemovesItsSecret(text[1..], s);
        assert out[1..] == ReplaceAll(text[1..], s);
        if Contains(out, s) {
          var i := Occurrence(out, s);
          if i == 0 {
            OccursFirst(out, s);
            assert s[0..] == s;
            PrefixWasThere(text, s, s, 0);
          } else {
            OccursLater(out, s, 1, i);
            IsContained(out[1..], s, i - 1);
          }
        }
      }
    }
  }

  lemma NotInNothing(s: string)
    requires s != ""
    ensures !Contains("", s)
  {
  }

  // ---- Exactly which secrets a pass removes ----

  /** The leftmost place of s in the text. */
  ghost predicate FirstAt(text: string, s: string, i: nat) {
    OccursAt(text, s, i) && forall j :: 0 <= j < i ==> !OccursAt(text, s, j)
  }

  lemma LaterFirst(text: string, s: string, i: nat)
    requires s != "" && i > 0 && FirstAt(text, s, i)
    ensures text != "" && !OccursAt(text, s, 0) && FirstAt(text[1..], s, i - 1)
  {
    forall j | 0 <= j < i - 1 ensures !OccursAt(text[1..], s, j) {
      assert text[1..][j..j + |s|] == text[j + 1..j + 1 + |s|];
      assert !OccursAt(text, s, j + 1);
    }
    OccursLater(text, s, 1, i);
  }

  lemma OneMoreCopied(text: string, i: nat, n: nat, rest: string)
    requires 0 < i <= i + n <= |text|
    ensures text[1..][i - 1 + n..] == text[i + n..]
    ensures [text[0]] + (text[1..][..i - 1] + rest) == text[..i] + rest
  {
    assert [text[0]] + text[1..][..i - 1] == text[..i];
    Assoc([text[0]], text[1..][..i - 1], rest);
  }

  /** Up to the first occurrence a pass copies. */
  lemma {:induction false} CopiesUpToTheFirst(text: string, s: string, i: nat)
    requires s != "" && FirstAt(text, s, i)
    ensures ReplaceAll(text, s) == text[..i] + (STARS + ReplaceAll(text[i + |s|..], s))
    decreases |text|
  {
    hide ReplaceAll;
    OccursFirst(text, s);
    ReplacedHead(text, s);
    if i == 0 {
      assert text[0..|s|] == text[..|s|];
      assert text[..0] + (STARS + ReplaceAll(text[|s|..], s)) == STARS + ReplaceAll(text[|s|..], s);
    } else {
      LaterFirst(text, s, i);
      hide OccursAt, FirstAt;
      CopiesUpToTheFirst(text[1..], s, i - 1);
      OneMoreCopied(text, i, |s|, STARS + ReplaceAll(text[i + |s|..], s));
    }
  }

  /** A text too short for s is copied. */
  lemma {:induction false} ShortIsCopied(text: string, s: string)
    requires |text| < |s|
    ensures ReplaceAll(text, s) == text
    decreases |text|
  {
    if text != "" {
      ShortIsCopied(text[1..], s);
      assert text == [text[0]] + text[1..];
    }
  }

  /** A secret split around three inserted stars, u*** or part of them, v: masking u s v leaves it standing. */
  lemma Survives(s: string, u: string, v: string, k: nat)
    requires |v| < |s| && k <= |u| + 3 + |v| - |s| && (u + (STARS + v))[k..k + |s|] == s
    requires FirstAt(u + s + v, s, |u|)
    ensures Contains(ReplaceAll(u + s + v, s), s)
  {
    hide ReplaceAll, FirstAt;
    var text := u + s + v;
    CopiesUpToTheFirst(text, s, |u|);
    assert text[..|u|] == u && text[|u| + |s|..] == v;
    ShortIsCopied(v, s);
    IsContained(u + (STARS + v), s, k);
  }

  /** Where a secret overlaps itself at distance q, it repeats with period q. */
  lemma Overlap(u: string, s: string, v: string, j: nat, i: nat)
    requires j < |u| <= |s| && OccursAt(u + s + v, s, j) && u == s[..|u|]
    ensures i + (|u| - j) < |s| ==> s[i] == s[i + (|u| - j)]
    ensures i < |u| - j ==> s[j + i] == s[i]
  {
    var text, q := u + s + v, |u| - j;
    if i + q < |s| {
      assert text[j + (i + q)] == s[i];
      assert text[j..j + |s|][i + q] == s[i + q];
    }
    if i < q {
      assert text[j + i] == u[j + i] == s[j + i];
      assert text[j..j + |s|][i] == s[i];
    }
  }

  lemma StarsThenRest(s: string)
    requires s != "" && s[0] == '*'
    ensures |"" + (STARS + s[1..])| == 2 + |s| && ("" + (STARS + s[1..]))[2..2 + |s|] == s
  {
    assert STARS + s[1..] == "**" + s;
  }

  lemma AtTheStart(s: string, v: string)
    requires s != ""
    ensures FirstAt("" + s + v, s, 0)
  {
    assert ("" + s + v)[0..|s|] == s;
  }

  lemma StarFirst(s: string)
    requires s != "" && s[0] == '*'
    ensures exists text :: Contains(ReplaceAll(text, s), s)
  {
    hide ReplaceAll, Contains, FirstAt, OccursAt;
    StarsThenRest(s);
    AtTheStart(s, s[1..]);
    Survives(s, "", s[1..], 2);
  }

  lemma EarlierStartsWithAStar(s: string, j: nat)
    requires s != "" && s[|s| - 1] == '*' && j < |s| - 1 && OccursAt(s[..|s| - 1] + s + "", s, j)
    ensures s[0] == '*'
  {
    Overlap(s[..|s| - 1], s, "", j, 0);
    Overlap(s[..|s| - 1], s, "", j, j);
  }

  lemma StarLast(s: string)
    requires s != "" && s[0] != '*' && s[|s| - 1] == '*'
    ensures exists text :: Contains(ReplaceAll(text, s), s)
  {
    hide ReplaceAll, Contains;
    var n := |s| - 1;
    var u := s[..n];
    var text := u + s + "";
    assert text[n..n + |s|] == s;
    forall j | 0 <= j < n ensures !OccursAt(text, s, j) {
      if OccursAt(text, s, j) {
        EarlierStartsWithAStar(s, j);
      }
    }
    assert (u + (STARS + ""))[0..|s|] == u + ['*'] == s;
    Survives(s, u, "", 0);
  }

  lemma FirstOccurrence(text: string, s: string) returns (i: nat)
    requires Contains(text, s)
    ensures FirstAt(text, s, i)
    decreases |text|
  {
    if OccursAt(text, s, 0) {
      i := 0;
    } else {
      var k := Occurrence(text, s);
      assert k >= 1;
      OccursLater(text, s, 1, k);
      IsContained(text[1..], s, k - 1);
      var j := FirstOccurrence(text[1..], s);
      i := j + 1;
      assert text[1..][j..j + |s|] == text[i..i + |s|];
      forall m | 0 <= m < i ensures !OccursAt(text, s, m) {
        if m > 0 && OccursAt(text, s, m) {
          OccursLater(text, s, 1, m);
        }
      }
    }
  }

  lemma EarlierHoldsEarlierStars(s: string, k: nat, j: nat)
    requires OccursAt(s, STARS, k) && j < k && OccursAt(s[..k] + s + s[k + 3..], s, j)
    ensures OccursAt(s, STARS, j)
  {
    var stars := s[k..k + 3];
    assert stars[0] == s[k] && stars[1] == s[k + 1] && stars[2] == s[k + 2];
    Overlap(s[..k], s, s[k + 3..], j, j);
    Overlap(s[..k], s, s[k + 3..], j, j + 1);
    Overlap(s[..k], s, s[k + 3..], j, j + 2);
  }

  lemma StarsInside(s: string)
    requires s != "" && s[0] != '*' && Contains(s, STARS)
    ensures exists text :: Contains(ReplaceAll(text, s), s)
  {
    var k := FirstOccurrence(s, STARS);
    hide ReplaceAll, Contains;
    var u, v := s[..k], s[k + 3..];
    var text := u + s + v;
    assert text[k..k + |s|] == s;
    forall j | 0 <= j < k ensures !OccursAt(text, s, j) {
      if OccursAt(text, s, j) {
        EarlierHoldsEarlierStars(s, k, j);
      }
    }
    assert u + (STARS + v) == s by {
      assert s == s[..k] + (s[k..k + 3] + s[k + 3..]);
    }
    assert s[0..|s|] == s;
    Survives(s, u, v, 0);
  }

  /**
    A pass removes a secret from every text if and only if the secret neither begins nor ends with a star nor
    holds three in a row: otherwise a text can make the inserted stars complete it again.
   */
  lemma PassRemovesExactlyTheUnstarred(s: string)
    requires s != ""
    ensures (forall text :: !Contains(ReplaceAll(text, s), s)) <==> Unstarred(s)
  {
    if Unstarred(s) {
      forall text ensures !Contains(ReplaceAll(text, s), s) {
        PassRemovesItsSecret(text, s);
      }
    } else if s[0] == '*' {
      StarFirst(s);
    } else if s[|s| - 1] == '*' {
      StarLast(s);
    } else {
      StarsInside(s);
    }
  }

  // ---- The list of secrets ----

  /** Longest first, then by bytes. */
  predicate Precedes(a: string, b: string) {
    |a| > |b| || (|a| == |b| && Compare(a, b) < 0)
  }

  /** Into its place in a sorted list, once. */
  function Insert(sorted: seq<string>, s: string): seq<string> {
    if sorted == [] then [s]
    else if s == sorted[0] then sorted
    else if Precedes(s, sorted[0]) then [s] + sorted
    else [sorted[0]] + Insert(sorted[1..], s)
  }

  /** slices.SortFunc and slices.Compact. */
  function SortedOnce(secrets: seq<string>): seq<string> {
    if secrets == [] then [] else Insert(SortedOnce(secrets[1..]), secrets[0])
  }

  /** A secret and its JSON forms, HTML-escaped or not, each that is another string. */
  function Forms(s: string, html: string -> string, plain: string -> string): seq<string> {
    [s] + (if html(s) != s then [html(s)] else []) + (if plain(s) != s then [plain(s)] else [])
  }

  function AllForms(secrets: seq<string>, html: string -> string, plain: string -> string): seq<string> {
    if secrets == [] then []
    else
      var last := secrets[|secrets| - 1];
      AllForms(secrets[..|secrets| - 1], html, plain) + if last != "" then Forms(last, html, plain) else []
  }

  function MaskAll(secrets: seq<string>, text: string): string {
    if secrets == [] then text
    else
      var last := secrets[|secrets| - 1];
      var before := MaskAll(secrets[..|secrets| - 1], text);
      if last == "" then before else ReplaceAll(before, last)
  }

  /** Mask: the list is made once; the closure it returns masks with it. */
  method SecretsOf(plain: seq<string>, html: string -> string, json: string -> string) returns (secrets: seq<string>)
    ensures secrets == SortedOnce(AllForms(plain, html, json))
  {
    hide Forms, SortedOnce;
    secrets := [];
    for i := 0 to |plain|
      invariant secrets == AllForms(plain[..i], html, json)
    {
      assert plain[..i + 1][..i] == plain[..i];
      var s := plain[i];
      if s != "" {
        secrets := secrets + Forms(s, html, json);
      }
    }
    assert plain[..|plain|] == plain;
    secrets := SortedOnce(secrets);
  }

  /** The loop of both Mask functions: the runner's skips an empty secret, which the other's list never holds. */
  method MaskText(secrets: seq<string>, text: string) returns (masked: string)
    ensures masked == MaskAll(secrets, text)
  {
    hide ReplaceAll;
    masked := text;
    for i := 0 to |secrets|
      invariant masked == MaskAll(secrets[..i], text)
    {
      assert secrets[..i + 1][..i] == secrets[..i];
      if secrets[i] != "" {
        masked := ReplaceAll(masked, secrets[i]);
      }
    }
    assert secrets[..|secrets|] == secrets;
  }

  /** The runner's Secrets.Mask: the git token and the gateway token, the longer first. */
  method MaskRun(gitToken: string, gatewayToken: string, text: string) returns (masked: string)
    ensures masked == MaskAll(if |gatewayToken| > |gitToken| then [gatewayToken, gitToken] else [gitToken, gatewayToken], text)
  {
    var values := if |gatewayToken| > |gitToken| then [gatewayToken, gitToken] else [gitToken, gatewayToken];
    masked := MaskText(values, text);
  }

  /** None of the secrets, whatever their order, is left in any text. */
  lemma {:induction false} MaskedTextHoldsNoSecret(secrets: seq<string>, text: string, s: string)
    requires s in secrets && Unstarred(s)
    ensures !Contains(MaskAll(secrets, text), s)
    decreases |secrets|
  {
    hide ReplaceAll, Contains, Unstarred;
    var before, last := secrets[..|secrets| - 1], secrets[|secrets| - 1];
    assert secrets == before + [last];
    NotEmpty(s);
    if last == s {
      PassRemovesItsSecret(MaskAll(before, text), s);
    } else {
      MaskedTextHoldsNoSecret(before, text, s);
      if last != "" && Contains(ReplaceAll(MaskAll(before, text), last), s) {
        NothingIsRecreated(MaskAll(before, text), last, s);
      }
    }
  }

  lemma MaskOne(s: string, text: string)
    requires s != ""
    ensures MaskAll([s], text) == ReplaceAll(text, s)
  {
    hide ReplaceAll;
    assert [s][..0] == [];
  }

  /** Every list that holds a secret masks it, in every text, exactly when it is unstarred. */
  lemma EveryListMasksExactlyTheUnstarred(s: string)
    requires s != ""
    ensures (forall secrets, text :: s in secrets ==> !Contains(MaskAll(secrets, text), s)) <==> Unstarred(s)
  {
    hide MaskAll, ReplaceAll, Contains, Unstarred;
    if Unstarred(s) {
      forall secrets, text | s in secrets ensures !Contains(MaskAll(secrets, text), s) {
        MaskedTextHoldsNoSecret(secrets, text, s);
      }
    } else {
      PassRemovesExactlyTheUnstarred(s);
      var text :| Contains(ReplaceAll(text, s), s);
      MaskOne(s, text);
      assert s in [s] && Contains(MaskAll([s], text), s);
    }
  }

  lemma ContainsIsTransitive(text: string, s: string, part: string)
    requires Contains(text, s) && Contains(s, part)
    ensures Contains(text, part)
  {
    var i := Occurrence(text, s);
    var j := Occurrence(s, part);
    SliceOfSlice(text, i, |s|, j, |part|);
    IsContained(text, part, i + j);
  }

  lemma SliceOfSlice(text: string, i: nat, n: nat, j: nat, m: nat)
    requires i + n <= |text| && j + m <= n
    ensures text[i..i + n][j..j + m] == text[i + j..i + j + m]
  {
    var a, b := text[i..i + n][j..j + m], text[i + j..i + j + m];
    assert |a| == |b| && forall k :: 0 <= k < m ==> a[k] == b[k];
  }

  /** A list may mask a starred secret too: it does wherever it holds an unstarred one that is part of it. */
  lemma PartsAreMaskedToo(secrets: seq<string>, text: string, s: string, part: string)
    requires part in secrets && Unstarred(part) && Contains(s, part)
    ensures !Contains(MaskAll(secrets, text), s)
  {
    hide MaskAll, Contains, Unstarred;
    MaskedTextHoldsNoSecret(secrets, text, part);
    if Contains(MaskAll(secrets, text), s) {
      ContainsIsTransitive(MaskAll(secrets, text), s, part);
    }
  }

  lemma NotEmpty(s: string)
    requires Unstarred(s)
    ensures s != ""
  {
  }

  lemma {:induction false} InsertKeeps(sorted: seq<string>, s: string)
    ensures forall x :: x in Insert(sorted, s) <==> x in sorted || x == s
  {
    hide Precedes;
    if sorted != [] && s != sorted[0] && !Precedes(s, sorted[0]) {
      InsertKeeps(sorted[1..], s);
      assert sorted == [sorted[0]] + sorted[1..];
    }
  }

  lemma {:induction false} SortKeeps(secrets: seq<string>)
    ensures forall x :: x in SortedOnce(secrets) <==> x in secrets
  {
    if secrets != [] {
      SortKeeps(secrets[1..]);
      InsertKeeps(SortedOnce(secrets[1..]), secrets[0]);
      assert secrets == [secrets[0]] + secrets[1..];
    }
  }

  lemma {:induction false} FormsAreListed(secrets: seq<string>, html: string -> string, plain: string -> string, s: string)
    requires s in secrets && s != ""
    ensures s in AllForms(secrets, html, plain) && html(s) in AllForms(secrets, html, plain)
    ensures plain(s) in AllForms(secrets, html, plain)
    decreases |secrets|
  {
    var before, last := secrets[..|secrets| - 1], secrets[|secrets| - 1];
    assert secrets == before + [last];
    if last == s {
      assert s in Forms(s, html, plain) && html(s) in Forms(s, html, plain) && plain(s) in Forms(s, html, plain);
    } else {
      FormsAreListed(before, html, plain, s);
    }
  }

  /** No secret is left in any text, as it is or as JSON escapes it. */
  lemma NoSecretInAnyForm(plain: seq<string>, html: string -> string, json: string -> string, text: string, s: string)
    requires s in plain && Unstarred(s)
    ensures
      var masked := MaskAll(SortedOnce(AllForms(plain, html, json)), text);
      && !Contains(masked, s)
      && (Unstarred(html(s)) ==> !Contains(masked, html(s)))
      && (Unstarred(json(s)) ==> !Contains(masked, json(s)))
  {
    hide MaskAll, SortedOnce, AllForms, Contains, Unstarred;
    var all := AllForms(plain, html, json);
    NotEmpty(s);
    FormsAreListed(plain, html, json, s);
    SortKeeps(all);
    MaskedTextHoldsNoSecret(SortedOnce(all), text, s);
    if Unstarred(html(s)) {
      MaskedTextHoldsNoSecret(SortedOnce(all), text, html(s));
    }
    if Unstarred(json(s)) {
      MaskedTextHoldsNoSecret(SortedOnce(all), text, json(s));
    }
  }

  // ---- Longest first ----

  ghost predicate LongestFirst(secrets: seq<string>) {
    forall i, j :: 0 <= i < j < |secrets| ==> Precedes(secrets[i], secrets[j])
  }

  lemma PrecedesOrder(a: string, b: string, c: string)
    ensures a == b || Precedes(a, b) || Precedes(b, a)
    ensures Precedes(a, b) && Precedes(b, c) ==> Precedes(a, c)
    ensures !Precedes(a, a)
  {
    CompareIsAntisymmetric(a, b);
    if Compare(a, b) < 0 && Compare(b, c) < 0 {
      CompareIsTransitive(a, b, c);
    }
  }

  lemma {:induction false} InsertSorts(sorted: seq<string>, s: string)
    requires LongestFirst(sorted)
    ensures LongestFirst(Insert(sorted, s))
    decreases |sorted|
  {
    hide Precedes;
    if sorted == [] || s == sorted[0] {
    } else if Precedes(s, sorted[0]) {
      forall j | 0 <= j < |sorted| ensures Precedes(s, sorted[j]) {
        if j > 0 {
          PrecedesOrder(s, sorted[0], sorted[j]);
        }
      }
    } else {
      PrecedesOrder(s, sorted[0], s);
      InsertKeeps(sorted[1..], s);
      InsertSorts(sorted[1..], s);
      var rest := Insert(sorted[1..], s);
      forall j | 0 <= j < |rest| ensures Precedes(sorted[0], rest[j]) {
        assert rest[j] in rest;
      }
    }
  }

  lemma {:induction false} SortIsLongestFirst(secrets: seq<string>)
    ensures LongestFirst(SortedOnce(secrets))
  {
    hide Insert;
    if secrets != [] {
      SortIsLongestFirst(secrets[1..]);
      InsertSorts(SortedOnce(secrets[1..]), secrets[0]);
    }
  }

  /** A text that does not hold b is copied. */
  lemma {:induction false} WithoutItCopied(text: string, b: string)
    requires b != "" && !Contains(text, b)
    ensures ReplaceAll(text, b) == text
    decreases |text|
  {
    hide Contains;
    if text != "" {
      if b <= text {
        OccursFirst(text, b);
        IsContained(text, b, 0);
      } else {
        if Contains(text[1..], b) {
          OccursEarlier(text, b, 1);
        }
        WithoutItCopied(text[1..], b);
        assert text == [text[0]] + text[1..];
      }
    }
  }

  lemma WholeIsReplaced(s: string)
    requires s != ""
    ensures ReplaceAll(s, s) == STARS
  {
    assert s[|s|..] == "";
    NothingReplaced(s);
  }

  lemma StarsAreCopied(b: string)
    requires Unstarred(b)
    ensures ReplaceAll(STARS, b) == STARS
  {
    hide ReplaceAll;
    if i :| OccursAt(STARS, b, i) {
      assert STARS[i] == STARS[i..i + |b|][0] == b[0];
    }
    WithoutItCopied(STARS, b);
  }

  /** Masking one by one, with a prefix of a longest-first list: the secret itself is whole until its turn, then stars. */
  lemma {:induction false} MaskedWhole(secrets: seq<string>, k: nat, n: nat)
    requires LongestFirst(secrets) && forall x :: x in secrets ==> Unstarred(x)
    requires k < |secrets| && n <= |secrets|
    ensures MaskAll(secrets[..n], secrets[k]) == if n <= k then secrets[k] else STARS
    decreases n
  {
    hide ReplaceAll, Unstarred;
    var s := secrets[k];
    if n > 0 {
      MaskedWhole(secrets, k, n - 1);
      var last := secrets[n - 1];
      NotEmpty(last);
      assert secrets[..n][..n - 1] == secrets[..n - 1];
      if n - 1 == k {
        WholeIsReplaced(s);
      } else if n - 1 < k {
        assert Precedes(last, s);
        NotInShorter(last, s);
        WithoutItCopied(s, last);
      } else {
        StarsAreCopied(last);
      }
    }
  }

  lemma NotInShorter(a: string, b: string)
    requires Precedes(a, b) && a != ""
    ensures !Contains(b, a)
  {
    PrecedesOrder(a, b, a);
    if i :| OccursAt(b, a, i) {
      OccursInShort(b, a, i);
    }
  }

  lemma OccursInShort(text: string, s: string, i: int)
    requires |s| >= |text| && OccursAt(text, s, i)
    ensures s == text
  {
    assert i == 0 && text[0..|s|] == text;
  }

  /** A secret alone is masked whole, though others be part of it: it becomes three stars and nothing else. */
  lemma SecretsAreMaskedWhole(plain: seq<string>, html: string -> string, json: string -> string, s: string)
    requires s in plain && s != "" && forall x :: x in AllForms(plain, html, json) ==> Unstarred(x)
    ensures MaskAll(SortedOnce(AllForms(plain, html, json)), s) == STARS
  {
    hide MaskAll, AllForms, Unstarred, Insert, Precedes;
    var all := AllForms(plain, html, json);
    var secrets := SortedOnce(all);
    FormsAreListed(plain, html, json, s);
    SortKeeps(all);
    SortIsLongestFirst(all);
    var k :| 0 <= k < |secrets| && secrets[k] == s;
    MaskedWhole(secrets, k, |secrets|);
    assert secrets[..|secrets|] == secrets;
  }
}
