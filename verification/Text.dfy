/**
  Byte strings as the Go code handles them. A `string` here stands for bytes, one
  char a byte; white space is the ASCII set, the part of Go's that is one byte.
 */
module Text {
  import opened Prelude

  /** strings.IndexByte: the first position of `c`, or -1. */
  function IndexOf(s: string, c: char): (i: int)
    ensures -1 <= i < |s|
    ensures i >= 0 ==> s[i] == c && c !in s[..i]
    ensures i < 0 ==> c !in s
  {
    if s == [] then -1
    else if s[0] == c then 0
    else
      var rest := IndexOf(s[1..], c);
      if rest < 0 then -1 else rest + 1
  }

  lemma IndexOfConcat(a: string, c: char, b: string)
    requires c !in a
    ensures IndexOf(a + [c] + b, c) == |a|
  {
    var s := a + [c] + b;
    var i := IndexOf(s, c);
    assert s[|a|] == c;
    assert forall k :: 0 <= k < |a| ==> s[k] == a[k];
    assert forall k :: |a| < k <= |s| ==> s[..k][|a|] == c;
  }

  /** strings.HasPrefix. */
  predicate HasPrefix(s: string, prefix: string) {
    prefix <= s
  }

  /** strings.TrimPrefix. */
  function TrimPrefix(s: string, prefix: string): string {
    if HasPrefix(s, prefix) then s[|prefix|..] else s
  }

  // ---- Lines ----

  /** strings.Split at newlines: at least one part, none holding a newline. */
  function Split(s: string): (lines: seq<string>)
    ensures |lines| >= 1
    ensures forall l :: l in lines ==> '\n' !in l
    decreases |s|
  {
    var i := IndexOf(s, '\n');
    if i < 0 then [s] else [s[..i]] + Split(s[i + 1..])
  }

  /** strings.Join with newlines. */
  function Join(lines: seq<string>): string {
    if lines == [] then ""
    else if |lines| == 1 then lines[0]
    else lines[0] + "\n" + Join(lines[1..])
  }

  lemma JoinCons(line: string, lines: seq<string>)
    requires lines != []
    ensures Join([line] + lines) == line + "\n" + Join(lines)
  {
    assert ([line] + lines)[1..] == lines;
  }

  lemma {:induction false} JoinSplit(s: string)
    ensures Join(Split(s)) == s
    decreases |s|
  {
    hide Join;
    var i := IndexOf(s, '\n');
    if i >= 0 {
      var rest := Split(s[i + 1..]);
      JoinSplit(s[i + 1..]);
      JoinCons(s[..i], rest);
      assert s == s[..i] + "\n" + s[i + 1..];
    } else {
      JoinOne(s);
    }
  }

  lemma JoinOne(line: string)
    ensures Join([line]) == line
  {
  }

  lemma {:induction false} SplitJoin(lines: seq<string>)
    requires lines != [] && forall l :: l in lines ==> '\n' !in l
    ensures Split(Join(lines)) == lines
  {
    var s := Join(lines);
    if |lines| == 1 {
      assert '\n' !in lines[0];
    } else {
      var rest := Join(lines[1..]);
      SplitJoin(lines[1..]);
      assert s == lines[0] + ['\n'] + rest;
      IndexOfConcat(lines[0], '\n', rest);
      assert s[..|lines[0]|] == lines[0] && s[|lines[0]| + 1..] == rest;
    }
  }

  lemma SplitOneLine(s: string)
    requires '\n' !in s
    ensures Split(s) == [s]
  {
  }

  /** A first line split off the rest. */
  lemma SplitLine(line: string, rest: string)
    requires '\n' !in line
    ensures Split(line + "\n" + rest) == [line] + Split(rest)
  {
    var s := line + ['\n'] + rest;
    IndexOfConcat(line, '\n', rest);
    assert s[..|line|] == line && s[|line| + 1..] == rest;
  }

  // ---- Order ----

  /** strings.Compare: a byte at a time, a prefix first. */
  function Compare(a: string, b: string): int {
    if a == b then 0
    else if a == "" then -1
    else if b == "" then 1
    else if a[0] != b[0] then (if a[0] < b[0] then -1 else 1)
    else Compare(a[1..], b[1..])
  }

  /** They agree up to k, where `a` ends or has the smaller byte. */
  predicate PartAt(a: string, b: string, k: nat) {
    && k <= |a| && k < |b| && a[..k] == b[..k]
    && (k == |a| || a[k] < b[k])
  }

  ghost predicate Earlier(a: string, b: string) {
    exists k: nat :: PartAt(a, b, k)
  }

  /** What strings.Compare puts first is a proper prefix, or has the smaller byte where the two first differ. */
  lemma {:induction false} ComparesByFirstDifference(a: string, b: string)
    ensures Compare(a, b) < 0 <==> Earlier(a, b)
    decreases |a|
  {
    if a == b {
      assert forall k: nat :: k < |a| ==> a[k] == b[k];
    } else if a == "" {
      assert PartAt(a, b, 0);
    } else if b == "" {
    } else if a[0] != b[0] {
      if a[0] < b[0] {
        assert PartAt(a, b, 0);
      }
      assert forall k: nat :: 0 < k <= |a| && k < |b| ==> a[..k][0] != b[..k][0];
    } else {
      var x, y := a[1..], b[1..];
      ComparesByFirstDifference(x, y);
      forall k: nat ensures PartAt(a, b, k + 1) == PartAt(x, y, k) {
        PartLater(a, b, k);
      }
      assert !PartAt(a, b, 0);
      assert forall k: nat :: PartAt(a, b, k) ==> k > 0 && PartAt(x, y, k - 1) by {
        forall k: nat | PartAt(a, b, k) ensures k > 0 && PartAt(x, y, k - 1) {
          assert PartAt(a, b, (k - 1) + 1) == PartAt(x, y, k - 1);
        }
      }
    }
  }

  lemma PartLater(a: string, b: string, k: nat)
    requires a != "" && b != "" && a[0] == b[0]
    ensures PartAt(a, b, k + 1) == PartAt(a[1..], b[1..], k)
  {
    if k + 1 <= |a| && k + 1 <= |b| {
      assert a[..k + 1] == [a[0]] + a[1..][..k];
      assert b[..k + 1] == [b[0]] + b[1..][..k];
    }
  }

  lemma {:induction false} CompareIsAntisymmetric(a: string, b: string)
    ensures Compare(a, b) == -Compare(b, a)
    ensures Compare(a, b) == 0 <==> a == b
    decreases |a|
  {
    if a != "" && b != "" && a[0] == b[0] {
      CompareIsAntisymmetric(a[1..], b[1..]);
      assert a == [a[0]] + a[1..] && b == [b[0]] + b[1..];
    }
  }

  lemma {:induction false} CompareIsTransitive(a: string, b: string, c: string)
    requires Compare(a, b) < 0 && Compare(b, c) < 0
    ensures Compare(a, c) < 0
    decreases |a|
  {
    if a != "" && b != "" && c != "" && a[0] == b[0] == c[0] {
      CompareIsTransitive(a[1..], b[1..], c[1..]);
    }
  }

  // ---- White space ----

  predicate IsSpace(c: char) {
    c == ' ' || ('\t' <= c <= '\r')
  }

  function TrimLeft(s: string): (t: string)
    ensures |t| <= |s| && t == s[|s| - |t|..]
    ensures t != [] ==> !IsSpace(t[0])
    ensures forall i :: 0 <= i < |s| - |t| ==> IsSpace(s[i])
  {
    if s != [] && IsSpace(s[0]) then TrimLeft(s[1..]) else s
  }

  function TrimRight(s: string): (t: string)
    ensures t <= s
    ensures t != [] ==> !IsSpace(t[|t| - 1])
    ensures forall i :: |t| <= i < |s| ==> IsSpace(s[i])
  {
    if s != [] && IsSpace(s[|s| - 1]) then TrimRight(s[..|s| - 1]) else s
  }

  /** strings.TrimSpace. */
  function TrimSpace(s: string): (t: string)
    ensures |t| <= |s|
    ensures t != [] ==> !IsSpace(t[0]) && !IsSpace(t[|t| - 1])
  {
    TrimRight(TrimLeft(s))
  }

  ghost predicate NoSpace(s: string) {
    forall i :: 0 <= i < |s| ==> !IsSpace(s[i])
  }

  function WordLen(s: string): (n: nat)
    ensures n <= |s|
    ensures NoSpace(s[..n])
    ensures n < |s| ==> IsSpace(s[n])
  {
    if s == [] || IsSpace(s[0]) then 0 else 1 + WordLen(s[1..])
  }

  /** strings.Fields: the words between runs of white space. */
  function Fields(s: string): seq<string>
    decreases |s|
  {
    if s == [] then []
    else if IsSpace(s[0]) then Fields(s[1..])
    else
      var n := WordLen(s);
      [s[..n]] + Fields(s[n..])
  }

  lemma FieldsOfWord(word: string, rest: string)
    requires word != [] && NoSpace(word)
    requires rest == [] || IsSpace(rest[0])
    ensures Fields(word + rest) == [word] + Fields(rest)
  {
    var s := word + rest;
    var n := WordLen(s);
    assert forall k :: 0 <= k < |word| ==> s[k] == word[k];
    assert forall k :: |word| < k <= |s| ==> s[..k][|word|] == rest[0];
    assert s[..n] == word && s[n..] == rest;
    assert s[0] == word[0];
  }

  lemma FieldsOfSpace(rest: string)
    ensures Fields(" " + rest) == Fields(rest)
  {
    assert (" " + rest)[1..] == rest;
  }

  // ---- Numbers ----

  const MAX_INT := 0x7fff_ffff_ffff_ffff

  function Digit(d: nat): char
    requires d < 10
  {
    "0123456789"[d]
  }

  predicate IsDigit(c: char) {
    '0' <= c <= '9'
  }

  function DigitValue(c: char): nat
    requires IsDigit(c)
  {
    c as int - '0' as int
  }

  /** The decimal form of a number. */
  function Itoa(n: nat): (s: string)
    ensures s != []
    ensures forall i :: 0 <= i < |s| ==> IsDigit(s[i])
  {
    if n < 10 then [Digit(n)] else Itoa(n / 10) + [Digit(n % 10)]
  }

  predicate AllDigits(s: string) {
    s != [] && forall i :: 0 <= i < |s| ==> IsDigit(s[i])
  }

  function DigitsValue(s: string): nat
    requires AllDigits(s)
  {
    var last := DigitValue(s[|s| - 1]);
    if |s| == 1 then last else DigitsValue(s[..|s| - 1]) * 10 + last
  }

  /** strconv.Atoi: an optional sign and digits, within 64 bits. */
  function Atoi(s: string): Option<int> {
    var digits := if s != [] && (s[0] == '-' || s[0] == '+') then s[1..] else s;
    if !AllDigits(digits) then None
    else
      var n: int := if s[0] == '-' then 0 - DigitsValue(digits) else DigitsValue(digits);
      if -MAX_INT - 1 <= n <= MAX_INT then Some(n) else None
  }

  lemma {:induction false} DigitsRoundTrip(n: nat)
    ensures DigitsValue(Itoa(n)) == n
  {
    if n >= 10 {
      DigitsRoundTrip(n / 10);
      assert Itoa(n)[..|Itoa(n)| - 1] == Itoa(n / 10);
    }
  }

  lemma AtoiItoa(n: nat)
    requires n <= MAX_INT
    ensures Atoi(Itoa(n)) == Some(n)
  {
    DigitsRoundTrip(n);
    assert IsDigit(Itoa(n)[0]);
  }

  lemma NumbersHaveNoSpace(n: nat)
    ensures NoSpace(Itoa(n)) && ',' !in Itoa(n) && '\n' !in Itoa(n)
  {
    forall i | 0 <= i < |Itoa(n)|
      ensures !IsSpace(Itoa(n)[i])
    {
      assert IsDigit(Itoa(n)[i]);
    }
  }

  function Pow10(k: nat): nat {
    if k == 0 then 1 else 10 * Pow10(k - 1)
  }

  /** A number below 10^k has at most k digits. */
  lemma {:induction false} ItoaLength(n: nat, k: nat)
    requires k >= 1 && n < Pow10(k)
    ensures |Itoa(n)| <= k
  {
    if n >= 10 {
      assert Pow10(1) == 10 * Pow10(0);
      ItoaLength(n / 10, k - 1);
    }
  }
}
