/**
  The size guard around every template function (internal/review/sandbox.go): an early-exit measure of the
  values passed and returned, and the estimates of what a call allocates.
 */
module Measure {
  const MAX_CALL_BYTES := 4 * 65536
  const MAX_DEPTH := 64
  const NODE_BYTES := 8

  /** A value as reflection sees it. A map's entries are in the order the range over it gives them. */
  datatype Data =
    | Nothing
    | Scalar
    | Text(bytes: nat)
    | Items(items: seq<Data>)
    | Entries(entries: seq<(Data, Data)>)
    | Fields(fields: seq<Data>)
    | Ref(to: Data)

  function Indirect(v: Data): Data {
    if v.Ref? then Indirect(v.to) else v
  }

  // ---- The size in full ----

  function Size(v: Data, depth: nat): nat
    requires depth <= MAX_DEPTH
    decreases MAX_DEPTH - depth, 0
  {
    var u := Indirect(v);
    if u.Nothing? then 0
    else if depth == MAX_DEPTH then NODE_BYTES
    else if u.Text? then u.bytes
    else if u.Items? then SizeAll(u.items, depth + 1)
    else if u.Entries? then SizeEntries(u.entries, depth + 1)
    else if u.Fields? then SizeAll(u.fields, depth + 1)
    else 0
  }

  function SizeAll(items: seq<Data>, depth: nat): nat
    requires depth <= MAX_DEPTH
    decreases MAX_DEPTH - depth, 1, |items|
  {
    if items == [] then 0
    else SizeAll(items[..|items| - 1], depth) + NODE_BYTES + Size(items[|items| - 1], depth)
  }

  function SizeEntry(entry: (Data, Data), depth: nat): nat
    requires depth <= MAX_DEPTH
    decreases MAX_DEPTH - depth, 1
  {
    NODE_BYTES + Size(entry.0, depth) + Size(entry.1, depth)
  }

  function SizeEntries(entries: seq<(Data, Data)>, depth: nat): nat
    requires depth <= MAX_DEPTH
    decreases MAX_DEPTH - depth, 2, |entries|
  {
    if entries == [] then 0
    else SizeEntries(entries[..|entries| - 1], depth) + SizeEntry(entries[|entries| - 1], depth)
  }

  // ---- measure ----

  /** What measuring a value of `size` with `limit` may return: the size when it is within the limit, some value over it otherwise. */
  predicate Measured(n: int, size: int, limit: int) {
    if size <= limit then n == size else limit < n <= size
  }

  /** Sums stay measured when each part is measured against what the parts before it leave of the limit. */
  lemma MeasuredSum(sum: nat, part: int, size: nat, limit: int)
    requires sum <= limit && Measured(part, size, limit - sum)
    ensures Measured(sum + NODE_BYTES + part, sum + NODE_BYTES + size, limit)
  {
  }

  /** measure: the loops stop once past the limit. */
  method MeasureValue(v: Data, depth: nat, limit: int) returns (n: nat)
    requires depth <= MAX_DEPTH
    ensures Measured(n, Size(v, depth), limit)
    decreases MAX_DEPTH - depth, 0
  {
    var u := Indirect(v);
    if u.Nothing? {
      return 0;
    }
    if depth >= MAX_DEPTH {
      return NODE_BYTES;
    }
    if u.Text? {
      return u.bytes;
    } else if u.Items? {
      n := MeasureAll(u.items, depth + 1, limit);
    } else if u.Entries? {
      n := MeasureEntries(u.entries, depth + 1, limit);
    } else if u.Fields? {
      n := MeasureAll(u.fields, depth + 1, limit);
    } else {
      return 0;
    }
  }

  method MeasureAll(items: seq<Data>, depth: nat, limit: int) returns (n: nat)
    requires depth <= MAX_DEPTH
    ensures Measured(n, SizeAll(items, depth), limit)
    decreases MAX_DEPTH - depth, 1
  {
    n := 0;
    var i := 0;
    while i < |items| && n <= limit
      invariant i <= |items| && Measured(n, SizeAll(items[..i], depth), limit)
    {
      var m := MeasureValue(items[i], depth, limit - n);
      assert items[..i + 1][..i] == items[..i];
      MeasuredSum(n, m, Size(items[i], depth), limit);
      n := n + NODE_BYTES + m;
      i := i + 1;
    }
    SizeAllGrows(items, depth, i);
  }

  method MeasureEntries(entries: seq<(Data, Data)>, depth: nat, limit: int) returns (n: nat)
    requires depth <= MAX_DEPTH
    ensures Measured(n, SizeEntries(entries, depth), limit)
    decreases MAX_DEPTH - depth, 1
  {
    hide Measured, Size, SizeEntry;
    n := 0;
    var i := 0;
    NoEntries(entries, depth, limit);
    while i < |entries| && n <= limit
      invariant i <= |entries| && Measured(n, SizeEntries(entries[..i], depth), limit)
      invariant n <= limit ==> n == SizeEntries(entries[..i], depth)
    {
      var key := MeasureValue(entries[i].0, depth, limit - n);
      var value := MeasureValue(entries[i].1, depth, limit - n);
      MeasuredEntry(n, key, value, entries[i], depth, limit);
      EntriesSnoc(entries, depth, i);
      n := n + NODE_BYTES + key + value;
      i := i + 1;
    }
    SizeEntriesGrows(entries, depth, i);
    MeasuredEnough(n, SizeEntries(entries[..i], depth), SizeEntries(entries, depth), limit);
  }

  lemma NoEntries(entries: seq<(Data, Data)>, depth: nat, limit: int)
    requires depth <= MAX_DEPTH
    ensures SizeEntries(entries[..0], depth) == 0 && Measured(0, 0, limit)
  {
  }

  lemma MeasuredEntry(sum: nat, key: nat, value: nat, entry: (Data, Data), depth: nat, limit: int)
    requires depth <= MAX_DEPTH && sum <= limit
    requires Measured(key, Size(entry.0, depth), limit - sum) && Measured(value, Size(entry.1, depth), limit - sum)
    ensures
      var n := sum + NODE_BYTES + key + value;
      Measured(n, sum + SizeEntry(entry, depth), limit) && (n <= limit ==> n == sum + SizeEntry(entry, depth))
  {
    hide Size;
  }

  lemma EntriesSnoc(entries: seq<(Data, Data)>, depth: nat, i: nat)
    requires depth <= MAX_DEPTH && i < |entries|
    ensures SizeEntries(entries[..i + 1], depth) == SizeEntries(entries[..i], depth) + SizeEntry(entries[i], depth)
  {
    hide SizeEntry;
    assert entries[..i + 1][..i] == entries[..i];
  }

  /** Over the limit already, or measured to the end. */
  lemma MeasuredEnough(n: int, part: int, whole: int, limit: int)
    requires Measured(n, part, limit) && part <= whole && (n <= limit ==> part == whole)
    ensures Measured(n, whole, limit)
  {
  }

  lemma {:induction false} SizeAllGrows(items: seq<Data>, depth: nat, k: nat)
    requires depth <= MAX_DEPTH && k <= |items|
    ensures SizeAll(items[..k], depth) <= SizeAll(items, depth)
    ensures k == |items| ==> SizeAll(items[..k], depth) == SizeAll(items, depth)
    decreases |items|
  {
    if k == |items| {
      assert items[..k] == items;
    } else {
      assert items[..|items| - 1][..k] == items[..k];
      SizeAllGrows(items[..|items| - 1], depth, k);
    }
  }

  lemma {:induction false} SizeEntriesGrows(entries: seq<(Data, Data)>, depth: nat, k: nat)
    requires depth <= MAX_DEPTH && k <= |entries|
    ensures SizeEntries(entries[..k], depth) <= SizeEntries(entries, depth)
    ensures k == |entries| ==> SizeEntries(entries[..k], depth) == SizeEntries(entries, depth)
    decreases |entries|
  {
    if k == |entries| {
      assert entries[..k] == entries;
    } else {
      assert entries[..|entries| - 1][..k] == entries[..k];
      SizeEntriesGrows(entries[..|entries| - 1], depth, k);
    }
  }

  // ---- The bytes a value holds ----

  /** The lengths of all strings in a value. */
  function Strings(v: Data): nat {
    match v
    case Text(bytes) => bytes
    case Items(items) => StringsOf(items)
    case Fields(fields) => StringsOf(fields)
    case Entries(entries) => StringsIn(entries)
    case Ref(to) => Strings(to)
    case _ => 0
  }

  function StringsOf(items: seq<Data>): nat {
    if items == [] then 0 else Strings(items[0]) + StringsOf(items[1..])
  }

  function StringsIn(entries: seq<(Data, Data)>): nat {
    if entries == [] then 0 else StringsOfEntry(entries[0]) + StringsIn(entries[1..])
  }

  function StringsOfEntry(e: (Data, Data)): nat {
    match e
    case (key, value) => Strings(key) + Strings(value)
  }

  /** How many elements, entries and fields a value has, and those have. */
  function Nodes(v: Data): nat {
    match v
    case Items(items) => |items| + NodesOf(items)
    case Fields(fields) => |fields| + NodesOf(fields)
    case Entries(entries) => |entries| + NodesIn(entries)
    case Ref(to) => Nodes(to)
    case _ => 0
  }

  function NodesOf(items: seq<Data>): nat {
    if items == [] then 0 else Nodes(items[0]) + NodesOf(items[1..])
  }

  function NodesIn(entries: seq<(Data, Data)>): nat {
    if entries == [] then 0 else NodesOfEntry(entries[0]) + NodesIn(entries[1..])
  }

  function NodesOfEntry(e: (Data, Data)): nat {
    match e
    case (key, value) => Nodes(key) + Nodes(value)
  }

  /** Something stands `levels` down in the value. */
  predicate Holds(v: Data, levels: nat) {
    match v
    case Nothing => false
    case Ref(to) => Holds(to, levels)
    case Items(items) => levels == 0 || exists x :: x in items && Holds(x, levels - 1)
    case Fields(fields) => levels == 0 || exists x :: x in fields && Holds(x, levels - 1)
    case Entries(entries) => levels == 0 || exists e :: e in entries && (Holds(e.0, levels - 1) || Holds(e.1, levels - 1))
    case _ => levels == 0
  }

  lemma SizeOfIndirect(v: Data, depth: nat)
    requires depth <= MAX_DEPTH && v.Ref?
    ensures Size(v, depth) == Size(v.to, depth)
  {
  }

  lemma {:induction false} SizeAllCons(items: seq<Data>, depth: nat)
    requires depth <= MAX_DEPTH && items != []
    ensures SizeAll(items, depth) == 8 + Size(items[0], depth) + SizeAll(items[1..], depth)
    decreases |items|
  {
    hide Size;
    if |items| > 1 {
      var before := items[..|items| - 1];
      SizeAllCons(before, depth);
      assert before[1..] == items[1..][..|items| - 2];
    } else {
      assert items[..0] == [] && items[1..] == [];
      assert SizeAll([], depth) == 0;
    }
  }

  lemma {:induction false} SizeEntriesCons(entries: seq<(Data, Data)>, depth: nat)
    requires depth <= MAX_DEPTH && entries != []
    ensures SizeEntries(entries, depth) ==
            SizeEntry(entries[0], depth) + SizeEntries(entries[1..], depth)
    decreases |entries|
  {
    hide SizeEntry;
    if |entries| > 1 {
      var before := entries[..|entries| - 1];
      SizeEntriesCons(before, depth);
      assert before[1..] == entries[1..][..|entries| - 2];
    } else {
      assert entries[..0] == [] && entries[1..] == [];
      assert SizeEntries([], depth) == 0;
    }
  }

  /**
    The size of a value that is nested less than the depth limit is what it holds: the length of every string, and
    eight bytes for each element, entry or field.
   */
  lemma {:induction false} SizeIsWhatItHolds(v: Data, depth: nat)
    requires depth <= MAX_DEPTH && !Holds(v, MAX_DEPTH - depth)
    ensures Size(v, depth) == Strings(v) + 8 * Nodes(v)
    decreases v, 1
  {
    match v
    case Ref(to) =>
      SizeOfIndirect(v, depth);
      SizeIsWhatItHolds(to, depth);
    case Items(items) => SizesAreWhatTheyHold(items, depth + 1);
    case Fields(fields) => SizesAreWhatTheyHold(fields, depth + 1);
    case Entries(entries) => EntriesAreWhatTheyHold(entries, depth + 1);
    case _ =>
  }

  lemma {:induction false} SizesAreWhatTheyHold(items: seq<Data>, depth: nat)
    requires depth <= MAX_DEPTH && forall x :: x in items ==> !Holds(x, MAX_DEPTH - depth)
    ensures SizeAll(items, depth) == StringsOf(items) + 8 * (|items| + NodesOf(items))
    decreases items
  {
    hide Size, Strings, Nodes, Holds;
    if items != [] {
      assert items[0] in items;
      assert forall x :: x in items[1..] ==> x in items;
      SizeIsWhatItHolds(items[0], depth);
      SizesAreWhatTheyHold(items[1..], depth);
      SizeAllCons(items, depth);
    }
  }

  lemma {:induction false} EntriesAreWhatTheyHold(entries: seq<(Data, Data)>, depth: nat)
    requires depth <= MAX_DEPTH
    requires forall e :: e in entries ==> !Holds(e.0, MAX_DEPTH - depth) && !Holds(e.1, MAX_DEPTH - depth)
    ensures SizeEntries(entries, depth) == StringsIn(entries) + 8 * (|entries| + NodesIn(entries))
    decreases entries
  {
    hide Size, SizeEntry, StringsOfEntry, NodesOfEntry, Holds;
    if entries != [] {
      assert entries[0] in entries;
      assert forall e :: e in entries[1..] ==> e in entries;
      EntryIsWhatItHolds(entries[0], depth);
      EntriesAreWhatTheyHold(entries[1..], depth);
      SizeEntriesCons(entries, depth);
    }
  }

  lemma {:induction false} EntryIsWhatItHolds(e: (Data, Data), depth: nat)
    requires depth <= MAX_DEPTH && !Holds(e.0, MAX_DEPTH - depth) && !Holds(e.1, MAX_DEPTH - depth)
    ensures SizeEntry(e, depth) == 8 + StringsOfEntry(e) + 8 * NodesOfEntry(e)
    decreases e
  {
    hide Size, Strings, Nodes, Holds;
    match e
    case (key, value) =>
      SizeIsWhatItHolds(key, depth);
      SizeIsWhatItHolds(value, depth);
  }

  /** At the limit every value counts for eight bytes, so that the size is what it holds only if that is eight too. */
  lemma AtTheLimitIff(v: Data)
    requires Holds(v, 0)
    ensures Size(v, MAX_DEPTH) == Strings(v) + 8 * Nodes(v) <==> Strings(v) + 8 * Nodes(v) == 8
  {
    IndirectIsSomething(v);
  }

  lemma {:induction false} IndirectIsSomething(v: Data)
    requires Holds(v, 0)
    ensures !Indirect(v).Nothing?
  {
    if v.Ref? {
      IndirectIsSomething(v.to);
    }
  }

  // ---- A map's order does not matter ----

  lemma {:induction false} SizeWithout(entries: seq<(Data, Data)>, depth: nat, k: nat)
    requires depth <= MAX_DEPTH && k < |entries|
    ensures SizeEntries(entries, depth) ==
            SizeEntries(entries[..k] + entries[k + 1..], depth) + SizeEntry(entries[k], depth)
    decreases |entries|
  {
    hide SizeEntry;
    var last := |entries| - 1;
    var others := entries[..k] + entries[k + 1..];
    if k == last {
      assert others == entries[..last];
    } else {
      SizeWithout(entries[..last], depth, k);
      assert others[..|others| - 1] == entries[..last][..k] + entries[..last][k + 1..];
      assert others[|others| - 1] == entries[last];
    }
  }

  lemma TakenOut<T>(a: seq<T>, b: seq<T>) returns (k: nat)
    requires a != [] && multiset(a) == multiset(b)
    ensures k < |b| && b[k] == a[|a| - 1]
    ensures multiset(a[..|a| - 1]) == multiset(b[..k] + b[k + 1..])
  {
    var last := |a| - 1;
    TakeOut(a, last);
    assert a[..last] + a[last + 1..] == a[..last];
    k := Position(a[last], b);
    TakeOut(b, k);
    assert multiset(a[..last]) == multiset(a) - multiset{a[last]};
    assert multiset(b[..k] + b[k + 1..]) == multiset(b) - multiset{b[k]};
  }

  lemma Position<T>(x: T, b: seq<T>) returns (k: nat)
    requires x in multiset(b)
    ensures k < |b| && b[k] == x
  {
    assert x in b;
    k :| k < |b| && b[k] == x;
  }

  lemma TakeOut<T>(b: seq<T>, k: nat)
    requires k < |b|
    ensures multiset(b) == multiset(b[..k] + b[k + 1..]) + multiset{b[k]}
  {
    assert b == b[..k] + ([b[k]] + b[k + 1..]);
  }

  lemma SizeLast(entries: seq<(Data, Data)>, depth: nat)
    requires depth <= MAX_DEPTH && entries != []
    ensures SizeEntries(entries, depth) ==
            SizeEntries(entries[..|entries| - 1], depth) + SizeEntry(entries[|entries| - 1], depth)
  {
  }

  /** However the range over a map orders its entries, its size is the same. */
  lemma {:induction false} OrderDoesNotMatter(a: seq<(Data, Data)>, b: seq<(Data, Data)>, depth: nat)
    requires depth <= MAX_DEPTH && multiset(a) == multiset(b)
    ensures SizeEntries(a, depth) == SizeEntries(b, depth)
    decreases |a|
  {
    hide *;
    if a == [] {
      assert |multiset(b)| == 0;
    } else {
      var k := TakenOut(a, b);
      SizeLast(a, depth);
      SizeWithout(b, depth, k);
      OrderDoesNotMatter(a[..|a| - 1], b[..k] + b[k + 1..], depth);
    }
  }

  // ---- wrap's check ----

  function SizeOfArgs(args: seq<Data>): nat {
    if args == [] then 0 else SizeOfArgs(args[..|args| - 1]) + Size(args[|args| - 1], 0)
  }

  /** Arguments nested less than the limit are counted by what they hold. */
  lemma {:induction false} ArgsAreWhatTheyHold(args: seq<Data>)
    requires forall x :: x in args ==> !Holds(x, MAX_DEPTH)
    ensures SizeOfArgs(args) == StringsOf(args) + 8 * NodesOf(args)
    decreases |args|
  {
    hide Size, Strings, Nodes, Holds;
    if args != [] {
      var before, last := args[..|args| - 1], args[|args| - 1];
      assert args == before + [last];
      ArgsAreWhatTheyHold(before);
      SizeIsWhatItHolds(last, 0);
      HeldBySnoc(before, last);
    }
  }

  lemma {:induction false} HeldBySnoc(before: seq<Data>, last: Data)
    ensures StringsOf(before + [last]) == StringsOf(before) + Strings(last)
    ensures NodesOf(before + [last]) == NodesOf(before) + Nodes(last)
    decreases |before|
  {
    hide Strings, Nodes;
    if before == [] {
      assert [] + [last] == [last] && [last][1..] == [];
    } else {
      HeldBySnoc(before[1..], last);
      assert (before + [last])[1..] == before[1..] + [last];
    }
  }

  /** wrap, before it calls: whether the arguments and the estimate are refused. */
  method Refuses(args: seq<Data>, estimate: nat) returns (refused: bool)
    ensures refused <==> SizeOfArgs(args) + estimate > MAX_CALL_BYTES
    ensures (forall x :: x in args ==> !Holds(x, MAX_DEPTH)) ==>
              (refused <==> StringsOf(args) + 8 * NodesOf(args) + estimate > 262144)
  {
    hide Size, Holds, Strings, Nodes, StringsOf, NodesOf;
    if forall x :: x in args ==> !Holds(x, MAX_DEPTH) {
      ArgsAreWhatTheyHold(args);
    }
    var size: nat := 0;
    for i := 0 to |args|
      invariant size <= SizeOfArgs(args[..i])
      invariant SizeOfArgs(args[..i]) <= MAX_CALL_BYTES ==> size == SizeOfArgs(args[..i])
      invariant SizeOfArgs(args[..i]) > MAX_CALL_BYTES ==> size > MAX_CALL_BYTES
    {
      var m := MeasureValue(args[i], 0, MAX_CALL_BYTES);
      assert args[..i + 1][..i] == args[..i];
      size := size + m;
    }
    assert args[..|args|] == args;
    size := size + estimate;
    refused := size > MAX_CALL_BYTES;
  }

  // ---- Estimates ----

  const MIN_INT64 := -0x8000_0000_0000_0000
  const MAX_INT64 := 0x7fff_ffff_ffff_ffff

  newtype int64 = x: int | MIN_INT64 <= x <= MAX_INT64

  /** product; the result type says that the multiplication does not overflow. */
  function Product(x: int64, y: int64): int64 {
    if x <= 0 || y <= 0 then 0
    else if x > (MAX_CALL_BYTES as int64 + 1) / y then MAX_CALL_BYTES as int64 + 1
    else
      ProductFits(x as int, y as int);
      x * y
  }

  lemma ProductFits(x: int, y: int)
    requires x > 0 && y > 0
    ensures x <= (MAX_CALL_BYTES + 1) / y <==> x * y <= MAX_CALL_BYTES + 1
  {
    var m := MAX_CALL_BYTES + 1;
    var q := m / y;
    assert m == q * y + m % y;
    if x <= q {
      assert x * y <= q * y by { MulMonotone(x, q, y); }
    } else {
      assert (q + 1) * y <= x * y by { MulMonotone(q + 1, x, y); }
    }
  }

  lemma MulMonotone(a: int, b: int, y: int)
    requires a <= b && y > 0
    ensures a * y <= b * y
  {
  }

  function Clamp(x: int): int {
    if x < 0 then 0 else if x > MAX_CALL_BYTES + 1 then MAX_CALL_BYTES + 1 else x
  }

  /**
    product is the true product clamped, with one exception: of two negative factors it makes zero, where
    the true product is positive.
   */
  lemma ProductIsClamped(x: int64, y: int64)
    ensures Product(x, y) as int == Clamp(x as int * y as int) <==> !(x < 0 && y < 0)
  {
    if x > 0 && y > 0 {
      ProductFits(x as int, y as int);
    } else if x < 0 && y < 0 {
      Signs(-(x as int), -(y as int));
    } else {
      NotPositive(x as int, y as int);
    }
  }

  lemma Signs(x: int, y: int)
    requires x > 0 && y > 0
    ensures -x * -y > 0
  {
    MulMonotone(1, x, y);
    assert -x * -y == x * y;
  }

  lemma NotPositive(x: int, y: int)
    requires (x <= 0 <= y) || (y <= 0 <= x)
    ensures x * y <= 0
  {
  }

  /** abs in 64 bits: negation wraps around at the least value. */
  function Abs(x: int64): int64 {
    if x < 0 then Negate(x) else x
  }

  function Negate(x: int64): int64 {
    if x == MIN_INT64 as int64 then x else -x
  }

  /** abs is the absolute value except of the least 64-bit integer, for which until's estimate is zero. */
  lemma AbsIsExact(x: int64)
    ensures Abs(x) as int == (if x < 0 then -(x as int) else x as int) <==> x as int != MIN_INT64
    ensures Product(Abs(MIN_INT64 as int64), NODE_BYTES as int64) == 0
  {
  }

  /** Arithmetic in 64 bits. */
  function Wrap(x: int): (r: int64)
    ensures MIN_INT64 <= x <= MAX_INT64 ==> r as int == x
  {
    ((x - MIN_INT64) % 0x1_0000_0000_0000_0000 + MIN_INT64) as int64
  }

  function AbsInt(x: int): nat {
    if x < 0 then -x else x
  }

  /** Division that truncates towards zero. */
  function Quotient(a: int, b: int): int
    requires b != 0
  {
    if (a < 0) == (b < 0) then AbsInt(a) / AbsInt(b) else -(AbsInt(a) / AbsInt(b))
  }

  /** span: the difference and the quotient are 64-bit numbers, and wrap around. */
  function Span(start: int64, stop: int64, step: int64): int64 {
    if step == 0 then 0
    else
      var q := Wrap(Quotient(Wrap(stop as int - start as int) as int, step as int));
      if q < 0 then 0 else Abs(q)
  }

  predicate Leads(start: int64, stop: int64, step: int64) {
    (step > 0 && stop >= start) || (step < 0 && stop <= start)
  }

  /** The whole steps there are on the way to `stop`, none when `step` goes elsewhere. */
  function StepsBetween(start: int64, stop: int64, step: int64): nat {
    if Leads(start, stop, step) then AbsInt(stop as int - start as int) / AbsInt(step as int) else 0
  }

  /** The difference does not fit 64 bits, or is the least number and its quotient by -1 does not. */
  predicate Overflows(start: int64, stop: int64, step: int64) {
    var d := stop as int - start as int;
    d < MIN_INT64 || d > MAX_INT64 || (d == MIN_INT64 && step == -1)
  }

  lemma QuotientBounds(a: nat, b: nat)
    requires b > 0
    ensures 0 <= a / b <= a
    ensures a < b ==> a / b == 0
    ensures a >= b ==> a / b >= 1
    ensures b > 1 && a > 0 ==> a / b < a
  {
    var q := a / b;
    assert a == q * b + a % b;
    if q <= 0 {
      MulMonotone(q, 0, b);
      assert a < b;
    }
    if b > 1 && q >= 1 {
      MulMonotone(2, b, q);
      assert q * b == b * q;
    }
  }

  lemma FitsAbove(x: int64)
    ensures AbsInt(x as int) <= MAX_INT64 + 1
    ensures x as int != MIN_INT64 ==> AbsInt(x as int) <= MAX_INT64
  {
  }

  /** Where nothing overflows span is exact. */
  lemma SpanFits(start: int64, stop: int64, step: int64)
    requires !Overflows(start, stop, step)
    ensures Span(start, stop, step) as int == StepsBetween(start, stop, step)
  {
    var d := stop as int - start as int;
    if step != 0 {
      QuotientBounds(AbsInt(d), AbsInt(step as int));
    }
  }

  /** Past 64 bits the difference changes its sign. */
  lemma WrappedSign(d: int)
    requires 2 * MIN_INT64 < d < 2 * (MAX_INT64 + 1)
    ensures d > MAX_INT64 ==> Wrap(d) as int == d - 0x1_0000_0000_0000_0000 < 0
    ensures d < MIN_INT64 ==> Wrap(d) as int == d + 0x1_0000_0000_0000_0000 > 0
  {
  }

  lemma OverflowedSpan(start: int64, stop: int64, step: int64)
    requires Overflows(start, stop, step) && Leads(start, stop, step)
    ensures Span(start, stop, step) == 0 && StepsBetween(start, stop, step) >= 1
  {
    var d := stop as int - start as int;
    FitsAbove(step);
    QuotientBounds(AbsInt(d), AbsInt(step as int));
    WrappedSign(d);
    QuotientBounds(AbsInt(Wrap(d) as int), AbsInt(step as int));
  }

  /**
    span says fewer steps than there are exactly when the step leads towards the stop and the difference, or its
    quotient, does not fit 64 bits; it then says none, and the estimate made of it is zero.
   */
  lemma SpanUnderestimatesIff(start: int64, stop: int64, step: int64)
    ensures
      (Span(start, stop, step) as int) < StepsBetween(start, stop, step) <==>
      Leads(start, stop, step) && Overflows(start, stop, step)
    ensures Leads(start, stop, step) && Overflows(start, stop, step) ==>
              Product(Span(start, stop, step), NODE_BYTES as int64) == 0
  {
    hide Span, Overflows;
    if Overflows(start, stop, step) {
      if Leads(start, stop, step) {
        OverflowedSpan(start, stop, step);
      } else {
        NeverNegative(start, stop, step);
      }
    } else {
      SpanFits(start, stop, step);
    }
  }

  lemma NeverNegative(start: int64, stop: int64, step: int64)
    ensures Span(start, stop, step) >= 0
  {
  }

  /** The wrapped difference holds no whole step, or its quotient overflows in its turn. */
  predicate WrapsToNothing(start: int64, stop: int64, step: int64) {
    var w := Wrap(stop as int - start as int);
    AbsInt(w as int) < AbsInt(step as int) || (w as int == MIN_INT64 && step == -1)
  }

  lemma OverflowedAway(start: int64, stop: int64, step: int64)
    requires Overflows(start, stop, step) && !Leads(start, stop, step) && step != 0
    ensures StepsBetween(start, stop, step) == 0
    ensures Span(start, stop, step) == 0 <==> WrapsToNothing(start, stop, step)
  {
    var d := stop as int - start as int;
    FitsAbove(step);
    WrappedSign(d);
    FitsAbove(Wrap(d));
    QuotientBounds(AbsInt(Wrap(d) as int), AbsInt(step as int));
  }

  /**
    span is exact if and only if nothing overflows, the step is zero, or it leads elsewhere and the wrapped
    difference comes to nothing. Elsewhere it says none where there are steps, or steps where there are none.
   */
  lemma SpanIsExact(start: int64, stop: int64, step: int64)
    ensures
      Span(start, stop, step) as int == StepsBetween(start, stop, step) <==>
      || !Overflows(start, stop, step)
      || step == 0
      || (!Leads(start, stop, step) && WrapsToNothing(start, stop, step))
  {
    hide Overflows, WrapsToNothing;
    if !Overflows(start, stop, step) {
      SpanFits(start, stop, step);
    } else if Leads(start, stop, step) {
      OverflowedSpan(start, stop, step);
    } else if step != 0 {
      OverflowedAway(start, stop, step);
    }
  }

  /** It can say the most there is where no step leads there. */
  lemma SpanOfNoSteps()
    ensures Span(MAX_INT64 as int64, -2, 1) as int == MAX_INT64 && StepsBetween(MAX_INT64 as int64, -2, 1) == 0
  {
  }
}
