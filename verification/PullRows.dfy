/**
  Pull request rows (internal/store/pulls.go): webhooks and polls report the same pull request in any order
  and more than once; a guard on the forge's own timestamp keeps the newest. The model is one row; its other
  columns are left to their defaults, and the time of writing is not kept.
 */
module PullRows {
  import opened Prelude

  datatype State = Open | Closed

  /** What an event says of a pull request besides whether it is open. */
  datatype Content = Content(
    title: string, author: string, draft: bool, fork: bool, headSha: string, refs: string, body: string, labels: string)

  datatype Row = Row(
    content: Content, state: State, merged: bool, closedAt: Option<int>, openedAt: Option<int>, updatedAt: Option<int>,
    paused: bool, autoReviews: nat)

  /** A report of the whole pull request, or that it closed; `updatedAt` is the forge's time of it, if it gave one. */
  datatype Event =
    | Upsert(content: Content, state: Option<State>, merged: bool, closedAt: Option<int>, openedAt: Option<int>,
             updatedAt: Option<int>)
    | Close(merged: bool, closedAt: Option<int>, now: int, updatedAt: Option<int>)

  // ---- The statements ----

  /** The guard: an event without a time, a row without one, or an event no older than the row. */
  predicate Applies(event: Option<int>, row: Option<int>) {
    event.None? || row.None? || event.value >= row.value
  }

  function Coalesce<T>(a: Option<T>, b: Option<T>): Option<T> {
    if a.Some? then a else b
  }

  function StateOf(e: Event): State
    requires e.Upsert?
  {
    match e.state
    case None => Open
    case Some(state) => state
  }

  function Apply(row: Option<Row>, e: Event): Option<Row> {
    match e
    case Upsert(content, _, merged, closedAt, openedAt, updatedAt) =>
      (match row
       case None => Some(Row(content, StateOf(e), merged, closedAt, openedAt, updatedAt, false, 0))
       case Some(r) =>
         if !Applies(updatedAt, r.updatedAt) then row
         else Some(r.(content := content, state := StateOf(e), merged := merged, closedAt := closedAt,
                      updatedAt := Coalesce(updatedAt, r.updatedAt))))
    case Close(merged, closedAt, now, updatedAt) =>
      (match row
       case None => None
       case Some(r) =>
         if !Applies(updatedAt, r.updatedAt) then row
         else Some(r.(state := Closed, merged := merged, closedAt := Some(if closedAt.Some? then closedAt.value else now),
                      updatedAt := Coalesce(updatedAt, r.updatedAt))))
  }

  function Run(row: Option<Row>, events: seq<Event>): Option<Row> {
    if events == [] then row else Apply(Run(row, events[..|events| - 1]), events[|events| - 1])
  }

  // ---- The timestamp ----

  /** No older than. */
  predicate NotBefore(a: Option<int>, b: Option<int>) {
    b.Some? ==> a.Some? && a.value >= b.value
  }

  /** Whatever the events, timed or not: a row stays, its timestamp never goes back, and its counters are not touched. */
  lemma {:induction false} TimestampNeverDecreases(row: Row, events: seq<Event>)
    ensures
      var last := Run(Some(row), events);
      && last.Some?
      && NotBefore(last.value.updatedAt, row.updatedAt)
      && last.value.openedAt == row.openedAt && last.value.paused == row.paused && last.value.autoReviews == row.autoReviews
    decreases |events|
  {
    if events != [] {
      TimestampNeverDecreases(row, events[..|events| - 1]);
    }
  }

  // ---- Last writer wins ----

  datatype Stamped<V> = Stamped(time: int, value: V)

  /** The newest of what was there and what came, a later equal one included. */
  function Latest<V>(start: Stamped<V>, came: seq<Stamped<V>>): Stamped<V> {
    if came == [] then start
    else
      Later(Latest(start, came[..|came| - 1]), came[|came| - 1])
  }

  lemma {:induction false} LatestIsNewest<V>(start: Stamped<V>, came: seq<Stamped<V>>)
    ensures
      var r := Latest(start, came);
      && (r == start || r in came)
      && r.time >= start.time
      && forall c :: c in came ==> r.time >= c.time
    decreases |came|
  {
    if came != [] {
      var before, last := came[..|came| - 1], came[|came| - 1];
      LatestIsNewest(start, before);
      assert came == before + [last];
      assert forall c :: c in came <==> c in before || c == last;
    }
  }

  function Later<V>(a: Stamped<V>, b: Stamped<V>): Stamped<V> {
    if b.time >= a.time then b else a
  }

  lemma LatestSnoc<V>(start: Stamped<V>, came: seq<Stamped<V>>, last: Stamped<V>)
    ensures Latest(start, came + [last]) == Later(Latest(start, came), last)
  {
    assert (came + [last])[..|came|] == came;
  }

  /** Equal times mean equal values. */
  ghost predicate Agree<V(!new)>(start: Stamped<V>, came: seq<Stamped<V>>) {
    forall a, b :: (a in came || a == start) && (b in came || b == start) && a.time == b.time ==> a == b
  }

  /** In whatever order, however often. */
  lemma LatestConverges<V(!new)>(start: Stamped<V>, a: seq<Stamped<V>>, b: seq<Stamped<V>>)
    requires Agree(start, a) && forall c :: c in a <==> c in b
    ensures Latest(start, a) == Latest(start, b)
  {
    LatestIsNewest(start, a);
    LatestIsNewest(start, b);
  }

  // ---- The row is such a register ----

  /** Everything an upsert writes but the time. */
  datatype Report = Report(content: Content, state: State, merged: bool, closedAt: Option<int>)

  function ReportOf(e: Event): Stamped<Report>
    requires e.Upsert? && e.updatedAt.Some?
  {
    Stamped(e.updatedAt.value, Report(e.content, StateOf(e), e.merged, e.closedAt))
  }

  function RowReport(r: Row): Stamped<Report>
    requires r.updatedAt.Some?
  {
    Stamped(r.updatedAt.value, Report(r.content, r.state, r.merged, r.closedAt))
  }

  predicate TimedUpserts(events: seq<Event>) {
    forall e :: e in events ==> e.Upsert? && e.updatedAt.Some?
  }

  function Reports(events: seq<Event>): seq<Stamped<Report>>
    requires TimedUpserts(events)
  {
    if events == [] then [] else Reports(events[..|events| - 1]) + [ReportOf(events[|events| - 1])]
  }

  lemma RunSnoc(row: Option<Row>, events: seq<Event>)
    requires events != []
    ensures Run(row, events) == Apply(Run(row, events[..|events| - 1]), events[|events| - 1])
  {
  }

  lemma ReportsSnoc(events: seq<Event>)
    requires events != [] && TimedUpserts(events)
    ensures TimedUpserts(events[..|events| - 1]) && TimedUpserts([events[|events| - 1]])
    ensures Reports(events) == Reports(events[..|events| - 1]) + [ReportOf(events[|events| - 1])]
  {
  }

  lemma UpsertIsLater(row: Row, e: Event)
    requires row.updatedAt.Some? && e.Upsert? && e.updatedAt.Some?
    ensures
      var next := Apply(Some(row), e);
      next.Some? && next.value.updatedAt.Some? && RowReport(next.value) == Later(RowReport(row), ReportOf(e))
  {
  }

  lemma {:induction false} UpsertsKeepTheNewest(row: Row, events: seq<Event>)
    requires row.updatedAt.Some? && TimedUpserts(events)
    ensures
      var last := Run(Some(row), events);
      last.Some? && last.value.updatedAt.Some? && RowReport(last.value) == Latest(RowReport(row), Reports(events))
    decreases |events|
  {
    if events != [] {
      var before, last := events[..|events| - 1], events[|events| - 1];
      assert last in events && forall e :: e in before ==> e in events;
      hide Latest, Reports, Run, Apply;
      UpsertsKeepTheNewest(row, before);
      RunSnoc(Some(row), events);
      UpsertIsLater(Run(Some(row), before).value, last);
      ReportsSnoc(events);
      LatestSnoc(RowReport(row), Reports(before), ReportOf(last));
    }
  }

  lemma {:induction false} ReportsHold(events: seq<Event>)
    requires TimedUpserts(events)
    ensures |Reports(events)| == |events|
    ensures forall r :: r in Reports(events) <==> exists e :: e in events && ReportOf(e) == r
    decreases |events|
  {
    if events != [] {
      var before, last := events[..|events| - 1], events[|events| - 1];
      assert events == before + [last];
      ReportsHold(before);
      assert forall e :: e in events <==> e in before || e == last;
    }
  }

  /** Reports of the same time say the same, and so does the row as it stood. */
  ghost predicate ReportsAgree(row: Row, events: seq<Event>)
    requires row.updatedAt.Some? && TimedUpserts(events)
  {
    Agree(RowReport(row), Reports(events))
  }

  /**
    Once a timed row exists, timed upserts converge: any reordering or repetition of the same reports leaves
    what the newest of them said, its timestamp included.
   */
  lemma UpsertsConverge(row: Row, a: seq<Event>, b: seq<Event>)
    requires row.updatedAt.Some? && TimedUpserts(a) && TimedUpserts(b) && ReportsAgree(row, a)
    requires forall e :: e in a <==> e in b
    ensures Run(Some(row), a) == Run(Some(row), b)
  {
    UpsertsKeepTheNewest(row, a);
    UpsertsKeepTheNewest(row, b);
    ReportsHold(a);
    ReportsHold(b);
    hide Reports, Latest, Run;
    assert forall r :: r in Reports(a) <==> r in Reports(b);
    LatestConverges(RowReport(row), Reports(a), Reports(b));
    TimestampNeverDecreases(row, a);
    TimestampNeverDecreases(row, b);
  }

  // ---- With closes ----

  /** Whether the pull request is open, and merged: what both kinds of event write. */
  datatype Fate = Fate(state: State, merged: bool)

  function FateOf(e: Event): Stamped<Fate>
    requires e.updatedAt.Some?
  {
    Stamped(e.updatedAt.value, if e.Upsert? then Fate(StateOf(e), e.merged) else Fate(Closed, e.merged))
  }

  function RowFate(r: Row): Stamped<Fate>
    requires r.updatedAt.Some?
  {
    Stamped(r.updatedAt.value, Fate(r.state, r.merged))
  }

  predicate Timed(events: seq<Event>) {
    forall e :: e in events ==> e.updatedAt.Some?
  }

  function Fates(events: seq<Event>): seq<Stamped<Fate>>
    requires Timed(events)
  {
    if events == [] then [] else Fates(events[..|events| - 1]) + [FateOf(events[|events| - 1])]
  }

  lemma FatesSnoc(events: seq<Event>)
    requires events != [] && Timed(events)
    ensures Timed(events[..|events| - 1]) && Timed([events[|events| - 1]])
    ensures Fates(events) == Fates(events[..|events| - 1]) + [FateOf(events[|events| - 1])]
  {
  }

  lemma EventIsLater(row: Row, e: Event)
    requires row.updatedAt.Some? && e.updatedAt.Some?
    ensures
      var next := Apply(Some(row), e);
      next.Some? && next.value.updatedAt.Some? && RowFate(next.value) == Later(RowFate(row), FateOf(e))
  {
  }

  lemma {:induction false} EventsKeepTheNewestFate(row: Row, events: seq<Event>)
    requires row.updatedAt.Some? && Timed(events)
    ensures
      var last := Run(Some(row), events);
      last.Some? && last.value.updatedAt.Some? && RowFate(last.value) == Latest(RowFate(row), Fates(events))
    decreases |events|
  {
    if events != [] {
      var before, last := events[..|events| - 1], events[|events| - 1];
      assert last in events && forall e :: e in before ==> e in events;
      hide Latest, Fates, Run, Apply;
      EventsKeepTheNewestFate(row, before);
      RunSnoc(Some(row), events);
      EventIsLater(Run(Some(row), before).value, last);
      FatesSnoc(events);
      LatestSnoc(RowFate(row), Fates(before), FateOf(last));
    }
  }

  lemma {:induction false} FatesHold(events: seq<Event>)
    requires Timed(events)
    ensures |Fates(events)| == |events|
    ensures forall f :: f in Fates(events) <==> exists e :: e in events && FateOf(e) == f
    decreases |events|
  {
    if events != [] {
      var before, last := events[..|events| - 1], events[|events| - 1];
      assert events == before + [last];
      FatesHold(before);
      assert forall e :: e in events <==> e in before || e == last;
    }
  }

  /** Once a timed row exists, whether it is open and merged converges for any mix of timed upserts and closes. */
  lemma FatesConverge(row: Row, a: seq<Event>, b: seq<Event>)
    requires row.updatedAt.Some? && Timed(a) && Timed(b) && Agree(RowFate(row), Fates(a))
    requires forall e :: e in a <==> e in b
    ensures
      var x, y := Run(Some(row), a), Run(Some(row), b);
      x.Some? && y.Some? && x.value.state == y.value.state && x.value.merged == y.value.merged
      && x.value.updatedAt == y.value.updatedAt
  {
    EventsKeepTheNewestFate(row, a);
    EventsKeepTheNewestFate(row, b);
    FatesHold(a);
    FatesHold(b);
    hide Fates, Latest, Run;
    assert forall f :: f in Fates(a) <==> f in Fates(b);
    LatestConverges(RowFate(row), Fates(a), Fates(b));
  }

  // ---- Exactly when two events commute ----

  lemma RunTwo(row: Option<Row>, a: Event, b: Event)
    ensures Run(row, [a, b]) == Apply(Apply(row, a), b)
  {
    assert [a, b][..1] == [a] && [a][..0] == [];
    assert Run(row, [a]) == Apply(row, a);
  }

  /** What an event writes besides the content and the time. */
  datatype Ending = Ending(state: State, merged: bool, closedAt: Option<int>)

  function EndingOf(e: Event): Ending {
    match e
    case Upsert(_, _, merged, closedAt, _, _) => Ending(StateOf(e), merged, closedAt)
    case Close(merged, closedAt, now, _) => Ending(Closed, merged, Some(if closedAt.Some? then closedAt.value else now))
  }

  predicate SaysContent(e: Event, content: Content) {
    e.Upsert? ==> e.content == content
  }

  /** Both write the same where both write. */
  predicate SayTheSame(x: Event, y: Event) {
    && EndingOf(x) == EndingOf(y)
    && (x.Upsert? && y.Upsert? ==> x.content == y.content)
  }

  /** No content is lost when the older of two events comes second. */
  predicate LosesNothing(content: Content, older: Event, newer: Event) {
    newer.Upsert? || SaysContent(older, content)
  }

  predicate Commute(row: Row, x: Event, y: Event) {
    || !Applies(x.updatedAt, row.updatedAt)
    || !Applies(y.updatedAt, row.updatedAt)
    || (if x.updatedAt.None? || y.updatedAt.None? || x.updatedAt == y.updatedAt then SayTheSame(x, y)
        else if x.updatedAt.value < y.updatedAt.value then LosesNothing(row.content, x, y)
        else LosesNothing(row.content, y, x))
  }

  lemma OneIsStale(row: Row, x: Event, y: Event)
    ensures !Applies(x.updatedAt, row.updatedAt) ==> Apply(Apply(Some(row), x), y) == Apply(Apply(Some(row), y), x)
    ensures !Applies(x.updatedAt, row.updatedAt) ==> Commute(row, x, y) && Commute(row, y, x)
  {
  }

  lemma BothApply(row: Row, x: Event, y: Event)
    requires Applies(x.updatedAt, row.updatedAt) && Applies(y.updatedAt, row.updatedAt)
    requires x.updatedAt.None? || y.updatedAt.None? || x.updatedAt == y.updatedAt
    ensures Apply(Apply(Some(row), x), y) == Apply(Apply(Some(row), y), x) <==> Commute(row, x, y)
  {
  }

  lemma NewerSecond(row: Row, x: Event, y: Event)
    requires Applies(x.updatedAt, row.updatedAt) && Applies(y.updatedAt, row.updatedAt)
    requires x.updatedAt.Some? && y.updatedAt.Some? && x.updatedAt.value < y.updatedAt.value
    ensures Apply(Apply(Some(row), x), y) == Apply(Apply(Some(row), y), x) <==> Commute(row, x, y)
    ensures Commute(row, x, y) <==> Commute(row, y, x)
  {
  }

  /**
    Two events of a pull request with a row, reports or closes, timed or not, leave the same row in either order
    exactly when one of them is older than the row, or, where both have times that differ, the newer is a report
    or the older brings no new content, or, where they do not, they write the same.
   */
  lemma EventsCommuteIff(row: Row, x: Event, y: Event)
    ensures Run(Some(row), [x, y]) == Run(Some(row), [y, x]) <==> Commute(row, x, y)
  {
    hide Run;
    RunTwo(Some(row), x, y);
    RunTwo(Some(row), y, x);
    hide Apply, Commute;
    if Applies(x.updatedAt, row.updatedAt) && Applies(y.updatedAt, row.updatedAt) {
      if x.updatedAt.None? || y.updatedAt.None? || x.updatedAt == y.updatedAt {
        BothApply(row, x, y);
      } else if x.updatedAt.value < y.updatedAt.value {
        NewerSecond(row, x, y);
      } else {
        NewerSecond(row, y, x);
      }
    } else {
      OneIsStale(row, x, y);
      OneIsStale(row, y, x);
    }
  }

  /** Reports alone: exactly when one is older than the row, they say the same, or both have times that differ. */
  lemma ReportsCommuteIff(row: Row, x: Event, y: Event)
    requires x.Upsert? && y.Upsert?
    ensures
      Run(Some(row), [x, y]) == Run(Some(row), [y, x]) <==>
      || !Applies(x.updatedAt, row.updatedAt)
      || !Applies(y.updatedAt, row.updatedAt)
      || (x.content == y.content && EndingOf(x) == EndingOf(y))
      || (x.updatedAt.Some? && y.updatedAt.Some? && x.updatedAt != y.updatedAt)
  {
    EventsCommuteIff(row, x, y);
    hide Run, Applies;
  }

  /** A close and the first report of its pull request: exactly when the close is older, or the report says as much. */
  lemma CloseAndFirstReportCommuteIff(closed: Event, report: Event)
    requires closed.Close? && report.Upsert?
    ensures Run(None, [closed, report]).Some? && Run(None, [report, closed]).Some?
    ensures
      Run(None, [closed, report]) == Run(None, [report, closed]) <==>
      || !Applies(closed.updatedAt, report.updatedAt)
      || (EndingOf(closed) == EndingOf(report) && (closed.updatedAt.None? || closed.updatedAt == report.updatedAt))
  {
    RunTwo(None, closed, report);
    RunTwo(None, report, closed);
    hide Run;
  }

  /** Two first reports: exactly when they agree on when it was opened, and say the same or have times that differ. */
  lemma FirstReportsCommuteIff(x: Event, y: Event)
    requires x.Upsert? && y.Upsert?
    ensures
      Run(None, [x, y]) == Run(None, [y, x]) <==>
      && x.openedAt == y.openedAt
      && (SayTheSame(x, y) || (x.updatedAt.Some? && y.updatedAt.Some? && x.updatedAt != y.updatedAt))
  {
    RunTwo(None, x, y);
    RunTwo(None, y, x);
    hide Run;
  }

  // ---- Exactly when the newest event is what shows ----

  lemma {:induction false} RunConcat(row: Option<Row>, a: seq<Event>, b: seq<Event>)
    ensures Run(row, a + b) == Run(Run(row, a), b)
    decreases |b|
  {
    hide Apply;
    if b == [] {
      assert a + b == a;
    } else {
      RunConcat(row, a, b[..|b| - 1]);
      assert (a + b)[..|a + b| - 1] == a + b[..|b| - 1];
    }
  }

  lemma {:induction false} ClosesLeaveNoRow(events: seq<Event>)
    requires forall e :: e in events ==> e.Close?
    ensures Run(None, events) == None
    decreases |events|
  {
    if events != [] {
      var before, last := events[..|events| - 1], events[|events| - 1];
      assert last in events && forall e :: e in before ==> e in events;
      ClosesLeaveNoRow(before);
    }
  }

  /** The first report of the pull request is the one at `f`. */
  predicate FirstReport(events: seq<Event>, f: nat) {
    f < |events| && events[f].Upsert? && forall i :: 0 <= i < f ==> events[i].Close?
  }

  function Inserted(e: Event): Row
    requires e.Upsert?
  {
    Row(e.content, StateOf(e), e.merged, e.closedAt, e.openedAt, e.updatedAt, false, 0)
  }

  lemma RunFromFirst(events: seq<Event>, f: nat)
    requires FirstReport(events, f)
    ensures Run(None, events) == Run(Some(Inserted(events[f])), events[f + 1..])
  {
    hide Apply;
    ClosesLeaveNoRow(events[..f]);
    RunOne(None, events[f]);
    assert events[..f] + ([events[f]] + events[f + 1..]) == events;
    RunConcat(None, events[..f], [events[f]] + events[f + 1..]);
    RunConcat(None, [events[f]], events[f + 1..]);
    InsertsFirst(events[f]);
  }

  lemma InsertsFirst(e: Event)
    requires e.Upsert?
    ensures Apply(None, e) == Some(Inserted(e))
  {
  }

  lemma RunOne(row: Option<Row>, e: Event)
    ensures Run(row, [e]) == Apply(row, e)
  {
    assert [e][..0] == [];
    assert Run(row, []) == row;
  }

  /** Events of one time agree on what became of the pull request. */
  ghost predicate FatesAgree(events: seq<Event>)
    requires Timed(events)
  {
    forall i, j :: 0 <= i < |events| && 0 <= j < |events| && events[i].updatedAt == events[j].updatedAt ==>
      FateOf(events[i]) == FateOf(events[j])
  }

  predicate NewestAt(events: seq<Event>, n: nat)
    requires Timed(events)
  {
    n < |events| && forall i :: 0 <= i < |events| ==> TimeAt(events, i) <= TimeAt(events, n)
  }

  function TimeAt(events: seq<Event>, i: nat): int
    requires i < |events| && Timed(events)
  {
    events[i].updatedAt.value
  }

  /** Some event at or after `f` is as new as the one at `n`. */
  ghost predicate AsNewFrom(events: seq<Event>, f: nat, n: nat)
    requires n < |events| && Timed(events)
  {
    exists i :: f <= i < |events| && TimeAt(events, i) == TimeAt(events, n)
  }

  lemma FateFromFirst(events: seq<Event>, f: nat)
    requires Timed(events) && FirstReport(events, f)
    ensures Timed(events[f + 1..])
    ensures
      var last := Run(None, events);
      && last.Some? && last.value.updatedAt.Some?
      && RowFate(last.value) == Latest(FateOf(events[f]), Fates(events[f + 1..]))
      && NotBefore(last.value.updatedAt, events[f].updatedAt)
  {
    hide Latest, Fates, Run;
    RunFromFirst(events, f);
    EventsKeepTheNewestFate(Inserted(events[f]), events[f + 1..]);
    TimestampNeverDecreases(Inserted(events[f]), events[f + 1..]);
    assert RowFate(Inserted(events[f])) == FateOf(events[f]);
  }

  /** What shows from `f` on was said at or after `f`, and nothing said there is newer. */
  lemma LatestFateFrom(events: seq<Event>, f: nat) returns (i: nat)
    requires f < |events| && Timed(events) && Timed(events[f + 1..])
    ensures f <= i < |events| && FateOf(events[i]) == Latest(FateOf(events[f]), Fates(events[f + 1..]))
    ensures forall k :: f <= k < |events| ==> TimeAt(events, k) <= TimeAt(events, i)
  {
    var rest := events[f + 1..];
    var r := Latest(FateOf(events[f]), Fates(rest));
    LatestIsNewest(FateOf(events[f]), Fates(rest));
    FatesHold(rest);
    hide Latest, Fates, FateOf;
    if r == FateOf(events[f]) {
      i := f;
    } else {
      var e :| e in rest && FateOf(e) == r;
      var k :| 0 <= k < |rest| && rest[k] == e;
      i := f + 1 + k;
    }
    FateTime(events[i]);
    forall k | f <= k < |events| ensures TimeAt(events, k) <= TimeAt(events, i) {
      FateTime(events[k]);
      if k > f {
        assert events[k] == rest[k - f - 1];
        assert FateOf(events[k]) in Fates(rest);
      }
    }
  }

  lemma FateTime(e: Event)
    requires e.updatedAt.Some?
    ensures FateOf(e).time == e.updatedAt.value
  {
  }

  /**
    From no row, timed events end with what the newest of them says became of the pull request exactly when an
    event as new is among the first report and what came after it; closes before the first report are lost.
   */
  lemma NewestFateShowsIff(events: seq<Event>, f: nat, n: nat)
    requires Timed(events) && FirstReport(events, f) && FatesAgree(events) && NewestAt(events, n)
    ensures
      var last := Run(None, events);
      && last.Some? && last.value.updatedAt.Some?
      && (RowFate(last.value) == FateOf(events[n]) <==> AsNewFrom(events, f, n))
  {
    FateFromFirst(events, f);
    var i := LatestFateFrom(events, f);
    FateTime(events[i]);
    FateTime(events[n]);
    assert TimeAt(events, i) <= TimeAt(events, n);
    assert FateOf(events[i]) == FateOf(events[n]) ==> TimeAt(events, i) == TimeAt(events, n);
    hide Latest, Fates, Run, FateOf;
    assert TimeAt(events, i) == TimeAt(events, n) ==> AsNewFrom(events, f, n);
    if AsNewFrom(events, f, n) {
      var k :| f <= k < |events| && TimeAt(events, k) == TimeAt(events, n);
      assert TimeAt(events, i) == TimeAt(events, n);
      assert events[i].updatedAt == events[n].updatedAt;
    }
  }

  /** A timed close that overtakes the first report, and is newer than all that comes, is lost. */
  lemma OvertakingCloseIsLost(events: seq<Event>, f: nat, n: nat)
    requires Timed(events) && FirstReport(events, f) && n < f
    requires forall i :: f <= i < |events| ==> TimeAt(events, i) < TimeAt(events, n)
    ensures
      var last := Run(None, events);
      last.Some? && last.value.updatedAt.Some? && last.value.updatedAt.value < TimeAt(events, n)
  {
    FateFromFirst(events, f);
    var i := LatestFateFrom(events, f);
    FateTime(events[i]);
    assert TimeAt(events, i) < TimeAt(events, n);
  }

  // ---- Exactly when the newest report's content shows ----

  /** The report at `k` is the first of the newest reports, and those of its time say the same content. */
  predicate FirstNewestReport(events: seq<Event>, k: nat)
    requires Timed(events)
  {
    && k < |events| && events[k].Upsert?
    && (forall i :: 0 <= i < |events| && events[i].Upsert? ==>
          && TimeAt(events, i) <= TimeAt(events, k)
          && (i < k ==> TimeAt(events, i) < TimeAt(events, k))
          && (TimeAt(events, i) == TimeAt(events, k) ==> events[i].content == events[k].content))
  }

  /** Nothing newer than `time` was recorded by then: neither the row as it stood nor an event. */
  ghost predicate NothingNewer(row: Row, events: seq<Event>, time: int)
    requires row.updatedAt.Some? && Timed(events)
  {
    row.updatedAt.value <= time && forall i :: 0 <= i < |events| ==> TimeAt(events, i) <= time
  }

  lemma {:induction false} TimeIsTheNewest(row: Row, events: seq<Event>, time: int)
    requires row.updatedAt.Some? && Timed(events)
    ensures
      var last := Run(Some(row), events);
      && last.Some? && last.value.updatedAt.Some?
      && (last.value.updatedAt.value <= time <==> NothingNewer(row, events, time))
    decreases |events|
  {
    if events != [] {
      var before, last := events[..|events| - 1], events[|events| - 1];
      assert last in events && forall e :: e in before ==> e in events;
      TimeIsTheNewest(row, before, time);
      assert forall i :: 0 <= i < |before| ==> TimeAt(events, i) == TimeAt(before, i);
      assert TimeAt(events, |events| - 1) == last.updatedAt.value;
    }
  }

  predicate OnlyOlderContents(events: seq<Event>, time: int, content: Content)
    requires Timed(events)
  {
    forall i :: 0 <= i < |events| && events[i].Upsert? ==>
      TimeAt(events, i) < time || (TimeAt(events, i) == time && events[i].content == content)
  }

  /** A row newer than every report to come keeps its content; one as new as `time` with that content too. */
  lemma {:induction false} ContentStays(row: Row, events: seq<Event>, time: int, content: Content)
    requires row.updatedAt.Some? && Timed(events) && OnlyOlderContents(events, time, content)
    requires row.updatedAt.value > time || (row.updatedAt.value == time && row.content == content)
    ensures
      var last := Run(Some(row), events);
      && last.Some? && last.value.updatedAt.Some? && last.value.content == row.content
      && last.value.updatedAt.value >= row.updatedAt.value
    decreases |events|
  {
    if events != [] {
      var n := |events| - 1;
      var before, last := events[..n], events[n];
      assert last in events && forall e :: e in before ==> e in events;
      assert TimeAt(events, n) == last.updatedAt.value;
      forall i | 0 <= i < |before| && before[i].Upsert?
        ensures TimeAt(before, i) < time || (TimeAt(before, i) == time && before[i].content == content)
      {
        assert TimeAt(before, i) == TimeAt(events, i);
      }
      ContentStays(row, before, time, content);
    }
  }

  lemma AfterOnlyOlder(events: seq<Event>, k: nat)
    requires Timed(events) && FirstNewestReport(events, k)
    ensures Timed(events[..k]) && Timed(events[k + 1..])
    ensures OnlyOlderContents(events[k + 1..], TimeAt(events, k), events[k].content)
  {
    var rest := events[k + 1..];
    assert forall i :: 0 <= i < |rest| ==> rest[i] == events[k + 1 + i] && TimeAt(rest, i) == TimeAt(events, k + 1 + i);
  }

  /**
    Over a timed row and timed events, the newest report's content shows in the end exactly when nothing newer
    was recorded before it, which only the row as it stood or a close can be, or what it found said the same.
   */
  lemma NewestContentShowsIff(row: Row, events: seq<Event>, k: nat)
    requires row.updatedAt.Some? && Timed(events) && FirstNewestReport(events, k)
    ensures Timed(events[..k])
    ensures
      var found, last := Run(Some(row), events[..k]), Run(Some(row), events);
      && found.Some? && last.Some?
      && (last.value.content == events[k].content <==>
            NothingNewer(row, events[..k], TimeAt(events, k)) || found.value.content == events[k].content)
  {
    var before, rest, time := events[..k], events[k + 1..], TimeAt(events, k);
    AfterOnlyOlder(events, k);
    TimeIsTheNewest(row, before, time);
    assert before + ([events[k]] + rest) == events;
    RunConcat(Some(row), before, [events[k]] + rest);
    var found := Run(Some(row), before);
    RunConcat(found, [events[k]], rest);
    RunOne(found, events[k]);
    hide Run, NothingNewer, OnlyOlderContents, Timed, FirstNewestReport;
    ContentStays(Apply(found, events[k]).value, rest, time, events[k].content);
  }

  /** Only a close can be newer than the newest report, so where the row is not newer it is closes that pass it over. */
  lemma NewerThanReportsIsAClose(row: Row, events: seq<Event>, k: nat)
    requires row.updatedAt.Some? && Timed(events) && FirstNewestReport(events, k)
    ensures Timed(events[..k])
    ensures
      NothingNewer(row, events[..k], TimeAt(events, k)) <==>
      && row.updatedAt.value <= TimeAt(events, k)
      && forall i :: 0 <= i < k && events[i].Close? ==> TimeAt(events, i) <= TimeAt(events, k)
  {
    var before := events[..k];
    assert forall i :: 0 <= i < k ==> before[i] == events[i] && TimeAt(before, i) == TimeAt(events, i);
  }

  /** Neither the row nor a report before `k` says what the one at `k` does. */
  predicate NewContent(row: Row, events: seq<Event>, k: nat)
    requires k < |events| && events[k].Upsert?
  {
    && row.content != events[k].content
    && forall i :: 0 <= i < k && events[i].Upsert? ==> events[i].content != events[k].content
  }

  /** A content that neither the row nor a report says is not the row's in the end. */
  lemma {:induction false} UnsaidContent(row: Row, events: seq<Event>, content: Content)
    requires row.content != content && forall e :: e in events && e.Upsert? ==> e.content != content
    ensures Run(Some(row), events).Some? && Run(Some(row), events).value.content != content
    decreases |events|
  {
    if events != [] {
      var before, last := events[..|events| - 1], events[|events| - 1];
      assert last in events && forall e :: e in before ==> e in events;
      UnsaidContent(row, before, content);
    }
  }

  /** Where the newest report says something new, it shows exactly when neither the row nor a close before it is newer. */
  lemma NewContentShowsIff(row: Row, events: seq<Event>, k: nat)
    requires row.updatedAt.Some? && Timed(events) && FirstNewestReport(events, k) && NewContent(row, events, k)
    ensures
      var last := Run(Some(row), events);
      && last.Some?
      && (last.value.content == events[k].content <==>
          && row.updatedAt.value <= TimeAt(events, k)
          && forall i :: 0 <= i < k && events[i].Close? ==> TimeAt(events, i) <= TimeAt(events, k))
  {
    NewestContentShowsIff(row, events, k);
    NewerThanReportsIsAClose(row, events, k);
    forall e | e in events[..k] && e.Upsert? ensures e.content != events[k].content {
      var i :| 0 <= i < k && events[..k][i] == e;
      assert events[i].Upsert?;
    }
    UnsaidContent(row, events[..k], events[k].content);
  }

  // ---- Events that do not converge ----

  lemma ReportApplies(row: Row, e: Event)
    requires e.Upsert? && Applies(e.updatedAt, row.updatedAt)
    ensures
      var next := Apply(Some(row), e);
      next.Some? && next.value.content == e.content && next.value.updatedAt == Coalesce(e.updatedAt, row.updatedAt)
  {
  }

  /** An event without a time always applies: of a report without one and a current one, the last to come shows. */
  lemma UntimedEventsDoNotConverge(row: Row, untimed: Event, timed: Event)
    requires untimed.Upsert? && timed.Upsert? && untimed.updatedAt.None? && Applies(timed.updatedAt, row.updatedAt)
    ensures
      var x, y := Run(Some(row), [untimed, timed]), Run(Some(row), [timed, untimed]);
      x.Some? && y.Some? && x.value.content == timed.content && y.value.content == untimed.content
  {
    RunTwo(Some(row), untimed, timed);
    RunTwo(Some(row), timed, untimed);
    hide Apply, Run;
    ReportApplies(row, untimed);
    ReportApplies(Apply(Some(row), untimed).value, timed);
    ReportApplies(row, timed);
    ReportApplies(Apply(Some(row), timed).value, untimed);
  }

  /** A close that overtakes the first report of its pull request is lost: the row is what the report says. */
  lemma CloseBeforeTheRowIsLost(report: Event, closed: Event)
    requires report.Upsert? && closed.Close? && Applies(closed.updatedAt, report.updatedAt)
    ensures
      var x, y := Run(None, [report, closed]), Run(None, [closed, report]);
      x.Some? && x.value.state == Closed && x.value.merged == closed.merged && y == Some(Inserted(report))
  {
    RunTwo(None, report, closed);
    RunTwo(None, closed, report);
    hide Run;
  }

  /** A close moves the timestamp and not the content, so an earlier report that comes after it is passed over. */
  lemma ContentDoesNotConvergeWithCloses(row: Row, report: Event, closed: Event)
    requires report.Upsert? && closed.Close? && report.updatedAt.Some? && closed.updatedAt.Some?
    requires Applies(report.updatedAt, row.updatedAt) && report.updatedAt.value < closed.updatedAt.value
    ensures
      var x, y := Run(Some(row), [closed, report]), Run(Some(row), [report, closed]);
      x.Some? && y.Some? && x.value.content == row.content && y.value.content == report.content
  {
    RunTwo(Some(row), closed, report);
    RunTwo(Some(row), report, closed);
    hide Run;
  }

  // ---- Pauses ----

  /** What is done to a pull request: an event of it, an automatic review counted, or a pause or resumption asked for. */
  datatype Action =
    | Told(event: Event)
    | Reviewed(maxAuto: int)
    | Asked(paused: bool)

  /** One statement; those that name a row by its id find none where there is none. */
  function Step(row: Option<Row>, a: Action): Option<Row> {
    match a
    case Told(e) => Apply(row, e)
    case Reviewed(maxAuto) =>
      if row.None? then None
      else
        var n := row.value.autoReviews + 1;
        Some(row.value.(autoReviews := n, paused := row.value.paused || (maxAuto > 0 && n >= maxAuto)))
    case Asked(paused) =>
      if row.None? then None
      else Some(row.value.(paused := paused, autoReviews := if paused then row.value.autoReviews else 0))
  }

  function Steps(row: Option<Row>, actions: seq<Action>): Option<Row> {
    if actions == [] then row else Step(Steps(row, actions[..|actions| - 1]), actions[|actions| - 1])
  }

  predicate Paused(row: Option<Row>) {
    row.Some? && row.value.paused
  }

  /** CountAutoReview reports that this review paused the pull request. */
  predicate Announces(row: Option<Row>, a: Action) {
    a.Reviewed? && !Paused(row) && Paused(Step(row, a))
  }

  /** Someone's request paused it. */
  predicate PausesByHand(row: Option<Row>, a: Action) {
    a == Asked(true) && row.Some? && !Paused(row)
  }

  function Announcements(row: Option<Row>, actions: seq<Action>): nat {
    if actions == [] then 0
    else
      var before, a := actions[..|actions| - 1], actions[|actions| - 1];
      Announcements(row, before) + if Announces(Steps(row, before), a) then 1 else 0
  }

  function HandPauses(row: Option<Row>, actions: seq<Action>): nat {
    if actions == [] then 0
    else
      var before, a := actions[..|actions| - 1], actions[|actions| - 1];
      HandPauses(row, before) + if PausesByHand(Steps(row, before), a) then 1 else 0
  }

  function AsInt(b: bool): int {
    if b then 1 else 0
  }

  lemma StepsOfOne(row: Option<Row>, a: Action)
    requires a != Asked(false)
    ensures AsInt(Paused(Step(row, a))) == AsInt(Paused(row)) + AsInt(Announces(row, a)) + AsInt(PausesByHand(row, a))
    ensures row.Some? ==> Step(row, a).Some?
  {
  }

  /**
    Until someone resumes it a pull request is paused once, by a review that reports so or by a request: there is
    one report at most, none where it was paused already, and none where a request paused it.
   */
  lemma {:induction false} PausesAreAnnouncedOnce(row: Option<Row>, actions: seq<Action>)
    requires Asked(false) !in actions
    ensures AsInt(Paused(Steps(row, actions))) == AsInt(Paused(row)) + Announcements(row, actions) + HandPauses(row, actions)
    decreases |actions|
  {
    if actions != [] {
      var before, a := actions[..|actions| - 1], actions[|actions| - 1];
      assert a in actions && forall b :: b in before ==> b in actions;
      hide Step, Paused, Announces, PausesByHand;
      PausesAreAnnouncedOnce(row, before);
      StepsOfOne(Steps(row, before), a);
    }
  }

  function Reviews(actions: seq<Action>): nat {
    if actions == [] then 0
    else Reviews(actions[..|actions| - 1]) + if actions[|actions| - 1].Reviewed? then 1 else 0
  }

  /** Nobody asks, and the limit stays. */
  predicate UnderLimit(actions: seq<Action>, limit: int) {
    forall a :: a in actions ==> !a.Asked? && (a.Reviewed? ==> a.maxAuto == limit)
  }

  lemma {:induction false} CountsReviews(row: Row, actions: seq<Action>, limit: int)
    requires UnderLimit(actions, limit) && !row.paused && row.autoReviews == 0
    ensures
      var last := Steps(Some(row), actions);
      last.Some? && last.value.autoReviews == Reviews(actions) && (last.value.paused <==> 0 < limit <= Reviews(actions))
    decreases |actions|
  {
    if actions != [] {
      var before, a := actions[..|actions| - 1], actions[|actions| - 1];
      assert a in actions && forall b :: b in before ==> b in actions;
      CountsReviews(row, before, limit);
    }
  }

  /**
    Under a limit of n automatic reviews, and from a row just resumed, the review that reports the pause is the
    n-th, and no other one does, whatever events of the pull request come between; a limit of zero or less is none.
   */
  lemma TheLastReviewAllowedAnnounces(row: Row, actions: seq<Action>, limit: int, i: nat)
    requires UnderLimit(actions, limit) && !row.paused && row.autoReviews == 0 && i < |actions|
    ensures
      Announces(Steps(Some(row), actions[..i]), actions[i]) <==>
      actions[i].Reviewed? && limit > 0 && Reviews(actions[..i + 1]) == limit
  {
    assert actions[..i + 1][..i] == actions[..i] && actions[..i + 1][i] == actions[i];
    assert actions[i] in actions && forall b :: b in actions[..i] ==> b in actions;
    CountsReviews(row, actions[..i], limit);
    hide Steps;
  }

  lemma StepsSnoc(row: Option<Row>, actions: seq<Action>, a: Action)
    ensures Steps(row, actions + [a]) == Step(Steps(row, actions), a)
  {
    assert (actions + [a])[..|actions|] == actions;
  }

  // ---- The row in place ----

  /** The row, and what was done to it since there was none. */
  class PullRequest {
    var row: Option<Row>
    ghost var history: seq<Action>

    ghost predicate Valid()
      reads this
    {
      row == Steps(None, history)
    }

    constructor ()
      ensures Valid() && row == None && history == []
    {
      row, history := None, [];
    }

    /** UpsertPullRequest: it reports whether it recorded the event. */
    method Upsert(e: Event) returns (recorded: bool)
      requires e.Upsert? && Valid()
      modifies this
      ensures Valid() && history == old(history) + [Told(e)]
      ensures row == Apply(old(row), e) && row.Some?
      ensures recorded <==> old(row).None? || Applies(e.updatedAt, old(row).value.updatedAt)
    {
      hide Steps;
      StepsSnoc(None, history, Told(e));
      history := history + [Told(e)];
      var state := if e.state.Some? then e.state.value else Open;
      if row.None? {
        row := Some(Row(e.content, state, e.merged, e.closedAt, e.openedAt, e.updatedAt, false, 0));
        return true;
      }
      var r := row.value;
      if e.updatedAt.None? || r.updatedAt.None? || e.updatedAt.value >= r.updatedAt.value {
        row := Some(r.(content := e.content, state := state, merged := e.merged, closedAt := e.closedAt,
                       updatedAt := if e.updatedAt.Some? then e.updatedAt else r.updatedAt));
        return true;
      }
      return false;
    }

    /** ClosePullRequest: a close of a pull request without a row changes nothing. */
    method ClosePull(merged: bool, closedAt: Option<int>, now: int, updatedAt: Option<int>)
      requires Valid()
      modifies this
      ensures Valid() && history == old(history) + [Told(Close(merged, closedAt, now, updatedAt))]
      ensures row == Apply(old(row), Close(merged, closedAt, now, updatedAt))
    {
      hide Steps;
      StepsSnoc(None, history, Told(Close(merged, closedAt, now, updatedAt)));
      history := history + [Told(Close(merged, closedAt, now, updatedAt))];
      if row.Some? && Applies(updatedAt, row.value.updatedAt) {
        var r := row.value;
        row := Some(r.(state := Closed, merged := merged, closedAt := Some(if closedAt.Some? then closedAt.value else now),
                       updatedAt := if updatedAt.Some? then updatedAt else r.updatedAt));
      }
    }

    /** CountAutoReview: it tells the review that paused the pull request. */
    method CountAutoReview(maxAuto: int) returns (pausedNow: bool)
      requires row.Some? && Valid()
      modifies this
      ensures Valid() && history == old(history) + [Reviewed(maxAuto)]
      ensures row.Some? && row.value == old(row).value.(autoReviews := row.value.autoReviews, paused := row.value.paused)
      ensures row.value.autoReviews == old(row).value.autoReviews + 1
      ensures row.value.paused <==> old(row).value.paused || (maxAuto > 0 && row.value.autoReviews >= maxAuto)
      ensures pausedNow <==> Announces(old(row), Reviewed(maxAuto))
    {
      hide Steps;
      StepsSnoc(None, history, Reviewed(maxAuto));
      history := history + [Reviewed(maxAuto)];
      var r := row.value;
      var next := r.(autoReviews := r.autoReviews + 1, paused := r.paused || (maxAuto > 0 && r.autoReviews + 1 >= maxAuto));
      row := Some(next);
      return next.paused && !r.paused;
    }

    /** PausePullRequest: resuming starts the count over. */
    method Pause(paused: bool)
      requires row.Some? && Valid()
      modifies this
      ensures Valid() && history == old(history) + [Asked(paused)]
      ensures row == Some(old(row).value.(paused := paused, autoReviews := if paused then old(row).value.autoReviews else 0))
    {
      hide Steps;
      StepsSnoc(None, history, Asked(paused));
      history := history + [Asked(paused)];
      row := Some(row.value.(paused := paused, autoReviews := if paused then row.value.autoReviews else 0));
    }

    /**
      A delivery (internal/ingest/service.go): its event is recorded, and starts a review when it is to have one
      by its action and the settings, it is not stale, the pull request is not paused and its head has no review.
     */
    method Receive(e: Event, review: bool, reviewed: string -> bool) returns (starts: bool)
      requires Valid()
      modifies this
      ensures Valid() && history == old(history) + [Told(e)] && row == Apply(old(row), e)
      ensures starts <==>
              && e.Upsert? && review && !reviewed(e.content.headSha) && !Paused(old(row))
              && (old(row).None? || Applies(e.updatedAt, old(row).value.updatedAt))
      ensures starts ==> row.Some? && row.value.content == e.content
    {
      if e.Close? {
        ClosePull(e.merged, e.closedAt, e.now, e.updatedAt);
        return false;
      }
      var recorded := Upsert(e);
      return recorded && review && !row.value.paused && !reviewed(e.content.headSha);
    }
  }
}
