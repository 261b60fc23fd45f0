/**
  The embedding index of internal/store/indexgen.go and internal/store/index.go, with the index job of
  internal/worker/index.go that drives it. A repository's active generation is replaced by a full build
  or advanced by an incremental step; jobs, sweeps and schema rebuilds interleave at every transaction.

  A table of chunks is a map from run to its rows. Times are minutes.
 */
module IndexGeneration {
  import opened Prelude
  import opened Indexer

  /** What is fixed: the tree of each commit, and how its configuration has files cut. */
  datatype World = World(tree: nat -> Tree, cut: nat -> Cutter)

  ghost predicate AllName(w: World) {
    forall commit :: Names(w.cut(commit))
  }

  /** The chunks a walk of the commit has of a path. */
  ghost function ChunksAt(w: World, commit: nat, path: string): seq<Chunk> {
    FileChunks(w.cut(commit), w.tree(commit), path)
  }

  /** A row of index_chunks: a chunk and the embedder its vector comes from. */
  datatype Vec = Vec(chunk: Chunk, model: string)

  datatype Status = Running | Completed | Failed | Superseded

  /** A row of index_runs. */
  datatype IndexRun = IndexRun(repo: nat, commit: nat, model: string, status: Status, created: nat)

  /** repositories.active_index_run_id, index_runs, index_chunks, and the embedder that index_schema records. */
  datatype Db = Db(now: nat, active: map<nat, nat>, runs: map<nat, IndexRun>, rows: map<nat, seq<Vec>>, schema: string)

  function Rows(db: Db, run: nat): seq<Vec> {
    if run in db.rows then db.rows[run] else []
  }

  function Embedded(chunks: seq<Chunk>, model: string): seq<Vec> {
    if chunks == [] then [] else [Vec(chunks[0], model)] + Embedded(chunks[1..], model)
  }

  /** WHERE path = ...: a run's rows at a path. */
  function RowsAt(rows: seq<Vec>, path: string): seq<Vec> {
    if rows == [] then []
    else (if rows[0].chunk.path == path then [rows[0]] else []) + RowsAt(rows[1..], path)
  }

  /** DELETE ... WHERE path = ANY(paths). */
  function Without(rows: seq<Vec>, paths: seq<string>): seq<Vec> {
    if rows == [] then []
    else (if rows[0].chunk.path in paths then [] else [rows[0]]) + Without(rows[1..], paths)
  }

  // ---- The statements ----

  /** MaxJobTimeout and RescueStuckJobsAfter of internal/jobtimeout: a job lives less long than its run counts as stray. */
  const MAX_JOB := 180
  const STRAY_AFTER := 240

  predicate Stray(db: Db, repo: nat, run: nat) {
    && run in db.runs && db.runs[run].repo == repo
    && !(repo in db.active && db.active[repo] == run)
    && db.runs[run].created + STRAY_AFTER < db.now
  }

  function StartIndexRun(db: Db, run: nat, repo: nat, commit: nat, model: string): Db {
    db.(rows := map r | r in db.rows && !Stray(db, repo, r) :: db.rows[r],
        runs := db.runs[run := IndexRun(repo, commit, model, Running, db.now)])
  }

  function SetStatus(db: Db, run: nat, status: Status): Db {
    if run in db.runs then db.(runs := db.runs[run := db.runs[run].(status := status)]) else db
  }

  function InsertIndexChunks(db: Db, run: nat, batch: seq<Vec>): Db {
    db.(rows := db.rows[run := Rows(db, run) + batch])
  }

  function ActivateGeneration(db: Db, repo: nat, run: nat, previous: Option<nat>): Db {
    var active := db.(active := db.active[repo := run]);
    match previous
    case None => active
    case Some(p) => SetStatus(active, p, Superseded).(rows := db.rows - {p})
  }

  function AdvanceGeneration(db: Db, active: nat, step: nat, commit: nat, changed: seq<string>): Db
    requires active in db.runs
  {
    db.(rows := (db.rows - {step})[active := Without(Rows(db, active), changed) + Rows(db, step)],
        runs := db.runs[active := db.runs[active].(commit := commit)])
  }

  function ClearIndexStaging(db: Db, run: nat): Db {
    if run in db.active.Values then db else db.(rows := db.rows - {run})
  }

  /** SweepDisabledIndexes, over the repositories disabled past their grace. */
  function Sweep(db: Db, repos: set<nat>): Db {
    var swept := set r | r in repos && r in db.active :: db.active[r];
    db.(active := db.active - repos,
        runs := map r | r in db.runs :: if r in swept then db.runs[r].(status := Superseded) else db.runs[r],
        rows := db.rows - swept)
  }

  /** EnsureIndexSchema once the embedder differs from the recorded one: every generation goes with the table. */
  function Rebuild(db: Db, model: string): Db {
    db.(active := map[],
        runs := map r | r in db.runs ::
                  if db.runs[r].status == Running || db.runs[r].status == Completed
                  then db.runs[r].(status := Superseded) else db.runs[r],
        rows := map[],
        schema := model)
  }

  // ---- The jobs ----

  /** What the runner staged: a full walk of the tree, or the step from `base`. */
  datatype Walk = FullWalk(files: seq<SourceFile>) | StepWalk(changes: seq<Change>)

  /**
    An index job in flight. `active` is the generation it found when it started, `base` that generation's
    commit for a step, and `done` how many staged chunks are embedded. `lost` says how many of those rows a
    schema rebuild has dropped since.
   */
  datatype Job = Job(
    repo: nat, commit: nat, model: string, forced: bool, active: Option<nat>, base: Option<nat>,
    changed: seq<string>, staged: seq<Chunk>, done: nat, lost: nat)

  datatype Sys = Sys(db: Db, jobs: map<nat, Job>)

  datatype Action =
    | Begin(run: nat, repo: nat, commit: nat, model: string, forced: bool, walk: Walk)
    | Embed(run: nat, count: nat)
    | Swap(run: nat)
    | Abort(run: nat)
    | Crash(run: nat)
    | SweepIndexes(repos: set<nat>)
    | EnsureSchema(model: string)
    | Tick(minutes: nat)

  /** activeGeneration: the repository's active generation, if it is completed. */
  function ActiveGeneration(db: Db, repo: nat): Option<nat> {
    if repo in db.active && db.active[repo] in db.runs && db.runs[db.active[repo]].status == Completed
    then Some(db.active[repo]) else None
  }

  /** The commit an incremental job steps from: the active generation's, unless a rebuild is forced or the embedder changed. */
  function BaseOf(db: Db, repo: nat, model: string, forced: bool): Option<nat> {
    match ActiveGeneration(db, repo)
    case None => None
    case Some(g) => if forced || db.runs[g].model != model then None else Some(db.runs[g].commit)
  }

  /** The job a walk starts; None when the walk is not one the runner would make. A runner may fall back to a full walk. */
  ghost function NewJob(w: World, db: Db, repo: nat, commit: nat, model: string, forced: bool, walk: Walk): Option<Job> {
    var base := BaseOf(db, repo, model, forced);
    var active := ActiveGeneration(db, repo);
    match walk
    case FullWalk(files) =>
      if !Lists(files, w.tree(commit)) then None
      else Some(Job(repo, commit, model, forced, active, None, [], CutAll(w.cut(commit), files), 0, 0))
    case StepWalk(changes) =>
      if base.None? || !Diffs(changes, w.tree(base.value), w.tree(commit)) then None
      else
        Some(Job(repo, commit, model, forced, active, base, Noted(changes),
                 CutAll(w.cut(commit), NewSides(changes, w.tree(commit))), 0, 0))
  }

  /** River's unique key: one update and one forced rebuild of a repository at a time. */
  ghost predicate InFlight(jobs: map<nat, Job>, repo: nat, forced: bool) {
    exists r :: r in jobs && jobs[r].repo == repo && jobs[r].forced == forced
  }

  /** embed's last transaction: swap or advance the generation, clear the run, and end it. */
  function SwapIn(db: Db, run: nat, job: Job): Db
    requires job.active.Some? ==> job.active.value in db.runs
  {
    var swapped :=
      if job.base.Some? && job.active.Some?
      then AdvanceGeneration(db, job.active.value, run, job.commit, job.changed)
      else ActivateGeneration(db, job.repo, run, job.active);
    SetStatus(ClearIndexStaging(swapped, run), run, Completed)
  }

  ghost function Apply(w: World, s: Sys, a: Action): Option<Sys> {
    match a
    case Begin(run, repo, commit, model, forced, walk) =>
      if run in s.db.runs || InFlight(s.jobs, repo, forced) || BaseOf(s.db, repo, model, forced) == Some(commit) then None
      else
        (match NewJob(w, s.db, repo, commit, model, forced, walk)
         case None => None
         case Some(job) => Some(Sys(StartIndexRun(s.db, run, repo, commit, model), s.jobs[run := job])))
    case Embed(run, count) =>
      if run !in s.jobs || s.jobs[run].done + count > |s.jobs[run].staged| then None
      else
        var job := s.jobs[run];
        var batch := Embedded(job.staged[job.done..job.done + count], job.model);
        Some(Sys(InsertIndexChunks(s.db, run, batch), s.jobs[run := job.(done := job.done + count)]))
    case Swap(run) =>
      if run !in s.jobs || s.jobs[run].done < |s.jobs[run].staged| then None
      else if s.jobs[run].active.Some? && s.jobs[run].active.value !in s.db.runs then None
      else Some(Sys(SwapIn(s.db, run, s.jobs[run]), s.jobs - {run}))
    case Abort(run) =>
      if run !in s.jobs then None
      else Some(Sys(ClearIndexStaging(SetStatus(s.db, run, Failed), run), s.jobs - {run}))
    case Crash(run) =>
      // A killed worker clears nothing.
      if run !in s.jobs then None else Some(Sys(s.db, s.jobs - {run}))
    case SweepIndexes(repos) => Some(Sys(Sweep(s.db, repos), s.jobs))
    case EnsureSchema(model) =>
      if model == s.db.schema then Some(s)
      else Some(Sys(Rebuild(s.db, model), map r | r in s.jobs :: s.jobs[r].(lost := s.jobs[r].done)))
    case Tick(minutes) =>
      // A job's context ends with its timeout, before its run can count as stray.
      if exists r :: r in s.jobs && (r !in s.db.runs || s.db.runs[r].created + MAX_JOB < s.db.now + minutes) then None
      else Some(s.(db := s.db.(now := s.db.now + minutes)))
  }

  ghost function Run(w: World, s: Sys, actions: seq<Action>): Option<Sys>
    decreases |actions|
  {
    if actions == [] then Some(s)
    else
      match Apply(w, s, actions[0])
      case None => None
      case Some(next) => Run(w, next, actions[1..])
  }

  const Empty := Sys(Db(0, map[], map[], map[], ""), map[])

  // ---- What must hold ----

  /** The rows of `run` are exactly what a full walk of its commit, embedded by its model, would hold. */
  ghost predicate Exact(w: World, db: Db, run: nat) {
    && run in db.runs
    && forall path :: RowsAt(Rows(db, run), path) ==
                      Embedded(ChunksAt(w, db.runs[run].commit, path), db.runs[run].model)
  }

  ghost predicate ActiveExact(w: World, db: Db) {
    forall repo :: repo in db.active ==> Exact(w, db, db.active[repo])
  }

  ghost predicate GoodActive(s: Sys) {
    forall repo :: repo in s.db.active ==>
      var g := s.db.active[repo];
      g in s.db.runs && s.db.runs[g].repo == repo && s.db.runs[g].status == Completed && g !in s.jobs
  }

  /** What the base's configuration makes of a path of the commit. */
  ghost function Unstepped(w: World, job: Job, path: string): seq<Chunk>
    requires job.base.Some?
  {
    FileChunks(w.cut(job.base.value), w.tree(job.commit), path)
  }

  /** The base's configuration and the commit's have the files that a step leaves alone cut alike. */
  ghost predicate SameCuts(w: World, job: Job) {
    job.base.Some? ==> forall path :: path !in job.changed ==> CutsAlike(w, job, path)
  }

  ghost predicate CutsAlike(w: World, job: Job, path: string)
    requires job.base.Some?
  {
    Unstepped(w, job, path) == ChunksAt(w, job.commit, path)
  }

  /** The chunks a job staged are those of its walk. */
  ghost predicate GoodWalk(w: World, job: Job) {
    && (job.base.None? ==> forall path :: At(job.staged, path) == ChunksAt(w, job.commit, path))
    && (job.base.Some? ==> forall path ::
          if path in job.changed then At(job.staged, path) == ChunksAt(w, job.commit, path)
          else At(job.staged, path) == [] && ChunksAt(w, job.base.value, path) == Unstepped(w, job, path))
  }

  ghost predicate GoodJob(w: World, s: Sys, run: nat)
    requires run in s.jobs
  {
    var job := s.jobs[run];
    && run in s.db.runs
    && s.db.runs[run].repo == job.repo && s.db.runs[run].commit == job.commit && s.db.runs[run].model == job.model
    && s.db.now <= s.db.runs[run].created + MAX_JOB
    && job.lost <= job.done <= |job.staged|
    && Rows(s.db, run) == Embedded(job.staged[job.lost..job.done], job.model)
    && (s.db.runs[run].status == Running ==> job.lost == 0)
    && GoodWalk(w, job)
    && (job.base.Some? ==> job.active.Some? && !job.forced)
    && (job.active.Some? ==>
          var g := job.active.value;
          && g in s.db.runs && g !in s.jobs && s.db.runs[g].repo == job.repo
          && (job.base.Some? && job.repo in s.db.active && s.db.active[job.repo] == g ==>
                job.lost == 0 && s.db.runs[g].commit == job.base.value && s.db.runs[g].model == job.model))
  }

  ghost predicate Exclusive(jobs: map<nat, Job>) {
    forall r, q :: r in jobs && q in jobs && jobs[r].repo == jobs[q].repo && jobs[r].forced == jobs[q].forced ==> r == q
  }

  ghost predicate GoodJobs(w: World, s: Sys) {
    forall run :: run in s.jobs ==> GoodJob(w, s, run)
  }

  ghost predicate Inv(w: World, s: Sys) {
    && GoodActive(s)
    && GoodJobs(w, s)
    && Exclusive(s.jobs)
    && s.db.rows.Keys <= s.db.runs.Keys
    && ActiveExact(w, s.db)
  }

  // ---- Rows ----

  lemma {:induction false} RowsAtConcat(a: seq<Vec>, b: seq<Vec>, path: string)
    ensures RowsAt(a + b, path) == RowsAt(a, path) + RowsAt(b, path)
    decreases |a|
  {
    if a == [] {
      assert a + b == b;
    } else {
      var first := if a[0].chunk.path == path then [a[0]] else [];
      RowsAtConcat(a[1..], b, path);
      assert (a + b)[1..] == a[1..] + b && (a + b)[0] == a[0];
      Assoc(first, RowsAt(a[1..], path), RowsAt(b, path));
    }
  }

  lemma RowsAtCons(row: Vec, rest: seq<Vec>, path: string)
    ensures RowsAt([row] + rest, path) == (if row.chunk.path == path then [row] else []) + RowsAt(rest, path)
  {
    assert ([row] + rest)[1..] == rest;
  }

  lemma WithoutCons(row: Vec, rest: seq<Vec>, paths: seq<string>)
    ensures Without([row] + rest, paths) == (if row.chunk.path in paths then [] else [row]) + Without(rest, paths)
  {
    assert ([row] + rest)[1..] == rest;
  }

  lemma NoRows(paths: seq<string>, path: string)
    ensures Without([], paths) == [] && RowsAt([], path) == []
  {
  }

  lemma {:induction false} RowsAtWithout(rows: seq<Vec>, paths: seq<string>, path: string)
    ensures RowsAt(Without(rows, paths), path) == if path in paths then [] else RowsAt(rows, path)
    decreases |rows|
  {
    hide *;
    if rows == [] {
      NoRows(paths, path);
    } else {
      var row, rest := rows[0], rows[1..];
      assert rows == [row] + rest;
      RowsAtWithout(rest, paths, path);
      WithoutCons(row, rest, paths);
      RowsAtCons(row, rest, path);
      RowsAtCons(row, Without(rest, paths), path);
      assert [] + Without(rest, paths) == Without(rest, paths);
    }
  }

  lemma {:induction false} EmbeddedConcat(a: seq<Chunk>, b: seq<Chunk>, model: string)
    ensures Embedded(a + b, model) == Embedded(a, model) + Embedded(b, model)
    decreases |a|
  {
    if a == [] {
      assert a + b == b;
    } else {
      EmbeddedConcat(a[1..], b, model);
      assert (a + b)[1..] == a[1..] + b && (a + b)[0] == a[0];
      Assoc([Vec(a[0], model)], Embedded(a[1..], model), Embedded(b, model));
    }
  }

  lemma {:induction false} RowsAtEmbedded(chunks: seq<Chunk>, model: string, path: string)
    ensures RowsAt(Embedded(chunks, model), path) == Embedded(At(chunks, path), model)
    decreases |chunks|
  {
    if chunks != [] {
      RowsAtEmbedded(chunks[1..], model, path);
      var rest := Embedded(chunks[1..], model);
      assert ([Vec(chunks[0], model)] + rest)[1..] == rest;
      var first := if chunks[0].path == path then [chunks[0]] else [];
      EmbeddedConcat(first, At(chunks[1..], path), model);
      assert Embedded([], model) == [];
      assert [chunks[0]][1..] == [];
    }
  }

  lemma {:induction false} EmbeddedLength(chunks: seq<Chunk>, model: string)
    ensures |Embedded(chunks, model)| == |chunks|
    decreases |chunks|
  {
    if chunks != [] {
      EmbeddedLength(chunks[1..], model);
    }
  }

  // ---- What one action leaves alone ----

  lemma ExactFrame(w: World, db: Db, next: Db, run: nat)
    requires Exact(w, db, run) && run in next.runs && Rows(next, run) == Rows(db, run)
    requires next.runs[run].commit == db.runs[run].commit && next.runs[run].model == db.runs[run].model
    ensures Exact(w, next, run)
  {
  }

  /** What a job's good standing rests on. */
  lemma JobFrame(w: World, s: Sys, next: Sys, run: nat)
    requires run in s.jobs && GoodJob(w, s, run)
    requires run in next.jobs && next.jobs[run] == s.jobs[run]
    requires run in next.db.runs && next.db.runs[run] == s.db.runs[run]
    requires next.db.now <= s.db.runs[run].created + MAX_JOB && Rows(next.db, run) == Rows(s.db, run)
    requires s.jobs[run].active.Some? ==>
               var g := s.jobs[run].active.value;
               && g in next.db.runs && g !in next.jobs && next.db.runs[g].repo == s.db.runs[g].repo
               && (s.jobs[run].base.Some? && s.jobs[run].repo in next.db.active && next.db.active[s.jobs[run].repo] == g ==>
                     && s.jobs[run].repo in s.db.active && s.db.active[s.jobs[run].repo] == g
                     && next.db.runs[g].commit == s.db.runs[g].commit && next.db.runs[g].model == s.db.runs[g].model)
    ensures GoodJob(w, next, run)
  {
    hide GoodWalk;
  }

  // ---- Every action ----

  lemma NewJobWalks(w: World, db: Db, repo: nat, commit: nat, model: string, forced: bool, walk: Walk)
    requires AllName(w) && NewJob(w, db, repo, commit, model, forced, walk).Some?
    ensures GoodWalk(w, NewJob(w, db, repo, commit, model, forced, walk).value)
  {
    var job := NewJob(w, db, repo, commit, model, forced, walk).value;
    assert Names(w.cut(commit));
    match walk
    case FullWalk(files) =>
      forall path
        ensures At(job.staged, path) == ChunksAt(w, commit, path)
      {
        FullWalkAt(w.cut(commit), files, w.tree(commit), path);
      }
    case StepWalk(changes) =>
      assert Names(w.cut(job.base.value));
      forall path
        ensures if path in job.changed then At(job.staged, path) == ChunksAt(w, commit, path)
                else At(job.staged, path) == [] && ChunksAt(w, job.base.value, path) == Unstepped(w, job, path)
      {
        StepWalkAt(w.cut(commit), changes, w.tree(job.base.value), w.tree(commit), path);
        StepWalkAt(w.cut(job.base.value), changes, w.tree(job.base.value), w.tree(commit), path);
      }
  }

  lemma BeginStartsGoodJob(w: World, s: Sys, a: Action)
    requires AllName(w) && Inv(w, s) && a.Begin? && Apply(w, s, a).Some?
    ensures GoodJob(w, Apply(w, s, a).value, a.run)
  {
    var next := Apply(w, s, a).value;
    var job := next.jobs[a.run];
    NewJobWalks(w, s.db, a.repo, a.commit, a.model, a.forced, a.walk);
    hide GoodWalk, At, FileChunks, ChunksAt, Noted, NewSides, CutAll, Lists, Diffs, ActiveExact, GoodJob, Stray;
    assert Embedded(job.staged[0..0], job.model) == [];
    assert a.run !in s.db.rows;
    assert Rows(next.db, a.run) == [];
    StartedJob(w, next, a.run);
  }

  lemma StartedJob(w: World, s: Sys, run: nat)
    requires run in s.jobs && run in s.db.runs
    requires
      var job, row := s.jobs[run], s.db.runs[run];
      && row.repo == job.repo && row.commit == job.commit && row.model == job.model && row.created == s.db.now
      && job.lost == 0 && job.done == 0 && Rows(s.db, run) == [] && GoodWalk(w, job)
      && (job.base.Some? ==> job.active.Some? && !job.forced)
      && (job.active.Some? ==>
            var g := job.active.value;
            && g in s.db.runs && g !in s.jobs && s.db.runs[g].repo == job.repo
            && (job.base.Some? ==> s.db.runs[g].commit == job.base.value && s.db.runs[g].model == job.model))
    ensures GoodJob(w, s, run)
  {
    hide GoodWalk;
  }

  lemma BeginKeepsJobs(w: World, s: Sys, a: Action, run: nat)
    requires Inv(w, s) && a.Begin? && Apply(w, s, a).Some? && run in s.jobs
    ensures GoodJob(w, Apply(w, s, a).value, run)
  {
    var next := Apply(w, s, a).value;
    assert GoodJob(w, s, run);
    assert !Stray(s.db, a.repo, run);
    hide GoodWalk, NewJob, ActiveExact, BaseOf, InFlight;
    JobFrame(w, s, next, run);
  }

  lemma BeginKeepsExact(w: World, s: Sys, a: Action)
    requires Inv(w, s) && a.Begin? && Apply(w, s, a).Some?
    ensures ActiveExact(w, Apply(w, s, a).value.db)
  {
    var next := Apply(w, s, a).value;
    hide NewJob, GoodJob, InFlight, BaseOf, Exact;
    forall repo | repo in s.db.active
      ensures Exact(w, next.db, s.db.active[repo])
    {
      var g := s.db.active[repo];
      assert Exact(w, s.db, g);
      assert !Stray(s.db, a.repo, g);
      ExactFrame(w, s.db, next.db, g);
    }
  }

  /** A job that begins adds itself and its run, and drops no row of an active generation. */
  lemma BeginState(w: World, s: Sys, a: Action, next: Sys)
    requires a.Begin? && Apply(w, s, a) == Some(next)
    ensures a.run !in s.db.runs && a.run in next.jobs && next.jobs == s.jobs[a.run := next.jobs[a.run]]
    ensures next.jobs[a.run].repo == a.repo && next.jobs[a.run].forced == a.forced && !InFlight(s.jobs, a.repo, a.forced)
    ensures next.db.active == s.db.active && next.db.now == s.db.now && next.db.rows.Keys <= s.db.rows.Keys
    ensures next.db.runs.Keys == s.db.runs.Keys + {a.run}
    ensures forall r :: r in s.db.runs ==> next.db.runs[r] == s.db.runs[r]
  {
    hide BaseOf, Lists, Diffs, CutAll, InFlight, Stray;
  }

  lemma BegunIsExclusive(jobs: map<nat, Job>, run: nat, job: Job)
    requires Exclusive(jobs) && !InFlight(jobs, job.repo, job.forced) && run !in jobs
    ensures Exclusive(jobs[run := job])
  {
  }

  lemma InvIs(w: World, s: Sys)
    ensures Inv(w, s) <==>
            && GoodActive(s) && GoodJobs(w, s) && Exclusive(s.jobs) && s.db.rows.Keys <= s.db.runs.Keys && ActiveExact(w, s.db)
  {
  }

  lemma GoodJobsIs(w: World, s: Sys)
    ensures GoodJobs(w, s) <==> forall run :: run in s.jobs ==> GoodJob(w, s, run)
  {
    hide GoodJob;
  }

  /** A job's run is one of the runs. */
  lemma JobsHaveRuns(w: World, s: Sys)
    requires GoodJobs(w, s)
    ensures s.jobs.Keys <= s.db.runs.Keys
  {
    forall run | run in s.jobs ensures run in s.db.runs {
      assert GoodJob(w, s, run);
    }
  }

  lemma BeginKeepsActive(w: World, s: Sys, a: Action, next: Sys)
    requires GoodActive(s) && next.db.active == s.db.active && a.Begin? && a.run !in s.db.runs
    requires next.jobs.Keys == s.jobs.Keys + {a.run} && s.db.runs.Keys <= next.db.runs.Keys
    requires forall r :: r in s.db.runs ==> next.db.runs[r] == s.db.runs[r]
    ensures GoodActive(next)
  {
  }

  lemma BeginKeepsInv(w: World, s: Sys, a: Action)
    requires AllName(w) && Inv(w, s) && a.Begin? && Apply(w, s, a).Some?
    ensures Inv(w, Apply(w, s, a).value)
  {
    hide *;
    var next := Apply(w, s, a).value;
    InvIs(w, s);
    BeginState(w, s, a, next);
    BeginStartsGoodJob(w, s, a);
    BeginKeepsExact(w, s, a);
    JobsHaveRuns(w, s);
    BegunIsExclusive(s.jobs, a.run, next.jobs[a.run]);
    BeginKeepsActive(w, s, a, next);
    forall run | run in next.jobs ensures GoodJob(w, next, run) {
      if run != a.run {
        BeginKeepsJobs(w, s, a, run);
      }
    }
    GoodJobsIs(w, next);
    InvIs(w, next);
  }

  lemma EmbedKeepsOthers(w: World, s: Sys, a: Action, run: nat)
    requires Inv(w, s) && a.Embed? && Apply(w, s, a).Some? && run in s.jobs && run != a.run
    ensures GoodJob(w, Apply(w, s, a).value, run)
  {
    assert GoodJob(w, s, run);
    hide GoodWalk, ActiveExact, GoodJob, Embedded, Exclusive;
    JobActiveIsNoJob(w, s, run);
    JobFrame(w, s, Apply(w, s, a).value, run);
  }

  /** ActiveExact survives an action that leaves the active generations' rows and runs alone. */
  lemma ExactsFrame(w: World, db: Db, next: Db)
    requires ActiveExact(w, db) && next.active.Keys <= db.active.Keys
    requires forall repo :: repo in next.active ==>
               var g := db.active[repo];
               && next.active[repo] == g && g in db.runs && g in next.runs && Rows(next, g) == Rows(db, g)
               && next.runs[g].commit == db.runs[g].commit && next.runs[g].model == db.runs[g].model
    ensures ActiveExact(w, next)
  {
    hide Exact, Rows;
    forall repo | repo in next.active
      ensures Exact(w, next, next.active[repo])
    {
      assert Exact(w, db, db.active[repo]);
      ExactFrame(w, db, next, db.active[repo]);
    }
  }

  /** A batch adds rows to its own run, and no more. */
  lemma EmbedState(w: World, s: Sys, a: Action, next: Sys)
    requires a.Embed? && Apply(w, s, a) == Some(next)
    ensures a.run in s.jobs && next.jobs == s.jobs[a.run := s.jobs[a.run].(done := s.jobs[a.run].done + a.count)]
    ensures next.db.active == s.db.active && next.db.now == s.db.now && next.db.runs == s.db.runs
    ensures next.db.rows.Keys == s.db.rows.Keys + {a.run}
    ensures forall r :: r != a.run ==> Rows(next.db, r) == Rows(s.db, r)
  {
    hide Embedded;
  }

  lemma EmbedKeepsActive(w: World, s: Sys, a: Action, next: Sys)
    requires GoodActive(s) && ActiveExact(w, s.db) && a.Embed? && Apply(w, s, a) == Some(next)
    ensures GoodActive(next) && ActiveExact(w, next.db)
  {
    hide Apply, Exact, Rows;
    EmbedState(w, s, a, next);
    ExactsFrame(w, s.db, next.db);
  }

  lemma ExclusiveIs(jobs: map<nat, Job>, run: nat, job: Job)
    requires Exclusive(jobs) && run in jobs && job.repo == jobs[run].repo && job.forced == jobs[run].forced
    ensures Exclusive(jobs[run := job])
  {
  }

  lemma EmbedKeepsInv(w: World, s: Sys, a: Action)
    requires Inv(w, s) && a.Embed? && Apply(w, s, a).Some?
    ensures Inv(w, Apply(w, s, a).value)
  {
    hide *;
    var next := Apply(w, s, a).value;
    InvIs(w, s);
    EmbedState(w, s, a, next);
    EmbedKeepsActive(w, s, a, next);
    JobsHaveRuns(w, s);
    ExclusiveIs(s.jobs, a.run, next.jobs[a.run]);
    forall run | run in next.jobs ensures GoodJob(w, next, run) {
      if run == a.run {
        EmbedGrowsRows(w, s, a);
      } else {
        EmbedKeepsOthers(w, s, a, run);
      }
    }
    GoodJobsIs(w, next);
    InvIs(w, next);
  }

  lemma SliceEmbedded(chunks: seq<Chunk>, lo: nat, mid: nat, hi: nat, model: string)
    requires lo <= mid <= hi <= |chunks|
    ensures Embedded(chunks[lo..mid], model) + Embedded(chunks[mid..hi], model) == Embedded(chunks[lo..hi], model)
  {
    assert chunks[lo..mid] + chunks[mid..hi] == chunks[lo..hi];
    EmbeddedConcat(chunks[lo..mid], chunks[mid..hi], model);
  }

  lemma GrownJob(w: World, s: Sys, next: Sys, run: nat)
    requires run in s.jobs && GoodJob(w, s, run) && run in next.jobs && next.jobs.Keys == s.jobs.Keys
    requires next.jobs[run] == s.jobs[run].(done := next.jobs[run].done)
    requires s.jobs[run].done <= next.jobs[run].done <= |s.jobs[run].staged|
    requires next.db.runs == s.db.runs && next.db.active == s.db.active && next.db.now == s.db.now
    requires Rows(next.db, run) == Embedded(next.jobs[run].staged[next.jobs[run].lost..next.jobs[run].done], next.jobs[run].model)
    ensures GoodJob(w, next, run)
  {
    SameWalk(w, s.jobs[run], next.jobs[run]);
    hide GoodWalk, Embedded, Rows;
  }

  lemma EmbedGrowsRows(w: World, s: Sys, a: Action)
    requires Inv(w, s) && a.Embed? && Apply(w, s, a).Some?
    ensures GoodJob(w, Apply(w, s, a).value, a.run)
  {
    var next := Apply(w, s, a).value;
    var job := s.jobs[a.run];
    var to := job.done + a.count;
    assert GoodJob(w, s, a.run);
    assert Rows(next.db, a.run) == Rows(s.db, a.run) + Embedded(job.staged[job.done..to], job.model);
    assert next.jobs[a.run] == job.(done := to);
    SliceEmbedded(job.staged, job.lost, job.done, to, job.model);
    hide GoodWalk, ActiveExact, Embedded, Exclusive, GoodActive;
    GrownJob(w, s, next, a.run);
  }

  lemma EndingKeepsJobs(w: World, s: Sys, next: Sys, ended: nat, run: nat)
    requires Inv(w, s) && ended in s.jobs && next.jobs == s.jobs - {ended} && run in next.jobs
    requires next.db.now == s.db.now && Rows(next.db, run) == Rows(s.db, run)
    requires s.db.runs.Keys <= next.db.runs.Keys
    requires next.db.runs[run] == s.db.runs[run]
    requires forall g :: g in s.db.runs && g != ended ==>
               next.db.runs[g].repo == s.db.runs[g].repo && next.db.runs[g].model == s.db.runs[g].model
    requires s.jobs[run].base.Some? && s.jobs[run].repo in next.db.active && next.db.active[s.jobs[run].repo] != ended ==>
               var repo := s.jobs[run].repo;
               var g := next.db.active[repo];
               repo in s.db.active && s.db.active[repo] == g && g in s.db.runs && next.db.runs[g].commit == s.db.runs[g].commit
    ensures GoodJob(w, next, run)
  {
    assert GoodJob(w, s, run) && GoodJob(w, s, ended);
    hide GoodWalk, ActiveExact, GoodJob;
    if s.jobs[run].active.Some? {
      JobActiveNotEnded(w, s, run, ended);
    }
    JobFrame(w, s, next, run);
  }

  lemma JobActiveIsNoJob(w: World, s: Sys, run: nat)
    requires run in s.jobs && GoodJob(w, s, run)
    ensures run in s.db.runs && s.db.now <= s.db.runs[run].created + MAX_JOB
    ensures s.jobs[run].active.Some? ==> s.jobs[run].active.value in s.db.runs && s.jobs[run].active.value !in s.jobs
  {
  }

  lemma JobActiveNotEnded(w: World, s: Sys, run: nat, ended: nat)
    requires run in s.jobs && GoodJob(w, s, run) && ended in s.jobs && s.jobs[run].active.Some?
    ensures
      var g := s.jobs[run].active.value;
      g != ended && g in s.db.runs && g !in s.jobs && s.db.runs[g].repo == s.jobs[run].repo
  {
  }

  /** An end without a swap touches its own run's row and rows at most, and no rows of an active generation. */
  lemma AbortState(w: World, s: Sys, a: Action, next: Sys)
    requires (a.Abort? || a.Crash?) && Apply(w, s, a) == Some(next)
    ensures a.run in s.jobs && next.jobs == s.jobs - {a.run}
    ensures next.db.now == s.db.now && next.db.active == s.db.active
    ensures next.db.runs.Keys == s.db.runs.Keys && next.db.rows.Keys <= s.db.rows.Keys
    ensures forall g :: g in s.db.runs && g != a.run ==> next.db.runs[g] == s.db.runs[g]
    ensures forall g :: g != a.run || g in s.db.active.Values ==> Rows(next.db, g) == Rows(s.db, g)
  {
  }

  lemma AbortKeepsJobs(w: World, s: Sys, a: Action, next: Sys, run: nat)
    requires Inv(w, s) && (a.Abort? || a.Crash?) && Apply(w, s, a) == Some(next) && run in next.jobs
    ensures GoodJob(w, next, run)
  {
    hide Apply, GoodWalk, ActiveExact, GoodJob, Exclusive, GoodActive, Rows;
    AbortState(w, s, a, next);
    assert GoodJob(w, s, run);
    JobActiveIsNoJob(w, s, run);
    JobActiveKept(w, s, a.run, run);
    JobFrame(w, s, next, run);
  }

  /** The generation a job started from outlasts another job. */
  lemma JobActiveKept(w: World, s: Sys, ended: nat, run: nat)
    requires Inv(w, s) && ended in s.jobs && run in s.jobs
    ensures s.jobs[run].active.Some? ==> s.jobs[run].active.value in s.db.runs && s.jobs[run].active.value != ended
  {
    hide GoodWalk, ActiveExact, Exclusive, GoodActive, Rows, Embedded;
    assert GoodJob(w, s, run);
  }

  lemma AbortKeepsActive(w: World, s: Sys, a: Action, next: Sys)
    requires Inv(w, s) && (a.Abort? || a.Crash?) && Apply(w, s, a) == Some(next)
    ensures GoodActive(next) && ActiveExact(w, next.db)
  {
    hide Apply, GoodJob, GoodJobs, Exact, Rows;
    AbortState(w, s, a, next);
    assert forall repo :: repo in s.db.active ==> s.db.active[repo] in s.db.active.Values;
    ExactsFrame(w, s.db, next.db);
  }

  lemma AbortKeepsInv(w: World, s: Sys, a: Action)
    requires Inv(w, s) && (a.Abort? || a.Crash?) && Apply(w, s, a).Some?
    ensures Inv(w, Apply(w, s, a).value)
  {
    hide Apply, GoodJob, ActiveExact, GoodActive;
    var next := Apply(w, s, a).value;
    AbortState(w, s, a, next);
    AbortKeepsActive(w, s, a, next);
    forall run | run in next.jobs ensures GoodJob(w, next, run) {
      AbortKeepsJobs(w, s, a, next, run);
    }
    InvOf(w, s, next);
  }

  lemma SweepKeepsInv(w: World, s: Sys, a: Action)
    requires Inv(w, s) && a.SweepIndexes? && Apply(w, s, a).Some?
    ensures Inv(w, Apply(w, s, a).value)
  {
    var next := Apply(w, s, a).value;
    forall run | run in s.jobs
      ensures GoodJob(w, next, run)
    {
      assert GoodJob(w, s, run);
      SweptAreNotJobs(w, s, a, run);
      hide GoodWalk, ActiveExact;
      JobFrame(w, s, next, run);
    }
    hide GoodJob, Exact;
    forall repo | repo in next.db.active
      ensures Exact(w, next.db, next.db.active[repo])
    {
      var g := s.db.active[repo];
      assert Exact(w, s.db, g);
      forall r | r in a.repos && r in s.db.active
        ensures s.db.active[r] != g
      {
        assert s.db.runs[s.db.active[r]].repo == r && s.db.runs[g].repo == repo;
      }
      ExactFrame(w, s.db, next.db, g);
    }
  }

  lemma SweptAreNotJobs(w: World, s: Sys, a: Action, run: nat)
    requires Inv(w, s) && a.SweepIndexes? && run in s.jobs
    ensures Sweep(s.db, a.repos).runs[run] == s.db.runs[run]
    ensures Rows(Sweep(s.db, a.repos), run) == Rows(s.db, run)
  {
    hide GoodWalk, ActiveExact;
    assert GoodJob(w, s, run);
  }

  lemma SameWalk(w: World, job: Job, next: Job)
    requires GoodWalk(w, job) && next == job.(lost := next.lost, done := next.done)
    ensures GoodWalk(w, next)
  {
  }

  lemma RebuildKeepsJobs(w: World, s: Sys, model: string, run: nat)
    requires Inv(w, s) && run in s.jobs && model != s.db.schema
    ensures GoodJob(w, Apply(w, s, EnsureSchema(model)).value, run)
  {
    var next := Apply(w, s, EnsureSchema(model)).value;
    var job := s.jobs[run];
    assert GoodJob(w, s, run);
    SameWalk(w, job, next.jobs[run]);
    hide GoodWalk, ActiveExact, Exclusive, GoodActive;
    assert job.staged[job.done..job.done] == [];
  }

  lemma RebuildKeepsInv(w: World, s: Sys, model: string)
    requires Inv(w, s)
    ensures Inv(w, Apply(w, s, EnsureSchema(model)).value)
  {
    if model != s.db.schema {
      forall run | run in s.jobs {
        RebuildKeepsJobs(w, s, model, run);
      }
    }
    hide GoodJob;
  }

  // ---- The swap ----

  /** A full build that lost no row holds, at every path, what a full walk of its commit does. */
  lemma FullBuildIsExact(w: World, s: Sys, run: nat)
    requires run in s.jobs && GoodJob(w, s, run) && s.jobs[run].base.None?
    requires s.jobs[run].done == |s.jobs[run].staged| && s.jobs[run].lost == 0
    ensures Exact(w, s.db, run)
  {
    var job := s.jobs[run];
    assert job.staged[0..|job.staged|] == job.staged;
    forall path
      ensures RowsAt(Rows(s.db, run), path) == Embedded(ChunksAt(w, job.commit, path), job.model)
    {
      RowsAtEmbedded(job.staged, job.model, path);
    }
  }

  /** Dropping the changed paths' rows and moving the step's in makes the base's exact generation head's. */
  lemma StepRowsAt(rows: seq<Vec>, changed: seq<string>, staged: seq<Chunk>, model: string, path: string)
    ensures RowsAt(Without(rows, changed) + Embedded(staged, model), path) ==
            (if path in changed then [] else RowsAt(rows, path)) + Embedded(At(staged, path), model)
  {
    hide *;
    RowsAtConcat(Without(rows, changed), Embedded(staged, model), path);
    RowsAtWithout(rows, changed, path);
    RowsAtEmbedded(staged, model, path);
  }

  lemma StepIsExact(w: World, s: Sys, run: nat, g: nat)
    requires run in s.jobs && GoodJob(w, s, run) && s.jobs[run].done == |s.jobs[run].staged|
    requires s.jobs[run].base.Some? && s.jobs[run].active == Some(g) && Exact(w, s.db, g)
    requires s.jobs[run].repo in s.db.active && s.db.active[s.jobs[run].repo] == g && SameCuts(w, s.jobs[run])
    ensures Exact(w, AdvanceGeneration(s.db, g, run, s.jobs[run].commit, s.jobs[run].changed), g)
  {
    var job := s.jobs[run];
    var next := AdvanceGeneration(s.db, g, run, job.commit, job.changed);
    assert job.staged[0..|job.staged|] == job.staged;
    assert Rows(next, g) == Without(Rows(s.db, g), job.changed) + Embedded(job.staged, job.model);
    forall path
      ensures RowsAt(Rows(next, g), path) == Embedded(ChunksAt(w, job.commit, path), job.model)
    {
      StepRowsAt(Rows(s.db, g), job.changed, job.staged, job.model, path);
      assert Embedded([], job.model) == [];
    }
  }

  /** The rows a swap leaves under every run but the job's own and the generations it replaces or advances. */
  lemma SwapFrame(s: Sys, run: nat, job: Job, other: nat)
    requires job.active.Some? ==> job.active.value in s.db.runs
    requires other != run && (job.active.Some? ==> other != job.active.value)
    ensures Rows(SwapIn(s.db, run, job), other) == Rows(s.db, other)
    ensures other in s.db.runs ==> other in SwapIn(s.db, run, job).runs && SwapIn(s.db, run, job).runs[other] == s.db.runs[other]
  {
    hide Without;
  }

  lemma ActivationState(w: World, s: Sys, run: nat)
    requires Inv(w, s) && run in s.jobs && s.jobs[run].base.None?
    ensures
      var job := s.jobs[run];
      && (job.active.Some? ==> job.active.value in s.db.runs && job.active.value != run)
      && var next := SwapIn(s.db, run, job);
         && next.active == s.db.active[job.repo := run] && next.now == s.db.now
         && Rows(next, run) == Rows(s.db, run)
         && next.runs.Keys == s.db.runs.Keys && next.rows.Keys <= s.db.rows.Keys
         && next.runs[run] == s.db.runs[run].(status := Completed)
         && forall g :: g in s.db.runs ==>
              next.runs[g].repo == s.db.runs[g].repo && next.runs[g].model == s.db.runs[g].model &&
              next.runs[g].commit == s.db.runs[g].commit
  {
    assert GoodJob(w, s, run);
    hide GoodWalk, ActiveExact;
    var active := s.db.active[s.jobs[run].repo := run];
    assert run in active.Values by {
      assert active[s.jobs[run].repo] == run;
    }
  }

  lemma ActivationKeepsJobs(w: World, s: Sys, run: nat, r: nat)
    requires Inv(w, s) && run in s.jobs && Apply(w, s, Swap(run)).Some? && s.jobs[run].base.None?
    requires r in s.jobs && r != run
    ensures GoodJob(w, Apply(w, s, Swap(run)).value, r)
  {
    var next := Apply(w, s, Swap(run)).value;
    ActivationState(w, s, run);
    assert GoodJob(w, s, run) && GoodJob(w, s, r);
    hide SwapIn, Exact, GoodWalk, Exclusive;
    SwapFrame(s, run, s.jobs[run], r);
    EndingKeepsJobs(w, s, next, run, r);
  }

  lemma ActivationKeepsExact(w: World, s: Sys, run: nat)
    requires Inv(w, s) && run in s.jobs && Apply(w, s, Swap(run)).Some?
    requires s.jobs[run].base.None? && s.jobs[run].lost == 0
    ensures
      var next := Apply(w, s, Swap(run)).value;
      ActiveExact(w, next.db) && GoodActive(next)
  {
    var job := s.jobs[run];
    var next := Apply(w, s, Swap(run)).value;
    assert GoodJob(w, s, run);
    ActivationState(w, s, run);
    FullBuildIsExact(w, s, run);
    ExactFrame(w, s.db, next.db, run);
    hide SwapIn, Exact, GoodWalk, GoodJob, Exclusive;
    forall repo | repo in next.db.active && repo != job.repo
      ensures Exact(w, next.db, next.db.active[repo]) && next.db.runs[next.db.active[repo]] == s.db.runs[s.db.active[repo]]
    {
      var g := s.db.active[repo];
      assert Exact(w, s.db, g);
      if job.active.Some? {
        JobActiveRepo(w, s, run);
      }
      SwapFrame(s, run, job, g);
      ExactFrame(w, s.db, next.db, g);
    }
  }

  lemma JobActiveRepo(w: World, s: Sys, run: nat)
    requires run in s.jobs && GoodJob(w, s, run) && s.jobs[run].active.Some?
    ensures s.jobs[run].active.value in s.db.runs && s.db.runs[s.jobs[run].active.value].repo == s.jobs[run].repo
  {
  }

  lemma ActivationKeepsInv(w: World, s: Sys, run: nat)
    requires Inv(w, s) && run in s.jobs && Apply(w, s, Swap(run)).Some?
    requires s.jobs[run].base.None? && s.jobs[run].lost == 0
    ensures Inv(w, Apply(w, s, Swap(run)).value)
  {
    hide *;
    Swapped(w, s, run);
    ActivationState(w, s, run);
    ActivationKeepsExact(w, s, run);
    forall r | r in s.jobs && r != run ensures GoodJob(w, Apply(w, s, Swap(run)).value, r) {
      ActivationKeepsJobs(w, s, run, r);
    }
    FewerJobs(w, s, run);
    InvOf(w, s, Apply(w, s, Swap(run)).value);
  }

  lemma Swapped(w: World, s: Sys, run: nat)
    requires run in s.jobs && Apply(w, s, Swap(run)).Some?
    ensures s.jobs[run].active.Some? ==> s.jobs[run].active.value in s.db.runs
    ensures Apply(w, s, Swap(run)) == Some(Sys(SwapIn(s.db, run, s.jobs[run]), s.jobs - {run}))
  {
  }

  lemma FewerJobs(w: World, s: Sys, run: nat)
    requires Inv(w, s)
    ensures Exclusive(s.jobs - {run}) && s.db.rows.Keys <= s.db.runs.Keys
  {
    hide GoodJobs, GoodActive, ActiveExact;
  }

  lemma InvOf(w: World, s: Sys, next: Sys)
    requires GoodActive(next) && ActiveExact(w, next.db) && Exclusive(next.jobs) && next.db.rows.Keys <= next.db.runs.Keys
    requires forall r :: r in next.jobs ==> r in s.jobs && GoodJob(w, next, r)
    ensures Inv(w, next)
  {
    hide GoodJob, GoodActive, ActiveExact, Exclusive;
  }

  lemma AdvanceState(w: World, s: Sys, run: nat, g: nat)
    requires Inv(w, s) && run in s.jobs && s.jobs[run].base.Some? && s.jobs[run].active == Some(g)
    ensures g in s.db.runs && g != run && s.db.runs[g].repo == s.jobs[run].repo && !s.jobs[run].forced
    ensures
      var job := s.jobs[run];
      var next := SwapIn(s.db, run, job);
      && next.active == s.db.active && next.now == s.db.now
      && Rows(next, g) == Rows(AdvanceGeneration(s.db, g, run, job.commit, job.changed), g)
      && next.runs.Keys == s.db.runs.Keys && next.rows.Keys <= s.db.rows.Keys + {g}
      && next.runs[g] == s.db.runs[g].(commit := job.commit)
      && forall r :: r in s.db.runs ==>
           next.runs[r].repo == s.db.runs[r].repo && next.runs[r].model == s.db.runs[r].model &&
           (r != g ==> next.runs[r].commit == s.db.runs[r].commit)
  {
    assert GoodJob(w, s, run);
    hide GoodWalk, ActiveExact, Without;
    assert run !in s.db.active.Values by {
      assert forall repo :: repo in s.db.active ==> s.db.active[repo] !in s.jobs;
    }
  }

  lemma AdvanceKeepsJobs(w: World, s: Sys, run: nat, r: nat)
    requires Inv(w, s) && run in s.jobs && Apply(w, s, Swap(run)).Some? && s.jobs[run].base.Some?
    requires r in s.jobs && r != run
    ensures GoodJob(w, Apply(w, s, Swap(run)).value, r)
  {
    var next := Apply(w, s, Swap(run)).value;
    assert GoodJob(w, s, run) && GoodJob(w, s, r);
    AdvanceState(w, s, run, s.jobs[run].active.value);
    hide SwapIn, Exact, GoodWalk, AdvanceGeneration;
    SwapFrame(s, run, s.jobs[run], r);
    EndingKeepsJobs(w, s, next, run, r);
  }

  lemma AdvanceKeepsExact(w: World, s: Sys, run: nat)
    requires Inv(w, s) && run in s.jobs && Apply(w, s, Swap(run)).Some? && s.jobs[run].base.Some?
    requires Moves(s, Swap(run)) ==> SameCuts(w, s.jobs[run])
    ensures
      var next := Apply(w, s, Swap(run)).value;
      ActiveExact(w, next.db) && GoodActive(next)
  {
    var job := s.jobs[run];
    var next := Apply(w, s, Swap(run)).value;
    assert GoodJob(w, s, run);
    var g := job.active.value;
    AdvanceState(w, s, run, g);
    if job.repo in s.db.active && s.db.active[job.repo] == g {
      StepIsExact(w, s, run, g);
      ExactFrame(w, AdvanceGeneration(s.db, g, run, job.commit, job.changed), next.db, g);
    }
    hide SwapIn, Exact, GoodWalk, AdvanceGeneration, GoodJob, Exclusive;
    forall repo | repo in next.db.active && s.db.active[repo] != g
      ensures Exact(w, next.db, next.db.active[repo]) && next.db.runs[next.db.active[repo]] == s.db.runs[s.db.active[repo]]
    {
      var other := s.db.active[repo];
      assert Exact(w, s.db, other);
      SwapFrame(s, run, job, other);
      ExactFrame(w, s.db, next.db, other);
    }
  }

  lemma StepsFromActive(w: World, s: Sys, run: nat)
    requires Inv(w, s) && run in s.jobs && s.jobs[run].base.Some?
    ensures s.jobs[run].active.Some? && s.jobs[run].active.value in s.db.runs
  {
    assert GoodJob(w, s, run);
  }

  lemma AdvanceKeepsInv(w: World, s: Sys, run: nat)
    requires Inv(w, s) && run in s.jobs && Apply(w, s, Swap(run)).Some? && s.jobs[run].base.Some?
    requires Moves(s, Swap(run)) ==> SameCuts(w, s.jobs[run])
    ensures Inv(w, Apply(w, s, Swap(run)).value)
  {
    hide *;
    StepsFromActive(w, s, run);
    Swapped(w, s, run);
    AdvanceState(w, s, run, s.jobs[run].active.value);
    AdvanceKeepsExact(w, s, run);
    forall r | r in s.jobs && r != run ensures GoodJob(w, Apply(w, s, Swap(run)).value, r) {
      AdvanceKeepsJobs(w, s, run, r);
    }
    FewerJobs(w, s, run);
    InvOf(w, s, Apply(w, s, Swap(run)).value);
  }

  lemma TickKeepsInv(w: World, s: Sys, a: Action)
    requires Inv(w, s) && a.Tick? && Apply(w, s, a).Some?
    ensures Inv(w, Apply(w, s, a).value)
  {
    var next := Apply(w, s, a).value;
    forall run | run in s.jobs
      ensures GoodJob(w, next, run)
    {
      assert GoodJob(w, s, run);
      hide GoodWalk, ActiveExact, GoodJob;
      JobFrame(w, s, next, run);
    }
    hide GoodJob, Exact;
    forall repo | repo in s.db.active
      ensures Exact(w, next.db, s.db.active[repo])
    {
      assert Exact(w, s.db, s.db.active[repo]);
      ExactFrame(w, s.db, next.db, s.db.active[repo]);
    }
  }

  // ---- Over every run ----

  /** The swap makes a full build active. */
  predicate Activates(s: Sys, a: Action) {
    a.Swap? && a.run in s.jobs && s.jobs[a.run].base.None?
  }

  /** The swap moves the generation that is active. */
  predicate Moves(s: Sys, a: Action) {
    && a.Swap? && a.run in s.jobs && s.jobs[a.run].base.Some? && s.jobs[a.run].repo in s.db.active
    && s.jobs[a.run].active == Some(s.db.active[s.jobs[a.run].repo])
  }

  /**
    A swap that makes a full build active finds as many rows of its run as were embedded, and one that moves the
    active generation leaves no file whose configuration changed.
   */
  ghost predicate Whole(w: World, s: Sys, a: Action) {
    && (Activates(s, a) ==> |Rows(s.db, a.run)| == |s.jobs[a.run].staged|)
    && (Moves(s, a) ==> SameCuts(w, s.jobs[a.run]))
  }

  ghost predicate AllWhole(w: World, s: Sys, actions: seq<Action>)
    decreases |actions|
  {
    actions == [] ||
    (Whole(w, s, actions[0]) &&
     (Apply(w, s, actions[0]).Some? ==> AllWhole(w, Apply(w, s, actions[0]).value, actions[1..])))
  }

  /** In every state of the run the active generations are exact. */
  ghost predicate AlwaysExact(w: World, s: Sys, actions: seq<Action>)
    decreases |actions|
  {
    && ActiveExact(w, s.db)
    && (actions != [] && Apply(w, s, actions[0]).Some? ==> AlwaysExact(w, Apply(w, s, actions[0]).value, actions[1..]))
  }

  /** A whole full build lost none of its rows. */
  lemma WholeLostNothing(w: World, s: Sys, run: nat)
    requires Inv(w, s) && run in s.jobs && Apply(w, s, Swap(run)).Some? && s.jobs[run].base.None? && Whole(w, s, Swap(run))
    ensures s.jobs[run].lost == 0
  {
    var job := s.jobs[run];
    assert GoodJob(w, s, run);
    EmbeddedLength(job.staged[job.lost..job.done], job.model);
  }

  lemma StepKeepsInv(w: World, s: Sys, a: Action)
    requires AllName(w) && Inv(w, s) && Apply(w, s, a).Some? && Whole(w, s, a)
    ensures Inv(w, Apply(w, s, a).value)
  {
    match a
    case Begin(_, _, _, _, _, _) => BeginKeepsInv(w, s, a);
    case Embed(_, _) => EmbedKeepsInv(w, s, a);
    case Swap(run) =>
      if s.jobs[run].base.Some? {
        AdvanceKeepsInv(w, s, run);
      } else {
        WholeLostNothing(w, s, run);
        ActivationKeepsInv(w, s, run);
      }
    case Abort(_) => AbortKeepsInv(w, s, a);
    case Crash(_) => AbortKeepsInv(w, s, a);
    case SweepIndexes(_) => SweepKeepsInv(w, s, a);
    case EnsureSchema(model) => RebuildKeepsInv(w, s, model);
    case Tick(_) => TickKeepsInv(w, s, a);
  }

  lemma {:induction false} RunKeepsInv(w: World, s: Sys, actions: seq<Action>)
    requires AllName(w) && Inv(w, s) && Run(w, s, actions).Some? && AllWhole(w, s, actions)
    ensures Inv(w, Run(w, s, actions).value)
    decreases |actions|
  {
    if actions != [] {
      StepKeepsInv(w, s, actions[0]);
      hide Apply, Inv, Whole;
      RunKeepsInv(w, Apply(w, s, actions[0]).value, actions[1..]);
    }
  }

  /**
    Over every interleaving of index jobs (starting, embedding batch by batch, swapping in, failing, being
    killed), sweeps, schema rebuilds and time, as long as every full build that is made active still has all the
    rows it embedded: every repository's active generation holds, at every path, exactly the chunks a full walk
    of its recorded commit would hold, embedded by its recorded model.
   */
  lemma ActiveGenerationIsARebuild(w: World, actions: seq<Action>)
    requires AllName(w) && Run(w, Empty, actions).Some? && AllWhole(w, Empty, actions)
    ensures ActiveExact(w, Run(w, Empty, actions).value.db)
  {
    assert Inv(w, Empty);
    RunKeepsInv(w, Empty, actions);
  }

  // ---- A schema rebuild under a full build ----

  /** A path's first chunk is missing once the rows of the first chunks are. */
  lemma LostRowsShow(staged: seq<Chunk>, lost: nat, model: string)
    requires 0 < lost <= |staged|
    ensures RowsAt(Embedded(staged[lost..], model), staged[0].path) != Embedded(At(staged, staged[0].path), model)
  {
    var path := staged[0].path;
    RowsAtEmbedded(staged[lost..], model, path);
    assert staged == staged[..lost] + staged[lost..];
    AtConcat(staged[..lost], staged[lost..], path);
    assert |At(staged[..lost], path)| > 0;
    EmbeddedLength(At(staged, path), model);
    EmbeddedLength(At(staged[lost..], path), model);
  }

  /**
    When a full build is made active, its generation is exact if and only if the table still holds as many rows
    of the run as were embedded; while the run still counts as running, it does.
   */
  lemma ActivationIsExactIff(w: World, s: Sys, run: nat)
    requires Inv(w, s) && run in s.jobs && Apply(w, s, Swap(run)).Some? && s.jobs[run].base.None?
    ensures
      var next := Apply(w, s, Swap(run)).value;
      && s.jobs[run].repo in next.db.active && next.db.active[s.jobs[run].repo] == run
      && (Exact(w, next.db, run) <==> |Rows(s.db, run)| == |s.jobs[run].staged|)
      && (s.db.runs[run].status == Running ==> |Rows(s.db, run)| == |s.jobs[run].staged|)
  {
    var job := s.jobs[run];
    var next := Apply(w, s, Swap(run)).value;
    assert GoodJob(w, s, run);
    ActivationState(w, s, run);
    EmbeddedLength(job.staged[job.lost..job.done], job.model);
    if job.lost == 0 {
      FullBuildIsExact(w, s, run);
      ExactFrame(w, s.db, next.db, run);
    } else {
      var path := job.staged[0].path;
      assert job.staged[job.lost..job.done] == job.staged[job.lost..];
      LostRowsShow(job.staged, job.lost, job.model);
      assert RowsAt(Rows(next.db, run), path) != Embedded(ChunksAt(w, job.commit, path), job.model);
    }
  }

  lemma {:induction false} EmbeddedOnce(a: seq<Chunk>, b: seq<Chunk>, model: string)
    requires Embedded(a, model) == Embedded(b, model)
    ensures a == b
    decreases |a|
  {
    EmbeddedLength(a, model);
    EmbeddedLength(b, model);
    if a != [] {
      assert Embedded(a, model)[0] == Embedded(b, model)[0];
      assert Embedded(a, model)[1..] == Embedded(b, model)[1..];
      EmbeddedOnce(a[1..], b[1..], model);
      assert a == [a[0]] + a[1..] && b == [b[0]] + b[1..];
    }
  }

  /** A build that lost rows. */
  lemma ShortBuildIsInexact(w: World, s: Sys, run: nat)
    requires Inv(w, s) && Apply(w, s, Swap(run)).Some? && Activates(s, Swap(run))
    requires |Rows(s.db, run)| != |s.jobs[run].staged|
    ensures !ActiveExact(w, Apply(w, s, Swap(run)).value.db)
  {
    hide *;
    ActivatesIs(s, run);
    ActivationIsExactIff(w, s, run);
    InexactActive(w, Apply(w, s, Swap(run)).value.db, s.jobs[run].repo);
  }

  lemma ActivatesIs(s: Sys, run: nat)
    ensures Activates(s, Swap(run)) <==> run in s.jobs && s.jobs[run].base.None?
  {
  }

  /** The rows of a path that a step leaves alone. */
  lemma UntouchedRows(w: World, s: Sys, run: nat, path: string)
    requires Inv(w, s) && Moves(s, Swap(run)) && path !in s.jobs[run].changed
    requires s.jobs[run].done == |s.jobs[run].staged|
    ensures
      var job := s.jobs[run];
      var g := job.active.value;
      && g in s.db.runs
      && RowsAt(Rows(AdvanceGeneration(s.db, g, run, job.commit, job.changed), g), path) ==
         Embedded(Unstepped(w, job, path), job.model)
  {
    var job := s.jobs[run];
    var g := job.active.value;
    assert GoodJob(w, s, run);
    assert Exact(w, s.db, g);
    assert job.staged[0..|job.staged|] == job.staged;
    hide GoodJob, GoodActive, ActiveExact, Exclusive, RowsAt, Without, Embedded, At, Unstepped, ChunksAt;
    StepRowsAt(Rows(s.db, g), job.changed, job.staged, job.model, path);
    NoneEmbedded(job.model);
  }

  lemma NoneEmbedded(model: string)
    ensures Embedded([], model) == []
  {
  }

  lemma RowsDiffer(w: World, db: Db, g: nat, job: Job, path: string)
    requires g in db.runs && db.runs[g].commit == job.commit && db.runs[g].model == job.model && job.base.Some?
    requires RowsAt(Rows(db, g), path) == Embedded(Unstepped(w, job, path), job.model) && !CutsAlike(w, job, path)
    ensures !Exact(w, db, g)
  {
    hide RowsAt, Rows, Embedded, Unstepped, ChunksAt;
    if Embedded(Unstepped(w, job, path), job.model) == Embedded(ChunksAt(w, job.commit, path), job.model) {
      EmbeddedOnce(Unstepped(w, job, path), ChunksAt(w, job.commit, path), job.model);
    }
  }

  /** A step that moves the active generation is of that generation's embedder, and its swap is enabled at its end. */
  lemma MovingJob(w: World, s: Sys, run: nat)
    requires Inv(w, s) && Apply(w, s, Swap(run)).Some? && Moves(s, Swap(run))
    ensures
      var job := s.jobs[run];
      && job.done == |job.staged| && job.active.value in s.db.runs
      && s.db.runs[job.active.value].model == job.model
      && Apply(w, s, Swap(run)).value.db.active == s.db.active
      && var next := Apply(w, s, Swap(run)).value.db;
         && job.active.value in next.runs
         && next.runs[job.active.value].commit == job.commit && next.runs[job.active.value].model == job.model
         && Rows(next, job.active.value) ==
            Rows(AdvanceGeneration(s.db, job.active.value, run, job.commit, job.changed), job.active.value)
  {
    var job := s.jobs[run];
    assert GoodJob(w, s, run);
    AdvanceState(w, s, run, job.active.value);
    Swapped(w, s, run);
    hide SwapIn, GoodWalk, ActiveExact, AdvanceGeneration, Rows, Embedded;
  }

  lemma InexactActive(w: World, db: Db, repo: nat)
    requires repo in db.active && !Exact(w, db, db.active[repo])
    ensures !ActiveExact(w, db)
  {
    hide Exact;
  }

  /** A step over a change of the configuration that it does not see. */
  lemma ReconfiguredStepIsInexact(w: World, s: Sys, run: nat, path: string)
    requires Inv(w, s) && Apply(w, s, Swap(run)).Some? && Moves(s, Swap(run))
    requires path !in s.jobs[run].changed && !CutsAlike(w, s.jobs[run], path)
    ensures !ActiveExact(w, Apply(w, s, Swap(run)).value.db)
  {
    MovingJob(w, s, run);
    UntouchedRows(w, s, run, path);
    hide Inv, Apply, CutsAlike, AdvanceGeneration, RowsAt, Rows, Embedded, Unstepped, Exact, ActiveExact;
    var job := s.jobs[run];
    var next := Apply(w, s, Swap(run)).value.db;
    RowsDiffer(w, next, job.active.value, job, path);
    InexactActive(w, next, job.repo);
  }

  lemma UnwholeSwapIsInexact(w: World, s: Sys, a: Action)
    requires Inv(w, s) && Apply(w, s, a).Some? && !Whole(w, s, a)
    ensures !ActiveExact(w, Apply(w, s, a).value.db)
  {
    hide Inv, Apply, ActiveExact, CutsAlike, Rows;
    assert a == Swap(a.run);
    if Activates(s, a) && |Rows(s.db, a.run)| != |s.jobs[a.run].staged| {
      ShortBuildIsInexact(w, s, a.run);
    } else {
      var path :| path !in s.jobs[a.run].changed && !CutsAlike(w, s.jobs[a.run], path);
      ReconfiguredStepIsInexact(w, s, a.run, path);
    }
  }

  lemma {:induction false} AlwaysExactIff(w: World, s: Sys, actions: seq<Action>)
    requires AllName(w) && Inv(w, s) && Run(w, s, actions).Some?
    ensures AlwaysExact(w, s, actions) <==> AllWhole(w, s, actions)
    decreases |actions|
  {
    InvIsExact(w, s);
    if actions != [] {
      hide Apply, Inv, Whole, ActiveExact;
      var next := Apply(w, s, actions[0]).value;
      if Whole(w, s, actions[0]) {
        StepKeepsInv(w, s, actions[0]);
        AlwaysExactIff(w, next, actions[1..]);
      } else {
        UnwholeSwapIsInexact(w, s, actions[0]);
      }
    }
  }

  lemma InvIsExact(w: World, s: Sys)
    requires Inv(w, s)
    ensures ActiveExact(w, s.db)
  {
  }

  /**
    Over any run at all, the active generations are exact in every state of it if and only if every full build
    that was made active had all its rows, a count its swap could have taken.
   */
  lemma ActiveGenerationsAreRebuildsIff(w: World, actions: seq<Action>)
    requires AllName(w) && Run(w, Empty, actions).Some?
    ensures AlwaysExact(w, Empty, actions) <==> AllWhole(w, Empty, actions)
  {
    assert Inv(w, Empty);
    AlwaysExactIff(w, Empty, actions);
  }

  // ---- The embedder of what is active ----

  /** Every active generation is of the embedder that the schema records. */
  ghost predicate ActiveRecorded(db: Db) {
    forall repo :: repo in db.active ==> db.active[repo] in db.runs && db.runs[db.active[repo]].model == db.schema
  }

  /** A full build is made active under the embedder it was built with. */
  ghost predicate OfRecorded(s: Sys, a: Action) {
    Activates(s, a) ==> s.jobs[a.run].model == s.db.schema
  }

  ghost predicate AllOfRecorded(w: World, s: Sys, actions: seq<Action>)
    decreases |actions|
  {
    actions == [] ||
    (OfRecorded(s, actions[0]) &&
     (Apply(w, s, actions[0]).Some? ==> AllOfRecorded(w, Apply(w, s, actions[0]).value, actions[1..])))
  }

  ghost predicate AlwaysRecorded(w: World, s: Sys, actions: seq<Action>)
    decreases |actions|
  {
    && ActiveRecorded(s.db)
    && (actions != [] && Apply(w, s, actions[0]).Some? ==> AlwaysRecorded(w, Apply(w, s, actions[0]).value, actions[1..]))
  }

  /** Each job's run is of the job's embedder. */
  ghost predicate Linked(s: Sys) {
    forall run :: run in s.jobs ==> run in s.db.runs && s.db.runs[run].model == s.jobs[run].model
  }

  /** The runs as they were, but for what a swap says of their status and commit. */
  predicate SameModels(db: Db, next: Db) {
    next.runs.Keys == db.runs.Keys && forall r :: r in db.runs ==> next.runs[r].model == db.runs[r].model
  }

  lemma SettledModels(db: Db, run: nat)
    ensures
      var next := SetStatus(ClearIndexStaging(db, run), run, Completed);
      SameModels(db, next) && next.active == db.active && next.schema == db.schema
  {
  }

  lemma ActivatedModels(db: Db, repo: nat, run: nat, previous: Option<nat>)
    ensures
      var next := ActivateGeneration(db, repo, run, previous);
      SameModels(db, next) && next.active == db.active[repo := run] && next.schema == db.schema
  {
  }

  lemma AdvancedModels(db: Db, g: nat, step: nat, commit: nat, changed: seq<string>)
    requires g in db.runs
    ensures
      var next := AdvanceGeneration(db, g, step, commit, changed);
      SameModels(db, next) && next.active == db.active && next.schema == db.schema
  {
    hide Without, Rows;
  }

  /** What a swap does to the runs and to what is active. */
  lemma SwapModels(w: World, s: Sys, run: nat)
    requires Linked(s) && Apply(w, s, Swap(run)).Some?
    ensures
      var job, next := s.jobs[run], Apply(w, s, Swap(run)).value;
      && next.jobs == s.jobs - {run} && next.db.schema == s.db.schema
      && next.db.runs.Keys == s.db.runs.Keys
      && (forall r :: r in s.db.runs ==> next.db.runs[r].model == s.db.runs[r].model)
      && next.db.active == if job.base.Some? && job.active.Some? then s.db.active else s.db.active[job.repo := run]
  {
    hide AdvanceGeneration, ActivateGeneration, SetStatus, ClearIndexStaging;
    var job := s.jobs[run];
    if job.base.Some? && job.active.Some? {
      AdvancedModels(s.db, job.active.value, run, job.commit, job.changed);
      SettledModels(AdvanceGeneration(s.db, job.active.value, run, job.commit, job.changed), run);
    } else {
      ActivatedModels(s.db, job.repo, run, job.active);
      SettledModels(ActivateGeneration(s.db, job.repo, run, job.active), run);
    }
  }

  /** What any other action does to them. */
  lemma OtherModels(w: World, s: Sys, a: Action)
    requires Linked(s) && Apply(w, s, a).Some? && !a.Swap?
    ensures
      var next := Apply(w, s, a).value;
      && (forall r :: r in s.db.runs ==> r in next.db.runs && next.db.runs[r].model == s.db.runs[r].model)
      && (next.db.schema == s.db.schema || next.db.active == map[])
      && (forall repo :: repo in next.db.active ==> repo in s.db.active && next.db.active[repo] == s.db.active[repo])
  {
    hide NewJob, BaseOf, InFlight, Embedded, Stray;
  }

  lemma StepLinks(w: World, s: Sys, a: Action)
    requires Linked(s) && Apply(w, s, a).Some?
    ensures Linked(Apply(w, s, a).value)
  {
    hide BaseOf, InFlight, Embedded, Stray, CutAll, Lists, Diffs, SwapIn;
    if a.Swap? {
      SwapModels(w, s, a.run);
    }
  }

  ghost predicate StepsWithAGeneration(s: Sys) {
    forall run :: run in s.jobs && s.jobs[run].base.Some? ==> s.jobs[run].active.Some?
  }

  lemma StepsStart(w: World, s: Sys, a: Action)
    requires StepsWithAGeneration(s) && Apply(w, s, a).Some?
    ensures StepsWithAGeneration(Apply(w, s, a).value)
  {
    hide InFlight, Embedded, Stray, CutAll, Lists, Diffs, SwapIn;
  }

  /** One action keeps what is active of the recorded embedder exactly when it makes no other build active. */
  lemma StepRecordedIff(w: World, s: Sys, a: Action)
    requires Linked(s) && StepsWithAGeneration(s) && ActiveRecorded(s.db) && Apply(w, s, a).Some?
    ensures ActiveRecorded(Apply(w, s, a).value.db) <==> OfRecorded(s, a)
  {
    if a.Swap? {
      SwapModels(w, s, a.run);
    } else {
      OtherModels(w, s, a);
    }
    hide Apply;
    var next := Apply(w, s, a).value;
    if Activates(s, a) {
      assert next.db.active[s.jobs[a.run].repo] == a.run;
    }
  }

  lemma {:induction false} AlwaysRecordedIff(w: World, s: Sys, actions: seq<Action>)
    requires Linked(s) && StepsWithAGeneration(s) && ActiveRecorded(s.db) && Run(w, s, actions).Some?
    ensures AlwaysRecorded(w, s, actions) <==> AllOfRecorded(w, s, actions)
    decreases |actions|
  {
    hide Apply, Linked, StepsWithAGeneration, ActiveRecorded, OfRecorded;
    if actions != [] {
      var next := Apply(w, s, actions[0]).value;
      StepRecordedIff(w, s, actions[0]);
      StepLinks(w, s, actions[0]);
      StepsStart(w, s, actions[0]);
      if OfRecorded(s, actions[0]) {
        AlwaysRecordedIff(w, next, actions[1..]);
      } else {
        NotRecordedNow(w, next, actions[1..]);
      }
    }
  }

  lemma NotRecordedNow(w: World, s: Sys, actions: seq<Action>)
    requires !ActiveRecorded(s.db)
    ensures !AlwaysRecorded(w, s, actions)
  {
    hide ActiveRecorded;
  }

  /**
    Over any run at all, what is active is of the recorded embedder in every state of it if and only if every full
    build was made active under the embedder it was built with; a schema rebuild meanwhile is what breaks that.
   */
  lemma ActiveGenerationsAreRecordedIff(w: World, actions: seq<Action>)
    requires Run(w, Empty, actions).Some?
    ensures AlwaysRecorded(w, Empty, actions) <==> AllOfRecorded(w, Empty, actions)
  {
    AlwaysRecordedIff(w, Empty, actions);
  }

  /** A world whose every commit is one file of one chunk. */
  ghost function OneFile(file: SourceFile, chunk: Chunk): World {
    World(commit => map[file.path := File(file.content)], _ => f => if f == file then Pieces([chunk]) else Skipped)
  }

  lemma OneFileIsCut(file: SourceFile, chunk: Chunk)
    requires chunk.path == file.path
    ensures
      var w := OneFile(file, chunk);
      && AllName(w) && CutAll(w.cut(0), [file]) == [chunk]
      && Lists([file], w.tree(0)) && ChunksAt(w, 0, file.path) == [chunk]
  {
    var w := OneFile(file, chunk);
    assert [file][..0] == [];
    assert CutAll(w.cut(0), []) == [];
  }

  lemma FourSteps(w: World, s0: Sys, a: Action, s1: Sys, b: Action, s2: Sys, c: Action, s3: Sys, d: Action, t: Sys)
    requires Apply(w, s0, a) == Some(s1) && Apply(w, s1, b) == Some(s2) && Apply(w, s2, c) == Some(s3)
    requires Apply(w, s3, d) == Some(t)
    ensures Run(w, s0, [a, b, c, d]) == Some(t)
  {
    hide Apply;
    assert [a, b, c, d][1..] == [b, c, d] && [b, c, d][1..] == [c, d] && [c, d][1..] == [d] && [d][1..] == [];
    assert Run(w, t, []) == Some(t);
    assert Run(w, s3, [d]) == Some(t);
    assert Run(w, s2, [c, d]) == Some(t);
    assert Run(w, s1, [b, c, d]) == Some(t);
  }

  lemma NoRowsAreInexact(w: World, db: Db, run: nat, path: string)
    requires run in db.runs && Rows(db, run) == [] && ChunksAt(w, db.runs[run].commit, path) != []
    ensures !Exact(w, db, run)
  {
    EmbeddedLength(ChunksAt(w, db.runs[run].commit, path), db.runs[run].model);
    assert RowsAt([], path) == [];
  }

  lemma BuildBegins(w: World, file: SourceFile, chunk: Chunk, model: string)
    requires w == OneFile(file, chunk) && chunk.path == file.path
    ensures
      var job := Job(0, 0, model, false, None, None, [], [chunk], 0, 0);
      Apply(w, Empty, Begin(0, 0, 0, model, false, FullWalk([file]))) ==
      Some(Sys(Db(0, map[], map[0 := IndexRun(0, 0, model, Running, 0)], map[], ""), map[0 := job]))
  {
    hide CutAll, Lists, OneFile;
    OneFileIsCut(file, chunk);
  }

  /** A job of one chunk embeds it, loses it to a schema rebuild, and swaps nothing in. */
  lemma BuildLosesItsRow(w: World, chunk: Chunk, model: string, other: string) returns (s2: Sys, s3: Sys, t: Sys)
    requires other != ""
    ensures
      var job := Job(0, 0, model, false, None, None, [], [chunk], 0, 0);
      var s1 := Sys(Db(0, map[], map[0 := IndexRun(0, 0, model, Running, 0)], map[], ""), map[0 := job]);
      && Apply(w, s1, Embed(0, 1)) == Some(s2) && Apply(w, s2, EnsureSchema(other)) == Some(s3) && Apply(w, s3, Swap(0)) == Some(t)
    ensures 0 in t.db.active && t.db.active[0] == 0 && 0 in t.db.runs && t.db.runs[0].commit == 0 && Rows(t.db, 0) == []
  {
    var job := Job(0, 0, model, false, None, None, [], [chunk], 0, 0);
    var s1 := Sys(Db(0, map[], map[0 := IndexRun(0, 0, model, Running, 0)], map[], ""), map[0 := job]);
    s2 := Apply(w, s1, Embed(0, 1)).value;
    s3 := Apply(w, s2, EnsureSchema(other)).value;
    t := Apply(w, s3, Swap(0)).value;
  }

  /**
    Such a rebuild does leave a wrong generation active: a build of one file, whose one chunk was embedded
    before the rebuild, becomes an active generation with no rows.
   */
  lemma RebuildUnderABuild(file: SourceFile, chunk: Chunk, model: string, other: string) returns (w: World, t: Sys)
    requires chunk.path == file.path && other != ""
    ensures AllName(w)
    ensures
      Run(w, Empty, [Begin(0, 0, 0, model, false, FullWalk([file])), Embed(0, 1), EnsureSchema(other), Swap(0)]) == Some(t)
    ensures 0 in t.db.active && !ActiveExact(w, t.db)
  {
    hide Apply, Exact, OneFile, CutAll, FileChunks, Rows;
    w := OneFile(file, chunk);
    OneFileIsCut(file, chunk);
    BuildBegins(w, file, chunk, model);
    var s2, s3;
    s2, s3, t := BuildLosesItsRow(w, chunk, model, other);
    var begin := Begin(0, 0, 0, model, false, FullWalk([file]));
    FourSteps(w, Empty, begin, Apply(w, Empty, begin).value, Embed(0, 1), s2, EnsureSchema(other), s3, Swap(0), t);
    NoRowsAreInexact(w, t.db, 0, file.path);
  }

  /** A job of one chunk whose schema is rebuilt before it has embedded it, and that then does, and swaps it in. */
  lemma BuildUnderANewSchema(w: World, chunk: Chunk, model: string, other: string) returns (s2: Sys, s3: Sys, t: Sys)
    requires other != ""
    ensures
      var job := Job(0, 0, model, false, None, None, [], [chunk], 0, 0);
      var s1 := Sys(Db(0, map[], map[0 := IndexRun(0, 0, model, Running, 0)], map[], ""), map[0 := job]);
      && Apply(w, s1, EnsureSchema(other)) == Some(s2) && Apply(w, s2, Embed(0, 1)) == Some(s3) && Apply(w, s3, Swap(0)) == Some(t)
    ensures 0 in t.db.active && t.db.active[0] == 0 && 0 in t.db.runs && t.db.runs[0].model == model && t.db.schema == other
  {
    var job := Job(0, 0, model, false, None, None, [], [chunk], 0, 0);
    var s1 := Sys(Db(0, map[], map[0 := IndexRun(0, 0, model, Running, 0)], map[], ""), map[0 := job]);
    s2 := Apply(w, s1, EnsureSchema(other)).value;
    s3 := Apply(w, s2, Embed(0, 1)).value;
    t := Apply(w, s3, Swap(0)).value;
  }

  /** So a build begun before a schema rebuild that has embedded nothing by then becomes active under the new schema. */
  lemma OldEmbedderBecomesActive(file: SourceFile, chunk: Chunk, model: string, other: string) returns (w: World, t: Sys)
    requires chunk.path == file.path && other != "" && other != model
    ensures AllName(w)
    ensures
      Run(w, Empty, [Begin(0, 0, 0, model, false, FullWalk([file])), EnsureSchema(other), Embed(0, 1), Swap(0)]) == Some(t)
    ensures !ActiveRecorded(t.db)
  {
    hide Apply, OneFile, CutAll, FileChunks, Rows;
    w := OneFile(file, chunk);
    OneFileIsCut(file, chunk);
    BuildBegins(w, file, chunk, model);
    var s2, s3;
    s2, s3, t := BuildUnderANewSchema(w, chunk, model, other);
    var begin := Begin(0, 0, 0, model, false, FullWalk([file]));
    FourSteps(w, Empty, begin, Apply(w, Empty, begin).value, EnsureSchema(other), s2, Embed(0, 1), s3, Swap(0), t);
  }

  // ---- A step over a change of the configuration ----

  /** A world whose first commit is one file of one chunk, and whose second adds a file of rules that skip it. */
  ghost function Reconfigured(file: SourceFile, chunk: Chunk, rules: SourceFile): World {
    World(
      commit => if commit == 0 then map[file.path := File(file.content)]
                else map[file.path := File(file.content), rules.path := File(rules.content)],
      commit => f => if commit == 0 && f == file then Pieces([chunk]) else Skipped)
  }

  lemma ReconfiguredNames(file: SourceFile, chunk: Chunk, rules: SourceFile)
    requires chunk.path == file.path
    ensures AllName(Reconfigured(file, chunk, rules))
  {
  }

  lemma ReconfiguredBuild(file: SourceFile, chunk: Chunk, rules: SourceFile)
    ensures
      var w := Reconfigured(file, chunk, rules);
      Lists([file], w.tree(0)) && CutAll(w.cut(0), [file]) == [chunk]
  {
    var w := Reconfigured(file, chunk, rules);
    CutOne(w.cut(0), file);
  }

  lemma CutOne(cut: Cutter, file: SourceFile)
    ensures CutAll(cut, [file]) == ChunksOf(cut(file))
  {
    assert [file][..0] == [];
    assert CutAll(cut, []) == [];
  }

  lemma ReconfiguredDiffs(file: SourceFile, chunk: Chunk, rules: SourceFile)
    requires file.path != "" && rules.path != "" && rules.path != file.path
    ensures
      var w := Reconfigured(file, chunk, rules);
      Diffs([Change("", rules.path)], w.tree(0), w.tree(1))
  {
    var changes := [Change("", rules.path)];
    assert changes[0].to == rules.path;
    assert Touched(changes, rules.path);
  }

  lemma ReconfiguredStep(file: SourceFile, chunk: Chunk, rules: SourceFile)
    requires rules.path != "" && rules.path != file.path
    ensures
      var w := Reconfigured(file, chunk, rules);
      var changes := [Change("", rules.path)];
      && Noted(changes) == [rules.path] && CutAll(w.cut(1), NewSides(changes, w.tree(1))) == []
      && ChunksAt(w, 1, file.path) == []
  {
    var w := Reconfigured(file, chunk, rules);
    var changes := [Change("", rules.path)];
    assert changes[..0] == [];
    assert NewSides([], w.tree(1)) == [] && Noted([]) == [];
    assert NewSides(changes, w.tree(1)) == [rules];
    CutOne(w.cut(1), rules);
  }

  /** The state after a build of one chunk, embedded and swapped in. */
  ghost function Built(chunk: Chunk, model: string): Sys {
    Sys(Db(0, map[0 := 0], map[0 := IndexRun(0, 0, model, Completed, 0)], map[0 := [Vec(chunk, model)]], ""), map[])
  }

  lemma BuildCompletes(w: World, file: SourceFile, chunk: Chunk, model: string) returns (s1: Sys, s2: Sys)
    requires Lists([file], w.tree(0)) && CutAll(w.cut(0), [file]) == [chunk]
    ensures Apply(w, Empty, Begin(0, 0, 0, model, false, FullWalk([file]))) == Some(s1)
    ensures Apply(w, s1, Embed(0, 1)) == Some(s2) && Apply(w, s2, Swap(0)) == Some(Built(chunk, model))
  {
    hide CutAll, Lists;
    s1 := Apply(w, Empty, Begin(0, 0, 0, model, false, FullWalk([file]))).value;
    assert s1 == Sys(Db(0, map[], map[0 := IndexRun(0, 0, model, Running, 0)], map[], ""),
                     map[0 := Job(0, 0, model, false, None, None, [], [chunk], 0, 0)]);
    s2 := Apply(w, s1, Embed(0, 1)).value;
    OneEmbedded(chunk, model);
    assert [chunk][0..1] == [chunk];
    assert [] + [Vec(chunk, model)] == [Vec(chunk, model)];
    assert s2.db.rows == map[0 := [Vec(chunk, model)]];
    BuildSwapsIn(w, chunk, model, s2);
  }

  lemma BuildSwapsIn(w: World, chunk: Chunk, model: string, s: Sys)
    requires s.db == Db(0, map[], map[0 := IndexRun(0, 0, model, Running, 0)], map[0 := [Vec(chunk, model)]], "")
    requires s.jobs == map[0 := Job(0, 0, model, false, None, None, [], [chunk], 1, 0)]
    ensures Apply(w, s, Swap(0)) == Some(Built(chunk, model))
  {
    var next := SwapIn(s.db, 0, s.jobs[0]);
    var active: map<nat, nat> := map[0 := 0];
    assert s.db.active[0 := 0] == active && 0 in active.Values by {
      assert active[0] == 0;
    }
    assert next.runs == map[0 := IndexRun(0, 0, model, Completed, 0)];
    assert s.jobs - {0} == map[];
  }

  lemma OneEmbedded(chunk: Chunk, model: string)
    ensures Embedded([chunk], model) == [Vec(chunk, model)]
  {
    assert [chunk][1..] == [];
  }

  /** The step that then leaves the file alone moves the generation to the second commit with its chunk in it. */
  lemma StepMissesTheChange(w: World, chunk: Chunk, model: string, changes: seq<Change>, path: string) returns (s4: Sys, t: Sys)
    requires Diffs(changes, w.tree(0), w.tree(1)) && Noted(changes) == [path] && chunk.path != path
    requires CutAll(w.cut(1), NewSides(changes, w.tree(1))) == []
    ensures Apply(w, Built(chunk, model), Begin(1, 0, 1, model, false, StepWalk(changes))) == Some(s4)
    ensures Apply(w, s4, Swap(1)) == Some(t)
    ensures 0 in t.db.active && t.db.active[0] == 0 && 0 in t.db.runs && t.db.runs[0].commit == 1 && Rows(t.db, 0) != []
    ensures RowsAt(Rows(t.db, 0), chunk.path) == [Vec(chunk, model)]
  {
    hide CutAll, Diffs, NewSides, Noted;
    var s := Built(chunk, model);
    assert BaseOf(s.db, 0, model, false) == Some(0);
    s4 := Apply(w, s, Begin(1, 0, 1, model, false, StepWalk(changes))).value;
    var job := Job(0, 1, model, false, Some(0), Some(0), [path], [], 0, 0);
    assert !Stray(s.db, 0, 0);
    assert s4.jobs == map[1 := job];
    assert Rows(s4.db, 0) == [Vec(chunk, model)] && Rows(s4.db, 1) == [];
    t := Apply(w, s4, Swap(1)).value;
    KeptAlone(Vec(chunk, model), path);
    assert [Vec(chunk, model)] + [] == [Vec(chunk, model)];
  }

  lemma KeptAlone(row: Vec, path: string)
    requires row.chunk.path != path
    ensures Without([row], [path]) == [row] && RowsAt([row], row.chunk.path) == [row]
  {
    assert [row][1..] == [];
  }

  /**
    A change of the repository's own rules is seen only by a full build: a step over it, from a generation that was
    exact, leaves the chunks of a file that the rules now skip.
   */
  lemma StepOverAReconfiguration(file: SourceFile, chunk: Chunk, rules: SourceFile, model: string) returns (w: World, t: Sys)
    requires chunk.path == file.path && file.path != "" && rules.path != "" && rules.path != file.path
    ensures AllName(w)
    ensures
      Run(w, Empty, [Begin(0, 0, 0, model, false, FullWalk([file])), Embed(0, 1), Swap(0)] +
                    [Begin(1, 0, 1, model, false, StepWalk([Change("", rules.path)])), Swap(1)]) == Some(t)
    ensures 0 in t.db.active && !ActiveExact(w, t.db)
  {
    hide Apply, Exact, Reconfigured, CutAll, Diffs, Lists, Noted, NewSides, Built, Rows, RowsAt;
    w := Reconfigured(file, chunk, rules);
    var changes := [Change("", rules.path)];
    ReconfiguredNames(file, chunk, rules);
    ReconfiguredBuild(file, chunk, rules);
    ReconfiguredDiffs(file, chunk, rules);
    ReconfiguredStep(file, chunk, rules);
    var s1, s2 := BuildCompletes(w, file, chunk, model);
    var s4;
    s4, t := StepMissesTheChange(w, chunk, model, changes, rules.path);
    var a, b := Begin(0, 0, 0, model, false, FullWalk([file])), Begin(1, 0, 1, model, false, StepWalk(changes));
    ThreeSteps(w, Empty, a, s1, Embed(0, 1), s2, Swap(0), Built(chunk, model));
    TwoSteps(w, Built(chunk, model), b, s4, Swap(1), t);
    RunOn(w, Empty, [a, Embed(0, 1), Swap(0)], [b, Swap(1)]);
    RowsLeft(w, t.db, file.path, chunk, model);
  }

  lemma ThreeSteps(w: World, s0: Sys, a: Action, s1: Sys, b: Action, s2: Sys, c: Action, t: Sys)
    requires Apply(w, s0, a) == Some(s1) && Apply(w, s1, b) == Some(s2) && Apply(w, s2, c) == Some(t)
    ensures Run(w, s0, [a, b, c]) == Some(t)
  {
    hide Apply;
    assert [a, b, c][1..] == [b, c] && [b, c][1..] == [c] && [c][1..] == [];
    assert Run(w, t, []) == Some(t);
    assert Run(w, s2, [c]) == Some(t);
    assert Run(w, s1, [b, c]) == Some(t);
  }

  lemma TwoSteps(w: World, s0: Sys, a: Action, s1: Sys, b: Action, t: Sys)
    requires Apply(w, s0, a) == Some(s1) && Apply(w, s1, b) == Some(t)
    ensures Run(w, s0, [a, b]) == Some(t)
  {
    hide Apply;
    assert [a, b][1..] == [b] && [b][1..] == [];
    assert Run(w, t, []) == Some(t);
    assert Run(w, s1, [b]) == Some(t);
  }

  lemma RowsLeft(w: World, db: Db, path: string, chunk: Chunk, model: string)
    requires 0 in db.active && db.active[0] == 0 && 0 in db.runs && db.runs[0].commit == 1
    requires RowsAt(Rows(db, 0), path) == [Vec(chunk, model)] && ChunksAt(w, 1, path) == []
    ensures !ActiveExact(w, db)
  {
    hide RowsAt, Rows, ChunksAt;
    assert Embedded([], db.runs[0].model) == [];
    assert !Exact(w, db, db.active[0]);
  }

  // ---- The statements, one by one ----

  /** The run of an action of one job. */
  predicate OfRun(a: Action, run: nat) {
    match a
    case Begin(r, _, _, _, _, _) => r == run
    case Embed(r, _) => r == run
    case Swap(r) => r == run
    case Abort(r) => r == run
    case Crash(r) => r == run
    case _ => false
  }

  /** By a run of the system whose full builds are whole. */
  ghost predicate Reaches(w: World, s: Sys, t: Sys) {
    exists actions :: Run(w, s, actions) == Some(t) && AllWhole(w, s, actions)
  }

  /** What everything but the job of `run` may have done. */
  ghost predicate Elsewhere(w: World, s: Sys, t: Sys, run: nat) {
    exists actions :: Run(w, s, actions) == Some(t) && AllWhole(w, s, actions) && NotOf(actions, run)
  }

  predicate NotOf(actions: seq<Action>, run: nat) {
    forall i :: 0 <= i < |actions| ==> !OfRun(actions[i], run)
  }

  lemma {:induction false} RunOn(w: World, s: Sys, a: seq<Action>, b: seq<Action>)
    requires Run(w, s, a).Some?
    ensures Run(w, s, a + b) == Run(w, Run(w, s, a).value, b)
    ensures AllWhole(w, s, a + b) <==> AllWhole(w, s, a) && AllWhole(w, Run(w, s, a).value, b)
    decreases |a|
  {
    hide Apply, Whole;
    if a == [] {
      assert a + b == b;
    } else {
      assert (a + b)[0] == a[0] && (a + b)[1..] == a[1..] + b;
      RunOn(w, Apply(w, s, a[0]).value, a[1..], b);
    }
  }

  lemma ReachesSelf(w: World, s: Sys)
    ensures Reaches(w, s, s)
  {
    assert Run(w, s, []) == Some(s) && AllWhole(w, s, []);
  }

  lemma ReachesOn(w: World, start: Sys, s: Sys, t: Sys)
    requires Reaches(w, start, s) && Reaches(w, s, t)
    ensures Reaches(w, start, t)
  {
    hide Run, AllWhole;
    var a :| Run(w, start, a) == Some(s) && AllWhole(w, start, a);
    var b :| Run(w, s, b) == Some(t) && AllWhole(w, s, b);
    RunOn(w, start, a, b);
    assert Run(w, start, a + b) == Some(t);
  }

  lemma ReachesNext(w: World, start: Sys, s: Sys, a: Action, t: Sys)
    requires Reaches(w, start, s) && Apply(w, s, a) == Some(t) && Whole(w, s, a)
    ensures Reaches(w, start, t)
  {
    hide Apply, Whole;
    assert [a][0] == a && [a][1..] == [];
    assert Run(w, t, []) == Some(t) && AllWhole(w, t, []);
    assert Run(w, s, [a]) == Some(t) && AllWhole(w, s, [a]);
    ReachesOn(w, start, s, t);
  }

  lemma OnlySwapsMayLack(w: World, s: Sys, a: Action)
    ensures !a.Swap? ==> Whole(w, s, a)
  {
  }

  lemma WholeIs(w: World, s: Sys, run: nat)
    requires run in s.jobs
    ensures s.jobs[run].base.None? ==> (Whole(w, s, Swap(run)) <==> |Rows(s.db, run)| == |s.jobs[run].staged|)
    ensures s.jobs[run].base.Some? && SameCuts(w, s.jobs[run]) ==> Whole(w, s, Swap(run))
  {
    hide SameCuts;
  }

  lemma SameCutsOf(w: World, job: Job, later: Job)
    requires later == job.(lost := later.lost, done := later.done)
    ensures SameCuts(w, job) <==> SameCuts(w, later)
  {
    assert job.base.Some? ==> forall path :: CutsAlike(w, job, path) <==> CutsAlike(w, later, path);
  }

  lemma SwapActivates(w: World, s: Sys, run: nat, t: Sys)
    requires Inv(w, s) && run in s.jobs && Apply(w, s, Swap(run)) == Some(t)
    ensures s.jobs[run].base.None? ==> s.jobs[run].repo in t.db.active && t.db.active[s.jobs[run].repo] == run
  {
    hide GoodActive, GoodWalk, ActiveExact, GoodJobs, Inv, SwapIn;
    if s.jobs[run].base.None? {
      ActivationState(w, s, run);
    }
  }

  lemma CrashIs(w: World, s: Sys, run: nat)
    requires run in s.jobs
    ensures Apply(w, s, Crash(run)) == Some(Sys(s.db, s.jobs - {run}))
  {
  }

  lemma EmbeddedState(w: World, s: Sys, run: nat, count: nat, t: Sys)
    requires run in s.jobs && Apply(w, s, Embed(run, count)) == Some(t)
    ensures run in t.jobs && t.jobs[run] == s.jobs[run].(done := s.jobs[run].done + count)
  {
  }

  lemma BegunState(w: World, s: Sys, a: Action, t: Sys)
    requires a.Begin? && Apply(w, s, a) == Some(t)
    ensures NewJob(w, s.db, a.repo, a.commit, a.model, a.forced, a.walk).Some? && a.run in t.jobs
    ensures t.jobs[a.run] == NewJob(w, s.db, a.repo, a.commit, a.model, a.forced, a.walk).value
    ensures t.jobs[a.run].repo == a.repo && t.jobs[a.run].done == 0
  {
    hide BaseOf, Lists, Diffs, CutAll;
  }

  lemma ReachedInv(w: World, s: Sys, t: Sys)
    requires AllName(w) && Inv(w, s) && Reaches(w, s, t)
    ensures Inv(w, t)
  {
    hide Inv, Run, AllWhole;
    var actions :| Run(w, s, actions) == Some(t) && AllWhole(w, s, actions);
    RunKeepsInv(w, s, actions);
  }

  lemma ElsewhereReaches(w: World, s: Sys, t: Sys, run: nat)
    requires Elsewhere(w, s, t, run)
    ensures Reaches(w, s, t)
  {
  }

  lemma OtherStepKeepsJob(w: World, s: Sys, a: Action, run: nat)
    requires Apply(w, s, a).Some? && !OfRun(a, run) && run in s.jobs
    ensures run in Apply(w, s, a).value.jobs
    ensures
      var next := Apply(w, s, a).value;
      next.jobs[run] == s.jobs[run].(lost := next.jobs[run].lost)
  {
    hide SwapIn, NewJob, BaseOf, StartIndexRun;
  }

  lemma {:induction false} OthersKeepJob(w: World, s: Sys, actions: seq<Action>, run: nat)
    requires Run(w, s, actions).Some? && NotOf(actions, run) && run in s.jobs
    ensures run in Run(w, s, actions).value.jobs
    ensures
      var t := Run(w, s, actions).value;
      t.jobs[run] == s.jobs[run].(lost := t.jobs[run].lost)
    decreases |actions|
  {
    if actions != [] {
      hide Apply, OfRun;
      OtherStepKeepsJob(w, s, actions[0], run);
      OthersKeepJob(w, Apply(w, s, actions[0]).value, actions[1..], run);
    }
  }

  lemma ElsewhereKeepsJob(w: World, s: Sys, t: Sys, run: nat)
    requires Elsewhere(w, s, t, run) && run in s.jobs
    ensures run in t.jobs && t.jobs[run] == s.jobs[run].(lost := t.jobs[run].lost)
  {
    hide Run, AllWhole, NotOf;
    var actions :| Run(w, s, actions) == Some(t) && AllWhole(w, s, actions) && NotOf(actions, run);
    OthersKeepJob(w, s, actions, run);
  }

  /** A job may always end: its generation's run is there, and is not its own. */
  lemma SwapIsEnabled(w: World, s: Sys, run: nat)
    requires Inv(w, s) && run in s.jobs
    ensures s.jobs[run].active.Some? ==> s.jobs[run].active.value in s.db.runs && s.jobs[run].active.value != run
    ensures run in s.db.runs
  {
    assert GoodJob(w, s, run);
  }

  /** What the runner hands over (store.IndexPack): whether it stepped, the changed paths, and the staged chunks. */
  datatype Pack = Pack(incremental: bool, changed: seq<string>, staged: seq<Chunk>)

  /** How a job ends: with the swap, with an error, or with its process. */
  datatype End = Swaps | Fails | Killed

  /** A failed run is recorded so and has no rows unless a repository is on it; no other run's change. */
  ghost predicate Cleared(db: Db, next: Db, run: nat) {
    && next.active == db.active && next.schema == db.schema && next.now == db.now
    && (run in db.runs ==> next.runs == db.runs[run := db.runs[run].(status := Failed)])
    && (run !in db.active.Values ==> Rows(next, run) == [])
    && forall r: nat :: r != run ==> Rows(next, r) == Rows(db, r)
  }

  lemma NoJobWithoutARun(w: World, s: Sys, run: nat)
    requires Inv(w, s) && run !in s.db.runs
    ensures run !in s.jobs
  {
    hide GoodActive, ActiveExact;
    JobsHaveRuns(w, s);
  }

  lemma FailedIs(db: Db, next: Db, run: nat)
    requires Cleared(db, next, run) && run in db.runs
    ensures run in next.runs && next.runs[run].status == Failed
  {
  }

  /** The tables, updated in place as each function's SQL does, and the index job that does so. */
  class Tables {
    var now: nat
    var active: map<nat, nat>
    var runs: map<nat, IndexRun>
    var rows: map<nat, seq<Vec>>
    var schema: string

    /** The jobs in flight, as their workers know them; how many rows each has lost no worker reads. */
    var jobs: map<nat, Job>

    function AsDb(): Db
      reads this
    {
      Db(now, active, runs, rows, schema)
    }

    ghost function Abs(): Sys
      reads this
    {
      Sys(AsDb(), jobs)
    }

    constructor ()
      ensures Abs() == Empty
    {
      now, active, runs, rows, schema, jobs := 0, map[], map[], map[], "", map[];
    }

    method SetRunStatus(run: nat, status: Status)
      modifies `runs
      ensures AsDb() == SetStatus(old(AsDb()), run, status)
    {
      if run in runs {
        runs := runs[run := runs[run].(status := status)];
      }
    }

    /** Drops the rows strays left, then inserts the run. */
    method Start(run: nat, repo: nat, commit: nat, model: string)
      requires run !in runs
      modifies `rows, `runs
      ensures AsDb() == StartIndexRun(old(AsDb()), run, repo, commit, model)
    {
      var kept: map<nat, seq<Vec>> := map[];
      var left := rows.Keys;
      while left != {}
        invariant left <= rows.Keys && rows == old(rows) && runs == old(runs)
        invariant kept.Keys == set r | r in rows.Keys - left && !Stray(AsDb(), repo, r)
        invariant forall r :: r in kept ==> kept[r] == rows[r]
        decreases left
      {
        var r :| r in left;
        left := left - {r};
        var stray := r in runs && runs[r].repo == repo && !(repo in active && active[repo] == r)
          && runs[r].created + STRAY_AFTER < now;
        if !stray {
          kept := kept[r := rows[r]];
        }
      }
      rows := kept;
      runs := runs[run := IndexRun(repo, commit, model, Running, now)];
    }

    /** Points the repository at the run, then supersedes the previous generation and drops its rows. */
    method Activate(repo: nat, run: nat, previous: Option<nat>)
      modifies `active, `runs, `rows
      ensures AsDb() == ActivateGeneration(old(AsDb()), repo, run, previous)
    {
      active := active[repo := run];
      if previous.None? {
        return;
      }
      SetRunStatus(previous.value, Superseded);
      rows := rows - {previous.value};
    }

    /** The rows at other paths. */
    static method Keep(all: seq<Vec>, changed: seq<string>) returns (kept: seq<Vec>)
      ensures kept == Without(all, changed)
    {
      kept := [];
      for i := 0 to |all|
        invariant kept == Without(all[..i], changed)
      {
        hide Without;
        assert all[..i + 1] == all[..i] + [all[i]];
        WithoutAppend(all[..i], all[i], changed);
        if all[i].chunk.path !in changed {
          kept := kept + [all[i]];
        }
      }
      assert all[..|all|] == all;
    }

    /** Drops the changed paths' rows, moves the step's rows into the generation, then moves it to the commit. */
    method Advance(generation: nat, step: nat, commit: nat, changed: seq<string>)
      requires generation in runs && generation != step
      modifies `rows, `runs
      ensures AsDb() == AdvanceGeneration(old(AsDb()), generation, step, commit, changed)
    {
      hide Without;
      ghost var was := rows;
      var kept := Keep(if generation in rows then rows[generation] else [], changed);
      rows := rows[generation := kept];
      var moved := if step in rows then rows[step] else [];
      rows := (rows - {step})[generation := kept + moved];
      assert rows == (was - {step})[generation := kept + moved];
      runs := runs[generation := runs[generation].(commit := commit)];
    }

    /** Drops the run's rows unless a repository is on it. */
    method Clear(run: nat)
      modifies `rows
      ensures AsDb() == ClearIndexStaging(old(AsDb()), run)
    {
      if run !in active.Values {
        rows := rows - {run};
      }
    }

    /** Begin's transaction, with the generation the job found and what its runner staged. */
    method BeginRun(ghost w: World, run: nat, repo: nat, commit: nat, model: string, forced: bool, ghost walk: Walk,
                    pack: Pack) returns (begun: bool)
      requires run !in runs && !InFlight(jobs, repo, forced)
      requires
        var job := NewJob(w, AsDb(), repo, commit, model, forced, walk);
        && job.Some? && job.value.changed == pack.changed && job.value.staged == pack.staged
        && (job.value.base.Some? <==> pack.incremental)
      modifies this
      ensures begun <==> BaseOf(old(AsDb()), repo, model, forced) != Some(commit)
      ensures if begun then Apply(w, old(Abs()), Begin(run, repo, commit, model, forced, walk)) == Some(Abs())
              else Abs() == old(Abs())
    {
      var found := None;
      if repo in active && active[repo] in runs && runs[active[repo]].status == Completed {
        found := Some(active[repo]);
      }
      var base := None;
      if !forced && found.Some? && runs[found.value].model == model {
        if runs[found.value].commit == commit {
          return false;
        }
        base := Some(runs[found.value].commit);
      }
      Start(run, repo, commit, model);
      jobs := jobs[run := Job(repo, commit, model, forced, found, if pack.incremental then base else None,
                              pack.changed, pack.staged, 0, 0)];
      return true;
    }

    /** One batch of embed: its rows go in under the run. */
    method EmbedBatch(ghost w: World, run: nat, count: nat)
      requires run in jobs && jobs[run].done + count <= |jobs[run].staged|
      modifies this
      ensures Apply(w, old(Abs()), Embed(run, count)) == Some(Abs())
    {
      var job := jobs[run];
      var batch := Embedded(job.staged[job.done..job.done + count], job.model);
      rows := rows[run := (if run in rows then rows[run] else []) + batch];
      jobs := jobs[run := job.(done := job.done + count)];
    }

    /** embed's last transaction. */
    method SwapRun(ghost w: World, run: nat)
      requires run in jobs && jobs[run].done == |jobs[run].staged|
      requires jobs[run].active.Some? ==> jobs[run].active.value in runs && jobs[run].active.value != run
      modifies this
      ensures Apply(w, old(Abs()), Swap(run)) == Some(Abs())
      ensures run !in jobs
    {
      hide Without;
      var job := jobs[run];
      if job.base.Some? && job.active.Some? {
        Advance(job.active.value, run, job.commit, job.changed);
      } else {
        Activate(job.repo, run, job.active);
      }
      Clear(run);
      SetRunStatus(run, Completed);
      jobs := jobs - {run};
    }

    /** A job that fails ends its run so, and clears what it embedded. */
    method FailRun(ghost w: World, run: nat)
      requires run in jobs
      modifies this
      ensures Apply(w, old(Abs()), Abort(run)) == Some(Abs())
      ensures Cleared(old(AsDb()), AsDb(), run) && run !in jobs
    {
      SetRunStatus(run, Failed);
      Clear(run);
      jobs := jobs - {run};
    }

    /** What the rest of the system does meanwhile. */
    method Meanwhile(ghost w: World, next: Sys, run: nat, ghost start: Sys)
      requires Elsewhere(w, Abs(), next, run) && Reaches(w, start, Abs()) && run in jobs
      modifies this
      ensures Abs() == next && Reaches(w, start, Abs())
      ensures run in jobs && jobs[run] == old(jobs[run]).(lost := jobs[run].lost)
    {
      hide Reaches, Elsewhere;
      ElsewhereReaches(w, Abs(), next, run);
      ReachesOn(w, start, Abs(), next);
      ElsewhereKeepsJob(w, Abs(), next, run);
      now, active, runs := next.db.now, next.db.active, next.db.runs;
      rows, schema, jobs := next.db.rows, next.db.schema, next.jobs;
    }

    /** One batch of the job, and what happens before it. */
    method NextBatch(ghost w: World, next: Sys, run: nat, batch: nat, ghost start: Sys)
      requires Elsewhere(w, Abs(), next, run) && Reaches(w, start, Abs()) && run in jobs
      requires jobs[run].done < |jobs[run].staged| && batch > 0
      modifies this
      ensures Reaches(w, start, Abs()) && run in jobs
      ensures
        var was, job := old(jobs[run]), jobs[run];
        job == was.(lost := job.lost, done := Min(was.done + batch, |was.staged|))
    {
      hide Reaches, Elsewhere, Apply, Whole;
      Meanwhile(w, next, run, start);
      var count := Min(batch, |jobs[run].staged| - jobs[run].done);
      ghost var s := Abs();
      EmbedBatch(w, run, count);
      OnlySwapsMayLack(w, s, Embed(run, count));
      ReachesNext(w, start, s, Embed(run, count), Abs());
      EmbeddedState(w, s, run, count, Abs());
    }

    /**
      The job's end: the swap, a failure, or nothing at all. `whole` tells of a full build whether all its rows were
      there; `sound` is what keeps the active generations exact.
     */
    method EndRun(ghost w: World, run: nat, end: End, ghost start: Sys)
      returns (swapped: bool, whole: bool, ghost sound: bool)
      requires AllName(w) && Inv(w, start) && Reaches(w, start, Abs()) && run in jobs
      modifies this
      ensures swapped && !sound ==> !ActiveExact(w, AsDb())
      ensures !swapped || sound ==> Reaches(w, start, Abs()) && Inv(w, Abs())
      ensures swapped <==> end == Swaps && old(jobs[run]).done == |old(jobs[run]).staged|
      ensures run !in jobs
      ensures !swapped ==> if end == Killed then AsDb() == old(AsDb()) else Cleared(old(AsDb()), AsDb(), run)
      ensures !swapped && end != Killed ==> run in runs && runs[run].status == Failed
      ensures swapped && old(jobs[run]).base.None? ==>
                old(jobs[run]).repo in active && active[old(jobs[run]).repo] == run && (sound <==> whole)
      ensures swapped && old(jobs[run]).base.Some? && SameCuts(w, old(jobs[run])) ==> sound
    {
      hide Apply, Whole, Inv, Reaches, ActiveExact, SwapIn, GoodActive, SameCuts, Cleared;
      ghost var s := Abs();
      ReachedInv(w, start, s);
      SwapIsEnabled(w, s, run);
      swapped, whole := false, true;
      ghost var a := Crash(run);
      if end == Swaps && jobs[run].done == |jobs[run].staged| {
        whole := |if run in rows then rows[run] else []| == |jobs[run].staged|;
        swapped := true;
        SwapRun(w, run);
        a := Swap(run);
        WholeIs(w, s, run);
        SwapActivates(w, s, run, Abs());
      } else if end == Killed {
        jobs := jobs - {run};
        CrashIs(w, s, run);
      } else {
        FailRun(w, run);
        a := Abort(run);
        FailedIs(s.db, AsDb(), run);
      }
      sound := Whole(w, s, a);
      OnlySwapsMayLack(w, s, a);
      if sound {
        ReachesNext(w, start, s, a, Abs());
        ReachedInv(w, start, Abs());
      } else {
        UnwholeSwapIsInexact(w, s, a);
      }
    }

    /**
      A job from its start to its end (internal/worker/index.go, Work and embed), whatever the rest of the system
      does between its transactions: it takes only steps of the protocol, and where it swaps, the active generations
      stay exact if a full build had all its rows, and only if; a step, if its base and its commit are configured to
      have the files it leaves alone cut alike.
     */
    method Index(ghost w: World, run: nat, repo: nat, commit: nat, model: string, forced: bool, ghost walk: Walk, pack: Pack,
                 batch: nat, batches: nat, end: End, others: (nat, Sys) -> Sys)
      returns (swapped: bool, whole: bool, ghost sound: bool)
      requires AllName(w) && Inv(w, Abs()) && batch > 0
      requires forall k, s :: Elsewhere(w, s, others(k, s), run)
      requires run !in runs && !InFlight(jobs, repo, forced)
      requires
        var job := NewJob(w, AsDb(), repo, commit, model, forced, walk);
        && job.Some? && job.value.changed == pack.changed && job.value.staged == pack.staged
        && (job.value.base.Some? <==> pack.incremental)
      modifies this
      ensures swapped && !sound ==> !ActiveExact(w, AsDb())
      ensures !swapped || sound ==> Reaches(w, old(Abs()), Abs()) && Inv(w, Abs())
      ensures swapped && !pack.incremental ==> repo in active && active[repo] == run && (sound <==> whole)
      ensures
        swapped && pack.incremental && SameCuts(w, NewJob(w, old(AsDb()), repo, commit, model, forced, walk).value) ==> sound
      ensures BaseOf(old(AsDb()), repo, model, forced) != Some(commit) && end == Swaps && batches >= |pack.staged| ==> swapped
      ensures run !in jobs && (run in runs && !swapped && end != Killed ==> runs[run].status == Failed)
    {
      hide Apply, Whole, Inv, Reaches, Elsewhere, ActiveExact, NewJob, BaseOf, InFlight, SameCuts;
      ghost var start := Abs();
      ReachesSelf(w, start);
      var begun := BeginRun(w, run, repo, commit, model, forced, walk, pack);
      if !begun {
        NoJobWithoutARun(w, start, run);
        return false, false, false;
      }
      ghost var begin := Begin(run, repo, commit, model, forced, walk);
      OnlySwapsMayLack(w, start, begin);
      ReachesNext(w, start, start, begin, Abs());
      BegunState(w, start, begin, Abs());
      ghost var first := jobs[run];
      var k := 0;
      while k < batches && jobs[run].done < |jobs[run].staged|
        invariant Reaches(w, start, Abs()) && run in jobs
        invariant jobs[run] == first.(lost := jobs[run].lost, done := jobs[run].done)
        invariant Min(k, |pack.staged|) <= jobs[run].done <= |pack.staged|
      {
        NextBatch(w, others(k, Sys(AsDb(), jobs)), run, batch, start);
        k := k + 1;
      }
      Meanwhile(w, others(k, Sys(AsDb(), jobs)), run, start);
      SameCutsOf(w, first, jobs[run]);
      swapped, whole, sound := EndRun(w, run, end, start);
    }
  }

  lemma {:induction false} WithoutAppend(rows: seq<Vec>, row: Vec, paths: seq<string>)
    ensures Without(rows + [row], paths) == Without(rows, paths) + if row.chunk.path in paths then [] else [row]
    decreases |rows|
  {
    if rows == [] {
      assert rows + [row] == [row] && [row][1..] == [];
    } else {
      var first := if rows[0].chunk.path in paths then [] else [rows[0]];
      WithoutAppend(rows[1..], row, paths);
      assert (rows + [row])[1..] == rows[1..] + [row] && (rows + [row])[0] == rows[0];
      Assoc(first, Without(rows[1..], paths), if row.chunk.path in paths then [] else [row]);
    }
  }
}
