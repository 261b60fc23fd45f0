/**
  Which index runs have rows (internal/store/indexgen.go): the active generations and the jobs in flight, what
  else is left behind and by whom, and when the next start collects it.
 */
module IndexRows {
  import opened Prelude
  import opened Indexer
  import opened IndexGeneration

  predicate HasRows(db: Db, run: nat) {
    Rows(db, run) != []
  }

  predicate IsActive(db: Db, run: nat) {
    run in db.active.Values
  }

  /** Whatever has rows is an active generation or a job in flight. */
  ghost predicate Tidy(s: Sys) {
    forall run: nat :: HasRows(s.db, run) ==> run in s.jobs || IsActive(s.db, run)
  }

  ghost predicate AlwaysTidy(w: World, s: Sys, actions: seq<Action>)
    decreases |actions|
  {
    && Tidy(s)
    && (actions != [] && Apply(w, s, actions[0]).Some? ==> AlwaysTidy(w, Apply(w, s, actions[0]).value, actions[1..]))
  }

  /**
    What leaves rows behind: a worker killed once its run has rows; a full build that replaces another generation
    than the one it found; a step into a generation that is active no more.
   */
  predicate Leaves(s: Sys, a: Action) {
    match a
    case Crash(run) => HasRows(s.db, run)
    case Swap(run) =>
      run in s.jobs &&
      var job := s.jobs[run];
      (match job.base
       case None => job.repo in s.db.active && job.active != Some(s.db.active[job.repo]) && HasRows(s.db, s.db.active[job.repo])
       case Some(_) => job.active.Some? && !IsActive(s.db, job.active.value) && HasRows(s.db, run))
    case _ => false
  }

  ghost predicate NoneLeaves(w: World, s: Sys, actions: seq<Action>)
    decreases |actions|
  {
    actions == [] ||
    (!Leaves(s, actions[0]) &&
     (Apply(w, s, actions[0]).Some? ==> NoneLeaves(w, Apply(w, s, actions[0]).value, actions[1..])))
  }

  // ---- What holds in any run at all ----

  /** A job's run is its own: not active, and no generation that another found; and its time is not up. */
  predicate JobIsSound(s: Sys, run: nat)
    requires run in s.jobs
  {
    var job := s.jobs[run];
    && run in s.db.runs && !IsActive(s.db, run) && s.db.runs[run].repo == job.repo
    && s.db.now <= s.db.runs[run].created + MAX_JOB
    && (job.base.Some? ==> job.active.Some?)
    && (job.active.Some? ==>
          job.active.value in s.db.runs && job.active.value !in s.jobs && s.db.runs[job.active.value].repo == job.repo)
  }

  ghost predicate Sound(s: Sys) {
    && (forall run :: run in s.jobs ==> JobIsSound(s, run))
    && (forall repo :: repo in s.db.active ==> OfItsRepo(s.db, repo))
    && s.db.rows.Keys <= s.db.runs.Keys
  }

  predicate OfItsRepo(db: Db, repo: nat)
    requires repo in db.active
  {
    db.active[repo] in db.runs && db.runs[db.active[repo]].repo == repo
  }

  lemma SoundIs(s: Sys, run: nat)
    requires Sound(s) && run in s.jobs
    ensures JobIsSound(s, run)
  {
  }

  lemma ActiveOfItsRepo(s: Sys, repo: nat)
    requires Sound(s) && repo in s.db.active
    ensures OfItsRepo(s.db, repo)
  {
  }

  lemma ActiveOf(db: Db, run: nat) returns (repo: nat)
    requires IsActive(db, run)
    ensures repo in db.active && db.active[repo] == run
  {
    repo :| repo in db.active && db.active[repo] == run;
  }

  /** The same runs, of the same repositories and ages. */
  predicate SameRuns(db: Db, next: Db) {
    && next.runs.Keys == db.runs.Keys && next.now == db.now
    && forall r :: r in db.runs ==> next.runs[r].repo == db.runs[r].repo && next.runs[r].created == db.runs[r].created
  }

  // ---- What a swap, a failure and a start do to the rows ----

  /**
    A full build's swap: its run is the active one and completed, the generation it found is superseded and has no
    rows left, and nothing else changes.
   */
  lemma ActivationRows(w: World, s: Sys, run: nat)
    requires Sound(s) && run in s.jobs && s.jobs[run].base.None? && Apply(w, s, Swap(run)).Some?
    ensures
      var job, next := s.jobs[run], Apply(w, s, Swap(run)).value;
      && next.jobs == s.jobs - {run} && next.db.active == s.db.active[job.repo := run] && SameRuns(s.db, next.db)
      && next.db.rows.Keys <= s.db.rows.Keys
      && (forall r: nat :: Rows(next.db, r) == if job.active == Some(r) then [] else Rows(s.db, r))
      && (forall r: nat :: r in s.db.runs ==>
            next.db.runs[r].status ==
            if r == run then Completed else if job.active == Some(r) then Superseded else s.db.runs[r].status)
  {
    SoundIs(s, run);
    var active := s.db.active[s.jobs[run].repo := run];
    assert run in active.Values by {
      assert active[s.jobs[run].repo] == run;
    }
  }

  /**
    A step's swap: its run has no rows left, and those it had are in the generation it found, in place of what that
    had at the changed paths; nothing else changes.
   */
  lemma StepRows(w: World, s: Sys, run: nat)
    requires Sound(s) && run in s.jobs && s.jobs[run].base.Some? && Apply(w, s, Swap(run)).Some?
    ensures s.jobs[run].active.Some?
    ensures
      var job, next := s.jobs[run], Apply(w, s, Swap(run)).value;
      var g := job.active.value;
      && next.jobs == s.jobs - {run} && next.db.active == s.db.active && SameRuns(s.db, next.db)
      && next.db.rows.Keys <= s.db.rows.Keys + {g} && g in s.db.runs
      && (forall r: nat :: Rows(next.db, r) ==
            if r == run then [] else if r == g then Without(Rows(s.db, g), job.changed) + Rows(s.db, run) else Rows(s.db, r))
      && (forall r: nat :: r in s.db.runs ==>
            next.db.runs[r].status == if r == run then Completed else s.db.runs[r].status)
  {
    hide Without;
    SoundIs(s, run);
  }

  /** A failed job's run has no rows left; nothing else changes. */
  lemma FailureRows(w: World, s: Sys, run: nat)
    requires Sound(s) && run in s.jobs
    ensures Apply(w, s, Abort(run)).Some?
    ensures
      var next := Apply(w, s, Abort(run)).value;
      && next.jobs == s.jobs - {run} && next.db.active == s.db.active && SameRuns(s.db, next.db)
      && next.db.rows.Keys <= s.db.rows.Keys
      && (forall r: nat :: Rows(next.db, r) == if r == run then [] else Rows(s.db, r))
      && (forall r: nat :: r in s.db.runs ==>
            next.db.runs[r].status == if r == run then Failed else s.db.runs[r].status)
  {
    SoundIs(s, run);
  }

  /** A run of the repository that is not active and started too long ago to be in flight. */
  predicate LeftOver(db: Db, repo: nat, run: nat) {
    && run in db.runs && db.runs[run].repo == repo && !(repo in db.active && db.active[repo] == run)
    && db.now - db.runs[run].created > 240
  }

  /** A start drops the rows of its repository's old runs that are not active, and no others. */
  lemma StartRows(w: World, s: Sys, a: Action)
    requires Sound(s) && a.Begin? && Apply(w, s, a).Some?
    ensures
      var next := Apply(w, s, a).value;
      && next.jobs.Keys == s.jobs.Keys + {a.run} && next.db.active == s.db.active
      && next.db.runs.Keys == s.db.runs.Keys + {a.run} && a.run !in s.db.runs
      && (forall r :: r in s.db.runs ==> next.db.runs[r] == s.db.runs[r])
      && (forall r: nat :: Rows(next.db, r) == if LeftOver(s.db, a.repo, r) then [] else Rows(s.db, r))
      && Rows(next.db, a.run) == []
  {
    hide NewJob, BaseOf, InFlight;
    assert a.run !in s.db.rows;
  }

  /** A sweep leaves its repositories without a generation, the one they had superseded and without rows, and all else as it was. */
  lemma SweepRows(w: World, s: Sys, repos: set<nat>)
    ensures Apply(w, s, SweepIndexes(repos)).Some?
    ensures
      var next := Apply(w, s, SweepIndexes(repos)).value;
      && next.jobs == s.jobs && next.db.runs.Keys == s.db.runs.Keys
      && (forall repo: nat :: repo in next.db.active <==> repo in s.db.active && repo !in repos)
      && (forall repo: nat :: repo in next.db.active ==> next.db.active[repo] == s.db.active[repo])
      && (forall r: nat :: Rows(next.db, r) == if Swept(s.db, repos, r) then [] else Rows(s.db, r))
      && (forall r: nat :: r in s.db.runs ==>
            next.db.runs[r] == if Swept(s.db, repos, r) then s.db.runs[r].(status := Superseded) else s.db.runs[r])
  {
    forall r: nat ensures r in (set q | q in repos && q in s.db.active :: s.db.active[q]) <==> Swept(s.db, repos, r) {
    }
  }

  /** The generation of one of the repositories. */
  ghost predicate Swept(db: Db, repos: set<nat>, run: nat) {
    exists repo :: repo in repos && repo in db.active && db.active[repo] == run
  }

  /** A schema rebuild leaves no generation and no rows, and supersedes every run that was running or completed. */
  lemma RebuildRows(w: World, s: Sys, model: string)
    requires model != s.db.schema
    ensures Apply(w, s, EnsureSchema(model)).Some?
    ensures
      var next := Apply(w, s, EnsureSchema(model)).value;
      && next.db.schema == model && next.jobs.Keys == s.jobs.Keys && next.db.runs.Keys == s.db.runs.Keys
      && (forall repo: nat :: repo !in next.db.active) && (forall r: nat :: Rows(next.db, r) == [])
      && (forall r: nat :: r in s.db.runs ==>
            next.db.runs[r].status ==
            if s.db.runs[r].status in {Running, Completed} then Superseded else s.db.runs[r].status)
  {
  }

  // ---- Sound in any run ----

  lemma SoundOf(s: Sys)
    requires forall run :: run in s.jobs ==> JobIsSound(s, run)
    requires forall repo :: repo in s.db.active ==> OfItsRepo(s.db, repo)
    requires s.db.rows.Keys <= s.db.runs.Keys
    ensures Sound(s)
  {
  }

  lemma RowsAreOfRuns(s: Sys)
    requires Sound(s)
    ensures s.db.rows.Keys <= s.db.runs.Keys
  {
  }

  lemma NewJobIsSound(w: World, s: Sys, a: Action)
    requires Sound(s) && a.Begin? && Apply(w, s, a).Some?
    ensures JobIsSound(Apply(w, s, a).value, a.run)
  {
    hide CutAll, Lists, Diffs, InFlight, Stray;
    var found := ActiveGeneration(s.db, a.repo);
    if found.Some? {
      ActiveOfItsRepo(s, a.repo);
      if found.value in s.jobs {
        SoundIs(s, found.value);
      }
    }
    if IsActive(s.db, a.run) {
      var repo := ActiveOf(s.db, a.run);
      ActiveOfItsRepo(s, repo);
    }
  }

  lemma StartIsSound(w: World, s: Sys, a: Action)
    requires Sound(s) && a.Begin? && Apply(w, s, a).Some?
    ensures Sound(Apply(w, s, a).value)
  {
    hide NewJob, BaseOf, InFlight, Stray, Sound;
    var next := Apply(w, s, a).value;
    RowsAreOfRuns(s);
    forall run | run in next.jobs ensures JobIsSound(next, run) {
      if run == a.run {
        NewJobIsSound(w, s, a);
      } else {
        SoundIs(s, run);
      }
    }
    forall repo | repo in next.db.active ensures OfItsRepo(next.db, repo) {
      ActiveOfItsRepo(s, repo);
    }
    SoundOf(next);
  }

  /** A job that ends leaves the others as sound, whichever of the generations changed. */
  lemma EndIsSound(s: Sys, next: Sys, run: nat)
    requires Sound(s) && run in s.jobs && next.jobs == s.jobs - {run} && SameRuns(s.db, next.db)
    requires next.db.active == s.db.active || next.db.active == s.db.active[s.jobs[run].repo := run]
    requires next.db.rows.Keys <= s.db.runs.Keys
    ensures Sound(next)
  {
    hide Sound;
    SoundIs(s, run);
    forall r | r in next.jobs ensures JobIsSound(next, r) {
      SoundIs(s, r);
    }
    forall repo | repo in next.db.active ensures OfItsRepo(next.db, repo) {
      if repo in s.db.active {
        ActiveOfItsRepo(s, repo);
      }
    }
    SoundOf(next);
  }

  /** Whatever else happens keeps the jobs' runs, and makes nothing active. */
  lemma OtherIsSound(w: World, s: Sys, a: Action)
    requires Sound(s) && Apply(w, s, a).Some? && !a.Begin? && !a.Swap? && !a.Abort? && !a.Crash?
    ensures Sound(Apply(w, s, a).value)
  {
    hide Sound, Embedded;
    var next := Apply(w, s, a).value;
    RowsAreOfRuns(s);
    forall run | run in next.jobs ensures JobIsSound(next, run) {
      SoundIs(s, run);
      assert next.jobs[run] == s.jobs[run].(done := next.jobs[run].done, lost := next.jobs[run].lost);
    }
    forall repo | repo in next.db.active ensures OfItsRepo(next.db, repo) {
      ActiveOfItsRepo(s, repo);
    }
    if a.Embed? {
      SoundIs(s, a.run);
    }
    SoundOf(next);
  }

  lemma CrashRows(w: World, s: Sys, run: nat)
    requires run in s.jobs
    ensures Apply(w, s, Crash(run)) == Some(Sys(s.db, s.jobs - {run}))
  {
  }

  lemma StepIsSound(w: World, s: Sys, a: Action)
    requires Sound(s) && Apply(w, s, a).Some?
    ensures Sound(Apply(w, s, a).value)
  {
    if a.Begin? {
      StartIsSound(w, s, a);
    } else if a.Swap? || a.Abort? || a.Crash? {
      hide Sound, SwapIn;
      assert a.run in s.jobs;
      RowsAreOfRuns(s);
      if a.Crash? {
        CrashRows(w, s, a.run);
      } else if a.Abort? {
        FailureRows(w, s, a.run);
      } else if s.jobs[a.run].base.None? {
        ActivationRows(w, s, a.run);
      } else {
        StepRows(w, s, a.run);
      }
      EndIsSound(s, Apply(w, s, a).value, a.run);
    } else {
      OtherIsSound(w, s, a);
    }
  }

  lemma {:induction false} RunIsSound(w: World, s: Sys, actions: seq<Action>)
    requires Sound(s) && Run(w, s, actions).Some?
    ensures Sound(Run(w, s, actions).value)
    decreases |actions|
  {
    if actions != [] {
      hide Apply, Sound;
      StepIsSound(w, s, actions[0]);
      RunIsSound(w, Apply(w, s, actions[0]).value, actions[1..]);
    }
  }

  // ---- What is left behind ----

  lemma TidyAt(s: Sys, run: nat)
    requires Tidy(s) && HasRows(s.db, run)
    ensures run in s.jobs || IsActive(s.db, run)
  {
  }

  lemma LeftAt(s: Sys, run: nat)
    requires HasRows(s.db, run) && run !in s.jobs && !IsActive(s.db, run)
    ensures !Tidy(s)
  {
  }

  lemma KilledLeaves(w: World, s: Sys, run: nat)
    requires Sound(s) && Tidy(s) && run in s.jobs
    ensures Tidy(Apply(w, s, Crash(run)).value) <==> !Leaves(s, Crash(run))
  {
    hide Apply, Tidy, HasRows;
    var next := Sys(s.db, s.jobs - {run});
    CrashRows(w, s, run);
    SoundIs(s, run);
    if HasRows(s.db, run) {
      LeftAt(next, run);
    } else {
      forall r: nat | HasRows(next.db, r) ensures r in next.jobs || IsActive(next.db, r) {
        TidyAt(s, r);
      }
      TidyOf(next);
    }
  }

  lemma TidyOf(s: Sys)
    requires forall run: nat :: HasRows(s.db, run) ==> run in s.jobs || IsActive(s.db, run)
    ensures Tidy(s)
  {
  }

  lemma ReplacedIsLeft(w: World, s: Sys, run: nat)
    requires Sound(s) && Tidy(s) && run in s.jobs && s.jobs[run].base.None? && Apply(w, s, Swap(run)).Some?
    ensures Tidy(Apply(w, s, Swap(run)).value) <==> !Leaves(s, Swap(run))
  {
    ActivationRows(w, s, run);
    hide Apply, Tidy, Sound, Rows;
    var job, next := s.jobs[run], Apply(w, s, Swap(run)).value;
    if Leaves(s, Swap(run)) {
      var q := s.db.active[job.repo];
      ReplacedIsInactive(s, run, next);
      LeftAt(next, q);
    } else {
      forall r: nat | HasRows(next.db, r) ensures r in next.jobs || IsActive(next.db, r) {
        TidyAt(s, r);
        if r !in next.jobs {
          StaysActive(s, run, next, r);
        }
      }
      TidyOf(next);
    }
  }

  lemma ReplacedIsInactive(s: Sys, run: nat, next: Sys)
    requires Sound(s) && run in s.jobs && s.jobs[run].repo in s.db.active
    requires next.db.active == s.db.active[s.jobs[run].repo := run] && next.jobs == s.jobs - {run}
    ensures !IsActive(next.db, s.db.active[s.jobs[run].repo]) && s.db.active[s.jobs[run].repo] !in next.jobs
  {
    var q := s.db.active[s.jobs[run].repo];
    SoundIs(s, run);
    assert IsActive(s.db, q);
    if q in s.jobs {
      SoundIs(s, q);
    }
    assert forall repo :: repo in s.db.active ==> OfItsRepo(s.db, repo);
    assert OfItsRepo(s.db, s.jobs[run].repo);
  }

  /** Of what was active or in flight, only the generation the build replaces is neither afterwards. */
  lemma StaysActive(s: Sys, run: nat, next: Sys, r: nat)
    requires run in s.jobs && next.db.active == s.db.active[s.jobs[run].repo := run]
    requires r == run || (IsActive(s.db, r) && !(s.jobs[run].repo in s.db.active && s.db.active[s.jobs[run].repo] == r))
    ensures IsActive(next.db, r)
  {
    if r == run {
      assert next.db.active[s.jobs[run].repo] == run;
    } else {
      var repo := ActiveOf(s.db, r);
      assert next.db.active[repo] == r;
    }
  }

  lemma LateStepIsLeft(w: World, s: Sys, run: nat)
    requires Sound(s) && Tidy(s) && run in s.jobs && s.jobs[run].base.Some? && Apply(w, s, Swap(run)).Some?
    ensures Tidy(Apply(w, s, Swap(run)).value) <==> !Leaves(s, Swap(run))
  {
    StepRows(w, s, run);
    SoundIs(s, run);
    hide Apply, Tidy, Sound, Without;
    var job, next := s.jobs[run], Apply(w, s, Swap(run)).value;
    var g := job.active.value;
    if Leaves(s, Swap(run)) {
      LeftAt(next, g);
    } else {
      forall r: nat | HasRows(next.db, r) ensures r in next.jobs || IsActive(next.db, r) {
        if r == g {
          if !IsActive(s.db, g) {
            if HasRows(s.db, g) {
              TidyAt(s, g);
            }
            NothingWithout(job.changed);
          }
        } else {
          TidyAt(s, r);
        }
      }
      TidyOf(next);
    }
  }

  lemma NothingWithout(changed: seq<string>)
    ensures Without([], changed) == []
  {
  }

  lemma StartLeavesNothing(w: World, s: Sys, a: Action)
    requires Sound(s) && Tidy(s) && a.Begin? && Apply(w, s, a).Some?
    ensures Tidy(Apply(w, s, a).value)
  {
    StartRows(w, s, a);
    hide Apply, Tidy, Sound, Rows;
    var next := Apply(w, s, a).value;
    forall r: nat | HasRows(next.db, r) ensures r in next.jobs || IsActive(next.db, r) {
      TidyAt(s, r);
    }
    TidyOf(next);
  }

  lemma FailureLeavesNothing(w: World, s: Sys, run: nat)
    requires Sound(s) && Tidy(s) && run in s.jobs
    ensures Apply(w, s, Abort(run)).Some? && Tidy(Apply(w, s, Abort(run)).value)
  {
    FailureRows(w, s, run);
    hide Apply, Tidy, Sound, Rows;
    var next := Apply(w, s, Abort(run)).value;
    forall r: nat | HasRows(next.db, r) ensures r in next.jobs || IsActive(next.db, r) {
      TidyAt(s, r);
    }
    TidyOf(next);
  }

  lemma SweepLeavesNothing(w: World, s: Sys, repos: set<nat>)
    requires Tidy(s)
    ensures Tidy(Apply(w, s, SweepIndexes(repos)).value)
  {
    hide Tidy;
    var next := Apply(w, s, SweepIndexes(repos)).value;
    forall r: nat | HasRows(next.db, r) ensures r in next.jobs || IsActive(next.db, r) {
      TidyAt(s, r);
      if r !in s.jobs {
        var repo := ActiveOf(s.db, r);
        assert repo !in repos;
        assert next.db.active[repo] == r;
      }
    }
    TidyOf(next);
  }

  lemma OtherLeavesNothing(w: World, s: Sys, a: Action)
    requires Tidy(s) && Apply(w, s, a).Some? && (a.Embed? || a.EnsureSchema? || a.Tick?)
    ensures Tidy(Apply(w, s, a).value)
  {
    hide Tidy, Embedded;
    var next := Apply(w, s, a).value;
    forall r: nat | HasRows(next.db, r) ensures r in next.jobs || IsActive(next.db, r) {
      if HasRows(s.db, r) {
        TidyAt(s, r);
      }
    }
    TidyOf(next);
  }

  lemma StepTidyIff(w: World, s: Sys, a: Action)
    requires Sound(s) && Tidy(s) && Apply(w, s, a).Some?
    ensures Tidy(Apply(w, s, a).value) <==> !Leaves(s, a)
  {
    match a
    case Begin(_, _, _, _, _, _) => StartLeavesNothing(w, s, a);
    case Swap(run) =>
      assert run in s.jobs;
      if s.jobs[run].base.None? {
        ReplacedIsLeft(w, s, run);
      } else {
        LateStepIsLeft(w, s, run);
      }
    case Abort(run) => FailureLeavesNothing(w, s, run);
    case Crash(run) => KilledLeaves(w, s, run);
    case SweepIndexes(repos) => SweepLeavesNothing(w, s, repos);
    case _ => OtherLeavesNothing(w, s, a);
  }

  lemma {:induction false} AlwaysTidyIff(w: World, s: Sys, actions: seq<Action>)
    requires Sound(s) && Tidy(s) && Run(w, s, actions).Some?
    ensures AlwaysTidy(w, s, actions) <==> NoneLeaves(w, s, actions)
    decreases |actions|
  {
    if actions != [] {
      hide Apply, Sound, Tidy, Leaves;
      var next := Apply(w, s, actions[0]).value;
      StepTidyIff(w, s, actions[0]);
      StepIsSound(w, s, actions[0]);
      if Tidy(next) {
        AlwaysTidyIff(w, next, actions[1..]);
      } else {
        UntidyNow(w, next, actions[1..]);
      }
    }
  }

  lemma UntidyNow(w: World, s: Sys, actions: seq<Action>)
    requires !Tidy(s)
    ensures !AlwaysTidy(w, s, actions)
  {
    hide Tidy;
  }

  lemma EmptyIsTidy()
    ensures Sound(Empty) && Tidy(Empty)
  {
  }

  /**
    Over any run at all, only active generations and jobs in flight have rows in every state of it, if and only if no
    worker was killed with rows of its run in the table, no full build replaced another generation than the one it had
    found, and no step came to a generation that was active no more.
   */
  lemma NoRowsAreLeftIff(w: World, actions: seq<Action>)
    requires Run(w, Empty, actions).Some?
    ensures AlwaysTidy(w, Empty, actions) <==> NoneLeaves(w, Empty, actions)
  {
    EmptyIsTidy();
    AlwaysTidyIff(w, Empty, actions);
  }

  /**
    What is left behind waits for a start, in any run: after one, a run of its repository that has rows is the active
    generation or started at most four hours ago. No job in flight loses a row to it, nor does any active generation.
   */
  lemma StartsCollectWhatIsLeft(w: World, actions: seq<Action>, a: Action)
    requires Run(w, Empty, actions).Some? && a.Begin? && Apply(w, Run(w, Empty, actions).value, a).Some?
    ensures
      var s := Run(w, Empty, actions).value;
      var next := Apply(w, s, a).value;
      && (forall r: nat :: HasRows(next.db, r) && r in next.db.runs && next.db.runs[r].repo == a.repo && !IsActive(next.db, r) ==>
            next.db.now - next.db.runs[r].created <= 240)
      && (forall r: nat :: r in s.jobs || IsActive(s.db, r) ==> Rows(next.db, r) == Rows(s.db, r))
  {
    var s := Run(w, Empty, actions).value;
    EmptyIsTidy();
    RunIsSound(w, Empty, actions);
    StartRows(w, s, a);
    StartIsSound(w, s, a);
    hide Run, Rows, Sound, Apply;
    var next := Apply(w, s, a).value;
    assert next.db.now == s.db.now by { StartKeepsTime(w, s, a); }
    forall r: nat | HasRows(next.db, r) && r in next.db.runs && next.db.runs[r].repo == a.repo && !IsActive(next.db, r)
      ensures next.db.now - next.db.runs[r].created <= 240
    {
      assert !LeftOver(s.db, a.repo, r);
    }
    forall r: nat | r in s.jobs || IsActive(s.db, r) ensures Rows(next.db, r) == Rows(s.db, r) {
      if r in s.jobs {
        SoundIs(s, r);
      } else {
        var repo := ActiveOf(s.db, r);
        ActiveOfItsRepo(s, repo);
      }
    }
  }

  lemma StartKeepsTime(w: World, s: Sys, a: Action)
    requires a.Begin? && Apply(w, s, a).Some?
    ensures Apply(w, s, a).value.db.now == s.db.now
  {
    hide NewJob, BaseOf, InFlight, Stray;
  }

  // ---- A forced rebuild beside an update ----

  lemma RunNext(w: World, start: Sys, actions: seq<Action>, s: Sys, a: Action, t: Sys, all: seq<Action>)
    requires Run(w, start, actions) == Some(s) && Apply(w, s, a) == Some(t) && all == actions + [a]
    ensures Run(w, start, all) == Some(t)
  {
    hide Apply, AllWhole;
    RunOn(w, start, actions, [a]);
    assert [a][1..] == [];
    assert Run(w, t, []) == Some(t);
  }

  /** The job of a first build of the one file. */
  function FirstBuild(chunk: Chunk, model: string, forced: bool): Job {
    Job(0, 0, model, forced, None, None, [], [chunk], 0, 0)
  }

  lemma SecondBuildBegins(w: World, file: SourceFile, chunk: Chunk, model: string, s: Sys)
    requires w == OneFile(file, chunk) && chunk.path == file.path
    requires s == Sys(Db(0, map[], map[0 := IndexRun(0, 0, model, Running, 0)], map[], ""), map[0 := FirstBuild(chunk, model, false)])
    ensures
      Apply(w, s, Begin(1, 0, 0, model, true, FullWalk([file]))) ==
      Some(Sys(s.db.(runs := s.db.runs[1 := IndexRun(0, 0, model, Running, 0)]), s.jobs[1 := FirstBuild(chunk, model, true)]))
  {
    hide CutAll, Lists, OneFile;
    OneFileIsCut(file, chunk);
  }

  lemma EmbedsItsRow(w: World, s: Sys, run: nat, chunk: Chunk, model: string, forced: bool)
    requires run in s.jobs && s.jobs[run] == FirstBuild(chunk, model, forced) && run !in s.db.rows
    ensures
      Apply(w, s, Embed(run, 1)) ==
      Some(Sys(s.db.(rows := s.db.rows[run := [Vec(chunk, model)]]), s.jobs[run := s.jobs[run].(done := 1)]))
  {
    hide Embedded;
    OneEmbedded(chunk, model);
    assert s.jobs[run].staged[0..0 + 1] == [chunk];
    assert Rows(s.db, run) + [Vec(chunk, model)] == [Vec(chunk, model)];
  }

  /** A first build that swaps in replaces whatever is active, and drops nobody's rows. */
  lemma SwapsItsRowIn(w: World, s: Sys, run: nat, chunk: Chunk, model: string, forced: bool)
    requires run in s.jobs && s.jobs[run] == FirstBuild(chunk, model, forced).(done := 1) && run in s.db.runs
    ensures
      Apply(w, s, Swap(run)) ==
      Some(Sys(s.db.(active := s.db.active[0 := run], runs := s.db.runs[run := s.db.runs[run].(status := Completed)]), s.jobs - {run}))
  {
    assert run in s.db.active[0 := run].Values by {
      assert s.db.active[0 := run][0] == run;
    }
  }

  /** Both embed, and both swap in what they embedded. */
  lemma BothSwapIn(w: World, chunk: Chunk, model: string, s: Sys) returns (s1: Sys, s2: Sys, s3: Sys, t: Sys)
    requires s.db.active == map[] && s.db.rows == map[]
    requires s.db.runs == map[0 := IndexRun(0, 0, model, Running, 0), 1 := IndexRun(0, 0, model, Running, 0)]
    requires s.jobs == map[0 := FirstBuild(chunk, model, false), 1 := FirstBuild(chunk, model, true)]
    ensures Apply(w, s, Embed(0, 1)) == Some(s1) && Apply(w, s1, Embed(1, 1)) == Some(s2)
    ensures Apply(w, s2, Swap(0)) == Some(s3) && Apply(w, s3, Swap(1)) == Some(t)
    ensures 0 !in t.jobs && !IsActive(t.db, 0) && HasRows(t.db, 0)
  {
    hide Apply;
    EmbedsItsRow(w, s, 0, chunk, model, false);
    s1 := Apply(w, s, Embed(0, 1)).value;
    EmbedsItsRow(w, s1, 1, chunk, model, true);
    s2 := Apply(w, s1, Embed(1, 1)).value;
    SwapsItsRowIn(w, s2, 0, chunk, model, false);
    s3 := Apply(w, s2, Swap(0)).value;
    SwapsItsRowIn(w, s3, 1, chunk, model, true);
    t := Apply(w, s3, Swap(1)).value;
    assert forall repo :: repo in t.db.active ==> t.db.active[repo] == 1;
  }

  /**
    A forced rebuild beside an update does leave rows behind: each found no generation, so that the second to swap in
    drops none, and the rows of the first are of a run that is neither active nor in flight.
   */
  lemma TwoBuildsLeaveRows(file: SourceFile, chunk: Chunk, model: string) returns (w: World, t: Sys)
    requires chunk.path == file.path
    ensures AllName(w)
    ensures
      var update, rebuild := Begin(0, 0, 0, model, false, FullWalk([file])), Begin(1, 0, 0, model, true, FullWalk([file]));
      Run(w, Empty, [update, rebuild, Embed(0, 1), Embed(1, 1), Swap(0), Swap(1)]) == Some(t)
    ensures !Tidy(t)
  {
    hide Apply, OneFile, CutAll, Run, Rows;
    w := OneFile(file, chunk);
    OneFileIsCut(file, chunk);
    BuildBegins(w, file, chunk, model);
    var update, rebuild := Begin(0, 0, 0, model, false, FullWalk([file])), Begin(1, 0, 0, model, true, FullWalk([file]));
    var a := Apply(w, Empty, update).value;
    SecondBuildBegins(w, file, chunk, model, a);
    var b := Apply(w, a, rebuild).value;
    var s1, s2, s3;
    s1, s2, s3, t := BothSwapIn(w, chunk, model, b);
    NoActions(w);
    RunNext(w, Empty, [], Empty, update, a, [update]);
    RunNext(w, Empty, [update], a, rebuild, b, [update, rebuild]);
    RunNext(w, Empty, [update, rebuild], b, Embed(0, 1), s1, [update, rebuild, Embed(0, 1)]);
    RunNext(w, Empty, [update, rebuild, Embed(0, 1)], s1, Embed(1, 1), s2,
            [update, rebuild, Embed(0, 1), Embed(1, 1)]);
    RunNext(w, Empty, [update, rebuild, Embed(0, 1), Embed(1, 1)], s2, Swap(0), s3,
            [update, rebuild, Embed(0, 1), Embed(1, 1), Swap(0)]);
    RunNext(w, Empty, [update, rebuild, Embed(0, 1), Embed(1, 1), Swap(0)], s3, Swap(1), t,
            [update, rebuild, Embed(0, 1), Embed(1, 1), Swap(0), Swap(1)]);
    LeftAt(t, 0);
  }

  lemma NoActions(w: World)
    ensures Run(w, Empty, []) == Some(Empty)
  {
  }
}
