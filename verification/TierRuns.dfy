/**
 What every interleaving of runs keeps: one active run per tier, one worker per server of a run, workers
 that find their own run, status rows that carry it, and results that account for every selected server.
 */
module TierRuns {
  import opened Options
  import opened AlertLog
  import opened Fingerprints
  import opened TierProtocol

  predicate HeldBy(processes: map<nat, Process>, t: Tier, p: nat) {
    p in processes && processes[p].tier == t && Holding(processes[p].stage)
  }

  /** A tier's lock is held by exactly the run of it that is under way. */
  ghost predicate LocksOk(s: State) {
    && (forall t :: t in s.locks ==> HeldBy(s.processes, t, s.locks[t]))
    && (forall t, p :: HeldBy(s.processes, t, p) ==> t in s.locks && s.locks[t] == p)
  }

  /** The run is the tier's last row. */
  predicate Latest(runs: seq<RunRow>, tier: Tier, run: nat) {
    run < |runs| && runs[run].tier == tier && forall r :: run < r < |runs| ==> runs[r].tier != tier
  }

  ghost predicate ProcessOk(s: State, p: nat)
    requires p in s.processes
  {
    var pr := s.processes[p];
    && pr.servers != {}
    && (pr.stage in {Skipped, Locked} ==> pr.run.None?)
    && (pr.run.Some? ==> pr.run.value < |s.runs| && s.runs[pr.run.value].process == p
                         && s.runs[pr.run.value].tier == pr.tier)
    && (pr.stage in {Started, FannedOut} ==> pr.run.Some? && Latest(s.runs, pr.tier, pr.run.value))
    && (pr.stage !in {FannedOut, Over} ==> pr.results == map[])
    && pr.results.Keys <= pr.servers
    && (pr.stage == FannedOut ==> forall x :: x in pr.servers ==> Key(p, x) in s.workers)
    && (forall x :: x in pr.results ==> Key(p, x) in s.workers && s.workers[Key(p, x)].part == Done(pr.results[x]))
  }

  ghost predicate WorkerOk(s: State, k: Key)
    requires k in s.workers
  {
    var w := s.workers[k];
    && k.process in s.processes
    && var pr := s.processes[k.process];
    && k.server in pr.servers
    && pr.stage in {FannedOut, Over} && pr.run.Some? && pr.run.value < |s.runs|
    && (!w.part.Done? ==> pr.stage == FannedOut && k.server !in pr.results)
    && (w.part == Queued ==> w.attached.None?)
    && (w.part in {Working, Reported, Done(true)} ==> w.attached.Some?)
    && (w.attached.Some? ==> w.attached.value < |s.runs| && s.runs[w.attached.value].tier == pr.tier
                             && s.runs[w.attached.value].stamp == s.runs[pr.run.value].stamp)
    && (!w.alert.Idle? ==> w.part in {Working, Reported} && ServerOf(w.alert.fp) == k.server)
  }

  ghost predicate RunsOk(s: State) {
    && (forall q, r :: 0 <= q < r < |s.runs| ==> s.runs[q].stamp <= s.runs[r].stamp)
    && (forall r :: 0 <= r < |s.runs| ==> s.runs[r].stamp <= Stamp(s.clock))
  }

  ghost predicate CountsOk(s: State, r: nat)
    requires r < |s.runs|
  {
    var row := s.runs[r];
    && row.process in s.processes
    && var pr := s.processes[row.process];
    && pr.run == Some(r) && pr.stage in {Started, FannedOut, Over}
    && (row.counts.Some? ==>
          && pr.stage in {FannedOut, Over} && pr.results.Keys == pr.servers
          && row.counts.value == (OkCount(pr.results), FailedCount(pr.results)))
  }

  predicate StatusRowOk(workers: map<Key, Worker>, row: StatusRow) {
    && row.worker in workers
    && workers[row.worker].attached == Some(row.run)
    && row.server == row.worker.server
    && workers[row.worker].part in (if row.ok then {Done(true)} else {Reported, Done(false)})
  }

  ghost predicate StatusOk(s: State) {
    && (forall i :: 0 <= i < |s.status| ==> StatusRowOk(s.workers, s.status[i]))
    && (forall i, j :: 0 <= i < j < |s.status| ==> s.status[i].worker != s.status[j].worker)
    && (forall k :: k in s.workers && s.workers[k].part == Done(true) ==>
          exists row :: row in s.status && row.worker == k && row.ok)
  }

  ghost predicate Inv(s: State) {
    && LocksOk(s) && RunsOk(s) && StatusOk(s)
    && (forall p :: p in s.processes ==> ProcessOk(s, p))
    && (forall k :: k in s.workers ==> WorkerOk(s, k))
    && (forall r :: 0 <= r < |s.runs| ==> CountsOk(s, r))
  }

  /** At most one run of a tier is under way. */
  lemma OneActiveRun(s: State, p: nat, q: nat)
    requires LocksOk(s) && p in s.processes && q in s.processes
    requires Holding(s.processes[p].stage) && Holding(s.processes[q].stage)
    requires s.processes[p].tier == s.processes[q].tier
    ensures p == q
  {
    var tier := s.processes[p].tier;
    assert HeldBy(s.processes, tier, p) && HeldBy(s.processes, tier, q);
  }

  lemma InitOk(cooldown: int, clock: int)
    ensures Inv(Init(cooldown, clock))
  {
  }

  // ---------------------------------------------------------------- what one worker's action does

  ghost predicate Moves(s: State, k: Key, w: Worker, v: Worker, rows: seq<StatusRow>)
    requires k.process in s.processes
  {
    var tier := s.processes[k.process].tier;
    && !w.part.Done?
    && (v.attached != w.attached ==>
          w.part == Queued && v.part == Working && v.attached.Some? && Newest(s.runs, tier, v.attached.value))
    && (v.part == Queued ==> w.part == Queued)
    && (v.part == Working ==>
          w.part == Working
          || (w.part == Queued && (v.attached.Some? || forall row :: row in s.runs ==> row.tier != tier)))
    && (if v.part == Reported && w.part != Reported
        then w.part == Failing && w.attached.Some? && rows == [StatusRow(w.attached.value, k.server, false, k)]
        else if v.part == Done(true)
        then w.part == Working && w.attached.Some? && rows == [StatusRow(w.attached.value, k.server, true, k)]
        else rows == [])
    && (w.part == Reported ==> v.part in {Reported, Done(false)})
    && (v.alert.Idle? || (v.part in {Working, Reported} && ServerOf(v.alert.fp) == k.server))
  }

  lemma WorkerMoves(s: State, k: Key, a: WorkerAction)
    requires k in s.workers && WorkerOk(s, k)
    requires WorkerStep(s, a, k, s.processes[k.process].tier, s.workers[k]).Some?
    ensures var e := WorkerStep(s, a, k, s.processes[k.process].tier, s.workers[k]).value;
            Moves(s, k, s.workers[k], e.worker, e.status)
  {
    hide ServerOf, LastAlert, Stamp, Newest;
  }

  // ---------------------------------------------------------------- a worker's action keeps everything

  lemma MoveKeepsLocks(s: State, k: Key, e: Effect, t: State)
    requires Inv(s) && k in s.workers && t == Applied(s, k, e)
    ensures LocksOk(t) && RunsOk(t) && forall r :: 0 <= r < |t.runs| ==> CountsOk(t, r)
  {
    hide WorkerOk, ProcessOk, StatusOk;
    forall r | 0 <= r < |t.runs| ensures CountsOk(t, r) { assert CountsOk(s, r); }
  }

  lemma MoveKeepsProcess(s: State, k: Key, e: Effect, t: State, p: nat)
    requires p in s.processes && ProcessOk(s, p) && k in s.workers && !s.workers[k].part.Done?
    requires t.processes == s.processes && t.runs == s.runs && t.workers == s.workers[k := e.worker]
    ensures ProcessOk(t, p)
  {
    hide Latest;
  }

  lemma NewestIsOwn(s: State, k: Key, run: nat)
    requires RunsOk(s) && k.process in s.processes && ProcessOk(s, k.process)
    requires s.processes[k.process].stage == FannedOut
    requires Newest(s.runs, s.processes[k.process].tier, run)
    ensures s.processes[k.process].run.Some? && s.processes[k.process].run.value < |s.runs|
    ensures run < |s.runs| && s.runs[run].tier == s.processes[k.process].tier
    ensures s.runs[run].stamp == s.runs[s.processes[k.process].run.value].stamp
  {
    var own := s.processes[k.process].run.value;
    assert run <= own;
    assert s.runs[own].stamp <= s.runs[run].stamp;
  }

  lemma MoveKeepsWorker(s: State, k: Key, e: Effect, t: State, j: Key)
    requires Inv(s) && k in s.workers && Moves(s, k, s.workers[k], e.worker, e.status) && t == Applied(s, k, e)
    requires j in t.workers
    ensures WorkerOk(t, j)
  {
    hide StatusOk, CountsOk, LocksOk, RunsOk, Latest, Newest, ServerOf;
    assert WorkerOk(s, k) && ProcessOk(s, k.process);
    if j == k {
      var w, v := s.workers[k], t.workers[k];
      if v.attached != w.attached { NewestIsOwn(s, k, v.attached.value); }
      var own := s.processes[k.process].run.value;
      assert s.runs[own] in s.runs;
    } else {
      assert WorkerOk(s, j);
    }
  }

  lemma MoveKeepsStatus(s: State, k: Key, e: Effect, t: State)
    requires Inv(s) && k in s.workers && Moves(s, k, s.workers[k], e.worker, e.status) && t == Applied(s, k, e)
    ensures StatusOk(t)
  {
    hide ProcessOk, CountsOk, LocksOk, RunsOk, Newest, ServerOf;
    var w, v := s.workers[k], t.workers[k];
    assert WorkerOk(s, k);
    forall i | 0 <= i < |t.status| ensures StatusRowOk(t.workers, t.status[i]) {
      if i < |s.status| { assert StatusRowOk(s.workers, s.status[i]); }
    }
    forall i, j | 0 <= i < j < |t.status| ensures t.status[i].worker != t.status[j].worker {
      assert StatusRowOk(s.workers, s.status[i]);
    }
    forall j | j in t.workers && t.workers[j].part == Done(true)
      ensures exists row :: row in t.status && row.worker == j && row.ok
    {
      if j == k { assert t.status[|s.status|] in t.status; }
      else {
        var row :| row in s.status && row.worker == j && row.ok;
        assert row in t.status;
      }
    }
  }

  // ---------------------------------------------------------------- a run's own actions keep everything

  predicate GathersOne(workers: map<Key, Worker>, p: nat, w: Process, v: Process, x: string) {
    && Key(p, x) in workers && workers[Key(p, x)].part.Done? && x in w.servers && x !in w.results
    && v.results == w.results[x := workers[Key(p, x)].part.ok]
  }

  ghost predicate Counted(w: Process, v: Process, r: nat, before: RunRow, after: RunRow) {
    && w.run == Some(r) && v.results == w.results && w.results.Keys == w.servers
    && w.stage == v.stage == FannedOut
    && after == before.(counts := Some((OkCount(w.results), FailedCount(w.results))))
  }

  /** What a run's own action may change. */
  ghost predicate RunMoves(s: State, p: nat, w: Process, e: RunEffect) {
    var v := e.process;
    && Holding(w.stage) && v.tier == w.tier && v.servers == w.servers
    && v.stage !in {Skipped, Locked}
    && (v.stage == Started ==> w.stage == Locked)
    && (w.stage == FannedOut ==> v.stage in {FannedOut, Over})
    && (v.stage == FannedOut ==> w.stage in {Started, FannedOut})
    && e.spawned == (if w.stage == Started && v.stage == FannedOut then w.servers else {})
    && (if v.stage == Started
        then v.run == Some(|s.runs|) && e.runs == s.runs + [RunRow(w.tier, Stamp(s.clock), p, None)]
        else v.run == w.run && |e.runs| == |s.runs|
             && forall r :: 0 <= r < |s.runs| ==> e.runs[r] == s.runs[r] || Counted(w, v, r, s.runs[r], e.runs[r]))
    && (v.results == w.results
        || (w.stage == v.stage == FannedOut && exists x :: GathersOne(s.workers, p, w, v, x)))
    && (v.stage == Over ==> v.results == w.results && (w.stage == FannedOut ==> w.results.Keys == w.servers))
  }

  lemma ProcessMoves(s: State, p: nat, a: ProcessAction)
    requires p in s.processes && ProcessStep(s, a, p, s.processes[p]).Some?
    ensures RunMoves(s, p, s.processes[p], ProcessStep(s, a, p, s.processes[p]).value)
  {
    hide OkCount, FailedCount, Stamp;
    if a.Gather? {
      var e := ProcessStep(s, a, p, s.processes[p]).value;
      assert GathersOne(s.workers, p, s.processes[p], e.process, a.server);
    }
  }

  ghost predicate RunStep(s: State, p: nat, e: RunEffect, t: State) {
    p in s.processes && RunMoves(s, p, s.processes[p], e) && t == AppliedRun(s, p, e)
  }

  lemma StepKeepsLocks(s: State, p: nat, e: RunEffect, t: State)
    requires Inv(s) && RunStep(s, p, e, t)
    ensures LocksOk(t)
  {
    hide WorkerOk, ProcessOk, RunsOk, StatusOk, CountsOk, Stamp, Spawned, GathersOne, Counted;
    var tier := s.processes[p].tier;
    assert HeldBy(s.processes, tier, p);
    forall u, q
      ensures HeldBy(t.processes, u, q) <==> HeldBy(s.processes, u, q) && (q != p || e.process.stage != Over)
    {
    }
  }

  lemma StepKeepsRuns(s: State, p: nat, e: RunEffect, t: State)
    requires Inv(s) && RunStep(s, p, e, t)
    ensures RunsOk(t)
  {
    hide WorkerOk, ProcessOk, LocksOk, StatusOk, CountsOk, Stamp, Spawned, GathersOne;
  }

  /** Nothing was spawned for a run that has not fanned out; afterwards nothing more is spawned. */
  lemma WorkersAfter(s: State, p: nat, e: RunEffect, t: State)
    requires Inv(s) && RunStep(s, p, e, t)
    ensures forall k :: k in s.workers ==> k in t.workers && t.workers[k] == s.workers[k]
    ensures forall k :: k in t.workers && k !in s.workers ==>
              k.process == p && k.server in e.spawned && t.workers[k] == Worker(Queued, None, Idle)
    ensures forall x :: x in e.spawned ==> Key(p, x) in t.workers
    ensures forall k :: k in s.workers ==> k.process in s.processes
    ensures forall k :: k in s.workers && k.process == p ==> s.processes[p].stage in {FannedOut, Over}
  {
    hide StatusOk, CountsOk, RunsOk, Stamp, Latest, LocksOk, ProcessOk, ServerOf, GathersOne, Counted;
    forall k | k in s.workers ensures k.process in s.processes { assert WorkerOk(s, k); }
    forall k | k in s.workers && k.process == p ensures s.processes[p].stage in {FannedOut, Over} {
      assert WorkerOk(s, k);
    }
  }

  /** Run rows are only added, and of the others only the counts change. */
  lemma RowsAfter(s: State, p: nat, e: RunEffect, t: State)
    requires Inv(s) && RunStep(s, p, e, t)
    ensures |t.runs| == if e.process.stage == Started then |s.runs| + 1 else |s.runs|
    ensures forall r :: 0 <= r < |s.runs| ==>
              && t.runs[r].tier == s.runs[r].tier && t.runs[r].stamp == s.runs[r].stamp
              && t.runs[r].process == s.runs[r].process
  {
    hide StatusOk, CountsOk, RunsOk, Stamp, Latest, LocksOk, ProcessOk, WorkerOk, ServerOf, GathersOne, Spawned;
  }

  /** The tables only grow, and rows keep who inserted them, for which tier and when. */
  ghost predicate Extends(s: State, t: State) {
    && (forall k :: k in s.workers ==> k in t.workers && t.workers[k] == s.workers[k])
    && |t.runs| >= |s.runs|
    && (forall r :: 0 <= r < |s.runs| ==>
          && t.runs[r].tier == s.runs[r].tier && t.runs[r].stamp == s.runs[r].stamp
          && t.runs[r].process == s.runs[r].process)
  }

  lemma StepExtends(s: State, p: nat, e: RunEffect, t: State)
    requires Inv(s) && RunStep(s, p, e, t)
    ensures Extends(s, t)
  {
    hide Inv, RunStep;
    WorkersAfter(s, p, e, t);
    RowsAfter(s, p, e, t);
  }

  lemma SameProcessOk(s: State, t: State, q: nat)
    requires q in s.processes && q in t.processes && t.processes[q] == s.processes[q]
    requires Extends(s, t) && ProcessOk(s, q)
    requires s.processes[q].stage in {Started, FannedOut} ==>
               forall r :: |s.runs| <= r < |t.runs| ==> t.runs[r].tier != s.processes[q].tier
    ensures ProcessOk(t, q)
  {
  }

  lemma StepKeepsOthers(s: State, p: nat, e: RunEffect, t: State, q: nat)
    requires Inv(s) && RunStep(s, p, e, t) && q in t.processes && q != p
    ensures ProcessOk(t, q)
  {
    hide ProcessOk, WorkerOk, StatusOk, CountsOk, RunsOk, Stamp, Spawned, GathersOne, Counted, Extends;
    StepExtends(s, p, e, t);
    assert ProcessOk(s, q);
    RowsAfter(s, p, e, t);
    if Holding(s.processes[q].stage) && s.processes[q].tier == s.processes[p].tier { OneActiveRun(s, p, q); }
    SameProcessOk(s, t, q);
  }

  lemma OwnProcessOk(s: State, p: nat, w: Process, e: RunEffect, t: State)
    requires p in s.processes && s.processes[p] == w && ProcessOk(s, p) && RunMoves(s, p, w, e)
    requires p in t.processes && t.processes[p] == e.process && t.runs == e.runs
    requires Extends(s, t) && forall x :: x in e.spawned ==> Key(p, x) in t.workers
    ensures ProcessOk(t, p)
  {
    hide Stamp, Counted;
  }

  lemma StepKeepsProcess(s: State, p: nat, e: RunEffect, t: State)
    requires Inv(s) && RunStep(s, p, e, t)
    ensures ProcessOk(t, p)
  {
    hide ProcessOk, WorkerOk, StatusOk, CountsOk, RunsOk, LocksOk, RunMoves, Stamp, Spawned, GathersOne;
    hide Counted, Extends;
    StepExtends(s, p, e, t);
    WorkersAfter(s, p, e, t);
    OwnProcessOk(s, p, s.processes[p], e, t);
  }

  lemma SameWorkerOk(s: State, t: State, k: Key)
    requires k in s.workers && WorkerOk(s, k) && Extends(s, t)
    requires k.process in t.processes && t.processes[k.process] == s.processes[k.process]
    ensures k in t.workers && WorkerOk(t, k)
  {
    hide ServerOf;
  }

  lemma OwnWorkerOk(s: State, p: nat, e: RunEffect, t: State, k: Key)
    requires k in s.workers && k.process == p && WorkerOk(s, k) && Extends(s, t)
    requires p in s.processes && p in t.processes && t.processes[p] == e.process && t.runs == e.runs
    requires ProcessOk(s, p) && ProcessOk(t, p) && RunMoves(s, p, s.processes[p], e)
    ensures k in t.workers && WorkerOk(t, k)
  {
    hide ServerOf, Stamp, Counted;
  }

  lemma NewWorkerOk(s: State, p: nat, e: RunEffect, t: State, k: Key)
    requires k in t.workers && k.process == p && k.server in e.spawned && t.workers[k] == Worker(Queued, None, Idle)
    requires p in s.processes && p in t.processes && t.processes[p] == e.process && t.runs == e.runs
    requires ProcessOk(s, p) && ProcessOk(t, p) && RunMoves(s, p, s.processes[p], e)
    ensures WorkerOk(t, k)
  {
    hide ServerOf, Stamp, Counted, Latest;
  }

  lemma StepKeepsWorker(s: State, p: nat, e: RunEffect, t: State, k: Key)
    requires Inv(s) && RunStep(s, p, e, t) && k in t.workers
    ensures WorkerOk(t, k)
  {
    hide StatusOk, CountsOk, RunsOk, Stamp, LocksOk, ProcessOk, WorkerOk, GathersOne, Counted, RunMoves;
    hide Spawned, Extends;
    StepExtends(s, p, e, t);
    WorkersAfter(s, p, e, t);
    StepKeepsProcess(s, p, e, t);
    if k in s.workers {
      assert WorkerOk(s, k);
      if k.process == p { OwnWorkerOk(s, p, e, t, k); } else { SameWorkerOk(s, t, k); }
    } else {
      NewWorkerOk(s, p, e, t, k);
    }
  }

  lemma StepKeepsCounts(s: State, p: nat, e: RunEffect, t: State, r: nat)
    requires Inv(s) && RunStep(s, p, e, t) && r < |t.runs|
    ensures CountsOk(t, r)
  {
    hide StatusOk, WorkerOk, RunsOk, Stamp, Latest, LocksOk, Spawned;
    assert ProcessOk(s, p);
    if r < |s.runs| { assert CountsOk(s, r); }
  }

  lemma StepKeepsStatus(s: State, p: nat, e: RunEffect, t: State)
    requires Inv(s) && RunStep(s, p, e, t)
    ensures StatusOk(t)
  {
    hide CountsOk, RunsOk, Stamp, Latest, LocksOk;
  }

  // ---------------------------------------------------------------- every action, and every run of actions

  lemma LaunchKeepsLocks(s: State, p: nat, tier: Tier, servers: set<string>, t: State)
    requires LocksOk(s) && RunsOk(s) && Launched(s, p, tier, servers) == Some(t)
    ensures LocksOk(t) && RunsOk(t)
  {
    hide Stamp;
    forall u, q
      ensures HeldBy(t.processes, u, q)
              <==> HeldBy(s.processes, u, q) || (q == p && u == tier && tier !in s.locks)
    {
    }
  }

  lemma LaunchAdds(s: State, p: nat, tier: Tier, servers: set<string>, t: State)
    requires Launched(s, p, tier, servers) == Some(t)
    ensures Extends(s, t)
    ensures t.workers == s.workers && t.runs == s.runs && t.status == s.status && p !in s.processes
    ensures forall q :: q in t.processes && q != p ==> q in s.processes && t.processes[q] == s.processes[q]
    ensures forall q :: q in s.processes ==> q in t.processes && t.processes[q] == s.processes[q]
  {
  }

  lemma LaunchedOk(s: State, p: nat, tier: Tier, servers: set<string>, t: State)
    requires Launched(s, p, tier, servers) == Some(t)
    ensures p in t.processes && ProcessOk(t, p)
  {
    hide Latest;
  }

  lemma KnownProcess(s: State, k: Key)
    requires k in s.workers && WorkerOk(s, k)
    ensures k.process in s.processes
  {
  }

  lemma SameCountsOk(s: State, t: State, r: nat)
    requires r < |s.runs| && CountsOk(s, r) && t.runs == s.runs
    requires forall q :: q in s.processes ==> q in t.processes && t.processes[q] == s.processes[q]
    ensures CountsOk(t, r)
  {
  }

  lemma SameStatusOk(s: State, t: State)
    requires StatusOk(s) && t.status == s.status && t.workers == s.workers
    ensures StatusOk(t)
  {
  }

  lemma LaunchKeeps(s: State, p: nat, tier: Tier, servers: set<string>, t: State)
    requires Inv(s) && Next(s, Launch(p, tier, servers)) == Some(t)
    ensures Inv(t)
  {
    hide Launched, ProcessStep, WorkerStep, LocksOk, RunsOk, StatusOk, ProcessOk, WorkerOk, CountsOk, Extends;
    LaunchAdds(s, p, tier, servers, t);
    LaunchedOk(s, p, tier, servers, t);
    LaunchKeepsLocks(s, p, tier, servers, t);
    forall q | q in t.processes ensures ProcessOk(t, q) {
      if q != p { assert ProcessOk(s, q); SameProcessOk(s, t, q); }
    }
    forall k | k in t.workers ensures WorkerOk(t, k) {
      KnownProcess(s, k);
      SameWorkerOk(s, t, k);
    }
    forall r | 0 <= r < |t.runs| ensures CountsOk(t, r) { SameCountsOk(s, t, r); }
    SameStatusOk(s, t);
  }

  lemma SameLocksOk(s: State, t: State)
    requires LocksOk(s) && t.locks == s.locks && t.processes == s.processes
    ensures LocksOk(t)
  {
  }

  lemma TickKeeps(s: State, passed: nat, t: State)
    requires Inv(s) && Next(s, Tick(passed)) == Some(t)
    ensures Inv(t)
  {
    hide ServerOf, StatusOk, LocksOk, Stamp;
    StampMonotone(s.clock, t.clock);
    forall q | q in t.processes ensures ProcessOk(t, q) { assert ProcessOk(s, q); }
    forall k | k in t.workers ensures WorkerOk(t, k) { assert WorkerOk(s, k); }
    forall r | 0 <= r < |t.runs| ensures CountsOk(t, r) { assert CountsOk(s, r); }
    SameStatusOk(s, t);
    SameLocksOk(s, t);
  }

  lemma RunActionKeeps(s: State, p: nat, a: ProcessAction, t: State)
    requires Inv(s) && Next(s, OfProcess(p, a)) == Some(t)
    ensures Inv(t)
  {
    hide ProcessStep, AppliedRun, RunMoves, ProcessOk, WorkerOk, CountsOk, StatusOk, LocksOk, RunsOk;
    ProcessMoves(s, p, a);
    var e := ProcessStep(s, a, p, s.processes[p]).value;
    StepKeepsLocks(s, p, e, t);
    StepKeepsRuns(s, p, e, t);
    StepKeepsStatus(s, p, e, t);
    forall q | q in t.processes ensures ProcessOk(t, q) {
      if q == p { StepKeepsProcess(s, p, e, t); } else { StepKeepsOthers(s, p, e, t, q); }
    }
    forall k | k in t.workers ensures WorkerOk(t, k) { StepKeepsWorker(s, p, e, t, k); }
    forall r | 0 <= r < |t.runs| ensures CountsOk(t, r) { StepKeepsCounts(s, p, e, t, r); }
  }

  lemma NotDone(s: State, k: Key, e: Effect)
    requires k in s.workers && k.process in s.processes && Moves(s, k, s.workers[k], e.worker, e.status)
    ensures !s.workers[k].part.Done?
  {
  }

  lemma WorkerActionKeeps(s: State, k: Key, a: WorkerAction, t: State)
    requires Inv(s) && Next(s, OfWorker(k, a)) == Some(t)
    ensures Inv(t)
  {
    hide WorkerStep, Moves, ProcessOk, WorkerOk, CountsOk, StatusOk, LocksOk, RunsOk;
    WorkerMoves(s, k, a);
    var e := WorkerStep(s, a, k, s.processes[k.process].tier, s.workers[k]).value;
    MoveKeepsLocks(s, k, e, t);
    MoveKeepsStatus(s, k, e, t);
    NotDone(s, k, e);
    forall p | p in t.processes ensures ProcessOk(t, p) { MoveKeepsProcess(s, k, e, t, p); }
    forall j | j in t.workers ensures WorkerOk(t, j) { MoveKeepsWorker(s, k, e, t, j); }
  }

  lemma Kept(s: State, a: Action, t: State)
    requires Inv(s) && Next(s, a) == Some(t)
    ensures Inv(t)
  {
    hide Inv, Next;
    match a {
      case Tick(passed) => TickKeeps(s, passed, t);
      case Launch(p, tier, servers) => LaunchKeeps(s, p, tier, servers, t);
      case OfProcess(p, action) => RunActionKeeps(s, p, action, t);
      case OfWorker(k, action) => WorkerActionKeeps(s, k, action, t);
    }
  }

  lemma {:induction false} AlwaysInv(cooldown: int, clock: int, actions: seq<Action>)
    requires After(Init(cooldown, clock), actions).Some?
    ensures Inv(After(Init(cooldown, clock), actions).value)
  {
    hide Inv, Next;
    if actions == [] {
      InitOk(cooldown, clock);
    } else {
      var before := actions[..|actions| - 1];
      AlwaysInv(cooldown, clock, before);
      var s, t := After(Init(cooldown, clock), before).value, After(Init(cooldown, clock), actions).value;
      Kept(s, actions[|actions| - 1], t);
    }
  }

  // ---------------------------------------------------------------- what holds in every reachable state

  ghost predicate Reachable(s: State) {
    exists cooldown, clock, actions :: After(Init(cooldown, clock), actions) == Some(s)
  }

  lemma ReachableInv(s: State)
    requires Reachable(s)
    ensures Inv(s)
  {
    var cooldown, clock, actions :| After(Init(cooldown, clock), actions) == Some(s);
    AlwaysInv(cooldown, clock, actions);
  }

  /** Runs of one tier start in different seconds. */
  predicate NoTies(runs: seq<RunRow>) {
    forall q, r :: 0 <= q < r < |runs| && runs[q].tier == runs[r].tier ==> runs[q].stamp != runs[r].stamp
  }

  /** Every worker that attaches finds the run that spawned it, and its status rows carry that run. */
  lemma Attribution(s: State)
    requires Reachable(s) && NoTies(s.runs)
    ensures forall k :: k in s.workers && s.workers[k].attached.Some? ==>
              k.process in s.processes && s.workers[k].attached == s.processes[k.process].run
    ensures forall row :: row in s.status ==>
              && row.worker.process in s.processes && s.processes[row.worker.process].run == Some(row.run)
              && row.server == row.worker.server
              && row.run < |s.runs| && s.runs[row.run].process == row.worker.process
  {
    ReachableInv(s);
    forall k | k in s.workers && s.workers[k].attached.Some?
      ensures k.process in s.processes && s.workers[k].attached == s.processes[k.process].run
    {
      hide LocksOk, CountsOk, StatusOk, RunsOk, ServerOf, Latest;
      assert WorkerOk(s, k) && ProcessOk(s, k.process);
    }
    forall row | row in s.status
      ensures row.worker.process in s.processes && s.processes[row.worker.process].run == Some(row.run)
      ensures row.server == row.worker.server
      ensures row.run < |s.runs| && s.runs[row.run].process == row.worker.process
    {
      hide LocksOk, CountsOk, RunsOk, ServerOf, Latest;
      assert StatusRowOk(s.workers, row);
      assert WorkerOk(s, row.worker) && ProcessOk(s, row.worker.process);
    }
  }

  /** A queued worker may be given exactly the rows of its tier that share the stored second of its own run. */
  lemma AttachesExactlyToTies(s: State, k: Key, run: nat)
    requires Reachable(s) && k in s.workers && s.workers[k].part == Queued
    ensures k.process in s.processes && s.processes[k.process].run.Some? && s.processes[k.process].run.value < |s.runs|
    ensures Next(s, OfWorker(k, Attach(run))).Some?
            <==> run < |s.runs| && s.runs[run].tier == s.processes[k.process].tier
                 && s.runs[run].stamp == s.runs[s.processes[k.process].run.value].stamp
    ensures Next(s, OfWorker(k, AttachNothing)).None?
  {
    ReachableInv(s);
    hide LocksOk, CountsOk, StatusOk, ServerOf, Applied;
    assert WorkerOk(s, k) && ProcessOk(s, k.process);
    var own := s.processes[k.process].run.value;
    assert Newest(s.runs, s.processes[k.process].tier, own);
    if Newest(s.runs, s.processes[k.process].tier, run) { NewestIsOwn(s, k, run); }
    assert s.runs[own] in s.runs;
  }

  /** While a worker is not done, its run holds the tier's lock and has not counted it. */
  lemma LockOutlivesWorkers(s: State, k: Key)
    requires Reachable(s) && k in s.workers && !s.workers[k].part.Done?
    ensures k.process in s.processes
    ensures var run := s.processes[k.process];
            run.tier in s.locks && s.locks[run.tier] == k.process && k.server in run.servers - run.results.Keys
  {
    ReachableInv(s);
    hide CountsOk, StatusOk, ServerOf, RunsOk, ProcessOk;
    assert WorkerOk(s, k);
    assert HeldBy(s.processes, s.processes[k.process].tier, k.process);
  }

  /** Workers of one tier at work on one server are one worker. */
  lemma OneWorkerPerServer(s: State, j: Key, k: Key)
    requires Inv(s) && j in s.workers && k in s.workers
    requires !s.workers[j].part.Done? && !s.workers[k].part.Done? && j.server == k.server
    requires j.process in s.processes && k.process in s.processes
    requires s.processes[j.process].tier == s.processes[k.process].tier
    ensures j == k
  {
    hide CountsOk, StatusOk, ServerOf, RunsOk, ProcessOk, LocksOk;
    assert WorkerOk(s, j) && WorkerOk(s, k);
    OneActiveRun(s, j.process, k.process);
  }

  lemma CountsAdd(results: map<string, bool>)
    ensures OkCount(results) + FailedCount(results) == |results.Keys|
  {
    var ok, failed := set x | x in results && results[x], set x | x in results && !results[x];
    assert results.Keys == ok + failed;
  }

  /** The servers of a run whose worker ended well. */
  function Succeeded(s: State, p: nat): set<string>
    requires p in s.processes
  {
    set x | x in s.processes[p].servers && Key(p, x) in s.workers && s.workers[Key(p, x)].part == Done(true)
  }

  /**
   Whatever the completion order and the failures: the counts a finished run stores are the workers' own
   outcomes, one for each selected server.
   */
  lemma ResultsConserved(s: State, r: nat)
    requires Reachable(s) && r < |s.runs| && s.runs[r].counts.Some?
    ensures s.runs[r].process in s.processes
    ensures var p, (ok, failed) := s.runs[r].process, s.runs[r].counts.value;
            && ok == |Succeeded(s, p)| && ok + failed == |s.processes[p].servers|
            && forall x :: x in s.processes[p].servers ==> Key(p, x) in s.workers && s.workers[Key(p, x)].part.Done?
  {
    ReachableInv(s);
    assert CountsOk(s, r);
    var p := s.runs[r].process;
    assert ProcessOk(s, p);
    var results := s.processes[p].results;
    CountsAdd(results);
    assert Succeeded(s, p) == set x | x in results && results[x];
  }

  /** A worker leaves at most one status row, and a successful one exactly one, which says so. */
  lemma OneStatusRow(s: State, k: Key)
    requires Reachable(s) && k in s.workers
    ensures forall i, j :: 0 <= i < j < |s.status| ==> s.status[i].worker != k || s.status[j].worker != k
    ensures s.workers[k].part == Done(true) <==> exists row :: row in s.status && row.worker == k && row.ok
    ensures s.workers[k].attached.None? ==> forall row :: row in s.status ==> row.worker != k
  {
    ReachableInv(s);
    hide CountsOk, ServerOf, RunsOk, ProcessOk, LocksOk, WorkerOk;
    forall row | row in s.status ensures StatusRowOk(s.workers, row) { }
  }

  // ---------------------------------------------------------------- who leaves a failure row, and who has gone

  predicate HasFailureRow(status: seq<StatusRow>, k: Key) {
    exists row :: row in status && row.worker == k && !row.ok
  }

  /** The worker has tried to record its failure, and the database was there to take the row. */
  predicate Tried(actions: seq<Action>, k: Key) { OfWorker(k, Report(false)) in actions }

  /** Who has tried to report is past it. */
  ghost predicate ReportedPast(s: State, actions: seq<Action>) {
    forall k :: Tried(actions, k) ==> k in s.workers && s.workers[k].part in {Reported, Done(false)}
  }

  ghost predicate RowsTold(s: State, actions: seq<Action>) {
    forall k :: k in s.workers ==>
      (HasFailureRow(s.status, k) <==> Tried(actions, k) && s.workers[k].attached.Some?)
  }

  lemma NoRowBefore(s: State, k: Key)
    requires StatusOk(s) && (k in s.workers ==> s.workers[k].part !in {Reported, Done(false)})
    ensures !HasFailureRow(s.status, k)
  {
    forall row | row in s.status && row.worker == k ensures row.ok { assert StatusRowOk(s.workers, row); }
  }

  /** What an action of the worker does for its failure row. */
  ghost predicate Tells(k: Key, a: WorkerAction, w: Worker, v: Worker, rows: seq<StatusRow>) {
    && (v.attached != w.attached ==> w.part == Queued)
    && (w.part in {Reported, Done(false)} ==> v.part in {Reported, Done(false)})
    && (if a == Report(false)
        then && w.part == Failing && v.part in {Reported, Done(false)}
             && rows == if w.attached.Some? then [StatusRow(w.attached.value, k.server, false, k)] else []
        else forall row :: row in rows ==> row.ok)
  }

  lemma WorkerTells(s: State, k: Key, a: WorkerAction)
    requires k in s.workers && k.process in s.processes
    requires WorkerStep(s, a, k, s.processes[k.process].tier, s.workers[k]).Some?
    ensures var e := WorkerStep(s, a, k, s.processes[k.process].tier, s.workers[k]).value;
            Tells(k, a, s.workers[k], e.worker, e.status)
  {
    hide Newest, LastAlert, ServerOf, Stamp;
  }

  lemma MoreRows(status: seq<StatusRow>, rows: seq<StatusRow>, j: Key)
    ensures HasFailureRow(status + rows, j) <==> HasFailureRow(status, j) || HasFailureRow(rows, j)
  {
    if HasFailureRow(status, j) {
      var row :| row in status && row.worker == j && !row.ok;
      assert row in status + rows;
    }
    if HasFailureRow(rows, j) {
      var row :| row in rows && row.worker == j && !row.ok;
      assert row in status + rows;
    }
  }

  lemma RowsOfOne(k: Key, a: WorkerAction, w: Worker, v: Worker, rows: seq<StatusRow>, j: Key)
    requires Tells(k, a, w, v, rows) && (rows != [] ==> |rows| == 1 && rows[0].worker == k)
    ensures HasFailureRow(rows, j) <==> j == k && a == Report(false) && w.attached.Some?
  {
    if rows != [] { assert rows[0] in rows; }
  }

  lemma WorkerStepTold(s: State, k: Key, a: WorkerAction, e: Effect, actions: seq<Action>)
    requires StatusOk(s) && k in s.workers && ReportedPast(s, actions) && RowsTold(s, actions)
    requires Tells(k, a, s.workers[k], e.worker, e.status)
    requires e.status != [] ==> |e.status| == 1 && e.status[0].worker == k
    ensures var t, more := Applied(s, k, e), actions + [OfWorker(k, a)];
            ReportedPast(t, more) && RowsTold(t, more)
  {
    hide StatusOk, HasFailureRow;
    var t, more := Applied(s, k, e), actions + [OfWorker(k, a)];
    forall j ensures Tried(more, j) <==> Tried(actions, j) || (j == k && a == Report(false)) { }
    forall j | j in t.workers
      ensures HasFailureRow(t.status, j) <==> Tried(more, j) && t.workers[j].attached.Some?
    {
      MoreRows(s.status, e.status, j);
      RowsOfOne(k, a, s.workers[k], e.worker, e.status, j);
      if j == k && s.workers[k].part !in {Reported, Done(false)} { NoRowBefore(s, k); }
    }
  }

  lemma StatusOf(s: State)
    requires Inv(s)
    ensures StatusOk(s)
  {
  }

  ghost predicate KeepsWorkers(s: State, t: State) {
    forall k :: k in s.workers ==> k in t.workers && t.workers[k] == s.workers[k]
  }

  lemma OtherStepWorkers(s: State, a: Action, t: State)
    requires Inv(s) && Next(s, a) == Some(t) && !a.OfWorker?
    ensures t.status == s.status && KeepsWorkers(s, t)
  {
    hide Inv, ProcessStep, Spawned;
    if a.OfProcess? {
      ProcessMoves(s, a.p, a.process);
      WorkersAfter(s, a.p, ProcessStep(s, a.process, a.p, s.processes[a.p]).value, t);
    }
  }

  lemma OtherStepTold(s: State, a: Action, t: State, actions: seq<Action>)
    requires Inv(s) && ReportedPast(s, actions) && RowsTold(s, actions)
    requires Next(s, a) == Some(t) && !a.OfWorker?
    ensures ReportedPast(t, actions + [a]) && RowsTold(t, actions + [a])
  {
    hide Inv, StatusOk, ProcessStep, Launched, Spawned;
    assert StatusOk(s) by { StatusOf(s); }
    assert t.status == s.status && KeepsWorkers(s, t) by { OtherStepWorkers(s, a, t); }
    forall k | k in t.workers && k !in s.workers ensures !HasFailureRow(t.status, k) { NoRowBefore(s, k); }
  }

  lemma NothingTold(cooldown: int, clock: int)
    ensures ReportedPast(Init(cooldown, clock), []) && RowsTold(Init(cooldown, clock), [])
  {
  }

  lemma WorkerOf(s: State, k: Key)
    requires Inv(s) && k in s.workers
    ensures WorkerOk(s, k)
  {
  }

  lemma StepTold(s: State, a: Action, t: State, actions: seq<Action>)
    requires Inv(s) && ReportedPast(s, actions) && RowsTold(s, actions) && Next(s, a) == Some(t)
    ensures ReportedPast(t, actions + [a]) && RowsTold(t, actions + [a])
  {
    hide Inv, ReportedPast, RowsTold, WorkerStep, ProcessStep, Tells;
    if a.OfWorker? {
      StatusOf(s);
      WorkerOf(s, a.k);
      WorkerTells(s, a.k, a.worker);
      WorkerMoves(s, a.k, a.worker);
      var e := WorkerStep(s, a.worker, a.k, s.processes[a.k.process].tier, s.workers[a.k]).value;
      WorkerStepTold(s, a.k, a.worker, e, actions);
    } else {
      OtherStepTold(s, a, t, actions);
    }
  }

  lemma {:induction false} AlwaysTold(cooldown: int, clock: int, actions: seq<Action>)
    requires After(Init(cooldown, clock), actions).Some?
    ensures var s := After(Init(cooldown, clock), actions).value;
            ReportedPast(s, actions) && RowsTold(s, actions)
  {
    hide Inv, Next, ReportedPast, RowsTold;
    if actions == [] {
      NothingTold(cooldown, clock);
    } else {
      var n := |actions| - 1;
      AlwaysTold(cooldown, clock, actions[..n]);
      AlwaysInv(cooldown, clock, actions[..n]);
      var s, t := After(Init(cooldown, clock), actions[..n]).value, After(Init(cooldown, clock), actions).value;
      assert actions == actions[..n] + [actions[n]];
      StepTold(s, actions[n], t, actions[..n]);
    }
  }

  /**
   A worker leaves a failure row exactly when it attached to a run and its attempt to record the failure got
   through; it has ended badly, or is about to, when it does.
   */
  lemma FailureRowExactly(cooldown: int, clock: int, actions: seq<Action>, s: State, k: Key)
    requires After(Init(cooldown, clock), actions) == Some(s) && k in s.workers
    ensures HasFailureRow(s.status, k) <==> OfWorker(k, Report(false)) in actions && s.workers[k].attached.Some?
    ensures HasFailureRow(s.status, k) ==> s.workers[k].part in {Reported, Done(false)}
  {
    hide Next, Inv;
    AlwaysTold(cooldown, clock, actions);
  }

  // ---------------------------------------------------------------- the passes over one server

  lemma DoneStaysOnce(s: State, a: Action, t: State, j: Key)
    requires Inv(s) && j in s.workers && s.workers[j].part.Done? && Next(s, a) == Some(t)
    ensures j in t.workers && t.workers[j] == s.workers[j]
  {
    hide Inv, WorkerStep, ProcessStep, Moves;
    if a.OfWorker? {
      assert WorkerOk(s, a.k) by { WorkerOf(s, a.k); }
      WorkerMoves(s, a.k, a.worker);
      NotDone(s, a.k, WorkerStep(s, a.worker, a.k, s.processes[a.k.process].tier, s.workers[a.k]).value);
    } else {
      OtherStepWorkers(s, a, t);
    }
  }

  /** A worker that is done takes no further step. */
  lemma {:induction false} DoneStays(s: State, actions: seq<Action>, t: State, j: Key)
    requires Inv(s) && j in s.workers && s.workers[j].part.Done? && After(s, actions) == Some(t)
    ensures Inv(t) && j in t.workers && t.workers[j] == s.workers[j]
  {
    hide Inv, Next;
    if actions != [] {
      var n := |actions| - 1;
      var u := After(s, actions[..n]).value;
      DoneStays(s, actions[..n], u, j);
      Kept(u, actions[n], t);
      DoneStaysOnce(u, actions[n], t, j);
    }
  }

  /**
   Passes of one tier over one server never overlap: once a worker is there, every other one of its tier and
   server has finished, and takes no step from then on.
   */
  lemma PassesAreSerial(s: State, j: Key, k: Key, actions: seq<Action>, t: State)
    requires Reachable(s) && After(s, actions) == Some(t)
    requires j in s.workers && k in s.workers && j != k && j.server == k.server
    requires j.process in s.processes && k.process in s.processes
    requires s.processes[j.process].tier == s.processes[k.process].tier
    requires !s.workers[k].part.Done?
    ensures s.workers[j].part.Done? && j in t.workers && t.workers[j] == s.workers[j]
  {
    hide Inv, Next;
    ReachableInv(s);
    if !s.workers[j].part.Done? { OneWorkerPerServer(s, j, k); }
    DoneStays(s, actions, t, j);
  }

  // ---------------------------------------------------------------- when a run's own actions can happen

  ghost predicate UnderWay(s: State, tier: Tier) {
    exists p :: p in s.processes && s.processes[p].tier == tier && s.processes[p].stage in {Locked, Started, FannedOut}
  }

  /** A call gets the tier's lock exactly when no run of the tier is under way; otherwise it is skipped. */
  lemma LaunchExactly(s: State, p: nat, tier: Tier, servers: set<string>, t: State)
    requires Reachable(s) && Next(s, Launch(p, tier, servers)) == Some(t)
    ensures p !in s.processes && p in t.processes && t == s.(processes := t.processes, locks := t.locks)
    ensures t.processes[p].stage == (if UnderWay(s, tier) then Skipped else Locked)
    ensures UnderWay(s, tier) ==> t.locks == s.locks
    ensures !UnderWay(s, tier) ==> t.locks == s.locks[tier := p]
  {
    hide ProcessStep, WorkerStep, RunsOk, StatusOk, ProcessOk, WorkerOk, CountsOk;
    ReachableInv(s);
    if tier in s.locks { assert HeldBy(s.processes, tier, s.locks[tier]); }
    if UnderWay(s, tier) {
      var q :| q in s.processes && s.processes[q].tier == tier && s.processes[q].stage in {Locked, Started, FannedOut};
      assert HeldBy(s.processes, tier, q);
    }
  }

  /** The lock can be given up exactly before the fan-out, or once every selected server's result is there. */
  lemma ReleaseExactly(s: State, p: nat)
    requires p in s.processes
    ensures var run := s.processes[p];
            Next(s, OfProcess(p, Release)).Some?
            <==> run.stage in {Locked, Started} || (run.stage == FannedOut && run.results.Keys == run.servers)
    ensures forall t :: Next(s, OfProcess(p, Release)) == Some(t) ==>
              p in t.processes && t.processes[p].stage == Over && s.processes[p].tier !in t.locks
  {
    hide WorkerStep, Spawned;
  }

  /** Each finished worker's result can be taken up, once. */
  lemma GatherExactly(s: State, p: nat, server: string)
    requires Reachable(s) && p in s.processes && s.processes[p].stage == FannedOut && server in s.processes[p].servers
    ensures Key(p, server) in s.workers
    ensures Next(s, OfProcess(p, Gather(server))).Some?
            <==> s.workers[Key(p, server)].part.Done? && server !in s.processes[p].results
  {
    hide WorkerStep, Spawned, Latest, RunsOk, StatusOk, WorkerOk, CountsOk, LocksOk;
    ReachableInv(s);
    assert ProcessOk(s, p);
  }

  /** A run that has the lock inserts its row, stamped now, and then a queued worker for every selected server. */
  lemma RunStarts(s: State, p: nat, t: State, u: State)
    requires Reachable(s) && Next(s, OfProcess(p, StartRun)) == Some(t) && Next(t, OfProcess(p, FanOut)) == Some(u)
    ensures p in s.processes
    ensures t.runs == s.runs + [RunRow(s.processes[p].tier, Stamp(s.clock), p, None)]
    ensures forall x :: x in s.processes[p].servers ==>
              Key(p, x) in u.workers && u.workers[Key(p, x)] == Worker(Queued, None, Idle)
  {
    hide WorkerStep, Stamp, Inv;
  }
}
