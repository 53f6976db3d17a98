/**
 Runs of both tiers over one repository (runner.py, router.py, repository.py) as a state machine. One action
 is one database call, one send or one hand-over between threads; actions of different runs and workers
 interleave in any order, any of them may fail, and the clock never goes back.
 */
module TierProtocol {
  import opened Options
  import opened AlertLog
  import opened Fingerprints

  datatype Tier = Fast | Daily

  datatype Key = Key(process: nat, server: string)

  /** Where one call of `run_tier` is. */
  datatype Stage = Skipped | Locked | Started | FannedOut | Over

  datatype Process = Process(tier: Tier, servers: set<string>, stage: Stage, run: Option<nat>,
                             results: map<string, bool>)

  /** Where one call of `_collect_server` is. */
  datatype Part = Queued | Working | Failing | Reported | Done(ok: bool)

  /** Where a worker is in the check, send, log sequence for one finding. */
  datatype Alert =
    | Idle
    | Looked(fp: string, last: Option<int>)
    | Sending(fp: string, decision: nat, passed: int)
    | InFlight(fp: string, decision: nat, passed: int, at: int, ok: bool)

  datatype Worker = Worker(part: Part, attached: Option<nat>, alert: Alert)

  /** A row of `runs`; its position stands for its run_id, and `process` is who inserted it. */
  datatype RunRow = RunRow(tier: Tier, stamp: int, process: nat, counts: Option<(nat, nat)>)

  /** A row of `server_status`; `worker` is who inserted it. */
  datatype StatusRow = StatusRow(run: nat, server: string, ok: bool, worker: Key)

  /** One tier's alerts for one fingerprint. */
  datatype Alarm = Alarm(fp: string, tier: Tier)

  /** A successful send, and a delivered alert's row in `alert_log` with the instant it was sent at. */
  datatype Send = Send(fp: string, tier: Tier, decision: nat, at: int)
  datatype Stored = Stored(fp: string, tier: Tier, decision: nat, at: int, stamp: int)

  datatype State = State(
    cooldown: int,
    clock: int,
    locks: map<Tier, nat>,
    processes: map<nat, Process>,
    workers: map<Key, Worker>,
    runs: seq<RunRow>,
    status: seq<StatusRow>,
    log: seq<Row>,
    sends: seq<Send>,
    stored: seq<Stored>,
    decisions: nat,
    /** Where a lookup failed or a delivered alert did not reach the log. */
    faults: set<Alarm>)

  datatype ProcessAction =
    | StartRun
    | FanOut
    | Gather(server: string)
    | FinishRun
    | Release

  datatype WorkerAction =
    | ConnectFails
    | Attach(run: nat)
    | AttachNothing
    | AttachFails
    | Lookup(fp: string, fails: bool)
    | Judge
    | Suppress
    | SendOn(ok: bool)
    | LogOf(channel: string, fails: bool)
    | EndAlert
    | Succeed
    | Raise
    | Report(fails: bool)
    | EndFailure
    | Crash

  datatype Action =
    | Tick(passed: nat)
    | Launch(p: nat, tier: Tier, servers: set<string>)
    | OfProcess(p: nat, process: ProcessAction)
    | OfWorker(k: Key, worker: WorkerAction)

  predicate Holding(stage: Stage) { stage in {Locked, Started, FannedOut} }

  /** SELECT TOP (1) run_id ... WHERE tier = ? ORDER BY started_utc DESC may return any such row. */
  predicate Newest(runs: seq<RunRow>, tier: Tier, run: nat) {
    && run < |runs| && runs[run].tier == tier
    && forall r :: 0 <= r < |runs| && runs[r].tier == tier ==> runs[r].stamp <= runs[run].stamp
  }

  function OkCount(results: map<string, bool>): nat { |set x | x in results && results[x]| }
  function FailedCount(results: map<string, bool>): nat { |set x | x in results && !results[x]| }

  /** sp_getapplock with no waiting: a run that finds the tier's lock taken is skipped. */
  function Launched(s: State, p: nat, tier: Tier, servers: set<string>): Option<State> {
    if p in s.processes || servers == {} then None
    else if tier in s.locks then Some(s.(processes := s.processes[p := Process(tier, servers, Skipped, None, map[])]))
    else Some(s.(processes := s.processes[p := Process(tier, servers, Locked, None, map[])],
                 locks := s.locks[tier := p]))
  }

  /** What one action of a run does: its own next state, the run rows, and the workers it spawns. */
  datatype RunEffect = RunEffect(process: Process, runs: seq<RunRow>, spawned: set<string>)

  /** pool.submit for every selected server. */
  function Spawned(p: nat, servers: set<string>): (workers: map<Key, Worker>)
    ensures forall k :: k in workers <==> k.process == p && k.server in servers
    ensures forall k :: k in workers ==> workers[k] == Worker(Queued, None, Idle)
  {
    map x | x in servers :: Key(p, x) := Worker(Queued, None, Idle)
  }

  function AppliedRun(s: State, p: nat, e: RunEffect): State {
    s.(processes := s.processes[p := e.process],
       locks := if Holding(e.process.stage) then s.locks else s.locks - {e.process.tier},
       runs := e.runs,
       workers := s.workers + Spawned(p, e.spawned))
  }

  function ProcessStep(s: State, a: ProcessAction, p: nat, process: Process): Option<RunEffect> {
    match a
    case StartRun =>
      if process.stage != Locked then None
      else Some(RunEffect(process.(stage := Started, run := Some(|s.runs|)),
                          s.runs + [RunRow(process.tier, Stamp(s.clock), p, None)], {}))
    case FanOut =>
      if process.stage != Started then None
      else Some(RunEffect(process.(stage := FannedOut), s.runs, process.servers))
    case Gather(server) =>
      if process.stage == FannedOut && Key(p, server) in s.workers && s.workers[Key(p, server)].part.Done?
         && server in process.servers && server !in process.results
      then
        var ok := s.workers[Key(p, server)].part.ok;
        Some(RunEffect(process.(results := process.results[server := ok]), s.runs, {}))
      else None
    case FinishRun =>
      if process.stage == FannedOut && process.results.Keys == process.servers
         && process.run.Some? && process.run.value < |s.runs| && s.runs[process.run.value].counts.None?
      then
        var row := s.runs[process.run.value];
        var counts := (OkCount(process.results), FailedCount(process.results));
        Some(RunEffect(process, s.runs[process.run.value := row.(counts := Some(counts))], {}))
      else None
    case Release =>
      // The lock goes on every way out; the pool's exit has waited for every worker.
      if process.stage in {Locked, Started} || (process.stage == FannedOut && process.results.Keys == process.servers)
      then Some(RunEffect(process.(stage := Over), s.runs, {}))
      else None
  }

  /** What one action of a worker does: its own next state, and the rows it inserts. */
  datatype Effect = Effect(worker: Worker, status: seq<StatusRow>, log: seq<Row>, sends: seq<Send>,
                           stored: seq<Stored>, decided: nat, faults: set<Alarm>)

  function Applied(s: State, k: Key, e: Effect): State {
    s.(workers := s.workers[k := e.worker],
       status := s.status + e.status,
       log := s.log + e.log,
       sends := s.sends + e.sends,
       stored := s.stored + e.stored,
       decisions := s.decisions + e.decided,
       faults := s.faults + e.faults)
  }

  function Quietly(worker: Worker): Effect { Effect(worker, [], [], [], [], 0, {}) }

  function WorkerStep(s: State, a: WorkerAction, k: Key, tier: Tier, w: Worker): Option<Effect> {
    match a
    case ConnectFails =>
      if w.part == Queued then Some(Quietly(w.(part := Done(false)))) else None
    case Attach(run) =>
      if w.part == Queued && Newest(s.runs, tier, run)
      then Some(Quietly(w.(part := Working, attached := Some(run)))) else None
    case AttachNothing =>
      // No run row of the tier: the run id stays "-".
      if w.part == Queued && forall row :: row in s.runs ==> row.tier != tier
      then Some(Quietly(w.(part := Working))) else None
    case AttachFails =>
      if w.part == Queued then Some(Quietly(w.(part := Failing))) else None
    case Lookup(fp, fails) =>
      if w.part !in {Working, Reported} || !w.alert.Idle? || ServerOf(fp) != k.server then None
      else if s.cooldown <= 0 then Some(Quietly(w.(alert := Looked(fp, None))))
      else if fails then Some(Quietly(w.(alert := Looked(fp, None))).(faults := {Alarm(fp, tier)}))
      else Some(Quietly(w.(alert := Looked(fp, LastAlert(s.log, fp)))))
    case Judge =>
      if !w.alert.Looked? then None
      else if w.alert.last.Some? && s.clock - w.alert.last.value < s.cooldown then Some(Quietly(w.(alert := Idle)))
      else Some(Quietly(w.(alert := Sending(w.alert.fp, s.decisions, s.clock))).(decided := 1))
    case Suppress =>
      if w.alert.Looked? then Some(Quietly(w.(alert := Idle))) else None
    case SendOn(ok) =>
      if !w.alert.Sending? then None
      else
        var Sending(fp, decision, passed) := w.alert;
        Some(Quietly(w.(alert := InFlight(fp, decision, passed, s.clock, ok)))
             .(sends := if ok then [Send(fp, tier, decision, s.clock)] else []))
    case LogOf(channel, fails) =>
      if !w.alert.InFlight? then None
      else
        var InFlight(fp, decision, passed, at, ok) := w.alert;
        var next := Quietly(w.(alert := Sending(fp, decision, passed)));
        if fails then Some(next.(faults := if ok then {Alarm(fp, tier)} else {}))
        else Some(next.(log := [Row(fp, channel, ok, Stamp(s.clock))],
                        stored := if ok then [Stored(fp, tier, decision, at, Stamp(s.clock))] else []))
    case EndAlert =>
      if w.alert.Sending? then Some(Quietly(w.(alert := Idle))) else None
    case Succeed =>
      if w.part != Working || !w.alert.Idle? || w.attached.None? then None
      else Some(Quietly(w.(part := Done(true))).(status := [StatusRow(w.attached.value, k.server, true, k)]))
    case Raise =>
      if w.part == Working && (w.alert.Idle? || w.alert.Looked?)
      then Some(Quietly(w.(part := Failing, alert := Idle))) else None
    case Report(fails) =>
      if w.part != Failing then None
      // The run id "-" of a worker that never attached is no UNIQUEIDENTIFIER: its row is refused.
      else if fails || w.attached.None? then Some(Quietly(w.(part := Done(false))))
      else Some(Quietly(w.(part := Reported)).(status := [StatusRow(w.attached.value, k.server, false, k)]))
    case EndFailure =>
      if w.part == Reported && (w.alert.Idle? || w.alert.Looked?)
      then Some(Quietly(w.(part := Done(false), alert := Idle))) else None
    case Crash =>
      if !w.part.Done? && w.alert.Idle? then Some(Quietly(w.(part := Done(false)))) else None
  }

  /** The state after the action, where the action can happen. */
  function Next(s: State, a: Action): Option<State> {
    match a
    case Tick(passed) => Some(s.(clock := s.clock + passed))
    case Launch(p, tier, servers) => Launched(s, p, tier, servers)
    case OfProcess(p, action) =>
      if p !in s.processes then None
      else
        (match ProcessStep(s, action, p, s.processes[p])
         case Some(effect) => Some(AppliedRun(s, p, effect))
         case None => None)
    case OfWorker(k, action) =>
      if k !in s.workers || k.process !in s.processes then None
      else
        (match WorkerStep(s, action, k, s.processes[k.process].tier, s.workers[k])
         case Some(effect) => Some(Applied(s, k, effect))
         case None => None)
  }

  function Init(cooldown: int, clock: int): State {
    State(cooldown, clock, map[], map[], map[], [], [], [], [], [], 0, {})
  }

  /** The state after a whole sequence of actions, where all of them can happen. */
  function After(s: State, actions: seq<Action>): Option<State> {
    if actions == [] then Some(s)
    else
      match After(s, actions[..|actions| - 1])
      case None => None
      case Some(before) => Next(before, actions[|actions| - 1])
  }
}
