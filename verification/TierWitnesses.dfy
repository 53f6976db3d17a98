/** Histories that show where the promises of TierRuns and TierAlerts stop. */
module TierWitnesses {
  import opened Options
  import opened AlertLog
  import opened Fingerprints
  import opened TierProtocol

  /** Each action takes one of the states to the next. */
  ghost predicate Follows(states: seq<State>, actions: seq<Action>) {
    && |states| == |actions| + 1
    && forall i :: 0 <= i < |actions| ==> Next(states[i], actions[i]) == Some(states[i + 1])
  }

  lemma {:induction false} FollowsIsAfter(states: seq<State>, actions: seq<Action>)
    requires Follows(states, actions)
    ensures After(states[0], actions) == Some(states[|actions|])
  {
    hide Next;
    if actions != [] { FollowsIsAfter(states[..|actions|], actions[..|actions| - 1]); }
  }

  // ---------------------------------------------------------------- two runs of a tier in one second

  /** A run that was cut short, and a second one of the tier within the same stored second. */
  function TwoInOneSecond(): seq<Action> {
    [Launch(0, Fast, {"a"}), OfProcess(0, StartRun), OfProcess(0, Release),
     Launch(1, Fast, {"a"}), OfProcess(1, StartRun), OfProcess(1, FanOut),
     OfWorker(Key(1, "a"), Attach(0))]
  }

  function Run(stage: Stage, run: Option<nat>): Process { Process(Fast, {"a"}, stage, run, map[]) }

  function T1(): State { Init(0, 0).(processes := map[0 := Run(Locked, None)], locks := map[Fast := 0]) }
  function T2(): State { T1().(processes := map[0 := Run(Started, Some(0))], runs := [RunRow(Fast, 0, 0, None)]) }
  function T3(): State { T2().(processes := map[0 := Run(Over, Some(0))], locks := map[]) }
  function T4(): State { T3().(processes := T3().processes[1 := Run(Locked, None)], locks := map[Fast := 1]) }
  function T5(): State {
    T4().(processes := T4().processes[1 := Run(Started, Some(1))], runs := T4().runs + [RunRow(Fast, 0, 1, None)])
  }
  function T6(): State {
    T5().(processes := T5().processes[1 := Run(FannedOut, Some(1))], workers := Spawned(1, {"a"}))
  }
  function T7(): State { T6().(workers := T6().workers[Key(1, "a") := Worker(Working, Some(0), Idle)]) }

  lemma NothingSpawned(p: nat)
    ensures Spawned(p, {}) == map[]
  {
  }

  lemma FirstRun()
    ensures Next(Init(0, 0), TwoInOneSecond()[0]) == Some(T1())
    ensures Next(T1(), TwoInOneSecond()[1]) == Some(T2())
    ensures Next(T2(), TwoInOneSecond()[2]) == Some(T3())
  {
    NothingSpawned(0);
    assert Stamp(0) == 0;
    assert T1().processes[0 := Run(Started, Some(0))] == T2().processes;
    assert T2().processes[0 := Run(Over, Some(0))] == T3().processes;
    assert T1().runs + [RunRow(Fast, 0, 0, None)] == T2().runs;
    assert T2().locks - {Fast} == map[];
    assert T1().workers + map[] == T1().workers && T2().workers + map[] == T2().workers;
  }

  lemma SecondRun()
    ensures Next(T3(), TwoInOneSecond()[3]) == Some(T4())
    ensures Next(T4(), TwoInOneSecond()[4]) == Some(T5())
  {
    NothingSpawned(1);
    assert Stamp(0) == 0;
    assert T4().workers + map[] == T4().workers;
    assert T3().locks[Fast := 1] == T4().locks;
  }

  lemma SecondFanOut()
    ensures Next(T5(), TwoInOneSecond()[5]) == Some(T6())
  {
    assert T5().workers + Spawned(1, {"a"}) == T6().workers;
    assert T5().processes[1 := Run(FannedOut, Some(1))] == T6().processes;
  }

  lemma NothingInserted(s: State)
    ensures s.(status := s.status + [], log := s.log + [], sends := s.sends + [], stored := s.stored + [],
               decisions := s.decisions + 0, faults := s.faults + {}) == s
  {
  }

  lemma SecondAttach()
    ensures Next(T6(), TwoInOneSecond()[6]) == Some(T7())
  {
    assert Newest(T6().runs, Fast, 0);
    NothingInserted(T6());
  }

  /** The second run's worker attaches to the first run. */
  lemma TieMisattributes()
    ensures After(Init(0, 0), TwoInOneSecond()) == Some(T7())
    ensures T7().workers[Key(1, "a")].attached == Some(0) && T7().processes[1].run == Some(1)
  {
    assert T6().processes[1] == Run(FannedOut, Some(1));
    hide Next, T1, T2, T3, T4, T5;
    FirstRun();
    SecondRun();
    SecondFanOut();
    SecondAttach();
    FollowsIsAfter([Init(0, 0), T1(), T2(), T3(), T4(), T5(), T6(), T7()], TwoInOneSecond());
  }

  // ---------------------------------------------------------------- two sends within the cooldown

  const FAST_WORKER: Key := Key(0, "s")
  const DAILY_WORKER: Key := Key(1, "s")
  const FINDING: string := "s|cpu|pct|"

  function FastRun(stage: Stage, run: Option<nat>): Process { Process(Fast, {"s"}, stage, run, map[]) }
  function DailyRun(stage: Stage, run: Option<nat>): Process { Process(Daily, {"s"}, stage, run, map[]) }

  /** Both tiers have fanned out over the one server. */
  function BothRunning(): State {
    Init(MINUTE, 0).(
      locks := map[Fast := 0, Daily := 1],
      processes := map[0 := FastRun(FannedOut, Some(0)), 1 := DailyRun(FannedOut, Some(1))],
      runs := [RunRow(Fast, 0, 0, None), RunRow(Daily, 0, 1, None)])
  }

  /** The log rows of these deliveries. */
  function RowsFor(stored: seq<Stored>): seq<Row> {
    seq(|stored|, i requires 0 <= i < |stored| => Row(stored[i].fp, "email", true, stored[i].stamp))
  }

  /** Their two workers, and what has been sent and logged. */
  function Workers(fast: Worker, daily: Worker, sends: seq<Send>, stored: seq<Stored>, decisions: nat): State {
    BothRunning().(workers := map[FAST_WORKER := fast, DAILY_WORKER := daily], sends := sends, stored := stored,
                   log := RowsFor(stored), decisions := decisions)
  }

  function At(run: nat, alert: Alert): Worker { Worker(Working, Some(run), alert) }

  function Setup(): seq<Action> {
    [Launch(0, Fast, {"s"}), OfProcess(0, StartRun), OfProcess(0, FanOut),
     Launch(1, Daily, {"s"}), OfProcess(1, StartRun), OfProcess(1, FanOut)]
  }

  /** Both check before either logs. */
  function Interleaving(): seq<Action> {
    [OfWorker(FAST_WORKER, Attach(0)), OfWorker(DAILY_WORKER, Attach(1)),
     OfWorker(FAST_WORKER, Lookup(FINDING, false)), OfWorker(DAILY_WORKER, Lookup(FINDING, false)),
     OfWorker(FAST_WORKER, Judge), OfWorker(DAILY_WORKER, Judge),
     OfWorker(FAST_WORKER, SendOn(true)), OfWorker(DAILY_WORKER, SendOn(true)),
     OfWorker(FAST_WORKER, LogOf("email", false)), OfWorker(DAILY_WORKER, LogOf("email", false))]
  }

  const QUEUED: Worker := Worker(Queued, None, Idle)
  const FAST_SEND: Send := Send(FINDING, Fast, 0, 0)
  const DAILY_SEND: Send := Send(FINDING, Daily, 1, 0)
  const FAST_STORED: Stored := Stored(FINDING, Fast, 0, 0, 0)
  const DAILY_STORED: Stored := Stored(FINDING, Daily, 1, 0, 0)

  function Step(i: nat): State
    requires i <= 10
  {
    if i == 0 then Workers(QUEUED, QUEUED, [], [], 0)
    else if i == 1 then Workers(At(0, Idle), QUEUED, [], [], 0)
    else if i == 2 then Workers(At(0, Idle), At(1, Idle), [], [], 0)
    else if i == 3 then Workers(At(0, Looked(FINDING, None)), At(1, Idle), [], [], 0)
    else if i == 4 then Workers(At(0, Looked(FINDING, None)), At(1, Looked(FINDING, None)), [], [], 0)
    else if i == 5 then Workers(At(0, Sending(FINDING, 0, 0)), At(1, Looked(FINDING, None)), [], [], 1)
    else if i == 6 then Workers(At(0, Sending(FINDING, 0, 0)), At(1, Sending(FINDING, 1, 0)), [], [], 2)
    else if i == 7 then
      Workers(At(0, InFlight(FINDING, 0, 0, 0, true)), At(1, Sending(FINDING, 1, 0)), [FAST_SEND], [], 2)
    else if i == 8 then
      Workers(At(0, InFlight(FINDING, 0, 0, 0, true)), At(1, InFlight(FINDING, 1, 0, 0, true)),
              [FAST_SEND, DAILY_SEND], [], 2)
    else if i == 9 then
      Workers(At(0, Sending(FINDING, 0, 0)), At(1, InFlight(FINDING, 1, 0, 0, true)),
              [FAST_SEND, DAILY_SEND], [FAST_STORED], 2)
    else
      Workers(At(0, Sending(FINDING, 0, 0)), At(1, Sending(FINDING, 1, 0)),
              [FAST_SEND, DAILY_SEND], [FAST_STORED, DAILY_STORED], 2)
  }

  lemma ServerIsS()
    ensures ServerOf(FINDING) == "s"
  {
    assert FINDING[1..][0] == '|';
  }

  /** One worker's action between two of these states. */
  lemma FastActs(a: WorkerAction, w: Worker, v: Worker, d: Worker, e: Effect,
      sends: seq<Send>, stored: seq<Stored>, n: nat, more: seq<Send>, also: seq<Stored>, m: nat)
    requires WorkerStep(Workers(w, d, sends, stored, n), a, FAST_WORKER, Fast, w) == Some(e)
    requires e.worker == v && e.status == [] && e.sends == more && e.stored == also && e.decided == m && e.faults == {}
    requires e.log == RowsFor(also)
    ensures Next(Workers(w, d, sends, stored, n), OfWorker(FAST_WORKER, a)) ==
              Some(Workers(v, d, sends + more, stored + also, n + m))
  {
    hide WorkerStep, ServerOf, LastAlert;
    var s := Workers(w, d, sends, stored, n);
    var t := Workers(v, d, sends + more, stored + also, n + m);
    assert FAST_WORKER in s.workers && s.workers[FAST_WORKER] == w && s.processes[0].tier == Fast;
    assert s.workers[FAST_WORKER := v] == t.workers && s.status + e.status == t.status;
    assert s.log + e.log == t.log;
    assert Applied(s, FAST_WORKER, e) == t;
  }

  lemma DailyActs(a: WorkerAction, w: Worker, v: Worker, f: Worker, e: Effect,
      sends: seq<Send>, stored: seq<Stored>, n: nat, more: seq<Send>, also: seq<Stored>, m: nat)
    requires WorkerStep(Workers(f, w, sends, stored, n), a, DAILY_WORKER, Daily, w) == Some(e)
    requires e.worker == v && e.status == [] && e.sends == more && e.stored == also && e.decided == m && e.faults == {}
    requires e.log == RowsFor(also)
    ensures Next(Workers(f, w, sends, stored, n), OfWorker(DAILY_WORKER, a)) ==
              Some(Workers(f, v, sends + more, stored + also, n + m))
  {
    hide WorkerStep, ServerOf, LastAlert;
    var s := Workers(f, w, sends, stored, n);
    var t := Workers(f, v, sends + more, stored + also, n + m);
    assert DAILY_WORKER in s.workers && s.workers[DAILY_WORKER] == w && s.processes[1].tier == Daily;
    assert s.workers[DAILY_WORKER := v] == t.workers && s.status + e.status == t.status;
    assert s.log + e.log == t.log;
    assert Applied(s, DAILY_WORKER, e) == t;
  }

  lemma FirstSteps()
    ensures forall i :: 0 <= i < 4 ==> Next(Step(i), Interleaving()[i]) == Some(Step(i + 1))
  {
    hide Next;
    ServerIsS();
    FastActs(Attach(0), QUEUED, At(0, Idle), QUEUED, Quietly(At(0, Idle)), [], [], 0, [], [], 0);
    DailyActs(Attach(1), QUEUED, At(1, Idle), At(0, Idle), Quietly(At(1, Idle)), [], [], 0, [], [], 0);
    var looked := Looked(FINDING, None);
    FastActs(Lookup(FINDING, false), At(0, Idle), At(0, looked), At(1, Idle), Quietly(At(0, looked)),
             [], [], 0, [], [], 0);
    DailyActs(Lookup(FINDING, false), At(1, Idle), At(1, looked), At(0, looked), Quietly(At(1, looked)),
              [], [], 0, [], [], 0);
  }

  lemma NextSteps()
    ensures forall i :: 4 <= i < 6 ==> Next(Step(i), Interleaving()[i]) == Some(Step(i + 1))
  {
    hide Next;
    var looked := Looked(FINDING, None);
    FastActs(Judge, At(0, looked), At(0, Sending(FINDING, 0, 0)), At(1, looked),
             Quietly(At(0, Sending(FINDING, 0, 0))).(decided := 1), [], [], 0, [], [], 1);
    DailyActs(Judge, At(1, looked), At(1, Sending(FINDING, 1, 0)), At(0, Sending(FINDING, 0, 0)),
              Quietly(At(1, Sending(FINDING, 1, 0))).(decided := 1), [], [], 1, [], [], 1);
  }

  lemma FastSends()
    ensures Next(Step(6), Interleaving()[6]) == Some(Step(7))
  {
    hide Next;
    var f := At(0, InFlight(FINDING, 0, 0, 0, true));
    FastActs(SendOn(true), At(0, Sending(FINDING, 0, 0)), f, At(1, Sending(FINDING, 1, 0)),
             Quietly(f).(sends := [FAST_SEND]), [], [], 2, [FAST_SEND], [], 0);
    assert [] + [FAST_SEND] == [FAST_SEND];
  }

  lemma DailySends()
    ensures Next(Step(7), Interleaving()[7]) == Some(Step(8))
  {
    hide Next;
    var f, d := At(0, InFlight(FINDING, 0, 0, 0, true)), At(1, InFlight(FINDING, 1, 0, 0, true));
    DailyActs(SendOn(true), At(1, Sending(FINDING, 1, 0)), d, f,
              Quietly(d).(sends := [DAILY_SEND]), [FAST_SEND], [], 2, [DAILY_SEND], [], 0);
    assert [FAST_SEND] + [DAILY_SEND] == [FAST_SEND, DAILY_SEND];
  }

  lemma LogSteps()
    ensures forall i :: 8 <= i < 10 ==> Next(Step(i), Interleaving()[i]) == Some(Step(i + 1))
  {
    hide Next;
    assert Stamp(0) == 0;
    var f, d := At(0, InFlight(FINDING, 0, 0, 0, true)), At(1, InFlight(FINDING, 1, 0, 0, true));
    var fs, ds := At(0, Sending(FINDING, 0, 0)), At(1, Sending(FINDING, 1, 0));
    var row := Row(FINDING, "email", true, 0);
    FastActs(LogOf("email", false), f, fs, d, Quietly(fs).(log := [row], stored := [FAST_STORED]),
             [FAST_SEND, DAILY_SEND], [], 2, [], [FAST_STORED], 0);
    DailyActs(LogOf("email", false), d, ds, fs, Quietly(ds).(log := [row], stored := [DAILY_STORED]),
              [FAST_SEND, DAILY_SEND], [FAST_STORED], 2, [], [DAILY_STORED], 0);
    assert [] + [FAST_STORED] == [FAST_STORED] && [FAST_STORED] + [DAILY_STORED] == [FAST_STORED, DAILY_STORED];
    assert [FAST_SEND, DAILY_SEND] + [] == [FAST_SEND, DAILY_SEND];
  }

  function S1(): State {
    Init(MINUTE, 0).(processes := map[0 := FastRun(Locked, None)], locks := map[Fast := 0])
  }
  function S2(): State {
    S1().(processes := map[0 := FastRun(Started, Some(0))], runs := [RunRow(Fast, 0, 0, None)])
  }
  function S3(): State {
    S2().(processes := map[0 := FastRun(FannedOut, Some(0))], workers := map[FAST_WORKER := QUEUED])
  }
  function S4(): State {
    S3().(processes := S3().processes[1 := DailyRun(Locked, None)], locks := map[Fast := 0, Daily := 1])
  }
  function S5(): State {
    S4().(processes := S3().processes[1 := DailyRun(Started, Some(1))],
          runs := [RunRow(Fast, 0, 0, None), RunRow(Daily, 0, 1, None)])
  }

  lemma FastSetup()
    ensures Next(Init(MINUTE, 0), Setup()[0]) == Some(S1())
    ensures Next(S1(), Setup()[1]) == Some(S2())
    ensures Next(S2(), Setup()[2]) == Some(S3())
  {
    NothingSpawned(0);
    assert Stamp(0) == 0;
    assert S1().processes[0 := FastRun(Started, Some(0))] == S2().processes;
    assert S2().processes[0 := FastRun(FannedOut, Some(0))] == S3().processes;
    assert S1().runs + [RunRow(Fast, 0, 0, None)] == S2().runs;
    assert S1().workers + map[] == S1().workers && S2().workers + Spawned(0, {"s"}) == S3().workers;
  }

  lemma DailySetup()
    ensures Next(S3(), Setup()[3]) == Some(S4())
    ensures Next(S4(), Setup()[4]) == Some(S5())
  {
    NothingSpawned(1);
    assert Stamp(0) == 0;
    assert S3().locks[Daily := 1] == S4().locks;
    assert S4().processes[1 := DailyRun(Started, Some(1))] == S5().processes;
    assert S4().runs + [RunRow(Daily, 0, 1, None)] == S5().runs;
    assert S4().workers + map[] == S4().workers;
  }

  lemma StepZero()
    ensures Step(0) == Workers(QUEUED, QUEUED, [], [], 0)
  {
  }

  lemma DailyFanOut()
    ensures Next(S5(), Setup()[5]) == Some(Step(0))
  {
    hide Step;
    var w := Workers(QUEUED, QUEUED, [], [], 0);
    assert Step(0) == w by { StepZero(); }
    assert w.log == [];
    assert S5().processes[1 := DailyRun(FannedOut, Some(1))] == w.processes;
    assert S5().workers + Spawned(1, {"s"}) == w.workers;
  }

  lemma BothSetUp()
    ensures After(Init(MINUTE, 0), Setup()) == Some(Step(0))
  {
    hide Next, Step, S1, S2, S3, S4, S5;
    FastSetup();
    DailySetup();
    DailyFanOut();
    FollowsIsAfter([Init(MINUTE, 0), S1(), S2(), S3(), S4(), S5(), Step(0)], Setup());
  }

  lemma Interleaved()
    ensures After(Step(0), Interleaving()) == Some(Step(10))
  {
    hide Next, Step, After;
    FirstSteps();
    NextSteps();
    FastSends();
    DailySends();
    LogSteps();
    FollowsIsAfter(seq(11, i requires 0 <= i < 11 => Step(i)), Interleaving());
  }

  lemma {:induction false} OneAfterAnother(s: State, first: seq<Action>, second: seq<Action>)
    requires After(s, first).Some?
    ensures After(s, first + second) == After(After(s, first).value, second)
  {
    hide Next;
    if second == [] {
      assert first + second == first;
    } else {
      var n := |second| - 1;
      assert (first + second)[..|first + second| - 1] == first + second[..n];
      OneAfterAnother(s, first, second[..n]);
    }
  }

  /** Two decisions, one of each tier, do deliver the same finding at the same moment. */
  lemma BothTiersSend()
    ensures After(Init(MINUTE, 0), Setup() + Interleaving()) == Some(Step(10))
    ensures Step(10).stored == [FAST_STORED, DAILY_STORED] && Step(10).faults == {}
    ensures FAST_STORED.decision != DAILY_STORED.decision
  {
    assert Step(10).stored == [FAST_STORED, DAILY_STORED] && Step(10).faults == {};
    hide Next, Step, After, Setup, Interleaving;
    BothSetUp();
    Interleaved();
    OneAfterAnother(Init(MINUTE, 0), Setup(), Interleaving());
  }

  // ---------------------------------------------------------------- two sends of one tier, too close by the clock

  const EARLY: int := 499_999
  const EARLY_STORED: Stored := Stored(FINDING, Fast, 0, EARLY, 0)

  /** One fast run, its one worker, and what has been sent and logged by now. */
  function Alone(clock: int, w: Worker, sends: seq<Send>, stored: seq<Stored>, decisions: nat): State {
    S3().(clock := clock, workers := map[FAST_WORKER := w], sends := sends, stored := stored,
          log := RowsFor(stored), decisions := decisions)
  }

  /** Sent and logged just before the half second; checked again a cooldown after the second began. */
  function TooSoon(): seq<Action> {
    [Tick(EARLY),
     OfWorker(FAST_WORKER, Attach(0)), OfWorker(FAST_WORKER, Lookup(FINDING, false)), OfWorker(FAST_WORKER, Judge),
     OfWorker(FAST_WORKER, SendOn(true)), OfWorker(FAST_WORKER, LogOf("email", false)), OfWorker(FAST_WORKER, EndAlert),
     Tick(MINUTE - EARLY),
     OfWorker(FAST_WORKER, Lookup(FINDING, false)), OfWorker(FAST_WORKER, Judge), OfWorker(FAST_WORKER, SendOn(true))]
  }

  function Soon(i: nat): State
    requires i <= 11
  {
    var first, second := Send(FINDING, Fast, 0, EARLY), Send(FINDING, Fast, 1, MINUTE);
    if i == 0 then Alone(0, QUEUED, [], [], 0)
    else if i == 1 then Alone(EARLY, QUEUED, [], [], 0)
    else if i == 2 then Alone(EARLY, At(0, Idle), [], [], 0)
    else if i == 3 then Alone(EARLY, At(0, Looked(FINDING, None)), [], [], 0)
    else if i == 4 then Alone(EARLY, At(0, Sending(FINDING, 0, EARLY)), [], [], 1)
    else if i == 5 then Alone(EARLY, At(0, InFlight(FINDING, 0, EARLY, EARLY, true)), [first], [], 1)
    else if i == 6 then Alone(EARLY, At(0, Sending(FINDING, 0, EARLY)), [first], [EARLY_STORED], 1)
    else if i == 7 then Alone(EARLY, At(0, Idle), [first], [EARLY_STORED], 1)
    else if i == 8 then Alone(MINUTE, At(0, Idle), [first], [EARLY_STORED], 1)
    else if i == 9 then Alone(MINUTE, At(0, Looked(FINDING, Some(0))), [first], [EARLY_STORED], 1)
    else if i == 10 then Alone(MINUTE, At(0, Sending(FINDING, 1, MINUTE)), [first], [EARLY_STORED], 2)
    else Alone(MINUTE, At(0, InFlight(FINDING, 1, MINUTE, MINUTE, true)), [first, second], [EARLY_STORED], 2)
  }

  lemma AloneActs(a: WorkerAction, clock: int, w: Worker, v: Worker, e: Effect,
      sends: seq<Send>, stored: seq<Stored>, n: nat, more: seq<Send>, also: seq<Stored>, m: nat)
    requires WorkerStep(Alone(clock, w, sends, stored, n), a, FAST_WORKER, Fast, w) == Some(e)
    requires e.worker == v && e.status == [] && e.sends == more && e.stored == also && e.decided == m && e.faults == {}
    requires e.log == RowsFor(also)
    ensures Next(Alone(clock, w, sends, stored, n), OfWorker(FAST_WORKER, a)) ==
              Some(Alone(clock, v, sends + more, stored + also, n + m))
  {
    hide WorkerStep, ServerOf, LastAlert;
    var s := Alone(clock, w, sends, stored, n);
    var t := Alone(clock, v, sends + more, stored + also, n + m);
    assert s.workers[FAST_WORKER] == w && s.processes[0].tier == Fast;
    assert s.workers[FAST_WORKER := v] == t.workers && s.status + e.status == t.status;
    assert s.log + e.log == t.log;
    assert Applied(s, FAST_WORKER, e) == t;
  }

  lemma SoonChecks()
    ensures forall i :: 0 <= i < 4 ==> Next(Soon(i), TooSoon()[i]) == Some(Soon(i + 1))
  {
    ServerIsS();
    assert Next(Soon(0), Tick(EARLY)) == Some(Soon(1));
    hide Next;
    var looked, sending := At(0, Looked(FINDING, None)), At(0, Sending(FINDING, 0, EARLY));
    AloneActs(Attach(0), EARLY, QUEUED, At(0, Idle), Quietly(At(0, Idle)), [], [], 0, [], [], 0);
    AloneActs(Lookup(FINDING, false), EARLY, At(0, Idle), looked, Quietly(looked), [], [], 0, [], [], 0);
    AloneActs(Judge, EARLY, looked, sending, Quietly(sending).(decided := 1), [], [], 0, [], [], 1);
  }

  lemma SoonSends()
    ensures forall i :: 4 <= i < 6 ==> Next(Soon(i), TooSoon()[i]) == Some(Soon(i + 1))
  {
    assert Stamp(EARLY) == 0;
    hide Next;
    var first := Send(FINDING, Fast, 0, EARLY);
    var sending, flying := At(0, Sending(FINDING, 0, EARLY)), At(0, InFlight(FINDING, 0, EARLY, EARLY, true));
    AloneActs(SendOn(true), EARLY, sending, flying, Quietly(flying).(sends := [first]), [], [], 1, [first], [], 0);
    AloneActs(LogOf("email", false), EARLY, flying, sending,
              Quietly(sending).(log := [Row(FINDING, "email", true, 0)], stored := [EARLY_STORED]),
              [first], [], 1, [], [EARLY_STORED], 0);
    assert [] + [first] == [first] && [first] + [] == [first] && [] + [EARLY_STORED] == [EARLY_STORED];
  }

  lemma SoonWaits()
    ensures forall i :: 6 <= i < 8 ==> Next(Soon(i), TooSoon()[i]) == Some(Soon(i + 1))
  {
    assert Next(Soon(7), Tick(MINUTE - EARLY)) == Some(Soon(8));
    hide Next;
    var first := Send(FINDING, Fast, 0, EARLY);
    AloneActs(EndAlert, EARLY, At(0, Sending(FINDING, 0, EARLY)), At(0, Idle), Quietly(At(0, Idle)),
              [first], [EARLY_STORED], 1, [], [], 0);
    assert [first] + [] == [first] && [EARLY_STORED] + [] == [EARLY_STORED];
  }

  lemma SoonSendsAgain()
    ensures forall i :: 8 <= i < 11 ==> Next(Soon(i), TooSoon()[i]) == Some(Soon(i + 1))
  {
    ServerIsS();
    LastAlertStep([], Row(FINDING, "email", true, 0), FINDING);
    hide Next;
    var first, second := Send(FINDING, Fast, 0, EARLY), Send(FINDING, Fast, 1, MINUTE);
    var looked, sending := At(0, Looked(FINDING, Some(0))), At(0, Sending(FINDING, 1, MINUTE));
    var flying := At(0, InFlight(FINDING, 1, MINUTE, MINUTE, true));
    assert LastAlert(Alone(MINUTE, At(0, Idle), [first], [EARLY_STORED], 1).log, FINDING) == Some(0);
    AloneActs(Lookup(FINDING, false), MINUTE, At(0, Idle), looked, Quietly(looked),
              [first], [EARLY_STORED], 1, [], [], 0);
    AloneActs(Judge, MINUTE, looked, sending, Quietly(sending).(decided := 1), [first], [EARLY_STORED], 1, [], [], 1);
    AloneActs(SendOn(true), MINUTE, sending, flying, Quietly(flying).(sends := [second]),
              [first], [EARLY_STORED], 2, [second], [], 0);
    assert [first] + [] == [first] && [EARLY_STORED] + [] == [EARLY_STORED] && [first] + [second] == [first, second];
  }

  lemma S3Reached()
    ensures After(Init(MINUTE, 0), Setup()[..3]) == Some(S3())
  {
    hide Next, S1, S2, S3;
    FastSetup();
    FollowsIsAfter([Init(MINUTE, 0), S1(), S2(), S3()], Setup()[..3]);
  }

  lemma FastRunning()
    ensures After(Init(MINUTE, 0), Setup()[..3]) == Some(Soon(0))
  {
    assert S3() == Soon(0);
    S3Reached();
  }

  /** Nothing fails, both sends are of the fast tier, and they are less than the cooldown apart. */
  lemma SendsCanBeCloser()
    ensures After(Init(MINUTE, 0), Setup()[..3] + TooSoon()) == Some(Soon(11))
    ensures var s := Soon(11);
            && s.faults == {} && s.cooldown == MINUTE
            && s.sends == [Send(FINDING, Fast, 0, EARLY), Send(FINDING, Fast, 1, MINUTE)]
            && s.sends[1].at - s.sends[0].at < s.cooldown
  {
    assert Soon(11).faults == {} && Soon(11).cooldown == MINUTE;
    assert Soon(11).sends == [Send(FINDING, Fast, 0, EARLY), Send(FINDING, Fast, 1, MINUTE)];
    hide Next, Soon, After, Setup;
    FastRunning();
    SoonChecks();
    SoonSends();
    SoonWaits();
    SoonSendsAgain();
    FollowsIsAfter(seq(12, i requires 0 <= i < 12 => Soon(i)), TooSoon());
    OneAfterAnother(Init(MINUTE, 0), Setup()[..3], TooSoon());
  }

  // ---------------------------------------------------------------- a failure nobody records

  /** The worker cannot read which run it belongs to, fails, and reports; the database takes every row it can. */
  function Unattached(): seq<Action> {
    [OfWorker(FAST_WORKER, AttachFails), OfWorker(FAST_WORKER, Report(false)), OfProcess(0, Gather("s"))]
  }

  function U1(): State { S3().(workers := map[FAST_WORKER := Worker(Failing, None, Idle)]) }
  function U2(): State { S3().(workers := map[FAST_WORKER := Worker(Done(false), None, Idle)]) }
  function U3(): State {
    U2().(processes := map[0 := Process(Fast, {"s"}, FannedOut, Some(0), map["s" := false])])
  }

  lemma S3Is()
    ensures S3().workers == map[FAST_WORKER := QUEUED] && S3().status == []
    ensures S3().processes == map[0 := FastRun(FannedOut, Some(0))] && S3().runs == [RunRow(Fast, 0, 0, None)]
  {
  }

  lemma UnattachedFails()
    ensures Next(S3(), Unattached()[0]) == Some(U1())
    ensures Next(U1(), Unattached()[1]) == Some(U2())
  {
    hide S3;
    S3Is();
    assert S3().workers == map[FAST_WORKER := QUEUED] && S3().processes[0].tier == Fast;
    assert S3().workers[FAST_WORKER := Worker(Failing, None, Idle)] == U1().workers;
    assert U1().workers[FAST_WORKER := Worker(Done(false), None, Idle)] == U2().workers;
    NothingInserted(S3());
  }

  lemma UnattachedGathered()
    ensures Next(U2(), Unattached()[2]) == Some(U3())
  {
    hide S3;
    S3Is();
    NothingSpawned(0);
    assert U2().workers + map[] == U2().workers;
    assert map["s" := false] == (map[])["s" := false];
    assert U2().processes[0 := U3().processes[0]] == U3().processes;
  }

  /** The run counts its failure, and no status row says so. */
  lemma FailureUnrecorded()
    ensures After(Init(MINUTE, 0), Setup()[..3] + Unattached()) == Some(U3())
    ensures U3().processes[0].results == map["s" := false] && U3().status == []
  {
    assert U3().processes[0].results == map["s" := false];
    S3Is();
    assert U3().status == S3().status;
    hide Next, S1, S2, S3, U1, U2, U3, After;
    S3Reached();
    UnattachedFails();
    UnattachedGathered();
    FollowsIsAfter([S3(), U1(), U2(), U3()], Unattached());
    OneAfterAnother(Init(MINUTE, 0), Setup()[..3], Unattached());
  }
}
