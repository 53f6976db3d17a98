/**
 The alert cooldown under interleaving: where one tier's lookups for a fingerprint were answered and its
 deliveries logged, its successful sends keep the cooldown apart, whatever the tiers do to one another between
 check, send and log, and whatever fails for other fingerprints or the other tier.
 */
module TierAlerts {
  import opened Options
  import opened AlertLog
  import opened Fingerprints
  import opened TierProtocol
  import opened TierRuns

  const HALF: int := SECOND / 2

  /** The last logged delivery accounts for every send so far. */
  ghost predicate SeenAll(s: State, fp: string, tier: Tier, last: Option<int>) {
    && (forall x :: x in s.sends && x.fp == fp && x.tier == tier ==> last.Some? && x.at - HALF < last.value)
    && (forall y :: y in s.stored && y.fp == fp && y.tier == tier ==> last.Some? && y.stamp <= last.value)
  }

  /** A check passed at `passed` leaves every other decision's send a cooldown behind. */
  ghost predicate ClearOf(s: State, fp: string, tier: Tier, decision: nat, passed: int) {
    && (forall x :: x in s.sends && x.fp == fp && x.tier == tier && x.decision != decision ==>
          x.at - HALF + s.cooldown < passed)
    && (forall y :: y in s.stored && y.fp == fp && y.tier == tier && y.decision != decision ==>
          y.stamp + s.cooldown <= passed)
    && (forall x :: x in s.sends && x.fp == fp && x.tier == tier ==> x.decision <= decision)
  }

  /** None of the tier's lookups for the fingerprint has failed, and none of its deliveries missed the log. */
  predicate Sound(s: State, fp: string, tier: Tier) { Alarm(fp, tier) !in s.faults }

  ghost predicate AlertOk(s: State, tier: Tier, alert: Alert) {
    match alert
    case Idle => true
    case Looked(fp, last) => Sound(s, fp, tier) ==> SeenAll(s, fp, tier, last)
    case Sending(fp, decision, passed) =>
      decision < s.decisions && passed <= s.clock && (Sound(s, fp, tier) ==> ClearOf(s, fp, tier, decision, passed))
    case InFlight(fp, decision, passed, at, _) =>
      && decision < s.decisions && passed <= at <= s.clock
      && (Sound(s, fp, tier) ==> ClearOf(s, fp, tier, decision, passed))
  }

  predicate Settled(stored: seq<Stored>, x: Send) {
    exists y :: y in stored && y.fp == x.fp && y.tier == x.tier && y.stamp > x.at - HALF
  }

  /** The worker has made this send and not logged it yet. */
  predicate Carries(s: State, k: Key, x: Send) {
    && k in s.workers && k.process in s.processes && s.processes[k.process].tier == x.tier
    && s.workers[k].alert.InFlight? && s.workers[k].alert.ok
    && s.workers[k].alert.fp == x.fp && s.workers[k].alert.at == x.at
  }

  ghost predicate SettledOrCarried(s: State) {
    forall x :: x in s.sends && Sound(s, x.fp, x.tier) ==> Settled(s.stored, x) || exists k :: Carries(s, k, x)
  }

  predicate InLog(log: seq<Row>, y: Stored) {
    exists row :: row in log && Delivered(row, y.fp) && row.stamp == y.stamp
  }

  ghost predicate Numbered(s: State) {
    && (forall x :: x in s.sends ==> x.decision < s.decisions && x.at <= s.clock)
    && (forall y :: y in s.stored ==> y.decision < s.decisions && Whole(y.stamp) && InLog(s.log, y))
  }

  ghost predicate SendsSpaced(s: State) {
    forall i, j :: 0 <= i < j < |s.sends| && s.sends[i].fp == s.sends[j].fp && s.sends[i].tier == s.sends[j].tier
                   && s.sends[i].decision != s.sends[j].decision && Sound(s, s.sends[i].fp, s.sends[i].tier) ==>
      s.sends[j].at - s.sends[i].at > s.cooldown - HALF
  }

  ghost predicate StoredSpaced(s: State) {
    forall i, j :: 0 <= i < j < |s.stored| && s.stored[i].fp == s.stored[j].fp && s.stored[i].tier == s.stored[j].tier
                   && s.stored[i].decision != s.stored[j].decision && Sound(s, s.stored[i].fp, s.stored[i].tier) ==>
      s.stored[j].stamp - s.stored[i].stamp >= s.cooldown
  }

  /** A later decision of the same tier sends a cooldown after every stored stamp of an earlier one. */
  ghost predicate LaterSendsClear(s: State) {
    forall x, y :: x in s.sends && y in s.stored && x.fp == y.fp && x.tier == y.tier && y.decision < x.decision
                   && Sound(s, x.fp, x.tier) ==>
      y.stamp + s.cooldown <= x.at
  }

  ghost predicate AlertsOk(s: State) {
    && Numbered(s) && SettledOrCarried(s) && LaterSendsClear(s) && SendsSpaced(s) && StoredSpaced(s)
    && forall k :: k in s.workers && k.process in s.processes ==>
         AlertOk(s, s.processes[k.process].tier, s.workers[k].alert)
  }

  predicate CooldownOn(s: State) { s.cooldown > 0 && Whole(s.cooldown) }

  /** The cooldown is on, and nothing has kept it from working for the fingerprint in this tier. */
  predicate Guarded(s: State, fp: string, tier: Tier) { CooldownOn(s) && Sound(s, fp, tier) }

  // ---------------------------------------------------------------- the steps of one alert

  /** Another worker's sends and rows are of another tier or another fingerprint. */
  lemma OtherAlertOk(s: State, t: State, tier: Tier, alert: Alert)
    requires AlertOk(s, tier, alert) && s.clock <= t.clock && t.cooldown == s.cooldown && s.decisions <= t.decisions
    requires s.faults <= t.faults
    requires alert.Idle? || ((forall x :: x in t.sends ==> x in s.sends || x.fp != alert.fp || x.tier != tier)
                             && (forall y :: y in t.stored ==> y in s.stored || y.fp != alert.fp || y.tier != tier))
    ensures AlertOk(t, tier, alert)
  {
  }

  lemma SameFingerprintSameWorker(s: State, j: Key, k: Key)
    requires Inv(s) && j in s.workers && k in s.workers && j.process in s.processes && k.process in s.processes
    requires !s.workers[j].alert.Idle? && ServerOf(s.workers[j].alert.fp) == k.server && !s.workers[k].part.Done?
    requires s.processes[j.process].tier == s.processes[k.process].tier
    ensures j == k
  {
    hide LocksOk, RunsOk, StatusOk, ProcessOk, CountsOk, ServerOf;
    assert WorkerOk(s, j);
    OneWorkerPerServer(s, j, k);
  }

  lemma LookupSees(s: State, k: Key, fp: string)
    requires Inv(s) && AlertsOk(s) && k in s.workers && k.process in s.processes
    requires s.workers[k].part in {Working, Reported} && s.workers[k].alert.Idle? && ServerOf(fp) == k.server
    requires Sound(s, fp, s.processes[k.process].tier)
    ensures SeenAll(s, fp, s.processes[k.process].tier, LastAlert(s.log, fp))
  {
    hide Inv, ServerOf, LastAlert, AlertOk, SendsSpaced, StoredSpaced, LaterSendsClear;
    LastAlertIsNewest(s.log, fp);
    var tier := s.processes[k.process].tier;
    forall x | x in s.sends && x.fp == fp && x.tier == tier ensures Settled(s.stored, x) {
      if j :| Carries(s, j, x) { SameFingerprintSameWorker(s, j, k); }
    }
  }

  lemma JudgeClears(s: State, fp: string, tier: Tier, last: Option<int>)
    requires Numbered(s) && SeenAll(s, fp, tier, last) && (last.Some? ==> s.clock - last.value >= s.cooldown)
    ensures ClearOf(s, fp, tier, s.decisions, s.clock)
  {
  }

  lemma SendKeepsSpacing(s: State, t: State, fp: string, tier: Tier, decision: nat, passed: int)
    requires SendsSpaced(s) && passed <= s.clock && (Sound(s, fp, tier) ==> ClearOf(s, fp, tier, decision, passed))
    requires t.sends == s.sends + [Send(fp, tier, decision, s.clock)]
    requires t.cooldown == s.cooldown && s.faults <= t.faults
    ensures SendsSpaced(t)
  {
    forall i | 0 <= i < |s.sends| && s.sends[i].fp == fp && s.sends[i].tier == tier && s.sends[i].decision != decision
               && Sound(t, fp, tier)
      ensures s.clock - s.sends[i].at > s.cooldown - HALF
    {
      assert s.sends[i] in s.sends;
    }
  }

  lemma LogKeepsSpacing(s: State, t: State, fp: string, tier: Tier, decision: nat, passed: int,
                        at: int)
    requires StoredSpaced(s) && passed <= s.clock && (Sound(s, fp, tier) ==> ClearOf(s, fp, tier, decision, passed))
    requires Numbered(s) && Whole(s.cooldown)
    requires t.stored == s.stored + [Stored(fp, tier, decision, at, Stamp(s.clock))]
    requires t.cooldown == s.cooldown && s.faults <= t.faults
    ensures StoredSpaced(t)
  {
    forall i | 0 <= i < |s.stored| && s.stored[i].fp == fp && s.stored[i].tier == tier
               && s.stored[i].decision != decision && Sound(t, fp, tier)
      ensures Stamp(s.clock) - s.stored[i].stamp >= s.cooldown
    {
      assert s.stored[i] in s.stored;
      StampOfWhole(s.stored[i].stamp + s.cooldown);
      StampMonotone(s.stored[i].stamp + s.cooldown, s.clock);
    }
  }

  lemma SameSpacing(s: State, t: State)
    requires t.cooldown == s.cooldown && s.faults <= t.faults
    ensures t.sends == s.sends && SendsSpaced(s) ==> SendsSpaced(t)
    ensures t.stored == s.stored && StoredSpaced(s) ==> StoredSpaced(t)
  {
  }

  lemma LogGrows(log: seq<Row>, more: seq<Row>, y: Stored)
    requires InLog(log, y)
    ensures InLog(log + more, y)
  {
    var row :| row in log && Delivered(row, y.fp) && row.stamp == y.stamp;
    assert row in log + more;
  }

  /** An action that sends nothing and logs no delivery. */
  lemma QuietKeeps(s: State, k: Key, e: Effect, t: State)
    requires AlertsOk(s) && k in s.workers && k.process in s.processes && t == Applied(s, k, e)
    requires e.sends == [] && e.stored == []
    requires var now, was := e.worker.alert, s.workers[k].alert;
             AlertOk(t, s.processes[k.process].tier, now) && (was.InFlight? && was.ok ==> now == was)
    ensures AlertsOk(t)
  {
    hide SendsSpaced, StoredSpaced, AlertOk, InLog, Settled, LastAlert;
    assert t.sends == s.sends && t.stored == s.stored;
    SameSpacing(s, t);
    forall y | y in t.stored ensures InLog(t.log, y) { LogGrows(s.log, e.log, y); }
    forall x | x in t.sends && Sound(t, x.fp, x.tier) ensures Settled(t.stored, x) || exists j :: Carries(t, j, x) {
      if !Settled(s.stored, x) {
        var j :| Carries(s, j, x);
        assert Carries(t, j, x);
      }
    }
    forall j | j in t.workers && j.process in t.processes
      ensures AlertOk(t, t.processes[j.process].tier, t.workers[j].alert)
    {
      if j != k { OtherAlertOk(s, t, t.processes[j.process].tier, t.workers[j].alert); }
    }
  }

  /** No other worker is at this fingerprint for this tier. */
  ghost predicate Alone(s: State, k: Key, fp: string, tier: Tier) {
    forall j :: j in s.workers && j != k && j.process in s.processes && s.processes[j.process].tier == tier ==>
      s.workers[j].alert.Idle? || s.workers[j].alert.fp != fp
  }

  lemma AloneWithIt(s: State, k: Key)
    requires Inv(s) && k in s.workers && k.process in s.processes && !s.workers[k].alert.Idle?
    ensures Alone(s, k, s.workers[k].alert.fp, s.processes[k.process].tier)
  {
    hide LocksOk, RunsOk, StatusOk, ProcessOk, CountsOk, ServerOf;
    assert WorkerOk(s, k);
    forall j | j in s.workers && j != k && j.process in s.processes
               && s.processes[j.process].tier == s.processes[k.process].tier && !s.workers[j].alert.Idle?
      ensures s.workers[j].alert.fp != s.workers[k].alert.fp
    {
      if s.workers[j].alert.fp == s.workers[k].alert.fp { SameFingerprintSameWorker(s, j, k); }
    }
  }

  lemma OthersStayOk(s: State, k: Key, e: Effect, t: State, fp: string, tier: Tier)
    requires AlertsOk(s) && k in s.workers && k.process in s.processes && t == Applied(s, k, e)
    requires Alone(s, k, fp, tier)
    requires forall x :: x in e.sends ==> x.fp == fp && x.tier == tier
    requires forall y :: y in e.stored ==> y.fp == fp && y.tier == tier
    requires AlertOk(t, t.processes[k.process].tier, e.worker.alert)
    ensures forall j :: j in t.workers && j.process in t.processes ==>
              AlertOk(t, t.processes[j.process].tier, t.workers[j].alert)
  {
    hide AlertOk, Numbered, SettledOrCarried, SendsSpaced, StoredSpaced;
    forall j | j in t.workers && j.process in t.processes
      ensures AlertOk(t, t.processes[j.process].tier, t.workers[j].alert)
    {
      if j != k { OtherAlertOk(s, t, t.processes[j.process].tier, t.workers[j].alert); }
    }
  }

  lemma SendEffect(s: State, k: Key, ok: bool, e: Effect, t: State,
                   tier: Tier, fp: string, decision: nat, passed: int)
    requires Inv(s) && AlertsOk(s) && k in s.workers && k.process in s.processes && tier == s.processes[k.process].tier
    requires s.workers[k].alert == Sending(fp, decision, passed) && t == Applied(s, k, e)
    requires e.worker.alert == InFlight(fp, decision, passed, s.clock, ok)
    requires e.sends == (if ok then [Send(fp, tier, decision, s.clock)] else []) && e.stored == [] && e.log == []
    requires e.faults == {}
    ensures AlertsOk(t)
  {
    hide SendsSpaced, StoredSpaced, InLog, Settled, Inv;
    AloneWithIt(s, k);
    assert t.stored == s.stored && t.log == s.log;
    assert AlertOk(s, tier, Sending(fp, decision, passed));
    OthersStayOk(s, k, e, t, fp, tier);
    SameSpacing(s, t);
    if ok { SendKeepsSpacing(s, t, fp, tier, decision, passed); } else { assert t.sends == s.sends; }
    forall x | x in t.sends && Sound(t, x.fp, x.tier) ensures Settled(t.stored, x) || exists j :: Carries(t, j, x) {
      if x in s.sends {
        if !Settled(s.stored, x) {
          var j :| Carries(s, j, x);
          assert Carries(t, j, x);
        }
      } else {
        assert Carries(t, k, x);
      }
    }
  }

  lemma SendKeeps(s: State, k: Key, ok: bool, t: State)
    requires Inv(s) && AlertsOk(s) && Next(s, OfWorker(k, SendOn(ok))) == Some(t)
    ensures AlertsOk(t)
  {
    hide LastAlert, ServerOf, Inv;
    var w, tier := s.workers[k], s.processes[k.process].tier;
    var Sending(fp, decision, passed) := w.alert;
    var e := WorkerStep(s, SendOn(ok), k, tier, w).value;
    SendEffect(s, k, ok, e, t, tier, fp, decision, passed);
  }

  lemma LogShifts(log: seq<Row>, more: seq<Row>, y: Stored)
    requires InLog(more, y)
    ensures InLog(log + more, y)
  {
    var row :| row in more && Delivered(row, y.fp) && row.stamp == y.stamp;
    assert row in log + more;
  }

  lemma StaysSettled(stored: seq<Stored>, more: seq<Stored>, x: Send)
    requires Settled(stored, x)
    ensures Settled(stored + more, x)
  {
    var z :| z in stored && z.fp == x.fp && z.tier == x.tier && z.stamp > x.at - HALF;
    assert z in stored + more;
  }

  /** What the worker carried is settled by the row it logs, or the alarm is faulty from now on. */
  lemma LogSettles(s: State, k: Key, e: Effect, t: State, tier: Tier, y: Stored, ok: bool)
    requires SettledOrCarried(s) && k in s.workers && k.process in s.processes && t == Applied(s, k, e)
    requires tier == s.processes[k.process].tier && t.sends == s.sends
    requires s.workers[k].alert.InFlight? && s.workers[k].alert.ok == ok && s.workers[k].alert.fp == y.fp
    requires y.tier == tier && y.stamp > s.workers[k].alert.at - HALF
    requires if ok && e.faults == {} then e.stored == [y] else ok ==> e.faults == {Alarm(y.fp, tier)}
    ensures SettledOrCarried(t)
  {
    forall x | x in t.sends && Sound(t, x.fp, x.tier) ensures Settled(t.stored, x) || exists j :: Carries(t, j, x) {
      if Settled(s.stored, x) {
        StaysSettled(s.stored, e.stored, x);
      } else {
        var j :| Carries(s, j, x);
        if j == k { assert y in t.stored; } else { assert Carries(t, j, x); }
      }
    }
  }

  lemma LogEffect(s: State, k: Key, e: Effect, t: State, tier: Tier, fp: string, decision: nat,
                  passed: int, at: int, ok: bool)
    requires Inv(s) && AlertsOk(s) && k in s.workers && k.process in s.processes && tier == s.processes[k.process].tier
    requires s.workers[k].alert == InFlight(fp, decision, passed, at, ok) && t == Applied(s, k, e) && CooldownOn(s)
    requires e.worker.alert == Sending(fp, decision, passed) && e.sends == []
    requires var y := Stored(fp, tier, decision, at, Stamp(s.clock));
             if ok && e.faults == {} then e.stored == [y] && InLog(e.log, y)
             else e.stored == [] && (ok ==> e.faults == {Alarm(fp, tier)})
    ensures AlertsOk(t)
  {
    hide SendsSpaced, StoredSpaced, InLog, Inv, SettledOrCarried, Settled;
    AloneWithIt(s, k);
    assert t.sends == s.sends;
    var y := Stored(fp, tier, decision, at, Stamp(s.clock));
    StampIsNear(s.clock);
    assert AlertOk(s, tier, InFlight(fp, decision, passed, at, ok));
    OthersStayOk(s, k, e, t, fp, tier);
    SameSpacing(s, t);
    if e.stored != [] { LogKeepsSpacing(s, t, fp, tier, decision, passed, at); } else { assert t.stored == s.stored; }
    forall z | z in t.stored ensures InLog(t.log, z) {
      if z in s.stored { LogGrows(s.log, e.log, z); } else { LogShifts(s.log, e.log, z); }
    }
    LogSettles(s, k, e, t, tier, y, ok);
  }

  lemma LogKeeps(s: State, k: Key, channel: string, fails: bool, t: State)
    requires Inv(s) && AlertsOk(s) && Next(s, OfWorker(k, LogOf(channel, fails))) == Some(t) && CooldownOn(s)
    ensures AlertsOk(t)
  {
    hide LastAlert, ServerOf, Inv, AlertsOk;
    var w, tier := s.workers[k], s.processes[k.process].tier;
    var InFlight(fp, decision, passed, at, ok) := w.alert;
    var e := WorkerStep(s, LogOf(channel, fails), k, tier, w).value;
    LogEffect(s, k, e, t, tier, fp, decision, passed, at, ok);
  }

  lemma LookupKeeps(s: State, k: Key, fp: string, fails: bool, t: State)
    requires Inv(s) && AlertsOk(s) && Next(s, OfWorker(k, Lookup(fp, fails))) == Some(t) && CooldownOn(s)
    ensures AlertsOk(t)
  {
    hide LastAlert, ServerOf, Inv, AlertsOk;
    var w, tier := s.workers[k], s.processes[k.process].tier;
    var e := WorkerStep(s, Lookup(fp, fails), k, tier, w).value;
    if Sound(s, fp, tier) { LookupSees(s, k, fp); }
    assert AlertOk(t, tier, e.worker.alert);
    QuietKeeps(s, k, e, t);
  }

  lemma JudgeKeeps(s: State, k: Key, t: State)
    requires Inv(s) && AlertsOk(s) && Next(s, OfWorker(k, Judge)) == Some(t)
    ensures AlertsOk(t)
  {
    hide Inv, LastAlert, ServerOf, SettledOrCarried, SendsSpaced, StoredSpaced, InLog;
    var w, tier := s.workers[k], s.processes[k.process].tier;
    var e := WorkerStep(s, Judge, k, tier, w).value;
    assert AlertOk(s, tier, w.alert);
    if e.worker.alert.Sending? && Sound(s, w.alert.fp, tier) { JudgeClears(s, w.alert.fp, tier, w.alert.last); }
    assert AlertOk(t, tier, e.worker.alert);
    QuietKeeps(s, k, e, t);
  }

  lemma OtherActionKeeps(s: State, k: Key, a: WorkerAction, t: State)
    requires Inv(s) && AlertsOk(s) && Next(s, OfWorker(k, a)) == Some(t)
    requires !a.Lookup? && !a.Judge? && !a.SendOn? && !a.LogOf?
    ensures AlertsOk(t)
  {
    hide LastAlert, ServerOf, LocksOk, RunsOk, StatusOk, ProcessOk, CountsOk, SettledOrCarried, LaterSendsClear;
    hide SendsSpaced, StoredSpaced, Numbered, Newest, Stamp, ClearOf, SeenAll;
    var w, tier := s.workers[k], s.processes[k.process].tier;
    assert WorkerOk(s, k);
    var e := WorkerStep(s, a, k, tier, w).value;
    assert AlertOk(s, tier, w.alert);
    assert e.worker.alert == w.alert || e.worker.alert.Idle?;
    assert e.sends == [] && e.stored == [];
    OtherAlertOk(s, t, tier, e.worker.alert);
    QuietKeeps(s, k, e, t);
  }

  // ---------------------------------------------------------------- every action, and every run of actions

  lemma WorkerActionKeepsAlerts(s: State, k: Key, a: WorkerAction, t: State)
    requires Inv(s) && AlertsOk(s) && Next(s, OfWorker(k, a)) == Some(t) && CooldownOn(s)
    ensures AlertsOk(t)
  {
    hide Inv, AlertsOk, Next;
    match a {
      case Lookup(fp, fails) => LookupKeeps(s, k, fp, fails, t);
      case Judge => JudgeKeeps(s, k, t);
      case SendOn(ok) => SendKeeps(s, k, ok, t);
      case LogOf(channel, fails) => LogKeeps(s, k, channel, fails, t);
      case _ => OtherActionKeeps(s, k, a, t);
    }
  }

  /** The alert tables are as they were, and new workers are idle. */
  lemma SameAlertsOk(s: State, t: State)
    requires AlertsOk(s) && s.clock <= t.clock && t.cooldown == s.cooldown && t.decisions == s.decisions
    requires t.log == s.log && t.sends == s.sends && t.stored == s.stored && t.faults == s.faults
    requires forall p :: p in s.processes ==> p in t.processes && t.processes[p].tier == s.processes[p].tier
    requires forall k :: k in s.workers ==> k.process in s.processes && k in t.workers && t.workers[k] == s.workers[k]
    requires forall k :: k in t.workers && k !in s.workers ==> t.workers[k].alert.Idle?
    ensures AlertsOk(t)
  {
    hide SendsSpaced, StoredSpaced, InLog, Settled;
    SameSpacing(s, t);
    forall k | k in t.workers && k.process in t.processes
      ensures AlertOk(t, t.processes[k.process].tier, t.workers[k].alert)
    {
      if k in s.workers { OtherAlertOk(s, t, t.processes[k.process].tier, t.workers[k].alert); }
    }
    forall x | x in t.sends && Sound(t, x.fp, x.tier) ensures Settled(t.stored, x) || exists j :: Carries(t, j, x) {
      if !Settled(s.stored, x) {
        var j :| Carries(s, j, x);
        assert Carries(t, j, x);
      }
    }
  }

  lemma RunActionKeepsAlerts(s: State, p: nat, a: ProcessAction, t: State)
    requires Inv(s) && AlertsOk(s) && Next(s, OfProcess(p, a)) == Some(t)
    ensures AlertsOk(t)
  {
    hide AlertsOk, Inv, ProcessStep, Spawned;
    ProcessMoves(s, p, a);
    var e := ProcessStep(s, a, p, s.processes[p]).value;
    WorkersAfter(s, p, e, t);
    SameAlertsOk(s, t);
  }

  lemma LaunchKeepsAlerts(s: State, p: nat, tier: Tier, servers: set<string>, t: State)
    requires Inv(s) && AlertsOk(s) && Next(s, Launch(p, tier, servers)) == Some(t)
    ensures AlertsOk(t)
  {
    hide AlertsOk, LocksOk, RunsOk, StatusOk, ProcessOk, WorkerOk, CountsOk;
    forall k | k in s.workers ensures k.process in s.processes { KnownProcess(s, k); }
    SameAlertsOk(s, t);
  }

  lemma TickKeepsAlerts(s: State, passed: nat, t: State)
    requires Inv(s) && AlertsOk(s) && Next(s, Tick(passed)) == Some(t)
    ensures AlertsOk(t)
  {
    hide AlertsOk, LocksOk, RunsOk, StatusOk, ProcessOk, WorkerOk, CountsOk;
    forall k | k in s.workers ensures k.process in s.processes { KnownProcess(s, k); }
    SameAlertsOk(s, t);
  }

  lemma AlertsKept(s: State, a: Action, t: State)
    requires Inv(s) && AlertsOk(s) && Next(s, a) == Some(t) && CooldownOn(s)
    ensures AlertsOk(t)
  {
    hide Inv, AlertsOk, Next;
    match a {
      case Tick(passed) => TickKeepsAlerts(s, passed, t);
      case Launch(p, tier, servers) => LaunchKeepsAlerts(s, p, tier, servers, t);
      case OfProcess(p, action) => RunActionKeepsAlerts(s, p, action, t);
      case OfWorker(k, action) => WorkerActionKeepsAlerts(s, k, action, t);
    }
  }

  lemma InitAlertsOk(cooldown: int, clock: int)
    ensures AlertsOk(Init(cooldown, clock))
  {
  }

  lemma CooldownFixed(s: State, a: Action, t: State)
    requires Next(s, a) == Some(t)
    ensures t.cooldown == s.cooldown
  {
    hide ProcessStep, WorkerStep;
  }

  lemma {:induction false} AlwaysAlertsOk(cooldown: int, clock: int, actions: seq<Action>)
    requires After(Init(cooldown, clock), actions).Some? && cooldown > 0 && Whole(cooldown)
    ensures After(Init(cooldown, clock), actions).value.cooldown == cooldown
    ensures AlertsOk(After(Init(cooldown, clock), actions).value)
  {
    hide AlertsOk, Next, Inv;
    if actions == [] {
      InitAlertsOk(cooldown, clock);
    } else {
      var before, a := actions[..|actions| - 1], actions[|actions| - 1];
      var s, t := After(Init(cooldown, clock), before).value, After(Init(cooldown, clock), actions).value;
      AlwaysAlertsOk(cooldown, clock, before);
      AlwaysInv(cooldown, clock, before);
      CooldownFixed(s, a, t);
      AlertsKept(s, a, t);
    }
  }

  lemma {:induction false} CooldownOfRun(cooldown: int, clock: int, actions: seq<Action>)
    requires After(Init(cooldown, clock), actions).Some?
    ensures After(Init(cooldown, clock), actions).value.cooldown == cooldown
  {
    hide Next;
    if actions != [] {
      var before, a := actions[..|actions| - 1], actions[|actions| - 1];
      CooldownOfRun(cooldown, clock, before);
      CooldownFixed(After(Init(cooldown, clock), before).value, a, After(Init(cooldown, clock), actions).value);
    }
  }

  lemma ReachableAlertsOk(s: State)
    requires Reachable(s) && CooldownOn(s)
    ensures AlertsOk(s)
  {
    hide AlertsOk, Next;
    var cooldown, clock, actions :| After(Init(cooldown, clock), actions) == Some(s);
    CooldownOfRun(cooldown, clock, actions);
    AlwaysAlertsOk(cooldown, clock, actions);
  }

  // ---------------------------------------------------------------- the bound

  /** Sends of one tier for one fingerprint, from different decisions, keep the cooldown in every interleaving. */
  lemma CooldownHolds(s: State, fp: string, tier: Tier)
    requires Reachable(s) && Guarded(s, fp, tier)
    ensures forall i, j :: 0 <= i < j < |s.stored| && s.stored[i].fp == s.stored[j].fp == fp
                           && s.stored[i].tier == s.stored[j].tier == tier
                           && s.stored[i].decision != s.stored[j].decision ==>
              s.stored[j].stamp - s.stored[i].stamp >= s.cooldown
    ensures forall i, j :: 0 <= i < j < |s.sends| && s.sends[i].fp == s.sends[j].fp == fp
                           && s.sends[i].tier == s.sends[j].tier == tier
                           && s.sends[i].decision != s.sends[j].decision ==>
              s.sends[j].at - s.sends[i].at > s.cooldown - 500_000
  {
    ReachableAlertsOk(s);
  }

  /** The decisions whose delivery to one fingerprint was stamped between two instants. */
  function DecisionsWithin(stored: seq<Stored>, fp: string, tiers: set<Tier>, from: int, to: int): set<nat> {
    set y | y in stored && y.fp == fp && y.tier in tiers && from <= y.stamp <= to :: y.decision
  }

  lemma AtMostOne(decisions: set<nat>)
    requires forall a, b :: a in decisions && b in decisions ==> a == b
    ensures |decisions| <= 1
  {
    if a :| a in decisions { assert decisions == {a}; }
  }

  lemma OnePerTier(s: State, fp: string, tier: Tier, from: int, to: int)
    requires Reachable(s) && Guarded(s, fp, tier) && to - from < s.cooldown
    ensures |DecisionsWithin(s.stored, fp, {tier}, from, to)| <= 1
  {
    CooldownHolds(s, fp, tier);
    hide Guarded;
    var decisions := DecisionsWithin(s.stored, fp, {tier}, from, to);
    forall a, b | a in decisions && b in decisions ensures a == b {
      var i :| 0 <= i < |s.stored| && s.stored[i].fp == fp && s.stored[i].tier == tier
               && from <= s.stored[i].stamp <= to && s.stored[i].decision == a;
      var j :| 0 <= j < |s.stored| && s.stored[j].fp == fp && s.stored[j].tier == tier
               && from <= s.stored[j].stamp <= to && s.stored[j].decision == b;
    }
    AtMostOne(decisions);
  }

  /** In a window shorter than the cooldown, at most one decision per tier sends, so at most two in all. */
  lemma AtMostTwoInAll(s: State, fp: string, from: int, to: int)
    requires Reachable(s) && Guarded(s, fp, Fast) && Guarded(s, fp, Daily) && to - from < s.cooldown
    ensures |DecisionsWithin(s.stored, fp, {Fast, Daily}, from, to)| <= 2
  {
    OnePerTier(s, fp, Fast, from, to);
    OnePerTier(s, fp, Daily, from, to);
    var fast := DecisionsWithin(s.stored, fp, {Fast}, from, to);
    var daily := DecisionsWithin(s.stored, fp, {Daily}, from, to);
    assert DecisionsWithin(s.stored, fp, {Fast, Daily}, from, to) == fast + daily;
  }

  /** By the clock, a later decision keeps the whole cooldown from a send whose stamp did not round to before it. */
  lemma CooldownByClock(s: State, earlier: Stored, later: Send)
    requires Reachable(s) && Guarded(s, later.fp, later.tier) && earlier in s.stored && later in s.sends
    requires earlier.fp == later.fp && earlier.tier == later.tier && earlier.decision < later.decision
    ensures earlier.stamp + s.cooldown <= later.at
    ensures earlier.stamp >= earlier.at ==> later.at - earlier.at >= s.cooldown
  {
    hide SendsSpaced, StoredSpaced, Numbered, SettledOrCarried;
    ReachableAlertsOk(s);
  }

  /** The decisions that sent to one fingerprint between two instants, logged or not. */
  function SendersWithin(sends: seq<Send>, fp: string, tiers: set<Tier>, from: int, to: int): set<nat> {
    set x | x in sends && x.fp == fp && x.tier in tiers && from <= x.at <= to :: x.decision
  }

  /** The same by the clock, for windows half a second short of the cooldown. */
  lemma OnePerTierByClock(s: State, fp: string, tier: Tier, from: int, to: int)
    requires Reachable(s) && Guarded(s, fp, tier) && to - from <= s.cooldown - 500_000
    ensures |SendersWithin(s.sends, fp, {tier}, from, to)| <= 1
  {
    CooldownHolds(s, fp, tier);
    hide Guarded;
    var decisions := SendersWithin(s.sends, fp, {tier}, from, to);
    forall a, b | a in decisions && b in decisions ensures a == b {
      var i :| 0 <= i < |s.sends| && s.sends[i].fp == fp && s.sends[i].tier == tier
               && from <= s.sends[i].at <= to && s.sends[i].decision == a;
      var j :| 0 <= j < |s.sends| && s.sends[j].fp == fp && s.sends[j].tier == tier
               && from <= s.sends[j].at <= to && s.sends[j].decision == b;
    }
    AtMostOne(decisions);
  }

  lemma AtMostTwoByClock(s: State, fp: string, from: int, to: int)
    requires Reachable(s) && Guarded(s, fp, Fast) && Guarded(s, fp, Daily) && to - from <= s.cooldown - 500_000
    ensures |SendersWithin(s.sends, fp, {Fast, Daily}, from, to)| <= 2
  {
    OnePerTierByClock(s, fp, Fast, from, to);
    OnePerTierByClock(s, fp, Daily, from, to);
    var fast := SendersWithin(s.sends, fp, {Fast}, from, to);
    var daily := SendersWithin(s.sends, fp, {Daily}, from, to);
    assert SendersWithin(s.sends, fp, {Fast, Daily}, from, to) == fast + daily;
  }

  // ---------------------------------------------------------------- what a check knows of the other tier

  lemma {:induction false} CooldownFixedAlong(s: State, actions: seq<Action>, t: State)
    requires After(s, actions) == Some(t)
    ensures t.cooldown == s.cooldown
  {
    hide Next;
    if actions != [] {
      var n := |actions| - 1;
      var u := After(s, actions[..n]).value;
      CooldownFixedAlong(s, actions[..n], u);
      CooldownFixed(u, actions[n], t);
    }
  }

  /** The worker's lookup, at s, found this. */
  lemma LookupFinds(s: State, k: Key, fp: string, t: State)
    requires s.cooldown > 0 && Next(s, OfWorker(k, Lookup(fp, false))) == Some(t)
    ensures k in t.workers && k.process in t.processes && t.cooldown == s.cooldown
    ensures t.workers[k].alert == Looked(fp, LastAlert(s.log, fp))
  {
    hide LastAlert, ServerOf;
  }

  /** The worker's judgement, at u, of what its lookup found. */
  lemma JudgeDecides(u: State, k: Key, v: State)
    requires Next(u, OfWorker(k, Judge)) == Some(v)
    ensures k in u.workers && k in v.workers && u.workers[k].alert.Looked?
    ensures var last := u.workers[k].alert.last;
            v.workers[k].alert == if last.Some? && u.clock - last.value < u.cooldown then Idle
                                  else Sending(u.workers[k].alert.fp, u.decisions, u.clock)
  {
    hide LastAlert, ServerOf;
  }

  /**
   The cooldown law over any history. An answered lookup is judged later, whatever happens in between: the
   worker then goes on to send exactly when every delivered row of the fingerprint that was in the log at the
   lookup, of whichever tier, is the cooldown old; otherwise it drops the alert. Only a row that comes after
   the lookup goes unseen.
   */
  lemma JudgedExactly(s: State, k: Key, fp: string, t: State, actions: seq<Action>, u: State, v: State)
    requires s.cooldown > 0 && Next(s, OfWorker(k, Lookup(fp, false))) == Some(t)
    requires After(t, actions) == Some(u) && k in t.workers && k in u.workers && u.workers[k] == t.workers[k]
    requires Next(u, OfWorker(k, Judge)) == Some(v)
    ensures k in v.workers
    ensures v.workers[k].alert == Sending(fp, u.decisions, u.clock)
            <==> forall row :: row in s.log && row.fingerprint == fp && row.ok ==> row.stamp + s.cooldown <= u.clock
    ensures v.workers[k].alert == Idle
            <==> exists row :: row in s.log && row.fingerprint == fp && row.ok && row.stamp + s.cooldown > u.clock
  {
    hide Next, After, LastAlert;
    LookupFinds(s, k, fp, t);
    CooldownFixedAlong(t, actions, u);
    JudgeDecides(u, k, v);
    LastAlertIsNewest(s.log, fp);
  }

  /** With no cooldown configured every alert passes, whatever the log holds. */
  lemma WithoutCooldown(s: State, k: Key, fp: string, fails: bool, t: State, actions: seq<Action>, u: State, v: State)
    requires s.cooldown <= 0 && Next(s, OfWorker(k, Lookup(fp, fails))) == Some(t)
    requires After(t, actions) == Some(u) && k in t.workers && k in u.workers && u.workers[k] == t.workers[k]
    requires Next(u, OfWorker(k, Judge)) == Some(v)
    ensures k in v.workers && v.workers[k].alert == Sending(fp, u.decisions, u.clock)
  {
    hide After, LastAlert, ServerOf;
    assert t.workers[k].alert == Looked(fp, None);
    hide Next;
    JudgeDecides(u, k, v);
  }

  /**
   A worker that has looked can always judge or leave it, one that may send can always send, log and end, and one
   that is not done can fail between any two alerts.
   */
  lemma NeverStuck(s: State, k: Key, channel: string, ok: bool, fails: bool)
    requires k in s.workers && k.process in s.processes
    ensures s.workers[k].alert.Looked? ==>
              Next(s, OfWorker(k, Judge)).Some? && Next(s, OfWorker(k, Suppress)).Some?
    ensures s.workers[k].alert.Sending? ==>
              Next(s, OfWorker(k, SendOn(ok))).Some? && Next(s, OfWorker(k, EndAlert)).Some?
    ensures s.workers[k].alert.InFlight? ==> Next(s, OfWorker(k, LogOf(channel, fails))).Some?
    ensures !s.workers[k].part.Done? && s.workers[k].alert.Idle? ==>
              && Next(s, OfWorker(k, Crash)).Some?
              && Next(s, OfWorker(k, Crash)).value.workers[k].part == Done(false)
  {
    hide LastAlert, ServerOf;
  }

  /** A worker can look a fingerprint of its server up whenever it is between alerts, its own failure's too. */
  lemma LookupExactly(s: State, k: Key, fp: string, fails: bool)
    requires k in s.workers && k.process in s.processes
    ensures Next(s, OfWorker(k, Lookup(fp, fails))).Some?
            <==> s.workers[k].part in {Working, Reported} && s.workers[k].alert.Idle? && ServerOf(fp) == k.server
    ensures forall t :: Next(s, OfWorker(k, Lookup(fp, fails))) == Some(t) ==>
              && k in t.workers
              && t.workers[k].alert == Looked(fp, if fails || s.cooldown <= 0 then None else LastAlert(s.log, fp))
  {
    hide LastAlert, ServerOf;
  }

  /**
   What counts as a fault of a tier's alerts for a fingerprint: a lookup that failed with the cooldown on, and a
   delivered alert whose row was not stored. Nothing else does, and nothing clears it.
   */
  lemma FaultsExactly(s: State, a: Action, t: State)
    requires Next(s, a) == Some(t)
    ensures a.OfWorker? ==> a.k in s.workers && a.k.process in s.processes
    ensures a.OfWorker? && a.worker.LogOf? ==> s.workers[a.k].alert.InFlight?
    ensures t.faults == s.faults +
              if a.OfWorker? && a.worker.Lookup? && a.worker.fails && s.cooldown > 0
              then {Alarm(a.worker.fp, s.processes[a.k.process].tier)}
              else if a.OfWorker? && a.worker.LogOf? && a.worker.fails && s.workers[a.k].alert.ok
              then {Alarm(s.workers[a.k].alert.fp, s.processes[a.k.process].tier)}
              else {}
  {
    hide LastAlert, ServerOf, ProcessStep, Newest, Stamp, Spawned;
  }

  lemma LogsRow(u: State, k: Key, channel: string, v: State)
    requires Next(u, OfWorker(k, LogOf(channel, false))) == Some(v)
    ensures k in u.workers && u.workers[k].alert.InFlight?
    ensures v.log == u.log + [Row(u.workers[k].alert.fp, channel, u.workers[k].alert.ok, Stamp(u.clock))]
  {
    hide ServerOf, LastAlert;
  }

  /**
   A send and the logging of it, with anything in between: only a send that got through counts as one, and it
   leaves a delivered row; a failed one leaves a row that is not delivered and moves nobody's last alert.
   */
  lemma SentAndLogged(s: State, k: Key, ok: bool, t: State, u: State, channel: string, v: State)
    requires Next(s, OfWorker(k, SendOn(ok))) == Some(t)
    requires k in t.workers && k in u.workers && u.workers[k] == t.workers[k]
    requires Next(u, OfWorker(k, LogOf(channel, false))) == Some(v)
    ensures k in s.workers && s.workers[k].alert.Sending? && k.process in s.processes
    ensures var Sending(fp, decision, _) := s.workers[k].alert;
            && t.sends == s.sends + (if ok then [Send(fp, s.processes[k.process].tier, decision, s.clock)] else [])
            && v.log == u.log + [Row(fp, channel, ok, Stamp(u.clock))]
            && (ok ==> LastAlert(v.log, fp).Some?)
            && forall f :: !ok || f != fp ==> LastAlert(v.log, f) == LastAlert(u.log, f)
  {
    hide ServerOf;
    var Sending(fp, decision, _) := s.workers[k].alert;
    var row := Row(fp, channel, ok, Stamp(u.clock));
    LogsRow(u, k, channel, v);
    forall f | !ok || f != fp ensures LastAlert(v.log, f) == LastAlert(u.log, f) { LastAlertStep(u.log, row, f); }
    LastAlertIsNewest(v.log, fp);
    assert row in v.log && (ok ==> Delivered(row, fp));
  }
}
