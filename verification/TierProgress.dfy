/**
 Whatever has happened and failed, a run under way can be brought to its end: no interleaving leaves a worker
 that cannot finish, a result that cannot be taken up, or a tier lock that cannot be given back.
 */
module TierProgress {
  import opened Options
  import opened AlertLog
  import opened Fingerprints
  import opened TierProtocol
  import opened TierRuns

  lemma {:induction false} AfterMore(s: State, first: seq<Action>, t: State, second: seq<Action>, u: State)
    requires After(s, first) == Some(t) && After(t, second) == Some(u)
    ensures After(s, first + second) == Some(u)
  {
    hide Next;
    if second == [] {
      assert first + second == first;
    } else {
      var n := |second| - 1;
      AfterMore(s, first, t, second[..n], After(t, second[..n]).value);
      assert (first + second)[..|first + second| - 1] == first + second[..n];
    }
  }

  lemma AfterOne(s: State, a: Action, t: State)
    requires Next(s, a) == Some(t)
    ensures After(s, [a]) == Some(t)
  {
    assert [a][..0] == [];
    assert After(s, []) == Some(s);
  }

  // ---------------------------------------------------------------- one worker

  /** How far a worker is from its end at most. */
  function Rank(w: Worker): nat {
    (match w.part
     case Done(_) => 0
     case Working => 2
     case _ => 1) +
    match w.alert
    case Sending(_, _, _) => 1
    case InFlight(_, _, _, _, _) => 2
    case _ => 0
  }

  /** Only this worker's own state and what it inserted have changed. */
  ghost predicate OnlyWorker(s: State, t: State, k: Key) {
    && t.processes == s.processes && t.runs == s.runs && t.locks == s.locks
    && k in t.workers && t.workers.Keys == s.workers.Keys
    && forall j :: j in s.workers && j != k ==> t.workers[j] == s.workers[j]
  }

  /** An unfinished worker has a step that takes it nearer to its end. */
  lemma WorkerCanMove(s: State, k: Key) returns (a: WorkerAction, t: State)
    requires k in s.workers && WorkerOk(s, k) && !s.workers[k].part.Done?
    ensures Next(s, OfWorker(k, a)) == Some(t)
    ensures OnlyWorker(s, t, k) && Rank(t.workers[k]) < Rank(s.workers[k])
  {
    hide ServerOf, LastAlert, Stamp, Newest;
    var w := s.workers[k];
    a := match w.alert
         case InFlight(_, _, _, _, _) => LogOf("", true)
         case Sending(_, _, _) => EndAlert
         case _ =>
           match w.part
           case Queued => ConnectFails
           case Working => Raise
           case Failing => Report(true)
           case _ => EndFailure;
    t := Next(s, OfWorker(k, a)).value;
  }

  /** No action at all is a history too. */
  lemma Standing(s: State)
    ensures After(s, []) == Some(s)
  {
  }

  lemma {:induction false} WorkerCanEnd(s: State, k: Key) returns (actions: seq<Action>, t: State)
    requires Inv(s) && k in s.workers
    ensures After(s, actions) == Some(t) && Inv(t)
    ensures OnlyWorker(s, t, k) && t.workers[k].part.Done?
    decreases Rank(s.workers[k])
  {
    hide Inv, Next, After;
    if s.workers[k].part.Done? {
      Standing(s);
      actions, t := [], s;
    } else {
      WorkerOf(s, k);
      var a, u := WorkerCanMove(s, k);
      Kept(s, OfWorker(k, a), u);
      AfterOne(s, OfWorker(k, a), u);
      var more;
      more, t := WorkerCanEnd(u, k);
      AfterMore(s, [OfWorker(k, a)], u, more, t);
      actions := [OfWorker(k, a)] + more;
    }
  }

  /**
   An exception outside a send ends an attached worker's pass, and it can leave its failure row and go on with the
   alert about that: the row carries the run it attached to.
   */
  lemma FailureCanBeRecorded(s: State, k: Key) returns (t: State, u: State, v: State)
    requires k in s.workers && k.process in s.processes
    requires s.workers[k].part == Working && s.workers[k].attached.Some?
    requires s.workers[k].alert.Idle? || s.workers[k].alert.Looked?
    ensures Next(s, OfWorker(k, Raise)) == Some(t) && Next(t, OfWorker(k, Report(false))) == Some(u)
    ensures Next(u, OfWorker(k, EndFailure)) == Some(v)
    ensures u.status == s.status + [StatusRow(s.workers[k].attached.value, k.server, false, k)] == v.status
    ensures v.workers == s.workers[k := Worker(Done(false), s.workers[k].attached, Idle)]
  {
    hide ServerOf, LastAlert, Newest;
    t := Next(s, OfWorker(k, Raise)).value;
    u := Next(t, OfWorker(k, Report(false))).value;
    v := Next(u, OfWorker(k, EndFailure)).value;
  }

  // ---------------------------------------------------------------- one run

  lemma ResultsWithin(s: State, p: nat)
    requires Inv(s) && p in s.processes
    ensures s.processes[p].results.Keys <= s.processes[p].servers
    ensures s.processes[p].stage == FannedOut ==>
              && (forall x :: x in s.processes[p].servers ==> Key(p, x) in s.workers)
              && s.processes[p].run.Some? && s.processes[p].run.value < |s.runs|
  {
    hide LocksOk, RunsOk, StatusOk, WorkerOk, CountsOk, Latest;
    assert ProcessOk(s, p);
  }

  /** The result of a worker that is done can be taken up. */
  lemma CanGather(s: State, p: nat, x: string) returns (t: State)
    requires p in s.processes && s.processes[p].stage == FannedOut
    requires x in s.processes[p].servers && x !in s.processes[p].results
    requires Key(p, x) in s.workers && s.workers[Key(p, x)].part.Done?
    ensures Next(s, OfProcess(p, Gather(x))) == Some(t)
    ensures t.runs == s.runs && p in t.processes
    ensures t.processes[p] == s.processes[p].(results := t.processes[p].results)
    ensures t.processes[p].results.Keys == s.processes[p].results.Keys + {x}
  {
    hide WorkerStep;
    t := Next(s, OfProcess(p, Gather(x))).value;
  }

  /** Every worker of a run that has fanned out can be ended, and its result taken up. */
  lemma {:induction false} AllCanBeGathered(s: State, p: nat) returns (actions: seq<Action>, t: State)
    requires Inv(s) && p in s.processes && s.processes[p].stage == FannedOut
    ensures After(s, actions) == Some(t) && Inv(t)
    ensures t.runs == s.runs && p in t.processes
    ensures t.processes[p] == s.processes[p].(results := t.processes[p].results)
    ensures t.processes[p].results.Keys == s.processes[p].servers
    decreases s.processes[p].servers - s.processes[p].results.Keys
  {
    hide Inv, Next, After;
    ResultsWithin(s, p);
    if s.processes[p].results.Keys == s.processes[p].servers {
      Standing(s);
      actions, t := [], s;
    } else {
      var missing := s.processes[p].servers - s.processes[p].results.Keys;
      assert s.processes[p].servers == s.processes[p].results.Keys + missing;
      var x :| x in missing;
      var first, u := WorkerCanEnd(s, Key(p, x));
      var v := CanGather(u, p, x);
      Kept(u, OfProcess(p, Gather(x)), v);
      AfterOne(u, OfProcess(p, Gather(x)), v);
      AfterMore(s, first, u, [OfProcess(p, Gather(x))], v);
      var more;
      more, t := AllCanBeGathered(v, p);
      AfterMore(s, first + [OfProcess(p, Gather(x))], v, more, t);
      actions := first + [OfProcess(p, Gather(x))] + more;
    }
  }

  /** The counts of a run whose results are all there are stored, or can be. */
  lemma CanStoreCounts(s: State, p: nat) returns (actions: seq<Action>, t: State)
    requires Inv(s) && p in s.processes && s.processes[p].stage == FannedOut
    requires s.processes[p].results.Keys == s.processes[p].servers
    ensures After(s, actions) == Some(t) && Inv(t)
    ensures p in t.processes && t.processes[p] == s.processes[p]
    ensures t.processes[p].run.Some? && t.processes[p].run.value < |t.runs|
    ensures t.runs[t.processes[p].run.value].counts.Some?
  {
    hide Inv, WorkerStep;
    ResultsWithin(s, p);
    if s.runs[s.processes[p].run.value].counts.Some? {
      Standing(s);
      actions, t := [], s;
    } else {
      t := Next(s, OfProcess(p, FinishRun)).value;
      Kept(s, OfProcess(p, FinishRun), t);
      AfterOne(s, OfProcess(p, FinishRun), t);
      actions := [OfProcess(p, FinishRun)];
    }
  }

  lemma CanRelease(s: State, p: nat) returns (t: State)
    requires p in s.processes
    requires s.processes[p].stage in {Locked, Started}
             || (s.processes[p].stage == FannedOut && s.processes[p].results.Keys == s.processes[p].servers)
    ensures Next(s, OfProcess(p, Release)) == Some(t)
    ensures p in t.processes && t.processes[p] == s.processes[p].(stage := Over)
    ensures s.processes[p].tier !in t.locks && t.runs == s.runs
  {
    hide WorkerStep;
    t := Next(s, OfProcess(p, Release)).value;
  }

  /**
   After any history, a run that holds its tier's lock can be brought to its end: the lock given back and, when it
   has fanned out, a result for every selected server and the counts stored.
   */
  lemma RunCanEnd(s: State, p: nat) returns (actions: seq<Action>, t: State)
    requires Reachable(s) && p in s.processes && s.processes[p].stage in {Locked, Started, FannedOut}
    ensures After(s, actions) == Some(t)
    ensures p in t.processes && t.processes[p].stage == Over && s.processes[p].tier !in t.locks
    ensures s.processes[p].stage == FannedOut ==>
              && t.processes[p].results.Keys == s.processes[p].servers
              && t.processes[p].run == s.processes[p].run && t.processes[p].run.Some?
              && t.processes[p].run.value < |t.runs| && t.runs[t.processes[p].run.value].counts.Some?
  {
    hide Inv, Next, After;
    ReachableInv(s);
    var u := s;
    actions := [];
    Standing(s);
    if s.processes[p].stage == FannedOut {
      var first, gathered := AllCanBeGathered(s, p);
      var second;
      second, u := CanStoreCounts(gathered, p);
      AfterMore(s, first, gathered, second, u);
      actions := first + second;
    }
    t := CanRelease(u, p);
    AfterOne(u, OfProcess(p, Release), t);
    AfterMore(s, actions, u, [OfProcess(p, Release)], t);
    actions := actions + [OfProcess(p, Release)];
  }

  lemma Holder(s: State, tier: Tier)
    requires Inv(s) && tier in s.locks
    ensures var p := s.locks[tier];
            p in s.processes && s.processes[p].tier == tier && s.processes[p].stage in {Locked, Started, FannedOut}
  {
    hide RunsOk, StatusOk, ProcessOk, WorkerOk, CountsOk;
    assert HeldBy(s.processes, tier, s.locks[tier]);
  }

  /** After any history, any tier can be brought to where the next call for it gets the lock. */
  lemma TierCanRunAgain(s: State, tier: Tier) returns (actions: seq<Action>, t: State)
    requires Reachable(s)
    ensures After(s, actions) == Some(t)
    ensures forall p, servers | p !in t.processes && servers != {} ::
              var u := Next(t, Launch(p, tier, servers));
              u.Some? && p in u.value.processes && u.value.processes[p].stage == Locked
  {
    hide WorkerStep, ProcessStep, After;
    ReachableInv(s);
    if tier in s.locks {
      var p := s.locks[tier];
      Holder(s, tier);
      actions, t := RunCanEnd(s, p);
    } else {
      Standing(s);
      actions, t := [], s;
    }
  }
}
