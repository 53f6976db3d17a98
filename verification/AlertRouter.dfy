/**
 The alert router (router.py): which findings leave the building, and the check-send-log sequence that
 drives the cooldown. Channels, lookups and log writes may fail at any moment, and the clock never goes back.
 */
module AlertRouter {
  import opened Options
  import opened AlertLog
  import opened Positions

  datatype Finding = Finding(fingerprint: string, severity: string, category: string)

  datatype Reason = Informational | NotPaged | NothingRouted | ChannelsDisabled | WithinCooldown | QuietHours

  datatype Decision = Decision(finding: Finding, channels: seq<string>, suppressed: Option<Reason>)

  datatype Routing = Routing(decisions: seq<Decision>, delivered: nat, failures: set<string>)

  predicate IsSent(decision: Decision) { decision.suppressed.None? && decision.channels != [] }

  const ALERTABLE_SEVERITIES: set<string> := {"warn", "crit"}
  const ALERTABLE_CATEGORIES: set<string> := {"cpu", "memory", "io", "space", "blocking", "deadlock", "availability"}

  /** Everything `decide` asks besides the cooldown: routing and quiet hours, for the server and now. */
  datatype Policy = Policy(routed: map<string, seq<string>>, enabled: set<string>, quiet: bool, allowCrit: bool)

  function Routed(policy: Policy, severity: string): seq<string> {
    if severity in policy.routed then policy.routed[severity] else []
  }

  /** [name for name in channels if name in self._channels] */
  function Enabled(policy: Policy, channels: seq<string>): seq<string> {
    if channels == [] then []
    else
      var n := |channels| - 1;
      Enabled(policy, channels[..n]) + if channels[n] in policy.enabled then [channels[n]] else []
  }

  /** The places of the enabled ones among the routed channels. */
  ghost predicate EnabledAt(routed: seq<string>, enabled: set<string>, at: seq<nat>) {
    Rising(at, |routed|) && forall k :: 0 <= k < |routed| ==> (k in at <==> routed[k] in enabled)
  }

  /** The enabled ones among the routed channels, each as often as it is routed, in order. */
  ghost predicate PicksEnabled(channels: seq<string>, routed: seq<string>, enabled: set<string>) {
    exists at: seq<nat> :: EnabledAt(routed, enabled, at) && Taken(channels, routed, at)
  }

  lemma NoPlaces(routed: seq<string>, enabled: set<string>)
    requires routed == []
    ensures EnabledAt(routed, enabled, []) && Taken([], routed, [])
  {
  }

  lemma OneMoreEnabled(routed: seq<string>, enabled: set<string>, at: seq<nat>)
    requires routed != [] && EnabledAt(routed[..|routed| - 1], enabled, at)
    ensures var n := |routed| - 1;
            EnabledAt(routed, enabled, if routed[n] in enabled then at + [n] else at)
  {
    hide Rising;
    var n := |routed| - 1;
    RisingOneMore(at, n);
    forall k | 0 <= k < n ensures k in at <==> routed[k] in enabled { assert routed[..n][k] == routed[k]; }
  }

  lemma {:induction false} EnabledPicks(policy: Policy, routed: seq<string>)
    ensures PicksEnabled(Enabled(policy, routed), routed, policy.enabled)
  {
    hide EnabledAt, Taken;
    if routed == [] {
      NoPlaces(routed, policy.enabled);
    } else {
      var n := |routed| - 1;
      EnabledPicks(policy, routed[..n]);
      var channels := Enabled(policy, routed[..n]);
      var at: seq<nat> :| EnabledAt(routed[..n], policy.enabled, at) && Taken(channels, routed[..n], at);
      OneMoreEnabled(routed, policy.enabled, at);
      TakenOneMore(channels, routed, at, n);
      assert routed[..n + 1] == routed;
      assert channels + [] == channels;
    }
  }

  lemma {:induction false} NoneEnabled(policy: Policy, routed: seq<string>)
    ensures Enabled(policy, routed) == [] <==> forall c :: c in routed ==> c !in policy.enabled
  {
    if routed != [] {
      var n := |routed| - 1;
      NoneEnabled(policy, routed[..n]);
      assert routed == routed[..n] + [routed[n]];
    }
  }

  predicate Silenced(policy: Policy, severity: string) {
    policy.quiet && !(policy.allowCrit && severity == "crit")
  }

  /** Severe enough, of a category that is paged, and routed to some enabled channel. */
  predicate Pageable(policy: Policy, finding: Finding) {
    && finding.severity in {"warn", "crit"}
    && finding.category in {"cpu", "memory", "io", "space", "blocking", "deadlock", "availability"}
    && finding.severity in policy.routed
    && exists c :: c in policy.routed[finding.severity] && c in policy.enabled
  }

  predicate Quiet(policy: Policy, finding: Finding) {
    policy.quiet && !(policy.allowCrit && finding.severity == "crit")
  }

  /** What is decided about the finding under the policy, when it is known whether it is cooling. */
  ghost predicate DecidedRight(decision: Decision, policy: Policy, finding: Finding, cooling: bool) {
    && decision.finding == finding
    && (decision.suppressed.None? <==> Pageable(policy, finding) && !Quiet(policy, finding) && !cooling)
    && (decision.suppressed.None? ==>
          PicksEnabled(decision.channels, policy.routed[finding.severity], policy.enabled))
    && (decision.channels == [] <==> decision.suppressed.Some?)
    && (decision.suppressed == Some(WithinCooldown) <==> Pageable(policy, finding) && cooling)
    && (decision.suppressed == Some(QuietHours)
        <==> Pageable(policy, finding) && Quiet(policy, finding) && !cooling)
  }

  /**
   What the outside does to the decision of a given number, and to the channel at a given place in it: whether
   the cooldown lookup fails, the send delivers, and the insert into the log fails.
   */
  datatype Network = Network(lookupFails: nat -> bool, delivers: (nat, nat) -> bool, logFails: (nat, nat) -> bool)

  /** The channel at one place of one decision, tried; `logged` is when its row was stored, if it was. */
  datatype Attempt = Attempt(fingerprint: string, decision: nat, place: nat, channel: string, ok: bool,
                             instant: int, logged: Option<int>)

  /** The row of an attempt that was logged. */
  function RowIf(fingerprint: string, channel: string, ok: bool, logged: Option<int>): seq<Row> {
    match logged
    case None => []
    case Some(instant) => [Row(fingerprint, channel, ok, Stamp(instant))]
  }

  /** The alert_log rows the attempts left behind. */
  function RowsOf(tried: seq<Attempt>): seq<Row> {
    if tried == [] then []
    else
      var a := tried[|tried| - 1];
      RowsOf(tried[..|tried| - 1]) + RowIf(a.fingerprint, a.channel, a.ok, a.logged)
  }

  /** The decision, place and channel of each attempt. */
  function Tried(tried: seq<Attempt>): seq<(nat, nat, string)> {
    seq(|tried|, i requires 0 <= i < |tried| => (tried[i].decision, tried[i].place, tried[i].channel))
  }

  /** The channels of one decision, each once and in order. */
  function Planned(id: nat, decision: Decision): seq<(nat, nat, string)> {
    var channels := decision.channels;
    if decision.suppressed.None? then seq(|channels|, i requires 0 <= i < |channels| => (id, i, channels[i])) else []
  }

  /** The channels of every decision that is to be sent; decisions are numbered from `first`. */
  function Plan(first: nat, decisions: seq<Decision>): seq<(nat, nat, string)> {
    if decisions == [] then []
    else
      var n := |decisions| - 1;
      Plan(first, decisions[..n]) + Planned(first + n, decisions[n])
  }

  function Successes(tried: seq<Attempt>): nat {
    if tried == [] then 0
    else Successes(tried[..|tried| - 1]) + if tried[|tried| - 1].ok then 1 else 0
  }

  function Failures(tried: seq<Attempt>): set<string> {
    set a | a in tried && !a.ok :: a.channel
  }

  /** No delivered alert of the fingerprint is missing from the log. */
  predicate AllLogged(tried: seq<Attempt>, fp: string) {
    forall a :: a in tried && a.fingerprint == fp && a.ok ==> a.logged.Some?
  }

  /** Deliveries of the fingerprint from different decisions are the cooldown apart, by stamp and by instant. */
  predicate Spaced(tried: seq<Attempt>, fp: string, cooldown: int) {
    forall i, j :: 0 <= i < j < |tried| && tried[i].fingerprint == tried[j].fingerprint == fp
                   && tried[i].decision != tried[j].decision && tried[i].ok && tried[j].ok
                   && tried[i].logged.Some? && tried[j].logged.Some? ==>
      && Stamp(tried[j].logged.value) - Stamp(tried[i].logged.value) >= cooldown
      && tried[j].instant - tried[i].instant > cooldown - SECOND / 2
      && (Stamp(tried[i].logged.value) >= tried[i].instant ==> tried[j].instant - tried[i].instant >= cooldown)
  }

  /** Deliveries of the fingerprint are the cooldown after every one of its that was in the log before. */
  predicate AfterThose(before: seq<Row>, tried: seq<Attempt>, fp: string, cooldown: int) {
    forall row, a :: row in before && a in tried && Delivered(row, fp) && a.fingerprint == fp && a.ok
                     && a.logged.Some? ==>
      Stamp(a.logged.value) - row.stamp >= cooldown && a.instant - row.stamp >= cooldown
  }

  /** What a passed check tells about all deliveries so far, other than those of its own decision. */
  predicate Cleared(before: seq<Row>, tried: seq<Attempt>, fp: string, id: nat, check: int, cooldown: int) {
    && (forall row :: row in before && Delivered(row, fp) ==> row.stamp + cooldown <= check)
    && forall a :: a in tried && a.fingerprint == fp && a.ok && a.decision != id && a.logged.Some? ==>
      Stamp(a.logged.value) + cooldown <= check
  }

  predicate Timely(tried: seq<Attempt>, decided: nat, clock: int) {
    forall a :: a in tried ==>
      && a.decision < decided && a.instant <= clock
      && (a.logged.Some? ==> a.instant <= a.logged.value <= clock)
  }

  /** Stamps are whole seconds, and none is ahead of the clock. */
  predicate NoneAhead(log: seq<Row>, clock: int) {
    forall row :: row in log ==> Whole(row.stamp) && row.stamp <= Stamp(clock)
  }

  lemma LaterStillFine(log: seq<Row>, tried: seq<Attempt>, decided: nat, clock: int, later: int)
    requires NoneAhead(log, clock) && Timely(tried, decided, clock) && clock <= later
    ensures NoneAhead(log, later) && Timely(tried, decided, later)
  {
    StampMonotone(clock, later);
  }

  lemma RowsStep(tried: seq<Attempt>, a: Attempt)
    ensures RowsOf(tried + [a]) == RowsOf(tried) + RowIf(a.fingerprint, a.channel, a.ok, a.logged)
  {
    assert (tried + [a])[..|tried|] == tried;
  }

  lemma {:induction false} RowOfAttempt(tried: seq<Attempt>, a: Attempt)
    requires a in tried && a.logged.Some?
    ensures Row(a.fingerprint, a.channel, a.ok, Stamp(a.logged.value)) in RowsOf(tried)
  {
    var n := |tried| - 1;
    if a != tried[n] { RowOfAttempt(tried[..n], a); }
  }

  lemma CheckClears(before: seq<Row>, tried: seq<Attempt>, fp: string, id: nat, now: int,
                    cooldown: int)
    requires !Cooling(before + RowsOf(tried), fp, now, cooldown)
    ensures Cleared(before, tried, fp, id, now, cooldown)
  {
    CooledDown(before + RowsOf(tried), fp, now, cooldown);
    forall row | row in before && Delivered(row, fp) ensures row.stamp + cooldown <= now {
      assert row in before + RowsOf(tried);
    }
    forall a | a in tried && a.fingerprint == fp && a.ok && a.logged.Some?
      ensures Stamp(a.logged.value) + cooldown <= now
    {
      RowOfAttempt(tried, a);
      assert Delivered(Row(a.fingerprint, a.channel, a.ok, Stamp(a.logged.value)), fp);
    }
  }

  /** An attempt after a passed check keeps every delivery, its own router's or not, the cooldown apart. */
  lemma StaysSpaced(before: seq<Row>, tried: seq<Attempt>, a: Attempt, clock: int, check: int,
                    cooldown: int)
    requires Whole(cooldown) && NoneAhead(before, clock)
    requires Spaced(tried, a.fingerprint, cooldown) && AfterThose(before, tried, a.fingerprint, cooldown)
    requires Cleared(before, tried, a.fingerprint, a.decision, check, cooldown)
    requires forall b :: b in tried && b.logged.Some? ==> b.instant <= b.logged.value
    requires check <= a.instant && (a.logged.Some? ==> a.instant <= a.logged.value)
    ensures Spaced(tried + [a], a.fingerprint, cooldown) && AfterThose(before, tried + [a], a.fingerprint, cooldown)
  {
    forall i | 0 <= i < |tried| && tried[i].fingerprint == a.fingerprint && tried[i].decision != a.decision
               && tried[i].ok && a.ok && tried[i].logged.Some? && a.logged.Some?
      ensures Stamp(a.logged.value) - Stamp(tried[i].logged.value) >= cooldown
      ensures a.instant - tried[i].instant > cooldown - SECOND / 2
      ensures Stamp(tried[i].logged.value) >= tried[i].instant ==> a.instant - tried[i].instant >= cooldown
    {
      assert tried[i] in tried;
      ApartByCooldown(tried[i].instant, tried[i].logged.value, check, a.instant, a.logged.value, cooldown);
    }
    forall row | row in before && Delivered(row, a.fingerprint) && a.logged.Some?
      ensures Stamp(a.logged.value) - row.stamp >= cooldown && a.instant - row.stamp >= cooldown
    {
      StampOfWhole(row.stamp);
      ApartByCooldown(row.stamp, row.stamp, check, a.instant, a.logged.value, cooldown);
    }
  }

  /** An attempt for another fingerprint changes nothing. */
  lemma OthersSpaced(before: seq<Row>, tried: seq<Attempt>, a: Attempt, fp: string, cooldown: int)
    requires a.fingerprint != fp
    ensures AllLogged(tried + [a], fp) <==> AllLogged(tried, fp)
    ensures Spaced(tried, fp, cooldown) ==> Spaced(tried + [a], fp, cooldown)
    ensures AfterThose(before, tried, fp, cooldown) ==> AfterThose(before, tried + [a], fp, cooldown)
  {
    forall b | b in tried ensures b in tried + [a] { }
  }

  lemma PartNoneAhead(before: seq<Row>, rows: seq<Row>, clock: int)
    requires NoneAhead(before + rows, clock)
    ensures NoneAhead(before, clock)
  {
    forall row | row in before ensures row in before + rows { }
  }

  lemma Recorded(before: seq<Row>, log: seq<Row>, tried: seq<Attempt>, decided: nat, clock: int,
                 a: Attempt, newLog: seq<Row>, later: int)
    requires log == before + RowsOf(tried)
    requires NoneAhead(log, clock) && Timely(tried, decided, clock)
    requires newLog == log + RowIf(a.fingerprint, a.channel, a.ok, a.logged)
    requires a.decision + 1 == decided && clock <= a.instant <= later
    requires a.logged.Some? ==> a.instant <= a.logged.value <= later
    ensures NoneAhead(newLog, later) && Timely(tried + [a], decided, later)
    ensures newLog == before + RowsOf(tried + [a])
  {
    RowsStep(tried, a);
    LaterStillFine(log, tried, decided, clock, later);
    if a.logged.Some? {
      StampMonotone(a.logged.value, later);
      StampIsNear(a.logged.value);
    }
  }

  lemma RecordedSpaced(before: seq<Row>, tried: seq<Attempt>, decided: nat, clock: int,
                       a: Attempt, check: int, cooldown: int)
    requires NoneAhead(before + RowsOf(tried), clock) && Timely(tried, decided, clock) && Whole(cooldown)
    requires check <= clock <= a.instant && (a.logged.Some? ==> a.instant <= a.logged.value)
    ensures AllLogged(tried + [a], a.fingerprint) ==> AllLogged(tried, a.fingerprint)
    ensures Spaced(tried, a.fingerprint, cooldown) && AfterThose(before, tried, a.fingerprint, cooldown)
            && Cleared(before, tried, a.fingerprint, a.decision, check, cooldown) ==>
              && Spaced(tried + [a], a.fingerprint, cooldown)
              && AfterThose(before, tried + [a], a.fingerprint, cooldown)
              && Cleared(before, tried + [a], a.fingerprint, a.decision, check, cooldown)
  {
    if AllLogged(tried + [a], a.fingerprint) { forall b | b in tried ensures b in tried + [a] { } }
    if Spaced(tried, a.fingerprint, cooldown) && AfterThose(before, tried, a.fingerprint, cooldown)
       && Cleared(before, tried, a.fingerprint, a.decision, check, cooldown) {
      PartNoneAhead(before, RowsOf(tried), clock);
      StaysSpaced(before, tried, a, clock, check, cooldown);
    }
  }

  /** Delivered exactly if the channel delivers; logged exactly if there is where to and the insert does not fail. */
  predicate Told(a: Attempt, network: Network, stores: bool) {
    && a.ok == network.delivers(a.decision, a.place)
    && (a.logged.Some? <==> stores && !network.logFails(a.decision, a.place))
  }

  /** The attempt at that place of the decision, ended and logged as the outside would have it. */
  predicate IsAttempt(a: Attempt, decision: Decision, id: nat, place: nat, channel: string, network: Network,
                      stores: bool)
  {
    && a.decision == id && a.place == place && a.channel == channel && a.fingerprint == decision.finding.fingerprint
    && Told(a, network, stores)
  }

  /** One decision's attempts: its channels in order, with the number delivered and the channels that failed. */
  ghost predicate Outcome(more: seq<Attempt>, decision: Decision, id: nat, channels: seq<string>,
                          network: Network, stores: bool, delivered: nat, failures: set<string>)
  {
    && |more| == |channels|
    && (forall i :: 0 <= i < |more| ==> IsAttempt(more[i], decision, id, i, channels[i], network, stores))
    && delivered == Successes(more) && failures == Failures(more)
  }

  lemma NothingTried(decision: Decision, id: nat, network: Network, stores: bool)
    ensures Outcome([], decision, id, [], network, stores, 0, {})
  {
  }

  lemma OutcomeStep(more: seq<Attempt>, decision: Decision, id: nat, channels: seq<string>, network: Network,
                    stores: bool, delivered: nat, failures: set<string>, a: Attempt)
    requires Outcome(more, decision, id, channels, network, stores, delivered, failures)
    requires IsAttempt(a, decision, id, |channels|, a.channel, network, stores)
    ensures Outcome(more + [a], decision, id, channels + [a.channel], network, stores,
                    if a.ok then delivered + 1 else delivered, if a.ok then failures else failures + {a.channel})
  {
    hide Told;
    assert (more + [a])[..|more|] == more;
  }

  lemma {:induction false} SuccessesAdd(done: seq<Attempt>, more: seq<Attempt>)
    ensures Successes(done + more) == Successes(done) + Successes(more)
  {
    if more == [] {
      assert done + more == done;
    } else {
      var n := |more| - 1;
      assert (done + more)[..|done + more| - 1] == done + more[..n];
      SuccessesAdd(done, more[..n]);
    }
  }

  /** What a dispatch reports is what it did: every channel of every decision to be sent, and nothing else. */
  ghost predicate Dispatched(more: seq<Attempt>, first: nat, r: Routing, dryRun: bool, network: Network,
                             stores: bool)
  {
    && Tried(more) == (if dryRun then [] else Plan(first, r.decisions))
    && r.delivered == Successes(more) && r.failures == Failures(more)
    && (forall a :: a in more ==>
          && first <= a.decision < first + |r.decisions|
          && a.fingerprint == r.decisions[a.decision - first].finding.fingerprint
          && Told(a, network, stores))
  }

  lemma NothingDispatched(first: nat, dryRun: bool, network: Network, stores: bool)
    ensures Dispatched([], first, Routing([], 0, {}), dryRun, network, stores)
  {
  }

  lemma TriedIsPlanned(id: nat, decision: Decision, dryRun: bool, more: seq<Attempt>, network: Network,
                       stores: bool, delivered: nat, failures: set<string>)
    requires var channels := if IsSent(decision) && !dryRun then decision.channels else [];
             Outcome(more, decision, id, channels, network, stores, delivered, failures)
    ensures Tried(more) == if dryRun then [] else Planned(id, decision)
  {
  }

  lemma PlanStep(first: nat, decisions: seq<Decision>, decision: Decision)
    ensures Plan(first, decisions + [decision]) == Plan(first, decisions) + Planned(first + |decisions|, decision)
  {
    assert (decisions + [decision])[..|decisions|] == decisions;
  }

  lemma TriedAdd(done: seq<Attempt>, more: seq<Attempt>)
    ensures Tried(done + more) == Tried(done) + Tried(more)
  {
  }

  lemma DispatchStep(done: seq<Attempt>, first: nat, r: Routing, dryRun: bool, network: Network, stores: bool,
                     decision: Decision, more: seq<Attempt>, delivered: nat, failures: set<string>)
    requires Dispatched(done, first, r, dryRun, network, stores)
    requires var channels := if IsSent(decision) && !dryRun then decision.channels else [];
             Outcome(more, decision, first + |r.decisions|, channels, network, stores, delivered, failures)
    ensures Dispatched(done + more, first,
                       Routing(r.decisions + [decision], r.delivered + delivered, r.failures + failures), dryRun,
                       network, stores)
  {
    hide Successes, IsSent, Plan, Told;
    SuccessesAdd(done, more);
    PlanStep(first, r.decisions, decision);
    TriedAdd(done, more);
    var id := first + |r.decisions|;
    TriedIsPlanned(id, decision, dryRun, more, network, stores, delivered, failures);
    assert Failures(done + more) == Failures(done) + Failures(more);
  }

  /** Attempts that delivered nothing for a fingerprint leave its cooldown as it was. */
  lemma {:induction false} OnlyDeliveriesMatter(before: seq<Row>, done: seq<Attempt>, more: seq<Attempt>, fp: string)
    requires forall a :: a in more && a.fingerprint == fp ==> !a.ok
    ensures LastAlert(before + RowsOf(done + more), fp) == LastAlert(before + RowsOf(done), fp)
  {
    hide LastAlert, RowsOf;
    if more == [] {
      assert done + more == done;
    } else {
      var n := |more| - 1;
      var a, rows := more[n], RowsOf(done + more[..n]);
      assert done + more == (done + more[..n]) + [a];
      RowsStep(done + more[..n], a);
      OnlyDeliveriesMatter(before, done, more[..n], fp);
      match a.logged {
        case None => assert before + (rows + []) == before + rows;
        case Some(instant) =>
          var row := Row(a.fingerprint, a.channel, a.ok, Stamp(instant));
          LastAlertStep(before + rows, row, fp);
          assert before + (rows + [row]) == (before + rows) + [row];
      }
    }
  }

  lemma OtherCooldownsKept(before: seq<Row>, done: seq<Attempt>, more: seq<Attempt>)
    ensures forall fp :: (forall a :: a in more && a.fingerprint == fp ==> !a.ok) ==>
                           LastAlert(before + RowsOf(done + more), fp) == LastAlert(before + RowsOf(done), fp)
  {
    hide LastAlert, RowsOf;
    forall fp | forall a :: a in more && a.fingerprint == fp ==> !a.ok
      ensures LastAlert(before + RowsOf(done + more), fp) == LastAlert(before + RowsOf(done), fp)
    {
      OnlyDeliveriesMatter(before, done, more, fp);
    }
  }

  /** What decides the cooldown question besides the log and the time, and the policy. */
  datatype Setup = Setup(policy: Policy, cooldown: int, repository: bool, network: Network)

  /** The first n attempts are those made before the decision of this number, which was made at that time. */
  ghost predicate MadeBefore(more: seq<Attempt>, n: nat, id: nat, now: int) {
    && n <= |more|
    && (forall i :: 0 <= i < n ==> more[i].decision < id && more[i].instant <= now)
    && (forall i :: n <= i < |more| ==> more[i].decision >= id && more[i].instant >= now)
  }

  /** The decision is right for the log as the attempts before it left it, and for the time it was made. */
  ghost predicate RightInTurn(decision: Decision, setup: Setup, finding: Finding, id: nat, log: seq<Row>,
                              more: seq<Attempt>, from: int, to: int)
  {
    exists n: nat, now: int ::
      && MadeBefore(more, n, id, now) && from <= now <= to
      && DecidedRight(decision, setup.policy, finding,
                      setup.cooldown > 0 && setup.repository && !setup.network.lookupFails(id)
                      && Cooling(log + RowsOf(more[..n]), finding.fingerprint, now, setup.cooldown))
  }

  ghost predicate AllRightInTurn(decisions: seq<Decision>, setup: Setup, findings: seq<Finding>, first: nat,
                                 log: seq<Row>, more: seq<Attempt>, from: int, to: int)
  {
    && |decisions| == |findings|
    && forall k :: 0 <= k < |findings| ==>
                     RightInTurn(decisions[k], setup, findings[k], first + k, log, more, from, to)
  }

  lemma NothingDecided(setup: Setup, findings: seq<Finding>, first: nat, log: seq<Row>, now: int)
    ensures AllRightInTurn([], setup, findings[..0], first, log, [], now, now)
  {
  }

  lemma StaysRight(decision: Decision, setup: Setup, finding: Finding, id: nat, log: seq<Row>,
                   more: seq<Attempt>, from: int, to: int, extra: seq<Attempt>, later: int)
    requires RightInTurn(decision, setup, finding, id, log, more, from, to) && to <= later
    requires forall a :: a in extra ==> a.decision >= id && a.instant >= to
    ensures RightInTurn(decision, setup, finding, id, log, more + extra, from, later)
  {
    hide DecidedRight, Cooling, RowsOf;
    var n: nat, now: int :| && MadeBefore(more, n, id, now) && from <= now <= to
                            && DecidedRight(decision, setup.policy, finding,
                                            setup.cooldown > 0 && setup.repository && !setup.network.lookupFails(id)
                                            && Cooling(log + RowsOf(more[..n]), finding.fingerprint, now,
                                                       setup.cooldown));
    assert (more + extra)[..n] == more[..n];
    assert MadeBefore(more + extra, n, id, now);
  }

  lemma RightNow(decision: Decision, setup: Setup, finding: Finding, id: nat, log: seq<Row>,
                 more: seq<Attempt>, from: int, now: int, extra: seq<Attempt>, later: int)
    requires from <= now <= later
    requires forall a :: a in more ==> a.decision < id && a.instant <= now
    requires forall a :: a in extra ==> a.decision >= id && a.instant >= now
    requires DecidedRight(decision, setup.policy, finding,
                          setup.cooldown > 0 && setup.repository && !setup.network.lookupFails(id)
                          && Cooling(log + RowsOf(more), finding.fingerprint, now, setup.cooldown))
    ensures RightInTurn(decision, setup, finding, id, log, more + extra, from, later)
  {
    hide DecidedRight, Cooling, RowsOf;
    assert (more + extra)[..|more|] == more;
    assert MadeBefore(more + extra, |more|, id, now);
  }

  lemma RightStep(decisions: seq<Decision>, setup: Setup, findings: seq<Finding>, k: nat, first: nat,
                  log: seq<Row>, more: seq<Attempt>, from: int, to: int, decision: Decision, now: int,
                  extra: seq<Attempt>, later: int)
    requires k < |findings| && AllRightInTurn(decisions, setup, findings[..k], first, log, more, from, to)
    requires from <= to <= now <= later
    requires forall a :: a in more ==> a.decision < first + k && a.instant <= to
    requires forall a :: a in extra ==> a.decision == first + k && a.instant >= now
    requires DecidedRight(decision, setup.policy, findings[k],
                          setup.cooldown > 0 && setup.repository && !setup.network.lookupFails(first + k)
                          && Cooling(log + RowsOf(more), findings[k].fingerprint, now, setup.cooldown))
    ensures AllRightInTurn(decisions + [decision], setup, findings[..k + 1], first, log, more + extra, from, later)
  {
    hide DecidedRight, Cooling, RowsOf, RightInTurn;
    RightNow(decision, setup, findings[k], first + k, log, more, from, now, extra, later);
    forall j | 0 <= j < k
      ensures RightInTurn(decisions[j], setup, findings[j], first + j, log, more + extra, from, later)
    {
      assert findings[..k][j] == findings[j];
      StaysRight(decisions[j], setup, findings[j], first + j, log, more, from, to, extra, later);
    }
  }

  lemma {:induction false} RowsAdd(done: seq<Attempt>, more: seq<Attempt>)
    ensures RowsOf(done + more) == RowsOf(done) + RowsOf(more)
  {
    hide RowIf;
    if more == [] {
      assert done + more == done;
    } else {
      var n := |more| - 1;
      assert (done + more)[..|done + more| - 1] == done + more[..n];
      RowsAdd(done, more[..n]);
    }
  }

  predicate Decides(r: Routing, findings: seq<Finding>) {
    |r.decisions| == |findings| && forall k :: 0 <= k < |findings| ==> r.decisions[k].finding == findings[k]
  }

  class Router {
    const policy: Policy
    const cooldown: int
    const repository: bool
    const network: Network
    /** alert_log as it was before this router's first dispatch: every run shares the table. */
    ghost const before: seq<Row>
    var log: seq<Row>
    var clock: int
    ghost var tried: seq<Attempt>
    var decided: nat
    /** The fingerprints a cooldown lookup failed for, or was not made for. */
    ghost var blind: set<string>

    function Settings(): Setup { Setup(policy, cooldown, repository, network) }

    /** The cooldown is on, and for this fingerprint every lookup was answered and every delivery logged. */
    ghost predicate Guarded(fp: string)
      reads this
    {
      cooldown > 0 && fp !in blind && AllLogged(tried, fp)
    }

    ghost predicate Valid()
      reads this
    {
      && Whole(cooldown)
      && log == before + RowsOf(tried)
      && NoneAhead(log, clock)
      && Timely(tried, decided, clock)
      && forall fp :: Guarded(fp) ==> Spaced(tried, fp, cooldown) && AfterThose(before, tried, fp, cooldown)
    }

    /** Every dispatch has a router of its own; `first` numbers its decisions on from those before. */
    constructor (policy: Policy, cooldownMinutes: int, repository: bool, network: Network, log: seq<Row>, clock: int,
                 first: nat)
      requires NoneAhead(log, clock)
      ensures Valid() && this.log == before == log && this.clock == clock
      ensures tried == [] && blind == {} && decided == first
      ensures this.policy == policy && cooldown == cooldownMinutes * 60_000_000
      ensures this.repository == repository && this.network == network
    {
      this.policy, this.cooldown, this.repository := policy, cooldownMinutes * MINUTE, repository;
      this.network := network;
      this.log, this.before, this.clock := log, log, clock;
      tried, decided, blind := [], first, {};
      assert cooldownMinutes * MINUTE == cooldownMinutes * 60 * SECOND;
    }

    /** Time passes. */
    method Now() returns (now: int)
      modifies this`clock
      ensures old(clock) <= clock == now
    {
      var passed := *;
      if passed > 0 { clock := clock + passed; }
      now := clock;
    }

    /** The cooldown is on, there is a repository, and the lookup for the decision of this number does not fail. */
    predicate Answers(id: nat) { cooldown > 0 && repository && !network.lookupFails(id) }

    method InCooldown(finding: Finding) returns (cool: bool)
      requires Valid()
      modifies this`clock, this`blind
      ensures Valid() && old(clock) <= clock
      ensures blind == old(blind) + if Answers(decided) then {} else {finding.fingerprint}
      ensures cool == (Answers(decided) && Cooling(log, finding.fingerprint, clock, cooldown))
    {
      if !repository || cooldown <= 0 {
        blind := blind + {finding.fingerprint};
        return false;
      }
      if network.lookupFails(decided) {
        blind := blind + {finding.fingerprint};
        return false;
      }
      var last := LastAlert(log, finding.fingerprint);
      if last.None? { return false; }
      var now := Now();
      LaterStillFine(log, tried, decided, old(clock), clock);
      return now - last.value < cooldown;
    }

    /** The cooldown is asked about pageable findings only, and before the quiet hours. */
    method Decide(finding: Finding) returns (decision: Decision)
      requires Valid()
      modifies this`clock, this`blind
      ensures Valid() && old(clock) <= clock
      ensures blind == old(blind) + if Pageable(policy, finding) && !Answers(decided) then {finding.fingerprint} else {}
      ensures var cooling := Answers(decided) && Cooling(log, finding.fingerprint, clock, cooldown);
              DecidedRight(decision, policy, finding, cooling)
      ensures decision.suppressed == Some(Informational) <==> finding.severity !in {"warn", "crit"}
      ensures decision.suppressed == Some(NotPaged)
              <==> finding.severity in {"warn", "crit"}
                   && finding.category
                        !in {"cpu", "memory", "io", "space", "blocking", "deadlock", "availability"}
      ensures decision.suppressed == Some(NothingRouted)
              <==> finding.severity in {"warn", "crit"}
                   && finding.category in {"cpu", "memory", "io", "space", "blocking", "deadlock", "availability"}
                   && (finding.severity in policy.routed ==> policy.routed[finding.severity] == [])
      ensures decision.suppressed == Some(ChannelsDisabled)
              <==> finding.severity in {"warn", "crit"}
                   && finding.category in {"cpu", "memory", "io", "space", "blocking", "deadlock", "availability"}
                   && finding.severity in policy.routed && policy.routed[finding.severity] != []
                   && forall c :: c in policy.routed[finding.severity] ==> c !in policy.enabled
    {
      hide PicksEnabled, EnabledAt, Enabled, Cooling, Spaced, AfterThose, AllLogged;
      if finding.severity !in ALERTABLE_SEVERITIES { return Decision(finding, [], Some(Informational)); }
      if finding.category !in ALERTABLE_CATEGORIES { return Decision(finding, [], Some(NotPaged)); }
      var channels := Routed(policy, finding.severity);
      if channels == [] { return Decision(finding, [], Some(NothingRouted)); }
      var enabled := Enabled(policy, channels);
      NoneEnabled(policy, channels);
      EnabledPicks(policy, channels);
      if enabled == [] { return Decision(finding, [], Some(ChannelsDisabled)); }
      var cool := InCooldown(finding);
      if cool { return Decision(finding, [], Some(WithinCooldown)); }
      if Silenced(policy, finding.severity) { return Decision(finding, [], Some(QuietHours)); }
      decision := Decision(finding, enabled, None);
    }

    /** Whatever goes wrong while logging is swallowed. */
    method Record(fingerprint: string, channel: string, ok: bool, serverKnown: bool, fails: bool)
      returns (logged: Option<int>)
      modifies this`log, this`clock
      ensures old(clock) <= clock
      ensures logged.Some? <==> repository && serverKnown && !fails
      ensures logged.Some? ==> old(clock) <= logged.value <= clock
      ensures logged.None? ==> log == old(log)
      ensures logged.Some? ==> log == old(log) + [Row(fingerprint, channel, ok, Stamp(logged.value))]
    {
      if !repository || !serverKnown { return None; }
      if fails { return None; }
      var now := Now();
      log := log + [Row(fingerprint, channel, ok, Stamp(now))];
      logged := Some(now);
    }

    /** One channel of a decision: send, then log what became of it. */
    method SendOne(decision: Decision, id: nat, place: nat, channel: string, serverKnown: bool, ghost check: int)
      returns (ok: bool, ghost a: Attempt)
      requires Valid() && check <= clock && decided == id + 1
      requires Guarded(decision.finding.fingerprint) ==>
                 Cleared(before, tried, decision.finding.fingerprint, id, check, cooldown)
      modifies this`log, this`clock, this`tried
      ensures Valid() && old(clock) <= clock && ok == a.ok
      ensures tried == old(tried) + [a]
      ensures IsAttempt(a, decision, id, place, channel, network, repository && serverKnown)
      ensures old(clock) <= a.instant
      ensures Guarded(decision.finding.fingerprint) ==>
                 Cleared(before, tried, decision.finding.fingerprint, id, check, cooldown)
    {
      hide RowsOf, AllLogged, Cleared, Spaced, AfterThose, Timely, NoneAhead, Whole;
      ghost var sentAt := Now();
      ok := network.delivers(id, place);
      var logged := Record(decision.finding.fingerprint, channel, ok, serverKnown, network.logFails(id, place));
      a := Attempt(decision.finding.fingerprint, id, place, channel, ok, sentAt, logged);
      assert log == old(log) + RowIf(a.fingerprint, a.channel, a.ok, a.logged);
      Recorded(before, old(log), old(tried), decided, old(clock), a, log, clock);
      RecordedSpaced(before, old(tried), decided, old(clock), a, check, cooldown);
      tried := tried + [a];
      forall fp | Guarded(fp) ensures Spaced(tried, fp, cooldown) && AfterThose(before, tried, fp, cooldown) {
        if fp != a.fingerprint { OthersSpaced(before, old(tried), a, fp, cooldown); }
        assert old(Guarded(fp));
      }
    }

    /** Every channel of the decision is tried, whatever the others did. */
    method SendAll(decision: Decision, id: nat, serverKnown: bool, ghost check: int)
      returns (delivered: nat, failures: set<string>, ghost more: seq<Attempt>)
      requires Valid() && check <= clock && decided == id + 1
      requires Guarded(decision.finding.fingerprint) ==>
                 Cleared(before, tried, decision.finding.fingerprint, id, check, cooldown)
      modifies this`log, this`clock, this`tried
      ensures Valid() && old(clock) <= clock
      ensures tried == old(tried) + more
      ensures Outcome(more, decision, id, decision.channels, network, repository && serverKnown, delivered, failures)
      ensures forall a :: a in more ==> a.decision == id && old(clock) <= a.instant
    {
      hide Guarded, Valid, Cleared, Outcome, Told;
      delivered, failures, more := 0, {}, [];
      NothingTried(decision, id, network, repository && serverKnown);
      for i := 0 to |decision.channels|
        invariant Valid() && old(clock) <= clock
        invariant Guarded(decision.finding.fingerprint) ==>
                    Cleared(before, tried, decision.finding.fingerprint, id, check, cooldown)
        invariant tried == old(tried) + more
        invariant forall a :: a in more ==> a.decision == id && old(clock) <= a.instant
        invariant Outcome(more, decision, id, decision.channels[..i], network, repository && serverKnown,
                          delivered, failures)
      {
        var channel := decision.channels[i];
        var ok, a := SendOne(decision, id, i, channel, serverKnown, check);
        OutcomeStep(more, decision, id, decision.channels[..i], network, repository && serverKnown,
                    delivered, failures, a);
        assert decision.channels[..i + 1] == decision.channels[..i] + [channel];
        more := more + [a];
        assert tried == old(tried) + more;
        if ok { delivered := delivered + 1; } else { failures := failures + {channel}; }
      }
      assert decision.channels[..|decision.channels|] == decision.channels;
    }

    lemma LogIs()
      requires Valid()
      ensures log == before + RowsOf(tried)
    {
    }

    lemma LogSince(done: seq<Attempt>, more: seq<Attempt>)
      requires Valid() && tried == done + more
      ensures log == before + RowsOf(done) + RowsOf(more)
      ensures forall a :: a in more ==> a.decision < decided && a.instant <= clock
    {
      RowsAdd(done, more);
    }

    method DispatchOne(finding: Finding, serverKnown: bool, dryRun: bool)
      returns (decision: Decision, delivered: nat, failures: set<string>, ghost more: seq<Attempt>,
               ghost at: int)
      requires Valid()
      modifies this
      ensures Valid() && old(clock) <= at <= clock
      ensures var cooling := Answers(old(decided)) && Cooling(old(log), finding.fingerprint, at, cooldown);
              DecidedRight(decision, policy, finding, cooling)
      ensures forall a :: a in more ==> a.decision == old(decided) && at <= a.instant
      ensures blind == old(blind) +
                if Pageable(policy, finding) && !Answers(old(decided)) then {finding.fingerprint} else {}
      ensures decided == old(decided) + 1 && decision.finding == finding
      ensures tried == old(tried) + more
      ensures var channels := if IsSent(decision) && !dryRun then decision.channels else [];
              Outcome(more, decision, old(decided), channels, network, repository && serverKnown, delivered, failures)
    {
      hide Spaced, AfterThose, Cleared, Cooling, RowsOf, Outcome, Pageable, Quiet, PicksEnabled;
      decision := Decide(finding);
      at := clock;
      var id := decided;
      decided := decided + 1;
      delivered, failures, more := 0, {}, [];
      if IsSent(decision) && !dryRun {
        if Guarded(finding.fingerprint) { CheckClears(before, tried, finding.fingerprint, id, clock, cooldown); }
        delivered, failures, more := SendAll(decision, id, serverKnown, clock);
      } else {
        NothingTried(decision, id, network, repository && serverKnown);
      }
    }

    /** A finding of this fingerprint was pageable, and the lookup for it was not answered. */
    ghost predicate Unanswered(findings: seq<Finding>, first: nat, fp: string) {
      exists k :: 0 <= k < |findings| && findings[k].fingerprint == fp
                  && Pageable(policy, findings[k]) && !Answers(first + k)
    }

    lemma UnansweredOneMore(findings: seq<Finding>, first: nat, k: nat, fp: string)
      requires k < |findings|
      ensures Unanswered(findings[..k + 1], first, fp)
              <==> Unanswered(findings[..k], first, fp)
                   || (findings[k].fingerprint == fp && Pageable(policy, findings[k]) && !Answers(first + k))
    {
      hide Pageable, Answers;
      var more, some := findings[..k + 1], findings[..k];
      if Unanswered(some, first, fp) {
        var j :| 0 <= j < |some| && some[j].fingerprint == fp && Pageable(policy, some[j]) && !Answers(first + j);
        assert more[j] == some[j];
      }
      if Unanswered(more, first, fp) {
        var j :| 0 <= j < |more| && more[j].fingerprint == fp && Pageable(policy, more[j]) && !Answers(first + j);
        if j < k { assert some[j] == more[j]; }
      }
      assert more[k] == findings[k];
    }

    lemma NoneUnanswered(findings: seq<Finding>, first: nat, fp: string)
      ensures !Unanswered(findings[..0], first, fp)
    {
    }

    /** Decide, then send, finding by finding. */
    method Dispatch(findings: seq<Finding>, serverKnown: bool, dryRun: bool)
      returns (r: Routing, ghost more: seq<Attempt>)
      requires Valid()
      modifies this
      ensures Valid() && old(clock) <= clock
      ensures forall fp :: fp in blind <==> fp in old(blind) || Unanswered(findings, old(decided), fp)
      ensures decided == old(decided) + |findings|
      ensures Decides(r, findings)
      ensures tried == old(tried) + more
      ensures Dispatched(more, old(decided), r, dryRun, network, repository && serverKnown)
      ensures AllRightInTurn(r.decisions, Settings(), findings, old(decided), old(log), more, old(clock), clock)
      ensures forall fp :: (forall a :: a in more && a.fingerprint == fp ==> !a.ok) ==>
                             LastAlert(log, fp) == LastAlert(old(log), fp)
    {
      hide Valid, Guarded, Dispatched, IsSent, Outcome, LastAlert, RowsOf, Unanswered, Pageable;
      hide AllRightInTurn, DecidedRight, Cooling;
      LogIs();
      r, more := Routing([], 0, {}), [];
      NothingDispatched(decided, dryRun, network, repository && serverKnown);
      NothingDecided(Settings(), findings, decided, log, clock);
      forall fp ensures !Unanswered(findings[..0], decided, fp) { NoneUnanswered(findings, decided, fp); }
      for k := 0 to |findings|
        invariant Valid() && old(clock) <= clock
        invariant forall fp :: fp in blind <==> fp in old(blind) || Unanswered(findings[..k], old(decided), fp)
        invariant decided == old(decided) + k && |r.decisions| == k
        invariant forall j :: 0 <= j < k ==> r.decisions[j].finding == findings[j]
        invariant tried == old(tried) + more
        invariant Dispatched(more, old(decided), r, dryRun, network, repository && serverKnown)
        invariant AllRightInTurn(r.decisions, Settings(), findings[..k], old(decided), old(log), more,
                                 old(clock), clock)
      {
        ghost var earlier, now := r.decisions, clock;
        LogSince(old(tried), more);
        var decision, sent, failures, attempts, at := DispatchOne(findings[k], serverKnown, dryRun);
        DispatchStep(more, old(decided), r, dryRun, network, repository && serverKnown,
                     decision, attempts, sent, failures);
        forall fp
          ensures fp in blind <==> fp in old(blind) || Unanswered(findings[..k + 1], old(decided), fp)
        {
          UnansweredOneMore(findings, old(decided), k, fp);
        }
        RightStep(earlier, Settings(), findings, k, old(decided), old(log), more, old(clock), now, decision, at,
                  attempts, clock);
        more := more + attempts;
        r := Routing(r.decisions + [decision], r.delivered + sent, r.failures + failures);
        assert tried == old(tried) + more;
      }
      assert findings[..|findings|] == findings;
      LogIs();
      OtherCooldownsKept(before, old(tried), more);
    }
  }

  // ---------------------------------------------------------------- dispatch after dispatch

  /** One run's dispatch for one server: its routing, its findings, and how it is called. */
  datatype Request = Request(policy: Policy, findings: seq<Finding>, serverKnown: bool, dryRun: bool)

  /** A dispatch whose router found the earlier attempts in the log keeps them all spaced. */
  lemma {:induction false} SpacedTogether(before: seq<Row>, done: seq<Attempt>, more: seq<Attempt>, clock: int,
                                         first: nat, fp: string, cooldown: int)
    requires Spaced(done, fp, cooldown) && AfterThose(before, done, fp, cooldown) && Timely(done, first, clock)
    requires Spaced(more, fp, cooldown) && AfterThose(before + RowsOf(done), more, fp, cooldown)
    ensures Spaced(done + more, fp, cooldown) && AfterThose(before, done + more, fp, cooldown)
  {
    forall i, j | 0 <= i < |done| && 0 <= j < |more| && done[i].fingerprint == more[j].fingerprint == fp
                  && done[i].ok && more[j].ok && done[i].logged.Some? && more[j].logged.Some?
      ensures Stamp(more[j].logged.value) - Stamp(done[i].logged.value) >= cooldown
      ensures more[j].instant - done[i].instant > cooldown - SECOND / 2
      ensures Stamp(done[i].logged.value) >= done[i].instant ==> more[j].instant - done[i].instant >= cooldown
    {
      var row := Row(done[i].fingerprint, done[i].channel, true, Stamp(done[i].logged.value));
      assert done[i] in done && more[j] in more;
      RowOfAttempt(done, done[i]);
      assert row in before + RowsOf(done) && Delivered(row, more[j].fingerprint);
      StampIsNear(done[i].logged.value);
    }
    forall row, a | row in before && a in done + more && Delivered(row, fp) && a.fingerprint == fp && a.ok
                   && a.logged.Some?
      ensures Stamp(a.logged.value) - row.stamp >= cooldown && a.instant - row.stamp >= cooldown
    {
      if a in more { assert row in before + RowsOf(done); }
    }
  }

  predicate OfFindings(all: seq<Attempt>, findings: seq<Finding>) {
    forall a :: a in all ==> a.decision < |findings| && a.fingerprint == findings[a.decision].fingerprint
  }

  lemma NothingSoFar(before: seq<Row>, cooldown: int, clock: int)
    ensures RowsOf([]) == []
    ensures forall fp :: Spaced([], fp, cooldown) && AfterThose(before, [], fp, cooldown)
    ensures Timely([], 0, clock) && OfFindings([], [])
  {
  }

  lemma NextDispatch(before: seq<Row>, done: seq<Attempt>, more: seq<Attempt>, clock: int,
                     later: int, first: nat, decided: nat, cooldown: int)
    requires Timely(done, first, clock) && Timely(more, decided, later) && clock <= later && first <= decided
    ensures Timely(done + more, decided, later)
    ensures forall fp :: AllLogged(done + more, fp) ==> AllLogged(done, fp) && AllLogged(more, fp)
    ensures forall fp :: Spaced(done, fp, cooldown) && AfterThose(before, done, fp, cooldown)
                         && Spaced(more, fp, cooldown) && AfterThose(before + RowsOf(done), more, fp, cooldown) ==>
              Spaced(done + more, fp, cooldown) && AfterThose(before, done + more, fp, cooldown)
  {
    forall a | a in done || a in more ensures a in done + more { }
    forall fp | Spaced(done, fp, cooldown) && AfterThose(before, done, fp, cooldown)
                && Spaced(more, fp, cooldown) && AfterThose(before + RowsOf(done), more, fp, cooldown)
      ensures Spaced(done + more, fp, cooldown) && AfterThose(before, done + more, fp, cooldown)
    {
      SpacedTogether(before, done, more, clock, first, fp, cooldown);
    }
  }

  /** All findings in the order they are decided; a decision's number is its place here. */
  function Findings(requests: seq<Request>): seq<Finding> {
    if requests == [] then [] else Findings(requests[..|requests| - 1]) + requests[|requests| - 1].findings
  }

  lemma FindingsStep(done: seq<Attempt>, findings: seq<Finding>, more: seq<Attempt>,
                     request: Request, r: Routing, network: Network, stores: bool)
    requires OfFindings(done, findings) && Decides(r, request.findings)
    requires Dispatched(more, |findings|, r, request.dryRun, network, stores)
    ensures OfFindings(done + more, findings + request.findings)
  {
    hide Plan, Successes, Failures;
  }

  /** No lookup fails for a finding of this fingerprint; decisions are numbered from `first`. */
  predicate LookupsAnswer(network: Network, findings: seq<Finding>, first: nat, fp: string) {
    forall k :: 0 <= k < |findings| && findings[k].fingerprint == fp ==> !network.lookupFails(first + k)
  }

  lemma LookupsAnswerEach(network: Network, done: seq<Finding>, more: seq<Finding>, fp: string)
    requires LookupsAnswer(network, done + more, 0, fp)
    ensures LookupsAnswer(network, done, 0, fp) && LookupsAnswer(network, more, |done|, fp)
  {
    forall k | 0 <= k < |done| ensures done[k] == (done + more)[k] { }
    forall k | 0 <= k < |more| ensures more[k] == (done + more)[|done| + k] { }
  }

  /** One request's dispatch: its decisions are right, and what was tried and reported is what they say. */
  ghost predicate Served(r: Routing, request: Request, cooldown: int, repository: bool, network: Network, first: nat,
                         log: seq<Row>, more: seq<Attempt>, from: int, to: int)
  {
    && Dispatched(more, first, r, request.dryRun, network, repository && request.serverKnown)
    && AllRightInTurn(r.decisions, Setup(request.policy, cooldown, repository, network), request.findings, first,
                      log, more, from, to)
  }

  /** It was served with some run of all the attempts, over the log as those before had left it. */
  ghost predicate ServedAmong(r: Routing, request: Request, cooldown: int, repository: bool, network: Network,
                              first: nat, before: seq<Row>, all: seq<Attempt>, start: int, clock: int)
  {
    exists i: nat, j: nat, from: int, to: int ::
      && i <= j <= |all| && start <= from <= to <= clock
      && Served(r, request, cooldown, repository, network, first, before + RowsOf(all[..i]), all[i..j], from, to)
  }

  lemma StillServed(r: Routing, request: Request, cooldown: int, repository: bool, network: Network, first: nat,
                    before: seq<Row>, all: seq<Attempt>, start: int, clock: int, more: seq<Attempt>, later: int)
    requires ServedAmong(r, request, cooldown, repository, network, first, before, all, start, clock)
    requires clock <= later
    ensures ServedAmong(r, request, cooldown, repository, network, first, before, all + more, start, later)
  {
    hide Served, RowsOf;
    var i: nat, j: nat, from: int, to: int :| && i <= j <= |all| && start <= from <= to <= clock
                                              && Served(r, request, cooldown, repository, network, first,
                                                        before + RowsOf(all[..i]), all[i..j], from, to);
    assert (all + more)[..i] == all[..i] && (all + more)[i..j] == all[i..j];
  }

  lemma JustServed(r: Routing, request: Request, cooldown: int, repository: bool, network: Network, first: nat,
                   before: seq<Row>, all: seq<Attempt>, start: int, clock: int, more: seq<Attempt>, later: int)
    requires Served(r, request, cooldown, repository, network, first, before + RowsOf(all), more, clock, later)
    requires start <= clock <= later
    ensures ServedAmong(r, request, cooldown, repository, network, first, before, all + more, start, later)
  {
    hide Served, RowsOf;
    assert (all + more)[..|all|] == all && (all + more)[|all|..|all + more|] == more;
  }

  /** Every request was, in turn. */
  ghost predicate AllServed(results: seq<Routing>, requests: seq<Request>, cooldown: int, repository: bool,
                            network: Network, before: seq<Row>, all: seq<Attempt>, start: int, clock: int)
  {
    && |results| == |requests|
    && forall k :: 0 <= k < |requests| ==>
                     ServedAmong(results[k], requests[k], cooldown, repository, network, |Findings(requests[..k])|,
                                 before, all, start, clock)
  }

  lemma NobodyServed(requests: seq<Request>, cooldown: int, repository: bool, network: Network, before: seq<Row>,
                     start: int)
    ensures AllServed([], requests[..0], cooldown, repository, network, before, [], start, start)
  {
  }

  lemma ServedNext(results: seq<Routing>, requests: seq<Request>, k: nat, r: Routing, cooldown: int,
                   repository: bool, network: Network, before: seq<Row>, all: seq<Attempt>, start: int, clock: int,
                   more: seq<Attempt>, later: int)
    requires k < |requests| && start <= clock <= later
    requires AllServed(results, requests[..k], cooldown, repository, network, before, all, start, clock)
    requires Served(r, requests[k], cooldown, repository, network, |Findings(requests[..k])|, before + RowsOf(all),
                    more, clock, later)
    ensures AllServed(results + [r], requests[..k + 1], cooldown, repository, network, before, all + more, start, later)
  {
    hide Served, ServedAmong, RowsOf, Findings;
    JustServed(r, requests[k], cooldown, repository, network, |Findings(requests[..k])|, before, all, start, clock,
               more, later);
    forall j | 0 <= j <= k
      ensures ServedAmong((results + [r])[j], requests[j], cooldown, repository, network,
                          |Findings(requests[..k + 1][..j])|, before, all + more, start, later)
    {
      assert requests[..k + 1][..j] == requests[..j];
      if j < k {
        assert requests[..k][..j] == requests[..j] && requests[..k][j] == requests[j];
        StillServed(results[j], requests[j], cooldown, repository, network, |Findings(requests[..j])|, before, all,
                    start, clock, more, later);
      }
    }
  }

  /** One dispatch with a router of its own over the shared log. */
  method DispatchNext(request: Request, cooldownMinutes: int, repository: bool, network: Network, before: seq<Row>,
                      start: int, first: nat)
    returns (log: seq<Row>, clock: int, r: Routing, ghost more: seq<Attempt>)
    requires NoneAhead(before, start)
    ensures start <= clock && NoneAhead(log, clock) && log == before + RowsOf(more)
    ensures Decides(r, request.findings)
    ensures Served(r, request, cooldownMinutes * 60_000_000, repository, network, first, before, more, start, clock)
    ensures Timely(more, first + |request.findings|, clock)
    ensures forall fp :: cooldownMinutes > 0 && repository && AllLogged(more, fp)
                         && LookupsAnswer(network, request.findings, first, fp) ==>
              Spaced(more, fp, cooldownMinutes * 60_000_000)
              && AfterThose(before, more, fp, cooldownMinutes * 60_000_000)
  {
    hide Spaced, AfterThose, AllLogged, NoneAhead, Timely, RowsOf, Dispatched, LastAlert, AllRightInTurn;
    var router := new Router(request.policy, cooldownMinutes, repository, network, before, start, first);
    r, more := router.Dispatch(request.findings, request.serverKnown, request.dryRun);
    assert router.tried == more;
    log, clock := router.log, router.clock;
    forall fp | cooldownMinutes > 0 && repository && AllLogged(more, fp)
                && LookupsAnswer(network, request.findings, first, fp)
      ensures router.Guarded(fp)
    {
    }
  }

  lemma ServedAsTold(r: Routing, request: Request, cooldown: int, repository: bool, network: Network, first: nat,
                     log: seq<Row>, more: seq<Attempt>, from: int, to: int)
    requires Served(r, request, cooldown, repository, network, first, log, more, from, to)
    ensures Dispatched(more, first, r, request.dryRun, network, repository && request.serverKnown)
    ensures forall a :: a in more ==> a.ok == network.delivers(a.decision, a.place)
  {
    hide AllRightInTurn;
  }

  /**
   Dispatch after dispatch over one log, each with a new router, whatever tier or server it is for. Where the
   lookups for a fingerprint are answered and its deliveries logged, those deliveries and the ones in the log
   before keep the cooldown.
   */
  method DispatchInTurn(requests: seq<Request>, cooldownMinutes: int, repository: bool, network: Network,
                        before: seq<Row>, start: int)
    returns (log: seq<Row>, clock: int, results: seq<Routing>, ghost all: seq<Attempt>)
    requires NoneAhead(before, start)
    ensures start <= clock && NoneAhead(log, clock) && log == before + RowsOf(all)
    ensures |results| == |requests| && forall k :: 0 <= k < |requests| ==> Decides(results[k], requests[k].findings)
    ensures AllServed(results, requests, cooldownMinutes * 60_000_000, repository, network, before, all, start, clock)
    ensures OfFindings(all, Findings(requests))
    ensures forall a :: a in all ==> a.ok == network.delivers(a.decision, a.place)
    ensures forall fp :: cooldownMinutes > 0 && repository && AllLogged(all, fp)
                         && LookupsAnswer(network, Findings(requests), 0, fp) ==>
              Spaced(all, fp, cooldownMinutes * 60_000_000)
              && AfterThose(before, all, fp, cooldownMinutes * 60_000_000)
  {
    hide Spaced, AfterThose, AllLogged, NoneAhead, Timely, RowsOf, OfFindings, Dispatched, Decides, LookupsAnswer;
    hide AllRightInTurn, AllServed, Served;
    log, clock, results, all := before, start, [], [];
    var decided: nat := 0;
    NothingSoFar(before, cooldownMinutes * 60_000_000, start);
    NobodyServed(requests, cooldownMinutes * 60_000_000, repository, network, before, start);
    for k := 0 to |requests|
      invariant start <= clock && NoneAhead(log, clock) && log == before + RowsOf(all)
      invariant |results| == k && forall j :: 0 <= j < k ==> Decides(results[j], requests[j].findings)
      invariant decided == |Findings(requests[..k])|
      invariant AllServed(results, requests[..k], cooldownMinutes * 60_000_000, repository, network, before, all,
                          start, clock)
      invariant OfFindings(all, Findings(requests[..k])) && Timely(all, decided, clock)
      invariant forall a :: a in all ==> a.ok == network.delivers(a.decision, a.place)
      invariant forall fp :: cooldownMinutes > 0 && repository && AllLogged(all, fp)
                             && LookupsAnswer(network, Findings(requests[..k]), 0, fp) ==>
                  Spaced(all, fp, cooldownMinutes * 60_000_000)
                  && AfterThose(before, all, fp, cooldownMinutes * 60_000_000)
    {
      ghost var findings, now, request := Findings(requests[..k]), clock, requests[k];
      assert requests[..k + 1][..k] == requests[..k];
      assert Findings(requests[..k + 1]) == findings + request.findings;
      var r;
      ghost var more;
      log, clock, r, more :=
        DispatchNext(requests[k], cooldownMinutes, repository, network, log, clock, decided);
      ServedNext(results, requests, k, r, cooldownMinutes * 60_000_000, repository, network, before, all, start, now,
                 more, clock);
      ServedAsTold(r, request, cooldownMinutes * 60_000_000, repository, network, decided, before + RowsOf(all), more,
                   now, clock);
      NextDispatch(before, all, more, now, clock, decided, decided + |request.findings|, cooldownMinutes * 60_000_000);
      FindingsStep(all, findings, more, request, r, network, repository && request.serverKnown);
      forall fp | LookupsAnswer(network, findings + request.findings, 0, fp)
        ensures LookupsAnswer(network, findings, 0, fp) && LookupsAnswer(network, request.findings, decided, fp)
      {
        LookupsAnswerEach(network, findings, request.findings, fp);
      }
      RowsAdd(all, more);
      assert before + RowsOf(all) + RowsOf(more) == before + (RowsOf(all) + RowsOf(more));
      results := results + [r];
      all, decided := all + more, decided + |requests[k].findings|;
    }
    assert requests[..|requests|] == requests;
  }
}
