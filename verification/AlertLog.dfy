/**
 The alert_log table (repository.py, schema.sql) as the cooldown reads it. Instants and stamps are whole
 microseconds; a stored stamp is a DATETIME2(0), rounded to the nearest second.
 */
module AlertLog {
  import opened Options

  const SECOND: int := 1_000_000
  const MINUTE: int := 60 * SECOND

  datatype Row = Row(fingerprint: string, channel: string, ok: bool, stamp: int)

  /** DATETIME2(0) of an instant. */
  function Stamp(instant: int): int { (instant + SECOND / 2) / SECOND * SECOND }

  predicate Whole(t: int) { t % SECOND == 0 }

  lemma StampIsNear(t: int)
    ensures Whole(Stamp(t)) && Stamp(t) % 1_000_000 == 0 && -500_000 < Stamp(t) - t <= 500_000
  {
  }

  lemma StampMonotone(s: int, t: int)
    requires s <= t
    ensures Stamp(s) <= Stamp(t)
  {
  }

  lemma StampOfWhole(t: int)
    requires Whole(t)
    ensures Stamp(t) == t
  {
    assert t == t / SECOND * SECOND;
  }

  /** SELECT MAX(sent_utc) ... WHERE fingerprint = ? AND ok = 1 */
  function LastAlert(log: seq<Row>, fp: string): Option<int> {
    if log == [] then None
    else
      var row, before := log[|log| - 1], LastAlert(log[..|log| - 1], fp);
      if row.fingerprint != fp || !row.ok then before
      else if before.Some? && before.value > row.stamp then before
      else Some(row.stamp)
  }

  predicate Delivered(row: Row, fp: string) { row.fingerprint == fp && row.ok }

  lemma {:induction false} LastAlertIsNewest(log: seq<Row>, fp: string)
    ensures match LastAlert(log, fp)
            case None => forall row :: row in log ==> !Delivered(row, fp)
            case Some(last) => && (forall row :: row in log && Delivered(row, fp) ==> row.stamp <= last)
                               && exists row :: row in log && Delivered(row, fp) && row.stamp == last
  {
    if log != [] { LastAlertIsNewest(log[..|log| - 1], fp); }
  }

  lemma LastAlertStep(log: seq<Row>, row: Row, fp: string)
    ensures !Delivered(row, fp) ==> LastAlert(log + [row], fp) == LastAlert(log, fp)
  {
    assert (log + [row])[..|log|] == log;
  }

  /** (now - last) < timedelta(minutes = cooldown), where there is a last. */
  predicate Cooling(log: seq<Row>, fp: string, now: int, cooldown: int) {
    match LastAlert(log, fp)
    case None => false
    case Some(last) => now - last < cooldown
  }

  /** Not cooling means that every delivered row of the fingerprint is at least the cooldown old. */
  lemma CooledDown(log: seq<Row>, fp: string, now: int, cooldown: int)
    ensures !Cooling(log, fp, now, cooldown)
            <==> forall row :: row in log && Delivered(row, fp) ==> row.stamp + cooldown <= now
  {
    LastAlertIsNewest(log, fp);
  }

  /**
   A check that passes at `check` and a log entry made no earlier than that: the stored stamps of the
   two alerts are the whole cooldown apart, the sends themselves only up to half a second less.
   */
  lemma ApartByCooldown(earlierSend: int, earlierLog: int, check: int, send: int, logged: int,
                        cooldown: int)
    requires Whole(cooldown)
    requires earlierSend <= earlierLog && Stamp(earlierLog) + cooldown <= check <= send <= logged
    ensures Stamp(logged) - Stamp(earlierLog) >= cooldown
    ensures send - earlierSend > cooldown - SECOND / 2
    ensures Stamp(earlierLog) >= earlierSend ==> send - earlierSend >= cooldown
  {
    StampIsNear(earlierLog);
    StampOfWhole(Stamp(earlierLog) + cooldown);
    StampMonotone(Stamp(earlierLog) + cooldown, logged);
  }

  /**
   By the clock: a check lets nothing through within the cooldown of an earlier send exactly when the newest
   delivered stamp is no earlier than that send.
   */
  lemma ClockSpacingExactly(log: seq<Row>, fp: string, send: int, cooldown: int)
    requires LastAlert(log, fp).Some?
    ensures (forall now :: !Cooling(log, fp, now, cooldown) ==> now - send >= cooldown)
            <==> send <= LastAlert(log, fp).value
  {
    var last := LastAlert(log, fp).value;
    if forall now :: !Cooling(log, fp, now, cooldown) ==> now - send >= cooldown {
      assert !Cooling(log, fp, last + cooldown, cooldown);
    }
  }

  /**
   For one delivery, logged when nothing newer was: the checks that follow keep the whole cooldown from its
   send exactly when the stamp did not round to before the send.
   */
  lemma DeliverySpacingExactly(log: seq<Row>, fp: string, channel: string, send: int, logged: int,
                               cooldown: int)
    requires forall row :: row in log && Delivered(row, fp) ==> row.stamp <= Stamp(logged)
    ensures var after := log + [Row(fp, channel, true, Stamp(logged))];
            (forall now :: !Cooling(after, fp, now, cooldown) ==> now - send >= cooldown)
            <==> Stamp(logged) >= send
  {
    var row := Row(fp, channel, true, Stamp(logged));
    var after := log + [row];
    LastAlertIsNewest(after, fp);
    assert row in after && Delivered(row, fp);
    ClockSpacingExactly(after, fp, send, cooldown);
  }

  /** When that is: the row is logged in the second half of a second, or in a later second than the send. */
  lemma StampCoversSendExactly(send: int, logged: int)
    requires send <= logged
    ensures Stamp(logged) >= send
            <==> logged % SECOND >= SECOND / 2 || send <= logged - logged % SECOND
  {
    var second := logged / SECOND;
    assert logged == second * SECOND + logged % SECOND;
    if logged % SECOND >= SECOND / 2 {
      StampOfWhole((second + 1) * SECOND);
    }
  }
}
