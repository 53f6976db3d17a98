/**
 Retention (storage/retention.py): expired rows are deleted in bounded batches, table by table, and a
 table that fails does not stop the others. A table is a set of timestamped rows; its clock moves
 forward between statements, and any statement may fail.
 */
module Retention {
  import opened Options

  datatype Row = Row(id: int, time: int)

  const SECONDS_PER_DAY := 86400

  /** DATEADD(day, -days, SYSUTCDATETIME()) */
  function Cutoff(now: int, days: int): int { now - days * SECONDS_PER_DAY }

  function Expired(rows: set<Row>, cutoff: int): set<Row> { set r | r in rows && r.time < cutoff }

  function Kept(rows: set<Row>, cutoff: int): set<Row> { set r | r in rows && r.time >= cutoff }

  function Min(a: int, b: int): int { if a <= b then a else b }

  /** From `before` to `after` only rows already expired at `cutoff` went, and none came. */
  ghost predicate OnlyExpiredGone(before: set<Row>, after: set<Row>, cutoff: int) {
    after <= before && before - after <= Expired(before, cutoff)
  }

  lemma GoneWereExpired(before: set<Row>, after: set<Row>, cutoff: int)
    requires OnlyExpiredGone(before, after, cutoff)
    ensures after <= before && forall row :: row in before && row !in after ==> row.time < cutoff
  {
    forall row | row in before && row !in after ensures row.time < cutoff { assert row in before - after; }
  }

  lemma SizeOfRest<T>(s: set<T>, part: set<T>)
    requires part <= s
    ensures |s - part| == |s| - |part| && |part| <= |s|
  {
    assert s == part + (s - part);
  }

  class Table {
    var rows: set<Row>
    var now: int
    /** How many statements the table has had, and which of them fail. */
    var executed: int
    const fails: int -> bool

    predicate LastFailed()
      reads this
    {
      fails(executed - 1)
    }

    /** One DELETE TOP (n): some n of the expired rows, or all of them if there are fewer. */
    method DeleteTop(n: int, days: int) returns (r: Result<int>)
      modifies this
      ensures now >= old(now) && executed == old(executed) + 1
      ensures r.Raised? <==> n < 0 || LastFailed()
      ensures r.Raised? ==> rows == old(rows)
      ensures r.Ok? ==>
                && OnlyExpiredGone(old(rows), rows, Cutoff(now, days))
                && r.value == |old(rows)| - |rows| == Min(n, |Expired(old(rows), Cutoff(now, days))|)
    {
      var tick: int := *;
      now := if tick > 0 then now + tick else now;
      executed := executed + 1;
      if n < 0 || LastFailed() {
        return Raised;
      }
      var candidates := Expired(rows, Cutoff(now, days));
      var victims: set<Row> := {};
      while |victims| < n && candidates - victims != {}
        invariant victims <= candidates
        invariant |victims| <= n
      {
        var r :| r in candidates - victims;
        victims := victims + {r};
      }
      SizeOfRest(candidates, victims);
      SizeOfRest(rows, victims);
      if |victims| < n { assert victims == candidates; }
      rows := rows - victims;
      return Ok(|victims|);
    }

    /** The plain DELETE the bookkeeping table gets. */
    method DeleteAll(days: int) returns (r: Result<int>)
      modifies this
      ensures now >= old(now) && executed == old(executed) + 1
      ensures r.Raised? <==> LastFailed()
      ensures r.Raised? ==> rows == old(rows)
      ensures r.Ok? ==> rows == Kept(old(rows), Cutoff(now, days)) && r.value == |old(rows)| - |rows|
      ensures r.Ok? ==> forall row :: row in rows <==> row in old(rows) && row.time >= now - days * 86_400
    {
      var tick: int := *;
      now := if tick > 0 then now + tick else now;
      executed := executed + 1;
      if LastFailed() {
        return Raised;
      }
      var victims := Expired(rows, Cutoff(now, days));
      SizeOfRest(rows, victims);
      assert rows - victims == Kept(rows, Cutoff(now, days));
      rows := rows - victims;
      return Ok(|victims|);
    }
  }

  lemma LaterCutoff(before: set<Row>, after: set<Row>, c1: int, c2: int)
    requires OnlyExpiredGone(before, after, c1) && c1 <= c2
    ensures OnlyExpiredGone(before, after, c2)
  {
  }

  lemma TwoStatements(first: set<Row>, second: set<Row>, third: set<Row>, cutoff: int)
    requires OnlyExpiredGone(first, second, cutoff) && OnlyExpiredGone(second, third, cutoff)
    ensures OnlyExpiredGone(first, third, cutoff)
  {
    assert first - third == (first - second) + (second - third);
  }

  /** A statement that had room to spare left nothing expired behind. */
  lemma ShortBatchIsLast(first: set<Row>, before: set<Row>, after: set<Row>, cutoff: int)
    requires OnlyExpiredGone(first, before, cutoff) && OnlyExpiredGone(before, after, cutoff)
    requires |before| - |after| == |Expired(before, cutoff)|
    ensures after == Kept(first, cutoff)
  {
    TwoStatements(first, before, after, cutoff);
    SizeOfRest(before, after);
    SizeOfRest(Expired(before, cutoff), before - after);
    assert Expired(before, cutoff) - (before - after) == {};
    assert before - after == Expired(before, cutoff);
    forall r | r in first ensures r in after <==> r.time >= cutoff {
      assert r in after && r.time < cutoff ==> r in Expired(before, cutoff);
      if r !in after { assert r in first - after; }
    }
  }

  lemma LeastMultiple(k: int, batch: int)
    requires k >= 1 && batch >= 1
    ensures k * batch >= batch
  {
  }

  lemma CountStatements(full: nat, batch: int, last: int)
    requires 0 <= last < batch
    ensures (full * batch + last) / batch == full
  {
    var q := (full * batch + last) / batch;
    var r := (full * batch + last) % batch;
    assert q * batch + r == full * batch + last;
    assert (q - full) * batch == last - r;
    if q > full { LeastMultiple(q - full, batch); }
    assert (full - q) * batch == r - last;
    if q < full { LeastMultiple(full - q, batch); }
  }

  lemma Unchanged(rows: set<Row>, cutoff: int)
    ensures OnlyExpiredGone(rows, rows, cutoff)
  {
  }

  lemma SameRows(before: set<Row>, after: set<Row>, cutoff: int)
    requires OnlyExpiredGone(before, after, cutoff) && |before| == |after|
    ensures before == after
  {
    SizeOfRest(before, after);
    assert before - after == {};
  }

  /**
   The batches together are one set delete at the cutoff of the last statement, done in exactly
   deleted / batch + 1 statements, for any row count and however the clock moves meanwhile. The first statement
   that fails ends it; what earlier batches deleted stays deleted, and only expired rows are ever gone.
   */
  method PruneByBatchedDelete(table: Table, days: int, batch: int) returns (r: Result<int>, ghost statements: nat)
    modifies table
    ensures table.now >= old(table.now) && table.executed == old(table.executed) + statements && statements >= 1
    ensures r.Raised? <==> batch < 0 || table.LastFailed()
    ensures batch >= 0 ==> forall i :: old(table.executed) <= i < table.executed - 1 ==> !table.fails(i)
    ensures OnlyExpiredGone(old(table.rows), table.rows, Cutoff(table.now, days))
    ensures r.Ok? && batch > 0 ==>
              && table.rows == Kept(old(table.rows), Cutoff(table.now, days))
              && (forall row :: row in table.rows <==> row in old(table.rows) && row.time >= table.now - days * 86_400)
              && statements == r.value / batch + 1
    ensures forall row :: row in old(table.rows) && row !in table.rows ==> row.time < table.now - days * 86_400
    ensures r.Ok? ==> r.value == |old(table.rows)| - |table.rows| && batch >= 0
    ensures batch <= 0 ==> table.rows == old(table.rows)
  {
    hide OnlyExpiredGone;
    var total := 0;
    statements := 0;
    Unchanged(table.rows, Cutoff(table.now, days));
    while true
      invariant table.now >= old(table.now) && table.executed == old(table.executed) + statements
      invariant forall i :: old(table.executed) <= i < table.executed ==> !table.fails(i)
      invariant OnlyExpiredGone(old(table.rows), table.rows, Cutoff(table.now, days))
      invariant total == |old(table.rows)| - |table.rows| == statements * batch
      invariant batch <= 0 ==> table.rows == old(table.rows)
      decreases |table.rows|
    {
      ghost var before := table.rows;
      ghost var cutoff := Cutoff(table.now, days);
      var outcome := table.DeleteTop(batch, days);
      LaterCutoff(old(table.rows), before, cutoff, Cutoff(table.now, days));
      TwoStatements(old(table.rows), before, table.rows, Cutoff(table.now, days));
      GoneWereExpired(old(table.rows), table.rows, Cutoff(table.now, days));
      if outcome.Raised? {
        return Raised, statements + 1;
      }
      var deleted := outcome.value;
      if batch > 0 && deleted < batch {
        ShortBatchIsLast(old(table.rows), before, table.rows, Cutoff(table.now, days));
        CountStatements(statements, batch, deleted);
      }
      statements := statements + 1;
      if deleted <= 0 {
        SameRows(before, table.rows, Cutoff(table.now, days));
        break;
      }
      total := total + deleted;
      if deleted < batch {
        break;
      }
    }
    return Ok(total), statements;
  }

  /** A second prune takes only what expired in between: nothing at all if no row did. */
  lemma SecondPrune(rows: set<Row>, first: int, second: int)
    requires first <= second
    ensures Kept(Kept(rows, first), second) == Kept(rows, second)
    ensures Kept(Kept(rows, first), second) == Kept(rows, first)
            <==> forall r :: r in rows ==> !(first <= r.time < second)
  {
    var once := Kept(rows, first);
    if forall r :: r in rows ==> !(first <= r.time < second) {
      assert Kept(once, second) == once;
    }
    if Kept(once, second) == once {
      forall r | r in rows ensures !(first <= r.time < second) {
        assert first <= r.time ==> r in once;
      }
    }
  }

  // ---------------------------------------------------------------- all tables

  /** `batched` is false for the run bookkeeping, which is deleted in one statement. */
  datatype Rule = Rule(name: string, table: Table, days: int, batched: bool)

  datatype PruneResult = PruneResult(deleted: map<string, int>, errors: set<string>)

  ghost predicate Distinct(rules: seq<Rule>) {
    forall i, j :: 0 <= i < j < |rules| ==> rules[i].name != rules[j].name && rules[i].table != rules[j].table
  }

  function Tables(rules: seq<Rule>): (tables: set<Table>)
    ensures forall i :: 0 <= i < |rules| ==> rules[i].table in tables
    ensures forall t :: t in tables ==> exists i :: 0 <= i < |rules| && rules[i].table == t
  {
    set i | 0 <= i < |rules| :: rules[i].table
  }

  function Names(rules: seq<Rule>, n: nat): (names: set<string>)
    requires n <= |rules|
    ensures forall i :: 0 <= i < n ==> rules[i].name in names
    ensures forall s :: s in names ==> exists i :: 0 <= i < n && rules[i].name == s
  {
    if n == 0 then {} else Names(rules, n - 1) + {rules[n - 1].name}
  }

  /** What prune did to one table: the whole set delete and its count, or a recorded error. */
  ghost predicate Settled(before: set<Row>, after: set<Row>, now: int, failed: bool, rule: Rule, batch: int,
                          result: PruneResult)
  {
    && (rule.name in result.deleted <==> rule.name !in result.errors)
    && (rule.name in result.errors <==> failed || (rule.batched && batch < 0))
    && after <= before && (forall row :: row in before && row !in after ==> row.time < now - rule.days * 86_400)
    && (rule.name in result.deleted ==>
          && after == (if !rule.batched || batch > 0
                       then set row | row in before && row.time >= now - rule.days * 86_400 else before)
          && result.deleted[rule.name] == |before| - |after|)
  }

  function Recorded(result: PruneResult, name: string, r: Result<int>): PruneResult {
    if r.Ok? then result.(deleted := result.deleted[name := r.value])
    else result.(errors := result.errors + {name})
  }

  /** Recording another table's outcome disturbs nothing. */
  lemma StillSettled(before: set<Row>, after: set<Row>, now: int, failed: bool, rule: Rule, batch: int,
                     result: PruneResult, name: string, r: Result<int>)
    requires Settled(before, after, now, failed, rule, batch, result) && rule.name != name
    ensures Settled(before, after, now, failed, rule, batch, Recorded(result, name, r))
  {
  }

  lemma NewlySettled(before: set<Row>, after: set<Row>, now: int, failed: bool, rule: Rule, batch: int,
                     result: PruneResult, r: Result<int>)
    requires rule.name !in result.deleted.Keys + result.errors
    requires r.Raised? <==> failed || (rule.batched && batch < 0)
    requires OnlyExpiredGone(before, after, Cutoff(now, rule.days))
    requires r.Ok? ==>
               && after == (if !rule.batched || batch > 0 then Kept(before, Cutoff(now, rule.days)) else before)
               && r.value == |before| - |after|
    ensures Settled(before, after, now, failed, rule, batch, Recorded(result, rule.name, r))
  {
    GoneWereExpired(before, after, Cutoff(now, rule.days));
  }

  lemma NamesRecorded(rules: seq<Rule>, n: nat, result: PruneResult, r: Result<int>)
    requires Distinct(rules) && n < |rules| && result.deleted.Keys + result.errors == Names(rules, n)
    ensures rules[n].name !in Names(rules, n)
    ensures var next := Recorded(result, rules[n].name, r);
            next.deleted.Keys + next.errors == Names(rules, n + 1)
  {
  }

  ghost function Snapshot(rules: seq<Rule>): (s: seq<set<Row>>)
    reads set i | 0 <= i < |rules| :: rules[i].table
    ensures |s| == |rules|
    ensures forall i :: 0 <= i < |rules| ==> s[i] == rules[i].table.rows
  {
    if rules == [] then [] else Snapshot(rules[..|rules| - 1]) + [rules[|rules| - 1].table.rows]
  }

  /** The same, about a table as it stands now. */
  ghost predicate SettledNow(before: set<Row>, rule: Rule, batch: int, result: PruneResult)
    reads rule.table
  {
    Settled(before, rule.table.rows, rule.table.now, rule.table.LastFailed(), rule, batch, result)
  }

  method PruneOne(rule: Rule, batch: int) returns (r: Result<int>)
    modifies rule.table
    ensures r.Raised? <==> rule.table.LastFailed() || (rule.batched && batch < 0)
    ensures OnlyExpiredGone(old(rule.table.rows), rule.table.rows, Cutoff(rule.table.now, rule.days))
    ensures r.Ok? ==>
              && rule.table.rows == (if !rule.batched || batch > 0
                                     then Kept(old(rule.table.rows), Cutoff(rule.table.now, rule.days))
                                     else old(rule.table.rows))
              && r.value == |old(rule.table.rows)| - |rule.table.rows|
  {
    if rule.batched {
      ghost var statements;
      r, statements := PruneByBatchedDelete(rule.table, rule.days, batch);
    } else {
      r := rule.table.DeleteAll(rule.days);
    }
  }

  /** One round of the loop: settles table n, disturbs nothing already settled or still to come. */
  method PruneNext(rules: seq<Rule>, n: nat, batch: int, result: PruneResult, ghost start: seq<set<Row>>)
    returns (next: PruneResult)
    requires Distinct(rules) && n < |rules| == |start|
    requires result.deleted.Keys + result.errors == Names(rules, n)
    requires forall i :: n <= i < |rules| ==> rules[i].table.rows == start[i]
    requires forall i :: 0 <= i < n ==> SettledNow(start[i], rules[i], batch, result)
    modifies rules[n].table
    ensures next.deleted.Keys + next.errors == Names(rules, n + 1)
    ensures forall i :: n < i < |rules| ==> rules[i].table.rows == start[i]
    ensures forall i :: 0 <= i <= n ==> SettledNow(start[i], rules[i], batch, next)
  {
    hide Settled, OnlyExpiredGone, Names, Recorded;
    var rule := rules[n];
    var r := PruneOne(rule, batch);
    next := Recorded(result, rule.name, r);
    NamesRecorded(rules, n, result, r);
    NewlySettled(start[n], rule.table.rows, rule.table.now, rule.table.LastFailed(), rule, batch, result, r);
    forall i | 0 <= i < n ensures SettledNow(start[i], rules[i], batch, next) {
      assert rules[i].table != rule.table && rules[i].name != rule.name;
      assert old(SettledNow(start[i], rules[i], batch, result));
      StillSettled(start[i], rules[i].table.rows, rules[i].table.now, rules[i].table.LastFailed(), rules[i], batch,
                   result, rule.name, r);
    }
  }

  /**
   Every table ends in exactly one of `deleted` and `errors`, and among the errors exactly when its last statement
   failed or the batch size is negative. A batch size of zero deletes nothing.
   */
  method Prune(rules: seq<Rule>, batch: int) returns (result: PruneResult)
    requires Distinct(rules)
    modifies Tables(rules)
    ensures result.deleted.Keys + result.errors == Names(rules, |rules|)
    ensures forall i :: 0 <= i < |rules| ==> SettledNow(old(rules[i].table.rows), rules[i], batch, result)
  {
    hide Settled, OnlyExpiredGone;
    ghost var start := Snapshot(rules);
    result := PruneResult(map[], {});
    for n := 0 to |rules|
      invariant result.deleted.Keys + result.errors == Names(rules, n)
      invariant forall i :: n <= i < |rules| ==> rules[i].table.rows == start[i]
      invariant forall i :: 0 <= i < n ==> SettledNow(start[i], rules[i], batch, result)
    {
      hide SettledNow, Names;
      result := PruneNext(rules, n, batch, result, start);
    }
  }
}
