/**
 The sustained-CPU rule end to end: the stored history (storage/repository.py, `recent_values`), the
 average of its newest N samples (analyze/derive.py, `sustained_average`), and the severity
 (analyze/thresholds.py, `_cpu_rules`).
 */
module SustainedCpu {
  import opened Options
  import opened Permutations
  import opened Reals
  import opened Rounding
  import opened Severities

  datatype Sample = Sample(server: int, at: int, value: Option<real>)

  // ---------------------------------------------------------------- the query

  function ServerRows(table: seq<Sample>, server: int): seq<Sample> {
    if table == [] then []
    else (if table[0].server == server then [table[0]] else []) + ServerRows(table[1..], server)
  }

  /** A row no other row is newer than. */
  function Newest(rows: seq<Sample>): (i: nat)
    requires rows != []
    ensures i < |rows|
    ensures forall j :: 0 <= j < |rows| ==> rows[j].at <= rows[i].at
  {
    if |rows| == 1 then 0
    else
      var n := |rows| - 1;
      var i := Newest(rows[..n]);
      assert forall j :: 0 <= j < n ==> rows[..n][j] == rows[j];
      if rows[i].at <= rows[n].at then n else i
  }

  /** TOP (limit) ... ORDER BY collected_at_utc DESC, over rows in any order. */
  function TopNewest(rows: seq<Sample>, limit: nat): (top: seq<Sample>)
    ensures |top| == if limit <= |rows| then limit else |rows|
  {
    if limit == 0 || rows == [] then []
    else
      var i := Newest(rows);
      [rows[i]] + TopNewest(RemoveAt(rows, i), limit - 1)
  }

  function ReversedValues(rows: seq<Sample>): (values: seq<Option<real>>)
    ensures |values| == |rows|
  {
    if rows == [] then [] else ReversedValues(rows[1..]) + [rows[0].value]
  }

  /** Oldest first. A negative TOP is refused by the server. */
  function RecentValues(table: seq<Sample>, server: int, limit: int): Result<seq<Option<real>>> {
    if limit < 0 then Raised else Ok(ReversedValues(TopNewest(ServerRows(table, server), limit)))
  }

  // ---------------------------------------------------------------- the average

  function NonNull(values: seq<Option<real>>): seq<real> {
    if values == [] then []
    else (if values[0].Some? then [values[0].value] else []) + NonNull(values[1..])
  }

  function Sum(values: seq<real>): real {
    if values == [] then 0.0 else values[0] + Sum(values[1..])
  }

  function Mean(values: seq<real>): real
    requires values != []
  {
    Ratio(Sum(values), |values| as real)
  }

  function SustainedAverage(values: seq<Option<real>>, samples: int): Option<real> {
    var usable := NonNull(values);
    if |usable| < samples || samples <= 0 then None
    else Some(Round(Mean(usable[|usable| - samples..]), 2))
  }

  /** The whole rule: what the configured thresholds make of one server's stored history. */
  function CpuSeverity(table: seq<Sample>, server: int, samples: int,
                       warn: Option<real>, crit: Option<real>): Result<Option<Severity>>
  {
    var values := RecentValues(table, server, samples);
    if values.Raised? then Raised
    else Ok(HigherIsWorse(SustainedAverage(values.value, samples), warn, crit))
  }

  // ---------------------------------------------------------------- what the query returns

  /** No two samples of a server carry one stored time. */
  ghost predicate DistinctTimes(rows: seq<Sample>) {
    forall i, j :: 0 <= i < j < |rows| ==> rows[i].at != rows[j].at
  }

  ghost predicate Chronological(rows: seq<Sample>) {
    forall i, j :: 0 <= i < j < |rows| ==> rows[i].at < rows[j].at
  }

  function Values(rows: seq<Sample>): (values: seq<Option<real>>)
    ensures |values| == |rows|
    ensures forall i :: 0 <= i < |rows| ==> values[i] == rows[i].value
  {
    seq(|rows|, i requires 0 <= i < |rows| => rows[i].value)
  }

  function NewestRows(rows: seq<Sample>, n: nat): seq<Sample> {
    if n <= |rows| then rows[|rows| - n..] else rows
  }

  lemma NewestIsLast(rows: seq<Sample>)
    requires Chronological(rows) && rows != []
    ensures Newest(rows) == |rows| - 1
  {
    assert rows[|rows| - 1].at <= rows[Newest(rows)].at;
  }

  lemma TopStep(rows: seq<Sample>, limit: nat)
    requires Chronological(rows) && rows != [] && limit > 0
    ensures TopNewest(rows, limit) == [rows[|rows| - 1]] + TopNewest(rows[..|rows| - 1], limit - 1)
  {
    hide Newest;
    NewestIsLast(rows);
    var n := |rows| - 1;
    assert RemoveAt(rows, n) == rows[..n];
  }

  lemma SuffixStep(rows: seq<Sample>, limit: nat)
    requires rows != [] && limit > 0
    ensures var n := |rows| - 1;
            Values(NewestRows(rows, limit)) == Values(NewestRows(rows[..n], limit - 1)) + [rows[n].value]
  {
    var n := |rows| - 1;
    assert NewestRows(rows, limit) == NewestRows(rows[..n], limit - 1) + [rows[n]];
  }

  lemma ReversedStep(row: Sample, rest: seq<Sample>)
    ensures ReversedValues([row] + rest) == ReversedValues(rest) + [row.value]
  {
    assert ([row] + rest)[1..] == rest;
  }

  lemma {:induction false} RecentIsSuffix(rows: seq<Sample>, limit: nat)
    requires Chronological(rows)
    ensures ReversedValues(TopNewest(rows, limit)) == Values(NewestRows(rows, limit))
  {
    if limit == 0 || rows == [] {
      assert Values(NewestRows(rows, limit)) == [];
    } else {
      hide TopNewest, ReversedValues, Values, NewestRows;
      var n := |rows| - 1;
      TopStep(rows, limit);
      RecentIsSuffix(rows[..n], limit - 1);
      ReversedStep(rows[n], TopNewest(rows[..n], limit - 1));
      SuffixStep(rows, limit);
    }
  }

  // ---------------------------------------------------------------- rows listed in any order

  /** The rows by time, oldest first. */
  function InOrder(rows: seq<Sample>): (r: seq<Sample>)
    ensures multiset(r) == multiset(rows) && |r| == |rows|
  {
    if rows == [] then []
    else
      var i := Newest(rows);
      Without(rows, i);
      InOrder(RemoveAt(rows, i)) + [rows[i]]
  }

  lemma StillDistinct(rows: seq<Sample>, i: nat)
    requires DistinctTimes(rows) && i < |rows|
    ensures DistinctTimes(RemoveAt(rows, i))
    ensures forall r :: r in RemoveAt(rows, i) ==> r in rows && r.at != rows[i].at
  {
  }

  lemma {:induction false} InOrderIsChronological(rows: seq<Sample>)
    requires DistinctTimes(rows)
    ensures Chronological(InOrder(rows))
    decreases |rows|
  {
    hide RemoveAt, Newest, DistinctTimes;
    if rows != [] {
      var i := Newest(rows);
      var rest := RemoveAt(rows, i);
      StillDistinct(rows, i);
      InOrderIsChronological(rest);
      forall k | 0 <= k < |rest| ensures InOrder(rest)[k].at < rows[i].at {
        assert InOrder(rest)[k] in multiset(InOrder(rest));
        assert InOrder(rest)[k] in rest;
      }
    }
  }

  lemma SameNewestRow(a: seq<Sample>, b: seq<Sample>)
    requires multiset(a) == multiset(b) && DistinctTimes(a) && a != []
    ensures b != [] && a[Newest(a)] == b[Newest(b)]
  {
    assert |a| == |multiset(a)| && |b| == |multiset(b)|;
    var i, j := Newest(a), Newest(b);
    assert a[i] in multiset(b) && b[j] in multiset(a);
    hide Newest;
    var k :| 0 <= k < |a| && a[k] == b[j];
  }

  lemma TopTakesNewest(rows: seq<Sample>, limit: nat)
    requires rows != [] && limit > 0
    ensures var i := Newest(rows);
            TopNewest(rows, limit) == [rows[i]] + TopNewest(RemoveAt(rows, i), limit - 1)
  {
  }

  lemma TopOfNothing(rows: seq<Sample>, limit: nat)
    requires limit == 0 || rows == []
    ensures TopNewest(rows, limit) == []
  {
  }

  /** What the query returns depends on the rows, not on how the table lists them. */
  lemma {:induction false} TopIgnoresListing(a: seq<Sample>, b: seq<Sample>, limit: nat)
    requires multiset(a) == multiset(b) && DistinctTimes(a)
    ensures TopNewest(a, limit) == TopNewest(b, limit)
    decreases |a|
  {
    hide TopNewest, Newest, DistinctTimes, RemoveAt;
    assert |a| == |multiset(a)| && |b| == |multiset(b)|;
    if limit == 0 || a == [] {
      TopOfNothing(a, limit);
      TopOfNothing(b, limit);
    } else {
      SameNewestRow(a, b);
      var i, j := Newest(a), Newest(b);
      Without(a, i);
      Without(b, j);
      Cancel(multiset(RemoveAt(a, i)), multiset(RemoveAt(b, j)), a[i]);
      StillDistinct(a, i);
      TopIgnoresListing(RemoveAt(a, i), RemoveAt(b, j), limit - 1);
      TopTakesNewest(a, limit);
      TopTakesNewest(b, limit);
    }
  }

  /** A server's stored samples by time. */
  function History(table: seq<Sample>, server: int): seq<Sample> { InOrder(ServerRows(table, server)) }

  lemma {:induction false} ServerRowsExactly(table: seq<Sample>, server: int, r: Sample)
    ensures multiset(ServerRows(table, server))[r] == if r.server == server then multiset(table)[r] else 0
  {
    if table != [] {
      ServerRowsExactly(table[1..], server, r);
      assert table == [table[0]] + table[1..];
    }
  }

  /** The history holds exactly the table's rows of that server, each as often as the table, oldest first. */
  lemma HistoryExactly(table: seq<Sample>, server: int)
    ensures forall r :: multiset(History(table, server))[r] == if r.server == server then multiset(table)[r] else 0
    ensures DistinctTimes(ServerRows(table, server)) ==> Chronological(History(table, server))
  {
    hide ServerRows, InOrder;
    forall r ensures multiset(History(table, server))[r] == if r.server == server then multiset(table)[r] else 0 {
      ServerRowsExactly(table, server, r);
    }
    if DistinctTimes(ServerRows(table, server)) { InOrderIsChronological(ServerRows(table, server)); }
  }

  /** The rule sees the values of the newest rows and nothing else. */
  lemma RecentValuesAreNewest(table: seq<Sample>, server: int, limit: nat)
    requires DistinctTimes(ServerRows(table, server))
    ensures RecentValues(table, server, limit) == Ok(Values(NewestRows(History(table, server), limit)))
  {
    var rows := ServerRows(table, server);
    TopIgnoresListing(rows, InOrder(rows), limit);
    InOrderIsChronological(rows);
    RecentIsSuffix(InOrder(rows), limit);
  }

  // ---------------------------------------------------------------- when there is an average

  lemma {:induction false} NonNullCount(values: seq<Option<real>>)
    ensures |NonNull(values)| <= |values|
    ensures |NonNull(values)| == |values| <==> forall i :: 0 <= i < |values| ==> values[i].Some?
    ensures |NonNull(values)| == |values| ==> forall i :: 0 <= i < |values| ==> NonNull(values)[i] == values[i].value
  {
    if values != [] {
      var rest := values[1..];
      NonNullCount(rest);
      assert forall i :: 0 < i < |values| ==> values[i] == rest[i - 1];
      if |NonNull(values)| == |values| {
        assert values[0].Some?;
        forall i | 0 <= i < |values| ensures values[i].Some? && NonNull(values)[i] == values[i].value {
          if i > 0 { assert rest[i - 1].Some?; }
        }
      } else if values[0].Some? {
        assert exists i :: 0 <= i < |rest| && !rest[i].Some?;
        var i :| 0 <= i < |rest| && !rest[i].Some?;
        assert !values[i + 1].Some?;
      }
    }
  }

  /** The average the rule computes for a server, or None. */
  function RuleAverage(table: seq<Sample>, server: int, samples: nat): Option<real> {
    SustainedAverage(RecentValues(table, server, samples).value, samples)
  }

  ghost predicate FullWindow(rows: seq<Sample>, samples: nat) {
    |rows| >= samples && forall i :: |rows| - samples <= i < |rows| ==> rows[i].value.Some?
  }

  ghost predicate NoGaps(values: seq<Option<real>>) {
    forall i :: 0 <= i < |values| ==> values[i].Some?
  }

  /** At most `samples` values were fetched, so the average needs all of them, none null. */
  lemma AverageOfWindow(values: seq<Option<real>>, samples: nat)
    requires 0 < samples && |values| <= samples
    ensures SustainedAverage(values, samples).Some? <==> |values| == samples && NoGaps(values)
    ensures |values| == samples && NoGaps(values) ==>
              SustainedAverage(values, samples) == Some(Round(Mean(NonNull(values)), 2))
  {
    hide Round, Mean;
    NonNullCount(values);
    var usable := NonNull(values);
    if |usable| == samples { assert usable[|usable| - samples..] == usable; }
  }

  lemma WindowIsFull(rows: seq<Sample>, samples: nat)
    ensures |NewestRows(rows, samples)| <= samples
    ensures |Values(NewestRows(rows, samples))| == samples && NoGaps(Values(NewestRows(rows, samples)))
            <==> FullWindow(rows, samples)
  {
    if |rows| >= samples {
      var w := NewestRows(rows, samples);
      assert forall i :: 0 <= i < samples ==> w[i] == rows[|rows| - samples + i];
      if NoGaps(Values(w)) {
        forall i | |rows| - samples <= i < |rows| ensures rows[i].value.Some? {
          assert Values(w)[i - (|rows| - samples)].Some?;
        }
      }
    }
  }

  /**
   For N > 0 there is an average exactly when the newest N rows exist and none of them is null: a gap
   inside the window is not bridged by an older sample.
   */
  lemma AverageExistsExactly(table: seq<Sample>, server: int, samples: nat)
    requires samples > 0 && DistinctTimes(ServerRows(table, server))
    ensures RuleAverage(table, server, samples).Some? <==> FullWindow(History(table, server), samples)
  {
    hide SustainedAverage, NewestRows;
    var rows := History(table, server);
    RecentValuesAreNewest(table, server, samples);
    WindowIsFull(rows, samples);
    AverageOfWindow(Values(NewestRows(rows, samples)), samples);
  }

  /** Nothing older than the newest N rows of this server, and no other server, plays any part. */
  lemma OnlyNewestMatter(table: seq<Sample>, other: seq<Sample>, server: int, samples: nat,
                         warn: Option<real>, crit: Option<real>)
    requires DistinctTimes(ServerRows(table, server)) && DistinctTimes(ServerRows(other, server))
    requires NewestRows(History(table, server), samples) == NewestRows(History(other, server), samples)
    ensures CpuSeverity(table, server, samples, warn, crit) == CpuSeverity(other, server, samples, warn, crit)
  {
    RecentValuesAreNewest(table, server, samples);
    RecentValuesAreNewest(other, server, samples);
  }

  // ---------------------------------------------------------------- where it lies

  lemma {:induction false} SumBounds(values: seq<real>, lo: real, hi: real)
    requires forall i :: 0 <= i < |values| ==> lo <= values[i] <= hi
    ensures Product(|values| as real, lo) <= Sum(values) <= Product(|values| as real, hi)
  {
    hide Product;
    if values == [] {
      ProductSign(0.0, lo);
      ProductSign(0.0, hi);
    } else {
      SumBounds(values[1..], lo, hi);
      assert |values| as real == 1.0 + |values[1..]| as real;
      ProductOneMore(|values[1..]| as real, lo);
      ProductOneMore(|values[1..]| as real, hi);
    }
  }

  lemma MeanBounds(values: seq<real>, lo: real, hi: real)
    requires values != [] && forall i :: 0 <= i < |values| ==> lo <= values[i] <= hi
    ensures lo <= Mean(values) <= hi
  {
    hide Ratio, Product;
    var n := |values| as real;
    SumBounds(values, lo, hi);
    RatioMonotone(Product(n, lo), Sum(values), n);
    RatioMonotone(Sum(values), Product(n, hi), n);
    Commute(n, lo);
    Commute(n, hi);
    Quotient(lo, n);
    Quotient(hi, n);
  }

  lemma WindowValues(rows: seq<Sample>, samples: nat, lo: real, hi: real)
    requires FullWindow(rows, samples)
    requires forall i :: |rows| - samples <= i < |rows| ==> lo <= rows[i].value.value <= hi
    ensures var w := Values(NewestRows(rows, samples));
            forall i :: 0 <= i < |w| ==> w[i].Some? && lo <= w[i].value <= hi
  {
  }

  /** The average lies between the smallest and largest of the newest N values, rounded. */
  lemma AverageLiesWithin(table: seq<Sample>, server: int, samples: nat, lo: real, hi: real)
    requires samples > 0 && DistinctTimes(ServerRows(table, server))
    requires FullWindow(History(table, server), samples)
    requires var rows := History(table, server);
             forall i :: |rows| - samples <= i < |rows| ==> lo <= rows[i].value.value <= hi
    ensures RuleAverage(table, server, samples).Some?
    ensures Round(lo, 2) <= RuleAverage(table, server, samples).value <= Round(hi, 2)
  {
    hide SustainedAverage, NewestRows, Mean, Round;
    var rows := History(table, server);
    RecentValuesAreNewest(table, server, samples);
    WindowIsFull(rows, samples);
    WindowValues(rows, samples, lo, hi);
    var values := Values(NewestRows(rows, samples));
    AverageOfWindow(values, samples);
    NonNullCount(values);
    MeanBounds(NonNull(values), lo, hi);
    RoundMonotone(lo, Mean(NonNull(values)), 2);
    RoundMonotone(Mean(NonNull(values)), hi, 2);
  }

  // ---------------------------------------------------------------- what it is

  /** The values of the newest n rows added up, a null counting as nothing. */
  function TotalOfNewest(rows: seq<Sample>, n: nat): real {
    if n == 0 || rows == [] then 0.0
    else
      var last := rows[|rows| - 1].value;
      (if last.Some? then last.value else 0.0) + TotalOfNewest(rows[..|rows| - 1], n - 1)
  }

  lemma {:induction false} SumLast(values: seq<real>, v: real)
    ensures Sum(values + [v]) == Sum(values) + v
  {
    if values == [] {
      assert [] + [v] == [v];
    } else {
      assert (values + [v])[1..] == values[1..] + [v];
      SumLast(values[1..], v);
    }
  }

  lemma NonNullFirst(v: Option<real>, rest: seq<Option<real>>)
    ensures NonNull([v] + rest) == (if v.Some? then [v.value] else []) + NonNull(rest)
  {
    assert ([v] + rest)[1..] == rest;
  }

  lemma {:induction false} NonNullLast(values: seq<Option<real>>, v: Option<real>)
    ensures NonNull(values + [v]) == NonNull(values) + if v.Some? then [v.value] else []
  {
    if values == [] {
      assert [] + [v] == [v] + [];
      NonNullFirst(v, []);
    } else {
      hide NonNull;
      var head, rest := values[0], values[1..];
      assert values + [v] == [head] + (rest + [v]) && values == [head] + rest;
      NonNullFirst(head, rest + [v]);
      NonNullFirst(head, rest);
      NonNullLast(rest, v);
    }
  }

  lemma {:induction false} WindowTotal(rows: seq<Sample>, n: nat)
    ensures Sum(NonNull(Values(NewestRows(rows, n)))) == TotalOfNewest(rows, n)
  {
    if n == 0 || rows == [] {
      assert Values(NewestRows(rows, n)) == [];
    } else {
      hide NewestRows, Values, Sum, NonNull;
      var last := rows[|rows| - 1].value;
      SuffixStep(rows, n);
      WindowTotal(rows[..|rows| - 1], n - 1);
      var before := Values(NewestRows(rows[..|rows| - 1], n - 1));
      NonNullLast(before, last);
      if last.Some? { SumLast(NonNull(before), last.value); } else { assert NonNull(before) + [] == NonNull(before); }
    }
  }

  /** n times the average is the total, to half a hundredth each. */
  predicate AveragesTo(average: real, n: real, total: real) {
    -0.005 * n <= average * n - total <= 0.005 * n
  }

  lemma MeanTimesCount(values: seq<real>)
    requires values != []
    ensures AveragesTo(Round(Mean(values), 2), |values| as real, Sum(values))
  {
    hide Round, Ratio, Sum;
    assert Pow10(2) == 100.0;
    RoundError(Mean(values), 2);
    MultipliesBack(Sum(values), |values| as real, Round(Mean(values), 2), 0.005);
  }

  lemma AverageOfRecent(table: seq<Sample>, server: int, samples: nat)
    ensures RuleAverage(table, server, samples) == SustainedAverage(RecentValues(table, server, samples).value, samples)
  {
  }

  /** N times the average is the total of the newest N stored values, to N half hundredths. */
  lemma AverageTimesCount(table: seq<Sample>, server: int, samples: nat)
    requires samples > 0 && DistinctTimes(ServerRows(table, server))
    requires FullWindow(History(table, server), samples)
    ensures RuleAverage(table, server, samples).Some?
    ensures AveragesTo(RuleAverage(table, server, samples).value, samples as real,
                       TotalOfNewest(History(table, server), samples))
  {
    hide AveragesTo, SustainedAverage, RuleAverage, NewestRows, Round, Mean, FullWindow;
    hide TotalOfNewest, Sum, NonNull, Values;
    var rows := History(table, server);
    RecentValuesAreNewest(table, server, samples);
    AverageOfRecent(table, server, samples);
    WindowIsFull(rows, samples);
    var values := Values(NewestRows(rows, samples));
    AverageOfWindow(values, samples);
    WindowTotal(rows, samples);
    NonNullCount(values);
    MeanTimesCount(NonNull(values));
  }

  lemma {:induction false} SumTakes(b: seq<real>, k: nat)
    requires k < |b|
    ensures Sum(b) == b[k] + Sum(b[..k] + b[k + 1..])
  {
    if k == 0 {
      assert b[..0] + b[1..] == b[1..];
    } else {
      var rest := b[..k] + b[k + 1..];
      assert rest[1..] == b[1..][..k - 1] + b[1..][k..] && rest[0] == b[0];
      SumTakes(b[1..], k - 1);
    }
  }

  lemma {:induction false} SumPermutes(a: seq<real>, b: seq<real>)
    requires multiset(a) == multiset(b)
    ensures Sum(a) == Sum(b)
  {
    if a == [] {
      assert |b| == |multiset(b)| == 0;
    } else {
      var k := TakeOut(a, b);
      SumPermutes(a[1..], b[..k] + b[k + 1..]);
      SumTakes(b, k);
    }
  }

  lemma GapsIgnoreOrder(a: seq<Option<real>>, b: seq<Option<real>>)
    requires multiset(a) == multiset(b)
    ensures NoGaps(a) ==> NoGaps(b)
  {
    forall i | NoGaps(a) && 0 <= i < |b| ensures b[i].Some? {
      assert b[i] in multiset(a);
      var j :| 0 <= j < |a| && a[j] == b[i];
    }
  }

  lemma {:induction false} NonNullExactly(values: seq<Option<real>>, v: real)
    ensures multiset(NonNull(values))[v] == multiset(values)[Some(v)]
  {
    if values != [] {
      var head, rest := values[0], values[1..];
      assert values == [head] + rest;
      NonNullFirst(head, rest);
      NonNullExactly(rest, v);
      assert multiset(values) == multiset{head} + multiset(rest);
    }
  }

  lemma NonNullPermutes(a: seq<Option<real>>, b: seq<Option<real>>)
    requires multiset(a) == multiset(b)
    ensures multiset(NonNull(a)) == multiset(NonNull(b))
  {
    forall v ensures multiset(NonNull(a))[v] == multiset(NonNull(b))[v] {
      NonNullExactly(a, v);
      NonNullExactly(b, v);
    }
  }

  /** The order of the values within the window makes no difference. */
  lemma AverageIgnoresOrder(a: seq<Option<real>>, b: seq<Option<real>>, samples: nat)
    requires multiset(a) == multiset(b) && |a| <= samples && samples > 0
    ensures SustainedAverage(a, samples) == SustainedAverage(b, samples)
  {
    hide SustainedAverage, Sum, NonNull, Round;
    assert |a| == |multiset(a)| && |b| == |multiset(b)|;
    AverageOfWindow(a, samples);
    AverageOfWindow(b, samples);
    GapsIgnoreOrder(a, b);
    GapsIgnoreOrder(b, a);
    if |a| == samples && NoGaps(a) {
      NonNullPermutes(a, b);
      SumPermutes(NonNull(a), NonNull(b));
      NonNullCount(a);
      NonNullCount(b);
    }
  }

  /** The severity is the average's, level by level; no samples, no finding; a negative count is refused. */
  lemma CpuSeverityExactly(table: seq<Sample>, server: int, samples: int, warn: Option<real>, crit: Option<real>)
    ensures CpuSeverity(table, server, samples, warn, crit).Raised? <==> samples < 0
    ensures samples == 0 ==> CpuSeverity(table, server, samples, warn, crit) == Ok(None)
    ensures samples > 0 ==>
              var severity, average := CpuSeverity(table, server, samples, warn, crit).value,
                                       RuleAverage(table, server, samples);
              && (severity == Some(Crit) <==> average.Some? && crit.Some? && average.value >= crit.value)
              && (severity == Some(Warn)
                  <==> average.Some? && warn.Some? && average.value >= warn.value
                       && (crit.Some? ==> average.value < crit.value))
  {
    hide Round, Mean, ReversedValues, TopNewest, ServerRows;
    if samples >= 0 {
      SeverityExactly(SustainedAverage(RecentValues(table, server, samples).value, samples), warn, crit);
    }
  }

  // ---------------------------------------------------------------- higher history, no quieter

  lemma {:induction false} SumMonotone(a: seq<real>, b: seq<real>)
    requires |a| == |b| && forall i :: 0 <= i < |a| ==> a[i] <= b[i]
    ensures Sum(a) <= Sum(b)
  {
    if a != [] { SumMonotone(a[1..], b[1..]); }
  }

  lemma AverageMonotone(low: seq<Option<real>>, high: seq<Option<real>>, samples: nat)
    requires |low| == |high| <= samples && forall i :: 0 <= i < |low| ==> AtMost(low[i], high[i])
    ensures AtMost(SustainedAverage(low, samples), SustainedAverage(high, samples))
  {
    hide Round, Ratio;
    if samples > 0 && SustainedAverage(low, samples).Some? {
      AverageOfWindow(low, samples);
      AverageOfWindow(high, samples);
      NonNullCount(low);
      NonNullCount(high);
      var p, q := NonNull(low), NonNull(high);
      SumMonotone(p, q);
      RatioMonotone(Sum(p), Sum(q), samples as real);
      RoundMonotone(Mean(p), Mean(q), 2);
    }
  }

  /**
   Same length, every sample at least as high (a null counting as lowest): the finding is at least as
   severe, whatever the thresholds are and in whatever order they stand.
   */
  lemma HigherHistoryNoQuieter(low: seq<Sample>, high: seq<Sample>, server: int, samples: nat,
                               warn: Option<real>, crit: Option<real>)
    requires DistinctTimes(ServerRows(low, server)) && DistinctTimes(ServerRows(high, server))
    requires var a, b := History(low, server), History(high, server);
             |a| == |b| && forall i :: 0 <= i < |a| ==> AtMost(a[i].value, b[i].value)
    ensures CpuSeverity(low, server, samples, warn, crit).Ok? && CpuSeverity(high, server, samples, warn, crit).Ok?
    ensures Rank(CpuSeverity(low, server, samples, warn, crit).value)
            <= Rank(CpuSeverity(high, server, samples, warn, crit).value)
  {
    hide SustainedAverage, HigherIsWorse;
    var a, b := History(low, server), History(high, server);
    RecentValuesAreNewest(low, server, samples);
    RecentValuesAreNewest(high, server, samples);
    var va, vb := Values(NewestRows(a, samples)), Values(NewestRows(b, samples));
    AverageMonotone(va, vb, samples);
    HigherNeverQuieter(SustainedAverage(va, samples), SustainedAverage(vb, samples), warn, crit);
  }
}
