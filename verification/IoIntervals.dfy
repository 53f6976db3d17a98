/**
 Filling the interval columns of an I/O sample in place from the previous sample
 (analyze/derive.py, `derive_io_intervals`).
 */
module IoIntervals {
  import opened Options
  import opened Reals
  import opened Rounding
  import opened Counters

  /** The four derived columns; None while unset. */
  datatype Intervals = Intervals(readLatency: Option<real>, writeLatency: Option<real>,
                                 readMbS: Option<real>, writeMbS: Option<real>)

  /** The cumulative counters a rate is computed from. */
  datatype Totals = Totals(readOps: Option<real>, readStall: Option<real>, bytesRead: Option<real>,
                           writeOps: Option<real>, writeStall: Option<real>, bytesWritten: Option<real>)

  /** One file's row; `rest` stands for the columns the derivation never looks at. */
  datatype IoRow = IoRow(database: Option<string>, file: Option<string>, collectedAt: Option<real>,
                         totals: Totals, rest: string, intervals: Intervals)

  predicate SameFile(a: IoRow, b: IoRow) { a.database == b.database && a.file == b.file }

  /** Newest collection time of a frame, if any row has one. */
  function LatestTime(rows: seq<IoRow>): (latest: Option<real>)
    ensures latest.None? <==> forall i :: 0 <= i < |rows| ==> rows[i].collectedAt.None?
    ensures latest.Some? ==>
              && (exists i :: 0 <= i < |rows| && rows[i].collectedAt == latest)
              && (forall i :: 0 <= i < |rows| && rows[i].collectedAt.Some? ==>
                    rows[i].collectedAt.value <= latest.value)
  {
    if rows == [] then None
    else
      var n := |rows| - 1;
      var before := LatestTime(rows[..n]);
      var last := rows[n].collectedAt;
      assert forall i :: 0 <= i < n ==> rows[..n][i] == rows[i];
      if last.None? then before
      else if before.None? || before.value <= last.value then last
      else before
  }

  function Elapsed(previous: seq<IoRow>, current: seq<IoRow>): Option<real> {
    var before, after := LatestTime(previous), LatestTime(current);
    if before.None? || after.None? then None else Some(after.value - before.value)
  }

  /** The first row of the previous frame for this file. */
  function FirstMatch(previous: seq<IoRow>, row: IoRow): (m: Option<nat>)
    ensures m.None? <==> forall k :: 0 <= k < |previous| ==> !SameFile(previous[k], row)
    ensures m.Some? ==>
              && m.value < |previous| && SameFile(previous[m.value], row)
              && forall k :: 0 <= k < m.value ==> !SameFile(previous[k], row)
  {
    if previous == [] then None
    else if SameFile(previous[0], row) then Some(0)
    else
      var m := FirstMatch(previous[1..], row);
      assert forall k :: 0 < k < |previous| ==> previous[k] == previous[1..][k - 1];
      if m.None? then None else Some(m.value + 1)
  }

  function Rates(before: Totals, now: Totals, seconds: real): Intervals {
    Intervals(IntervalLatency(before.readStall, now.readStall, before.readOps, now.readOps),
              IntervalLatency(before.writeStall, now.writeStall, before.writeOps, now.writeOps),
              IntervalThroughput(before.bytesRead, now.bytesRead, seconds),
              IntervalThroughput(before.bytesWritten, now.bytesWritten, seconds))
  }

  /** Whether the two samples are usable together at all. */
  predicate Comparable(previous: seq<IoRow>, current: seq<IoRow>) {
    var seconds := Elapsed(previous, current);
    previous != [] && current != [] && seconds.Some? && seconds.value > 0.0
  }

  /** What row i of the result has to be, from the input frames alone. */
  function Expected(current: seq<IoRow>, previous: seq<IoRow>, i: nat): IoRow
    requires i < |current|
  {
    var row := current[i];
    var m := FirstMatch(previous, row);
    if !Comparable(previous, current) || m.None? then row
    else row.(intervals := Rates(previous[m.value].totals, row.totals, Elapsed(previous, current).value))
  }

  // ---------------------------------------------------------------- the result, without the functions above

  ghost predicate NewestTime(rows: seq<IoRow>, t: real) {
    && (exists i :: 0 <= i < |rows| && rows[i].collectedAt == Some(t))
    && (forall i :: 0 <= i < |rows| && rows[i].collectedAt.Some? ==> rows[i].collectedAt.value <= t)
  }

  /** The current sample was taken so many seconds after the previous one. */
  ghost predicate TakenAfter(previous: seq<IoRow>, current: seq<IoRow>, seconds: real) {
    seconds > 0.0 && exists t: real :: NewestTime(previous, t) && NewestTime(current, t + seconds)
  }

  /** Row k is the first with this row's database and file. */
  ghost predicate FirstForFile(previous: seq<IoRow>, row: IoRow, k: nat) {
    && k < |previous| && previous[k].database == row.database && previous[k].file == row.file
    && forall j :: 0 <= j < k ==> !(previous[j].database == row.database && previous[j].file == row.file)
  }

  /** Each column says what its own counters say: unset where they do, else their rate. */
  ghost predicate ColumnsFit(v: Intervals, a: Totals, b: Totals, seconds: real) {
    && LatencyFits(v.readLatency, a.readStall, b.readStall, a.readOps, b.readOps)
    && LatencyFits(v.writeLatency, a.writeStall, b.writeStall, a.writeOps, b.writeOps)
    && ThroughputFits(v.readMbS, a.bytesRead, b.bytesRead, seconds)
    && ThroughputFits(v.writeMbS, a.bytesWritten, b.bytesWritten, seconds)
  }

  lemma RatesFit(a: Totals, b: Totals, seconds: real)
    ensures ColumnsFit(Rates(a, b, seconds), a, b, seconds)
  {
    hide IntervalLatency, IntervalThroughput, LatencyFits, ThroughputFits;
    LatencyMeaning(a.readStall, b.readStall, a.readOps, b.readOps);
    LatencyMeaning(a.writeStall, b.writeStall, a.writeOps, b.writeOps);
    ThroughputMeaning(a.bytesRead, b.bytesRead, seconds);
    ThroughputMeaning(a.bytesWritten, b.bytesWritten, seconds);
  }

  lemma TakenAfterExactly(previous: seq<IoRow>, current: seq<IoRow>)
    ensures Comparable(previous, current) ==> TakenAfter(previous, current, Elapsed(previous, current).value)
    ensures forall seconds | TakenAfter(previous, current, seconds) ::
              Comparable(previous, current) && Elapsed(previous, current) == Some(seconds)
  {
    var before, after := LatestTime(previous), LatestTime(current);
    if before.Some? && after.Some? {
      assert NewestTime(previous, before.value);
      assert NewestTime(current, before.value + (after.value - before.value));
    }
  }

  /**
   What becomes of a row: its columns fit the counters of the first previous row with its database and file, over
   the time between the samples; without such a row, or when no time has passed, it stays as it is.
   */
  ghost predicate Filled(now: IoRow, row: IoRow, current: seq<IoRow>, previous: seq<IoRow>) {
    && now.(intervals := row.intervals) == row
    && (forall k: nat, seconds | FirstForFile(previous, row, k) && TakenAfter(previous, current, seconds) ::
          ColumnsFit(now.intervals, previous[k].totals, row.totals, seconds))
    && ((forall k: nat :: !FirstForFile(previous, row, k)) ==> now == row)
    && ((forall seconds :: !TakenAfter(previous, current, seconds)) ==> now == row)
  }

  lemma ExpectedIsFilled(current: seq<IoRow>, previous: seq<IoRow>, i: nat)
    requires i < |current|
    ensures Filled(Expected(current, previous, i), current[i], current, previous)
  {
    hide Rates, ColumnsFit, TakenAfter, Elapsed;
    TakenAfterExactly(previous, current);
    var m := FirstMatch(previous, current[i]);
    if m.Some? {
      assert FirstForFile(previous, current[i], m.value);
      assert forall k: nat | FirstForFile(previous, current[i], k) :: k == m.value;
      if Comparable(previous, current) {
        var seconds := Elapsed(previous, current).value;
        RatesFit(previous[m.value].totals, current[i].totals, seconds);
        assert TakenAfter(previous, current, seconds);
      }
    }
  }

  /** A new frame: row by row the same but for the four interval columns. Both inputs are left as they were. */
  method DeriveIoIntervals(current: array<IoRow>, previous: array?<IoRow>) returns (result: array<IoRow>)
    ensures fresh(result) && result.Length == current.Length
    ensures var before := if previous == null then [] else previous[..];
            forall i :: 0 <= i < result.Length ==>
              && result[i] == Expected(current[..], before, i)
              && Filled(result[i], current[i], current[..], before)
  {
    hide Rates, FirstMatch, Elapsed, SameFile, Filled;
    forall i: nat | i < current.Length
      ensures var before := if previous == null then [] else previous[..];
              Filled(Expected(current[..], before, i), current[i], current[..], before)
    {
      ExpectedIsFilled(current[..], if previous == null then [] else previous[..], i);
    }
    var before := if previous == null then [] else previous[..];
    result := new IoRow[current.Length](i requires 0 <= i < current.Length reads current => current[i]);
    if !Comparable(before, current[..]) {
      return;
    }
    var seconds := Elapsed(before, current[..]).value;
    for position := 0 to result.Length
      invariant forall i :: 0 <= i < position ==> result[i] == Expected(current[..], before, i)
      invariant forall i :: position <= i < result.Length ==> result[i] == current[i]
    {
      var row := result[position];
      var m := FirstMatch(before, row);
      if m.Some? {
        var rates := Rates(before[m.value].totals, row.totals, seconds);
        result[position] := row.(intervals := row.intervals.(readLatency := rates.readLatency));
        row := result[position];
        result[position] := row.(intervals := row.intervals.(writeLatency := rates.writeLatency));
        row := result[position];
        result[position] := row.(intervals := row.intervals.(readMbS := rates.readMbS));
        row := result[position];
        result[position] := row.(intervals := row.intervals.(writeMbS := rates.writeMbS));
      }
    }
  }

  // ---------------------------------------------------------------- what that result is

  ghost predicate Nonnegative(x: Option<real>) { x.Some? ==> x.value >= 0.0 }

  ghost predicate AllNonnegative(v: Intervals) {
    Nonnegative(v.readLatency) && Nonnegative(v.writeLatency) && Nonnegative(v.readMbS) && Nonnegative(v.writeMbS)
  }

  lemma LatencyNonnegative(s0: Option<real>, s1: Option<real>, o0: Option<real>, o1: Option<real>)
    ensures Nonnegative(IntervalLatency(s0, s1, o0, o1))
  {
    hide Round, Ratio;
    var stall, ops := CounterDelta(s0, s1), CounterDelta(o0, o1);
    if stall.Some? && ops.Some? && ops.value > 0.0 {
      RatioNonnegative(stall.value, ops.value);
      RoundNonnegative(Ratio(stall.value, ops.value), 2);
    }
  }

  lemma ThroughputNonnegative(b0: Option<real>, b1: Option<real>, seconds: real)
    ensures Nonnegative(IntervalThroughput(b0, b1, seconds))
  {
    hide Round, Ratio;
    var delta := CounterDelta(b0, b1);
    if delta.Some? && seconds > 0.0 {
      RatioNonnegative(delta.value, seconds);
      RoundNonnegative(Ratio(delta.value, seconds) / 1024.0 / 1024.0, 2);
    }
  }

  /** No interval is ever negative, restarts, clock jumps and duplicate files included. */
  lemma NeverNegative(current: seq<IoRow>, previous: seq<IoRow>, i: nat)
    requires i < |current| && AllNonnegative(current[i].intervals)
    ensures AllNonnegative(Expected(current, previous, i).intervals)
  {
    hide IntervalLatency, IntervalThroughput;
    var now := current[i].totals;
    var m := FirstMatch(previous, current[i]);
    if Comparable(previous, current) && m.Some? {
      var earlier := previous[m.value].totals;
      LatencyNonnegative(earlier.readStall, now.readStall, earlier.readOps, now.readOps);
      LatencyNonnegative(earlier.writeStall, now.writeStall, earlier.writeOps, now.writeOps);
      ThroughputNonnegative(earlier.bytesRead, now.bytesRead, Elapsed(previous, current).value);
      ThroughputNonnegative(earlier.bytesWritten, now.bytesWritten, Elapsed(previous, current).value);
    }
  }

  lemma FirstMatchIs(rows: seq<IoRow>, row: IoRow, k: nat)
    requires k < |rows| && SameFile(rows[k], row) && forall j :: 0 <= j < k ==> !SameFile(rows[j], row)
    ensures FirstMatch(rows, row) == Some(k)
  {
  }

  /** Later duplicates of a file, and rows of other files, have no influence on a row's intervals. */
  lemma {:induction false} OnlyFirstMatchCounts(current: seq<IoRow>, previous: seq<IoRow>, other: seq<IoRow>,
                                               i: nat, k: nat)
    requires i < |current| && k < |previous| && k < |other|
    requires previous[k] == other[k] && SameFile(previous[k], current[i])
    requires forall j :: 0 <= j < k ==> !SameFile(previous[j], current[i]) && !SameFile(other[j], current[i])
    requires LatestTime(previous) == LatestTime(other)
    ensures Expected(current, previous, i) == Expected(current, other, i)
  {
    hide SameFile, Rates, LatestTime;
    FirstMatchIs(previous, current[i], k);
    FirstMatchIs(other, current[i], k);
  }

  /**
   What the four columns say, each in terms of its own counters: latency times operations is the stall,
   throughput times elapsed time is the bytes, to half a hundredth; unset exactly where that is unknown.
   */
  lemma ColumnsMean(current: seq<IoRow>, previous: seq<IoRow>, i: nat, k: nat, seconds: real)
    requires i < |current| && FirstForFile(previous, current[i], k) && TakenAfter(previous, current, seconds)
    ensures var a, b := previous[k].totals, current[i].totals;
            var v := Expected(current, previous, i).intervals;
            && LatencyFits(v.readLatency, a.readStall, b.readStall, a.readOps, b.readOps)
            && LatencyFits(v.writeLatency, a.writeStall, b.writeStall, a.writeOps, b.writeOps)
            && ThroughputFits(v.readMbS, a.bytesRead, b.bytesRead, seconds)
            && ThroughputFits(v.writeMbS, a.bytesWritten, b.bytesWritten, seconds)
  {
    hide Expected, LatencyFits, ThroughputFits, FirstForFile, TakenAfter;
    ExpectedIsFilled(current, previous, i);
  }
}
