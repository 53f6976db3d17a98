/**
 Interval rates from cumulative counters (analyze/derive.py), against what the counter really did.
 A DMV counter only grows, except that a restart sends it back to zero.
 */
module Counters {
  import opened Options
  import opened Reals
  import opened Rounding

  function CounterDelta(previous: Option<real>, current: Option<real>): Option<real> {
    if previous.None? || current.None? then None
    else if current.value < previous.value then None
    else Some(current.value - previous.value)
  }

  /** Stall per operation over the window, before rounding. */
  function LatencyRatio(prevStall: Option<real>, currStall: Option<real>,
                        prevOps: Option<real>, currOps: Option<real>): Option<real>
  {
    var stall, ops := CounterDelta(prevStall, currStall), CounterDelta(prevOps, currOps);
    if stall.None? || ops.None? || ops.value <= 0.0 then None else Some(Ratio(stall.value, ops.value))
  }

  function IntervalLatency(prevStall: Option<real>, currStall: Option<real>,
                           prevOps: Option<real>, currOps: Option<real>): Option<real>
  {
    var ratio := LatencyRatio(prevStall, currStall, prevOps, currOps);
    if ratio.None? then None else Some(Round(ratio.value, 2))
  }

  function IntervalThroughput(prevBytes: Option<real>, currBytes: Option<real>, seconds: real): Option<real> {
    var delta := CounterDelta(prevBytes, currBytes);
    if delta.None? || seconds <= 0.0 then None
    else Some(Round(Ratio(delta.value, seconds) / 1024.0 / 1024.0, 2))
  }

  // ---------------------------------------------------------------- the counter's real history

  datatype Event = Work(amount: real) | Reset

  ghost predicate WorkNonnegative(h: seq<Event>) {
    forall i :: 0 <= i < |h| && h[i].Work? ==> h[i].amount >= 0.0
  }

  /** What the counter reads after h, starting from zero. */
  function Reading(h: seq<Event>): real {
    if h == [] then 0.0
    else
      var last := h[|h| - 1];
      if last.Reset? then 0.0 else Reading(h[..|h| - 1]) + last.amount
  }

  /** All the work ever counted. */
  function Done(h: seq<Event>): real {
    if h == [] then 0.0
    else
      var last := h[|h| - 1];
      Done(h[..|h| - 1]) + if last.Reset? then 0.0 else last.amount
  }

  /** Work forgotten by resets: the readings they destroyed. */
  function Wiped(h: seq<Event>): real {
    if h == [] then 0.0
    else
      var before := h[..|h| - 1];
      Wiped(before) + if h[|h| - 1].Reset? then Reading(before) else 0.0
  }

  lemma {:induction false} Conservation(h: seq<Event>)
    requires WorkNonnegative(h)
    ensures Reading(h) + Wiped(h) == Done(h)
    ensures Reading(h) >= 0.0 && Wiped(h) >= 0.0
  {
    if h != [] { Conservation(h[..|h| - 1]); }
  }

  /** From moment i to moment j neither total goes back; nothing is wiped where nothing resets. */
  lemma {:induction false} WindowTotals(h: seq<Event>, i: nat, j: nat)
    requires i <= j <= |h| && WorkNonnegative(h)
    ensures Done(h[..i]) <= Done(h[..j]) && Wiped(h[..i]) <= Wiped(h[..j])
    ensures (forall k :: i <= k < j ==> h[k].Work?) ==> Wiped(h[..i]) == Wiped(h[..j])
  {
    if i < j {
      WindowTotals(h, i, j - 1);
      assert h[..j][..j - 1] == h[..j - 1];
      Conservation(h[..j - 1]);
    }
  }

  /**
   The exact meaning of a delta over the window i..j: the work done minus the work wiped, reported
   unless more was wiped than done.
   */
  lemma DeltaIsWorkMinusWiped(h: seq<Event>, i: nat, j: nat)
    requires i <= j <= |h| && WorkNonnegative(h)
    ensures var work := Done(h[..j]) - Done(h[..i]);
            var wiped := Wiped(h[..j]) - Wiped(h[..i]);
            CounterDelta(Some(Reading(h[..i])), Some(Reading(h[..j])))
            == if wiped > work then None else Some(work - wiped)
  {
    Conservation(h[..i]);
    Conservation(h[..j]);
  }

  /** A reported delta is at most the work done, and equals it exactly when nothing was wiped. */
  lemma DeltaNeverExceedsWork(h: seq<Event>, i: nat, j: nat)
    requires i <= j <= |h| && WorkNonnegative(h)
    ensures var work := Done(h[..j]) - Done(h[..i]);
            var delta := CounterDelta(Some(Reading(h[..i])), Some(Reading(h[..j])));
            && (delta.Some? ==> 0.0 <= delta.value <= work)
            && (delta == Some(work) <==> Wiped(h[..j]) == Wiped(h[..i]))
            && ((forall k :: i <= k < j ==> h[k].Work?) ==> delta == Some(work))
  {
    DeltaIsWorkMinusWiped(h, i, j);
    WindowTotals(h, i, j);
  }

  ghost predicate SampleMoments(h: seq<Event>, at: seq<nat>) {
    && (forall i :: 0 <= i < |at| ==> at[i] <= |h|)
    && (forall i, j :: 0 <= i < j < |at| ==> at[i] <= at[j])
  }

  /** The reported deltas of consecutive samples, unknown ones counting as nothing. */
  function SumOfDeltas(h: seq<Event>, at: seq<nat>): real
    requires forall i :: 0 <= i < |at| ==> at[i] <= |h|
  {
    if |at| < 2 then 0.0
    else
      var n := |at| - 1;
      var delta := CounterDelta(Some(Reading(h[..at[n - 1]])), Some(Reading(h[..at[n]])));
      SumOfDeltas(h, at[..n]) + if delta.Some? then delta.value else 0.0
  }

  /** However the samples fall around restarts, the deltas never add up to more than was done. */
  lemma {:induction false} DeltasNeverExceedWork(h: seq<Event>, at: seq<nat>)
    requires WorkNonnegative(h) && at != [] && SampleMoments(h, at)
    ensures 0.0 <= SumOfDeltas(h, at) <= Done(h[..at[|at| - 1]]) - Done(h[..at[0]])
  {
    if |at| >= 2 {
      var n := |at| - 1;
      DeltasNeverExceedWork(h, at[..n]);
      DeltaNeverExceedsWork(h, at[n - 1], at[n]);
      WindowTotals(h, at[n - 1], at[n]);
    }
  }

  /** Without a restart they telescope to last minus first, which is all the work. */
  lemma {:induction false} DeltasTelescope(h: seq<Event>, at: seq<nat>)
    requires WorkNonnegative(h) && at != [] && SampleMoments(h, at)
    requires forall k :: at[0] <= k < at[|at| - 1] ==> h[k].Work?
    ensures SumOfDeltas(h, at) == Reading(h[..at[|at| - 1]]) - Reading(h[..at[0]])
    ensures SumOfDeltas(h, at) == Done(h[..at[|at| - 1]]) - Done(h[..at[0]])
  {
    if |at| >= 2 {
      var n := |at| - 1;
      DeltasTelescope(h, at[..n]);
      DeltaNeverExceedsWork(h, at[n - 1], at[n]);
    }
    WindowTotals(h, at[0], at[|at| - 1]);
    Conservation(h[..at[0]]);
    Conservation(h[..at[|at| - 1]]);
  }

  // ---------------------------------------------------------------- rates

  /** Throughput is never reported higher than what was really moved in the window. */
  lemma ThroughputNeverExceedsWork(h: seq<Event>, i: nat, j: nat, seconds: real)
    requires i <= j <= |h| && WorkNonnegative(h) && seconds > 0.0
    ensures var rate := IntervalThroughput(Some(Reading(h[..i])), Some(Reading(h[..j])), seconds);
            rate.Some? ==>
              0.0 <= rate.value <= Round(Ratio(Done(h[..j]) - Done(h[..i]), seconds) / 1024.0 / 1024.0, 2)
  {
    DeltaNeverExceedsWork(h, i, j);
    var delta := CounterDelta(Some(Reading(h[..i])), Some(Reading(h[..j])));
    if delta.Some? {
      hide Ratio, Round;
      RatioNonnegative(delta.value, seconds);
      RatioMonotone(delta.value, Done(h[..j]) - Done(h[..i]), seconds);
      RoundNonnegative(Ratio(delta.value, seconds) / 1024.0 / 1024.0, 2);
      RoundMonotone(Ratio(delta.value, seconds) / 1024.0 / 1024.0,
                    Ratio(Done(h[..j]) - Done(h[..i]), seconds) / 1024.0 / 1024.0, 2);
    }
  }

  lemma Between(p: real, q: real, d: real, e: real)
    requires p <= q && d > 0.0 && e > 0.0
    ensures Product(p, d + e) <= Product(p, d) + Product(q, e) <= Product(q, d + e)
  {
    hide Product;
    ProductSum(p, d, e);
    ProductSum(q, d, e);
    ProductMonotone(p, q, d);
    ProductMonotone(p, q, e);
  }

  lemma Mediant(x: real, d: real, y: real, e: real)
    requires d > 0.0 && e > 0.0 && Ratio(x, d) <= Ratio(y, e)
    ensures Ratio(x, d) <= Ratio(x + y, d + e) <= Ratio(y, e)
  {
    hide Ratio, Product;
    var p, q := Ratio(x, d), Ratio(y, e);
    Quotient(x, d);
    Quotient(y, e);
    Between(p, q, d, e);
    RatioMonotone(Product(p, d + e), x + y, d + e);
    RatioMonotone(x + y, Product(q, d + e), d + e);
    Quotient(p, d + e);
    Quotient(q, d + e);
  }

  ghost predicate BetweenBoth(a: real, b: real, c: real) {
    (a <= c <= b) || (b <= c <= a)
  }

  /**
   Two adjacent windows that each report a latency: the window covering both reports one too, and it
   lies between theirs, exactly and after rounding.
   */
  lemma MergedLatencyLiesBetween(s0: Option<real>, s1: Option<real>, s2: Option<real>,
                                 o0: Option<real>, o1: Option<real>, o2: Option<real>)
    requires LatencyRatio(s0, s1, o0, o1).Some? && LatencyRatio(s1, s2, o1, o2).Some?
    ensures LatencyRatio(s0, s2, o0, o2).Some?
    ensures BetweenBoth(LatencyRatio(s0, s1, o0, o1).value, LatencyRatio(s1, s2, o1, o2).value,
                        LatencyRatio(s0, s2, o0, o2).value)
    ensures BetweenBoth(IntervalLatency(s0, s1, o0, o1).value, IntervalLatency(s1, s2, o1, o2).value,
                        IntervalLatency(s0, s2, o0, o2).value)
  {
    hide Ratio, Round;
    var x, d := s1.value - s0.value, o1.value - o0.value;
    var y, e := s2.value - s1.value, o2.value - o1.value;
    assert s2.value - s0.value == x + y && o2.value - o0.value == d + e;
    var a, b, c := Ratio(x, d), Ratio(y, e), Ratio(x + y, d + e);
    if a <= b {
      Mediant(x, d, y, e);
      RoundMonotone(a, c, 2);
      RoundMonotone(c, b, 2);
    } else {
      Mediant(y, e, x, d);
      assert y + x == x + y && e + d == d + e;
      RoundMonotone(b, c, 2);
      RoundMonotone(c, a, 2);
    }
  }

  // ---------------------------------------------------------------- what a reported rate says

  /** Both readings are there and the counter did not go back. */
  predicate Grew(before: Option<real>, now: Option<real>) {
    before.Some? && now.Some? && before.value <= now.value
  }

  /** A latency l says: l milliseconds per operation account for the stall, to half a hundredth each. */
  ghost predicate LatencyFits(l: Option<real>, s0: Option<real>, s1: Option<real>, o0: Option<real>, o1: Option<real>) {
    && (l.Some? <==> Grew(s0, s1) && Grew(o0, o1) && o0.value < o1.value)
    && (l.Some? ==>
          var ops := o1.value - o0.value;
          -Product(0.005, ops) <= Product(l.value, ops) - (s1.value - s0.value) <= Product(0.005, ops))
  }

  /** A throughput m says: m MB per second account for the bytes, to half a hundredth each. */
  ghost predicate ThroughputFits(m: Option<real>, b0: Option<real>, b1: Option<real>, seconds: real) {
    && (m.Some? <==> Grew(b0, b1) && seconds > 0.0)
    && (m.Some? ==>
          var moved := (b1.value - b0.value) / 1024.0 / 1024.0;
          -Product(0.005, seconds) <= Product(m.value, seconds) - moved <= Product(0.005, seconds))
  }

  lemma RoundedRate(rate: real, per: real)
    requires per > 0.0
    ensures -Product(0.005, per) <= Product(Round(rate, 2), per) - Product(rate, per) <= Product(0.005, per)
  {
    hide Round, Product;
    RoundError(rate, 2);
    assert Pow10(2) == 100.0 by { assert Pow10(1) == 10.0; }
    var r := Round(rate, 2);
    assert -0.005 <= r - rate <= 0.005;
    ProductMonotone(-0.005, r - rate, per);
    ProductMonotone(r - rate, 0.005, per);
    ProductNegative(0.005, per);
    Commute(r - rate, per);
    Commute(r, per);
    Commute(rate, per);
    ProductSum(per, r, rate);
  }

  lemma LatencyMeaning(s0: Option<real>, s1: Option<real>, o0: Option<real>, o1: Option<real>)
    ensures LatencyFits(IntervalLatency(s0, s1, o0, o1), s0, s1, o0, o1)
  {
    hide Round, Ratio, Product;
    if Grew(s0, s1) && Grew(o0, o1) && o0.value < o1.value {
      var stall, ops := s1.value - s0.value, o1.value - o0.value;
      RoundedRate(Ratio(stall, ops), ops);
      Quotient(stall, ops);
    }
  }

  lemma ScaledQuotient(bytes: real, seconds: real)
    requires seconds > 0.0
    ensures Product(Ratio(bytes, seconds) / 1024.0 / 1024.0, seconds) == bytes / 1024.0 / 1024.0
  {
    Quotient(bytes, seconds);
    var q := Ratio(bytes, seconds);
    assert q * seconds == bytes;
  }

  lemma ThroughputMeaning(b0: Option<real>, b1: Option<real>, seconds: real)
    ensures ThroughputFits(IntervalThroughput(b0, b1, seconds), b0, b1, seconds)
  {
    hide Round, Ratio, Product;
    if Grew(b0, b1) && seconds > 0.0 {
      var bytes := b1.value - b0.value;
      RoundedRate(Ratio(bytes, seconds) / 1024.0 / 1024.0, seconds);
      ScaledQuotient(bytes, seconds);
    }
  }
}
