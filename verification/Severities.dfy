/** Severity levels and the "higher is worse" rule shared by the threshold rules. */
module Severities {
  import opened Options

  datatype Severity = Warn | Crit

  /** No finding, warning, critical: how loud an outcome is. */
  function Rank(s: Option<Severity>): (r: nat)
    ensures r <= 2
  {
    match s
    case None => 0
    case Some(Warn) => 1
    case Some(Crit) => 2
  }

  function HigherIsWorse(value: Option<real>, warn: Option<real>, crit: Option<real>): Option<Severity> {
    if value.None? then None
    else if crit.Some? && value.value >= crit.value then Some(Crit)
    else if warn.Some? && value.value >= warn.value then Some(Warn)
    else None
  }

  /** Critical from `crit` up; a warning from `warn` up where it is not critical. */
  lemma SeverityExactly(value: Option<real>, warn: Option<real>, crit: Option<real>)
    ensures HigherIsWorse(value, warn, crit) == Some(Crit)
            <==> value.Some? && crit.Some? && value.value >= crit.value
    ensures HigherIsWorse(value, warn, crit) == Some(Warn)
            <==> value.Some? && warn.Some? && value.value >= warn.value
                 && (crit.Some? ==> value.value < crit.value)
  {
  }

  lemma RankExactly(s: Option<Severity>)
    ensures Rank(s) == 0 <==> s.None?
    ensures Rank(s) == 1 <==> s == Some(Warn)
    ensures Rank(s) == 2 <==> s == Some(Crit)
  {
  }

  /** A missing value is below every value. */
  predicate AtMost(a: Option<real>, b: Option<real>) {
    a.Some? ==> b.Some? && a.value <= b.value
  }

  /** For any thresholds at all, in either order or absent. */
  lemma HigherNeverQuieter(a: Option<real>, b: Option<real>, warn: Option<real>, crit: Option<real>)
    requires AtMost(a, b)
    ensures Rank(HigherIsWorse(a, warn, crit)) <= Rank(HigherIsWorse(b, warn, crit))
  {
  }
}
