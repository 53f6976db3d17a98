/** The loops of runner.py: gathering the workers' results, and one worker's pass over its collectors. */
module RunnerLoops {
  import opened Options
  import opened Permutations

  // ---------------------------------------------------------------- _fan_out

  datatype ServerResult = ServerResult(server: string, ok: bool, error: string)

  /** How a worker's future ends: with its own result, or with an exception nobody caught. */
  datatype Outcome = Returned(result: ServerResult) | Uncaught(error: string)

  function EntryOf(server: string, outcome: Outcome): ServerResult {
    match outcome
    case Returned(result) => result
    case Uncaught(error) => ServerResult(server, false, error)
  }

  /** A worker reports on the server it was given. */
  predicate Truthful(servers: seq<string>, outcomes: map<string, Outcome>) {
    forall s :: s in servers ==> s in outcomes && (outcomes[s].Returned? ==> outcomes[s].result.server == s)
  }

  function OkCount(results: seq<ServerResult>): nat {
    if results == [] then 0 else OkCount(results[..|results| - 1]) + if results[|results| - 1].ok then 1 else 0
  }

  function FailedCount(results: seq<ServerResult>): nat {
    if results == [] then 0 else FailedCount(results[..|results| - 1]) + if results[|results| - 1].ok then 0 else 1
  }

  /** One entry per completed server, in order. */
  function Gathered(completion: seq<string>, outcomes: map<string, Outcome>): seq<ServerResult> {
    if completion == [] then []
    else
      var n := |completion| - 1;
      Gathered(completion[..n], outcomes) +
      if completion[n] in outcomes then [EntryOf(completion[n], outcomes[completion[n]])] else []
  }

  lemma SameSize(a: seq<string>, b: seq<string>)
    requires multiset(a) == multiset(b)
    ensures |a| == |b|
  {
    assert |a| == |multiset(a)| && |b| == |multiset(b)|;
  }

  lemma {:induction false} GatheredEach(completion: seq<string>, outcomes: map<string, Outcome>)
    requires forall s :: s in completion ==> s in outcomes
    ensures var results := Gathered(completion, outcomes);
            && |results| == |completion|
            && forall i :: 0 <= i < |completion| ==> results[i] == EntryOf(completion[i], outcomes[completion[i]])
  {
    if completion != [] { GatheredEach(completion[..|completion| - 1], outcomes); }
  }

  lemma {:induction false} CountsAdd(results: seq<ServerResult>)
    ensures OkCount(results) + FailedCount(results) == |results|
  {
    if results != [] { CountsAdd(results[..|results| - 1]); }
  }

  lemma {:induction false} OkCountMeans(results: seq<ServerResult>)
    ensures OkCount(results) == |set i | 0 <= i < |results| && results[i].ok|
  {
    if results != [] {
      var n := |results| - 1;
      OkCountMeans(results[..n]);
      var before := set i | 0 <= i < |results[..n]| && results[..n][i].ok;
      assert (set i | 0 <= i < |results| && results[i].ok) == if results[n].ok then before + {n} else before;
    }
  }

  /**
   `completion` is the order in which as_completed hands the futures over. Each entry is the worker's own result,
   or, for an exception nobody caught, a failure of its server.
   */
  method FanOut(servers: seq<string>, outcomes: map<string, Outcome>, completion: seq<string>)
    returns (results: seq<ServerResult>)
    requires Truthful(servers, outcomes) && multiset(completion) == multiset(servers)
    ensures results == Gathered(completion, outcomes) && |results| == |servers| == |completion|
    ensures forall i :: 0 <= i < |completion| ==>
              && completion[i] in outcomes
              && results[i].server == completion[i]
              && match outcomes[completion[i]] {
                 case Returned(own) => results[i] == own
                 case Uncaught(error) => !results[i].ok && results[i].error == error
                 }
    ensures OkCount(results) == |set i | 0 <= i < |results| && results[i].ok|
    ensures OkCount(results) + FailedCount(results) == |servers|
  {
    hide OkCount, FailedCount;
    results := [];
    for i := 0 to |completion|
      invariant results == Gathered(completion[..i], outcomes)
    {
      var server := completion[i];
      assert server in multiset(completion);
      assert completion[..i + 1][..i] == completion[..i];
      match outcomes[server] {
        case Returned(result) => results := results + [result];
        case Uncaught(error) => results := results + [ServerResult(server, false, error)];
      }
    }
    assert completion[..|completion|] == completion;
    SameSize(completion, servers);
    forall s | s in completion ensures s in servers { assert s in multiset(completion); }
    GatheredEach(completion, outcomes);
    CountsAdd(results);
    OkCountMeans(results);
  }

  /** What one server contributes, whatever becomes of the others. */
  function Entries(servers: multiset<string>, outcomes: map<string, Outcome>, r: ServerResult): nat {
    if r.server in outcomes && EntryOf(r.server, outcomes[r.server]) == r then servers[r.server] else 0
  }

  /** Each selected server has exactly one entry, its own worker's, in every completion order. */
  lemma {:induction false} OneEntryEach(completion: seq<string>, outcomes: map<string, Outcome>, r: ServerResult)
    requires Truthful(completion, outcomes)
    ensures multiset(Gathered(completion, outcomes))[r] == Entries(multiset(completion), outcomes, r)
  {
    if completion != [] {
      var n := |completion| - 1;
      OneEntryEach(completion[..n], outcomes, r);
      Snoc(completion);
      assert completion[n] in outcomes;
      var entry := EntryOf(completion[n], outcomes[completion[n]]);
      assert Gathered(completion, outcomes) == Gathered(completion[..n], outcomes) + [entry];
    }
  }

  lemma {:induction false} OkCountWithout(results: seq<ServerResult>, i: nat)
    requires i < |results|
    ensures OkCount(results) == OkCount(RemoveAt(results, i)) + if results[i].ok then 1 else 0
  {
    var n := |results| - 1;
    var rest := RemoveAt(results, i);
    if i == n {
      assert rest == results[..n];
    } else {
      assert rest[..|rest| - 1] == results[..n][..i] + results[..n][i + 1..];
      OkCountWithout(results[..n], i);
    }
  }

  lemma {:induction false} OkCountPermuted(a: seq<ServerResult>, b: seq<ServerResult>)
    requires multiset(a) == multiset(b)
    ensures OkCount(a) == OkCount(b)
  {
    if a == [] {
      assert |b| == |multiset(b)| == 0;
    } else {
      var n := |a| - 1;
      assert a[n] in multiset(b);
      var i :| 0 <= i < |b| && b[i] == a[n];
      var rest := RemoveAt(b, i);
      Snoc(a);
      Without(b, i);
      Cancel(multiset(a[..n]), multiset(rest), a[n]);
      OkCountPermuted(a[..n], rest);
      OkCountWithout(b, i);
    }
  }

  /** The order in which workers finish changes neither the entries nor the counts. */
  lemma OrderIrrelevant(a: seq<string>, b: seq<string>, outcomes: map<string, Outcome>)
    requires Truthful(a, outcomes) && multiset(a) == multiset(b)
    ensures multiset(Gathered(a, outcomes)) == multiset(Gathered(b, outcomes))
    ensures OkCount(Gathered(a, outcomes)) == OkCount(Gathered(b, outcomes))
    ensures FailedCount(Gathered(a, outcomes)) == FailedCount(Gathered(b, outcomes))
  {
    forall s | s in b ensures s in a { assert s in multiset(b); }
    forall r ensures multiset(Gathered(a, outcomes))[r] == multiset(Gathered(b, outcomes))[r] {
      OneEntryEach(a, outcomes, r);
      OneEntryEach(b, outcomes, r);
    }
    OkCountPermuted(Gathered(a, outcomes), Gathered(b, outcomes));
    CountsAdd(Gathered(a, outcomes));
    CountsAdd(Gathered(b, outcomes));
    assert |Gathered(a, outcomes)| == |multiset(Gathered(a, outcomes))|;
    assert |Gathered(b, outcomes)| == |multiset(Gathered(b, outcomes))|;
  }

  // ---------------------------------------------------------------- _run_collectors

  datatype Frame = Frame(rows: nat)

  /** What comes of one collector when its turn is reached. */
  datatype Attempt = NotApplicable | Failed | Collected(frame: Frame)

  datatype Pass = Pass(frames: map<string, Frame>, skipped: seq<string>)

  function AttemptOf(attempts: map<string, Attempt>, name: string): Attempt {
    if name in attempts then attempts[name] else Failed
  }

  predicate Distinct(names: seq<string>) {
    forall i, j :: 0 <= i < j < |names| ==> names[i] != names[j]
  }

  /** The names that pass a test, in order. */
  function Keep(names: seq<string>, test: string -> bool): seq<string> {
    if names == [] then []
    else Keep(names[..|names| - 1], test) + if test(names[|names| - 1]) then [names[|names| - 1]] else []
  }

  /** [c.name for c in collectors_for(tier) if c.name not in frames] */
  function Remaining(names: seq<string>, frames: map<string, Frame>): seq<string> {
    Keep(names, c => c !in frames)
  }

  /** Those that had their turn and gave nothing. */
  function Passed(names: seq<string>, attempts: map<string, Attempt>): seq<string> {
    Keep(names, c => !AttemptOf(attempts, c).Collected?)
  }

  /** The frames of exactly the collectors that had their turn and gave one. */
  ghost predicate FramesOf(frames: map<string, Frame>, names: seq<string>, attempts: map<string, Attempt>) {
    && (forall c :: c in frames <==> c in names && AttemptOf(attempts, c).Collected?)
    && (forall c :: c in frames ==> frames[c] == AttemptOf(attempts, c).frame)
  }

  /** How many collectors get their turn. */
  function Turns(names: seq<string>, expires: Option<nat>): (n: nat)
    ensures n <= |names|
  {
    if expires.Some? && expires.value < |names| then expires.value else |names|
  }

  /** What a pass reports as skipped after that many turns. */
  function Skipped(names: seq<string>, turns: nat, attempts: map<string, Attempt>, frames: map<string, Frame>)
    : seq<string>
    requires turns <= |names|
  {
    Passed(names[..turns], attempts) + if turns < |names| then Remaining(names, frames) else []
  }

  /**
   The repository calls of a pass that stand outside the try around `collect`: reading the previous io sample
   (and deriving the intervals from it), and storing the deadlock watermark.
   */
  datatype Faults = Faults(sampleFails: bool, watermarkFails: bool)

  /** The collector gave rows, and what the pass does with them next fails. */
  predicate Escapes(name: string, attempt: Attempt, faults: Faults) {
    && attempt.Collected? && attempt.frame.rows > 0
    && ((name == "io_disk" && faults.sampleFails) || (name == "deadlocks" && faults.watermarkFails))
  }

  /** Within these turns one of the two gives rows and its call fails. */
  predicate RaisesWithin(turns: seq<string>, attempts: map<string, Attempt>, faults: Faults) {
    || ("io_disk" in turns && Escapes("io_disk", AttemptOf(attempts, "io_disk"), faults))
    || ("deadlocks" in turns && Escapes("deadlocks", AttemptOf(attempts, "deadlocks"), faults))
  }

  lemma OneTurn(names: seq<string>, i: nat, attempts: map<string, Attempt>,
                frames: map<string, Frame>)
    requires i < |names| && FramesOf(frames, names[..i], attempts)
    ensures var attempt := AttemptOf(attempts, names[i]);
            && FramesOf(if attempt.Collected? then frames[names[i] := attempt.frame] else frames,
                        names[..i + 1], attempts)
            && Passed(names[..i + 1], attempts) ==
                 Passed(names[..i], attempts) + if attempt.Collected? then [] else [names[i]]
  {
    assert names[..i + 1] == names[..i] + [names[i]];
  }

  /** A turn escapes, or it leaves the question to the turns before it. */
  lemma OneTurnRaises(names: seq<string>, i: nat, attempts: map<string, Attempt>, faults: Faults)
    requires i < |names|
    ensures RaisesWithin(names[..i + 1], attempts, faults)
            <==> RaisesWithin(names[..i], attempts, faults)
                 || Escapes(names[i], AttemptOf(attempts, names[i]), faults)
  {
    assert names[..i + 1] == names[..i] + [names[i]];
  }

  lemma RaisesFromThen(names: seq<string>, i: nat, n: nat, attempts: map<string, Attempt>,
                       faults: Faults)
    requires i <= n <= |names| && RaisesWithin(names[..i], attempts, faults)
    ensures RaisesWithin(names[..n], attempts, faults)
  {
    assert names[..n] == names[..i] + names[i..n];
  }

  lemma NothingYet(attempts: map<string, Attempt>, faults: Faults)
    ensures FramesOf(map[], [], attempts) && Passed([], attempts) == [] && !RaisesWithin([], attempts, faults)
  {
  }

  /**
   Collectors in order until the time budget runs out before number `expires`, if it does. A collector that
   fails costs only itself; a failing previous sample or watermark costs the whole pass.
   */
  method RunCollectors(names: seq<string>, attempts: map<string, Attempt>, expires: Option<nat>, faults: Faults)
    returns (result: Result<Pass>)
    ensures result.Raised? <==> RaisesWithin(names[..Turns(names, expires)], attempts, faults)
    ensures result.Ok? ==> FramesOf(result.value.frames, names[..Turns(names, expires)], attempts)
    ensures result.Ok? ==> result.value.skipped == Skipped(names, Turns(names, expires), attempts, result.value.frames)
  {
    hide RaisesWithin, FramesOf, Keep;
    var frames: map<string, Frame>, skipped: seq<string> := map[], [];
    NothingYet(attempts, faults);
    var i := 0;
    while i < |names|
      invariant 0 <= i <= Turns(names, expires)
      invariant FramesOf(frames, names[..i], attempts)
      invariant skipped == Passed(names[..i], attempts)
      invariant !RaisesWithin(names[..i], attempts, faults)
      decreases |names| - i
    {
      if expires.Some? && i >= expires.value {
        skipped := skipped + Remaining(names, frames);
        return Ok(Pass(frames, skipped));
      }
      var name := names[i];
      OneTurn(names, i, attempts, frames);
      OneTurnRaises(names, i, attempts, faults);
      match AttemptOf(attempts, name) {
        case NotApplicable => skipped := skipped + [name];
        case Failed => skipped := skipped + [name];
        case Collected(frame) =>
          if name == "io_disk" && frame.rows > 0 && faults.sampleFails {
            RaisesFromThen(names, i + 1, Turns(names, expires), attempts, faults);
            return Raised;
          }
          frames := frames[name := frame];
          if name == "deadlocks" && frame.rows > 0 && faults.watermarkFails {
            RaisesFromThen(names, i + 1, Turns(names, expires), attempts, faults);
            return Raised;
          }
      }
      i := i + 1;
    }
    assert names[..i] == names;
    result := Ok(Pass(frames, skipped));
  }

  function Times(names: seq<string>, c: string): nat {
    if names == [] then 0 else Times(names[..|names| - 1], c) + if names[|names| - 1] == c then 1 else 0
  }

  lemma {:induction false} TimesAdd(a: seq<string>, b: seq<string>, c: string)
    ensures Times(a + b, c) == Times(a, c) + Times(b, c)
  {
    if b == [] {
      assert a + b == a;
    } else {
      var n := |b| - 1;
      assert (a + b)[..|a + b| - 1] == a + b[..n];
      TimesAdd(a, b[..n], c);
    }
  }

  lemma {:induction false} KeptTimes(names: seq<string>, test: string -> bool, c: string)
    ensures Times(Keep(names, test), c) == if test(c) then Times(names, c) else 0
  {
    if names != [] {
      var n := |names| - 1;
      KeptTimes(names[..n], test, c);
      TimesAdd(Keep(names[..n], test), if test(names[n]) then [names[n]] else [], c);
    }
  }

  lemma {:induction false} DistinctTimes(names: seq<string>, c: string)
    requires Distinct(names)
    ensures Times(names, c) == if c in names then 1 else 0
  {
    if names != [] {
      var n := |names| - 1;
      DistinctTimes(names[..n], c);
      assert names == names[..n] + [names[n]];
    }
  }

  lemma NoTimes(c: string)
    ensures Times([], c) == 0
  {
  }

  /**
   Every collector of the tier ends in frames or in skipped, never in both; once when the budget holds, and
   twice in skipped exactly when it had its turn in vain and the budget ran out later.
   */
  lemma FramedOrSkipped(names: seq<string>, turns: nat, attempts: map<string, Attempt>,
                        frames: map<string, Frame>, c: string)
    requires Distinct(names) && turns <= |names| && FramesOf(frames, names[..turns], attempts)
    ensures Times(Skipped(names, turns, attempts, frames), c) ==
              if c !in names || c in frames then 0
              else if turns < |names| && c in names[..turns] then 2
              else 1
  {
    hide Times, Keep;
    var had, left := Passed(names[..turns], attempts), Remaining(names, frames);
    KeptTimes(names[..turns], x => !AttemptOf(attempts, x).Collected?, c);
    KeptTimes(names, x => x !in frames, c);
    DistinctTimes(names[..turns], c);
    DistinctTimes(names, c);
    TimesAdd(had, if turns < |names| then left else [], c);
    NoTimes(c);
    assert turns == |names| ==> names[..turns] == names;
  }
}
