/**
 Deadlock ingestion for one server (deadlocks.py, runner.py, repository.py): read past the watermark, drop
 duplicates, advance the watermark, then write. Any step of a run may fail. Only daily runs collect deadlocks,
 and TierRuns shows that their passes over one server never overlap, so here a pass is one step of a history.
 */
module DeadlockIngest {
  import opened Options
  import opened Permutations

  /** An event of the system_health session; its time is in microseconds. */
  datatype Event = Event(time: int, victim: Option<int>, resources: string, graph: string)

  /** Time, victim and resources, as `dedup_key` joins them. */
  datatype DedupKey = DedupKey(time: int, victim: Option<int>, resources: string)

  function KeyOf(e: Event): DedupKey { DedupKey(e.time, e.victim, e.resources) }

  /** Events share a key exactly when they agree in time, victim and resources, whatever their graphs say. */
  lemma KeysDistinguish(a: Event, b: Event)
    ensures KeyOf(a) == KeyOf(b) <==> a.time == b.time && a.victim == b.victim && a.resources == b.resources
  {
  }

  function Keys(events: seq<Event>): set<DedupKey> { set e | e in events :: KeyOf(e) }

  /** DATETIME2(3): to the nearest millisecond. */
  function Millis(t: int): int { (t + 500) / 1000 * 1000 }

  predicate Whole(e: Event) { Millis(e.time) == e.time }

  /** A stored time is the nearest whole millisecond, the later one of two; whole times are stored as they are. */
  lemma MillisNearest(t: int)
    ensures Millis(t) % 1000 == 0 && -500 <= t - Millis(t) < 500
    ensures forall e: Event :: Whole(e) <==> e.time % 1000 == 0
  {
  }

  const EPOCH: int := -2_208_988_800_000_000  // 1900-01-01

  // ---------------------------------------------------------------- one run

  /** What a run meets: the event sources as they read, and where it is cut off. */
  datatype Input = Input(
    file: Option<seq<Event>>,
    ring: Option<seq<Event>>,
    watermarkFails: bool,
    dryRun: bool,
    batch: int,
    /** How many rows the database takes before the connection breaks. */
    capacity: Option<nat>)

  /** `refused` says that the unique index has turned a row away; `seen` is every event read so far. */
  datatype Store = Store(watermark: Option<int>, rows: seq<Event>, refused: bool, seen: seq<Event>)

  /** From the watermark on, or from 25567 days before 1970. */
  function Since(s: Store): (since: int)
    ensures s.watermark == Some(since) || (s.watermark.None? && since == -25_567 * 86_400 * 1_000_000)
  {
    if s.watermark.Some? then s.watermark.value else EPOCH
  }

  predicate InTimeOrder(events: seq<Event>) {
    forall i, j :: 0 <= i < j < |events| ==> events[i].time <= events[j].time
  }

  /** The event behind those no later than it. */
  function Inserted(events: seq<Event>, e: Event): (r: seq<Event>)
    ensures forall x :: x in r <==> x in events || x == e
    ensures InTimeOrder(events) ==> InTimeOrder(r)
  {
    if events == [] || events[|events| - 1].time <= e.time then events + [e]
    else
      var rest, last := Inserted(events[..|events| - 1], e), events[|events| - 1];
      assert InTimeOrder(events) ==> forall i :: 0 <= i < |rest| ==> rest[i] in rest && rest[i].time <= last.time;
      rest + [last]
  }

  /** WHERE deadlock_time_utc > ? ORDER BY deadlock_time_utc */
  function Queried(events: seq<Event>, since: int): (r: seq<Event>)
    ensures forall e :: e in r <==> e in events && e.time > since
    ensures InTimeOrder(r)
  {
    if events == [] then []
    else
      var rest, last := Queried(events[..|events| - 1], since), events[|events| - 1];
      if last.time > since then Inserted(rest, last) else rest
  }

  /** Exactly the source's events newer than `since`, each as often as the source has it, oldest first. */
  ghost predicate Answers(events: seq<Event>, source: seq<Event>, since: int) {
    && InTimeOrder(events)
    && forall e :: multiset(events)[e] == if e.time > since then multiset(source)[e] else 0
  }

  lemma {:induction false} InsertedAdds(events: seq<Event>, e: Event)
    ensures multiset(Inserted(events, e)) == multiset(events) + multiset{e}
  {
    if events != [] && events[|events| - 1].time > e.time {
      InsertedAdds(events[..|events| - 1], e);
      Snoc(events);
    }
  }

  lemma {:induction false} QueriedAnswers(source: seq<Event>, since: int)
    ensures Answers(Queried(source, since), source, since)
  {
    if source != [] {
      var n := |source| - 1;
      QueriedAnswers(source[..n], since);
      InsertedAdds(Queried(source[..n], since), source[n]);
      Snoc(source);
    }
  }

  /** The file target, else the ring buffer, else nothing. */
  function Fetched(s: Store, run: Input): seq<Event> {
    match (run.file, run.ring)
    case (Some(events), _) => Queried(events, Since(s))
    case (None, Some(events)) => Queried(events, Since(s))
    case (None, None) => []
  }

  /** drop_duplicates(subset=["dedup_key"]) keeps the first. */
  function Deduped(events: seq<Event>): seq<Event> {
    if events == [] then []
    else
      var rest, last := Deduped(events[..|events| - 1]), events[|events| - 1];
      if KeyOf(last) in Keys(rest) then rest else rest + [last]
  }

  /** The newest event of a frame. */
  function Newest(events: seq<Event>): (r: int)
    requires events != []
    ensures (exists e :: e in events && e.time == r) && forall e :: e in events ==> e.time <= r
  {
    if |events| == 1 then events[0].time
    else
      var rest, last := Newest(events[..|events| - 1]), events[|events| - 1].time;
      assert forall e :: e in events ==> e in events[..|events| - 1] || e == events[|events| - 1];
      if rest > last then rest else last
  }

  /** What is left of the capacity after n rows. */
  function Less(capacity: Option<nat>, n: nat): Option<nat> {
    if capacity.None? then None else if capacity.value < n then Some(0) else Some(capacity.value - n)
  }

  /** How many of the rows get in: up to the first the connection or the unique index stops. */
  function Admitted(rows: seq<Event>, frame: seq<Event>, capacity: Option<nat>): (n: nat)
    ensures n <= |frame| && (capacity.Some? ==> n <= capacity.value)
    decreases |frame|
  {
    if frame == [] || capacity == Some(0) || KeyOf(frame[0]) in Keys(rows) then 0
    else 1 + Admitted(rows + [frame[0]], frame[1..], Less(capacity, 1))
  }

  /** The unique index stops the write, rather than the connection. */
  function Refused(rows: seq<Event>, frame: seq<Event>, capacity: Option<nat>): bool {
    var n := Admitted(rows, frame, capacity);
    n < |frame| && capacity != Some(n)
  }

  /** What a write leaves in the table. */
  function Written(rows: seq<Event>, frame: seq<Event>, run: Input): seq<Event> {
    if run.batch <= 0 then rows else rows + frame[..Admitted(rows, frame, run.capacity)]
  }

  function After(s: Store, run: Input): Store {
    var fetched := Fetched(s, run);
    var frame := Deduped(fetched);
    var seen := s.seen + fetched;
    if frame == [] || run.watermarkFails then s.(seen := seen)
    else
      var marked := s.(watermark := Some(Millis(Newest(frame))), seen := seen);
      if run.dryRun then marked
      else marked.(rows := Written(s.rows, frame, run),
                   refused := s.refused || (run.batch > 0 && Refused(s.rows, frame, run.capacity)))
  }

  function AfterAll(s: Store, runs: seq<Input>): Store {
    if runs == [] then s else After(AfterAll(s, runs[..|runs| - 1]), runs[|runs| - 1])
  }

  const FRESH: Store := Store(None, [], false, [])

  // ---------------------------------------------------------------- the steps in the source's own form

  /** The positions of a source whose key has not come before, in rising order and none left out. */
  ghost predicate AllFirst(at: seq<nat>, source: seq<Event>) {
    && (forall i, j :: 0 <= i < j < |at| ==> at[i] < at[j])
    && (forall i :: 0 <= i < |at| ==> at[i] < |source|)
    && (forall k :: 0 <= k < |source| ==> (k in at <==> KeyOf(source[k]) !in Keys(source[..k])))
  }

  ghost predicate Picked(events: seq<Event>, source: seq<Event>, at: seq<nat>) {
    |at| == |events| && forall i :: 0 <= i < |at| ==> at[i] < |source| && events[i] == source[at[i]]
  }

  /** The first event of each key, and nothing else, in order. */
  ghost predicate FirstOfEach(frame: seq<Event>, source: seq<Event>) {
    exists at: seq<nat> :: AllFirst(at, source) && Picked(frame, source, at)
  }

  /** Whether the n-th event counts, and the positions with it. */
  function WithFirst(at: seq<nat>, source: seq<Event>, n: nat): seq<nat>
    requires n < |source|
  {
    if KeyOf(source[n]) in Keys(source[..n]) then at else at + [n]
  }

  lemma FirstsStep(at: seq<nat>, source: seq<Event>, n: nat)
    requires n < |source| && AllFirst(at, source[..n])
    ensures AllFirst(WithFirst(at, source, n), source[..n + 1])
  {
    hide Keys;
    var more := WithFirst(at, source, n);
    forall k | 0 <= k <= n ensures k in more <==> KeyOf(source[k]) !in Keys(source[..k]) {
      if k < n { assert source[..n][..k] == source[..k] && source[..n][k] == source[k]; }
    }
    forall k | 0 <= k <= n ensures source[..n + 1][..k] == source[..k] { }
  }

  lemma PickedStep(at: seq<nat>, frame: seq<Event>, source: seq<Event>, n: nat)
    requires n < |source| && Picked(frame, source[..n], at)
    ensures Picked(frame, source[..n + 1], at) && Picked(frame + [source[n]], source[..n + 1], at + [n])
  {
  }

  lemma NothingPicked(source: seq<Event>)
    ensures Deduped(source[..0]) == []
    ensures AllFirst([], source[..0]) && Picked([], source[..0], [])
  {
  }

  predicate NoRepeat(events: seq<Event>) {
    forall i, j :: 0 <= i < j < |events| ==> KeyOf(events[i]) != KeyOf(events[j])
  }

  lemma {:induction false} DedupedKeys(events: seq<Event>)
    ensures NoRepeat(Deduped(events)) && Keys(Deduped(events)) == Keys(events)
    ensures forall e :: e in Deduped(events) ==> e in events
    ensures Deduped(events) == [] <==> events == []
  {
    if events != [] {
      var n := |events| - 1;
      DedupedKeys(events[..n]);
      assert events == events[..n] + [events[n]];
      assert Keys(events) == Keys(events[..n]) + {KeyOf(events[n])};
      var rest := Deduped(events[..n]);
      assert Keys(rest + [events[n]]) == Keys(rest) + {KeyOf(events[n])};
      forall i | 0 <= i < |rest| ensures KeyOf(rest[i]) in Keys(rest) { }
    }
  }

  lemma DedupedStep(events: seq<Event>, i: nat)
    requires i < |events|
    ensures Deduped(events[..i + 1]) ==
              Deduped(events[..i]) + if KeyOf(events[i]) in Keys(events[..i]) then [] else [events[i]]
  {
    assert events[..i + 1][..i] == events[..i];
    DedupedKeys(events[..i]);
  }

  method Transform(events: seq<Event>) returns (frame: seq<Event>)
    ensures frame == Deduped(events) && FirstOfEach(frame, events)
  {
    hide Keys, AllFirst, Picked, Deduped;
    frame := [];
    ghost var at: seq<nat> := [];
    NothingPicked(events);
    for i := 0 to |events|
      invariant frame == Deduped(events[..i])
      invariant AllFirst(at, events[..i]) && Picked(frame, events[..i], at)
    {
      DedupedKeys(events[..i]);
      FirstsStep(at, events, i);
      PickedStep(at, frame, events, i);
      DedupedStep(events, i);
      if KeyOf(events[i]) !in Keys(frame) {
        frame := frame + [events[i]];
        at := at + [i];
      }
    }
    assert events[..|events|] == events;
  }

  /** A frame goes in as its first part does, and then its second. */
  lemma {:induction false} AdmittedSplit(rows: seq<Event>, first: seq<Event>, second: seq<Event>, capacity: Option<nat>)
    ensures var n := Admitted(rows, first, capacity);
            Admitted(rows, first + second, capacity) ==
              if n < |first| then n else |first| + Admitted(rows + first, second, Less(capacity, |first|))
    decreases |first|
  {
    hide Keys;
    if first == [] {
      assert first + second == second && rows + first == rows;
    } else if capacity != Some(0) && KeyOf(first[0]) !in Keys(rows) {
      assert (first + second)[1..] == first[1..] + second && (first + second)[0] == first[0];
      assert rows + [first[0]] + first[1..] == rows + first;
      AdmittedSplit(rows + [first[0]], first[1..], second, Less(capacity, 1));
    } else {
      assert (first + second)[0] == first[0];
    }
  }

  lemma BatchIn(was: seq<Event>, frame: seq<Event>, start: nat, stop: nat, left: Option<nat>, n: nat)
    requires start <= stop <= |frame| && n == Admitted(was + frame[..start], frame[start..stop], left)
    ensures was + frame[..start] + frame[start..stop][..n] == was + frame[..start + n]
    ensures Admitted(was + frame[..start], frame[start..], left) ==
              if n < stop - start then n
              else n + Admitted(was + frame[..stop], frame[stop..], Less(left, n))
  {
    hide Admitted;
    var rows := was + frame[..start];
    assert frame[start..] == frame[start..stop] + frame[stop..];
    assert frame[..start] + frame[start..stop][..n] == frame[..start + n];
    AdmittedSplit(rows, frame[start..stop], frame[stop..], left);
    assert rows + frame[start..stop] == was + frame[..stop];
  }

  lemma AdmittedNext(rows: seq<Event>, chunk: seq<Event>, n: nat, left: Option<nat>)
    requires n <= |chunk|
    ensures Admitted(rows, chunk[n..], left) ==
              if n == |chunk| || left == Some(0) || KeyOf(chunk[n]) in Keys(rows) then 0
              else 1 + Admitted(rows + [chunk[n]], chunk[n + 1..], Less(left, 1))
  {
  }

  class Repository {
    var watermark: Option<int>
    var rows: seq<Event>
    var refused: bool
    ghost var seen: seq<Event>

    ghost function State(): Store
      reads this
    {
      Store(watermark, rows, refused, seen)
    }

    constructor ()
      ensures State() == FRESH
    {
      watermark, rows, refused, seen := None, [], false, [];
    }

    /** A readable file target is all that counts; the ring buffer is read only in its place. */
    method Fetch(run: Input) returns (events: seq<Event>)
      ensures events == Fetched(State(), run)
      ensures run.file.Some? ==> Answers(events, run.file.value, Since(State()))
      ensures run.file.None? && run.ring.Some? ==> Answers(events, run.ring.value, Since(State()))
      ensures run.file.None? && run.ring.None? ==> events == []
    {
      var since := if watermark.Some? then watermark.value else EPOCH;
      match (run.file, run.ring) {
        case (Some(file), _) =>
          events := Queried(file, since);
          QueriedAnswers(file, since);
        case (None, Some(ring)) =>
          events := Queried(ring, since);
          QueriedAnswers(ring, since);
        case (None, None) => events := [];
      }
    }

    /** One executemany: rows go in one by one until one of them fails. */
    method ExecuteMany(chunk: seq<Event>, capacity: Option<nat>) returns (n: nat, raised: bool)
      modifies this`rows, this`refused
      ensures n == Admitted(old(rows), chunk, capacity) && rows == old(rows) + chunk[..n]
      ensures raised <==> n < |chunk|
      ensures refused == (old(refused) || Refused(old(rows), chunk, capacity))
    {
      hide Admitted, Keys;
      n := 0;
      var left: Option<nat> := capacity;
      while n < |chunk| && left != Some(0) && KeyOf(chunk[n]) !in Keys(rows)
        invariant n <= |chunk| && rows == old(rows) + chunk[..n] && refused == old(refused)
        invariant left == Less(capacity, n) && (capacity.Some? ==> n <= capacity.value)
        invariant Admitted(old(rows), chunk, capacity) == n + Admitted(rows, chunk[n..], left)
      {
        AdmittedNext(rows, chunk, n, left);
        assert chunk[..n + 1] == chunk[..n] + [chunk[n]];
        rows := rows + [chunk[n]];
        left := Less(left, 1);
        n := n + 1;
      }
      raised := n < |chunk|;
      AdmittedNext(rows, chunk, n, left);
      if raised && left != Some(0) { refused := true; }
    }

    /** for start in range(0, len(rows), batch_size) */
    method WriteBatches(frame: seq<Event>, batch: nat, capacity: Option<nat>) returns (result: Result<int>)
      requires batch > 0
      modifies this`rows, this`refused
      ensures var n := Admitted(old(rows), frame, capacity);
              && rows == old(rows) + frame[..n] && result == if n == |frame| then Ok(n) else Raised
      ensures refused == (old(refused) || Refused(old(rows), frame, capacity))
    {
      hide Admitted, Keys;
      var start, left: Option<nat> := 0, capacity;
      while start < |frame|
        invariant 0 <= start <= |frame| && rows == old(rows) + frame[..start] && refused == old(refused)
        invariant left == Less(capacity, start) && (capacity.Some? ==> start <= capacity.value)
        invariant Admitted(old(rows), frame, capacity) == start + Admitted(rows, frame[start..], left)
        decreases |frame| - start
      {
        var stop := if start + batch < |frame| then start + batch else |frame|;
        var n, raised := ExecuteMany(frame[start..stop], left);
        BatchIn(old(rows), frame, start, stop, left, n);
        if raised { return Raised; }
        start := stop;
        left := Less(left, n);
      }
      assert frame[..start] == frame;
      assert Admitted(rows, frame[start..], left) == 0;
      result := Ok(start);
    }

    /** Repository.write: the frame in batches, stopping at the first failure. */
    method Write(frame: seq<Event>, batch: int, capacity: Option<nat>) returns (result: Result<int>)
      modifies this`rows, this`refused
      ensures var n := if batch <= 0 then 0 else Admitted(old(rows), frame, capacity);
              && rows == old(rows) + frame[..n]
              && result == (if frame == [] || batch < 0 || (batch > 0 && n == |frame|) then Ok(n) else Raised)
      ensures refused == (old(refused) || (batch > 0 && Refused(old(rows), frame, capacity)))
    {
      if frame == [] { return Ok(0); }
      if batch == 0 { return Raised; }  // range() with a zero step
      if batch < 0 { return Ok(0); }    // range() with a negative step is empty
      result := WriteBatches(frame, batch, capacity);
    }

    /** One run's pass over the deadlocks: the watermark is set with the frame in hand, the write comes later. */
    method Ingest(run: Input)
      modifies this
      ensures State() == After(old(State()), run)
    {
      hide Admitted, Keys, Queried, Refused, Millis, FirstOfEach, Answers;
      var fetched := Fetch(run);
      var frame := Transform(fetched);
      seen := seen + fetched;
      if frame == [] || run.watermarkFails { return; }
      watermark := Some(Millis(Newest(frame)));
      if run.dryRun { return; }
      var result := Write(frame, run.batch, run.capacity);
      assert run.batch <= 0 ==> rows == old(rows) by { assert old(rows) + frame[..0] == old(rows); }
    }
  }

  // ---------------------------------------------------------------- duplicates within one frame

  lemma NewestBound(a: seq<Event>, b: seq<Event>)
    requires a != [] && b != [] && Keys(a) <= Keys(b)
    ensures Newest(a) <= Newest(b)
  {
    var newest := Newest(a);
    var e :| e in a && e.time == newest;
    assert KeyOf(e) in Keys(b);
  }

  lemma SameNewest(a: seq<Event>, b: seq<Event>)
    requires a != [] && b != [] && Keys(a) == Keys(b)
    ensures Newest(a) == Newest(b)
  {
    NewestBound(a, b);
    NewestBound(b, a);
  }

  // ---------------------------------------------------------------- the unique index

  lemma {:induction false} NothingRefused(rows: seq<Event>, frame: seq<Event>, capacity: Option<nat>)
    requires NoRepeat(frame) && Keys(rows) !! Keys(frame)
    ensures Admitted(rows, frame, capacity) ==
              if capacity.Some? && capacity.value < |frame| then capacity.value else |frame|
    ensures !Refused(rows, frame, capacity)
    decreases |frame|
  {
    if frame != [] && capacity != Some(0) {
      assert KeyOf(frame[0]) in Keys(frame);
      assert Keys(rows + [frame[0]]) == Keys(rows) + {KeyOf(frame[0])};
      assert NoRepeat(frame[1..]) && Keys(frame[1..]) <= Keys(frame);
      forall e | e in frame[1..] ensures KeyOf(e) != KeyOf(frame[0]) { }
      NothingRefused(rows + [frame[0]], frame[1..], Less(capacity, 1));
    }
  }

  /** The row at this place is reached before the connection breaks, and its key is stored already. */
  predicate Clashes(rows: seq<Event>, frame: seq<Event>, capacity: Option<nat>, i: nat)
    requires i < |frame|
  {
    (capacity.Some? ==> i < capacity.value) && KeyOf(frame[i]) in Keys(rows)
  }

  lemma KeysOfMore(rows: seq<Event>, e: Event)
    ensures Keys(rows + [e]) == Keys(rows) + {KeyOf(e)}
  {
  }

  /** The unique index turns a row away exactly when the connection lasts to a row whose key is stored. */
  lemma {:induction false} RefusedExactly(rows: seq<Event>, frame: seq<Event>, capacity: Option<nat>)
    requires NoRepeat(frame)
    ensures Refused(rows, frame, capacity) <==> exists i :: 0 <= i < |frame| && Clashes(rows, frame, capacity, i)
    decreases |frame|
  {
    hide Keys;
    if frame != [] && capacity != Some(0) {
      if KeyOf(frame[0]) in Keys(rows) {
        assert Clashes(rows, frame, capacity, 0);
      } else {
        var more, rest, left := rows + [frame[0]], frame[1..], Less(capacity, 1);
        RefusedExactly(more, rest, left);
        assert Refused(rows, frame, capacity) == Refused(more, rest, left);
        forall i | 0 <= i < |rest| ensures Clashes(more, rest, left, i) <==> Clashes(rows, frame, capacity, i + 1) {
          KeysOfMore(rows, frame[0]);
        }
        if i :| 0 <= i < |rest| && Clashes(more, rest, left, i) { assert Clashes(rows, frame, capacity, i + 1); }
        if i :| 0 <= i < |frame| && Clashes(rows, frame, capacity, i) { assert Clashes(more, rest, left, i - 1); }
      }
    }
  }

  /** Stored rows are unique and at or below the watermark, and no row was ever turned away. */
  ghost predicate Inv(s: Store) {
    && NoRepeat(s.rows) && !s.refused
    && forall e :: e in s.rows ==> s.watermark.Some? && e.time <= s.watermark.value
  }

  /** Event times are whole milliseconds, so that the watermark stores them exactly. */
  predicate AllWhole(events: seq<Event>) { forall e :: e in events ==> Whole(e) }

  lemma FreshKeys(s: Store, run: Input)
    requires Inv(s)
    ensures Keys(s.rows) !! Keys(Fetched(s, run))
  {
    forall e, f | e in s.rows && f in Fetched(s, run) ensures KeyOf(e) != KeyOf(f) { }
  }

  /** What a run leaves behind, once the unique index is known not to interfere. */
  lemma RunMeaning(s: Store, run: Input)
    requires Inv(s) && AllWhole(Fetched(s, run))
    ensures var t, fetched, frame := After(s, run), Fetched(s, run), Deduped(Fetched(s, run));
            && t.seen == s.seen + fetched && !t.refused
            && NoRepeat(frame) && Keys(frame) == Keys(fetched) && Keys(s.rows) !! Keys(frame)
            && t.watermark == (if fetched == [] || run.watermarkFails then s.watermark else Some(Newest(fetched)))
            && t.rows == s.rows + (if fetched == [] || run.watermarkFails || run.dryRun || run.batch <= 0 then []
                                   else if run.capacity.Some? && run.capacity.value < |frame|
                                   then frame[..run.capacity.value] else frame)
  {
    hide Admitted, Refused, NoRepeat, Keys;
    var fetched := Fetched(s, run);
    var frame := Deduped(fetched);
    DedupedKeys(fetched);
    FreshKeys(s, run);
    NothingRefused(s.rows, frame, run.capacity);
    if fetched != [] {
      SameNewest(fetched, frame);
      var newest := Newest(fetched);
      var e :| e in fetched && e.time == newest;
    }
    assert s.rows + [] == s.rows && frame[..|frame|] == frame;
  }

  lemma SeenGrows(s: Store, run: Input)
    ensures After(s, run).seen == s.seen + Fetched(s, run)
  {
    hide Admitted, Refused, Fetched, Queried;
    DedupedKeys(Fetched(s, run));
    assert s.seen + [] == s.seen;
  }

  lemma AppendUnique(rows: seq<Event>, frame: seq<Event>, n: nat)
    requires NoRepeat(rows) && NoRepeat(frame) && Keys(rows) !! Keys(frame) && n <= |frame|
    ensures NoRepeat(rows + frame[..n])
  {
    var all := rows + frame[..n];
    forall i, j | 0 <= i < j < |all| ensures KeyOf(all[i]) != KeyOf(all[j]) {
      if i < |rows| { assert KeyOf(rows[i]) in Keys(rows); }
      if j >= |rows| { assert KeyOf(frame[j - |rows|]) in Keys(frame); }
    }
  }

  /** Everything a run fetches is newer than the watermark and no newer than the next one. */
  lemma FetchedBetween(s: Store, run: Input)
    requires Fetched(s, run) != []
    ensures Since(s) < Newest(Fetched(s, run))
    ensures forall e :: e in Fetched(s, run) ==> Since(s) < e.time <= Newest(Fetched(s, run))
  {
    var newest := Newest(Fetched(s, run));
    var e :| e in Fetched(s, run) && e.time == newest;
  }

  lemma RunKeeps(s: Store, run: Input)
    requires Inv(s) && AllWhole(After(s, run).seen)
    ensures Inv(After(s, run))
  {
    hide After, Fetched, Keys, NoRepeat, Newest, Deduped, Whole;
    SeenGrows(s, run);
    RunMeaning(s, run);
    var t, fetched, frame := After(s, run), Fetched(s, run), Deduped(Fetched(s, run));
    DedupedKeys(fetched);
    var n := |t.rows| - |s.rows|;
    assert t.rows == s.rows + frame[..n];
    AppendUnique(s.rows, frame, n);
    if fetched != [] { FetchedBetween(s, run); }
  }

  lemma {:induction false} AdmittedStayUnique(rows: seq<Event>, frame: seq<Event>, capacity: Option<nat>)
    requires NoRepeat(rows)
    ensures NoRepeat(rows + frame[..Admitted(rows, frame, capacity)])
    decreases |frame|
  {
    var n := Admitted(rows, frame, capacity);
    if n == 0 {
      assert rows + frame[..0] == rows;
    } else {
      forall i | 0 <= i < |rows| ensures KeyOf(rows[i]) != KeyOf(frame[0]) { assert KeyOf(rows[i]) in Keys(rows); }
      AdmittedStayUnique(rows + [frame[0]], frame[1..], Less(capacity, 1));
      assert rows + [frame[0]] + frame[1..][..n - 1] == rows + frame[..n];
    }
  }

  lemma NothingRepeats()
    ensures NoRepeat([])
  {
  }

  /** Whatever fails and whatever the event times, in any history: no key is stored twice. */
  lemma {:induction false} AtMostOnce(runs: seq<Input>)
    ensures NoRepeat(AfterAll(FRESH, runs).rows)
  {
    hide Admitted, NoRepeat;
    if runs == [] {
      NothingRepeats();
    } else {
      var n := |runs| - 1;
      AtMostOnce(runs[..n]);
      var s := AfterAll(FRESH, runs[..n]);
      AdmittedStayUnique(s.rows, Deduped(Fetched(s, runs[n])), runs[n].capacity);
    }
  }

  lemma FreshOk()
    ensures Inv(FRESH)
  {
  }

  /** Whatever fails, the unique index turns nothing away, and every row is at or below the watermark. */
  lemma {:induction false} NothingEverRefused(runs: seq<Input>)
    requires AllWhole(AfterAll(FRESH, runs).seen)
    ensures Inv(AfterAll(FRESH, runs))
  {
    hide Inv, After;
    if runs == [] {
      FreshOk();
    } else {
      var n := |runs| - 1;
      SeenGrows(AfterAll(FRESH, runs[..n]), runs[n]);
      NothingEverRefused(runs[..n]);
      RunKeeps(AfterAll(FRESH, runs[..n]), runs[n]);
    }
  }

  /** A non-empty read whose watermark is stored moves the watermark strictly forward, to its newest event. */
  lemma WatermarkAdvances(s: Store, run: Input)
    requires Inv(s) && AllWhole(After(s, run).seen) && Fetched(s, run) != [] && !run.watermarkFails
    ensures After(s, run).watermark == Some(Newest(Fetched(s, run)))
    ensures Since(s) < Since(After(s, run))
  {
    hide After, Fetched, Inv, Newest;
    SeenGrows(s, run);
    RunMeaning(s, run);
    FetchedBetween(s, run);
  }

  // ---------------------------------------------------------------- exactly once, and exactly when

  /** The event was read, the watermark has passed it, and it is not stored. */
  predicate Lost(s: Store, e: Event) {
    e in s.seen && s.watermark.Some? && e.time <= s.watermark.value && KeyOf(e) !in Keys(s.rows)
  }

  ghost predicate Lossless(s: Store) { forall e :: !Lost(s, e) }

  predicate Above(s: Store, e: Event) { s.watermark.Some? ==> e.time > s.watermark.value }

  /** Events an earlier run read and did not pass are read again, up to the new watermark. */
  predicate ReadsAgain(s: Store, run: Input)
    requires Fetched(s, run) != []
  {
    forall e :: e in s.seen && Above(s, e) && e.time <= Newest(Fetched(s, run)) ==> KeyOf(e) in Keys(Fetched(s, run))
  }

  predicate Writes(s: Store, run: Input) {
    && !run.dryRun && run.batch > 0
    && (run.capacity.Some? ==> run.capacity.value >= |Deduped(Fetched(s, run))|)
  }

  /** The run reads nothing, or leaves the watermark alone, or reads what it passes and writes the whole frame. */
  predicate Safe(s: Store, run: Input) {
    Fetched(s, run) == [] || run.watermarkFails || (ReadsAgain(s, run) && Writes(s, run))
  }

  /** Events not passed so far are not stored so far. */
  lemma PendingMustComeAgain(s: Store, run: Input)
    requires Inv(s)
    ensures forall e :: Above(s, e) ==> KeyOf(e) !in Keys(s.rows)
  {
  }

  lemma LeftOut(rows: seq<Event>, frame: seq<Event>, n: nat)
    requires NoRepeat(frame) && Keys(rows) !! Keys(frame) && n < |frame|
    ensures KeyOf(frame[n]) !in Keys(rows + frame[..n])
  {
    assert KeyOf(frame[n]) in Keys(frame);
  }

  /** One run loses nothing exactly when it is safe. */
  lemma SafeExactly(s: Store, run: Input)
    requires Inv(s) && AllWhole(After(s, run).seen) && Lossless(s)
    ensures Lossless(After(s, run)) <==> Safe(s, run)
  {
    hide After, Fetched, Inv, Newest, Deduped, Whole, NoRepeat;
    SeenGrows(s, run);
    RunMeaning(s, run);
    var t, fetched, frame := After(s, run), Fetched(s, run), Deduped(Fetched(s, run));
    if fetched == [] || run.watermarkFails {
      assert t.rows == s.rows;
      if fetched != [] { FetchedBetween(s, run); }
      forall e ensures !Lost(t, e) { assert !Lost(s, e); }
    } else {
      FetchedBetween(s, run);
      DedupedKeys(fetched);
      PendingMustComeAgain(s, run);
      if !Writes(s, run) {
        var n := |t.rows| - |s.rows|;
        LeftOut(s.rows, frame, n);
        assert Lost(t, frame[n]);
      } else {
        assert Keys(t.rows) == Keys(s.rows) + Keys(frame);
        if ReadsAgain(s, run) {
          forall e ensures !Lost(t, e) { assert !Lost(s, e); }
        } else {
          var e :| e in s.seen && Above(s, e) && e.time <= Newest(fetched) && KeyOf(e) !in Keys(fetched);
          assert Lost(t, e);
        }
      }
    }
  }

  /** An event that was read, passed by the watermark and not stored is never stored. */
  lemma LostForever(s: Store, run: Input, e: Event)
    requires Inv(s) && AllWhole(After(s, run).seen)
    requires Lost(s, e)
    ensures Lost(After(s, run), e)
  {
    hide After, Fetched, Inv, Newest, Deduped, Whole, NoRepeat;
    SeenGrows(s, run);
    RunMeaning(s, run);
    var t, fetched, frame := After(s, run), Fetched(s, run), Deduped(Fetched(s, run));
    if fetched != [] {
      FetchedBetween(s, run);
      assert KeyOf(e) !in Keys(fetched);
    }
  }

  /** Every run of the history is safe when it comes. */
  predicate AllSafe(runs: seq<Input>) {
    runs == [] || (AllSafe(runs[..|runs| - 1]) && Safe(AfterAll(FRESH, runs[..|runs| - 1]), runs[|runs| - 1]))
  }

  /** A history loses nothing exactly when every one of its runs is safe. */
  lemma {:induction false} HistoryLosslessExactly(runs: seq<Input>)
    requires AllWhole(AfterAll(FRESH, runs).seen)
    ensures Lossless(AfterAll(FRESH, runs)) <==> AllSafe(runs)
  {
    hide After, Safe, Inv;
    if runs != [] {
      var s, run := AfterAll(FRESH, runs[..|runs| - 1]), runs[|runs| - 1];
      SeenGrows(s, run);
      NothingEverRefused(runs[..|runs| - 1]);
      HistoryLosslessExactly(runs[..|runs| - 1]);
      if Lossless(s) {
        SafeExactly(s, run);
      } else {
        var e :| Lost(s, e);
        LostForever(s, run, e);
      }
    }
  }

  /** Every run reads nothing, or sets the watermark and writes. */
  predicate AllSucceed(runs: seq<Input>) {
    runs == [] ||
    var s, run := AfterAll(FRESH, runs[..|runs| - 1]), runs[|runs| - 1];
    AllSucceed(runs[..|runs| - 1]) && (Fetched(s, run) == [] || (!run.watermarkFails && Writes(s, run)))
  }

  lemma KeysAdd(a: seq<Event>, b: seq<Event>)
    ensures Keys(a + b) == Keys(a) + Keys(b)
  {
  }

  /** Runs that succeed store every event they read, once. */
  lemma {:induction false} ExactlyOnce(runs: seq<Input>)
    requires AllWhole(AfterAll(FRESH, runs).seen) && AllSucceed(runs)
    ensures var s := AfterAll(FRESH, runs);
            Keys(s.rows) == Keys(s.seen) && NoRepeat(s.rows) && !s.refused
  {
    hide After, Fetched, Newest, Deduped, Whole, NoRepeat;
    NothingEverRefused(runs);
    if runs != [] {
      var s, run := AfterAll(FRESH, runs[..|runs| - 1]), runs[|runs| - 1];
      SeenGrows(s, run);
      NothingEverRefused(runs[..|runs| - 1]);
      ExactlyOnce(runs[..|runs| - 1]);
      RunMeaning(s, run);
      var fetched := Fetched(s, run);
      KeysAdd(s.seen, fetched);
      KeysAdd(s.rows, Deduped(fetched));
      DedupedKeys(fetched);
    }
  }

  // ---------------------------------------------------------------- what the fallback never reads

  /** The watermark is one its column can hold. */
  predicate MarkStored(s: Store) { s.watermark.Some? ==> Millis(s.watermark.value) == s.watermark.value }

  lemma MillisKeepOrder(a: int, b: int)
    requires a <= b
    ensures Millis(a) <= Millis(b) && Millis(Millis(a)) == Millis(a) && Millis(EPOCH) == EPOCH
  {
  }

  /** Whatever the event times, the lower bound of a read never goes back. */
  lemma SinceNeverGoesBack(s: Store, run: Input)
    requires MarkStored(s)
    ensures MarkStored(After(s, run)) && Since(s) <= Since(After(s, run))
  {
    hide Admitted, Refused, Queried, Millis, Deduped;
    DedupedKeys(Fetched(s, run));
    var frame := Deduped(Fetched(s, run));
    if frame != [] {
      var newest := Newest(frame);
      var e :| e in frame && e.time == newest;
      FetchedBetween(s, run);
      MillisKeepOrder(Since(s), newest);
      MillisKeepOrder(newest, newest);
    }
  }

  lemma {:induction false} SinceAfterAll(s: Store, runs: seq<Input>)
    requires MarkStored(s)
    ensures MarkStored(AfterAll(s, runs)) && Since(s) <= Since(AfterAll(s, runs))
  {
    hide After, MarkStored, Since;
    if runs != [] {
      SinceAfterAll(s, runs[..|runs| - 1]);
      SinceNeverGoesBack(AfterAll(s, runs[..|runs| - 1]), runs[|runs| - 1]);
    }
  }

  /** Some later run, after any runs in between, reads the event. */
  ghost predicate CanStillBeRead(s: Store, e: Event) {
    exists runs, next :: e in Fetched(AfterAll(s, runs), next)
  }

  lemma StillReadExactly(s: Store, e: Event)
    requires MarkStored(s)
    ensures CanStillBeRead(s, e) <==> e.time > Since(s)
  {
    if CanStillBeRead(s, e) {
      var runs, next :| e in Fetched(AfterAll(s, runs), next);
      SinceAfterAll(s, runs);
    }
    if e.time > Since(s) {
      var next := Input(Some([e]), None, false, false, 5000, None);
      assert AfterAll(s, []) == s && e in [e];
      assert e in Fetched(AfterAll(s, []), next);
    }
  }

  /** Every event the file target has past the watermark is read now, or can be read by some later run. */
  ghost predicate NothingPassedUnread(s: Store, run: Input, file: seq<Event>) {
    forall e :: e in file && e.time > Since(s) ==> e in Fetched(s, run) || CanStillBeRead(After(s, run), e)
  }

  /** The ring buffer has every event of the file target between the two watermarks. */
  predicate RingHolds(s: Store, run: Input, file: seq<Event>) {
    forall e :: e in file && Since(s) < e.time <= Since(After(s, run)) ==> run.ring.Some? && e in run.ring.value
  }

  /**
   After any history, a run that falls back to the ring buffer passes no event of the unreadable file target
   by exactly when the ring buffer still holds all of those that the new watermark passes.
   */
  lemma FallbackPassesExactly(history: seq<Input>, run: Input, file: seq<Event>)
    requires run.file.None?
    ensures var s := AfterAll(FRESH, history);
            NothingPassedUnread(s, run, file) <==> RingHolds(s, run, file)
  {
    hide After, CanStillBeRead, Since;
    var s := AfterAll(FRESH, history);
    SinceAfterAll(FRESH, history);
    SinceNeverGoesBack(s, run);
    forall e | e in file && e.time > Since(s)
      ensures e in Fetched(s, run) <==> run.ring.Some? && e in run.ring.value
      ensures CanStillBeRead(After(s, run), e) <==> e.time > Since(After(s, run))
    {
      StillReadExactly(After(s, run), e);
    }
  }

  lemma OneEvent(e: Event, since: int)
    ensures Queried([e], since) == (if e.time > since then [e] else []) && Deduped([e]) == [e]
  {
    assert Queried([], since) == [];
    assert [e][..0] == [];
  }

  /** An older event the ring buffer has dropped: the file target never gives it again. */
  lemma FallbackMisses(older: Event, newer: Event)
    requires EPOCH < older.time < newer.time && Whole(newer)
    ensures var run := Input(None, Some([newer]), false, false, 5000, None);
            && After(FRESH, run).watermark == Some(newer.time)
            && !CanStillBeRead(After(FRESH, run), older)
  {
    var run := Input(None, Some([newer]), false, false, 5000, None);
    OneEvent(newer, EPOCH);
    MillisKeepOrder(newer.time, newer.time);
    StillReadExactly(After(FRESH, run), older);
  }

  // ---------------------------------------------------------------- where the promises stop

  function Reading(events: seq<Event>, dryRun: bool): Input { Input(Some(events), None, false, dryRun, 5000, None) }

  lemma DryRunPasses(e: Event)
    requires e.time > EPOCH && AllWhole(After(FRESH, Reading([e], true)).seen)
    ensures Lost(After(FRESH, Reading([e], true)), e)
  {
    OneEvent(e, EPOCH);
    assert [e][0] in After(FRESH, Reading([e], true)).seen;
  }

  /** A dry run passes an event by, and no later run of any kind stores it. */
  lemma {:induction false} DryRunLoses(e: Event, runs: seq<Input>)
    requires e.time > EPOCH
    requires AllWhole(AfterAll(FRESH, [Reading([e], true)] + runs).seen)
    ensures Lost(AfterAll(FRESH, [Reading([e], true)] + runs), e)
  {
    hide After, Inv, Lost;
    var dry := Reading([e], true);
    if runs == [] {
      assert [dry] + runs == [dry] && [dry][..0] == [];
      DryRunPasses(e);
    } else {
      var n := |runs| - 1;
      var all := [dry] + runs;
      assert all[..|all| - 1] == [dry] + runs[..n];
      var s := AfterAll(FRESH, [dry] + runs[..n]);
      SeenGrows(s, runs[n]);
      DryRunLoses(e, runs[..n]);
      NothingEverRefused([dry] + runs[..n]);
      LostForever(s, runs[n], e);
    }
  }

  lemma FirstRead(e: Event)
    requires e.time > EPOCH
    ensures var s := After(FRESH, Reading([e], false));
            s.watermark == Some(Millis(e.time)) && s.rows == [e] && !s.refused
  {
    hide Millis;
    OneEvent(e, EPOCH);
    NothingRefused([], [e], None);
    assert [] + [e][..1] == [e];
  }

  lemma ReadAgain(s: Store, e: Event)
    requires s.watermark == Some(Millis(e.time)) && s.rows == [e] && !s.refused
    ensures After(s, Reading([e], false)).refused <==> e.time > Millis(e.time)
  {
    hide Millis;
    OneEvent(e, Millis(e.time));
    assert KeyOf(e) in Keys([e]) && Admitted([e], [e], None) == 0;
  }

  /**
   An event whose time the watermark column rounds down is read again, and the unique index turns it away; one
   that it keeps or rounds up is not.
   */
  lemma FinerTimesAreRefused(e: Event)
    requires e.time > EPOCH
    ensures var twice := AfterAll(FRESH, [Reading([e], false), Reading([e], false)]);
            twice.refused <==> 0 < e.time % 1000 < 500
  {
    hide After, Millis;
    var read := Reading([e], false);
    assert [read, read][..1] == [read] && [read][..0] == [];
    assert AfterAll(FRESH, [read]) == After(FRESH, read);
    FirstRead(e);
    ReadAgain(After(FRESH, read), e);
    MillisNearest(e.time);
  }
}
