/**
 Depth of a session in the blocking chain: the cycle-guarded, capped walk of collectors/blocking.py,
 against the set of blocked sessions that the walk can reach.
 */
module ChainDepth {
  import opened Options

  /** A session id as the DMV row gives it, or None. */
  type Spid = Option<int>

  const MAX_CHAIN_WALK := 50

  /** x waits for somebody: it has an entry, and the entry is neither None nor 0. */
  predicate Blocked(pairs: map<Spid, Spid>, x: Spid) {
    x in pairs && pairs[x].Some? && pairs[x].value != 0
  }

  /** The session reached after k hops from x, if the walk gets that far. */
  ghost function Walk(pairs: map<Spid, Spid>, x: Spid, k: nat): Option<Spid> {
    if k == 0 then Some(x)
    else
      var z := Walk(pairs, x, k - 1);
      if z.Some? && Blocked(pairs, z.value) then Some(pairs[z.value]) else None
  }

  ghost predicate Reaches(pairs: map<Spid, Spid>, x: Spid, y: Spid) {
    exists k: nat :: Walk(pairs, x, k) == Some(y)
  }

  /** The blocked sessions on the walk from x, each once. */
  ghost function Waiting(pairs: map<Spid, Spid>, x: Spid): set<Spid> {
    set y | y in pairs.Keys && Blocked(pairs, y) && Reaches(pairs, x, y)
  }

  ghost function Depth(pairs: map<Spid, Spid>, x: Spid): nat {
    1 + if |Waiting(pairs, x)| <= MAX_CHAIN_WALK then |Waiting(pairs, x)| else MAX_CHAIN_WALK
  }

  // ---------------------------------------------------------------- the loop

  /** `seen` followed by `current` is all there is to the walk from x, cycles included. */
  ghost predicate Covers(pairs: map<Spid, Spid>, x: Spid, seen: set<Spid>, current: Spid) {
    && (x in seen || x == current)
    && (forall y {:trigger Blocked(pairs, y)} :: y in seen ==>
          Blocked(pairs, y) && (pairs[y] in seen || pairs[y] == current))
  }

  lemma {:induction false} WalkStaysCovered(pairs: map<Spid, Spid>, x: Spid, seen: set<Spid>, current: Spid, k: nat)
    requires Covers(pairs, x, seen, current)
    requires !Blocked(pairs, current) || current in seen
    ensures var z := Walk(pairs, x, k); z.Some? ==> z.value in seen || z.value == current
  {
    if k > 0 { WalkStaysCovered(pairs, x, seen, current, k - 1); }
  }

  lemma FinishedWalk(pairs: map<Spid, Spid>, x: Spid, seen: set<Spid>, current: Spid)
    requires Covers(pairs, x, seen, current)
    requires !Blocked(pairs, current) || current in seen
    ensures Waiting(pairs, x) <= seen
  {
    forall y | y in Waiting(pairs, x) ensures y in seen {
      var k: nat :| Walk(pairs, x, k) == Some(y);
      WalkStaysCovered(pairs, x, seen, current, k);
    }
  }

  lemma SubsetSize<T>(a: set<T>, b: set<T>)
    requires a <= b
    ensures |a| <= |b|
  {
    assert b == a + (b - a);
  }

  /** Where the loop stands after depth - 1 hops. */
  ghost predicate Underway(pairs: map<Spid, Spid>, x: Spid, seen: set<Spid>, current: Spid, depth: int) {
    && 1 <= depth
    && |seen| == depth - 1
    && Walk(pairs, x, depth - 1) == Some(current)
    && seen <= Waiting(pairs, x)
    && Covers(pairs, x, seen, current)
  }

  lemma CoversOneMore(pairs: map<Spid, Spid>, x: Spid, seen: set<Spid>, current: Spid)
    requires Covers(pairs, x, seen, current) && Blocked(pairs, current)
    ensures Covers(pairs, x, seen + {current}, pairs[current])
  {
    var more := seen + {current};
    forall y | y in more ensures Blocked(pairs, y) && (pairs[y] in more || pairs[y] == pairs[current]) {
      assert y in seen ==> Blocked(pairs, y);
    }
  }

  lemma Advance(pairs: map<Spid, Spid>, x: Spid, seen: set<Spid>, current: Spid, depth: int)
    requires Underway(pairs, x, seen, current, depth)
    requires Blocked(pairs, current) && current !in seen
    ensures Underway(pairs, x, seen + {current}, pairs[current], depth + 1)
  {
    assert Walk(pairs, x, depth) == Some(pairs[current]);
    hide Walk;
    assert Reaches(pairs, x, current);
    CoversOneMore(pairs, x, seen, current);
    hide Covers;
    assert current in Waiting(pairs, x);
  }

  lemma Capped(pairs: map<Spid, Spid>, x: Spid, seen: set<Spid>, current: Spid)
    requires Underway(pairs, x, seen, current, MAX_CHAIN_WALK + 1)
    ensures Depth(pairs, x) == MAX_CHAIN_WALK + 1
  {
    SubsetSize(seen, Waiting(pairs, x));
  }

  lemma Finished(pairs: map<Spid, Spid>, x: Spid, seen: set<Spid>, current: Spid, depth: int)
    requires Underway(pairs, x, seen, current, depth) && depth <= MAX_CHAIN_WALK
    requires !Blocked(pairs, current) || current in seen
    ensures Depth(pairs, x) == depth
  {
    FinishedWalk(pairs, x, seen, current);
    assert Waiting(pairs, x) == seen;
  }

  /**
   Terminates for every finite map, cycles included, with one more than the number of distinct blocked
   sessions on the walk, that number capped at 50.
   */
  method ComputeDepth(spid: Spid, pairs: map<Spid, Spid>) returns (depth: int)
    ensures depth == Depth(pairs, spid)
  {
    hide Depth;
    depth := 1;
    var seen: set<Spid> := {};
    var current := spid;
    while Blocked(pairs, current) && current !in seen
      invariant depth <= MAX_CHAIN_WALK
      invariant Underway(pairs, spid, seen, current, depth)
      decreases pairs.Keys - seen
    {
      hide Underway;
      Advance(pairs, spid, seen, current, depth);
      seen := seen + {current};
      current := pairs[current];
      depth := depth + 1;
      if depth > MAX_CHAIN_WALK {
        Capped(pairs, spid, seen, current);
        return;
      }
    }
    Finished(pairs, spid, seen, current, depth);
  }

  // ---------------------------------------------------------------- what the depth means

  lemma {:induction false} WalkFromBlocker(pairs: map<Spid, Spid>, x: Spid, k: nat)
    requires Blocked(pairs, x)
    ensures Walk(pairs, x, k + 1) == Walk(pairs, pairs[x], k)
  {
    if k > 0 { WalkFromBlocker(pairs, x, k - 1); }
  }

  lemma WaitingStep(pairs: map<Spid, Spid>, x: Spid)
    requires Blocked(pairs, x)
    ensures Waiting(pairs, x) == {x} + Waiting(pairs, pairs[x])
  {
    var b := pairs[x];
    forall y ensures Reaches(pairs, x, y) <==> y == x || Reaches(pairs, b, y) {
      if Reaches(pairs, x, y) {
        var k: nat :| Walk(pairs, x, k) == Some(y);
        if k > 0 { WalkFromBlocker(pairs, x, k - 1); }
      }
      if Reaches(pairs, b, y) {
        var k: nat :| Walk(pairs, b, k) == Some(y);
        WalkFromBlocker(pairs, x, k);
      }
      assert Walk(pairs, x, 0) == Some(x);
    }
  }

  lemma {:induction false} StuckAtHead(pairs: map<Spid, Spid>, x: Spid, k: nat)
    requires !Blocked(pairs, x)
    ensures Walk(pairs, x, k) == if k == 0 then Some(x) else None
  {
    if k > 0 { StuckAtHead(pairs, x, k - 1); }
  }

  /** Depth one exactly for a session that waits for nobody: no entry, or one that is None or 0. */
  lemma HeadIsOne(pairs: map<Spid, Spid>, x: Spid)
    ensures Depth(pairs, x) == 1 <==> x !in pairs || pairs[x].None? || pairs[x] == Some(0)
  {
    if Blocked(pairs, x) {
      WaitingStep(pairs, x);
      assert x in Waiting(pairs, x);
    } else {
      forall y | y in Waiting(pairs, x) ensures false {
        var k: nat :| Walk(pairs, x, k) == Some(y);
        StuckAtHead(pairs, x, k);
      }
      assert Waiting(pairs, x) == {};
    }
  }

  /**
   Below the cap a session is one deeper than its blocker exactly when it is not part of a cycle;
   on a cycle the two depths are equal. At the cap both stay at 51 or one above the blocker's.
   */
  lemma OneDeeperThanBlocker(pairs: map<Spid, Spid>, x: Spid)
    requires Blocked(pairs, x) && |Waiting(pairs, x)| <= 50
    ensures Depth(pairs, x) == Depth(pairs, pairs[x]) + 1 <==> !Reaches(pairs, pairs[x], x)
    ensures Depth(pairs, x) == Depth(pairs, pairs[x]) <==> Reaches(pairs, pairs[x], x)
  {
    WaitingStep(pairs, x);
    var rest := Waiting(pairs, pairs[x]);
    assert x in rest <==> Reaches(pairs, pairs[x], x);
    if x in rest {
      assert {x} + rest == rest;
    } else {
      assert |{x} + rest| == 1 + |rest|;
    }
  }

  /** The next position around a ring of n. */
  function After(i: nat, n: nat): (j: nat)
    requires i < n
    ensures j < n
  {
    if i + 1 == n then 0 else i + 1
  }

  /** The position k places further around. */
  function Turn(i: nat, k: nat, n: nat): (j: nat)
    requires i < n
    ensures j < n
    ensures k < n ==> j == if i + k < n then i + k else i + k - n
  {
    if k == 0 then i else After(Turn(i, k - 1, n), n)
  }

  /** Sessions blocking each other in a ring, in order. */
  ghost predicate Ring(pairs: map<Spid, Spid>, ring: seq<Spid>) {
    && ring != []
    && (forall i, j :: 0 <= i < j < |ring| ==> ring[i] != ring[j])
    && (forall i {:trigger Blocked(pairs, ring[i])} :: 0 <= i < |ring| ==>
          Blocked(pairs, ring[i]) && pairs[ring[i]] == ring[After(i, |ring|)])
  }

  function Members(ring: seq<Spid>): (s: set<Spid>)
    ensures forall x :: x in s <==> x in ring
  {
    if ring == [] then {} else {ring[0]} + Members(ring[1..])
  }

  lemma {:induction false} MembersCount(ring: seq<Spid>)
    requires forall i, j :: 0 <= i < j < |ring| ==> ring[i] != ring[j]
    ensures |Members(ring)| == |ring|
  {
    if ring != [] {
      MembersCount(ring[1..]);
      assert ring[0] !in ring[1..];
    }
  }

  lemma {:induction false} WalkRing(pairs: map<Spid, Spid>, ring: seq<Spid>, i: nat, k: nat)
    requires Ring(pairs, ring) && i < |ring|
    ensures Walk(pairs, ring[i], k) == Some(ring[Turn(i, k, |ring|)])
  {
    if k > 0 {
      WalkRing(pairs, ring, i, k - 1);
      var z := Turn(i, k - 1, |ring|);
      assert Blocked(pairs, ring[z]) && pairs[ring[z]] == ring[After(z, |ring|)];
    }
  }

  lemma WaitingIsMember(pairs: map<Spid, Spid>, ring: seq<Spid>, i: nat, y: Spid)
    requires Ring(pairs, ring) && i < |ring| && y in Waiting(pairs, ring[i])
    ensures y in ring
  {
    hide Walk, Ring;
    var k: nat :| Walk(pairs, ring[i], k) == Some(y);
    WalkRing(pairs, ring, i, k);
  }

  lemma MemberIsWaiting(pairs: map<Spid, Spid>, ring: seq<Spid>, i: nat, y: Spid)
    requires Ring(pairs, ring) && i < |ring| && y in ring
    ensures y in Waiting(pairs, ring[i])
  {
    hide Walk;
    var j :| 0 <= j < |ring| && ring[j] == y;
    var k: nat := if i <= j then j - i else j + |ring| - i;
    WalkRing(pairs, ring, i, k);
    assert Reaches(pairs, ring[i], y);
    assert Blocked(pairs, ring[j]);
  }

  /** Every member of a ring of n gets depth n + 1, up to the cap. */
  lemma RingDepth(pairs: map<Spid, Spid>, ring: seq<Spid>, i: nat)
    requires Ring(pairs, ring) && i < |ring|
    ensures Depth(pairs, ring[i]) == if |ring| <= 50 then |ring| + 1 else 51
  {
    hide Waiting;
    forall y ensures y in Waiting(pairs, ring[i]) <==> y in Members(ring) {
      if y in Waiting(pairs, ring[i]) { WaitingIsMember(pairs, ring, i, y); }
      if y in ring { MemberIsWaiting(pairs, ring, i, y); }
    }
    assert Waiting(pairs, ring[i]) == Members(ring);
    MembersCount(ring);
  }

  // ---------------------------------------------------------------- the pair map

  /** A cell of a result row: NULL, something `int()` accepts, or something it does not. */
  datatype Cell = Null | Number(n: int) | Unreadable

  datatype Row = Row(blocked: Cell, blocking: Cell)

  function AsInt(c: Cell): Spid {
    if c.Number? then Some(c.n) else None
  }

  /** Rows with a NULL blocked session are skipped; of several rows for one session the last counts. */
  function PairMap(rows: seq<Row>): map<Spid, Spid> {
    if rows == [] then map[]
    else
      var last := rows[|rows| - 1];
      var before := PairMap(rows[..|rows| - 1]);
      if last.blocked.Null? then before else before[AsInt(last.blocked) := AsInt(last.blocking)]
  }

  /** The cell gives this session: its number, or None for something that is no number. */
  predicate Gives(c: Cell, x: Spid) {
    match x
    case Some(n) => c == Number(n)
    case None => c == Unreadable
  }

  /** The last of the rows for this session. */
  ghost predicate LastFor(rows: seq<Row>, x: Spid, i: nat) {
    i < |rows| && Gives(rows[i].blocked, x) && forall j :: i < j < |rows| ==> !Gives(rows[j].blocked, x)
  }

  /** A session has an entry exactly when a row is for it, and the last such row says who blocks it. */
  lemma {:induction false} LastRowWins(rows: seq<Row>, x: Spid)
    ensures x in PairMap(rows) <==> exists i: nat :: LastFor(rows, x, i)
    ensures forall i: nat | LastFor(rows, x, i) ::
              x in PairMap(rows) && match rows[i].blocking {
                                    case Number(n) => PairMap(rows)[x] == Some(n)
                                    case _ => PairMap(rows)[x] == None
                                    }
  {
    if rows != [] {
      var n := |rows| - 1;
      LastRowWins(rows[..n], x);
      if Gives(rows[n].blocked, x) {
        assert LastFor(rows, x, n);
      } else {
        forall i: nat ensures LastFor(rows, x, i) <==> LastFor(rows[..n], x, i) {
          assert forall j :: 0 <= j < n ==> rows[..n][j] == rows[j];
        }
      }
    }
  }

  /** One depth per reported row, in row order, all over the same pair map. */
  method ChainDepths(rows: seq<Row>) returns (depths: seq<int>)
    ensures |depths| == |rows|
    ensures forall i :: 0 <= i < |rows| ==> depths[i] == Depth(PairMap(rows), AsInt(rows[i].blocked))
  {
    var pairs := PairMap(rows);
    depths := [];
    for n := 0 to |rows|
      invariant |depths| == n
      invariant forall i :: 0 <= i < n ==> depths[i] == Depth(pairs, AsInt(rows[i].blocked))
    {
      var depth := ComputeDepth(AsInt(rows[n].blocked), pairs);
      depths := depths + [depth];
    }
  }
}
