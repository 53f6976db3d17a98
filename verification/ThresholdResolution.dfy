/**
 Threshold resolution (config.py, `Thresholds.effective`) on values: what one call yields and what it leaves
 in the override blocks. ThresholdHeap proves the calls on the heap against these functions.
 */
module ThresholdResolution {
  import opened Options
  import opened Positions

  datatype Scalar = Number(value: real) | Text(text: string) | Null

  /** Where an override comes from: a tag or the server's own name. */
  datatype Source = Tag(name: string) | Server(name: string)

  type Entries = map<string, Scalar>

  /** The entries of `base` after those of `overlay` are assigned over them. */
  function Overlaid(base: Entries, overlay: Entries): Entries { base + overlay }

  /** The configuration's values: defaults by category, and each override source by category. */
  datatype Config = Config(defaults: map<string, Entries>, layers: map<Source, map<string, Entries>>)

  function LayerOf(cfg: Config, src: Source): map<string, Entries> {
    if src in cfg.layers then cfg.layers[src] else map[]
  }

  /** One category of the result: its entries so far, and the override whose own block it is, if any. */
  datatype Cell = Cell(entries: Option<Entries>, owner: Option<Source>)

  function CellStep(before: Cell, layer: map<string, Entries>, src: Source, c: string): Cell {
    if c !in layer then before
    else if before.entries.None? then Cell(Some(layer[c]), Some(src))
    else if before.owner == Some(src) then before
    else Cell(Some(Overlaid(before.entries.value, layer[c])), before.owner)
  }

  function CellAfter(cfg: Config, order: seq<Source>, c: string): Cell {
    if order == [] then
      if c in cfg.defaults then Cell(Some(cfg.defaults[c]), None) else Cell(None, None)
    else
      CellStep(CellAfter(cfg, order[..|order| - 1], c), LayerOf(cfg, order[|order| - 1]), order[|order| - 1], c)
  }

  function BlockAfter(cfg: Config, order: seq<Source>, s: Source, c: string): Entries
    requires s in cfg.layers && c in cfg.layers[s]
  {
    var cell := CellAfter(cfg, order, c);
    if cell.owner == Some(s) && cell.entries.Some? then cell.entries.value else cfg.layers[s][c]
  }

  /** The override blocks once the call is over: an adopted block has taken in what was merged later. */
  function LayersAfter(cfg: Config, order: seq<Source>): (layers: map<Source, map<string, Entries>>)
    ensures layers.Keys == cfg.layers.Keys
    ensures forall s :: s in layers ==> layers[s].Keys == cfg.layers[s].Keys
    ensures forall s, c :: s in layers && c in layers[s] ==> layers[s][c] == BlockAfter(cfg, order, s, c)
  {
    map s | s in cfg.layers :: map c | c in cfg.layers[s] :: BlockAfter(cfg, order, s, c)
  }

  /** Tags in order, then the server's own name. */
  function Order(tags: seq<string>, server: string): seq<Source> {
    seq(|tags|, i requires 0 <= i < |tags| => Tag(tags[i])) + [Server(server)]
  }

  lemma StepAt(cfg: Config, done: seq<Source>, src: Source, c: string)
    ensures CellAfter(cfg, done + [src], c) == CellStep(CellAfter(cfg, done, c), LayerOf(cfg, src), src, c)
  {
    assert (done + [src])[..|done|] == done;
  }

  lemma MergedWithItself(entries: Entries)
    ensures Overlaid(entries, entries) == entries
  {
  }

  // ---------------------------------------------------------------- what a caller is promised

  predicate Sets(cfg: Config, src: Source, c: string, k: string) {
    c in LayerOf(cfg, src) && k in LayerOf(cfg, src)[c]
  }

  /** The value of the last override in `order`, other than `skip`, that sets key k of category c. */
  function LastSet(cfg: Config, order: seq<Source>, skip: Option<Source>, c: string, k: string): Option<Scalar> {
    if order == [] then None
    else
      var src := order[|order| - 1];
      if Some(src) != skip && Sets(cfg, src, c, k) then Some(LayerOf(cfg, src)[c][k])
      else LastSet(cfg, order[..|order| - 1], skip, c, k)
  }

  /** The last override in `order` that sets key k of category c. */
  function LastSetter(cfg: Config, order: seq<Source>, c: string, k: string): Option<Source> {
    if order == [] then None
    else if Sets(cfg, order[|order| - 1], c, k) then Some(order[|order| - 1])
    else LastSetter(cfg, order[..|order| - 1], c, k)
  }

  function Lookup(entries: Entries, k: string): Option<Scalar> {
    if k in entries then Some(entries[k]) else None
  }

  /** Fleet defaults -> tag -> server: the last override that sets the key, else the default. */
  function Resolve(cfg: Config, order: seq<Source>, c: string, k: string): Option<Scalar> {
    match LastSet(cfg, order, None, c, k)
    case Some(value) => Some(value)
    case None => if c in cfg.defaults then Lookup(cfg.defaults[c], k) else None
  }

  /** The first override in `order` that has the category at all. */
  function FirstWith(cfg: Config, order: seq<Source>, c: string): Option<Source> {
    if order == [] then None
    else if c in LayerOf(cfg, order[0]) then Some(order[0])
    else FirstWith(cfg, order[1..], c)
  }

  /** The override whose own block becomes the category, when the defaults do not have it. */
  function Owner(cfg: Config, order: seq<Source>, c: string): Option<Source> {
    if c in cfg.defaults then None else FirstWith(cfg, order, c)
  }

  predicate NoRepeats(order: seq<Source>) {
    forall i, j :: 0 <= i < j < |order| ==> order[i] != order[j]
  }

  /** What `effective` hands back for category c, key k. */
  function Given(cfg: Config, order: seq<Source>, c: string, k: string): Option<Scalar> {
    match CellAfter(cfg, order, c).entries
    case Some(entries) => Lookup(entries, k)
    case None => None
  }

  lemma {:induction false} FirstWithGrows(cfg: Config, done: seq<Source>, src: Source, c: string)
    ensures FirstWith(cfg, done + [src], c) ==
              match FirstWith(cfg, done, c)
              case Some(s) => Some(s)
              case None => if c in LayerOf(cfg, src) then Some(src) else None
    ensures FirstWith(cfg, done, c).Some? ==>
              FirstWith(cfg, done, c).value in done && c in LayerOf(cfg, FirstWith(cfg, done, c).value)
  {
    if done != [] {
      assert (done + [src])[1..] == done[1..] + [src];
      FirstWithGrows(cfg, done[1..], src, c);
    }
  }

  lemma {:induction false} KeyUnset(cfg: Config, order: seq<Source>, c: string, k: string)
    requires forall j :: 0 <= j < |order| ==> !Sets(cfg, order[j], c, k)
    ensures LastSet(cfg, order, None, c, k) == None
  {
    if order != [] { KeyUnset(cfg, order[..|order| - 1], c, k); }
  }

  lemma {:induction false} NothingSet(cfg: Config, order: seq<Source>, skip: Option<Source>, c: string, k: string)
    requires FirstWith(cfg, order, c).None?
    ensures LastSet(cfg, order, skip, c, k).None?
  {
    if order != [] {
      var n := |order| - 1;
      assert order == order[..n] + [order[n]];
      FirstWithGrows(cfg, order[..n], order[n], c);
      NothingSet(cfg, order[..n], skip, c, k);
    }
  }

  function FirstTaken(cfg: Config, order: seq<Source>, c: string, k: string): Option<Scalar> {
    var owner := Owner(cfg, order, c);
    match LastSet(cfg, order, owner, c, k)
    case Some(value) => Some(value)
    case None =>
      if owner.Some? && c in LayerOf(cfg, owner.value) then Lookup(LayerOf(cfg, owner.value)[c], k)
      else if c in cfg.defaults then Lookup(cfg.defaults[c], k)
      else None
  }

  /** The owner, and the value: that of the last override other than the owner, else the block first taken. */
  lemma {:induction false} CellMeaning(cfg: Config, order: seq<Source>, c: string, k: string)
    ensures CellAfter(cfg, order, c).owner == Owner(cfg, order, c)
    ensures CellAfter(cfg, order, c).entries.Some? <==> c in cfg.defaults || FirstWith(cfg, order, c).Some?
    ensures Owner(cfg, order, c).Some? ==> c in LayerOf(cfg, Owner(cfg, order, c).value)
    ensures Given(cfg, order, c, k) == FirstTaken(cfg, order, c, k)
  {
    if order != [] {
      var n := |order| - 1;
      assert order == order[..n] + [order[n]];
      FirstWithGrows(cfg, order[..n], order[n], c);
      CellMeaning(cfg, order[..n], c, k);
      if FirstWith(cfg, order[..n], c).None? { NothingSet(cfg, order[..n], Owner(cfg, order, c), c, k); }
    }
  }

  lemma {:induction false} SkippingOne(cfg: Config, order: seq<Source>, o: Source, c: string, k: string)
    ensures LastSetter(cfg, order, c, k) == Some(o) ==>
              Sets(cfg, o, c, k) && LastSet(cfg, order, None, c, k) == Some(LayerOf(cfg, o)[c][k])
    ensures LastSetter(cfg, order, c, k) != Some(o) ==>
              LastSet(cfg, order, None, c, k) == LastSet(cfg, order, Some(o), c, k)
    ensures LastSetter(cfg, order, c, k).None? <==> LastSet(cfg, order, None, c, k).None?
  {
    if order != [] { SkippingOne(cfg, order[..|order| - 1], o, c, k); }
  }

  /** An override repeated after another one has set the key: what the loader's tag list never has. */
  predicate RepeatSetsAgain(cfg: Config, order: seq<Source>, c: string, k: string) {
    match Owner(cfg, order, c)
    case None => false
    case Some(o) =>
      && LastSetter(cfg, order, c, k) == Some(o)
      && Sets(cfg, o, c, k)
      && LastSet(cfg, order, Some(o), c, k) !in {None, Some(LayerOf(cfg, o)[c][k])}
  }

  /** An owner that sets the key is itself among its setters. */
  lemma {:induction false} OwnerCountsToo(cfg: Config, order: seq<Source>, o: Source, c: string, k: string)
    requires FirstWith(cfg, order, c) == Some(o) && Sets(cfg, o, c, k)
    ensures LastSetter(cfg, order, c, k).Some?
  {
    var n := |order| - 1;
    assert order == order[..n] + [order[n]];
    FirstWithGrows(cfg, order[..n], order[n], c);
    if !Sets(cfg, order[n], c, k) { OwnerCountsToo(cfg, order[..n], o, c, k); }
  }

  /** Precedence holds exactly where the owner of a category is not repeated to set a key again. */
  lemma PrecedenceExactly(cfg: Config, order: seq<Source>, c: string, k: string)
    ensures Given(cfg, order, c, k) == Resolve(cfg, order, c, k) <==> !RepeatSetsAgain(cfg, order, c, k)
  {
    CellMeaning(cfg, order, c, k);
    var owner := Owner(cfg, order, c);
    if owner.Some? {
      SkippingOne(cfg, order, owner.value, c, k);
      if Sets(cfg, owner.value, c, k) { OwnerCountsToo(cfg, order, owner.value, c, k); }
    }
  }

  lemma {:induction false} NoOtherBefore(cfg: Config, order: seq<Source>, o: Source, c: string, k: string)
    requires NoRepeats(order) && FirstWith(cfg, order, c) == Some(o) && LastSetter(cfg, order, c, k) == Some(o)
    ensures LastSet(cfg, order, Some(o), c, k).None?
  {
    var n := |order| - 1;
    assert order == order[..n] + [order[n]];
    FirstWithGrows(cfg, order[..n], order[n], c);
    if order[n] == o {
      assert o !in order[..n];
      NothingSet(cfg, order[..n], Some(o), c, k);
    } else {
      NoOtherBefore(cfg, order[..n], o, c, k);
    }
  }

  lemma OwnerComesFirst(cfg: Config, order: seq<Source>, c: string, k: string)
    requires NoRepeats(order)
    ensures !RepeatSetsAgain(cfg, order, c, k)
  {
    var owner := Owner(cfg, order, c);
    if owner.Some? && LastSetter(cfg, order, c, k) == owner {
      NoOtherBefore(cfg, order, owner.value, c, k);
    }
  }

  /** For an override list without repeats, the last override that sets a key wins, else the default. */
  lemma Precedence(cfg: Config, order: seq<Source>, c: string, k: string)
    requires NoRepeats(order)
    ensures Given(cfg, order, c, k) == Resolve(cfg, order, c, k)
  {
    OwnerComesFirst(cfg, order, c, k);
    PrecedenceExactly(cfg, order, c, k);
  }

  /** list(dict.fromkeys(tags)): the first of each tag, in order. */
  function WithoutRepeats(tags: seq<string>): seq<string> {
    if tags == [] then []
    else
      var rest, last := WithoutRepeats(tags[..|tags| - 1]), tags[|tags| - 1];
      if last in rest then rest else rest + [last]
  }

  /** The fleet-wide tags and the server's own, as the loader folds them. */
  function LoadedTags(fleet: seq<string>, own: seq<string>): seq<string> { WithoutRepeats(fleet + own) }

  lemma {:induction false} KeptOnce(tags: seq<string>)
    ensures forall i, j :: 0 <= i < j < |WithoutRepeats(tags)| ==> WithoutRepeats(tags)[i] != WithoutRepeats(tags)[j]
    ensures forall t :: t in WithoutRepeats(tags) <==> t in tags
  {
    if tags != [] {
      var n := |tags| - 1;
      KeptOnce(tags[..n]);
      assert tags == tags[..n] + [tags[n]];
    }
  }

  /** So a loaded server's overrides obey precedence, whatever its tags say. */
  lemma LoadedServerPrecedence(cfg: Config, fleet: seq<string>, own: seq<string>, server: string,
                               c: string, k: string)
    ensures var order := Order(LoadedTags(fleet, own), server);
            NoRepeats(order) && Given(cfg, order, c, k) == Resolve(cfg, order, c, k)
  {
    hide Given, Resolve, WithoutRepeats;
    KeptOnce(fleet + own);
    Precedence(cfg, Order(LoadedTags(fleet, own), server), c, k);
  }

  /** The places below n of tags that have not come before. */
  ghost predicate FirstPlaces(tags: seq<string>, n: nat, at: seq<nat>)
    requires n <= |tags|
  {
    Rising(at, n) && forall k :: 0 <= k < n ==> (k in at <==> tags[k] !in tags[..k])
  }

  lemma NoTagPlaces(tags: seq<string>)
    ensures FirstPlaces(tags, 0, []) && Taken(WithoutRepeats(tags[..0]), tags, [])
  {
  }

  lemma FirstPlacesStep(tags: seq<string>, n: nat, at: seq<nat>)
    requires n < |tags| && FirstPlaces(tags, n, at)
    ensures FirstPlaces(tags, n + 1, if tags[n] in tags[..n] then at else at + [n])
  {
    RisingOneMore(at, n);
  }

  lemma WithoutRepeatsStep(tags: seq<string>, n: nat)
    requires n < |tags|
    ensures WithoutRepeats(tags[..n + 1]) ==
              WithoutRepeats(tags[..n]) + if tags[n] in tags[..n] then [] else [tags[n]]
  {
    assert tags[..n + 1][..n] == tags[..n];
    KeptOnce(tags[..n]);
  }

  lemma {:induction false} FirstOfEachTag(tags: seq<string>, n: nat) returns (at: seq<nat>)
    requires n <= |tags|
    ensures FirstPlaces(tags, n, at) && Taken(WithoutRepeats(tags[..n]), tags, at)
  {
    hide FirstPlaces, Taken, WithoutRepeats;
    if n == 0 {
      at := [];
      NoTagPlaces(tags);
    } else {
      at := FirstOfEachTag(tags, n - 1);
      FirstPlacesStep(tags, n - 1, at);
      WithoutRepeatsStep(tags, n - 1);
      TakenOneMoreOf(WithoutRepeats(tags[..n - 1]), tags, at, n - 1);
      var kept := WithoutRepeats(tags[..n - 1]);
      assert kept + [] == kept;
      at := if tags[n - 1] in tags[..n - 1] then at else at + [n - 1];
    }
  }

  /** A loaded server's tags: the fleet-wide ones and then its own, each where it first comes, in that order. */
  lemma LoadedTagsAre(fleet: seq<string>, own: seq<string>) returns (at: seq<nat>)
    ensures FirstPlaces(fleet + own, |fleet + own|, at) && Taken(LoadedTags(fleet, own), fleet + own, at)
  {
    at := FirstOfEachTag(fleet + own, |fleet + own|);
    assert (fleet + own)[..|fleet + own|] == fleet + own;
  }

  /** The setter that decides a key stands no earlier in the list than any that sets it. */
  lemma {:induction false} DecidedLate(cfg: Config, order: seq<Source>, c: string, k: string, i: nat) returns (j: nat)
    requires i < |order| && Sets(cfg, order[i], c, k)
    ensures i <= j < |order| && Sets(cfg, order[j], c, k)
    ensures LastSet(cfg, order, None, c, k) == Some(LayerOf(cfg, order[j])[c][k])
  {
    var n := |order| - 1;
    if Sets(cfg, order[n], c, k) { j := n; } else { j := DecidedLate(cfg, order[..n], c, k, i); }
  }

  lemma LoadedHas(fleet: seq<string>, own: seq<string>, tag: string)
    ensures tag in LoadedTags(fleet, own) <==> tag in fleet || tag in own
  {
    KeptOnce(fleet + own);
  }

  lemma PlaceBelow(fleet: seq<string>, own: seq<string>, place: nat)
    requires place < |fleet + own|
    ensures place < |fleet| ==> (fleet + own)[place] in fleet
    ensures place >= |fleet| ==> (fleet + own)[place] in own && forall f :: f in fleet ==> f in (fleet + own)[..place]
  {
    if place >= |fleet| { assert (fleet + own)[..place] == fleet + own[..place - |fleet|]; }
  }

  /** After a folded tag that is no fleet tag come only such tags. */
  lemma OwnAfterFleet(fleet: seq<string>, own: seq<string>, tags: seq<string>, at: seq<nat>, i: nat, j: nat)
    requires FirstPlaces(fleet + own, |fleet + own|, at) && Taken(tags, fleet + own, at)
    requires i <= j < |tags| && tags[i] !in fleet
    ensures tags[j] in own && tags[j] !in fleet
  {
    PlaceBelow(fleet, own, at[i]);
    PlaceBelow(fleet, own, at[j]);
    assert at[j] in at;
  }

  /** A key set by a tag of the server's own, which is no fleet tag, is never decided by a fleet tag. */
  lemma OwnTagOverFleet(cfg: Config, fleet: seq<string>, own: seq<string>, server: string, tag: string,
                        c: string, k: string) returns (src: Source)
    requires tag in own && tag !in fleet && Sets(cfg, Tag(tag), c, k)
    ensures src == Server(server) || (src.Tag? && src.name in own && src.name !in fleet)
    ensures Sets(cfg, src, c, k)
    ensures Given(cfg, Order(LoadedTags(fleet, own), server), c, k) == Some(LayerOf(cfg, src)[c][k])
  {
    hide Given, Sets, LastSet, LoadedTags, FirstPlaces, Taken;
    var tags := LoadedTags(fleet, own);
    var at := LoadedTagsAre(fleet, own);
    LoadedHas(fleet, own, tag);
    var i :| 0 <= i < |tags| && tags[i] == tag;
    var order := Order(tags, server);
    assert order[i] == Tag(tag);
    var j := DecidedLate(cfg, order, c, k, i);
    src := order[j];
    LoadedServerPrecedence(cfg, fleet, own, server, c, k);
    if j < |tags| { OwnAfterFleet(fleet, own, tags, at, i, j); }
  }

  lemma {:induction false} LastSetIs(cfg: Config, order: seq<Source>, c: string, k: string, i: nat)
    requires i < |order| && Sets(cfg, order[i], c, k)
    requires forall j :: i < j < |order| ==> !Sets(cfg, order[j], c, k)
    ensures LastSet(cfg, order, None, c, k) == Some(LayerOf(cfg, order[i])[c][k])
  {
    var n := |order| - 1;
    if i < n { LastSetIs(cfg, order[..n], c, k, i); }
  }

  /**
   Which value a loaded server gets: its own override's if that sets the key; else that of the last of its tags,
   in loaded order, whose override does; else the default, if there is one.
   */
  lemma WhoDecides(cfg: Config, fleet: seq<string>, own: seq<string>, server: string, c: string, k: string)
    ensures var tags := LoadedTags(fleet, own);
            var given := Given(cfg, Order(tags, server), c, k);
            && (Sets(cfg, Server(server), c, k) ==> given == Some(cfg.layers[Server(server)][c][k]))
            && (forall i | 0 <= i < |tags| && !Sets(cfg, Server(server), c, k) && Sets(cfg, Tag(tags[i]), c, k)
                           && (forall j | i < j < |tags| :: !Sets(cfg, Tag(tags[j]), c, k)) ::
                  given == Some(cfg.layers[Tag(tags[i])][c][k]))
            && (!Sets(cfg, Server(server), c, k) && (forall t | t in tags :: !Sets(cfg, Tag(t), c, k)) ==>
                  given == if c in cfg.defaults && k in cfg.defaults[c] then Some(cfg.defaults[c][k]) else None)
  {
    hide Given, LoadedTags, LastSet;
    var tags := LoadedTags(fleet, own);
    var order := Order(tags, server);
    assert order[|tags|] == Server(server) && forall i :: 0 <= i < |tags| ==> order[i] == Tag(tags[i]);
    hide Order;
    LoadedServerPrecedence(cfg, fleet, own, server, c, k);
    if Sets(cfg, Server(server), c, k) {
      LastSetIs(cfg, order, c, k, |tags|);
    } else if forall t | t in tags :: !Sets(cfg, Tag(t), c, k) {
      KeyUnset(cfg, order, c, k);
    }
    forall i | 0 <= i < |tags| && !Sets(cfg, Server(server), c, k) && Sets(cfg, Tag(tags[i]), c, k)
               && (forall j | i < j < |tags| :: !Sets(cfg, Tag(tags[j]), c, k))
      ensures Given(cfg, order, c, k) == Some(cfg.layers[Tag(tags[i])][c][k])
    {
      LastSetIs(cfg, order, c, k, i);
    }
  }

  // ---------------------------------------------------------------- what a call does to the overrides

  function After(cfg: Config, order: seq<Source>): Config {
    cfg.(layers := LayersAfter(cfg, order))
  }

  predicate Agreeing(cfg: Config, order: seq<Source>, o: Source, c: string, k: string) {
    LastSet(cfg, order, Some(o), c, k).None?
    || (Sets(cfg, o, c, k) && LastSet(cfg, order, Some(o), c, k) == Some(LayerOf(cfg, o)[c][k]))
  }

  /** Every later override of a category the defaults lack agrees with the block the category took over. */
  ghost predicate LaterOnesAgree(cfg: Config, order: seq<Source>) {
    forall c, k :: c !in cfg.defaults && FirstWith(cfg, order, c).Some? ==>
      Agreeing(cfg, order, FirstWith(cfg, order, c).value, c, k)
  }

  lemma SameLookups(a: Entries, b: Entries)
    requires forall k :: Lookup(a, k) == Lookup(b, k)
    ensures a == b
  {
    forall k ensures k in a <==> k in b { assert Lookup(a, k) == Lookup(b, k); }
    forall k | k in a ensures a[k] == b[k] { assert Lookup(a, k) == Lookup(b, k); }
  }

  /** A call leaves the overrides as they were exactly when the later overrides of such categories agree. */
  lemma OverridesKeptExactly(cfg: Config, order: seq<Source>)
    ensures After(cfg, order) == cfg <==> LaterOnesAgree(cfg, order)
  {
    if LaterOnesAgree(cfg, order) {
      forall s, c | s in cfg.layers && c in cfg.layers[s] ensures BlockAfter(cfg, order, s, c) == cfg.layers[s][c] {
        CellMeaning(cfg, order, c, "");
        if Owner(cfg, order, c) == Some(s) {
          forall k ensures Lookup(BlockAfter(cfg, order, s, c), k) == Lookup(cfg.layers[s][c], k) {
            CellMeaning(cfg, order, c, k);
            assert Agreeing(cfg, order, s, c, k);
          }
          SameLookups(BlockAfter(cfg, order, s, c), cfg.layers[s][c]);
        }
      }
      forall s | s in cfg.layers ensures LayersAfter(cfg, order)[s] == cfg.layers[s] { }
    }
    if After(cfg, order) == cfg {
      forall c, k | c !in cfg.defaults && FirstWith(cfg, order, c).Some?
        ensures Agreeing(cfg, order, FirstWith(cfg, order, c).value, c, k)
      {
        CellMeaning(cfg, order, c, k);
        var o := FirstWith(cfg, order, c).value;
        assert BlockAfter(cfg, order, o, c) == After(cfg, order).layers[o][c] == cfg.layers[o][c];
      }
    }
  }

  ghost predicate Covered(cfg: Config) {
    forall s :: s in cfg.layers ==> cfg.layers[s].Keys <= cfg.defaults.Keys
  }

  /** The configuration after a whole sequence of calls. */
  function AfterAll(cfg: Config, calls: seq<seq<Source>>): Config {
    if calls == [] then cfg else After(AfterAll(cfg, calls[..|calls| - 1]), calls[|calls| - 1])
  }

  /** With every overridden category in the defaults, no sequence of calls changes any override. */
  lemma {:induction false} CoveredNeverChanges(cfg: Config, calls: seq<seq<Source>>)
    requires Covered(cfg)
    ensures AfterAll(cfg, calls) == cfg
  {
    if calls != [] {
      CoveredNeverChanges(cfg, calls[..|calls| - 1]);
      var order := calls[|calls| - 1];
      forall c | c !in cfg.defaults ensures FirstWith(cfg, order, c).None? {
        FirstWithGrows(cfg, order, Tag(""), c);
      }
      OverridesKeptExactly(cfg, order);
    }
  }

  lemma {:induction false} FirstWithAfter(cfg: Config, call: seq<Source>, order: seq<Source>, c: string)
    ensures FirstWith(After(cfg, call), order, c) == FirstWith(cfg, order, c)
  {
    if order != [] { FirstWithAfter(cfg, call, order[1..], c); }
  }

  lemma {:induction false} LastSetAfter(cfg: Config, call: seq<Source>, order: seq<Source>,
                                       owner: Option<Source>, c: string, k: string)
    requires owner == Owner(cfg, call, c)
    ensures LastSet(After(cfg, call), order, owner, c, k) == LastSet(cfg, order, owner, c, k)
  {
    if order != [] {
      CellMeaning(cfg, call, c, k);
      LastSetAfter(cfg, call, order[..|order| - 1], owner, c, k);
    }
  }

  /** Calling again for the same server gives the same thresholds, whatever the first call left behind. */
  lemma CallingAgainAgrees(cfg: Config, order: seq<Source>, c: string, k: string)
    ensures Given(After(cfg, order), order, c, k) == Given(cfg, order, c, k)
  {
    var next := After(cfg, order);
    CellMeaning(cfg, order, c, k);
    CellMeaning(next, order, c, k);
    FirstWithAfter(cfg, order, order, c);
    var owner := Owner(cfg, order, c);
    LastSetAfter(cfg, order, order, owner, c, k);
  }

  // ---------------------------------------------------------------- where the promises stop

  function Single(c: string, k: string, v: Scalar): map<string, Entries> { map[c := map[k := v]] }

  function TwoTags(a: Scalar, b: Scalar): Config {
    Config(map[], map[Tag("a") := Single("io", "warn", a), Tag("b") := Single("io", "warn", b)])
  }

  lemma NothingYet(cfg: Config)
    requires "io" !in cfg.defaults
    ensures CellAfter(cfg, [], "io") == Cell(None, None)
  {
  }

  lemma UnrollTwoTags(cfg: Config, server: string)
    requires Server(server) !in cfg.layers
    ensures var one := CellStep(CellAfter(cfg, [], "io"), LayerOf(cfg, Tag("a")), Tag("a"), "io");
            CellAfter(cfg, Order(["a", "b"], server), "io") == CellStep(one, LayerOf(cfg, Tag("b")), Tag("b"), "io")
  {
    assert Order(["a", "b"], server) == [Tag("a"), Tag("b")] + [Server(server)];
    assert [] + [Tag("a")] == [Tag("a")] && [Tag("a")] + [Tag("b")] == [Tag("a"), Tag("b")];
    StepAt(cfg, [Tag("a"), Tag("b")], Server(server), "io");
    StepAt(cfg, [Tag("a")], Tag("b"), "io");
    StepAt(cfg, [], Tag("a"), "io");
  }

  /** The first tag's own block has taken the second tag's value. */
  lemma FirstTagChanged()
    ensures After(TwoTags(Number(1.0), Number(2.0)), Order(["a", "b"], "s")) == TwoTags(Number(2.0), Number(2.0))
  {
    hide CellAfter;
    var cfg, order := TwoTags(Number(1.0), Number(2.0)), Order(["a", "b"], "s");
    NothingYet(cfg);
    UnrollTwoTags(cfg, "s");
    assert Overlaid(map["warn" := Number(1.0)], map["warn" := Number(2.0)]) == map["warn" := Number(2.0)];
    assert CellAfter(cfg, order, "io") == Cell(Some(map["warn" := Number(2.0)]), Some(Tag("a")));
    assert BlockAfter(cfg, order, Tag("a"), "io") == map["warn" := Number(2.0)];
    assert LayersAfter(cfg, order)[Tag("a")] == Single("io", "warn", Number(2.0));
    assert LayersAfter(cfg, order)[Tag("b")] == Single("io", "warn", Number(2.0));
  }

  lemma UnrollOneTag(cfg: Config, server: string)
    requires Server(server) !in cfg.layers
    ensures var cell := CellAfter(cfg, Order(["a"], server), "io");
            cell == CellStep(CellAfter(cfg, [], "io"), LayerOf(cfg, Tag("a")), Tag("a"), "io")
  {
    assert Order(["a"], server) == [Tag("a")] + [Server(server)];
    assert [] + [Tag("a")] == [Tag("a")];
    StepAt(cfg, [Tag("a")], Server(server), "io");
    StepAt(cfg, [], Tag("a"), "io");
  }

  lemma OneTagGiven(v: Scalar, w: Scalar)
    ensures Given(TwoTags(v, w), Order(["a"], "t"), "io", "warn") == Some(v)
  {
    UnrollOneTag(TwoTags(v, w), "t");
  }

  /** A category missing from the defaults: one server's call changes what another server is given. */
  lemma OneCallSpoilsAnother()
    ensures var cfg := TwoTags(Number(1.0), Number(2.0));
            var first, second := Order(["a", "b"], "s"), Order(["a"], "t");
            && NoRepeats(first) && NoRepeats(second)
            && Given(cfg, second, "io", "warn") == Some(Number(1.0))
            && Given(After(cfg, first), second, "io", "warn") == Some(Number(2.0))
  {
    hide Given, After, TwoTags;
    FirstTagChanged();
    OneTagGiven(Number(1.0), Number(2.0));
    OneTagGiven(Number(2.0), Number(2.0));
  }

  /** A tag list with a repeat, which the loader never makes: the repeated tag does not win again. */
  lemma RepeatedTagLoses()
    ensures var cfg, order := TwoTags(Number(1.0), Number(2.0)), [Tag("a"), Tag("b"), Tag("a")];
            && Resolve(cfg, order, "io", "warn") == Some(Number(1.0))
            && Given(cfg, order, "io", "warn") == Some(Number(2.0))
  {
    var cfg := TwoTags(Number(1.0), Number(2.0));
    assert [Tag("a"), Tag("b"), Tag("a")] == [Tag("a"), Tag("b")] + [Tag("a")];
    assert [] + [Tag("a")] == [Tag("a")] && [Tag("a")] + [Tag("b")] == [Tag("a"), Tag("b")];
    StepAt(cfg, [Tag("a"), Tag("b")], Tag("a"), "io");
    StepAt(cfg, [Tag("a")], Tag("b"), "io");
    StepAt(cfg, [], Tag("a"), "io");
  }
}
