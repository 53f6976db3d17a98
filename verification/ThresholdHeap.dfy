/**
 Threshold resolution (config.py, `Thresholds.effective` and `_deep_merge`) on a heap: category blocks
 are dictionaries with identity, and `base[key] = value` stores the override's own block.
 */
module ThresholdHeap {
  import opened Options
  import opened ThresholdResolution

  // ---------------------------------------------------------------- the heap

  /** One category's dictionary. */
  class Block {
    var entries: Entries

    constructor (entries: Entries)
      ensures this.entries == entries
    {
      this.entries := entries;
    }
  }

  /** The dictionary of categories that `effective` builds and returns. */
  class Merged {
    var blocks: map<string, Block>

    constructor ()
      ensures blocks == map[]
    {
      blocks := map[];
    }
  }

  /** What a dictionary of blocks holds right now. */
  ghost function Contents(blocks: map<string, Block>): (contents: map<string, Entries>)
    reads blocks.Values
    ensures contents.Keys == blocks.Keys
    ensures forall c :: c in blocks ==> contents[c] == blocks[c].entries
  {
    map c | c in blocks :: blocks[c].entries
  }

  ghost predicate NoSharing(blocks: map<string, Block>) {
    forall c, e :: c in blocks && e in blocks && c != e ==> blocks[c] != blocks[e]
  }

  lemma AssignOne(base: Entries, todo: Entries, key: string)
    requires key in todo
    ensures Overlaid(base[key := todo[key]], todo - {key}) == Overlaid(base, todo)
  {
  }

  lemma NothingLeft(base: Entries)
    ensures Overlaid(base, map[]) == base
  {
  }

  /** `base[key] = value` for every entry of the overlay; the two may be the same block. */
  method MergeBlock(base: Block, overlay: Block)
    modifies base
    ensures base.entries == Overlaid(old(base.entries), old(overlay.entries))
  {
    hide Overlaid;
    var todo := overlay.entries;
    while todo != map[]
      invariant Overlaid(base.entries, todo) == Overlaid(old(base.entries), old(overlay.entries))
      decreases |todo|
    {
      var key :| key in todo;
      AssignOne(base.entries, todo, key);
      base.entries := base.entries[key := todo[key]];
      todo := todo - {key};
    }
    assert Overlaid(base.entries, map[]) == base.entries by { NothingLeft(base.entries); }
  }

  /** How the growing dictionary relates to where it started and to what is still to be merged. */
  ghost predicate Tracking(now: map<string, Block>, start: map<string, Block>,
                           overlay: map<string, Block>, todo: map<string, Block>)
  {
    && todo.Keys <= overlay.Keys && (forall e :: e in todo ==> todo[e] == overlay[e])
    && now.Keys == start.Keys + (overlay.Keys - todo.Keys)
    && (forall c :: c in now ==> now[c] == if c in start then start[c] else overlay[c])
  }

  lemma TrackStart(start: map<string, Block>, overlay: map<string, Block>)
    ensures Tracking(start, start, overlay, overlay)
  {
  }

  lemma TrackOne(now: map<string, Block>, start: map<string, Block>,
                 overlay: map<string, Block>, todo: map<string, Block>, key: string)
    requires Tracking(now, start, overlay, todo) && key in todo
    ensures todo.Keys <= overlay.Keys && todo[key] == overlay[key]
    ensures key in now <==> key in start
    ensures key in now ==> now[key] == start[key] && Tracking(now, start, overlay, todo - {key})
    ensures key !in now ==> Tracking(now[key := todo[key]], start, overlay, todo - {key})
  {
    assert (todo - {key}).Keys == todo.Keys - {key};
    if key in now {
      assert now.Keys == start.Keys + (overlay.Keys - (todo - {key}).Keys);
    } else {
      assert now[key := todo[key]].Keys == start.Keys + (overlay.Keys - (todo - {key}).Keys);
    }
  }

  lemma OneFewer<K, V>(todo: map<K, V>, key: K)
    requires key in todo
    ensures |todo - {key}| < |todo|
  {
    assert todo.Keys == (todo - {key}).Keys + {key};
  }

  /** The base's own block where it has one, else the overlay's. */
  function Adopted(base: map<string, Block>, overlay: map<string, Block>): (r: map<string, Block>)
    ensures r.Keys == base.Keys + overlay.Keys
    ensures forall c :: c in r ==> r[c] == if c in base then base[c] else overlay[c]
  {
    overlay + base
  }

  lemma TrackEnd(now: map<string, Block>, start: map<string, Block>, overlay: map<string, Block>)
    requires Tracking(now, start, overlay, map[])
    ensures now == Adopted(start, overlay)
  {
  }

  /** The categories of the layer not in `todo` are merged, all other blocks are as they were. */
  ghost predicate Halfway(start: map<string, Block>, was: map<string, Entries>,
                          overlay: map<string, Block>, layer: map<string, Entries>, todo: map<string, Block>)
    reads start.Values, overlay.Values
  {
    && was.Keys == start.Keys && layer.Keys == overlay.Keys
    && (forall c :: c in start ==>
          start[c].entries == if c in overlay && c !in todo then Overlaid(was[c], layer[c]) else was[c])
    && (forall e :: e in overlay && (e in todo || e !in start) ==> overlay[e].entries == layer[e])
  }

  ghost predicate Apart(start: map<string, Block>, overlay: map<string, Block>) {
    && NoSharing(start) && NoSharing(overlay)
    && (forall c, e :: c in start && e in overlay && start[c] == overlay[e] ==> c == e)
  }

  method MergeCategory(ghost start: map<string, Block>, ghost was: map<string, Entries>,
                       ghost overlay: map<string, Block>, ghost layer: map<string, Entries>,
                       todo: map<string, Block>, key: string, block: Block)
    requires Apart(start, overlay) && Halfway(start, was, overlay, layer, todo)
    requires todo.Keys <= overlay.Keys && key in todo && todo[key] == overlay[key]
    requires key in start && start[key] == block
    modifies block
    ensures Halfway(start, was, overlay, layer, todo - {key})
  {
    hide Overlaid;
    MergeBlock(block, todo[key]);
    forall c | c in start
      ensures start[c].entries == if c in overlay && c !in todo - {key} then Overlaid(was[c], layer[c]) else was[c]
    {
      if c != key { assert start[c] != block; }
    }
    forall e | e in overlay && (e in todo - {key} || e !in start) ensures overlay[e].entries == layer[e] {
      assert overlay[e] != block;
    }
  }

  lemma NotBegun(start: map<string, Block>, overlay: map<string, Block>)
    ensures Halfway(start, Contents(start), overlay, Contents(overlay), overlay)
  {
  }

  lemma SkipCategory(start: map<string, Block>, was: map<string, Entries>,
                     overlay: map<string, Block>, layer: map<string, Entries>,
                     todo: map<string, Block>, key: string)
    requires Halfway(start, was, overlay, layer, todo) && key in todo && key !in start
    ensures Halfway(start, was, overlay, layer, todo - {key})
  {
  }

  /**
   One layer merged in. A category the base already has gets the layer's entries in place; any other
   category becomes the layer's own block, shared from then on.
   */
  method DeepMerge(base: Merged, overlay: map<string, Block>)
    requires Apart(base.blocks, overlay)
    modifies base, base.blocks.Values
    ensures base.blocks == Adopted(old(base.blocks), overlay)
    ensures Halfway(old(base.blocks), old(Contents(base.blocks)), overlay, old(Contents(overlay)), map[])
  {
    hide Halfway, Contents, Adopted, Overlaid, Apart, Tracking;
    ghost var start := base.blocks;
    ghost var was := Contents(start);
    ghost var layer := Contents(overlay);
    var todo := overlay;
    NotBegun(start, overlay);
    assert Tracking(base.blocks, start, overlay, todo) by { TrackStart(start, overlay); }
    while todo != map[]
      invariant Tracking(base.blocks, start, overlay, todo)
      invariant Halfway(start, was, overlay, layer, todo)
      decreases |todo|
    {
      var key :| key in todo;
      TrackOne(base.blocks, start, overlay, todo, key);
      OneFewer(todo, key);
      if key in base.blocks {
        MergeCategory(start, was, overlay, layer, todo, key, base.blocks[key]);
      } else {
        SkipCategory(start, was, overlay, layer, todo, key);
        base.blocks := base.blocks[key := todo[key]];
      }
      todo := todo - {key};
    }
    TrackEnd(base.blocks, start, overlay);
  }

  lemma AdoptedApart(base: map<string, Block>, overlay: map<string, Block>)
    requires Apart(base, overlay)
    ensures NoSharing(Adopted(base, overlay))
  {
  }

  lemma OrderSteps(tags: seq<string>, server: string, i: nat)
    requires i <= |tags|
    ensures |Order(tags, server)| == |tags| + 1
    ensures i < |tags| ==> Order(tags, server)[..i + 1] == Order(tags, server)[..i] + [Tag(tags[i])]
    ensures i == |tags| ==> Order(tags, server) == Order(tags, server)[..i] + [Server(server)]
  {
  }

  lemma AddedValue<K, V>(m: map<K, V>, key: K, value: V)
    ensures m[key := value].Values <= m.Values + {value}
  {
  }

  class Thresholds {
    const defaults: map<string, Block>
    const layers: map<Source, map<string, Block>>

    constructor (defaults: map<string, Block>, layers: map<Source, map<string, Block>>)
      ensures this.defaults == defaults && this.layers == layers
    {
      this.defaults := defaults;
      this.layers := layers;
    }

    /** Loading the configuration builds every block as an object of its own. */
    ghost predicate Valid() {
      && NoSharing(defaults)
      && (forall s :: s in layers ==> NoSharing(layers[s]))
      && (forall s, c, e :: s in layers && c in defaults && e in layers[s] ==> defaults[c] != layers[s][e])
      && (forall s, t, c, e :: s in layers && t in layers && c in layers[s] && e in layers[t] && s != t ==>
            layers[s][c] != layers[t][e])
    }

    ghost function OverrideBlocks(): set<Block> {
      set s, c | s in layers && c in layers[s] :: layers[s][c]
    }

    /** The blocks of categories that the defaults lack: those a call may adopt into its result. */
    ghost function Written(): set<Block> {
      set s, c | s in layers && c in layers[s] && c !in defaults :: layers[s][c]
    }

    ghost function Values(): Config
      reads defaults.Values, OverrideBlocks()
    {
      Config(Contents(defaults), map s | s in layers :: Contents(layers[s]))
    }

    function LayerBlocks(src: Source): map<string, Block> {
      if src in layers then layers[src] else map[]
    }

    ghost predicate SameShape(cfg: Config) {
      && layers.Keys == cfg.layers.Keys
      && (forall s :: s in layers ==> layers[s].Keys == cfg.layers[s].Keys)
    }

    /** Category c of the result is a block of its own, or the very block of the override that owns it. */
    ghost predicate Placed(block: Block, entries: Entries, cell: Cell, c: string) {
      && cell.entries == Some(entries)
      && block !in defaults.Values
      && match cell.owner
         case None => block !in OverrideBlocks()
         case Some(s) => s in layers && c in layers[s] && block == layers[s][c]
    }

    ghost predicate Placement(blocks: map<string, Block>, contents: map<string, Entries>,
                              cfg: Config, order: seq<Source>)
    {
      && contents.Keys == blocks.Keys
      && (forall c :: c in blocks <==> CellAfter(cfg, order, c).entries.Some?)
      && (forall c :: c in blocks ==> Placed(blocks[c], contents[c], CellAfter(cfg, order, c), c))
    }

    /** Where the heap stands after merging the layers of `order`. */
    ghost predicate Merging(merged: Merged, cfg: Config, order: seq<Source>)
      reads merged, merged.blocks.Values, defaults.Values, OverrideBlocks()
    {
      && Contents(defaults) == cfg.defaults
      && SameShape(cfg)
      && NoSharing(merged.blocks)
      && Placement(merged.blocks, Contents(merged.blocks), cfg, order)
      && (forall s, c :: s in layers && c in layers[s] ==> layers[s][c].entries == BlockAfter(cfg, order, s, c))
    }

    /** Blocks of the result and of a layer coincide only where the layer owns the category. */
    lemma PlacedApart(blocks: map<string, Block>, contents: map<string, Entries>,
                      cfg: Config, order: seq<Source>, src: Source)
      requires Valid() && NoSharing(blocks) && Placement(blocks, contents, cfg, order)
      ensures Apart(blocks, LayerBlocks(src))
    {
      hide CellAfter;
      var layer := LayerBlocks(src);
      forall c, e | c in blocks && e in layer && blocks[c] == layer[e] ensures c == e {
        assert Placed(blocks[c], contents[c], CellAfter(cfg, order, c), c);
      }
    }

    /** What merging one layer into the heap leaves untouched, in terms of the blocks before it. */
    ghost predicate Untouched(start: map<string, Block>, cfg: Config, done: seq<Source>)
      reads defaults.Values, OverrideBlocks()
    {
      && Contents(defaults) == cfg.defaults
      && SameShape(cfg)
      && (forall s, c :: s in layers && c in layers[s] && layers[s][c] !in start.Values ==>
            layers[s][c].entries == BlockAfter(cfg, done, s, c))
    }

    lemma OwnBlock(src: Source, c: string)
      requires Valid() && c in LayerBlocks(src)
      ensures LayerBlocks(src)[c] !in defaults.Values
    {
    }

    lemma CategoryAdvanced(start: map<string, Block>, was: map<string, Entries>,
        lay: map<string, Entries>, cfg: Config, done: seq<Source>, src: Source, c: string)
      requires Valid() && SameShape(cfg) && Placement(start, was, cfg, done)
      requires Halfway(start, was, LayerBlocks(src), lay, map[])
      requires forall e :: e in LayerBlocks(src) ==> lay[e] == BlockAfter(cfg, done, src, e)
      ensures CellAfter(cfg, done + [src], c).entries.Some? <==> c in start || c in LayerBlocks(src)
      ensures c in start ==> Placed(start[c], start[c].entries, CellAfter(cfg, done + [src], c), c)
      ensures c !in start && c in LayerBlocks(src) ==>
                Placed(LayerBlocks(src)[c], LayerBlocks(src)[c].entries, CellAfter(cfg, done + [src], c), c)
    {
      hide CellAfter, Overlaid, Valid;
      StepAt(cfg, done, src, c);
      if c in start && c in LayerBlocks(src) {
        MergedWithItself(was[c]);
      }
      if c !in start && c in LayerBlocks(src) { OwnBlock(src, c); }
    }

    /** An override's block is found in the result only under its own category, as the owner's. */
    lemma OwnedCategory(start: map<string, Block>, was: map<string, Entries>,
        cfg: Config, done: seq<Source>, s: Source, c: string)
      requires Valid() && Placement(start, was, cfg, done)
      requires s in layers && c in layers[s] && layers[s][c] in start.Values
      ensures c in start && start[c] == layers[s][c] && CellAfter(cfg, done, c).owner == Some(s)
    {
      hide CellAfter;
      var e :| e in start && start[e] == layers[s][c];
      assert Placed(start[e], was[e], CellAfter(cfg, done, e), e);
    }

    lemma BlockAdvanced(start: map<string, Block>, was: map<string, Entries>,
        lay: map<string, Entries>, cfg: Config, done: seq<Source>, src: Source, s: Source, c: string)
      requires Valid() && Untouched(start, cfg, done) && Placement(start, was, cfg, done)
      requires Halfway(start, was, LayerBlocks(src), lay, map[])
      requires forall e :: e in LayerBlocks(src) ==> lay[e] == BlockAfter(cfg, done, src, e)
      requires s in layers && c in layers[s]
      ensures layers[s][c].entries == BlockAfter(cfg, done + [src], s, c)
    {
      hide CellAfter, Overlaid, Valid;
      CategoryAdvanced(start, was, lay, cfg, done, src, c);
      StepAt(cfg, done, src, c);
      if layers[s][c] in start.Values {
        OwnedCategory(start, was, cfg, done, s, c);
      }
    }

    lemma AdoptedValues(start: map<string, Block>, src: Source)
      requires defaults.Keys <= start.Keys
      ensures defaults.Keys <= Adopted(start, LayerBlocks(src)).Keys
      ensures Adopted(start, LayerBlocks(src)).Values <= start.Values + Written()
    {
    }

    lemma PlacementAdvanced(start: map<string, Block>, was: map<string, Entries>,
        lay: map<string, Entries>, cfg: Config, done: seq<Source>, src: Source)
      requires Valid() && SameShape(cfg) && Placement(start, was, cfg, done)
      requires Halfway(start, was, LayerBlocks(src), lay, map[])
      requires forall e :: e in LayerBlocks(src) ==> lay[e] == BlockAfter(cfg, done, src, e)
      ensures var now := Adopted(start, LayerBlocks(src)); Placement(now, Contents(now), cfg, done + [src])
    {
      hide CellAfter, Valid, Halfway, Placed;
      var now := Adopted(start, LayerBlocks(src));
      forall c
        ensures c in now <==> CellAfter(cfg, done + [src], c).entries.Some?
        ensures c in now ==> Placed(now[c], Contents(now)[c], CellAfter(cfg, done + [src], c), c)
      {
        CategoryAdvanced(start, was, lay, cfg, done, src, c);
      }
    }

    lemma LayerAdvanced(start: map<string, Block>, was: map<string, Entries>,
        lay: map<string, Entries>, merged: Merged, cfg: Config, done: seq<Source>, src: Source)
      requires Valid() && Untouched(start, cfg, done) && Placement(start, was, cfg, done) && NoSharing(start)
      requires Halfway(start, was, LayerBlocks(src), lay, map[])
      requires forall e :: e in LayerBlocks(src) ==> lay[e] == BlockAfter(cfg, done, src, e)
      requires merged.blocks == Adopted(start, LayerBlocks(src))
      ensures Merging(merged, cfg, done + [src])
    {
      hide Valid, Placement, NoSharing, Halfway, CellAfter, Adopted;
      var layer := LayerBlocks(src);
      var order := done + [src];
      PlacedApart(start, was, cfg, done, src);
      AdoptedApart(start, layer);
      PlacementAdvanced(start, was, lay, cfg, done, src);
      forall s, c | s in layers && c in layers[s] ensures layers[s][c].entries == BlockAfter(cfg, order, s, c) {
        BlockAdvanced(start, was, lay, cfg, done, src, s, c);
      }
    }

    lemma NoneFromDefaults(start: map<string, Block>, was: map<string, Entries>,
                           cfg: Config, done: seq<Source>)
      requires Placement(start, was, cfg, done)
      ensures start.Values !! defaults.Values
    {
      hide CellAfter;
      forall b | b in start.Values ensures b !in defaults.Values {
        var c :| c in start && start[c] == b;
        assert Placed(start[c], was[c], CellAfter(cfg, done, c), c);
      }
    }

    /** One call of _deep_merge from `effective`. */
    method MergeLayer(merged: Merged, src: Source, ghost cfg: Config, ghost done: seq<Source>)
      requires Valid() && Merging(merged, cfg, done) && defaults.Keys <= merged.blocks.Keys
      modifies merged, merged.blocks.Values
      ensures Merging(merged, cfg, done + [src]) && defaults.Keys <= merged.blocks.Keys
      ensures merged.blocks.Values <= old(merged.blocks.Values) + Written()
    {
      hide CellAfter, Valid, Halfway, Placed, NoSharing, Apart, Adopted;
      ghost var start := merged.blocks;
      ghost var was := Contents(start);
      var layer := LayerBlocks(src);
      ghost var lay := Contents(layer);
      PlacedApart(start, was, cfg, done, src);
      DeepMerge(merged, layer);
      assert Untouched(start, cfg, done) by {
        NoneFromDefaults(start, was, cfg, done);
      }
      LayerAdvanced(start, was, lay, merged, cfg, done, src);
      AdoptedValues(start, src);
    }

    /** The result's value for a category and key, as a reader of the dictionary finds it. */
    ghost function Read(merged: Merged, c: string, k: string): Option<Scalar>
      reads merged, merged.blocks.Values
    {
      if c in merged.blocks then Lookup(merged.blocks[c].entries, k) else None
    }

    lemma AllMerged(merged: Merged, cfg: Config, order: seq<Source>)
      requires Merging(merged, cfg, order)
      ensures Values() == After(cfg, order)
      ensures forall c, k :: Read(merged, c, k) == Given(cfg, order, c, k)
      ensures NoRepeats(order) ==> forall c, k :: Read(merged, c, k) == Resolve(cfg, order, c, k)
    {
      forall c, k
        ensures Read(merged, c, k) == Given(cfg, order, c, k)
        ensures NoRepeats(order) ==> Read(merged, c, k) == Resolve(cfg, order, c, k)
      {
        hide CellAfter;
        if NoRepeats(order) { Precedence(cfg, order, c, k); }
        if c in merged.blocks {
          assert Placed(merged.blocks[c], Contents(merged.blocks)[c], CellAfter(cfg, order, c), c);
        }
      }
      var layersNow := map s | s in layers :: Contents(layers[s]);
      forall s | s in layers ensures layersNow[s] == LayersAfter(cfg, order)[s] { }
      assert layersNow == LayersAfter(cfg, order);
    }

    lemma CopyKeys(copies: map<string, Block>)
      requires Contents(copies) == Contents(defaults)
      ensures copies.Keys == defaults.Keys
    {
      assert Contents(copies).Keys == Contents(defaults).Keys;
    }

    lemma CopyPlaced(merged: Merged, cfg: Config)
      requires Valid() && cfg == Values()
      requires NoSharing(merged.blocks) && Contents(merged.blocks) == Contents(defaults)
      requires merged.blocks.Values !! defaults.Values + OverrideBlocks()
      ensures Merging(merged, cfg, [])
    {
      forall c
        ensures c in merged.blocks <==> CellAfter(cfg, [], c).entries.Some?
        ensures c in merged.blocks ==>
                  Placed(merged.blocks[c], Contents(merged.blocks)[c], CellAfter(cfg, [], c), c)
      {
        assert c in merged.blocks <==> c in Contents(merged.blocks).Keys;
      }
    }

    /** The copies made so far: blocks of their own with the contents of the originals. */
    ghost predicate Copying(copies: map<string, Block>, todo: map<string, Block>)
      reads copies.Values, defaults.Values
    {
      && todo.Keys <= defaults.Keys && (forall c :: c in todo ==> todo[c] == defaults[c])
      && copies.Keys == defaults.Keys - todo.Keys
      && NoSharing(copies)
      && (forall c :: c in copies ==> copies[c].entries == defaults[c].entries)
    }

    method CopyOne(copies: map<string, Block>, todo: map<string, Block>, key: string)
      returns (more: map<string, Block>, copy: Block)
      requires Copying(copies, todo) && key in todo
      ensures Copying(more, todo - {key})
      ensures fresh(copy) && more == copies[key := copy]
    {
      copy := new Block(todo[key].entries);
      more := copies[key := copy];
      assert (todo - {key}).Keys == todo.Keys - {key};
      assert more.Keys == defaults.Keys - (todo - {key}).Keys;
    }

    lemma NothingCopied()
      ensures Copying(map[], defaults)
    {
    }

    lemma AllCopied(copies: map<string, Block>)
      requires Copying(copies, map[])
      ensures NoSharing(copies) && Contents(copies) == Contents(defaults)
    {
      assert copies.Keys == defaults.Keys;
    }

    /** copy.deepcopy(self.defaults) */
    method CopyDefaults() returns (merged: Merged)
      ensures fresh(merged) && fresh(merged.blocks.Values)
      ensures NoSharing(merged.blocks) && Contents(merged.blocks) == Contents(defaults)
    {
      hide NoSharing, Copying, Contents;
      var copies: map<string, Block> := map[];
      var todo := defaults;
      ghost var made: set<Block> := {};
      assert Copying(copies, todo) by { NothingCopied(); }
      while todo != map[]
        invariant Copying(copies, todo)
        invariant copies.Values <= made && fresh(made)
        decreases |todo|
      {
        var key :| key in todo;
        OneFewer(todo, key);
        ghost var before := copies;
        var copy;
        copies, copy := CopyOne(copies, todo, key);
        made := made + {copy};
        AddedValue(before, key, copy);
        todo := todo - {key};
      }
      merged := new Merged();
      merged.blocks := copies;
      AllCopied(copies);
    }

    lemma WrittenIsShared()
      ensures Written() <= OverrideBlocks()
    {
    }

    /** Where every override's categories are in the defaults, and only there, nothing shared is written. */
    lemma NothingWrittenExactly()
      ensures Written() == {} <==> forall s :: s in layers ==> layers[s].Keys <= defaults.Keys
    {
      forall s, c | s in layers && c in layers[s] && c !in defaults ensures layers[s][c] in Written() { }
    }

    /**
     The thresholds of one server: the defaults, each of its tags in order, then its own overrides. The only
     blocks it may write besides its own are `Written()`: with none of them, calls at the same time cannot meet.
     */
    method Effective(tags: seq<string>, server: string) returns (merged: Merged)
      requires Valid()
      modifies Written()
      ensures fresh(merged)
      ensures Values() == After(old(Values()), Order(tags, server))
      ensures forall c, k :: Read(merged, c, k) == Given(old(Values()), Order(tags, server), c, k)
      ensures NoRepeats(Order(tags, server)) ==>
                forall c, k :: Read(merged, c, k) == Resolve(old(Values()), Order(tags, server), c, k)
    {
      hide Valid, Merging, CellAfter, Order, Contents, NoSharing;
      WrittenIsShared();
      ghost var cfg := Values();
      ghost var order := Order(tags, server);
      merged := CopyDefaults();
      ghost var made := merged.blocks.Values;
      CopyKeys(merged.blocks);
      CopyPlaced(merged, cfg);
      OrderSteps(tags, server, 0);
      var i := 0;
      while i < |tags|
        invariant 0 <= i <= |tags|
        invariant fresh(made) && merged.blocks.Values <= made + Written()
        invariant defaults.Keys <= merged.blocks.Keys
        invariant Merging(merged, cfg, order[..i])
      {
        MergeLayer(merged, Tag(tags[i]), cfg, order[..i]);
        OrderSteps(tags, server, i);
        i := i + 1;
      }
      OrderSteps(tags, server, i);
      MergeLayer(merged, Server(server), cfg, order[..i]);
      AllMerged(merged, cfg, order);
    }
  }
}
