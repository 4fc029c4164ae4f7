/**
 * When a mosaic can go stale: a blob that a row names is missing from the store. A mosaic that is composed
 * with nothing else going on shows the art the database names exactly when its tiles' blobs are all there.
 * When one is not, and some other album has art, every reachable state with nothing pending and no such mosaic
 * cached goes on to one with a stale mosaic in the cache; and an interleaving of one set and one clear request takes such a blob away for good.
 */
module MosaicBlobs {
  import opened CoverCache
  import opened Options

  // One mosaic on its own ----------------------------------------------------------------

  predicate Composing(pc: Pc) {
    pc.Tiling? && pc.i <= |pc.ids| && (pc.next.Some? ==> pc.i < |pc.ids|)
  }

  /** The image that the tile loop ends with when no other request moves. */
  function Composition(s: State, pc: Pc): Option<Image>
    requires Composing(pc)
    decreases |pc.ids| - pc.i, if pc.next.Some? then 0 else 1
  {
    var pc' := ReaderAfter(s, pc);
    if pc'.Tiling? then Composition(s, pc')
    else if pc'.Decoded? then Some(pc'.image)
    else None
  }

  predicate AllReadable(s: State, tiles: seq<Source>) {
    forall src | src in tiles :: Readable(s, src)
  }

  lemma {:induction false} TilesGrow(lib: Library, rows: map<nat, Row>, ids: seq<nat>, i: nat)
    requires i <= |ids|
    ensures Tiles(lib, rows, ids[..i]) <= Tiles(lib, rows, ids)
    decreases |ids| - i
  {
    if i == |ids| {
      assert ids[..i] == ids;
    } else {
      TilesSnoc(lib, rows, ids, i);
      TilesGrow(lib, rows, ids, i + 1);
    }
  }

  /** What the source of album `ids[i]` adds. */
  lemma OneMoreTile(lib: Library, rows: map<nat, Row>, ids: seq<nat>, i: nat, src: Source)
    requires i < |ids| && |Tiles(lib, rows, ids[..i])| < MaxTiles
    requires ids[i] in rows && TileSource(rows[ids[i]], ids[i]) == Some(src)
    ensures Tiles(lib, rows, ids[..i + 1]) == Tiles(lib, rows, ids[..i]) + if src in lib.tileable then [src] else []
    ensures src in lib.tileable ==> src in Tiles(lib, rows, ids)
  {
    TilesSnoc(lib, rows, ids, i);
    TilesGrow(lib, rows, ids, i + 1);
    if src in lib.tileable {
      assert Tiles(lib, rows, ids[..i + 1])[|Tiles(lib, rows, ids[..i])|] == src;
    }
  }

  /** Reading the tile that was picked. */
  lemma ReadableTile(s: State, pc: Pc)
    requires pc.Tiling? && TilingOk(s, pc) && pc.next.Some? && AllReadable(s, Tiles(s.lib, s.rows, pc.ids))
    ensures var pc' := ReaderAfter(s, pc); pc'.Tiling? && pc'.id == pc.id && pc'.ids == pc.ids && TilingOk(s, pc')
  {
    OneMoreTile(s.lib, s.rows, pc.ids, pc.i, pc.next.value);
    var tiles' := if pc.next.value in s.lib.tileable then pc.tiles + [pc.next.value] else pc.tiles;
    assert ReaderAfter(s, pc) == Tiling(pc.id, pc.size, pc.ids, pc.i + 1, tiles', None);
  }

  lemma {:induction false} CompositionOfReadable(s: State, pc: Pc)
    requires pc.Tiling? && TilingOk(s, pc) && AllReadable(s, Tiles(s.lib, s.rows, pc.ids))
    ensures Composition(s, pc) == Art(s, pc.id)
    decreases |pc.ids| - pc.i, if pc.next.Some? then 0 else 1
  {
    if pc.next.Some? { ReadableTile(s, pc); } else { PickTile(s, pc); }
    var pc' := ReaderAfter(s, pc);
    if pc'.Tiling? { CompositionOfReadable(s, pc'); }
  }

  /** Album `ids[k]` gives this tile, and it can be read. */
  predicate Gives(s: State, ids: seq<nat>, k: nat, src: Source) {
    k < |ids| && Tile(s.lib, s.rows, ids[k]) == [src] && Readable(s, src)
  }

  ghost predicate AreGiven(s: State, ids: seq<nat>, tiles: seq<Source>) {
    forall src | src in tiles :: exists k :: Gives(s, ids, k, src)
  }

  predicate NextIsSource(s: State, pc: Pc)
    requires Composing(pc)
  {
    pc.next.Some? ==> pc.ids[pc.i] in s.rows && pc.next == TileSource(s.rows[pc.ids[pc.i]], pc.ids[pc.i])
  }

  lemma AfterIsGiven(s: State, pc: Pc)
    requires Composing(pc) && NextIsSource(s, pc) && AreGiven(s, pc.ids, pc.tiles)
    ensures var pc' := ReaderAfter(s, pc);
            || pc'.AtRUnlock?
            || (Composing(pc') && pc'.ids == pc.ids && NextIsSource(s, pc') && AreGiven(s, pc.ids, pc'.tiles))
            || (pc' == Decoded(pc.id, pc.size, Composed(pc.tiles)) && pc.tiles != [])
  {
    if pc.next.Some? && Readable(s, pc.next.value) && pc.next.value in s.lib.tileable {
      assert Gives(s, pc.ids, pc.i, pc.next.value);
    }
  }

  /** What is composed is made of tiles that can be read. */
  lemma {:induction false} CompositionIsGiven(s: State, pc: Pc)
    requires Composing(pc) && NextIsSource(s, pc) && AreGiven(s, pc.ids, pc.tiles)
    ensures Composition(s, pc).Some? ==>
              var image := Composition(s, pc).value;
              image.Composed? && image.tiles != [] && AreGiven(s, pc.ids, image.tiles)
    decreases |pc.ids| - pc.i, if pc.next.Some? then 0 else 1
  {
    hide AreGiven, NextIsSource;
    AfterIsGiven(s, pc);
    var pc' := ReaderAfter(s, pc);
    if pc'.Tiling? { CompositionIsGiven(s, pc'); }
  }

  /** One album whose tile can be read is enough for a mosaic. */
  lemma {:induction false} SomethingComposes(s: State, pc: Pc, k: nat, src: Source)
    requires Composing(pc) && NextIsSource(s, pc) && (pc.tiles != [] || (pc.i <= k && Gives(s, pc.ids, k, src)))
    ensures Composition(s, pc).Some?
    decreases |pc.ids| - pc.i, if pc.next.Some? then 0 else 1
  {
    var pc' := ReaderAfter(s, pc);
    if pc'.Tiling? { SomethingComposes(s, pc', k, src); }
  }

  /** The tile loop of a request for the collection, when it starts. */
  function Begun(s: State, c: nat, size: nat): Pc {
    Tiling(Collection(c), size, ListOf(s, c), 0, [], None)
  }

  /** A mosaic composed alone is the collection's art exactly when every tile's blob is in the store. */
  lemma ComposesArtIffReadable(s: State, c: nat, size: nat)
    ensures Composition(s, Begun(s, c, size)) == Art(s, Collection(c)) <==> AllReadable(s, Tiles(s.lib, s.rows, ListOf(s, c)))
  {
    hide Composition;
    var start := Begun(s, c, size);
    assert ListOf(s, c)[..0] == [];
    CompositionIsGiven(s, start);
    if AllReadable(s, Tiles(s.lib, s.rows, ListOf(s, c))) { CompositionOfReadable(s, start); }
  }

  /** A tile of the collection's art cannot be read, but some album of the collection has one that can. */
  ghost predicate Spoiled(s: State, c: nat) {
    && !AllReadable(s, Tiles(s.lib, s.rows, ListOf(s, c)))
    && exists k, src :: Gives(s, ListOf(s, c), k, src)
  }

  /** A mosaic composed alone is one, and not the collection's art, exactly when the collection is spoiled. */
  lemma ComposesOtherIffSpoiled(s: State, c: nat, size: nat)
    ensures var image := Composition(s, Begun(s, c, size));
            image.Some? && image != Art(s, Collection(c)) <==> Spoiled(s, c)
  {
    hide Composition;
    var start := Begun(s, c, size);
    ComposesArtIffReadable(s, c, size);
    CompositionIsGiven(s, start);
    if Composition(s, start).Some? {
      assert Composition(s, start).value.tiles[0] in Composition(s, start).value.tiles;
    }
    if k, src :| Gives(s, ListOf(s, c), k, src) { SomethingComposes(s, start, k, src); }
  }

  // Runs ------------------------------------------------------------------------------------

  ghost predicate IsPath(run: seq<State>, actions: seq<Action>) {
    && |run| == |actions| + 1
    && forall i | 0 <= i < |actions| :: Enabled(run[i], actions[i]) && run[i + 1] == Step(run[i], actions[i])
  }

  ghost predicate Reaches(s: State, s': State) {
    exists run, actions :: IsPath(run, actions) && run[0] == s && run[|run| - 1] == s'
  }

  ghost predicate Reachable(s: State) {
    exists start :: Initial(start) && Reaches(start, s)
  }

  lemma ReachSelf(s: State)
    ensures Reaches(s, s)
  {
    assert IsPath([s], []);
    assert [s][|[s]| - 1] == s;
  }

  lemma ReachStep(s: State, s': State, a: Action)
    requires Reaches(s, s') && Enabled(s', a)
    ensures Reaches(s, Step(s', a))
  {
    var run, actions :| IsPath(run, actions) && run[0] == s && run[|run| - 1] == s';
    var run', actions' := run + [Step(s', a)], actions + [a];
    forall i | 0 <= i < |actions'| ensures Enabled(run'[i], actions'[i]) && run'[i + 1] == Step(run'[i], actions'[i]) {
      assert i < |actions| ==> run'[i] == run[i] && run'[i + 1] == run[i + 1] && actions'[i] == actions[i];
    }
    assert IsPath(run', actions');
    assert run'[|run'| - 1] == Step(s', a);
  }

  lemma {:induction false} PathIsReached(start: State, run: seq<State>, actions: seq<Action>, i: nat)
    requires IsPath(run, actions) && i < |run| && Reaches(start, run[0])
    ensures Reaches(start, run[i])
  {
    hide Reaches, Step;
    if i > 0 {
      PathIsReached(start, run, actions, i - 1);
      ReachStep(start, run[i - 1], actions[i - 1]);
    }
  }

  lemma ReachThrough(start: State, s: State, s': State)
    requires Reaches(start, s) && Reaches(s, s')
    ensures Reaches(start, s')
  {
    hide Step;
    var run, actions :| IsPath(run, actions) && run[0] == s && run[|run| - 1] == s';
    PathIsReached(start, run, actions, |run| - 1);
  }

  lemma ReachableIsInv(s: State)
    requires Reachable(s)
    ensures Inv(s, false)
  {
    hide Inv, Initial, Step;
    var start :| Initial(start) && Reaches(start, s);
    var run, actions :| IsPath(run, actions) && run[0] == start && run[|run| - 1] == s;
    assert IsRun(run, actions);
    RunKeepsInv(run, actions, |run| - 1, false);
  }

  // From a state with a spoiled collection on -------------------------------------------------

  predicate SameArt(s: State, s': State) {
    s'.lib == s.lib && s'.rows == s.rows && s'.lists == s.lists && s'.blobs == s.blobs
  }

  lemma SameIsSpoiled(s: State, s': State, c: nat)
    requires SameArt(s, s')
    ensures Spoiled(s, c) <==> Spoiled(s', c)
    ensures Art(s, Collection(c)) == Art(s', Collection(c))
  {
    forall k, src ensures Gives(s, ListOf(s, c), k, src) <==> Gives(s', ListOf(s', c), k, src) {
    }
  }

  ghost predicate NothingCached(s: State, c: nat) {
    forall name | name in s.files :: name.id != Collection(c)
  }

  /** A request that holds the write lock moves on. */
  lemma WriterMoves(s: State, t: Tid, c: nat)
    requires Inv(s, false) && Quiet(s) && t in s.pcs && HoldsWrite(s.pcs[t]) && NothingCached(s, c)
    ensures AdvanceEnabled(s, t)
    ensures var s' := Step(s, Advance(t));
            && Inv(s', false) && Quiet(s') && SameArt(s, s') && NothingCached(s', c)
            && t in s'.pcs && if s.pcs[t].AtUnlock? then s'.writer.None? else s'.pcs[t].AtUnlock?
  {
    hide Inv;
    StepKeepsInv(s, Advance(t), false);
    forall u, id | u in s.pcs && u != t ensures !WillPurge(Step(s, Advance(t)), s.pcs[u], id) {
      assert !WillPurge(s, s.pcs[u], id);
    }
  }

  /** A request that holds the write lock can finish first. */
  lemma WriterFinishes(s: State, c: nat) returns (s': State)
    requires Inv(s, false) && Quiet(s) && NothingCached(s, c)
    ensures Reaches(s, s') && Inv(s', false) && Quiet(s') && s'.writer.None? && SameArt(s, s') && NothingCached(s', c)
  {
    hide Reaches, Quiet, NothingCached, Step;
    ReachSelf(s);
    s' := s;
    if s.writer.Some? {
      var t := s.writer.value;
      assert t in s.pcs && HoldsWrite(s.pcs[t]);
      hide Inv;
      WriterMoves(s, t, c);
      ReachStep(s, s, Advance(t));
      s' := Step(s, Advance(t));
      if !s.pcs[t].AtUnlock? {
        var s1 := s';
        WriterMoves(s1, t, c);
        ReachStep(s, s1, Advance(t));
        s' := Step(s1, Advance(t));
      }
    }
  }

  lemma {:induction false} Above(ts: set<Tid>) returns (t: Tid)
    ensures forall u | u in ts :: u < t
    decreases ts
  {
    t := 0;
    if ts != {} {
      var u :| u in ts;
      var rest := ts - {u};
      var above := Above(rest);
      t := if u < above then above else u + 1;
      assert ts == rest + {u};
    }
  }

  /** `s`, with one more request that holds the read lock. */
  function Reading(s: State, t: Tid, pc: Pc): State {
    s.(readers := s.readers + {t}, pcs := s.pcs[t := pc])
  }

  lemma ReaderStarts(origin: State, s: State, t: Tid, id: CoverId, size: nat)
    requires Reaches(origin, s) && t !in s.pcs && s.writer.None?
    ensures Reaches(origin, Reading(s, t, Probe(id, size, 0)))
  {
    hide Reaches;
    var spawn := Spawn(t, Get(id, size));
    ReachStep(origin, s, spawn);
    var s1 := Step(s, spawn);
    ReachStep(origin, s1, Advance(t));
    assert s.pcs[t := Get(id, size)][t := Probe(id, size, 0)] == s.pcs[t := Probe(id, size, 0)];
    assert Step(s1, Advance(t)) == Reading(s, t, Probe(id, size, 0));
  }

  lemma ReaderMoves(origin: State, s: State, t: Tid, pc: Pc, pc': Pc)
    requires Reaches(origin, Reading(s, t, pc)) && HoldsRead(pc) && !pc.AtRUnlock? && !pc.Decoded?
    requires pc' == ReaderAfter(s, pc)
    ensures Reaches(origin, Reading(s, t, pc'))
  {
    hide Reaches;
    var s1 := Reading(s, t, pc);
    ReachStep(origin, s1, Advance(t));
    assert s.pcs[t := pc][t := pc'] == s.pcs[t := pc'];
    assert ReaderAfter(s1, pc) == pc';
    assert Step(s1, Advance(t)) == Reading(s, t, pc');
  }

  lemma {:induction false} ProbesMiss(origin: State, s: State, t: Tid, c: nat, size: nat, i: nat)
    requires Reaches(origin, Reading(s, t, Probe(Collection(c), size, i))) && NothingCached(s, c) && i <= |Formats|
    ensures Reaches(origin, Reading(s, t, Begun(s, c, size)))
    decreases |Formats| - i
  {
    hide Reaches, Reading;
    var pc := Probe(Collection(c), size, i);
    ReaderMoves(origin, s, t, pc, ReaderAfter(s, pc));
    if i < |Formats| { ProbesMiss(origin, s, t, c, size, i + 1); }
  }

  lemma {:induction false} Composes(origin: State, s: State, t: Tid, pc: Pc)
    requires Composing(pc) && Composition(s, pc).Some? && Reaches(origin, Reading(s, t, pc))
    ensures Reaches(origin, Reading(s, t, Decoded(pc.id, pc.size, Composition(s, pc).value)))
    decreases |pc.ids| - pc.i, if pc.next.Some? then 0 else 1
  {
    hide Reaches, Reading;
    var pc' := ReaderAfter(s, pc);
    ReaderMoves(origin, s, t, pc, pc');
    if pc'.Tiling? { Composes(origin, s, t, pc'); }
  }

  lemma Saves(origin: State, s: State, t: Tid, c: nat, size: nat, image: Image) returns (s': State, name: Name)
    requires Inv(s, false) && t !in s.pcs && NothingCached(s, c) && image.Composed?
    requires Reaches(origin, Reading(s, t, Decoded(Collection(c), size, image)))
    ensures Reaches(origin, s') && SameArt(s, s') && s'.pcs == s.pcs[t := Saving(size, name, Thumb(image, name.size))]
    ensures name.id == Collection(c) && name in s'.files && s'.files[name] == {Thumb(image, name.size)}
  {
    hide Reaches;
    var pc := Decoded(Collection(c), size, image);
    var s1 := Reading(s, t, pc);
    name := SaveName(s, Collection(c), size, image);
    ReachStep(origin, s1, Advance(t));
    s' := Step(s1, Advance(t));
    assert Formats[0] == "jpeg";
    forall u | u in s1.pcs && s1.pcs[u].Saving? ensures s1.pcs[u].name != name {
      assert PcOk(s, false, s.pcs[u]);
    }
    assert ReaderAfter(s1, pc) == Saving(size, name, Thumb(image, name.size));
    assert s.pcs[t := pc][t := Saving(size, name, Thumb(image, name.size))] == s.pcs[t := Saving(size, name, Thumb(image, name.size))];
  }

  lemma SavingIsQuiet(s: State, s': State, t: Tid)
    requires Quiet(s) && SameArt(s, s') && t in s'.pcs && s'.pcs[t].Saving? && s'.pcs == s.pcs[t := s'.pcs[t]]
    ensures Quiet(s')
  {
    forall u, id | u in s'.pcs && u != t ensures !WillPurge(s', s'.pcs[u], id) {
      assert !WillPurge(s, s.pcs[u], id);
    }
  }

  /**
   * A spoiled collection without a cached mosaic gets a stale one: from every reachable state in which no request is
   * between its commit and the end of its purge, one more request for it can end there.
   */
  lemma SpoiledGoesStale(s: State, c: nat, size: nat)
    requires Reachable(s) && Quiet(s) && NothingCached(s, c) && Spoiled(s, c)
    ensures exists s', name: Name ::
              Reaches(s, s') && Quiet(s') && name.id == Collection(c) && name in s'.files && !Fresh(s', name)
  {
    hide Reaches, Inv, NothingCached, Reading, Composition;
    ReachableIsInv(s);
    var s0 := WriterFinishes(s, c);
    var t := Above(s0.pcs.Keys);
    assert t !in s0.pcs;
    SameIsSpoiled(s, s0, c);
    ComposesOtherIffSpoiled(s0, c, size);
    ReaderStarts(s, s0, t, Collection(c), size);
    ProbesMiss(s, s0, t, c, size, 0);
    Composes(s, s0, t, Begun(s0, c, size));
    var image := Composition(s0, Begun(s0, c, size)).value;
    assert image.Composed? by { CompositionIsGiven(s0, Begun(s0, c, size)); }
    var s', name := Saves(s, s0, t, c, size, image);
    SavingIsQuiet(s0, s', t);
    SameIsSpoiled(s0, s', c);
    assert !Fresh(s', name) by { assert Thumb(image, name.size) in s'.files[name]; }
  }

  // A run that spoils a collection --------------------------------------------------------------

  lemma ReachStart(s: State)
    requires Initial(s)
    ensures Reachable(s)
  {
    ReachSelf(s);
  }

  lemma ReachOn(s: State, a: Action)
    requires Reachable(s) && Enabled(s, a)
    ensures Reachable(Step(s, a))
  {
    hide Reaches, Initial;
    var start :| Initial(start) && Reaches(start, s);
    ReachStep(start, s, a);
  }

  const H: Hash := "h"
  const Lib := Library(map[], {Blob(H), Folder(3)}, {})
  const Cover := Row(Some(H), false, None)
  const Plate := Row(None, true, None)
  const Bare := Row(None, false, None)

  function World(rows: map<nat, Row>, blobs: set<Hash>, writer: Option<Tid>, pcs: map<Tid, Pc>): State {
    State(Lib, rows, map[7 := [2, 3]], blobs, map[], {}, writer, pcs)
  }

  const Before := map[1 := Cover, 2 := Bare, 3 := Plate]
  const Cleared := map[1 := Bare, 2 := Bare, 3 := Plate]
  const Swapped := map[1 := Bare, 2 := Cover, 3 := Plate]

  lemma Starts(rows: map<nat, Row>, blobs: set<Hash>, pcs: map<Tid, Pc>, t: Tid, pc: Pc)
    requires Reachable(World(rows, blobs, None, pcs)) && t !in pcs && Startable(pc)
    ensures Reachable(World(rows, blobs, None, pcs[t := pc]))
  {
    ReachOn(World(rows, blobs, None, pcs), Spawn(t, pc));
  }

  /** One step of a set or clear request, while nobody reads. */
  lemma Moves(rows: map<nat, Row>, blobs: set<Hash>, writer: Option<Tid>, pcs: map<Tid, Pc>, t: Tid, s': State)
    requires var s := World(rows, blobs, writer, pcs);
             && Reachable(s) && AdvanceEnabled(s, t) && !ReaderPc(pcs[t])
             && (pcs[t].AtCommit? ==> pcs[t].mutation.SetCover? || pcs[t].mutation.ClearCover?)
             && s' == World(RowsAfter(s, Advance(t)), BlobsAfter(s, Advance(t)), WriterAfter(s, Advance(t)),
                            pcs[t := MutatorAfter(s, pcs[t])])
    ensures Reachable(s')
  {
    var s := World(rows, blobs, writer, pcs);
    ReachOn(s, Advance(t));
    assert FilesAfter(s, Advance(t)) == map[];
  }

  const Set2 := SetCover(2, H)

  /** Request 0 stores the blob for album 2. */
  lemma SetStores()
    ensures Reachable(World(Before, {H}, None, map[0 := AtCommit(Set2)]))
  {
    hide Reachable;
    ReachStart(World(Before, {H}, None, map[]));
    Starts(Before, {H}, map[], 0, Change(Set2));
    assert {H} + {H} == {H};
    Moves(Before, {H}, None, map[0 := Change(Set2)], 0, World(Before, {H}, None, map[0 := AtCommit(Set2)]));
  }

  lemma ClearStarts()
    ensures Reachable(World(Before, {H}, None, map[0 := AtCommit(Set2), 1 := AtCommit(ClearCover(1))]))
  {
    hide Reachable;
    SetStores();
    var pcs: map<Tid, Pc> := map[0 := AtCommit(Set2)];
    var pcs1, pcs2 := pcs[1 := Change(ClearCover(1))], pcs[1 := AtCommit(ClearCover(1))];
    Starts(Before, {H}, pcs, 1, Change(ClearCover(1)));
    assert pcs1[1 := AtCommit(ClearCover(1))] == pcs2;
    Moves(Before, {H}, None, pcs1, 1, World(Before, {H}, None, pcs2));
  }

  /** Request 1 clears album 1, which had the same cover. */
  lemma ClearCommits()
    ensures Reachable(World(Cleared, {H}, None, map[0 := AtCommit(Set2), 1 := AtCount(1, Some(H), None)]))
  {
    hide Reachable;
    ClearStarts();
    assert Before[1 := Bare] == Cleared;
    var pcs: map<Tid, Pc> := map[0 := AtCommit(Set2)];
    var pcs2, pcs3 := pcs[1 := AtCommit(ClearCover(1))], pcs[1 := AtCount(1, Some(H), None)];
    assert pcs2[1 := AtCount(1, Some(H), None)] == pcs3;
    Moves(Before, {H}, None, pcs2, 1, World(Cleared, {H}, None, pcs3));
  }

  /** No row names the blob, so it goes. */
  lemma ClearDeletes()
    ensures Reachable(World(Cleared, {}, None, map[0 := AtCommit(Set2), 1 := AtQuery(1)]))
  {
    hide Reachable;
    ClearCommits();
    var pcs: map<Tid, Pc> := map[0 := AtCommit(Set2)];
    var pcs1, pcs2, pcs3 := pcs[1 := AtCount(1, Some(H), None)], pcs[1 := AtDelete(1, H)], pcs[1 := AtQuery(1)];
    assert pcs1[1 := AtDelete(1, H)] == pcs2 && pcs2[1 := AtQuery(1)] == pcs3;
    assert !Referenced(World(Cleared, {H}, None, pcs1), H);
    Moves(Cleared, {H}, None, pcs1, 1, World(Cleared, {H}, None, pcs2));
    assert {H} - {H} == {};
    Moves(Cleared, {H}, None, pcs2, 1, World(Cleared, {}, None, pcs3));
  }

  /** Now album 2's row names it. */
  lemma SetCommits()
    ensures Reachable(World(Swapped, {}, None, map[0 := AtQuery(2), 1 := AtQuery(1)]))
  {
    hide Reachable;
    ClearDeletes();
    var pcs: map<Tid, Pc> := map[0 := AtCommit(Set2), 1 := AtQuery(1)];
    var count := AtCount(2, None, Some(H));
    assert Cleared[2 := Cover] == Swapped;
    Moves(Cleared, {}, None, pcs, 0, World(Swapped, {}, None, pcs[0 := count]));
    assert pcs[0 := count][0 := AtQuery(2)] == map[0 := AtQuery(2), 1 := AtQuery(1)];
    Moves(Swapped, {}, None, pcs[0 := count], 0, World(Swapped, {}, None, map[0 := AtQuery(2), 1 := AtQuery(1)]));
  }

  /** A request that has changed an album's art goes on to purge, alone. */
  lemma Locks(pcs: map<Tid, Pc>, t: Tid, a: nat) returns (ids: set<CoverId>)
    requires t in pcs && pcs[t] == AtQuery(a) && Reachable(World(Swapped, {}, None, pcs))
    ensures Reachable(World(Swapped, {}, Some(t), pcs[t := Purging(ids)]))
  {
    ids := MutatorAfter(World(Swapped, {}, None, pcs), pcs[t]).targets;
    Moves(Swapped, {}, None, pcs, t, World(Swapped, {}, None, pcs[t := AtLock(ids)]));
    assert pcs[t := AtLock(ids)][t := Purging(ids)] == pcs[t := Purging(ids)];
    Moves(Swapped, {}, None, pcs[t := AtLock(ids)], t, World(Swapped, {}, Some(t), pcs[t := Purging(ids)]));
  }

  lemma GoesOnToPurge(pcs: map<Tid, Pc>, t: Tid, a: nat)
    requires t in pcs && pcs[t] == AtQuery(a) && Reachable(World(Swapped, {}, None, pcs))
    ensures Reachable(World(Swapped, {}, None, pcs[t := Done]))
  {
    var ids := Locks(pcs, t, a);
    assert pcs[t := Purging(ids)][t := AtUnlock] == pcs[t := AtUnlock];
    Moves(Swapped, {}, Some(t), pcs[t := Purging(ids)], t, World(Swapped, {}, Some(t), pcs[t := AtUnlock]));
    assert pcs[t := AtUnlock][t := Done] == pcs[t := Done];
    Moves(Swapped, {}, Some(t), pcs[t := AtUnlock], t, World(Swapped, {}, None, pcs[t := Done]));
  }

  const Over: map<Tid, Pc> := map[0 := Done, 1 := Done]

  lemma BothFinish()
    ensures Reachable(World(Swapped, {}, None, Over))
  {
    hide Reachable;
    SetCommits();
    var pcs: map<Tid, Pc> := map[0 := AtQuery(2), 1 := AtQuery(1)];
    GoesOnToPurge(pcs, 0, 2);
    GoesOnToPurge(pcs[0 := Done], 1, 1);
    assert pcs[0 := Done][1 := Done] == Over;
  }

  /** The mosaic of albums 2 and 3 has lost the first of its tiles. */
  lemma SwappedIsSpoiled()
    ensures Spoiled(World(Swapped, {}, None, Over), 7)
  {
    var s := World(Swapped, {}, None, Over);
    TilesSnoc(Lib, Swapped, [2, 3], 0);
    TilesSnoc(Lib, Swapped, [2, 3], 1);
    assert [2, 3][..0] == [] && [2, 3][..1] == [2] && [2, 3][..2] == [2, 3];
    assert Tiles(Lib, Swapped, [2, 3])[0] == Blob(H);
    assert !Readable(s, Blob(H));
    assert Gives(s, [2, 3], 1, Folder(3));
  }

  /**
   * Without the condition on blobs, mosaics do go stale: a set request that has stored its blob but not its
   * row yet loses the blob to a clear request for another album that had the same cover.
   */
  lemma MosaicsCanGoStale()
    ensures exists s, name :: Reachable(s) && Quiet(s) && name in s.files && !Fresh(s, name)
  {
    hide Reaches, Initial, Fresh, Spoiled;
    BothFinish();
    SwappedIsSpoiled();
    var s := World(Swapped, {}, None, Over);
    SpoiledGoesStale(s, 7, 300);
    var s', name: Name :| Reaches(s, s') && Quiet(s') && name in s'.files && !Fresh(s', name);
    var start :| Initial(start) && Reaches(start, s);
    ReachThrough(start, s, s');
  }
}
