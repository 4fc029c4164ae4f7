/**
 * The cover cache as a state machine: getCoverArt requests that resize and save under the read
 * lock, and the requests that change what an id's art is, commit that to the database, and only
 * then purge the old resizes under the write lock. A request that creates a collection purges nothing.
 *
 * A collection's mosaic reads the album list and then one album row and one image file at a time,
 * with other requests' commits in between. Blobs of the cover store come and go as set requests
 * store them and drop them. No scan runs: folder covers, embedded covers and the set of albums
 * stay as they are.
 */
module CoverCache {
  import opened Options
  import Collections

  type Tid = nat
  type Hash = string

  datatype Source = Blob(hash: Hash) | Folder(album: nat) | Embedded(track: nat)

  /** What decoding a source reports: its format, and its larger side. */
  datatype Pic = Pic(format: string, dim: nat)

  /** One album row, as far as its art goes. */
  datatype Row = Row(override: Option<Hash>, folder: bool, embedded: Option<nat>)

  datatype CoverId = Album(id: nat) | Collection(id: nat)

  datatype Image = Plain(src: Source) | Composed(tiles: seq<Source>)

  datatype Thumb = Thumb(image: Image, size: nat)

  datatype Name = Name(id: CoverId, size: nat, format: string)

  /** What does not change while no scan runs. */
  datatype Library = Library(
    pics: map<Source, Pic>,      // the sources that decode, blobs by their content
    tileable: set<Source>,       // those within a mosaic tile's limits
    orphans: set<Hash>)          // hashes held by overrides whose album row is gone

  datatype Mutation =
    | SetCover(album: nat, hash: Hash)
    | ClearCover(album: nat)
    | SetList(coll: nat, albums: seq<nat>)
    | DropList(coll: nat)
    | Create(coll: nat, albums: seq<nat>)

  datatype Pc =
    | Get(id: CoverId, size: nat)
    | Probe(id: CoverId, size: nat, i: nat)
    | Opening(id: CoverId, size: nat, src: Source)
    | Tiling(id: CoverId, size: nat, ids: seq<nat>, i: nat, tiles: seq<Source>, next: Option<Source>)
    | Decoded(id: CoverId, size: nat, image: Image)
    | Saving(size: nat, name: Name, thumb: Thumb)
    | AtRUnlock(id: CoverId, size: nat, served: Option<Name>)
    | Change(mutation: Mutation)
    | AtCommit(mutation: Mutation)
    | AtCount(album: nat, prev: Option<Hash>, keep: Option<Hash>)
    | AtDelete(album: nat, hash: Hash)
    | AtQuery(album: nat)
    | AtLock(targets: set<CoverId>)
    | Purging(targets: set<CoverId>)
    | AtEject
    | Ejecting
    | AtUnlock
    | Done

  /** A file holds what its writers put there; with one writer, or equal ones, that is one resize. */
  datatype State = State(
    lib: Library,
    rows: map<nat, Row>,
    lists: map<nat, seq<nat>>,
    blobs: set<Hash>,
    files: map<Name, set<Thumb>>,
    readers: set<Tid>,
    writer: Option<Tid>,
    pcs: map<Tid, Pc>)

  datatype Action = Spawn(t: Tid, pc: Pc) | Advance(t: Tid) | Remove(t: Tid, name: Name)

  const Formats: seq<string> := ["jpeg", "png", "gif", "bmp", "tiff"]
  const MaxTiles: nat := 4
  const MosaicSize: nat := 1000

  // The art an id has -----------------------------------------------------------

  function AlbumSource(row: Row, a: nat): Option<Source> {
    if row.override.Some? then Some(Blob(row.override.value))
    else if row.folder then Some(Folder(a))
    else None
  }

  /** A mosaic tile may also come from a track's embedded cover. */
  function TileSource(row: Row, a: nat): Option<Source> {
    if row.override.Some? then Some(Blob(row.override.value))
    else if row.folder then Some(Folder(a))
    else if row.embedded.Some? then Some(Embedded(row.embedded.value))
    else None
  }

  /** The tile album `a` contributes, if it has art that decodes. */
  function Tile(lib: Library, rows: map<nat, Row>, a: nat): seq<Source> {
    if a in rows && TileSource(rows[a], a).Some? && TileSource(rows[a], a).value in lib.tileable
    then [TileSource(rows[a], a).value] else []
  }

  /** The tiles of the first albums of a list, up to four. */
  function Tiles(lib: Library, rows: map<nat, Row>, ids: seq<nat>): (tiles: seq<Source>)
    ensures |tiles| <= MaxTiles
  {
    if ids == [] then []
    else
      var before := Tiles(lib, rows, ids[..|ids| - 1]);
      if |before| == MaxTiles then before else before + Tile(lib, rows, ids[|ids| - 1])
  }

  function ListOf(s: State, c: nat): seq<nat> {
    if c in s.lists then s.lists[c] else []
  }

  /** The art the database names for `id` now. */
  function Art(s: State, id: CoverId): Option<Image> {
    match id
    case Album(a) =>
      if a in s.rows && AlbumSource(s.rows[a], a).Some? && AlbumSource(s.rows[a], a).value in s.lib.pics
      then Some(Plain(AlbumSource(s.rows[a], a).value)) else None
    case Collection(c) =>
      var tiles := Tiles(s.lib, s.rows, ListOf(s, c));
      if tiles == [] then None else Some(Composed(tiles))
  }

  function Min(a: nat, b: nat): nat { if a < b then a else b }

  function DimOf(lib: Library, image: Image): nat {
    match image
    case Plain(src) => if src in lib.pics then lib.pics[src].dim else 0
    case Composed(tiles) =>
      if |tiles| == 1 && tiles[0] in lib.pics then Min(lib.pics[tiles[0]].dim, MosaicSize) else MosaicSize
  }

  function FormatOf(lib: Library, image: Image): string {
    match image
    case Plain(src) => if src in lib.pics then lib.pics[src].format else ""
    case Composed(_) => "jpeg"
  }

  /** A missing blob does not open, whatever its hash names. */
  predicate Readable(s: State, src: Source) {
    src.Blob? ==> src.hash in s.blobs
  }

  // What each action does to each variable -----------------------------------------

  function SaveName(s: State, id: CoverId, size: nat, image: Image): Name {
    Name(id, Min(size, DimOf(s.lib, image)), FormatOf(s.lib, image))
  }

  predicate Startable(pc: Pc) {
    pc.Get? || pc.Change? || pc.AtEject?
  }

  predicate AdvanceEnabled(s: State, t: Tid) {
    t in s.pcs &&
    match s.pcs[t]
    case Get(_, _) => s.writer.None?
    case Change(m) => m.SetCover? || m.ClearCover? ==> m.album in s.rows
    case AtCommit(m) => (m.SetCover? || m.ClearCover? ==> m.album in s.rows) && (m.Create? ==> m.coll !in s.lists)
    case AtLock(_) => s.writer.None? && s.readers == {}
    case AtEject => s.writer.None? && s.readers == {}
    case Done => false
    case _ => true
  }

  predicate Enabled(s: State, a: Action) {
    match a
    case Spawn(t, pc) => t !in s.pcs && Startable(pc)
    case Advance(t) => AdvanceEnabled(s, t)
    case Remove(t, name) => t in s.pcs && s.pcs[t].Ejecting? && name in s.files
  }

  predicate Referenced(s: State, h: Hash) {
    h in s.lib.orphans || exists a | a in s.rows :: s.rows[a].override == Some(h)
  }

  function PcAfter(s: State, a: Action): Pc
    requires Enabled(s, a)
  {
    match a
    case Spawn(t, pc) => pc
    case Advance(t) => if ReaderPc(s.pcs[t]) then ReaderAfter(s, s.pcs[t]) else MutatorAfter(s, s.pcs[t])
    case Remove(t, name) => Ejecting
  }

  predicate ReaderPc(pc: Pc) {
    pc.Get? || HoldsRead(pc)
  }

  predicate HoldsRead(pc: Pc) {
    pc.Probe? || pc.Opening? || pc.Tiling? || pc.Decoded? || pc.Saving? || pc.AtRUnlock?
  }

  function ReaderAfter(s: State, pc: Pc): Pc
    requires ReaderPc(pc)
  {
    match pc
    case Get(id, size) => Probe(id, size, 0)
    case Probe(id, size, i) =>
      if i < |Formats| then
        if Name(id, size, Formats[i]) in s.files then AtRUnlock(id, size, Some(Name(id, size, Formats[i])))
        else Probe(id, size, i + 1)
      else (
        match id
        case Album(a) =>
          if a in s.rows && AlbumSource(s.rows[a], a).Some?
          then Opening(id, size, AlbumSource(s.rows[a], a).value) else AtRUnlock(id, size, None)
        case Collection(c) => Tiling(id, size, ListOf(s, c), 0, [], None))
    case Opening(id, size, src) =>
      if Readable(s, src) && src in s.lib.pics then Decoded(id, size, Plain(src)) else AtRUnlock(id, size, None)
    case Tiling(id, size, ids, i, tiles, next) =>
      if next.Some? then
        Tiling(id, size, ids, i + 1,
               if Readable(s, next.value) && next.value in s.lib.tileable then tiles + [next.value] else tiles, None)
      else if i >= |ids| || |tiles| == MaxTiles then
        if tiles == [] then AtRUnlock(id, size, None) else Decoded(id, size, Composed(tiles))
      else if ids[i] in s.rows && TileSource(s.rows[ids[i]], ids[i]).Some? then
        Tiling(id, size, ids, i, tiles, TileSource(s.rows[ids[i]], ids[i]))
      else Tiling(id, size, ids, i + 1, tiles, None)
    case Decoded(id, size, image) =>
      var name := SaveName(s, id, size, image);
      if name.size != size && name in s.files then AtRUnlock(id, size, Some(name))
      else if name.format !in Formats then AtRUnlock(id, size, None) // no encoder for it: nothing is saved
      else Saving(size, name, Thumb(image, name.size))
    case Saving(size, name, _) => AtRUnlock(name.id, size, Some(name))
    case AtRUnlock(_, _, _) => Done
  }

  function MutatorAfter(s: State, pc: Pc): Pc
    requires !ReaderPc(pc) && !pc.Done?
    requires pc.AtCommit? && (pc.mutation.SetCover? || pc.mutation.ClearCover?) ==> pc.mutation.album in s.rows
  {
    match pc
    case Change(m) => AtCommit(m)
    case AtCommit(m) => (
      match m
      case SetCover(a, h) => AtCount(a, s.rows[a].override, Some(h))
      case ClearCover(a) => AtCount(a, s.rows[a].override, None)
      case SetList(c, _) => AtLock({Collection(c)})
      case DropList(c) => AtLock({Collection(c)})
      case Create(_, _) => Done) // nothing is purged
    case AtCount(a, prev, keep) =>
      if prev.None? || prev == keep || Referenced(s, prev.value) then AtQuery(a) else AtDelete(a, prev.value)
    case AtDelete(a, _) => AtQuery(a)
    case AtQuery(a) => AtLock({Album(a)} + set c | c in s.lists && a in s.lists[c] :: Collection(c))
    case AtLock(ids) => Purging(ids)
    case Purging(_) => AtUnlock
    case AtEject => Ejecting
    case Ejecting => AtUnlock
    case AtUnlock => Done
  }

  function RowsAfter(s: State, a: Action): map<nat, Row>
    requires Enabled(s, a)
  {
    if !a.Advance? || !s.pcs[a.t].AtCommit? then s.rows
    else match s.pcs[a.t].mutation
      case SetCover(x, h) => s.rows[x := s.rows[x].(override := Some(h))]
      case ClearCover(x) => s.rows[x := s.rows[x].(override := None)]
      case _ => s.rows
  }

  function ListsAfter(s: State, a: Action): map<nat, seq<nat>>
    requires Enabled(s, a)
  {
    if !a.Advance? || !s.pcs[a.t].AtCommit? then s.lists
    else match s.pcs[a.t].mutation
      case SetList(c, ids) => s.lists[c := Collections.Existing(s.rows, ids)]
      case DropList(c) => s.lists - {c}
      case Create(c, ids) => s.lists[c := Collections.Existing(s.rows, ids)]
      case _ => s.lists
  }

  function BlobsAfter(s: State, a: Action): set<Hash>
    requires Enabled(s, a)
  {
    if !a.Advance? then s.blobs
    else match s.pcs[a.t]
      case Change(m) => if m.SetCover? then s.blobs + {m.hash} else s.blobs
      case AtDelete(_, h) => s.blobs - {h}
      case _ => s.blobs
  }

  function FilesAfter(s: State, a: Action): map<Name, set<Thumb>>
    requires Enabled(s, a)
  {
    match a
    case Remove(_, name) => s.files - {name}
    case Spawn(_, _) => s.files
    case Advance(t) =>
      if s.pcs[t].Decoded? && ReaderAfter(s, s.pcs[t]).Saving? then
        // os.Create truncates, and the writers already in the middle of the same file go on
        var pc := ReaderAfter(s, s.pcs[t]);
        s.files[pc.name := {pc.thumb} + set u | u in s.pcs && s.pcs[u].Saving? && s.pcs[u].name == pc.name :: s.pcs[u].thumb]
      else if s.pcs[t].Purging? then
        map name | name in s.files && name.id !in s.pcs[t].targets :: s.files[name]
      else s.files
  }

  function ReadersAfter(s: State, a: Action): set<Tid>
    requires Enabled(s, a)
  {
    if !a.Advance? then s.readers
    else match s.pcs[a.t]
      case Get(_, _) => s.readers + {a.t}
      case AtRUnlock(_, _, _) => s.readers - {a.t}
      case _ => s.readers
  }

  function WriterAfter(s: State, a: Action): Option<Tid>
    requires Enabled(s, a)
  {
    if !a.Advance? then s.writer
    else match s.pcs[a.t]
      case AtLock(_) => Some(a.t)
      case AtEject => Some(a.t)
      case AtUnlock => None
      case _ => s.writer
  }

  function Step(s: State, a: Action): State
    requires Enabled(s, a)
  {
    State(s.lib, RowsAfter(s, a), ListsAfter(s, a), BlobsAfter(s, a), FilesAfter(s, a),
          ReadersAfter(s, a), WriterAfter(s, a), s.pcs[a.t := PcAfter(s, a)])
  }

  // Invariant ----------------------------------------------------------------------

  predicate HoldsWrite(pc: Pc) {
    pc.Purging? || pc.Ejecting? || pc.AtUnlock?
  }

  ghost predicate LocksOk(s: State) {
    && (forall t :: t in s.readers <==> t in s.pcs && HoldsRead(s.pcs[t]))
    && (forall t :: s.writer == Some(t) <==> t in s.pcs && HoldsWrite(s.pcs[t]))
    && (s.writer.Some? ==> s.readers == {})
  }

  /** This request has committed a change to `id`'s art and not purged it yet. */
  predicate WillPurge(s: State, pc: Pc, id: CoverId) {
    match pc
    case AtCount(a, _, _) => Touches(s, a, id)
    case AtDelete(a, _) => Touches(s, a, id)
    case AtQuery(a) => Touches(s, a, id)
    case AtLock(ids) => id in ids
    case Purging(ids) => id in ids
    case _ => false
  }

  predicate Touches(s: State, a: nat, id: CoverId) {
    match id
    case Album(b) => a == b
    case Collection(c) => a in ListOf(s, c)
  }

  ghost predicate Pending(s: State, id: CoverId) {
    exists t :: t in s.pcs && WillPurge(s, s.pcs[t], id)
  }

  /** `image` is the art of `id` now, or a purge of `id` is still to come. */
  ghost predicate Current(s: State, id: CoverId, image: Image) {
    Art(s, id) == Some(image) || Pending(s, id)
  }

  /**
   * Album files are in scope always; collection files only when `mosaics` says so, for runs that
   * never lose a blob somebody still needs.
   */
  predicate InScope(id: CoverId, mosaics: bool) {
    id.Album? || mosaics
  }

  ghost predicate ThumbOk(s: State, mosaics: bool, name: Name, thumb: Thumb) {
    && thumb.size == name.size <= DimOf(s.lib, thumb.image)
    && name.format in Formats && name.format == FormatOf(s.lib, thumb.image)
    && (InScope(name.id, mosaics) ==> Current(s, name.id, thumb.image))
  }

  /** The name is that of a resize of the art of `id` now, as far down as asked and never up. */
  ghost predicate NamesArt(s: State, mosaics: bool, id: CoverId, size: nat, name: Name) {
    && name.id == id
    && (InScope(id, mosaics) ==> Pending(s, id) || (Art(s, id).Some? && name == SaveName(s, id, size, Art(s, id).value)))
  }

  ghost predicate TilingOk(s: State, pc: Pc)
    requires pc.Tiling?
  {
    && pc.id.Collection? && pc.ids == ListOf(s, pc.id.id)
    && pc.i <= |pc.ids|
    && pc.tiles == Tiles(s.lib, s.rows, pc.ids[..pc.i])
    && (pc.next.Some? ==>
          pc.i < |pc.ids| && |pc.tiles| < MaxTiles && pc.ids[pc.i] in s.rows &&
          pc.next == TileSource(s.rows[pc.ids[pc.i]], pc.ids[pc.i]))
  }

  /** This mosaic began before the collection had a list: nothing will come of it. */
  predicate Idle(pc: Pc) {
    pc.Tiling? && pc.ids == [] && pc.tiles == [] && pc.next.None?
  }

  ghost predicate PcOk(s: State, mosaics: bool, pc: Pc) {
    match pc
    case Opening(id, size, src) => id.Album? && (src in s.lib.pics ==> Current(s, id, Plain(src)))
    case Tiling(id, size, ids, i, tiles, next) =>
      id.Collection? && (mosaics ==> TilingOk(s, pc) || Pending(s, id) || Idle(pc))
    case Decoded(id, size, image) => InScope(id, mosaics) ==> Current(s, id, image)
    case Saving(size, name, thumb) => ThumbOk(s, mosaics, name, thumb) && name in s.files && NamesArt(s, mosaics, name.id, size, name)
    case AtRUnlock(id, size, served) => served.Some? ==> served.value in s.files && NamesArt(s, mosaics, id, size, served.value)
    case AtCommit(m) => mosaics && m.SetCover? ==> m.hash in s.blobs
    case _ => true
  }

  ghost predicate FilesOk(s: State, mosaics: bool) {
    forall name, thumb | name in s.files && thumb in s.files[name] :: ThumbOk(s, mosaics, name, thumb)
  }

  /** No album row names a blob that is gone. */
  ghost predicate BlobsOk(s: State) {
    forall a | a in s.rows && s.rows[a].override.Some? :: s.rows[a].override.value in s.blobs
  }

  ghost predicate Inv(s: State, mosaics: bool) {
    && LocksOk(s)
    && FilesOk(s, mosaics)
    && (forall name | name in s.files :: s.files[name] != {})
    && (forall t | t in s.pcs :: PcOk(s, mosaics, s.pcs[t]))
    && (mosaics ==> BlobsOk(s))
  }

  /** The action does not delete a blob that a row names or that a set request is about to name. */
  ghost predicate LosesNoBlob(s: State, a: Action) {
    a.Advance? && a.t in s.pcs && s.pcs[a.t].AtDelete? ==>
      && (forall x | x in s.rows :: s.rows[x].override != Some(s.pcs[a.t].hash))
      && (forall u | u in s.pcs && s.pcs[u].AtCommit? && s.pcs[u].mutation.SetCover? ::
            s.pcs[u].mutation.hash != s.pcs[a.t].hash)
  }

  // Every action keeps the invariant -------------------------------------------------

  lemma StepReaders(s: State, a: Action)
    requires Enabled(s, a)
    requires a.t in s.readers <==> a.t in s.pcs && HoldsRead(s.pcs[a.t])
    ensures ReadersAfter(s, a) == (if HoldsRead(PcAfter(s, a)) then s.readers + {a.t} else s.readers - {a.t})
  {
  }

  lemma StepWriter(s: State, a: Action)
    requires LocksOk(s) && Enabled(s, a)
    ensures WriterAfter(s, a).Some? ==> ReadersAfter(s, a) == {}
    ensures WriterAfter(s, a) == Some(a.t) <==> HoldsWrite(PcAfter(s, a))
    ensures forall t | t != a.t :: WriterAfter(s, a) == Some(t) <==> s.writer == Some(t)
  {
  }

  lemma StepKeepsLocks(s: State, a: Action)
    requires LocksOk(s) && Enabled(s, a)
    ensures LocksOk(Step(s, a))
  {
    StepReaders(s, a);
    StepWriter(s, a);
  }

  /** The action is `a.t`'s purge of `id`. */
  predicate Purges(s: State, a: Action, id: CoverId) {
    a.Advance? && a.t in s.pcs && s.pcs[a.t].Purging? && id in s.pcs[a.t].targets
  }

  lemma OwnPending(s: State, a: Action, id: CoverId)
    requires Enabled(s, a) && a.t in s.pcs && WillPurge(s, s.pcs[a.t], id) && !Purges(s, a, id)
    ensures WillPurge(Step(s, a), PcAfter(s, a), id)
  {
  }

  lemma PendingFrame(s: State, a: Action, id: CoverId)
    requires Enabled(s, a) && Pending(s, id) && !Purges(s, a, id)
    ensures Pending(Step(s, a), id)
  {
    var s' := Step(s, a);
    var t :| t in s.pcs && WillPurge(s, s.pcs[t], id);
    assert s'.pcs[a.t] == PcAfter(s, a);
    if t == a.t {
      OwnPending(s, a, id);
    } else if WillPurge(s', s.pcs[t], id) {
      assert s'.pcs[t] == s.pcs[t];
    } else {
      // the collection's list was replaced, by a request that will purge it too
      assert WillPurge(s', s'.pcs[a.t], id);
    }
  }

  lemma TilesFrame(lib: Library, rows: map<nat, Row>, rows': map<nat, Row>, ids: seq<nat>)
    requires forall a | a in ids :: Tile(lib, rows, a) == Tile(lib, rows', a)
    ensures Tiles(lib, rows, ids) == Tiles(lib, rows', ids)
  {
  }

  /** The action gives a collection that had no list its first one. */
  predicate Creates(s: State, a: Action, id: CoverId) {
    && a.Advance? && a.t in s.pcs && s.pcs[a.t].AtCommit? && s.pcs[a.t].mutation.Create?
    && id == Collection(s.pcs[a.t].mutation.coll)
  }

  /**
   * A commit that changes what `id`'s art is leaves a purge of `id` to come, except that a collection that is
   * created had no art before.
   */
  lemma ArtFrame(s: State, a: Action, id: CoverId)
    requires Enabled(s, a)
    ensures Art(Step(s, a), id) == Art(s, id) || Pending(Step(s, a), id) || (Creates(s, a, id) && Art(s, id).None?)
  {
    var s' := Step(s, a);
    if Creates(s, a, id) {
      assert ListOf(s, id.id) == [];
    } else if !Pending(s', id) && id.Collection? {
      assert s'.pcs[a.t] == PcAfter(s, a);
      assert !WillPurge(s', s'.pcs[a.t], id);
      assert ListOf(s', id.id) == ListOf(s, id.id);
      TilesFrame(s.lib, s.rows, s'.rows, ListOf(s, id.id));
    } else if !Pending(s', id) {
      assert !WillPurge(s', s'.pcs[a.t], id);
    }
  }

  lemma CurrentFrame(s: State, a: Action, id: CoverId, image: Image)
    requires Enabled(s, a) && Current(s, id, image) && !Purges(s, a, id)
    ensures Current(Step(s, a), id, image)
  {
    ArtFrame(s, a, id);
    if Pending(s, id) { PendingFrame(s, a, id); }
  }

  lemma ThumbFrame(s: State, a: Action, mosaics: bool, name: Name, thumb: Thumb)
    requires Enabled(s, a) && ThumbOk(s, mosaics, name, thumb) && !Purges(s, a, name.id)
    ensures ThumbOk(Step(s, a), mosaics, name, thumb)
  {
    if InScope(name.id, mosaics) { CurrentFrame(s, a, name.id, thumb.image); }
  }

  /** A purge takes all of what it names and nothing else, and nobody is half way through putting it back. */
  lemma PurgeIsAlone(s: State, a: Action, id: CoverId)
    requires LocksOk(s) && Enabled(s, a) && Purges(s, a, id)
    ensures forall name :: name in FilesAfter(s, a) <==> name in s.files && name.id !in s.pcs[a.t].targets
    ensures forall name | name in FilesAfter(s, a) :: name.id != id && FilesAfter(s, a)[name] == s.files[name]
    ensures forall t | t in s.pcs :: !HoldsRead(s.pcs[t])
  {
  }

  lemma StepKeepsFiles(s: State, a: Action, mosaics: bool, name: Name, thumb: Thumb)
    requires Inv(s, mosaics) && Enabled(s, a)
    requires name in FilesAfter(s, a) && thumb in FilesAfter(s, a)[name]
    ensures ThumbOk(Step(s, a), mosaics, name, thumb)
  {
    if Purges(s, a, name.id) {
      PurgeIsAlone(s, a, name.id);
    } else {
      OldOrSaved(s, a, mosaics, name, thumb);
      ThumbFrame(s, a, mosaics, name, thumb);
    }
  }

  lemma StepLeavesNoneEmpty(s: State, a: Action, name: Name)
    requires Enabled(s, a) && name in FilesAfter(s, a) && forall n | n in s.files :: s.files[n] != {}
    ensures FilesAfter(s, a)[name] != {}
  {
  }

  lemma OldOrSaved(s: State, a: Action, mosaics: bool, name: Name, thumb: Thumb)
    requires Inv(s, mosaics) && Enabled(s, a)
    requires name in FilesAfter(s, a) && thumb in FilesAfter(s, a)[name]
    ensures ThumbOk(s, mosaics, name, thumb)
  {
  }

  lemma OtherPcOk(s: State, a: Action, mosaics: bool, u: Tid)
    requires Inv(s, mosaics) && Enabled(s, a) && u in s.pcs && u != a.t
    requires mosaics ==> LosesNoBlob(s, a)
    ensures PcOk(Step(s, a), mosaics, s.pcs[u])
  {
    var s', pc := Step(s, a), s.pcs[u];
    match pc
    case Opening(id, size, src) =>
      if src in s.lib.pics { NotPurged(s, a, u, id); CurrentFrame(s, a, id, Plain(src)); }
    case Tiling(id, size, ids, i, tiles, next) =>
      NotPurged(s, a, u, id);
      if mosaics { TilingFrame(s, a, pc); }
    case Decoded(id, size, image) =>
      NotPurged(s, a, u, id);
      if InScope(id, mosaics) { CurrentFrame(s, a, id, image); }
    case Saving(size, name, thumb) =>
      NotPurged(s, a, u, name.id);
      ThumbFrame(s, a, mosaics, name, thumb);
      ReaderKeepsFile(s, a, u, name);
      NameFrame(s, a, mosaics, name.id, size, name);
    case AtRUnlock(id, size, served) =>
      if served.Some? {
        NotPurged(s, a, u, id);
        ReaderKeepsFile(s, a, u, served.value);
        NameFrame(s, a, mosaics, id, size, served.value);
      }
    case _ =>
  }

  lemma NotPurged(s: State, a: Action, u: Tid, id: CoverId)
    requires LocksOk(s) && Enabled(s, a) && u in s.pcs && HoldsRead(s.pcs[u])
    ensures !Purges(s, a, id)
  {
  }

  lemma ReaderKeepsFile(s: State, a: Action, u: Tid, name: Name)
    requires LocksOk(s) && Enabled(s, a) && u in s.pcs && HoldsRead(s.pcs[u]) && name in s.files
    ensures name in FilesAfter(s, a)
  {
  }

  lemma NameFrame(s: State, a: Action, mosaics: bool, id: CoverId, size: nat, name: Name)
    requires Enabled(s, a) && NamesArt(s, mosaics, id, size, name) && !Purges(s, a, id)
    ensures NamesArt(Step(s, a), mosaics, id, size, name)
  {
    if InScope(id, mosaics) {
      ArtFrame(s, a, id);
      if Pending(s, id) { PendingFrame(s, a, id); }
    }
  }

  lemma TilingFrame(s: State, a: Action, pc: Pc)
    requires Enabled(s, a) && pc.Tiling? && pc.id.Collection? && !Purges(s, a, pc.id)
    requires TilingOk(s, pc) || Pending(s, pc.id) || Idle(pc)
    ensures TilingOk(Step(s, a), pc) || Pending(Step(s, a), pc.id) || Idle(pc)
  {
    var s' := Step(s, a);
    if Pending(s, pc.id) {
      PendingFrame(s, a, pc.id);
    } else if Creates(s, a, pc.id) {
      assert TilingOk(s, pc) ==> pc.ids == [] && pc.tiles == [];
    } else if !Pending(s', pc.id) && !Idle(pc) {
      assert s'.pcs[a.t] == PcAfter(s, a);
      assert !WillPurge(s', s'.pcs[a.t], pc.id);
      assert ListOf(s', pc.id.id) == ListOf(s, pc.id.id);
      TilesFrame(s.lib, s.rows, s'.rows, pc.ids[..pc.i]);
    }
  }

  lemma TilesSnoc(lib: Library, rows: map<nat, Row>, ids: seq<nat>, i: nat)
    requires i < |ids|
    ensures var before := Tiles(lib, rows, ids[..i]);
            Tiles(lib, rows, ids[..i + 1]) == if |before| == MaxTiles then before else before + Tile(lib, rows, ids[i])
  {
    assert ids[..i + 1][..i] == ids[..i];
  }

  lemma {:induction false} TilesStop(lib: Library, rows: map<nat, Row>, ids: seq<nat>, i: nat)
    requires i <= |ids| && |Tiles(lib, rows, ids[..i])| == MaxTiles
    ensures Tiles(lib, rows, ids) == Tiles(lib, rows, ids[..i])
    decreases |ids| - i
  {
    if i == |ids| {
      assert ids[..i] == ids;
    } else {
      TilesSnoc(lib, rows, ids, i);
      TilesStop(lib, rows, ids, i + 1);
    }
  }

  /** Picking the next tile, or stopping. */
  lemma PickTile(s: State, pc: Pc)
    requires pc.Tiling? && TilingOk(s, pc) && pc.next.None?
    ensures var pc' := ReaderAfter(s, pc);
            || (pc'.AtRUnlock? && pc'.served.None? && Tiles(s.lib, s.rows, pc.ids) == [])
            || (pc'.Tiling? && pc'.id == pc.id && pc'.ids == pc.ids && TilingOk(s, pc'))
            || (pc'.Decoded? && pc'.id == pc.id && pc'.image == Composed(Tiles(s.lib, s.rows, pc.ids)) && pc'.image.tiles != [])
  {
    if pc.i < |pc.ids| {
      TilesSnoc(s.lib, s.rows, pc.ids, pc.i);
    } else {
      assert pc.ids[..pc.i] == pc.ids;
    }
    if |pc.tiles| == MaxTiles {
      TilesStop(s.lib, s.rows, pc.ids, pc.i);
    }
  }

  /** Reading the tile that was picked. */
  lemma ReadTile(s: State, pc: Pc)
    requires pc.Tiling? && TilingOk(s, pc) && pc.next.Some? && Readable(s, pc.next.value)
    ensures var pc' := ReaderAfter(s, pc); pc'.Tiling? && pc'.id == pc.id && pc'.ids == pc.ids && TilingOk(s, pc')
  {
    hide AlbumSource;
    TilesSnoc(s.lib, s.rows, pc.ids, pc.i);
    var tiles' := if pc.next.value in s.lib.tileable then pc.tiles + [pc.next.value] else pc.tiles;
    assert ReaderAfter(s, pc) == Tiling(pc.id, pc.size, pc.ids, pc.i + 1, tiles', None);
  }

  /** A step of the tile loop, when nothing has changed under it. */
  lemma TilingStep(s: State, pc: Pc)
    requires pc.Tiling? && TilingOk(s, pc) && BlobsOk(s)
    ensures var pc' := ReaderAfter(s, pc);
            || (pc'.AtRUnlock? && pc'.served.None?)
            || (pc'.Tiling? && pc'.id == pc.id && TilingOk(s, pc'))
            || (pc'.Decoded? && pc'.id == pc.id && Art(s, pc.id) == Some(pc'.image))
  {
    hide ReaderAfter, Tiles;
    if pc.next.Some? { ReadTile(s, pc); } else { PickTile(s, pc); }
  }

  /** A file that is there is named after the art it shows. */
  lemma FileIsNamed(s: State, mosaics: bool, name: Name)
    requires FilesOk(s, mosaics) && name in s.files && s.files[name] != {}
    ensures NamesArt(s, mosaics, name.id, name.size, name)
  {
    var thumb :| thumb in s.files[name];
    assert ThumbOk(s, mosaics, name, thumb);
  }

  /** What is right for a request that is about to save. */
  ghost predicate NextOk(s: State, mosaics: bool, pc: Pc) {
    if pc.Saving? then ThumbOk(s, mosaics, pc.name, pc.thumb) && NamesArt(s, mosaics, pc.name.id, pc.size, pc.name)
    else PcOk(s, mosaics, pc)
  }

  /** Where a reader goes next is right for the state it read. */
  lemma ReaderReadsRight(s: State, mosaics: bool, pc: Pc)
    requires ReaderPc(pc) && PcOk(s, mosaics, pc) && FilesOk(s, mosaics) && (mosaics ==> BlobsOk(s))
    requires forall name | name in s.files :: s.files[name] != {}
    ensures NextOk(s, mosaics, ReaderAfter(s, pc))
  {
    hide FilesOk, Tiles, Pending;
    match pc
    case Tiling(id, size, ids, i, tiles, next) =>
      if mosaics && !Pending(s, id) && !Idle(pc) { TilingStep(s, pc); }
    case Probe(id, size, i) =>
      if i < |Formats| {
        if Name(id, size, Formats[i]) in s.files { FileIsNamed(s, mosaics, Name(id, size, Formats[i])); }
      } else if id.Collection? {
        assert ListOf(s, id.id)[..0] == [];
        NoTilesYet(s.lib, s.rows);
      }
    case _ =>
  }

  lemma NoTilesYet(lib: Library, rows: map<nat, Row>)
    ensures Tiles(lib, rows, []) == []
  {
  }

  lemma OwnPcOk(s: State, a: Action, mosaics: bool)
    requires Inv(s, mosaics) && Enabled(s, a)
    requires mosaics ==> LosesNoBlob(s, a)
    ensures PcOk(Step(s, a), mosaics, PcAfter(s, a))
  {
    if a.Advance? && ReaderPc(s.pcs[a.t]) {
      assert PcOk(s, mosaics, s.pcs[a.t]);
      ReaderReadsRight(s, mosaics, s.pcs[a.t]);
      ReaderSavesOrKeeps(s, a);
      OwnReaderFrame(s, a, mosaics);
    }
  }

  lemma ReaderSavesOrKeeps(s: State, a: Action)
    requires Enabled(s, a) && a.Advance? && ReaderPc(s.pcs[a.t])
    ensures forall name | name in s.files :: name in FilesAfter(s, a)
    ensures PcAfter(s, a).Saving? ==> PcAfter(s, a).name in FilesAfter(s, a)
  {
  }

  lemma OwnReaderFrame(s: State, a: Action, mosaics: bool)
    requires Enabled(s, a) && a.Advance? && ReaderPc(s.pcs[a.t]) && NextOk(s, mosaics, PcAfter(s, a))
    requires forall name | name in s.files :: name in FilesAfter(s, a)
    requires PcAfter(s, a).Saving? ==> PcAfter(s, a).name in FilesAfter(s, a)
    ensures PcOk(Step(s, a), mosaics, PcAfter(s, a))
  {
    hide NamesArt, Current;
    match PcAfter(s, a)
    case Opening(id, size, src) => if src in s.lib.pics { CurrentFrame(s, a, id, Plain(src)); }
    case Tiling(id, size, ids, i, tiles, next) => if mosaics { TilingFrame(s, a, PcAfter(s, a)); }
    case Decoded(id, size, image) => if InScope(id, mosaics) { CurrentFrame(s, a, id, image); }
    case Saving(size, name, thumb) =>
      ThumbFrame(s, a, mosaics, name, thumb);
      NameFrame(s, a, mosaics, name.id, size, name);
    case AtRUnlock(id, size, served) => if served.Some? { NameFrame(s, a, mosaics, id, size, served.value); }
    case _ =>
  }

  lemma StepKeepsBlobs(s: State, a: Action)
    requires Inv(s, true) && Enabled(s, a) && LosesNoBlob(s, a)
    ensures BlobsOk(Step(s, a))
  {
  }

  lemma StepKeepsInv(s: State, a: Action, mosaics: bool)
    requires Inv(s, mosaics) && Enabled(s, a)
    requires mosaics ==> LosesNoBlob(s, a)
    ensures Inv(Step(s, a), mosaics)
  {
    var s' := Step(s, a);
    StepKeepsLocks(s, a);
    forall name, thumb | name in s'.files && thumb in s'.files[name] ensures ThumbOk(s', mosaics, name, thumb) {
      StepKeepsFiles(s, a, mosaics, name, thumb);
    }
    forall name | name in s'.files ensures s'.files[name] != {} {
      StepLeavesNoneEmpty(s, a, name);
    }
    forall t | t in s'.pcs ensures PcOk(s', mosaics, s'.pcs[t]) {
      if t == a.t { OwnPcOk(s, a, mosaics); } else { OtherPcOk(s, a, mosaics, t); }
    }
    if mosaics { StepKeepsBlobs(s, a); }
  }

  // Whole runs -------------------------------------------------------------------------

  /** No request yet, an empty cache, and every blob that a row names in the store. */
  ghost predicate Initial(s: State) {
    && s.files == map[] && s.readers == {} && s.writer.None? && s.pcs == map[]
    && BlobsOk(s)
  }

  ghost predicate IsRun(run: seq<State>, actions: seq<Action>) {
    && |run| == |actions| + 1
    && Initial(run[0])
    && forall i | 0 <= i < |actions| :: Enabled(run[i], actions[i]) && run[i + 1] == Step(run[i], actions[i])
  }

  ghost predicate LosesNoBlobs(run: seq<State>, actions: seq<Action>)
    requires |run| == |actions| + 1
  {
    forall i | 0 <= i < |actions| :: LosesNoBlob(run[i], actions[i])
  }

  lemma {:induction false} RunKeepsInv(run: seq<State>, actions: seq<Action>, i: nat, mosaics: bool)
    requires IsRun(run, actions) && i < |run| && (mosaics ==> LosesNoBlobs(run, actions))
    ensures Inv(run[i], mosaics)
  {
    if i > 0 {
      RunKeepsInv(run, actions, i - 1, mosaics);
      StepKeepsInv(run[i - 1], actions[i - 1], mosaics);
    }
  }

  /** No request is between its commit and the end of its purge. */
  ghost predicate Quiet(s: State) {
    forall t, id | t in s.pcs :: !WillPurge(s, s.pcs[t], id)
  }

  /** The file is a resize of the art the database names for its id, under the name that art has. */
  ghost predicate Fresh(s: State, name: Name) {
    && name in s.files && Art(s, name.id).Some?
    && name.format == FormatOf(s.lib, Art(s, name.id).value)
    && forall thumb | thumb in s.files[name] :: thumb == Thumb(Art(s, name.id).value, name.size)
  }

  /** Album covers are never stale in any run. */
  lemma AlbumCoversAreFresh(run: seq<State>, actions: seq<Action>, i: nat, name: Name)
    requires IsRun(run, actions) && i < |run| && Quiet(run[i])
    requires name in run[i].files && name.id.Album?
    ensures Fresh(run[i], name)
  {
    RunKeepsInv(run, actions, i, false);
    var thumb :| thumb in run[i].files[name];
    assert ThumbOk(run[i], false, name, thumb);
  }

  /** Nor are mosaics, in any run that loses no blob. */
  lemma CoversAreFresh(run: seq<State>, actions: seq<Action>, i: nat, name: Name)
    requires IsRun(run, actions) && i < |run| && Quiet(run[i]) && LosesNoBlobs(run, actions)
    requires name in run[i].files
    ensures Fresh(run[i], name)
  {
    RunKeepsInv(run, actions, i, true);
    var thumb :| thumb in run[i].files[name];
    assert ThumbOk(run[i], true, name, thumb);
  }
}
