/**
 * Album identity over whole runs. Album rows are deleted and recreated under new ids by scans, yet the
 * tables behave as a map from folder path to cover and a list of folder paths per collection.
 */
module Identity {
  import opened Library
  import opened Options
  import opened Heal
  import opened Overrides
  import opened Collections

  /** The durable content of the tables: no ids. */
  datatype Model = Model(covers: map<Triple, Art>, lists: map<nat, seq<Triple>>)

  datatype Op =
    | Set(album: nat, art: Art)
    | Clear(album: nat)
    | SetList(coll: nat, ids: seq<nat>)
    | DropList(coll: nat)
    | Rescan(albums: map<nat, Album>)

  /** ON DELETE SET NULL: links to rows that are gone. */
  function Unlinked<K(!new), T(!new)>(albums: map<nat, Album>, rows: map<K, Ref<T>>): map<K, Ref<T>> {
    map k | k in rows ::
      if rows[k].album.Some? && rows[k].album.value !in albums then rows[k].(album := None) else rows[k]
  }

  /** The end of a scan that left `albums` in the album table. */
  ghost function AfterRescan(t: Tables, albums: map<nat, Album>): Tables {
    var overrides := Healed(albums, Unlinked(albums, t.overrides));
    t.(albums := Synced(albums, overrides),
       overrides := overrides,
       entries := Healed(albums, Unlinked(albums, t.entries)))
  }

  ghost function Apply(t: Tables, op: Op): Tables {
    match op
    case Set(a, art) => if a in t.albums then AfterSet(t.(blobs := t.blobs + {art}), a, art) else t
    case Clear(a) => if a in t.albums then AfterClear(t, a) else t
    case SetList(coll, ids) => AfterSetAlbums(t, coll, ids)
    case DropList(coll) => t.(entries := Without(t.entries, coll)) // ON DELETE CASCADE
    case Rescan(albums) => AfterRescan(t, albums)
  }

  /** What the operation means for the paths, given which album has which path at the time. */
  function Meaning(m: Model, albums: map<nat, Album>, op: Op): Model {
    match op
    case Set(a, art) => if a in albums then m.(covers := m.covers[albums[a].path := art]) else m
    case Clear(a) => if a in albums then m.(covers := m.covers - {albums[a].path}) else m
    case SetList(coll, ids) => m.(lists := m.lists[coll := PathsOf(albums, Existing(albums, ids))])
    case DropList(coll) => m.(lists := m.lists - {coll})
    case Rescan(_) => m
  }

  function PathsOf(albums: map<nat, Album>, ids: seq<nat>): seq<Triple>
    requires forall id | id in ids :: id in albums
  {
    seq(|ids|, i requires 0 <= i < |ids| => albums[ids[i]].path)
  }

  /** One hash is one blob. */
  predicate Addressed(blobs: set<Art>) {
    forall b, c | b in blobs && c in blobs && b.hash == c.hash :: b == c
  }

  /**
   * A stored cover has a hash, and its hash fixes the rest. A scan keeps the path and the override
   * columns of the rows it keeps, never reuses an id, and starts its new rows with no override.
   */
  ghost predicate OpOk(t: Tables, op: Op) {
    match op
    case Set(_, art) => art.hash != "" && Addressed(t.blobs + {art})
    case Rescan(albums) =>
      && UniquePaths(albums)
      && forall a | a in albums ::
           if a in t.albums then albums[a].path == t.albums[a].path && albums[a].art == t.albums[a].art
           else albums[a].art == NoArt
    case _ => true
  }

  /** The override table is the map from path to cover. */
  ghost predicate CoversRefine(overrides: map<Triple, Ref<Art>>, covers: map<Triple, Art>) {
    && overrides.Keys == covers.Keys
    && forall p | p in overrides :: overrides[p].path == p && overrides[p].data == covers[p]
  }

  /** The entry table is, per collection, the list of paths at positions 0, 1, 2, ... */
  ghost predicate ListsRefine(entries: map<Slot, Ref<()>>, lists: map<nat, seq<Triple>>) {
    && (forall k: Slot :: k in entries <==> k.coll in lists && k.position < |lists[k.coll]|)
    && forall k | k in entries :: entries[k].path == lists[k.coll][k.position]
  }

  function Cover(covers: map<Triple, Art>, path: Triple): Art {
    if path in covers then covers[path] else NoArt
  }

  ghost predicate ColumnsOk(albums: map<nat, Album>, covers: map<Triple, Art>) {
    forall a | a in albums :: albums[a].art == Cover(covers, albums[a].path)
  }

  ghost predicate InUse(covers: map<Triple, Art>, art: Art) {
    exists p :: p in covers && covers[p] == art
  }

  /** The cover store holds the covers in use, and nothing else. */
  ghost predicate BlobsOk(blobs: set<Art>, covers: map<Triple, Art>) {
    && (forall b :: b in blobs <==> InUse(covers, b))
    && Addressed(blobs) && forall b | b in blobs :: b.hash != ""
  }

  ghost predicate Inv(t: Tables, m: Model) {
    && UniquePaths(t.albums)
    && CoversRefine(t.overrides, m.covers) && Linked(t.albums, t.overrides)
    && ListsRefine(t.entries, m.lists) && Linked(t.albums, t.entries)
    && ColumnsOk(t.albums, m.covers)
    && BlobsOk(t.blobs, m.covers)
  }

  // Setting and clearing ----------------------------------------------------------------

  /** The same ids at the same paths. */
  ghost predicate SamePaths(albums: map<nat, Album>, albums': map<nat, Album>) {
    albums.Keys == albums'.Keys && forall a | a in albums :: albums'[a].path == albums[a].path
  }

  lemma SameLinks<K(!new), T(!new)>(albums: map<nat, Album>, albums': map<nat, Album>, rows: map<K, Ref<T>>)
    requires UniquePaths(albums) && SamePaths(albums, albums') && Linked(albums, rows)
    ensures Linked(albums', rows)
  {
  }

  lemma InUseWithout(covers: map<Triple, Art>, path: Triple, art: Art, b: Art)
    ensures InUse(covers[path := art], b) <==> b == art || InUse(covers - {path}, b)
    ensures InUse(covers, b) <==> InUse(covers - {path}, b) || (path in covers && covers[path] == b)
  {
    var m, rest := covers[path := art], covers - {path};
    assert m[path] == art;
    if InUse(m, b) {
      var p :| p in m && m[p] == b;
      assert p == path || (p in rest && rest[p] == b);
    }
    if InUse(covers, b) {
      var p :| p in covers && covers[p] == b;
      assert p == path || (p in rest && rest[p] == b);
    }
    if InUse(rest, b) {
      var p :| p in rest && rest[p] == b;
      assert p in m && m[p] == b && p in covers && covers[p] == b;
    }
  }

  /** Dropping the replaced cover leaves exactly the covers still in use. */
  lemma DroppedIsExact(overrides: map<Triple, Ref<Art>>, covers: map<Triple, Art>, blobs: set<Art>, prev: Art, keep: string)
    requires CoversRefine(overrides, covers)
    requires Addressed(blobs) && forall b | b in blobs :: b.hash != ""
    requires forall b :: b in blobs <==> InUse(covers, b) || (b == prev && prev.hash != "")
    requires keep == "" || Referenced(overrides, keep)
    ensures BlobsOk(Dropped(overrides, blobs, prev, keep), covers)
  {
  }

  lemma SetKeepsBlobs(overrides: map<Triple, Ref<Art>>, covers: map<Triple, Art>, blobs: set<Art>, path: Triple, row: Ref<Art>)
    requires CoversRefine(overrides, covers) && BlobsOk(blobs, covers) && row.path == path
    requires row.data.hash != "" && Addressed(blobs + {row.data})
    ensures BlobsOk(Dropped(overrides[path := row], blobs + {row.data}, Prev(overrides, path), row.data.hash),
                    covers[path := row.data])
  {
    var overrides', covers' := overrides[path := row], covers[path := row.data];
    forall b ensures b in blobs + {row.data} <==> InUse(covers', b) || (b == Prev(overrides, path) && b.hash != "") {
      InUseWithout(covers, path, row.data, b);
    }
    assert path in overrides' && overrides'[path].data.hash == row.data.hash;
    DroppedIsExact(overrides', covers', blobs + {row.data}, Prev(overrides, path), row.data.hash);
  }

  lemma ClearKeepsBlobs(overrides: map<Triple, Ref<Art>>, covers: map<Triple, Art>, blobs: set<Art>, path: Triple)
    requires CoversRefine(overrides, covers) && BlobsOk(blobs, covers) && path in overrides
    ensures BlobsOk(Dropped(overrides - {path}, blobs, overrides[path].data, ""), covers - {path})
  {
    forall b ensures b in blobs <==> InUse(covers - {path}, b) || (b == overrides[path].data && b.hash != "") {
      InUseWithout(covers, path, NoArt, b);
    }
    DroppedIsExact(overrides - {path}, covers - {path}, blobs, overrides[path].data, "");
  }

  lemma SetKeepsLinks(albums: map<nat, Album>, overrides: map<Triple, Ref<Art>>, a: nat, art: Art)
    requires UniquePaths(albums) && Linked(albums, overrides) && a in albums
    ensures Linked(albums, overrides[albums[a].path := Ref(Some(a), albums[a].path, art)])
    ensures Linked(albums, overrides - {albums[a].path})
  {
  }

  lemma ColumnsKeepLinks<K(!new), T(!new)>(albums: map<nat, Album>, a: nat, art: Art, rows: map<K, Ref<T>>)
    requires UniquePaths(albums) && Linked(albums, rows) && a in albums
    ensures Linked(albums[a := albums[a].(art := art)], rows)
  {
    SameLinks(albums, albums[a := albums[a].(art := art)], rows);
  }

  lemma SetKeepsCovers(overrides: map<Triple, Ref<Art>>, covers: map<Triple, Art>, path: Triple, row: Ref<Art>)
    requires CoversRefine(overrides, covers) && row.path == path
    ensures CoversRefine(overrides[path := row], covers[path := row.data])
    ensures CoversRefine(overrides - {path}, covers - {path})
  {
  }

  /** Only the album at the changed path sees the change. */
  lemma SetKeepsColumns(albums: map<nat, Album>, covers: map<Triple, Art>, a: nat, covers': map<Triple, Art>, art: Art)
    requires UniquePaths(albums) && ColumnsOk(albums, covers) && a in albums
    requires covers' == covers[albums[a].path := art] || (covers' == covers - {albums[a].path} && art == NoArt)
    ensures ColumnsOk(albums[a := albums[a].(art := art)], covers')
    ensures UniquePaths(albums[a := albums[a].(art := art)])
  {
  }

  lemma SetKeepsInv(t: Tables, m: Model, a: nat, art: Art)
    requires Inv(t, m) && OpOk(t, Set(a, art)) && a in t.albums
    ensures Inv(Apply(t, Set(a, art)), m.(covers := m.covers[t.albums[a].path := art]))
  {
    var path := t.albums[a].path;
    var row := Ref(Some(a), path, art);
    SetKeepsColumns(t.albums, m.covers, a, m.covers[path := art], art);
    SetKeepsCovers(t.overrides, m.covers, path, row);
    SetKeepsLinks(t.albums, t.overrides, a, art);
    ColumnsKeepLinks(t.albums, a, art, t.overrides[path := row]);
    ColumnsKeepLinks(t.albums, a, art, t.entries);
    SetKeepsBlobs(t.overrides, m.covers, t.blobs, path, row);
  }

  lemma ClearKeepsInv(t: Tables, m: Model, a: nat)
    requires Inv(t, m) && a in t.albums
    ensures Inv(AfterClear(t, a), m.(covers := m.covers - {t.albums[a].path}))
  {
    var path := t.albums[a].path;
    if path in t.overrides {
      SetKeepsColumns(t.albums, m.covers, a, m.covers - {path}, NoArt);
      SetKeepsCovers(t.overrides, m.covers, path, t.overrides[path]);
      SetKeepsLinks(t.albums, t.overrides, a, NoArt);
      ColumnsKeepLinks(t.albums, a, NoArt, t.overrides - {path});
      ColumnsKeepLinks(t.albums, a, NoArt, t.entries);
      ClearKeepsBlobs(t.overrides, m.covers, t.blobs, path);
    } else {
      assert m.covers - {path} == m.covers;
    }
  }

  // Replacing a list ----------------------------------------------------------------------

  lemma RowsAre(albums: map<nat, Album>, entries: map<Slot, Ref<()>>, coll: nat, ids: seq<nat>)
    requires forall id | id in ids :: id in albums
    ensures var entries' := Without(entries, coll) + Rows(albums, coll, ids);
            && (forall k: Slot :: k in entries' <==> if k.coll == coll then k.position < |ids| else k in entries)
            && forall k | k in entries' :: entries'[k].path == if k.coll == coll then albums[ids[k.position]].path else entries[k].path
  {
  }

  lemma SetListKeepsLists(albums: map<nat, Album>, entries: map<Slot, Ref<()>>, lists: map<nat, seq<Triple>>, coll: nat, ids: seq<nat>)
    requires UniquePaths(albums) && ListsRefine(entries, lists) && forall id | id in ids :: id in albums
    ensures ListsRefine(Without(entries, coll) + Rows(albums, coll, ids), lists[coll := PathsOf(albums, ids)])
  {
    var entries', lists' := Without(entries, coll) + Rows(albums, coll, ids), lists[coll := PathsOf(albums, ids)];
    RowsAre(albums, entries, coll, ids);
    hide Without, Rows;
    forall k: Slot ensures k in entries' <==> k.coll in lists' && k.position < |lists'[k.coll]| {
    }
    forall k | k in entries' ensures entries'[k].path == lists'[k.coll][k.position] {
    }
  }

  lemma SetListKeepsLinks(albums: map<nat, Album>, entries: map<Slot, Ref<()>>, coll: nat, ids: seq<nat>)
    requires UniquePaths(albums) && Linked(albums, entries) && forall id | id in ids :: id in albums
    ensures Linked(albums, Without(entries, coll) + Rows(albums, coll, ids))
  {
  }

  lemma SetListKeepsInv(t: Tables, m: Model, coll: nat, ids: seq<nat>)
    requires Inv(t, m)
    ensures Inv(AfterSetAlbums(t, coll, ids),
                m.(lists := m.lists[coll := PathsOf(t.albums, Existing(t.albums, ids))]))
  {
    var found := Existing(t.albums, ids);
    SetListKeepsLists(t.albums, t.entries, m.lists, coll, found);
    SetListKeepsLinks(t.albums, t.entries, coll, found);
  }

  lemma DropListKeepsInv(t: Tables, m: Model, coll: nat)
    requires Inv(t, m)
    ensures Inv(t.(entries := Without(t.entries, coll)), m.(lists := m.lists - {coll}))
  {
  }

  // Rescanning ------------------------------------------------------------------------------

  /** Before the healing no row links to an album that is gone, and no other row has changed. */
  lemma DeletesUnlink<K(!new), T(!new)>(albums: map<nat, Album>, rows: map<K, Ref<T>>)
    ensures var unlinked := Unlinked(albums, rows);
            && unlinked.Keys == rows.Keys
            && (forall k | k in rows :: unlinked[k].path == rows[k].path && unlinked[k].data == rows[k].data)
            && (forall k | k in rows && unlinked[k].album.Some? :: unlinked[k].album == rows[k].album && unlinked[k].album.value in albums)
            && forall k | k in rows && rows[k].album.Some? && rows[k].album.value in albums :: unlinked[k] == rows[k]
  {
  }

  lemma HealedAnyway<K(!new), T(!new)>(albums: map<nat, Album>, rows: map<K, Ref<T>>)
    ensures Healed(albums, Unlinked(albums, rows)) == Healed(albums, rows)
  {
  }

  lemma HealKeepsCovers(albums: map<nat, Album>, overrides: map<Triple, Ref<Art>>, covers: map<Triple, Art>)
    requires CoversRefine(overrides, covers)
    ensures CoversRefine(Healed(albums, overrides), covers)
  {
  }

  lemma HealKeepsLists(albums: map<nat, Album>, entries: map<Slot, Ref<()>>, lists: map<nat, seq<Triple>>)
    requires ListsRefine(entries, lists)
    ensures ListsRefine(Healed(albums, entries), lists)
  {
  }

  lemma SyncPublishes(albums: map<nat, Album>, overrides: map<Triple, Ref<Art>>, covers: map<Triple, Art>, before: map<nat, Album>)
    requires UniquePaths(albums) && CoversRefine(overrides, covers) && Linked(albums, overrides)
    requires ColumnsOk(before, covers) && forall p | p in covers :: covers[p].hash != ""
    requires forall a | a in albums ::
               if a in before then albums[a].path == before[a].path && albums[a].art == before[a].art else albums[a].art == NoArt
    ensures ColumnsOk(Synced(albums, overrides), covers)
  {
  }

  lemma SyncKeepsLinks<K(!new), T(!new)>(albums: map<nat, Album>, overrides: map<Triple, Ref<Art>>, rows: map<K, Ref<T>>)
    requires UniquePaths(albums) && Linked(albums, rows)
    ensures Linked(Synced(albums, overrides), rows) && UniquePaths(Synced(albums, overrides))
  {
    SameLinks(albums, Synced(albums, overrides), rows);
  }

  lemma CoversHaveHashes(blobs: set<Art>, covers: map<Triple, Art>)
    requires BlobsOk(blobs, covers)
    ensures forall p | p in covers :: covers[p].hash != ""
  {
  }

  lemma RescanKeepsInv(t: Tables, m: Model, albums: map<nat, Album>)
    requires Inv(t, m) && OpOk(t, Rescan(albums))
    ensures Inv(AfterRescan(t, albums), m)
  {
    HealedAnyway(albums, t.overrides);
    HealedAnyway(albums, t.entries);
    var overrides, entries := Healed(albums, t.overrides), Healed(albums, t.entries);
    HealedLinks(albums, t.overrides);
    HealedLinks(albums, t.entries);
    HealKeepsCovers(albums, t.overrides, m.covers);
    HealKeepsLists(albums, t.entries, m.lists);
    CoversHaveHashes(t.blobs, m.covers);
    SyncPublishes(albums, overrides, m.covers, t.albums);
    SyncKeepsLinks(albums, overrides, overrides);
    SyncKeepsLinks(albums, overrides, entries);
  }

  lemma ApplyKeepsInv(t: Tables, m: Model, op: Op)
    requires Inv(t, m) && OpOk(t, op)
    ensures Inv(Apply(t, op), Meaning(m, t.albums, op))
  {
    match op
    case Set(a, art) => if a in t.albums { SetKeepsInv(t, m, a, art); }
    case Clear(a) => if a in t.albums { ClearKeepsInv(t, m, a); }
    case SetList(coll, ids) => SetListKeepsInv(t, m, coll, ids);
    case DropList(coll) => DropListKeepsInv(t, m, coll);
    case Rescan(albums) => RescanKeepsInv(t, m, albums);
  }

  // Whole runs ---------------------------------------------------------------------------------

  const Empty := Tables(map[], map[], map[], {})

  /** The tables after some operations on an empty database, and what the operations meant. */
  ghost function After(ops: seq<Op>): (Tables, Model) {
    if ops == [] then (Empty, Model(map[], map[]))
    else
      var (t, m) := After(ops[..|ops| - 1]);
      (Apply(t, ops[|ops| - 1]), Meaning(m, t.albums, ops[|ops| - 1]))
  }

  ghost predicate RunOk(ops: seq<Op>) {
    forall i | 0 <= i < |ops| :: OpOk(After(ops[..i]).0, ops[i])
  }

  lemma {:induction false} RunKeepsInv(ops: seq<Op>)
    requires RunOk(ops)
    ensures Inv(After(ops).0, After(ops).1)
  {
    if ops != [] {
      var n := |ops| - 1;
      forall i | 0 <= i < n ensures OpOk(After(ops[..n][..i]).0, ops[..n][i]) {
        assert ops[..n][..i] == ops[..i];
      }
      RunKeepsInv(ops[..n]);
      assert OpOk(After(ops[..n]).0, ops[n]);
      ApplyKeepsInv(After(ops[..n]).0, After(ops[..n]).1, ops[n]);
    }
  }

  /** The albums at the given paths, in order, leaving out the paths that have none. */
  ghost function Resolve(albums: map<nat, Album>, paths: seq<Triple>): seq<nat> {
    if paths == [] then []
    else
      var before := Resolve(albums, paths[..|paths| - 1]);
      var id := Lookup(albums, paths[|paths| - 1]);
      if id.Some? then before + [id.value] else before
  }

  lemma {:induction false} LinkedIdsResolve(t: Tables, m: Model, coll: nat, n: nat)
    requires Inv(t, m) && coll in m.lists && n <= |m.lists[coll]|
    ensures LinkedIds(t.entries, coll, n) == Resolve(t.albums, m.lists[coll][..n])
  {
    if n > 0 {
      LinkedIdsResolve(t, m, coll, n - 1);
      assert m.lists[coll][..n][..n - 1] == m.lists[coll][..n - 1];
      assert Slot(coll, n - 1) in t.entries;
    }
  }

  /**
   * After any run: the override columns of every album row are the map at its path, AlbumIDs is the
   * stored list of paths restricted to the folders that exist, the cover store holds exactly the covers
   * in the map, and the partial unique index on the override links holds.
   */
  lemma TablesAreTheModel(ops: seq<Op>, coll: nat, n: nat)
    requires RunOk(ops)
    ensures var (t, m) := After(ops);
      && (forall a | a in t.albums :: t.albums[a].art == Cover(m.covers, t.albums[a].path))
      && (AllBelow(t.entries, coll, n) ==>
            LinkedIds(t.entries, coll, n) == Resolve(t.albums, if coll in m.lists then m.lists[coll] else []))
      && (forall b :: b in t.blobs <==> InUse(m.covers, b))
      && UniqueLinks(t.overrides)
  {
    RunKeepsInv(ops);
    var (t, m) := After(ops);
    if AllBelow(t.entries, coll, n) {
      var len := if coll in m.lists then |m.lists[coll]| else 0;
      assert AllBelow(t.entries, coll, len);
      assert len > 0 ==> Slot(coll, len - 1) in t.entries;
      LinkedIdsBound(t.entries, coll, len, n);
      if coll in m.lists {
        LinkedIdsResolve(t, m, coll, len);
        assert m.lists[coll][..len] == m.lists[coll];
      }
    }
    UniqueOnceOrphaned(t.albums, t.overrides);
  }
}
