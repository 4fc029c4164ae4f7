/**
 * Re-resolving album references after a scan: the two UPDATE statements of healAlbumRefs and the
 * two of SyncAlbumCoverOverrides, row by row in an arbitrary order.
 */
module Heal {
  import opened Library
  import opened Options

  /** The partial unique index on album_id: two rows never link to one album. */
  ghost predicate UniqueLinks<K(!new), T(!new)>(rows: map<K, Ref<T>>) {
    forall j, k | j in rows && k in rows && rows[j].album.Some? && rows[j].album == rows[k].album :: j == k
  }

  /** The unique index on the snapshotted triple, which only the override table has. */
  ghost predicate UniqueSnapshots<K(!new), T(!new)>(rows: map<K, Ref<T>>) {
    forall j, k | j in rows && k in rows && rows[j].path == rows[k].path :: j == k
  }

  /** Every row links to exactly the album at its path, if there is one. */
  ghost predicate Linked<K(!new), T(!new)>(albums: map<nat, Album>, rows: map<K, Ref<T>>) {
    forall k | k in rows :: rows[k].album == Lookup(albums, rows[k].path)
  }

  ghost function Healed<K(!new), T(!new)>(albums: map<nat, Album>, rows: map<K, Ref<T>>): (healed: map<K, Ref<T>>) {
    map k | k in rows :: rows[k].(album := Lookup(albums, rows[k].path))
  }

  predicate Stale<T>(albums: map<nat, Album>, row: Ref<T>) {
    row.album.Some? && !(row.album.value in albums && albums[row.album.value].path == row.path)
  }

  function Orphan<T>(albums: map<nat, Album>, row: Ref<T>): Ref<T> {
    if Stale(albums, row) then row.(album := None) else row
  }

  /** Rows that the first statement leaves unlinked, or links rightly. */
  ghost predicate NoneStale<K(!new), T(!new)>(albums: map<nat, Album>, rows: map<K, Ref<T>>) {
    forall k | k in rows :: !Stale(albums, rows[k])
  }

  lemma UniqueOnceOrphaned<K(!new), T(!new)>(albums: map<nat, Album>, rows: map<K, Ref<T>>)
    requires NoneStale(albums, rows) && UniqueSnapshots(rows)
    ensures UniqueLinks(rows)
  {
  }

  /** The first UPDATE: rows whose album_id no longer names the album they snapshotted lose it. */
  method OrphanStale<K(!new, ==), T(!new)>(albums: map<nat, Album>, table: Table<K, T>)
    modifies table
    ensures table.rows == map k | k in old(table.rows) :: Orphan(albums, old(table.rows)[k])
  {
    ghost var before := table.rows;
    var todo := table.rows.Keys;
    while todo != {}
      invariant table.rows.Keys == before.Keys && todo <= before.Keys
      invariant forall k | k in before :: table.rows[k] == if k in todo then before[k] else Orphan(albums, before[k])
      invariant UniqueLinks(before) ==> UniqueLinks(table.rows)
    {
      var k :| k in todo;
      todo := todo - {k};
      if Stale(albums, table.rows[k]) {
        table.rows := table.rows[k := table.rows[k].(album := None)];
      }
    }
  }

  /** The subquery: the id of the album at `path`. */
  method SelectAlbum(albums: map<nat, Album>, path: Triple) returns (id: Option<nat>)
    requires UniquePaths(albums)
    ensures id == Lookup(albums, path)
  {
    id := None;
    if a :| a in albums && albums[a].path == path {
      id := Some(a);
    }
  }

  /** Where the second UPDATE stands: the rows of `todo` are as they were, and the others are healed. */
  ghost predicate Relinking<K(!new), T(!new)>(albums: map<nat, Album>, before: map<K, Ref<T>>, rows: map<K, Ref<T>>, todo: set<K>) {
    && rows.Keys == before.Keys
    && forall k | k in before :: rows[k] == if k in todo then before[k] else before[k].(album := Lookup(albums, before[k].path))
  }

  lemma RelinkingIsSound<K(!new), T(!new)>(albums: map<nat, Album>, before: map<K, Ref<T>>, rows: map<K, Ref<T>>, todo: set<K>)
    requires NoneStale(albums, before) && Relinking(albums, before, rows, todo)
    ensures NoneStale(albums, rows) && (UniqueSnapshots(before) ==> UniqueLinks(rows))
  {
    if UniqueSnapshots(before) { UniqueOnceOrphaned(albums, rows); }
  }

  lemma RelinkOne<K(!new), T(!new)>(albums: map<nat, Album>, before: map<K, Ref<T>>, rows: map<K, Ref<T>>, todo: set<K>, k: K)
    requires UniquePaths(albums) && NoneStale(albums, before) && Relinking(albums, before, rows, todo) && k in todo && k in before
    ensures var rows' := if rows[k].album.None? then rows[k := rows[k].(album := Lookup(albums, rows[k].path))] else rows;
            Relinking(albums, before, rows', todo - {k})
  {
    if before[k].album.Some? { LookupFinds(albums, before[k].album.value); }
  }

  /**
   * The second UPDATE: unlinked rows get the album at their path, if it exists. After every single row
   * the partial unique index holds, whatever the order.
   */
  method Relink<K(!new, ==), T(!new)>(albums: map<nat, Album>, table: Table<K, T>) returns (relinked: set<K>)
    requires UniquePaths(albums) && NoneStale(albums, table.rows)
    modifies table
    ensures table.rows == Healed(albums, old(table.rows))
    ensures relinked == set k | k in old(table.rows) && old(table.rows)[k].album.None? && table.rows[k].album.Some?
  {
    hide UniquePaths, NoneStale, UniqueSnapshots, UniqueLinks;
    ghost var before := table.rows;
    var todo := table.rows.Keys;
    relinked := {};
    RelinkingIsSound(albums, before, table.rows, todo);
    while todo != {}
      invariant todo <= before.Keys && relinked <= before.Keys && Relinking(albums, before, table.rows, todo)
      invariant UniqueSnapshots(before) ==> UniqueLinks(table.rows)
      invariant forall k | k in before :: k in relinked <==> k !in todo && before[k].album.None? && Lookup(albums, before[k].path).Some?
    {
      var k :| k in todo;
      RelinkOne(albums, before, table.rows, todo, k);
      todo := todo - {k};
      var row := table.rows[k];
      if row.album.None? {
        var id := SelectAlbum(albums, row.path);
        if id.Some? {
          table.rows := table.rows[k := row.(album := id)];
          relinked := relinked + {k};
        } else {
          assert table.rows[k := row.(album := id)] == table.rows;
        }
      }
      RelinkingIsSound(albums, before, table.rows, todo);
    }
  }

  lemma HealedAfterOrphan<K(!new), T(!new)>(albums: map<nat, Album>, rows: map<K, Ref<T>>)
    ensures var orphaned := map k | k in rows :: Orphan(albums, rows[k]);
            NoneStale(albums, orphaned) && Healed(albums, orphaned) == Healed(albums, rows)
  {
  }

  /** Whatever the links were, healing makes each one the lookup of its row's path, and only that. */
  method HealAlbumRefs<K(!new, ==), T(!new)>(albums: map<nat, Album>, table: Table<K, T>) returns (relinked: nat)
    requires UniquePaths(albums)
    modifies table
    ensures table.rows == Healed(albums, old(table.rows))
    ensures relinked == |set k | k in old(table.rows) && table.rows[k].album.Some? && table.rows[k] != old(table.rows)[k]|
  {
    ghost var before := table.rows;
    OrphanStale(albums, table);
    HealedAfterOrphan(albums, before);
    var rows := Relink(albums, table);
    relinked := |rows|;
    assert rows == set k | k in before && table.rows[k].album.Some? && table.rows[k] != before[k] by {
      RelinkedRows(albums, before);
    }
  }

  lemma RelinkedRows<K(!new), T(!new)>(albums: map<nat, Album>, before: map<K, Ref<T>>)
    requires UniquePaths(albums)
    ensures forall k | k in before ::
              var linked := before[k].(album := Lookup(albums, before[k].path));
              linked.album.Some? && Orphan(albums, before[k]).album.None? <==> linked.album.Some? && linked != before[k]
  {
  }

  // Publishing overrides onto the album rows ------------------------------------------

  /** The override linked to album `a`: SELECT ... FROM album_cover_overrides o WHERE o.album_id=a. */
  ghost function OverrideOf(overrides: map<Triple, Ref<Art>>, a: nat): Option<Art> {
    if k :| k in overrides && overrides[k].album == Some(a) then Some(overrides[k].data) else None
  }

  lemma OverrideOfFinds(overrides: map<Triple, Ref<Art>>, k: Triple)
    requires UniqueLinks(overrides) && k in overrides && overrides[k].album.Some?
    ensures OverrideOf(overrides, overrides[k].album.value) == Some(overrides[k].data)
  {
  }

  /** What an album's override columns should hold: the override linked to it, or nothing. */
  ghost function Published(overrides: map<Triple, Ref<Art>>, a: nat): Art {
    if OverrideOf(overrides, a).Some? then OverrideOf(overrides, a).value else NoArt
  }

  ghost predicate InSync(albums: map<nat, Album>, overrides: map<Triple, Ref<Art>>) {
    forall a | a in albums :: albums[a].art == Published(overrides, a)
  }

  /** What the two UPDATE statements leave. The second clears only rows whose hash is not blank. */
  ghost function SyncedArt(overrides: map<Triple, Ref<Art>>, a: nat, art: Art): Art {
    if OverrideOf(overrides, a).Some? then OverrideOf(overrides, a).value
    else if art.hash != "" then NoArt
    else art
  }

  ghost function Synced(albums: map<nat, Album>, overrides: map<Triple, Ref<Art>>): map<nat, Album> {
    map a | a in albums :: albums[a].(art := SyncedArt(overrides, a, albums[a].art))
  }

  method SelectOverride(overrides: map<Triple, Ref<Art>>, a: nat) returns (art: Option<Art>)
    requires UniqueLinks(overrides)
    ensures art == OverrideOf(overrides, a)
  {
    art := None;
    if k :| k in overrides && overrides[k].album == Some(a) {
      OverrideOfFinds(overrides, k);
      art := Some(overrides[k].data);
    }
  }

  method SyncAlbumCoverOverrides(db: Db)
    requires UniqueLinks(db.overrides.rows)
    modifies db`albums
    ensures db.albums == Synced(old(db.albums), db.overrides.rows)
  {
    ghost var before := db.albums;
    ghost var overrides := db.overrides.rows;
    var todo := db.albums.Keys;
    while todo != {}
      invariant db.albums.Keys == before.Keys && todo <= before.Keys && db.overrides.rows == overrides
      invariant forall a | a in before ::
                  db.albums[a] == if a in todo then before[a] else before[a].(art := SyncedArt(overrides, a, before[a].art))
    {
      var a :| a in todo;
      todo := todo - {a};
      var art := SelectOverride(db.overrides.rows, a);
      if art.Some? {
        db.albums := db.albums[a := db.albums[a].(art := art.value)];
      } else if db.albums[a].art.hash != "" {
        db.albums := db.albums[a := db.albums[a].(art := NoArt)];
      }
    }
  }

  /** Syncing publishes exactly the join, unless some album has an extension and no hash to clear it by. */
  lemma SyncedIsInSync(albums: map<nat, Album>, overrides: map<Triple, Ref<Art>>)
    ensures InSync(Synced(albums, overrides), overrides) <==>
            !exists a :: a in albums && OverrideOf(overrides, a).None? && albums[a].art.hash == "" && albums[a].art.ext != ""
  {
    forall a | a in albums && OverrideOf(overrides, a).None? && albums[a].art.hash == "" && albums[a].art.ext != ""
      ensures !InSync(Synced(albums, overrides), overrides)
    {
      assert Synced(albums, overrides)[a].art != Published(overrides, a);
    }
  }

  /** Orphan, relink and publish, as the end of a scan runs them. */
  method HealAlbumCoverOverrides(db: Db) returns (relinked: nat)
    requires UniquePaths(db.albums) && UniqueSnapshots(db.overrides.rows)
    modifies db`albums, db.overrides
    ensures db.overrides.rows == Healed(old(db.albums), old(db.overrides.rows))
    ensures db.albums == Synced(old(db.albums), db.overrides.rows)
  {
    ghost var before, albums := db.overrides.rows, db.albums;
    relinked := HealAlbumRefs(db.albums, db.overrides);
    HealedLinks(albums, before);
    SyncAlbumCoverOverrides(db);
  }

  method HealCollectionAlbums(db: Db) returns (relinked: nat)
    requires UniquePaths(db.albums)
    modifies db.entries
    ensures db.entries.rows == Healed(db.albums, old(db.entries.rows))
  {
    relinked := HealAlbumRefs(db.albums, db.entries);
  }

  /** Healing again changes nothing, and after it the links are unique wherever the snapshots are. */
  lemma HealedLinks<K(!new), T(!new)>(albums: map<nat, Album>, rows: map<K, Ref<T>>)
    ensures Linked(albums, Healed(albums, rows))
    ensures Healed(albums, Healed(albums, rows)) == Healed(albums, rows)
    ensures UniqueSnapshots(rows) ==> UniqueLinks(Healed(albums, rows))
  {
  }

  /** An intermediate state of the relinking UPDATE: some rows done, the others as the first statement left them. */
  ghost function Midway<K(!new), T(!new)>(albums: map<nat, Album>, rows: map<K, Ref<T>>, done: set<K>): map<K, Ref<T>> {
    map k | k in rows :: if k in done then rows[k].(album := Lookup(albums, rows[k].path)) else Orphan(albums, rows[k])
  }

  lemma MidwayIsNotStale<K(!new), T(!new)>(albums: map<nat, Album>, rows: map<K, Ref<T>>, done: set<K>)
    ensures NoneStale(albums, Midway(albums, rows, done))
  {
  }

  /** No intermediate state, whichever rows are done first, breaks the partial unique index. */
  lemma NoRowOrderBreaksTheIndex<K(!new), T(!new)>(albums: map<nat, Album>, rows: map<K, Ref<T>>, done: set<K>)
    requires UniqueSnapshots(rows)
    ensures UniqueLinks(Midway(albums, rows, done))
  {
  }
}
