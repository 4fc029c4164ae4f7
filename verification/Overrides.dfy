/** Setting and clearing an album's cover override, and the reference counting of stored covers. */
module Overrides {
  import opened Library
  import opened Options

  predicate Referenced(overrides: map<Triple, Ref<Art>>, hash: string) {
    exists k :: k in overrides && overrides[k].data.hash == hash
  }

  /** What is left of the blobs once `prev` has been dropped, unless it is kept or still referenced. */
  function Dropped(overrides: map<Triple, Ref<Art>>, blobs: set<Art>, prev: Art, keep: string): set<Art> {
    if prev.hash == "" || prev.hash == keep || Referenced(overrides, prev.hash) then blobs else blobs - {prev}
  }

  function Prev(overrides: map<Triple, Ref<Art>>, path: Triple): Art {
    if path in overrides then overrides[path].data else NoArt
  }

  function AfterSet(t: Tables, a: nat, art: Art): Tables
    requires a in t.albums
  {
    var path := t.albums[a].path;
    var overrides := t.overrides[path := Ref(Some(a), path, art)];
    t.(overrides := overrides,
       albums := t.albums[a := t.albums[a].(art := art)],
       blobs := Dropped(overrides, t.blobs, Prev(t.overrides, path), art.hash))
  }

  function AfterClear(t: Tables, a: nat): Tables
    requires a in t.albums
  {
    var path := t.albums[a].path;
    if path !in t.overrides then t
    else
      var overrides := t.overrides - {path};
      t.(overrides := overrides,
         albums := t.albums[a := t.albums[a].(art := NoArt)],
         blobs := Dropped(overrides, t.blobs, t.overrides[path].data, ""))
  }

  method DropUnreferencedCover(db: Db, prev: Art, keep: string)
    modifies db`blobs
    ensures db.blobs == Dropped(db.overrides.rows, old(db.blobs), prev, keep)
  {
    if prev.hash == "" || prev.hash == keep {
      return;
    }
    var rows := set k | k in db.overrides.rows && db.overrides.rows[k].data.hash == prev.hash;
    if |rows| > 0 {
      var k :| k in rows;
      return;
    }
    assert forall k | k in db.overrides.rows :: k !in rows;
    db.blobs := db.blobs - {prev};
  }

  method SetAlbumCoverOverride(db: Db, a: nat, art: Art)
    requires a in db.albums
    modifies db, db.overrides
    ensures db.View() == AfterSet(old(db.View()), a, art)
  {
    var path := db.albums[a].path;
    var prev := if path in db.overrides.rows then db.overrides.rows[path].data else NoArt;
    db.overrides.rows := db.overrides.rows[path := Ref(Some(a), path, art)];
    db.albums := db.albums[a := db.albums[a].(art := art)];
    DropUnreferencedCover(db, prev, art.hash);
  }

  method ClearAlbumCoverOverride(db: Db, a: nat)
    requires a in db.albums
    modifies db, db.overrides
    ensures db.View() == AfterClear(old(db.View()), a)
  {
    var path := db.albums[a].path;
    if path !in db.overrides.rows {
      return;
    }
    var prev := db.overrides.rows[path].data;
    db.overrides.rows := db.overrides.rows - {path};
    db.albums := db.albums[a := db.albums[a].(art := NoArt)];
    DropUnreferencedCover(db, prev, "");
  }
}
