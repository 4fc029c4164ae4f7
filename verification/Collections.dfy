/** A collection's ordered album list: replacing it and reading it back. */
module Collections {
  import opened Library
  import opened Options

  /** The requested ids that resolve, in order. */
  function Existing<T>(rows: map<nat, T>, ids: seq<nat>): (found: seq<nat>)
    ensures forall id | id in found :: id in rows
  {
    if ids == [] then []
    else
      var before := Existing(rows, ids[..|ids| - 1]);
      if ids[|ids| - 1] in rows then before + [ids[|ids| - 1]] else before
  }

  /** These are the positions of the ids that are kept: all those with a row, in their order, repeated ones included. */
  ghost predicate KeptAt<T>(rows: map<nat, T>, ids: seq<nat>, kept: seq<nat>, ks: seq<nat>) {
    && |ks| == |kept| && (forall j | 0 <= j < |ks| :: ks[j] < |ids| && ids[ks[j]] == kept[j])
    && (forall j, l | 0 <= j < l < |ks| :: ks[j] < ks[l])
    && (forall x | 0 <= x < |ids| :: x in ks <==> ids[x] in rows)
  }

  lemma KeptMore<T>(rows: map<nat, T>, ids: seq<nat>, kept: seq<nat>, ks: seq<nat>, id: nat)
    requires KeptAt(rows, ids, kept, ks)
    ensures if id in rows then KeptAt(rows, ids + [id], kept + [id], ks + [|ids|]) else KeptAt(rows, ids + [id], kept, ks)
  {
    var ks' := ks + [|ids|];
    assert ks'[|ks|] == |ids| && forall k | k in ks' :: k in ks || k == |ids|;
    assert forall k | k in ks :: k in ks';
  }

  lemma {:induction false} ExistingIsKept<T>(rows: map<nat, T>, ids: seq<nat>) returns (ks: seq<nat>)
    ensures KeptAt(rows, ids, Existing(rows, ids), ks)
  {
    ks := [];
    if ids != [] {
      var init, id := ids[..|ids| - 1], ids[|ids| - 1];
      ks := ExistingIsKept(rows, init);
      KeptMore(rows, init, Existing(rows, init), ks, id);
      assert ids == init + [id];
      if id in rows { ks := ks + [|init|]; }
    }
  }

  /** One row per position, each with a snapshot of its album's path. */
  function Rows(albums: map<nat, Album>, coll: nat, ids: seq<nat>): map<Slot, Ref<()>>
    requires forall id | id in ids :: id in albums
  {
    map i | 0 <= i < |ids| :: Slot(coll, i) := Ref(Some(ids[i]), albums[ids[i]].path, ())
  }

  lemma RowsSnoc(albums: map<nat, Album>, coll: nat, ids: seq<nat>, id: nat)
    requires id in albums && forall x | x in ids :: x in albums
    ensures Rows(albums, coll, ids + [id]) == Rows(albums, coll, ids)[Slot(coll, |ids|) := Ref(Some(id), albums[id].path, ())]
  {
  }

  lemma SavedRow(kept: map<Slot, Ref<()>>, albums: map<nat, Album>, coll: nat, ids: seq<nat>, id: nat)
    requires id in albums && forall x | x in ids :: x in albums
    ensures (kept + Rows(albums, coll, ids))[Slot(coll, |ids|) := Ref(Some(id), albums[id].path, ())] ==
            kept + Rows(albums, coll, ids + [id])
  {
    RowsSnoc(albums, coll, ids, id);
    hide Rows;
  }

  function Without(entries: map<Slot, Ref<()>>, coll: nat): map<Slot, Ref<()>> {
    map k | k in entries && k.coll != coll :: entries[k]
  }

  function AfterSetAlbums(t: Tables, coll: nat, ids: seq<nat>): Tables {
    t.(entries := Without(t.entries, coll) + Rows(t.albums, coll, Existing(t.albums, ids)))
  }

  lemma ExistingMore<T>(rows: map<nat, T>, ids: seq<nat>, i: nat)
    requires i < |ids|
    ensures Existing(rows, ids[..i + 1]) == Existing(rows, ids[..i]) + if ids[i] in rows then [ids[i]] else []
  {
    assert ids[..i + 1][..i] == ids[..i];
  }

  method SetAlbums(db: Db, coll: nat, ids: seq<nat>)
    modifies db.entries
    ensures db.View() == AfterSetAlbums(old(db.View()), coll, ids)
  {
    db.entries.rows := map k | k in db.entries.rows && k.coll != coll :: db.entries.rows[k];
    ghost var kept := db.entries.rows;
    ghost var found: seq<nat> := [];
    assert Rows(db.albums, coll, []) == map[] && Existing(db.albums, ids[..0]) == [];
    hide Rows, Existing;
    var position := 0;
    for i := 0 to |ids|
      invariant found == Existing(db.albums, ids[..i]) && position == |found|
      invariant db.entries.rows == kept + Rows(db.albums, coll, found)
    {
      ExistingMore(db.albums, ids, i);
      if ids[i] in db.albums {
        var album := db.albums[ids[i]];
        db.entries.rows := db.entries.rows[Slot(coll, position) := Ref(Some(ids[i]), album.path, ())];
        SavedRow(kept, db.albums, coll, found, ids[i]);
        found := found + [ids[i]];
        position := position + 1;
      }
    }
    assert ids[..|ids|] == ids;
  }

  /** The linked album ids at the first `n` positions, in position order. */
  function LinkedIds(entries: map<Slot, Ref<()>>, coll: nat, n: nat): seq<nat> {
    if n == 0 then []
    else
      var before := LinkedIds(entries, coll, n - 1);
      if Slot(coll, n - 1) in entries && entries[Slot(coll, n - 1)].album.Some?
      then before + [entries[Slot(coll, n - 1)].album.value] else before
  }

  predicate AllBelow(entries: map<Slot, Ref<()>>, coll: nat, n: nat) {
    forall k | k in entries && k.coll == coll :: k.position < n
  }

  lemma {:induction false} LinkedIdsBound(entries: map<Slot, Ref<()>>, coll: nat, n: nat, m: nat)
    requires AllBelow(entries, coll, n) && n <= m
    ensures LinkedIds(entries, coll, m) == LinkedIds(entries, coll, n)
  {
    if n < m { LinkedIdsBound(entries, coll, n, m - 1); }
  }

  /** SELECT ... WHERE album_id IS NOT NULL ORDER BY position. */
  method AlbumIDs(db: Db, coll: nat) returns (ids: seq<nat>)
    ensures forall n: nat | AllBelow(db.entries.rows, coll, n) :: ids == LinkedIds(db.entries.rows, coll, n)
  {
    var end: nat := 0;
    var todo := db.entries.rows.Keys;
    while todo != {}
      invariant forall k | k in db.entries.rows && k !in todo && k.coll == coll :: k.position < end
    {
      var k :| k in todo;
      todo := todo - {k};
      if k.coll == coll && end <= k.position {
        end := k.position + 1;
      }
    }
    ids := [];
    for i := 0 to end
      invariant ids == LinkedIds(db.entries.rows, coll, i)
    {
      var k := Slot(coll, i);
      if k in db.entries.rows && db.entries.rows[k].album.Some? {
        ids := ids + [db.entries.rows[k].album.value];
      }
    }
    forall n: nat | AllBelow(db.entries.rows, coll, n) ensures ids == LinkedIds(db.entries.rows, coll, n) {
      if end <= n {
        LinkedIdsBound(db.entries.rows, coll, end, n);
      } else {
        LinkedIdsBound(db.entries.rows, coll, n, end);
      }
    }
  }
}
