/** A collection expanded to its tracks: one join and one sort over the entries and the tracks. */
module CollectionTracks {
  import opened Library
  import opened Options
  import opened Collections

  datatype Song = Song(album: nat, disc: Option<int>, number: Option<int>, filename: string, length: int)

  /** A row of the join: a track, at the position of one of the entries of its album. */
  datatype Row = Row(position: nat, track: nat)

  predicate Joined(entries: map<Slot, Ref<()>>, songs: map<nat, Song>, coll: nat, row: Row) {
    var k := Slot(coll, row.position);
    k in entries && entries[k].album.Some? && row.track in songs && songs[row.track].album == entries[k].album.value
  }

  // Order ----------------------------------------------------------------------------------

  /** Binary string comparison. */
  predicate StringLess(a: string, b: string) {
    if a == "" || b == "" then a == "" && b != ""
    else a[0] < b[0] || (a[0] == b[0] && StringLess(a[1..], b[1..]))
  }

  lemma {:induction false} StringOrder(a: string, b: string)
    ensures !(StringLess(a, b) && StringLess(b, a))
    ensures StringLess(a, b) || StringLess(b, a) <==> a != b
  {
    if a != "" && b != "" && a[0] == b[0] {
      StringOrder(a[1..], b[1..]);
      assert [a[0]] + a[1..] == a && [b[0]] + b[1..] == b;
    }
  }

  function Coalesce(n: Option<int>): int {
    if n.Some? then n.value else 0
  }

  /** By disc, track number and filename. */
  predicate SongLess(a: Song, b: Song) {
    if Coalesce(a.disc) != Coalesce(b.disc) then Coalesce(a.disc) < Coalesce(b.disc)
    else if Coalesce(a.number) != Coalesce(b.number) then Coalesce(a.number) < Coalesce(b.number)
    else StringLess(a.filename, b.filename)
  }

  predicate RowLess(songs: map<nat, Song>, a: Row, b: Row)
    requires a.track in songs && b.track in songs
  {
    if a.position != b.position then a.position < b.position else SongLess(songs[a.track], songs[b.track])
  }

  /** The unique index on (album, filename). */
  ghost predicate UniqueSongs(songs: map<nat, Song>) {
    forall t, u | t in songs && u in songs && songs[t].album == songs[u].album && songs[t].filename == songs[u].filename :: t == u
  }

  ghost predicate EachOnce<T(!new)>(s: seq<T>) {
    forall i, j | 0 <= i < j < |s| :: s[i] != s[j]
  }

  /** Some enumeration of the join. */
  ghost predicate IsJoin(entries: map<Slot, Ref<()>>, songs: map<nat, Song>, coll: nat, rows: seq<Row>) {
    EachOnce(rows) && forall row :: row in rows <==> Joined(entries, songs, coll, row)
  }

  /** The rows of the join as ORDER BY may give them: no row before one that it comes after. */
  ghost predicate IsSortedJoin(entries: map<Slot, Ref<()>>, songs: map<nat, Song>, coll: nat, rows: seq<Row>) {
    && IsJoin(entries, songs, coll, rows)
    && (forall row | row in rows :: row.track in songs)
    && forall i, j | 0 <= i < j < |rows| :: !RowLess(songs, rows[j], rows[i])
  }

  /** An album's own tracks in their order. */
  ghost predicate IsListing(songs: map<nat, Song>, album: nat, list: seq<nat>) {
    && (forall t :: t in list <==> t in songs && songs[t].album == album)
    && forall i, j | 0 <= i < j < |list| :: SongLess(songs[list[i]], songs[list[j]])
  }

  /** One comes before the other in the order of bytes: it is the start of it, or has the smaller one where they part. */
  lemma {:induction false} StringLessIs(a: string, b: string)
    ensures StringLess(a, b) <==> exists n: nat :: n <= |a| && n < |b| && a[..n] == b[..n] && (n == |a| || a[n] < b[n])
  {
    if a == "" || b == "" {
      if b != "" { assert a[..0] == b[..0]; }
    } else if a[0] != b[0] {
      assert a[..0] == b[..0];
      forall n: nat | 0 < n <= |a| && n < |b| ensures a[..n] != b[..n] {
        assert a[..n][0] == a[0] && b[..n][0] == b[0];
      }
    } else {
      var x, y := a[1..], b[1..];
      StringLessIs(x, y);
      if n: nat :| n <= |x| && n < |y| && x[..n] == y[..n] && (n == |x| || x[n] < y[n]) {
        assert a[..n + 1] == [a[0]] + x[..n] && b[..n + 1] == [b[0]] + y[..n];
        assert n + 1 <= |a| && n + 1 < |b| && a[..n + 1] == b[..n + 1] && (n + 1 == |a| || a[n + 1] < b[n + 1]);
      }
      if n: nat :| n <= |a| && n < |b| && a[..n] == b[..n] && (n == |a| || a[n] < b[n]) {
        assert n > 0 && x[..n - 1] == a[..n][1..] && y[..n - 1] == b[..n][1..];
        assert n - 1 <= |x| && n - 1 < |y| && x[..n - 1] == y[..n - 1] && (n - 1 == |x| || x[n - 1] < y[n - 1]);
      }
    }
  }

  /**
   * In the sorted join an earlier row is at an earlier entry, or at the same with a smaller disc number, or the same and
   * a smaller track number, or the same and a filename that is not greater; a number that is missing counts as 0.
   */
  lemma SortedIsOrdered(entries: map<Slot, Ref<()>>, songs: map<nat, Song>, coll: nat, rows: seq<Row>, i: nat, j: nat)
    requires IsSortedJoin(entries, songs, coll, rows) && i < j < |rows|
    ensures rows[i].track in songs && rows[j].track in songs && rows[i].position <= rows[j].position
    ensures rows[i].position == rows[j].position ==>
              var a, b := songs[rows[i].track], songs[rows[j].track];
              var (discA, discB) := (if a.disc.Some? then a.disc.value else 0, if b.disc.Some? then b.disc.value else 0);
              var (numA, numB) := (if a.number.Some? then a.number.value else 0, if b.number.Some? then b.number.value else 0);
              discA < discB || (discA == discB && (numA < numB || (numA == numB && !StringLess(b.filename, a.filename))))
  {
  }

  // The expansion ----------------------------------------------------------------------------

  /** The listings of the albums, one after the other. */
  function Concat(listings: map<nat, seq<nat>>, ids: seq<nat>): seq<nat> {
    if ids == [] then []
    else Concat(listings, ids[..|ids| - 1]) + (if ids[|ids| - 1] in listings then listings[ids[|ids| - 1]] else [])
  }

  function Tracks(rows: seq<Row>): (tracks: seq<nat>)
    ensures |tracks| == |rows| && forall i | 0 <= i < |rows| :: tracks[i] == rows[i].track
  {
    seq(|rows|, i requires 0 <= i < |rows| => rows[i].track)
  }

  function At(position: nat, list: seq<nat>): (rows: seq<Row>)
    ensures |rows| == |list| && forall i | 0 <= i < |list| :: rows[i] == Row(position, list[i])
  {
    seq(|list|, i requires 0 <= i < |list| => Row(position, list[i]))
  }

  /** The rows of the entries at the first `n` positions, album by album. */
  function Placed(entries: map<Slot, Ref<()>>, listings: map<nat, seq<nat>>, coll: nat, n: nat): seq<Row> {
    if n == 0 then []
    else
      var k := Slot(coll, n - 1);
      Placed(entries, listings, coll, n - 1) +
      if k in entries && entries[k].album.Some? && entries[k].album.value in listings then At(n - 1, listings[entries[k].album.value]) else []
  }

  /** Listings for all the albums that the collection links to. */
  ghost predicate Listings(entries: map<Slot, Ref<()>>, songs: map<nat, Song>, listings: map<nat, seq<nat>>) {
    && (forall a | a in listings :: IsListing(songs, a, listings[a]))
    && forall k | k in entries && entries[k].album.Some? :: entries[k].album.value in listings
  }

  lemma {:induction false} PlacedTracks(entries: map<Slot, Ref<()>>, listings: map<nat, seq<nat>>, coll: nat, n: nat)
    ensures Tracks(Placed(entries, listings, coll, n)) == Concat(listings, LinkedIds(entries, coll, n))
  {
    if n > 0 {
      PlacedTracks(entries, listings, coll, n - 1);
      var k := Slot(coll, n - 1);
      if k in entries && entries[k].album.Some? {
        var before := LinkedIds(entries, coll, n - 1);
        assert (before + [entries[k].album.value])[..|before|] == before;
      }
    }
  }

  lemma {:induction false} PlacedAreJoined(entries: map<Slot, Ref<()>>, songs: map<nat, Song>, listings: map<nat, seq<nat>>, coll: nat, n: nat, row: Row)
    requires Listings(entries, songs, listings)
    ensures row in Placed(entries, listings, coll, n) <==> row.position < n && Joined(entries, songs, coll, row)
  {
    if n > 0 {
      PlacedAreJoined(entries, songs, listings, coll, n - 1, row);
      var k := Slot(coll, n - 1);
      if k in entries && entries[k].album.Some? {
        InAt(n - 1, listings[entries[k].album.value], row);
        assert IsListing(songs, entries[k].album.value, listings[entries[k].album.value]);
      }
    }
  }

  lemma InAt(position: nat, list: seq<nat>, row: Row)
    ensures row in At(position, list) <==> row.position == position && row.track in list
  {
  }

  ghost predicate Increasing(songs: map<nat, Song>, rows: seq<Row>) {
    && (forall row | row in rows :: row.track in songs)
    && forall i, j | 0 <= i < j < |rows| :: RowLess(songs, rows[i], rows[j])
  }

  lemma {:induction false} PlacedIncrease(entries: map<Slot, Ref<()>>, songs: map<nat, Song>, listings: map<nat, seq<nat>>, coll: nat, n: nat)
    requires Listings(entries, songs, listings)
    ensures Increasing(songs, Placed(entries, listings, coll, n))
    ensures forall row | row in Placed(entries, listings, coll, n) :: row.position < n
  {
    if n > 0 {
      PlacedIncrease(entries, songs, listings, coll, n - 1);
      var k := Slot(coll, n - 1);
      if k in entries && entries[k].album.Some? {
        var a := entries[k].album.value;
        assert IsListing(songs, a, listings[a]);
        AtIncreases(songs, a, n - 1, listings[a]);
        IncreasingConcat(songs, Placed(entries, listings, coll, n - 1), At(n - 1, listings[a]));
      }
    }
  }

  lemma AtIncreases(songs: map<nat, Song>, a: nat, position: nat, list: seq<nat>)
    requires IsListing(songs, a, list)
    ensures Increasing(songs, At(position, list)) && forall row | row in At(position, list) :: row.position == position
  {
  }

  lemma IncreasingConcat(songs: map<nat, Song>, a: seq<Row>, b: seq<Row>)
    requires Increasing(songs, a) && Increasing(songs, b)
    requires forall r, s | r in a && s in b :: r.position < s.position
    ensures Increasing(songs, a + b)
  {
  }

  // There is one sorted join ---------------------------------------------------------------------

  lemma SongsCompare(songs: map<nat, Song>, t: nat, u: nat)
    requires UniqueSongs(songs) && t in songs && u in songs && songs[t].album == songs[u].album
    ensures t != u ==> SongLess(songs[t], songs[u]) || SongLess(songs[u], songs[t])
  {
    StringOrder(songs[t].filename, songs[u].filename);
  }

  lemma RowsAsymmetric(songs: map<nat, Song>, a: Row, b: Row)
    requires a.track in songs && b.track in songs && RowLess(songs, a, b)
    ensures !RowLess(songs, b, a)
  {
    StringOrder(songs[a.track].filename, songs[b.track].filename);
  }

  lemma SortedIncreases(entries: map<Slot, Ref<()>>, songs: map<nat, Song>, coll: nat, rows: seq<Row>)
    requires UniqueSongs(songs) && IsSortedJoin(entries, songs, coll, rows)
    ensures Increasing(songs, rows)
  {
    forall i, j | 0 <= i < j < |rows| ensures RowLess(songs, rows[i], rows[j]) {
      assert rows[i] in rows && rows[j] in rows && rows[i] != rows[j];
      if rows[i].position == rows[j].position {
        SongsCompare(songs, rows[i].track, rows[j].track);
      }
    }
  }

  lemma EmptyOrNot(rows: seq<Row>)
    ensures rows == [] || exists row :: row in rows
  {
    if rows != [] { assert rows[0] in rows; }
  }

  lemma {:induction false} IncreasingIsUnique(songs: map<nat, Song>, a: seq<Row>, b: seq<Row>)
    requires Increasing(songs, a) && Increasing(songs, b) && forall row :: row in a <==> row in b
    ensures a == b
    decreases |a|
  {
    if a == [] {
      EmptyOrNot(b);
    } else {
      assert a[0] in b;
      LastIsLast(songs, a, b);
      var x := a[|a| - 1];
      DropLast(songs, a, x);
      DropLast(songs, b, x);
      var a', b' := a[..|a| - 1], b[..|b| - 1];
      forall row ensures row in a' <==> row in b' {
        assert row in a <==> row in b;
      }
      IncreasingIsUnique(songs, a', b');
      assert a == a' + [x] && b == b' + [x];
    }
  }

  lemma LastIsLast(songs: map<nat, Song>, a: seq<Row>, b: seq<Row>)
    requires a != [] && b != [] && Increasing(songs, a) && Increasing(songs, b) && forall row :: row in a <==> row in b
    ensures a[|a| - 1] == b[|b| - 1]
  {
    var x, y := a[|a| - 1], b[|b| - 1];
    assert x in b && y in a;
    var i :| 0 <= i < |b| && b[i] == x;
    var j :| 0 <= j < |a| && a[j] == y;
    if i < |b| - 1 { RowsAsymmetric(songs, x, y); }
  }

  lemma DropLast(songs: map<nat, Song>, a: seq<Row>, x: Row)
    requires a != [] && Increasing(songs, a) && x == a[|a| - 1]
    ensures Increasing(songs, a[..|a| - 1]) && forall row :: row in a[..|a| - 1] <==> row in a && row != x
  {
    var init := a[..|a| - 1];
    assert a == init + [x];
    forall row | row in init ensures row != x {
      var i :| 0 <= i < |init| && init[i] == row;
      assert RowLess(songs, a[i], a[|a| - 1]);
      assert a[i] in a && x in a;
      RowsAsymmetric(songs, a[i], x);
    }
  }

  /**
   * Whatever way the rows are joined and sorted, the tracks come out album by album in the order of AlbumIDs,
   * each album's in its own order, and an album that is in the collection twice is there twice.
   */
  lemma ExpansionFollowsAlbums(entries: map<Slot, Ref<()>>, songs: map<nat, Song>, listings: map<nat, seq<nat>>, coll: nat, n: nat, rows: seq<Row>)
    requires UniqueSongs(songs) && Listings(entries, songs, listings) && AllBelow(entries, coll, n)
    requires IsSortedJoin(entries, songs, coll, rows)
    ensures Tracks(rows) == Concat(listings, LinkedIds(entries, coll, n))
  {
    var placed := Placed(entries, listings, coll, n);
    PlacedIncrease(entries, songs, listings, coll, n);
    SortedIncreases(entries, songs, coll, rows);
    forall row ensures row in rows <==> row in placed {
      PlacedAreJoined(entries, songs, listings, coll, n, row);
    }
    IncreasingIsUnique(songs, rows, placed);
    PlacedTracks(entries, listings, coll, n);
  }

  // Stats ------------------------------------------------------------------------------------------

  function Duration(songs: map<nat, Song>, tracks: seq<nat>): int {
    if tracks == [] then 0
    else Duration(songs, tracks[1..]) + (if tracks[0] in songs then songs[tracks[0]].length else 0)
  }

  /** The duration of tracks is the sum of their lengths. */
  lemma {:induction false} DurationIsSum(songs: map<nat, Song>, tracks: seq<nat>, t: nat)
    requires t in songs
    ensures Duration(songs, []) == 0 && Duration(songs, tracks + [t]) == Duration(songs, tracks) + songs[t].length
  {
    DurationConcat(songs, tracks, [t]);
    assert Duration(songs, [t]) == songs[t].length;
  }

  lemma {:induction false} DurationConcat(songs: map<nat, Song>, a: seq<nat>, b: seq<nat>)
    ensures Duration(songs, a + b) == Duration(songs, a) + Duration(songs, b)
  {
    if a == [] {
      assert a + b == b;
    } else {
      assert (a + b)[1..] == a[1..] + b;
      DurationConcat(songs, a[1..], b);
    }
  }

  lemma TracksConcat(a: seq<Row>, b: seq<Row>)
    ensures Tracks(a + b) == Tracks(a) + Tracks(b)
  {
  }

  /** Moving one row to the front. */
  lemma DurationMoved(songs: map<nat, Song>, rows: seq<Row>, i: nat)
    requires i < |rows|
    ensures Duration(songs, Tracks(rows)) == Duration(songs, Tracks([rows[i]] + (rows[..i] + rows[i + 1..])))
  {
    var a, x, b := rows[..i], [rows[i]], rows[i + 1..];
    assert rows == a + (x + b);
    TracksConcat(a, x + b);
    TracksConcat(x, b);
    TracksConcat(x, a + b);
    TracksConcat(a, b);
    DurationConcat(songs, Tracks(a), Tracks(x) + Tracks(b));
    DurationConcat(songs, Tracks(x), Tracks(b));
    DurationConcat(songs, Tracks(x), Tracks(a) + Tracks(b));
    DurationConcat(songs, Tracks(a), Tracks(b));
  }

  lemma {:induction false} SameRowsSameStats(songs: map<nat, Song>, a: seq<Row>, b: seq<Row>)
    requires EachOnce(a) && EachOnce(b) && forall row :: row in a <==> row in b
    ensures |a| == |b| && Duration(songs, Tracks(a)) == Duration(songs, Tracks(b))
    decreases |a|
  {
    if a == [] {
      EmptyOrNot(b);
    } else {
      var x := a[0];
      assert x in a;
      var i :| 0 <= i < |b| && b[i] == x;
      var rest := b[..i] + b[i + 1..];
      WithoutFirst(a, b, i);
      SameRowsSameStats(songs, a[1..], rest);
      DurationMoved(songs, b, i);
      TracksConcat([x], a[1..]);
      TracksConcat([x], rest);
      DurationConcat(songs, Tracks([x]), Tracks(a[1..]));
      DurationConcat(songs, Tracks([x]), Tracks(rest));
      assert [x] + a[1..] == a;
    }
  }

  lemma WithoutFirst(a: seq<Row>, b: seq<Row>, i: nat)
    requires a != [] && i < |b| && b[i] == a[0] && EachOnce(a) && EachOnce(b) && forall row :: row in a <==> row in b
    ensures var rest := b[..i] + b[i + 1..]; EachOnce(a[1..]) && EachOnce(rest) && forall row :: row in a[1..] <==> row in rest
  {
    var rest := b[..i] + b[i + 1..];
    assert forall k | 0 <= k < |rest| :: rest[k] == if k < i then b[k] else b[k + 1];
    forall row ensures row in a[1..] <==> row in a && row != a[0] { RowOf(a, 0, row); }
    forall row ensures row in rest <==> row in b && row != b[i] { RowOf(b, i, row); }
  }

  lemma RowOf(s: seq<Row>, i: nat, row: Row)
    requires i < |s| && EachOnce(s)
    ensures row in s[..i] + s[i + 1..] <==> row in s && row != s[i]
    ensures i == 0 ==> s[..i] + s[i + 1..] == s[1..]
  {
  }

  /** Counting and summing over the join, in any order, is counting and summing over the expansion. */
  lemma StatsMatchExpansion(entries: map<Slot, Ref<()>>, songs: map<nat, Song>, listings: map<nat, seq<nat>>, coll: nat, n: nat, rows: seq<Row>, sorted: seq<Row>)
    requires UniqueSongs(songs) && Listings(entries, songs, listings) && AllBelow(entries, coll, n)
    requires IsJoin(entries, songs, coll, rows) && IsSortedJoin(entries, songs, coll, sorted)
    ensures var tracks := Concat(listings, LinkedIds(entries, coll, n));
            |rows| == |tracks| && Duration(songs, Tracks(rows)) == Duration(songs, tracks)
  {
    ExpansionFollowsAlbums(entries, songs, listings, coll, n, sorted);
    SameRowsSameStats(songs, rows, sorted);
  }

  // The album list ------------------------------------------------------------------------------------

  /** collectionAttachContents: the rows come in any order, the list keeps that of the ids, each at one of `at`. */
  method AttachAlbums(ids: seq<nat>, rows: seq<(nat, Album)>) returns (list: seq<(nat, Album)>, ghost at: seq<nat>)
    requires forall i, j | 0 <= i < |rows| && 0 <= j < |rows| && rows[i].0 == rows[j].0 :: rows[i] == rows[j]
    ensures |at| == |list| && forall i | 0 <= i < |list| :: at[i] < |ids| && ids[at[i]] == list[i].0 && list[i] in rows
    ensures forall i, j | 0 <= i < j < |at| :: at[i] < at[j]
    ensures forall i: nat | i < |ids| :: i in at <==> exists row :: row in rows && row.0 == ids[i]
  {
    var byId: map<nat, Album> := map[];
    for i := 0 to |rows|
      invariant forall j | 0 <= j < i :: rows[j].0 in byId
      invariant forall id | id in byId :: (id, byId[id]) in rows
    {
      assert rows[i] == (rows[i].0, rows[i].1);
      byId := byId[rows[i].0 := rows[i].1];
    }
    forall id ensures id in byId <==> exists row :: row in rows && row.0 == id {
      if id in byId { assert (id, byId[id]) in rows && (id, byId[id]).0 == id; }
    }
    list, at := [], [];
    for i := 0 to |ids|
      invariant |at| == |list| && forall j | 0 <= j < |list| :: at[j] < i && ids[at[j]] == list[j].0 && list[j] in rows
      invariant forall j, k | 0 <= j < k < |at| :: at[j] < at[k]
      invariant forall j: nat | j < i :: j in at <==> ids[j] in byId
    {
      if ids[i] in byId {
        list := list + [(ids[i], byId[ids[i]])];
        at := at + [i];
      }
    }
  }
}
