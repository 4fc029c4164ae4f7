/** The clean steps as the scanner runs them: lists of missing ids, chunked deletes, single statements. */
module CleanSteps {
  import opened Library
  import opened Options
  import opened Clean

  class MusicDb {
    var albums: map<nat, Album>
    var tracks: map<nat, Track>
    var albumCredits: set<(nat, nat)>
    var trackCredits: set<(nat, nat)>
    var artists: set<nat>
    var albumGenres: set<(nat, nat)>
    var trackGenres: set<(nat, nat)>
    var genres: set<nat>
    var bookmarks: map<nat, Bookmark>
    var episodes: set<nat>

    function View(): Catalog
      reads this
    {
      Catalog(albums, tracks, albumCredits, trackCredits, artists, albumGenres, trackGenres, genres, bookmarks, episodes)
    }

    constructor (c: Catalog)
      ensures View() == c
    {
      albums, tracks, albumCredits, trackCredits := c.albums, c.tracks, c.albumCredits, c.trackCredits;
      artists, albumGenres, trackGenres, genres := c.artists, c.albumGenres, c.trackGenres, c.genres;
      bookmarks, episodes := c.bookmarks, c.episodes;
    }
  }

  function Ids(chunk: seq<nat>): set<nat> {
    set id | id in chunk
  }

  /** The ids of a table that were not seen, in whatever order the table yields them. */
  method Missing(all: set<nat>, seen: set<nat>) returns (missing: seq<nat>)
    ensures Ids(missing) == all - seen
  {
    missing := [];
    var todo := all;
    while todo != {}
      invariant todo <= all && Ids(missing) == all - todo - seen
    {
      var id :| id in todo;
      todo := todo - {id};
      if id !in seen {
        assert Ids(missing + [id]) == Ids(missing) + {id};
        missing := missing + [id];
      }
    }
  }

  method DeleteTracks(db: MusicDb, gone: set<nat>)
    modifies db
    ensures db.View() == WithoutTracks(old(db.View()), gone)
  {
    db.tracks := db.tracks - gone;
    db.trackCredits := set x | x in db.trackCredits && x.0 !in gone;
    db.trackGenres := set x | x in db.trackGenres && x.0 !in gone;
  }

  lemma WithoutTracksTwice(c: Catalog, first: set<nat>, second: set<nat>)
    ensures WithoutTracks(WithoutTracks(c, first), second) == WithoutTracks(c, first + second)
  {
  }

  lemma FlattenSnoc(chunks: seq<seq<nat>>, i: nat)
    requires i < |chunks|
    ensures Ids(Flatten(chunks[..i + 1])) == Ids(Flatten(chunks[..i])) + Ids(chunks[i])
  {
    assert chunks[..i + 1][..i] == chunks[..i];
  }

  method CleanTracks(db: MusicDb, seen: set<nat>)
    modifies db
    ensures db.View() == AfterCleanTracks(old(db.View()), seen)
  {
    ghost var c := db.View();
    var missing := Missing(db.tracks.Keys, seen);
    var chunks := Chunks(missing);
    WithoutNone(c);
    for i := 0 to |chunks|
      invariant db.View() == WithoutTracks(c, Ids(Flatten(chunks[..i])))
    {
      DeleteTracks(db, set id | id in chunks[i]);
      FlattenSnoc(chunks, i);
      WithoutTracksTwice(c, Ids(Flatten(chunks[..i])), Ids(chunks[i]));
    }
    assert chunks[..|chunks|] == chunks;
  }

  lemma WithoutNone(c: Catalog)
    ensures WithoutTracks(c, {}) == c && WithoutAlbums(c, {}) == c
  {
  }

  lemma {:induction false} ClosedHoldsTheFallen(albums: map<nat, Album>, gone: set<nat>, closed: set<nat>, a: nat, n: nat)
    requires albums.Keys * gone <= closed
    requires forall x | x in albums && albums[x].parent.Some? && albums[x].parent.value in closed :: x in closed
    requires Falls(albums, gone, a, n)
    ensures a in closed
    decreases n
  {
    if a !in gone { ClosedHoldsTheFallen(albums, gone, closed, albums[a].parent.value, n - 1); }
  }

  /** ON DELETE CASCADE over parent_id, one child at a time. */
  method Cascade(albums: map<nat, Album>, gone: set<nat>) returns (doomed: set<nat>)
    ensures doomed == DoomedAlbums(albums, gone)
  {
    doomed := set a | a in albums && a in gone;
    forall a | a in doomed ensures Doomed(albums, gone, a) { DoomedByParent(albums, gone, a); }
    var left := albums.Keys - doomed;
    while exists a :: a in left && albums[a].parent.Some? && albums[a].parent.value in doomed
      invariant left == albums.Keys - doomed
      invariant albums.Keys * gone <= doomed
      invariant forall a | a in doomed :: a in albums && Doomed(albums, gone, a)
      decreases left
    {
      var a :| a in left && albums[a].parent.Some? && albums[a].parent.value in doomed;
      DoomedByParent(albums, gone, a);
      doomed := doomed + {a};
      left := left - {a};
    }
    forall a | a in albums && Doomed(albums, gone, a) ensures a in doomed {
      var n: nat :| Falls(albums, gone, a, n);
      ClosedHoldsTheFallen(albums, gone, doomed, a, n);
    }
  }

  method DeleteAlbums(db: MusicDb, gone: set<nat>)
    modifies db
    ensures db.View() == WithoutAlbums(old(db.View()), DoomedAlbums(old(db.albums), gone))
  {
    var doomed := Cascade(db.albums, gone);
    DeleteTracks(db, set t | t in db.tracks && db.tracks[t].album in doomed);
    db.albums := db.albums - doomed;
    db.albumCredits := set x | x in db.albumCredits && x.0 !in doomed;
    db.albumGenres := set x | x in db.albumGenres && x.0 !in doomed;
  }

  lemma WithoutAlbumsTwice(c: Catalog, first: set<nat>, second: set<nat>)
    ensures WithoutAlbums(WithoutAlbums(c, first), second) == WithoutAlbums(c, first + second)
  {
  }

  method CleanAlbums(db: MusicDb, seen: set<nat>)
    modifies db
    ensures db.View() == AfterCleanAlbums(old(db.View()), seen)
  {
    ghost var c := db.View();
    var missing := Missing(db.albums.Keys, seen);
    var chunks := Chunks(missing);
    WithoutNone(c);
    NobodyDoomed(c.albums);
    assert Ids(Flatten(chunks[..0])) == {};
    for i := 0 to |chunks|
      invariant db.View() == WithoutAlbums(c, DoomedAlbums(c.albums, Ids(Flatten(chunks[..i]))))
    {
      ghost var before := Ids(Flatten(chunks[..i]));
      DeleteAlbums(db, set id | id in chunks[i]);
      FlattenSnoc(chunks, i);
      DoomedInChunks(c.albums, before, Ids(chunks[i]));
      WithoutAlbumsTwice(c, DoomedAlbums(c.albums, before),
                         DoomedAlbums(c.albums - DoomedAlbums(c.albums, before), Ids(chunks[i])));
    }
    assert chunks[..|chunks|] == chunks;
  }

  method CleanAlbumMetadata(db: MusicDb)
    modifies db
    ensures db.View() == AfterCleanMetadata(old(db.View()))
  {
    ghost var c := db.View();
    var withTracks := set t | t in db.tracks :: db.tracks[t].album;
    var empty := set a | a in db.albums && a !in withTracks && (db.albums[a].title != "" || db.albums[a].artist != "");
    assert empty == EmptyAlbums(c);
    if empty == {} {
      return;
    }
    db.albumCredits := set x | x in db.albumCredits && x.0 !in empty;
    db.albumGenres := set x | x in db.albumGenres && x.0 !in empty;
    db.albums := map a | a in db.albums ::
      if a in empty then db.albums[a].(title := "", artist := "") else db.albums[a];
  }

  method CleanArtists(db: MusicDb)
    modifies db
    ensures db.View() == AfterCleanArtists(old(db.View()))
  {
    var credited := (set x | x in db.albumCredits :: x.1) + (set x | x in db.trackCredits :: x.1);
    db.artists := db.artists * credited;
  }

  method DeleteGenres(db: MusicDb, gone: set<nat>)
    modifies db
    ensures db.View() == WithoutGenres(old(db.View()), gone)
  {
    db.genres := db.genres - gone;
    db.albumGenres := set x | x in db.albumGenres && x.1 !in gone;
    db.trackGenres := set x | x in db.trackGenres && x.1 !in gone;
  }

  method CleanGenres(db: MusicDb)
    modifies db
    ensures db.View() == AfterCleanGenres(old(db.View()))
  {
    ghost var c := db.View();
    var onTracks, onAlbums := set x | x in db.trackGenres :: x.1, set x | x in db.albumGenres :: x.1;
    assert db.genres - onTracks - onAlbums == UnusedGenres(c);
    DeleteGenres(db, db.genres - onTracks - onAlbums);
    ghost var used := db.View();
    var withTracks := set t | t in db.tracks :: db.tracks[t].album;
    var played := set x | x in db.albumGenres && x.0 in withTracks :: x.1;
    onAlbums := set x | x in db.albumGenres :: x.1;
    assert db.genres * onAlbums - played == TracklessGenres(used);
    DeleteGenres(db, db.genres * onAlbums - played);
  }

  method CleanBookmarks(db: MusicDb)
    modifies db
    ensures db.View() == AfterCleanBookmarks(old(db.View()))
  {
    db.bookmarks := map b | b in db.bookmarks && !(db.bookmarks[b].OfTrack? && db.bookmarks[b].track !in db.tracks) :: db.bookmarks[b];
    db.bookmarks := map b | b in db.bookmarks && !(db.bookmarks[b].OfEpisode? && db.bookmarks[b].episode !in db.episodes) :: db.bookmarks[b];
  }

  /** The six steps in the order ScanAndClean runs them. */
  method CleanAll(db: MusicDb, seenTracks: set<nat>, seenAlbums: set<nat>)
    modifies db
    ensures db.View() == Cleaned(old(db.View()), seenTracks, seenAlbums)
  {
    CleanTracks(db, seenTracks);
    CleanAlbums(db, seenAlbums);
    CleanAlbumMetadata(db);
    CleanArtists(db);
    CleanGenres(db);
    CleanBookmarks(db);
  }
}
