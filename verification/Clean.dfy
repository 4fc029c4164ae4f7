/**
 * What a scan deletes: rows it did not see, with everything that cascades from them, and then whatever
 * nothing refers to any more. Foreign keys act as part of each DELETE.
 */
module Clean {
  import opened Library
  import opened Options

  datatype Bookmark = OfTrack(track: nat) | OfEpisode(episode: nat)

  /** The tables the clean steps read and write. Credits and genre links are pairs of ids. */
  datatype Catalog = Catalog(
    albums: map<nat, Album>,
    tracks: map<nat, Track>,
    albumCredits: set<(nat, nat)>,
    trackCredits: set<(nat, nat)>,
    artists: set<nat>,
    albumGenres: set<(nat, nat)>,
    trackGenres: set<(nat, nat)>,
    genres: set<nat>,
    bookmarks: map<nat, Bookmark>,
    episodes: set<nat>)

  // Chunked deletes -----------------------------------------------------------------------

  const ChunkSize: nat := 999

  function Flatten(chunks: seq<seq<nat>>): seq<nat> {
    if chunks == [] then [] else Flatten(chunks[..|chunks| - 1]) + chunks[|chunks| - 1]
  }

  /** The slices TransactionChunked hands to its callback: all of the data, in order, 999 at a time. */
  method Chunks(data: seq<nat>) returns (chunks: seq<seq<nat>>)
    ensures Flatten(chunks) == data
    ensures forall c | c in chunks :: 0 < |c| <= ChunkSize
    ensures forall i | 0 <= i < |chunks| - 1 :: |chunks[i]| == ChunkSize
  {
    chunks := [];
    var i := 0;
    while i < |data|
      invariant 0 <= i && Flatten(chunks) == data[..if i < |data| then i else |data|]
      invariant forall c | c in chunks :: 0 < |c| <= ChunkSize
      invariant forall j | 0 <= j < |chunks| :: j < |chunks| - 1 || i < |data| ==> |chunks[j]| == ChunkSize
    {
      var end := if i + ChunkSize < |data| then i + ChunkSize else |data|;
      assert (chunks + [data[i..end]])[..|chunks|] == chunks;
      assert data[..i] + data[i..end] == data[..end];
      chunks := chunks + [data[i..end]];
      i := i + ChunkSize;
    }
  }

  // Cascading deletes ---------------------------------------------------------------------

  /** Following parent_id from `a` for at most `n` steps meets a row of `gone`. */
  predicate Falls(albums: map<nat, Album>, gone: set<nat>, a: nat, n: nat)
    decreases n
  {
    a in albums && (a in gone || (n > 0 && albums[a].parent.Some? && Falls(albums, gone, albums[a].parent.value, n - 1)))
  }

  /** Deleting the rows of `gone` deletes `a`, by itself or through its parents. */
  ghost predicate Doomed(albums: map<nat, Album>, gone: set<nat>, a: nat) {
    exists n: nat :: Falls(albums, gone, a, n)
  }

  ghost function DoomedAlbums(albums: map<nat, Album>, gone: set<nat>): set<nat> {
    set a | a in albums && Doomed(albums, gone, a)
  }

  function WithoutTracks(c: Catalog, gone: set<nat>): Catalog {
    c.(tracks := c.tracks - gone,
       trackCredits := (set x | x in c.trackCredits && x.0 !in gone),
       trackGenres := (set x | x in c.trackGenres && x.0 !in gone))
  }

  function TracksOf(tracks: map<nat, Track>, albums: set<nat>): set<nat> {
    set t | t in tracks && tracks[t].album in albums
  }

  function WithoutAlbums(c: Catalog, doomed: set<nat>): Catalog {
    WithoutTracks(c, TracksOf(c.tracks, doomed))
    .(albums := c.albums - doomed,
      albumCredits := (set x | x in c.albumCredits && x.0 !in doomed),
      albumGenres := (set x | x in c.albumGenres && x.0 !in doomed))
  }

  // The six steps -------------------------------------------------------------------------

  function AfterCleanTracks(c: Catalog, seen: set<nat>): Catalog {
    WithoutTracks(c, c.tracks.Keys - seen)
  }

  ghost function AfterCleanAlbums(c: Catalog, seen: set<nat>): Catalog {
    WithoutAlbums(c, DoomedAlbums(c.albums, c.albums.Keys - seen))
  }

  predicate HasTracks(c: Catalog, a: nat) {
    exists t :: t in c.tracks && c.tracks[t].album == a
  }

  /** Albums with no tracks that still carry a title or an artist. */
  function EmptyAlbums(c: Catalog): set<nat> {
    set a | a in c.albums && !HasTracks(c, a) && (c.albums[a].title != "" || c.albums[a].artist != "")
  }

  function AfterCleanMetadata(c: Catalog): Catalog {
    var empty := EmptyAlbums(c);
    c.(albums := (map a | a in c.albums ::
         if a in empty then c.albums[a].(title := "", artist := "") else c.albums[a]),
       albumCredits := (set x | x in c.albumCredits && x.0 !in empty),
       albumGenres := (set x | x in c.albumGenres && x.0 !in empty))
  }

  predicate Credited(c: Catalog, artist: nat) {
    (exists x :: x in c.albumCredits && x.1 == artist) || (exists x :: x in c.trackCredits && x.1 == artist)
  }

  function AfterCleanArtists(c: Catalog): Catalog {
    c.(artists := set x | x in c.artists && Credited(c, x) :: x)
  }

  predicate OnTrack(c: Catalog, g: nat) {
    exists x :: x in c.trackGenres && x.1 == g
  }

  predicate OnAlbum(c: Catalog, g: nat) {
    exists x :: x in c.albumGenres && x.1 == g
  }

  /** GROUP BY genre HAVING count(tracks.id)=0 over the album rows: some album has it, none with tracks does. */
  predicate OnlyTrackless(c: Catalog, g: nat) {
    OnAlbum(c, g) && forall x | x in c.albumGenres && x.1 == g :: !HasTracks(c, x.0)
  }

  function WithoutGenres(c: Catalog, gone: set<nat>): Catalog {
    c.(genres := c.genres - gone,
       albumGenres := (set x | x in c.albumGenres && x.1 !in gone),
       trackGenres := (set x | x in c.trackGenres && x.1 !in gone))
  }

  function UnusedGenres(c: Catalog): set<nat> {
    set g | g in c.genres && !OnTrack(c, g) && !OnAlbum(c, g)
  }

  function TracklessGenres(c: Catalog): set<nat> {
    set g | g in c.genres && OnlyTrackless(c, g)
  }

  function AfterCleanGenres(c: Catalog): Catalog {
    var used := WithoutGenres(c, UnusedGenres(c));
    WithoutGenres(used, TracklessGenres(used))
  }

  predicate Dangling(c: Catalog, b: Bookmark) {
    match b
    case OfTrack(t) => t !in c.tracks
    case OfEpisode(e) => e !in c.episodes
  }

  function AfterCleanBookmarks(c: Catalog): Catalog {
    c.(bookmarks := map b | b in c.bookmarks && !Dangling(c, c.bookmarks[b]) :: c.bookmarks[b])
  }

  ghost function Cleaned(c: Catalog, seenTracks: set<nat>, seenAlbums: set<nat>): Catalog {
    AfterCleanBookmarks(AfterCleanGenres(AfterCleanArtists(AfterCleanMetadata(
      AfterCleanAlbums(AfterCleanTracks(c, seenTracks), seenAlbums)))))
  }

  // Cascades, and chunks of them -------------------------------------------------------------

  /** A row is doomed exactly when it is deleted itself or its parent is doomed. */
  lemma DoomedByParent(albums: map<nat, Album>, gone: set<nat>, a: nat)
    requires a in albums
    ensures Doomed(albums, gone, a) <==>
            a in gone || (albums[a].parent.Some? && Doomed(albums, gone, albums[a].parent.value))
  {
    if a in gone {
      assert Falls(albums, gone, a, 0);
    } else if albums[a].parent.Some? && Doomed(albums, gone, albums[a].parent.value) {
      var n: nat :| Falls(albums, gone, albums[a].parent.value, n);
      assert Falls(albums, gone, a, n + 1);
    } else {
      assert forall n: nat :: !Falls(albums, gone, a, n);
    }
  }

  lemma {:induction false} FallsTwice(albums: map<nat, Album>, first: set<nat>, second: set<nat>, a: nat, n: nat)
    requires Falls(albums, first + second, a, n)
    ensures Doomed(albums, first, a) || Doomed(albums - DoomedAlbums(albums, first), second, a)
    decreases n
  {
    var rest := albums - DoomedAlbums(albums, first);
    DoomedByParent(albums, first, a);
    if !Doomed(albums, first, a) {
      DoomedByParent(rest, second, a);
      if a !in second {
        FallsTwice(albums, first, second, albums[a].parent.value, n - 1);
      }
    }
  }

  lemma {:induction false} FallsOnce(albums: map<nat, Album>, smaller: map<nat, Album>, gone: set<nat>, more: set<nat>, a: nat, n: nat)
    requires smaller.Keys <= albums.Keys && forall x | x in smaller :: smaller[x] == albums[x]
    requires gone <= more && Falls(smaller, gone, a, n)
    ensures Falls(albums, more, a, n)
    decreases n
  {
    if a !in gone { FallsOnce(albums, smaller, gone, more, albums[a].parent.value, n - 1); }
  }

  /** Deleting in two chunks deletes what one DELETE of both would. */
  lemma DoomedInChunks(albums: map<nat, Album>, first: set<nat>, second: set<nat>)
    ensures DoomedAlbums(albums, first + second) ==
            DoomedAlbums(albums, first) + DoomedAlbums(albums - DoomedAlbums(albums, first), second)
  {
    var rest := albums - DoomedAlbums(albums, first);
    forall a | a in albums
      ensures Doomed(albums, first + second, a) <==> Doomed(albums, first, a) || Doomed(rest, second, a)
    {
      if n: nat :| Falls(albums, first + second, a, n) { FallsTwice(albums, first, second, a, n); }
      if n: nat :| Falls(albums, first, a, n) { FallsOnce(albums, albums, first, first + second, a, n); }
      if n: nat :| Falls(rest, second, a, n) { FallsOnce(albums, rest, second, first + second, a, n); }
    }
  }

  /**
   * The parents of seen rows are seen. Then the cascade stops at the unseen rows: exactly the rows that
   * were not seen go. And only then: an unseen parent takes a seen row with it.
   */
  ghost predicate ClosedUnderParents(albums: map<nat, Album>, seen: set<nat>) {
    forall a | a in albums && a in seen && albums[a].parent.Some? && albums[a].parent.value in albums ::
      albums[a].parent.value in seen
  }

  lemma {:induction false} SeenDoNotFall(albums: map<nat, Album>, seen: set<nat>, a: nat, n: nat)
    requires ClosedUnderParents(albums, seen) && Falls(albums, albums.Keys - seen, a, n)
    ensures a !in seen
    decreases n
  {
    if a in seen { SeenDoNotFall(albums, seen, albums[a].parent.value, n - 1); }
  }

  lemma CleanAlbumsRemovesTheUnseen(c: Catalog, seen: set<nat>)
    ensures ClosedUnderParents(c.albums, seen) <==> AfterCleanAlbums(c, seen).albums.Keys == c.albums.Keys * seen
  {
    var gone := c.albums.Keys - seen;
    if ClosedUnderParents(c.albums, seen) {
      forall a | a in c.albums ensures Doomed(c.albums, gone, a) <==> a !in seen {
        DoomedByParent(c.albums, gone, a);
        if n: nat :| Falls(c.albums, gone, a, n) { SeenDoNotFall(c.albums, seen, a, n); }
      }
    } else {
      var a :| a in c.albums && a in seen && c.albums[a].parent.Some? && c.albums[a].parent.value in c.albums && c.albums[a].parent.value !in seen;
      DoomedByParent(c.albums, gone, a);
      DoomedByParent(c.albums, gone, c.albums[a].parent.value);
      assert a in DoomedAlbums(c.albums, gone);
    }
  }

  /** With the albums of seen tracks seen as well, the first two steps remove exactly the unseen rows. */
  lemma CleanRemovesTheUnseen(c: Catalog, seenTracks: set<nat>, seenAlbums: set<nat>)
    requires ClosedUnderParents(c.albums, seenAlbums)
    requires forall t | t in c.tracks && t in seenTracks :: c.tracks[t].album in c.albums && c.tracks[t].album in seenAlbums
    ensures var c' := AfterCleanAlbums(AfterCleanTracks(c, seenTracks), seenAlbums);
      && c'.albums == c.albums - (c.albums.Keys - seenAlbums)
      && c'.tracks == c.tracks - (c.tracks.Keys - seenTracks)
  {
    var c1 := AfterCleanTracks(c, seenTracks);
    CleanAlbumsRemovesTheUnseen(c1, seenAlbums);
    var gone := DoomedAlbums(c.albums, c.albums.Keys - seenAlbums);
    assert (c.albums - gone).Keys == c.albums.Keys * seenAlbums;
    assert forall a | a in c.albums :: a in gone <==> a !in c.albums - gone;
  }

  // After the six steps -----------------------------------------------------------------------

  /** An album that is given credits and genres is given a title too. */
  ghost predicate LinkedHaveTitles(c: Catalog) {
    && (forall x | x in c.albumCredits && x.0 in c.albums :: IsTitled(c.albums[x.0]))
    && (forall x | x in c.albumGenres && x.0 in c.albums :: IsTitled(c.albums[x.0]))
  }

  /** Rows that point at albums, tracks, artists or genres point at existing ones. */
  ghost predicate ForeignKeys(c: Catalog) {
    && (forall t | t in c.tracks :: c.tracks[t].album in c.albums)
    && ParentsExist(c.albums)
    && References(c.albumCredits, c.albums.Keys, c.artists)
    && References(c.trackCredits, c.tracks.Keys, c.artists)
    && References(c.albumGenres, c.albums.Keys, c.genres)
    && References(c.trackGenres, c.tracks.Keys, c.genres)
  }

  /** Deleting genres loses a track's genre exactly when one is on no album with tracks but on some without. */
  lemma CleanGenresKeepsTrackGenres(c: Catalog)
    requires ForeignKeys(c)
    ensures AfterCleanGenres(c).trackGenres == c.trackGenres <==> !exists g :: OnTrack(c, g) && OnlyTrackless(c, g)
  {
    var used := WithoutGenres(c, UnusedGenres(c));
    assert used.trackGenres == c.trackGenres;
    forall g | g in c.genres ensures OnlyTrackless(used, g) <==> OnlyTrackless(c, g) {
      TracklessFrame(c, g);
    }
    if g :| OnTrack(c, g) && OnlyTrackless(c, g) {
      var x :| x in c.trackGenres && x.1 == g;
      assert g in TracklessGenres(used);
      assert x !in AfterCleanGenres(c).trackGenres;
    } else {
      forall x | x in c.trackGenres ensures x in AfterCleanGenres(c).trackGenres {
        assert OnTrack(c, x.1);
      }
    }
  }

  lemma TracklessFrame(c: Catalog, g: nat)
    ensures OnlyTrackless(WithoutGenres(c, UnusedGenres(c)), g) <==> OnlyTrackless(c, g)
  {
  }

  lemma TracksKeepKeys(c: Catalog, seen: set<nat>)
    requires ForeignKeys(c) && LinkedHaveTitles(c)
    ensures ForeignKeys(AfterCleanTracks(c, seen)) && LinkedHaveTitles(AfterCleanTracks(c, seen))
  {
  }

  /** The cascade leaves no row without its parent. */
  lemma AlbumsKeepKeys(c: Catalog, seen: set<nat>)
    requires ForeignKeys(c) && LinkedHaveTitles(c)
    ensures ForeignKeys(AfterCleanAlbums(c, seen)) && LinkedHaveTitles(AfterCleanAlbums(c, seen))
  {
    var gone := c.albums.Keys - seen;
    forall a | a in c.albums && !Doomed(c.albums, gone, a) && c.albums[a].parent.Some?
      ensures !Doomed(c.albums, gone, c.albums[a].parent.value)
    {
      DoomedByParent(c.albums, gone, a);
    }
  }

  lemma MetadataKeepsKeys(c: Catalog)
    requires ForeignKeys(c) && LinkedHaveTitles(c)
    ensures ForeignKeys(AfterCleanMetadata(c)) && LinkedHaveTitles(AfterCleanMetadata(c))
    ensures forall g :: !OnlyTrackless(AfterCleanMetadata(c), g)
  {
    var c' := AfterCleanMetadata(c);
    forall g | OnAlbum(c', g) ensures !OnlyTrackless(c', g) {
      var x :| x in c'.albumGenres && x.1 == g;
      assert x.0 !in EmptyAlbums(c) && HasTracks(c', x.0);
    }
  }

  lemma ArtistsKeepKeys(c: Catalog)
    requires ForeignKeys(c) && LinkedHaveTitles(c)
    ensures ForeignKeys(AfterCleanArtists(c)) && LinkedHaveTitles(AfterCleanArtists(c))
  {
  }

  /** What survives of a catalog once the first four steps have run. */
  ghost function BeforeGenres(c: Catalog, seenTracks: set<nat>, seenAlbums: set<nat>): Catalog {
    AfterCleanArtists(AfterCleanMetadata(AfterCleanAlbums(AfterCleanTracks(c, seenTracks), seenAlbums)))
  }

  lemma BeforeGenresIsSound(c: Catalog, seenTracks: set<nat>, seenAlbums: set<nat>)
    requires ForeignKeys(c) && LinkedHaveTitles(c)
    ensures var b := BeforeGenres(c, seenTracks, seenAlbums);
            ForeignKeys(b) && LinkedHaveTitles(b) && forall g :: !OnlyTrackless(b, g)
  {
    hide ForeignKeys, LinkedHaveTitles, OnlyTrackless, AfterCleanTracks, AfterCleanAlbums, AfterCleanMetadata;
    var c1 := AfterCleanTracks(c, seenTracks);
    var c2 := AfterCleanAlbums(c1, seenAlbums);
    var c3 := AfterCleanMetadata(c2);
    TracksKeepKeys(c, seenTracks);
    AlbumsKeepKeys(c1, seenAlbums);
    MetadataKeepsKeys(c2);
    ArtistsKeepKeys(c3);
    forall g ensures !OnlyTrackless(AfterCleanArtists(c3), g) { SameRows(c3, AfterCleanArtists(c3), g); }
  }

  lemma SameRows(c: Catalog, c': Catalog, g: nat)
    requires c'.albumGenres == c.albumGenres && c'.tracks == c.tracks
    ensures OnlyTrackless(c', g) == OnlyTrackless(c, g)
  {
  }

  /** cleanGenres on a sound catalog deletes the unused genres and touches no link. */
  lemma CleanGenresOnSound(c: Catalog)
    requires ForeignKeys(c) && forall g :: !OnlyTrackless(c, g)
    ensures AfterCleanGenres(c) == c.(genres := c.genres - UnusedGenres(c))
  {
    var used := WithoutGenres(c, UnusedGenres(c));
    forall x | x in c.albumGenres ensures x.1 !in UnusedGenres(c) { assert OnAlbum(c, x.1); }
    forall x | x in c.trackGenres ensures x.1 !in UnusedGenres(c) { assert OnTrack(c, x.1); }
    assert used.albumGenres == c.albumGenres && used.trackGenres == c.trackGenres;
    forall g ensures !OnlyTrackless(used, g) { SameRows(c, used, g); }
    assert TracklessGenres(used) == {};
    assert WithoutGenres(used, {}) == used;
  }

  /** What the six steps leave is tidy, and no genre of a track that survives is lost. */
  lemma CleanedIsTidy(c: Catalog, seenTracks: set<nat>, seenAlbums: set<nat>)
    requires ForeignKeys(c) && LinkedHaveTitles(c)
    ensures var c' := Cleaned(c, seenTracks, seenAlbums);
      && (forall artist | artist in c'.artists :: Credited(c', artist))
      && (forall g | g in c'.genres :: OnTrack(c', g) || exists x :: x in c'.albumGenres && x.1 == g && HasTracks(c', x.0))
      && (forall b | b in c'.bookmarks :: !Dangling(c', c'.bookmarks[b]))
      && (forall x | x in c.trackGenres && x.0 in c'.tracks :: x in c'.trackGenres && x.1 in c'.genres)
      && ForeignKeys(c') && LinkedHaveTitles(c')
  {
    var b := BeforeGenres(c, seenTracks, seenAlbums);
    BeforeGenresIsSound(c, seenTracks, seenAlbums);
    CleanGenresOnSound(b);
    var c' := Cleaned(c, seenTracks, seenAlbums);
    forall artist | artist in c'.artists ensures Credited(c', artist) {
      assert Credited(AfterCleanMetadata(AfterCleanAlbums(AfterCleanTracks(c, seenTracks), seenAlbums)), artist);
    }
    forall g | g in c'.genres ensures OnTrack(c', g) || exists x :: x in c'.albumGenres && x.1 == g && HasTracks(c', x.0) {
      assert OnTrack(b, g) || (OnAlbum(b, g) && !OnlyTrackless(b, g));
      if !OnTrack(b, g) {
        var x :| x in b.albumGenres && x.1 == g && HasTracks(b, x.0);
        assert HasTracks(c', x.0);
      }
    }
    forall x | x in c.trackGenres && x.0 in c'.tracks ensures x in c'.trackGenres && x.1 in c'.genres {
      assert x in b.trackGenres;
      assert OnTrack(b, x.1);
    }
  }

  /** What is linked to `x`, the same in both. */
  predicate SameLinks(before: set<(nat, nat)>, after: set<(nat, nat)>, x: nat) {
    (forall link | link in before && link.0 == x :: link in after) && (forall link | link in after && link.0 == x :: link in before)
  }

  /** Only what the rows of a genre or an album in `b` lose goes from there to the end of the six steps. */
  lemma BeforeGenresIsKept(c: Catalog, seenTracks: set<nat>, seenAlbums: set<nat>)
    requires ForeignKeys(c) && LinkedHaveTitles(c)
    ensures var b, c' := BeforeGenres(c, seenTracks, seenAlbums), Cleaned(c, seenTracks, seenAlbums);
            && c'.albums == b.albums && c'.tracks == b.tracks && c'.albumCredits == b.albumCredits
            && c'.trackCredits == b.trackCredits && c'.albumGenres == b.albumGenres && c'.trackGenres == b.trackGenres
  {
    hide ForeignKeys, LinkedHaveTitles, OnlyTrackless, BeforeGenres, AfterCleanGenres;
    BeforeGenresIsSound(c, seenTracks, seenAlbums);
    CleanGenresOnSound(BeforeGenres(c, seenTracks, seenAlbums));
    assert Cleaned(c, seenTracks, seenAlbums) ==
           AfterCleanBookmarks(AfterCleanGenres(BeforeGenres(c, seenTracks, seenAlbums))) by { UnfoldCleaned(c, seenTracks, seenAlbums); }
  }

  lemma UnfoldCleaned(c: Catalog, seenTracks: set<nat>, seenAlbums: set<nat>)
    ensures Cleaned(c, seenTracks, seenAlbums) == AfterCleanBookmarks(AfterCleanGenres(BeforeGenres(c, seenTracks, seenAlbums)))
  {
  }

  /** A track that is left keeps its row, its credits and its genres. */
  lemma TracksKeepTheirs(c: Catalog, seenTracks: set<nat>, seenAlbums: set<nat>, t: nat)
    requires ForeignKeys(c) && LinkedHaveTitles(c) && t in Cleaned(c, seenTracks, seenAlbums).tracks
    ensures var c' := Cleaned(c, seenTracks, seenAlbums);
            && t in c.tracks && c'.tracks[t] == c.tracks[t]
            && SameLinks(c.trackCredits, c'.trackCredits, t) && SameLinks(c.trackGenres, c'.trackGenres, t)
  {
    BeforeGenresIsKept(c, seenTracks, seenAlbums);
  }

  /**
   * An album that is left with a track keeps its row, its credits and its genres; one that is left without any has
   * no title, no artist, no credit and no genre, and the rest of its row.
   */
  lemma AlbumsKeepTheirs(c: Catalog, seenTracks: set<nat>, seenAlbums: set<nat>, a: nat)
    requires ForeignKeys(c) && LinkedHaveTitles(c) && a in Cleaned(c, seenTracks, seenAlbums).albums
    ensures var c' := Cleaned(c, seenTracks, seenAlbums);
            a in c.albums &&
            if exists t :: t in c'.tracks && c'.tracks[t].album == a then
              && c'.albums[a] == c.albums[a]
              && SameLinks(c.albumCredits, c'.albumCredits, a) && SameLinks(c.albumGenres, c'.albumGenres, a)
            else
              && c'.albums[a] == c.albums[a].(title := "", artist := "")
              && forall link | link in c'.albumCredits || link in c'.albumGenres :: link.0 != a
  {
    hide ForeignKeys, Doomed;
    BeforeGenresIsKept(c, seenTracks, seenAlbums);
    CleanedIsTidy(c, seenTracks, seenAlbums);
    var c2 := AfterCleanAlbums(AfterCleanTracks(c, seenTracks), seenAlbums);
    var c' := Cleaned(c, seenTracks, seenAlbums);
    assert c'.tracks == c2.tracks && c2.albums[a] == c.albums[a];
    assert HasTracks(c2, a) <==> exists t :: t in c'.tracks && c'.tracks[t].album == a;
  }

  /** The artists, genres and bookmarks left are exactly those of before that something left still needs. */
  lemma OthersAreNeeded(c: Catalog, seenTracks: set<nat>, seenAlbums: set<nat>)
    requires ForeignKeys(c) && LinkedHaveTitles(c)
    ensures var c' := Cleaned(c, seenTracks, seenAlbums);
            && (forall x :: x in c'.artists <==> exists link :: (link in c'.albumCredits || link in c'.trackCredits) && link.1 == x)
            && (forall g :: g in c'.genres <==> exists link :: (link in c'.albumGenres || link in c'.trackGenres) && link.1 == g)
            && (forall b :: b in c'.bookmarks <==>
                  b in c.bookmarks &&
                  match c.bookmarks[b] case OfTrack(t) => t in c'.tracks case OfEpisode(e) => e in c.episodes)
            && (forall b | b in c'.bookmarks :: c'.bookmarks[b] == c.bookmarks[b]) && c'.episodes == c.episodes
  {
    var c' := Cleaned(c, seenTracks, seenAlbums);
    CleanedIsTidy(c, seenTracks, seenAlbums);
    forall g | g in c'.genres ensures exists link :: (link in c'.albumGenres || link in c'.trackGenres) && link.1 == g {
      if !OnTrack(c', g) {
        var x :| x in c'.albumGenres && x.1 == g && HasTracks(c', x.0);
      }
    }
  }

  /** Running the six steps again, with the same rows seen, changes nothing. */
  lemma CleanedTwice(c: Catalog, seenTracks: set<nat>, seenAlbums: set<nat>)
    requires ForeignKeys(c) && LinkedHaveTitles(c)
    ensures var c' := Cleaned(c, seenTracks, seenAlbums); Cleaned(c', seenTracks, seenAlbums) == c'
  {
    var c' := Cleaned(c, seenTracks, seenAlbums);
    CleanedIsTidy(c, seenTracks, seenAlbums);
    OnlySeenLeft(c, seenTracks, seenAlbums);
    NothingToDelete(c', seenTracks, seenAlbums);
    NothingEmpty(c, seenTracks, seenAlbums);
    NothingToTidy(c');
  }

  lemma OnlySeenLeft(c: Catalog, seenTracks: set<nat>, seenAlbums: set<nat>)
    ensures var c' := Cleaned(c, seenTracks, seenAlbums); c'.tracks.Keys <= seenTracks && c'.albums.Keys <= seenAlbums
  {
    var c1 := AfterCleanTracks(c, seenTracks);
    forall a | a in c1.albums && a !in seenAlbums ensures a in DoomedAlbums(c1.albums, c1.albums.Keys - seenAlbums) {
      DoomedByParent(c1.albums, c1.albums.Keys - seenAlbums, a);
    }
  }

  lemma NothingToDelete(c: Catalog, seenTracks: set<nat>, seenAlbums: set<nat>)
    requires c.tracks.Keys <= seenTracks && c.albums.Keys <= seenAlbums
    ensures AfterCleanTracks(c, seenTracks) == c && AfterCleanAlbums(c, seenAlbums) == c
  {
    assert c.tracks.Keys - seenTracks == {} && c.albums.Keys - seenAlbums == {};
    NobodyDoomed(c.albums);
    assert TracksOf(c.tracks, {}) == {};
  }

  lemma {:induction false} NobodyFalls(albums: map<nat, Album>, a: nat, n: nat)
    ensures !Falls(albums, {}, a, n)
    decreases n
  {
    if n > 0 && a in albums && albums[a].parent.Some? { NobodyFalls(albums, albums[a].parent.value, n - 1); }
  }

  lemma NobodyDoomed(albums: map<nat, Album>)
    ensures DoomedAlbums(albums, {}) == {}
  {
    forall a | a in albums ensures !Doomed(albums, {}, a) {
      if n: nat :| Falls(albums, {}, a, n) { NobodyFalls(albums, a, n); }
    }
  }

  lemma NothingEmpty(c: Catalog, seenTracks: set<nat>, seenAlbums: set<nat>)
    ensures var c' := Cleaned(c, seenTracks, seenAlbums); EmptyAlbums(c') == {} && AfterCleanMetadata(c') == c'
  {
  }

  lemma NothingToTidy(c: Catalog)
    requires forall artist | artist in c.artists :: Credited(c, artist)
    requires forall g | g in c.genres :: OnTrack(c, g) || exists x :: x in c.albumGenres && x.1 == g && HasTracks(c, x.0)
    requires forall b | b in c.bookmarks :: !Dangling(c, c.bookmarks[b])
    ensures AfterCleanArtists(c) == c && AfterCleanBookmarks(c) == c
    ensures (forall g :: !OnlyTrackless(c, g)) && ForeignKeys(c) ==> AfterCleanGenres(c) == c
  {
    if (forall g :: !OnlyTrackless(c, g)) && ForeignKeys(c) {
      CleanGenresOnSound(c);
      forall g | g in c.genres ensures g !in UnusedGenres(c) {
        if !OnTrack(c, g) { assert OnAlbum(c, g); }
      }
      assert c.genres - UnusedGenres(c) == c.genres;
    }
  }
}
