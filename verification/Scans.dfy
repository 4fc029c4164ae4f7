/**
 * Whole scans: the walk and then the six clean steps, over the same tables, any number of times. What the clean
 * steps need of the tables is what every scan leaves; a scan keeps exactly the rows it saw if and only if the
 * rows before it were sheltered; and scanning an unchanged tree again changes nothing.
 */
module Scans {
  import opened Library
  import opened Options
  import opened Walk
  import opened Clean
  import opened Rescan
  import P = Paths
  import S = SpecIdPaths
  import Identity

  /** The tables, and the ids that the next rows get. */
  datatype World = World(c: Catalog, nextAlbum: nat, nextTrack: nat)

  function LinksOf(c: Catalog): Links {
    Links(c.albumCredits, c.trackCredits, c.artists, c.albumGenres, c.trackGenres, c.genres)
  }

  /** The walk starts with nothing seen. */
  function StartOf(w: World): State {
    State(w.c.albums, w.c.tracks, LinksOf(w.c), w.nextAlbum, w.nextTrack, {}, {})
  }

  /** The tables as a walk leaves them. */
  function Catalogued(c: Catalog, s: State): Catalog {
    Catalog(s.albums, s.tracks, s.links.albumCredits, s.links.trackCredits, s.links.artists,
            s.links.albumGenres, s.links.trackGenres, s.links.genres, c.bookmarks, c.episodes)
  }

  ghost function Walking(w: World, dirs: seq<Dir>, isFull: bool, now: int): State {
    Walked(StartOf(w), dirs, isFull, now)
  }

  /** ScanAndClean, but for the healing at its end. */
  ghost function Scanned(w: World, dirs: seq<Dir>, isFull: bool, now: int): World {
    var s := Walking(w, dirs, isFull, now);
    World(Cleaned(Catalogued(w.c, s), s.seenTracks, s.seenAlbums), s.nextAlbum, s.nextTrack)
  }

  ghost predicate WorldOk(w: World) {
    Inv(StartOf(w)) && ForeignKeys(w.c) && LinkedHaveTitles(w.c) && TopsAreTop(w.c.albums)
  }

  // Every scan leaves the tables sound ---------------------------------------------------------

  lemma WalkIsSound(w: World, dirs: seq<Dir>, isFull: bool, now: int)
    requires WorldOk(w) && AllOk(dirs)
    ensures var s := Walking(w, dirs, isFull, now);
            && Inv(s) && KeepsRows(w.c.albums, s.albums) && TopsAreTop(s.albums)
            && ForeignKeys(Catalogued(w.c, s)) && LinkedHaveTitles(Catalogued(w.c, s))
  {
    hide Walked, TopsAreTop, KeepsRows;
    WalkedKeepsInv(StartOf(w), dirs, isFull, now);
    WalkedKeepsKeys(StartOf(w), dirs, isFull, now);
    WalkKeepsTops(StartOf(w), dirs, isFull, now);
  }

  /** Rows that stay are the same rows, but for the tags of albums without tracks. */
  ghost predicate OnlyFewer(before: Catalog, after: Catalog) {
    && after.albums.Keys <= before.albums.Keys
    && (forall a | a in after.albums ::
          after.albums[a] == before.albums[a].(title := after.albums[a].title, artist := after.albums[a].artist))
    && after.tracks.Keys <= before.tracks.Keys
    && forall t | t in after.tracks :: after.tracks[t] == before.tracks[t]
  }

  lemma CleanedIsFewer(c: Catalog, seenTracks: set<nat>, seenAlbums: set<nat>)
    ensures OnlyFewer(c, Cleaned(c, seenTracks, seenAlbums))
    ensures Cleaned(c, seenTracks, seenAlbums).albums.Keys == AfterCleanAlbums(AfterCleanTracks(c, seenTracks), seenAlbums).albums.Keys
    ensures Cleaned(c, seenTracks, seenAlbums).tracks == AfterCleanAlbums(AfterCleanTracks(c, seenTracks), seenAlbums).tracks
  {
  }

  lemma FewerIsOk(w: World, s: State, c': Catalog)
    requires Inv(s) && TopsAreTop(s.albums) && OnlyFewer(Catalogued(w.c, s), c')
    requires forall t | t in c'.tracks :: c'.tracks[t].album in c'.albums
    ensures Inv(StartOf(World(c', s.nextAlbum, s.nextTrack))) && TopsAreTop(c'.albums)
  {
  }

  /** A scan keeps the tables sound, whatever it walks over and leaves out. */
  lemma ScanKeepsOk(w: World, dirs: seq<Dir>, isFull: bool, now: int)
    requires WorldOk(w) && AllOk(dirs)
    ensures WorldOk(Scanned(w, dirs, isFull, now))
  {
    hide Walked, Cleaned, OnlyFewer, TopsAreTop;
    var s := Walking(w, dirs, isFull, now);
    WalkIsSound(w, dirs, isFull, now);
    CleanedIsTidy(Catalogued(w.c, s), s.seenTracks, s.seenAlbums);
    CleanedIsFewer(Catalogued(w.c, s), s.seenTracks, s.seenAlbums);
    FewerIsOk(w, s, Cleaned(Catalogued(w.c, s), s.seenTracks, s.seenAlbums));
  }

  /** Scans, and between them whatever else changes overrides, bookmarks and episodes. */
  datatype Op =
    | Scan(dirs: seq<Dir>, isFull: bool, now: int)
    | Edit(arts: map<nat, Art>, bookmarks: map<nat, Bookmark>, episodes: set<nat>)

  function Edited(w: World, arts: map<nat, Art>, bookmarks: map<nat, Bookmark>, episodes: set<nat>): World {
    var albums := map a | a in w.c.albums :: if a in arts then w.c.albums[a].(art := arts[a]) else w.c.albums[a];
    w.(c := w.c.(albums := albums, bookmarks := bookmarks, episodes := episodes))
  }

  ghost function Apply(w: World, op: Op): World {
    match op
    case Scan(dirs, isFull, now) => Scanned(w, dirs, isFull, now)
    case Edit(arts, bookmarks, episodes) => Edited(w, arts, bookmarks, episodes)
  }

  const Empty := World(Catalog(map[], map[], {}, {}, {}, {}, {}, {}, map[], {}), 0, 0)

  ghost function After(ops: seq<Op>): World {
    if ops == [] then Empty else Apply(After(ops[..|ops| - 1]), ops[|ops| - 1])
  }

  predicate OpOk(op: Op) {
    op.Scan? ==> AllOk(op.dirs)
  }

  lemma EditKeepsOk(w: World, arts: map<nat, Art>, bookmarks: map<nat, Bookmark>, episodes: set<nat>)
    requires WorldOk(w)
    ensures WorldOk(Edited(w, arts, bookmarks, episodes))
  {
  }

  /** From an empty database on, whatever is scanned, the tables are sound. */
  lemma {:induction false} RunKeepsOk(ops: seq<Op>)
    requires forall op | op in ops :: OpOk(op)
    ensures WorldOk(After(ops))
  {
    hide WorldOk, Scanned, Edited;
    if ops == [] {
      EmptyIsOk();
    } else {
      var before, op := After(ops[..|ops| - 1]), ops[|ops| - 1];
      RunKeepsOk(ops[..|ops| - 1]);
      assert OpOk(op);
      match op
      case Scan(dirs, isFull, now) => ScanKeepsOk(before, dirs, isFull, now);
      case Edit(arts, bookmarks, episodes) => EditKeepsOk(before, arts, bookmarks, episodes);
    }
  }

  lemma EmptyIsOk()
    ensures WorldOk(Empty)
  {
  }

  // What a scan leaves -----------------------------------------------------------------------------

  /** Nothing is left that nothing refers to, and nothing refers to what is gone. */
  ghost predicate Tidy(c: Catalog) {
    && (forall artist | artist in c.artists :: Credited(c, artist))
    && (forall g | g in c.genres :: OnTrack(c, g) || exists x :: x in c.albumGenres && x.1 == g && HasTracks(c, x.0))
    && (forall b | b in c.bookmarks :: !Dangling(c, c.bookmarks[b]))
    && ForeignKeys(c)
  }

  /** After any run that ends with a scan the tables are tidy, and no track that is left has lost a genre. */
  lemma ScanTidies(ops: seq<Op>, dirs: seq<Dir>, isFull: bool, now: int)
    requires (forall op | op in ops :: OpOk(op)) && AllOk(dirs)
    ensures var s := Walking(After(ops), dirs, isFull, now);
            var c := Scanned(After(ops), dirs, isFull, now).c;
            Tidy(c) && forall x | x in s.links.trackGenres && x.0 in c.tracks :: x in c.trackGenres && x.1 in c.genres
  {
    hide Walked, Cleaned, After, Credited, OnTrack, HasTracks, Dangling, ForeignKeys, LinkedHaveTitles;
    RunKeepsOk(ops);
    var s := Walking(After(ops), dirs, isFull, now);
    WalkIsSound(After(ops), dirs, isFull, now);
    CleanedIsTidy(Catalogued(After(ops).c, s), s.seenTracks, s.seenAlbums);
  }

  lemma SeenTracksHaveAlbums(w: World, s: State)
    requires Inv(s)
    ensures var c := Catalogued(w.c, s);
            forall t | t in c.tracks && t in s.seenTracks :: c.tracks[t].album in c.albums && c.tracks[t].album in s.seenAlbums
  {
  }

  /** Exactly the seen rows are left. */
  ghost predicate KeepsSeen(s: State, c: Catalog) {
    c.albums.Keys == s.seenAlbums && c.tracks.Keys == s.seenTracks
  }

  lemma ClosedKeepsSeen(w: World, s: State)
    requires Inv(s)
    ensures var c' := Cleaned(Catalogued(w.c, s), s.seenTracks, s.seenAlbums);
            ClosedUnderParents(s.albums, s.seenAlbums) <==> KeepsSeen(s, c')
  {
    var c := Catalogued(w.c, s);
    hide Cleaned, AfterCleanAlbums, OnlyFewer, ClosedUnderParents;
    CleanedIsFewer(c, s.seenTracks, s.seenAlbums);
    CleanAlbumsRemovesTheUnseen(AfterCleanTracks(c, s.seenTracks), s.seenAlbums);
    assert c.albums.Keys * s.seenAlbums == s.seenAlbums;
    SeenTracksHaveAlbums(w, s);
    if ClosedUnderParents(s.albums, s.seenAlbums) {
      CleanRemovesTheUnseen(c, s.seenTracks, s.seenAlbums);
      assert (c.tracks - (c.tracks.Keys - s.seenTracks)).Keys == s.seenTracks;
    }
  }

  /**
   * A scan keeps exactly the rows it has seen if and only if the rows before it are sheltered: no row that is
   * met only as the folder above another has a parent that is not met.
   */
  lemma ScanKeepsSeenIffSheltered(w: World, dirs: seq<Dir>, isFull: bool, now: int)
    requires WorldOk(w) && AllOk(dirs)
    ensures KeepsSeen(Walking(w, dirs, isFull, now), Scanned(w, dirs, isFull, now).c) <==> Sheltered(w.c.albums, dirs)
  {
    hide Walked, Cleaned, KeepsSeen, Sheltered, ClosedUnderParents;
    WalkIsSound(w, dirs, isFull, now);
    ClosedKeepsSeen(w, Walking(w, dirs, isFull, now));
    ClosedIffSheltered(StartOf(w), dirs, isFull, now);
  }

  /** When nothing is left out of the walk, exactly the seen rows are kept. */
  lemma NoneLeftOutKeepsSeen(w: World, dirs: seq<Dir>, isFull: bool, now: int)
    requires WorldOk(w) && AllOk(dirs) && NoneLeftOut(dirs)
    ensures KeepsSeen(Walking(w, dirs, isFull, now), Scanned(w, dirs, isFull, now).c)
  {
    NoneLeftOutShelters(w.c.albums, dirs);
    ScanKeepsSeenIffSheltered(w, dirs, isFull, now);
  }

  lemma DoomedGoes(w: World, s: State, a: nat)
    requires a in s.albums && Doomed(s.albums, s.albums.Keys - s.seenAlbums, a)
    ensures var c := Cleaned(Catalogued(w.c, s), s.seenTracks, s.seenAlbums);
            a !in c.albums && forall t | t in c.tracks :: c.tracks[t].album != a
  {
    var c1 := AfterCleanTracks(Catalogued(w.c, s), s.seenTracks);
    CleanedIsFewer(Catalogued(w.c, s), s.seenTracks, s.seenAlbums);
    assert a in DoomedAlbums(c1.albums, c1.albums.Keys - s.seenAlbums);
  }

  /** A row that is not sheltered takes the folders walked below it with it: rows and tracks, all of them seen. */
  lemma UnshelteredGoes(w: World, dirs: seq<Dir>, isFull: bool, now: int, d: Dir, q: nat) returns (a: nat)
    requires WorldOk(w) && AllOk(dirs) && d in dirs
    requires q in w.c.albums && w.c.albums[q].path == Above(d) && !IsOwn(w.c.albums[q].path, dirs)
    requires w.c.albums[q].parent.Some? && !IsMet(w.c.albums[w.c.albums[q].parent.value].path, dirs)
    ensures var s := Walking(w, dirs, isFull, now);
            var c := Scanned(w, dirs, isFull, now).c;
            && a in s.albums && a in s.seenAlbums && s.albums[a].path == Own(d)
            && a !in c.albums && forall t | t in c.tracks :: c.tracks[t].album != a
  {
    hide Walked, Cleaned, Own, Above, Doomed;
    var s := Walking(w, dirs, isFull, now);
    WalkIsSound(w, dirs, isFull, now);
    WalkGoesOver(StartOf(w), dirs, isFull, now);
    assert ParentSet(s.albums, d);
    var p, own :| p in s.albums && own in s.albums && s.albums[p].path == Above(d) && s.albums[own].path == Own(d) && s.albums[own].parent == Some(p);
    a := own;
    assert p == q && s.albums[q].parent == w.c.albums[q].parent;
    assert FolderOf(s.albums[a].path, d);
    var gone := s.albums.Keys - s.seenAlbums;
    DoomedByParent(s.albums, gone, s.albums[q].parent.value);
    DoomedByParent(s.albums, gone, q);
    DoomedByParent(s.albums, gone, a);
    DoomedGoes(w, s, a);
  }

  // An input on which seen rows go: of /m/a/b/c only the last folder is walked.

  function RelOf(n: nat): (rel: seq<string>)
    requires n < 4
    ensures |rel| == n && P.Names(rel)
  {
    ["a", "b", "c"][..n]
  }

  function DeepPath(n: nat): Triple
    requires n < 4
  {
    S.OwnTriple("/m", P.RelPath(RelOf(n)))
  }

  const Deep := Dir("/m", RelOf(3), "", [])
  const DeepRows: map<nat, Album> :=
    map n: nat | n < 4 :: Album(DeepPath(n), if n == 0 then None else Some(n - 1), "", NoArt, "", "")
  const DeepWorld := World(Empty.c.(albums := DeepRows), 4, 0)

  lemma DeepDiffer(m: nat, n: nat)
    requires m < 4 && n < 4
    ensures DeepPath(m) == DeepPath(n) ==> m == n
  {
    hide S.OwnTriple, P.RelPath;
    if DeepPath(m) == DeepPath(n) {
      S.TripleInjective("/m", RelOf(m), RelOf(n));
    }
  }

  lemma DeepTop(n: nat)
    requires n < 4
    ensures IsTop(DeepPath(n)) <==> n == 0
  {
    if n == 0 {
      S.TripleIsPlace("/m", RelOf(0));
    } else {
      OwnIsNotTop(Dir("/m", RelOf(n), "", []));
    }
  }

  lemma DeepFolder()
    ensures DirOk(Deep) && Own(Deep) == DeepPath(3) && Above(Deep) == DeepPath(2)
  {
    hide S.OwnTriple, S.ParentTriple, P.RelPath;
    assert RelOf(3)[..2] == RelOf(2);
    S.ParentTripleIsOwn("/m", RelOf(3));
  }

  lemma DeepIsOk()
    ensures WorldOk(DeepWorld)
  {
    hide DeepPath, IsTop;
    forall m, n | m in DeepRows && n in DeepRows && DeepRows[m].path == DeepRows[n].path ensures m == n { DeepDiffer(m, n); }
    forall n | n in DeepRows ensures IsTop(DeepRows[n].path) ==> DeepRows[n].parent == None { DeepTop(n); }
  }

  /** The folder is there, it is walked and its row is seen, and the clean steps delete the row. */
  lemma LeftOutParentDeletesSeen()
    ensures exists a :: a in Walking(DeepWorld, [Deep], false, 0).seenAlbums && a !in Scanned(DeepWorld, [Deep], false, 0).c.albums
  {
    hide DeepPath, Own, Above, Walked, Cleaned, WorldOk;
    DeepFolder();
    DeepIsOk();
    DeepDiffer(2, 3);
    DeepDiffer(1, 3);
    DeepDiffer(1, 2);
    var a := UnshelteredGoes(DeepWorld, [Deep], false, 0, Deep, 2);
  }

  // Scanning again -----------------------------------------------------------------------------------

  /** Every folder's rows are up to date, and still are when the clean steps have kept the seen rows. */
  lemma FreshOnceCleaned(s: State, dirs: seq<Dir>, d: Dir, a: nat, f: File, tracks: map<nat, Track>)
    requires Inv(s) && SeenExactly(s, dirs) && d in dirs && f in d.files
    requires a in s.albums && s.albums[a].path == Own(d) && Fresh(s.tracks, a, f)
    requires tracks.Keys == s.seenTracks && forall t | t in tracks :: tracks[t] == s.tracks[t]
    ensures Fresh(tracks, a, f)
  {
    hide Own, Above;
    var t :| t in s.tracks && IsFresh(s.tracks[t], a, f);
    var i :| 0 <= i < |d.files| && d.files[i] == f;
    assert FileOf(s, t, d);
    assert t in tracks;
  }

  lemma SettledOnceCleaned(w: World, s: State, c: Catalog, dirs: seq<Dir>, d: Dir)
    requires Inv(s) && SeenExactly(s, dirs) && d in dirs && Settled(s.albums, s.tracks, d)
    requires OnlyFewer(Catalogued(w.c, s), c) && KeepsSeen(s, c)
    ensures Settled(c.albums, c.tracks, d)
  {
    hide Own, Above;
    var p, a :| SettledAt(s.albums, s.tracks, d, p, a);
    assert FolderOf(s.albums[p].path, d) && FolderOf(s.albums[a].path, d);
    assert IsMet(s.albums[p].path, dirs) && IsMet(s.albums[a].path, dirs);
    forall f | f in d.files ensures Fresh(c.tracks, a, f) { FreshOnceCleaned(s, dirs, d, a, f, c.tracks); }
    assert SettledAt(c.albums, c.tracks, d, p, a);
  }

  lemma SeesTheSame(w: World, s: State, c: Catalog, s2: State, dirs: seq<Dir>)
    requires Inv(s) && SeenExactly(s, dirs) && SeenExactly(s2, dirs) && Inv(s2)
    requires OnlyFewer(Catalogued(w.c, s), c) && KeepsSeen(s, c) && s2.albums == c.albums && s2.tracks == c.tracks
    ensures s2.seenAlbums == s.seenAlbums && s2.seenTracks == s.seenTracks
  {
    hide Own, Above, IsMet;
    forall a | a in s.seenAlbums ensures a in s2.seenAlbums {
      assert a in s2.albums && s2.albums[a].path == s.albums[a].path;
    }
    forall t | t in s.seenTracks ensures t in s2.seenTracks { SeesSameTrack(w, s, c, s2, dirs, t); }
  }

  lemma SeesSameTrack(w: World, s: State, c: Catalog, s2: State, dirs: seq<Dir>, t: nat)
    requires Inv(s) && SeenExactly(s, dirs) && SeenExactly(s2, dirs) && t in s.seenTracks
    requires OnlyFewer(Catalogued(w.c, s), c) && KeepsSeen(s, c) && s2.albums == c.albums && s2.tracks == c.tracks
    ensures t in s2.seenTracks
  {
    hide Own, Above, IsMet;
    var d :| d in dirs && FileOf(s, t, d);
    assert FileOf(s2, t, d);
  }

  /** The files can be read where they have to be, the tree is steady, and no row is left without its parent. */
  ghost predicate GoodScan(w: World, dirs: seq<Dir>, isFull: bool, now: int) {
    && WorldOk(w) && AllOk(dirs) && Steady(dirs)
    && ErrorFree(w.c.albums, w.c.tracks, dirs, isFull, now) && Sheltered(w.c.albums, dirs)
  }

  /** After a good scan every folder's rows are up to date. */
  lemma ScanSettles(w: World, dirs: seq<Dir>, isFull: bool, now: int)
    requires GoodScan(w, dirs, isFull, now)
    ensures AllSettled(Scanned(w, dirs, isFull, now).c.albums, Scanned(w, dirs, isFull, now).c.tracks, dirs)
  {
    hide Walked, Cleaned, Settled, OnlyFewer, KeepsSeen, SeenExactly, ErrorFree, Sheltered, WorldOk, ForeignKeys, LinkedHaveTitles;
    var s := Walking(w, dirs, isFull, now);
    var c := Scanned(w, dirs, isFull, now).c;
    StartIsOk(w);
    WalkIsSound(w, dirs, isFull, now);
    WalkSees(StartOf(w), dirs, isFull, now);
    WalkSettles(StartOf(w), dirs, isFull, now);
    CleanedIsFewer(Catalogued(w.c, s), s.seenTracks, s.seenAlbums);
    ScanKeepsSeenIffSheltered(w, dirs, isFull, now);
    forall d | d in dirs ensures Settled(c.albums, c.tracks, d) { SettledOnceCleaned(w, s, c, dirs, d); }
  }

  lemma StartIsOk(w: World)
    requires WorldOk(w)
    ensures Inv(StartOf(w))
  {
  }

  /** An incremental walk after a good scan changes no row, and sees what the scan saw. */
  lemma SecondWalk(w: World, dirs: seq<Dir>, isFull: bool, now: int, later: int)
    requires GoodScan(w, dirs, isFull, now)
    ensures var s1 := Walking(w, dirs, isFull, now);
            var w1 := Scanned(w, dirs, isFull, now);
            Walking(w1, dirs, false, later) == StartOf(w1).(seenAlbums := s1.seenAlbums, seenTracks := s1.seenTracks)
  {
    hide Walked, Cleaned, AllSettled, OnlyFewer, KeepsSeen, SeenExactly, ErrorFree, Sheltered, WorldOk, Inv;
    var s1 := Walking(w, dirs, isFull, now);
    var w1 := Scanned(w, dirs, isFull, now);
    WalkIsSound(w, dirs, isFull, now);
    StartIsOk(w);
    WalkSees(StartOf(w), dirs, isFull, now);
    CleanedIsFewer(Catalogued(w.c, s1), s1.seenTracks, s1.seenAlbums);
    ScanKeepsSeenIffSheltered(w, dirs, isFull, now);
    ScanKeepsOk(w, dirs, isFull, now);
    StartIsOk(w1);
    ScanSettles(w, dirs, isFull, now);
    SettledWalk(StartOf(w1), dirs, later);
    WalkSees(StartOf(w1), dirs, false, later);
    WalkIsSound(w1, dirs, false, later);
    SeesTheSame(w, s1, w1.c, Walking(w1, dirs, false, later), dirs);
  }

  /**
   * After a good scan, scanning the unchanged tree again changes no modelled column of any table: it sees the
   * same albums and tracks, writes no track, and its clean steps remove nothing.
   */
  lemma SecondScanChangesNothing(w: World, dirs: seq<Dir>, isFull: bool, now: int, later: int)
    requires GoodScan(w, dirs, isFull, now)
    ensures var w1 := Scanned(w, dirs, isFull, now);
            && Scanned(w1, dirs, false, later) == w1
            && Walking(w1, dirs, false, later).seenAlbums == Walking(w, dirs, isFull, now).seenAlbums
            && Walking(w1, dirs, false, later).seenTracks == Walking(w, dirs, isFull, now).seenTracks
  {
    hide Walked, Cleaned, WorldOk, ErrorFree, Sheltered, ForeignKeys, LinkedHaveTitles;
    var s1 := Walking(w, dirs, isFull, now);
    WalkIsSound(w, dirs, isFull, now);
    SecondWalk(w, dirs, isFull, now, later);
    CleanedTwice(Catalogued(w.c, s1), s1.seenTracks, s1.seenAlbums);
  }

  /**
   * The album rows that any scan leaves, whatever it walked over or left out, are what the healing of overrides
   * and collections counts on.
   */
  lemma ScanIsRescan(t: Tables, w: World, dirs: seq<Dir>, isFull: bool, now: int)
    requires Inv(StartOf(w)) && AllOk(dirs) && t.albums == w.c.albums
    ensures Identity.OpOk(t, Identity.Rescan(Scanned(w, dirs, isFull, now).c.albums))
  {
    hide Walked, Cleaned;
    var s := Walking(w, dirs, isFull, now);
    WalkedKeepsInv(StartOf(w), dirs, isFull, now);
    CleanedIsFewer(Catalogued(w.c, s), s.seenTracks, s.seenAlbums);
  }
}
