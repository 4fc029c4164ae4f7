/** What a whole scan leaves of tags: what its walk left, as far as the clean steps leave the rows. */
module ScanTags {
  import opened Library
  import opened Options
  import opened Walk
  import opened Clean
  import opened Rescan
  import opened Scans
  import opened Tagging
  import opened TagWalk

  lemma SameIds(before: set<(nat, nat)>, after: set<(nat, nat)>, x: nat)
    requires SameLinks(before, after, x)
    ensures IdsOf(before, x) == IdsOf(after, x)
  {
    forall id | id in IdsOf(before, x) ensures id in IdsOf(after, x) { assert (x, id) in before && (x, id) in after; }
    forall id | id in IdsOf(after, x) ensures id in IdsOf(before, x) { assert (x, id) in after && (x, id) in before; }
  }

  /** The walk and the scan. */
  ghost predicate ScanIs(w: World, s: State, w1: World, dirs: seq<Dir>, isFull: bool, now: int) {
    && WorldOk(w) && AllOk(dirs) && s == Walking(w, dirs, isFull, now) && w1 == Scanned(w, dirs, isFull, now)
    && Inv(s) && ForeignKeys(Catalogued(w.c, s)) && LinkedHaveTitles(Catalogued(w.c, s))
    && w1.c == Cleaned(Catalogued(w.c, s), s.seenTracks, s.seenAlbums)
  }

  lemma IsScan(w: World, dirs: seq<Dir>, isFull: bool, now: int)
    requires WorldOk(w) && AllOk(dirs)
    ensures ScanIs(w, Walking(w, dirs, isFull, now), Scanned(w, dirs, isFull, now), dirs, isFull, now)
  {
    hide Walked, Cleaned, ForeignKeys, LinkedHaveTitles, WorldOk, Inv;
    WalkIsSound(w, dirs, isFull, now);
  }

  /** A track that a scan leaves has the tags that the walk left it. */
  lemma LeftTrack(w: World, s: State, w1: World, dirs: seq<Dir>, isFull: bool, now: int, t: nat)
    requires ScanIs(w, s, w1, dirs, isFull, now) && t in w1.c.tracks
    ensures SameTrack(s, StartOf(w1), t)
  {
    hide ForeignKeys, LinkedHaveTitles, Cleaned, IdsOf, SameLinks, WorldOk, Inv, Scanned, Walking;
    var c := Catalogued(w.c, s);
    TracksKeepTheirs(c, s.seenTracks, s.seenAlbums, t);
    SameIds(c.trackCredits, w1.c.trackCredits, t);
    SameIds(c.trackGenres, w1.c.trackGenres, t);
  }

  predicate HasTrack(c: Catalog, a: nat) {
    exists t :: t in c.tracks && c.tracks[t].album == a
  }

  /** An album that it leaves with a track has the tags the walk left it; one without a track has none. */
  lemma LeftAlbum(w: World, s: State, w1: World, dirs: seq<Dir>, isFull: bool, now: int, a: nat)
    requires ScanIs(w, s, w1, dirs, isFull, now) && a in w1.c.albums
    ensures a in s.albums && w1.c.albums[a].path == s.albums[a].path
    ensures if HasTrack(w1.c, a) then SameAlbum(s, StartOf(w1), a)
            else
              && w1.c.albums[a].title == "" && w1.c.albums[a].artist == ""
              && IdsOf(w1.c.albumCredits, a) == {} && IdsOf(w1.c.albumGenres, a) == {}
  {
    hide ForeignKeys, LinkedHaveTitles, Cleaned, SameLinks, WorldOk, Inv, Scanned, Walking;
    var c := Catalogued(w.c, s);
    AlbumsKeepTheirs(c, s.seenTracks, s.seenAlbums, a);
    if HasTrack(w1.c, a) {
      SameIds(c.albumCredits, w1.c.albumCredits, a);
      SameIds(c.albumGenres, w1.c.albumGenres, a);
    }
  }

  /**
   * What a scan leaves has the tags it had, but for the tracks of files that were read, and for the albums whose first
   * file was or that have no track any more.
   */
  lemma ScanLeavesTags(w: World, dirs: seq<Dir>, isFull: bool, now: int)
    requires WorldOk(w) && AllOk(dirs) && Steady(dirs)
    ensures var s, w1 := StartOf(w), Scanned(w, dirs, isFull, now);
            && (forall t | t in w.c.tracks && t in w1.c.tracks && !WillWrite(s, dirs, isFull, t) :: SameTrack(s, StartOf(w1), t))
            && (forall a | a in w.c.albums && a in w1.c.albums && HasTrack(w1.c, a) && !WillTitle(s, dirs, isFull, a) ::
                  SameAlbum(s, StartOf(w1), a))
  {
    hide WorldOk, Walking, Scanned, IdsOf, WillWrite, WillTitle, IsRead, RowSays, FolderSays, HasTrack, SameLinks, Cleaned;
    var s0, s, w1 := StartOf(w), Walking(w, dirs, isFull, now), Scanned(w, dirs, isFull, now);
    WalkTells(w, dirs, isFull, now);
    IsScan(w, dirs, isFull, now);
    forall t | t in w.c.tracks && t in w1.c.tracks && !WillWrite(s0, dirs, isFull, t) ensures SameTrack(s0, StartOf(w1), t) {
      LeftTrack(w, s, w1, dirs, isFull, now, t);
      assert SameTrack(s0, s, t);
    }
    forall a | a in w.c.albums && a in w1.c.albums && HasTrack(w1.c, a) && !WillTitle(s0, dirs, isFull, a)
      ensures SameAlbum(s0, StartOf(w1), a)
    {
      LeftAlbum(w, s, w1, dirs, isFull, now, a);
      assert SameAlbum(s0, s, a);
    }
  }

  lemma WalkTells(w: World, dirs: seq<Dir>, isFull: bool, now: int)
    requires WorldOk(w) && AllOk(dirs) && Steady(dirs)
    ensures WalkTold(StartOf(w), Walking(w, dirs, isFull, now), dirs, isFull)
  {
    hide WalkTold, Walked;
    WalkTellsTags(StartOf(w), dirs, isFull, now);
  }

  /** The rows of the files that are walked are seen, and so are left when all seen rows are. */
  lemma RowIsLeft(w: World, s: State, w1: World, dirs: seq<Dir>, isFull: bool, now: int, d: Dir, f: File, t: nat)
    requires ScanIs(w, s, w1, dirs, isFull, now) && Sheltered(w.c.albums, dirs)
    requires d in dirs && f in d.files && HasRow(s, d, f, t)
    ensures HasRow(StartOf(w1), d, f, t) && w1.c.tracks[t].album == s.tracks[t].album && s.tracks[t].album in w1.c.albums
  {
    hide ForeignKeys, LinkedHaveTitles, Cleaned, Walked, Own, Above, Sheltered, IdsOf, SameLinks, HasTrack, WorldOk, Inv;
    StartIsOk(w);
    WalkSees(StartOf(w), dirs, isFull, now);
    ScanKeepsSeenIffSheltered(w, dirs, isFull, now);
    RowIsSeen(s, dirs, d, f, t);
    LeftTrack(w, s, w1, dirs, isFull, now, t);
    LeftAlbum(w, s, w1, dirs, isFull, now, s.tracks[t].album);
  }

  lemma RowIsSeen(s: State, dirs: seq<Dir>, d: Dir, f: File, t: nat)
    requires Inv(s) && SeenExactly(s, dirs) && d in dirs && f in d.files && HasRow(s, d, f, t)
    ensures t in s.seenTracks && s.tracks[t].album in s.seenAlbums
  {
    hide Own, Above;
    var i :| 0 <= i < |d.files| && d.files[i] == f;
    assert FileOf(s, t, d);
  }

  /**
   * After a scan that keeps what it sees, every file that had to be read and could be is there as a track with its own
   * genres and credits, and the first file of a folder has given the album its title, artist, credits and genres.
   */
  lemma ScanTellsTags(w: World, dirs: seq<Dir>, isFull: bool, now: int)
    requires WorldOk(w) && AllOk(dirs) && Steady(dirs) && Sheltered(w.c.albums, dirs)
    ensures var s, s1 := StartOf(w), StartOf(Scanned(w, dirs, isFull, now));
            && (forall d, f | d in dirs && IsRead(s, d, f, isFull) :: RowSays(s1, d, f))
            && (forall d | d in dirs && d.files != [] && IsRead(s, d, d.files[0], isFull) :: FolderSays(s1, d, d.files[0].tags))
  {
    hide WorldOk, Walking, Scanned, IsRead, RowSays, FolderSays, Sheltered;
    var s0, s, w1 := StartOf(w), Walking(w, dirs, isFull, now), Scanned(w, dirs, isFull, now);
    WalkTells(w, dirs, isFull, now);
    IsScan(w, dirs, isFull, now);
    forall d, f | d in dirs && IsRead(s0, d, f, isFull) ensures RowSays(StartOf(w1), d, f) {
      ReadIsFile(s0, d, f, isFull);
      RowSaysLeft(w, s, w1, dirs, isFull, now, d, f);
    }
    forall d | d in dirs && d.files != [] && IsRead(s0, d, d.files[0], isFull) ensures FolderSays(StartOf(w1), d, d.files[0].tags) {
      FolderSaysLeft(w, s, w1, dirs, isFull, now, d);
    }
  }

  lemma RowSaysLeft(w: World, s: State, w1: World, dirs: seq<Dir>, isFull: bool, now: int, d: Dir, f: File)
    requires ScanIs(w, s, w1, dirs, isFull, now) && Sheltered(w.c.albums, dirs) && d in dirs && f in d.files && RowSays(s, d, f)
    ensures RowSays(StartOf(w1), d, f)
  {
    hide ScanIs, IdsOf, Own, Sheltered;
    var t :| HasRow(s, d, f, t) && TrackSays(s, t, f.tags);
    RowIsLeft(w, s, w1, dirs, isFull, now, d, f, t);
    LeftTrack(w, s, w1, dirs, isFull, now, t);
    assert HasRow(StartOf(w1), d, f, t) && TrackSays(StartOf(w1), t, f.tags);
  }

  lemma FolderSaysLeft(w: World, s: State, w1: World, dirs: seq<Dir>, isFull: bool, now: int, d: Dir)
    requires ScanIs(w, s, w1, dirs, isFull, now) && Sheltered(w.c.albums, dirs) && d in dirs && d.files != []
    requires RowSays(s, d, d.files[0]) && FolderSays(s, d, d.files[0].tags)
    ensures FolderSays(StartOf(w1), d, d.files[0].tags)
  {
    hide IdsOf, Own, Sheltered, WorldOk, Walking, Scanned, Cleaned, ForeignKeys, LinkedHaveTitles, TrackSays;
    var t :| HasRow(s, d, d.files[0], t) && TrackSays(s, t, d.files[0].tags);
    var a :| a in s.albums && s.albums[a].path == Own(d) && AlbumSays(s, a, d.files[0].tags);
    RowIsLeft(w, s, w1, dirs, isFull, now, d, d.files[0], t);
    assert a == s.tracks[t].album && HasTrack(w1.c, a);
    LeftAlbum(w, s, w1, dirs, isFull, now, a);
    assert AlbumSays(StartOf(w1), a, d.files[0].tags);
  }
}
