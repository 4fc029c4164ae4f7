/**
 * What a walk leaves of tags: a file that has to be read leaves its own genres and credits on its track, the first
 * file of a folder leaves the album its title, artist, credits and genres, and nothing else changes any of these.
 */
module Tagging {
  import opened Library
  import opened Options
  import opened Walk
  import opened Rescan

  /** The ids that `x` is linked to. */
  function IdsOf(links: set<(nat, nat)>, x: nat): set<nat> {
    set link | link in links && link.0 == x :: link.1
  }

  /** The file has to be read: it has no row, or only an older one, or the scan is full. */
  ghost predicate Needs(tracks: map<nat, Track>, a: nat, f: File, isFull: bool) {
    isFull || !exists t :: t in tracks && IsFresh(tracks[t], a, f)
  }

  predicate IsRowOf(track: Track, a: nat, f: File) {
    track.album == a && track.filename == f.name
  }

  /** The track has its own tags. */
  predicate TrackSays(s: State, t: nat, tags: Tags) {
    IdsOf(s.links.trackGenres, t) == tags.genres && IdsOf(s.links.trackCredits, t) == tags.artists
  }

  /** The album has them; blank ones as names that stand for them. */
  predicate AlbumSays(s: State, a: nat, tags: Tags) {
    && a in s.albums
    && s.albums[a].title == (if tags.title != "" then tags.title else "Unknown Album")
    && s.albums[a].artist == (if tags.artist != "" then tags.artist else "Unknown Artist")
    && IdsOf(s.links.albumGenres, a) == tags.genres && IdsOf(s.links.albumCredits, a) == tags.albumArtists
  }

  predicate SameTrack(s: State, s': State, t: nat) {
    && t in s.tracks && t in s'.tracks && s'.tracks[t] == s.tracks[t]
    && IdsOf(s'.links.trackGenres, t) == IdsOf(s.links.trackGenres, t)
    && IdsOf(s'.links.trackCredits, t) == IdsOf(s.links.trackCredits, t)
  }

  predicate SameAlbum(s: State, s': State, a: nat) {
    && a in s.albums && a in s'.albums
    && s'.albums[a].title == s.albums[a].title && s'.albums[a].artist == s.albums[a].artist
    && IdsOf(s'.links.albumGenres, a) == IdsOf(s.links.albumGenres, a)
    && IdsOf(s'.links.albumCredits, a) == IdsOf(s.links.albumCredits, a)
  }

  // One file ------------------------------------------------------------------------------------

  lemma RelinkedIds(links: set<(nat, nat)>, x: nat, ids: set<nat>, y: nat)
    ensures IdsOf(Relinked(links, x, ids), y) == if y == x then ids else IdsOf(links, y)
  {
    var l := Relinked(links, x, ids);
    if y == x {
      forall id | id in ids ensures id in IdsOf(l, x) { assert (x, id) in l; }
    } else {
      forall id | id in IdsOf(links, y) ensures id in IdsOf(l, y) { assert (y, id) in links && (y, id) in l; }
      forall id | id in IdsOf(l, y) ensures id in IdsOf(links, y) { assert (y, id) in l && (y, id) in links; }
    }
  }

  lemma AllRelinkedIds(links: set<(nat, nat)>, x: nat, ids: set<nat>)
    ensures forall y: nat :: IdsOf(Relinked(links, x, ids), y) == if y == x then ids else IdsOf(links, y)
  {
    forall y: nat ensures IdsOf(Relinked(links, x, ids), y) == if y == x then ids else IdsOf(links, y) {
      RelinkedIds(links, x, ids, y);
    }
  }

  lemma PutSays(s: State, a: nat, f: File, first: bool, row: Option<nat>, now: int, t: nat)
    requires a in s.albums && t == if row.Some? then row.value else s.nextTrack
    ensures var s' := PutTrack(s, a, f, first, row, now);
            && t in s'.tracks && IsRowOf(s'.tracks[t], a, f) && TrackSays(s', t, f.tags)
            && (forall u | u in s.tracks && u != t :: SameTrack(s, s', u))
            && (if first then AlbumSays(s', a, f.tags) else SameAlbum(s, s', a))
            && forall b | b in s.albums && b != a :: SameAlbum(s, s', b)
  {
    hide Relinked, IdsOf;
    var l, tags := s.links, f.tags;
    AllRelinkedIds(l.trackGenres, t, tags.genres);
    AllRelinkedIds(l.trackCredits, t, tags.artists);
    AllRelinkedIds(l.albumGenres, a, tags.genres);
    AllRelinkedIds(l.albumCredits, a, tags.albumArtists);
  }

  // One folder ------------------------------------------------------------------------------------

  /** Of the first `n` files, one that needs reading. */
  ghost predicate Among(s: State, a: nat, files: seq<File>, n: nat, isFull: bool, f: File)
    requires n <= |files|
  {
    exists i :: 0 <= i < n && files[i] == f && Needs(s.tracks, a, f, isFull)
  }

  ghost predicate FileSays(s: State, a: nat, f: File) {
    exists t :: t in s.tracks && IsRowOf(s.tracks[t], a, f) && TrackSays(s, t, f.tags)
  }

  ghost predicate IsWritten(s: State, a: nat, files: seq<File>, n: nat, isFull: bool, t: nat)
    requires n <= |files| && t in s.tracks
  {
    exists f :: Among(s, a, files, n, isFull, f) && IsRowOf(s.tracks[t], a, f)
  }

  /** What the first `n` files have left; every other track and album is as it was. */
  ghost predicate Told(s: State, s': State, a: nat, files: seq<File>, n: nat, isFull: bool)
    requires n <= |files|
  {
    && (forall f | Among(s, a, files, n, isFull, f) :: FileSays(s', a, f))
    && (forall t | t in s.tracks && !IsWritten(s, a, files, n, isFull, t) :: SameTrack(s, s', t))
    && (if n > 0 && Needs(s.tracks, a, files[0], isFull) then AlbumSays(s', a, files[0].tags) else SameAlbum(s, s', a))
    && (forall b | b in s.albums && b != a :: SameAlbum(s, s', b))
  }

  lemma OutdatedNeeds(tracks: map<nat, Track>, a: nat, f: File, isFull: bool)
    requires UniqueFiles(tracks)
    ensures Outdated(tracks, a, f, isFull) <==> Needs(tracks, a, f, isFull)
  {
    var row := FileRow(tracks, a, f.name);
    if row.Some? && f.mtime <= tracks[row.value].updatedAt { assert IsFresh(tracks[row.value], a, f); }
    if t :| t in tracks && IsFresh(tracks[t], a, f) { assert row.Some? && row.value == t; }
  }

  lemma AmongMore(s: State, a: nat, files: seq<File>, n: nat, isFull: bool, f: File)
    requires n < |files|
    ensures Among(s, a, files, n + 1, isFull, f) <==>
            Among(s, a, files, n, isFull, f) || (f == files[n] && Needs(s.tracks, a, f, isFull))
  {
    hide Needs;
    if i :| 0 <= i < n && files[i] == f && Needs(s.tracks, a, f, isFull) { assert i < n + 1; }
    if f == files[n] && Needs(s.tracks, a, f, isFull) { assert files[n] == f; }
  }

  lemma WrittenMore(s: State, a: nat, files: seq<File>, n: nat, isFull: bool, t: nat)
    requires n < |files| && t in s.tracks
    ensures IsWritten(s, a, files, n + 1, isFull, t) <==>
            IsWritten(s, a, files, n, isFull, t) || (IsRowOf(s.tracks[t], a, files[n]) && Needs(s.tracks, a, files[n], isFull))
  {
    hide Needs, Among, IsRowOf;
    if f :| Among(s, a, files, n + 1, isFull, f) && IsRowOf(s.tracks[t], a, f) { AmongMore(s, a, files, n, isFull, f); }
    if f :| Among(s, a, files, n, isFull, f) && IsRowOf(s.tracks[t], a, f) { AmongMore(s, a, files, n, isFull, f); }
    AmongMore(s, a, files, n, isFull, files[n]);
  }

  lemma SayStays(s: State, s': State, a: nat, f: File, t: nat)
    requires FileSays(s, a, f) && (t in s.tracks ==> !IsRowOf(s.tracks[t], a, f))
    requires forall u | u in s.tracks && u != t :: SameTrack(s, s', u)
    ensures FileSays(s', a, f)
  {
    hide IdsOf;
    var u :| u in s.tracks && IsRowOf(s.tracks[u], a, f) && TrackSays(s, u, f.tags);
    assert SameTrack(s, s', u);
    assert u in s'.tracks && IsRowOf(s'.tracks[u], a, f) && TrackSays(s', u, f.tags);
  }

  /** One more file that is written. */
  lemma ToldMore(s: State, before: State, s': State, a: nat, files: seq<File>, n: nat, isFull: bool, t: nat)
    requires n < |files| && NamesOnce(files) && Told(s, before, a, files, n, isFull) && Needs(s.tracks, a, files[n], isFull)
    requires t in s'.tracks && IsRowOf(s'.tracks[t], a, files[n]) && TrackSays(s', t, files[n].tags)
    requires t in before.tracks ==> IsRowOf(before.tracks[t], a, files[n])
    requires t in s.tracks ==> IsRowOf(s.tracks[t], a, files[n])
    requires forall u | u in before.tracks && u != t :: SameTrack(before, s', u)
    requires if n == 0 then AlbumSays(s', a, files[0].tags) else SameAlbum(before, s', a)
    requires forall b | b in before.albums && b != a :: SameAlbum(before, s', b)
    ensures Told(s, s', a, files, n + 1, isFull)
  {
    hide Needs, TrackSays, IdsOf;
    forall f | Among(s, a, files, n + 1, isFull, f) ensures FileSays(s', a, f) {
      AmongMore(s, a, files, n, isFull, f);
      if f != files[n] {
        var i :| 0 <= i < n && files[i] == f;
        SayStays(before, s', a, f, t);
      }
    }
    forall u | u in s.tracks && !IsWritten(s, a, files, n + 1, isFull, u) ensures SameTrack(s, s', u) {
      WrittenMore(s, a, files, n, isFull, u);
      assert SameTrack(s, before, u) && u != t;
    }
  }

  /** One more file that need not be read. */
  lemma ToldNoMore(s: State, s': State, a: nat, files: seq<File>, n: nat, isFull: bool)
    requires n < |files| && Told(s, s', a, files, n, isFull) && !Needs(s.tracks, a, files[n], isFull)
    ensures Told(s, s', a, files, n + 1, isFull)
  {
    hide Needs, TrackSays, IdsOf, IsWritten, FileSays, SameAlbum, SameTrack;
    forall f | Among(s, a, files, n + 1, isFull, f) ensures FileSays(s', a, f) { AmongMore(s, a, files, n, isFull, f); }
    forall u | u in s.tracks && !IsWritten(s, a, files, n + 1, isFull, u) ensures SameTrack(s, s', u) {
      WrittenMore(s, a, files, n, isFull, u);
    }
  }

  lemma NothingTold(s: State, a: nat, files: seq<File>, isFull: bool)
    requires a in s.albums
    ensures Told(s, s, a, files, 0, isFull)
  {
    hide Needs, IdsOf;
  }

  lemma TellStep(s: State, before: State, a: nat, files: seq<File>, n: nat, isFull: bool, now: int)
    requires 0 < n <= |files| && a in s.albums && a in s.seenAlbums && TracksOk(s) && NamesOnce(files)
    requires Progress(s, before, a, files, n - 1, isFull, now) && Told(s, before, a, files, n - 1, isFull)
    ensures Told(s, PutIfOutdated(s.tracks, before, a, files[n - 1], n == 1, isFull, now), a, files, n, isFull)
  {
    hide Told, Needs, TrackSays, AlbumSays, SameTrack, SameAlbum, PutTrack;
    var m := n - 1;
    var f := files[m];
    OutdatedNeeds(s.tracks, a, f, isFull);
    if Outdated(s.tracks, a, f, isFull) {
      var row := FileRow(s.tracks, a, f.name);
      var t := if row.Some? then row.value else before.nextTrack;
      PutIsOnlyRow(s, before, a, files, m, now, row);
      PutSays(before, a, f, n == 1, row, now, t);
      ToldMore(s, before, PutTrack(before, a, f, n == 1, row, now), a, files, m, isFull, t);
    } else {
      ToldNoMore(s, before, a, files, m, isFull);
    }
  }

  lemma {:induction false} UpdatedTells(s: State, a: nat, files: seq<File>, n: nat, isFull: bool, now: int)
    requires n <= |files| && a in s.albums && a in s.seenAlbums && TracksOk(s) && NamesOnce(files)
    ensures Told(s, Updated(s, a, files, n, isFull, now), a, files, n, isFull)
  {
    hide Progress, PutIfOutdated, Told;
    if n == 0 {
      NothingTold(s, a, files, isFull);
    } else {
      var before := Updated(s, a, files, n - 1, isFull, now);
      assert Updated(s, a, files, n, isFull, now) == PutIfOutdated(s.tracks, before, a, files[n - 1], n == 1, isFull, now);
      UpdatedTells(s, a, files, n - 1, isFull, now);
      UpdatedProgress(s, a, files, n - 1, isFull, now);
      TellStep(s, before, a, files, n, isFull, now);
    }
  }

  ghost predicate AllRead(s: State, a: nat, d: Dir, isFull: bool) {
    forall f | f in d.files && Needs(s.tracks, a, f, isFull) :: f.readable
  }

  /** The first file is read, and with it the album's tags. */
  ghost predicate FirstRead(s: State, a: nat, d: Dir, isFull: bool) {
    AllRead(s, a, d, isFull) && d.files != [] && Needs(s.tracks, a, d.files[0], isFull)
  }

  /**
   * A visit of a folder with row `a`: if all files that have to be read can be, each leaves its tags on its track, and
   * the first one on the album; nothing else is changed, nor anything if one cannot be read.
   */
  ghost predicate VisitTold(s: State, s': State, d: Dir, a: nat, isFull: bool) {
    && (AllRead(s, a, d, isFull) || s'.tracks == s.tracks)
    && (AllRead(s, a, d, isFull) ==> forall f | f in d.files && Needs(s.tracks, a, f, isFull) :: FileSays(s', a, f))
    && (forall t | t in s.tracks && !(AllRead(s, a, d, isFull) && IsWritten(s, a, d.files, |d.files|, isFull, t)) :: SameTrack(s, s', t))
    && (FirstRead(s, a, d, isFull) ==> AlbumSays(s', a, d.files[0].tags))
    && (forall b | b in s.albums && !(b == a && FirstRead(s, a, d, isFull)) :: SameAlbum(s, s', b))
  }

  lemma UnreadableIsNotRead(s: State, a: nat, d: Dir, isFull: bool)
    requires UniqueFiles(s.tracks)
    ensures Unreadable(s.tracks, a, d.files, isFull) <==> !AllRead(s, a, d, isFull)
  {
    hide Needs, Outdated;
    forall f ensures Outdated(s.tracks, a, f, isFull) <==> Needs(s.tracks, a, f, isFull) { OutdatedNeeds(s.tracks, a, f, isFull); }
  }

  /** Finding or making the folder's rows touches no tags. */
  lemma FoldersTellNothing(s: State, s1: State, d: Dir, p: nat, a: nat)
    requires Visited(s, s1, d, p, a)
    ensures forall t | t in s.tracks :: SameTrack(s, s1, t)
    ensures forall b | b in s.albums :: SameAlbum(s, s1, b)
  {
    hide IdsOf, Own, Above;
  }

  lemma SameWritten(s: State, s2: State, a: nat, files: seq<File>, isFull: bool, t: nat)
    requires s2.tracks == s.tracks && t in s.tracks
    ensures IsWritten(s2, a, files, |files|, isFull, t) <==> IsWritten(s, a, files, |files|, isFull, t)
  {
    hide Needs;
    forall f ensures Among(s2, a, files, |files|, isFull, f) <==> Among(s, a, files, |files|, isFull, f) {
    }
  }

  lemma ToldIsVisit(s: State, s2: State, s': State, d: Dir, a: nat, isFull: bool)
    requires s2.tracks == s.tracks && AllRead(s, a, d, isFull) && Told(s2, s', a, d.files, |d.files|, isFull)
    requires s.albums.Keys <= s2.albums.Keys
    requires (forall t | t in s.tracks :: SameTrack(s, s2, t)) && forall b | b in s.albums :: SameAlbum(s, s2, b)
    ensures VisitTold(s, s', d, a, isFull)
  {
    hide Needs, IdsOf, TrackSays, FileSays;
    forall f | f in d.files && Needs(s.tracks, a, f, isFull) ensures FileSays(s', a, f) {
      var i :| 0 <= i < |d.files| && d.files[i] == f;
      assert Among(s2, a, d.files, |d.files|, isFull, f);
    }
    forall t | t in s.tracks && !IsWritten(s, a, d.files, |d.files|, isFull, t) ensures SameTrack(s, s', t) {
      SameWritten(s, s2, a, d.files, isFull, t);
      assert SameTrack(s, s2, t) && SameTrack(s2, s', t);
    }
    forall b | b in s.albums && !(b == a && FirstRead(s, a, d, isFull)) ensures SameAlbum(s, s', b) {
      assert SameAlbum(s, s2, b) && SameAlbum(s2, s', b);
    }
  }

  lemma VisitTells(s: State, d: Dir, isFull: bool, now: int) returns (p: nat, a: nat)
    requires Inv(s) && DirOk(d)
    ensures DirDone(s, ScannedDir(s, d, isFull, now), d, p, a, isFull, now)
    ensures VisitTold(s, ScannedDir(s, d, isFull, now), d, a, isFull)
  {
    hide DirDone, VisitTold, Told, Needs, Own, Above, FolderRows;
    AboveIsNotOwn(d);
    var q, b := FoldersAre(s, d);
    p, a := ScannedDirDone(s, d, isFull, now);
    var s1, s' := Folders(s, d).0, ScannedDir(s, d, isFull, now);
    FoldersTellNothing(s, s1, d, q, b);
    PresentIsSeen(s1, b, d.files);
    var s2 := s1.(seenTracks := s1.seenTracks + Present(s1.tracks, b, d.files));
    UnreadableIsNotRead(s, b, d, isFull);
    if Unreadable(s.tracks, b, d.files, isFull) {
      NothingToldVisit(s, s2, d, b, isFull);
    } else {
      UpdatedTells(s2, b, d.files, |d.files|, isFull, now);
      ToldIsVisit(s, s2, s', d, b, isFull);
    }
  }

  lemma NothingToldVisit(s: State, s': State, d: Dir, a: nat, isFull: bool)
    requires s'.tracks == s.tracks && !AllRead(s, a, d, isFull)
    requires (forall t | t in s.tracks :: SameTrack(s, s', t)) && forall b | b in s.albums :: SameAlbum(s, s', b)
    ensures VisitTold(s, s', d, a, isFull)
  {
    hide Needs, IdsOf;
  }
}
