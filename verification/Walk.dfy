/**
 * The walk of a scan: for every folder it finds or makes the album row of the folder and of the folder above,
 * notes what it has seen, and writes the tracks that are new or whose files changed.
 */
module Walk {
  import opened Library
  import opened Options
  import opened Heal
  import P = Paths
  import S = SpecIdPaths

  /**
   * What a file's tags say: the album title and artist as they stand, which may be blank, and the rows that its
   * genres, its album artists and its other credits are found or made as (the modules Genres and Artists).
   */
  datatype Tags = Tags(title: string, artist: string, genres: set<nat>, albumArtists: set<nat>, artists: set<nat>)

  /** A track's file; `readable` says whether its tags can be read. */
  datatype File = File(name: string, mtime: int, readable: bool, tags: Tags)

  /** A folder below a music directory: its cover, and its tracks in the order of their names. */
  datatype Dir = Dir(root: string, rel: seq<string>, cover: string, files: seq<File>)

  /** The tables that link albums and tracks to artists and genres, as pairs of ids, and the ids of those. */
  datatype Links = Links(
    albumCredits: set<(nat, nat)>, trackCredits: set<(nat, nat)>, artists: set<nat>,
    albumGenres: set<(nat, nat)>, trackGenres: set<(nat, nat)>, genres: set<nat>)

  datatype State = State(
    albums: map<nat, Album>, tracks: map<nat, Track>, links: Links, nextAlbum: nat, nextTrack: nat,
    seenAlbums: set<nat>, seenTracks: set<nat>)

  function Own(d: Dir): Triple {
    S.OwnTriple(d.root, P.RelPath(d.rel))
  }

  function Above(d: Dir): Triple {
    S.ParentTriple(d.root, P.RelPath(d.rel))
  }

  predicate DirOk(d: Dir) {
    d.rel != [] && P.Names(d.rel) && NamesOnce(d.files)
  }

  // Albums -----------------------------------------------------------------------------------

  function Insert(s: State, row: Album): State {
    s.(albums := s.albums[s.nextAlbum := row], nextAlbum := s.nextAlbum + 1)
  }

  /** The row of the folder above, made if there is none. */
  ghost function Found(s: State, path: Triple): (State, nat) {
    var id := Lookup(s.albums, path);
    if id.Some? then (s, id.value) else (Insert(s, Album(path, None, "", NoArt, "", "")), s.nextAlbum)
  }

  /** The folder's own row, with its cover and parent brought up to date. */
  ghost function Basics(s: State, parent: nat, path: Triple, cover: string): (State, nat) {
    var id := Lookup(s.albums, path);
    if id.None? then (Insert(s, Album(path, Some(parent), cover, NoArt, "", "")), s.nextAlbum)
    else (s.(albums := s.albums[id.value := s.albums[id.value].(cover := cover, parent := Some(parent))]), id.value)
  }

  /** Both rows, seen. */
  ghost function Folders(s: State, d: Dir): (State, nat) {
    var (s1, p) := Found(s, Above(d));
    var (s2, a) := Basics(s1, p, Own(d), d.cover);
    (s2.(seenAlbums := s.seenAlbums + {p} + {a}), a)
  }

  // Tracks -----------------------------------------------------------------------------------

  ghost function FileRow(tracks: map<nat, Track>, a: nat, name: string): (id: Option<nat>)
    ensures id.Some? ==> id.value in tracks && tracks[id.value].album == a && tracks[id.value].filename == name
    ensures id.None? ==> forall t | t in tracks :: !(tracks[t].album == a && tracks[t].filename == name)
  {
    if t :| t in tracks && tracks[t].album == a && tracks[t].filename == name then Some(t) else None
  }

  predicate IsFile(files: seq<File>, name: string) {
    exists i :: 0 <= i < |files| && files[i].name == name
  }

  function Present(tracks: map<nat, Track>, a: nat, files: seq<File>): set<nat> {
    set t | t in tracks && tracks[t].album == a && IsFile(files, tracks[t].filename)
  }

  /** A file is written to its row when it has none yet or is newer than the row, and on every full scan. */
  ghost predicate Outdated(tracks: map<nat, Track>, a: nat, f: File, isFull: bool) {
    var row := FileRow(tracks, a, f.name);
    isFull || row.None? || f.mtime > tracks[row.value].updatedAt
  }

  const UnknownAlbum := "Unknown Album"
  const UnknownArtist := "Unknown Artist"

  function Or(value: string, fallback: string): string {
    if value == "" then fallback else value
  }

  /** The links of row `x` replaced by those to `ids`. */
  function Relinked(links: set<(nat, nat)>, x: nat, ids: set<nat>): set<(nat, nat)> {
    (set link | link in links && link.0 != x) + (set id | id in ids :: (x, id))
  }

  /** What writing a track leaves in the link tables; the first of a folder writes those of the album too. */
  function Tagged(l: Links, a: nat, t: nat, first: bool, tags: Tags): Links {
    Links(if first then Relinked(l.albumCredits, a, tags.albumArtists) else l.albumCredits,
          Relinked(l.trackCredits, t, tags.artists),
          l.artists + (if first then tags.albumArtists else {}) + tags.artists,
          if first then Relinked(l.albumGenres, a, tags.genres) else l.albumGenres,
          Relinked(l.trackGenres, t, tags.genres),
          l.genres + tags.genres)
  }

  /** The first track of a folder also gives its tags to the album; blank ones fall back to a fixed name. */
  function PutTrack(s: State, a: nat, f: File, first: bool, row: Option<nat>, now: int): State
    requires a in s.albums
  {
    var album := s.albums[a].(title := Or(f.tags.title, UnknownAlbum), artist := Or(f.tags.artist, UnknownArtist));
    var t := if row.Some? then row.value else s.nextTrack;
    s.(albums := if first then s.albums[a := album] else s.albums,
       tracks := s.tracks[t := Track(a, f.name, now)],
       links := Tagged(s.links, a, t, first, f.tags),
       nextTrack := if row.Some? then s.nextTrack else s.nextTrack + 1,
       seenTracks := s.seenTracks + {t})
  }

  ghost function PutIfOutdated(tracks: map<nat, Track>, s: State, a: nat, f: File, first: bool, isFull: bool, now: int): State
    requires a in s.albums
  {
    if Outdated(tracks, a, f, isFull) then PutTrack(s, a, f, first, FileRow(tracks, a, f.name), now) else s
  }

  ghost function Updated(s: State, a: nat, files: seq<File>, n: nat, isFull: bool, now: int): (s': State)
    requires n <= |files| && a in s.albums
    ensures s'.albums.Keys == s.albums.Keys
  {
    if n == 0 then s
    else
      PutIfOutdated(s.tracks, Updated(s, a, files, n - 1, isFull, now), a, files[n - 1], n == 1, isFull, now)
  }

  /** Some file that would be written cannot be read: then none of the folder's files is. */
  ghost predicate Unreadable(tracks: map<nat, Track>, a: nat, files: seq<File>, isFull: bool) {
    exists f :: f in files && Outdated(tracks, a, f, isFull) && !f.readable
  }

  /** The folder's files: their rows seen, and the outdated ones written. */
  ghost function ScannedFiles(s: State, a: nat, files: seq<File>, isFull: bool, now: int): State
    requires a in s.albums
  {
    var s' := s.(seenTracks := s.seenTracks + Present(s.tracks, a, files));
    if Unreadable(s.tracks, a, files, isFull) then s' else Updated(s', a, files, |files|, isFull, now)
  }

  ghost function ScannedDir(s: State, d: Dir, isFull: bool, now: int): State {
    var (s', a) := Folders(s, d);
    ScannedFiles(s', a, d.files, isFull, now)
  }

  ghost function Walked(s: State, dirs: seq<Dir>, isFull: bool, now: int): State {
    if dirs == [] then s
    else ScannedDir(Walked(s, dirs[..|dirs| - 1], isFull, now), dirs[|dirs| - 1], isFull, now)
  }

  // Invariant ------------------------------------------------------------------------------------

  /** The unique index on (album, filename). */
  ghost predicate UniqueFiles(tracks: map<nat, Track>) {
    forall t, u | t in tracks && u in tracks && tracks[t].album == tracks[u].album && tracks[t].filename == tracks[u].filename :: t == u
  }

  ghost predicate AlbumsOk(s: State) {
    && UniquePaths(s.albums)
    && (forall a | a in s.albums :: a < s.nextAlbum)
    && s.seenAlbums <= s.albums.Keys
  }

  ghost predicate TracksOk(s: State) {
    && UniqueFiles(s.tracks)
    && (forall t | t in s.tracks :: t < s.nextTrack && s.tracks[t].album in s.albums)
    && (forall t | t in s.seenTracks :: t in s.tracks && s.tracks[t].album in s.seenAlbums)
  }

  ghost predicate Inv(s: State) {
    AlbumsOk(s) && TracksOk(s)
  }

  /** Rows keep their path and override; new ones start with no override. */
  ghost predicate KeepsRows(albums: map<nat, Album>, albums': map<nat, Album>) {
    && (forall a | a in albums :: a in albums' && albums'[a].path == albums[a].path && albums'[a].art == albums[a].art)
    && (forall a | a in albums' && a !in albums :: albums'[a].art == NoArt)
  }

  /** `s'` is `s` with at most row `a` added, or given another cover and parent. */
  ghost predicate OneRow(s: State, s': State, a: nat) {
    && s' == s.(albums := s'.albums, nextAlbum := s'.nextAlbum)
    && s'.albums.Keys == s.albums.Keys + {a} && s'.nextAlbum >= s.nextAlbum
    && (forall b | b in s.albums && b != a :: s'.albums[b] == s.albums[b])
    && (if a in s.albums then s'.albums[a] == s.albums[a].(cover := s'.albums[a].cover, parent := s'.albums[a].parent)
        else s'.albums[a].art == NoArt && a == s.nextAlbum)
  }

  lemma FoundRow(s: State, path: Triple)
    requires AlbumsOk(s)
    ensures var (s', p) := Found(s, path);
            && AlbumsOk(s') && OneRow(s, s', p) && s'.albums[p].path == path
            && (if p in s.albums then s' == s else s'.albums[p].parent == None)
  {
  }

  lemma BasicRow(s: State, p: nat, path: Triple, cover: string)
    requires AlbumsOk(s)
    ensures var (s', a) := Basics(s, p, path, cover);
            && AlbumsOk(s') && OneRow(s, s', a) && s'.albums[a].path == path
            && s'.albums[a].cover == cover && s'.albums[a].parent == Some(p)
  {
  }

  /** What the two rows are after the folder's visit. */
  ghost predicate FolderRows(albums: map<nat, Album>, d: Dir, p: nat, a: nat) {
    && p in albums && a in albums
    && albums[p].path == Above(d) && albums[a].path == Own(d)
    && albums[a].cover == d.cover && albums[a].parent == Some(p)
  }

  /** What the visit does to the album rows: the row above may be added, and the folder's own is set. */
  ghost predicate Visited(s: State, s': State, d: Dir, p: nat, a: nat) {
    && s' == s.(albums := s'.albums, nextAlbum := s'.nextAlbum, seenAlbums := s.seenAlbums + {p, a})
    && FolderRows(s'.albums, d, p, a)
    && s'.albums.Keys == s.albums.Keys + {p, a} && s'.nextAlbum >= s.nextAlbum
    && (forall b | b in s.albums && b != a :: s'.albums[b] == s.albums[b])
    && (a in s.albums ==> s'.albums[a] == s.albums[a].(cover := s'.albums[a].cover, parent := s'.albums[a].parent))
    && (p in s.albums || s'.albums[p].parent == None)
    && (forall b | b in s'.albums && b !in s.albums :: b >= s.nextAlbum)
  }

  /** The two steps, one after the other. */
  ghost predicate Steps(s: State, s1: State, s2: State, d: Dir, p: nat, a: nat) {
    && AlbumsOk(s) && AlbumsOk(s1) && AlbumsOk(s2) && OneRow(s, s1, p) && OneRow(s1, s2, a)
    && s1.albums[p].path == Above(d) && (if p in s.albums then s1 == s else s1.albums[p].parent == None)
    && s2.albums[a].path == Own(d) && s2.albums[a].cover == d.cover && s2.albums[a].parent == Some(p)
  }

  lemma StepsVisit(s: State, s1: State, s2: State, d: Dir, p: nat, a: nat)
    requires Steps(s, s1, s2, d, p, a) && Above(d) != Own(d)
    ensures Visited(s, s2.(seenAlbums := s.seenAlbums + {p} + {a}), d, p, a)
  {
    hide S.OwnTriple, S.ParentTriple, Own, Above, UniquePaths;
    assert p != a;
    assert s.seenAlbums + {p} + {a} == s.seenAlbums + {p, a};
    assert s2.albums[p] == s1.albums[p];
  }

  lemma OneRowKeeps(s: State, s': State, a: nat)
    requires OneRow(s, s', a)
    ensures KeepsRows(s.albums, s'.albums)
  {
  }

  lemma KeepsTwice(first: map<nat, Album>, second: map<nat, Album>, third: map<nat, Album>)
    requires KeepsRows(first, second) && KeepsRows(second, third)
    ensures KeepsRows(first, third)
  {
  }

  lemma SeesBoth(s: State, s1: State, s2: State, p: nat, a: nat)
    requires AlbumsOk(s) && AlbumsOk(s2) && OneRow(s, s1, p) && OneRow(s1, s2, a)
    ensures AlbumsOk(s2.(seenAlbums := s.seenAlbums + {p} + {a}))
  {
    hide UniquePaths;
  }

  lemma StepsKeep(s: State, s1: State, s2: State, d: Dir, p: nat, a: nat)
    requires Steps(s, s1, s2, d, p, a)
    ensures KeepsRows(s.albums, s2.albums) && AlbumsOk(s2.(seenAlbums := s.seenAlbums + {p} + {a}))
  {
    hide KeepsRows, OneRow, AlbumsOk, Own, Above;
    OneRowKeeps(s, s1, p);
    OneRowKeeps(s1, s2, a);
    KeepsTwice(s.albums, s1.albums, s2.albums);
    SeesBoth(s, s1, s2, p, a);
  }

  lemma FoldersAre(s: State, d: Dir) returns (p: nat, a: nat)
    requires Inv(s) && Above(d) != Own(d)
    ensures var (s', a') := Folders(s, d);
            a == a' && Visited(s, s', d, p, a) && KeepsRows(s.albums, s'.albums) && Inv(s')
  {
    FoundRow(s, Above(d));
    var (s1, p1) := Found(s, Above(d));
    BasicRow(s1, p1, Own(d), d.cover);
    var (s2, a1) := Basics(s1, p1, Own(d), d.cover);
    StepsVisit(s, s1, s2, d, p1, a1);
    StepsKeep(s, s1, s2, d, p1, a1);
    p, a := p1, a1;
    VisitKeepsTracks(s, s2.(seenAlbums := s.seenAlbums + {p} + {a}), d, p, a);
  }

  lemma VisitKeepsTracks(s: State, s': State, d: Dir, p: nat, a: nat)
    requires TracksOk(s) && Visited(s, s', d, p, a)
    ensures TracksOk(s')
  {
  }

  // Writing the tracks -----------------------------------------------------------------------------

  /** At most the tags of row `a` have changed. */
  ghost predicate OnlyTags(albums: map<nat, Album>, albums': map<nat, Album>, a: nat) {
    && albums'.Keys == albums.Keys && a in albums
    && (forall b | b in albums && b != a :: albums'[b] == albums[b])
    && albums'[a] == albums[a].(title := albums'[a].title, artist := albums'[a].artist)
  }

  /** Rows are the same files' as before, and the new ones are files of folder `a`. */
  ghost predicate OnlyFiles(tracks: map<nat, Track>, tracks': map<nat, Track>, a: nat, files: seq<File>, now: int) {
    && tracks.Keys <= tracks'.Keys
    && (forall t | t in tracks :: KeptTrack(tracks[t], tracks'[t], a, now))
    && (forall t | t in tracks' && t !in tracks :: tracks'[t].album == a && IsFile(files, tracks'[t].filename))
  }

  /** The row is the same file's, untouched, or written now if it is one of folder `a`. */
  predicate KeptTrack(row: Track, row': Track, a: nat, now: int) {
    row' == row || (row' == row.(updatedAt := now) && row.album == a)
  }

  /** What is newly seen are files of folder `a`, and everything new is seen. */
  ghost predicate OnlyThose(s: State, s': State, a: nat, files: seq<File>) {
    && s.seenTracks <= s'.seenTracks
    && (forall t | t in s'.seenTracks && t !in s.seenTracks :: t in s'.tracks && s'.tracks[t].album == a && IsFile(files, s'.tracks[t].filename))
    && (forall t | t in s'.tracks && t !in s.tracks :: t in s'.seenTracks)
  }

  /** The file has a row, written now or not older than it. */
  ghost predicate UpToDate(tracks: map<nat, Track>, a: nat, f: File, isFull: bool, now: int) {
    exists t :: t in tracks && Holds(tracks[t], a, f, isFull, now)
  }

  predicate Holds(row: Track, a: nat, f: File, isFull: bool, now: int) {
    row.album == a && row.filename == f.name && (row.updatedAt == now || (!isFull && f.mtime <= row.updatedAt))
  }

  ghost predicate AllUpToDate(tracks: map<nat, Track>, a: nat, files: seq<File>, n: nat, isFull: bool, now: int)
    requires n <= |files|
  {
    forall i | 0 <= i < n :: UpToDate(tracks, a, files[i], isFull, now)
  }

  /** What writing files of folder `a` has changed. */
  ghost predicate Wrote(s: State, s': State, a: nat, files: seq<File>, now: int) {
    && s' == s.(albums := s'.albums, tracks := s'.tracks, links := s'.links, nextTrack := s'.nextTrack, seenTracks := s'.seenTracks)
    && s.nextTrack <= s'.nextTrack
    && OnlyTags(s.albums, s'.albums, a)
    && OnlyFiles(s.tracks, s'.tracks, a, files, now)
    && OnlyThose(s, s', a, files)
  }

  predicate NamesOnce(files: seq<File>) {
    forall i, j | 0 <= i < j < |files| :: files[i].name != files[j].name
  }

  /** Row `t` is the one for a file of `a` with this name, or is new and no row is. */
  ghost predicate OnlyRow(tracks: map<nat, Track>, t: nat, a: nat, name: string) {
    && (t in tracks ==> tracks[t].album == a && tracks[t].filename == name)
    && forall u | u in tracks && u != t :: !(tracks[u].album == a && tracks[u].filename == name)
  }

  lemma PutUpToDate(tracks: map<nat, Track>, t: nat, row: Track, f: File, isFull: bool, now: int)
    requires UpToDate(tracks, row.album, f, isFull, now) && OnlyRow(tracks, t, row.album, row.filename) && row.updatedAt == now
    ensures UpToDate(tracks[t := row], row.album, f, isFull, now)
  {
    var tracks' := tracks[t := row];
    var u :| u in tracks && Holds(tracks[u], row.album, f, isFull, now);
    assert u in tracks' && Holds(tracks'[u], row.album, f, isFull, now);
  }

  lemma PutOnlyFiles(first: map<nat, Track>, tracks: map<nat, Track>, t: nat, a: nat, files: seq<File>, n: nat, now: int)
    requires n < |files| && OnlyFiles(first, tracks, a, files, now) && OnlyRow(tracks, t, a, files[n].name)
    ensures OnlyFiles(first, tracks[t := Track(a, files[n].name, now)], a, files, now)
  {
  }

  lemma PutTags(s: State, before: State, a: nat, f: File, first: bool, row: Option<nat>, now: int)
    requires a in before.albums && OnlyTags(s.albums, before.albums, a)
    ensures OnlyTags(s.albums, PutTrack(before, a, f, first, row, now).albums, a)
  {
  }

  lemma PutThose(s: State, before: State, a: nat, files: seq<File>, n: nat, row: Option<nat>, now: int)
    requires n < |files| && a in before.albums && OnlyThose(s, before, a, files)
    requires row.None? ==> before.nextTrack !in before.tracks
    ensures OnlyThose(s, PutTrack(before, a, files[n], n == 0, row, now), a, files)
  {
  }

  lemma PutKeepsTracksOk(before: State, a: nat, f: File, first: bool, row: Option<nat>, now: int)
    requires TracksOk(before) && a in before.albums && a in before.seenAlbums && (row.Some? ==> row.value in before.tracks)
    requires OnlyRow(before.tracks, if row.Some? then row.value else before.nextTrack, a, f.name)
    ensures TracksOk(PutTrack(before, a, f, first, row, now))
  {
  }

  lemma PutIsTrack(s: State, before: State, a: nat, files: seq<File>, n: nat, now: int, row: Option<nat>)
    requires n < |files| && a in s.albums && TracksOk(before) && Wrote(s, before, a, files, now)
    requires OnlyRow(before.tracks, if row.Some? then row.value else before.nextTrack, a, files[n].name)
    requires row.Some? ==> row.value in before.tracks
    ensures Wrote(s, PutTrack(before, a, files[n], n == 0, row, now), a, files, now)
  {
    PutOnlyFiles(s.tracks, before.tracks, if row.Some? then row.value else before.nextTrack, a, files, n, now);
    PutTags(s, before, a, files[n], n == 0, row, now);
    PutThose(s, before, a, files, n, row, now);
  }

  /** The row that is written is the file's own, or no other row is the file's. */
  lemma PutIsOnlyRow(s: State, before: State, a: nat, files: seq<File>, n: nat, now: int, row: Option<nat>)
    requires n < |files| && NamesOnce(files) && TracksOk(s) && TracksOk(before) && OnlyFiles(s.tracks, before.tracks, a, files[..n], now)
    requires row == FileRow(s.tracks, a, files[n].name)
    ensures OnlyRow(before.tracks, if row.Some? then row.value else before.nextTrack, a, files[n].name)
  {
  }

  lemma MorePut(first: map<nat, Track>, tracks: map<nat, Track>, t: nat, a: nat, files: seq<File>, n: nat, now: int)
    requires n < |files| && OnlyFiles(first, tracks, a, files[..n], now) && OnlyRow(tracks, t, a, files[n].name)
    ensures OnlyFiles(first, tracks[t := Track(a, files[n].name, now)], a, files[..n + 1], now)
  {
  }

  lemma MoreUpToDate(tracks: map<nat, Track>, t: nat, a: nat, files: seq<File>, n: nat, isFull: bool, now: int)
    requires n < |files| && AllUpToDate(tracks, a, files, n, isFull, now) && OnlyRow(tracks, t, a, files[n].name)
    ensures AllUpToDate(tracks[t := Track(a, files[n].name, now)], a, files, n + 1, isFull, now)
  {
    var row := Track(a, files[n].name, now);
    forall i | 0 <= i < n + 1 ensures UpToDate(tracks[t := row], a, files[i], isFull, now) {
      if i < n { PutUpToDate(tracks, t, row, files[i], isFull, now); }
      else { assert t in tracks[t := row] && Holds(row, a, files[i], isFull, now); }
    }
  }

  /** What is known when the first `n` files have been dealt with. */
  ghost predicate Progress(s: State, s': State, a: nat, files: seq<File>, n: nat, isFull: bool, now: int)
    requires n <= |files|
  {
    && Wrote(s, s', a, files, now) && TracksOk(s')
    && OnlyFiles(s.tracks, s'.tracks, a, files[..n], now)
    && AllUpToDate(s'.tracks, a, files, n, isFull, now)
  }

  lemma PutStep(s: State, before: State, a: nat, files: seq<File>, n: nat, isFull: bool, now: int)
    requires 0 < n <= |files| && a in s.albums && a in s.seenAlbums && TracksOk(s) && NamesOnce(files)
    requires Progress(s, before, a, files, n - 1, isFull, now)
    ensures var f := files[n - 1];
            Progress(s, PutTrack(before, a, f, n == 1, FileRow(s.tracks, a, f.name), now), a, files, n, isFull, now)
  {
    var m := n - 1;
    var row := FileRow(s.tracks, a, files[m].name);
    var t := if row.Some? then row.value else before.nextTrack;
    PutIsOnlyRow(s, before, a, files, m, now, row);
    PutIsTrack(s, before, a, files, m, now, row);
    PutKeepsTracksOk(before, a, files[m], m == 0, row, now);
    MorePut(s.tracks, before.tracks, t, a, files, m, now);
    MoreUpToDate(before.tracks, t, a, files, m, isFull, now);
  }

  lemma KeepStep(s: State, before: State, a: nat, files: seq<File>, n: nat, isFull: bool, now: int)
    requires 0 < n <= |files| && Progress(s, before, a, files, n - 1, isFull, now) && !Outdated(s.tracks, a, files[n - 1], isFull)
    ensures Progress(s, before, a, files, n, isFull, now)
  {
  }

  lemma OneStep(s: State, before: State, a: nat, files: seq<File>, n: nat, isFull: bool, now: int)
    requires 0 < n <= |files| && a in s.albums && a in s.seenAlbums && TracksOk(s) && NamesOnce(files)
    requires Progress(s, before, a, files, n - 1, isFull, now)
    ensures Progress(s, PutIfOutdated(s.tracks, before, a, files[n - 1], n == 1, isFull, now), a, files, n, isFull, now)
  {
    if Outdated(s.tracks, a, files[n - 1], isFull) {
      PutStep(s, before, a, files, n, isFull, now);
    } else {
      KeepStep(s, before, a, files, n, isFull, now);
    }
  }

  lemma NoProgress(s: State, a: nat, files: seq<File>, isFull: bool, now: int)
    requires a in s.albums && TracksOk(s)
    ensures Progress(s, s, a, files, 0, isFull, now)
  {
  }

  lemma {:induction false} UpdatedProgress(s: State, a: nat, files: seq<File>, n: nat, isFull: bool, now: int)
    requires n <= |files| && a in s.albums && a in s.seenAlbums && TracksOk(s) && NamesOnce(files)
    ensures Progress(s, Updated(s, a, files, n, isFull, now), a, files, n, isFull, now)
  {
    hide Progress, PutIfOutdated;
    if n == 0 {
      NoProgress(s, a, files, isFull, now);
    } else {
      var before := Updated(s, a, files, n - 1, isFull, now);
      assert Updated(s, a, files, n, isFull, now) == PutIfOutdated(s.tracks, before, a, files[n - 1], n == 1, isFull, now);
      UpdatedProgress(s, a, files, n - 1, isFull, now);
      OneStep(s, before, a, files, n, isFull, now);
    }
  }

  // One folder ---------------------------------------------------------------------------------

  /** What one folder's visit has changed. */
  ghost predicate DirDone(s: State, s': State, d: Dir, p: nat, a: nat, isFull: bool, now: int) {
    && Inv(s') && KeepsRows(s.albums, s'.albums)
    && FolderRows(s'.albums, d, p, a)
    && s'.albums.Keys == s.albums.Keys + {p, a}
    && (forall b | b in s.albums && b != a :: s'.albums[b] == s.albums[b])
    && (p in s.albums || s'.albums[p].parent == None)
    && (forall b | b in s'.albums && b !in s.albums :: b >= s.nextAlbum) && s'.nextAlbum >= s.nextAlbum
    && OnlyFiles(s.tracks, s'.tracks, a, d.files, now)
    && s'.seenAlbums == s.seenAlbums + {p, a}
    && s'.seenTracks == s.seenTracks + Present(s'.tracks, a, d.files)
    && (if Unreadable(s.tracks, a, d.files, isFull) then s'.tracks == s.tracks
        else AllUpToDate(s'.tracks, a, d.files, |d.files|, isFull, now))
  }

  /** What is seen is what is there. */
  lemma SeesPresent(s: State, s1: State, s': State, a: nat, files: seq<File>, now: int)
    requires s1 == s.(seenTracks := s.seenTracks + Present(s.tracks, a, files)) && Wrote(s1, s', a, files, now)
    ensures s'.seenTracks == s.seenTracks + Present(s'.tracks, a, files)
  {
  }

  lemma PresentIsSeen(s: State, a: nat, files: seq<File>)
    requires Inv(s) && a in s.seenAlbums
    ensures Inv(s.(seenTracks := s.seenTracks + Present(s.tracks, a, files)))
  {
  }

  lemma TagsKeepRows(albums: map<nat, Album>, albums1: map<nat, Album>, albums': map<nat, Album>, a: nat)
    requires KeepsRows(albums, albums1) && OnlyTags(albums1, albums', a)
    ensures KeepsRows(albums, albums')
  {
  }

  lemma TagsKeepAlbums(s1: State, s': State, a: nat)
    requires AlbumsOk(s1) && OnlyTags(s1.albums, s'.albums, a) && s'.nextAlbum == s1.nextAlbum && s'.seenAlbums == s1.seenAlbums
    ensures AlbumsOk(s')
  {
  }

  lemma TagsKeepFolder(s: State, s1: State, s': State, d: Dir, p: nat, a: nat)
    requires Visited(s, s1, d, p, a) && OnlyTags(s1.albums, s'.albums, a) && Above(d) != Own(d)
    ensures FolderRows(s'.albums, d, p, a)
    ensures forall b | b in s.albums && b != a :: s'.albums[b] == s.albums[b]
    ensures p in s.albums || s'.albums[p].parent == None
  {
    hide Own, Above;
    assert p != a;
  }

  lemma VisitThenWrite(s: State, s1: State, s2: State, s': State, d: Dir, p: nat, a: nat, isFull: bool, now: int)
    requires TracksOk(s) && Visited(s, s1, d, p, a) && KeepsRows(s.albums, s1.albums) && AlbumsOk(s1) && Above(d) != Own(d)
    requires s2 == s1.(seenTracks := s1.seenTracks + Present(s1.tracks, a, d.files)) && Wrote(s2, s', a, d.files, now) && TracksOk(s')
    requires if Unreadable(s.tracks, a, d.files, isFull) then s'.tracks == s.tracks
             else AllUpToDate(s'.tracks, a, d.files, |d.files|, isFull, now)
    ensures DirDone(s, s', d, p, a, isFull, now)
  {
    hide Own, Above, Present, Unreadable, AllUpToDate;
    SeesPresent(s1, s2, s', a, d.files, now);
    TagsKeepRows(s.albums, s1.albums, s'.albums, a);
    TagsKeepAlbums(s1, s', a);
    TagsKeepFolder(s, s1, s', d, p, a);
  }

  lemma ScannedDirDone(s: State, d: Dir, isFull: bool, now: int) returns (p: nat, a: nat)
    requires Inv(s) && DirOk(d) && Above(d) != Own(d)
    ensures a == Folders(s, d).1 && DirDone(s, ScannedDir(s, d, isFull, now), d, p, a, isFull, now)
  {
    p, a := FoldersAre(s, d);
    var s1 := Folders(s, d).0;
    PresentIsSeen(s1, a, d.files);
    var s2 := s1.(seenTracks := s1.seenTracks + Present(s1.tracks, a, d.files));
    var s' := ScannedDir(s, d, isFull, now);
    if Unreadable(s.tracks, a, d.files, isFull) {
      NothingWritten(s2, a, d.files, now);
    } else {
      UpdatedProgress(s2, a, d.files, |d.files|, isFull, now);
    }
    VisitThenWrite(s, s1, s2, s', d, p, a, isFull, now);
  }

  lemma NothingWritten(s: State, a: nat, files: seq<File>, now: int)
    requires a in s.albums
    ensures Wrote(s, s, a, files, now)
  {
  }

  lemma AboveIsNotOwn(d: Dir)
    requires DirOk(d)
    ensures Above(d) != Own(d)
  {
    S.ParentTripleIsOwn(d.root, d.rel);
    var up := d.rel[..|d.rel| - 1];
    assert P.Names(up);
    if Above(d) == Own(d) { S.TripleInjective(d.root, d.rel, up); }
  }

  lemma {:induction false} WalkedKeepsInv(s: State, dirs: seq<Dir>, isFull: bool, now: int)
    requires Inv(s) && forall d | d in dirs :: DirOk(d)
    ensures Inv(Walked(s, dirs, isFull, now)) && KeepsRows(s.albums, Walked(s, dirs, isFull, now).albums)
  {
    if dirs != [] {
      var init, d := dirs[..|dirs| - 1], dirs[|dirs| - 1];
      WalkedKeepsInv(s, init, isFull, now);
      assert d in dirs;
      AboveIsNotOwn(d);
      var p, a := ScannedDirDone(Walked(s, init, isFull, now), d, isFull, now);
    }
  }

  // The link tables ----------------------------------------------------------------------------

  /** Rows point at existing rows. */
  ghost predicate LinksExist(s: State) {
    && References(s.links.albumCredits, s.albums.Keys, s.links.artists)
    && References(s.links.trackCredits, s.tracks.Keys, s.links.artists)
    && References(s.links.albumGenres, s.albums.Keys, s.links.genres)
    && References(s.links.trackGenres, s.tracks.Keys, s.links.genres)
  }

  /** Albums that have credits or genres have a title or an artist. */
  ghost predicate LinkedTitled(s: State) {
    && (forall x | x in s.links.albumCredits && x.0 in s.albums :: IsTitled(s.albums[x.0]))
    && (forall x | x in s.links.albumGenres && x.0 in s.albums :: IsTitled(s.albums[x.0]))
  }

  ghost predicate KeysOk(s: State) {
    LinksExist(s) && ParentsExist(s.albums) && LinkedTitled(s)
  }

  lemma VisitKeepsKeys(s: State, s': State, d: Dir, p: nat, a: nat)
    requires KeysOk(s) && Visited(s, s', d, p, a)
    ensures KeysOk(s')
  {
  }

  lemma RelinkedRefers(links: set<(nat, nat)>, x: nat, ids: set<nat>, lefts: set<nat>, rights: set<nat>)
    requires References(links, lefts, rights) && x in lefts && ids <= rights
    ensures References(Relinked(links, x, ids), lefts, rights)
  {
  }

  lemma PutLinksExist(s: State, a: nat, f: File, first: bool, row: Option<nat>, now: int)
    requires a in s.albums && LinksExist(s)
    ensures LinksExist(PutTrack(s, a, f, first, row, now))
  {
    hide Relinked;
    var s' := PutTrack(s, a, f, first, row, now);
    var t := if row.Some? then row.value else s.nextTrack;
    RelinkedRefers(s.links.albumCredits, a, f.tags.albumArtists, s'.albums.Keys, s.links.artists + f.tags.albumArtists);
    RelinkedRefers(s.links.trackCredits, t, f.tags.artists, s'.tracks.Keys, s'.links.artists);
    RelinkedRefers(s.links.albumGenres, a, f.tags.genres, s'.albums.Keys, s'.links.genres);
    RelinkedRefers(s.links.trackGenres, t, f.tags.genres, s'.tracks.Keys, s'.links.genres);
  }

  /** With its credits and genres an album gets a title. */
  lemma PutTitles(s: State, a: nat, f: File, first: bool, row: Option<nat>, now: int)
    requires a in s.albums && LinkedTitled(s)
    ensures LinkedTitled(PutTrack(s, a, f, first, row, now))
  {
  }

  lemma PutKeepsKeys(s: State, a: nat, f: File, first: bool, row: Option<nat>, now: int)
    requires a in s.albums && KeysOk(s)
    ensures KeysOk(PutTrack(s, a, f, first, row, now))
  {
    hide LinksExist, LinkedTitled, Tagged;
    PutLinksExist(s, a, f, first, row, now);
    PutTitles(s, a, f, first, row, now);
  }

  lemma {:induction false} UpdatedKeepsKeys(s: State, a: nat, files: seq<File>, n: nat, isFull: bool, now: int)
    requires n <= |files| && a in s.albums && KeysOk(s)
    ensures KeysOk(Updated(s, a, files, n, isFull, now))
  {
    hide PutTrack, KeysOk;
    if n > 0 {
      UpdatedKeepsKeys(s, a, files, n - 1, isFull, now);
      var before := Updated(s, a, files, n - 1, isFull, now);
      PutKeepsKeys(before, a, files[n - 1], n == 1, FileRow(s.tracks, a, files[n - 1].name), now);
    }
  }

  lemma FilesKeepKeys(s: State, a: nat, files: seq<File>, isFull: bool, now: int)
    requires a in s.albums && KeysOk(s)
    ensures KeysOk(ScannedFiles(s, a, files, isFull, now))
  {
    var seen := s.(seenTracks := s.seenTracks + Present(s.tracks, a, files));
    UpdatedKeepsKeys(seen, a, files, |files|, isFull, now);
  }

  /** Any walk keeps foreign keys, and every album with credits or genres titled. */
  lemma {:induction false} WalkedKeepsKeys(s: State, dirs: seq<Dir>, isFull: bool, now: int)
    requires Inv(s) && KeysOk(s) && forall d | d in dirs :: DirOk(d)
    ensures KeysOk(Walked(s, dirs, isFull, now))
  {
    hide KeysOk, ScannedFiles, Folders;
    if dirs != [] {
      var init, d := dirs[..|dirs| - 1], dirs[|dirs| - 1];
      WalkedKeepsKeys(s, init, isFull, now);
      WalkedKeepsInv(s, init, isFull, now);
      assert d in dirs;
      AboveIsNotOwn(d);
      var before := Walked(s, init, isFull, now);
      var p, a := FoldersAre(before, d);
      VisitKeepsKeys(before, Folders(before, d).0, d, p, a);
      FilesKeepKeys(Folders(before, d).0, a, d.files, isFull, now);
    }
  }
}
