/** The walk as it is carried out: rows looked up, made, changed and noted one after the other. */
module ScanSteps {
  import opened Library
  import opened Options
  import opened Walk
  import Heal

  /** The files of `files[..n]` that are to be written. */
  ghost function OutdatedUpTo(tracks: map<nat, Track>, a: nat, files: seq<File>, n: nat, isFull: bool): (updates: seq<nat>)
    requires n <= |files|
    ensures forall k | 0 <= k < |updates| :: updates[k] < n && Outdated(tracks, a, files[updates[k]], isFull)
    ensures forall i: nat | i < n && Outdated(tracks, a, files[i], isFull) :: i in updates
  {
    if n == 0 then []
    else
      var before := OutdatedUpTo(tracks, a, files, n - 1, isFull);
      if Outdated(tracks, a, files[n - 1], isFull) then before + [n - 1] else before
  }

  ghost function Applied(s: State, a: nat, files: seq<File>, updates: seq<nat>, now: int): (s': State)
    requires a in s.albums && forall k | 0 <= k < |updates| :: updates[k] < |files|
    ensures s'.albums.Keys == s.albums.Keys
  {
    if updates == [] then s
    else
      var i := updates[|updates| - 1];
      PutTrack(Applied(s, a, files, updates[..|updates| - 1], now), a, files[i], i == 0, FileRow(s.tracks, a, files[i].name), now)
  }

  lemma AppliedSnoc(s: State, a: nat, files: seq<File>, updates: seq<nat>, i: nat, now: int)
    requires a in s.albums && i < |files| && forall k | 0 <= k < |updates| :: updates[k] < |files|
    ensures Applied(s, a, files, updates + [i], now) ==
            PutTrack(Applied(s, a, files, updates, now), a, files[i], i == 0, FileRow(s.tracks, a, files[i].name), now)
  {
    hide PutTrack;
    assert (updates + [i])[..|updates|] == updates;
  }

  lemma OutdatedStep(tracks: map<nat, Track>, a: nat, files: seq<File>, n: nat, isFull: bool)
    requires 0 < n <= |files|
    ensures var before := OutdatedUpTo(tracks, a, files, n - 1, isFull);
            OutdatedUpTo(tracks, a, files, n, isFull) == if Outdated(tracks, a, files[n - 1], isFull) then before + [n - 1] else before
  {
    hide Outdated;
  }

  lemma UpdatedStep(s: State, a: nat, files: seq<File>, n: nat, isFull: bool, now: int)
    requires 0 < n <= |files| && a in s.albums
    ensures Updated(s, a, files, n, isFull, now) ==
            PutIfOutdated(s.tracks, Updated(s, a, files, n - 1, isFull, now), a, files[n - 1], n == 1, isFull, now)
  {
    hide PutIfOutdated;
  }

  lemma AppliedStep(s: State, a: nat, files: seq<File>, n: nat, isFull: bool, now: int)
    requires 0 < n <= |files| && a in s.albums
    requires Applied(s, a, files, OutdatedUpTo(s.tracks, a, files, n - 1, isFull), now) == Updated(s, a, files, n - 1, isFull, now)
    ensures Applied(s, a, files, OutdatedUpTo(s.tracks, a, files, n, isFull), now) == Updated(s, a, files, n, isFull, now)
  {
    hide PutTrack, Applied, Updated, OutdatedUpTo, Outdated;
    OutdatedStep(s.tracks, a, files, n, isFull);
    UpdatedStep(s, a, files, n, isFull, now);
    if Outdated(s.tracks, a, files[n - 1], isFull) {
      AppliedSnoc(s, a, files, OutdatedUpTo(s.tracks, a, files, n - 1, isFull), n - 1, now);
    }
  }

  lemma AppliedNone(s: State, a: nat, files: seq<File>, isFull: bool, now: int)
    requires a in s.albums
    ensures Applied(s, a, files, OutdatedUpTo(s.tracks, a, files, 0, isFull), now) == Updated(s, a, files, 0, isFull, now)
  {
  }

  /** Collecting the updates first and then writing them is writing them as they are met. */
  lemma {:induction false} AppliedIsUpdated(s: State, a: nat, files: seq<File>, n: nat, isFull: bool, now: int)
    requires n <= |files| && a in s.albums
    ensures Applied(s, a, files, OutdatedUpTo(s.tracks, a, files, n, isFull), now) == Updated(s, a, files, n, isFull, now)
  {
    hide Applied, Updated, OutdatedUpTo;
    if n == 0 {
      AppliedNone(s, a, files, isFull, now);
    } else {
      AppliedIsUpdated(s, a, files, n - 1, isFull, now);
      AppliedStep(s, a, files, n, isFull, now);
    }
  }

  lemma SeenAside(s: State, p: nat, path: Triple, cover: string, seen: set<nat>)
    ensures Basics(s.(seenAlbums := seen), p, path, cover) ==
            (Basics(s, p, path, cover).0.(seenAlbums := seen), Basics(s, p, path, cover).1)
  {
  }

  /** The map has the row of each of the files that has one. */
  ghost predicate FindsRows(tracks: map<nat, Track>, a: nat, files: seq<File>, found: map<string, nat>) {
    forall i | 0 <= i < |files| ::
      FileRow(tracks, a, files[i].name) == if files[i].name in found then Some(found[files[i].name]) else None
  }

  lemma FoundTells(tracks: map<nat, Track>, a: nat, files: seq<File>, found: map<string, nat>, i: nat, isFull: bool)
    requires FindsRows(tracks, a, files, found) && i < |files|
    ensures var name := files[i].name;
            && (name in found ==> found[name] in tracks)
            && (Outdated(tracks, a, files[i], isFull) <==>
                isFull || name !in found || files[i].mtime > tracks[found[name]].updatedAt)
  {
  }

  /** The map has exactly these rows, by name. */
  ghost predicate Mapped(tracks: map<nat, Track>, rows: set<nat>, found: map<string, nat>) {
    && (forall t | t in rows :: t in tracks && tracks[t].filename in found && found[tracks[t].filename] == t)
    && (forall name | name in found :: found[name] in rows && found[name] in tracks && tracks[found[name]].filename == name)
  }

  lemma NothingMapped(tracks: map<nat, Track>)
    ensures Mapped(tracks, {}, map[])
  {
  }

  lemma MapMore(tracks: map<nat, Track>, a: nat, files: seq<File>, rows: set<nat>, found: map<string, nat>, t: nat)
    requires UniqueFiles(tracks) && Mapped(tracks, rows, found) && rows <= Present(tracks, a, files)
    requires t in Present(tracks, a, files) && t !in rows
    ensures Mapped(tracks, rows + {t}, found[tracks[t].filename := t])
  {
  }

  lemma MappedFinds(tracks: map<nat, Track>, a: nat, files: seq<File>, found: map<string, nat>)
    requires UniqueFiles(tracks) && Mapped(tracks, Present(tracks, a, files), found)
    ensures FindsRows(tracks, a, files, found)
  {
  }

  class Scanner {
    var albums: map<nat, Album>
    var tracks: map<nat, Track>
    var links: Links
    var nextAlbum: nat
    var nextTrack: nat
    var seenAlbums: set<nat>
    var seenTracks: set<nat>

    constructor (s: State)
      ensures View() == s
    {
      albums, tracks, links, nextAlbum, nextTrack := s.albums, s.tracks, s.links, s.nextAlbum, s.nextTrack;
      seenAlbums, seenTracks := s.seenAlbums, s.seenTracks;
    }

    function View(): State
      reads this
    {
      State(albums, tracks, links, nextAlbum, nextTrack, seenAlbums, seenTracks)
    }

    method InsertAlbum(row: Album) returns (id: nat)
      modifies `albums, `nextAlbum
      ensures View() == Insert(old(View()), row) && id == old(nextAlbum)
    {
      id := nextAlbum;
      albums := albums[id := row];
      nextAlbum := nextAlbum + 1;
    }

    method FirstOrCreateParent(path: Triple) returns (p: nat)
      requires UniquePaths(albums)
      modifies `albums, `nextAlbum
      ensures (View(), p) == Found(old(View()), path)
    {
      var id := Heal.SelectAlbum(albums, path);
      if id.Some? {
        return id.value;
      }
      p := InsertAlbum(Album(path, None, "", NoArt, "", ""));
    }

    method PopulateAlbumBasics(parent: nat, path: Triple, cover: string) returns (a: nat)
      requires UniquePaths(albums)
      modifies `albums, `nextAlbum
      ensures (View(), a) == Basics(old(View()), parent, path, cover)
    {
      var id := Heal.SelectAlbum(albums, path);
      if id.None? {
        a := InsertAlbum(Album(path, Some(parent), cover, NoArt, "", ""));
        return;
      }
      a := id.value;
      if albums[a].cover == cover && albums[a].parent == Some(parent) {
        assert albums[a := albums[a].(cover := cover, parent := Some(parent))] == albums;
        return;
      }
      albums := albums[a := albums[a].(cover := cover, parent := Some(parent))];
    }

    method SeeFolders(d: Dir) returns (a: nat)
      requires Inv(View()) && DirOk(d)
      modifies `albums, `nextAlbum, `seenAlbums
      ensures (View(), a) == Folders(old(View()), d)
    {
      AboveIsNotOwn(d);
      FoundRow(View(), Above(d));
      var p := FirstOrCreateParent(Above(d));
      SeenAside(View(), p, Own(d), d.cover, seenAlbums + {p});
      seenAlbums := seenAlbums + {p};
      a := PopulateAlbumBasics(p, Own(d), d.cover);
      seenAlbums := seenAlbums + {a};
    }

    /** The rows of the folder's files by name; all of them are seen. */
    method FindTracks(a: nat, files: seq<File>) returns (found: map<string, nat>)
      requires UniqueFiles(tracks)
      modifies `seenTracks
      ensures seenTracks == old(seenTracks) + Present(tracks, a, files)
      ensures FindsRows(tracks, a, files, found)
    {
      hide Mapped, UniqueFiles, FindsRows;
      var present := Present(tracks, a, files);
      assert present <= tracks.Keys;
      hide Present;
      var left := present;
      found := map[];
      NothingMapped(tracks);
      assert present - left == {};
      while left != {}
        invariant left <= present && seenTracks == old(seenTracks) + (present - left)
        invariant Mapped(tracks, present - left, found)
        decreases |left|
      {
        var t :| t in left;
        MapMore(tracks, a, files, present - left, found, t);
        assert present - (left - {t}) == present - left + {t};
        left := left - {t};
        found := found[tracks[t].filename := t];
        seenTracks := seenTracks + {t};
      }
      assert present - left == present;
      MappedFinds(tracks, a, files, found);
    }

    method PopulateTrack(a: nat, f: File, first: bool, row: Option<nat>, now: int)
      requires a in albums
      modifies `albums, `tracks, `links, `nextTrack, `seenTracks
      ensures View() == PutTrack(old(View()), a, f, first, row, now)
    {
      if first {
        albums := albums[a := albums[a].(title := Or(f.tags.title, UnknownAlbum), artist := Or(f.tags.artist, UnknownArtist))];
      }
      var t := if row.Some? then row.value else nextTrack;
      tracks := tracks[t := Track(a, f.name, now)];
      links := Tagged(links, a, t, first, f.tags);
      if row.None? { nextTrack := nextTrack + 1; }
      seenTracks := seenTracks + {t};
    }

    /** Which files are new or changed, in order. */
    method FindOutdated(a: nat, files: seq<File>, found: map<string, nat>, isFull: bool) returns (updates: seq<nat>)
      requires FindsRows(tracks, a, files, found)
      ensures updates == OutdatedUpTo(tracks, a, files, |files|, isFull)
    {
      hide FindsRows, Outdated;
      updates := [];
      for i := 0 to |files|
        invariant updates == OutdatedUpTo(tracks, a, files, i, isFull)
      {
        var f := files[i];
        FoundTells(tracks, a, files, found, i, isFull);
        if isFull || f.name !in found || f.mtime > tracks[found[f.name]].updatedAt {
          updates := updates + [i];
        }
      }
    }

    method WriteTracks(a: nat, files: seq<File>, found: map<string, nat>, updates: seq<nat>, now: int)
      requires a in albums && forall k | 0 <= k < |updates| :: updates[k] < |files|
      requires FindsRows(tracks, a, files, found)
      modifies `albums, `tracks, `links, `nextTrack, `seenTracks
      ensures View() == Applied(old(View()), a, files, updates, now)
    {
      for k := 0 to |updates|
        invariant a in albums && View() == Applied(old(View()), a, files, updates[..k], now)
      {
        assert updates[..k + 1][..k] == updates[..k];
        var f := files[updates[k]];
        PopulateTrack(a, f, updates[k] == 0, if f.name in found then Some(found[f.name]) else None, now);
      }
      assert updates[..|updates|] == updates;
    }

    method ScanFiles(a: nat, files: seq<File>, isFull: bool, now: int)
      requires a in albums && UniqueFiles(tracks)
      modifies `albums, `tracks, `links, `nextTrack, `seenTracks
      ensures View() == ScannedFiles(old(View()), a, files, isFull, now)
    {
      var found := FindTracks(a, files);
      ghost var seen := View();
      var updates := FindOutdated(a, files, found, isFull);
      for k := 0 to |updates|
        invariant View() == seen && forall j | 0 <= j < k :: files[updates[j]].readable
      {
        if !files[updates[k]].readable {
          assert Unreadable(tracks, a, files, isFull);
          return;
        }
      }
      AllReadable(tracks, a, files, isFull, updates);
      AppliedIsUpdated(seen, a, files, |files|, isFull, now);
      WriteTracks(a, files, found, updates, now);
    }

    /** scanDir, from the folder's listing on. */
    method ScanDir(d: Dir, isFull: bool, now: int)
      requires Inv(View()) && DirOk(d)
      modifies this
      ensures View() == ScannedDir(old(View()), d, isFull, now)
    {
      AboveIsNotOwn(d);
      ghost var p, a' := FoldersAre(View(), d);
      var a := SeeFolders(d);
      if d.files == [] {
        NoFiles(View(), a, isFull, now);
        return;
      }
      ScanFiles(a, d.files, isFull, now);
    }

    method Walk(dirs: seq<Dir>, isFull: bool, now: int)
      requires Inv(View()) && forall d | d in dirs :: DirOk(d)
      modifies this
      ensures View() == Walked(old(View()), dirs, isFull, now) && Inv(View())
    {
      hide Inv, ScannedDir, KeepsRows;
      for i := 0 to |dirs|
        invariant View() == Walked(old(View()), dirs[..i], isFull, now)
      {
        assert dirs[..i + 1][..i] == dirs[..i] && dirs[i] in dirs;
        WalkedKeepsInv(old(View()), dirs[..i], isFull, now);
        ScanDir(dirs[i], isFull, now);
      }
      assert dirs[..|dirs|] == dirs;
      WalkedKeepsInv(old(View()), dirs, isFull, now);
    }
  }

  lemma AllReadable(tracks: map<nat, Track>, a: nat, files: seq<File>, isFull: bool, updates: seq<nat>)
    requires updates == OutdatedUpTo(tracks, a, files, |files|, isFull)
    requires forall k | 0 <= k < |updates| :: files[updates[k]].readable
    ensures !Unreadable(tracks, a, files, isFull)
  {
  }

  lemma NoFiles(s: State, a: nat, isFull: bool, now: int)
    requires a in s.albums
    ensures ScannedFiles(s, a, [], isFull, now) == s
  {
  }
}
