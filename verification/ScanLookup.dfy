/** From a file on disk through a scan to a lookup by path. */
module ScanLookup {
  import opened Library
  import opened Options
  import opened Walk
  import opened Rescan
  import opened Scans
  import P = Paths
  import S = SpecIdPaths

  /** The walk came to this folder under the music directory that its path is in. */
  ghost predicate WalkedAs(roots: seq<seq<string>>, d: Dir, folder: seq<string>) {
    && P.Names(folder) && (forall root | root in roots :: P.Names(root))
    && (d.root, P.RelPath(d.rel)) == S.Chosen(S.Dirs(roots), P.AbsPath(folder))
  }

  lemma NotTheRoot(roots: seq<seq<string>>, d: Dir, folder: seq<string>)
    requires DirOk(d) && WalkedAs(roots, d, folder)
    ensures d.root != "" && d.root != P.AbsPath(folder)
  {
    S.StartsWithName(d.rel);
    var dir := S.FirstPrefix(S.Dirs(roots), P.AbsPath(folder));
    assert dir.Some? && dir.value in S.Dirs(roots);
    if d.root == P.AbsPath(folder) {
      P.RelOfAbs(folder, folder);
      S.RelPathInjective(d.rel, []);
    }
  }

  lemma SettledHasTrack(albums: map<nat, Album>, tracks: map<nat, Track>, d: Dir, f: File) returns (a: nat, t: nat)
    requires Settled(albums, tracks, d) && f in d.files
    ensures a in albums && albums[a].path == Own(d)
    ensures t in tracks && tracks[t].album == a && tracks[t].filename == f.name
  {
    var p, own :| SettledAt(albums, tracks, d, p, own);
    assert Fresh(tracks, own, f);
    var row :| row in tracks && IsFresh(tracks[row], own, f);
    a, t := own, row;
  }

  /** After a good scan, looking up the path of a file that was there gives that file's track. */
  lemma ScannedFileIsFound(w: World, dirs: seq<Dir>, isFull: bool, now: int, d: Dir, f: File,
                           roots: seq<seq<string>>, folder: seq<string>, podcasts: string, m: S.Media, found: S.Found)
    requires GoodScan(w, dirs, isFull, now) && d in dirs && f in d.files
    requires WalkedAs(roots, d, folder) && P.IsName(f.name) && folder + [f.name] !in roots
    requires var c := Scanned(w, dirs, isFull, now).c; m.albums == c.albums && m.tracks == c.tracks
    requires var path := P.AbsPath(folder + [f.name]);
             !P.StringPrefix(path, podcasts) && S.Answers(m, S.Dirs(roots), podcasts, path, found)
    ensures found.Found? && found.id.TrackId? && S.TrackAt(m, found.id.id, Own(d), f.name)
    ensures S.Locate(m, found.id) == Some(P.AbsPath(folder + [f.name]))
  {
    hide Scanned, AllSettled, Settled, ErrorFree, Sheltered;
    ScanSettles(w, dirs, isFull, now);
    AllSettledHas(m.albums, m.tracks, dirs, d);
    ScanKeepsOk(w, dirs, isFull, now);
    var a, t := SettledHasTrack(m.albums, m.tracks, d, f);
    NotTheRoot(roots, d, folder);
    assert S.Scanned(m, roots, t, folder, f.name);
    S.PathOfScanned(m, roots, t, folder, f.name);
    S.LookupFindsScanned(m, roots, podcasts, t, folder, f.name, found);
  }

  lemma AllSettledHas(albums: map<nat, Album>, tracks: map<nat, Track>, dirs: seq<Dir>, d: Dir)
    requires AllSettled(albums, tracks, dirs) && d in dirs
    ensures Settled(albums, tracks, d)
  {
  }
}
