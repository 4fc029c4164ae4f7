/**
 * What a walk has seen, and what the clean steps then delete: the walk sees exactly the rows of the folders and
 * files it passes; the clean steps keep exactly those if and only if no seen row lies below an unseen one, which
 * can be told from the rows before the walk; and a walk over rows that are up to date changes none of them.
 */
module Rescan {
  import opened Library
  import opened Options
  import opened Walk
  import opened Clean
  import P = Paths
  import S = SpecIdPaths

  // What is seen ---------------------------------------------------------------------------

  predicate FolderOf(path: Triple, d: Dir) {
    path == Own(d) || path == Above(d)
  }

  predicate FileOf(s: State, t: nat, d: Dir)
    requires t in s.tracks && s.tracks[t].album in s.albums
  {
    s.albums[s.tracks[t].album].path == Own(d) && IsFile(d.files, s.tracks[t].filename)
  }

  /** The walk comes by this path: as a folder of its own, or right above one. */
  predicate IsMet(path: Triple, dirs: seq<Dir>) {
    exists d :: d in dirs && FolderOf(path, d)
  }

  predicate IsOwn(path: Triple, dirs: seq<Dir>) {
    exists d :: d in dirs && path == Own(d)
  }

  /** The seen albums are the walked folders and those right above them; the seen tracks are their files. */
  ghost predicate SeenExactly(s: State, dirs: seq<Dir>) {
    && (forall a | a in s.albums :: a in s.seenAlbums <==> IsMet(s.albums[a].path, dirs))
    && (forall t | t in s.tracks && s.tracks[t].album in s.albums :: t in s.seenTracks <==> exists d :: d in dirs && FileOf(s, t, d))
  }

  lemma SeenIsMet(s: State, dirs: seq<Dir>, b: nat)
    requires SeenExactly(s, dirs) && b in s.albums
    ensures b in s.seenAlbums <==> IsMet(s.albums[b].path, dirs)
  {
    hide IsMet, FileOf;
  }

  lemma MetMore(path: Triple, dirs: seq<Dir>, d: Dir)
    ensures IsMet(path, dirs + [d]) <==> IsMet(path, dirs) || FolderOf(path, d)
  {
    hide FolderOf;
    assert d in dirs + [d];
    if e :| e in dirs && FolderOf(path, e) { assert e in dirs + [d]; }
    if e :| e in dirs + [d] && FolderOf(path, e) { assert e in dirs || e == d; }
  }

  /** What a visit does to the album rows and to those seen. */
  ghost predicate AlbumsDone(s: State, s': State, d: Dir, p: nat, a: nat) {
    && s'.albums.Keys == s.albums.Keys + {p, a} && (forall b | b in s.albums :: s'.albums[b].path == s.albums[b].path)
    && (forall b | b in s'.albums :: FolderOf(s'.albums[b].path, d) <==> b == p || b == a)
    && s'.seenAlbums == s.seenAlbums + {p, a} && s.seenAlbums <= s.albums.Keys
  }

  lemma AlbumsAreDone(s: State, s': State, d: Dir, p: nat, a: nat, isFull: bool, now: int)
    requires Inv(s) && DirDone(s, s', d, p, a, isFull, now)
    ensures AlbumsDone(s, s', d, p, a)
  {
    hide OnlyFiles, AllUpToDate, Unreadable, Present, TracksOk;
  }

  lemma SeesAlbum(s: State, s': State, dirs: seq<Dir>, d: Dir, p: nat, a: nat, b: nat)
    requires SeenExactly(s, dirs) && AlbumsDone(s, s', d, p, a) && b in s'.albums
    ensures b in s'.seenAlbums <==> IsMet(s'.albums[b].path, dirs + [d])
  {
    hide IsMet, FolderOf, SeenExactly;
    MetMore(s'.albums[b].path, dirs, d);
    if b in s.albums { SeenIsMet(s, dirs, b); }
  }

  lemma SameFile(s: State, s': State, d: Dir, p: nat, a: nat, isFull: bool, now: int, t: nat, e: Dir)
    requires Inv(s) && DirDone(s, s', d, p, a, isFull, now) && t in s.tracks
    ensures t in s'.tracks && (FileOf(s', t, e) <==> FileOf(s, t, e))
  {
    assert KeptTrack(s.tracks[t], s'.tracks[t], a, now);
  }

  lemma FileIsPresent(s: State, s': State, d: Dir, p: nat, a: nat, isFull: bool, now: int, t: nat)
    requires DirDone(s, s', d, p, a, isFull, now) && t in s'.tracks
    ensures FileOf(s', t, d) <==> t in Present(s'.tracks, a, d.files)
    ensures t !in s.tracks ==> t in Present(s'.tracks, a, d.files)
  {
  }

  lemma SeesTrack(s: State, s': State, dirs: seq<Dir>, d: Dir, p: nat, a: nat, isFull: bool, now: int, t: nat)
    requires Inv(s) && SeenExactly(s, dirs) && DirDone(s, s', d, p, a, isFull, now) && t in s'.tracks
    ensures t in s'.seenTracks <==> exists e :: e in dirs + [d] && FileOf(s', t, e)
  {
    FileIsPresent(s, s', d, p, a, isFull, now, t);
    assert d in dirs + [d];
    if t in s.tracks {
      forall e ensures FileOf(s', t, e) <==> FileOf(s, t, e) { SameFile(s, s', d, p, a, isFull, now, t, e); }
      SeenOrPresent(s, dirs, d, t);
    }
  }

  lemma SeenOrPresent(s: State, dirs: seq<Dir>, d: Dir, t: nat)
    requires Inv(s) && SeenExactly(s, dirs) && t in s.tracks
    ensures (exists e :: e in dirs + [d] && FileOf(s, t, e)) <==> t in s.seenTracks || FileOf(s, t, d)
  {
    assert d in dirs + [d];
    if t in s.seenTracks {
      var e :| e in dirs && FileOf(s, t, e);
      assert e in dirs + [d];
    }
    if e :| e in dirs + [d] && FileOf(s, t, e) {
      assert e == d || e in dirs;
    }
  }

  lemma SeesMore(s: State, s': State, dirs: seq<Dir>, d: Dir, p: nat, a: nat, isFull: bool, now: int)
    requires Inv(s) && SeenExactly(s, dirs) && DirDone(s, s', d, p, a, isFull, now)
    ensures SeenExactly(s', dirs + [d])
  {
    AlbumsAreDone(s, s', d, p, a, isFull, now);
    forall b | b in s'.albums ensures b in s'.seenAlbums <==> IsMet(s'.albums[b].path, dirs + [d]) {
      SeesAlbum(s, s', dirs, d, p, a, b);
    }
    forall t | t in s'.tracks ensures t in s'.seenTracks <==> exists e :: e in dirs + [d] && FileOf(s', t, e) {
      SeesTrack(s, s', dirs, d, p, a, isFull, now, t);
    }
  }

  predicate AllOk(dirs: seq<Dir>) {
    forall d | d in dirs :: DirOk(d)
  }

  lemma Snoc(dirs: seq<Dir>)
    requires dirs != [] && AllOk(dirs)
    ensures dirs == dirs[..|dirs| - 1] + [dirs[|dirs| - 1]] && AllOk(dirs[..|dirs| - 1])
    ensures DirOk(dirs[|dirs| - 1]) && Above(dirs[|dirs| - 1]) != Own(dirs[|dirs| - 1])
  {
    assert dirs[|dirs| - 1] in dirs;
    AboveIsNotOwn(dirs[|dirs| - 1]);
  }

  lemma {:induction false} WalkSees(s: State, dirs: seq<Dir>, isFull: bool, now: int)
    requires Inv(s) && s.seenAlbums == {} && s.seenTracks == {} && AllOk(dirs)
    ensures SeenExactly(Walked(s, dirs, isFull, now), dirs)
  {
    if dirs != [] {
      var init, d := dirs[..|dirs| - 1], dirs[|dirs| - 1];
      Snoc(dirs);
      WalkSees(s, init, isFull, now);
      WalkedKeepsInv(s, init, isFull, now);
      var before := Walked(s, init, isFull, now);
      var p, a := ScannedDirDone(before, d, isFull, now);
      SeesMore(before, ScannedDir(before, d, isFull, now), init, d, p, a, isFull, now);
    }
  }

  // Parents of seen rows -------------------------------------------------------------------------

  predicate IsTop(path: Triple) {
    path.left == "" && path.right == "."
  }

  /** The rows of the music directories themselves have no parent. */
  ghost predicate TopsAreTop(albums: map<nat, Album>) {
    forall a | a in albums && IsTop(albums[a].path) :: albums[a].parent == None
  }

  /** The folder's row names the row of the folder above as its parent. */
  ghost predicate ParentSet(albums: map<nat, Album>, d: Dir) {
    exists p, a :: p in albums && a in albums && albums[p].path == Above(d) && albums[a].path == Own(d) && albums[a].parent == Some(p)
  }

  lemma OwnDecides(d: Dir, e: Dir)
    requires DirOk(d) && DirOk(e) && Own(d) == Own(e)
    ensures d.root == e.root && d.rel == e.rel && Above(d) == Above(e)
  {
    S.TripleInjective(d.root, d.rel, e.rel);
  }

  lemma OwnIsNotTop(d: Dir)
    requires DirOk(d)
    ensures !IsTop(Own(d))
  {
    S.TripleIsPlace(d.root, d.rel);
    if IsTop(Own(d)) { S.PlaceInjective(d.rel, []); }
  }

  lemma TopsStayTop(s: State, s': State, d: Dir, p: nat, a: nat, isFull: bool, now: int)
    requires DirOk(d) && TopsAreTop(s.albums) && DirDone(s, s', d, p, a, isFull, now)
    ensures TopsAreTop(s'.albums)
  {
    OwnIsNotTop(d);
  }

  lemma {:induction false} WalkKeepsTops(s: State, dirs: seq<Dir>, isFull: bool, now: int)
    requires Inv(s) && TopsAreTop(s.albums) && AllOk(dirs)
    ensures TopsAreTop(Walked(s, dirs, isFull, now).albums)
  {
    hide ScannedDir, DirDone, TopsAreTop;
    if dirs != [] {
      var init, e := dirs[..|dirs| - 1], dirs[|dirs| - 1];
      Snoc(dirs);
      WalkKeepsTops(s, init, isFull, now);
      WalkedKeepsInv(s, init, isFull, now);
      var p, a := ScannedDirDone(Walked(s, init, isFull, now), e, isFull, now);
      TopsStayTop(Walked(s, init, isFull, now), Walked(s, dirs, isFull, now), e, p, a, isFull, now);
    }
  }

  ghost predicate ParentsSet(albums: map<nat, Album>, dirs: seq<Dir>) {
    forall d | d in dirs :: ParentSet(albums, d)
  }

  /** Rows that are no walked folder's own have the parent they had before the walk; new ones have none. */
  ghost predicate OthersKept(before: map<nat, Album>, after: map<nat, Album>, dirs: seq<Dir>) {
    forall b | b in after && !IsOwn(after[b].path, dirs) :: after[b].parent == if b in before then before[b].parent else None
  }

  lemma ParentStaysSet(s: State, s': State, d: Dir, e: Dir, p: nat, a: nat, isFull: bool, now: int)
    requires DirOk(d) && DirOk(e) && DirDone(s, s', e, p, a, isFull, now) && (d == e || ParentSet(s.albums, d))
    ensures ParentSet(s'.albums, d)
  {
    if Own(d) == Own(e) {
      OwnDecides(d, e);
    } else {
      var q, b :| q in s.albums && b in s.albums && s.albums[q].path == Above(d) && s.albums[b].path == Own(d) && s.albums[b].parent == Some(q);
      assert b != a && s'.albums[b] == s.albums[b] && s'.albums[q].path == Above(d);
    }
  }

  lemma OtherIsKept(first: map<nat, Album>, s: State, s': State, dirs: seq<Dir>, e: Dir, p: nat, a: nat, isFull: bool, now: int, b: nat)
    requires OthersKept(first, s.albums, dirs) && first.Keys <= s.albums.Keys && DirDone(s, s', e, p, a, isFull, now)
    requires b in s'.albums && !IsOwn(s'.albums[b].path, dirs + [e])
    ensures s'.albums[b].parent == if b in first then first[b].parent else None
  {
    assert e in dirs + [e] && b != a;
    assert forall d | d in dirs :: d in dirs + [e];
  }

  lemma VisitSetsParents(first: map<nat, Album>, s: State, s': State, dirs: seq<Dir>, e: Dir, p: nat, a: nat, isFull: bool, now: int)
    requires AllOk(dirs) && DirOk(e) && DirDone(s, s', e, p, a, isFull, now)
    requires ParentsSet(s.albums, dirs) && OthersKept(first, s.albums, dirs) && first.Keys <= s.albums.Keys
    ensures ParentsSet(s'.albums, dirs + [e]) && OthersKept(first, s'.albums, dirs + [e])
  {
    hide DirDone, ParentSet, Own, Above;
    forall d | d in dirs + [e] ensures ParentSet(s'.albums, d) { ParentStaysSet(s, s', d, e, p, a, isFull, now); }
    forall b | b in s'.albums && !IsOwn(s'.albums[b].path, dirs + [e])
      ensures s'.albums[b].parent == if b in first then first[b].parent else None
    {
      OtherIsKept(first, s, s', dirs, e, p, a, isFull, now, b);
    }
  }

  lemma {:induction false} WalkSetsParents(s: State, dirs: seq<Dir>, isFull: bool, now: int)
    requires Inv(s) && AllOk(dirs)
    ensures var albums := Walked(s, dirs, isFull, now).albums;
            ParentsSet(albums, dirs) && OthersKept(s.albums, albums, dirs)
  {
    hide ScannedDir, DirDone, ParentsSet, OthersKept;
    if dirs == [] {
      NothingSet(s.albums);
    } else {
      var init, e := dirs[..|dirs| - 1], dirs[|dirs| - 1];
      Snoc(dirs);
      WalkSetsParents(s, init, isFull, now);
      WalkedKeepsInv(s, init, isFull, now);
      var before := Walked(s, init, isFull, now);
      var p, a := ScannedDirDone(before, e, isFull, now);
      VisitSetsParents(s.albums, before, Walked(s, dirs, isFull, now), init, e, p, a, isFull, now);
    }
  }

  lemma NothingSet(albums: map<nat, Album>)
    ensures ParentsSet(albums, []) && OthersKept(albums, albums, [])
  {
  }

  lemma SeenParent(s: State, dirs: seq<Dir>, a: nat, d: Dir)
    requires AlbumsOk(s) && SeenExactly(s, dirs) && d in dirs && ParentSet(s.albums, d) && a in s.albums && s.albums[a].path == Own(d)
    ensures s.albums[a].parent.Some? && s.albums[a].parent.value in s.albums && s.albums[a].parent.value in s.seenAlbums
    ensures s.albums[s.albums[a].parent.value].path == Above(d)
  {
    var p, b :| p in s.albums && b in s.albums && s.albums[p].path == Above(d) && s.albums[b].path == Own(d) && s.albums[b].parent == Some(p);
    assert a == b;
    assert FolderOf(s.albums[p].path, d);
  }

  // When the clean steps keep what was seen ----------------------------------------------------

  /**
   * Before the walk: where a row is met only as the folder above another one, and so will keep the parent it
   * has, that parent is met too.
   */
  ghost predicate Sheltered(albums: map<nat, Album>, dirs: seq<Dir>) {
    forall q | q in albums && albums[q].parent.Some? && albums[q].parent.value in albums && IsMet(albums[q].path, dirs) && !IsOwn(albums[q].path, dirs) ::
      IsMet(albums[albums[q].parent.value].path, dirs)
  }

  /** What the walk leaves of the rows, as far as the parents of the seen ones go. */
  ghost predicate WalkedOver(before: map<nat, Album>, s: State, dirs: seq<Dir>) {
    && AlbumsOk(s) && SeenExactly(s, dirs) && ParentsSet(s.albums, dirs) && OthersKept(before, s.albums, dirs)
    && KeepsRows(before, s.albums) && ParentsExist(before)
  }

  lemma ShelteredIsClosed(before: map<nat, Album>, s: State, dirs: seq<Dir>, a: nat)
    requires WalkedOver(before, s, dirs) && Sheltered(before, dirs)
    requires a in s.seenAlbums && s.albums[a].parent.Some? && s.albums[a].parent.value in s.albums
    ensures s.albums[a].parent.value in s.seenAlbums
  {
    if IsOwn(s.albums[a].path, dirs) {
      var d :| d in dirs && s.albums[a].path == Own(d);
      SeenParent(s, dirs, a, d);
    } else {
      assert a in before && s.albums[a].parent == before[a].parent;
    }
  }

  lemma ClosedIsSheltered(before: map<nat, Album>, s: State, dirs: seq<Dir>)
    requires WalkedOver(before, s, dirs) && ClosedUnderParents(s.albums, s.seenAlbums)
    ensures Sheltered(before, dirs)
  {
    forall q | q in before && before[q].parent.Some? && before[q].parent.value in before && IsMet(before[q].path, dirs) && !IsOwn(before[q].path, dirs)
      ensures IsMet(before[before[q].parent.value].path, dirs)
    {
      assert s.albums[q].parent == before[q].parent && q in s.seenAlbums;
    }
  }

  lemma WalkGoesOver(s: State, dirs: seq<Dir>, isFull: bool, now: int)
    requires Inv(s) && s.seenAlbums == {} && s.seenTracks == {} && ParentsExist(s.albums) && AllOk(dirs)
    ensures WalkedOver(s.albums, Walked(s, dirs, isFull, now), dirs)
  {
    WalkedKeepsInv(s, dirs, isFull, now);
    WalkSees(s, dirs, isFull, now);
    WalkSetsParents(s, dirs, isFull, now);
  }

  /** The parents of seen rows are seen if and only if the rows before the walk are sheltered. */
  lemma ClosedIffSheltered(s: State, dirs: seq<Dir>, isFull: bool, now: int)
    requires Inv(s) && s.seenAlbums == {} && s.seenTracks == {} && ParentsExist(s.albums) && AllOk(dirs)
    ensures var s' := Walked(s, dirs, isFull, now);
            ClosedUnderParents(s'.albums, s'.seenAlbums) <==> Sheltered(s.albums, dirs)
  {
    hide Sheltered, WalkedOver;
    var s' := Walked(s, dirs, isFull, now);
    WalkGoesOver(s, dirs, isFull, now);
    if Sheltered(s.albums, dirs) {
      forall a | a in s'.albums && a in s'.seenAlbums && s'.albums[a].parent.Some? && s'.albums[a].parent.value in s'.albums
        ensures s'.albums[a].parent.value in s'.seenAlbums
      {
        ShelteredIsClosed(s.albums, s', dirs, a);
      }
    } else if ClosedUnderParents(s'.albums, s'.seenAlbums) {
      ClosedIsSheltered(s.albums, s', dirs);
    }
  }

  /** No folder between a walked one and its music directory was excluded or could not be read. */
  predicate NoneLeftOut(dirs: seq<Dir>) {
    forall d | d in dirs && |d.rel| > 1 :: exists e :: e in dirs && e.root == d.root && e.rel == d.rel[..|d.rel| - 1]
  }

  /** The folder above is a music directory, or is a walked folder itself. */
  lemma AboveIsTopOrWalked(dirs: seq<Dir>, d: Dir)
    requires AllOk(dirs) && NoneLeftOut(dirs) && d in dirs
    ensures IsTop(Above(d)) || IsOwn(Above(d), dirs)
  {
    S.ParentTripleIsOwn(d.root, d.rel);
    if |d.rel| == 1 {
      S.TripleIsPlace(d.root, d.rel[..0]);
    } else {
      var e :| e in dirs && e.root == d.root && e.rel == d.rel[..|d.rel| - 1];
      assert Own(e) == Above(d);
    }
  }

  /** With no folder left out, every row is sheltered. */
  lemma NoneLeftOutShelters(albums: map<nat, Album>, dirs: seq<Dir>)
    requires TopsAreTop(albums) && AllOk(dirs) && NoneLeftOut(dirs)
    ensures Sheltered(albums, dirs)
  {
    hide Own, Above;
    forall q | q in albums && IsMet(albums[q].path, dirs) && !IsOwn(albums[q].path, dirs) ensures albums[q].parent.None? {
      var d :| d in dirs && FolderOf(albums[q].path, d);
      AboveIsTopOrWalked(dirs, d);
    }
  }

  // A second scan ----------------------------------------------------------------------------------

  /** The file's row is not older than the file. */
  ghost predicate Fresh(tracks: map<nat, Track>, a: nat, f: File) {
    exists t :: t in tracks && IsFresh(tracks[t], a, f)
  }

  predicate IsFresh(row: Track, a: nat, f: File) {
    row.album == a && row.filename == f.name && f.mtime <= row.updatedAt
  }

  /** The rows already say what the folder says. */
  ghost predicate SettledAt(albums: map<nat, Album>, tracks: map<nat, Track>, d: Dir, p: nat, a: nat) {
    FolderRows(albums, d, p, a) && forall f | f in d.files :: Fresh(tracks, a, f)
  }

  ghost predicate Settled(albums: map<nat, Album>, tracks: map<nat, Track>, d: Dir) {
    exists p, a :: SettledAt(albums, tracks, d, p, a)
  }

  /** The tree does not change during the walk: the same folder met twice is the same. */
  predicate Steady(dirs: seq<Dir>) {
    forall d, e | d in dirs && e in dirs && d.root == e.root && d.rel == e.rel :: d == e
  }

  ghost predicate HasFreshRow(albums: map<nat, Album>, tracks: map<nat, Track>, d: Dir, f: File) {
    exists a :: a in albums && albums[a].path == Own(d) && Fresh(tracks, a, f)
  }

  /** Every file that has to be read can be, and none is newer than the scan. */
  ghost predicate ErrorFree(albums: map<nat, Album>, tracks: map<nat, Track>, dirs: seq<Dir>, isFull: bool, now: int) {
    forall d, f | d in dirs && f in d.files :: IsFine(albums, tracks, d, f, isFull, now)
  }

  ghost predicate IsFine(albums: map<nat, Album>, tracks: map<nat, Track>, d: Dir, f: File, isFull: bool, now: int) {
    f.mtime <= now && (f.readable || (!isFull && HasFreshRow(albums, tracks, d, f)))
  }

  lemma FreshStays(tracks: map<nat, Track>, tracks': map<nat, Track>, a: nat, files: seq<File>, now: int, b: nat, f: File)
    requires OnlyFiles(tracks, tracks', a, files, now) && Fresh(tracks, b, f) && f.mtime <= now
    ensures Fresh(tracks', b, f)
  {
    var t :| t in tracks && IsFresh(tracks[t], b, f);
    assert KeptTrack(tracks[t], tracks'[t], a, now);
    assert t in tracks' && IsFresh(tracks'[t], b, f);
  }

  lemma StaysFine(s: State, s': State, e: Dir, p: nat, a: nat, isFull: bool, now: int, d: Dir, f: File)
    requires DirDone(s, s', e, p, a, isFull, now) && IsFine(s.albums, s.tracks, d, f, isFull, now)
    ensures IsFine(s'.albums, s'.tracks, d, f, isFull, now)
  {
    hide Own, Above, Fresh;
    if !f.readable {
      var b :| b in s.albums && s.albums[b].path == Own(d) && Fresh(s.tracks, b, f);
      FreshStays(s.tracks, s'.tracks, a, e.files, now, b, f);
      assert b in s'.albums && s'.albums[b].path == Own(d) && Fresh(s'.tracks, b, f);
    }
  }

  lemma {:induction false} WalkStaysErrorFree(s: State, done: seq<Dir>, dirs: seq<Dir>, isFull: bool, now: int)
    requires Inv(s) && AllOk(done) && ErrorFree(s.albums, s.tracks, dirs, isFull, now)
    ensures var s' := Walked(s, done, isFull, now); ErrorFree(s'.albums, s'.tracks, dirs, isFull, now)
  {
    hide ScannedDir, DirDone, IsFine;
    if done != [] {
      var init, e := done[..|done| - 1], done[|done| - 1];
      Snoc(done);
      WalkStaysErrorFree(s, init, dirs, isFull, now);
      WalkedKeepsInv(s, init, isFull, now);
      var before, s' := Walked(s, init, isFull, now), Walked(s, done, isFull, now);
      var p, a := ScannedDirDone(before, e, isFull, now);
      forall d, f | d in dirs && f in d.files ensures IsFine(s'.albums, s'.tracks, d, f, isFull, now) {
        StaysFine(before, s', e, p, a, isFull, now, d, f);
      }
    }
  }

  /** What has to be read of a folder can be read. */
  lemma FineIsReadable(s: State, s': State, d: Dir, p: nat, a: nat, isFull: bool, now: int, f: File)
    requires Inv(s) && DirDone(s, s', d, p, a, isFull, now)
    requires IsFine(s.albums, s.tracks, d, f, isFull, now) && Outdated(s.tracks, a, f, isFull)
    ensures f.readable
  {
    hide Own, Above;
    if !f.readable {
      var b :| b in s.albums && s.albums[b].path == Own(d) && Fresh(s.tracks, b, f);
      assert b in s'.albums && s'.albums[b].path == Own(d);
      assert b == a;
      FreshIsNotOutdated(s.tracks, a, f);
    }
  }

  lemma UpToDateIsFresh(tracks: map<nat, Track>, a: nat, files: seq<File>, f: File, isFull: bool, now: int)
    requires AllUpToDate(tracks, a, files, |files|, isFull, now) && f in files && f.mtime <= now
    ensures Fresh(tracks, a, f)
  {
    var i :| 0 <= i < |files| && files[i] == f;
    assert UpToDate(tracks, a, files[i], isFull, now);
    var t :| t in tracks && Holds(tracks[t], a, f, isFull, now);
    assert IsFresh(tracks[t], a, f);
  }

  lemma VisitSettles(s: State, s': State, d: Dir, p: nat, a: nat, isFull: bool, now: int)
    requires Inv(s) && DirDone(s, s', d, p, a, isFull, now)
    requires forall f | f in d.files :: IsFine(s.albums, s.tracks, d, f, isFull, now)
    ensures SettledAt(s'.albums, s'.tracks, d, p, a)
  {
    hide Own, Above, HasFreshRow;
    forall f | f in d.files && Outdated(s.tracks, a, f, isFull) ensures f.readable {
      FineIsReadable(s, s', d, p, a, isFull, now, f);
    }
    assert AllUpToDate(s'.tracks, a, d.files, |d.files|, isFull, now);
    hide DirDone, Inv;
    forall f | f in d.files ensures Fresh(s'.tracks, a, f) {
      UpToDateIsFresh(s'.tracks, a, d.files, f, isFull, now);
    }
  }

  lemma StaysSettled(s: State, s': State, d: Dir, e: Dir, p: nat, a: nat, isFull: bool, now: int)
    requires Inv(s) && DirDone(s, s', e, p, a, isFull, now) && Own(d) != Own(e) && Settled(s.albums, s.tracks, d)
    ensures Settled(s'.albums, s'.tracks, d)
  {
    var q, b :| SettledAt(s.albums, s.tracks, d, q, b);
    assert b != a && s'.albums[b] == s.albums[b];
    assert q in s'.albums && s'.albums[q].path == s.albums[q].path;
    forall f | f in d.files ensures Fresh(s'.tracks, b, f) {
      var t :| t in s.tracks && IsFresh(s.tracks[t], b, f);
      assert KeptTrack(s.tracks[t], s'.tracks[t], a, now);
      assert t in s'.tracks && IsFresh(s'.tracks[t], b, f);
    }
    assert SettledAt(s'.albums, s'.tracks, d, q, b);
  }

  ghost predicate AllSettled(albums: map<nat, Album>, tracks: map<nat, Track>, dirs: seq<Dir>) {
    forall d | d in dirs :: Settled(albums, tracks, d)
  }

  lemma SnocSteady(dirs: seq<Dir>)
    requires dirs != [] && Steady(dirs)
    ensures Steady(dirs[..|dirs| - 1])
  {
  }

  lemma VisitKeepsSettled(s: State, s': State, dirs: seq<Dir>, p: nat, a: nat, isFull: bool, now: int)
    requires Inv(s) && dirs != [] && AllOk(dirs) && Steady(dirs) && ErrorFree(s.albums, s.tracks, dirs, isFull, now)
    requires AllSettled(s.albums, s.tracks, dirs[..|dirs| - 1]) && DirDone(s, s', dirs[|dirs| - 1], p, a, isFull, now)
    ensures AllSettled(s'.albums, s'.tracks, dirs)
  {
    hide DirDone, IsFine, SettledAt, Own;
    var e := dirs[|dirs| - 1];
    Snoc(dirs);
    VisitSettles(s, s', e, p, a, isFull, now);
    forall d | d in dirs ensures Settled(s'.albums, s'.tracks, d) {
      if Own(d) == Own(e) { OwnDecides(d, e); } else { StaysSettled(s, s', d, e, p, a, isFull, now); }
    }
  }

  lemma {:induction false} WalkSettles(s: State, dirs: seq<Dir>, isFull: bool, now: int)
    requires Inv(s) && AllOk(dirs) && Steady(dirs) && ErrorFree(s.albums, s.tracks, dirs, isFull, now)
    ensures AllSettled(Walked(s, dirs, isFull, now).albums, Walked(s, dirs, isFull, now).tracks, dirs)
  {
    hide ScannedDir, DirDone, IsFine, Settled;
    if dirs != [] {
      var init, e := dirs[..|dirs| - 1], dirs[|dirs| - 1];
      Snoc(dirs);
      SnocSteady(dirs);
      assert ErrorFree(s.albums, s.tracks, init, isFull, now);
      WalkSettles(s, init, isFull, now);
      WalkStaysErrorFree(s, init, dirs, isFull, now);
      WalkedKeepsInv(s, init, isFull, now);
      var before := Walked(s, init, isFull, now);
      var p, a := ScannedDirDone(before, e, isFull, now);
      VisitKeepsSettled(before, Walked(s, dirs, isFull, now), dirs, p, a, isFull, now);
    }
  }

  lemma FreshIsNotOutdated(tracks: map<nat, Track>, a: nat, f: File)
    requires UniqueFiles(tracks) && Fresh(tracks, a, f)
    ensures !Outdated(tracks, a, f, false)
  {
  }

  lemma {:induction false} NothingUpdated(s: State, a: nat, files: seq<File>, n: nat, now: int)
    requires n <= |files| && a in s.albums && forall f | f in files :: !Outdated(s.tracks, a, f, false)
    ensures Updated(s, a, files, n, false, now) == s
  {
    if n > 0 { NothingUpdated(s, a, files, n - 1, now); }
  }

  lemma SettledFolders(s: State, d: Dir, p: nat, a: nat)
    requires Inv(s) && FolderRows(s.albums, d, p, a)
    ensures Folders(s, d) == (s.(seenAlbums := s.seenAlbums + {p} + {a}), a)
  {
    LookupFinds(s.albums, p);
    LookupFinds(s.albums, a);
    assert s.albums[a := s.albums[a].(cover := d.cover, parent := Some(p))] == s.albums;
  }

  /** An incremental visit to a settled folder only notes what it sees. */
  lemma SettledVisit(s: State, d: Dir, now: int)
    requires Inv(s) && Settled(s.albums, s.tracks, d)
    ensures var s' := ScannedDir(s, d, false, now); s' == s.(seenAlbums := s'.seenAlbums, seenTracks := s'.seenTracks)
  {
    var p, a :| SettledAt(s.albums, s.tracks, d, p, a);
    SettledFolders(s, d, p, a);
    forall f | f in d.files ensures !Outdated(s.tracks, a, f, false) { FreshIsNotOutdated(s.tracks, a, f); }
    var s1 := Folders(s, d).0;
    NothingUpdated(s1.(seenTracks := s1.seenTracks + Present(s1.tracks, a, d.files)), a, d.files, |d.files|, now);
  }

  lemma {:induction false} SettledWalk(s: State, dirs: seq<Dir>, now: int)
    requires Inv(s) && AllOk(dirs) && AllSettled(s.albums, s.tracks, dirs)
    ensures var s' := Walked(s, dirs, false, now); s' == s.(seenAlbums := s'.seenAlbums, seenTracks := s'.seenTracks)
  {
    if dirs != [] {
      Snoc(dirs);
      SettledWalk(s, dirs[..|dirs| - 1], now);
      WalkedKeepsInv(s, dirs[..|dirs| - 1], false, now);
      SettledVisit(Walked(s, dirs[..|dirs| - 1], false, now), dirs[|dirs| - 1], now);
    }
  }
}
