/** What a whole walk leaves of tags, told from the rows before it and from the files it comes by. */
module TagWalk {
  import opened Library
  import opened Options
  import opened Walk
  import opened Rescan
  import opened Tagging

  /** The track is the row of this file of the folder. */
  predicate HasRow(s: State, d: Dir, f: File, t: nat) {
    && t in s.tracks && s.tracks[t].album in s.albums && s.albums[s.tracks[t].album].path == Own(d)
    && s.tracks[t].filename == f.name
  }

  ghost predicate HasFresh(s: State, d: Dir, f: File) {
    exists t :: HasRow(s, d, f, t) && f.mtime <= s.tracks[t].updatedAt
  }

  /** The file has to be read: it has no row that is not older, or the scan is full. */
  ghost predicate NeedsAt(s: State, d: Dir, f: File, isFull: bool) {
    isFull || !HasFresh(s, d, f)
  }

  /** Every file of the folder that has to be read can be; otherwise none of them is. */
  ghost predicate CanRead(s: State, d: Dir, isFull: bool) {
    forall f | f in d.files && NeedsAt(s, d, f, isFull) :: f.readable
  }

  ghost predicate IsRead(s: State, d: Dir, f: File, isFull: bool) {
    f in d.files && CanRead(s, d, isFull) && NeedsAt(s, d, f, isFull)
  }

  ghost predicate RowSays(s: State, d: Dir, f: File) {
    exists t :: HasRow(s, d, f, t) && TrackSays(s, t, f.tags)
  }

  ghost predicate FolderSays(s: State, d: Dir, tags: Tags) {
    exists a :: a in s.albums && s.albums[a].path == Own(d) && AlbumSays(s, a, tags)
  }

  /** The track is the row of a file that is read. */
  ghost predicate WillWrite(s: State, dirs: seq<Dir>, isFull: bool, t: nat) {
    exists d, f :: d in dirs && IsRead(s, d, f, isFull) && HasRow(s, d, f, t)
  }

  /** The album is a folder's whose first file is read. */
  ghost predicate WillTitle(s: State, dirs: seq<Dir>, isFull: bool, b: nat)
    requires b in s.albums
  {
    exists d :: d in dirs && d.files != [] && IsRead(s, d, d.files[0], isFull) && s.albums[b].path == Own(d)
  }

  /** What the walk leaves of tags, by the rows there were before it. */
  ghost predicate WalkTold(s: State, s': State, dirs: seq<Dir>, isFull: bool) {
    && (forall d, f | d in dirs && IsRead(s, d, f, isFull) :: RowSays(s', d, f))
    && (forall d | d in dirs && d.files != [] && IsRead(s, d, d.files[0], isFull) :: FolderSays(s', d, d.files[0].tags))
    && (forall t | t in s.tracks && !WillWrite(s, dirs, isFull, t) :: SameTrack(s, s', t))
    && (forall b | b in s.albums && !WillTitle(s, dirs, isFull, b) :: SameAlbum(s, s', b))
  }

  /** New tracks are of folders that are read. */
  ghost predicate NewAreRead(s: State, s': State, dirs: seq<Dir>, isFull: bool) {
    forall t | t in s'.tracks && t !in s.tracks :: IsNewOf(s, s', dirs, isFull, t)
  }

  ghost predicate IsNewOf(s: State, s': State, dirs: seq<Dir>, isFull: bool, t: nat) {
    && t in s'.tracks && s'.tracks[t].album in s'.albums
    && exists d :: d in dirs && CanRead(s, d, isFull) && s'.albums[s'.tracks[t].album].path == Own(d)
  }

  ghost predicate KeepsTracks(s: State, s': State) {
    forall t | t in s.tracks :: t in s'.tracks && s'.tracks[t].album == s.tracks[t].album && s'.tracks[t].filename == s.tracks[t].filename
  }

  /** All that is known of the walk up to some folder. */
  ghost predicate SoFar(s: State, s': State, dirs: seq<Dir>, isFull: bool) {
    && Inv(s) && Inv(s') && KeepsRows(s.albums, s'.albums) && KeepsTracks(s, s') && AllOk(dirs)
    && WalkTold(s, s', dirs, isFull) && NewAreRead(s, s', dirs, isFull)
  }

  // What has to be read now, and what had to be before the walk ------------------------------------

  lemma NeedsByRow(s: State, a: nat, d: Dir, f: File, isFull: bool)
    requires Inv(s) && (a in s.albums ==> s.albums[a].path == Own(d))
    requires a !in s.albums ==> forall b | b in s.albums :: s.albums[b].path != Own(d)
    ensures Needs(s.tracks, a, f, isFull) <==> NeedsAt(s, d, f, isFull)
  {
    hide Own;
    if t :| t in s.tracks && IsFresh(s.tracks[t], a, f) {
      assert HasRow(s, d, f, t);
    }
    if t :| HasRow(s, d, f, t) && f.mtime <= s.tracks[t].updatedAt {
      assert s.tracks[t].album == a && IsFresh(s.tracks[t], a, f);
    }
  }

  lemma SameDir(dirs: seq<Dir>, d: Dir, e: Dir)
    requires AllOk(dirs) && Steady(dirs) && d in dirs && e in dirs && Own(d) == Own(e)
    ensures d == e
  {
    OwnDecides(d, e);
  }

  lemma SameFileName(d: Dir, f: File, g: File)
    requires DirOk(d) && f in d.files && g in d.files && f.name == g.name
    ensures f == g
  {
    var i :| 0 <= i < |d.files| && d.files[i] == f;
    var j :| 0 <= j < |d.files| && d.files[j] == g;
  }

  predicate PartOf(part: seq<Dir>, dirs: seq<Dir>) {
    forall d | d in part :: d in dirs
  }

  /** A row that was not older before the walk is not touched by it. */
  lemma FreshIsNotWritten(s: State, part: seq<Dir>, dirs: seq<Dir>, isFull: bool, d: Dir, f: File, t: nat)
    requires AllOk(dirs) && Steady(dirs) && PartOf(part, dirs) && d in dirs && f in d.files && !isFull
    requires HasRow(s, d, f, t) && f.mtime <= s.tracks[t].updatedAt
    ensures !WillWrite(s, part, isFull, t)
  {
    hide Own, CanRead;
    if e, g :| e in part && IsRead(s, e, g, isFull) && HasRow(s, e, g, t) {
      SameDir(dirs, d, e);
      SameFileName(d, f, g);
    }
  }

  lemma RowStays(s: State, s': State, d: Dir, f: File, t: nat)
    requires Inv(s) && KeepsRows(s.albums, s'.albums) && SameTrack(s, s', t)
    ensures HasRow(s', d, f, t) <==> HasRow(s, d, f, t)
  {
    hide Own, IdsOf;
  }

  lemma NeedsShrink(s: State, s': State, part: seq<Dir>, dirs: seq<Dir>, isFull: bool, d: Dir, f: File)
    requires SoFar(s, s', part, isFull) && AllOk(dirs) && Steady(dirs) && PartOf(part, dirs) && d in dirs && f in d.files
    ensures NeedsAt(s', d, f, isFull) ==> NeedsAt(s, d, f, isFull)
  {
    hide Own, IdsOf, CanRead, WillWrite;
    if !isFull {
      if t :| HasRow(s, d, f, t) && f.mtime <= s.tracks[t].updatedAt {
        FreshIsNotWritten(s, part, dirs, isFull, d, f, t);
        RowStays(s, s', d, f, t);
        assert HasRow(s', d, f, t) && f.mtime <= s'.tracks[t].updatedAt;
      }
    }
  }

  /** A track of a folder that has not been read yet is as it was. */
  lemma NotYetWritten(s: State, s': State, part: seq<Dir>, dirs: seq<Dir>, isFull: bool, d: Dir, f: File, t: nat)
    requires SoFar(s, s', part, isFull) && AllOk(dirs) && Steady(dirs) && PartOf(part, dirs) && d in dirs
    requires d !in part || !CanRead(s, d, isFull)
    requires HasRow(s', d, f, t)
    ensures SameTrack(s, s', t) && HasRow(s, d, f, t)
  {
    hide Own, IdsOf, CanRead, FolderSays, RowSays;
    if t !in s.tracks {
      assert IsNewOf(s, s', part, isFull, t);
      var e :| e in part && CanRead(s, e, isFull) && s'.albums[s'.tracks[t].album].path == Own(e);
      SameDir(dirs, d, e);
      assert false;
    }
    NotOfThese(s, s', part, dirs, isFull, d, f, t);
  }

  lemma SameRow(s: State, s': State, d: Dir, f: File, t: nat)
    requires Inv(s) && KeepsRows(s.albums, s'.albums) && KeepsTracks(s, s') && t in s.tracks
    ensures HasRow(s', d, f, t) <==> HasRow(s, d, f, t)
  {
    hide Own;
  }

  lemma NotOfThese(s: State, s': State, part: seq<Dir>, dirs: seq<Dir>, isFull: bool, d: Dir, f: File, t: nat)
    requires SoFar(s, s', part, isFull) && AllOk(dirs) && Steady(dirs) && PartOf(part, dirs) && d in dirs
    requires (d !in part || !CanRead(s, d, isFull)) && HasRow(s', d, f, t) && t in s.tracks
    ensures SameTrack(s, s', t) && HasRow(s, d, f, t)
  {
    hide Own, IdsOf, CanRead, FolderSays, RowSays, HasFresh, IsNewOf, Inv, KeepsRows, KeepsTracks, SameAlbum;
    SameRow(s, s', d, f, t);
    if e, g :| e in part && IsRead(s, e, g, isFull) && HasRow(s, e, g, t) {
      SameDir(dirs, d, e);
    }
  }

  lemma NeedsSame(s: State, s': State, part: seq<Dir>, dirs: seq<Dir>, isFull: bool, d: Dir, f: File)
    requires SoFar(s, s', part, isFull) && AllOk(dirs) && Steady(dirs) && PartOf(part, dirs) && d in dirs && f in d.files
    requires d !in part || !CanRead(s, d, isFull)
    ensures NeedsAt(s', d, f, isFull) <==> NeedsAt(s, d, f, isFull)
  {
    hide SoFar, CanRead, Own;
    NeedsShrink(s, s', part, dirs, isFull, d, f);
    if t :| HasRow(s', d, f, t) && f.mtime <= s'.tracks[t].updatedAt {
      NotYetWritten(s, s', part, dirs, isFull, d, f, t);
      assert HasRow(s, d, f, t) && f.mtime <= s.tracks[t].updatedAt;
    }
  }

  /** Whether a folder can be read does not change during the walk. */
  lemma ReadableStays(s: State, s': State, part: seq<Dir>, dirs: seq<Dir>, isFull: bool, d: Dir)
    requires SoFar(s, s', part, isFull) && AllOk(dirs) && Steady(dirs) && PartOf(part, dirs) && d in dirs
    ensures CanRead(s', d, isFull) <==> CanRead(s, d, isFull)
  {
    hide SoFar, NeedsAt;
    forall f | f in d.files ensures NeedsAt(s', d, f, isFull) ==> NeedsAt(s, d, f, isFull) {
      NeedsShrink(s, s', part, dirs, isFull, d, f);
    }
    if !CanRead(s, d, isFull) {
      var f :| f in d.files && NeedsAt(s, d, f, isFull) && !f.readable;
      NeedsSame(s, s', part, dirs, isFull, d, f);
    }
  }

  // One more folder -----------------------------------------------------------------------------------

  /** The visit, by the folder's path. */
  ghost predicate Visits(s: State, s': State, e: Dir, a: nat, isFull: bool) {
    && VisitTold(s, s', e, a, isFull) && Inv(s) && Inv(s') && KeepsRows(s.albums, s'.albums) && KeepsTracks(s, s')
    && a in s'.albums && s'.albums[a].path == Own(e)
    && forall t | t in s'.tracks && t !in s.tracks :: s'.tracks[t].album == a
  }

  lemma DoneVisits(s: State, s': State, e: Dir, p: nat, a: nat, isFull: bool, now: int)
    requires Inv(s) && DirDone(s, s', e, p, a, isFull, now) && VisitTold(s, s', e, a, isFull)
    ensures Visits(s, s', e, a, isFull)
  {
    hide VisitTold, Own, Above;
    forall t | t in s.tracks ensures s'.tracks[t].album == s.tracks[t].album && s'.tracks[t].filename == s.tracks[t].filename {
      assert KeptTrack(s.tracks[t], s'.tracks[t], a, now);
    }
  }

  lemma VisitNeeds(s: State, s': State, e: Dir, a: nat, isFull: bool, f: File)
    requires Visits(s, s', e, a, isFull)
    ensures Needs(s.tracks, a, f, isFull) <==> NeedsAt(s, e, f, isFull)
  {
    hide VisitTold, KeepsTracks, Own;
    NeedsByRow(s, a, e, f, isFull);
  }

  lemma VisitReads(s: State, s': State, e: Dir, a: nat, isFull: bool)
    requires Visits(s, s', e, a, isFull)
    ensures AllRead(s, a, e, isFull) <==> CanRead(s, e, isFull)
    ensures FirstRead(s, a, e, isFull) <==> e.files != [] && IsRead(s, e, e.files[0], isFull)
  {
    hide Visits, Needs, NeedsAt;
    forall f ensures Needs(s.tracks, a, f, isFull) <==> NeedsAt(s, e, f, isFull) { VisitNeeds(s, s', e, a, isFull, f); }
  }

  lemma VisitWrites(s: State, s': State, e: Dir, a: nat, isFull: bool, t: nat)
    requires Visits(s, s', e, a, isFull) && t in s.tracks && !SameTrack(s, s', t)
    ensures exists f :: IsRead(s, e, f, isFull) && HasRow(s, e, f, t)
  {
    hide Needs, NeedsAt, SameTrack, Own, CanRead;
    assert IsWritten(s, a, e.files, |e.files|, isFull, t) && AllRead(s, a, e, isFull);
    var f :| Among(s, a, e.files, |e.files|, isFull, f) && IsRowOf(s.tracks[t], a, f);
    VisitReads(s, s', e, a, isFull);
    VisitNeeds(s, s', e, a, isFull, f);
    assert HasRow(s, e, f, t);
  }

  /** A visit in the middle of a walk. */
  ghost predicate Between(s: State, before: State, s': State, part: seq<Dir>, dirs: seq<Dir>, e: Dir, a: nat, isFull: bool) {
    && SoFar(s, before, part, isFull) && Visits(before, s', e, a, isFull)
    && AllOk(dirs) && Steady(dirs) && PartOf(part, dirs) && e in dirs
  }

  lemma ReadNow(s: State, before: State, s': State, part: seq<Dir>, dirs: seq<Dir>, e: Dir, a: nat, isFull: bool, f: File)
    requires Between(s, before, s', part, dirs, e, a, isFull) && IsRead(before, e, f, isFull)
    ensures IsRead(s, e, f, isFull)
  {
    hide SoFar, Visits, CanRead, NeedsAt;
    ReadableStays(s, before, part, dirs, isFull, e);
    NeedsShrink(s, before, part, dirs, isFull, e, f);
  }

  /** What is read for the first time in this walk is read now. */
  lemma FirstReadNow(s: State, before: State, s': State, part: seq<Dir>, dirs: seq<Dir>, e: Dir, a: nat, isFull: bool, f: File)
    requires Between(s, before, s', part, dirs, e, a, isFull) && IsRead(s, e, f, isFull) && e !in part
    ensures IsRead(before, e, f, isFull)
  {
    hide SoFar, Visits, CanRead, NeedsAt;
    ReadableStays(s, before, part, dirs, isFull, e);
    NeedsSame(s, before, part, dirs, isFull, e, f);
  }

  lemma ReadSays(s: State, s': State, e: Dir, a: nat, isFull: bool, f: File)
    requires Visits(s, s', e, a, isFull) && IsRead(s, e, f, isFull)
    ensures RowSays(s', e, f)
  {
    hide Needs, NeedsAt, CanRead, TrackSays, SameTrack, SameAlbum, Own;
    VisitReads(s, s', e, a, isFull);
    VisitNeeds(s, s', e, a, isFull, f);
    assert FileSays(s', a, f);
    var t :| t in s'.tracks && IsRowOf(s'.tracks[t], a, f) && TrackSays(s', t, f.tags);
    assert HasRow(s', e, f, t);
  }

  lemma RowSaysStill(s: State, s': State, dirs: seq<Dir>, d: Dir, e: Dir, a: nat, isFull: bool, f: File)
    requires Visits(s, s', e, a, isFull) && AllOk(dirs) && Steady(dirs) && d in dirs && e in dirs && f in d.files
    requires RowSays(s, d, f) && !(d == e && IsRead(s, e, f, isFull))
    ensures RowSays(s', d, f)
  {
    hide VisitTold, IsRead, IdsOf, Own;
    var t :| HasRow(s, d, f, t) && TrackSays(s, t, f.tags);
    if !SameTrack(s, s', t) {
      VisitWrites(s, s', e, a, isFull, t);
      var g :| IsRead(s, e, g, isFull) && HasRow(s, e, g, t);
      SameDir(dirs, d, e);
      ReadIsFile(s, e, g, isFull);
      SameFileName(d, f, g);
      assert false;
    }
    RowStays(s, s', d, f, t);
    assert HasRow(s', d, f, t) && TrackSays(s', t, f.tags);
  }

  lemma ReadIsFile(s: State, e: Dir, f: File, isFull: bool)
    requires IsRead(s, e, f, isFull)
    ensures f in e.files
  {
  }

  lemma TellsRow(s: State, before: State, s': State, part: seq<Dir>, dirs: seq<Dir>, e: Dir, a: nat, isFull: bool, d: Dir, f: File)
    requires Between(s, before, s', part, dirs, e, a, isFull) && d in part + [e] && IsRead(s, d, f, isFull)
    ensures RowSays(s', d, f)
  {
    hide Visits, RowSays, IsRead, NewAreRead;
    ReadIsFile(s, d, f, isFull);
    if d == e && IsRead(before, e, f, isFull) {
      ReadSays(before, s', e, a, isFull, f);
    } else {
      if d !in part { FirstReadNow(s, before, s', part, dirs, e, a, isFull, f); }
      assert RowSays(before, d, f);
      RowSaysStill(before, s', dirs, d, e, a, isFull, f);
    }
  }

  lemma TellsFolder(s: State, before: State, s': State, part: seq<Dir>, dirs: seq<Dir>, e: Dir, a: nat, isFull: bool, d: Dir)
    requires Between(s, before, s', part, dirs, e, a, isFull) && d in part + [e]
    requires d.files != [] && IsRead(s, d, d.files[0], isFull)
    ensures FolderSays(s', d, d.files[0].tags)
  {
    hide IsRead, NewAreRead, AlbumSays, RowSays, Own, WillWrite, WillTitle, KeepsTracks;
    VisitReads(before, s', e, a, isFull);
    if d == e && IsRead(before, e, e.files[0], isFull) {
      assert AlbumSays(s', a, e.files[0].tags);
    } else {
      if d !in part { FirstReadNow(s, before, s', part, dirs, e, a, isFull, d.files[0]); }
      FolderSaysStill(before, s', dirs, d, e, a, isFull, d.files[0].tags);
    }
  }

  lemma FolderSaysStill(s: State, s': State, dirs: seq<Dir>, d: Dir, e: Dir, a: nat, isFull: bool, tags: Tags)
    requires Visits(s, s', e, a, isFull) && AllOk(dirs) && Steady(dirs) && d in dirs && e in dirs && FolderSays(s, d, tags)
    requires !(d == e && d.files != [] && IsRead(s, e, e.files[0], isFull))
    ensures FolderSays(s', d, tags)
  {
    hide Needs, IsRead, IdsOf, Own, KeepsTracks, SameTrack, FileSays;
    VisitReads(s, s', e, a, isFull);
    var b :| b in s.albums && s.albums[b].path == Own(d) && AlbumSays(s, b, tags);
    if b == a && FirstRead(s, a, e, isFull) {
      SameDir(dirs, d, e);
      assert false;
    }
    assert SameAlbum(s, s', b);
    assert b in s'.albums && s'.albums[b].path == Own(d) && AlbumSays(s', b, tags);
  }

  lemma LeavesTrack(s: State, before: State, s': State, part: seq<Dir>, dirs: seq<Dir>, e: Dir, a: nat, isFull: bool, t: nat)
    requires Between(s, before, s', part, dirs, e, a, isFull) && t in s.tracks && !WillWrite(s, part + [e], isFull, t)
    ensures SameTrack(s, s', t)
  {
    hide Visits, IsRead, NewAreRead, IdsOf, HasRow, Own;
    assert e in part + [e] && forall d | d in part :: d in part + [e];
    assert SameTrack(s, before, t);
    if !SameTrack(before, s', t) {
      VisitWrites(before, s', e, a, isFull, t);
      var f :| IsRead(before, e, f, isFull) && HasRow(before, e, f, t);
      ReadNow(s, before, s', part, dirs, e, a, isFull, f);
      SameRow(s, before, e, f, t);
      assert false;
    }
  }

  lemma LeavesAlbum(s: State, before: State, s': State, part: seq<Dir>, dirs: seq<Dir>, e: Dir, a: nat, isFull: bool, b: nat)
    requires Between(s, before, s', part, dirs, e, a, isFull) && b in s.albums && !WillTitle(s, part + [e], isFull, b)
    ensures SameAlbum(s, s', b)
  {
    hide IsRead, NewAreRead, IdsOf, Own, FirstRead, SameTrack, KeepsTracks, FileSays, AlbumSays;
    assert e in part + [e] && forall d | d in part :: d in part + [e];
    assert SameAlbum(s, before, b);
    VisitReads(before, s', e, a, isFull);
    if b == a && FirstRead(before, a, e, isFull) {
      ReadNow(s, before, s', part, dirs, e, a, isFull, e.files[0]);
      assert false;
    }
    assert SameAlbum(before, s', b);
  }

  lemma TellsNew(s: State, before: State, s': State, part: seq<Dir>, dirs: seq<Dir>, e: Dir, a: nat, isFull: bool, t: nat)
    requires Between(s, before, s', part, dirs, e, a, isFull) && t in s'.tracks && t !in s.tracks
    ensures IsNewOf(s, s', part + [e], isFull, t)
  {
    hide CanRead, WalkTold, Needs, IdsOf, Own, SameTrack, SameAlbum, FirstRead, FileSays, AlbumSays;
    if t in before.tracks {
      assert IsNewOf(s, before, part, isFull, t);
      var d :| d in part && CanRead(s, d, isFull) && before.albums[before.tracks[t].album].path == Own(d);
      assert d in part + [e];
    } else {
      VisitReads(before, s', e, a, isFull);
      ReadableStays(s, before, part, dirs, isFull, e);
      assert e in part + [e];
    }
  }

  lemma KeepsOn(s: State, before: State, s': State, part: seq<Dir>, dirs: seq<Dir>, e: Dir, a: nat, isFull: bool)
    requires Between(s, before, s', part, dirs, e, a, isFull)
    ensures Inv(s) && Inv(s') && KeepsRows(s.albums, s'.albums) && KeepsTracks(s, s') && AllOk(part + [e])
  {
    hide Inv, KeepsRows, WalkTold, NewAreRead, VisitTold;
    KeepsTwice(s.albums, before.albums, s'.albums);
  }

  lemma StepSays(s: State, before: State, s': State, part: seq<Dir>, dirs: seq<Dir>, e: Dir, a: nat, isFull: bool)
    requires Between(s, before, s', part, dirs, e, a, isFull)
    ensures forall d, f | d in part + [e] && IsRead(s, d, f, isFull) :: RowSays(s', d, f)
    ensures forall d | d in part + [e] && d.files != [] && IsRead(s, d, d.files[0], isFull) ::
              FolderSays(s', d, d.files[0].tags)
  {
    hide IsRead, RowSays, FolderSays, Between;
    forall d, f | d in part + [e] && IsRead(s, d, f, isFull) ensures RowSays(s', d, f) {
      TellsRow(s, before, s', part, dirs, e, a, isFull, d, f);
    }
    forall d | d in part + [e] && d.files != [] && IsRead(s, d, d.files[0], isFull)
      ensures FolderSays(s', d, d.files[0].tags)
    {
      TellsFolder(s, before, s', part, dirs, e, a, isFull, d);
    }
  }

  lemma StepLeaves(s: State, before: State, s': State, part: seq<Dir>, dirs: seq<Dir>, e: Dir, a: nat, isFull: bool)
    requires Between(s, before, s', part, dirs, e, a, isFull)
    ensures forall t | t in s.tracks && !WillWrite(s, part + [e], isFull, t) :: SameTrack(s, s', t)
    ensures forall b | b in s.albums && !WillTitle(s, part + [e], isFull, b) :: SameAlbum(s, s', b)
    ensures NewAreRead(s, s', part + [e], isFull)
  {
    hide WillWrite, WillTitle, IsNewOf, SameTrack, SameAlbum, Between;
    forall t | t in s.tracks && !WillWrite(s, part + [e], isFull, t) ensures SameTrack(s, s', t) {
      LeavesTrack(s, before, s', part, dirs, e, a, isFull, t);
    }
    forall b | b in s.albums && !WillTitle(s, part + [e], isFull, b) ensures SameAlbum(s, s', b) {
      LeavesAlbum(s, before, s', part, dirs, e, a, isFull, b);
    }
    forall t | t in s'.tracks && t !in s.tracks ensures IsNewOf(s, s', part + [e], isFull, t) {
      TellsNew(s, before, s', part, dirs, e, a, isFull, t);
    }
  }

  lemma StepTells(s: State, before: State, s': State, part: seq<Dir>, dirs: seq<Dir>, e: Dir, a: nat, isFull: bool)
    requires Between(s, before, s', part, dirs, e, a, isFull)
    ensures SoFar(s, s', part + [e], isFull)
  {
    hide WillWrite, WillTitle, IsRead, RowSays, FolderSays, SameTrack, SameAlbum;
    hide NewAreRead, Between, Inv, KeepsRows, KeepsTracks;
    KeepsOn(s, before, s', part, dirs, e, a, isFull);
    StepSays(s, before, s', part, dirs, e, a, isFull);
    StepLeaves(s, before, s', part, dirs, e, a, isFull);
  }

  lemma NothingYet(s: State, isFull: bool)
    requires Inv(s)
    ensures SoFar(s, s, [], isFull)
  {
    hide IdsOf;
  }

  lemma {:induction false} WalkGoesOn(s: State, part: seq<Dir>, dirs: seq<Dir>, isFull: bool, now: int)
    requires Inv(s) && AllOk(dirs) && Steady(dirs) && PartOf(part, dirs)
    ensures SoFar(s, Walked(s, part, isFull, now), part, isFull)
  {
    hide ScannedDir, DirDone, VisitTold, WalkTold, NewAreRead, KeepsTracks, KeepsRows;
    if part == [] {
      NothingYet(s, isFull);
    } else {
      var init, e := part[..|part| - 1], part[|part| - 1];
      assert e in part && part == init + [e];
      WalkGoesOn(s, init, dirs, isFull, now);
      var before := Walked(s, init, isFull, now);
      var p, a := VisitTells(before, e, isFull, now);
      DoneVisits(before, ScannedDir(before, e, isFull, now), e, p, a, isFull, now);
      StepTells(s, before, ScannedDir(before, e, isFull, now), init, dirs, e, a, isFull);
    }
  }

  /**
   * After a walk over a tree that does not change: every file that had to be read and could be has its own genres and
   * credits on its track, the first file of a folder has given the album its title, artist, credits and genres, and
   * all other tracks and albums have those they had.
   */
  lemma WalkTellsTags(s: State, dirs: seq<Dir>, isFull: bool, now: int)
    requires Inv(s) && AllOk(dirs) && Steady(dirs)
    ensures WalkTold(s, Walked(s, dirs, isFull, now), dirs, isFull)
  {
    hide Walked, WalkTold;
    WalkGoesOn(s, dirs, dirs, isFull, now);
  }
}
