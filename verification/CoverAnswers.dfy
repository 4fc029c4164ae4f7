/**
 * What the requests of the cover cache are answered, and what they do, told from the rows alone: the cover that was
 * set last is the one that is cached and served; a mosaic shows the first four albums that have a picture; and a
 * request that changes art commits it and then purges what showed the old.
 */
module CoverAnswers {
  import opened CoverCache
  import opened MosaicBlobs
  import opened Options
  import Collections

  // Album covers ------------------------------------------------------------------------------

  /** The cached file is a resize of `src`, and of nothing else, in its format, and not blown up. */
  ghost predicate HoldsOnly(s: State, name: Name, src: Source) {
    && name in s.files && src in s.lib.pics && name.format == s.lib.pics[src].format && name.size <= s.lib.pics[src].dim
    && s.files[name] == {Thumb(Plain(src), name.size)}
  }

  /** The album's override if it has one, else its folder's cover; no file without either. */
  ghost predicate HoldsCover(s: State, name: Name, a: nat) {
    && a in s.rows
    && (s.rows[a].override.Some? ==> HoldsOnly(s, name, Blob(s.rows[a].override.value)))
    && (s.rows[a].override.None? ==> s.rows[a].folder && HoldsOnly(s, name, Folder(a)))
  }

  lemma ShowsArt(s: State, mosaics: bool, name: Name)
    requires Inv(s, mosaics) && name in s.files && InScope(name.id, mosaics) && !Pending(s, name.id)
    ensures Art(s, name.id).Some? && s.files[name] == {Thumb(Art(s, name.id).value, name.size)}
    ensures name.format == FormatOf(s.lib, Art(s, name.id).value) && name.size <= DimOf(s.lib, Art(s, name.id).value)
  {
    var thumb :| thumb in s.files[name];
    assert ThumbOk(s, mosaics, name, thumb);
    forall other | other in s.files[name] ensures other == thumb { assert ThumbOk(s, mosaics, name, other); }
  }

  /** In every run a cached album cover shows what the album's row says now, unless a purge of it is still to come. */
  lemma CachedCoversShowTheRow(run: seq<State>, actions: seq<Action>, i: nat, name: Name)
    requires IsRun(run, actions) && i < |run| && name in run[i].files && name.id.Album? && !Pending(run[i], name.id)
    ensures HoldsCover(run[i], name, name.id.id)
  {
    hide Inv, Initial, Pending;
    RunKeepsInv(run, actions, i, false);
    ShowsArt(run[i], false, name);
  }

  /** The file is as large as asked, or as the picture if that is smaller. */
  predicate IsSized(s: State, name: Name, size: nat, src: Source) {
    src in s.lib.pics && name.size == if size < s.lib.pics[src].dim then size else s.lib.pics[src].dim
  }

  /** And what a request serves is that file, at the size it asks for. */
  lemma ServedCoverShowsTheRow(run: seq<State>, actions: seq<Action>, i: nat, t: Tid, a: nat, size: nat, name: Name)
    requires IsRun(run, actions) && i < |run| && t in run[i].pcs && run[i].pcs[t] == AtRUnlock(Album(a), size, Some(name))
    requires !Pending(run[i], Album(a))
    ensures name.id == Album(a) && HoldsCover(run[i], name, a)
    ensures IsSized(run[i], name, size, if run[i].rows[a].override.Some? then Blob(run[i].rows[a].override.value) else Folder(a))
  {
    hide Initial, Pending, FilesOk, LocksOk;
    RunKeepsInv(run, actions, i, false);
    assert PcOk(run[i], false, run[i].pcs[t]);
    CachedCoversShowTheRow(run, actions, i, name);
  }

  // Changing art --------------------------------------------------------------------------------

  /** At step `n` request `t` commits the change. */
  ghost predicate Commits(run: seq<State>, actions: seq<Action>, n: int, t: Tid, m: Mutation) {
    0 <= n < |actions| < |run| && actions[n] == Advance(t) && t in run[n].pcs && run[n].pcs[t] == AtCommit(m)
  }

  predicate IsOf(m: Mutation, a: nat) {
    (m.SetCover? || m.ClearCover?) && m.album == a
  }

  /** The override that the change leaves. */
  function Wanted(m: Mutation): Option<Hash> {
    if m.SetCover? then Some(m.hash) else None
  }

  /** Nothing but a commit for the album changes its override, and nothing its other columns. */
  lemma RowStep(s: State, a: Action, x: nat)
    requires Enabled(s, a) && x in s.rows
    ensures x in RowsAfter(s, a) && RowsAfter(s, a)[x] == s.rows[x].(override := RowsAfter(s, a)[x].override)
    ensures if a.Advance? && s.pcs[a.t].AtCommit? && IsOf(s.pcs[a.t].mutation, x)
            then RowsAfter(s, a)[x].override == Wanted(s.pcs[a.t].mutation)
            else RowsAfter(s, a)[x] == s.rows[x]
  {
  }

  /** The last change of an album's cover is what its row says. */
  lemma {:induction false} LastChangeStands(run: seq<State>, actions: seq<Action>, n: nat, i: nat, t: Tid, m: Mutation, a: nat)
    requires IsRun(run, actions) && n < i < |run| && Commits(run, actions, n, t, m) && IsOf(m, a)
    requires forall x, u, later | n < x < i && Commits(run, actions, x, u, later) :: !IsOf(later, a)
    ensures a in run[i].rows && run[i].rows[a].override == Wanted(m)
  {
    hide Initial;
    assert Enabled(run[i - 1], actions[i - 1]) && run[i] == Step(run[i - 1], actions[i - 1]);
    if n < i - 1 { LastChangeStands(run, actions, n, i - 1, t, m, a); }
    RowStep(run[i - 1], actions[i - 1], a);
    if n < i - 1 && actions[i - 1].Advance? && run[i - 1].pcs[actions[i - 1].t].AtCommit? {
      assert Commits(run, actions, i - 1, actions[i - 1].t, run[i - 1].pcs[actions[i - 1].t].mutation);
    }
  }

  /** So the cover that was set last is the one served, once its purge is done. */
  lemma LastSetIsServed(run: seq<State>, actions: seq<Action>, n: nat, i: nat, setter: Tid, h: Hash,
                        t: Tid, a: nat, size: nat, name: Name)
    requires IsRun(run, actions) && n < i < |run| && Commits(run, actions, n, setter, SetCover(a, h))
    requires forall x, u, later | n < x < i && Commits(run, actions, x, u, later) :: !IsOf(later, a)
    requires t in run[i].pcs && run[i].pcs[t] == AtRUnlock(Album(a), size, Some(name)) && !Pending(run[i], Album(a))
    ensures HoldsOnly(run[i], name, Blob(h)) && IsSized(run[i], name, size, Blob(h))
  {
    hide Initial, Pending, IsRun, Commits;
    LastChangeStands(run, actions, n, i, setter, SetCover(a, h), a);
    ServedCoverShowsTheRow(run, actions, i, t, a, size, name);
  }

  // Mosaics -------------------------------------------------------------------------------------

  /** What stands for album `a` in a mosaic: its override, else its folder's cover, else one that a track embeds. */
  predicate StandsFor(rows: map<nat, Row>, a: nat, src: Source) {
    a in rows &&
    match rows[a]
    case Row(Some(h), _, _) => src == Blob(h)
    case Row(None, true, _) => src == Folder(a)
    case Row(None, false, Some(t)) => src == Embedded(t)
    case Row(None, false, None) => false
  }

  /** The tiles stand for the albums at the positions `ks`: the first four of the list that have a picture to show. */
  ghost predicate FirstFour(lib: Library, rows: map<nat, Row>, ids: seq<nat>, tiles: seq<Source>, ks: seq<nat>) {
    && |tiles| == |ks| <= 4
    && (forall j | 0 <= j < |ks| :: ks[j] < |ids| && StandsFor(rows, ids[ks[j]], tiles[j]) && tiles[j] in lib.tileable)
    && (forall j, l | 0 <= j < l < |ks| :: ks[j] < ks[l])
    && (forall x, src | 0 <= x < |ids| && x !in ks && StandsFor(rows, ids[x], src) && src in lib.tileable :: |ks| == 4 && ks[3] < x)
  }

  lemma TileStands(lib: Library, rows: map<nat, Row>, a: nat, src: Source)
    ensures Tile(lib, rows, a) == [src] <==> StandsFor(rows, a, src) && src in lib.tileable
  {
  }

  /** One more album at the end of the list. */
  lemma FourMore(lib: Library, rows: map<nat, Row>, ids: seq<nat>, tiles: seq<Source>, ks: seq<nat>, a: nat, src: Source)
    requires FirstFour(lib, rows, ids, tiles, ks) && |ks| < 4 && StandsFor(rows, a, src) && src in lib.tileable
    ensures FirstFour(lib, rows, ids + [a], tiles + [src], ks + [|ids|])
  {
    hide StandsFor;
    var all, ks' := ids + [a], ks + [|ids|];
    assert ks'[|ks|] == |ids| && forall k | k in ks' :: k in ks || k == |ids|;
    assert forall x | 0 <= x < |all| && x !in ks' :: x !in ks && x < |ids| && all[x] == ids[x];
  }

  lemma FourAlready(lib: Library, rows: map<nat, Row>, ids: seq<nat>, tiles: seq<Source>, ks: seq<nat>, a: nat)
    requires FirstFour(lib, rows, ids, tiles, ks)
    requires |ks| == 4 || forall src | src in lib.tileable :: !StandsFor(rows, a, src)
    ensures FirstFour(lib, rows, ids + [a], tiles, ks)
  {
    hide StandsFor;
    forall x, other | 0 <= x < |ids + [a]| && x !in ks && StandsFor(rows, (ids + [a])[x], other) && other in lib.tileable
      ensures |ks| == 4 && ks[3] < x
    {
    }
  }

  lemma {:induction false} TilesAreFirstFour(lib: Library, rows: map<nat, Row>, ids: seq<nat>) returns (ks: seq<nat>)
    ensures FirstFour(lib, rows, ids, Tiles(lib, rows, ids), ks)
  {
    ks := [];
    if ids != [] {
      var init, a := ids[..|ids| - 1], ids[|ids| - 1];
      var before, tile := Tiles(lib, rows, init), Tile(lib, rows, a);
      ks := TilesAreFirstFour(lib, rows, init);
      assert ids == init + [a];
      forall src ensures tile == [src] <==> StandsFor(rows, a, src) && src in lib.tileable { TileStands(lib, rows, a, src); }
      if |before| < MaxTiles && tile != [] {
        assert tile == [tile[0]];
        FourMore(lib, rows, init, before, ks, a, tile[0]);
        ks := ks + [|init|];
      } else {
        FourAlready(lib, rows, init, before, ks, a);
      }
    }
  }

  /** In every run that loses no blob a cached mosaic shows what the rows say now, unless a purge is still to come. */
  lemma CachedMosaicsShowTheRows(run: seq<State>, actions: seq<Action>, i: nat, name: Name) returns (tiles: seq<Source>, ks: seq<nat>)
    requires IsRun(run, actions) && i < |run| && LosesNoBlobs(run, actions)
    requires name in run[i].files && name.id.Collection? && !Pending(run[i], name.id)
    ensures name.id.id in run[i].lists && FirstFour(run[i].lib, run[i].rows, run[i].lists[name.id.id], tiles, ks)
    ensures tiles != [] && name.format == "jpeg" && run[i].files[name] == {Thumb(Composed(tiles), name.size)}
  {
    hide Inv, Initial, Pending, FirstFour;
    RunKeepsInv(run, actions, i, true);
    ShowsArt(run[i], true, name);
    var s := run[i];
    tiles := Tiles(s.lib, s.rows, ListOf(s, name.id.id));
    ks := TilesAreFirstFour(s.lib, s.rows, ListOf(s, name.id.id));
  }

  // A request on its own ----------------------------------------------------------------------------

  predicate Well(pc: Pc) {
    ReaderPc(pc) && (pc.Tiling? ==> Composing(pc)) && (pc.Probe? ==> pc.i <= |Formats|)
  }

  function Phase(pc: Pc): nat {
    if pc.Get? then 5 else if pc.Probe? then 4 else if pc.Opening? || pc.Tiling? then 3
    else if pc.Decoded? then 2 else if pc.Saving? then 1 else 0
  }

  function Rest(pc: Pc): nat
    requires Well(pc)
  {
    if pc.Probe? then |Formats| - pc.i
    else if pc.Tiling? then 2 * (|pc.ids| - pc.i) + (if pc.next.Some? then 0 else 1)
    else 0
  }

  /** The file that a request ends up serving when no other request moves. */
  function Outcome(s: State, pc: Pc): Option<Name>
    requires Well(pc)
    decreases Phase(pc), Rest(pc)
  {
    if pc.AtRUnlock? then pc.served else Outcome(s, ReaderAfter(s, pc))
  }

  /** What request a step belongs to. */
  predicate IsFor(pc: Pc, id: CoverId, size: nat) {
    match pc
    case Get(i, n) => i == id && n == size
    case Probe(i, n, _) => i == id && n == size
    case Opening(i, n, _) => i == id && n == size
    case Tiling(i, n, _, _, _, _) => i == id && n == size
    case Decoded(i, n, _) => i == id && n == size
    case Saving(n, name, _) => name.id == id && n == size
    case AtRUnlock(i, n, _) => i == id && n == size
    case Done => true
    case _ => false
  }

  /** A request stays with the id and the size it was asked for. */
  lemma {:induction false} GetStaysItself(run: seq<State>, actions: seq<Action>, i: nat, j: nat, t: Tid, id: CoverId, size: nat)
    requires IsRun(run, actions) && i < j < |run| && actions[i] == Spawn(t, Get(id, size))
    ensures t in run[j].pcs && IsFor(run[j].pcs[t], id, size)
  {
    hide Initial;
    assert Enabled(run[j - 1], actions[j - 1]) && run[j] == Step(run[j - 1], actions[j - 1]);
    if j > i + 1 { GetStaysItself(run, actions, i, j - 1, t, id, size); }
  }

  /** When nobody else moves, the request does get there. */
  lemma {:induction false} OutcomeIsReached(origin: State, s: State, t: Tid, pc: Pc, id: CoverId, size: nat) returns (s': State)
    requires Well(pc) && HoldsRead(pc) && IsFor(pc, id, size) && !pc.Saving? && Reaches(origin, Reading(s, t, pc))
    ensures Reaches(origin, s') && s'.pcs == s.pcs[t := AtRUnlock(id, size, Outcome(s, pc))]
    decreases Phase(pc), Rest(pc)
  {
    hide Reaches;
    if pc.AtRUnlock? {
      s' := Reading(s, t, pc);
    } else if pc.Decoded? {
      s' := DecodedEnds(origin, s, t, pc);
    } else {
      hide Reading;
      ReaderMoves(origin, s, t, pc, ReaderAfter(s, pc));
      s' := OutcomeIsReached(origin, s, t, ReaderAfter(s, pc), id, size);
    }
  }

  lemma DecodedEnds(origin: State, s: State, t: Tid, pc: Pc) returns (s': State)
    requires pc.Decoded? && Reaches(origin, Reading(s, t, pc))
    ensures Reaches(origin, s') && s'.pcs == s.pcs[t := AtRUnlock(pc.id, pc.size, Outcome(s, pc))]
  {
    hide Reaches;
    var s1 := Reading(s, t, pc);
    ReachStep(origin, s1, Advance(t));
    s' := Step(s1, Advance(t));
    var pc' := ReaderAfter(s1, pc);
    assert pc' == ReaderAfter(s, pc) && s'.pcs == s.pcs[t := pc'];
    if pc'.Saving? {
      var s2 := s';
      ReachStep(origin, s2, Advance(t));
      s' := Step(s2, Advance(t));
      assert s'.pcs == s.pcs[t := ReaderAfter(s2, pc')];
      assert Outcome(s, pc) == Outcome(s, pc') == Outcome(s, ReaderAfter(s, pc'));
    }
  }

  /** All files of the id have the one format. */
  ghost predicate OneFormat(s: State, id: CoverId, format: string) {
    forall name | name in s.files && name.id == id :: name.format == format
  }

  lemma {:induction false} ProbesAnswer(s: State, id: CoverId, size: nat, i: nat, format: string)
    requires i <= |Formats| && OneFormat(s, id, format)
    ensures Name(id, size, format) in s.files && format in Formats[i..] ==>
              Outcome(s, Probe(id, size, i)) == Some(Name(id, size, format))
    ensures Name(id, size, format) !in s.files ==> Outcome(s, Probe(id, size, i)) == Outcome(s, Probe(id, size, |Formats|))
    decreases |Formats| - i
  {
    if i < |Formats| {
      assert Formats[i..] == [Formats[i]] + Formats[i + 1..];
      ProbesAnswer(s, id, size, i + 1, format);
    }
  }

  /** The picture of an album's row. */
  predicate Pictured(rows: map<nat, Row>, a: nat, src: Source) {
    a in rows && if rows[a].override.Some? then src == Blob(rows[a].override.value) else rows[a].folder && src == Folder(a)
  }

  function SmallerOf(a: nat, b: nat): nat { if a < b then a else b }

  lemma OpenedAnswers(s: State, a: nat, size: nat, src: Source)
    requires Pictured(s.rows, a, src)
    ensures Outcome(s, Probe(Album(a), size, |Formats|)) ==
            if Readable(s, src) && src in s.lib.pics then Outcome(s, Decoded(Album(a), size, Plain(src))) else None
  {
    assert ReaderAfter(s, Probe(Album(a), size, |Formats|)) == Opening(Album(a), size, src);
    assert Outcome(s, Opening(Album(a), size, src)) == Outcome(s, ReaderAfter(s, Opening(Album(a), size, src)));
  }

  /** What was decoded is served, from a file that is there or is saved now, if there is an encoder for its format. */
  lemma DecodedAnswers(s: State, id: CoverId, size: nat, image: Image)
    requires SaveName(s, id, size, image) in s.files ==> FormatOf(s.lib, image) in Formats
    ensures Outcome(s, Decoded(id, size, image)) ==
            if FormatOf(s.lib, image) in Formats then Some(SaveName(s, id, size, image)) else None
  {
    var pc := ReaderAfter(s, Decoded(id, size, image));
    if pc.Saving? { assert Outcome(s, pc) == Outcome(s, ReaderAfter(s, pc)); }
  }

  /**
   * With nothing pending for the album, a request on its own serves the picture of the album's row, in its format and
   * as large as asked or as the picture, if that can be opened, decoded and encoded. Without a picture, or with one
   * that does not decode or has no encoder, it serves nothing; with a blob gone, a file cached at that very size.
   */
  lemma AlbumIsAnswered(s: State, a: nat, size: nat)
    requires Inv(s, false) && !Pending(s, Album(a))
    ensures (forall src :: !Pictured(s.rows, a, src)) ==> Outcome(s, Get(Album(a), size)) == None
    ensures forall src | Pictured(s.rows, a, src) ::
              if src !in s.lib.pics || s.lib.pics[src].format !in Formats then Outcome(s, Get(Album(a), size)) == None
              else
                var name := Name(Album(a), SmallerOf(size, s.lib.pics[src].dim), s.lib.pics[src].format);
                Outcome(s, Get(Album(a), size)) ==
                if (src.Blob? ==> src.hash in s.blobs) || (name.size == size && name in s.files) then Some(name) else None
  {
    hide Inv, Pending;
    assert Outcome(s, Get(Album(a), size)) == Outcome(s, Probe(Album(a), size, 0));
    if src :| Pictured(s.rows, a, src) {
      PictureIsAnswered(s, a, size, src);
    } else {
      NoPicture(s, a);
      ProbesAnswer(s, Album(a), size, 0, "");
      assert ReaderAfter(s, Probe(Album(a), size, |Formats|)) == AtRUnlock(Album(a), size, None);
    }
  }

  lemma NoPicture(s: State, a: nat)
    requires Inv(s, false) && !Pending(s, Album(a)) && forall src :: !Pictured(s.rows, a, src)
    ensures forall name | name in s.files :: name.id != Album(a)
    ensures a in s.rows ==> AlbumSource(s.rows[a], a).None?
  {
    if a in s.rows {
      assert !Pictured(s.rows, a, Folder(a));
      assert s.rows[a].override.Some? ==> !Pictured(s.rows, a, Blob(s.rows[a].override.value));
    }
    forall name | name in s.files ensures name.id != Album(a) {
      if name.id.Album? && !Pending(s, name.id) { ShowsArt(s, false, name); }
    }
  }

  lemma FilesOfPicture(s: State, a: nat, src: Source, name: Name)
    requires Inv(s, false) && !Pending(s, Album(a)) && Pictured(s.rows, a, src) && name in s.files && name.id == Album(a)
    ensures src in s.lib.pics && name.format == s.lib.pics[src].format && name.format in Formats && name.size <= s.lib.pics[src].dim
  {
    hide Pending;
    ShowsArt(s, false, name);
    var thumb :| thumb in s.files[name];
    assert ThumbOk(s, false, name, thumb);
  }

  lemma PictureIsAnswered(s: State, a: nat, size: nat, src: Source)
    requires Inv(s, false) && !Pending(s, Album(a)) && Pictured(s.rows, a, src)
    ensures if src !in s.lib.pics || s.lib.pics[src].format !in Formats then Outcome(s, Probe(Album(a), size, 0)) == None
            else
              var name := Name(Album(a), SmallerOf(size, s.lib.pics[src].dim), s.lib.pics[src].format);
              Outcome(s, Probe(Album(a), size, 0)) ==
              if Readable(s, src) || (name.size == size && name in s.files) then Some(name) else None
  {
    hide Inv, Pending, Outcome, Pictured;
    var format := if src in s.lib.pics then s.lib.pics[src].format else "";
    forall name | name in s.files && name.id == Album(a)
      ensures src in s.lib.pics && name.format == format && format in Formats && name.size <= s.lib.pics[src].dim
    {
      FilesOfPicture(s, a, src, name);
    }
    assert Formats[0..] == Formats;
    ProbesAnswer(s, Album(a), size, 0, format);
    OpenedAnswers(s, a, size, src);
    if src in s.lib.pics { DecodedAnswers(s, Album(a), size, Plain(src)); }
  }

  lemma {:induction false} TilingAnswers(s: State, pc: Pc)
    requires Composing(pc)
    ensures Outcome(s, pc) ==
            match Composition(s, pc) case None => None case Some(image) => Outcome(s, Decoded(pc.id, pc.size, image))
    decreases |pc.ids| - pc.i, if pc.next.Some? then 0 else 1
  {
    var pc' := ReaderAfter(s, pc);
    if pc'.Tiling? { TilingAnswers(s, pc'); }
  }

  /** The side of a mosaic: one album's picture is passed on, brought down to the canvas. */
  function Side(lib: Library, tiles: seq<Source>): nat {
    if |tiles| == 1 && tiles[0] in lib.pics then SmallerOf(lib.pics[tiles[0]].dim, 1000) else 1000
  }

  /** With no blob missing and nothing pending, a request on its own serves the mosaic of the first four pictures. */
  lemma MosaicIsAnswered(s: State, c: nat, size: nat) returns (tiles: seq<Source>, ks: seq<nat>)
    requires Inv(s, true) && !Pending(s, Collection(c))
    ensures FirstFour(s.lib, s.rows, if c in s.lists then s.lists[c] else [], tiles, ks)
    ensures Outcome(s, Get(Collection(c), size)) ==
            if tiles == [] then None else Some(Name(Collection(c), SmallerOf(size, Side(s.lib, tiles)), "jpeg"))
  {
    hide Inv, Pending, FirstFour, Tiles, Composition;
    var ids := ListOf(s, c);
    tiles := Tiles(s.lib, s.rows, ids);
    ks := TilesAreFirstFour(s.lib, s.rows, ids);
    TilesAreReadable(s, ids, tiles, ks);
    ComposesArtIffReadable(s, c, size);
    forall name | name in s.files && name.id == Collection(c) ensures tiles != [] && name.format == "jpeg" && name.size <= Side(s.lib, tiles) {
      ShowsArt(s, true, name);
    }
    assert Outcome(s, Get(Collection(c), size)) == Outcome(s, Probe(Collection(c), size, 0));
    assert Formats[0..] == Formats && Formats[0] == "jpeg";
    ProbesAnswer(s, Collection(c), size, 0, "jpeg");
    assert Outcome(s, Probe(Collection(c), size, |Formats|)) == Outcome(s, Begun(s, c, size));
    TilingAnswers(s, Begun(s, c, size));
    if tiles != [] { DecodedAnswers(s, Collection(c), size, Composed(tiles)); }
  }

  lemma TilesAreReadable(s: State, ids: seq<nat>, tiles: seq<Source>, ks: seq<nat>)
    requires Inv(s, true) && FirstFour(s.lib, s.rows, ids, tiles, ks)
    ensures AllReadable(s, tiles)
  {
    forall j | 0 <= j < |tiles| ensures Readable(s, tiles[j]) {
      assert StandsFor(s.rows, ids[ks[j]], tiles[j]);
    }
  }
}
