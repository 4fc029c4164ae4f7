/** From a track id to its path and back, through the music directories and the albums' path triples. */
module SpecIdPaths {
  import opened Library
  import opened Options
  import P = Paths

  // The triple of a folder ---------------------------------------------------------------

  /** What populateAlbumBasics stores for the folder at `rel` below `root`. */
  function OwnTriple(root: string, rel: string): Triple {
    var (dir, base) := P.Split(rel);
    Triple(root, dir, base)
  }

  /** What scanDir stores for the folder above it. */
  function ParentTriple(root: string, rel: string): Triple {
    OwnTriple(root, P.Dir(rel))
  }

  lemma {:induction false} LastSlashOf(head: string, base: string)
    requires '/' !in base && (head == "" || head[|head| - 1] == '/')
    ensures P.LastSlash(head + base) == |head|
  {
    if base != "" {
      var short := base[..|base| - 1];
      assert (head + base)[..|head + base| - 1] == head + short;
      assert (head + base)[|head + base| - 1] == base[|base| - 1];
      LastSlashOf(head, short);
    } else {
      assert head + base == head;
    }
  }

  function Above(rel: seq<string>): string {
    if |rel| <= 1 then "" else P.Slashed(rel[..|rel| - 1]) + "/"
  }

  lemma SplitRel(rel: seq<string>)
    requires P.Names(rel) && rel != []
    ensures P.Split(P.RelPath(rel)) == (Above(rel), rel[|rel| - 1])
  {
    var base := rel[|rel| - 1];
    assert P.IsName(base);
    if |rel| > 1 {
      assert rel == rel[..|rel| - 1] + [base];
      P.SlashedConcat(rel[..|rel| - 1], [base]);
    }
    assert P.RelPath(rel) == Above(rel) + base;
    LastSlashOf(Above(rel), base);
  }

  lemma SplitDot()
    ensures P.Split(".") == ("", ".")
  {
  }

  lemma StartsWithName(rel: seq<string>)
    requires P.Names(rel) && rel != []
    ensures P.Slashed(rel) != "" && P.Slashed(rel)[0] != '/'
  {
    assert P.IsName(rel[0]) && rel[0][0] in rel[0];
  }

  /** Cleaning a relative path with a trailing slash drops the slash. */
  lemma CleanTrailing(rel: seq<string>)
    requires P.Names(rel) && rel != []
    ensures P.Clean(P.Slashed(rel) + "/") == P.RelPath(rel)
  {
    var s := P.Slashed(rel) + "/";
    StartsWithName(rel);
    P.PartsOfSlashed(rel);
    assert s == P.Slashed(rel) + "/" + "";
    P.PartsConcat(P.Slashed(rel), "");
    P.ReduceConcat(false, [], rel, [""]);
    P.ReduceNames(false, [], rel);
    assert P.Reduce(false, rel, [""]) == P.Reduce(false, rel, []);
    assert P.Elements(s) == rel;
  }

  lemma CleanAbove(rel: seq<string>)
    requires P.Names(rel) && rel != []
    ensures P.Clean(Above(rel)) == P.RelPath(rel[..|rel| - 1])
  {
    if |rel| > 1 {
      CleanTrailing(rel[..|rel| - 1]);
    } else {
      assert P.Reduce(false, [], [""]) == P.Reduce(false, [], []);
    }
  }

  lemma DirRel(rel: seq<string>)
    requires P.Names(rel) && rel != []
    ensures P.Dir(P.RelPath(rel)) == P.RelPath(rel[..|rel| - 1])
  {
    SplitRel(rel);
    CleanAbove(rel);
  }

  /** The triple a folder is given as a parent is the one it has itself. */
  lemma ParentTripleIsOwn(root: string, rel: seq<string>)
    requires P.Names(rel) && rel != []
    ensures ParentTriple(root, P.RelPath(rel)) == OwnTriple(root, P.RelPath(rel[..|rel| - 1]))
  {
    DirRel(rel);
  }

  lemma RelPathInjective(a: seq<string>, b: seq<string>)
    requires P.Names(a) && P.Names(b) && P.RelPath(a) == P.RelPath(b)
    ensures a == b
  {
    P.PartsOfOne(".");
    if a != [] { P.PartsOfSlashed(a); }
    if b != [] { P.PartsOfSlashed(b); }
    assert (a != [] ==> P.IsName(a[0])) && (b != [] ==> P.IsName(b[0]));
  }

  function Place(rel: seq<string>): (string, string) {
    if rel == [] then ("", ".") else (Above(rel), rel[|rel| - 1])
  }

  lemma TripleIsPlace(root: string, rel: seq<string>)
    requires P.Names(rel)
    ensures OwnTriple(root, P.RelPath(rel)) == Triple(root, Place(rel).0, Place(rel).1)
  {
    if rel == [] { SplitDot(); } else { SplitRel(rel); }
  }

  lemma LastIsName(rel: seq<string>)
    requires P.Names(rel)
    ensures rel != [] ==> P.IsName(rel[|rel| - 1])
  {
  }

  lemma PlaceInjective(a: seq<string>, b: seq<string>)
    requires P.Names(a) && P.Names(b) && Place(a) == Place(b)
    ensures a == b
  {
    hide Above, P.RelPath, P.Clean;
    LastIsName(a);
    LastIsName(b);
    if a != [] && b != [] {
      CleanAbove(a);
      CleanAbove(b);
      RelPathInjective(a[..|a| - 1], b[..|b| - 1]);
      assert a == a[..|a| - 1] + [a[|a| - 1]] && b == b[..|b| - 1] + [b[|b| - 1]];
    }
  }

  /** Different folders have different triples. */
  lemma TripleInjective(root: string, a: seq<string>, b: seq<string>)
    requires P.Names(a) && P.Names(b) && OwnTriple(root, P.RelPath(a)) == OwnTriple(root, P.RelPath(b))
    ensures a == b
  {
    TripleIsPlace(root, a);
    TripleIsPlace(root, b);
    PlaceInjective(a, b);
  }

  // Choosing the music directory -----------------------------------------------------------

  /** The first music directory that has `path` in it, as musicDirRelative and Lookup both choose it. */
  function FirstPrefix(dirs: seq<string>, path: string): (dir: Option<string>)
    ensures dir.Some? ==> dir.value in dirs && P.HasPrefix(path, dir.value)
  {
    if dirs == [] then None
    else if P.HasPrefix(path, dirs[0]) then Some(dirs[0])
    else FirstPrefix(dirs[1..], path)
  }

  lemma {:induction false} FirstPrefixAt(dirs: seq<string>, path: string, i: nat)
    requires i < |dirs| && P.HasPrefix(path, dirs[i]) && forall j | 0 <= j < i :: !P.HasPrefix(path, dirs[j])
    ensures FirstPrefix(dirs, path) == Some(dirs[i])
  {
    if i > 0 { FirstPrefixAt(dirs[1..], path, i - 1); }
  }

  lemma FirstPrefixNone(dirs: seq<string>, path: string)
    requires forall j | 0 <= j < |dirs| :: !P.HasPrefix(path, dirs[j])
    ensures FirstPrefix(dirs, path) == None
  {
  }

  /** The music directory of `path`, and the way to it from there. */
  function Chosen(dirs: seq<string>, path: string): (string, string) {
    var dir := FirstPrefix(dirs, path);
    if dir.None? then ("", "")
    else (dir.value, if P.Rel(dir.value, path).Some? then P.Rel(dir.value, path).value else "")
  }

  method MusicDirRelative(dirs: seq<string>, path: string) returns (dir: string, rel: string)
    ensures (dir, rel) == Chosen(dirs, path)
  {
    for i := 0 to |dirs|
      invariant forall j | 0 <= j < i :: !P.HasPrefix(path, dirs[j])
    {
      if P.HasPrefix(path, dirs[i]) {
        FirstPrefixAt(dirs, path, i);
        var r := P.Rel(dirs[i], path);
        return dirs[i], if r.Some? then r.value else "";
      }
    }
    FirstPrefixNone(dirs, path);
    return "", "";
  }

  // Locate and Lookup -------------------------------------------------------------------------

  datatype Id = TrackId(id: nat) | EpisodeId(id: nat) | StationId(id: nat)

  datatype Found = NotAbs | NotFound | Found(id: Id)

  /** A podcast episode: the podcast's directory and the file's name. */
  datatype Episode = Episode(dir: string, filename: string, completed: bool)

  datatype Media = Media(
    albums: map<nat, Album>,
    tracks: map<nat, Track>,
    episodes: map<nat, Episode>,
    stations: map<nat, string>)

  /** Track.AbsPath. */
  function AbsPathOf(m: Media, t: nat): string
    requires t in m.tracks && m.tracks[t].album in m.albums
  {
    var path := m.albums[m.tracks[t].album].path;
    P.Join([path.root, path.left, path.right, m.tracks[t].filename])
  }

  /** The path of what an id names; an episode has to be completed. */
  function Locate(m: Media, id: Id): Option<string> {
    match id
    case TrackId(t) => if t in m.tracks && m.tracks[t].album in m.albums then Some(AbsPathOf(m, t)) else None
    case EpisodeId(e) =>
      if e in m.episodes && m.episodes[e].completed
      then Some(if m.episodes[e].dir == "" then "" else P.Join([m.episodes[e].dir, m.episodes[e].filename])) else None
    case StationId(s) => if s in m.stations then Some(m.stations[s]) else None
  }

  predicate EpisodeAt(m: Media, e: nat, dir: string, filename: string) {
    e in m.episodes && m.episodes[e].dir == dir && m.episodes[e].filename == filename
  }

  predicate TrackAt(m: Media, t: nat, path: Triple, filename: string) {
    t in m.tracks && m.tracks[t].filename == filename &&
    m.tracks[t].album in m.albums && m.albums[m.tracks[t].album].path == path
  }

  /** Where Lookup looks for a track: its folder's triple and its filename. */
  function Target(dir: string, rel: string): (Triple, string) {
    var (relDir, filename) := P.Split(rel);
    (OwnTriple(dir, P.Clean(relDir)), filename)
  }

  /** The unique indexes on album paths and on (album, filename). */
  ghost predicate UniqueRows(m: Media) {
    && UniquePaths(m.albums)
    && forall t, u | t in m.tracks && u in m.tracks && m.tracks[t].album == m.tracks[u].album && m.tracks[t].filename == m.tracks[u].filename :: t == u
  }

  /** What Lookup may answer for a path. */
  ghost predicate Answers(m: Media, dirs: seq<string>, podcasts: string, path: string, found: Found) {
    if !P.StringPrefix(path, "http") && !P.IsAbs(path) then found == NotAbs
    else if P.StringPrefix(path, podcasts) then
      var (dir, file) := P.Split(path);
      if exists e :: EpisodeAt(m, e, P.Clean(dir), P.Clean(file))
      then found.Found? && found.id.EpisodeId? && EpisodeAt(m, found.id.id, P.Clean(dir), P.Clean(file))
      else found == NotFound
    else if P.StringPrefix(path, "http") then
      if exists s :: s in m.stations && m.stations[s] == path
      then found.Found? && found.id.StationId? && found.id.id in m.stations && m.stations[found.id.id] == path
      else found == NotFound
    else
      var (dir, rel) := Chosen(dirs, path);
      var (folder, filename) := Target(dir, rel);
      if dir != "" && exists t :: TrackAt(m, t, folder, filename)
      then found.Found? && found.id.TrackId? && TrackAt(m, found.id.id, folder, filename)
      else found == NotFound
  }

  method Lookup(m: Media, dirs: seq<string>, podcasts: string, path: string) returns (found: Found)
    ensures Answers(m, dirs, podcasts, path, found)
  {
    if !P.StringPrefix(path, "http") && !P.IsAbs(path) {
      return NotAbs;
    }
    if P.StringPrefix(path, podcasts) {
      var (dir, file) := P.Split(path);
      if e :| e in m.episodes && EpisodeAt(m, e, P.Clean(dir), P.Clean(file)) {
        return Found(EpisodeId(e));
      }
      return NotFound;
    }
    if P.StringPrefix(path, "http") {
      if s :| s in m.stations && m.stations[s] == path {
        return Found(StationId(s));
      }
      return NotFound;
    }
    var dir := "";
    var i := 0;
    while i < |dirs|
      invariant 0 <= i <= |dirs| && dir == ""
      invariant forall j | 0 <= j < i :: !P.HasPrefix(path, dirs[j])
    {
      if P.HasPrefix(path, dirs[i]) {
        dir := dirs[i];
        FirstPrefixAt(dirs, path, i);
        break;
      }
      i := i + 1;
    }
    if i == |dirs| { FirstPrefixNone(dirs, path); }
    if dir == "" {
      return NotFound;
    }
    var rel := P.Rel(dir, path);
    var (folder, filename) := Target(dir, if rel.Some? then rel.value else "");
    if t :| t in m.tracks && TrackAt(m, t, folder, filename) {
      return Found(TrackId(t));
    }
    return NotFound;
  }

  // The round trip ------------------------------------------------------------------------------

  function Dirs(roots: seq<seq<string>>): seq<string> {
    seq(|roots|, i requires 0 <= i < |roots| => P.AbsPath(roots[i]))
  }

  /** The scanner found track `t` as `filename` in `folder`, below one of the music directories. */
  ghost predicate Scanned(m: Media, roots: seq<seq<string>>, t: nat, folder: seq<string>, filename: string) {
    && t in m.tracks && m.tracks[t].filename == filename && m.tracks[t].album in m.albums
    && P.Names(folder) && P.IsName(filename) && (forall root | root in roots :: P.Names(root))
    && var (dir, rel) := Chosen(Dirs(roots), P.AbsPath(folder));
       dir != "" && dir != P.AbsPath(folder) && m.albums[m.tracks[t].album].path == OwnTriple(dir, rel)
  }

  lemma RelBelow(root: seq<string>, folder: seq<string>)
    requires P.Names(folder) && root <= folder
    ensures P.Names(root)
    ensures P.Rel(P.AbsPath(root), P.AbsPath(folder)) == Some(P.RelPath(folder[|root|..]))
  {
    assert P.Names(root);
    P.RelOfAbs(root, folder);
    CommonPrefix(root, folder);
    assert root != folder ==> P.Ups(0) + folder[|root|..] == folder[|root|..];
  }

  lemma CommonPrefix(a: seq<string>, b: seq<string>)
    requires a <= b
    ensures P.Common(a, b) == |a|
  {
  }

  /** A track's path and its folder's path have the same music directory. */
  lemma SameDir(roots: seq<seq<string>>, folder: seq<string>, filename: string)
    requires P.Names(folder) && P.IsName(filename) && forall root | root in roots :: P.Names(root)
    requires folder != [] && folder + [filename] !in roots
    ensures FirstPrefix(Dirs(roots), P.AbsPath(folder + [filename])) == FirstPrefix(Dirs(roots), P.AbsPath(folder))
  {
    forall i | 0 <= i < |roots|
      ensures P.HasPrefix(P.AbsPath(folder + [filename]), Dirs(roots)[i]) <==> P.HasPrefix(P.AbsPath(folder), Dirs(roots)[i])
    {
      P.HasPrefixIsPrefix(folder + [filename], roots[i]);
      P.HasPrefixIsPrefix(folder, roots[i]);
      assert roots[i] <= folder + [filename] && roots[i] != folder + [filename] ==> roots[i] <= folder;
    }
    SamePrefixes(Dirs(roots), P.AbsPath(folder + [filename]), P.AbsPath(folder));
  }

  lemma {:induction false} SamePrefixes(dirs: seq<string>, p: string, q: string)
    requires forall i | 0 <= i < |dirs| :: P.HasPrefix(p, dirs[i]) <==> P.HasPrefix(q, dirs[i])
    ensures FirstPrefix(dirs, p) == FirstPrefix(dirs, q)
  {
    if dirs != [] { SamePrefixes(dirs[1..], p, q); }
  }

  lemma {:induction false} PartsOfAbove(rel: seq<string>)
    requires P.Names(rel) && rel != []
    ensures P.Parts(Above(rel)) == rel[..|rel| - 1] + [""]
  {
    var up := rel[..|rel| - 1];
    assert P.Names(up);
    if up != [] {
      P.PartsConcat(P.Slashed(up), "");
      P.PartsOfSlashed(up);
      assert P.Slashed(up) + "/" + "" == Above(rel);
    }
  }

  /** An album's triple and a filename, joined onto the clean path of the music directory. */
  lemma JoinsPlace(root: seq<string>, rel: seq<string>, filename: string)
    requires P.Names(root) && P.Names(rel) && rel != [] && P.IsName(filename)
    ensures P.Join([P.AbsPath(root), Above(rel), rel[|rel| - 1], filename]) == P.AbsPath(root + rel + [filename])
  {
    var base := rel[|rel| - 1];
    assert P.IsName(base);
    var tail := [Above(rel), base, filename];
    assert [P.AbsPath(root), Above(rel), base, filename] == [P.AbsPath(root)] + tail;
    P.SlashedConcat([P.AbsPath(root)], tail);
    P.JoinReads(root, P.Slashed(tail));
    PartsOfTail(rel, filename);
    assert P.Slashed([P.AbsPath(root), P.Slashed(tail)]) == P.AbsPath(root) + "/" + P.Slashed(tail);
    ReducePlace(root, rel, filename);
  }

  lemma PartsOfTail(rel: seq<string>, filename: string)
    requires P.Names(rel) && rel != [] && P.IsName(filename)
    ensures P.Parts(P.Slashed([Above(rel), rel[|rel| - 1], filename])) == rel[..|rel| - 1] + [""] + [rel[|rel| - 1], filename]
  {
    var base := rel[|rel| - 1];
    assert P.IsName(base);
    assert P.NoSlash([base, filename]);
    P.PartsOfSlashed([base, filename]);
    assert [Above(rel), base, filename][1..] == [base, filename];
    P.PartsConcat(Above(rel), P.Slashed([base, filename]));
    PartsOfAbove(rel);
  }

  lemma ReducePlace(root: seq<string>, rel: seq<string>, filename: string)
    requires P.Names(rel) && rel != [] && P.IsName(filename)
    ensures P.Reduce(true, root, rel[..|rel| - 1] + [""] + [rel[|rel| - 1], filename]) == root + rel + [filename]
  {
    var up, last := rel[..|rel| - 1], [rel[|rel| - 1], filename];
    P.ReduceConcat(true, root, up + [""], last);
    P.ReduceConcat(true, root, up, [""]);
    P.ReduceNames(true, root, up);
    assert P.Reduce(true, root + up, [""]) == P.Reduce(true, root + up, []);
    P.ReduceNames(true, root + up, last);
    assert root + up + last == root + rel + [filename];
  }

  /** Lookup splits a file's relative path into the folder's own triple and the filename. */
  lemma TargetIsPlace(dir: string, rel: seq<string>, filename: string)
    requires P.Names(rel) && rel != [] && P.IsName(filename)
    ensures Target(dir, P.RelPath(rel + [filename])) == (OwnTriple(dir, P.RelPath(rel)), filename)
  {
    var all := rel + [filename];
    assert all[..|all| - 1] == rel;
    SplitRel(all);
    CleanTrailing(rel);
  }

  /** Where the scanner put a track, in names: below which music directory and how far. */
  lemma ScannedBelow(m: Media, roots: seq<seq<string>>, t: nat, folder: seq<string>, filename: string) returns (root: seq<string>)
    requires Scanned(m, roots, t, folder, filename)
    ensures root in roots && P.Names(root) && root < folder
    ensures Chosen(Dirs(roots), P.AbsPath(folder)) == (P.AbsPath(root), P.RelPath(folder[|root|..]))
  {
    var dir := FirstPrefix(Dirs(roots), P.AbsPath(folder));
    var i :| 0 <= i < |roots| && Dirs(roots)[i] == dir.value;
    root := roots[i];
    P.HasPrefixIsPrefix(folder, root);
    assert root <= folder && root != folder;
    RelBelow(root, folder);
  }

  lemma PathOfScanned(m: Media, roots: seq<seq<string>>, t: nat, folder: seq<string>, filename: string)
    requires Scanned(m, roots, t, folder, filename)
    ensures AbsPathOf(m, t) == P.AbsPath(folder + [filename])
  {
    hide P.Join, P.Rel, P.Parts, P.Reduce, P.Slashed, FirstPrefix;
    var root := ScannedBelow(m, roots, t, folder, filename);
    var rel := folder[|root|..];
    TripleIsPlace(P.AbsPath(root), rel);
    JoinsPlace(root, rel, filename);
    assert root + rel == folder;
  }

  lemma TargetOfScanned(m: Media, roots: seq<seq<string>>, t: nat, folder: seq<string>, filename: string)
    requires Scanned(m, roots, t, folder, filename) && folder + [filename] !in roots
    ensures var (dir, rel) := Chosen(Dirs(roots), P.AbsPath(folder + [filename]));
            dir != "" && Target(dir, rel) == (m.albums[m.tracks[t].album].path, filename)
  {
    hide P.Rel, P.Parts, P.Reduce, P.Slashed;
    var root := ScannedBelow(m, roots, t, folder, filename);
    SameDir(roots, folder, filename);
    var all := folder + [filename];
    RelBelow(root, all);
    assert all[|root|..] == folder[|root|..] + [filename];
    TargetIsPlace(P.AbsPath(root), folder[|root|..], filename);
  }

  /**
   * Looking up the path that a scanned track has gives that track, with nested music directories in any
   * order, exactly when the podcast directory is not a string prefix of the path.
   */
  lemma LookupFindsScanned(m: Media, roots: seq<seq<string>>, podcasts: string, t: nat, folder: seq<string>, filename: string, found: Found)
    requires Scanned(m, roots, t, folder, filename) && UniqueRows(m) && folder + [filename] !in roots
    requires Answers(m, Dirs(roots), podcasts, Locate(m, TrackId(t)).value, found)
    ensures Locate(m, TrackId(t)) == Some(P.AbsPath(folder + [filename]))
    ensures found == Found(TrackId(t)) <==> !P.StringPrefix(P.AbsPath(folder + [filename]), podcasts)
  {
    PathOfScanned(m, roots, t, folder, filename);
    TargetOfScanned(m, roots, t, folder, filename);
    var path := AbsPathOf(m, t);
    assert P.IsAbs(path) && !P.StringPrefix(path, "http");
    if !P.StringPrefix(path, podcasts) {
      assert TrackAt(m, t, m.albums[m.tracks[t].album].path, filename);
    }
  }

  lemma SplitAbs(dir: seq<string>, filename: string)
    requires P.Names(dir) && P.IsName(filename)
    ensures var (d, f) := P.Split(P.AbsPath(dir + [filename])); P.Clean(d) == P.AbsPath(dir) && P.Clean(f) == filename
  {
    var all := dir + [filename];
    var head := if dir == [] then "/" else P.AbsPath(dir) + "/";
    if dir != [] { P.SlashedConcat(dir, [filename]); }
    assert P.AbsPath(all) == head + filename;
    LastSlashOf(head, filename);
    CleanHead(dir);
    CleanOne(filename);
  }

  lemma CleanOne(name: string)
    requires P.IsName(name)
    ensures P.Clean(name) == name
  {
    P.PartsOfOne(name);
    P.ReduceNames(false, [], [name]);
    assert P.Elements(name) == [name];
  }

  lemma CleanHead(dir: seq<string>)
    requires P.Names(dir)
    ensures P.Clean(if dir == [] then "/" else P.AbsPath(dir) + "/") == P.AbsPath(dir)
  {
    P.ElementsOfAbs(dir);
    if dir == [] {
      assert P.AbsPath(dir) == "/";
    } else {
      var s := P.AbsPath(dir) + "/";
      assert s == P.AbsPath(dir) + "/" + "";
      P.PartsConcat(P.AbsPath(dir), "");
      P.ReduceConcat(true, [], P.Parts(P.AbsPath(dir)), [""]);
      assert P.Reduce(true, dir, [""]) == P.Reduce(true, dir, []);
    }
  }

  /** Looking up a completed episode's path gives an episode with that very path, below the podcast directory. */
  lemma LookupFindsEpisode(m: Media, dirs: seq<string>, podcasts: string, e: nat, dir: seq<string>, filename: string, found: Found)
    requires e in m.episodes && m.episodes[e] == Episode(P.AbsPath(dir), filename, true) && P.Names(dir) && P.IsName(filename)
    requires Answers(m, dirs, podcasts, Locate(m, EpisodeId(e)).value, found)
    ensures Locate(m, EpisodeId(e)) == Some(P.AbsPath(dir + [filename]))
    ensures P.StringPrefix(P.AbsPath(dir + [filename]), podcasts) ==>
              found.Found? && found.id.EpisodeId? && EpisodeAt(m, found.id.id, P.AbsPath(dir), filename)
  {
    P.JoinReads(dir, filename);
    P.PartsOfOne(filename);
    P.ReduceNames(true, dir, [filename]);
    SplitAbs(dir, filename);
    if P.StringPrefix(P.AbsPath(dir + [filename]), podcasts) {
      assert EpisodeAt(m, e, P.AbsPath(dir), filename);
    }
  }

  /**
   * A station's address is looked up as a station with that address, exactly when the podcast directory is not a
   * string prefix of it.
   */
  lemma LookupFindsStation(m: Media, dirs: seq<string>, podcasts: string, s: nat, found: Found)
    requires s in m.stations && P.StringPrefix(m.stations[s], "http")
    requires Answers(m, dirs, podcasts, m.stations[s], found)
    ensures Locate(m, StationId(s)) == Some(m.stations[s])
    ensures found.Found? && found.id.StationId? && found.id.id in m.stations && m.stations[found.id.id] == m.stations[s]
            <==> !P.StringPrefix(m.stations[s], podcasts)
  {
  }

  /** What has a path: tracks with an album, completed episodes, and stations. */
  lemma LocateFinds(m: Media, id: Id)
    ensures Locate(m, id).Some? <==>
            match id
            case TrackId(t) => t in m.tracks && m.tracks[t].album in m.albums
            case EpisodeId(e) => e in m.episodes && m.episodes[e].completed
            case StationId(s) => s in m.stations
  {
  }

  // What is found has the path asked for --------------------------------------------------------

  /** A file right in a music directory, or the directory itself. */
  lemma JoinsTop(root: seq<string>, filename: string)
    requires P.Names(root) && (P.IsName(filename) || filename == ".")
    ensures P.Join([P.AbsPath(root), "", ".", filename]) == P.AbsPath(if filename == "." then root else root + [filename])
  {
    var tail := ["", ".", filename];
    assert [P.AbsPath(root), "", ".", filename] == [P.AbsPath(root)] + tail;
    P.SlashedConcat([P.AbsPath(root)], tail);
    assert tail[1..] == [".", filename] && [".", filename][1..] == [filename];
    assert P.NoSlash(tail);
    P.PartsOfSlashed(tail);
    P.JoinReads(root, P.Slashed(tail));
    assert P.Slashed([P.AbsPath(root), P.Slashed(tail)]) == P.AbsPath(root) + "/" + P.Slashed(tail);
    assert P.Reduce(true, root, tail) == P.Reduce(true, root, tail[1..]) == P.Reduce(true, root, [filename]);
    if filename == "." {
      assert P.Reduce(true, root, ["."]) == P.Reduce(true, root, []);
    } else {
      P.ReduceNames(true, root, [filename]);
    }
  }

  lemma TargetAtTop(dir: string, filename: string)
    requires P.IsName(filename) || filename == "."
    ensures Target(dir, filename) == (Triple(dir, "", "."), filename)
  {
    assert '/' !in filename;
    LastSlashOf("", filename);
    assert "" + filename == filename;
    assert P.Clean("") == ".";
    SplitDot();
  }

  lemma TargetIsThere(m: Media, root: seq<string>, rest: seq<string>, t: nat, folder: Triple, filename: string)
    requires P.Names(root) && P.Names(rest) && Target(P.AbsPath(root), P.RelPath(rest)) == (folder, filename)
    requires TrackAt(m, t, folder, filename)
    ensures AbsPathOf(m, t) == P.AbsPath(root + rest)
  {
    hide P.Join, P.Rel, P.Parts, P.Reduce, P.Slashed, Target;
    var dir := P.AbsPath(root);
    if |rest| <= 1 {
      var name := if rest == [] then "." else rest[0];
      assert P.RelPath(rest) == name by { OneRelPath(rest); }
      TargetAtTop(dir, name);
      JoinsTop(root, name);
      assert rest == [] || rest == [name];
      assert root + [] == root;
    } else {
      var up, last := rest[..|rest| - 1], rest[|rest| - 1];
      assert rest == up + [last] && P.Names(up) && P.IsName(last);
      TargetIsPlace(dir, up, last);
      TripleIsPlace(dir, up);
      JoinsPlace(root, up, last);
      assert root + rest == root + up + [last];
    }
  }

  lemma OneRelPath(rest: seq<string>)
    requires |rest| <= 1
    ensures P.RelPath(rest) == if rest == [] then "." else rest[0]
  {
  }

  lemma ChosenIsAbove(roots: seq<seq<string>>, names: seq<string>) returns (root: seq<string>)
    requires P.Names(names) && (forall root | root in roots :: P.Names(root))
    requires Chosen(Dirs(roots), P.AbsPath(names)).0 != ""
    ensures P.Names(root) && root <= names && Chosen(Dirs(roots), P.AbsPath(names)) == (P.AbsPath(root), P.RelPath(names[|root|..]))
  {
    var dir := FirstPrefix(Dirs(roots), P.AbsPath(names));
    var i :| 0 <= i < |roots| && Dirs(roots)[i] == dir.value;
    root := roots[i];
    P.HasPrefixIsPrefix(names, root);
    RelBelow(root, names);
  }

  /** Whatever Lookup finds for a clean absolute path is a track or an episode with that very path. */
  lemma LookupIsRight(m: Media, roots: seq<seq<string>>, podcasts: string, names: seq<string>, found: Found)
    requires P.Names(names) && (forall root | root in roots :: P.Names(root))
    requires Answers(m, Dirs(roots), podcasts, P.AbsPath(names), found)
    ensures found != NotAbs && !(found.Found? && found.id.StationId?)
    ensures found.Found? && found.id.TrackId? ==> Locate(m, found.id) == Some(P.AbsPath(names))
    ensures found.Found? && found.id.EpisodeId? ==>
              && found.id.id in m.episodes
              && P.Join([m.episodes[found.id.id].dir, m.episodes[found.id.id].filename]) == P.AbsPath(names)
  {
    hide P.Join, P.Rel, P.Parts, P.Reduce, P.Slashed, Target, Chosen, FirstPrefix, P.Split, P.Clean, AbsPathOf;
    var path := P.AbsPath(names);
    assert P.IsAbs(path) && !P.StringPrefix(path, "http") by { assert path[0] == '/'; }
    if found.Found? && found.id.EpisodeId? {
      SplitsAnywhere(names);
    } else if found.Found? {
      var root := ChosenIsAbove(roots, names);
      var rest := names[|root|..];
      var (folder, filename) := Target(P.AbsPath(root), P.RelPath(rest));
      TargetIsThere(m, root, rest, found.id.id, folder, filename);
      assert root + rest == names;
    }
  }

  /** The two sides of a path's last slash, cleaned, join to the path. */
  lemma SplitsAnywhere(names: seq<string>)
    requires P.Names(names)
    ensures var (dir, file) := P.Split(P.AbsPath(names)); P.Join([P.Clean(dir), P.Clean(file)]) == P.AbsPath(names)
  {
    hide P.Join, P.Rel;
    if names == [] {
      assert P.AbsPath([]) == "/" && P.Split("/") == ("/", "");
      P.ElementsOfAbs([]);
      assert P.Clean("") == ".";
      P.JoinReads([], ".");
      P.PartsOfOne(".");
      assert P.Reduce(true, [], ["."]) == P.Reduce(true, [], []);
    } else {
      var up, last := names[..|names| - 1], names[|names| - 1];
      assert names == up + [last] && P.Names(up) && P.IsName(last);
      SplitAbs(up, last);
      P.JoinReads(up, last);
      P.PartsOfOne(last);
      P.ReduceNames(true, up, [last]);
    }
  }
}
