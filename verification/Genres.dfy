/** The genres a track is given: those in its tags, and their ancestors in the genre tree. */
module Genres {
  import opened Options
  import L = Lines
  import opened TextTree

  /** Tag values as they are read: trimmed, blanks still among them. */
  function ReadValues(parts: seq<string>): (names: seq<string>)
    ensures |names| == |parts| && forall i | 0 <= i < |parts| :: names[i] == L.TrimSpace(parts[i])
  {
    seq(|parts|, i requires 0 <= i < |parts| => L.TrimSpace(parts[i]))
  }

  /** `n` is one of `direct` or an ancestor of one. */
  ghost predicate InClosure(edges: seq<Edge>, direct: seq<string>, n: string) {
    exists d :: d in direct && Reaches(edges, n, d)
  }

  /** No edge has a blank end, and none has spaces around a name, as EdgeOf reads them. */
  predicate CleanNames(edges: seq<Edge>) {
    forall n | n in NamesIn(edges) :: CleanName(n)
  }

  predicate CleanName(n: string) {
    n != "" && L.TrimSpace(n) == n
  }

  lemma EdgeIsClean(line: string)
    ensures var e := EdgeOf(line); e.Some? ==> CleanName(e.value.parent) && CleanName(e.value.child)
  {
  }

  lemma OneIsClean(e: Option<Edge>)
    requires e.Some? ==> CleanName(e.value.parent) && CleanName(e.value.child)
    ensures CleanNames(if e.Some? then [e.value] else [])
  {
  }

  lemma CleanConcat(a: seq<Edge>, b: seq<Edge>)
    requires CleanNames(a) && CleanNames(b)
    ensures CleanNames(a + b)
  {
  }

  lemma {:induction false} EdgesHaveCleanNames(lines: seq<string>)
    ensures CleanNames(Edges(lines))
  {
    if lines != [] {
      EdgesHaveCleanNames(lines[..|lines| - 1]);
      EdgeIsClean(lines[|lines| - 1]);
      OneIsClean(EdgeOf(lines[|lines| - 1]));
      CleanConcat(Edges(lines[..|lines| - 1]), Said(lines[|lines| - 1]));
    }
  }

  // Inherited names ------------------------------------------------------------------------

  /** The tree's names that are not tagged themselves and list one that is. */
  ghost predicate Inherits(tree: map<string, seq<string>>, direct: seq<string>, n: string) {
    n in tree && n !in direct && exists d :: d in tree[n] && d in direct
  }

  method InheritedNames(tree: map<string, seq<string>>, direct: seq<string>) returns (names: seq<string>)
    ensures forall n :: n in names <==> Inherits(tree, direct, n)
  {
    names := [];
    var left := tree.Keys;
    while left != {}
      invariant left <= tree.Keys
      invariant forall n :: n in names <==> Inherits(tree, direct, n) && n !in left
      decreases |left|
    {
      var parent :| parent in left;
      left := left - {parent};
      if parent in direct { continue; }
      for i := 0 to |tree[parent]|
        invariant forall j | 0 <= j < i :: tree[parent][j] !in direct
        invariant forall n :: n in names <==> Inherits(tree, direct, n) && n !in left + {parent}
      {
        if tree[parent][i] in direct {
          assert tree[parent][i] in tree[parent];
          names := names + [parent];
          break;
        }
      }
    }
  }

  /** Direct and inherited names together are the ancestor closure of the direct ones. */
  lemma ClosureIsInherited(tree: map<string, seq<string>>, edges: seq<Edge>, direct: seq<string>, n: string)
    requires IsTreeOf(tree, edges)
    ensures InClosure(edges, direct, n) <==> n in direct || Inherits(tree, direct, n)
  {
    ReachesSelf(edges, n);
    if n in tree { assert ListsReach(tree[n], edges, n); }
    if n !in direct {
      forall d | d in direct && Reaches(edges, n, d) ensures n in tree { StartIsNamed(edges, n, d); }
    }
  }

  lemma StartIsNamed(edges: seq<Edge>, a: string, b: string)
    requires Reaches(edges, a, b) && a != b
    ensures a in NamesIn(edges)
  {
    var path :| IsPath(edges, path) && path[0] == a && path[|path| - 1] == b;
    assert Edge(path[0], path[1]) in edges;
  }

  // Rows ---------------------------------------------------------------------------------------

  /** A row of track_genres, but for the track. */
  datatype Row = Row(id: nat, inherited: bool)

  ghost predicate EachOnce(rows: seq<Row>) {
    forall i, j | 0 <= i < j < |rows| :: rows[i].id != rows[j].id
  }

  /** genreRows: every id once, and those that are not direct marked inherited. */
  method GenreRows(directIds: seq<nat>, inheritedIds: seq<nat>) returns (rows: seq<Row>)
    ensures EachOnce(rows)
    ensures forall id, b :: Row(id, b) in rows <==> (id in directIds && !b) || (id in inheritedIds && id !in directIds && b)
  {
    var seen: set<nat> := {};
    rows := [];
    for i := 0 to |directIds|
      invariant EachOnce(rows) && forall id :: id in seen <==> id in directIds[..i]
      invariant forall id, b :: Row(id, b) in rows <==> id in seen && !b
    {
      assert directIds[..i + 1] == directIds[..i] + [directIds[i]];
      var id := directIds[i];
      if id in seen { continue; }
      seen := seen + {id};
      RowIsNew(rows, id);
      rows := rows + [Row(id, false)];
    }
    assert directIds[..|directIds|] == directIds;
    for i := 0 to |inheritedIds|
      invariant EachOnce(rows) && forall id :: id in seen <==> id in directIds || id in inheritedIds[..i]
      invariant forall id, b :: Row(id, b) in rows <==> (id in directIds && !b) || (id in seen && id !in directIds && b)
    {
      assert inheritedIds[..i + 1] == inheritedIds[..i] + [inheritedIds[i]];
      var id := inheritedIds[i];
      if id in seen { continue; }
      seen := seen + {id};
      RowIsNew(rows, id);
      rows := rows + [Row(id, true)];
    }
    assert inheritedIds[..|inheritedIds|] == inheritedIds;
  }

  lemma RowIsNew(rows: seq<Row>, id: nat)
    requires EachOnce(rows) && Row(id, false) !in rows && Row(id, true) !in rows
    ensures forall b :: EachOnce(rows + [Row(id, b)])
  {
  }

  // The tables ------------------------------------------------------------------------------------

  /** populateGenres keeps the trimmed names that are not blank. */
  function Filtered(names: seq<string>): seq<string> {
    if names == [] then []
    else
      var clean := L.TrimSpace(names[|names| - 1]);
      Filtered(names[..|names| - 1]) + if clean != "" then [clean] else []
  }

  lemma FilteredSnoc(names: seq<string>, i: nat)
    requires i < |names|
    ensures var clean := L.TrimSpace(names[i]);
            Filtered(names[..i + 1]) == Filtered(names[..i]) + if clean != "" then [clean] else []
  {
    assert names[..i + 1][..i] == names[..i];
  }

  lemma {:induction false} FilteredClean(names: seq<string>, n: string)
    requires forall m | m in names :: L.TrimSpace(m) == m
    ensures n in Filtered(names) <==> n != "" && n in names
  {
    if names != [] {
      var init, last := names[..|names| - 1], names[|names| - 1];
      assert names == init + [last];
      FilteredClean(init, n);
    }
  }

  /** Genre `n` belongs on a track with these tagged names, and `b` says whether it is inherited. */
  ghost predicate Given(edges: seq<Edge>, names: seq<string>, n: string, b: bool) {
    n != "" && InClosure(edges, names, n) && b == (n !in names)
  }

  /** The rows name exactly the genres that belong on the track, each with its mark. */
  ghost predicate HoldsClosure(genres: map<string, nat>, rows: seq<Row>, edges: seq<Edge>, names: seq<string>) {
    && (forall n, b | Given(edges, names, n, b) :: n in genres && Row(genres[n], b) in rows)
    && (forall row | row in rows :: exists n :: n in genres && genres[n] == row.id && Given(edges, names, n, row.inherited))
  }

  ghost predicate Injective(genres: map<string, nat>) {
    forall m, n | m in genres && n in genres && genres[m] == genres[n] :: m == n
  }

  ghost predicate IdsOf(genres: map<string, nat>, names: seq<string>, ids: seq<nat>) {
    && (forall n | n in names :: n in genres && genres[n] in ids)
    && (forall id | id in ids :: exists n :: n in names && n in genres && genres[n] == id)
  }

  /** The rows there were are still there. */
  ghost predicate Grows(before: map<string, nat>, after: map<string, nat>) {
    forall n | n in before :: n in after && after[n] == before[n]
  }

  lemma IdsKept(before: map<string, nat>, after: map<string, nat>, names: seq<string>, ids: seq<nat>)
    requires IdsOf(before, names, ids) && Grows(before, after)
    ensures IdsOf(after, names, ids)
  {
  }

  lemma TrimmedValues(parts: seq<string>)
    ensures forall m | m in ReadValues(parts) :: L.TrimSpace(m) == m
  {
  }

  lemma OneMoreId(genres: map<string, nat>, names: seq<string>, ids: seq<nat>, n: string)
    requires IdsOf(genres, names, ids) && n in genres
    ensures IdsOf(genres, names + [n], ids + [genres[n]])
  {
  }

  lemma GivenIff(tree: map<string, seq<string>>, edges: seq<Edge>, names: seq<string>, inherited: seq<string>, n: string, b: bool)
    requires IsTreeOf(tree, edges) && CleanNames(edges) && forall m | m in names :: L.TrimSpace(m) == m
    requires forall m :: m in inherited <==> Inherits(tree, names, m)
    ensures Given(edges, names, n, b) <==>
              (n in Filtered(names) && !b) || (n in Filtered(inherited) && n !in Filtered(names) && b)
  {
    ClosureIsInherited(tree, edges, names, n);
    FilteredClean(names, n);
    FilteredClean(inherited, n);
  }

  lemma RowsAreGiven(tree: map<string, seq<string>>, edges: seq<Edge>, names: seq<string>, inherited: seq<string>,
                     genres: map<string, nat>, directIds: seq<nat>, inheritedIds: seq<nat>, rows: seq<Row>)
    requires IsTreeOf(tree, edges) && CleanNames(edges) && forall m | m in names :: L.TrimSpace(m) == m
    requires forall m :: m in inherited <==> Inherits(tree, names, m)
    requires Injective(genres) && IdsOf(genres, Filtered(names), directIds) && IdsOf(genres, Filtered(inherited), inheritedIds)
    requires forall id, b :: Row(id, b) in rows <==> (id in directIds && !b) || (id in inheritedIds && id !in directIds && b)
    ensures HoldsClosure(genres, rows, edges, names)
  {
    forall n, b | Given(edges, names, n, b) ensures n in genres && Row(genres[n], b) in rows {
      GivenIff(tree, edges, names, inherited, n, b);
      if b { NotDirect(genres, names, directIds, n); }
    }
    forall row | row in rows ensures exists n :: n in genres && genres[n] == row.id && Given(edges, names, n, row.inherited) {
      assert row == Row(row.id, row.inherited);
      var from := if row.inherited then inherited else names;
      var n :| n in Filtered(from) && n in genres && genres[n] == row.id;
      GivenIff(tree, edges, names, inherited, n, row.inherited);
    }
  }

  lemma NotDirect(genres: map<string, nat>, names: seq<string>, directIds: seq<nat>, n: string)
    requires Injective(genres) && IdsOf(genres, Filtered(names), directIds) && n in genres && n !in Filtered(names)
    ensures genres[n] !in directIds
  {
  }

  class GenreDb {
    var genres: map<string, nat>          // the unique index on the name
    var next: nat
    var trackGenres: map<nat, seq<Row>>

    constructor ()
      ensures Valid() && genres == map[] && trackGenres == map[]
    {
      genres, next, trackGenres := map[], 0, map[];
    }

    ghost predicate Valid()
      reads this
    {
      && (forall n | n in genres :: genres[n] < next)
      && Injective(genres)
    }

    method FirstOrCreate(name: string) returns (id: nat)
      requires Valid()
      modifies `genres, `next
      ensures Valid() && Grows(old(genres), genres)
      ensures name in genres && id == genres[name]
    {
      if name !in genres {
        genres := genres[name := next];
        next := next + 1;
      }
      id := genres[name];
    }

    /** The ids of the names, with rows for those that had none. */
    method PopulateGenres(names: seq<string>) returns (ids: seq<nat>)
      requires Valid()
      modifies `genres, `next
      ensures Valid() && Grows(old(genres), genres)
      ensures IdsOf(genres, Filtered(names), ids)
    {
      ids := [];
      var i := 0;
      while i < |names|
        invariant 0 <= i <= |names| && Valid() && Grows(old(genres), genres)
        invariant IdsOf(genres, Filtered(names[..i]), ids)
      {
        FilteredSnoc(names, i);
        var clean := L.TrimSpace(names[i]);
        if clean != "" {
          ghost var before := genres;
          var id := FirstOrCreate(clean);
          IdsKept(before, genres, Filtered(names[..i]), ids);
          OneMoreId(genres, Filtered(names[..i]), ids, clean);
          ids := ids + [id];
        }
        i := i + 1;
      }
      assert names[..i] == names;
    }

    /**
     * A track's rows after a scan of its tags: the ancestor closure of the tagged genres, each genre once,
     * with the inherited mark on exactly those that are not tagged themselves.
     */
    method PopulateTrackGenres(track: nat, parts: seq<string>, tree: map<string, seq<string>>, ghost edges: seq<Edge>)
      requires Valid() && IsTreeOf(tree, edges) && CleanNames(edges)
      modifies this
      ensures Valid() && Grows(old(genres), genres)
      ensures track in trackGenres && trackGenres == old(trackGenres)[track := trackGenres[track]]
      ensures EachOnce(trackGenres[track])
      ensures HoldsClosure(genres, trackGenres[track], edges, ReadValues(parts))
    {
      var names := ReadValues(parts);
      var directIds := PopulateGenres(names);
      var inheritedIds: seq<nat> := [];
      var inherited: seq<string> := [];
      ghost var before := genres;
      if |tree| > 0 {
        inherited := InheritedNames(tree, names);
        inheritedIds := PopulateGenres(inherited);
      }
      IdsKept(before, genres, Filtered(names), directIds);
      TrimmedValues(parts);
      var rows := GenreRows(directIds, inheritedIds);
      RowsAreGiven(tree, edges, names, inherited, genres, directIds, inheritedIds, rows);
      trackGenres := trackGenres[track := rows];
    }
  }
}
