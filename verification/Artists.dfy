/** Artist rows: found or made by name and by MusicBrainz id, and merged as the ids become known. */
module Artists {
  datatype Artist = Artist(name: string, mbid: string)

  /** The rows, and the id that the next row gets. */
  datatype Table = Table(rows: map<nat, Artist>, next: nat)

  function Named(t: Table, name: string): set<nat> {
    set a | a in t.rows && t.rows[a].name == name
  }

  function WithMbid(t: Table, mbid: string): set<nat> {
    set a | a in t.rows && t.rows[a].mbid == mbid
  }

  predicate IsLowest(ids: set<nat>, a: nat) {
    a in ids && forall b | b in ids :: a <= b
  }

  lemma {:induction false} HasLowest(ids: set<nat>) returns (a: nat)
    requires ids != {}
    ensures IsLowest(ids, a)
  {
    var x :| x in ids;
    var rest := ids - {x};
    a := x;
    if rest != {} {
      var b := HasLowest(rest);
      a := if b < x then b else x;
    }
    forall c | c in ids ensures a <= c { assert c == x || c in rest; }
  }

  lemma LowestIsThere(ids: set<nat>)
    requires ids != {}
    ensures exists a :: IsLowest(ids, a)
  {
    var a := HasLowest(ids);
  }

  /** ORDER BY id LIMIT 1. */
  function Lowest(ids: set<nat>): (a: nat)
    requires ids != {}
    ensures IsLowest(ids, a)
  {
    LowestIsThere(ids);
    var a :| a in ids && IsLowest(ids, a);
    a
  }

  function Create(t: Table, name: string, mbid: string): (Table, nat) {
    (Table(t.rows[t.next := Artist(name, mbid)], t.next + 1), t.next)
  }

  /** The table and the row that populateArtist leaves for a credit. */
  function Populated(t: Table, name: string, mbid: string): (Table, nat) {
    if mbid == "" then
      if Named(t, name) != {} then (t, Lowest(Named(t, name))) else Create(t, name, "")
    else if WithMbid(t, mbid) != {} then (t, Lowest(WithMbid(t, mbid)))
    else
      var bare := Named(t, name) * WithMbid(t, "");
      if bare != {} then (Table(t.rows[Lowest(bare) := Artist(name, mbid)], t.next), Lowest(bare))
      else Create(t, name, mbid)
  }

  /** Every MBID is on one row, and a row without one is the only row of its name. */
  ghost predicate Inv(t: Table) {
    && (forall a | a in t.rows :: a < t.next && t.rows[a].name != "")
    && (forall a, b | a in t.rows && b in t.rows && t.rows[a].mbid == t.rows[b].mbid != "" :: a == b)
    && (forall a, b | a in t.rows && b in t.rows && t.rows[a].mbid == "" && t.rows[a].name == t.rows[b].name :: a == b)
  }

  lemma CreateKeepsInv(t: Table, name: string, mbid: string)
    requires Inv(t) && name != ""
    requires if mbid == "" then Named(t, name) == {} else WithMbid(t, mbid) == {} && Named(t, name) * WithMbid(t, "") == {}
    ensures Inv(Create(t, name, mbid).0)
  {
    assert t.next !in t.rows;
    forall a | a in t.rows ensures t.rows[a].mbid == mbid != "" ==> false {
      assert mbid != "" ==> a !in WithMbid(t, mbid);
    }
    forall a | a in t.rows ensures t.rows[a].name == name ==> mbid != "" && t.rows[a].mbid != "" {
      assert mbid == "" ==> a !in Named(t, name);
      assert mbid != "" ==> a !in Named(t, name) * WithMbid(t, "");
    }
  }

  lemma AdoptKeepsInv(t: Table, a: nat, mbid: string)
    requires Inv(t) && a in t.rows && t.rows[a].mbid == "" && mbid != "" && WithMbid(t, mbid) == {}
    ensures Inv(Table(t.rows[a := t.rows[a].(mbid := mbid)], t.next))
  {
    forall b | b in t.rows ensures t.rows[b].mbid != mbid {
      assert b !in WithMbid(t, mbid);
    }
  }

  lemma PopulatedKeepsInv(t: Table, name: string, mbid: string)
    requires Inv(t) && name != ""
    ensures Inv(Populated(t, name, mbid).0)
  {
    var bare := Named(t, name) * WithMbid(t, "");
    if mbid == "" {
      if Named(t, name) == {} { CreateKeepsInv(t, name, mbid); }
    } else if WithMbid(t, mbid) == {} {
      if bare == {} { CreateKeepsInv(t, name, mbid); } else { AdoptKeepsInv(t, Lowest(bare), mbid); }
    }
  }

  /** What the returned row is: the one with the MBID, or the oldest of the name. */
  lemma PopulatedFinds(t: Table, name: string, mbid: string)
    requires Inv(t)
    ensures var (t', id) := Populated(t, name, mbid);
            id in t'.rows && if mbid != "" then t'.rows[id].mbid == mbid else Named(t', name) != {} && id == Lowest(Named(t', name))
  {
    var (t', id) := Populated(t, name, mbid);
    if mbid == "" { assert id in Named(t', name); }
    if mbid == "" && t' != t { assert Named(t', name) == {id}; }
  }

  predicate IsRow(t: Table, a: nat, name: string, mbid: string) {
    a in t.rows && t.rows[a].name == name && t.rows[a].mbid == mbid
  }

  /**
   * With an MBID that some row has, that row is it and nothing changes. With one that no row has, a row of the
   * credit's name without an MBID is given it, or else a new row of that name. Without one, the oldest row of the
   * name is it, whatever its MBID, or else a new one. No other row changes.
   */
  lemma CreditGoesToItsName(t: Table, name: string, mbid: string)
    requires Inv(t)
    ensures var (t', id) := Populated(t, name, mbid);
            if mbid != "" && exists a :: a in t.rows && t.rows[a].mbid == mbid then
              t' == t && id in t.rows && t.rows[id].mbid == mbid
            else if mbid != "" && exists a :: IsRow(t, a, name, "") then
              IsRow(t, id, name, "") && t' == t.(rows := t.rows[id := Artist(name, mbid)])
            else if mbid == "" && exists a :: a in t.rows && t.rows[a].name == name then
              t' == t && id in t.rows && t.rows[id].name == name && forall a | a in t.rows && t.rows[a].name == name :: id <= a
            else
              id == t.next && id !in t.rows && t' == Table(t.rows[id := Artist(name, mbid)], id + 1)
  {
    var bare := Named(t, name) * WithMbid(t, "");
    assert forall a :: a in Named(t, name) <==> a in t.rows && t.rows[a].name == name;
    assert forall a :: a in WithMbid(t, mbid) <==> a in t.rows && t.rows[a].mbid == mbid;
    assert forall a :: a in bare <==> IsRow(t, a, name, "");
    hide Named, WithMbid, Create;
    if mbid == "" {
      if Named(t, name) == {} { CreatesRow(t, name, mbid); }
    } else if WithMbid(t, mbid) == {} && bare == {} {
      CreatesRow(t, name, mbid);
    }
  }

  lemma CreatesRow(t: Table, name: string, mbid: string)
    requires Inv(t)
    ensures Create(t, name, mbid) == (Table(t.rows[t.next := Artist(name, mbid)], t.next + 1), t.next) && t.next !in t.rows
  {
  }

  /** Rows are never renamed, and never change an MBID they have. */
  lemma PopulatedKeepsRows(t: Table, name: string, mbid: string, a: nat)
    requires Inv(t) && a in t.rows
    ensures var rows' := Populated(t, name, mbid).0.rows;
            a in rows' && rows'[a].name == t.rows[a].name && (t.rows[a].mbid != "" ==> rows'[a] == t.rows[a])
  {
  }

  // Runs -------------------------------------------------------------------------------------

  datatype Op = Credit(name: string, mbid: string) | Delete(ids: set<nat>)

  predicate OpOk(op: Op) {
    op.Credit? ==> op.name != ""
  }

  function Apply(t: Table, op: Op): Table {
    match op
    case Credit(name, mbid) => Populated(t, name, mbid).0
    case Delete(ids) => Table(t.rows - ids, t.next)
  }

  function After(t: Table, ops: seq<Op>): Table {
    if ops == [] then t else Apply(After(t, ops[..|ops| - 1]), ops[|ops| - 1])
  }

  lemma {:induction false} RunKeepsInv(t: Table, ops: seq<Op>)
    requires Inv(t) && forall op | op in ops :: OpOk(op)
    ensures Inv(After(t, ops)) && After(t, ops).next >= t.next
  {
    if ops != [] {
      RunKeepsInv(t, ops[..|ops| - 1]);
      var op := ops[|ops| - 1];
      assert OpOk(op);
      if op.Credit? { PopulatedKeepsInv(After(t, ops[..|ops| - 1]), op.name, op.mbid); }
    }
  }

  /** Every row of a table that began empty has the name and the MBID of some one credit. */
  lemma {:induction false} RowsWereCredited(ops: seq<Op>, a: nat)
    requires (forall op | op in ops :: OpOk(op)) && a in After(Table(map[], 0), ops).rows
    ensures var row := After(Table(map[], 0), ops).rows[a]; Credit(row.name, row.mbid) in ops
  {
    if ops != [] {
      var init, op := ops[..|ops| - 1], ops[|ops| - 1];
      var before := After(Table(map[], 0), init);
      assert ops == init + [op];
      RunKeepsInv(Table(map[], 0), init);
      if op.Credit? { CreditGoesToItsName(before, op.name, op.mbid); }
      if a in before.rows { RowsWereCredited(init, a); }
    }
  }

  /** A row is there until it is deleted. */
  lemma {:induction false} RowsLiveUntilDeleted(t: Table, ops: seq<Op>, a: nat)
    requires Inv(t) && (forall op | op in ops :: OpOk(op)) && a in t.rows
    ensures a in After(t, ops).rows <==> forall op | op in ops && op.Delete? :: a !in op.ids
  {
    if ops != [] {
      var init, op := ops[..|ops| - 1], ops[|ops| - 1];
      assert ops == init + [op];
      RowsLiveUntilDeleted(t, init, a);
      RunKeepsInv(t, init);
      RunKeepsInv(t, ops);
    }
  }

  lemma {:induction false} GoneStaysGone(t: Table, ops: seq<Op>, a: nat)
    requires Inv(t) && (forall op | op in ops :: OpOk(op)) && a !in t.rows && a < t.next
    ensures a !in After(t, ops).rows
  {
    if ops != [] {
      GoneStaysGone(t, ops[..|ops| - 1], a);
      RunKeepsInv(t, ops[..|ops| - 1]);
    }
  }

  /**
   * As long as its row lives, an MBID stays on that row and on no other, whatever credits and deletions
   * come after.
   */
  lemma {:induction false} MbidNeverMoves(t: Table, ops: seq<Op>, a: nat)
    requires Inv(t) && (forall op | op in ops :: OpOk(op))
    requires a in t.rows && t.rows[a].mbid != "" && a in After(t, ops).rows
    ensures After(t, ops).rows[a] == t.rows[a]
    ensures forall b | b in After(t, ops).rows && After(t, ops).rows[b].mbid == t.rows[a].mbid :: b == a
  {
    RunKeepsInv(t, ops);
    if ops != [] {
      var before, op := After(t, ops[..|ops| - 1]), ops[|ops| - 1];
      RunKeepsInv(t, ops[..|ops| - 1]);
      if a !in before.rows {
        StillGone(t, ops[..|ops| - 1], op, a);
      } else {
        MbidNeverMoves(t, ops[..|ops| - 1], a);
        if op.Credit? { PopulatedKeepsRows(before, op.name, op.mbid, a); }
      }
    }
  }

  lemma StillGone(t: Table, ops: seq<Op>, op: Op, a: nat)
    requires Inv(t) && (forall o | o in ops :: OpOk(o)) && a < t.next && a !in After(t, ops).rows
    ensures a !in Apply(After(t, ops), op).rows
  {
    RunKeepsInv(t, ops);
  }

  // The credits of one track ---------------------------------------------------------------------

  datatype Credited = Credited(name: string, creditedAs: string, mbid: string)

  /** The credit says this name, as it is credited if that is something else, and its MBID if there is one for each. */
  predicate IsCreditAt(e: Credited, values: seq<string>, credits: seq<string>, mbids: seq<string>, i: nat) {
    && i < |values| && e.name == values[i]
    && (if i < |credits| && credits[i] != values[i] then e.creditedAs == credits[i] else e.creditedAs == "")
    && (if |mbids| == |values| then e.mbid == mbids[i] else e.mbid == "")
  }

  /** pairCredits, with the places it took the names from. */
  method PairCredits(values: seq<string>, credits: seq<string>, mbids: seq<string>) returns (out: seq<Credited>, ghost at: seq<nat>)
    ensures |at| == |out| && forall k | 0 <= k < |out| :: IsCreditAt(out[k], values, credits, mbids, at[k])
    ensures forall j, k | 0 <= j < k < |at| :: at[j] < at[k]
    ensures forall i: nat | i < |values| :: values[i] != "" <==> i in at
    ensures forall e | e in out :: e.name != ""
  {
    out, at := [], [];
    for i := 0 to |values|
      invariant |at| == |out| && forall k | 0 <= k < |out| :: at[k] < i && IsCreditAt(out[k], values, credits, mbids, at[k])
      invariant forall j, k | 0 <= j < k < |at| :: at[j] < at[k]
      invariant forall j: nat | j < i :: values[j] != "" <==> j in at
      invariant forall e | e in out :: e.name != ""
    {
      var v := values[i];
      if v == "" { continue; }
      var e := Credited(v, "", "");
      if i < |credits| && credits[i] != "" && credits[i] != v {
        e := e.(creditedAs := credits[i]);
      }
      if |mbids| == |values| {
        e := e.(mbid := mbids[i]);
      }
      out := out + [e];
      at := at + [i];
    }
  }

  /** The first MBID that any credit gives the name. */
  function FirstMbid(credits: seq<Credited>, name: string): string {
    if credits == [] then ""
    else
      var before := FirstMbid(credits[..|credits| - 1], name);
      var last := credits[|credits| - 1];
      if before == "" && last.name == name then last.mbid else before
  }

  lemma {:induction false} NoneWithMbid(credits: seq<Credited>, name: string)
    requires FirstMbid(credits, name) == ""
    ensures forall e | e in credits && e.name == name :: e.mbid == ""
  {
    if credits != [] {
      assert credits == credits[..|credits| - 1] + [credits[|credits| - 1]];
      NoneWithMbid(credits[..|credits| - 1], name);
    }
  }

  predicate IsFirstOf(credits: seq<Credited>, name: string, k: int) {
    && 0 <= k < |credits| && credits[k].name == name && credits[k].mbid != ""
    && forall j | 0 <= j < k && credits[j].name == name :: credits[j].mbid == ""
  }

  /** It is the MBID of the first credit of the name that has one. */
  lemma {:induction false} FirstMbidIsFirst(credits: seq<Credited>, name: string)
    ensures FirstMbid(credits, name) == "" <==> forall e | e in credits && e.name == name :: e.mbid == ""
    ensures FirstMbid(credits, name) != "" ==>
              exists k :: IsFirstOf(credits, name, k) && credits[k].mbid == FirstMbid(credits, name)
  {
    if credits != [] {
      var init, last := credits[..|credits| - 1], credits[|credits| - 1];
      assert credits == init + [last];
      FirstMbidIsFirst(init, name);
      if FirstMbid(init, name) != "" {
        var k :| IsFirstOf(init, name, k) && init[k].mbid == FirstMbid(init, name);
        assert IsFirstOf(credits, name, k);
      } else {
        assert forall j | 0 <= j < |init| && credits[j].name == name :: credits[j] in init;
        assert FirstMbid(credits, name) != "" ==> IsFirstOf(credits, name, |init|);
      }
    }
  }

  function MbidFor(mbids: map<string, string>, name: string): string {
    if name in mbids then mbids[name] else ""
  }

  /** artistMusicBrainzID. */
  method CollectMbids(credits: seq<Credited>) returns (mbids: map<string, string>)
    ensures forall name :: MbidFor(mbids, name) == FirstMbid(credits, name)
  {
    mbids := map[];
    for i := 0 to |credits|
      invariant forall name :: MbidFor(mbids, name) == FirstMbid(credits[..i], name)
    {
      assert credits[..i + 1][..i] == credits[..i];
      var e := credits[i];
      if e.mbid != "" && MbidFor(mbids, e.name) == "" {
        mbids := mbids[e.name := e.mbid];
      }
    }
    assert credits[..|credits|] == credits;
  }

  /** The MBID a credit is looked up with: its own, or else the first its name has anywhere on the track. */
  function Wanted(all: seq<Credited>, e: Credited): string {
    if e.mbid != "" then e.mbid else FirstMbid(all, e.name)
  }

  /** `id` is the row for the credit: the row with its MBID, or the oldest row of its name. */
  predicate Resolved(t: Table, all: seq<Credited>, e: Credited, id: nat) {
    id in t.rows &&
    if Wanted(all, e) != "" then t.rows[id].mbid == Wanted(all, e)
    else Named(t, e.name) != {} && id == Lowest(Named(t, e.name))
  }

  /** Later credits of the track do not change what an earlier one resolved to. */
  lemma StaysResolved(t: Table, all: seq<Credited>, e: Credited, id: nat, later: Credited)
    requires Inv(t) && e in all && later in all && Resolved(t, all, e, id)
    ensures Resolved(Populated(t, later.name, Wanted(all, later)).0, all, e, id)
  {
    var t' := Populated(t, later.name, Wanted(all, later)).0;
    PopulatedKeepsRows(t, later.name, Wanted(all, later), id);
    if Wanted(all, e) == "" {
      NoneWithMbid(all, e.name);
      assert Named(t', e.name) == Named(t, e.name);
    }
  }

  /** Credits with one name and no MBID of their own are one artist. */
  lemma OneRowPerName(t: Table, all: seq<Credited>, e: Credited, id: nat, f: Credited, jd: nat)
    requires Inv(t) && e.name == f.name && e.mbid == f.mbid == ""
    requires Resolved(t, all, e, id) && Resolved(t, all, f, jd)
    ensures id == jd
  {
  }

  /**
   * A credit's own MBID decides; without one, the first that its name has anywhere on the track; without that too,
   * it is the oldest row of its name.
   */
  lemma ResolvedMeans(t: Table, all: seq<Credited>, e: Credited, id: nat)
    requires Resolved(t, all, e, id)
    ensures id in t.rows
    ensures e.mbid != "" ==> t.rows[id].mbid == e.mbid
    ensures e.mbid == "" ==> forall k | IsFirstOf(all, e.name, k) :: t.rows[id].mbid == all[k].mbid
    ensures (forall f | f in all + [e] && f.name == e.name :: f.mbid == "") ==>
              t.rows[id].name == e.name && forall a | a in t.rows && t.rows[a].name == e.name :: id <= a
  {
    FirstMbidIsFirst(all, e.name);
    assert e in all + [e] && forall f | f in all :: f in all + [e];
    if e.mbid == "" {
      forall k | IsFirstOf(all, e.name, k) ensures t.rows[id].mbid == all[k].mbid {
        assert all[k] in all;
        var first :| IsFirstOf(all, e.name, first) && all[first].mbid == FirstMbid(all, e.name);
        assert first == k;
      }
    }
    if FirstMbid(all, e.name) == "" { assert forall a | a in t.rows && t.rows[a].name == e.name :: a in Named(t, e.name); }
  }

  ghost predicate AllResolved(t: Table, all: seq<Credited>, credits: seq<Credited>, ids: seq<nat>) {
    |ids| == |credits| && forall i | 0 <= i < |credits| :: Resolved(t, all, credits[i], ids[i])
  }

  /** Whatever the track's credits have resolved to, they still do. */
  ghost predicate Keeps(t: Table, t': Table, all: seq<Credited>) {
    forall e, id | e in all && Resolved(t, all, e, id) :: Resolved(t', all, e, id)
  }

  class ArtistTable {
    var rows: map<nat, Artist>
    var next: nat

    constructor ()
      ensures View() == Table(map[], 0)
    {
      rows, next := map[], 0;
    }

    function View(): Table
      reads this
    {
      Table(rows, next)
    }

    method Insert(name: string, mbid: string) returns (id: nat)
      modifies this
      ensures (View(), id) == Create(old(View()), name, mbid)
    {
      id := next;
      rows := rows[id := Artist(name, mbid)];
      next := next + 1;
    }

    method PopulateArtist(name: string, mbid: string) returns (id: nat)
      requires Inv(View()) && name != ""
      modifies this
      ensures (View(), id) == Populated(old(View()), name, mbid)
      ensures Inv(View())
    {
      PopulatedKeepsInv(View(), name, mbid);
      if mbid == "" {
        var named := Named(View(), name);
        if named != {} {
          return Lowest(named);
        }
        id := Insert(name, "");
        return;
      }
      var known := WithMbid(View(), mbid);
      if known != {} {
        return Lowest(known);
      }
      var bare := Named(View(), name) * WithMbid(View(), "");
      if bare != {} {
        id := Lowest(bare);
        rows := rows[id := rows[id].(mbid := mbid)];
        return;
      }
      id := Insert(name, mbid);
    }

    method PopulateCredits(credits: seq<Credited>, mbids: map<string, string>, ghost all: seq<Credited>) returns (ids: seq<nat>)
      requires Inv(View()) && (forall e | e in credits :: e in all && e.name != "")
      requires forall name :: MbidFor(mbids, name) == FirstMbid(all, name)
      modifies this
      ensures Inv(View()) && AllResolved(View(), all, credits, ids) && Keeps(old(View()), View(), all)
    {
      ids := [];
      for i := 0 to |credits|
        invariant Inv(View()) && AllResolved(View(), all, credits[..i], ids) && Keeps(old(View()), View(), all)
      {
        var e := credits[i];
        ghost var before := View();
        assert e in credits;
        var id := PopulateArtist(e.name, if e.mbid != "" then e.mbid else MbidFor(mbids, e.name));
        PopulatedFinds(before, e.name, Wanted(all, e));
        OneMoreResolved(before, all, credits, ids, i, id);
        ids := ids + [id];
      }
      assert credits[..|credits|] == credits;
    }

    /**
     * The artist rows of one track: the album's artists when it is the album's first track, its own artists,
     * and its contributors, role by role. The MBIDs of all of them count, and what one credit resolves to is
     * still right when the last one is done.
     */
    method PopulateTrackArtists(first: bool, albumArtists: seq<Credited>, trackArtists: seq<Credited>, contributors: seq<Credited>)
      returns (albumIds: seq<nat>, trackIds: seq<nat>, contributorIds: seq<nat>)
      requires Inv(View()) && forall e | e in albumArtists + trackArtists + contributors :: e.name != ""
      modifies this
      ensures Inv(View())
      ensures var all := albumArtists + trackArtists + contributors;
              && (if first then AllResolved(View(), all, albumArtists, albumIds) else albumIds == [])
              && AllResolved(View(), all, trackArtists, trackIds)
              && AllResolved(View(), all, contributors, contributorIds)
    {
      var all := albumArtists + trackArtists + contributors;
      var mbids := CollectMbids(all);
      albumIds := [];
      if first {
        albumIds := PopulateCredits(albumArtists, mbids, all);
      }
      ghost var t1 := View();
      trackIds := PopulateCredits(trackArtists, mbids, all);
      ghost var t2 := View();
      contributorIds := PopulateCredits(contributors, mbids, all);
      StillResolved(t1, t2, View(), all, albumArtists, albumIds, trackArtists, trackIds, first);
    }
  }

  lemma OneMoreResolved(t: Table, all: seq<Credited>, credits: seq<Credited>, ids: seq<nat>, i: nat, id: nat)
    requires Inv(t) && i < |credits| && credits[i] in all && forall e | e in credits :: e in all
    requires AllResolved(t, all, credits[..i], ids)
    requires var t' := Populated(t, credits[i].name, Wanted(all, credits[i])).0; Resolved(t', all, credits[i], id)
    ensures var t' := Populated(t, credits[i].name, Wanted(all, credits[i])).0;
            AllResolved(t', all, credits[..i + 1], ids + [id]) && Keeps(t, t', all)
  {
    var t' := Populated(t, credits[i].name, Wanted(all, credits[i])).0;
    forall e, jd | e in all && Resolved(t, all, e, jd) ensures Resolved(t', all, e, jd) {
      StaysResolved(t, all, e, jd, credits[i]);
    }
    forall k | 0 <= k < i + 1 ensures Resolved(t', all, credits[..i + 1][k], (ids + [id])[k]) {
      if k < i { assert credits[..i][k] == credits[k] && credits[k] in all; }
    }
  }

  lemma StillResolved(t1: Table, t2: Table, t3: Table, all: seq<Credited>, albumArtists: seq<Credited>, albumIds: seq<nat>,
                      trackArtists: seq<Credited>, trackIds: seq<nat>, first: bool)
    requires Keeps(t1, t2, all) && Keeps(t2, t3, all)
    requires forall e | e in albumArtists || e in trackArtists :: e in all
    requires first ==> AllResolved(t1, all, albumArtists, albumIds)
    requires AllResolved(t2, all, trackArtists, trackIds)
    ensures first ==> AllResolved(t3, all, albumArtists, albumIds)
    ensures AllResolved(t3, all, trackArtists, trackIds)
  {
  }
}
