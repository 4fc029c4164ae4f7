/**
 * What the requests that change art do, in any run: they commit their change, then purge the covers that showed the
 * album or the collection, and no others; and a blob is deleted only when no row names it.
 */
module CoverChanges {
  import opened CoverCache
  import opened CoverAnswers
  import opened Options
  import Collections

  /** What a commit does to the rows and the lists. */
  lemma CommitDoes(s: State, t: Tid, m: Mutation) returns (ks: seq<nat>)
    requires AdvanceEnabled(s, t) && s.pcs[t] == AtCommit(m)
    ensures var s' := Step(s, Advance(t));
            match m
            case SetCover(a, h) => s'.lists == s.lists && s'.rows == s.rows[a := s.rows[a].(override := Some(h))]
            case ClearCover(a) => s'.lists == s.lists && s'.rows == s.rows[a := s.rows[a].(override := None)]
            case SetList(c, ids) =>
              s'.rows == s.rows && c in s'.lists && s'.lists - {c} == s.lists - {c} && Collections.KeptAt(s.rows, ids, s'.lists[c], ks)
            case DropList(c) => s'.rows == s.rows && s'.lists == s.lists - {c}
            case Create(c, ids) =>
              && c !in s.lists && s'.rows == s.rows && c in s'.lists && s'.lists - {c} == s.lists
              && Collections.KeptAt(s.rows, ids, s'.lists[c], ks)
  {
    ks := [];
    if m.SetList? || m.Create? { ks := Collections.ExistingIsKept(s.rows, m.albums); }
  }

  /** Nothing else changes them, and a set request has stored its blob by then. */
  lemma OnlyCommitsChange(s: State, a: Action)
    requires Enabled(s, a)
    ensures !(a.Advance? && s.pcs[a.t].AtCommit?) ==> RowsAfter(s, a) == s.rows && ListsAfter(s, a) == s.lists
    ensures a.Advance? && s.pcs[a.t].Change? && s.pcs[a.t].mutation.SetCover? ==>
              BlobsAfter(s, a) == s.blobs + {s.pcs[a.t].mutation.hash}
  {
  }

  /** A cached file goes exactly by a purge of its id or by ejection, and changes only by being saved again. */
  lemma FilesStay(s: State, a: Action, name: Name)
    requires Enabled(s, a) && name in s.files
    ensures name !in FilesAfter(s, a) <==> Purges(s, a, name.id) || a == Remove(a.t, name)
    ensures name in FilesAfter(s, a) && FilesAfter(s, a)[name] != s.files[name] ==>
              a.Advance? && s.pcs[a.t].Decoded? && PcAfter(s, a).Saving? && PcAfter(s, a).name == name
  {
  }

  // A change from its start to its end -----------------------------------------------------------

  /** The ids of a purge: for an album those that show it at step `q`, for a collection its own. */
  ghost predicate Aims(run: seq<State>, q: int, m: Mutation, ids: set<CoverId>)
  {
    0 <= q < |run| &&
    match m
    case SetCover(a, _) => ShowAlbum(run[q], a, ids)
    case ClearCover(a) => ShowAlbum(run[q], a, ids)
    case SetList(c, _) => ids == {Collection(c)}
    case DropList(c) => ids == {Collection(c)}
    case Create(_, _) => false
  }

  ghost predicate ShowAlbum(s: State, a: nat, ids: set<CoverId>) {
    forall id :: id in ids <==> id == Album(a) || (id.Collection? && id.id in s.lists && a in s.lists[id.id])
  }

  ghost predicate Committed(run: seq<State>, actions: seq<Action>, i: int, j: int, t: Tid, m: Mutation) {
    exists n :: i < n < j && Commits(run, actions, n, t, m)
  }

  ghost predicate Aimed(run: seq<State>, actions: seq<Action>, i: int, j: int, t: Tid, m: Mutation, ids: set<CoverId>) {
    exists n, q :: i < n <= q < j && Commits(run, actions, n, t, m) && Aims(run, q, m, ids)
  }

  /** At step `p` the request purges what it aimed at at step `q`, after its commit at step `n`. */
  ghost predicate PurgesAt(run: seq<State>, actions: seq<Action>, n: int, q: int, p: int, t: Tid, m: Mutation) {
    && 0 <= n <= q < p < |actions| < |run| && Commits(run, actions, n, t, m)
    && actions[p] == Advance(t) && t in run[p].pcs && run[p].pcs[t].Purging? && Aims(run, q, m, run[p].pcs[t].targets)
    && forall name :: name in run[p + 1].files <==> name in run[p].files && name.id !in run[p].pcs[t].targets
  }

  ghost predicate Purged(run: seq<State>, actions: seq<Action>, i: int, j: int, t: Tid, m: Mutation) {
    exists n, q, p :: i < n && p < j && PurgesAt(run, actions, n, q, p, t, m)
  }

  ghost predicate ChangeStory(run: seq<State>, actions: seq<Action>, i: int, j: int, t: Tid, m: Mutation, pc: Pc) {
    match pc
    case Change(x) => x == m
    case AtCommit(x) => x == m
    case AtCount(a, _, _) => IsOf(m, a) && Committed(run, actions, i, j, t, m)
    case AtDelete(a, _) => IsOf(m, a) && Committed(run, actions, i, j, t, m)
    case AtQuery(a) => IsOf(m, a) && Committed(run, actions, i, j, t, m)
    case AtLock(ids) => Aimed(run, actions, i, j, t, m, ids)
    case Purging(ids) => Aimed(run, actions, i, j, t, m, ids)
    case AtUnlock => Purged(run, actions, i, j, t, m)
    case Done => if m.Create? then Committed(run, actions, i, j, t, m) else Purged(run, actions, i, j, t, m)
    case _ => false
  }

  lemma StoryGoesOn(run: seq<State>, actions: seq<Action>, i: int, j: int, t: Tid, m: Mutation, pc: Pc)
    requires 0 < j < |run| && ChangeStory(run, actions, i, j - 1, t, m, pc)
    ensures ChangeStory(run, actions, i, j, t, m, pc)
  {
    hide Commits, Aims, PurgesAt;
  }

  lemma RunStep(run: seq<State>, actions: seq<Action>, j: nat)
    requires IsRun(run, actions) && 0 < j < |run|
    ensures Enabled(run[j - 1], actions[j - 1]) && run[j] == Step(run[j - 1], actions[j - 1])
  {
    hide Initial;
  }

  lemma CommitStep(run: seq<State>, actions: seq<Action>, i: nat, j: nat, t: Tid, m: Mutation)
    requires IsRun(run, actions) && i < j - 1 && j < |run| && actions[j - 1].t == t
    requires t in run[j - 1].pcs && run[j - 1].pcs[t] == AtCommit(m)
    ensures ChangeStory(run, actions, i, j, t, m, PcAfter(run[j - 1], actions[j - 1]))
  {
    RunStep(run, actions, j);
    assert Commits(run, actions, j - 1, t, m);
    if m.SetList? || m.DropList? { assert Aims(run, j - 1, m, {Collection(m.coll)}); }
  }

  lemma QueryStep(run: seq<State>, actions: seq<Action>, i: nat, j: nat, t: Tid, m: Mutation)
    requires IsRun(run, actions) && i < j - 1 && j < |run| && actions[j - 1].t == t
    requires t in run[j - 1].pcs && run[j - 1].pcs[t].AtQuery?
    requires ChangeStory(run, actions, i, j - 1, t, m, run[j - 1].pcs[t])
    ensures ChangeStory(run, actions, i, j, t, m, PcAfter(run[j - 1], actions[j - 1]))
  {
    hide Commits;
    RunStep(run, actions, j);
    var n :| i < n < j - 1 && Commits(run, actions, n, t, m);
    var ids := PcAfter(run[j - 1], actions[j - 1]).targets;
    assert ShowAlbum(run[j - 1], run[j - 1].pcs[t].album, ids);
    assert Aims(run, j - 1, m, ids);
  }

  lemma PurgeStep(run: seq<State>, actions: seq<Action>, i: nat, j: nat, t: Tid, m: Mutation)
    requires IsRun(run, actions) && i < j - 1 && j < |run| && actions[j - 1].t == t
    requires t in run[j - 1].pcs && run[j - 1].pcs[t].Purging?
    requires ChangeStory(run, actions, i, j - 1, t, m, run[j - 1].pcs[t])
    ensures ChangeStory(run, actions, i, j, t, m, PcAfter(run[j - 1], actions[j - 1]))
  {
    hide Commits, Aims;
    RunStep(run, actions, j);
    var n, q :| i < n <= q < j - 1 && Commits(run, actions, n, t, m) && Aims(run, q, m, run[j - 1].pcs[t].targets);
    assert PurgesAt(run, actions, n, q, j - 1, t, m);
  }

  lemma ChangeStep(run: seq<State>, actions: seq<Action>, i: nat, j: nat, t: Tid, m: Mutation)
    requires IsRun(run, actions) && i < j - 1 && j < |run| && t in run[j - 1].pcs && actions[j - 1].t == t
    requires ChangeStory(run, actions, i, j - 1, t, m, run[j - 1].pcs[t])
    ensures ChangeStory(run, actions, i, j, t, m, PcAfter(run[j - 1], actions[j - 1]))
  {
    hide Committed, Aimed, Purged;
    RunStep(run, actions, j);
    var pc := run[j - 1].pcs[t];
    StoryGoesOn(run, actions, i, j, t, m, pc);
    NoCreatePurges(run, actions, i, j, t, m);
    if pc.AtCommit? { CommitStep(run, actions, i, j, t, m); }
    if pc.AtQuery? { QueryStep(run, actions, i, j, t, m); }
    if pc.Purging? { PurgeStep(run, actions, i, j, t, m); }
  }

  lemma NoCreatePurges(run: seq<State>, actions: seq<Action>, i: int, j: int, t: Tid, m: Mutation)
    ensures Purged(run, actions, i, j, t, m) ==> !m.Create?
  {
    hide Commits;
  }

  lemma SpawnedChange(run: seq<State>, actions: seq<Action>, i: nat, t: Tid, m: Mutation)
    requires IsRun(run, actions) && i < |actions| && actions[i] == Spawn(t, Change(m))
    ensures ChangeStory(run, actions, i, i + 1, t, m, PcAfter(run[i], actions[i]))
  {
    hide Initial;
  }

  lemma {:induction false} ChangeIsTold(run: seq<State>, actions: seq<Action>, i: nat, j: nat, t: Tid, m: Mutation)
    requires IsRun(run, actions) && i < j < |run| && actions[i] == Spawn(t, Change(m))
    ensures t in run[j].pcs && ChangeStory(run, actions, i, j, t, m, run[j].pcs[t])
  {
    hide ChangeStory, PcAfter;
    RunStep(run, actions, j);
    if j == i + 1 {
      SpawnedChange(run, actions, i, t, m);
    } else {
      ChangeIsTold(run, actions, i, j - 1, t, m);
      if actions[j - 1].t == t {
        ChangeStep(run, actions, i, j, t, m);
      } else {
        StoryGoesOn(run, actions, i, j, t, m, run[j - 1].pcs[t]);
      }
    }
  }

  /**
   * A request to change art that has ended has committed its own change, and then has purged exactly the covers of the
   * album and of the collections that listed it after the commit, or of its collection.
   */
  lemma ChangeIsPurged(run: seq<State>, actions: seq<Action>, i: nat, j: nat, t: Tid, m: Mutation) returns (n: int, q: int, p: int)
    requires IsRun(run, actions) && i < j < |run| && actions[i] == Spawn(t, Change(m)) && !m.Create?
    requires t in run[j].pcs && run[j].pcs[t].Done?
    ensures i < n && p < j && PurgesAt(run, actions, n, q, p, t, m)
  {
    hide PurgesAt;
    ChangeIsTold(run, actions, i, j, t, m);
    n, q, p :| i < n && p < j && PurgesAt(run, actions, n, q, p, t, m);
  }

  // Blobs -----------------------------------------------------------------------------------------

  /** Dropping goes on to delete the replaced blob exactly when it is not the one kept and nothing names it. */
  lemma CountDecides(s: State, t: Tid, a: nat, prev: Option<Hash>, keep: Option<Hash>)
    requires AdvanceEnabled(s, t) && s.pcs[t] == AtCount(a, prev, keep)
    ensures PcAfter(s, Advance(t)) in (if prev.Some? then {AtQuery(a), AtDelete(a, prev.value)} else {AtQuery(a)})
    ensures PcAfter(s, Advance(t)).AtDelete? <==>
              && prev.Some? && prev != keep && prev.value !in s.lib.orphans
              && forall x | x in s.rows :: s.rows[x].override != prev
  {
  }

  /** The count starts from the cover that the commit replaced, and from the one it set. */
  lemma CommitRemembers(s: State, t: Tid, a: nat)
    requires AdvanceEnabled(s, t) && s.pcs[t].AtCommit? && IsOf(s.pcs[t].mutation, a)
    ensures PcAfter(s, Advance(t)) == AtCount(a, s.rows[a].override, Wanted(s.pcs[t].mutation))
  {
  }

  /** A blob is deleted only by a request that found, when it counted, that no row and no orphan named it. */
  lemma {:induction false} DeletesUnnamed(run: seq<State>, actions: seq<Action>, j: nat, t: Tid, a: nat, h: Hash) returns (n: nat)
    requires IsRun(run, actions) && j < |run| && t in run[j].pcs && run[j].pcs[t] == AtDelete(a, h)
    ensures n < j && t in run[n].pcs && run[n].pcs[t].AtCount? && run[n].pcs[t].keep != Some(h)
    ensures h !in run[n].lib.orphans && forall x | x in run[n].rows :: run[n].rows[x].override != Some(h)
  {
    assert j > 0;
    RunStep(run, actions, j);
    if actions[j - 1].t == t {
      n := j - 1;
    } else {
      n := DeletesUnnamed(run, actions, j - 1, t, a, h);
    }
  }

  /** And a blob goes only in that way. */
  lemma BlobsStay(s: State, a: Action, h: Hash)
    requires Enabled(s, a) && h in s.blobs && h !in BlobsAfter(s, a)
    ensures a.Advance? && s.pcs[a.t].AtDelete? && s.pcs[a.t].hash == h
  {
  }
}
