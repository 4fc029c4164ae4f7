/**
 * What the requests of the transcode cache are told, in any run: a CachedPath request is told what its key's file
 * was when it looked, and a Transcode request is sent the file, or else the chunks of its own inner transcode.
 */
module TranscodeAnswers {
  import opened TranscodeCache
  import opened Options

  /** Request `t` takes its step from `pc`, with the lock of the key it is there for. */
  ghost predicate Moves(run: seq<State>, actions: seq<Action>, n: int, t: Tid, pc: Pc) {
    && 0 <= n < |actions| < |run| && actions[n] == Advance(t) && t in run[n].pcs && run[n].pcs[t] == pc
    && HoldsSomeKey(pc) && pc.key in run[n].keys && run[n].keys[pc.key] == t
  }

  predicate HasBytes(files: map<Key, Bytes>, k: Key) {
    k in files && files[k] != []
  }

  lemma RunStep(run: seq<State>, actions: seq<Action>, j: nat)
    requires IsRun(run, actions) && 0 < j < |run|
    ensures Inv(run[j - 1]) && Enabled(run[j - 1], actions[j - 1]) && run[j] == Step(run[j - 1], actions[j - 1])
  {
    RunKeepsInv(run, actions, j - 1);
  }

  lemma HoldsItsKey(s: State, t: Tid)
    requires Inv(s) && t in s.pcs && HoldsSomeKey(s.pcs[t])
    ensures s.pcs[t].key in s.keys && s.keys[s.pcs[t].key] == t
  {
    hide LedgerOk, PcOk;
  }

  /** A file changes only by the request that holds its key, or while nobody holds the read lock. */
  lemma FileFrame(s: State, a: Action, t: Tid, k: Key)
    requires Inv(s) && Enabled(s, a) && t in s.pcs && HoldsKey(s.pcs[t], k) && a.t != t
    ensures k in FilesAfter(s, a) <==> k in s.files
    ensures k in s.files ==> FilesAfter(s, a)[k] == s.files[k]
  {
    hide LedgerOk, FilesOk, PcOk;
  }

  // CachedPath ---------------------------------------------------------------------------------

  /** At step `n` the request looked, and this is what there was. */
  ghost predicate LooksUp(run: seq<State>, actions: seq<Action>, n: int, t: Tid, k: Key, reply: Reply) {
    && Moves(run, actions, n, t, AtPathStat(k))
    && reply == if HasBytes(run[n].files, k) then Path(k, run[n].files[k]) else Miss
  }

  ghost predicate LookedUp(run: seq<State>, actions: seq<Action>, i: int, j: int, t: Tid, k: Key, reply: Reply) {
    exists n :: i < n < j && LooksUp(run, actions, n, t, k, reply)
  }

  ghost predicate PathStory(run: seq<State>, actions: seq<Action>, i: int, j: int, t: Tid, k: Key, pc: Pc) {
    match pc
    case Begin(req) => req == CachedPath(k, false)
    case AtKey(req) => req == CachedPath(k, false)
    case AtPathStat(x) => x == k
    case Closing(x, reply) => x == k && LookedUp(run, actions, i, j, t, k, reply)
    case AtRUnlock(reply) => reply == Miss && LookedUp(run, actions, i, j, t, k, Miss)
    case Serving(x, bytes) => x == k && LookedUp(run, actions, i, j, t, k, Path(k, bytes))
    case Done(reply) => LookedUp(run, actions, i, j, t, k, reply)
    case _ => false
  }

  lemma LookedUpBefore(run: seq<State>, actions: seq<Action>, i: int, j: int, t: Tid, k: Key, pc: Pc)
    requires PathStory(run, actions, i, j - 1, t, k, pc)
    ensures PathStory(run, actions, i, j, t, k, pc)
  {
    hide LooksUp;
  }

  lemma LookedUpIs(run: seq<State>, actions: seq<Action>, i: int, j: int, t: Tid, k: Key, reply: Reply)
    requires LookedUp(run, actions, i, j, t, k, reply)
    ensures reply == Miss || (reply.Path? && reply.key == k)
  {
  }

  lemma LookStep(run: seq<State>, actions: seq<Action>, i: nat, j: nat, t: Tid, k: Key)
    requires IsRun(run, actions) && i < j - 1 && j < |run| && actions[j - 1].t == t
    requires t in run[j - 1].pcs && run[j - 1].pcs[t] == AtPathStat(k)
    ensures PathStory(run, actions, i, j, t, k, PcAfter(run[j - 1], actions[j - 1]))
  {
    hide Inv;
    RunStep(run, actions, j);
    var files := run[j - 1].files;
    HoldsItsKey(run[j - 1], t);
    assert LooksUp(run, actions, j - 1, t, k, if HasBytes(files, k) then Path(k, files[k]) else Miss);
  }

  lemma PathStoryStep(run: seq<State>, actions: seq<Action>, i: nat, j: nat, t: Tid, k: Key)
    requires IsRun(run, actions) && i < j - 1 && j < |run| && t in run[j - 1].pcs && actions[j - 1].t == t
    requires PathStory(run, actions, i, j - 1, t, k, run[j - 1].pcs[t])
    ensures PathStory(run, actions, i, j, t, k, PcAfter(run[j - 1], actions[j - 1]))
  {
    hide Inv, LooksUp, LookedUp;
    RunStep(run, actions, j);
    var pc := run[j - 1].pcs[t];
    LookedUpBefore(run, actions, i, j, t, k, pc);
    if pc.AtPathStat? { LookStep(run, actions, i, j, t, k); }
    if pc.Closing? { LookedUpIs(run, actions, i, j, t, k, pc.reply); }
  }

  lemma {:induction false} PathIsTold(run: seq<State>, actions: seq<Action>, i: nat, j: nat, t: Tid, k: Key)
    requires IsRun(run, actions) && i < j < |run| && actions[i] == Spawn(t, CachedPath(k, false))
    ensures t in run[j].pcs && PathStory(run, actions, i, j, t, k, run[j].pcs[t])
  {
    hide Inv, PathStory, PcAfter;
    RunStep(run, actions, j);
    if j == i + 1 {
      SpawnedPath(run, actions, i, t, k);
    } else {
      PathIsTold(run, actions, i, j - 1, t, k);
      if actions[j - 1].t == t {
        PathStoryStep(run, actions, i, j, t, k);
      } else {
        LookedUpBefore(run, actions, i, j, t, k, run[j - 1].pcs[t]);
      }
    }
  }

  lemma SpawnedPath(run: seq<State>, actions: seq<Action>, i: nat, t: Tid, k: Key)
    requires IsRun(run, actions) && i < |actions| && actions[i] == Spawn(t, CachedPath(k, false))
    ensures PathStory(run, actions, i, i + 1, t, k, PcAfter(run[i], actions[i]))
  {
  }

  /**
   * A CachedPath request is told of no path if and only if its key's file was absent or empty at the step where it
   * held the key's lock and looked; else it is given the path, of a file with the bytes there were then.
   */
  lemma CachedPathIsTold(run: seq<State>, actions: seq<Action>, i: nat, j: nat, t: Tid, k: Key) returns (n: nat)
    requires IsRun(run, actions) && i < j < |run| && actions[i] == Spawn(t, CachedPath(k, false))
    requires t in run[j].pcs && (run[j].pcs[t].Done? || run[j].pcs[t].Serving?)
    ensures i < n < j && k in run[n].keys && run[n].keys[k] == t && t in run[n].pcs && run[n].pcs[t] == AtPathStat(k)
    ensures run[j].pcs[t] == Done(Miss) <==> k !in run[n].files || run[n].files[k] == []
    ensures run[j].pcs[t] != Done(Miss) ==>
              run[j].pcs[t] in {Serving(k, run[n].files[k]), Done(Path(k, run[n].files[k]))}
  {
    PathIsTold(run, actions, i, j, t, k);
    var reply := if run[j].pcs[t].Done? then run[j].pcs[t].reply else Path(run[j].pcs[t].key, run[j].pcs[t].bytes);
    var m :| i < m < j && LooksUp(run, actions, m, t, k, reply);
    n := m;
  }

  // Transcode -----------------------------------------------------------------------------------

  /** What request `t`'s inner transcoder writes from step `n` to step `m`. */
  function Written(actions: seq<Action>, n: nat, m: nat, t: Tid): Bytes
    requires n <= m <= |actions|
  {
    if n == m then []
    else
      Written(actions, n, m - 1, t) +
      if actions[m - 1].Write? && actions[m - 1].t == t then actions[m - 1].chunk else []
  }

  /** At step `n` the request found the file `bytes`. */
  ghost predicate Finds(run: seq<State>, actions: seq<Action>, n: int, t: Tid, k: Key, bytes: Bytes) {
    Moves(run, actions, n, t, AtStat(k)) && k in run[n].files && run[n].files[k] == bytes
  }

  ghost predicate Hits(run: seq<State>, actions: seq<Action>, n: int, t: Tid, k: Key, reply: Reply) {
    reply.Streamed? && reply.key == k && reply.sent != [] && Finds(run, actions, n, t, k, reply.sent)
  }

  /** The file was empty at step `n`; at step `m` the inner transcoder ended, and all it wrote is in the file. */
  ghost predicate Finishes(run: seq<State>, actions: seq<Action>, n: int, m: int, t: Tid, k: Key, reply: Reply) {
    && n < m < |actions| < |run| && Finds(run, actions, n, t, k, []) && actions[m] == Finish(t)
    && reply == Streamed(k, Written(actions, n, m, t)) && k in run[m].files && run[m].files[k] == reply.sent
  }

  /** It failed at step `m`, and at step `p` the file was removed. */
  ghost predicate Fails(run: seq<State>, actions: seq<Action>, n: int, m: int, p: int, t: Tid, k: Key, reply: Reply) {
    && FailsAt(run, actions, n, m, t, k, reply)
    && m < p < |actions| && actions[p] == Advance(t) && k !in run[p + 1].files
  }

  ghost predicate FailsAt(run: seq<State>, actions: seq<Action>, n: int, m: int, t: Tid, k: Key, reply: Reply) {
    && n < m < |actions| < |run| && Finds(run, actions, n, t, k, []) && actions[m].Fail? && actions[m].t == t
    && reply == Broken(Written(actions, n, m, t) + actions[m].partial)
  }

  ghost predicate Told(run: seq<State>, actions: seq<Action>, i: int, j: int, t: Tid, k: Key, reply: Reply) {
    || (exists n :: i < n < j && Hits(run, actions, n, t, k, reply))
    || (exists n, m :: i < n < m < j && Finishes(run, actions, n, m, t, k, reply))
    || (exists n, m, p :: i < n < m < p < j && Fails(run, actions, n, m, p, t, k, reply))
  }

  /** The request is copying the file it found, which nobody changes. */
  ghost predicate Copies(run: seq<State>, actions: seq<Action>, n: int, j: int, t: Tid, k: Key, sent: Bytes) {
    && 0 <= n < j < |run| && k in run[n].files && Hits(run, actions, n, t, k, Streamed(k, run[n].files[k]))
    && k in run[j].files && run[j].files[k] == run[n].files[k] && sent <= run[n].files[k]
  }

  ghost predicate IsRunning(run: seq<State>, actions: seq<Action>, n: int, j: int, t: Tid, k: Key, sent: Bytes) {
    && 0 <= n < j <= |actions| < |run| && Finds(run, actions, n, t, k, [])
    && k in run[j].files && run[j].files[k] == sent == Written(actions, n, j, t)
  }

  ghost predicate Story(run: seq<State>, actions: seq<Action>, i: int, j: int, t: Tid, k: Key, pc: Pc) {
    match pc
    case Begin(req) => req == Transcode(k, false)
    case AtKey(req) => req == Transcode(k, false)
    case AtOpen(x) => x == k
    case AtStat(x) => x == k
    case Copying(x, sent) => x == k && exists n :: i < n && Copies(run, actions, n, j, t, k, sent)
    case Running(x, sent) => x == k && exists n :: i < n && IsRunning(run, actions, n, j, t, k, sent)
    case Failing(x, sent) => x == k && exists n, m :: i < n < m < j && FailsAt(run, actions, n, m, t, k, Broken(sent))
    case Closing(x, reply) => x == k && Told(run, actions, i, j, t, k, reply)
    case AtRUnlock(reply) => Told(run, actions, i, j, t, k, reply)
    case Done(reply) => Told(run, actions, i, j, t, k, reply)
    case _ => false
  }

  lemma ToldBefore(run: seq<State>, actions: seq<Action>, i: int, j: int, t: Tid, k: Key, reply: Reply)
    requires Told(run, actions, i, j - 1, t, k, reply)
    ensures Told(run, actions, i, j, t, k, reply)
  {
    hide Hits, Finishes, Fails;
  }

  /** A step of another request. */
  lemma StoryFrame(run: seq<State>, actions: seq<Action>, i: nat, j: nat, t: Tid, k: Key)
    requires IsRun(run, actions) && i < j - 1 && j < |run| && t in run[j - 1].pcs && actions[j - 1].t != t
    requires Story(run, actions, i, j - 1, t, k, run[j - 1].pcs[t])
    ensures Story(run, actions, i, j, t, k, run[j - 1].pcs[t])
  {
    hide Told, Hits, Finds, Fails, Inv, FilesAfter;
    RunStep(run, actions, j);
    var s, a, pc := run[j - 1], actions[j - 1], run[j - 1].pcs[t];
    match pc
    case Copying(x, sent) =>
      FileFrame(s, a, t, k);
      var n :| i < n && Copies(run, actions, n, j - 1, t, k, sent);
      assert Copies(run, actions, n, j, t, k, sent);
    case Running(x, sent) =>
      FileFrame(s, a, t, k);
      var n :| i < n && IsRunning(run, actions, n, j - 1, t, k, sent);
      assert IsRunning(run, actions, n, j, t, k, sent);
    case Closing(x, reply) => ToldBefore(run, actions, i, j, t, k, reply);
    case AtRUnlock(reply) => ToldBefore(run, actions, i, j, t, k, reply);
    case Done(reply) => ToldBefore(run, actions, i, j, t, k, reply);
    case _ =>
  }

  lemma StatStep(run: seq<State>, actions: seq<Action>, i: nat, j: nat, t: Tid, k: Key)
    requires IsRun(run, actions) && i < j - 1 && j < |run| && actions[j - 1].t == t
    requires t in run[j - 1].pcs && run[j - 1].pcs[t] == AtStat(k)
    ensures Story(run, actions, i, j, t, k, PcAfter(run[j - 1], actions[j - 1]))
  {
    hide Inv;
    RunStep(run, actions, j);
    var s := run[j - 1];
    HoldsItsKey(s, t);
    assert Finds(run, actions, j - 1, t, k, s.files[k]);
    assert Written(actions, j - 1, j, t) == [];
    if s.files[k] != [] {
      assert Copies(run, actions, j - 1, j, t, k, []);
    } else {
      assert IsRunning(run, actions, j - 1, j, t, k, []);
    }
  }

  lemma CopyStep(run: seq<State>, actions: seq<Action>, i: nat, j: nat, t: Tid, k: Key)
    requires IsRun(run, actions) && i < j - 1 && j < |run| && actions[j - 1].t == t
    requires t in run[j - 1].pcs && run[j - 1].pcs[t].Copying? && Story(run, actions, i, j - 1, t, k, run[j - 1].pcs[t])
    ensures Story(run, actions, i, j, t, k, PcAfter(run[j - 1], actions[j - 1]))
  {
    hide Inv, Finds, Fails, Finishes;
    RunStep(run, actions, j);
    var s, a, sent := run[j - 1], actions[j - 1], run[j - 1].pcs[t].sent;
    var n :| i < n && Copies(run, actions, n, j - 1, t, k, sent);
    if a.Copy? {
      assert Copies(run, actions, n, j, t, k, s.files[k][..a.n]);
    } else {
      assert sent == run[n].files[k] && Hits(run, actions, n, t, k, Streamed(k, sent));
    }
  }

  lemma RunningStep(run: seq<State>, actions: seq<Action>, i: nat, j: nat, t: Tid, k: Key)
    requires IsRun(run, actions) && i < j - 1 && j < |run| && actions[j - 1].t == t
    requires t in run[j - 1].pcs && run[j - 1].pcs[t].Running? && Story(run, actions, i, j - 1, t, k, run[j - 1].pcs[t])
    ensures Story(run, actions, i, j, t, k, PcAfter(run[j - 1], actions[j - 1]))
  {
    hide Inv, Finds, Fails, Hits;
    RunStep(run, actions, j);
    var s, a, sent := run[j - 1], actions[j - 1], run[j - 1].pcs[t].sent;
    var n :| i < n && IsRunning(run, actions, n, j - 1, t, k, sent);
    if a.Write? {
      assert IsRunning(run, actions, n, j, t, k, sent + a.chunk);
    } else if a.Finish? {
      assert Finishes(run, actions, n, j - 1, t, k, Streamed(k, sent));
    } else {
      assert FailsAt(run, actions, n, j - 1, t, k, Broken(sent + a.partial));
    }
  }

  lemma FailingStep(run: seq<State>, actions: seq<Action>, i: nat, j: nat, t: Tid, k: Key)
    requires IsRun(run, actions) && i < j - 1 && j < |run| && actions[j - 1].t == t
    requires t in run[j - 1].pcs && run[j - 1].pcs[t].Failing? && Story(run, actions, i, j - 1, t, k, run[j - 1].pcs[t])
    ensures Story(run, actions, i, j, t, k, PcAfter(run[j - 1], actions[j - 1]))
  {
    hide Inv, FailsAt, Finishes, Hits;
    RunStep(run, actions, j);
    var reply := Broken(run[j - 1].pcs[t].sent);
    var n, m :| i < n < m < j - 1 && FailsAt(run, actions, n, m, t, k, reply);
    assert Fails(run, actions, n, m, j - 1, t, k, reply);
  }

  lemma ToldIs(run: seq<State>, actions: seq<Action>, i: int, j: int, t: Tid, k: Key, reply: Reply)
    requires Told(run, actions, i, j, t, k, reply)
    ensures reply.Streamed? || reply.Broken?
  {
    hide Finds;
  }

  lemma StoryStep(run: seq<State>, actions: seq<Action>, i: nat, j: nat, t: Tid, k: Key)
    requires IsRun(run, actions) && i < j - 1 && j < |run| && t in run[j - 1].pcs && actions[j - 1].t == t
    requires Story(run, actions, i, j - 1, t, k, run[j - 1].pcs[t])
    ensures Story(run, actions, i, j, t, k, PcAfter(run[j - 1], actions[j - 1]))
  {
    hide Inv, Told, Copies, IsRunning, FailsAt;
    RunStep(run, actions, j);
    var pc := run[j - 1].pcs[t];
    if pc.Closing? { ToldIs(run, actions, i, j - 1, t, k, pc.reply); }
    if pc.AtStat? {
      StatStep(run, actions, i, j, t, k);
    } else if pc.Copying? {
      CopyStep(run, actions, i, j, t, k);
    } else if pc.Running? {
      RunningStep(run, actions, i, j, t, k);
    } else if pc.Failing? {
      FailingStep(run, actions, i, j, t, k);
    } else if pc.Closing? || pc.AtRUnlock? {
      ToldBefore(run, actions, i, j, t, k, pc.reply);
    }
  }

  lemma {:induction false} StoryHolds(run: seq<State>, actions: seq<Action>, i: nat, j: nat, t: Tid, k: Key)
    requires IsRun(run, actions) && i < j < |run| && actions[i] == Spawn(t, Transcode(k, false))
    ensures t in run[j].pcs && Story(run, actions, i, j, t, k, run[j].pcs[t])
  {
    hide Inv, Story, PcAfter;
    RunStep(run, actions, j);
    if j == i + 1 {
      SpawnedStory(run, actions, i, t, k);
    } else {
      StoryHolds(run, actions, i, j - 1, t, k);
      if actions[j - 1].t == t { StoryStep(run, actions, i, j, t, k); } else { StoryFrame(run, actions, i, j, t, k); }
    }
  }

  lemma SpawnedStory(run: seq<State>, actions: seq<Action>, i: nat, t: Tid, k: Key)
    requires IsRun(run, actions) && i < |actions| && actions[i] == Spawn(t, Transcode(k, false))
    ensures Story(run, actions, i, i + 1, t, k, PcAfter(run[i], actions[i]))
  {
  }

  /**
   * A Transcode request that does not seek is sent the file's bytes if, with the key's lock held, it finds some; else
   * all that its inner transcoder writes before it ends, which is then what the file holds. Only if the inner
   * transcoder fails is it told so, and then the file is removed.
   */
  lemma TranscodeIsTold(run: seq<State>, actions: seq<Action>, i: nat, j: nat, t: Tid, k: Key)
    requires IsRun(run, actions) && i < j < |run| && actions[i] == Spawn(t, Transcode(k, false))
    requires t in run[j].pcs && run[j].pcs[t].Done?
    ensures Told(run, actions, i, j, t, k, run[j].pcs[t].reply)
  {
    StoryHolds(run, actions, i, j, t, k);
  }

  // The other requests ----------------------------------------------------------------------------

  /** Where a request can be that does not use the cache's files by key, by what it asks. */
  predicate Aside(req: Request, pc: Pc) {
    match req
    case Transcode(_, _) => pc in {Begin(req), Seeking, AtRUnlock(Direct), Done(Direct)}
    case CachedPath(_, _) => pc in {Begin(req), Done(Miss)}
    case Eject => pc in {Begin(req), AtLock, Ejecting, Done(Ejected)}
  }

  lemma AsideStep(s: State, a: Action, req: Request)
    requires Enabled(s, a) && a.t in s.pcs && Aside(req, s.pcs[a.t]) && (req.Eject? || req.seek)
    ensures Aside(req, PcAfter(s, a)) && (!req.Eject? ==> FilesAfter(s, a) == s.files)
  {
  }

  lemma SeekerReads(s: State, t: Tid)
    requires Inv(s) && t in s.pcs && s.pcs[t].Seeking?
    ensures t in s.readers
  {
    hide LedgerOk, PcOk, KeysOk, FilesOk;
  }

  /** A seeking transcode goes to the inner transcoder, a seeking lookup finds nothing, and neither touches a file. */
  lemma {:induction false} AsideIsTold(run: seq<State>, actions: seq<Action>, i: nat, j: nat, t: Tid, req: Request)
    requires IsRun(run, actions) && i < j < |run| && actions[i] == Spawn(t, req) && (req.Eject? || req.seek)
    ensures t in run[j].pcs && Aside(req, run[j].pcs[t])
    ensures actions[j - 1].t == t && !req.Eject? ==> run[j].files == run[j - 1].files
    ensures run[j].pcs[t].Seeking? ==> t in run[j].readers
  {
    hide Inv, PcAfter, FilesAfter;
    RunStep(run, actions, j);
    RunKeepsInv(run, actions, j);
    if j > i + 1 {
      AsideIsTold(run, actions, i, j - 1, t, req);
      if actions[j - 1].t == t { AsideStep(run[j - 1], actions[j - 1], req); }
    } else {
      SpawnedAside(run[i], t, req);
    }
    if run[j].pcs[t].Seeking? { SeekerReads(run[j], t); }
  }

  lemma SpawnedAside(s: State, t: Tid, req: Request)
    requires t !in s.pcs
    ensures Aside(req, PcAfter(s, Spawn(t, req))) && FilesAfter(s, Spawn(t, req)) == s.files
  {
  }

  /** While an Eject request waits for the write lock, nobody newly gets the read lock. */
  lemma {:induction false} WaitingEjectKeepsOut(run: seq<State>, actions: seq<Action>, i: nat, j: nat, t: Tid)
    requires IsRun(run, actions) && i <= j < |run|
    requires forall x | i <= x <= j :: t in run[x].pcs && run[x].pcs[t].AtLock?
    ensures run[j].readers <= run[i].readers
  {
    if i < j {
      WaitingEjectKeepsOut(run, actions, i, j - 1, t);
      assert run[j] == Step(run[j - 1], actions[j - 1]) && Enabled(run[j - 1], actions[j - 1]);
      assert t in run[j - 1].pcs && run[j - 1].pcs[t].AtLock?;
    }
  }
}
