/**
 * The on-disk transcode cache as a state machine over its lock, file and transcoder steps.
 *
 * One request is one thread. `Begin` requests arrive in any number and at any time, and every
 * step of every request is one action, so a run is any interleaving. The cache lock is Go's
 * `sync.RWMutex`: a waiting writer keeps new readers out. `hist` and `done` only record what
 * happened; no step looks at them.
 */
module TranscodeCache {
  import opened Options

  type Key = string
  type Tid = nat
  type Bytes = seq<bv8>

  datatype Request =
    | Transcode(key: Key, seek: bool)
    | CachedPath(key: Key, seek: bool)
    | Eject

  /** What a finished request gave its caller. */
  datatype Reply =
    | Direct                     // a seeking transcode, which never touches the cache
    | Streamed(key: Key, sent: Bytes) // a transcode that returned no error
    | Broken(sent: Bytes)        // a transcode that returned the inner error
    | Miss                       // CachedPath returned no path
    | Path(key: Key, bytes: Bytes) // CachedPath returned the path of a file holding `bytes`
    | Ejected

  datatype Pc =
    | Begin(req: Request)
    | Seeking
    | AtKey(req: Request)
    | AtOpen(key: Key)
    | AtStat(key: Key)
    | Copying(key: Key, sent: Bytes)
    | Running(key: Key, sent: Bytes)
    | Failing(key: Key, sent: Bytes)
    | AtPathStat(key: Key)
    | Closing(key: Key, reply: Reply)
    | Serving(key: Key, bytes: Bytes)
    | AtRUnlock(reply: Reply)
    | AtLock
    | Ejecting
    | Done(reply: Reply)

  datatype Event = Started(key: Key) | Failed(key: Key) | Empty(key: Key) | Stored(key: Key) | Dropped(key: Key)

  datatype State = State(
    files: map<Key, Bytes>,
    readers: set<Tid>,
    writer: Option<Tid>,
    keys: map<Key, Tid>,
    pcs: map<Tid, Pc>,
    done: set<(Key, Bytes)>,
    hist: multiset<Event>)

  datatype Action =
    | Spawn(t: Tid, req: Request)
    | Advance(t: Tid)
    | Copy(t: Tid, n: nat)
    | Write(t: Tid, chunk: Bytes)
    | Finish(t: Tid)
    | Fail(t: Tid, partial: Bytes)
    | Remove(t: Tid, key: Key)

  const Init := State(map[], {}, None, map[], map[], {}, multiset{})

  predicate HoldsRead(pc: Pc) {
    pc.Seeking? || pc.AtKey? || HoldsSomeKey(pc) || pc.Serving? || pc.AtRUnlock?
  }

  predicate HoldsSomeKey(pc: Pc) {
    pc.AtOpen? || pc.AtStat? || pc.Copying? || pc.Running? || pc.Failing? || pc.AtPathStat? || pc.Closing?
  }

  predicate HoldsKey(pc: Pc, k: Key) {
    HoldsSomeKey(pc) && pc.key == k
  }

  /** A pending `Lock` call keeps new `RLock` calls out. */
  predicate CanRLock(s: State) {
    s.writer.None? && forall u | u in s.pcs :: !s.pcs[u].AtLock?
  }

  predicate AdvanceEnabled(s: State, t: Tid) {
    t in s.pcs &&
    match s.pcs[t]
    case Begin(req) => req.Eject? || (req.CachedPath? && req.seek) || CanRLock(s)
    case Seeking => true
    case AtKey(req) => !req.Eject? && req.key !in s.keys
    case AtOpen(_) => true
    case AtStat(k) => k in s.files
    case Copying(k, sent) => k in s.files && sent == s.files[k]
    case Running(_, _) => false
    case Failing(_, _) => true
    case AtPathStat(_) => true
    case Closing(_, _) => true
    case Serving(_, _) => true
    case AtRUnlock(_) => true
    case AtLock => s.readers == {} && s.writer.None?
    case Ejecting => true
    case Done(_) => false
  }

  predicate Enabled(s: State, a: Action) {
    match a
    case Spawn(t, _) => t !in s.pcs
    case Advance(t) => AdvanceEnabled(s, t)
    case Copy(t, n) =>
      t in s.pcs && s.pcs[t].Copying? && s.pcs[t].key in s.files &&
      |s.pcs[t].sent| < n <= |s.files[s.pcs[t].key]|
    case Write(t, _) => t in s.pcs && s.pcs[t].Running? && s.pcs[t].key in s.files
    case Finish(t) => t in s.pcs && s.pcs[t].Running? && s.pcs[t].key in s.files
    case Fail(t, _) => t in s.pcs && s.pcs[t].Running?
    case Remove(t, k) => t in s.pcs && s.pcs[t].Ejecting? && k in s.files
  }

  // What each action does to each shared variable -----------------------------

  function PcAfter(s: State, a: Action): Pc
    requires Enabled(s, a)
  {
    match a
    case Spawn(t, req) => Begin(req)
    case Advance(t) => AdvancePc(s, t)
    case Copy(t, n) => Copying(s.pcs[t].key, s.files[s.pcs[t].key][..n])
    case Write(t, chunk) => Running(s.pcs[t].key, s.pcs[t].sent + chunk)
    case Finish(t) => Closing(s.pcs[t].key, Streamed(s.pcs[t].key, s.pcs[t].sent))
    // the client may have been sent part of a chunk that never reached the file
    case Fail(t, partial) => Failing(s.pcs[t].key, s.pcs[t].sent + partial)
    case Remove(t, k) => Ejecting
  }

  function AdvancePc(s: State, t: Tid): Pc
    requires AdvanceEnabled(s, t)
  {
    match s.pcs[t]
    case Begin(req) =>
      if req.Eject? then AtLock
      else if req.CachedPath? && req.seek then Done(Miss)
      else if req.seek then Seeking
      else AtKey(req)
    case Seeking => AtRUnlock(Direct)
    case AtKey(req) => if req.Transcode? then AtOpen(req.key) else AtPathStat(req.key)
    case AtOpen(k) => AtStat(k)
    case AtStat(k) => if s.files[k] != [] then Copying(k, []) else Running(k, [])
    case Copying(k, sent) => Closing(k, Streamed(k, sent))
    case Failing(k, sent) => Closing(k, Broken(sent))
    case AtPathStat(k) => Closing(k, if k in s.files && s.files[k] != [] then Path(k, s.files[k]) else Miss)
    case Closing(k, reply) => if reply.Path? then Serving(k, reply.bytes) else AtRUnlock(reply)
    case Serving(k, bytes) => Done(Path(k, bytes))
    case AtRUnlock(reply) => Done(reply)
    case AtLock => Ejecting
    case Ejecting => Done(Ejected)
  }

  /** RLock on the way in, RUnlock on the way out. */
  function ReadersAfter(s: State, a: Action): set<Tid>
    requires Enabled(s, a)
  {
    if !a.Advance? then s.readers
    else match s.pcs[a.t]
      case Begin(req) => if req.Eject? || (req.CachedPath? && req.seek) then s.readers else s.readers + {a.t}
      case Serving(_, _) => s.readers - {a.t}
      case AtRUnlock(_) => s.readers - {a.t}
      case _ => s.readers
  }

  function WriterAfter(s: State, a: Action): Option<Tid>
    requires Enabled(s, a)
  {
    if !a.Advance? then s.writer
    else match s.pcs[a.t]
      case AtLock => Some(a.t)
      case Ejecting => None
      case _ => s.writer
  }

  /** keyedMutex.Lock and the unlock it returns. */
  function KeysAfter(s: State, a: Action): map<Key, Tid>
    requires Enabled(s, a)
  {
    if !a.Advance? then s.keys
    else match s.pcs[a.t]
      case AtKey(req) => s.keys[req.key := a.t]
      case Closing(k, _) => s.keys - {k}
      case _ => s.keys
  }

  function FilesAfter(s: State, a: Action): map<Key, Bytes>
    requires Enabled(s, a)
  {
    match a
    case Advance(t) => (
      match s.pcs[t]
      // os.OpenFile with O_CREATE and no O_TRUNC
      case AtOpen(k) => if k in s.files then s.files else s.files[k := []]
      case Failing(k, _) => s.files - {k}
      case _ => s.files)
    // the MultiWriter hands the same chunk to the client and to the file
    case Write(t, chunk) => s.files[s.pcs[t].key := s.files[s.pcs[t].key] + chunk]
    case Remove(_, k) => s.files - {k}
    case _ => s.files
  }

  function DoneAfter(s: State, a: Action): set<(Key, Bytes)>
    requires Enabled(s, a)
  {
    if a.Finish? then s.done + {(s.pcs[a.t].key, s.pcs[a.t].sent)} else s.done
  }

  function Events(s: State, a: Action): multiset<Event>
    requires Enabled(s, a)
  {
    match a
    case Advance(t) =>
      if s.pcs[t].AtStat? && s.files[s.pcs[t].key] == [] then multiset{Started(s.pcs[t].key)} else multiset{}
    case Finish(t) => multiset{if s.pcs[t].sent == [] then Empty(s.pcs[t].key) else Stored(s.pcs[t].key)}
    case Fail(t, _) => multiset{Failed(s.pcs[t].key)}
    case Remove(_, k) => if s.files[k] != [] then multiset{Dropped(k)} else multiset{}
    case _ => multiset{}
  }

  function Step(s: State, a: Action): State
    requires Enabled(s, a)
  {
    State(FilesAfter(s, a), ReadersAfter(s, a), WriterAfter(s, a), KeysAfter(s, a),
          s.pcs[a.t := PcAfter(s, a)], DoneAfter(s, a), s.hist + Events(s, a))
  }

  // Invariant ----------------------------------------------------------------

  /** The inner transcoder's output for `k` is in the middle of being written or thrown away. */
  ghost predicate Dirty(s: State, k: Key) {
    k in s.keys && s.keys[k] in s.pcs && (s.pcs[s.keys[k]].Running? || s.pcs[s.keys[k]].Failing?)
  }

  ghost predicate Active(s: State, k: Key) {
    k in s.keys && s.keys[k] in s.pcs && s.pcs[s.keys[k]].Running?
  }

  ghost predicate Present(s: State, k: Key) {
    k in s.files && s.files[k] != [] && !Dirty(s, k)
  }

  ghost predicate LocksOk(s: State) {
    && (forall t :: t in s.readers <==> t in s.pcs && HoldsRead(s.pcs[t]))
    && (forall t :: s.writer == Some(t) <==> t in s.pcs && s.pcs[t].Ejecting?)
    && (s.writer.Some? ==> s.readers == {})
  }

  ghost predicate KeysOk(s: State) {
    && (forall k | k in s.keys :: s.keys[k] in s.pcs && HoldsKey(s.pcs[s.keys[k]], k))
    && (forall t | t in s.pcs && HoldsSomeKey(s.pcs[t]) :: s.pcs[t].key in s.keys && s.keys[s.pcs[t].key] == t)
  }

  ghost predicate FilesOk(s: State) {
    forall k | Present(s, k) :: (k, s.files[k]) in s.done
  }

  ghost predicate PcOk(s: State, pc: Pc) {
    match pc
    case Begin(req) => true
    case AtKey(req) => !req.Eject?
    case AtStat(k) => k in s.files
    case Copying(k, sent) => k in s.files && s.files[k] != [] && sent <= s.files[k]
    case Running(k, sent) => k in s.files && s.files[k] == sent
    case Failing(k, _) => k in s.files
    case Closing(k, reply) => ReplyOk(s, reply) && (reply.Path? ==> reply.key == k && k in s.files && s.files[k] == reply.bytes)
    case AtRUnlock(reply) => ReplyOk(s, reply)
    case Done(reply) => ReplyOk(s, reply)
    case Serving(k, bytes) => k in s.files && s.files[k] == bytes && bytes != [] && !Dirty(s, k) && (k, bytes) in s.done
    case _ => true
  }

  /** Whatever a request reports as a transcode is one complete output of the inner transcoder. */
  ghost predicate ReplyOk(s: State, reply: Reply) {
    match reply
    case Streamed(k, sent) => (k, sent) in s.done
    case Path(k, bytes) => bytes != [] && (k, bytes) in s.done
    case _ => true
  }

  ghost predicate LedgerOk(s: State) {
    forall k :: LedgerAt(s, k)
  }

  /** Every start of the inner transcoder is accounted for, and so is every stored output. */
  ghost predicate LedgerAt(s: State, k: Key) {
      && s.hist[Started(k)] == s.hist[Failed(k)] + s.hist[Empty(k)] + s.hist[Stored(k)] + (if Active(s, k) then 1 else 0)
      && s.hist[Stored(k)] == s.hist[Dropped(k)] + (if Present(s, k) then 1 else 0)
  }

  ghost predicate Inv(s: State) {
    && LocksOk(s)
    && KeysOk(s)
    && FilesOk(s)
    && (forall t | t in s.pcs :: PcOk(s, s.pcs[t]))
    && LedgerOk(s)
  }

  // Every action keeps the invariant -------------------------------------------

  lemma StepReaders(s: State, a: Action)
    requires Enabled(s, a)
    requires a.t in s.readers <==> a.t in s.pcs && HoldsRead(s.pcs[a.t])
    ensures ReadersAfter(s, a) == (if HoldsRead(PcAfter(s, a)) then s.readers + {a.t} else s.readers - {a.t})
  {
  }

  lemma StepWriter(s: State, a: Action)
    requires LocksOk(s) && Enabled(s, a)
    ensures WriterAfter(s, a).Some? ==> ReadersAfter(s, a) == {}
    ensures WriterAfter(s, a) == Some(a.t) <==> PcAfter(s, a).Ejecting?
    ensures forall t | t != a.t :: WriterAfter(s, a) == Some(t) <==> s.writer == Some(t)
  {
  }

  lemma StepKeepsLocks(s: State, a: Action)
    requires LocksOk(s) && Enabled(s, a)
    ensures LocksOk(Step(s, a))
  {
    StepReaders(s, a);
    StepWriter(s, a);
  }

  lemma StepKey(s: State, a: Action, k: Key)
    requires KeysOk(s) && Enabled(s, a)
    ensures a.t in s.pcs && HoldsKey(s.pcs[a.t], k) && !HoldsKey(PcAfter(s, a), k) ==> k !in KeysAfter(s, a)
    ensures HoldsKey(PcAfter(s, a), k) ==>
              k in KeysAfter(s, a) && KeysAfter(s, a)[k] == a.t && (k in s.keys ==> s.keys[k] == a.t)
    ensures !(a.t in s.pcs && HoldsKey(s.pcs[a.t], k)) && !HoldsKey(PcAfter(s, a), k) ==>
              (k in KeysAfter(s, a) <==> k in s.keys) && (k in s.keys ==> KeysAfter(s, a)[k] == s.keys[k] != a.t)
  {
  }

  lemma StepKeepsKeys(s: State, a: Action)
    requires KeysOk(s) && Enabled(s, a)
    ensures KeysOk(Step(s, a))
  {
    var s' := Step(s, a);
    forall k | k in s'.keys ensures s'.keys[k] in s'.pcs && HoldsKey(s'.pcs[s'.keys[k]], k) {
      StepKey(s, a, k);
    }
    forall t | t in s'.pcs && HoldsSomeKey(s'.pcs[t])
      ensures s'.pcs[t].key in s'.keys && s'.keys[s'.pcs[t].key] == t
    {
      StepKey(s, a, s'.pcs[t].key);
    }
  }

  lemma DirtyFrame(s: State, a: Action, k: Key)
    requires KeysOk(s) && Enabled(s, a)
    ensures !(a.t in s.pcs && HoldsKey(s.pcs[a.t], k)) ==> Dirty(Step(s, a), k) == Dirty(s, k)
    ensures Dirty(Step(s, a), k) && !Dirty(s, k) ==> s.pcs[a.t] == AtStat(k) && s.files[k] == []
  {
    StepKey(s, a, k);
  }

  lemma OtherPcOk(s: State, a: Action, u: Tid)
    requires Inv(s) && Enabled(s, a) && u in s.pcs && u != a.t
    ensures PcOk(Step(s, a), s.pcs[u])
  {
    hide LedgerOk;
  }

  lemma OwnAdvanceOk(s: State, t: Tid)
    requires Inv(s) && AdvanceEnabled(s, t)
    ensures PcOk(Step(s, Advance(t)), AdvancePc(s, t))
  {
    hide LedgerOk, Events;
    assert PcOk(s, s.pcs[t]);
  }

  lemma OwnPcOk(s: State, a: Action)
    requires Inv(s) && Enabled(s, a)
    ensures PcOk(Step(s, a), PcAfter(s, a))
  {
    hide LedgerOk, Events;
    if a.Advance? {
      hide Step, FilesOk, KeysOk, LocksOk;
      OwnAdvanceOk(s, a.t);
    } else if !a.Spawn? {
      assert PcOk(s, s.pcs[a.t]);
    }
  }

  lemma StepKeepsFiles(s: State, a: Action, k: Key)
    requires Inv(s) && Enabled(s, a) && Present(Step(s, a), k)
    ensures (k, Step(s, a).files[k]) in Step(s, a).done
  {
    DirtyFrame(s, a, k);
  }

  /** Counting one action's events. */
  lemma StepCounts(s: State, a: Action, e: Event)
    requires Enabled(s, a)
    ensures Step(s, a).hist[e] == s.hist[e] + Events(s, a)[e]
  {
  }

  lemma ActiveFrame(s: State, a: Action, k: Key)
    requires Inv(s) && Enabled(s, a)
    ensures (if Active(Step(s, a), k) then 1 else 0) ==
            (if Active(s, k) then 1 else 0) + Events(s, a)[Started(k)] - Events(s, a)[Failed(k)] -
            Events(s, a)[Empty(k)] - Events(s, a)[Stored(k)]
  {
    StepKey(s, a, k);
  }

  lemma PresentFrame(s: State, a: Action, k: Key)
    requires Inv(s) && Enabled(s, a)
    ensures (if Present(Step(s, a), k) then 1 else 0) ==
            (if Present(s, k) then 1 else 0) + Events(s, a)[Stored(k)] - Events(s, a)[Dropped(k)]
  {
    DirtyFrame(s, a, k);
    StepKey(s, a, k);
  }

  lemma StepKeepsLedger(s: State, a: Action, k: Key)
    requires Inv(s) && Enabled(s, a)
    ensures LedgerAt(Step(s, a), k)
  {
    assert LedgerAt(s, k);
    ActiveFrame(s, a, k);
    PresentFrame(s, a, k);
    StepCounts(s, a, Started(k));
    StepCounts(s, a, Failed(k));
    StepCounts(s, a, Empty(k));
    StepCounts(s, a, Stored(k));
    StepCounts(s, a, Dropped(k));
  }

  lemma StepKeepsInv(s: State, a: Action)
    requires Inv(s) && Enabled(s, a)
    ensures Inv(Step(s, a))
  {
    var s' := Step(s, a);
    StepKeepsLocks(s, a);
    StepKeepsKeys(s, a);
    forall k | Present(s', k) ensures (k, s'.files[k]) in s'.done { StepKeepsFiles(s, a, k); }
    forall t | t in s'.pcs ensures PcOk(s', s'.pcs[t]) {
      if t == a.t { OwnPcOk(s, a); } else { OtherPcOk(s, a, t); }
    }
    forall k ensures LedgerAt(s', k) { StepKeepsLedger(s, a, k); }
  }

  // Whole runs ------------------------------------------------------------------

  /** `run` is a run: it starts from the empty cache and each state follows by an enabled action. */
  ghost predicate IsRun(run: seq<State>, actions: seq<Action>) {
    && |run| == |actions| + 1
    && run[0] == Init
    && forall i | 0 <= i < |actions| :: Enabled(run[i], actions[i]) && run[i + 1] == Step(run[i], actions[i])
  }

  lemma {:induction false} RunKeepsInv(run: seq<State>, actions: seq<Action>, i: nat)
    requires IsRun(run, actions) && i < |run|
    ensures Inv(run[i])
  {
    if i > 0 {
      RunKeepsInv(run, actions, i - 1);
      StepKeepsInv(run[i - 1], actions[i - 1]);
    }
  }

  /**
   * A key whose lock is free has no file, an empty file, or one complete output. Every answered
   * request was given one complete output too, unless it was told about the failure.
   */
  lemma FreeKeysAreSettled(run: seq<State>, actions: seq<Action>, i: nat)
    requires IsRun(run, actions) && i < |run|
    ensures forall k | k !in run[i].keys ::
              k !in run[i].files || run[i].files[k] == [] || (k, run[i].files[k]) in run[i].done
    ensures forall t | t in run[i].pcs && run[i].pcs[t].Done? :: ReplyOk(run[i], run[i].pcs[t].reply)
  {
    RunKeepsInv(run, actions, i);
    forall k | k !in run[i].keys && k in run[i].files && run[i].files[k] != []
      ensures (k, run[i].files[k]) in run[i].done
    {
      assert Present(run[i], k);
    }
  }

  /** The recorded outputs are what the inner transcoder wrote between its start and its success. */
  lemma OutputsAreWhatWasWritten(run: seq<State>, actions: seq<Action>, i: nat)
    requires IsRun(run, actions) && i < |actions|
    ensures forall k, b | (k, b) in run[i + 1].done && (k, b) !in run[i].done ::
              actions[i].Finish? && run[i].pcs[actions[i].t] == Running(k, b) && k in run[i].files && run[i].files[k] == b
  {
    RunKeepsInv(run, actions, i);
  }

  /** A path that CachedPath gave out names the same bytes until the caller releases it. */
  lemma {:induction false} PathKeepsItsBytes(run: seq<State>, actions: seq<Action>, i: nat, j: nat, t: Tid)
    requires IsRun(run, actions) && i <= j < |run|
    requires t in run[i].pcs && run[i].pcs[t].Serving?
    ensures t in run[j].pcs
    ensures var Serving(k, bytes) := run[i].pcs[t];
            || run[j].pcs[t] == Done(Path(k, bytes))
            || (run[j].pcs[t] == run[i].pcs[t] && k in run[j].files && run[j].files[k] == bytes != [])
  {
    RunKeepsInv(run, actions, j);
    if i < j {
      PathKeepsItsBytes(run, actions, i, j - 1, t);
      assert run[j] == Step(run[j - 1], actions[j - 1]);
    }
  }

  /**
   * The inner transcoder runs again for a key only after a failure, an empty output or an
   * eviction: with none of those it runs at most once.
   */
  lemma InnerRunsAreBounded(run: seq<State>, actions: seq<Action>, i: nat, k: Key)
    requires IsRun(run, actions) && i < |run|
    ensures var h := run[i].hist;
            h[Started(k)] <= 1 + h[Failed(k)] + h[Empty(k)] + h[Dropped(k)]
    ensures var h := run[i].hist;
            h[Failed(k)] == h[Empty(k)] == h[Dropped(k)] == 0 ==> h[Started(k)] <= 1
  {
    RunKeepsInv(run, actions, i);
    assert LedgerAt(run[i], k);
  }

  // No deadlock -----------------------------------------------------------------

  /** The action a request takes next when nothing blocks it. */
  function Own(s: State, t: Tid): Action
    requires t in s.pcs
  {
    match s.pcs[t]
    case Running(_, _) => Finish(t)
    case Copying(k, sent) => if k in s.files && sent != s.files[k] then Copy(t, |s.files[k]|) else Advance(t)
    case _ => Advance(t)
  }

  predicate Waiting(pc: Pc) {
    pc.Begin? || pc.AtKey? || pc.AtLock? || pc.Done?
  }

  lemma NotWaiting(s: State, t: Tid)
    requires Inv(s) && t in s.pcs && !Waiting(s.pcs[t])
    ensures Enabled(s, Own(s, t))
  {
  }

  /** In every state some unfinished request can take a step, however the locks are held. */
  lemma NoDeadlock(s: State, t: Tid) returns (u: Tid)
    requires Inv(s) && t in s.pcs && !s.pcs[t].Done?
    ensures u in s.pcs && !s.pcs[u].Done? && Enabled(s, Own(s, u))
  {
    if v :| v in s.pcs && !Waiting(s.pcs[v]) {
      NotWaiting(s, v);
      u := v;
    } else if v :| v in s.pcs && s.pcs[v].AtKey? {
      assert s.pcs[v].req.key !in s.keys;
      u := v;
    } else if v :| v in s.pcs && s.pcs[v].AtLock? {
      assert s.readers == {};
      u := v;
    } else {
      u := t;
    }
  }

  lemma RunNeverDeadlocks(run: seq<State>, actions: seq<Action>, i: nat, t: Tid) returns (u: Tid)
    requires IsRun(run, actions) && i < |run| && t in run[i].pcs && !run[i].pcs[t].Done?
    ensures u in run[i].pcs && !run[i].pcs[u].Done? && Enabled(run[i], Own(run[i], u))
  {
    RunKeepsInv(run, actions, i);
    u := NoDeadlock(run[i], t);
  }
}
