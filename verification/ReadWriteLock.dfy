/** The read-write lock of the store: readers and writers interleaved one access at a time. */
module ReadWriteLock {
  import opened Common
  import opened Model
  import opened DataStorage

  type ThreadId = nat

  /** A store operation that takes the write lock. */
  datatype Write = InitWrite(all: map<Category, Items>, version: Option<int>)
                 | UpsertWrite(kind: Category, key: string, item: Item, stamp: int)

  /** What a thread is at. The stages of a writer are its single assignments to the fields of the store. */
  datatype Pc =
    | Idle
    | WantRead(kind: Category, key: string)
    | LookUpKind(kind: Category, key: string)
    | LookUpKey(kind: Category, key: string, items: Items)
    | ReadDone
    | WantWrite(w: Write)
    | Waiting(w: Write)
    | CheckReaders(w: Write)
    | Writing(w: Write, stage: nat)

  predicate IsReader(pc: Pc) {
    pc.LookUpKind? || pc.LookUpKey? || pc.ReadDone?
  }

  predicate HoldsMutex(pc: Pc) {
    pc.CheckReaders? || pc.Writing?
  }

  /** A finished lookup; `at` is the number of writes that had been committed. */
  datatype Read = Read(kind: Category, key: string, result: Option<Item>, at: nat)

  /**
   * `mutex` and `readers` are the lock; `store` holds the fields as they are in memory. `committed`, `writes`
   * and `lookups` are histories: the store after each write, the writes, and the lookups.
   */
  datatype State = State(mutex: Option<ThreadId>, readers: int, pcs: map<ThreadId, Pc>, store: Store,
                         committed: seq<Store>, writes: seq<Write>, lookups: seq<Read>)

  /** What a write does when nothing else runs. */
  function Sequential(s: Store, w: Write): (Store, bool) {
    match w
    case InitWrite(all, version) => Initialized(s, all, version)
    case UpsertWrite(kind, key, item, stamp) => Upserted(s, kind, key, item, stamp)
  }

  predicate ChangesNothing(s: Store, w: Write) {
    Sequential(s, w).0 == s
  }

  function Stages(w: Write): nat {
    if w.InitWrite? then 4 else 3
  }

  /** One assignment of an accepted write. */
  function Assign(s: Store, w: Write, stage: nat): Store {
    match w
    case InitWrite(all, version) =>
      if stage == 0 then s.(contents := map[])
      else if stage == 1 then s.(contents := s.contents + all)
      else if stage == 2 then s.(initialized := true)
      else if version.Some? then s.(version := version.value) else s
    case UpsertWrite(kind, key, item, stamp) =>
      if stage == 0 then s.(contents := s.contents[kind := s.Of(kind)[key := item]])
      else if stage == 1 then s.(version := Max(s.version, stamp))
      else s.(initialized := true)
  }

  function Lookup(items: Items, key: string): Option<Item> {
    if key in items && !items[key].Tombstone? then Some(items[key]) else None
  }

  datatype Step =
    | Begin(t: ThreadId, pc: Pc)
    | AcquireRead(t: ThreadId)
    | ReadKind(t: ThreadId)
    | ReadKey(t: ThreadId)
    | ReleaseRead(t: ThreadId)
    | AcquireMutex(t: ThreadId)
    | TestReaders(t: ThreadId)
    | WriteStage(t: ThreadId)

  const START := State(None, 0, map[], EMPTY, [EMPTY], [], [])

  function PcOf(s: State, t: ThreadId): Pc {
    if t in s.pcs then s.pcs[t] else Idle
  }

  predicate Enabled(s: State, st: Step) {
    var pc := PcOf(s, st.t);
    match st
    case Begin(_, next) => pc.Idle? && (next.WantRead? || next.WantWrite?)
    case AcquireRead(_) => pc.WantRead? && s.mutex.None?
    case ReadKind(_) => pc.LookUpKind?
    case ReadKey(_) => pc.LookUpKey?
    case ReleaseRead(_) => pc.ReadDone? && s.mutex.None?
    case AcquireMutex(_) => pc.WantWrite? && s.mutex.None?
    case TestReaders(_) => pc.CheckReaders?
    case WriteStage(_) => pc.Writing?
  }

  /** `notify_all`: every waiting writer will compete for the mutex again. */
  function Woken(pcs: map<ThreadId, Pc>): map<ThreadId, Pc> {
    map t | t in pcs :: if pcs[t].Waiting? then WantWrite(pcs[t].w) else pcs[t]
  }

  function Do(s: State, st: Step): State
    requires Enabled(s, st)
  {
    var t, pc := st.t, PcOf(s, st.t);
    match st
    case Begin(_, next) => s.(pcs := s.pcs[t := next])
    case AcquireRead(_) => s.(readers := s.readers + 1, pcs := s.pcs[t := LookUpKind(pc.kind, pc.key)])
    case ReadKind(_) => s.(pcs := s.pcs[t := LookUpKey(pc.kind, pc.key, s.store.Of(pc.kind))])
    case ReadKey(_) =>
      s.(pcs := s.pcs[t := ReadDone], lookups := s.lookups + [Read(pc.kind, pc.key, Lookup(pc.items, pc.key), |s.writes|)])
    case ReleaseRead(_) =>
      var readers := if s.readers > 0 then s.readers - 1 else 0;
      var pcs := s.pcs[t := Idle];
      s.(readers := readers, pcs := if readers == 0 then Woken(pcs) else pcs)
    case AcquireMutex(_) => s.(mutex := Some(t), pcs := s.pcs[t := CheckReaders(pc.w)])
    case TestReaders(_) =>
      // waiting gives the mutex back; the test and the release are one step
      if s.readers > 0 then s.(mutex := None, pcs := s.pcs[t := Waiting(pc.w)])
      else s.(pcs := s.pcs[t := Writing(pc.w, if ChangesNothing(s.store, pc.w) then Stages(pc.w) else 0)])
    case WriteStage(_) =>
      if pc.stage < Stages(pc.w)
      then s.(store := Assign(s.store, pc.w, pc.stage), pcs := s.pcs[t := Writing(pc.w, pc.stage + 1)])
      else s.(mutex := None, pcs := s.pcs[t := Idle], committed := s.committed + [s.store], writes := s.writes + [pc.w])
  }

  ghost predicate Next(s: State, s': State) {
    exists st :: Enabled(s, st) && s' == Do(s, st)
  }

  ghost predicate Run(ss: seq<State>) {
    |ss| > 0 && ss[0] == START && forall i :: 0 <= i < |ss| - 1 ==> Next(ss[i], ss[i + 1])
  }

  // ---------- the lock object ----------

  /** The sections of the lock that run under its condition, with the one field they change. */
  class ReadWriteLock {
    var readers: int

    constructor ()
      ensures readers == START.readers
    {
      readers := 0;
    }

    method ReadLock()
      modifies this
      ensures forall s: State, t: ThreadId :: s.readers == old(readers) && Enabled(s, AcquireRead(t)) ==> readers == Do(s, AcquireRead(t)).readers
    {
      readers := readers + 1;
    }

    /** `notify` says whether the waiting writers are woken. */
    method ReleaseReadLock() returns (notify: bool)
      modifies this
      ensures forall s: State, t: ThreadId :: s.readers == old(readers) && Enabled(s, ReleaseRead(t)) ==>
                var s' := Do(s, ReleaseRead(t));
                readers == s'.readers && s'.pcs == if notify then Woken(s.pcs[t := Idle]) else s.pcs[t := Idle]
    {
      readers := if readers > 0 then readers - 1 else 0;
      notify := readers == 0;
    }

    /** One test of the waiting loop of a writer. */
    method MustWait() returns (wait: bool)
      ensures forall s: State, t: ThreadId :: s.readers == readers && Enabled(s, TestReaders(t)) ==>
                (wait <==> Do(s, TestReaders(t)).pcs[t].Waiting?)
    {
      wait := readers > 0;
    }
  }

  // ---------- the lock ----------

  ghost function ActiveReaders(s: State): set<ThreadId> {
    set t | t in s.pcs && IsReader(s.pcs[t])
  }

  /** The counter counts the readers; the mutex has one holder; a writer has no reader beside it; a waiting writer has one to wait for. */
  ghost predicate LockInv(s: State) {
    && s.readers == |ActiveReaders(s)|
    && (forall t :: t in s.pcs && HoldsMutex(s.pcs[t]) <==> s.mutex == Some(t))
    && (forall t :: t in s.pcs && s.pcs[t].Writing? ==> s.readers == 0)
    && (forall t :: t in s.pcs && s.pcs[t].Waiting? ==> s.readers > 0)
  }

  /** Moving one thread between two states that are not a reader's leaves the readers as they are. */
  lemma ReadersUnchanged(s: State, t: ThreadId, pc: Pc, s': State)
    requires s'.pcs == s.pcs[t := pc] && !IsReader(pc) && !IsReader(PcOf(s, t))
    ensures ActiveReaders(s') == ActiveReaders(s)
  {
  }

  lemma AcquireReadKeepsLock(s: State, t: ThreadId)
    requires LockInv(s) && Enabled(s, AcquireRead(t))
    ensures LockInv(Do(s, AcquireRead(t)))
  {
    assert ActiveReaders(Do(s, AcquireRead(t))) == ActiveReaders(s) + {t};
  }

  lemma ReleaseReadKeepsLock(s: State, t: ThreadId)
    requires LockInv(s) && Enabled(s, ReleaseRead(t))
    ensures LockInv(Do(s, ReleaseRead(t)))
  {
    var s' := Do(s, ReleaseRead(t));
    assert t in ActiveReaders(s);
    assert forall t' :: t' in s'.pcs ==> IsReader(s'.pcs[t']) == (t' != t && IsReader(s.pcs[t']));
    assert ActiveReaders(s') == ActiveReaders(s) - {t};
    hide ActiveReaders;
  }

  lemma LookUpKeepsLock(s: State, st: Step)
    requires LockInv(s) && Enabled(s, st) && (st.ReadKind? || st.ReadKey?)
    ensures LockInv(Do(s, st))
  {
    hide Lookup, Store.Of;
    assert ActiveReaders(Do(s, st)) == ActiveReaders(s);
    hide ActiveReaders;
  }

  lemma OtherStepKeepsLock(s: State, st: Step)
    requires LockInv(s) && Enabled(s, st)
    requires st.Begin? || st.AcquireMutex? || st.TestReaders? || st.WriteStage?
    ensures LockInv(Do(s, st))
  {
    hide Assign, ChangesNothing, Stages, ActiveReaders;
    ReadersUnchanged(s, st.t, Do(s, st).pcs[st.t], Do(s, st));
  }

  lemma StepKeepsLock(s: State, st: Step)
    requires LockInv(s) && Enabled(s, st)
    ensures LockInv(Do(s, st))
  {
    match st {
      case AcquireRead(t) => AcquireReadKeepsLock(s, t);
      case ReleaseRead(t) => ReleaseReadKeepsLock(s, t);
      case ReadKind(_) => LookUpKeepsLock(s, st);
      case ReadKey(_) => LookUpKeepsLock(s, st);
      case _ => OtherStepKeepsLock(s, st);
    }
  }

  // ---------- the store behind the lock ----------

  /** The store after the first `k` assignments of a write. */
  function Partly(s: Store, w: Write, k: nat): Store {
    if k == 0 then s else Assign(Partly(s, w, k - 1), w, k - 1)
  }

  /** All assignments of an accepted write together are the write. */
  lemma AllStages(s: Store, w: Write)
    requires !ChangesNothing(s, w)
    ensures Partly(s, w, Stages(w)) == Sequential(s, w).0
  {
    match w {
      case InitWrite(all, version) =>
        assert Partly(s, w, 1) == s.(contents := map[]);
        assert map[] + all == all;
        assert Partly(s, w, 2) == s.(contents := all);
        assert Partly(s, w, 3) == s.(contents := all, initialized := true);
      case UpsertWrite(kind, key, item, stamp) =>
        assert Partly(s, w, 1) == s.(contents := s.contents[kind := s.Of(kind)[key := item]]);
        assert Partly(s, w, 2) == s.(contents := s.contents[kind := s.Of(kind)[key := item]], version := Max(s.version, stamp));
    }
  }

  ghost function Latest(s: State): Store
    requires s.committed != []
  {
    s.committed[|s.committed| - 1]
  }

  ghost predicate StoreInv(s: State) {
    && |s.committed| == |s.writes| + 1 && s.committed[0] == EMPTY
    && (forall i :: 0 <= i < |s.writes| ==> s.committed[i + 1] == Sequential(s.committed[i], s.writes[i]).0)
    // in memory: the latest committed store, or what the one writer has made of it so far
    && (forall t :: t in s.pcs && s.pcs[t].Writing? ==> WriterAt(s, s.pcs[t].w, s.pcs[t].stage))
    && ((forall t :: t in s.pcs ==> !s.pcs[t].Writing?) ==> s.store == Latest(s))
    && (forall t :: t in s.pcs && s.pcs[t].LookUpKey? ==> s.pcs[t].items == Latest(s).Of(s.pcs[t].kind))
    && (forall r :: r in s.lookups ==> r.at < |s.committed| && r.result == Lookup(s.committed[r.at].Of(r.kind), r.key))
  }

  ghost predicate WriterAt(s: State, w: Write, stage: nat)
    requires s.committed != []
  {
    if ChangesNothing(Latest(s), w) then stage == Stages(w) && s.store == Latest(s)
    else stage <= Stages(w) && s.store == Partly(Latest(s), w, stage)
  }

  lemma ReaderSeesLatest(s: State, t: ThreadId)
    requires LockInv(s) && StoreInv(s) && t in s.pcs && IsReader(s.pcs[t])
    ensures s.store == Latest(s)
  {
    assert t in ActiveReaders(s);
    assert s.readers > 0;
  }

  lemma WriteStageKeepsStore(s: State, t: ThreadId)
    requires LockInv(s) && StoreInv(s) && Enabled(s, WriteStage(t))
    ensures StoreInv(Do(s, WriteStage(t)))
  {
    var s' := Do(s, WriteStage(t));
    var Writing(w, stage) := s.pcs[t];
    assert s.mutex == Some(t);
    assert forall t' :: t' in s.pcs && s.pcs[t'].Writing? ==> t' == t;
    assert WriterAt(s, w, stage);
    assert forall t' :: t' in s.pcs && IsReader(s.pcs[t']) ==> t' in ActiveReaders(s);
    hide Assign, Sequential;
    if stage < Stages(w) {
      assert Latest(s') == Latest(s);
      assert WriterAt(s', w, stage + 1);
      assert s'.pcs[t] == Writing(w, stage + 1);
    } else {
      if !ChangesNothing(Latest(s), w) { AllStages(Latest(s), w); }
      assert s'.committed == s.committed + [Sequential(Latest(s), w).0];
      CommitKeepsHistory(s, w, s');
    }
  }

  /** The histories when a write is committed. */
  lemma CommitKeepsHistory(s: State, w: Write, s': State)
    requires |s.committed| == |s.writes| + 1 && s.committed[0] == EMPTY
    requires forall i :: 0 <= i < |s.writes| ==> s.committed[i + 1] == Sequential(s.committed[i], s.writes[i]).0
    requires s'.committed == s.committed + [Sequential(Latest(s), w).0] && s'.writes == s.writes + [w]
    ensures |s'.committed| == |s'.writes| + 1 && s'.committed[0] == EMPTY
    ensures forall i :: 0 <= i < |s'.writes| ==> s'.committed[i + 1] == Sequential(s'.committed[i], s'.writes[i]).0
  {
  }

  lemma ReadStepKeepsStore(s: State, st: Step)
    requires LockInv(s) && StoreInv(s) && Enabled(s, st)
    requires st.AcquireRead? || st.ReadKind? || st.ReadKey? || st.ReleaseRead?
    ensures StoreInv(Do(s, st))
  {
    ReaderSees(s, st.t);
    hide Sequential, Assign, Partly, Store.Of, Lookup;
    assert Latest(Do(s, st)) == Latest(s);
    assert forall t :: t in s.pcs && s.pcs[t].Writing? ==> t in Do(s, st).pcs && Do(s, st).pcs[t] == s.pcs[t];
    assert st.ReadKey? ==> s.pcs[st.t].items == s.committed[|s.writes|].Of(s.pcs[st.t].kind);
  }

  lemma ReaderSees(s: State, t: ThreadId)
    requires LockInv(s) && StoreInv(s)
    ensures t in s.pcs && IsReader(s.pcs[t]) ==> s.store == Latest(s)
  {
    if t in s.pcs && IsReader(s.pcs[t]) { ReaderSeesLatest(s, t); }
  }

  lemma TestKeepsStore(s: State, t: ThreadId)
    requires LockInv(s) && StoreInv(s) && Enabled(s, TestReaders(t))
    ensures StoreInv(Do(s, TestReaders(t)))
  {
    hide Sequential, Assign, Store.Of, Lookup;
    var s', w := Do(s, TestReaders(t)), s.pcs[t].w;
    assert s.mutex == Some(t);
    assert forall t' :: t' in s.pcs ==> !s.pcs[t'].Writing?;
    assert s.store == Latest(s) && Latest(s') == Latest(s);
    assert s'.pcs[t].Writing? ==> WriterAt(s', w, s'.pcs[t].stage);
  }

  lemma StepKeepsStore(s: State, st: Step)
    requires LockInv(s) && StoreInv(s) && Enabled(s, st)
    ensures StoreInv(Do(s, st))
  {
    if st.AcquireRead? || st.ReadKind? || st.ReadKey? || st.ReleaseRead? {
      ReadStepKeepsStore(s, st);
    } else if st.WriteStage? {
      WriteStageKeepsStore(s, st.t);
    } else if st.TestReaders? {
      TestKeepsStore(s, st.t);
    } else {
      hide Sequential, Assign, Store.Of, Lookup, Partly;
      assert Latest(Do(s, st)) == Latest(s);
      assert forall t :: t in s.pcs && s.pcs[t].Writing? ==> t in Do(s, st).pcs && Do(s, st).pcs[t] == s.pcs[t];
    }
  }

  lemma {:induction false} RunKeepsInv(ss: seq<State>, i: nat)
    requires Run(ss) && i < |ss|
    ensures LockInv(ss[i]) && StoreInv(ss[i])
  {
    if i > 0 {
      RunKeepsInv(ss, i - 1);
      assert Next(ss[i - 1], ss[i]);
      hide LockInv, StoreInv, Enabled;
      var st :| Enabled(ss[i - 1], st) && ss[i] == Do(ss[i - 1], st);
      StepKeepsLock(ss[i - 1], st);
      StepKeepsStore(ss[i - 1], st);
    } else {
      assert ActiveReaders(START) == {};
    }
  }

  /** Writers exclude readers and each other, the counter is the number of readers, and no waiting writer is forgotten. */
  lemma MutualExclusion(ss: seq<State>, i: nat)
    requires Run(ss) && i < |ss|
    ensures ss[i].readers == |ActiveReaders(ss[i])|
    ensures forall t, t' :: t in ss[i].pcs && t' in ss[i].pcs && ss[i].pcs[t].Writing? && t != t' ==>
              !IsReader(ss[i].pcs[t']) && !ss[i].pcs[t'].Writing?
    ensures forall t :: t in ss[i].pcs && ss[i].pcs[t].Waiting? ==> ActiveReaders(ss[i]) != {}
  {
    RunKeepsInv(ss, i);
    var s := ss[i];
    forall t, t' | t in s.pcs && t' in s.pcs && s.pcs[t].Writing? && t != t'
      ensures !IsReader(s.pcs[t']) && !s.pcs[t'].Writing?
    {
      assert s.mutex == Some(t);
      assert t' !in ActiveReaders(s);
    }
  }

  /**
   * Reads are atomic: the committed stores are those of the writes executed one after the other, a thread
   * with the read lock finds the latest of them in memory, never a store between two assignments, and every
   * finished read is the lookup in the store that was the latest when it was made.
   */
  lemma ReadsAreAtomic(ss: seq<State>, i: nat)
    requires Run(ss) && i < |ss|
    ensures |ss[i].committed| == |ss[i].writes| + 1 && ss[i].committed[0] == EMPTY
    ensures forall k :: 0 <= k < |ss[i].writes| ==>
              ss[i].committed[k + 1] == match ss[i].writes[k]
                case InitWrite(all, version) => Initialized(ss[i].committed[k], all, version).0
                case UpsertWrite(kind, key, item, stamp) => Upserted(ss[i].committed[k], kind, key, item, stamp).0
    ensures forall t :: t in ss[i].pcs && IsReader(ss[i].pcs[t]) ==> ss[i].store == Latest(ss[i])
    ensures forall r :: r in ss[i].lookups ==>
              r.at < |ss[i].committed| && r.result == Lookup(ss[i].committed[r.at].Of(r.kind), r.key)
    ensures forall r :: r in ss[i].lookups ==>
              var items := ss[i].committed[r.at].Of(r.kind);
              && (r.result.Some? <==> r.key in items && !items[r.key].Tombstone?)
              && (r.result.Some? ==> r.result.value == items[r.key])
  {
    RunKeepsInv(ss, i);
    forall t | t in ss[i].pcs && IsReader(ss[i].pcs[t]) ensures ss[i].store == Latest(ss[i]) {
      ReaderSeesLatest(ss[i], t);
    }
  }

  // ---------- reads and writes can be completed ----------

  lemma ExtendRun(ss: seq<State>, st: Step) returns (ss': seq<State>)
    requires Run(ss) && Enabled(ss[|ss| - 1], st)
    ensures Run(ss') && ss <= ss' && ss'[|ss'| - 1] == Do(ss[|ss| - 1], st)
  {
    hide Enabled;
    ss' := ss + [Do(ss[|ss| - 1], st)];
    assert Next(ss[|ss| - 1], ss'[|ss'| - 1]);
    forall i | 0 <= i < |ss'| - 1 ensures Next(ss'[i], ss'[i + 1]) {
      if i < |ss| - 1 {
        assert Next(ss[i], ss[i + 1]);
      }
    }
  }

  /** The single assignments of a write follow each other to its end. */
  lemma {:induction false} StagesRun(ss: seq<State>, t: ThreadId, w: Write, stage: nat) returns (ss': seq<State>)
    requires Run(ss) && PcOf(ss[|ss| - 1], t) == Writing(w, stage) && stage <= Stages(w)
    ensures Run(ss') && ss <= ss'
    ensures var (s, s') := (ss[|ss| - 1], ss'[|ss'| - 1]);
            && PcOf(s', t) == Idle && s'.mutex.None? && s'.readers == s.readers
            && s'.writes == s.writes + [w] && |s'.committed| == |s.committed| + 1 && s.committed <= s'.committed
    decreases Stages(w) - stage
  {
    hide Run, Assign;
    var next := ExtendRun(ss, WriteStage(t));
    if stage < Stages(w) {
      ss' := StagesRun(next, t, w, stage + 1);
    } else {
      ss' := next;
    }
  }

  /** A thread takes the free lock for a write. */
  lemma WriteStarts(ss: seq<State>, t: ThreadId, w: Write) returns (ss': seq<State>, stage: nat)
    requires Run(ss) && PcOf(ss[|ss| - 1], t).Idle? && ss[|ss| - 1].mutex.None? && ss[|ss| - 1].readers <= 0
    ensures Run(ss') && ss <= ss' && stage <= Stages(w)
    ensures var (s, s') := (ss[|ss| - 1], ss'[|ss'| - 1]);
            PcOf(s', t) == Writing(w, stage) && s'.readers == s.readers && s'.writes == s.writes && s'.committed == s.committed
  {
    var s := ss[|ss| - 1];
    stage := if ChangesNothing(s.store, w) then Stages(w) else 0;
    hide Run, ChangesNothing, Stages;
    ss' := ExtendRun(ss, Begin(t, WantWrite(w)));
    ss' := ExtendRun(ss', AcquireMutex(t));
    ss' := ExtendRun(ss', TestReaders(t));
  }

  /** With the lock free, a thread can carry a write through, and the store becomes what the write makes of it. */
  lemma WriteCompletes(ss: seq<State>, t: ThreadId, w: Write) returns (ss': seq<State>)
    requires Run(ss) && PcOf(ss[|ss| - 1], t).Idle? && ss[|ss| - 1].mutex.None? && ss[|ss| - 1].readers <= 0
    ensures Run(ss') && ss <= ss' && PcOf(ss'[|ss'| - 1], t).Idle? && ss'[|ss'| - 1].mutex.None?
    ensures ss'[|ss'| - 1].writes == ss[|ss| - 1].writes + [w]
    ensures ss[|ss| - 1].committed != [] && ss'[|ss'| - 1].committed != []
    ensures Latest(ss'[|ss'| - 1]) == match w
              case InitWrite(all, version) => Initialized(Latest(ss[|ss| - 1]), all, version).0
              case UpsertWrite(kind, key, item, stamp) => Upserted(Latest(ss[|ss| - 1]), kind, key, item, stamp).0
  {
    ReadsAreAtomic(ss, |ss| - 1);
    var writing, stage := WriteStarts(ss, t, w);
    ss' := StagesRun(writing, t, w, stage);
    hide Initialized, Upserted;
    ReadsAreAtomic(ss', |ss'| - 1);
    hide Run;
    var n := |ss[|ss| - 1].writes|;
    assert ss'[|ss'| - 1].writes[n] == w && ss'[|ss'| - 1].committed[n] == ss[|ss| - 1].committed[n];
  }

  /** With no writer at work, a thread can carry a read through, and the counter is as before. */
  lemma ReadCompletes(ss: seq<State>, t: ThreadId, kind: Category, key: string) returns (ss': seq<State>)
    requires Run(ss) && PcOf(ss[|ss| - 1], t).Idle? && ss[|ss| - 1].mutex.None?
    ensures Run(ss') && ss <= ss' && PcOf(ss'[|ss'| - 1], t).Idle? && ss'[|ss'| - 1].readers == ss[|ss| - 1].readers
    ensures var (s, s') := (ss[|ss| - 1], ss'[|ss'| - 1]);
            && |s'.lookups| == |s.lookups| + 1 && s.lookups <= s'.lookups && s'.store == s.store
            && s'.lookups[|s.lookups|] == Read(kind, key, Lookup(s.store.Of(kind), key), |s.writes|)
  {
    var s := ss[|ss| - 1];
    ReadersNotNegative(ss);
    hide Run, Lookup, Store.Of, Woken;
    ss' := ExtendRun(ss, Begin(t, WantRead(kind, key)));
    ss' := ExtendRun(ss', AcquireRead(t));
    ss' := ExtendRun(ss', ReadKind(t));
    ss' := ExtendRun(ss', ReadKey(t));
    ss' := Released(ss', t);
  }

  lemma ReadersNotNegative(ss: seq<State>)
    requires Run(ss)
    ensures ss[|ss| - 1].readers >= 0
  {
    RunKeepsInv(ss, |ss| - 1);
  }

  lemma Released(ss: seq<State>, t: ThreadId) returns (ss': seq<State>)
    requires Run(ss) && PcOf(ss[|ss| - 1], t).ReadDone? && ss[|ss| - 1].mutex.None? && ss[|ss| - 1].readers > 0
    ensures Run(ss') && ss <= ss' && PcOf(ss'[|ss'| - 1], t).Idle?
    ensures var (s, s') := (ss[|ss| - 1], ss'[|ss'| - 1]);
            s'.readers == s.readers - 1 && s'.lookups == s.lookups && s'.store == s.store
  {
    hide Run;
    ss' := ExtendRun(ss, ReleaseRead(t));
  }
}
