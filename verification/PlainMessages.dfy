/** Coherence from what the messages look like: flags that name segments without operators, and flat segments. */
module PlainMessages {
  import opened Model
  import opened Evaluator
  import opened EvaluatorFrame
  import opened DataStorage
  import opened Streaming
  import opened NoticeSoundness
  import opened Client
  import opened FlagTracking

  /** A segment whose rules name no segment, or a flag that names segments by the property alone. */
  ghost predicate PlainItem(lib: Lib, item: Item) {
    match item
    case FlagItem(f, _) =>
      forall rule, c | rule in f.rules && c in rule.conditions :: OperatorOf(c) in {InSegment, NotInSegment} ==> Absent(c.op)
    case SegmentItem(segment, _) => SegmentRefs(lib, segment) == {}
    case Tombstone(_, _) => true
  }

  ghost predicate PlainEntries(lib: Lib, es: seq<Entry>) {
    forall e :: e in es ==> PlainItem(lib, e.item)
  }

  lemma PlainContents(lib: Lib, s: Store)
    ensures (forall cat, key :: key in s.Of(cat) ==> PlainItem(lib, s.Of(cat)[key])) ==> Plain(lib, s)
  {
    hide OperatorOf, SegmentRefs;
  }

  lemma UpsertKeepsPlain(lib: Lib, s: Store, e: Entry)
    requires Plain(lib, s) && PlainItem(lib, e.item)
    ensures Plain(lib, UpsertEntry(s, e).0)
  {
    var r := UpsertEntry(s, e).0;
    UpsertContents(s, e);
    hide OperatorOf, SegmentRefs, UpsertEntry;
    forall id | id in r.Segs() ensures SegmentRefs(lib, r.Segs()[id]) == {} {
      assert id !in s.Segs() || s.Segs()[id] != r.Segs()[id] ==> r.Of(Segments)[id] == e.item;
    }
    forall key | key in r.Flags() ensures PlainItem(lib, FlagItem(r.Flags()[key], 0)) {
      assert key !in s.Flags() || s.Flags()[key] != r.Flags()[key] ==> r.Of(FeatureFlags)[key] == e.item;
    }
  }

  /** On a plain store, a plain batch without tombstones is clean for every flag if all of it is acceptable. */
  lemma {:induction false} PlainPatchIsClean(lib: Lib, s: Store, todo: seq<Entry>, batch: seq<Entry>, key: string)
    requires Plain(lib, s) && PlainEntries(lib, todo) && !HasTombstone(batch) && ApplyPatch(s, todo).1
    requires forall e :: e in todo ==> e in batch
    ensures CleanPatch(lib, s, todo, batch, key)
    decreases |todo|
  {
    if todo != [] {
      hide Plain, ScanSees, PlainItem, Seen, Concerns;
      assert todo[0] in todo;
      PlainIsSeen(lib, s, key);
      ScanSeesEntries(lib, s, batch, key);
      UpsertKeepsPlain(lib, s, todo[0]);
      PlainPatchIsClean(lib, UpsertEntry(s, todo[0]).0, todo[1..], batch, key);
    }
  }

  lemma PlainSnapshot(lib: Lib, data: Message, order: seq<Entry>, s: Store)
    requires Orders(order, data) && PlainEntries(lib, order) && s.contents == AllData(data)
    ensures Plain(lib, s)
  {
    hide PlainItem, Dictionary, SortedDistinct, Plain;
    var n :| 0 <= n <= |order| && Lists(order[..n], FeatureFlags, AllData(data)[FeatureFlags])
             && Lists(order[n..], Segments, AllData(data)[Segments]);
    assert order == order[..n] + order[n..];
    forall cat, key | key in s.Of(cat) ensures PlainItem(lib, s.Of(cat)[key]) {
      var e := Entry(cat, s.Of(cat)[key]);
      assert e in if cat == FeatureFlags then order[..n] else order[n..];
    }
    PlainContents(lib, s);
  }

  // ---------- runs ----------

  /**
   * Hypotheses on the messages and on the listener's callback: plain entities; patches without tombstones that are
   * newer throughout, or stale from their first entry on; snapshots that keep the flag and hold no tombstone.
   */
  ghost predicate PlainStep(lib: Lib, s: State, st: Step, key: string, l: nat) {
    match st
    case ReceivePatch(batch) =>
      && PlainEntries(lib, batch)
      && (|| (batch != [] && !Acceptable(s.store, batch[0]))
          || (!HasTombstone(batch) && forall e :: e in batch ==> Acceptable(s.store, e)))
    case ReceiveSnapshot(data, order, _) =>
      && PlainEntries(lib, order)
      && (Synced(s.store, data, order).1 ==>
            !HasTombstone(order) && (key in s.store.Flags() ==> key in Synced(s.store, data, order).0.Flags()))
    case FinishCallback(raised) => s.dispatcher.InCallback? && s.dispatcher.l == l ==> !raised
    case _ => true
  }

  ghost predicate PlainState(lib: Lib, s: State) {
    Plain(lib, s.store) && (s.stream.Patching? ==> PlainEntries(lib, s.stream.todo))
  }

  lemma PlainStepIsClean(lib: Lib, s: State, st: Step, key: string, l: nat)
    requires PlainState(lib, s) && Enabled(lib, s, st) && PlainStep(lib, s, st, key, l)
    ensures Clean(lib, s, st, key, l)
  {
    hide Plain, PlainItem, CleanPatch, Orders, AllData, Seen, Concerns;
    match st {
      case ReceivePatch(batch) =>
        PatchAccepted(s.store, batch);
        if ApplyPatch(s.store, batch).1 {
          if batch != [] { assert batch[0] in batch; }
          PlainPatchIsClean(lib, s.store, batch, batch, key);
        } else {
          StaleIsClean(lib, s.store, batch, batch, key);
        }
      case ReceiveSnapshot(data, order, _) => PlainSnapshotIsClean(s.store, data, order, key);
      case _ =>
    }
  }

  lemma StaleIsClean(lib: Lib, s: Store, todo: seq<Entry>, batch: seq<Entry>, key: string)
    requires todo != [] && !Acceptable(s, todo[0])
    ensures CleanPatch(lib, s, todo, batch, key)
  {
  }

  lemma PlainSnapshotIsClean(s: Store, data: Message, order: seq<Entry>, key: string)
    requires !data.isPatch && Orders(order, data)
    requires var (r, ok) := Synced(s, data, order); ok ==> !HasTombstone(order) && (key in s.Flags() ==> key in r.Flags())
    ensures CleanSnapshot(s, data, order, key)
  {
    var (r, ok) := Synced(s, data, order);
    if ok && key in r.Flags() && r != s {
      var n :| 0 <= n <= |order| && Lists(order[..n], FeatureFlags, AllData(data)[FeatureFlags])
               && Lists(order[n..], Segments, AllData(data)[Segments]);
      assert Entry(FeatureFlags, r.Of(FeatureFlags)[key]) in order[..n];
    }
  }

  lemma StepKeepsPlain(lib: Lib, s: State, st: Step, key: string, l: nat)
    requires PlainState(lib, s) && Enabled(lib, s, st) && PlainStep(lib, s, st, key, l)
    ensures PlainState(lib, Do(lib, s, st))
  {
    hide Plain, PlainItem;
    match st {
      case UpsertNext =>
        assert s.stream.todo[0] in s.stream.todo;
        UpsertKeepsPlain(lib, s.store, s.stream.todo[0]);
      case ReceiveSnapshot(data, order, keys) =>
        var s' := Do(lib, s, st);
        if s'.store != s.store { PlainSnapshot(lib, data, order, s'.store); }
      case _ => assert Do(lib, s, st).store == s.store;
    }
  }

  ghost predicate PlainNext(lib: Lib, s: State, s': State, key: string, l: nat) {
    exists st :: Enabled(lib, s, st) && PlainStep(lib, s, st, key, l) && s' == Do(lib, s, st)
  }

  ghost predicate PlainRun(lib: Lib, ss: seq<State>, key: string, l: nat) {
    |ss| > 0 && ss[0] == START && forall i :: 0 <= i < |ss| - 1 ==> PlainNext(lib, ss[i], ss[i + 1], key, l)
  }

  lemma {:induction false} PlainRunKeepsPlain(lib: Lib, ss: seq<State>, i: nat, key: string, l: nat)
    requires PlainRun(lib, ss, key, l) && i < |ss|
    ensures PlainState(lib, ss[i])
    ensures i > 0 ==> CleanNext(lib, ss[i - 1], ss[i], key, l)
  {
    if i > 0 {
      hide PlainState, Enabled, PlainStep, Clean;
      PlainRunKeepsPlain(lib, ss, i - 1, key, l);
      assert PlainNext(lib, ss[i - 1], ss[i], key, l);
      var st :| Enabled(lib, ss[i - 1], st) && PlainStep(lib, ss[i - 1], st, key, l) && ss[i] == Do(lib, ss[i - 1], st);
      PlainStepIsClean(lib, ss[i - 1], st, key, l);
      StepKeepsPlain(lib, ss[i - 1], st, key, l);
    }
  }

  lemma PlainRunIsClean(lib: Lib, ss: seq<State>, key: string, l: nat)
    requires PlainRun(lib, ss, key, l)
    ensures CleanRun(lib, ss, key, l)
  {
    hide PlainNext, CleanNext, PlainState;
    forall k | 0 <= k < |ss| - 1 ensures CleanNext(lib, ss[k], ss[k + 1], key, l) {
      PlainRunKeepsPlain(lib, ss, k + 1, key, l);
    }
  }

  /**
   * While all messages are plain and the callback does not raise, a listener that no notice for its key has passed
   * by is coherent in every reachable state, and agrees with the store whenever the pipeline is at rest.
   */
  lemma PlainRunCoherent(lib: Lib, ss: seq<State>, c: nat, i: nat, l: nat)
    requires RegisteredInTime(ss, c, i, l) && PlainRun(lib, ss, ss[c + 1].listeners[l].flagKey, l)
    ensures l in ss[i].listeners && FlagTracking.Coherent(lib, ss[i], l)
    ensures var listener := ss[i].listeners[l];
            var current := Variation(lib, ss[i].store, listener.flagKey, listener.user);
            Quiescent(ss[i]) && current.Value? ==> listener.remembered == current.value
  {
    PlainRunIsClean(lib, ss, ss[c + 1].listeners[l].flagKey, l);
    hide PlainRun, CleanRun, FlagTracking.Coherent, Quiescent, RegisteredInTime;
    CacheCoherent(lib, ss, c, i, l);
    if Quiescent(ss[i]) {
      SettledListenersAgree(lib, ss, c, i, l);
    }
  }
}
