/** Value-changed listeners: a cache of flag values fed by streaming, the broadcaster queue and its thread. */
module FlagTracking {
  import opened Common
  import opened Model
  import opened DataStorage
  import opened Client
  import opened EvaluatorFrame
  import opened Streaming
  import opened NoticeSoundness
  import EvaluatorMeaning
  import SyncHistory

  // ---------- one listener ----------

  /** One invocation of the application callback; it may raise. */
  datatype Callback = Callback(previous: Served, current: Served, raised: bool)

  /** A value-changed listener; `initial` and `callbacks` are its history. */
  datatype Listener = Listener(flagKey: string, user: User, remembered: Served, initial: Served, callbacks: seq<Callback>)

  /** The remembered value after a history of callbacks, if each was called with that value and a different one. */
  ghost function Remembering(initial: Served, callbacks: seq<Callback>): Option<Served> {
    if callbacks == [] then Some(initial) else
      var before := Remembering(initial, callbacks[..|callbacks| - 1]);
      var last := callbacks[|callbacks| - 1];
      if before == Some(last.previous) && last.current != last.previous
      then Some(if last.raised then last.previous else last.current)
      else None
  }

  /** `on_flag_change`, second half: the callback, then (unless it raised) the new remembered value. */
  function Notified(l: Listener, current: Served, raised: bool): Listener {
    l.(callbacks := l.callbacks + [Callback(l.remembered, current, raised)],
       remembered := if raised then l.remembered else current)
  }

  /** The listener object, updated in place by the dispatching thread. */
  class FlagValueChangedListener {
    const flagKey: string
    const user: User
    var previousFlagValue: Served
    ghost const initial: Served
    ghost var callbacks: seq<Callback>

    ghost predicate Valid()
      reads this
    {
      Remembering(initial, callbacks) == Some(previousFlagValue)
    }

    constructor (flagKey: string, user: User, value: Served)
      ensures Valid() && this.flagKey == flagKey && this.user == user && previousFlagValue == value && callbacks == []
    {
      this.flagKey, this.user := flagKey, user;
      previousFlagValue, initial, callbacks := value, value, [];
    }

    /** `evaluated` is what the evaluation gives at this notice, `raises` whether the callback raises. */
    method OnFlagChange(key: string, evaluated: Eval<Served>, raises: bool)
      requires Valid()
      modifies this
      ensures Valid()
      ensures key != flagKey || evaluated.Raised? || evaluated.value == old(previousFlagValue) ==>
                previousFlagValue == old(previousFlagValue) && callbacks == old(callbacks)
      ensures key == flagKey && evaluated.Value? && evaluated.value != old(previousFlagValue) ==>
                && callbacks == old(callbacks) + [Callback(old(previousFlagValue), evaluated.value, raises)]
                && previousFlagValue == if raises then old(previousFlagValue) else evaluated.value
    {
      if key == flagKey {
        var previous := previousFlagValue;
        if evaluated.Value? && previous != evaluated.value {
          callbacks := callbacks + [Callback(previous, evaluated.value, raises)];
          assert callbacks[..|callbacks| - 1] == old(callbacks);
          if !raises {
            previousFlagValue := evaluated.value;
          }
        }
      }
    }
  }

  /** The value that a callback leaves remembered. */
  function After(c: Callback): Served {
    if c.raised then c.previous else c.current
  }

  /**
   * Callbacks form a chain from the initial to the remembered value, each reporting a change from what the one
   * before it left remembered; where none raises, each new value is the next previous one.
   */
  lemma {:induction false} CallbacksChain(initial: Served, callbacks: seq<Callback>, remembered: Served)
    requires Remembering(initial, callbacks) == Some(remembered)
    ensures forall i :: 0 <= i < |callbacks| ==> callbacks[i].previous != callbacks[i].current
    ensures forall i :: 0 <= i < |callbacks| - 1 ==> After(callbacks[i]) == callbacks[i + 1].previous
    ensures callbacks == [] ==> remembered == initial
    ensures callbacks != [] ==> callbacks[0].previous == initial && After(callbacks[|callbacks| - 1]) == remembered
  {
    if callbacks != [] {
      var before, last := callbacks[..|callbacks| - 1], callbacks[|callbacks| - 1];
      CallbacksChain(initial, before, last.previous);
      assert forall i :: 0 <= i < |before| ==> callbacks[i] == before[i];
    }
  }

  // ---------- the pipeline ----------

  /** What the streaming thread is doing with a message. */
  datatype Stream =
    | Idle
    | Patching(todo: seq<Entry>, batch: seq<Entry>)
    | Announcing(keys: seq<string>)

  /** What the dispatching thread is doing: `rest` are the listeners of the notice still to be called. */
  datatype Dispatcher =
    | Waiting
    | Calling(key: string, rest: seq<nat>)
    | InCallback(key: string, current: Served, l: nat, rest: seq<nat>)

  /**
   * Listeners are named by numbers; `registered` may hold a name more than once. `missed` is a history: the
   * listeners that were not registered when the last notice for their key was taken.
   */
  datatype State = State(store: Store, stream: Stream, queue: seq<string>, dispatcher: Dispatcher,
                         listeners: map<nat, Listener>, registered: seq<nat>, missed: set<nat>)

  datatype Step =
    | ReceivePatch(batch: seq<Entry>)
    | UpsertNext
    | PatchApplied(keys: seq<string>)
    | ReceiveSnapshot(data: Message, order: seq<Entry>, keys: seq<string>)
    | AnnounceNext
    | Take
    | CallNext
    | FinishCallback(raised: bool)
    | Finish
    | Create(l: nat, flagKey: string, user: User)
    | Register(l: nat)
    | Unregister(l: nat)

  /** A duplicate-free order of the keys that are announced for a batch. */
  ghost predicate Announces(lib: Lib, s: Store, es: seq<Entry>, keys: seq<string>) {
    NoDuplicates(keys) && forall k :: k in keys <==> k in BroadcastKeys(lib, s.Flags(), es)
  }

  ghost predicate Enabled(lib: Lib, s: State, st: Step) {
    match st
    case ReceivePatch(batch) => s.stream.Idle? && Distinct(batch) && Filed(batch)
    case UpsertNext => s.stream.Patching? && s.stream.todo != []
    case PatchApplied(keys) => s.stream.Patching? && s.stream.todo == [] && Announces(lib, s.store, s.stream.batch, keys)
    case ReceiveSnapshot(data, order, keys) =>
      && s.stream.Idle? && !data.isPatch && Orders(order, data)
      && Announces(lib, Synced(s.store, data, order).0, order, keys)
    case AnnounceNext => s.stream.Announcing?
    case Take => s.dispatcher.Waiting? && s.queue != []
    case CallNext => s.dispatcher.Calling? && s.dispatcher.rest != [] && s.dispatcher.rest[0] in s.listeners
    case FinishCallback(_) => s.dispatcher.InCallback? && s.dispatcher.l in s.listeners
    case Finish => s.dispatcher.Calling? && s.dispatcher.rest == []
    case Create(l, _, _) => l !in s.listeners
    case Register(l) => l in s.listeners
    case Unregister(l) => true
  }

  /** What the listener's evaluation gives on the current store. */
  function Current(lib: Lib, s: State, l: Listener): Eval<Served> {
    Variation(lib, s.store, l.flagKey, l.user)
  }

  /** The history after a notice for the key is taken. */
  function MissedAfter(s: State, key: string): set<nat> {
    set l | l in s.listeners && if s.listeners[l].flagKey == key then l !in s.registered else l in s.missed
  }

  ghost function Do(lib: Lib, s: State, st: Step): State
    requires Enabled(lib, s, st)
  {
    match st
    case ReceivePatch(batch) => s.(stream := Patching(batch, batch))
    case UpsertNext =>
      var (store, ok) := UpsertEntry(s.store, s.stream.todo[0]);
      s.(store := store, stream := if ok then Patching(s.stream.todo[1..], s.stream.batch) else Idle)
    case PatchApplied(keys) => s.(stream := Announcing(keys))
    case ReceiveSnapshot(data, order, keys) =>
      var (store, ok) := Synced(s.store, data, order);
      s.(store := store, stream := if ok then Announcing(keys) else Idle)
    case AnnounceNext =>
      if s.stream.keys == [] then s.(stream := Idle)
      else s.(queue := s.queue + [s.stream.keys[0]], stream := Announcing(s.stream.keys[1..]))
    case Take => s.(queue := s.queue[1..], dispatcher := Calling(s.queue[0], s.registered), missed := MissedAfter(s, s.queue[0]))
    case CallNext =>
      var Calling(key, rest) := s.dispatcher;
      var l := s.listeners[rest[0]];
      var current := Current(lib, s, l);
      // an exception of the evaluation is caught by the dispatching loop
      if key != l.flagKey || current.Raised? || current.value == l.remembered then s.(dispatcher := Calling(key, rest[1..]))
      else s.(dispatcher := InCallback(key, current.value, rest[0], rest[1..]))
    case FinishCallback(raised) =>
      var InCallback(key, current, l, rest) := s.dispatcher;
      s.(listeners := s.listeners[l := Notified(s.listeners[l], current, raised)], dispatcher := Calling(key, rest))
    case Finish => s.(dispatcher := Waiting)
    case Create(l, flagKey, user) =>
      var value := Variation(lib, s.store, flagKey, user);
      // when the evaluation raises there is no listener
      if value.Raised? then s
      else s.(listeners := s.listeners[l := Listener(flagKey, user, value.value, value.value, [])])
    case Register(l) => s.(registered := s.registered + [l])
    case Unregister(l) => s.(registered := RemoveFirst(s.registered, l))
  }

  // ---------- coherence ----------

  /** The value the listener remembers, or is about to: a callback under way stores its value at its end. */
  ghost function Target(s: State, l: nat): Served
    requires l in s.listeners
  {
    if s.dispatcher.InCallback? && s.dispatcher.l == l then s.dispatcher.current else s.listeners[l].remembered
  }

  /** That value is the current one, or the evaluation currently has no value to compare with. */
  ghost predicate Fresh(lib: Lib, s: State, l: nat)
    requires l in s.listeners
  {
    var current := Current(lib, s, s.listeners[l]);
    current.Raised? || current.value == Target(s, l)
  }

  /** The streaming thread has yet to announce the key: it is listed, or will be once the patch is through. */
  ghost predicate ToBeAnnounced(lib: Lib, s: State, key: string) {
    match s.stream
    case Idle => false
    case Announcing(keys) => key in keys
    case Patching(todo, batch) =>
      ApplyPatch(s.store, todo).1 && key in BroadcastKeys(lib, ApplyPatch(s.store, todo).0.Flags(), batch)
  }

  /** The dispatching thread is at a notice for the key and has still to call the listener. */
  ghost predicate ToBeCalled(s: State, key: string, l: nat) {
    match s.dispatcher
    case Waiting => false
    case Calling(key', rest) => key == key' && l in rest
    case InCallback(key', _, _, rest) => key == key' && l in rest
  }

  ghost predicate Coherent(lib: Lib, s: State, l: nat)
    requires l in s.listeners
  {
    var key := s.listeners[l].flagKey;
    Fresh(lib, s, l) || key in s.queue || ToBeCalled(s, key, l) || ToBeAnnounced(lib, s, key)
  }

  /**
   * Of the entries still to be upserted, each one that is going to be stored and concerns the flag belongs to a
   * patch that will be accepted, lies before its first tombstone and, being a segment, is referenced directly.
   */
  ghost predicate CleanPatch(lib: Lib, s: Store, todo: seq<Entry>, batch: seq<Entry>, key: string)
    decreases |todo|
  {
    todo != [] && Acceptable(s, todo[0]) ==>
      && (Concerns(lib, s, todo[0], key) ==> ApplyPatch(s, todo).1)
      && Seen(lib, s, todo[0], batch, key)
      && CleanPatch(lib, UpsertEntry(s, todo[0]).0, todo[1..], batch, key)
  }

  /** An accepted snapshot neither drops the flag nor hides it behind a tombstone. */
  ghost predicate CleanSnapshot(s: Store, data: Message, order: seq<Entry>, key: string) {
    var (r, ok) := Synced(s, data, order);
    ok && (key in s.Flags() || key in r.Flags()) ==> key in r.Flags() && Entry(FeatureFlags, r.Of(FeatureFlags)[key]) in LivePart(order)
  }

  /** The hypotheses under which a listener `l` of the flag `key` is a coherent cache; other flags and listeners do not matter. */
  ghost predicate Clean(lib: Lib, s: State, st: Step, key: string, l: nat) {
    match st
    case ReceivePatch(batch) => CleanPatch(lib, s.store, batch, batch, key)
    case ReceiveSnapshot(data, order, _) => CleanSnapshot(s.store, data, order, key)
    case FinishCallback(raised) => s.dispatcher.InCallback? && s.dispatcher.l == l ==> !raised
    case _ => true
  }

  /** What remains of a patch under way. */
  ghost predicate CleanStream(lib: Lib, s: State, key: string) {
    s.stream.Patching? ==>
      var Patching(todo, batch) := s.stream;
      Distinct(todo) && Filed(todo) && CleanPatch(lib, s.store, todo, batch, key)
  }

  /** Whoever is registered, called or missing was created. */
  ghost predicate Known(s: State) {
    && (forall l :: l in s.registered || l in s.missed ==> l in s.listeners)
    && (s.dispatcher.Calling? ==> forall l :: l in s.dispatcher.rest ==> l in s.listeners)
    && (s.dispatcher.InCallback? ==> s.dispatcher.l in s.listeners && forall l :: l in s.dispatcher.rest ==> l in s.listeners)
  }

  /** A listener of the flag that has not missed its last notice is coherent. */
  ghost predicate CoherentUnlessMissed(lib: Lib, s: State, key: string, l: nat) {
    l in s.listeners && s.listeners[l].flagKey == key && l !in s.missed ==> Coherent(lib, s, l)
  }

  ghost predicate Inv(lib: Lib, s: State, key: string, l: nat) {
    Consistent(s.store) && CleanStream(lib, s, key) && Known(s) && CoherentUnlessMissed(lib, s, key, l)
  }

  // ---------- preservation ----------

  /** The streaming side of a step: a changed value is announced, and the announcement is not forgotten. */
  ghost predicate Carries(lib: Lib, s: State, s': State, key: string) {
    && (ToBeAnnounced(lib, s, key) ==> ToBeAnnounced(lib, s', key))
    && (forall user :: Variation(lib, s.store, key, user) != Variation(lib, s'.store, key, user) ==> ToBeAnnounced(lib, s', key))
  }

  /** A step of the streaming thread that carries its changes keeps every listener of the flag coherent. */
  lemma CarriedCoherent(lib: Lib, s: State, s': State, l: nat)
    requires l in s.listeners && Carries(lib, s, s', s.listeners[l].flagKey)
    requires s' == s.(store := s'.store, stream := s'.stream)
    requires Coherent(lib, s, l)
    ensures Coherent(lib, s', l)
  {
    hide ToBeAnnounced, Variation;
  }

  /** In a clean patch that is accepted the flag itself, if it is still to come, lies before the first tombstone. */
  lemma {:induction false} OwnEntrySeen(lib: Lib, s: Store, todo: seq<Entry>, batch: seq<Entry>, key: string)
    requires CleanPatch(lib, s, todo, batch, key) && ApplyPatch(s, todo).1
    ensures forall e :: e in todo && e.cat == FeatureFlags && e.item.Id() == key ==> e in LivePart(batch)
    decreases |todo|
  {
    if todo != [] {
      hide LivePart, Reaches, RefersDirectly;
      OwnEntrySeen(lib, UpsertEntry(s, todo[0]).0, todo[1..], batch, key);
      assert forall e :: e in todo <==> e == todo[0] || e in todo[1..];
    }
  }

  /** The value changed by one upsert of a clean patch belongs to a patch that is accepted and will announce the flag. */
  lemma UpsertCarries(lib: Lib, s: Store, todo: seq<Entry>, batch: seq<Entry>, key: string, user: User)
    requires Consistent(s) && Distinct(todo) && Filed(todo) && CleanPatch(lib, s, todo, batch, key)
    requires todo != [] && Acceptable(s, todo[0])
    requires Variation(lib, s, key, user) != Variation(lib, UpsertEntry(s, todo[0]).0, key, user)
    ensures ApplyPatch(s, todo).1 && key in BroadcastKeys(lib, ApplyPatch(s, todo).0.Flags(), batch)
  {
    var e := todo[0];
    UpsertConcerns(lib, s, e, key, user) by {
      assert e in todo;
    }
    assert ApplyPatch(s, todo).1;
    var r := ApplyPatch(s, todo).0;
    PatchContents(s, todo);
    OwnEntrySeen(lib, s, todo, batch, key);
    BroadcastKeysExact(lib, r.Flags(), batch);
    hide CleanPatch, ApplyPatch, BroadcastKeys, Variation, UpsertEntry, Reaches, RefersDirectly, Overridden, LivePart, Acceptable;
    if Patches(todo, FeatureFlags, key) {
      var x :| x in todo && x.cat == FeatureFlags && x.item.Id() == key;
      assert x in LivePart(batch) && x.item.FlagItem?;
    } else {
      assert e in todo && e.cat == Segments && e in LivePart(batch) && e.item.SegmentItem?;
      UnpatchedFlag(s, todo, r, key);
    }
  }

  /** One upsert changes the value of a flag only by an entry that concerns it. */
  lemma UpsertConcerns(lib: Lib, s: Store, e: Entry, key: string, user: User)
    requires Consistent(s) && Acceptable(s, e)
    requires Variation(lib, s, key, user) != Variation(lib, UpsertEntry(s, e).0, key, user)
    ensures Concerns(lib, s, e, key)
  {
    var one := [e];
    assert one[1..] == [];
    assert ApplyPatch(s, one) == (UpsertEntry(s, e).0, true);
    ChangeIsPatched(lib, s, one, key, user);
    hide ApplyPatch, Variation, UpsertEntry, Reaches;
    assert forall x :: x in one ==> x == e;
  }

  lemma UpsertStepCarries(lib: Lib, s: State, key: string)
    requires Consistent(s.store) && CleanStream(lib, s, key) && Enabled(lib, s, UpsertNext)
    ensures Carries(lib, s, Do(lib, s, UpsertNext), key)
    ensures CleanStream(lib, Do(lib, s, UpsertNext), key)
  {
    var s' := Do(lib, s, UpsertNext);
    var Patching(todo, batch) := s.stream;
    if Acceptable(s.store, todo[0]) {
      assert ApplyPatch(s.store, todo) == ApplyPatch(s'.store, todo[1..]);
      hide Variation, BroadcastKeys, Reaches, RefersDirectly, LivePart;
      forall user | Variation(lib, s.store, key, user) != Variation(lib, s'.store, key, user)
        ensures ToBeAnnounced(lib, s', key)
      {
        UpsertCarries(lib, s.store, todo, batch, key, user);
      }
    }
  }

  lemma SnapshotStepCarries(lib: Lib, s: State, data: Message, order: seq<Entry>, keys: seq<string>, key: string)
    requires Enabled(lib, s, ReceiveSnapshot(data, order, keys)) && CleanSnapshot(s.store, data, order, key)
    ensures Carries(lib, s, Do(lib, s, ReceiveSnapshot(data, order, keys)), key)
  {
    hide BroadcastKeys, LivePart, Orders, AllData, VersionOf;
    var s', r := Do(lib, s, ReceiveSnapshot(data, order, keys)), Synced(s.store, data, order).0;
    if s'.store != s.store {
      assert r == Store(AllData(data), VersionOf(data), true) && s'.stream == Announcing(keys);
      SnapshotAnnounces(lib, data, order, r, key);
      assert key !in s.store.Flags() && key !in r.Flags() ==> forall user :: Variation(lib, s.store, key, user) == Variation(lib, r, key, user);
    }
    hide Variation, Synced;
  }

  /** The remaining steps of the streaming thread leave the store alone. */
  lemma OtherStreamStepCarries(lib: Lib, s: State, st: Step, key: string)
    requires Enabled(lib, s, st) && (st.ReceivePatch? || st.PatchApplied?)
    ensures Carries(lib, s, Do(lib, s, st), key)
  {
    hide Variation, BroadcastKeys;
  }

  lemma StreamStepCoherent(lib: Lib, s: State, st: Step, key: string, l: nat)
    requires Inv(lib, s, key, l) && Enabled(lib, s, st) && Clean(lib, s, st, key, l)
    requires st.ReceivePatch? || st.UpsertNext? || st.PatchApplied? || st.ReceiveSnapshot?
    ensures CoherentUnlessMissed(lib, Do(lib, s, st), key, l)
  {
    match st {
      case UpsertNext => UpsertStepCarries(lib, s, key);
      case ReceiveSnapshot(data, order, keys) => SnapshotStepCarries(lib, s, data, order, keys, key);
      case _ => OtherStreamStepCarries(lib, s, st, key);
    }
    hide Carries, Clean, Coherent, CleanStream, Known;
    if l in s.listeners && s.listeners[l].flagKey == key && l !in s.missed {
      CarriedCoherent(lib, s, Do(lib, s, st), l);
    }
  }

  /** Announcing, taking, calling and finishing callbacks: a taken notice either calls the listener or is missed by it. */
  lemma DispatchStepCoherent(lib: Lib, s: State, st: Step, key: string, l: nat)
    requires Inv(lib, s, key, l) && Enabled(lib, s, st) && Clean(lib, s, st, key, l)
    requires st.AnnounceNext? || st.Take? || st.CallNext? || st.FinishCallback? || st.Finish?
    ensures CoherentUnlessMissed(lib, Do(lib, s, st), key, l)
  {
    hide Variation, BroadcastKeys, ApplyPatch, Consistent, CleanStream;
    match st {
      case AnnounceNext =>
        if s.stream.keys != [] { assert s.stream.keys == [s.stream.keys[0]] + s.stream.keys[1..]; }
      case Take => assert s.queue == [s.queue[0]] + s.queue[1..];
      case CallNext => assert s.dispatcher.rest == [s.dispatcher.rest[0]] + s.dispatcher.rest[1..];
      case _ =>
    }
  }

  /** A new listener starts with the current value; registering and unregistering change no value and no notice. */
  lemma RegistryStepCoherent(lib: Lib, s: State, st: Step, key: string, l: nat)
    requires Inv(lib, s, key, l) && Enabled(lib, s, st) && (st.Create? || st.Register? || st.Unregister?)
    ensures CoherentUnlessMissed(lib, Do(lib, s, st), key, l)
  {
    hide Variation, BroadcastKeys, ApplyPatch, Consistent, CleanStream;
  }

  lemma StepConsistent(lib: Lib, s: State, st: Step)
    requires Consistent(s.store) && Enabled(lib, s, st)
    ensures Consistent(Do(lib, s, st).store)
  {
    match st {
      case UpsertNext => UpsertContents(s.store, s.stream.todo[0]);
      case ReceiveSnapshot(data, order, keys) =>
        var s' := Do(lib, s, st);
        if s'.store != s.store {
          SyncHistory.SnapshotVersion(data, s'.store);
        }
      case _ =>
    }
  }

  lemma StepKnown(lib: Lib, s: State, st: Step)
    requires Known(s) && Enabled(lib, s, st)
    ensures Known(Do(lib, s, st))
  {
    hide Variation, BroadcastKeys, Synced, UpsertEntry;
    if st.Unregister? { RemoveFirstSubset(s.registered, st.l); }
  }

  lemma StepCleanStream(lib: Lib, s: State, st: Step, key: string, l: nat)
    requires Consistent(s.store) && CleanStream(lib, s, key) && Enabled(lib, s, st) && Clean(lib, s, st, key, l)
    ensures CleanStream(lib, Do(lib, s, st), key)
  {
    if st.UpsertNext? {
      UpsertStepCarries(lib, s, key);
    } else {
      hide CleanPatch, Variation, Upserted;
    }
  }

  lemma StepKeepsInv(lib: Lib, s: State, st: Step, key: string, l: nat)
    requires Inv(lib, s, key, l) && Enabled(lib, s, st) && Clean(lib, s, st, key, l)
    ensures Inv(lib, Do(lib, s, st), key, l)
  {
    StepConsistent(lib, s, st);
    StepCleanStream(lib, s, st, key, l);
    StepKnown(lib, s, st);
    if st.ReceivePatch? || st.UpsertNext? || st.PatchApplied? || st.ReceiveSnapshot? {
      StreamStepCoherent(lib, s, st, key, l);
    } else if st.Create? || st.Register? || st.Unregister? {
      RegistryStepCoherent(lib, s, st, key, l);
    } else {
      DispatchStepCoherent(lib, s, st, key, l);
    }
    hide Consistent, CleanStream, Known, CoherentUnlessMissed, Clean, Enabled, Do;
  }

  // ---------- runs ----------

  const START := State(EMPTY, Idle, [], Waiting, map[], [], {})

  ghost predicate Next(lib: Lib, s: State, s': State) {
    exists st :: Enabled(lib, s, st) && s' == Do(lib, s, st)
  }

  ghost predicate CleanNext(lib: Lib, s: State, s': State, key: string, l: nat) {
    exists st :: Enabled(lib, s, st) && Clean(lib, s, st, key, l) && s' == Do(lib, s, st)
  }

  ghost predicate Run(lib: Lib, ss: seq<State>) {
    |ss| > 0 && ss[0] == START && forall i :: 0 <= i < |ss| - 1 ==> Next(lib, ss[i], ss[i + 1])
  }

  ghost predicate CleanRun(lib: Lib, ss: seq<State>, key: string, l: nat) {
    |ss| > 0 && ss[0] == START && forall i :: 0 <= i < |ss| - 1 ==> CleanNext(lib, ss[i], ss[i + 1], key, l)
  }

  lemma CleanRunIsRun(lib: Lib, ss: seq<State>, key: string, l: nat)
    requires CleanRun(lib, ss, key, l)
    ensures Run(lib, ss)
  {
    hide Enabled, Clean;
    forall i | 0 <= i < |ss| - 1 ensures Next(lib, ss[i], ss[i + 1]) {
      assert CleanNext(lib, ss[i], ss[i + 1], key, l);
    }
  }

  lemma {:induction false} CleanRunKeepsInv(lib: Lib, ss: seq<State>, i: nat, key: string, l: nat)
    requires CleanRun(lib, ss, key, l) && i < |ss|
    ensures Inv(lib, ss[i], key, l)
  {
    if i > 0 {
      hide Inv, Clean, Enabled;
      CleanRunKeepsInv(lib, ss, i - 1, key, l);
      assert CleanNext(lib, ss[i - 1], ss[i], key, l);
      var st :| Enabled(lib, ss[i - 1], st) && Clean(lib, ss[i - 1], st, key, l) && ss[i] == Do(lib, ss[i - 1], st);
      StepKeepsInv(lib, ss[i - 1], st, key, l);
    }
  }

  /** The dispatching thread takes a notice for the key. */
  ghost predicate Takes(s: State, s': State, key: string) {
    s.dispatcher.Waiting? && s'.dispatcher.Calling? && s.queue != [] && s.queue[0] == key
  }

  lemma StepMissed(lib: Lib, s: State, s': State, l: nat)
    requires Known(s) && Next(lib, s, s') && l in s.listeners && l !in s.missed
    requires Takes(s, s', s.listeners[l].flagKey) ==> l in s.registered
    ensures l in s'.listeners && s'.listeners[l].flagKey == s.listeners[l].flagKey && l !in s'.missed
  {
    hide Variation, BroadcastKeys, Synced, UpsertEntry;
    var st :| Enabled(lib, s, st) && s' == Do(lib, s, st);
  }

  lemma {:induction false} RunKnown(lib: Lib, ss: seq<State>, i: nat)
    requires Run(lib, ss) && i < |ss|
    ensures Known(ss[i])
  {
    if i > 0 {
      hide Known, Enabled;
      RunKnown(lib, ss, i - 1);
      assert Next(lib, ss[i - 1], ss[i]);
      var st :| Enabled(lib, ss[i - 1], st) && ss[i] == Do(lib, ss[i - 1], st);
      StepKnown(lib, ss[i - 1], st);
    }
  }

  /** The listener is created at step `c`, and up to `i` no notice for its key is taken while it is not registered. */
  ghost predicate RegisteredInTime(ss: seq<State>, c: nat, i: nat, l: nat) {
    && c < i < |ss| && l !in ss[c].listeners && l in ss[c + 1].listeners
    && forall n :: c < n < i && Takes(ss[n], ss[n + 1], ss[c + 1].listeners[l].flagKey) ==> l in ss[n].registered
  }

  lemma {:induction false} NothingMissed(lib: Lib, ss: seq<State>, c: nat, i: nat, l: nat)
    requires Run(lib, ss) && RegisteredInTime(ss, c, i, l)
    ensures l in ss[i].listeners && ss[i].listeners[l].flagKey == ss[c + 1].listeners[l].flagKey && l !in ss[i].missed
    decreases i
  {
    hide Known, Enabled, Takes;
    RunKnown(lib, ss, i - 1);
    assert Next(lib, ss[i - 1], ss[i]);
    if i > c + 1 {
      NothingMissed(lib, ss, c, i - 1, l);
      StepMissed(lib, ss[i - 1], ss[i], l);
    } else {
      CreatedUnmissed(lib, ss[c], ss[i], l);
    }
  }

  lemma CreatedUnmissed(lib: Lib, s: State, s': State, l: nat)
    requires Known(s) && Next(lib, s, s') && l !in s.listeners
    ensures l !in s'.missed
  {
    hide Variation, BroadcastKeys, Synced, UpsertEntry;
    var st :| Enabled(lib, s, st) && s' == Do(lib, s, st);
  }

  /**
   * Cache coherence: in every reachable state, for every listener that no notice for its key has passed by, the
   * remembered value is the value of the flag on the current store, or the change is still on its way: about to be
   * announced, announced in the queue, or at the dispatching thread with the listener still to be called.
   */
  lemma CacheCoherent(lib: Lib, ss: seq<State>, c: nat, i: nat, l: nat)
    requires RegisteredInTime(ss, c, i, l) && CleanRun(lib, ss, ss[c + 1].listeners[l].flagKey, l)
    ensures l in ss[i].listeners && Coherent(lib, ss[i], l)
  {
    var key := ss[c + 1].listeners[l].flagKey;
    CleanRunIsRun(lib, ss, key, l);
    NothingMissed(lib, ss, c, i, l);
    CleanRunKeepsInv(lib, ss, i, key, l);
    hide Coherent, Consistent, CleanStream, Known, RegisteredInTime, CleanRun, Run;
  }

  ghost predicate Quiescent(s: State) {
    s.stream.Idle? && s.queue == [] && s.dispatcher.Waiting?
  }

  /** Once everything has settled, such a listener remembers what evaluating its flag gives. */
  lemma SettledListenersAgree(lib: Lib, ss: seq<State>, c: nat, i: nat, l: nat)
    requires RegisteredInTime(ss, c, i, l) && CleanRun(lib, ss, ss[c + 1].listeners[l].flagKey, l) && Quiescent(ss[i])
    ensures l in ss[i].listeners
    ensures var listener := ss[i].listeners[l];
            var current := Variation(lib, ss[i].store, listener.flagKey, listener.user);
            current.Value? ==> listener.remembered == current.value
  {
    CacheCoherent(lib, ss, c, i, l);
    hide RegisteredInTime, CleanRun, Variation;
  }

  /** A listener that has missed a notice is coherent again as soon as one for its key is taken while it is registered. */
  lemma NextNoticeRepairs(lib: Lib, s: State, s': State, l: nat)
    requires Known(s) && Next(lib, s, s') && l in s.registered && Takes(s, s', s.listeners[l].flagKey)
    ensures l in s'.listeners && l !in s'.missed && Coherent(lib, s', l)
  {
    hide Variation, BroadcastKeys, Synced, UpsertEntry, ApplyPatch;
    var st :| Enabled(lib, s, st) && s' == Do(lib, s, st);
    assert st.Take?;
  }

  /** Unregistering takes away one registration. */
  lemma Unregisters(lib: Lib, s: State, l: nat)
    ensures Enabled(lib, s, Unregister(l))
    ensures multiset(Do(lib, s, Unregister(l)).registered) == multiset(s.registered) - multiset{l}
  {
    RemoveFirstCounts(s.registered, l);
    hide RemoveFirst;
  }

  /** Who is not registered when a notice is taken is not called for it. */
  lemma UnregisteredUncalled(lib: Lib, s: State, l: nat)
    requires s.dispatcher.Waiting? && s.queue != [] && l !in s.registered
    ensures !ToBeCalled(Do(lib, s, Take), s.queue[0], l)
  {
    hide MissedAfter;
  }

  // ---------- what callbacks report ----------

  /** What every run keeps, clean or not: callbacks report real changes, each from the value remembered before. */
  ghost predicate Remembered(s: State) {
    && (forall l :: l in s.listeners ==> Remembering(s.listeners[l].initial, s.listeners[l].callbacks) == Some(s.listeners[l].remembered))
    && (s.dispatcher.InCallback? && s.dispatcher.l in s.listeners ==> s.dispatcher.current != s.listeners[s.dispatcher.l].remembered)
    && (s.dispatcher.InCallback? ==> s.dispatcher.l in s.listeners)
  }

  lemma StepRemembers(lib: Lib, s: State, st: Step)
    requires Remembered(s) && Enabled(lib, s, st)
    ensures Remembered(Do(lib, s, st))
  {
    hide Variation, Synced, UpsertEntry;
    if st.FinishCallback? {
      var l := s.listeners[s.dispatcher.l];
      var l' := Notified(l, s.dispatcher.current, st.raised);
      assert l'.callbacks[..|l'.callbacks| - 1] == l.callbacks;
    }
  }

  lemma {:induction false} CallbacksReportChanges(lib: Lib, ss: seq<State>, i: nat)
    requires Run(lib, ss) && i < |ss|
    ensures Remembered(ss[i])
  {
    if i > 0 {
      CallbacksReportChanges(lib, ss, i - 1);
      assert Next(lib, ss[i - 1], ss[i]);
      hide Remembered, Enabled;
      var st :| Enabled(lib, ss[i - 1], st) && ss[i] == Do(lib, ss[i - 1], st);
      StepRemembers(lib, ss[i - 1], st);
    }
  }

  ghost predicate NoneRaised(s: State, l: nat) {
    l in s.listeners ==> forall c :: c in s.listeners[l].callbacks ==> !c.raised
  }

  lemma StepNoneRaised(lib: Lib, s: State, st: Step, key: string, l: nat)
    requires NoneRaised(s, l) && Enabled(lib, s, st) && Clean(lib, s, st, key, l)
    ensures NoneRaised(Do(lib, s, st), l)
  {
    hide Variation, Synced, UpsertEntry, BroadcastKeys, CleanPatch, CleanSnapshot;
  }

  lemma {:induction false} RunNoneRaised(lib: Lib, ss: seq<State>, i: nat, key: string, l: nat)
    requires CleanRun(lib, ss, key, l) && i < |ss|
    ensures NoneRaised(ss[i], l)
  {
    if i > 0 {
      hide NoneRaised, Enabled, Clean;
      RunNoneRaised(lib, ss, i - 1, key, l);
      assert CleanNext(lib, ss[i - 1], ss[i], key, l);
      var st :| Enabled(lib, ss[i - 1], st) && Clean(lib, ss[i - 1], st, key, l) && ss[i] == Do(lib, ss[i - 1], st);
      StepNoneRaised(lib, ss[i - 1], st, key, l);
    }
  }

  /** In every reachable state of a clean run the callbacks of the listener chain its values, each new value the next previous one. */
  lemma CallbacksChainInRuns(lib: Lib, ss: seq<State>, i: nat, key: string, l: nat)
    requires CleanRun(lib, ss, key, l) && i < |ss| && l in ss[i].listeners
    ensures var (k, cs) := (ss[i].listeners[l], ss[i].listeners[l].callbacks);
            && (forall j :: 0 <= j < |cs| ==> cs[j].previous != cs[j].current)
            && (forall j :: 0 <= j < |cs| - 1 ==> cs[j].current == cs[j + 1].previous)
            && (if cs == [] then k.remembered == k.initial else cs[0].previous == k.initial && cs[|cs| - 1].current == k.remembered)
  {
    CleanRunIsRun(lib, ss, key, l);
    CallbacksReportChanges(lib, ss, i);
    RunNoneRaised(lib, ss, i, key, l);
    var k := ss[i].listeners[l];
    CallbacksChain(k.initial, k.callbacks, k.remembered);
    hide CleanRun, Run;
    assert forall j :: 0 <= j < |k.callbacks| ==> k.callbacks[j] in k.callbacks;
  }

  // ---------- a whole message is a sequence of steps ----------

  lemma ExtendRun(lib: Lib, ss: seq<State>, st: Step) returns (ss': seq<State>)
    requires Run(lib, ss) && Enabled(lib, ss[|ss| - 1], st)
    ensures Run(lib, ss') && ss <= ss' && ss'[|ss'| - 1] == Do(lib, ss[|ss| - 1], st)
  {
    hide Enabled;
    ss' := ss + [Do(lib, ss[|ss| - 1], st)];
    assert Next(lib, ss[|ss| - 1], ss'[|ss'| - 1]);
    forall i | 0 <= i < |ss'| - 1 ensures Next(lib, ss'[i], ss'[i + 1]) {
      if i < |ss| - 1 {
        assert Next(lib, ss[i], ss[i + 1]);
      }
    }
  }

  lemma Longer(a: seq<State>, b: seq<State>, c: seq<State>)
    requires a <= b && b <= c
    ensures a <= c
  {
  }

  /** A patch under way runs to its end, or to its refusal. */
  lemma {:induction false} PatchRuns(lib: Lib, ss: seq<State>, todo: seq<Entry>, batch: seq<Entry>, keys: seq<string>) returns (ss': seq<State>)
    requires Run(lib, ss) && ss[|ss| - 1].stream == Patching(todo, batch)
    requires var (r, ok) := ApplyPatch(ss[|ss| - 1].store, todo); ok ==> Announces(lib, r, batch, keys)
    ensures Run(lib, ss') && ss <= ss'
    ensures var (r, ok) := ApplyPatch(ss[|ss| - 1].store, todo);
            ss'[|ss'| - 1] == ss[|ss| - 1].(store := r, stream := if ok then Announcing(keys) else Idle)
    decreases |todo|
  {
    var s := ss[|ss| - 1];
    hide Run, Announces, UpsertEntry;
    if todo == [] {
      ss' := ExtendRun(lib, ss, PatchApplied(keys));
    } else {
      ss' := ExtendRun(lib, ss, UpsertNext);
      if UpsertEntry(s.store, todo[0]).1 {
        ss' := PatchRuns(lib, ss', todo[1..], batch, keys);
      }
    }
  }

  /** The announced keys enter the queue one by one, in their order. */
  lemma {:induction false} KeysRun(lib: Lib, ss: seq<State>) returns (ss': seq<State>)
    requires Run(lib, ss) && ss[|ss| - 1].stream.Announcing?
    ensures Run(lib, ss') && ss <= ss'
    ensures var s := ss[|ss| - 1]; ss'[|ss'| - 1] == s.(queue := s.queue + s.stream.keys, stream := Idle)
    decreases |ss[|ss| - 1].stream.keys|
  {
    var s := ss[|ss| - 1];
    hide Run;
    ss' := ExtendRun(lib, ss, AnnounceNext);
    if s.stream.keys != [] {
      ss' := KeysRun(lib, ss');
      assert s.queue + [s.stream.keys[0]] + s.stream.keys[1..] == s.queue + s.stream.keys;
    } else {
      assert s.queue + [] == s.queue;
    }
  }

  /** The announced keys are what the contract of processing a message says, given what was applied. */
  ghost predicate AnnouncedFor(lib: Lib, applied: (Store, bool), order: seq<Entry>, announced: seq<string>) {
    if applied.1 then Announces(lib, applied.0, order, announced) else announced == []
  }

  /** The store of the message, and its keys behind the queue. */
  function AfterMessage(s: State, r: Store, announced: seq<string>): State {
    s.(store := r, queue := s.queue + announced)
  }

  lemma PatchIsSteps(lib: Lib, ss: seq<State>, order: seq<Entry>, announced: seq<string>) returns (ss': seq<State>)
    requires Run(lib, ss) && ss[|ss| - 1].stream.Idle? && Distinct(order) && Filed(order)
    requires AnnouncedFor(lib, ApplyPatch(ss[|ss| - 1].store, order), order, announced)
    ensures Run(lib, ss') && ss <= ss'
    ensures var s := ss[|ss| - 1];
            ss'[|ss'| - 1] == AfterMessage(s, ApplyPatch(s.store, order).0, announced)
  {
    var s := ss[|ss| - 1];
    assert s.queue + [] == s.queue;
    var (r, ok) := ApplyPatch(s.store, order);
    hide Run, Distinct, Filed, Announces, ApplyPatch;
    var received := ExtendRun(lib, ss, ReceivePatch(order));
    assert received[|received| - 1] == s.(stream := Patching(order, order));
    hide Do, Enabled;
    var applied := PatchRuns(lib, received, order, order, announced);
    Longer(ss, received, applied);
    ss' := applied;
    if ok {
      ss' := KeysRun(lib, applied);
      Longer(ss, applied, ss');
    }
  }

  lemma ReceivingSnapshot(lib: Lib, s: State, data: Message, order: seq<Entry>, keys: seq<string>)
    requires s.stream.Idle? && !data.isPatch && Orders(order, data) && Announces(lib, Synced(s.store, data, order).0, order, keys)
    ensures Enabled(lib, s, ReceiveSnapshot(data, order, keys))
    ensures var (r, ok) := Synced(s.store, data, order);
            Do(lib, s, ReceiveSnapshot(data, order, keys)) == s.(store := r, stream := if ok then Announcing(keys) else Idle)
  {
    hide Orders, Announces, Synced;
  }

  lemma SnapshotReceived(lib: Lib, ss: seq<State>, data: Message, order: seq<Entry>, keys: seq<string>) returns (ss': seq<State>)
    requires Run(lib, ss) && ss[|ss| - 1].stream.Idle? && !data.isPatch && Orders(order, data)
    requires Announces(lib, Synced(ss[|ss| - 1].store, data, order).0, order, keys)
    ensures Run(lib, ss') && ss <= ss'
    ensures var s := ss[|ss| - 1];
            var (r, ok) := Synced(s.store, data, order);
            ss'[|ss'| - 1] == s.(store := r, stream := if ok then Announcing(keys) else Idle)
  {
    hide Orders, Synced, Announces, Do, Enabled;
    ReceivingSnapshot(lib, ss[|ss| - 1], data, order, keys);
    hide Run;
    ss' := ExtendRun(lib, ss, ReceiveSnapshot(data, order, keys));
  }

  lemma SnapshotApplied(lib: Lib, ss: seq<State>, data: Message, order: seq<Entry>, announced: seq<string>) returns (ss': seq<State>)
    requires Run(lib, ss) && ss[|ss| - 1].stream.Idle? && !data.isPatch && Orders(order, data)
    requires var (r, ok) := Synced(ss[|ss| - 1].store, data, order); ok && Announces(lib, r, order, announced)
    ensures Run(lib, ss') && ss <= ss'
    ensures var s := ss[|ss| - 1];
            ss'[|ss'| - 1] == AfterMessage(s, Synced(s.store, data, order).0, announced)
  {
    hide Run, Orders, Synced, Announces;
    var received := SnapshotReceived(lib, ss, data, order, announced);
    ss' := KeysRun(lib, received);
    Longer(ss, received, ss');
  }

  lemma SnapshotRefused(lib: Lib, ss: seq<State>, data: Message, order: seq<Entry>) returns (ss': seq<State>)
    requires Run(lib, ss) && ss[|ss| - 1].stream.Idle? && !data.isPatch && Orders(order, data)
    requires !Synced(ss[|ss| - 1].store, data, order).1
    ensures Run(lib, ss') && ss <= ss'
    ensures var s := ss[|ss| - 1]; ss'[|ss'| - 1] == AfterMessage(s, Synced(s.store, data, order).0, [])
  {
    assert ss[|ss| - 1].queue + [] == ss[|ss| - 1].queue;
    var r := Synced(ss[|ss| - 1].store, data, order).0;
    hide Run, Orders, Synced, BroadcastKeys;
    var keys := Listed(BroadcastKeys(lib, r.Flags(), order));
    assert Announces(lib, r, order, keys);
    hide Announces;
    ss' := SnapshotReceived(lib, ss, data, order, keys);
  }

  /**
   * What processing a whole message does, by its contract, is what a sequence of the steps above does: the store of
   * the message, and exactly its announced keys behind the queue, in the order of their announcement.
   */
  lemma MessageIsSteps(lib: Lib, ss: seq<State>, data: Message, order: seq<Entry>, announced: seq<string>) returns (ss': seq<State>)
    requires Run(lib, ss) && ss[|ss| - 1].stream.Idle? && Orders(order, data)
    requires AnnouncedFor(lib, Synced(ss[|ss| - 1].store, data, order), order, announced)
    ensures Run(lib, ss') && ss <= ss'
    ensures var s := ss[|ss| - 1];
            ss'[|ss'| - 1] == AfterMessage(s, Synced(s.store, data, order).0, announced)
  {
    var s := ss[|ss| - 1];
    hide Run, Orders, ApplyPatch, Initialized, Announces, Distinct, Filed, AfterMessage;
    if data.isPatch {
      OrderedIsDistinct(order, data);
      OrderedIsFiled(order, data);
      assert Synced(s.store, data, order) == ApplyPatch(s.store, order);
      hide Synced, AnnouncedFor;
      ss' := PatchIsSteps(lib, ss, order, announced);
    } else {
      hide Synced;
      if Synced(s.store, data, order).1 {
        ss' := SnapshotApplied(lib, ss, data, order, announced);
      } else {
        ss' := SnapshotRefused(lib, ss, data, order);
      }
    }
  }

  lemma {:induction false} Listed(keys: set<string>) returns (ks: seq<string>)
    ensures NoDuplicates(ks) && forall k :: k in ks <==> k in keys
    decreases |keys|
  {
    if keys == {} {
      return [];
    }
    var key :| key in keys;
    var rest := Listed(keys - {key});
    ks := [key] + rest;
  }

  // ---------- where coherence is lost ----------

  /**
   * A callback that raises while the value it reports is still the current one leaves its listener coherent
   * exactly when another notice for the flag is on its way to it.
   */
  lemma RaisedCallback(lib: Lib, s: State)
    requires Remembered(s) && s.dispatcher.InCallback?
    requires Current(lib, s, s.listeners[s.dispatcher.l]) == Value(s.dispatcher.current)
    ensures Remembered(Do(lib, s, FinishCallback(true)))
    ensures var l := s.dispatcher.l;
            var key := s.listeners[l].flagKey;
            Coherent(lib, Do(lib, s, FinishCallback(true)), l) <==>
              key in s.queue || (s.dispatcher.key == key && l in s.dispatcher.rest) || ToBeAnnounced(lib, s, key)
  {
    hide Variation, BroadcastKeys, ApplyPatch, Remembering;
    StepRemembers(lib, s, FinishCallback(true));
    var l, s' := s.dispatcher.l, Do(lib, s, FinishCallback(true));
    assert s.dispatcher.current != s.listeners[l].remembered;
    hide Remembered;
    assert s' == s.(listeners := s.listeners[l := Notified(s.listeners[l], s.dispatcher.current, true)],
                    dispatcher := Calling(s.dispatcher.key, s.dispatcher.rest));
    assert ToBeAnnounced(lib, s', s.listeners[l].flagKey) == ToBeAnnounced(lib, s, s.listeners[l].flagKey);
    hide ToBeAnnounced, Do;
  }

  /** A registered listener is out of date, and nothing about its flag is on the way. */
  ghost predicate Lost(lib: Lib, s: State, l: nat) {
    && l in s.registered && l in s.listeners
    && var k := s.listeners[l];
       && Current(lib, s, k).Value? && Current(lib, s, k).value != k.remembered
       && k.flagKey !in s.queue && !ToBeCalled(s, k.flagKey, l)
       && (s.dispatcher.InCallback? ==> s.dispatcher.l != l)
       && !s.stream.Patching? && (s.stream.Announcing? ==> k.flagKey !in s.stream.keys)
  }

  /** Announcing and dispatching other notices does not bring it up to date. */
  lemma LostStays(lib: Lib, s: State, st: Step, l: nat)
    requires Lost(lib, s, l) && Enabled(lib, s, st)
    requires st.AnnounceNext? || st.Take? || st.CallNext? || st.FinishCallback? || st.Finish?
    ensures Lost(lib, Do(lib, s, st), l)
  {
    hide Variation, BroadcastKeys;
  }

  function CallsLeft(d: Dispatcher): nat {
    match d
    case Waiting => 0
    case Calling(_, rest) => 1 + 2 * |rest|
    case InCallback(_, _, _, rest) => 2 + 2 * |rest|
  }

  /** What the dispatching thread does next with a notice. */
  lemma NextCall(lib: Lib, s: State, l: nat) returns (st: Step)
    requires Known(s) && Lost(lib, s, l) && !s.dispatcher.Waiting?
    ensures Enabled(lib, s, st) && Lost(lib, Do(lib, s, st), l)
    ensures var s' := Do(lib, s, st);
            && CallsLeft(s'.dispatcher) < CallsLeft(s.dispatcher)
            && s'.store == s.store && s'.stream == s.stream && s'.queue == s.queue
  {
    hide Lost, Variation, BroadcastKeys;
    st := match s.dispatcher
      case Calling(_, rest) => if rest == [] then Finish else CallNext
      case InCallback(_, _, _, _) => FinishCallback(false);
    LostStays(lib, s, st, l);
  }

  /** The dispatching thread finishes with its notice. */
  lemma {:induction false} FinishNotice(lib: Lib, ss: seq<State>, l: nat) returns (ss': seq<State>)
    requires Run(lib, ss) && Lost(lib, ss[|ss| - 1], l)
    ensures Run(lib, ss') && Lost(lib, ss'[|ss'| - 1], l)
    ensures var (s, s') := (ss[|ss| - 1], ss'[|ss'| - 1]);
            s'.dispatcher.Waiting? && s'.store == s.store && s'.stream == s.stream && s'.queue == s.queue
    decreases CallsLeft(ss[|ss| - 1].dispatcher)
  {
    var s := ss[|ss| - 1];
    RunKnown(lib, ss, |ss| - 1);
    hide Run, Lost, Do, Enabled, Known, CallsLeft;
    if s.dispatcher.Waiting? {
      return ss;
    }
    var st := NextCall(lib, s, l);
    ss' := ExtendRun(lib, ss, st);
    ss' := FinishNotice(lib, ss', l);
  }

  lemma {:induction false} EmptyQueue(lib: Lib, ss: seq<State>, l: nat) returns (ss': seq<State>)
    requires Run(lib, ss) && Lost(lib, ss[|ss| - 1], l) && ss[|ss| - 1].stream.Idle?
    ensures Run(lib, ss') && Lost(lib, ss'[|ss'| - 1], l) && Quiescent(ss'[|ss'| - 1]) && ss'[|ss'| - 1].store == ss[|ss| - 1].store
    decreases |ss[|ss| - 1].queue|
  {
    hide Lost, Variation, BroadcastKeys;
    ss' := FinishNotice(lib, ss, l);
    var s := ss'[|ss'| - 1];
    if s.queue != [] {
      LostStays(lib, s, Take, l);
      ss' := ExtendRun(lib, ss', Take);
      ss' := EmptyQueue(lib, ss', l);
    }
  }

  /** Whatever else is announced, the pipeline comes to rest with the listener out of date. */
  lemma {:induction false} LostAtRest(lib: Lib, ss: seq<State>, l: nat) returns (ss': seq<State>)
    requires Run(lib, ss) && Lost(lib, ss[|ss| - 1], l)
    ensures Run(lib, ss') && Lost(lib, ss'[|ss'| - 1], l) && Quiescent(ss'[|ss'| - 1]) && ss'[|ss'| - 1].store == ss[|ss| - 1].store
    ensures l in ss'[|ss'| - 1].listeners && !Coherent(lib, ss'[|ss'| - 1], l)
    decreases if ss[|ss| - 1].stream.Announcing? then 1 + |ss[|ss| - 1].stream.keys| else 0
  {
    var s := ss[|ss| - 1];
    hide Run, Variation, BroadcastKeys;
    if s.stream.Announcing? {
      LostStays(lib, s, AnnounceNext, l);
      ss' := ExtendRun(lib, ss, AnnounceNext);
      ss' := LostAtRest(lib, ss', l);
    } else {
      ss' := EmptyQueue(lib, ss, l);
    }
  }

  /**
   * A callback that raises, while its value is still the current one and no other notice for the flag is on the
   * way, leaves its listener out of date when the pipeline is at rest again.
   */
  lemma RaisedCallbackStays(lib: Lib, ss: seq<State>) returns (ss': seq<State>)
    requires Run(lib, ss) && ss[|ss| - 1].dispatcher.InCallback?
    requires var s := ss[|ss| - 1];
             var l := s.dispatcher.l;
             && l in s.registered && l in s.listeners && l !in s.dispatcher.rest
             && Current(lib, s, s.listeners[l]) == Value(s.dispatcher.current)
             && s.listeners[l].flagKey !in s.queue
             && !s.stream.Patching? && (s.stream.Announcing? ==> s.listeners[l].flagKey !in s.stream.keys)
    ensures Run(lib, ss') && Quiescent(ss'[|ss'| - 1]) && ss'[|ss'| - 1].store == ss[|ss| - 1].store
    ensures var l := ss[|ss| - 1].dispatcher.l; l in ss'[|ss'| - 1].listeners && !Coherent(lib, ss'[|ss'| - 1], l)
  {
    var s := ss[|ss| - 1];
    CallbacksReportChanges(lib, ss, |ss| - 1);
    hide Run, Variation, BroadcastKeys;
    ss' := ExtendRun(lib, ss, FinishCallback(true));
    assert Lost(lib, ss'[|ss'| - 1], s.dispatcher.l);
    ss' := LostAtRest(lib, ss', s.dispatcher.l);
  }

  /**
   * Whenever a patch changes the value of a flag unannounced (an archived entity, a reference the scan does not
   * see, a patch refused part-way), a listener that was at rest is out of date when the pipeline is at rest again.
   */
  lemma SilentChangeStays(lib: Lib, ss: seq<State>, batch: seq<Entry>, l: nat) returns (ss': seq<State>)
    requires Run(lib, ss) && Quiescent(ss[|ss| - 1]) && l in ss[|ss| - 1].registered && l in ss[|ss| - 1].listeners
    requires Distinct(batch) && Filed(batch)
    requires var (r, ok) := ApplyPatch(ss[|ss| - 1].store, batch);
             ok ==> ss[|ss| - 1].listeners[l].flagKey !in BroadcastKeys(lib, r.Flags(), batch)
    requires var k := ss[|ss| - 1].listeners[l];
             var after := Variation(lib, ApplyPatch(ss[|ss| - 1].store, batch).0, k.flagKey, k.user);
             after.Value? && after.value != k.remembered
    ensures Run(lib, ss') && Quiescent(ss'[|ss'| - 1]) && l in ss'[|ss'| - 1].registered
    ensures ss'[|ss'| - 1].store == ApplyPatch(ss[|ss| - 1].store, batch).0
    ensures l in ss'[|ss'| - 1].listeners && !Coherent(lib, ss'[|ss'| - 1], l)
  {
    var (r, ok) := ApplyPatch(ss[|ss| - 1].store, batch);
    hide Run, BroadcastKeys, ApplyPatch, Variation, Distinct, Filed;
    ss' := ExtendRun(lib, ss, ReceivePatch(batch));
    var keys := Listed(if ok then BroadcastKeys(lib, r.Flags(), batch) else {});
    ss' := PatchRuns(lib, ss', batch, batch, keys);
    ss' := LostAtRest(lib, ss', l);
  }

  /** From any state at rest, an accepted snapshot that drops the flag leaves a listener that remembers a value out of date. */
  lemma DroppedFlagStays(lib: Lib, ss: seq<State>, data: Message, order: seq<Entry>, l: nat) returns (ss': seq<State>)
    requires Run(lib, ss) && Quiescent(ss[|ss| - 1])
    requires !data.isPatch && Orders(order, data) && Synced(ss[|ss| - 1].store, data, order).1
    requires l in ss[|ss| - 1].registered && l in ss[|ss| - 1].listeners && ss[|ss| - 1].listeners[l].remembered != None
    requires ss[|ss| - 1].listeners[l].flagKey !in Synced(ss[|ss| - 1].store, data, order).0.Flags()
    ensures Run(lib, ss') && Quiescent(ss'[|ss'| - 1]) && l in ss'[|ss'| - 1].registered
    ensures ss'[|ss'| - 1].store == Synced(ss[|ss| - 1].store, data, order).0
    ensures l in ss'[|ss'| - 1].listeners && !Coherent(lib, ss'[|ss'| - 1], l)
  {
    var s := ss[|ss| - 1];
    var r, k := Synced(s.store, data, order).0, s.listeners[l];
    SnapshotSilentExactly(lib, s.store, data, order, k.flagKey, k.user);
    UnknownStaysSilent(lib, s.store, data, order, k.flagKey);
    hide Run, BroadcastKeys, Variation, Orders, Synced, LivePart;
    var keys := Listed(BroadcastKeys(lib, r.Flags(), order));
    ss' := ExtendRun(lib, ss, ReceiveSnapshot(data, order, keys));
    ss' := LostAtRest(lib, ss', l);
  }

  lemma UnknownStaysSilent(lib: Lib, s: Store, data: Message, order: seq<Entry>, key: string)
    requires !data.isPatch && Orders(order, data) && Synced(s, data, order).1 && key !in Synced(s, data, order).0.Flags()
    ensures key !in BroadcastKeys(lib, Synced(s, data, order).0.Flags(), order)
  {
    var r := Synced(s, data, order).0;
    if r == s {
      hide BroadcastKeys;
      BroadcastKeysExact(lib, r.Flags(), order);
      NothingListed(order, data);
    } else {
      SnapshotAnnounces(lib, data, order, r, key);
    }
  }

  /** A message without entities is processed without entries. */
  lemma NothingListed(order: seq<Entry>, data: Message)
    requires Orders(order, data) && AllEmpty(AllData(data))
    ensures order == []
  {
    hide Dictionary;
    assert FeatureFlags in AllData(data) && Segments in AllData(data);
    var n :| 0 <= n <= |order| && Lists(order[..n], FeatureFlags, AllData(data)[FeatureFlags])
             && Lists(order[n..], Segments, AllData(data)[Segments]);
    if order[..n] != [] { ListedSome(order[..n], FeatureFlags, AllData(data)[FeatureFlags]); }
    if order[n..] != [] { ListedSome(order[n..], Segments, AllData(data)[Segments]); }
    assert order == order[..n] + order[n..];
  }

  lemma ListedSome(es: seq<Entry>, cat: Category, items: Items)
    requires Lists(es, cat, items) && es != []
    ensures items != map[]
  {
    assert es[0] in es;
    assert es[0].item.Id() in items;
  }

  /** A snapshot of one segment, newer than everything stored, drops every flag and announces nothing. */
  lemma DroppingSnapshot(lib: Lib, s: Store, segment: Segment, t: int) returns (data: Message, order: seq<Entry>)
    requires t > s.version >= 0
    ensures !data.isPatch && Orders(order, data)
    ensures var r := Synced(s, data, order).0; Synced(s, data, order).1 && r.Flags() == map[] && BroadcastKeys(lib, r.Flags(), order) == {}
  {
    data, order := Message(false, [], [RawSegment(segment, t, false)]), [Entry(Segments, SegmentItem(segment, t))];
    OneSegment(data, order, segment, t);
    hide Orders, VersionOf, AllData;
    var r := Synced(s, data, order).0;
    assert r == Store(AllData(data), t, true);
    SnapshotAnnouncesNoFlag(lib, data, order, r);
  }

  lemma OneSegment(data: Message, order: seq<Entry>, segment: Segment, t: int)
    requires t >= 0 && data == Message(false, [], [RawSegment(segment, t, false)]) && order == [Entry(Segments, SegmentItem(segment, t))]
    ensures VersionOf(data) == t && Orders(order, data)
    ensures AllData(data) == map[FeatureFlags := map[], Segments := map[segment.id := SegmentItem(segment, t)]]
  {
    var item := SegmentItem(segment, t);
    assert SegmentEntities(data.segments) == [item] && FlagEntities(data.featureFlags) == [];
    assert [item][..0] == [];
    assert Dictionary([item]) == map[segment.id := item] && Greatest([item]) == t;
    assert order[..0] == [] && order[0..] == order;
    hide Dictionary, Greatest, VersionOf;
    assert Lists(order[..0], FeatureFlags, map[]);
    assert Lists(order[0..], Segments, map[segment.id := item]);
  }

  lemma SnapshotAnnouncesNoFlag(lib: Lib, data: Message, order: seq<Entry>, s: Store)
    requires Orders(order, data) && s.contents == AllData(data) && s.Flags() == map[]
    ensures BroadcastKeys(lib, s.Flags(), order) == {}
  {
    hide Orders, AllData, BroadcastKeys, LivePart;
    forall key ensures key !in BroadcastKeys(lib, s.Flags(), order) {
      SnapshotAnnounces(lib, data, order, s, key);
    }
  }

  /** The first flag arrives by a patch, and its notice is enqueued. */
  lemma FlagArrives(lib: Lib, ss: seq<State>, f: Flag, t: int) returns (ss': seq<State>, store: Store)
    requires Run(lib, ss) && Quiescent(ss[|ss| - 1]) && ss[|ss| - 1].store == EMPTY && f.key != "" && t > 0
    ensures store.initialized && f.key in store.Flags() && store.Flags()[f.key] == f && store.version == t
    ensures Run(lib, ss') && ss'[|ss'| - 1] == ss[|ss| - 1].(store := store, queue := [f.key])
  {
    var e := Entry(FeatureFlags, FlagItem(f, t));
    var batch := [e];
    store := UpsertEntry(EMPTY, e).0;
    assert batch[1..] == [] && [f.key][1..] == [];
    assert BroadcastKeys(lib, store.Flags(), []) == {};
    assert BroadcastKeys(lib, store.Flags(), batch) == {f.key};
    hide Run, BroadcastKeys;
    ss' := ExtendRun(lib, ss, ReceivePatch(batch));
    ss' := ExtendRun(lib, ss', UpsertNext);
    assert ss'[|ss'| - 1] == ss[|ss| - 1].(store := store, stream := Patching([], batch));
    ss' := ExtendRun(lib, ss', PatchApplied([f.key]));
    ss' := ExtendRun(lib, ss', AnnounceNext);
    ss' := ExtendRun(lib, ss', AnnounceNext);
  }

  /** A flag that is off serves its disabled variation. */
  lemma OffValue(lib: Lib, s: Store, f: Flag, user: User)
    requires s.initialized && f.key != "" && f.key in s.Flags() && s.Flags()[f.key] == f
    requires !f.isEnabled && f.disabledVariationId in f.variationMap
    ensures Variation(lib, s, f.key, user) == Value(lib.cast(f.variationType, f.variationMap[f.disabledVariationId]))
  {
    EvaluatorMeaning.EvaluateMeaning(lib, s.Segs(), f, user);
  }

  /** A listener of a flag that is not known yet. */
  lemma ListenerCreated(lib: Lib, key: string, user: User) returns (ss: seq<State>)
    ensures Run(lib, ss)
    ensures ss[|ss| - 1] == START.(listeners := map[0 := Listener(key, user, None, None, [])])
  {
    ss := ExtendRun(lib, [START], Create(0, key, user));
  }

  /**
   * A change slips in before registration: the listener is created while the flag is unknown, the flag arrives and
   * its notice is taken, and only then is the listener registered; it has missed the notice and stays out of date.
   */
  lemma UpdateBeforeRegistration(lib: Lib, f: Flag, user: User, t: int) returns (ss: seq<State>)
    requires !f.isEnabled && f.disabledVariationId in f.variationMap && f.key != "" && t > 0
    requires lib.cast(f.variationType, f.variationMap[f.disabledVariationId]) != None
    ensures Run(lib, ss)
    ensures var s := ss[|ss| - 1];
            Quiescent(s) && 0 in s.registered && 0 in s.missed && 0 in s.listeners && !Coherent(lib, s, 0)
  {
    ss := ListenerCreated(lib, f.key, user);
    hide Run, Variation;
    var store;
    ss, store := FlagArrives(lib, ss, f, t);
    OffValue(lib, store, f, user);
    ss := ExtendRun(lib, ss, Take);
    ss := ExtendRun(lib, ss, Finish);
    ss := ExtendRun(lib, ss, Register(0));
  }

  /**
   * Registered in time, the listener is called with the new value. If its callback returns it is up to date at
   * rest; if it raises the listener is out of date at rest.
   */
  lemma FirstCallback(lib: Lib, f: Flag, user: User, t: int, raised: bool) returns (ss: seq<State>)
    requires !f.isEnabled && f.disabledVariationId in f.variationMap && f.key != "" && t > 0
    requires lib.cast(f.variationType, f.variationMap[f.disabledVariationId]) != None
    ensures Run(lib, ss)
    ensures var s := ss[|ss| - 1];
            && Quiescent(s) && 0 in s.registered && 0 !in s.missed && 0 in s.listeners && s.store.version == t
            && (if raised then !Coherent(lib, s, 0)
                else Coherent(lib, s, 0) && s.listeners[0].remembered == lib.cast(f.variationType, f.variationMap[f.disabledVariationId]))
  {
    ss := ListenerCreated(lib, f.key, user);
    hide Run, Variation;
    ss := ExtendRun(lib, ss, Register(0));
    var store;
    ss, store := FlagArrives(lib, ss, f, t);
    OffValue(lib, store, f, user);
    ss := ExtendRun(lib, ss, Take);
    assert [0][1..] == [];
    ss := ExtendRun(lib, ss, CallNext);
    ss := ExtendRun(lib, ss, FinishCallback(raised));
    ss := ExtendRun(lib, ss, Finish);
  }

  /** A run from the start: the listener is called and up to date, then a snapshot drops its flag, and it stays out of date. */
  lemma DroppedFlagRun(lib: Lib, f: Flag, user: User, t: int, segment: Segment, t': int) returns (ss: seq<State>)
    requires !f.isEnabled && f.disabledVariationId in f.variationMap && f.key != "" && 0 < t < t'
    requires lib.cast(f.variationType, f.variationMap[f.disabledVariationId]) != None
    ensures Run(lib, ss)
    ensures var s := ss[|ss| - 1];
            Quiescent(s) && 0 in s.registered && 0 in s.listeners && s.store.Flags() == map[] && !Coherent(lib, s, 0)
  {
    ss := FirstCallback(lib, f, user, t, false);
    hide Run, Coherent, Variation, Orders, Synced;
    var data, order := DroppingSnapshot(lib, ss[|ss| - 1].store, segment, t');
    ss := DroppedFlagStays(lib, ss, data, order, 0);
  }
}
