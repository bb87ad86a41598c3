/** The in-memory store: full snapshots by global version, patches by the timestamp of each entity. */
module DataStorage {
  import opened Common
  import opened Model

  type Items = map<string, Item>

  /** The contents of the store; a category that was never written is absent. */
  datatype Store = Store(contents: map<Category, Items>, version: int, initialized: bool) {
    function Of(cat: Category): Items {
      if cat in contents then contents[cat] else map[]
    }

    function Flags(): map<string, Flag> {
      map k | k in Of(FeatureFlags) && Of(FeatureFlags)[k].FlagItem? :: Of(FeatureFlags)[k].flag
    }

    function Segs(): map<string, Segment> {
      map k | k in Of(Segments) && Of(Segments)[k].SegmentItem? :: Of(Segments)[k].segment
    }
  }

  const EMPTY := Store(map[], 0, false)

  predicate AllEmpty(contents: map<Category, Items>) {
    forall cat :: cat in contents ==> contents[cat] == map[]
  }

  /** `init`: replaces everything when the snapshot is newer. A version that is not an int is `None`. */
  function Initialized(s: Store, all: map<Category, Items>, version: Option<int>): (Store, bool) {
    if all == map[] || version.None? || version.value < 0 then (s, false)
    else if version.value == 0 && !AllEmpty(all) then (s, false)
    else if s.initialized && version.value == s.version == 0 && AllEmpty(all) && AllEmpty(s.contents) then (s, true)
    else if s.initialized && version.value <= s.version then (s, false)
    else (Store(all, version.value, true), true)
  }

  predicate Storable(key: string, version: int) {
    key != "" && version > 0
  }

  /** Nothing at least as recent is stored under the key. */
  predicate Newer(s: Store, cat: Category, key: string, version: int) {
    key in s.Of(cat) ==> s.Of(cat)[key].stamp < version
  }

  /** `upsert` of an item under its key; the version is the one the caller passes. */
  function Upserted(s: Store, cat: Category, key: string, item: Item, version: int): (Store, bool) {
    if Storable(key, version) && Newer(s, cat, key, version)
    then (Store(s.contents[cat := s.Of(cat)[key := item]], Max(s.version, version), true), true)
    else (s, false)
  }

  /** The default implementation, with its fields. */
  class InMemoryDataStorage {
    var initialized: bool
    var version: int
    var storage: map<Category, Items>

    function State(): Store
      reads this
    {
      Store(storage, version, initialized)
    }

    constructor ()
      ensures State() == EMPTY
    {
      initialized := false;
      version := 0;
      storage := map[];
    }

    method Get(kind: Category, key: string) returns (item: Option<Item>)
      ensures item.Some? <==> key in State().Of(kind) && !State().Of(kind)[key].Tombstone?
      ensures item.Some? ==> item.value == State().Of(kind)[key]
    {
      var keyItems := if kind in storage then storage[kind] else map[];
      if key !in keyItems || keyItems[key].Tombstone? {
        return None;
      }
      return Some(keyItems[key]);
    }

    method GetAll(kind: Category) returns (items: Items)
      ensures forall k :: k in items <==> k in State().Of(kind) && !State().Of(kind)[k].Tombstone?
      ensures forall k :: k in items ==> items[k] == State().Of(kind)[k]
    {
      var keyItems := if kind in storage then storage[kind] else map[];
      items := map k | k in keyItems && !keyItems[k].Tombstone? :: keyItems[k];
    }

    method Init(all: map<Category, Items>, version: Option<int>) returns (ok: bool)
      modifies this
      ensures (State(), ok) == Initialized(old(State()), all, version)
    {
      if all == map[] || version.None? || version.value < 0 {
        return false;
      }
      var snapshotIsEmpty := AllEmpty(all);
      if version.value == 0 && !snapshotIsEmpty {
        return false;
      }
      if initialized {
        if version.value == this.version == 0 && snapshotIsEmpty && AllEmpty(storage) {
          return true;
        }
        if version.value <= this.version {
          return false;
        }
      }
      storage := map[];
      storage := storage + all;
      initialized := true;
      this.version := version.value;
      assert storage == all;
      return true;
    }

    /** `item` and `version` may be missing, as a caller of `upsert` may pass `None`. */
    method Upsert(kind: Category, key: string, item: Option<Item>, version: Option<int>) returns (ok: bool)
      modifies this
      ensures item.None? || version.None? ==> !ok && State() == old(State())
      ensures item.Some? && version.Some? ==>
                (State(), ok) == Upserted(old(State()), kind, key, item.value, version.value)
    {
      if item.None? || key == "" || version.None? || version.value <= 0 {
        return false;
      }
      var keyItems := if kind in storage then storage[kind] else map[];
      if key in keyItems && keyItems[key].stamp >= version.value {
        return false;
      }
      storage := storage[kind := keyItems[key := item.value]];
      this.version := Max(this.version, version.value);
      if !initialized {
        initialized := true;
      }
      return true;
    }
  }

  // ---------- which snapshots are accepted ----------

  /**
   * A snapshot with entities is accepted exactly if its version is positive and, once the store is initialized,
   * greater than the one held; the same version is refused. It then is all that the store holds.
   */
  lemma SnapshotAccepted(s: Store, all: map<Category, Items>, version: int)
    requires exists cat, key :: cat in all && key in all[cat]
    ensures var (r, ok) := Initialized(s, all, Some(version));
            && (ok <==> version > 0 && (s.initialized ==> version > s.version))
            && r == if ok then Store(all, version, true) else s
  {
    var cat, key :| cat in all && key in all[cat];
    assert all[cat] != map[];
  }

  /**
   * An empty snapshot is accepted if its version is not negative and, once the store is initialized, greater than
   * the one held, or again zero while the store is empty, too; then nothing changes.
   */
  lemma EmptySnapshotAccepted(s: Store, all: map<Category, Items>, version: int)
    requires all != map[] && forall cat, key :: cat in all ==> key !in all[cat]
    ensures var (r, ok) := Initialized(s, all, Some(version));
            var again := s.initialized && version == 0 == s.version && forall cat, key :: cat in s.contents ==> key !in s.contents[cat];
            && (ok <==> again || (version >= 0 && (s.initialized ==> version > s.version)))
            && r == if ok && !again then Store(all, version, true) else s
  {
    assert AllEmpty(all);
    assert AllEmpty(s.contents) <==> forall cat, key :: cat in s.contents ==> key !in s.contents[cat];
  }

  /** An upsert is accepted exactly if it has a key, a positive version, and nothing at least as recent is stored there. */
  lemma UpsertAccepted(s: Store, cat: Category, key: string, item: Item, version: int)
    ensures var (r, ok) := Upserted(s, cat, key, item, version);
            && (ok <==> key != "" && version > 0 && (key in s.Of(cat) ==> s.Of(cat)[key].stamp < version))
            && (!ok ==> r == s)
            && (ok ==> r.initialized && r.version >= version && r.version >= s.version && r.version in {version, s.version})
            && (ok ==> forall c :: r.Of(c) == if c == cat then s.Of(c)[key := item] else s.Of(c))
  {
  }

  // ---------- repeated snapshots ----------

  /** Sending the same snapshot again never changes the store, whatever was accepted the first time. */
  lemma InitIdempotent(s: Store, all: map<Category, Items>, version: Option<int>)
    ensures Initialized(Initialized(s, all, version).0, all, version).0 == Initialized(s, all, version).0
    ensures Initialized(s, all, version).1 && version == Some(0) ==> Initialized(Initialized(s, all, version).0, all, version).1
  {
  }

  // ---------- convergence: the order of upserts does not matter ----------

  /** One upsert as the streaming layer issues it: the version is the timestamp of the item. */
  datatype Entry = Entry(cat: Category, item: Item)

  function UpsertEntry(s: Store, e: Entry): (Store, bool) {
    Upserted(s, e.cat, e.item.Id(), e.item, e.item.stamp)
  }

  /** Applying entries one after the other, each accepted or not. */
  function Replay(s: Store, es: seq<Entry>): Store
    decreases |es|
  {
    if es == [] then s else UpsertEntry(Replay(s, es[..|es| - 1]), es[|es| - 1]).0
  }

  /** The entry could be stored under `key`. */
  predicate Offers(e: Entry, cat: Category, key: string) {
    e.cat == cat && e.item.Id() == key && Storable(key, e.item.stamp)
  }

  /** The item comes from the store or from an entry. */
  ghost predicate Candidate(s: Store, es: seq<Entry>, cat: Category, key: string, item: Item) {
    || (key in s.Of(cat) && s.Of(cat)[key] == item)
    || (exists e :: e in es && Offers(e, cat, key) && e.item == item)
  }

  /** What the store must hold: under each key, the most recent candidate if there is one. */
  ghost predicate HoldsLatest(s: Store, es: seq<Entry>, r: Store, cat: Category, key: string) {
    && (key in r.Of(cat) ==> Candidate(s, es, cat, key, r.Of(cat)[key]))
    && (forall item :: Candidate(s, es, cat, key, item) ==> key in r.Of(cat) && item.stamp <= r.Of(cat)[key].stamp)
  }

  /** The entry is valid and strictly newer than what the store holds for that entity. */
  predicate Acceptable(s: Store, e: Entry) {
    Storable(e.item.Id(), e.item.stamp) && Newer(s, e.cat, e.item.Id(), e.item.stamp)
  }

  /** The version covers the start and every acceptable entry, and is reached by one of them. */
  ghost predicate VersionIsLatest(s: Store, es: seq<Entry>, version: int, initialized: bool) {
    && s.version <= version
    && (forall e :: e in es && Acceptable(s, e) ==> e.item.stamp <= version)
    && (version == s.version || exists e :: e in es && Acceptable(s, e) && e.item.stamp == version)
    && (initialized <==> s.initialized || exists e :: e in es && Acceptable(s, e))
  }

  /** Versions of stored items never exceed the version of the store; an uninitialized store is blank. */
  ghost predicate Consistent(s: Store) {
    && (forall cat, key :: key in s.Of(cat) ==> s.Of(cat)[key].stamp <= s.version)
    && (!s.initialized ==> s.version == 0 && forall cat :: s.Of(cat) == map[])
  }

  lemma UpsertContents(s: Store, e: Entry)
    ensures var r := UpsertEntry(s, e).0;
            forall cat :: r.Of(cat) ==
              if UpsertEntry(s, e).1 && cat == e.cat then s.Of(cat)[e.item.Id() := e.item] else s.Of(cat)
  {
  }

  lemma {:induction false} ReplayHoldsLatest(s: Store, es: seq<Entry>, cat: Category, key: string)
    ensures HoldsLatest(s, es, Replay(s, es), cat, key)
  {
    if es != [] {
      var before, last := es[..|es| - 1], es[|es| - 1];
      ReplayHoldsLatest(s, before, cat, key);
      CandidateStep(s, es, cat, key);
      UpsertAt(Replay(s, before), last, cat, key);
      assert Replay(s, es) == UpsertEntry(Replay(s, before), last).0;
      hide Candidate, Replay, UpsertEntry, Offers, Store.Of;
    }
  }

  /** What an upsert does to one key. */
  lemma UpsertAt(r: Store, e: Entry, cat: Category, key: string)
    ensures var (r', ok) := UpsertEntry(r, e);
            var (before, after) := (r.Of(cat), r'.Of(cat));
            if ok && Offers(e, cat, key) then key in after && after[key] == e.item && (key in before ==> before[key].stamp < e.item.stamp)
            else && (key in after <==> key in before) && (key in before ==> after[key] == before[key])
                 && (Offers(e, cat, key) ==> key in before && e.item.stamp <= before[key].stamp)
  {
    UpsertContents(r, e);
  }

  lemma CandidateStep(s: Store, es: seq<Entry>, cat: Category, key: string)
    requires es != []
    ensures var (before, last) := (es[..|es| - 1], es[|es| - 1]);
            forall item :: Candidate(s, es, cat, key, item) <==>
              Candidate(s, before, cat, key, item) || (Offers(last, cat, key) && last.item == item)
  {
    assert es == es[..|es| - 1] + [es[|es| - 1]];
  }

  /** Timestamps only grow, and what is not from the start initializes the store and is covered by its version. */
  lemma {:induction false} ReplayGrows(s: Store, es: seq<Entry>, cat: Category, key: string)
    ensures var r := Replay(s, es);
            && s.version <= r.version
            && (key in s.Of(cat) ==> key in r.Of(cat) && s.Of(cat)[key].stamp <= r.Of(cat)[key].stamp)
            && (key in r.Of(cat) ==> (key in s.Of(cat) && s.Of(cat)[key] == r.Of(cat)[key]) || (r.initialized && r.Of(cat)[key].stamp <= r.version))
  {
    if es != [] {
      var before, last := es[..|es| - 1], es[|es| - 1];
      ReplayGrows(s, before, cat, key);
      UpsertContents(Replay(s, before), last);
    }
  }

  /** An entry accepted at the end was acceptable at the start; one that no longer is has been covered. */
  lemma AcceptableOver(s: Store, es: seq<Entry>, e: Entry)
    ensures var r := Replay(s, es);
            && (Acceptable(r, e) ==> Acceptable(s, e))
            && (Acceptable(s, e) && !Acceptable(r, e) ==> r.initialized && e.item.stamp <= r.version)
  {
    ReplayGrows(s, es, e.cat, e.item.Id());
    hide Replay, Store.Of;
  }

  /** The version of any store after any upserts. */
  lemma {:induction false} ReplayVersion(s: Store, es: seq<Entry>)
    ensures VersionIsLatest(s, es, Replay(s, es).version, Replay(s, es).initialized)
  {
    if es != [] {
      var before, last := es[..|es| - 1], es[|es| - 1];
      var r, r' := Replay(s, before), Replay(s, es);
      ReplayVersion(s, before);
      AcceptableOver(s, before, last);
      assert r'.version == (if Acceptable(r, last) then Max(r.version, last.item.stamp) else r.version);
      assert r'.initialized == (r.initialized || Acceptable(r, last));
      hide Replay, Acceptable;
      assert es == before + [last] && last in es;
      assert forall e :: e in es <==> e in before || e == last;
    }
  }

  /** Upserts keep a consistent store so, and then every storable entry is covered by the version. */
  lemma {:induction false} ReplayConsistent(s: Store, es: seq<Entry>)
    requires Consistent(s)
    ensures Consistent(Replay(s, es))
    ensures forall e :: e in es && Storable(e.item.Id(), e.item.stamp) ==> e.item.stamp <= Replay(s, es).version
  {
    if es != [] {
      var before, last := es[..|es| - 1], es[|es| - 1];
      ReplayConsistent(s, before);
      UpsertContents(Replay(s, before), last);
      assert es == before + [last];
    }
  }

  /** Equal key and timestamp mean the same entity, among the stored items and the entries. */
  ghost predicate Coherent(s: Store, es: seq<Entry>) {
    forall cat, key, a, b :: Candidate(s, es, cat, key, a) && Candidate(s, es, cat, key, b) && a.stamp == b.stamp ==> a == b
  }

  /**
   * Convergence: two replicas that start from the same store and receive the same entries, in any order
   * and with any repetition, end with the same contents (tombstones included), version and status.
   */
  lemma Convergence(s: Store, es: seq<Entry>, es': seq<Entry>)
    requires Coherent(s, es)
    requires forall e :: e in es <==> e in es'
    ensures forall cat :: Replay(s, es).Of(cat) == Replay(s, es').Of(cat)
    ensures Replay(s, es).version == Replay(s, es').version
    ensures Replay(s, es).initialized == Replay(s, es').initialized
  {
    var r, r' := Replay(s, es), Replay(s, es');
    assert forall cat, key, item :: Candidate(s, es, cat, key, item) <==> Candidate(s, es', cat, key, item);
    forall cat ensures r.Of(cat) == r'.Of(cat) {
      forall key ensures (key in r.Of(cat) <==> key in r'.Of(cat)) && (key in r.Of(cat) ==> r.Of(cat)[key] == r'.Of(cat)[key]) {
        ReplayHoldsLatest(s, es, cat, key);
        ReplayHoldsLatest(s, es', cat, key);
      }
    }
    ReplayVersion(s, es);
    ReplayVersion(s, es');
  }
}
