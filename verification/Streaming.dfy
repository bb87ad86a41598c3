/** Processing a data-sync message: conversion, patch application and change notices. */
module Streaming {
  import opened Common
  import opened Model
  import opened DataStorage
  import opened Evaluator
  import NB = NoticeBroadcaster
  import S = Status

  // ---------- the message ----------

  datatype RawFlag = RawFlag(flag: Flag, stamp: int, isArchived: bool)

  datatype RawSegment = RawSegment(segment: Segment, stamp: int, isArchived: bool)

  datatype Message = Message(isPatch: bool, featureFlags: seq<RawFlag>, segments: seq<RawSegment>)

  function FlagEntity(raw: RawFlag): Item {
    if raw.isArchived then Tombstone(raw.flag.key, raw.stamp) else FlagItem(raw.flag, raw.stamp)
  }

  function SegmentEntity(raw: RawSegment): Item {
    if raw.isArchived then Tombstone(raw.segment.id, raw.stamp) else SegmentItem(raw.segment, raw.stamp)
  }

  /** The dictionary of the entities: a later entity replaces an earlier one with the same id. */
  function Dictionary(items: seq<Item>): Items {
    if items == [] then map[] else
      Dictionary(items[..|items| - 1])[items[|items| - 1].Id() := items[|items| - 1]]
  }

  /** Each entity is found under its own id, and is the last one of the list with that id. */
  lemma {:induction false} DictionaryHoldsLast(items: seq<Item>)
    ensures Keyed(Dictionary(items))
    ensures forall i :: 0 <= i < |items| ==> items[i].Id() in Dictionary(items)
    ensures forall i :: 0 <= i < |items| && (forall j :: i < j < |items| ==> items[j].Id() != items[i].Id())
              ==> Dictionary(items)[items[i].Id()] == items[i]
    ensures forall k :: k in Dictionary(items) ==> Dictionary(items)[k] in items
  {
    if items != [] {
      var before, last := items[..|items| - 1], items[|items| - 1];
      DictionaryHoldsLast(before);
      assert forall i :: 0 <= i < |before| ==> before[i] == items[i];
    }
  }

  ghost predicate Keyed(items: Items) {
    forall k :: k in items ==> items[k].Id() == k
  }

  function FlagEntities(raws: seq<RawFlag>): (items: seq<Item>)
    ensures |items| == |raws| && forall i :: 0 <= i < |raws| ==> items[i] == FlagEntity(raws[i])
  {
    seq(|raws|, i requires 0 <= i < |raws| => FlagEntity(raws[i]))
  }

  function SegmentEntities(raws: seq<RawSegment>): (items: seq<Item>)
    ensures |items| == |raws| && forall i :: 0 <= i < |raws| ==> items[i] == SegmentEntity(raws[i])
  {
    seq(|raws|, i requires 0 <= i < |raws| => SegmentEntity(raws[i]))
  }

  function AllData(data: Message): map<Category, Items> {
    map[FeatureFlags := Dictionary(FlagEntities(data.featureFlags)),
        Segments := Dictionary(SegmentEntities(data.segments))]
  }

  /** The greatest timestamp, but never below zero. */
  function Greatest(items: seq<Item>): int {
    if items == [] then 0 else Max(Greatest(items[..|items| - 1]), items[|items| - 1].stamp)
  }

  lemma {:induction false} GreatestIsGreatest(items: seq<Item>)
    ensures Greatest(items) >= 0 && forall item :: item in items ==> item.stamp <= Greatest(items)
    ensures Greatest(items) == 0 || exists item :: item in items && item.stamp == Greatest(items)
  {
    if items != [] {
      var before, last := items[..|items| - 1], items[|items| - 1];
      GreatestIsGreatest(before);
      assert items == before + [last];
      assert last in items;
    }
  }

  /** The version of a message covers every entity in it, replaced ones included. */
  function VersionOf(data: Message): int {
    Max(Greatest(FlagEntities(data.featureFlags)), Greatest(SegmentEntities(data.segments)))
  }

  lemma Extended(items: seq<Item>, i: nat)
    requires i < |items|
    ensures Greatest(items[..i + 1]) == Max(Greatest(items[..i]), items[i].stamp)
    ensures Dictionary(items[..i + 1]) == Dictionary(items[..i])[items[i].Id() := items[i]]
  {
    assert items[..i + 1][..i] == items[..i];
  }

  method FlagsToDict(raws: seq<RawFlag>) returns (version: int, flags: Items)
    ensures version == Greatest(FlagEntities(raws))
    ensures flags == Dictionary(FlagEntities(raws))
  {
    version, flags := 0, map[];
    ghost var items := FlagEntities(raws);
    for i := 0 to |raws|
      invariant flags == Dictionary(items[..i]) && version == Greatest(items[..i])
    {
      var entity := FlagEntity(raws[i]);
      Extended(items, i);
      flags := flags[entity.Id() := entity];
      version := Max(version, entity.stamp);
    }
    assert items[..|items|] == items;
  }

  method SegmentsToDict(raws: seq<RawSegment>, start: int) returns (version: int, segments: Items)
    requires start >= 0
    ensures version == Max(start, Greatest(SegmentEntities(raws)))
    ensures segments == Dictionary(SegmentEntities(raws))
  {
    version, segments := start, map[];
    ghost var items := SegmentEntities(raws);
    for i := 0 to |raws|
      invariant segments == Dictionary(items[..i]) && version == Max(start, Greatest(items[..i]))
    {
      var entity := SegmentEntity(raws[i]);
      Extended(items, i);
      segments := segments[entity.Id() := entity];
      version := Max(version, entity.stamp);
    }
    assert items[..|items|] == items;
  }

  /** Both loops of the conversion, one after the other. */
  method DataToDict(data: Message) returns (version: int, all: map<Category, Items>)
    ensures version == VersionOf(data)
    ensures all == AllData(data)
  {
    var flags, segments;
    version, flags := FlagsToDict(data.featureFlags);
    GreatestIsGreatest(FlagEntities(data.featureFlags));
    version, segments := SegmentsToDict(data.segments, version);
    all := map[FeatureFlags := flags, Segments := segments];
  }

  // ---------- the order of processing ----------

  /** The entries of one dictionary, sorted by timestamp; ties may come in any order. */
  ghost predicate Lists(es: seq<Entry>, cat: Category, items: Items) {
    && SortedDistinct(es)
    && (forall e :: e in es ==> e.cat == cat && e.item.Id() in items && items[e.item.Id()] == e.item)
    && (forall k :: k in items ==> Entry(cat, items[k]) in es)
  }

  /** The order in which a message is processed: all flags, then all segments, each by timestamp. */
  ghost predicate Orders(es: seq<Entry>, data: Message) {
    exists n :: 0 <= n <= |es| && Lists(es[..n], FeatureFlags, AllData(data)[FeatureFlags])
                && Lists(es[n..], Segments, AllData(data)[Segments])
  }

  /** Where an entry goes in a sorted list: behind everything that is not newer. */
  method InsertionPoint(es: seq<Entry>, stamp: int) returns (k: nat)
    requires forall i, j :: 0 <= i < j < |es| ==> es[i].item.stamp <= es[j].item.stamp
    ensures k <= |es|
    ensures forall i :: 0 <= i < k ==> es[i].item.stamp <= stamp
    ensures forall i :: k <= i < |es| ==> es[i].item.stamp > stamp
  {
    k := |es|;
    while k > 0 && es[k - 1].item.stamp > stamp
      invariant 0 <= k <= |es|
      invariant forall i :: k <= i < |es| ==> es[i].item.stamp > stamp
    {
      k := k - 1;
    }
  }

  lemma InsertMembers(es: seq<Entry>, e: Entry, k: nat)
    requires k <= |es|
    ensures forall x :: x in es[..k] + [e] + es[k..] <==> x in es || x == e
  {
  }

  ghost predicate SortedDistinct(es: seq<Entry>) {
    forall i, j :: 0 <= i < j < |es| ==> es[i].item.stamp <= es[j].item.stamp && es[i].item.Id() != es[j].item.Id()
  }

  lemma InsertSorted(es: seq<Entry>, e: Entry, k: nat)
    requires SortedDistinct(es) && k <= |es|
    requires forall i :: 0 <= i < |es| ==> es[i].item.Id() != e.item.Id()
    requires forall i :: 0 <= i < k ==> es[i].item.stamp <= e.item.stamp
    requires forall i :: k <= i < |es| ==> es[i].item.stamp > e.item.stamp
    ensures SortedDistinct(es[..k] + [e] + es[k..])
  {
  }

  lemma InsertKeepsLists(es: seq<Entry>, cat: Category, items: Items, e: Entry, k: nat)
    requires Lists(es, cat, items)
    requires k <= |es| && e.cat == cat && e.item.Id() !in items
    requires forall i :: 0 <= i < k ==> es[i].item.stamp <= e.item.stamp
    requires forall i :: k <= i < |es| ==> es[i].item.stamp > e.item.stamp
    ensures Lists(es[..k] + [e] + es[k..], cat, items[e.item.Id() := e.item])
  {
    forall i | 0 <= i < |es| ensures es[i].item.Id() != e.item.Id() {
      assert es[i] in es;
    }
    InsertSorted(es, e, k);
    InsertMembers(es, e, k);
  }

  method SortedEntries(cat: Category, items: Items) returns (es: seq<Entry>)
    requires Keyed(items)
    ensures Lists(es, cat, items)
  {
    es := [];
    var rest := items.Keys;
    ghost var done: Items := map[];
    while rest != {}
      invariant rest <= items.Keys && done.Keys == items.Keys - rest
      invariant forall k :: k in done ==> done[k] == items[k]
      invariant Lists(es, cat, done)
      decreases rest
    {
      var key :| key in rest;
      var e := Entry(cat, items[key]);
      var k := InsertionPoint(es, e.item.stamp);
      InsertKeepsLists(es, cat, done, e, k);
      es := es[..k] + [e] + es[k..];
      done := done[key := items[key]];
      rest := rest - {key};
    }
    assert done == items;
  }

  method ProcessingOrder(data: Message, all: map<Category, Items>) returns (es: seq<Entry>)
    requires all == AllData(data)
    ensures Orders(es, data)
  {
    DictionaryHoldsLast(FlagEntities(data.featureFlags));
    DictionaryHoldsLast(SegmentEntities(data.segments));
    var flagEntries := SortedEntries(FeatureFlags, all[FeatureFlags]);
    var segmentEntries := SortedEntries(Segments, all[Segments]);
    es := flagEntries + segmentEntries;
    assert es[..|flagEntries|] == flagEntries && es[|flagEntries|..] == segmentEntries;
  }

  // ---------- patches ----------

  /** The short-circuiting fold: stops at the first entry that is refused, keeping what was applied. */
  function ApplyPatch(s: Store, es: seq<Entry>): (Store, bool)
    decreases |es|
  {
    if es == [] then (s, true)
    else if UpsertEntry(s, es[0]).1 then ApplyPatch(UpsertEntry(s, es[0]).0, es[1..])
    else (s, false)
  }

  /** The patch holds at most one entry for each entity. */
  ghost predicate Distinct(es: seq<Entry>) {
    forall i, j :: 0 <= i < j < |es| ==> es[i].cat != es[j].cat || es[i].item.Id() != es[j].item.Id()
  }

  ghost predicate Patches(es: seq<Entry>, cat: Category, key: string) {
    exists e :: e in es && e.cat == cat && e.item.Id() == key
  }

  /** `r` is `s` with exactly the entries of the batch put over it. */
  ghost predicate Overridden(s: Store, es: seq<Entry>, r: Store) {
    && (forall e :: e in es ==> e.item.Id() in r.Of(e.cat) && r.Of(e.cat)[e.item.Id()] == e.item)
    && (forall cat, key :: !Patches(es, cat, key) ==>
          (key in r.Of(cat) <==> key in s.Of(cat)) && (key in s.Of(cat) ==> r.Of(cat)[key] == s.Of(cat)[key]))
  }

  lemma OrderedIsDistinct(es: seq<Entry>, data: Message)
    requires Orders(es, data)
    ensures Distinct(es)
  {
    var n :| 0 <= n <= |es| && Lists(es[..n], FeatureFlags, AllData(data)[FeatureFlags])
             && Lists(es[n..], Segments, AllData(data)[Segments]);
    forall i, j | 0 <= i < j < |es| ensures es[i].cat != es[j].cat || es[i].item.Id() != es[j].item.Id() {
      if j < n {
        assert es[..n][i] == es[i] && es[..n][j] == es[j];
      } else if n <= i {
        assert es[n..][i - n] == es[i] && es[n..][j - n] == es[j];
      } else {
        assert es[i] in es[..n] && es[j] in es[n..];
      }
    }
  }

  /** Later entries of the batch are unaffected by the first one. */
  lemma TailUnaffected(s: Store, es: seq<Entry>, e: Entry)
    requires Distinct(es) && es != [] && e in es[1..] && UpsertEntry(s, es[0]).1
    ensures Acceptable(UpsertEntry(s, es[0]).0, e) <==> Acceptable(s, e)
    ensures Distinct(es[1..])
  {
    UpsertContents(s, es[0]);
    var i :| 0 <= i < |es[1..]| && es[1..][i] == e;
    assert es[i + 1] == e;
  }

  /** A patch succeeds exactly when every entry is valid and newer than the stored entity. */
  lemma {:induction false} PatchAccepted(s: Store, es: seq<Entry>)
    requires Distinct(es)
    ensures ApplyPatch(s, es).1 <==> forall e :: e in es ==> Acceptable(s, e)
    decreases |es|
  {
    if es != [] {
      assert forall e :: e in es <==> e == es[0] || e in es[1..];
      if Acceptable(s, es[0]) {
        assert Distinct(es[1..]);
        var s1 := UpsertEntry(s, es[0]).0;
        PatchAccepted(s1, es[1..]);
        forall e | e in es[1..] ensures Acceptable(s1, e) <==> Acceptable(s, e) {
          TailUnaffected(s, es, e);
        }
      }
    }
  }

  lemma {:induction false} PatchOverrides(s: Store, es: seq<Entry>)
    requires Distinct(es) && ApplyPatch(s, es).1
    ensures Overridden(s, es, ApplyPatch(s, es).0)
    decreases |es|
  {
    if es != [] {
      var s1 := UpsertEntry(s, es[0]).0;
      UpsertContents(s, es[0]);
      HeadIsDistinct(es);
      PatchOverrides(s1, es[1..]);
      assert ApplyPatch(s, es).0 == ApplyPatch(s1, es[1..]).0;
      hide ApplyPatch, Overridden, Distinct, Store.Of;
      OverriddenStep(s, es, s1, ApplyPatch(s, es).0);
    }
  }

  lemma OverriddenStep(s: Store, es: seq<Entry>, s1: Store, r: Store)
    requires es != [] && Distinct(es) && Overridden(s1, es[1..], r)
    requires forall cat :: s1.Of(cat) == if cat == es[0].cat then s.Of(cat)[es[0].item.Id() := es[0].item] else s.Of(cat)
    ensures Overridden(s, es, r)
  {
    HeadIsDistinct(es);
    assert forall e :: e in es <==> e == es[0] || e in es[1..];
    hide Distinct, Patches, Store.Of;
  }

  /** The version of an accepted patch is the greatest of the start and its timestamps. */
  lemma {:induction false} PatchVersion(s: Store, es: seq<Entry>)
    requires ApplyPatch(s, es).1
    ensures var v := ApplyPatch(s, es).0.version;
            s.version <= v && (forall e :: e in es ==> e.item.stamp <= v)
            && (v == s.version || exists e :: e in es && e.item.stamp == v)
    ensures ApplyPatch(s, es).0.initialized == (s.initialized || es != [])
    decreases |es|
  {
    if es != [] {
      PatchVersion(UpsertEntry(s, es[0]).0, es[1..]);
      assert forall e :: e in es <==> e == es[0] || e in es[1..];
    }
  }

  /** An accepted patch overrides the store with the batch, and its version covers the batch. */
  lemma PatchContents(s: Store, es: seq<Entry>)
    requires Distinct(es) && ApplyPatch(s, es).1
    ensures Overridden(s, es, ApplyPatch(s, es).0)
    ensures var v := ApplyPatch(s, es).0.version;
            s.version <= v && (forall e :: e in es ==> e.item.stamp <= v)
            && (v == s.version || exists e :: e in es && e.item.stamp == v)
    ensures ApplyPatch(s, es).0.initialized == (s.initialized || es != [])
  {
    hide ApplyPatch, Overridden, Distinct;
    PatchOverrides(s, es);
    PatchVersion(s, es);
  }

  /** The entities of the tail are those of the batch without the first one. */
  lemma HeadIsDistinct(es: seq<Entry>)
    requires Distinct(es) && es != []
    ensures Distinct(es[1..]) && !Patches(es[1..], es[0].cat, es[0].item.Id())
    ensures forall cat, key :: Patches(es, cat, key) <==> Patches(es[1..], cat, key) || (cat == es[0].cat && key == es[0].item.Id())
  {
    assert forall e :: e in es <==> e == es[0] || e in es[1..];
    forall e | e in es[1..] ensures e.cat != es[0].cat || e.item.Id() != es[0].item.Id() {
      var i :| 0 <= i < |es[1..]| && es[1..][i] == e;
      assert es[i + 1] == e;
    }
  }

  /** The result of an accepted patch does not depend on how the sort breaks ties. */
  lemma PatchOrderIrrelevant(s: Store, es: seq<Entry>, es': seq<Entry>)
    requires Distinct(es) && Distinct(es') && forall e :: e in es <==> e in es'
    ensures ApplyPatch(s, es).1 == ApplyPatch(s, es').1
    ensures ApplyPatch(s, es).1 ==>
              && (forall cat :: ApplyPatch(s, es).0.Of(cat) == ApplyPatch(s, es').0.Of(cat))
              && ApplyPatch(s, es).0.version == ApplyPatch(s, es').0.version
              && ApplyPatch(s, es).0.initialized == ApplyPatch(s, es').0.initialized
  {
    PatchAccepted(s, es);
    PatchAccepted(s, es');
    if ApplyPatch(s, es).1 {
      PatchContents(s, es);
      PatchContents(s, es');
      if es != [] { assert es[0] in es'; }
      if es' != [] { assert es'[0] in es; }
      hide ApplyPatch, Overridden, Acceptable, Distinct, Store.Of;
      SameOverride(s, es, es', ApplyPatch(s, es).0, ApplyPatch(s, es').0);
    }
  }

  /** What overrides a store depends on the entries only. */
  lemma SameOverride(s: Store, es: seq<Entry>, es': seq<Entry>, r: Store, r': Store)
    requires Overridden(s, es, r) && Overridden(s, es', r') && forall e :: e in es <==> e in es'
    ensures forall cat :: r.Of(cat) == r'.Of(cat)
  {
    forall cat ensures r.Of(cat) == r'.Of(cat) {
      forall key ensures (key in r.Of(cat) <==> key in r'.Of(cat)) && (key in r.Of(cat) ==> r.Of(cat)[key] == r'.Of(cat)[key]) {
        if Patches(es, cat, key) {
          var e :| e in es && e.cat == cat && e.item.Id() == key;
        } else {
          assert !Patches(es', cat, key);
        }
      }
    }
  }

  /** A refused patch has applied exactly the entries before the first one that is not acceptable. */
  lemma {:induction false} PatchRefused(s: Store, es: seq<Entry>) returns (k: nat)
    requires Distinct(es) && !ApplyPatch(s, es).1
    ensures k < |es| && !Acceptable(s, es[k]) && forall i :: 0 <= i < k ==> Acceptable(s, es[i])
    ensures ApplyPatch(s, es[..k]).1 && ApplyPatch(s, es).0 == ApplyPatch(s, es[..k]).0
    decreases |es|
  {
    if !Acceptable(s, es[0]) {
      return 0;
    }
    assert Distinct(es[1..]);
    var k' := PatchRefused(UpsertEntry(s, es[0]).0, es[1..]);
    k := k' + 1;
    assert es[..k][1..] == es[1..][..k'];
    forall i | 1 <= i <= k ensures Acceptable(s, es[i]) <==> Acceptable(UpsertEntry(s, es[0]).0, es[i]) {
      assert es[1..][i - 1] == es[i];
      TailUnaffected(s, es, es[i]);
    }
  }

  /** Refusal is all-or-nothing if and only if the very first entry is the one refused. */
  lemma RefusalLeavesTrace(s: Store, es: seq<Entry>)
    requires Distinct(es) && !ApplyPatch(s, es).1
    ensures (forall cat :: ApplyPatch(s, es).0.Of(cat) == s.Of(cat)) <==> !Acceptable(s, es[0])
  {
    var k := PatchRefused(s, es);
    if k > 0 {
      assert Distinct(es[..k]);
      PatchContents(s, es[..k]);
      assert es[0] in es[..k];
      var e := es[0];
      assert ApplyPatch(s, es).0.Of(e.cat)[e.item.Id()] == e.item;
    }
  }

  // ---------- change notices ----------

  /** A condition without operator that lists the segment: the only kind of reference the scan sees. */
  predicate RefersDirectly(lib: Lib, f: Flag, id: string) {
    exists rule, c | rule in f.rules && c in rule.conditions ::
      Absent(c.op) && ListedIds(lib, c).Some? && id in ListedIds(lib, c).value
  }

  /** The flags announced for one entry: the flag itself, or the live flags the scan finds for a segment. */
  function Announced(lib: Lib, flags: map<string, Flag>, e: Entry): set<string> {
    match e.item
    case FlagItem(f, _) => {f.key}
    case SegmentItem(segment, _) => set k | k in flags && RefersDirectly(lib, flags[k], segment.id)
    case Tombstone(_, _) => {}
  }

  /** All announcements up to the first tombstone, where reading its category raises. */
  function BroadcastKeys(lib: Lib, flags: map<string, Flag>, es: seq<Entry>): set<string>
    decreases |es|
  {
    if es == [] || es[0].item.Tombstone? then {}
    else Announced(lib, flags, es[0]) + BroadcastKeys(lib, flags, es[1..])
  }

  predicate HasTombstone(es: seq<Entry>) {
    exists e :: e in es && e.item.Tombstone?
  }

  /** The entries before the first tombstone. */
  function LivePart(es: seq<Entry>): (live: seq<Entry>)
    ensures live <= es
    ensures live == es <==> !HasTombstone(es)
    ensures forall e :: e in live ==> !e.item.Tombstone?
    decreases |es|
  {
    if es == [] || es[0].item.Tombstone? then [] else
      assert es == [es[0]] + es[1..];
      [es[0]] + LivePart(es[1..])
  }

  /**
   * The announced flags are exactly the flags patched before the first tombstone, and the live flags that the
   * scan finds for a segment patched before it.
   */
  lemma {:induction false} BroadcastKeysExact(lib: Lib, flags: map<string, Flag>, es: seq<Entry>)
    ensures forall k :: k in BroadcastKeys(lib, flags, es) <==>
              || (exists e :: e in LivePart(es) && e.item.FlagItem? && e.item.flag.key == k)
              || (exists e :: e in LivePart(es) && e.item.SegmentItem? && k in flags && RefersDirectly(lib, flags[k], e.item.segment.id))
    decreases |es|
  {
    if es != [] && !es[0].item.Tombstone? {
      var rest := LivePart(es[1..]);
      assert LivePart(es) == [es[0]] + rest;
      assert forall e :: e in LivePart(es) <==> e == es[0] || e in rest;
      BroadcastKeysExact(lib, flags, es[1..]);
    }
  }

  /** With a tombstone, nothing behind it is announced. */
  lemma {:induction false} TombstoneStopsBroadcast(lib: Lib, flags: map<string, Flag>, es: seq<Entry>, k: nat)
    requires k < |es| && es[k].item.Tombstone?
    ensures BroadcastKeys(lib, flags, es) == BroadcastKeys(lib, flags, es[..k])
    decreases k
  {
    if k > 0 {
      assert es[..k][1..] == es[1..][..k - 1];
      TombstoneStopsBroadcast(lib, flags, es[1..], k - 1);
    }
  }

  const NOTICE_TYPE := "flag_change_notice"

  function NoticeEntries(ks: seq<string>): (r: seq<NB.Entry>)
    ensures |r| == |ks| && forall i :: 0 <= i < |r| ==> r[i] == NB.Accepted(NB.Notice(NOTICE_TYPE, ks[i]))
  {
    seq(|ks|, i requires 0 <= i < |ks| => NB.Accepted(NB.Notice(NOTICE_TYPE, ks[i])))
  }

  /** What broadcasting a duplicate-free list of keys does to the broadcaster. */
  function AfterBroadcast(sh: NB.Shared, ks: seq<string>): NB.Shared {
    if sh.closed then sh else sh.(queue := sh.queue + NoticeEntries(ks))
  }

  datatype Outcome = Done(ok: bool) | Failed

  class StreamingProcessor {
    const lib: Lib
    const storage: InMemoryDataStorage
    const broadcaster: NB.NoticeBroadcater
    const status: S.DataUpdateStatusProvider
    var ready: bool

    constructor (lib: Lib, storage: InMemoryDataStorage, broadcaster: NB.NoticeBroadcater, status: S.DataUpdateStatusProvider)
      ensures this.lib == lib && this.storage == storage && this.broadcaster == broadcaster && this.status == status && !ready
    {
      this.lib, this.storage, this.broadcaster, this.status := lib, storage, broadcaster, status;
      ready := false;
    }

    /** Announces one key unless it was announced before in this message. */
    method BroadcastOnce(key: string, announced: seq<string>) returns (announced': seq<string>)
      requires NoDuplicates(announced)
      modifies broadcaster
      ensures NoDuplicates(announced')
      ensures announced' == if key in announced then announced else announced + [key]
      ensures key in announced ==> broadcaster.View() == old(broadcaster.View())
      ensures key !in announced ==>
                broadcaster.View() == NB.Broadcasted(old(broadcaster.View()), NB.Notice(NOTICE_TYPE, key))
    {
      announced' := announced;
      if key !in announced {
        announced' := announced + [key];
        broadcaster.Broadcast(NB.Notice(NOTICE_TYPE, key));
      }
    }

    /** Announces a set of keys, in some order. */
    method BroadcastAll(keys: set<string>, announced: seq<string>, ghost start: NB.Shared) returns (announced': seq<string>)
      requires NoDuplicates(announced) && broadcaster.View() == AfterBroadcast(start, announced)
      modifies broadcaster
      ensures NoDuplicates(announced')
      ensures forall k :: k in announced' <==> k in announced || k in keys
      ensures broadcaster.View() == AfterBroadcast(start, announced')
    {
      announced' := announced;
      var rest := keys;
      while rest != {}
        invariant rest <= keys && NoDuplicates(announced')
        invariant forall k :: k in announced' <==> k in announced || k in keys - rest
        invariant broadcaster.View() == AfterBroadcast(start, announced')
        decreases rest
      {
        var key :| key in rest;
        ghost var was := announced';
        announced' := BroadcastOnce(key, announced');
        if key !in was {
          assert NoticeEntries(was + [key]) == NoticeEntries(was) + NoticeEntries([key]);
        }
        rest := rest - {key};
      }
    }

    /** The notices of an applied message; `raised` when a tombstone is met. */
    method Broadcasting(es: seq<Entry>, flags: map<string, Flag>) returns (announced: seq<string>, raised: bool)
      modifies broadcaster
      ensures NoDuplicates(announced)
      ensures forall k :: k in announced <==> k in BroadcastKeys(lib, flags, es)
      ensures raised <==> HasTombstone(es)
      ensures broadcaster.View() == AfterBroadcast(old(broadcaster.View()), announced)
    {
      announced := [];
      ghost var start := broadcaster.View();
      assert start == AfterBroadcast(start, []) by { assert start.queue + NoticeEntries([]) == start.queue; }
      var i := 0;
      assert es[0..] == es;
      while i < |es|
        invariant 0 <= i <= |es| && NoDuplicates(announced)
        invariant forall e :: e in es[..i] ==> !e.item.Tombstone?
        invariant forall k :: k in BroadcastKeys(lib, flags, es) <==> k in announced || k in BroadcastKeys(lib, flags, es[i..])
        invariant broadcaster.View() == AfterBroadcast(start, announced)
      {
        assert es[i] in es && es[i..][1..] == es[i + 1..];
        if es[i].item.Tombstone? {
          return announced, true;
        }
        announced := BroadcastAll(Announced(lib, flags, es[i]), announced, start);
        assert es[..i + 1] == es[..i] + [es[i]];
        i := i + 1;
      }
      assert es[..|es|] == es;
      return announced, false;
    }

    /** `all(upsert(...) for ...)`: stops at the first refusal. */
    method UpsertAll(entries: seq<Entry>) returns (ok: bool)
      modifies storage
      ensures (storage.State(), ok) == ApplyPatch(old(storage.State()), entries)
    {
      ok := true;
      ghost var start := storage.State();
      var i := 0;
      assert entries[0..] == entries;
      while ok && i < |entries|
        invariant 0 <= i <= |entries|
        invariant ok ==> ApplyPatch(start, entries) == ApplyPatch(storage.State(), entries[i..])
        invariant !ok ==> ApplyPatch(start, entries) == (storage.State(), false)
      {
        var item := entries[i].item;
        assert entries[i..][1..] == entries[i + 1..];
        ok := storage.Upsert(entries[i].cat, item.Id(), Some(item), Some(item.stamp));
        i := i + 1;
      }
    }

    /** The notices for an applied message, with the flags that are live by then. */
    method Publish(entries: seq<Entry>) returns (announced: seq<string>, raised: bool)
      modifies broadcaster
      ensures NoDuplicates(announced)
      ensures forall k :: k in announced <==> k in BroadcastKeys(lib, storage.State().Flags(), entries)
      ensures raised <==> HasTombstone(entries)
      ensures storage.State() == old(storage.State())
      ensures broadcaster.View() == AfterBroadcast(old(broadcaster.View()), announced)
    {
      var live := storage.GetAll(FeatureFlags);
      var flags := map k | k in live && live[k].FlagItem? :: live[k].flag;
      assert flags == storage.State().Flags();
      announced, raised := Broadcasting(entries, flags);
    }

    /** The store side of a message: a patch is folded in, a full snapshot replaces everything. */
    method ApplyMessage(data: Message, version: int, all: map<Category, Items>, entries: seq<Entry>) returns (ok: bool)
      requires version == VersionOf(data) && all == AllData(data)
      modifies storage
      ensures (storage.State(), ok) == Synced(old(storage.State()), data, entries)
    {
      if data.isPatch {
        ok := UpsertAll(entries);
      } else {
        ok := storage.Init(all, Some(version));
      }
    }

    /**
     * An applied message sets the ready event and reports a good state; `during` is what listeners and other
     * threads do to the status while the report is being published.
     */
    method Report(now: real, during: seq<seq<S.Action>>)
      modifies this`ready, status
      ensures ready
      ensures status.View() == S.Reported(old(status.View()), OkState(now), now, during)
      ensures during == [] ==> status.View().current.stateType == S.OK
    {
      if !ready {
        ready := true;
      }
      var publish := status.UpdateState(OkState(now), now);
      if publish {
        ghost var updated := status.View();
        var told := status.PublishPending(during);
        S.DrainedTells(updated, during);
      }
    }

    /**
     * One data-sync message. `order` and `announced` are the order of processing and the announced keys.
     * A refused message reports and broadcasts nothing; an applied one is reported before its notices, and fails
     * after them when it holds a tombstone.
     */
    method OnProcessData(data: Message, now: real, during: seq<seq<S.Action>>)
      returns (outcome: Outcome, ghost order: seq<Entry>, ghost announced: seq<string>)
      modifies this`ready, storage, broadcaster, status
      ensures Orders(order, data)
      ensures (storage.State(), outcome != Done(false)) == Synced(old(storage.State()), data, order)
      ensures outcome == Done(false) ==> announced == [] && ready == old(ready) && status.View() == old(status.View())
      ensures outcome != Done(false) ==>
                && NoDuplicates(announced)
                && (forall k :: k in announced <==> k in BroadcastKeys(lib, storage.State().Flags(), order))
                && (outcome == Failed <==> HasTombstone(order))
                && ready && status.View() == S.Reported(old(status.View()), OkState(now), now, during)
                && (during == [] ==> status.View().current.stateType == S.OK)
      ensures broadcaster.View() == AfterBroadcast(old(broadcaster.View()), announced)
    {
      var version, all := DataToDict(data);
      var entries := ProcessingOrder(data, all);
      order, announced := entries, [];
      var ok := ApplyMessage(data, version, all, entries);
      if !ok {
        assert NoticeEntries([]) == [];
        return Done(false), order, announced;
      }
      Report(now, during);
      var sent, raised := Publish(entries);
      announced := sent;
      outcome := if raised then Failed else Done(true);
    }
  }

  function OkState(now: real): S.State {
    S.State(S.OK, now, None)
  }

  /** The effect of a message on the store, given the order in which its entities are processed. */
  function Synced(s: Store, data: Message, order: seq<Entry>): (Store, bool) {
    if data.isPatch then ApplyPatch(s, order) else Initialized(s, AllData(data), Some(VersionOf(data)))
  }
}
