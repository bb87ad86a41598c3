/** The store over whole histories of data-sync messages. */
module SyncHistory {
  import opened Model
  import opened DataStorage
  import opened Streaming

  /** The store moves by one message, processed in some admissible order. */
  ghost predicate Syncs(s: Store, data: Message, s': Store) {
    exists order :: Orders(order, data) && s' == Synced(s, data, order).0
  }

  ghost predicate History(ss: seq<Store>, messages: seq<Message>) {
    && |ss| == |messages| + 1 && ss[0] == EMPTY
    && forall i :: 0 <= i < |messages| ==> Syncs(ss[i], messages[i], ss[i + 1])
  }

  /** No two flags and no two segments of the message share an id. */
  ghost predicate UniqueKeys(data: Message) {
    && (forall i, j :: 0 <= i < j < |data.featureFlags| ==> data.featureFlags[i].flag.key != data.featureFlags[j].flag.key)
    && (forall i, j :: 0 <= i < j < |data.segments| ==> data.segments[i].segment.id != data.segments[j].segment.id)
  }

  /** The version is the greatest stored timestamp, or zero. */
  ghost predicate Tight(s: Store) {
    s.version == 0 || exists cat, key :: key in s.Of(cat) && s.Of(cat)[key].stamp == s.version
  }

  lemma DictionaryBounded(items: seq<Item>)
    ensures forall k :: k in Dictionary(items) ==> Dictionary(items)[k].stamp <= Greatest(items)
    ensures (forall i, j :: 0 <= i < j < |items| ==> items[i].Id() != items[j].Id()) && Greatest(items) > 0 ==>
              exists k :: k in Dictionary(items) && Dictionary(items)[k].stamp == Greatest(items)
  {
    DictionaryHoldsLast(items);
    GreatestIsGreatest(items);
    if (forall i, j :: 0 <= i < j < |items| ==> items[i].Id() != items[j].Id()) && Greatest(items) > 0 {
      var i :| 0 <= i < |items| && items[i].stamp == Greatest(items);
      assert Dictionary(items)[items[i].Id()] == items[i];
    }
  }

  lemma SnapshotVersion(data: Message, s: Store)
    requires s == Store(AllData(data), VersionOf(data), true)
    ensures Consistent(s) && s.version >= 0
    ensures UniqueKeys(data) ==> Tight(s)
  {
    var fs, ss := FlagEntities(data.featureFlags), SegmentEntities(data.segments);
    GreatestIsGreatest(fs);
    DictionaryBounded(fs);
    DictionaryBounded(ss);
    hide Dictionary, Greatest;
    assert s.Of(FeatureFlags) == Dictionary(fs) && s.Of(Segments) == Dictionary(ss) && s.Of(DataTest) == map[];
    if UniqueKeys(data) && s.version != 0 {
      var items := if Greatest(fs) == s.version then fs else ss;
      var k :| k in Dictionary(items) && Dictionary(items)[k].stamp == s.version;
      assert k in s.Of(if Greatest(fs) == s.version then FeatureFlags else Segments);
    }
  }

  /** One upsert keeps the invariant, and under every key timestamps only grow. */
  lemma UpsertStep(s: Store, e: Entry)
    requires Consistent(s) && s.version >= 0
    ensures var r := UpsertEntry(s, e).0;
            && Consistent(r) && r.version >= s.version && (s.initialized ==> r.initialized)
            && (Tight(s) ==> Tight(r)) && StampsGrow(s, r)
  {
    var r := UpsertEntry(s, e).0;
    UpsertContents(s, e);
    if UpsertEntry(s, e).1 && Tight(s) {
      if r.version == e.item.stamp {
        assert e.item.Id() in r.Of(e.cat);
      } else {
        var cat, key :| key in s.Of(cat) && s.Of(cat)[key].stamp == s.version;
        assert key in r.Of(cat) && r.Of(cat)[key].stamp == r.version;
      }
    }
  }

  ghost predicate StampsGrow(s: Store, r: Store) {
    forall cat, key :: key in s.Of(cat) ==> key in r.Of(cat) && s.Of(cat)[key].stamp <= r.Of(cat)[key].stamp
  }

  lemma {:induction false} PatchStep(s: Store, es: seq<Entry>)
    requires Consistent(s) && s.version >= 0
    ensures var r := ApplyPatch(s, es).0;
            && Consistent(r) && r.version >= s.version && (s.initialized ==> r.initialized)
            && (Tight(s) ==> Tight(r)) && StampsGrow(s, r)
    decreases |es|
  {
    if es != [] {
      UpsertStep(s, es[0]);
      if UpsertEntry(s, es[0]).1 {
        PatchStep(UpsertEntry(s, es[0]).0, es[1..]);
      }
    }
  }

  /** One message, accepted or not. A patch never lowers the timestamp under a key; an accepted snapshot may. */
  lemma SyncStep(s: Store, data: Message, s': Store)
    requires Consistent(s) && s.version >= 0 && Syncs(s, data, s')
    ensures Consistent(s') && s'.version >= s.version && (s.initialized ==> s'.initialized)
    ensures Tight(s) && (data.isPatch || UniqueKeys(data)) ==> Tight(s')
    ensures data.isPatch ==> StampsGrow(s, s')
  {
    var order :| Orders(order, data) && s' == Synced(s, data, order).0;
    if data.isPatch {
      PatchStep(s, order);
    } else if s' != s {
      SnapshotVersion(data, s');
    }
  }

  lemma HistoryStep(ss: seq<Store>, messages: seq<Message>, i: nat)
    requires History(ss, messages) && i < |messages|
    ensures Syncs(ss[i], messages[i], ss[i + 1])
  {
    hide Syncs;
  }

  ghost predicate Sound(s: Store) {
    Consistent(s) && s.version >= 0
  }

  ghost predicate Follows(s: Store, r: Store) {
    s.version <= r.version && (s.initialized ==> r.initialized)
  }

  lemma {:induction false} VersionsFollow(ss: seq<Store>, messages: seq<Message>, i: nat)
    requires History(ss, messages) && i < |ss|
    ensures Sound(ss[i]) && forall k :: 0 <= k <= i ==> Follows(ss[k], ss[i])
  {
    if i > 0 {
      HistoryStep(ss, messages, i - 1);
      hide History, Syncs, Consistent, Tight, UniqueKeys, StampsGrow;
      VersionsFollow(ss, messages, i - 1);
      SyncStep(ss[i - 1], messages[i - 1], ss[i]);
      assert Sound(ss[i]) && Follows(ss[i - 1], ss[i]);
      hide Sound, Follows;
      forall k | 0 <= k < i ensures Follows(ss[k], ss[i]) {
        FollowsOn(ss[k], ss[i - 1], ss[i]);
      }
      FollowsOn(ss[i], ss[i], ss[i]);
    }
  }

  lemma FollowsOn(s: Store, r: Store, r': Store)
    ensures Follows(s, r) && Follows(r, r') ==> Follows(s, r')
    ensures Follows(s, s)
  {
  }

  lemma VersionOverHistory(ss: seq<Store>, messages: seq<Message>, i: nat)
    requires History(ss, messages) && i < |ss|
    ensures Consistent(ss[i]) && ss[i].version >= 0
    ensures forall k :: 0 <= k <= i ==> ss[k].version <= ss[i].version && (ss[k].initialized ==> ss[i].initialized)
  {
    VersionsFollow(ss, messages, i);
    hide History, Consistent;
    assert forall k :: 0 <= k <= i ==> Follows(ss[k], ss[i]);
  }

  lemma {:induction false} TightOverHistory(ss: seq<Store>, messages: seq<Message>, i: nat)
    requires History(ss, messages) && i < |ss|
    requires forall k :: 0 <= k < i ==> messages[k].isPatch || UniqueKeys(messages[k])
    ensures Tight(ss[i])
  {
    if i > 0 {
      HistoryStep(ss, messages, i - 1);
      hide History, Syncs, Consistent, Tight, UniqueKeys, StampsGrow;
      VersionOverHistory(ss, messages, i - 1);
      TightOverHistory(ss, messages, i - 1);
      SyncStep(ss[i - 1], messages[i - 1], ss[i]);
    }
  }

  /** A snapshot that is refused, or a repeated empty one, leaves the store alone; any other replaces it. */
  ghost predicate Replaces(s: Store, data: Message, s': Store) {
    !data.isPatch && s' != s
  }

  /** As long as no accepted snapshot replaces the store, per-entity timestamps never decrease. */
  lemma {:induction false} StampsOverPatches(ss: seq<Store>, messages: seq<Message>, i: nat, j: nat)
    requires History(ss, messages) && i <= j < |ss|
    requires forall k :: i <= k < j ==> !Replaces(ss[k], messages[k], ss[k + 1])
    ensures StampsGrow(ss[i], ss[j])
    decreases j
  {
    if i < j {
      HistoryStep(ss, messages, j - 1);
      hide History, Syncs, Consistent, Tight, StampsGrow;
      StampsOverPatches(ss, messages, i, j - 1);
      VersionOverHistory(ss, messages, j - 1);
      assert !Replaces(ss[j - 1], messages[j - 1], ss[j]);
      if messages[j - 1].isPatch {
        SyncStep(ss[j - 1], messages[j - 1], ss[j]);
        GrowingOn(ss[i], ss[j - 1], ss[j]);
      }
    } else {
      hide History;
    }
  }

  lemma GrowingOn(s: Store, r: Store, r': Store)
    requires StampsGrow(s, r) && StampsGrow(r, r')
    ensures StampsGrow(s, r')
  {
  }
}
