/** What an applied message leaves in the store, read off the message itself. */
module MessageMeaning {
  import opened Common
  import opened Model
  import opened DataStorage
  import opened Client
  import opened Streaming

  /** The flag at position `i` is the last one of the message with its key. */
  ghost predicate LastFlag(data: Message, i: nat) {
    && i < |data.featureFlags|
    && forall j :: i < j < |data.featureFlags| ==> data.featureFlags[j].flag.key != data.featureFlags[i].flag.key
  }

  ghost predicate LastSegment(data: Message, i: nat) {
    && i < |data.segments|
    && forall j :: i < j < |data.segments| ==> data.segments[j].segment.id != data.segments[i].segment.id
  }

  // ---------- the dictionaries ----------

  lemma FlagFiled(data: Message, i: nat)
    requires LastFlag(data, i)
    ensures var (raw, items) := (data.featureFlags[i], AllData(data)[FeatureFlags]);
            && raw.flag.key in items && items[raw.flag.key].stamp == raw.stamp
            && items[raw.flag.key] == if raw.isArchived then Tombstone(raw.flag.key, raw.stamp) else FlagItem(raw.flag, raw.stamp)
  {
    var items := FlagEntities(data.featureFlags);
    DictionaryHoldsLast(items);
    assert items[i].Id() == data.featureFlags[i].flag.key;
    hide Dictionary;
  }

  lemma SegmentFiled(data: Message, i: nat)
    requires LastSegment(data, i)
    ensures var (raw, items) := (data.segments[i], AllData(data)[Segments]);
            && raw.segment.id in items && items[raw.segment.id].stamp == raw.stamp
            && items[raw.segment.id] == if raw.isArchived then Tombstone(raw.segment.id, raw.stamp) else SegmentItem(raw.segment, raw.stamp)
  {
    var items := SegmentEntities(data.segments);
    DictionaryHoldsLast(items);
    assert items[i].Id() == data.segments[i].segment.id;
    hide Dictionary;
  }

  /** Every key of a dictionary is the one of some last entity. */
  lemma FiledFlag(data: Message, k: string) returns (i: nat)
    requires k in AllData(data)[FeatureFlags]
    ensures LastFlag(data, i) && data.featureFlags[i].flag.key == k
  {
    var items := FlagEntities(data.featureFlags);
    DictionaryHoldsLast(items);
    var item := AllData(data)[FeatureFlags][k];
    hide Dictionary;
    var j :| 0 <= j < |items| && items[j] == item;
    i := LastAt(data, k, j, |data.featureFlags|);
  }

  lemma {:induction false} LastAt(data: Message, k: string, j: nat, n: nat) returns (i: nat)
    requires j < n <= |data.featureFlags| && data.featureFlags[j].flag.key == k
    requires forall m :: n <= m < |data.featureFlags| ==> data.featureFlags[m].flag.key != k
    ensures LastFlag(data, i) && data.featureFlags[i].flag.key == k
  {
    if data.featureFlags[n - 1].flag.key == k {
      i := n - 1;
    } else {
      i := LastAt(data, k, j, n - 1);
    }
  }

  lemma FiledSegment(data: Message, k: string) returns (i: nat)
    requires k in AllData(data)[Segments]
    ensures LastSegment(data, i) && data.segments[i].segment.id == k
  {
    var items := SegmentEntities(data.segments);
    DictionaryHoldsLast(items);
    var item := AllData(data)[Segments][k];
    hide Dictionary;
    var j :| 0 <= j < |items| && items[j] == item;
    i := LastSegmentAt(data, k, j, |data.segments|);
  }

  lemma {:induction false} LastSegmentAt(data: Message, k: string, j: nat, n: nat) returns (i: nat)
    requires j < n <= |data.segments| && data.segments[j].segment.id == k
    requires forall m :: n <= m < |data.segments| ==> data.segments[m].segment.id != k
    ensures LastSegment(data, i) && data.segments[i].segment.id == k
  {
    if data.segments[n - 1].segment.id == k {
      i := n - 1;
    } else {
      i := LastSegmentAt(data, k, j, n - 1);
    }
  }

  lemma MentionedFlag(data: Message, k: string)
    requires k in AllData(data)[FeatureFlags]
    ensures exists raw :: raw in data.featureFlags && raw.flag.key == k
  {
    var i := FiledFlag(data, k);
    assert data.featureFlags[i] in data.featureFlags;
  }

  lemma MentionedSegment(data: Message, k: string)
    requires k in AllData(data)[Segments]
    ensures exists raw :: raw in data.segments && raw.segment.id == k
  {
    var i := FiledSegment(data, k);
    assert data.segments[i] in data.segments;
  }

  // ---------- the store after an applied message ----------

  /** The entries of a message are exactly those of its dictionaries. */
  lemma EntriesFiled(data: Message, order: seq<Entry>)
    requires Orders(order, data)
    ensures forall e :: e in order ==>
              e.cat in {FeatureFlags, Segments} && e.item.Id() in AllData(data)[e.cat] && AllData(data)[e.cat][e.item.Id()] == e.item
    ensures forall cat, k :: cat in {FeatureFlags, Segments} && k in AllData(data)[cat] ==> Entry(cat, AllData(data)[cat][k]) in order
  {
    hide Dictionary, SortedDistinct;
    var n :| 0 <= n <= |order| && Lists(order[..n], FeatureFlags, AllData(data)[FeatureFlags])
             && Lists(order[n..], Segments, AllData(data)[Segments]);
    assert order == order[..n] + order[n..];
    assert forall e :: e in order <==> e in order[..n] || e in order[n..];
  }

  /** An applied message stores the entities of its dictionaries; a snapshot nothing else, a patch what was there before. */
  lemma AppliedContents(s: Store, data: Message, order: seq<Entry>, cat: Category, k: string)
    requires Orders(order, data) && Synced(s, data, order).1 && cat in {FeatureFlags, Segments}
    ensures var (items, r) := (AllData(data)[cat], Synced(s, data, order).0);
            && (k in items ==> k in r.Of(cat) && r.Of(cat)[k] == items[k])
            && (k !in items && data.isPatch ==> (k in r.Of(cat) <==> k in s.Of(cat)) && (k in s.Of(cat) ==> r.Of(cat)[k] == s.Of(cat)[k]))
            && (k !in items && !data.isPatch ==> k !in r.Of(cat))
  {
    var items := AllData(data)[cat];
    if data.isPatch {
      OrderedIsDistinct(order, data);
      PatchContents(s, order);
      EntriesFiled(data, order);
      Keys(data);
      hide AllData, ApplyPatch, Orders;
      if k in items {
        assert Entry(cat, items[k]) in order && items[k].Id() == k;
      } else {
        assert !Patches(order, cat, k);
      }
    } else {
      hide Dictionary;
    }
  }

  lemma Keys(data: Message)
    ensures forall cat, k :: cat in {FeatureFlags, Segments} && k in AllData(data)[cat] ==> AllData(data)[cat][k].Id() == k
  {
    DictionaryHoldsLast(FlagEntities(data.featureFlags));
    DictionaryHoldsLast(SegmentEntities(data.segments));
    hide Dictionary;
  }

  /** The last flag with a key decides: archived, it is gone for every user; otherwise it is live as it was sent, with its timestamp. */
  lemma AppliedFlag(lib: Lib, s: Store, data: Message, order: seq<Entry>, i: nat, user: User)
    requires Orders(order, data) && Synced(s, data, order).1 && LastFlag(data, i)
    ensures var (raw, r) := (data.featureFlags[i], Synced(s, data, order).0);
            if raw.isArchived then raw.flag.key !in r.Flags() && Variation(lib, r, raw.flag.key, user) == Value(None)
            else && raw.flag.key in r.Flags() && r.Flags()[raw.flag.key] == raw.flag
                 && r.Of(FeatureFlags)[raw.flag.key].stamp == raw.stamp
  {
    var raw := data.featureFlags[i];
    FlagFiled(data, i);
    AppliedContents(s, data, order, FeatureFlags, raw.flag.key);
    hide AllData, Orders, Synced, Store.Of;
  }

  /** A flag that the message does not mention stays as it is under a patch, and is dropped by a snapshot. */
  lemma UnmentionedFlag(s: Store, data: Message, order: seq<Entry>, k: string)
    requires Orders(order, data) && Synced(s, data, order).1
    requires forall raw :: raw in data.featureFlags ==> raw.flag.key != k
    ensures var r := Synced(s, data, order).0;
            if data.isPatch then (k in r.Flags() <==> k in s.Flags()) && (k in s.Flags() ==> r.Flags()[k] == s.Flags()[k])
            else k !in r.Flags()
  {
    if k in AllData(data)[FeatureFlags] {
      MentionedFlag(data, k);
    }
    AppliedContents(s, data, order, FeatureFlags, k);
    hide AllData, Orders, Synced, Store.Of;
  }

  lemma AppliedSegment(s: Store, data: Message, order: seq<Entry>, i: nat)
    requires Orders(order, data) && Synced(s, data, order).1 && LastSegment(data, i)
    ensures var (raw, r) := (data.segments[i], Synced(s, data, order).0);
            if raw.isArchived then raw.segment.id !in r.Segs()
            else && raw.segment.id in r.Segs() && r.Segs()[raw.segment.id] == raw.segment
                 && r.Of(Segments)[raw.segment.id].stamp == raw.stamp
  {
    SegmentFiled(data, i);
    AppliedContents(s, data, order, Segments, data.segments[i].segment.id);
    hide AllData, Orders, Synced, Store.Of;
  }

  lemma UnmentionedSegment(s: Store, data: Message, order: seq<Entry>, k: string)
    requires Orders(order, data) && Synced(s, data, order).1
    requires forall raw :: raw in data.segments ==> raw.segment.id != k
    ensures var r := Synced(s, data, order).0;
            if data.isPatch then (k in r.Segs() <==> k in s.Segs()) && (k in s.Segs() ==> r.Segs()[k] == s.Segs()[k])
            else k !in r.Segs()
  {
    if k in AllData(data)[Segments] {
      MentionedSegment(data, k);
    }
    AppliedContents(s, data, order, Segments, k);
    hide AllData, Orders, Synced, Store.Of;
  }

  /** The processing of an applied message fails on a tombstone exactly if the last entity with some id is archived. */
  lemma FailsOnArchived(data: Message, order: seq<Entry>)
    requires Orders(order, data)
    ensures HasTombstone(order) <==>
              || (exists i: nat :: LastFlag(data, i) && data.featureFlags[i].isArchived)
              || (exists i: nat :: LastSegment(data, i) && data.segments[i].isArchived)
  {
    EntriesFiled(data, order);
    hide AllData, Orders;
    if e :| e in order && e.item.Tombstone? {
      if e.cat == FeatureFlags {
        var i := FiledFlag(data, e.item.Id());
        FlagFiled(data, i);
      } else {
        var i := FiledSegment(data, e.item.Id());
        SegmentFiled(data, i);
      }
    }
    if i: nat :| LastFlag(data, i) && data.featureFlags[i].isArchived {
      FlagFiled(data, i);
      assert Entry(FeatureFlags, AllData(data)[FeatureFlags][data.featureFlags[i].flag.key]) in order;
    }
    if i: nat :| LastSegment(data, i) && data.segments[i].isArchived {
      SegmentFiled(data, i);
      assert Entry(Segments, AllData(data)[Segments][data.segments[i].segment.id]) in order;
    }
  }

  lemma NewsAccepted(s: Store, data: Message, order: seq<Entry>)
    requires Orders(order, data) && forall e :: e in order ==> Acceptable(s, e)
    ensures forall i: nat :: LastFlag(data, i) ==> IsNews(s, FeatureFlags, data.featureFlags[i].flag.key, data.featureFlags[i].stamp)
    ensures forall i: nat :: LastSegment(data, i) ==> IsNews(s, Segments, data.segments[i].segment.id, data.segments[i].stamp)
  {
    EntriesFiled(data, order);
    Keys(data);
    hide AllData, Orders, LastFlag, LastSegment;
    forall i: nat | LastFlag(data, i) ensures IsNews(s, FeatureFlags, data.featureFlags[i].flag.key, data.featureFlags[i].stamp) {
      FlagFiled(data, i);
      assert Acceptable(s, Entry(FeatureFlags, AllData(data)[FeatureFlags][data.featureFlags[i].flag.key]));
    }
    forall i: nat | LastSegment(data, i) ensures IsNews(s, Segments, data.segments[i].segment.id, data.segments[i].stamp) {
      SegmentFiled(data, i);
      assert Acceptable(s, Entry(Segments, AllData(data)[Segments][data.segments[i].segment.id]));
    }
  }

  lemma OldRefused(s: Store, data: Message, order: seq<Entry>, e: Entry)
    requires Orders(order, data) && e in order && !Acceptable(s, e)
    ensures || (exists i: nat :: LastFlag(data, i) && !IsNews(s, FeatureFlags, data.featureFlags[i].flag.key, data.featureFlags[i].stamp))
            || (exists i: nat :: LastSegment(data, i) && !IsNews(s, Segments, data.segments[i].segment.id, data.segments[i].stamp))
  {
    EntriesFiled(data, order);
    hide AllData, Orders;
    if e.cat == FeatureFlags {
      var i := FiledFlag(data, e.item.Id());
      FlagFiled(data, i);
    } else {
      var i := FiledSegment(data, e.item.Id());
      SegmentFiled(data, i);
    }
  }

  /** A patch is applied exactly if the last entity with each id has an id, a positive timestamp, and is newer than what is stored. */
  lemma PatchApplies(s: Store, data: Message, order: seq<Entry>)
    requires Orders(order, data) && data.isPatch
    ensures Synced(s, data, order).1 <==>
              && (forall i: nat :: LastFlag(data, i) ==> IsNews(s, FeatureFlags, data.featureFlags[i].flag.key, data.featureFlags[i].stamp))
              && (forall i: nat :: LastSegment(data, i) ==> IsNews(s, Segments, data.segments[i].segment.id, data.segments[i].stamp))
  {
    OrderedIsDistinct(order, data);
    PatchAccepted(s, order);
    hide Orders, ApplyPatch, Distinct, Acceptable, LastFlag, LastSegment, IsNews;
    if forall e :: e in order ==> Acceptable(s, e) {
      NewsAccepted(s, data, order);
    } else {
      var e :| e in order && !Acceptable(s, e);
      OldRefused(s, data, order, e);
    }
  }

  /** An id, a positive timestamp, and nothing at least as recent stored under it. */
  ghost predicate IsNews(s: Store, cat: Category, key: string, stamp: int) {
    key != "" && stamp > 0 && (key in s.Of(cat) ==> s.Of(cat)[key].stamp < stamp)
  }
}
