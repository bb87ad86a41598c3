/** Which flags a patch can change for some user, against which flags are announced. */
module NoticeSoundness {
  import opened Common
  import opened VariationSplitting
  import opened Model
  import opened Evaluator
  import opened EvaluatorFrame
  import opened EvaluatorMeaning
  import opened DataStorage
  import opened Client
  import opened Streaming

  /** Flags are filed under feature flags and segments under segments, as the conversion does. */
  ghost predicate Filed(es: seq<Entry>) {
    forall e :: e in es ==> (e.item.FlagItem? ==> e.cat == FeatureFlags) && (e.item.SegmentItem? ==> e.cat == Segments)
                            && e.cat != DataTest && (e.cat == FeatureFlags ==> !e.item.SegmentItem?)
  }

  lemma ListedIsFiled(es: seq<Entry>, cat: Category, items: seq<Item>)
    requires Lists(es, cat, Dictionary(items))
    ensures forall e :: e in es ==> e.cat == cat && e.item in items
  {
    DictionaryHoldsLast(items);
  }

  lemma OrderedIsFiled(es: seq<Entry>, data: Message)
    requires Orders(es, data)
    ensures Filed(es)
  {
    hide Lists, Dictionary;
    var n :| 0 <= n <= |es| && Lists(es[..n], FeatureFlags, AllData(data)[FeatureFlags])
             && Lists(es[n..], Segments, AllData(data)[Segments]);
    ListedIsFiled(es[..n], FeatureFlags, FlagEntities(data.featureFlags));
    ListedIsFiled(es[n..], Segments, SegmentEntities(data.segments));
    assert es == es[..n] + es[n..];
  }

  lemma UnpatchedFlag(s: Store, es: seq<Entry>, r: Store, key: string)
    requires Overridden(s, es, r) && !Patches(es, FeatureFlags, key)
    ensures key in s.Flags() <==> key in r.Flags()
    ensures key in s.Flags() ==> s.Flags()[key] == r.Flags()[key]
  {
  }

  lemma UnpatchedSegment(s: Store, es: seq<Entry>, r: Store, id: string)
    requires Overridden(s, es, r) && !Patches(es, Segments, id)
    ensures SameOn(s.Segs(), r.Segs(), iset{id})
  {
  }

  lemma VariationFrame(lib: Lib, s: Store, r: Store, key: string, user: User)
    requires s.initialized && r.initialized
    requires key in s.Flags() && key in r.Flags() && s.Flags()[key] == r.Flags()[key]
    requires Variation(lib, s, key, user) != Variation(lib, r, key, user)
    ensures exists id :: Reaches(lib, s.Segs(), s.Flags()[key], id) && !SameOn(s.Segs(), r.Segs(), iset{id})
  {
    hide Reaches, Store.Flags, Store.Segs, Evaluate, SameOn;
    ChangeIsReachable(lib, s.Segs(), r.Segs(), s.Flags()[key], user);
  }

  /**
   * With no hypothesis on nesting, operators or tombstones: if an accepted patch changes the value of a flag
   * for any user, then it patches the flag, or it patches a segment on a reference path of the flag.
   */
  lemma ChangeIsPatched(lib: Lib, s: Store, es: seq<Entry>, key: string, user: User)
    requires Consistent(s) && Distinct(es) && ApplyPatch(s, es).1
    requires Variation(lib, s, key, user) != Variation(lib, ApplyPatch(s, es).0, key, user)
    ensures || Patches(es, FeatureFlags, key)
            || (key in s.Flags() && exists id :: Patches(es, Segments, id) && Reaches(lib, s.Segs(), s.Flags()[key], id))
  {
    var r := ApplyPatch(s, es).0;
    PatchContents(s, es);
    if !Patches(es, FeatureFlags, key) {
      hide Patches, Overridden, Reaches, SameOn, ApplyPatch, Evaluate;
      UnpatchedFlag(s, es, r, key);
      assert !s.initialized ==> key !in s.Flags();
      VariationFrame(lib, s, r, key, user);
      var id :| Reaches(lib, s.Segs(), s.Flags()[key], id) && !SameOn(s.Segs(), r.Segs(), iset{id});
      if !Patches(es, Segments, id) {
        UnpatchedSegment(s, es, r, id);
      }
    }
  }

  /** The entry is the flag itself, or a segment on a reference path of the flag. */
  ghost predicate Concerns(lib: Lib, s: Store, e: Entry, key: string) {
    || (e.cat == FeatureFlags && e.item.Id() == key)
    || (e.cat == Segments && key in s.Flags() && Reaches(lib, s.Segs(), s.Flags()[key], e.item.Id()))
  }

  /** If the entry concerns the flag, it lies before the first tombstone and, being a segment, is referenced directly. */
  ghost predicate Seen(lib: Lib, s: Store, e: Entry, es: seq<Entry>, key: string) {
    Concerns(lib, s, e, key) ==> e in LivePart(es) && (e.cat == Segments ==> RefersDirectly(lib, s.Flags()[key], e.item.Id()))
  }

  /**
   * Soundness of the notices, flag by flag: when every entry that concerns the flag is seen, a change of the flag
   * for any user is announced, whatever else the patch archives and whatever other flags look like.
   */
  lemma NoticesSound(lib: Lib, s: Store, es: seq<Entry>, key: string, user: User)
    requires Consistent(s) && Distinct(es) && Filed(es) && ApplyPatch(s, es).1
    requires forall e :: e in es ==> Seen(lib, s, e, es, key)
    requires Variation(lib, s, key, user) != Variation(lib, ApplyPatch(s, es).0, key, user)
    ensures key in BroadcastKeys(lib, ApplyPatch(s, es).0.Flags(), es)
  {
    var r := ApplyPatch(s, es).0;
    ChangeIsPatched(lib, s, es, key, user);
    BroadcastKeysExact(lib, r.Flags(), es);
    PatchContents(s, es);
    hide Variation, ApplyPatch, BroadcastKeys, Reaches, RefersDirectly, Overridden;
    if Patches(es, FeatureFlags, key) {
      var e :| e in es && e.cat == FeatureFlags && e.item.Id() == key;
      assert Seen(lib, s, e, es, key);
    } else {
      var id :| Patches(es, Segments, id) && Reaches(lib, s.Segs(), s.Flags()[key], id);
      var e :| e in es && e.cat == Segments && e.item.Id() == id;
      assert Seen(lib, s, e, es, key);
      UnpatchedFlag(s, es, r, key);
    }
  }

  /** The same of a whole patch message: what its processing announces holds every flag it changes. */
  lemma MessageNoticesSound(lib: Lib, s: Store, data: Message, order: seq<Entry>, announced: seq<string>, key: string, user: User)
    requires data.isPatch && Consistent(s)
    ensures var (r, ok) := Synced(s, data, order);
            && Orders(order, data) && ok && (forall k :: k in announced <==> k in BroadcastKeys(lib, r.Flags(), order))
            && (forall e :: e in order ==> Seen(lib, s, e, order, key))
            && Variation(lib, s, key, user) != Variation(lib, r, key, user)
            ==> key in announced
  {
    var r, ok := Synced(s, data, order).0, Synced(s, data, order).1;
    if Orders(order, data) && ok && (forall e :: e in order ==> Seen(lib, s, e, order, key))
       && Variation(lib, s, key, user) != Variation(lib, r, key, user) {
      OrderedIsDistinct(order, data);
      OrderedIsFiled(order, data);
      hide Variation, Orders, Seen;
      NoticesSound(lib, s, order, key, user);
    }
  }

  /** Whatever segment the flag can reach, the scan finds the flag for it. */
  ghost predicate ScanSees(lib: Lib, s: Store, key: string) {
    key in s.Flags() ==> forall id :: Reaches(lib, s.Segs(), s.Flags()[key], id) ==> RefersDirectly(lib, s.Flags()[key], id)
  }

  lemma ScanSeesEntries(lib: Lib, s: Store, es: seq<Entry>, key: string)
    requires ScanSees(lib, s, key) && !HasTombstone(es)
    ensures forall e :: e in es ==> Seen(lib, s, e, es, key)
  {
    hide Reaches, RefersDirectly;
  }

  /** No stored segment refers to a segment, and flags refer to segments without an operator only. */
  ghost predicate Plain(lib: Lib, s: Store) {
    && (forall id :: id in s.Segs() ==> SegmentRefs(lib, s.Segs()[id]) == {})
    && (forall key, rule, c | key in s.Flags() && rule in s.Flags()[key].rules && c in rule.conditions ::
          OperatorOf(c) in {InSegment, NotInSegment} ==> Absent(c.op))
  }

  lemma PlainIsSeen(lib: Lib, s: Store, key: string)
    requires Plain(lib, s)
    ensures ScanSees(lib, s, key)
  {
  }

  // ---------- snapshots ----------

  /**
   * A snapshot announces exactly the flags that are live afterwards and lie before its first tombstone: without
   * tombstones all live flags, and never a flag that it drops.
   */
  lemma SnapshotAnnounces(lib: Lib, data: Message, order: seq<Entry>, s: Store, key: string)
    requires Orders(order, data) && s.contents == AllData(data)
    ensures key in BroadcastKeys(lib, s.Flags(), order) <==>
              key in s.Flags() && Entry(FeatureFlags, s.Of(FeatureFlags)[key]) in LivePart(order)
    ensures !HasTombstone(order) ==> (key in BroadcastKeys(lib, s.Flags(), order) <==> key in s.Flags())
  {
    var items := AllData(data)[FeatureFlags];
    assert s.Of(FeatureFlags) == items;
    var n :| 0 <= n <= |order| && Lists(order[..n], FeatureFlags, items) && Lists(order[n..], Segments, AllData(data)[Segments]);
    OrderedIsFiled(order, data);
    DictionaryHoldsLast(FlagEntities(data.featureFlags));
    FlagEntries(order, n, items);
    FlagsComeFirst(order, n, items);
    hide Lists, AllData, LivePart, Orders, BroadcastKeys;
    LiveFlagsAnnounced(lib, s.Flags(), order, items, key);
  }

  lemma LiveFlagsAnnounced(lib: Lib, flags: map<string, Flag>, order: seq<Entry>, items: Items, key: string)
    requires Filed(order) && forall k :: k in flags <==> k in items && items[k].FlagItem?
    requires forall e :: e in order && e.cat == FeatureFlags ==> e.item.Id() in items && items[e.item.Id()] == e.item
    requires Keyed(items)
    requires (exists e :: e in LivePart(order) && e.cat == Segments) ==> forall k :: k in items ==> Entry(FeatureFlags, items[k]) in LivePart(order)
    ensures key in BroadcastKeys(lib, flags, order) <==> key in flags && Entry(FeatureFlags, items[key]) in LivePart(order)
  {
    BroadcastKeysExact(lib, flags, order);
    var live := LivePart(order);
    assert forall e :: e in live ==> e in order;
    hide BroadcastKeys, RefersDirectly, LivePart;
    if e :| e in live && e.item.FlagItem? && e.item.flag.key == key {
      assert e.cat == FeatureFlags && e == Entry(FeatureFlags, items[key]);
    }
    if e :| e in live && e.item.SegmentItem? && key in flags && RefersDirectly(lib, flags[key], e.item.segment.id) {
      assert e.cat == Segments;
    }
    if key in flags && Entry(FeatureFlags, items[key]) in live {
      var e := Entry(FeatureFlags, items[key]);
      assert e in live && e.item.FlagItem? && e.item.flag.key == key;
    }
  }

  /** The flag entries of a message are those of the dictionary, each under its own key. */
  lemma FlagEntries(order: seq<Entry>, n: nat, items: Items)
    requires n <= |order| && Lists(order[..n], FeatureFlags, items) && exists others :: Lists(order[n..], Segments, others)
    ensures forall e :: e in order && e.cat == FeatureFlags ==> e.item.Id() in items && items[e.item.Id()] == e.item
    ensures forall k :: k in items ==> Entry(FeatureFlags, items[k]) in order
  {
    hide SortedDistinct;
    assert order == order[..n] + order[n..];
    assert forall e :: e in order <==> e in order[..n] || e in order[n..];
  }

  /** A segment entry before the first tombstone has all flags before it. */
  lemma FlagsComeFirst(order: seq<Entry>, n: nat, items: Items)
    requires n <= |order| && Lists(order[..n], FeatureFlags, items)
    ensures (exists e :: e in LivePart(order) && e.cat == Segments) ==> forall k :: k in items ==> Entry(FeatureFlags, items[k]) in LivePart(order)
  {
    hide SortedDistinct;
    var live := LivePart(order);
    if e :| e in live && e.cat == Segments {
      var i :| 0 <= i < |live| && live[i] == e;
      forall j | 0 <= j < n ensures order[j].cat == FeatureFlags {
        assert order[..n][j] in order[..n];
      }
      assert order[i] == e && i >= n;
      assert order[..n] == live[..n];
      assert forall x :: x in live[..n] ==> x in live;
    }
  }

  /**
   * What an accepted snapshot does to a flag is unannounced exactly when it drops the flag or hides it behind a
   * tombstone; a dropped flag reads as unknown for every user.
   */
  lemma SnapshotSilentExactly(lib: Lib, s: Store, data: Message, order: seq<Entry>, key: string, user: User)
    requires !data.isPatch && Orders(order, data) && Synced(s, data, order).1
    ensures var r := Synced(s, data, order).0;
            && (s != r ==> (key !in BroadcastKeys(lib, r.Flags(), order) <==>
                  key !in r.Flags() || Entry(FeatureFlags, r.Of(FeatureFlags)[key]) !in LivePart(order)))
            && (s != r && !HasTombstone(order) ==> (key !in BroadcastKeys(lib, r.Flags(), order) <==> key !in r.Flags()))
            && (key !in r.Flags() ==> Variation(lib, r, key, user) == Value(None))
  {
    var r := Synced(s, data, order).0;
    if s != r {
      SnapshotAnnounces(lib, data, order, r, key);
    }
  }

  // ---------- the places where the claim fails ----------

  /**
   * Archiving a flag is silent in every patch: the flag is gone for every user, the processing fails, and the
   * flag is not announced.
   */
  lemma ArchivingIsSilent(lib: Lib, s: Store, es: seq<Entry>, key: string, t: int, user: User)
    requires Distinct(es) && Filed(es) && ApplyPatch(s, es).1 && Entry(FeatureFlags, Tombstone(key, t)) in es
    ensures var r := ApplyPatch(s, es).0;
            HasTombstone(es) && key !in BroadcastKeys(lib, r.Flags(), es) && Variation(lib, r, key, user) == Value(None)
  {
    var e, r := Entry(FeatureFlags, Tombstone(key, t)), ApplyPatch(s, es).0;
    PatchContents(s, es);
    BroadcastKeysExact(lib, r.Flags(), es);
    assert e.item.Tombstone?;
    assert r.Of(FeatureFlags)[key] == e.item;
    forall x | x in LivePart(es) && x.item.FlagItem? ensures x.item.flag.key != key {
      var i :| 0 <= i < |es| && es[i] == e;
      var j :| 0 <= j < |es| && es[j] == x;
      assert i != j && x.cat == FeatureFlags;
    }
  }

  /** Serves "yes" to the users who satisfy the condition and "no" to the others. */
  function YesNo(key: string, c: Condition): Flag {
    var all := (id: string) => Serving(None, false, [Rollout(id, Range(0.0, 1.0), 0.0)]);
    Flag(key, key, "string", map["yes" := "yes", "no" := "no"], true, "no", [], [Rule([c], all("yes"))], all("no"), false)
  }

  lemma YesNoRefers(lib: Lib, key: string, c: Condition, id: string)
    ensures RefersDirectly(lib, YesNo(key, c), id) <==> Absent(c.op) && ListedIds(lib, c).Some? && id in ListedIds(lib, c).value
  {
    var f := YesNo(key, c);
    assert f.rules[0] in f.rules && c in f.rules[0].conditions;
  }

  lemma YesNoValue(lib: Lib, segs: map<string, Segment>, key: string, c: Condition, id: string, user: User)
    requires OperatorOf(c) == InSegment && ListedIds(lib, c) == Some([id])
    ensures var yes := Member(lib, segs, user, id, lib.depth) == Value(true);
            Evaluate(lib, segs, YesNo(key, c), user) ==
            Evaluator.Served(YesNo(key, c), if yes then "yes" else "no", if yes then RuleMatch else Fallthrough, false)
  {
    var f := YesNo(key, c);
    var m := Members(lib, segs, user, lib.depth);
    SingleCondition(lib, user, c, id, m);
    var rule := f.rules[0];
    assert EvaluatorMeaning.Outcome(lib, segs, user, rule) == Value(m(id) == Value(true));
    assert NotTargeted(f, user) && if m(id) == Value(true) then FirstRule(lib, segs, f, user, 0) else NoRule(lib, segs, f, user);
    EvaluateMeaning(lib, segs, f, user);
    FullRange(lib, f, rule.serving, user, RuleMatch, "yes");
    FullRange(lib, f, f.fallthrough, user, Fallthrough, "no");
  }

  lemma SingleCondition(lib: Lib, user: User, c: Condition, id: string, m: Oracle)
    requires OperatorOf(c) == InSegment && ListedIds(lib, c) == Some([id])
    ensures AllHold(lib, user, [c], m) == Value(m(id) == Value(true))
    ensures AnyRule(lib, user, [[c]], m) == Value(m(id) == Value(true))
  {
    assert AnyMember([id][1..], m) == Value(false);
    assert SegmentHolds(lib, c, m) <==> m(id) == Value(true);
    assert AllHold(lib, user, [c][1..], m) == Value(true);
    assert AnyRule(lib, user, [[c]][1..], m) == Value(false);
  }

  /** The flag serves different values to the user before and after the segment starts to contain them. */
  lemma YesNoChanges(lib: Lib, s: Store, r: Store, key: string, c: Condition, id: string, user: User)
    requires OperatorOf(c) == InSegment && ListedIds(lib, c) == Some([id]) && key != ""
    requires s.initialized && r.initialized && key in s.Flags() && key in r.Flags()
    requires s.Flags()[key] == r.Flags()[key] == YesNo(key, c)
    requires Member(lib, s.Segs(), user, id, lib.depth) != Value(true)
    requires Member(lib, r.Segs(), user, id, lib.depth) == Value(true)
    requires lib.cast("string", "yes") != lib.cast("string", "no")
    ensures Variation(lib, s, key, user) != Variation(lib, r, key, user)
  {
    hide Member, Store.Flags, Store.Segs, Evaluate;
    YesNoValue(lib, s.Segs(), key, c, id, user);
    YesNoValue(lib, r.Segs(), key, c, id, user);
  }

  lemma FullRange(lib: Lib, f: Flag, serving: Serving, user: User, reason: Reason, id: string)
    requires serving == Serving(None, false, [Rollout(id, Range(0.0, 1.0), 0.0)])
    requires !f.exptIncludeAllTargets
    ensures RolloutOption(lib, f, serving, user, reason) == Evaluator.Served(f, id, reason, false)
  {
    assert Ranges(serving.variations)[0].IsFull();
  }

  /** A segment of exactly the listed users. */
  function Listing(id: string, users: seq<string>): Segment {
    Segment(id, users, [], [])
  }

  /** Patching one segment, and what is announced for it. */
  lemma SegmentPatch(lib: Lib, s: Store, id: string, segment: Segment, t: int) returns (es: seq<Entry>, r: Store)
    requires segment.id == id && id != "" && Consistent(s) && s.initialized && t > s.version >= 0
    ensures es == [Entry(Segments, SegmentItem(segment, t))] && (r, true) == ApplyPatch(s, es) && !HasTombstone(es)
    ensures r.initialized && r.Flags() == s.Flags() && r.Segs() == s.Segs()[id := segment]
    ensures (forall k :: k in s.Flags() ==> !RefersDirectly(lib, s.Flags()[k], id)) ==> BroadcastKeys(lib, r.Flags(), es) == {}
  {
    var e := Entry(Segments, SegmentItem(segment, t));
    es, r := [e], ApplyPatch(s, [e]).0;
    assert e in es && Acceptable(s, e);
    PatchAccepted(s, es);
    PatchContents(s, es);
    UpsertContents(s, e);
    assert es[1..] == [];
    assert r == UpsertEntry(s, e).0;
    assert r.Of(FeatureFlags) == s.Of(FeatureFlags);
    BroadcastKeysExact(lib, r.Flags(), es);
  }

  /**
   * A reference through an operator is not scanned: the flag reads the segment, patching the segment changes
   * the flag for the user, and nothing is announced.
   */
  lemma OperatorReferenceIsSilent(lib: Lib, s: Store, key: string, c: Condition, id: string, user: User, t: int)
    requires Consistent(s) && s.initialized && s.Flags() == map[key := YesNo(key, c)] && key != "" && id != ""
    requires OperatorOf(c) == InSegment && !Absent(c.op) && ListedIds(lib, c) == Some([id])
    requires id in s.Segs() && s.Segs()[id] == Listing(id, []) && t > s.version >= 0
    requires lib.depth > 0 && lib.cast("string", "yes") != lib.cast("string", "no")
    ensures var es := [Entry(Segments, SegmentItem(Listing(id, [user.keyid]), t))];
            && ApplyPatch(s, es).1 && !HasTombstone(es)
            && BroadcastKeys(lib, ApplyPatch(s, es).0.Flags(), es) == {}
            && Variation(lib, s, key, user) != Variation(lib, ApplyPatch(s, es).0, key, user)
  {
    YesNoRefers(lib, key, c, id);
    hide YesNo, RefersDirectly, ListedIds, Store.Segs;
    var es, r := SegmentPatch(lib, s, id, Listing(id, [user.keyid]), t);
    hide Variation, ApplyPatch, BroadcastKeys, OperatorOf, Consistent, RefersDirectly, ListedIds, Store.Flags, Store.Segs, Absent;
    assert user.keyid in [user.keyid];
    YesNoChanges(lib, s, r, key, c, id, user);
  }

  /** A nested reference is not scanned either: the flag reads `outer`, which reads `inner`, which is patched. */
  lemma NestedReferenceIsSilent(lib: Lib, s: Store, key: string, c: Condition, c': Condition,
                                outer: string, inner: string, user: User, t: int)
    requires Consistent(s) && s.initialized && s.Flags() == map[key := YesNo(key, c)]
    requires key != "" && inner != "" && outer != inner
    requires OperatorOf(c) == InSegment && ListedIds(lib, c) == Some([outer])
    requires OperatorOf(c') == InSegment && ListedIds(lib, c') == Some([inner])
    requires outer in s.Segs() && s.Segs()[outer] == Segment(outer, [], [], [[c']])
    requires inner in s.Segs() && s.Segs()[inner] == Listing(inner, []) && t > s.version >= 0
    requires lib.depth > 1 && lib.cast("string", "yes") != lib.cast("string", "no")
    ensures var es := [Entry(Segments, SegmentItem(Listing(inner, [user.keyid]), t))];
            && ApplyPatch(s, es).1 && !HasTombstone(es)
            && BroadcastKeys(lib, ApplyPatch(s, es).0.Flags(), es) == {}
            && Variation(lib, s, key, user) != Variation(lib, ApplyPatch(s, es).0, key, user)
  {
    YesNoRefers(lib, key, c, inner);
    hide YesNo, RefersDirectly, ListedIds, Store.Segs;
    var es, r := SegmentPatch(lib, s, inner, Listing(inner, [user.keyid]), t);
    hide Variation, ApplyPatch, BroadcastKeys, OperatorOf, Consistent, Member;
    assert user.keyid in [user.keyid];
    NestedMember(lib, s.Segs(), user, outer, inner, c', lib.depth);
    NestedMember(lib, r.Segs(), user, outer, inner, c', lib.depth);
    YesNoChanges(lib, s, r, key, c, outer, user);
  }

  lemma NestedMember(lib: Lib, segs: map<string, Segment>, user: User, outer: string, inner: string, c: Condition, depth: nat)
    requires OperatorOf(c) == InSegment && ListedIds(lib, c) == Some([inner]) && depth > 1
    requires outer in segs && segs[outer] == Segment(outer, [], [], [[c]])
    requires inner in segs && segs[inner].rules == [] && segs[inner].excluded == []
    ensures Member(lib, segs, user, outer, depth) == Value(user.keyid in segs[inner].included)
  {
    SingleCondition(lib, user, c, inner, Members(lib, segs, user, depth - 1));
    assert Member(lib, segs, user, inner, depth - 1) == Value(user.keyid in segs[inner].included);
  }

  /**
   * A refused patch is silent about whatever its accepted part does: values are those after the entries before
   * the first unacceptable one, so they change if and only if that part alone changes them, and then some entry
   * of it concerns the flag.
   */
  lemma RefusedPatchIsSilent(lib: Lib, s: Store, es: seq<Entry>, key: string, user: User) returns (k: nat)
    requires Consistent(s) && Distinct(es) && !ApplyPatch(s, es).1
    ensures k < |es| && !Acceptable(s, es[k]) && forall i :: 0 <= i < k ==> Acceptable(s, es[i])
    ensures ApplyPatch(s, es[..k]).1 && Overridden(s, es[..k], ApplyPatch(s, es).0)
    ensures Variation(lib, ApplyPatch(s, es).0, key, user) == Variation(lib, ApplyPatch(s, es[..k]).0, key, user)
    ensures Variation(lib, s, key, user) != Variation(lib, ApplyPatch(s, es).0, key, user) ==>
              exists e :: e in es[..k] && Concerns(lib, s, e, key)
  {
    k := PatchRefused(s, es);
    var part := es[..k];
    assert Distinct(part);
    PatchContents(s, part);
    hide Variation, ApplyPatch, Overridden, Reaches;
    if Variation(lib, s, key, user) != Variation(lib, ApplyPatch(s, es).0, key, user) {
      ChangeIsPatched(lib, s, part, key, user);
      if Patches(part, FeatureFlags, key) {
        var e :| e in part && e.cat == FeatureFlags && e.item.Id() == key;
        assert Concerns(lib, s, e, key);
      } else {
        var id :| Patches(part, Segments, id) && Reaches(lib, s.Segs(), s.Flags()[key], id);
        var e :| e in part && e.cat == Segments && e.item.Id() == id;
        assert Concerns(lib, s, e, key);
      }
    }
  }

  /** Such a change happens: a flag switched off in front of a stale entry takes effect at once. */
  lemma RefusedPatchChanges(lib: Lib, s: Store, f: Flag, stale: Entry, user: User, t: int)
    requires Storable(f.key, t) && Newer(s, FeatureFlags, f.key, t) && !Acceptable(s, stale)
    requires stale.cat != FeatureFlags || stale.item.Id() != f.key
    requires !f.isEnabled && f.disabledVariationId in f.variationMap
    ensures var es := [Entry(FeatureFlags, FlagItem(f, t)), stale];
            && !ApplyPatch(s, es).1
            && Variation(lib, ApplyPatch(s, es).0, f.key, user)
               == Value(lib.cast(f.variationType, f.variationMap[f.disabledVariationId]))
  {
  }
}
