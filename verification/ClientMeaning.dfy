/** When asking the client for a variation raises. */
module ClientMeaning {
  import opened Common
  import opened VariationSplitting
  import opened Model
  import opened Evaluator
  import opened EvaluatorMeaning
  import opened DataStorage
  import opened Client

  // ---------- any flag, well-formed or not ----------

  /** No range of the serving holds the hash word of the user; ranges may overlap or leave gaps. */
  ghost predicate Unserved(lib: Lib, f: Flag, serving: Serving, user: User) {
    forall v :: v in serving.variations ==> !Belongs(lib.hashWord(DispatchKey(lib, f, serving, user)), v.range)
  }

  lemma RolloutUnserved(lib: Lib, f: Flag, serving: Serving, user: User, reason: Reason)
    ensures RolloutOption(lib, f, serving, user, reason) == Value(None) <==> Unserved(lib, f, serving, user)
  {
    var w, rs := lib.hashWord(DispatchKey(lib, f, serving, user)), Ranges(serving.variations);
    var k := Select(w, rs);
    if k < |rs| {
      assert serving.variations[k] in serving.variations && Belongs(w, serving.variations[k].range);
    } else {
      forall v | v in serving.variations ensures !Belongs(w, v.range) {
        var i :| 0 <= i < |rs| && serving.variations[i] == v;
        assert !Belongs(w, rs[i]);
      }
    }
  }

  /** No rule decides, or the first one that does not fail holds and serves nothing. */
  ghost predicate RulesServeNothing(lib: Lib, segs: map<string, Segment>, f: Flag, user: User) {
    forall i: nat :: FirstRule(lib, segs, f, user, i) ==>
      Outcome(lib, segs, user, f.rules[i]) == Value(true) && Unserved(lib, f, f.rules[i].serving, user)
  }

  lemma RuleServesNothing(lib: Lib, segs: map<string, Segment>, f: Flag, user: User, i: nat)
    requires FirstRule(lib, segs, f, user, i)
    ensures RulesServeNothing(lib, segs, f, user) <==> RuleResult(lib, segs, f, user, f.rules[i]) == Value(None)
  {
    var rule := f.rules[i];
    ServedByRule(lib, segs, f, user, rule);
    OnlyFirstRule(lib, segs, f, user, i);
    hide FirstRule, RuleResult, Unserved, Outcome;
  }

  lemma ServedByRule(lib: Lib, segs: map<string, Segment>, f: Flag, user: User, rule: Rule)
    requires Outcome(lib, segs, user, rule) != Value(false)
    ensures RuleResult(lib, segs, f, user, rule) == Value(None) <==>
              Outcome(lib, segs, user, rule) == Value(true) && Unserved(lib, f, rule.serving, user)
  {
    RolloutUnserved(lib, f, rule.serving, user, RuleMatch);
    hide RolloutOption, Unserved, Outcome;
    var outcome := Outcome(lib, segs, user, rule);
    match outcome {
      case Raised =>
      case Value(b) => assert outcome == Value(if b then true else false);
    }
  }

  lemma OnlyFirstRule(lib: Lib, segs: map<string, Segment>, f: Flag, user: User, i: nat)
    requires FirstRule(lib, segs, f, user, i)
    ensures forall j: nat :: FirstRule(lib, segs, f, user, j) ==> j == i
  {
    hide Outcome;
  }

  lemma NothingServed(lib: Lib, segs: map<string, Segment>, f: Flag, user: User)
    ensures Evaluate(lib, segs, f, user) == Value(None) <==>
              f.isEnabled && NotTargeted(f, user) && Unserved(lib, f, f.fallthrough, user) && RulesServeNothing(lib, segs, f, user)
  {
    EvaluateMeaning(lib, segs, f, user);
    DecisionsComplete(lib, segs, f, user);
    RolloutUnserved(lib, f, f.fallthrough, user, Fallthrough);
    hide RolloutOption, Unserved, Outcome, Evaluate, RuleResult;
    if !f.isEnabled {
    } else if i: nat :| FirstTarget(f, user, i) {
    } else if i: nat :| FirstRule(lib, segs, f, user, i) {
      RuleServesNothing(lib, segs, f, user, i);
      hide FirstRule, RulesServeNothing;
    } else {
      assert RulesServeNothing(lib, segs, f, user);
    }
  }

  /**
   * Asking for the variation of a known flag, whatever its ranges, raises exactly when the flag is enabled, no
   * target names the user, and neither the deciding rule, if there is one, nor the fallthrough has a range that
   * holds the user's hash word.
   */
  lemma VariationRaisesExactly(lib: Lib, s: Store, key: string, user: User)
    ensures Variation(lib, s, key, user).Raised? <==>
              && s.initialized && key != "" && key in s.Flags()
              && var f := s.Flags()[key];
                 f.isEnabled && NotTargeted(f, user) && Unserved(lib, f, f.fallthrough, user) && RulesServeNothing(lib, s.Segs(), f, user)
  {
    if key in s.Flags() {
      NothingServed(lib, s.Segs(), s.Flags()[key], user);
    }
    hide Unserved, Evaluate, RulesServeNothing, Store.Flags, Store.Segs;
  }

  /**
   * What asking for a variation gives when it does not raise: the default, before initialization, for an unknown
   * key and when the evaluation raises; else the text of the served variation, cast to the type of the flag.
   */
  lemma VariationServes(lib: Lib, s: Store, key: string, user: User)
    ensures !s.initialized || key == "" || key !in s.Flags() ==> Variation(lib, s, key, user) == Value(None)
    ensures s.initialized && key != "" && key in s.Flags() ==>
              var f := s.Flags()[key];
              match Evaluate(lib, s.Segs(), f, user)
              case Value(Some(r)) => r.id in f.variationMap && Variation(lib, s, key, user) == Value(lib.cast(f.variationType, f.variationMap[r.id]))
              case Value(None) => Variation(lib, s, key, user).Raised?
              case Raised => Variation(lib, s, key, user) == Value(None)
  {
    if s.initialized && key != "" && key in s.Flags() {
      var f := s.Flags()[key];
      match Evaluate(lib, s.Segs(), f, user) {
        case Value(Some(r)) => ResultFromFlag(lib, s.Segs(), f, user, r);
        case _ =>
      }
    }
    hide Evaluate, Store.Flags, Store.Segs;
  }

  /** It never raises for a flag whose fallthrough has a variation for everybody. */
  lemma UnsplitNeverRaises(lib: Lib, s: Store, key: string, user: User)
    requires key in s.Flags() ==> exists v :: v in s.Flags()[key].fallthrough.variations && v.range.IsFull()
    ensures Variation(lib, s, key, user).Value?
  {
    VariationRaisesExactly(lib, s, key, user);
    hide RulesServeNothing, Variation;
  }

  // ---------- flags whose ranges cut up [0, 1] ----------

  /** The one word that a split rollout leaves out. */
  lemma PartitionUnserved(lib: Lib, f: Flag, serving: Serving, user: User)
    requires Partition(Ranges(serving.variations))
    ensures Unserved(lib, f, serving, user) <==>
              lib.hashWord(DispatchKey(lib, f, serving, user)) == -HALF && forall v :: v in serving.variations ==> !v.range.IsFull()
  {
    var rs := Ranges(serving.variations);
    SelectionExact(lib.hashWord(DispatchKey(lib, f, serving, user)), rs);
    RolloutUnserved(lib, f, serving, user, Fallthrough);
    assert forall i :: 0 <= i < |rs| ==> serving.variations[i] in serving.variations;
    if forall v :: v in serving.variations ==> !v.range.IsFull() {
      assert forall i :: 0 <= i < |rs| ==> !rs[i].IsFull();
    } else {
      var v :| v in serving.variations && v.range.IsFull();
      var i :| 0 <= i < |rs| && serving.variations[i] == v;
      assert rs[i].IsFull();
    }
  }

  /** For a flag whose fallthrough cuts up [0, 1]: exactly at the word -2^31 of a split fallthrough, if no rule serves it. */
  lemma PartitionRaises(lib: Lib, s: Store, key: string, user: User)
    requires key in s.Flags() && Partition(Ranges(s.Flags()[key].fallthrough.variations))
    ensures var f := s.Flags()[key];
            Variation(lib, s, key, user).Raised? <==>
              && s.initialized && key != "" && f.isEnabled && NotTargeted(f, user)
              && lib.hashWord(DispatchKey(lib, f, f.fallthrough, user)) == -HALF
              && (forall v :: v in f.fallthrough.variations ==> !v.range.IsFull())
              && RulesServeNothing(lib, s.Segs(), f, user)
  {
    VariationRaisesExactly(lib, s, key, user);
    PartitionUnserved(lib, s.Flags()[key], s.Flags()[key].fallthrough, user);
    hide Variation, RulesServeNothing, Unserved, Store.Flags, Store.Segs;
  }

  // ---------- two flags that raise ----------

  /** An enabled flag with a fallthrough only. */
  function Fallthroughs(key: string, variations: seq<Rollout>): Flag {
    Flag(key, key, "string", map["on" := "on", "off" := "off"], true, "off", [], [], Serving(None, false, variations), false)
  }

  lemma FallthroughRaises(lib: Lib, s: Store, key: string, variations: seq<Rollout>, user: User)
    requires s.initialized && key != "" && key in s.Flags() && s.Flags()[key] == Fallthroughs(key, variations)
    ensures Variation(lib, s, key, user).Raised? <==>
              forall v :: v in variations ==> !Belongs(lib.hashWord(key + user.keyid), v.range)
  {
    VariationRaisesExactly(lib, s, key, user);
    hide Variation, Store.Flags, Store.Segs;
    var f := s.Flags()[key];
    assert DispatchKey(lib, f, f.fallthrough, user) == key + user.keyid;
    assert RulesServeNothing(lib, s.Segs(), f, user);
  }

  /** Two halves that cut up [0, 1] serve everybody but the word -2^31. */
  lemma HalvesRaise(lib: Lib, s: Store, key: string, user: User)
    requires s.initialized && key != "" && key in s.Flags()
    requires s.Flags()[key] == Fallthroughs(key, [Rollout("on", Range(0.0, 0.5), 0.0), Rollout("off", Range(0.5, 1.0), 0.0)])
    ensures Variation(lib, s, key, user).Raised? <==> lib.hashWord(key + user.keyid) == -HALF
  {
    var on, off := Rollout("on", Range(0.0, 0.5), 0.0), Rollout("off", Range(0.5, 1.0), 0.0);
    FallthroughRaises(lib, s, key, [on, off], user);
    assert on in [on, off] && off in [on, off];
    hide Variation, Store.Flags;
  }

  /** A received flag that serves [0, 0.5) only raises for half of the words. */
  lemma GapRaises(lib: Lib, s: Store, key: string, user: User)
    requires s.initialized && key != "" && key in s.Flags()
    requires s.Flags()[key] == Fallthroughs(key, [Rollout("on", Range(0.0, 0.5), 0.0)])
    ensures Variation(lib, s, key, user).Raised? <==> PercentageOf(lib.hashWord(key + user.keyid)) >= 0.5
  {
    var on := Rollout("on", Range(0.0, 0.5), 0.0);
    FallthroughRaises(lib, s, key, [on], user);
    assert on in [on];
    hide Variation, Store.Flags;
  }
}
