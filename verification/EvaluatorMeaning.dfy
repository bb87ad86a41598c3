/** The evaluator against a declarative reading of a flag. */
module EvaluatorMeaning {
  import opened Common
  import opened VariationSplitting
  import opened Model
  import opened Evaluator

  // ---------- lists of conditions and rules ----------

  /** Conditions all hold, or the first one that is not true decides: false, or an exception. */
  lemma {:induction false} AllHoldMeaning(lib: Lib, user: User, cs: seq<Condition>, m: Oracle)
    ensures AllHold(lib, user, cs, m) == Value(true) <==>
            forall i :: 0 <= i < |cs| ==> ConditionHolds(lib, user, cs[i], m) == Value(true)
    ensures forall k :: 0 <= k < |cs| && ConditionHolds(lib, user, cs[k], m) != Value(true)
              && (forall i :: 0 <= i < k ==> ConditionHolds(lib, user, cs[i], m) == Value(true))
              ==> AllHold(lib, user, cs, m) == ConditionHolds(lib, user, cs[k], m)
  {
    hide ConditionHolds;
    if cs != [] {
      AllHoldMeaning(lib, user, cs[1..], m);
      assert forall i :: 1 <= i < |cs| ==> cs[i] == cs[1..][i - 1];
      if ConditionHolds(lib, user, cs[0], m) == Value(true) {
        forall k | 0 < k < |cs| && ConditionHolds(lib, user, cs[k], m) != Value(true)
            && (forall i :: 0 <= i < k ==> ConditionHolds(lib, user, cs[i], m) == Value(true))
          ensures AllHold(lib, user, cs, m) == ConditionHolds(lib, user, cs[k], m)
        {
          assert ConditionHolds(lib, user, cs[1..][k - 1], m) != Value(true);
          assert forall i :: 0 <= i < k - 1 ==> ConditionHolds(lib, user, cs[1..][i], m) == Value(true);
        }
      }
    }
  }

  /** Membership lists: the first id that is not a plain "no" decides, and an exception reads as "no". */
  lemma {:induction false} AnyMemberMeaning(ids: seq<string>, m: Oracle)
    ensures AnyMember(ids, m) == Value(true) <==>
            exists k :: 0 <= k < |ids| && m(ids[k]) == Value(true) && forall i :: 0 <= i < k ==> m(ids[i]) == Value(false)
  {
    if ids != [] {
      AnyMemberMeaning(ids[1..], m);
      assert forall i :: 1 <= i < |ids| ==> ids[i] == ids[1..][i - 1];
      if m(ids[0]) == Value(false) {
        if AnyMember(ids[1..], m) == Value(true) {
          var k :| 0 <= k < |ids[1..]| && m(ids[1..][k]) == Value(true)
                   && forall i :: 0 <= i < k ==> m(ids[1..][i]) == Value(false);
          assert m(ids[k + 1]) == Value(true);
        }
        if k :| 0 <= k < |ids| && m(ids[k]) == Value(true) && forall i :: 0 <= i < k ==> m(ids[i]) == Value(false) {
          assert m(ids[1..][k - 1]) == Value(true);
        }
      }
    }
  }

  // ---------- the operators ----------

  /** `part in text` holds exactly when the text has the part somewhere. */
  lemma {:induction false} SubstringMeaning(text: string, part: string)
    ensures HasSubstring(text, part) <==> exists before: string, after: string :: text == before + part + after
  {
    if HasSubstring(text, part) {
      if part <= text {
        assert text == [] + part + text[|part|..];
      } else {
        SubstringMeaning(text[1..], part);
        var before: string, after: string :| text[1..] == before + part + after;
        assert text == ([text[0]] + before) + part + after;
      }
    }
    if before: string, after: string :| text == before + part + after {
      FoundAt(before, part, after);
    }
  }

  /** A prefix and a suffix are such parts. */
  lemma EndsAreSubstrings(text: string, part: string)
    requires StartsWith(text, part) || EndsWith(text, part)
    ensures HasSubstring(text, part)
  {
    if EndsWith(text, part) {
      FoundAt(text[..|text| - |part|], part, []);
      assert text == text[..|text| - |part|] + part + [];
    }
  }

  lemma {:induction false} FoundAt(before: string, part: string, after: string)
    ensures HasSubstring(before + part + after, part)
  {
    var text := before + part + after;
    if before == [] {
      assert part <= text;
    } else {
      FoundAt(before[1..], part, after);
      assert text[1..] == before[1..] + part + after;
    }
  }

  ghost predicate Opposite(o: Operator, o': Operator) {
    || (o == Equal && o' == NotEqual) || (o == Contains && o' == NotContain) || (o == IsOneOf && o' == NotOneOf)
    || (o == MatchRegex && o' == NotMatchRegex) || (o == InSegment && o' == NotInSegment)
  }

  /**
   * Opposite operators on the same property and value give opposite answers, also for a missing attribute or value
   * and for an unreadable list; only an invalid pattern raises in both.
   */
  lemma OppositeOperators(lib: Lib, user: User, c: Condition, c': Condition, m: Oracle)
    requires c'.property == c.property && c'.value == c.value && Opposite(OperatorOf(c), OperatorOf(c'))
    ensures ConditionHolds(lib, user, c', m) == Negated(ConditionHolds(lib, user, c, m))
    ensures (OperatorOf(c) != InSegment && Attribute(lib, user, c.property).None?) || c.value.None? ==>
              ConditionHolds(lib, user, c, m) == Value(false)
  {
    hide OperatorOf, Attribute, HasSubstring;
  }

  /** On two numbers the four comparisons are the order of the rounded reals; on anything else they all fail. */
  lemma NumericComparisons(lib: Lib, pv: Option<string>, property: string, value: Option<string>)
    ensures var holds := (op: string) => ThanHolds(lib, pv, Condition(property, Some(op), value));
            if pv.Some? && value.Some? && lib.number(pv.value).Some? && lib.number(value.value).Some? then
              var x, y := lib.number(pv.value).value, lib.number(value.value).value;
              && (holds("BiggerThan") <==> x > y) && (holds("LessThan") <==> x < y)
              && (holds("BiggerEqualThan") <==> !holds("LessThan")) && (holds("LessEqualThan") <==> !holds("BiggerThan"))
            else
              !holds("BiggerThan") && !holds("LessThan") && !holds("BiggerEqualThan") && !holds("LessEqualThan")
    ensures !ThanHolds(lib, pv, Condition(property, None, value))
  {
  }

  // ---------- the decision list ----------

  function Outcome(lib: Lib, segs: map<string, Segment>, user: User, rule: Rule): Eval<bool> {
    AllHold(lib, user, rule.conditions, Members(lib, segs, user, lib.depth))
  }

  ghost predicate FirstTarget(f: Flag, user: User, i: nat) {
    && i < |f.targetUsers| && user.keyid in f.targetUsers[i].keyIds
    && forall j :: 0 <= j < i ==> user.keyid !in f.targetUsers[j].keyIds
  }

  ghost predicate NotTargeted(f: Flag, user: User) {
    forall j :: 0 <= j < |f.targetUsers| ==> user.keyid !in f.targetUsers[j].keyIds
  }

  /** The least rule whose conditions do not simply fail. */
  ghost predicate FirstRule(lib: Lib, segs: map<string, Segment>, f: Flag, user: User, i: nat) {
    && i < |f.rules| && Outcome(lib, segs, user, f.rules[i]) != Value(false)
    && forall j :: 0 <= j < i ==> Outcome(lib, segs, user, f.rules[j]) == Value(false)
  }

  ghost predicate NoRule(lib: Lib, segs: map<string, Segment>, f: Flag, user: User) {
    forall j :: 0 <= j < |f.rules| ==> Outcome(lib, segs, user, f.rules[j]) == Value(false)
  }

  lemma {:induction false} NoTargetMatches(f: Flag, user: User, ts: seq<Target>)
    requires forall j :: 0 <= j < |ts| ==> user.keyid !in ts[j].keyIds
    ensures MatchTargets(f, user, ts) == Value(None)
  {
    if ts != [] {
      NoTargetMatches(f, user, ts[1..]);
    }
  }

  lemma {:induction false} FirstTargetMatches(f: Flag, user: User, ts: seq<Target>, i: nat)
    requires i < |ts| && user.keyid in ts[i].keyIds && forall j :: 0 <= j < i ==> user.keyid !in ts[j].keyIds
    ensures MatchTargets(f, user, ts) == Served(f, ts[i].variationId, TargetMatch, f.exptIncludeAllTargets)
  {
    if i > 0 {
      FirstTargetMatches(f, user, ts[1..], i - 1);
    }
  }

  lemma TargetScan(f: Flag, user: User)
    ensures NotTargeted(f, user) ==> MatchTargets(f, user, f.targetUsers) == Value(None)
    ensures forall i: nat :: FirstTarget(f, user, i) ==>
              MatchTargets(f, user, f.targetUsers) == Served(f, f.targetUsers[i].variationId, TargetMatch, f.exptIncludeAllTargets)
  {
    if NotTargeted(f, user) {
      NoTargetMatches(f, user, f.targetUsers);
    }
    forall i: nat | FirstTarget(f, user, i)
      ensures MatchTargets(f, user, f.targetUsers) == Served(f, f.targetUsers[i].variationId, TargetMatch, f.exptIncludeAllTargets)
    {
      FirstTargetMatches(f, user, f.targetUsers, i);
    }
  }

  /** What a rule serves once it is the first that does not fail. */
  function RuleResult(lib: Lib, segs: map<string, Segment>, f: Flag, user: User, rule: Rule): Eval<Option<EvalResult>> {
    if Outcome(lib, segs, user, rule) == Raised then Raised
    else RolloutOption(lib, f, rule.serving, user, RuleMatch)
  }

  lemma {:induction false} NoRuleMatches(lib: Lib, segs: map<string, Segment>, f: Flag, user: User, rules: seq<Rule>)
    requires forall j :: 0 <= j < |rules| ==> Outcome(lib, segs, user, rules[j]) == Value(false)
    ensures MatchRules(lib, f, user, rules, Members(lib, segs, user, lib.depth)) == Value(None)
  {
    hide AllHold, RolloutOption;
    if rules != [] {
      assert Outcome(lib, segs, user, rules[0]) == Value(false);
      NoRuleMatches(lib, segs, f, user, rules[1..]);
    }
  }

  lemma {:induction false} FirstRuleMatches(lib: Lib, segs: map<string, Segment>, f: Flag, user: User, rules: seq<Rule>, i: nat)
    requires i < |rules| && Outcome(lib, segs, user, rules[i]) != Value(false)
    requires forall j :: 0 <= j < i ==> Outcome(lib, segs, user, rules[j]) == Value(false)
    ensures MatchRules(lib, f, user, rules, Members(lib, segs, user, lib.depth)) == RuleResult(lib, segs, f, user, rules[i])
  {
    hide AllHold, RolloutOption;
    if i > 0 {
      assert Outcome(lib, segs, user, rules[0]) == Value(false);
      FirstRuleMatches(lib, segs, f, user, rules[1..], i - 1);
    } else {
      var outcome := Outcome(lib, segs, user, rules[0]);
      assert outcome.Value? ==> outcome == Value(if outcome.value then true else false);
    }
  }

  lemma RuleScan(lib: Lib, segs: map<string, Segment>, f: Flag, user: User)
    ensures NoRule(lib, segs, f, user) ==> Apply(lib, segs, f, user, Conditions) == Value(None)
    ensures forall i: nat :: FirstRule(lib, segs, f, user, i) ==>
              Apply(lib, segs, f, user, Conditions) == RuleResult(lib, segs, f, user, f.rules[i])
  {
    hide Outcome, RuleResult;
    if NoRule(lib, segs, f, user) {
      NoRuleMatches(lib, segs, f, user, f.rules);
    }
    forall i: nat | FirstRule(lib, segs, f, user, i)
      ensures Apply(lib, segs, f, user, Conditions) == RuleResult(lib, segs, f, user, f.rules[i])
    {
      FirstRuleMatches(lib, segs, f, user, f.rules, i);
    }
  }

  lemma EvaluateUnfolds(lib: Lib, segs: map<string, Segment>, f: Flag, user: User)
    ensures Evaluate(lib, segs, f, user) ==
            if Apply(lib, segs, f, user, Disabled) != Value(None) then Apply(lib, segs, f, user, Disabled)
            else if Apply(lib, segs, f, user, Targeted) != Value(None) then Apply(lib, segs, f, user, Targeted)
            else if Apply(lib, segs, f, user, Conditions) != Value(None) then Apply(lib, segs, f, user, Conditions)
            else Apply(lib, segs, f, user, Default)
  {
    var last, lastTwo, lastThree := [Default], [Conditions, Default], [Targeted, Conditions, Default];
    assert last[1..] == [] && lastTwo[1..] == last && lastThree[1..] == lastTwo && OPS[1..] == lastThree;
    assert FirstResult(lib, segs, f, user, last) == Apply(lib, segs, f, user, Default);
    assert FirstResult(lib, segs, f, user, lastTwo) ==
           if Apply(lib, segs, f, user, Conditions) != Value(None) then Apply(lib, segs, f, user, Conditions)
           else Apply(lib, segs, f, user, Default);
    assert FirstResult(lib, segs, f, user, lastThree) ==
           if Apply(lib, segs, f, user, Targeted) != Value(None) then Apply(lib, segs, f, user, Targeted)
           else FirstResult(lib, segs, f, user, lastTwo);
    assert FirstResult(lib, segs, f, user, OPS) ==
           if Apply(lib, segs, f, user, Disabled) != Value(None) then Apply(lib, segs, f, user, Disabled)
           else FirstResult(lib, segs, f, user, lastThree);
  }

  /**
   * A disabled flag serves its disabled variation. Otherwise the first target naming the user decides.
   * Otherwise the first rule whose conditions all hold decides by its rollout; if that rollout serves
   * nothing the fallthrough does, never a later rule. With no such rule the fallthrough decides.
   */
  lemma EvaluateMeaning(lib: Lib, segs: map<string, Segment>, f: Flag, user: User)
    ensures !f.isEnabled ==> Evaluate(lib, segs, f, user) == Served(f, f.disabledVariationId, FlagOff, false)
    ensures forall i: nat :: f.isEnabled && FirstTarget(f, user, i) ==>
              Evaluate(lib, segs, f, user) == Served(f, f.targetUsers[i].variationId, TargetMatch, f.exptIncludeAllTargets)
    ensures forall i: nat :: f.isEnabled && NotTargeted(f, user) && FirstRule(lib, segs, f, user, i) ==>
              var chosen := RuleResult(lib, segs, f, user, f.rules[i]);
              Evaluate(lib, segs, f, user) ==
                if chosen == Value(None) then RolloutOption(lib, f, f.fallthrough, user, Fallthrough) else chosen
    ensures f.isEnabled && NotTargeted(f, user) && NoRule(lib, segs, f, user) ==>
              Evaluate(lib, segs, f, user) == RolloutOption(lib, f, f.fallthrough, user, Fallthrough)
  {
    EvaluateUnfolds(lib, segs, f, user);
    TargetScan(f, user);
    RuleScan(lib, segs, f, user);
  }

  /** The four readings above leave no case out. */
  lemma DecisionsComplete(lib: Lib, segs: map<string, Segment>, f: Flag, user: User)
    ensures NotTargeted(f, user) || exists i: nat :: FirstTarget(f, user, i)
    ensures NoRule(lib, segs, f, user) || exists i: nat :: FirstRule(lib, segs, f, user, i)
  {
    hide Outcome;
    if !NotTargeted(f, user) {
      var i := LeastTarget(f, user, |f.targetUsers|);
    }
    if !NoRule(lib, segs, f, user) {
      var i := LeastRule(lib, segs, f, user, |f.rules|);
    }
  }

  lemma {:induction false} LeastTarget(f: Flag, user: User, n: nat) returns (i: nat)
    requires n <= |f.targetUsers| && exists j :: 0 <= j < n && user.keyid in f.targetUsers[j].keyIds
    ensures FirstTarget(f, user, i)
  {
    if exists j :: 0 <= j < n - 1 && user.keyid in f.targetUsers[j].keyIds {
      i := LeastTarget(f, user, n - 1);
    } else {
      i := n - 1;
    }
  }

  lemma {:induction false} LeastRule(lib: Lib, segs: map<string, Segment>, f: Flag, user: User, n: nat) returns (i: nat)
    requires n <= |f.rules| && exists j :: 0 <= j < n && Outcome(lib, segs, user, f.rules[j]) != Value(false)
    ensures FirstRule(lib, segs, f, user, i)
  {
    hide Outcome;
    if exists j :: 0 <= j < n - 1 && Outcome(lib, segs, user, f.rules[j]) != Value(false) {
      i := LeastRule(lib, segs, f, user, n - 1);
    } else {
      i := n - 1;
    }
  }

  // ---------- what a result carries ----------

  /** The result names this flag and carries the id of one of its variations with that variation's value. */
  ghost predicate FromFlag(f: Flag, r: EvalResult) {
    && r.id in f.variationMap && r.value == f.variationMap[r.id]
    && r.keyName == f.key && r.name == f.name && r.flagType == f.variationType
  }

  lemma {:induction false} TargetResult(f: Flag, user: User, ts: seq<Target>, r: EvalResult)
    requires MatchTargets(f, user, ts) == Value(Some(r))
    ensures FromFlag(f, r) && r.reason == TargetMatch
  {
    if ts != [] && user.keyid !in ts[0].keyIds {
      TargetResult(f, user, ts[1..], r);
    }
  }

  lemma {:induction false} RulesResult(lib: Lib, f: Flag, user: User, rules: seq<Rule>, m: Oracle, r: EvalResult)
    requires MatchRules(lib, f, user, rules, m) == Value(Some(r))
    ensures FromFlag(f, r) && r.reason == RuleMatch
  {
    if rules != [] && AllHold(lib, user, rules[0].conditions, m) == Value(false) {
      RulesResult(lib, f, user, rules[1..], m, r);
    }
  }

  lemma ResultFromFlag(lib: Lib, segs: map<string, Segment>, f: Flag, user: User, r: EvalResult)
    requires Evaluate(lib, segs, f, user) == Value(Some(r))
    ensures FromFlag(f, r)
    ensures r.reason == FlagOff <==> !f.isEnabled
    ensures r.reason == TargetMatch <==> f.isEnabled && !NotTargeted(f, user)
    ensures r.reason == RuleMatch <==>
              f.isEnabled && NotTargeted(f, user) &&
              exists i: nat :: FirstRule(lib, segs, f, user, i) && RuleResult(lib, segs, f, user, f.rules[i]) == Value(Some(r))
    ensures r.reason == Fallthrough <==>
              f.isEnabled && NotTargeted(f, user) &&
              forall i: nat :: FirstRule(lib, segs, f, user, i) ==> RuleResult(lib, segs, f, user, f.rules[i]) == Value(None)
  {
    EvaluateUnfolds(lib, segs, f, user);
    TargetScan(f, user);
    DecisionsComplete(lib, segs, f, user);
    RuleScan(lib, segs, f, user);
    hide Outcome, RuleResult, FirstTarget, FirstRule, NoRule, NotTargeted;
    if f.isEnabled {
      if Apply(lib, segs, f, user, Targeted) != Value(None) {
        TargetResult(f, user, f.targetUsers, r);
      } else if Apply(lib, segs, f, user, Conditions) != Value(None) {
        RulesResult(lib, f, user, f.rules, Members(lib, segs, user, lib.depth), r);
      }
    }
  }

  /**
   * A rollout that takes part in the experiment sends the share `exptRollout / width` to it, at most all: of the
   * 2^32 words of the experiment hash that many, up to three. With all targets included everything is sent.
   */
  lemma ExperimentShare(lib: Lib, dispatch: string, rollout: Rollout)
    requires rollout.exptRollout > 0.0 && rollout.range.lo < rollout.range.hi
    ensures var share := rollout.exptRollout / (rollout.range.hi - rollout.range.lo);
            var upper := if share > 1.0 then 1.0 else share;
            && (SendToExperiment(lib, dispatch, rollout, false, true) <==> lib.hashWord("expt" + dispatch) in WordsOf(Range(0.0, upper)))
            && -3.0 <= |WordsOf(Range(0.0, upper))| as real - 4294967296.0 * upper <= 3.0
            && (share >= 1.0 ==> SendToExperiment(lib, dispatch, rollout, false, true))
    ensures forall included :: SendToExperiment(lib, dispatch, rollout, true, included)
    ensures !SendToExperiment(lib, dispatch, rollout, false, false)
  {
    var share := rollout.exptRollout / (rollout.range.hi - rollout.range.lo);
    var upper := if share > 1.0 then 1.0 else share;
    PositiveShare(rollout.exptRollout, rollout.range.hi - rollout.range.lo);
    BucketFairness(Range(0.0, upper));
  }

  lemma PositiveShare(a: real, b: real)
    requires a > 0.0 && b > 0.0
    ensures a / b > 0.0
  {
  }

  /**
   * Over consecutive pieces of [0, 1], the variation served is the one whose piece holds the hash word of the
   * flag key followed by the dispatch attribute, by default the key of the user.
   */
  lemma RolloutServes(lib: Lib, f: Flag, serving: Serving, user: User, reason: Reason, i: nat)
    requires Partition(Ranges(serving.variations)) && i < |serving.variations|
    requires Belongs(lib.hashWord(DispatchKey(lib, f, serving, user)), serving.variations[i].range)
    ensures exists expt :: RolloutOption(lib, f, serving, user, reason) == Served(f, serving.variations[i].id, reason, expt)
    ensures Absent(serving.dispatchKey) ==> DispatchKey(lib, f, serving, user) == f.key + user.keyid
  {
    var w, rs := lib.hashWord(DispatchKey(lib, f, serving, user)), Ranges(serving.variations);
    assert Belongs(w, rs[i]);
    SelectionExact(w, rs);
    assert Select(w, rs) == i;
    var expt := SendToExperiment(lib, DispatchKey(lib, f, serving, user), serving.variations[i],
                                 f.exptIncludeAllTargets, serving.includedInExpt);
    assert RolloutOption(lib, f, serving, user, reason) == Served(f, serving.variations[i].id, reason, expt);
  }

  /** Growing the first share of a rollout keeps every user it already serves, however the other shares change. */
  lemma GrowingKeepsUsers(lib: Lib, f: Flag, serving: Serving, serving': Serving, user: User, reason: Reason, r: EvalResult)
    requires serving.dispatchKey == serving'.dispatchKey && serving.variations != [] && serving'.variations != []
    requires serving.variations[0].id == serving'.variations[0].id
    requires serving.variations[0].range.lo == 0.0 == serving'.variations[0].range.lo
    requires serving.variations[0].range.hi <= serving'.variations[0].range.hi <= 1.0
    requires forall i :: 1 <= i < |serving.variations| ==> serving.variations[i].id != serving.variations[0].id
    requires RolloutOption(lib, f, serving, user, reason) == Value(Some(r)) && r.id == serving.variations[0].id
    ensures exists r': EvalResult :: RolloutOption(lib, f, serving', user, reason) == Value(Some(r')) && r'.id == r.id && r'.value == r.value
  {
    var w := lib.hashWord(DispatchKey(lib, f, serving, user));
    assert DispatchKey(lib, f, serving', user) == DispatchKey(lib, f, serving, user);
    var v, v' := serving.variations[0], serving'.variations[0];
    assert Select(w, Ranges(serving.variations)) == 0;
    assert Belongs(w, v.range);
    GrowingKeepsWords(w, v.range.hi, v'.range.hi);
    assert Belongs(w, Ranges(serving'.variations)[0]);
    assert Select(w, Ranges(serving'.variations)) == 0;
  }

  // ---------- when nothing is served ----------

  /** A fallthrough that cuts up [0, 1] leaves a user without a variation only at the word -2^31, and only if it is split. */
  lemma UnservedWord(lib: Lib, segs: map<string, Segment>, f: Flag, user: User)
    requires Partition(Ranges(f.fallthrough.variations)) && Evaluate(lib, segs, f, user) == Value(None)
    ensures lib.hashWord(DispatchKey(lib, f, f.fallthrough, user)) == -HALF
    ensures forall v :: v in f.fallthrough.variations ==> !v.range.IsFull()
  {
    EvaluateUnfolds(lib, segs, f, user);
    assert RolloutOption(lib, f, f.fallthrough, user, Fallthrough) == Value(None);
    var rs := Ranges(f.fallthrough.variations);
    SelectionExact(lib.hashWord(DispatchKey(lib, f, f.fallthrough, user)), rs);
    forall v | v in f.fallthrough.variations ensures !v.range.IsFull() {
      var i :| 0 <= i < |rs| && f.fallthrough.variations[i] == v;
      assert rs[i] == v.range;
    }
  }
}
