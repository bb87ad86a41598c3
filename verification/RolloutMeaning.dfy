/** Which text a rollout hashes, which variation that gives, and what goes to the experiment. */
module RolloutMeaning {
  import opened Common
  import opened VariationSplitting
  import opened Model
  import opened Evaluator
  import opened EvaluatorMeaning
  import opened OperatorMeaning

  /**
   * The part of the hashed text that belongs to the user: what the user has under the dispatch key, by default the
   * key of the user, and nothing for a custom attribute that the user lacks.
   */
  ghost predicate DispatchesBy(lib: Lib, serving: Serving, user: User, text: string) {
    if serving.dispatchKey.None? || serving.dispatchKey.value == "" then text == user.keyid else
      var p := serving.dispatchKey.value;
      && (p == "keyid" || (p != "name" && lib.lower(p) in {"key", "keyid"}) ==> text == user.keyid)
      && (p == "name" || (p != "keyid" && lib.lower(p) == "name") ==> text == user.name)
      && (!BuiltIn(lib, p) && p in user.customs ==> text == user.customs[p])
      && (!BuiltIn(lib, p) && p !in user.customs ==> text == "")
  }

  lemma HashedText(lib: Lib, f: Flag, serving: Serving, user: User, text: string)
    requires DispatchesBy(lib, serving, user, text)
    ensures DispatchKey(lib, f, serving, user) == f.key + text
  {
    AttributeMeaning(lib, user, if Absent(serving.dispatchKey) then "keyid" else serving.dispatchKey.value);
    assert f.key + "" == f.key;
  }

  /** Every user dispatches by some text. */
  lemma DispatchText(lib: Lib, serving: Serving, user: User) returns (text: string)
    ensures DispatchesBy(lib, serving, user, text)
  {
    var p := if Absent(serving.dispatchKey) then "keyid" else serving.dispatchKey.value;
    AttributeMeaning(lib, user, p);
    var attribute := Attribute(lib, user, p);
    text := if attribute.Some? then attribute.value else "";
  }

  /** Over consecutive pieces of [0, 1] the piece that holds the hash word of flag key and dispatch text names the variation. */
  lemma ServesByDispatch(lib: Lib, f: Flag, serving: Serving, user: User, reason: Reason, text: string, i: nat)
    requires DispatchesBy(lib, serving, user, text)
    requires Partition(Ranges(serving.variations)) && i < |serving.variations|
    requires Belongs(lib.hashWord(f.key + text), serving.variations[i].range)
    ensures var id := serving.variations[i].id;
            match RolloutOption(lib, f, serving, user, reason)
            case Value(Some(r)) => id in f.variationMap && r.id == id && r.value == f.variationMap[id] && r.reason == reason
            case Value(None) => false
            case Raised => id !in f.variationMap
  {
    HashedText(lib, f, serving, user, text);
    RolloutServes(lib, f, serving, user, reason, i);
    hide RolloutOption, DispatchesBy, DispatchKey, Partition, Belongs;
  }

  /** Users with the same dispatch text get the same result. */
  lemma SameDispatchSameResult(lib: Lib, f: Flag, serving: Serving, user: User, user': User, reason: Reason, text: string)
    requires DispatchesBy(lib, serving, user, text) && DispatchesBy(lib, serving, user', text)
    ensures RolloutOption(lib, f, serving, user, reason) == RolloutOption(lib, f, serving, user', reason)
  {
    HashedText(lib, f, serving, user, text);
    HashedText(lib, f, serving, user', text);
    hide DispatchesBy, DispatchKey;
  }

  // ---------- the experiment ----------

  /** The words that a variation sends to the experiment: the share of its piece that takes part, at most all of it. */
  ghost predicate InExperiment(lib: Lib, f: Flag, text: string, v: Rollout) {
    var width := v.range.hi - v.range.lo;
    && v.exptRollout != 0.0 && width != 0.0
    && var share := v.exptRollout / width;
       Belongs(lib.hashWord("expt" + (f.key + text)), Range(0.0, if share > 1.0 then 1.0 else share))
  }

  /** The first variation whose range holds the word. */
  ghost predicate FirstHolds(lib: Lib, f: Flag, serving: Serving, text: string, i: nat) {
    && i < |serving.variations| && Belongs(lib.hashWord(f.key + text), serving.variations[i].range)
    && forall j :: 0 <= j < i ==> !Belongs(lib.hashWord(f.key + text), serving.variations[j].range)
  }

  /** What a rollout that served `r` says about it. */
  ghost predicate SentAsServed(lib: Lib, f: Flag, serving: Serving, text: string, r: EvalResult) {
    exists i: nat ::
      && FirstHolds(lib, f, serving, text, i) && r.id == serving.variations[i].id
      && (r.sendToExpt <==> f.exptIncludeAllTargets || (serving.includedInExpt && InExperiment(lib, f, text, serving.variations[i])))
  }

  lemma RolloutSends(lib: Lib, f: Flag, serving: Serving, user: User, reason: Reason, text: string, r: EvalResult)
    requires DispatchesBy(lib, serving, user, text)
    requires RolloutOption(lib, f, serving, user, reason) == Value(Some(r))
    ensures SentAsServed(lib, f, serving, text, r) && r.reason == reason
  {
    HashedText(lib, f, serving, user, text);
    var i := Select(lib.hashWord(f.key + text), Ranges(serving.variations));
    hide DispatchesBy, DispatchKey;
    assert FirstHolds(lib, f, serving, text, i);
  }

  /**
   * What goes to the experiment: nothing of a flag that is off, a targeted user exactly if the flag includes all
   * targets, and any other user by the serving that decided, with all targets included, or with the serving taking
   * part and the experiment hash in the share of the variation served.
   */
  lemma SentToExperiment(lib: Lib, segs: map<string, Segment>, f: Flag, user: User, r: EvalResult)
    requires Evaluate(lib, segs, f, user) == Value(Some(r))
    ensures r.reason == FlagOff ==> !r.sendToExpt
    ensures r.reason == TargetMatch ==> (r.sendToExpt <==> f.exptIncludeAllTargets)
    ensures forall i: nat, text :: r.reason == RuleMatch && FirstRule(lib, segs, f, user, i) && DispatchesBy(lib, f.rules[i].serving, user, text) ==>
              SentAsServed(lib, f, f.rules[i].serving, text, r)
    ensures forall text :: r.reason == Fallthrough && DispatchesBy(lib, f.fallthrough, user, text) ==>
              SentAsServed(lib, f, f.fallthrough, text, r)
  {
    ResultFromFlag(lib, segs, f, user, r);
    EvaluateMeaning(lib, segs, f, user);
    DecisionsComplete(lib, segs, f, user);
    hide Evaluate, Outcome, FirstTarget, NotTargeted, FirstRule, NoRule, RolloutOption, SentAsServed, DispatchesBy, FromFlag;
    if r.reason == RuleMatch {
      forall i: nat, text | FirstRule(lib, segs, f, user, i) && DispatchesBy(lib, f.rules[i].serving, user, text)
        ensures SentAsServed(lib, f, f.rules[i].serving, text, r)
      {
        RuleDecided(lib, segs, f, user, i, r);
        RolloutSends(lib, f, f.rules[i].serving, user, RuleMatch, text, r);
      }
    }
    if r.reason == Fallthrough {
      FallthroughDecided(lib, segs, f, user, r);
      forall text | DispatchesBy(lib, f.fallthrough, user, text) ensures SentAsServed(lib, f, f.fallthrough, text, r) {
        RolloutSends(lib, f, f.fallthrough, user, Fallthrough, text, r);
      }
    }
  }

  lemma RuleDecided(lib: Lib, segs: map<string, Segment>, f: Flag, user: User, i: nat, r: EvalResult)
    requires Evaluate(lib, segs, f, user) == Value(Some(r)) && r.reason == RuleMatch && FirstRule(lib, segs, f, user, i)
    ensures RolloutOption(lib, f, f.rules[i].serving, user, RuleMatch) == Value(Some(r))
  {
    ResultFromFlag(lib, segs, f, user, r);
    EvaluateMeaning(lib, segs, f, user);
    FallthroughReason(lib, f, user);
    hide Evaluate, Outcome, FirstTarget, NotTargeted, FirstRule, NoRule, RolloutOption, FromFlag;
  }

  lemma FallthroughReason(lib: Lib, f: Flag, user: User)
    ensures forall r: EvalResult :: RolloutOption(lib, f, f.fallthrough, user, Fallthrough) == Value(Some(r)) ==> r.reason == Fallthrough
  {
  }

  lemma FallthroughDecided(lib: Lib, segs: map<string, Segment>, f: Flag, user: User, r: EvalResult)
    requires Evaluate(lib, segs, f, user) == Value(Some(r)) && r.reason == Fallthrough
    ensures RolloutOption(lib, f, f.fallthrough, user, Fallthrough) == Value(Some(r))
  {
    ResultFromFlag(lib, segs, f, user, r);
    EvaluateMeaning(lib, segs, f, user);
    DecisionsComplete(lib, segs, f, user);
    hide Evaluate, Outcome, FirstTarget, NotTargeted, FirstRule, NoRule, RolloutOption, RuleResult, FromFlag;
  }
}
