/** Conditions, segment membership, rollouts and the ordered decision list of a flag. */
module Evaluator {
  import opened Common
  import opened VariationSplitting
  import opened Model

  // ---------- conditions ----------

  /** Whether the user belongs to the segment with a given id; looking it up may raise. */
  type Oracle = string -> Eval<bool>

  datatype Operator =
    | Than | Equal | NotEqual | Contains | NotContain | IsOneOf | NotOneOf | StartsWithOp | EndsWithOp
    | IsTrue | IsFalse | MatchRegex | NotMatchRegex | InSegment | NotInSegment | Unknown

  /** A missing or empty operator is not looked at: the property names the operation. */
  predicate Absent(op: Option<string>) {
    op.None? || op.value == ""
  }

  function OperatorOf(c: Condition): Operator {
    var op := if Absent(c.op) then c.property else c.op.value;
    if HasSubstring(op, "Than") then Than
    else if op == "Equal" then Equal
    else if op == "NotEqual" then NotEqual
    else if op == "Contains" then Contains
    else if op == "NotContain" then NotContain
    else if op == "IsOneOf" then IsOneOf
    else if op == "NotOneOf" then NotOneOf
    else if op == "StartsWith" then StartsWithOp
    else if op == "EndsWith" then EndsWithOp
    else if op == "IsTrue" then IsTrue
    else if op == "IsFalse" then IsFalse
    else if op == "MatchRegex" then MatchRegex
    else if op == "NotMatchRegex" then NotMatchRegex
    else if op == "User is in segment" then InSegment
    else if op == "User is not in segment" then NotInSegment
    else Unknown
  }

  /** The comparison reads the raw operator, so an absent one never holds. */
  predicate ThanHolds(lib: Lib, pv: Option<string>, c: Condition) {
    if pv.None? || c.value.None? || c.op.None? then false else
      match (lib.number(pv.value), lib.number(c.value.value))
      case (Some(x), Some(y)) =>
        if c.op.value == "BiggerEqualThan" then x >= y
        else if c.op.value == "BiggerThan" then x > y
        else if c.op.value == "LessEqualThan" then x <= y
        else if c.op.value == "LessThan" then x < y
        else false
      case _ => false
  }

  /** The ids a condition value lists, if it is present and parses. */
  function ListedIds(lib: Lib, c: Condition): Option<seq<string>> {
    if c.value.None? then None else lib.parseList(c.value.value)
  }

  predicate OneOfHolds(lib: Lib, pv: Option<string>, c: Condition) {
    pv.Some? && ListedIds(lib, c).Some? && pv.value in ListedIds(lib, c).value
  }

  predicate BothPresent(pv: Option<string>, c: Condition) {
    pv.Some? && c.value.Some?
  }

  function RegexHolds(lib: Lib, pv: Option<string>, c: Condition): Eval<bool> {
    if BothPresent(pv, c) then lib.search(c.value.value, pv.value) else Value(false)
  }

  function Negated(r: Eval<bool>): Eval<bool> {
    match r
    case Value(b) => Value(!b)
    case Raised => Raised
  }

  function AnyMember(ids: seq<string>, member: Oracle): Eval<bool> {
    if ids == [] then Value(false) else
      match member(ids[0])
      case Raised => Raised
      case Value(true) => Value(true)
      case Value(false) => AnyMember(ids[1..], member)
  }

  /** Any exception on the way is swallowed and reads as "not in the segment". */
  predicate SegmentHolds(lib: Lib, c: Condition, member: Oracle) {
    match ListedIds(lib, c)
    case None => false
    case Some(ids) => AnyMember(ids, member) == Value(true)
  }

  function ConditionHolds(lib: Lib, user: User, c: Condition, member: Oracle): Eval<bool> {
    var pv := Attribute(lib, user, c.property);
    match OperatorOf(c)
    case Than => Value(ThanHolds(lib, pv, c))
    case Equal => Value(BothPresent(pv, c) && pv.value == c.value.value)
    case NotEqual => Value(!(BothPresent(pv, c) && pv.value == c.value.value))
    case Contains => Value(BothPresent(pv, c) && HasSubstring(pv.value, c.value.value))
    case NotContain => Value(!(BothPresent(pv, c) && HasSubstring(pv.value, c.value.value)))
    case IsOneOf => Value(OneOfHolds(lib, pv, c))
    case NotOneOf => Value(!OneOfHolds(lib, pv, c))
    case StartsWithOp => Value(BothPresent(pv, c) && StartsWith(pv.value, c.value.value))
    case EndsWithOp => Value(BothPresent(pv, c) && EndsWith(pv.value, c.value.value))
    case IsTrue => Value(pv.Some? && lib.lower(pv.value) == "true")
    case IsFalse => Value(pv.Some? && lib.lower(pv.value) == "false")
    case MatchRegex => RegexHolds(lib, pv, c)
    case NotMatchRegex => Negated(RegexHolds(lib, pv, c))
    case InSegment => Value(SegmentHolds(lib, c, member))
    case NotInSegment => Value(!SegmentHolds(lib, c, member))
    case Unknown => Value(false)
  }

  /** `all(...)` over the conditions, left to right, stopping at the first false one. */
  function AllHold(lib: Lib, user: User, cs: seq<Condition>, member: Oracle): Eval<bool> {
    if cs == [] then Value(true) else
      match ConditionHolds(lib, user, cs[0], member)
      case Raised => Raised
      case Value(false) => Value(false)
      case Value(true) => AllHold(lib, user, cs[1..], member)
  }

  function AnyRule(lib: Lib, user: User, rules: seq<seq<Condition>>, member: Oracle): Eval<bool> {
    if rules == [] then Value(false) else
      match AllHold(lib, user, rules[0], member)
      case Raised => Raised
      case Value(true) => Value(true)
      case Value(false) => AnyRule(lib, user, rules[1..], member)
  }

  // ---------- segment membership ----------

  /** One unfolding of `match_segment`: exclusion first, then inclusion, then the rules. */
  function MatchSegment(lib: Lib, segs: map<string, Segment>, user: User, id: string, member: Oracle): Eval<bool> {
    if id !in segs then Value(false)
    else if user.keyid in segs[id].excluded then Value(false)
    else if user.keyid in segs[id].included then Value(true)
    else AnyRule(lib, user, segs[id].rules, member)
  }

  /** Membership as computed with room for `depth` nested segments; running out of room raises. */
  function Member(lib: Lib, segs: map<string, Segment>, user: User, id: string, depth: nat): Eval<bool>
    decreases depth, 0
  {
    if id !in segs then Value(false)
    else if depth == 0 then Raised
    else MatchSegment(lib, segs, user, id, Members(lib, segs, user, depth - 1))
  }

  function Members(lib: Lib, segs: map<string, Segment>, user: User, depth: nat): Oracle
    decreases depth, 1
  {
    (id: string) => Member(lib, segs, user, id, depth)
  }

  // ---------- serving a variation ----------

  datatype Reason = FlagOff | TargetMatch | RuleMatch | Fallthrough

  datatype EvalResult = EvalResult(id: string, value: string, reason: Reason, sendToExpt: bool,
                                   keyName: string, name: string, flagType: string)

  /** The stored value of a variation; an unknown id is a `KeyError`. */
  function Served(flag: Flag, id: string, reason: Reason, expt: bool): Eval<Option<EvalResult>> {
    if id in flag.variationMap
    then Value(Some(EvalResult(id, flag.variationMap[id], reason, expt, flag.key, flag.name, flag.variationType)))
    else Raised
  }

  predicate SendToExperiment(lib: Lib, dispatch: string, rollout: Rollout, all: bool, included: bool) {
    if all then true
    else if !included then false
    else
      var width := rollout.range.hi - rollout.range.lo;
      if rollout.exptRollout == 0.0 || width == 0.0 then false else
        var upper := rollout.exptRollout / width;
        Belongs(lib.hashWord("expt" + dispatch), Range(0.0, if upper > 1.0 then 1.0 else upper))
  }

  function DispatchKey(lib: Lib, flag: Flag, serving: Serving, user: User): string {
    var property := if Absent(serving.dispatchKey) then "keyid" else serving.dispatchKey.value;
    var attribute := Attribute(lib, user, property);
    flag.key + (if attribute.Some? then attribute.value else "")
  }

  function Ranges(variations: seq<Rollout>): (rs: seq<Range>)
    ensures |rs| == |variations| && forall i :: 0 <= i < |rs| ==> rs[i] == variations[i].range
  {
    seq(|variations|, i requires 0 <= i < |variations| => variations[i].range)
  }

  /** The first variation whose range contains the hash word of the dispatch key; nothing if none does. */
  function RolloutOption(lib: Lib, flag: Flag, serving: Serving, user: User, reason: Reason): Eval<Option<EvalResult>> {
    var dispatch := DispatchKey(lib, flag, serving, user);
    var k := Select(lib.hashWord(dispatch), Ranges(serving.variations));
    if k == |serving.variations| then Value(None) else
      var rollout := serving.variations[k];
      Served(flag, rollout.id, reason,
             SendToExperiment(lib, dispatch, rollout, flag.exptIncludeAllTargets, serving.includedInExpt))
  }

  // ---------- the four operations, tried in order ----------

  datatype Op = Disabled | Targeted | Conditions | Default

  const OPS: seq<Op> := [Disabled, Targeted, Conditions, Default]

  function MatchTargets(flag: Flag, user: User, targets: seq<Target>): Eval<Option<EvalResult>> {
    if targets == [] then Value(None)
    else if user.keyid in targets[0].keyIds
    then Served(flag, targets[0].variationId, TargetMatch, flag.exptIncludeAllTargets)
    else MatchTargets(flag, user, targets[1..])
  }

  function MatchRules(lib: Lib, flag: Flag, user: User, rules: seq<Rule>, member: Oracle): Eval<Option<EvalResult>> {
    if rules == [] then Value(None) else
      match AllHold(lib, user, rules[0].conditions, member)
      case Raised => Raised
      case Value(true) => RolloutOption(lib, flag, rules[0].serving, user, RuleMatch)
      case Value(false) => MatchRules(lib, flag, user, rules[1..], member)
  }

  function Apply(lib: Lib, segs: map<string, Segment>, flag: Flag, user: User, op: Op): Eval<Option<EvalResult>> {
    match op
    case Disabled => if flag.isEnabled then Value(None) else Served(flag, flag.disabledVariationId, FlagOff, false)
    case Targeted => MatchTargets(flag, user, flag.targetUsers)
    case Conditions => MatchRules(lib, flag, user, flag.rules, Members(lib, segs, user, lib.depth))
    case Default => RolloutOption(lib, flag, flag.fallthrough, user, Fallthrough)
  }

  /** The first operation that raises or gives a result decides. */
  function FirstResult(lib: Lib, segs: map<string, Segment>, flag: Flag, user: User, ops: seq<Op>): Eval<Option<EvalResult>> {
    if ops == [] then Value(None)
    else if Apply(lib, segs, flag, user, ops[0]) == Value(None) then FirstResult(lib, segs, flag, user, ops[1..])
    else Apply(lib, segs, flag, user, ops[0])
  }

  function Evaluate(lib: Lib, segs: map<string, Segment>, flag: Flag, user: User): Eval<Option<EvalResult>> {
    FirstResult(lib, segs, flag, user, OPS)
  }

  /** The event an evaluation fills in. */
  class FlagEvent {
    const user: User
    var variations: seq<EvalResult>

    constructor (user: User)
      ensures this.user == user && variations == []
    {
      this.user := user;
      variations := [];
    }

    /** Only successful results are recorded; `NE` is the id of an error result. */
    method Add(r: EvalResult)
      modifies this
      ensures variations == if r.id != "NE" then old(variations) + [r] else old(variations)
    {
      if r.id != "NE" {
        variations := variations + [r];
      }
    }

    /** Only an event with something recorded is worth sending. */
    predicate IsSendEvent()
      reads this
    {
      |variations| > 0
    }
  }

  /** The loop over the operations; the event, if given, records the very result returned. */
  method MatchUserVariation(lib: Lib, segs: map<string, Segment>, flag: Flag, user: User, event: FlagEvent?)
    returns (er: Eval<Option<EvalResult>>)
    modifies event
    ensures er == Evaluate(lib, segs, flag, user)
    ensures event != null ==>
              event.variations == old(event.variations) +
                (if er.Value? && er.value.Some? && er.value.value.id != "NE" then [er.value.value] else [])
    ensures event != null && !old(event.IsSendEvent()) ==>
              (event.IsSendEvent() <==> er.Value? && er.value.Some? && er.value.value.id != "NE")
  {
    er := Value(None);
    var i := 0;
    while i < |OPS| && er == Value(None)
      invariant 0 <= i <= |OPS|
      invariant er == Value(None) ==> Evaluate(lib, segs, flag, user) == FirstResult(lib, segs, flag, user, OPS[i..])
      invariant er != Value(None) ==> er == Evaluate(lib, segs, flag, user)
    {
      er := Apply(lib, segs, flag, user, OPS[i]);
      assert OPS[i..][1..] == OPS[i + 1..];
      i := i + 1;
    }
    if er.Value? && er.value.Some? && event != null {
      event.Add(er.value.value);
    }
  }
}
