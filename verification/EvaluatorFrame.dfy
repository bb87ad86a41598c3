/** What an evaluation reads, and when segment membership has a single meaning. */
module EvaluatorFrame {
  import opened Common
  import opened Model
  import opened Evaluator

  // ---------- references ----------

  ghost function ConditionRefs(lib: Lib, c: Condition): set<string> {
    if OperatorOf(c) in {InSegment, NotInSegment} && ListedIds(lib, c).Some?
    then set id | id in ListedIds(lib, c).value
    else {}
  }

  ghost function Refs(lib: Lib, cs: seq<Condition>): set<string> {
    set c, id | c in cs && id in ConditionRefs(lib, c) :: id
  }

  ghost function SegmentRefs(lib: Lib, s: Segment): set<string> {
    set cs, id | cs in s.rules && id in Refs(lib, cs) :: id
  }

  ghost function FlagRefs(lib: Lib, f: Flag): set<string> {
    set rule, id | rule in f.rules && id in Refs(lib, rule.conditions) :: id
  }

  // ---------- only the referenced ids are asked about ----------

  lemma {:induction false} AnyMemberAgrees(ids: seq<string>, m: Oracle, m': Oracle)
    requires forall id :: id in ids ==> m(id) == m'(id)
    ensures AnyMember(ids, m) == AnyMember(ids, m')
  {
    if ids != [] {
      AnyMemberAgrees(ids[1..], m, m');
    }
  }

  lemma ConditionAgrees(lib: Lib, user: User, c: Condition, m: Oracle, m': Oracle)
    requires forall id :: id in ConditionRefs(lib, c) ==> m(id) == m'(id)
    ensures ConditionHolds(lib, user, c, m) == ConditionHolds(lib, user, c, m')
  {
    if OperatorOf(c) in {InSegment, NotInSegment} && ListedIds(lib, c).Some? {
      AnyMemberAgrees(ListedIds(lib, c).value, m, m');
    }
  }

  lemma {:induction false} AllHoldAgrees(lib: Lib, user: User, cs: seq<Condition>, m: Oracle, m': Oracle)
    requires forall id :: id in Refs(lib, cs) ==> m(id) == m'(id)
    ensures AllHold(lib, user, cs, m) == AllHold(lib, user, cs, m')
  {
    if cs != [] {
      assert forall id :: id in ConditionRefs(lib, cs[0]) ==> id in Refs(lib, cs);
      ConditionAgrees(lib, user, cs[0], m, m');
      AllHoldAgrees(lib, user, cs[1..], m, m');
    }
  }

  lemma {:induction false} AnyRuleAgrees(lib: Lib, user: User, rules: seq<seq<Condition>>, m: Oracle, m': Oracle)
    requires forall cs, id :: cs in rules && id in Refs(lib, cs) ==> m(id) == m'(id)
    ensures AnyRule(lib, user, rules, m) == AnyRule(lib, user, rules, m')
  {
    if rules != [] {
      AllHoldAgrees(lib, user, rules[0], m, m');
      AnyRuleAgrees(lib, user, rules[1..], m, m');
    }
  }

  lemma MatchAgrees(lib: Lib, segs: map<string, Segment>, user: User, id: string, m: Oracle, m': Oracle)
    requires id in segs ==> forall r :: r in SegmentRefs(lib, segs[id]) ==> m(r) == m'(r)
    ensures MatchSegment(lib, segs, user, id, m) == MatchSegment(lib, segs, user, id, m')
  {
    if id in segs {
      forall cs, r | cs in segs[id].rules && r in Refs(lib, cs) ensures m(r) == m'(r) {
        assert r in SegmentRefs(lib, segs[id]);
      }
      AnyRuleAgrees(lib, user, segs[id].rules, m, m');
    }
  }

  lemma {:induction false} MatchRulesAgrees(lib: Lib, f: Flag, user: User, rules: seq<Rule>, m: Oracle, m': Oracle)
    requires forall rule, id :: rule in rules && id in Refs(lib, rule.conditions) ==> m(id) == m'(id)
    ensures MatchRules(lib, f, user, rules, m) == MatchRules(lib, f, user, rules, m')
  {
    if rules != [] {
      AllHoldAgrees(lib, user, rules[0].conditions, m, m');
      MatchRulesAgrees(lib, f, user, rules[1..], m, m');
    }
  }

  // ---------- the frame theorem ----------

  /** Following references from a stored segment of `ids` never leaves `ids`. */
  ghost predicate Closed(lib: Lib, segs: map<string, Segment>, ids: iset<string>) {
    forall id, r :: id in ids && id in segs && r in SegmentRefs(lib, segs[id]) ==> r in ids
  }

  ghost predicate SameOn(segs: map<string, Segment>, segs': map<string, Segment>, ids: iset<string>) {
    forall id :: id in ids ==> (id in segs <==> id in segs') && (id in segs ==> segs[id] == segs'[id])
  }

  lemma {:induction false} MemberFrame(lib: Lib, segs: map<string, Segment>, segs': map<string, Segment>,
                                       user: User, ids: iset<string>, id: string, depth: nat)
    requires Closed(lib, segs, ids) && SameOn(segs, segs', ids) && id in ids
    ensures Member(lib, segs, user, id, depth) == Member(lib, segs', user, id, depth)
    decreases depth
  {
    if id in segs && depth > 0 {
      var m, m' := Members(lib, segs, user, depth - 1), Members(lib, segs', user, depth - 1);
      forall r | r in SegmentRefs(lib, segs[id]) ensures m(r) == m'(r) {
        MemberFrame(lib, segs, segs', user, ids, r, depth - 1);
      }
      MatchAgrees(lib, segs, user, id, m, m');
    }
  }

  /**
   * Evaluating a flag reads nothing but the flag and the segments its references lead to:
   * two segment stores that coincide on a closed set of ids holding the flag's own references
   * give every user the same result.
   */
  lemma EvaluateFrame(lib: Lib, segs: map<string, Segment>, segs': map<string, Segment>,
                      f: Flag, user: User, ids: iset<string>)
    requires Closed(lib, segs, ids) && SameOn(segs, segs', ids)
    requires forall id :: id in FlagRefs(lib, f) ==> id in ids
    ensures Evaluate(lib, segs, f, user) == Evaluate(lib, segs', f, user)
  {
    var m, m' := Members(lib, segs, user, lib.depth), Members(lib, segs', user, lib.depth);
    forall rule, r | rule in f.rules && r in Refs(lib, rule.conditions)
      ensures m(r) == m'(r)
    {
      assert r in FlagRefs(lib, f);
      MemberFrame(lib, segs, segs', user, ids, r, lib.depth);
    }
    MatchRulesAgrees(lib, f, user, f.rules, m, m');
    forall op ensures Apply(lib, segs, f, user, op) == Apply(lib, segs', f, user, op) {
    }
    FirstResultAgrees(lib, segs, segs', f, user, OPS);
  }

  lemma {:induction false} FirstResultAgrees(lib: Lib, segs: map<string, Segment>, segs': map<string, Segment>,
                                             f: Flag, user: User, ops: seq<Op>)
    requires forall op :: Apply(lib, segs, f, user, op) == Apply(lib, segs', f, user, op)
    ensures FirstResult(lib, segs, f, user, ops) == FirstResult(lib, segs', f, user, ops)
  {
    if ops != [] {
      FirstResultAgrees(lib, segs, segs', f, user, ops[1..]);
    }
  }

  // ---------- reference paths ----------

  /** A chain of references that starts in the flag and runs through stored segments. */
  ghost predicate Path(lib: Lib, segs: map<string, Segment>, f: Flag, p: seq<string>) {
    && |p| > 0
    && if |p| == 1 then p[0] in FlagRefs(lib, f) else
         var before := p[..|p| - 1];
         var via := before[|before| - 1];
         Path(lib, segs, f, before) && via in segs && p[|p| - 1] in SegmentRefs(lib, segs[via])
  }

  ghost predicate Reaches(lib: Lib, segs: map<string, Segment>, f: Flag, id: string) {
    exists p :: Path(lib, segs, f, p) && p[|p| - 1] == id
  }

  lemma ReachableIsClosed(lib: Lib, segs: map<string, Segment>, f: Flag)
    ensures Closed(lib, segs, iset id | Reaches(lib, segs, f, id))
    ensures forall id :: id in FlagRefs(lib, f) ==> Reaches(lib, segs, f, id)
  {
    forall id, r | Reaches(lib, segs, f, id) && id in segs && r in SegmentRefs(lib, segs[id])
      ensures Reaches(lib, segs, f, r)
    {
      var p :| Path(lib, segs, f, p) && p[|p| - 1] == id;
      var q := p + [r];
      assert q[..|q| - 1] == p;
      assert Path(lib, segs, f, q) && q[|q| - 1] == r;
    }
    forall id | id in FlagRefs(lib, f) ensures Reaches(lib, segs, f, id) {
      assert Path(lib, segs, f, [id]) && [id][|[id]| - 1] == id;
    }
  }

  /** If a result changes, some segment on a reference path of the flag changed. */
  lemma ChangeIsReachable(lib: Lib, segs: map<string, Segment>, segs': map<string, Segment>, f: Flag, user: User)
    requires Evaluate(lib, segs, f, user) != Evaluate(lib, segs', f, user)
    ensures exists id :: Reaches(lib, segs, f, id) && !SameOn(segs, segs', iset{id})
  {
    var ids := iset id | Reaches(lib, segs, f, id);
    ReachableIsClosed(lib, segs, f);
    if SameOn(segs, segs', ids) {
      EvaluateFrame(lib, segs, segs', f, user, ids);
    } else {
      var id :| id in ids && !((id in segs <==> id in segs') && (id in segs ==> segs[id] == segs'[id]));
      assert id in iset{id};
    }
  }

  // ---------- membership is well defined where references go down ----------

  /** The membership equations: what the code says membership is, in terms of itself. */
  ghost predicate Solves(lib: Lib, segs: map<string, Segment>, user: User, m: Oracle) {
    forall id :: m(id) == MatchSegment(lib, segs, user, id, m)
  }

  /** Every reference between stored segments goes down in rank. */
  ghost predicate Ranked(lib: Lib, segs: map<string, Segment>, rank: string -> nat) {
    forall id, r :: id in segs && r in SegmentRefs(lib, segs[id]) && r in segs ==> rank(r) < rank(id)
  }

  /** Any solution is what the evaluator computes, as soon as the stack has room for the rank. */
  lemma {:induction false} SolutionIsMember(lib: Lib, segs: map<string, Segment>, user: User,
                                            rank: string -> nat, m: Oracle, id: string, depth: nat)
    requires Ranked(lib, segs, rank) && Solves(lib, segs, user, m)
    requires id in segs ==> rank(id) < depth
    ensures Member(lib, segs, user, id, depth) == m(id)
    decreases depth
  {
    if id in segs {
      var computed := Members(lib, segs, user, depth - 1);
      forall r | r in SegmentRefs(lib, segs[id]) ensures computed(r) == m(r) {
        SolutionIsMember(lib, segs, user, rank, m, r, depth - 1);
      }
      MatchAgrees(lib, segs, user, id, computed, m);
    }
  }

  /** More stack changes nothing once there is enough of it. */
  lemma {:induction false} DepthIrrelevant(lib: Lib, segs: map<string, Segment>, user: User,
                                           rank: string -> nat, id: string, depth: nat, depth': nat)
    requires Ranked(lib, segs, rank)
    requires id in segs ==> rank(id) < depth && rank(id) < depth'
    ensures Member(lib, segs, user, id, depth) == Member(lib, segs, user, id, depth')
    decreases depth
  {
    if id in segs {
      var m, m' := Members(lib, segs, user, depth - 1), Members(lib, segs, user, depth' - 1);
      forall r | r in SegmentRefs(lib, segs[id]) ensures m(r) == m'(r) {
        DepthIrrelevant(lib, segs, user, rank, r, depth - 1, depth' - 1);
      }
      MatchAgrees(lib, segs, user, id, m, m');
    }
  }

  ghost function RankedMembers(lib: Lib, segs: map<string, Segment>, user: User, rank: string -> nat): Oracle {
    (id: string) => Member(lib, segs, user, id, rank(id) + 1)
  }

  lemma RankedMembersSolve(lib: Lib, segs: map<string, Segment>, user: User, rank: string -> nat, id: string)
    requires Ranked(lib, segs, rank)
    ensures RankedMembers(lib, segs, user, rank)(id) ==
            MatchSegment(lib, segs, user, id, RankedMembers(lib, segs, user, rank))
  {
    hide SegmentRefs, AnyRule;
    var solution := RankedMembers(lib, segs, user, rank);
    var depth: nat := rank(id) + 1;
    assert solution(id) == Member(lib, segs, user, id, depth);
    if id in segs {
      var computed := Members(lib, segs, user, depth - 1);
      forall r | r in SegmentRefs(lib, segs[id]) ensures computed(r) == solution(r) {
        DepthIrrelevant(lib, segs, user, rank, r, depth - 1, rank(r) + 1);
      }
      MatchAgrees(lib, segs, user, id, computed, solution);
    }
  }

  /**
   * Where references go down in rank the equations have exactly one solution, and it is what the evaluator
   * computes for every segment whose rank fits the stack.
   */
  lemma RankedMembership(lib: Lib, segs: map<string, Segment>, user: User, rank: string -> nat)
    requires Ranked(lib, segs, rank)
    ensures Solves(lib, segs, user, RankedMembers(lib, segs, user, rank))
    ensures forall m, id :: Solves(lib, segs, user, m) ==> m(id) == RankedMembers(lib, segs, user, rank)(id)
    ensures forall id, depth: nat :: (id in segs ==> rank(id) < depth) ==>
              Member(lib, segs, user, id, depth) == RankedMembers(lib, segs, user, rank)(id)
  {
    hide Member, MatchSegment, Ranked;
    var solution := RankedMembers(lib, segs, user, rank);
    forall id ensures solution(id) == MatchSegment(lib, segs, user, id, solution) {
      RankedMembersSolve(lib, segs, user, rank, id);
    }
    forall m, id | Solves(lib, segs, user, m) ensures m(id) == solution(id) {
      SolutionIsMember(lib, segs, user, rank, m, id, rank(id) + 1);
    }
    forall id, depth: nat | id in segs ==> rank(id) < depth
      ensures Member(lib, segs, user, id, depth) == solution(id)
    {
      DepthIrrelevant(lib, segs, user, rank, id, depth, rank(id) + 1);
    }
  }

  /** Acyclicity is needed: a segment made of the users who are not in it satisfies no equations. */
  lemma SelfExclusionHasNoSolution(lib: Lib, segs: map<string, Segment>, user: User, id: string, c: Condition, m: Oracle)
    requires OperatorOf(c) == NotInSegment && ListedIds(lib, c) == Some([id])
    requires id in segs && segs[id] == Segment(id, [], [], [[c]])
    ensures !Solves(lib, segs, user, m)
  {
    assert SegmentHolds(lib, c, m) <==> m(id) == Value(true) by {
      assert AnyMember([id][1..], m) == Value(false);
    }
    assert AllHold(lib, user, [c][1..], m) == Value(true);
    assert AnyRule(lib, user, [[c]][1..], m) == Value(false);
    assert MatchSegment(lib, segs, user, id, m) == Value(m(id) != Value(true));
  }

  /** The segment operation is recognised when it stands in the property of a condition without operator. */
  lemma InSegmentOperator(c: Condition)
    requires Absent(c.op) && c.property == "User is in segment"
    ensures OperatorOf(c) == InSegment
  {
    NoComparison(c.property);
    hide HasSubstring;
  }

  lemma NoComparison(property: string)
    requires property == "User is in segment"
    ensures !HasSubstring(property, "Than")
  {
    NoSuchLetter(property, "Than");
  }

  lemma {:induction false} NoSuchLetter(text: string, part: string)
    requires part != [] && part[0] !in text
    ensures !HasSubstring(text, part)
  {
    if |part| <= |text| {
      assert text[0] in text;
      NoSuchLetter(text[1..], part);
    }
  }
}
