/** Segment references without cycles: exactly those along which a rank goes down, and membership on them. */
module SegmentGraph {
  import opened Common
  import opened Model
  import opened Evaluator
  import opened EvaluatorFrame
  import opened EvaluatorMeaning

  ghost predicate Refers(lib: Lib, segs: map<string, Segment>, id: string, r: string) {
    id in segs && r in segs && r in SegmentRefs(lib, segs[id])
  }

  /** A way along the references between stored segments. */
  ghost predicate Walk(lib: Lib, segs: map<string, Segment>, p: seq<string>) {
    && |p| > 0 && (forall i :: 0 <= i < |p| ==> p[i] in segs)
    && (forall i :: 0 <= i < |p| - 1 ==> Refers(lib, segs, p[i], p[i + 1]))
  }

  /** No way leads from a segment back to it. */
  ghost predicate Acyclic(lib: Lib, segs: map<string, Segment>) {
    forall p :: Walk(lib, segs, p) && |p| > 1 ==> p[0] != p[|p| - 1]
  }

  lemma {:induction false} DistinctWithin(p: seq<string>, ids: set<string>)
    requires NoDuplicates(p) && forall i :: 0 <= i < |p| ==> p[i] in ids
    ensures |p| <= |ids|
  {
    if p != [] {
      DistinctWithin(p[1..], ids - {p[0]});
    }
  }

  lemma NoReturn(lib: Lib, segs: map<string, Segment>, p: seq<string>, i: nat)
    requires Acyclic(lib, segs) && Walk(lib, segs, p) && i < |p| - 1
    ensures p[i] != p[|p| - 1]
  {
    hide Refers;
    assert Walk(lib, segs, p[i..]);
  }

  /** Going on along references to new segments of a set comes to an end at a segment that refers to none of the set. */
  lemma {:induction false} FindSink(lib: Lib, segs: map<string, Segment>, ids: set<string>, p: seq<string>) returns (sink: string)
    requires Acyclic(lib, segs) && Walk(lib, segs, p) && NoDuplicates(p)
    requires ids <= segs.Keys && forall i :: 0 <= i < |p| ==> p[i] in ids
    ensures sink in ids && forall r :: r in ids ==> !Refers(lib, segs, sink, r)
    decreases |ids| - |p|
  {
    hide Refers;
    sink := p[|p| - 1];
    DistinctWithin(p, ids);
    if r :| r in ids && Refers(lib, segs, sink, r) {
      var q := p + [r];
      assert Walk(lib, segs, q);
      forall i | 0 <= i < |p| ensures p[i] != r {
        NoReturn(lib, segs, q, i);
      }
      DistinctWithin(q, ids);
      sink := FindSink(lib, segs, ids, q);
    }
  }

  ghost predicate RankedOn(lib: Lib, segs: map<string, Segment>, ids: set<string>, rank: string -> nat) {
    && (forall id, r :: id in ids && r in ids && Refers(lib, segs, id, r) ==> rank(r) < rank(id))
    && (forall id :: id in ids ==> rank(id) < |ids|)
  }

  lemma {:induction false} RankWithin(lib: Lib, segs: map<string, Segment>, ids: set<string>) returns (rank: string -> nat)
    requires Acyclic(lib, segs) && ids <= segs.Keys
    ensures RankedOn(lib, segs, ids, rank)
  {
    hide Acyclic, Refers;
    if ids == {} {
      return id => 0;
    }
    var start :| start in ids;
    var sink := FindSink(lib, segs, ids, [start]);
    var rest := RankWithin(lib, segs, ids - {sink});
    rank := id => if id == sink then 0 else rest(id) + 1;
  }

  ghost predicate RankedBelow(lib: Lib, segs: map<string, Segment>, rank: string -> nat) {
    Ranked(lib, segs, rank) && forall id :: id in segs ==> rank(id) < |segs|
  }

  /** References have no cycle if and only if some rank goes down along all of them, and then one below their number does. */
  lemma AcyclicIsRanked(lib: Lib, segs: map<string, Segment>)
    ensures Acyclic(lib, segs) <==> exists rank: string -> nat :: Ranked(lib, segs, rank)
    ensures Acyclic(lib, segs) ==> exists rank: string -> nat :: RankedBelow(lib, segs, rank)
  {
    if Acyclic(lib, segs) {
      var rank := RankWithin(lib, segs, segs.Keys);
      assert |segs.Keys| == |segs|;
      forall id, r | id in segs && r in SegmentRefs(lib, segs[id]) && r in segs ensures rank(r) < rank(id) {
        assert Refers(lib, segs, id, r);
      }
      assert Ranked(lib, segs, rank) && RankedBelow(lib, segs, rank);
    }
    if rank: string -> nat :| Ranked(lib, segs, rank) {
      forall p | Walk(lib, segs, p) && |p| > 1 ensures p[0] != p[|p| - 1] {
        WalkGoesDown(lib, segs, rank, p);
      }
    }
  }

  lemma {:induction false} WalkGoesDown(lib: Lib, segs: map<string, Segment>, rank: string -> nat, p: seq<string>)
    requires Ranked(lib, segs, rank) && Walk(lib, segs, p)
    ensures |p| > 1 ==> rank(p[|p| - 1]) < rank(p[0])
    decreases |p|
  {
    if |p| > 1 {
      var rest := p[1..];
      assert Walk(lib, segs, rest);
      WalkGoesDown(lib, segs, rank, rest);
      assert Refers(lib, segs, p[0], p[1]);
      assert rank(p[1]) < rank(p[0]);
    }
  }

  /**
   * Without cycles the membership equations have exactly one solution: what the evaluator computes for every
   * segment as soon as there is room for as many nested lookups as there are segments.
   */
  lemma MembershipWellDefined(lib: Lib, segs: map<string, Segment>, user: User)
    requires Acyclic(lib, segs)
    ensures Solves(lib, segs, user, Members(lib, segs, user, |segs|))
    ensures forall m, id :: Solves(lib, segs, user, m) ==> m(id) == Member(lib, segs, user, id, |segs|)
    ensures forall id, depth: nat :: depth >= |segs| ==> Member(lib, segs, user, id, depth) == Member(lib, segs, user, id, |segs|)
  {
    hide Acyclic, Ranked, Solves, Member;
    AcyclicIsRanked(lib, segs);
    var rank: string -> nat :| RankedBelow(lib, segs, rank);
    RankedMembership(lib, segs, user, rank);
    var solution, computed := RankedMembers(lib, segs, user, rank), Members(lib, segs, user, |segs|);
    forall id ensures computed(id) == solution(id) {
      assert Member(lib, segs, user, id, |segs|) == solution(id);
    }
    SameSolution(lib, segs, user, solution, computed);
  }

  lemma SameSolution(lib: Lib, segs: map<string, Segment>, user: User, m: Oracle, m': Oracle)
    requires Solves(lib, segs, user, m) && forall id :: m(id) == m'(id)
    ensures Solves(lib, segs, user, m')
  {
    forall id ensures m'(id) == MatchSegment(lib, segs, user, id, m') {
      MatchAgrees(lib, segs, user, id, m, m');
    }
  }

  // ---------- what membership means ----------

  ghost predicate RuleHolds(lib: Lib, user: User, cs: seq<Condition>, m: Oracle) {
    forall i :: 0 <= i < |cs| ==> ConditionHolds(lib, user, cs[i], m) == Value(true)
  }

  /** Some condition is false, and all before it are true. */
  ghost predicate RuleFails(lib: Lib, user: User, cs: seq<Condition>, m: Oracle) {
    exists k :: 0 <= k < |cs| && ConditionHolds(lib, user, cs[k], m) == Value(false)
                && forall i :: 0 <= i < k ==> ConditionHolds(lib, user, cs[i], m) == Value(true)
  }

  lemma {:induction false} RuleDecides(lib: Lib, user: User, cs: seq<Condition>, m: Oracle)
    ensures AllHold(lib, user, cs, m) == Value(true) <==> RuleHolds(lib, user, cs, m)
    ensures AllHold(lib, user, cs, m) == Value(false) <==> RuleFails(lib, user, cs, m)
  {
    hide ConditionHolds;
    AllHoldMeaning(lib, user, cs, m);
    if AllHold(lib, user, cs, m) == Value(false) {
      var k := FirstUntrue(lib, user, cs, m, |cs|);
    }
  }

  lemma {:induction false} FirstUntrue(lib: Lib, user: User, cs: seq<Condition>, m: Oracle, n: nat) returns (k: nat)
    requires n <= |cs| && exists i :: 0 <= i < n && ConditionHolds(lib, user, cs[i], m) != Value(true)
    ensures k < n && ConditionHolds(lib, user, cs[k], m) != Value(true)
    ensures forall i :: 0 <= i < k ==> ConditionHolds(lib, user, cs[i], m) == Value(true)
  {
    hide ConditionHolds;
    if exists i :: 0 <= i < n - 1 && ConditionHolds(lib, user, cs[i], m) != Value(true) {
      k := FirstUntrue(lib, user, cs, m, n - 1);
    } else {
      k := n - 1;
    }
  }

  /** Some rule holds, and all before it plainly fail. */
  ghost predicate SomeRuleHolds(lib: Lib, user: User, rules: seq<seq<Condition>>, m: Oracle) {
    exists k :: 0 <= k < |rules| && RuleHolds(lib, user, rules[k], m) && forall i :: 0 <= i < k ==> RuleFails(lib, user, rules[i], m)
  }

  lemma {:induction false} AnyRuleHolds(lib: Lib, user: User, rules: seq<seq<Condition>>, m: Oracle)
    ensures AnyRule(lib, user, rules, m) == Value(true) <==> SomeRuleHolds(lib, user, rules, m)
  {
    if rules != [] {
      var rest := rules[1..];
      RuleDecides(lib, user, rules[0], m);
      AnyRuleHolds(lib, user, rest, m);
      SomeRuleStep(lib, user, rules, m);
      hide RuleHolds, RuleFails, AllHold, SomeRuleHolds;
    }
  }

  lemma SomeRuleStep(lib: Lib, user: User, rules: seq<seq<Condition>>, m: Oracle)
    requires rules != []
    ensures SomeRuleHolds(lib, user, rules, m) <==>
              RuleHolds(lib, user, rules[0], m) || (RuleFails(lib, user, rules[0], m) && SomeRuleHolds(lib, user, rules[1..], m))
  {
    hide RuleHolds, RuleFails;
    var rest := rules[1..];
    if SomeRuleHolds(lib, user, rest, m) && RuleFails(lib, user, rules[0], m) {
      var k :| 0 <= k < |rest| && RuleHolds(lib, user, rest[k], m) && forall i :: 0 <= i < k ==> RuleFails(lib, user, rest[i], m);
      assert RuleHolds(lib, user, rules[k + 1], m);
      assert forall i :: 1 <= i < |rules| ==> rules[i] == rest[i - 1];
    }
    if k :| 0 <= k < |rules| && RuleHolds(lib, user, rules[k], m) && forall i :: 0 <= i < k ==> RuleFails(lib, user, rules[i], m) {
      if k > 0 {
        assert RuleHolds(lib, user, rest[k - 1], m);
      }
    }
  }

  lemma {:induction false} AnyRuleFails(lib: Lib, user: User, rules: seq<seq<Condition>>, m: Oracle)
    ensures AnyRule(lib, user, rules, m) == Value(false) <==> forall cs :: cs in rules ==> RuleFails(lib, user, cs, m)
  {
    if rules != [] {
      RuleDecides(lib, user, rules[0], m);
      AnyRuleFails(lib, user, rules[1..], m);
      hide RuleHolds, RuleFails, AllHold;
      assert forall cs :: cs in rules <==> cs == rules[0] || cs in rules[1..];
    }
  }

  /**
   * `answer` is the membership of the user in the segment, its rules asking `m` about other segments: nobody is in
   * an unknown segment; whoever is excluded is out, listed as included or not, whatever the rules say; whoever
   * else is included is in; for the others some rule must hold before one raises.
   */
  ghost predicate Means(lib: Lib, segs: map<string, Segment>, user: User, id: string, m: Oracle, answer: Eval<bool>) {
    && (id !in segs ==> answer == Value(false))
    && (id in segs ==>
          var s := segs[id];
          && (user.keyid in s.excluded ==> answer == Value(false))
          && (user.keyid !in s.excluded && user.keyid in s.included ==> answer == Value(true))
          && (user.keyid !in s.excluded && user.keyid !in s.included ==>
                && (answer == Value(true) <==> SomeRuleHolds(lib, user, s.rules, m))
                && (answer == Value(false) <==> forall cs :: cs in s.rules ==> RuleFails(lib, user, cs, m))))
  }

  /** Membership as it is computed, with room for at least one segment, and in every solution of the equations. */
  lemma MembershipMeaning(lib: Lib, segs: map<string, Segment>, user: User, id: string, depth: nat)
    requires depth > 0
    ensures Means(lib, segs, user, id, Members(lib, segs, user, depth - 1), Member(lib, segs, user, id, depth))
    ensures forall m :: Solves(lib, segs, user, m) ==> Means(lib, segs, user, id, m, m(id))
  {
    MatchMeaning(lib, segs, user, id, Members(lib, segs, user, depth - 1));
    hide Means, MatchSegment;
    forall m | Solves(lib, segs, user, m) ensures Means(lib, segs, user, id, m, m(id)) {
      MatchMeaning(lib, segs, user, id, m);
    }
    assert id !in segs ==> MatchSegment(lib, segs, user, id, Members(lib, segs, user, depth - 1)) == Value(false) by {
      UnknownSegment(lib, segs, user, id, Members(lib, segs, user, depth - 1));
    }
  }

  lemma UnknownSegment(lib: Lib, segs: map<string, Segment>, user: User, id: string, m: Oracle)
    ensures id !in segs ==> MatchSegment(lib, segs, user, id, m) == Value(false)
  {
  }

  lemma MatchMeaning(lib: Lib, segs: map<string, Segment>, user: User, id: string, m: Oracle)
    ensures Means(lib, segs, user, id, m, MatchSegment(lib, segs, user, id, m))
  {
    if id in segs {
      AnyRuleHolds(lib, user, segs[id].rules, m);
      AnyRuleFails(lib, user, segs[id].rules, m);
    }
    hide SomeRuleHolds, RuleFails, AnyRule;
  }
}
