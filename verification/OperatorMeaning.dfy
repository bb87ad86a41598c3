/** What a condition says about a user, operator by operator. */
module OperatorMeaning {
  import opened Common
  import opened Model
  import opened Evaluator
  import opened EvaluatorMeaning
  import EvaluatorFrame

  function NameOf(c: Condition): string {
    if Absent(c.op) then c.property else c.op.value
  }

  predicate Holds(lib: Lib, user: User, c: Condition, m: Oracle) {
    ConditionHolds(lib, user, c, m) == Value(true)
  }

  // ---------- names select operators ----------

  /** The one name of each operator; comparisons and unknown ones have none. */
  function Named(o: Operator): Option<string> {
    match o
    case Equal => Some("Equal")
    case NotEqual => Some("NotEqual")
    case Contains => Some("Contains")
    case NotContain => Some("NotContain")
    case IsOneOf => Some("IsOneOf")
    case NotOneOf => Some("NotOneOf")
    case StartsWithOp => Some("StartsWith")
    case EndsWithOp => Some("EndsWith")
    case IsTrue => Some("IsTrue")
    case IsFalse => Some("IsFalse")
    case MatchRegex => Some("MatchRegex")
    case NotMatchRegex => Some("NotMatchRegex")
    case InSegment => Some("User is in segment")
    case NotInSegment => Some("User is not in segment")
    case _ => None
  }

  lemma NameOfOperator(c: Condition)
    ensures OperatorOf(c) !in {Than, Unknown} ==> Named(OperatorOf(c)) == Some(NameOf(c))
    ensures OperatorOf(c) == Than <==> HasSubstring(NameOf(c), "Than")
  {
    hide HasSubstring;
  }

  lemma UnknownIsUnnamed(c: Condition, o: Operator)
    requires OperatorOf(c) == Unknown
    ensures Named(o) != Some(NameOf(c))
  {
    hide HasSubstring;
  }

  lemma NamedIsNoComparison(o: Operator)
    requires Named(o).Some?
    ensures !HasSubstring(Named(o).value, "Than")
  {
    var name := Named(o).value;
    if o == IsTrue {
      IsTrueIsNoComparison();
    } else {
      assert 'T' !in name;
      EvaluatorFrame.NoSuchLetter(name, "Than");
    }
  }

  lemma IsTrueIsNoComparison()
    ensures !HasSubstring("IsTrue", "Than")
  {
    assert "IsTrue"[1..] == "sTrue" && "sTrue"[1..] == "True" && "True"[1..] == "rue";
    assert "IsTrue"[0] == 'I' && "sTrue"[0] == 's' && "True"[1] == 'r';
  }

  lemma NamesDiffer(o: Operator, o': Operator)
    requires Named(o).Some? && Named(o) == Named(o')
    ensures o == o'
  {
  }

  /** A condition has an operator exactly if its name is the one of that operator. */
  lemma NameSelects(c: Condition, o: Operator)
    requires Named(o).Some?
    ensures OperatorOf(c) == o <==> Named(o) == Some(NameOf(c))
  {
    NameOfOperator(c);
    hide OperatorOf, HasSubstring;
    if Named(o) == Some(NameOf(c)) {
      NamedIsNoComparison(o);
      if OperatorOf(c) == Unknown {
        UnknownIsUnnamed(c, o);
      } else {
        NamesDiffer(o, OperatorOf(c));
      }
    }
  }

  /** The text is the part with something before it and something after it, nothing where an end is named. */
  ghost predicate SplitsAround(text: string, part: string, atStart: bool, atEnd: bool) {
    exists before: string, after: string ::
      text == before + part + after && (atStart ==> before == "") && (atEnd ==> after == "")
  }

  lemma SplitAtStart(text: string, part: string)
    ensures StartsWith(text, part) <==> SplitsAround(text, part, true, false)
  {
    if StartsWith(text, part) {
      assert text == "" + part + text[|part|..];
    }
  }

  lemma SplitAtEnd(text: string, part: string)
    ensures EndsWith(text, part) <==> SplitsAround(text, part, false, true)
  {
    if EndsWith(text, part) {
      assert text == text[..|text| - |part|] + part + "";
    }
  }

  lemma SplitAtBoth(text: string, part: string)
    ensures text == part <==> SplitsAround(text, part, true, true)
  {
    assert "" + part + "" == part;
  }

  lemma Splitting(text: string, part: string)
    ensures HasSubstring(text, part) <==> SplitsAround(text, part, false, false)
    ensures StartsWith(text, part) <==> SplitsAround(text, part, true, false)
    ensures EndsWith(text, part) <==> SplitsAround(text, part, false, true)
    ensures text == part <==> SplitsAround(text, part, true, true)
  {
    SubstringMeaning(text, part);
    hide HasSubstring, StartsWith, EndsWith;
    SplitAtStart(text, part);
    SplitAtEnd(text, part);
    SplitAtBoth(text, part);
  }

  /** The text of the attribute splits around the value at the place that the operator names. */
  lemma TextOperators(lib: Lib, user: User, c: Condition, m: Oracle)
    requires OperatorOf(c) in {Equal, Contains, StartsWithOp, EndsWithOp}
    ensures var pv := Attribute(lib, user, c.property);
            Holds(lib, user, c, m) <==>
              BothPresent(pv, c) && SplitsAround(pv.value, c.value.value, OperatorOf(c) in {Equal, StartsWithOp}, OperatorOf(c) in {Equal, EndsWithOp})
    ensures NameOf(c) == match OperatorOf(c) case Equal => "Equal" case Contains => "Contains" case StartsWithOp => "StartsWith" case _ => "EndsWith"
  {
    hide Attribute, HasSubstring, SplitsAround;
    var pv := Attribute(lib, user, c.property);
    if BothPresent(pv, c) {
      Splitting(pv.value, c.value.value);
    }
    hide StartsWith, EndsWith;
  }

  /** Two conditions on the same attribute never hold together when one asks for true and the other for false. */
  lemma BooleanOperators(lib: Lib, user: User, c: Condition, c': Condition, m: Oracle)
    requires OperatorOf(c) == IsTrue && OperatorOf(c') == IsFalse && c.property == c'.property
    ensures NameOf(c) == "IsTrue" && NameOf(c') == "IsFalse"
    ensures !(Holds(lib, user, c, m) && Holds(lib, user, c', m))
    ensures Holds(lib, user, c, m) || Holds(lib, user, c', m) <==>
              Attribute(lib, user, c.property).Some? && lib.lower(Attribute(lib, user, c.property).value) in {"true", "false"}
  {
    hide Attribute, HasSubstring;
    assert |"true"| == 4 && |"false"| == 5;
  }

  /** The condition that the attribute equals one given text. */
  function EqualTo(property: string, text: string): Condition {
    Condition(property, Some("Equal"), Some(text))
  }

  lemma EqualOperator(property: string, text: string)
    ensures OperatorOf(EqualTo(property, text)) == Equal
  {
    EvaluatorFrame.NoSuchLetter("Equal", "Than");
    hide HasSubstring;
  }

  /**
   * A list condition is the disjunction of the equality conditions on its texts, and so depends on the texts only,
   * not on their order or number; an unreadable list is the empty disjunction.
   */
  lemma ListOperator(lib: Lib, user: User, c: Condition, m: Oracle)
    requires OperatorOf(c) == IsOneOf
    ensures Holds(lib, user, c, m) <==>
              ListedIds(lib, c).Some? && exists text :: text in ListedIds(lib, c).value && Holds(lib, user, EqualTo(c.property, text), m)
    ensures forall c': Condition :: OperatorOf(c') == IsOneOf && c'.property == c.property
              && ListedIds(lib, c).Some? && ListedIds(lib, c').Some?
              && (forall text :: text in ListedIds(lib, c).value ==> text in ListedIds(lib, c').value)
              ==> (Holds(lib, user, c, m) ==> Holds(lib, user, c', m))
  {
    forall text ensures OperatorOf(EqualTo(c.property, text)) == Equal {
      EqualOperator(c.property, text);
    }
    hide Attribute, HasSubstring, OperatorOf;
  }

  const COMPARISONS: set<string> := {"BiggerThan", "BiggerEqualThan", "LessThan", "LessEqualThan"}

  /** By how much the attribute exceeds the value, if both are numbers. */
  function Excess(lib: Lib, pv: Option<string>, value: Option<string>): Option<real> {
    if pv.None? || value.None? then None else
      match (lib.number(pv.value), lib.number(value.value))
      case (Some(x), Some(y)) => Some(x - y)
      case _ => None
  }

  /** A comparison needs two numbers; the strict ones exclude equality, the others include it. */
  lemma ComparisonOperators(lib: Lib, user: User, c: Condition, m: Oracle)
    requires c.op.Some? && c.op.value in COMPARISONS
    ensures var excess := Excess(lib, Attribute(lib, user, c.property), c.value);
            && (c.op.value == "BiggerThan" ==> (Holds(lib, user, c, m) <==> excess.Some? && excess.value > 0.0))
            && (c.op.value == "BiggerEqualThan" ==> (Holds(lib, user, c, m) <==> excess.Some? && excess.value >= 0.0))
            && (c.op.value == "LessThan" ==> (Holds(lib, user, c, m) <==> excess.Some? && excess.value < 0.0))
            && (c.op.value == "LessEqualThan" ==> (Holds(lib, user, c, m) <==> excess.Some? && excess.value <= 0.0))
  {
    IsComparison(c);
    var pv := Attribute(lib, user, c.property);
    assert ConditionHolds(lib, user, c, m) == Value(ThanHolds(lib, pv, c));
    assert c == Condition(c.property, Some(c.op.value), c.value);
    NumericComparisons(lib, pv, c.property, c.value);
    hide Attribute, OperatorOf, ConditionHolds, ThanHolds;
  }

  lemma IsComparison(c: Condition)
    requires c.op.Some? && c.op.value in COMPARISONS
    ensures OperatorOf(c) == Than
  {
    ComparisonName(c.op.value);
    hide HasSubstring;
  }

  lemma ComparisonName(op: string)
    requires op in COMPARISONS
    ensures op != "" && HasSubstring(op, "Than")
  {
    hide HasSubstring;
    if op == "BiggerThan" {
      Suffixed(op, "Bigger");
    } else if op == "BiggerEqualThan" {
      Suffixed(op, "BiggerEqual");
    } else if op == "LessThan" {
      Suffixed(op, "Less");
    } else {
      Suffixed(op, "LessEqual");
    }
  }

  lemma Suffixed(op: string, before: string)
    requires op == before + "Than"
    ensures op != "" && HasSubstring(op, "Than")
  {
    FoundAt(before, "Than", "");
    assert before + "Than" + "" == op;
  }

  /** Any other name that contains "Than" is an operator that never holds. */
  lemma UnknownComparison(lib: Lib, user: User, c: Condition, m: Oracle)
    requires HasSubstring(NameOf(c), "Than") && (c.op.None? || c.op.value !in COMPARISONS)
    ensures ConditionHolds(lib, user, c, m) == Value(false)
  {
    hide Attribute, HasSubstring;
  }

  /** The names whose operators come in pairs, each with the operator it selects. */
  lemma PairedNames(c: Condition)
    ensures NameOf(c) == "IsOneOf" <==> OperatorOf(c) == IsOneOf
    ensures NameOf(c) == "NotOneOf" <==> OperatorOf(c) == NotOneOf
    ensures NameOf(c) == "MatchRegex" <==> OperatorOf(c) == MatchRegex
    ensures NameOf(c) == "NotMatchRegex" <==> OperatorOf(c) == NotMatchRegex
    ensures NameOf(c) == "IsTrue" <==> OperatorOf(c) == IsTrue
    ensures NameOf(c) == "IsFalse" <==> OperatorOf(c) == IsFalse
    ensures NameOf(c) == "User is in segment" <==> OperatorOf(c) == InSegment
    ensures NameOf(c) == "User is not in segment" <==> OperatorOf(c) == NotInSegment
  {
    NameSelects(c, IsOneOf);
    NameSelects(c, NotOneOf);
    NameSelects(c, MatchRegex);
    NameSelects(c, NotMatchRegex);
    NameSelects(c, IsTrue);
    NameSelects(c, IsFalse);
    NameSelects(c, InSegment);
    NameSelects(c, NotInSegment);
    hide OperatorOf, NameOf;
  }

  // ---------- what a condition with a given name says ----------

  /** "IsOneOf" holds of the users whose attribute is in the list; "NotOneOf" of all others, whatever is missing. */
  lemma ListNames(lib: Lib, user: User, c: Condition, m: Oracle)
    requires NameOf(c) in {"IsOneOf", "NotOneOf"}
    ensures var pv := Attribute(lib, user, c.property);
            var listed := pv.Some? && c.value.Some? && lib.parseList(c.value.value).Some? && pv.value in lib.parseList(c.value.value).value;
            ConditionHolds(lib, user, c, m) == Value(if NameOf(c) == "IsOneOf" then listed else !listed)
  {
    PairedNames(c);
    hide OperatorOf, NameOf, Attribute;
  }

  /** The user has the attribute, the condition a value, and the text splits around it. */
  ghost predicate Splits(lib: Lib, user: User, c: Condition, atStart: bool, atEnd: bool) {
    var pv := Attribute(lib, user, c.property);
    pv.Some? && c.value.Some? && SplitsAround(pv.value, c.value.value, atStart, atEnd)
  }

  /** The six text names; the two negative ones hold of all users of whom the positive one does not. */
  lemma TextNames(lib: Lib, user: User, c: Condition, m: Oracle)
    ensures NameOf(c) == "Equal" ==> ConditionHolds(lib, user, c, m) == Value(Splits(lib, user, c, true, true))
    ensures NameOf(c) == "NotEqual" ==> ConditionHolds(lib, user, c, m) == Value(!Splits(lib, user, c, true, true))
    ensures NameOf(c) == "Contains" ==> ConditionHolds(lib, user, c, m) == Value(Splits(lib, user, c, false, false))
    ensures NameOf(c) == "NotContain" ==> ConditionHolds(lib, user, c, m) == Value(!Splits(lib, user, c, false, false))
    ensures NameOf(c) == "StartsWith" ==> ConditionHolds(lib, user, c, m) == Value(Splits(lib, user, c, true, false))
    ensures NameOf(c) == "EndsWith" ==> ConditionHolds(lib, user, c, m) == Value(Splits(lib, user, c, false, true))
  {
    var pv := Attribute(lib, user, c.property);
    if BothPresent(pv, c) {
      Splitting(pv.value, c.value.value);
    }
    TextName(c);
    hide OperatorOf, NameOf, Attribute, HasSubstring, StartsWith, EndsWith, SplitsAround;
  }

  lemma TextName(c: Condition)
    ensures NameOf(c) == "Equal" <==> OperatorOf(c) == Equal
    ensures NameOf(c) == "NotEqual" <==> OperatorOf(c) == NotEqual
    ensures NameOf(c) == "Contains" <==> OperatorOf(c) == Contains
    ensures NameOf(c) == "NotContain" <==> OperatorOf(c) == NotContain
    ensures NameOf(c) == "StartsWith" <==> OperatorOf(c) == StartsWithOp
    ensures NameOf(c) == "EndsWith" <==> OperatorOf(c) == EndsWithOp
  {
    NameSelects(c, Equal);
    NameSelects(c, NotEqual);
    NameSelects(c, Contains);
    NameSelects(c, NotContain);
    NameSelects(c, StartsWithOp);
    NameSelects(c, EndsWithOp);
    hide OperatorOf, NameOf;
  }

  /** The value is the pattern and the attribute the text; a missing one reads as no match, an invalid pattern raises. */
  lemma RegexNames(lib: Lib, user: User, c: Condition, m: Oracle)
    requires NameOf(c) in {"MatchRegex", "NotMatchRegex"}
    ensures var pv := Attribute(lib, user, c.property);
            var found := if pv.Some? && c.value.Some? then lib.search(c.value.value, pv.value) else Value(false);
            ConditionHolds(lib, user, c, m) ==
              if NameOf(c) == "MatchRegex" || found.Raised? then found else Value(!found.value)
  {
    PairedNames(c);
    hide OperatorOf, NameOf, Attribute;
  }

  /** "IsTrue" and "IsFalse" ask for the lower-cased text of the attribute. */
  lemma BooleanNames(lib: Lib, user: User, c: Condition, m: Oracle)
    requires NameOf(c) in {"IsTrue", "IsFalse"}
    ensures var pv := Attribute(lib, user, c.property);
            ConditionHolds(lib, user, c, m) == Value(pv.Some? && lib.lower(pv.value) == if NameOf(c) == "IsTrue" then "true" else "false")
  {
    PairedNames(c);
    hide OperatorOf, NameOf, Attribute;
  }

  /** Some listed segment contains the user, and the lookups before it all say no; an exception reads as no. */
  ghost predicate InSome(lib: Lib, c: Condition, m: Oracle) {
    && c.value.Some? && lib.parseList(c.value.value).Some?
    && var ids := lib.parseList(c.value.value).value;
       exists k :: 0 <= k < |ids| && m(ids[k]) == Value(true) && forall i :: 0 <= i < k ==> m(ids[i]) == Value(false)
  }

  lemma SegmentHoldsInSome(lib: Lib, c: Condition, m: Oracle)
    ensures SegmentHolds(lib, c, m) <==> InSome(lib, c, m)
  {
    if ListedIds(lib, c).Some? {
      AnyMemberMeaning(ListedIds(lib, c).value, m);
    }
    hide AnyMember;
  }

  lemma SegmentNames(lib: Lib, user: User, c: Condition, m: Oracle)
    requires NameOf(c) == "User is in segment" || NameOf(c) == "User is not in segment"
    ensures NameOf(c) == "User is in segment" ==> ConditionHolds(lib, user, c, m) == Value(InSome(lib, c, m))
    ensures NameOf(c) == "User is not in segment" ==> ConditionHolds(lib, user, c, m) == Value(!InSome(lib, c, m))
  {
    PairedNames(c);
    SegmentHoldsInSome(lib, c, m);
    hide OperatorOf, NameOf, Attribute, SegmentHolds, InSome;
  }

  // ---------- attributes ----------

  /** A property that reads the key or the name of the user, in whatever case it is written. */
  predicate BuiltIn(lib: Lib, property: string) {
    property in {"keyid", "name"} || lib.lower(property) in {"key", "keyid", "name"}
  }

  lemma AttributeMeaning(lib: Lib, user: User, property: string)
    ensures property == "keyid" || (property != "name" && lib.lower(property) in {"key", "keyid"}) ==>
              Attribute(lib, user, property) == Some(user.keyid)
    ensures property == "name" || (property != "keyid" && lib.lower(property) == "name") ==>
              Attribute(lib, user, property) == Some(user.name)
    ensures !BuiltIn(lib, property) ==>
              Attribute(lib, user, property) == if property in user.customs then Some(user.customs[property]) else None
  {
  }

  /** A condition on a custom attribute reads what the user has under that very property. */
  lemma CustomEquality(lib: Lib, user: User, c: Condition, m: Oracle)
    requires NameOf(c) in {"Equal", "NotEqual"} && !BuiltIn(lib, c.property)
    ensures var equal := c.property in user.customs && c.value == Some(user.customs[c.property]);
            ConditionHolds(lib, user, c, m) == Value(if NameOf(c) == "Equal" then equal else !equal)
  {
    AttributeMeaning(lib, user, c.property);
    NameSelects(c, Equal);
    NameSelects(c, NotEqual);
    hide OperatorOf, NameOf, Attribute;
  }
}
