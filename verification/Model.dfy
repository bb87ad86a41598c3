/** Feature flags, segments and users as the SDK receives them, and the foreign calls it makes. */
module Model {
  import opened Common
  import opened VariationSplitting

  datatype Category = FeatureFlags | Segments | DataTest

  datatype Condition = Condition(property: string, op: Option<string>, value: Option<string>)

  datatype Rollout = Rollout(id: string, range: Range, exptRollout: real)

  /** What a matched rule, or the fallthrough, serves. */
  datatype Serving = Serving(dispatchKey: Option<string>, includedInExpt: bool, variations: seq<Rollout>)

  datatype Rule = Rule(conditions: seq<Condition>, serving: Serving)

  datatype Target = Target(keyIds: seq<string>, variationId: string)

  datatype Flag = Flag(key: string, name: string, variationType: string, variationMap: map<string, string>,
                       isEnabled: bool, disabledVariationId: string, targetUsers: seq<Target>,
                       rules: seq<Rule>, fallthrough: Serving, exptIncludeAllTargets: bool)

  /** A segment rule is its list of conditions. */
  datatype Segment = Segment(id: string, included: seq<string>, excluded: seq<string>,
                             rules: seq<seq<Condition>>)

  /** A validated user; `customs` holds no built-in property name. */
  datatype User = User(keyid: string, name: string, customs: map<string, string>)

  /** A stored entity. An archived one is reduced to a tombstone, which has no category. */
  datatype Item =
    | FlagItem(flag: Flag, stamp: int)
    | SegmentItem(segment: Segment, stamp: int)
    | Tombstone(key: string, stamp: int)
  {
    function Id(): string {
      match this
      case FlagItem(flag, _) => flag.key
      case SegmentItem(segment, _) => segment.id
      case Tombstone(key, _) => key
    }
  }

  /**
   * Calls into foreign libraries, as arbitrary functions: JSON lists, numbers (already rounded
   * to five places), regular expressions (an invalid pattern raises), lower-casing, the MD5 hash
   * word, the cast of a served string to its declared type, and the nesting depth the
   * interpreter stack allows to segment lookups.
   */
  datatype Lib = Lib(parseList: string -> Option<seq<string>>,
                     number: string -> Option<real>,
                     search: (string, string) -> Eval<bool>,
                     lower: string -> string,
                     hashWord: string -> Word,
                     cast: (string, string) -> Option<string>,
                     depth: nat)

  /** `FBUser.get` */
  function Attribute(lib: Lib, user: User, property: string): Option<string> {
    if property == "keyid" then Some(user.keyid)
    else if property == "name" then Some(user.name)
    else if lib.lower(property) in {"key", "keyid"} then Some(user.keyid)
    else if lib.lower(property) == "name" then Some(user.name)
    else if property in user.customs then Some(user.customs[property])
    else None
  }
}
