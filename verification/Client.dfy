/** `FBClient.variation`, the evaluation function that flag listeners call. */
module Client {
  import opened Common
  import opened Model
  import opened Evaluator
  import opened DataStorage

  /** The value a listener sees: `None` stands for Python's `None`, the default it passes. */
  type Served = Option<string>

  /**
   * The cast value of the flag for a validated user. Before initialization, for an unknown key and
   * when the evaluation raises, the default is returned; when no variation is served the attribute
   * access on the missing result raises.
   */
  function Variation(lib: Lib, s: Store, key: string, user: User): Eval<Served> {
    if !s.initialized || key == "" || key !in s.Flags() then Value(None) else
      match Evaluate(lib, s.Segs(), s.Flags()[key], user)
      case Raised => Value(None)
      case Value(None) => Raised
      case Value(Some(er)) => Value(lib.cast(er.flagType, er.value))
  }
}
