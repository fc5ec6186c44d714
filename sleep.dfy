/** The `sleep` action, as far as it decides anything: it checks that the route configures a
    `duration` and otherwise lets the pipeline go on. */
module Sleep {
  import opened Common
  import opened Web

  /** The message raised when the block has no duration. */
  const Unconfigured := "sleep module called without sleep configured"

  /** `run`: `route["sleep"]` must exist; a null block, or one without `duration`, raises
      the configuration error; an object holding `duration` lets the pipeline go on. A block of
      another JSON type fails as Python's `in` and indexing fail on it. */
  function Run(route: Route): (o: Outcome)
    ensures o == Continue <==> "sleep" in route.blocks && route.blocks["sleep"].VMap?
                               && "duration" in route.blocks["sleep"].fields
    ensures o != Continue ==> o.Raise?
    ensures "sleep" !in route.blocks ==> o == Raise("KeyError")
    ensures "sleep" in route.blocks && (route.blocks["sleep"].VNull?
                                        || (route.blocks["sleep"].VMap? && "duration" !in route.blocks["sleep"].fields))
            ==> o == Raise(Unconfigured)
  {
    if "sleep" !in route.blocks then Raise("KeyError")
    else
      match route.blocks["sleep"]
      case VNull => Raise(Unconfigured)
      case VMap(fields) => if "duration" in fields then Continue else Raise(Unconfigured)
      case VStr(s) => if Contains(s, "duration") then Raise("TypeError") else Raise(Unconfigured)
      case VList(items) => if VStr("duration") in items then Raise("TypeError") else Raise(Unconfigured)
      case _ => Raise("TypeError")
  }
}
