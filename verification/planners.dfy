/** The planner registry used when the configuration names a plan algorithm. */
module Planners {
  import opened Wrappers
  import Text
  import Sequential
  import Shuffle

  /** The planners that exist; only the sequential one is registered. */
  datatype PlanKind = SequentialPlan | ShufflePlan {
    function Name(): string {
      match this
      case SequentialPlan => Sequential.PlannerName
      case ShufflePlan => Shuffle.ShufflerName
    }
  }

  /** planAlgorithms: name to planner. */
  const Registry: map<string, PlanKind> := map[SequentialPlan.Name() := SequentialPlan]

  datatype PlanError = UnsupportedPlan(text: string, expected: set<string>)

  /**
   * The effect of PlanAlgorithm.UnmarshalText: the planner now held, and the
   * error returned, if any.
   */
  datatype Unmarshaled = Unmarshaled(plan: Option<PlanKind>, err: Option<PlanError>)

  /** Look the lower-cased text up in the registry; on failure keep `current`. */
  function UnmarshalText(text: string, current: Option<PlanKind>): (r: Unmarshaled)
    ensures r.err.None? <==> Text.EqualFold(text, "sequential")
    ensures r.err.None? ==> r.plan == Some(SequentialPlan)
    ensures r.err.Some? ==> r.plan == current && r.err.value == UnsupportedPlan(text, {"sequential"})
  {
    Text.ToLowerMatchesKey(text, "sequential");
    var key := Text.ToLower(text);
    if key in Registry then Unmarshaled(Some(Registry[key]), None)
    else Unmarshaled(current, Some(UnsupportedPlan(text, Registry.Keys)))
  }

  /** The registry holds exactly one algorithm, registered under its own name. */
  lemma RegistryHoldsOnlySequential()
    ensures Registry.Keys == {"sequential"}
    ensures forall name :: name in Registry ==> Registry[name].Name() == name
    ensures ShufflePlan.Name() !in Registry
  {
  }

  /** Any casing of "sequential" selects the sequential planner. */
  lemma AnyCasingSelectsSequential()
    ensures UnmarshalText("Sequential", None) == Unmarshaled(Some(SequentialPlan), None)
    ensures UnmarshalText("SEQUENTIAL", None) == Unmarshaled(Some(SequentialPlan), None)
    ensures UnmarshalText("shuffle", Some(SequentialPlan)).plan == Some(SequentialPlan)
  {
    assert Text.EqualFold("Sequential", "sequential");
    assert Text.EqualFold("SEQUENTIAL", "sequential");
    assert !Text.EqualFold("shuffle", "sequential");
  }
}
