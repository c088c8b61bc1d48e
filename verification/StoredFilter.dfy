/** What the receiver stores of its filter, which the worker reads. */
module StoredFilter {
  import opened Basics

  datatype InputSource = EdgeState | HeightSections

  /** Observations are comparable only when everything here is the same. */
  datatype Scope = Scope(config: nat, rule: nat, methodVersion: Option<nat>, instance: Option<nat>,
                         pit: Option<nat>, threshold: real, source: InputSource, token: Option<nat>)

  datatype Sample = Sample(at: int, value: real)

  datatype FilterState = Unavailable | Warming | Ready

  datatype Filter = Filter(scope: Scope, samples: seq<Sample>, anchor: Option<int>, state: FilterState,
                           message: nat, value: Option<real>, observed: Option<int>, aboveSince: Option<int>,
                           valid: bool)
}
