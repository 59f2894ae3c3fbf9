/** What every validator shares: the status of its section of the probe output
    (charm/payload/probe_runner.py) and the cancellation flag it checks. */
module Sections {
  import opened ProbeOutput

  /** `Cut` is the runner's word for a section that set no status of its own. */
  datatype SectionStatus = NotStarted | Done | Skipped | Cut(reason: Reason)

  /** The cancellation flag as a validator sees it: other threads may set it at
      any moment, and it stays set with its reason. */
  class Flag {
    var isSet: bool
    var reason: Reason

    method IsSet() returns (answer: bool)
      modifies this
      ensures answer == isSet
      ensures old(isSet) ==> isSet && reason == old(reason)
    {
      var cancelled: bool := *;
      if !isSet && cancelled {
        isSet, reason := true, *;
      }
      answer := isSet;
    }
  }
}
