/** Result shapes shared by the protocol models. */
module Wrappers {
  datatype Option<+T> = None | Some(value: T)

  /** What the caller of an outside operation observes.

      `Failed` and `Crashed` say nothing about whether the operation took
      effect: each operation's own contract lists what it may have left
      behind. After `Crashed` the process is gone and its caller runs no
      further step. */
  datatype Outcome = Done | Failed | Crashed

  /** How one outside operation goes: it works, reports an error, or loses the
      process, the latter two with or without its effect. */
  datatype Fault = Works | Fails | FailsLate | Crashes | CrashesLate

  predicate Lands(f: Fault) {
    f.Works? || f.FailsLate? || f.CrashesLate?
  }

  function End(f: Fault): Outcome {
    match f
    case Works => Done
    case Fails => Failed
    case FailsLate => Failed
    case Crashes => Crashed
    case CrashesLate => Crashed
  }
}
