/** Option and Result wrappers, and the errors the trial generator throws. */
module Wrappers {

  datatype Option<+T> = None | Some(value: T)

  /** One constructor per `throw` of the generator, named after its message. */
  datatype Error =
    | MalformedFilename(name: string)  // "Malformed filename: <name>"
    | EmptyArr                         // "Empty arr" (both samplers)
    | TooManySamples                   // "Too many samples requested"
    | InvalidKeyCount                  // "Expects exactly 2 valid keys"
    | EmptyShapeLures                  // "Empty shape lures"
    | EmptyTextureLures                // "Empty texture lures"
    | EmptyFillers                     // "Empty fillers"
    | InfeasibleTrialParameters        // "Infeasible trial parameters"
    | EmptyMegablock                   // "allTrialsThisTarget is empty"
    | InfeasibleBlockCount             // "Infeasible num blocks per target"
    | YesKeyUndefined                  // "yesKey is undefined"
    | NoKeyUndefined                   // "noKey is undefined"
    | MissingRole                      // "Missing role"

  datatype Result<+T> = Success(value: T) | Failure(error: Error) {
    predicate IsFailure() { Failure? }

    function PropagateFailure<U>(): Result<U>
      requires Failure?
    {
      Failure(error)
    }

    function Extract(): T
      requires Success?
    {
      value
    }
  }
}
