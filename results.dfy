/** Optional values, the errors the package raises, and results that carry either. */
module Results {

  datatype Option<+T> = None | Some(value: T) {
    /** The wrapped value, or `default` when there is none (a keyword argument left out). */
    function GetOr(default: T): T {
      match this
      case Some(v) => v
      case None => default
    }
  }

  /** The exceptions raised along the modelled paths. */
  datatype Error =
    | UnsupportedKernel(name: string)  // ValueError: a kernel name other than "rbf"
    | NonPositiveSigma                 // ValueError: an RBF bandwidth that is not positive
    | NotTwoDimensional                // ValueError: a kernel argument whose rank is not two
    | FeatureMismatch                  // ValueError: two samples with different feature counts
    | NoSecondAxis                     // IndexError: shape[1] of an array of rank below two
    | InvalidCount                     // ValueError: a prototype count outside 0 < n <= len(X)
    | MissingArgument                  // TypeError: a call that leaves out a required argument

  datatype Result<+T> = Ok(value: T) | Err(error: Error)
}
