/** Optional values and the errors the modelled operations can raise. */
module Outcomes {

  datatype Option<T> = None | Some(value: T)

  /** The exceptions raised while configuring a potential or evaluating
      one over a box. */
  datatype Failure =
    | SwitchBeyondCutoff  // ForceField with `switch > cutoff`
    | ParmsNotTuple       // parameterised ForceField with a non-tuple `parms` (a TypeError)
    | IndexOutOfRange     // a list or tuple index past its end (an IndexError)

  datatype Result<T> = Ok(value: T) | Fail(failure: Failure)
}
