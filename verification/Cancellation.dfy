/** The cancellation flag of native/parquex_nif/src/object.rs, shared by the users of one operation. */
module Cancellation {

  class CancellationToken {
    var cancelled: bool

    constructor ()
      ensures !cancelled
    {
      cancelled := false;
    }

    method Cancel()
      modifies this
      ensures cancelled
    {
      cancelled := true;
    }

    /** `check`: refuses once cancelled. */
    predicate Check()
      reads this
    {
      !cancelled
    }
  }
}
