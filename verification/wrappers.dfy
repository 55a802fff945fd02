/** The one failure-carrying datatype the model needs: every error the interpreter throws is
    modelled as a single abort outcome, `None`. */
module Wrappers {

  datatype Option<+T> = None | Some(value: T)

}
