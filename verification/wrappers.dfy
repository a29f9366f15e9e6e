/** The conventional Some/None datatype, used for cells that may be missing
    and for statistics that pandas reports as NaN. */
module Wrappers {

  datatype Option<+T> = None | Some(value: T)

}
