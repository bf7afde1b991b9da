/** The optional value used for every nullable foreign key of the model
    (a user's ministry, an event's ministry and coordinator, a report's
    submission time). */
module Wrappers {

  datatype Option<+T> = None | Some(value: T)

}
