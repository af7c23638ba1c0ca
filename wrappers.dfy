/** A value that may be absent: a configuration key the document lacks, or a
    step that raised and so produced nothing. */
module Wrappers {

  datatype Option<+T> = None | Some(value: T)
}
