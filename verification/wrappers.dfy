/** The optional-value type used for the pages' nullable state slots
    (`T | null` in the TypeScript pages) and optional record fields. */
module Wrappers {

  datatype Option<+T> = None | Some(value: T)
}
