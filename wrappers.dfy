/** JavaScript's `null` next to a value, as the scraper's records use it. */
module Wrappers {

  /** `None` stands for `null`: a statistic that was not found. */
  datatype Option<+T> = None | Some(value: T)
}
