/** Datatypes shared by every model in this project. */
module Common {
  datatype Option<+T> = None | Some(value: T)

  /** One clock for the whole deployment, in nanoseconds. */
  type Time = int

  const MILLISECOND: Time := 1_000_000
  const SECOND: Time := 1000 * MILLISECOND
  const HOUR: Time := 3600 * SECOND
  const DAY: Time := 24 * HOUR

  /** The items but for the one at k. */
  function Without<T>(items: seq<T>, k: nat): seq<T>
    requires k < |items|
  {
    items[..k] + items[k + 1..]
  }
}
