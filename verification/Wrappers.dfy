/** What the other modules share. */
module Wrappers {

  datatype Option<T> = None | Some(value: T)

  /** `s` without the element at index `k` */
  function Without<T>(s: seq<T>, k: nat): seq<T>
    requires k < |s|
  {
    s[..k] + s[k + 1..]
  }
}
