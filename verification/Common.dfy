/** What several of the modules use. */
module Common {

  datatype Option<+T> = None | Some(value: T)

  type Byte = x: int | 0 <= x < 256

  /** The indices 0, 1, 2, ... below n. */
  function UpTo(n: nat): seq<nat> {
    if n == 0 then [] else UpTo(n - 1) + [n - 1]
  }

  ghost function Elements<T>(s: seq<T>): set<T> {
    set n | 0 <= n < |s| :: s[n]
  }
}
