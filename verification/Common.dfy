/** Small vocabulary shared by every component. */
module Common {

  datatype Option<+T> = None | Some(value: T)

  function Max(a: int, b: int): int {
    if a < b then b else a
  }

  function Min(a: int, b: int): int {
    if a < b then a else b
  }

  /** All rows but one are as they were, and none is added. */
  ghost predicate OnlyRow<T(!new)>(xs: seq<T>, ys: seq<T>, i: nat) {
    |ys| == |xs| && forall k | 0 <= k < |xs| && k != i :: ys[k] == xs[k]
  }

  /** One row is added, and all others are as they were. */
  ghost predicate OneMore<T(!new)>(xs: seq<T>, ys: seq<T>) {
    |ys| == |xs| + 1 && forall k | 0 <= k < |xs| :: ys[k] == xs[k]
  }
}
