/** Small value types shared by the models. */
module Common {
  datatype Option<+T> = None | Some(value: T)

  datatype Result<+T, +E> = Ok(value: T) | Err(error: E)

  function Max(a: int, b: int): int {
    if a < b then b else a
  }

  function Min(a: int, b: int): int {
    if a < b then a else b
  }

  /** Optional capacity: `None` stands for an unbounded store. */
  type Capacity = Option<nat>

  predicate Fits(size: int, capacity: Capacity) {
    capacity.Some? ==> size <= capacity.value
  }

  predicate ValidCapacity(capacity: Capacity) {
    capacity.Some? ==> capacity.value >= 1
  }

  /** The first index holding `x`. */
  function IndexOf<T(==)>(s: seq<T>, x: T): (i: nat)
    requires x in s
    ensures i < |s| && s[i] == x
    ensures x !in s[..i]
  {
    if s[0] == x then 0 else 1 + IndexOf(s[1..], x)
  }
}
