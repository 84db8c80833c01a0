/** A multimap as its entries, those of one key in the order they were inserted. */
module Multimaps {

  type Multimap<T> = seq<(nat, T)>

  /** equal_range: the values filed under `key`. */
  function EqualRange<T>(m: Multimap<T>, key: nat): seq<T> {
    if m == [] then [] else (if m[0].0 == key then [m[0].1] else []) + EqualRange(m[1..], key)
  }

  /** `m` without the first entry of `value` under `key`, if there is one. */
  function Erased<T(==)>(m: Multimap<T>, key: nat, value: T): Multimap<T> {
    if m == [] then [] else if m[0] == (key, value) then m[1..] else [m[0]] + Erased(m[1..], key, value)
  }
}
