// What sensor drivers share: writing records into the caller's array.
module Outputs {
  /** The array `now` is `was` with `out` written from position `base` on. */
  ghost predicate Written<T>(now: seq<T>, was: seq<T>, base: nat, out: seq<T>) {
    && base + |out| <= |was| == |now|
    && now == was[..base] + out + was[base + |out|..]
  }

  lemma WrittenMore<T>(now: seq<T>, was: seq<T>, base: nat, out: seq<T>, later: seq<T>, more: seq<T>)
    requires Written(now, was, base, out) && Written(later, now, base + |out|, more)
    ensures Written(later, was, base, out + more)
  {
  }

  lemma WrittenNothing<T>(was: seq<T>, base: nat)
    requires base <= |was|
    ensures Written(was, was, base, [])
  {
  }
}
