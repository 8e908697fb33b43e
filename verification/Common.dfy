/** A value that may be missing. */
module Wrappers {

  datatype Option<T> = None | Some(value: T)
}

/** Buffers and arrays that grow by doubling. */
module Doubling {

  /** The capacities that can be reached from the first one. */
  predicate IsCapacity(first: nat, c: nat) {
    if c <= first then c == first else c % 2 == 0 && IsCapacity(first, c / 2)
  }
}

/** Real numbers, alone and in rows. */
module Numbers {

  /** How far apart two numbers are. */
  function Gap(a: real, b: real): (d: real)
    ensures d >= 0.0 && (d == a - b || d == b - a)
  {
    if a < b then b - a else a - b
  }

  function Zeros(n: nat): (z: seq<real>)
    ensures |z| == n && forall i :: 0 <= i < n ==> z[i] == 0.0
  {
    seq(n, _ => 0.0)
  }
}
