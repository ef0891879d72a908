/**
 Go's `int64` and `sync/atomic.Int64`, used by main.go for the request and connection
 counters. Arithmetic wraps around in two's complement, as Go's does.
 */
module Atomic {

  const MinInt64: int := -0x8000_0000_0000_0000
  const MaxInt64: int := 0x7fff_ffff_ffff_ffff

  newtype int64 = x: int | -0x8000_0000_0000_0000 <= x < 0x8000_0000_0000_0000

  /** `x + d` on int64: the true sum when it fits, otherwise the sum reduced modulo 2^64 into range. */
  function WrapAdd(x: int64, d: int64): (r: int64)
    ensures MinInt64 <= x as int + d as int <= MaxInt64 ==> r as int == x as int + d as int
    ensures (r as int - (x as int + d as int)) % 0x1_0000_0000_0000_0000 == 0
  {
    ((x as int + d as int - MinInt64) % 0x1_0000_0000_0000_0000 + MinInt64) as int64
  }

  /** `atomic.Int64`: its zero value is 0, and `Add` returns the new value. Calls are taken one at a time. */
  class AtomicInt64 {
    var value: int64

    constructor ()
      ensures value == 0
    {
      value := 0;
    }

    method Add(delta: int64) returns (n: int64)
      modifies this
      ensures value == WrapAdd(old(value), delta)
      ensures n == value
    {
      value := WrapAdd(value, delta);
      n := value;
    }
  }

  /** The value `Add(1)` returns on its `n`-th call on a fresh counter (0 for no call). */
  function Issued(n: nat): int64 {
    if n == 0 then 0 else WrapAdd(Issued(n - 1), 1)
  }

  /** The `n`-th id is `n`: the ids run 1, 2, 3, ... as long as they fit in an int64. */
  lemma {:induction false} IssuedCounts(n: nat)
    requires n <= MaxInt64
    ensures Issued(n) as int == n
  {
    if n > 0 {
      IssuedCounts(n - 1);
    }
  }

  /** Within that range the ids strictly increase, so none is issued twice. */
  lemma IssuedIncreasing(i: nat, j: nat)
    requires i < j <= MaxInt64
    ensures Issued(i) < Issued(j)
  {
    IssuedCounts(i);
    IssuedCounts(j);
  }

  /** The call after the 2^63-1-th wraps around to the most negative int64. */
  lemma IssuedWraps()
    ensures Issued(MaxInt64 + 1) as int == MinInt64
  {
    IssuedCounts(MaxInt64);
  }
}
