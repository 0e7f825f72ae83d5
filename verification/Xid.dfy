/** Request ids: a wrapping 32-bit counter with its top bit masked off
    (zk/conn.go:940-942). */
module Xid {
  import opened Modular

  const WORD_SIZE: nat := 0x1_0000_0000   // a uint32 holds values below this
  const ID_COUNT: nat := 0x8000_0000      // & 0x7fffffff keeps the low 31 bits

  /** The counter after k draws. */
  function Counter(k: nat): (c: nat)
    ensures c < WORD_SIZE
  {
    if k == 0 then 0 else (Counter(k - 1) + 1) % WORD_SIZE
  }

  /** The id that the k-th draw returns. */
  function XidOf(k: nat): nat
  {
    Counter(k) % ID_COUNT
  }

  lemma {:induction false} CounterIs(k: nat)
    ensures Counter(k) == k % WORD_SIZE
  {
    if k > 0 {
      CounterIs(k - 1);
      BumpStays(k - 1, WORD_SIZE);
    }
  }

  /** The wrap of the counter does not show in the ids. */
  lemma {:induction false} XidIs(k: nat)
    ensures XidOf(k) == k % ID_COUNT
  {
    CounterIs(k);
    HalfOf(k, ID_COUNT, WORD_SIZE);
  }

  /** Ids are non-negative int32 values, so never the -1 of a watch event or
      the -2 of a ping; two draws share an id exactly when they are a multiple
      of 2^31 draws apart. */
  lemma {:induction false} XidsApart(a: nat, b: nat)
    ensures 0 <= XidOf(a) <= 0x7fff_ffff
    ensures XidOf(a) == XidOf(b) <==> (a - b) % ID_COUNT == 0
    ensures XidOf(a) == XidOf(b) && a != b ==> a >= b + ID_COUNT || b >= a + ID_COUNT
  {
    hide Counter;
    XidIs(a);
    XidIs(b);
    SameRemainder(a, b, ID_COUNT);
    if XidOf(a) == XidOf(b) && a - b < ID_COUNT && b - a < ID_COUNT {
      SameSlotNear(a, b, ID_COUNT);
    }
  }

  /** So any 2^31 consecutive ids are pairwise distinct, and no fewer ids are in
      use: every possible id appears among them. */
  lemma {:induction false} ConsecutiveIdsCover(start: nat, id: int) returns (k: nat)
    requires 0 <= id <= 0x7fff_ffff
    ensures start <= k < start + ID_COUNT && XidOf(k) == id
    ensures forall j: nat :: start <= j < start + ID_COUNT && XidOf(j) == id ==> j == k
  {
    hide Counter;
    k := Upward(start, id, ID_COUNT);
    XidIs(k);
    forall j: nat | start <= j < start + ID_COUNT && XidOf(j) == id ensures j == k {
      XidsApart(j, k);
    }
  }
}
