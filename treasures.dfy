/** Treasures: immutable (name, value) items. Two treasures are the same
    treasure exactly when their names and values agree, which is what
    datatype equality gives. */
module Treasures {

  datatype Treasure = Treasure(name: string, value: int)

  /** Total value of a sequence of treasures (unbounded, so no overflow). */
  function Sum(ts: seq<Treasure>): int
  {
    if ts == [] then 0 else Sum(ts[..|ts| - 1]) + ts[|ts| - 1].value
  }

  lemma {:induction false} SumConcat(a: seq<Treasure>, b: seq<Treasure>)
    ensures Sum(a + b) == Sum(a) + Sum(b)
    decreases |b|
  {
    if b == [] {
      assert a + b == a;
    } else {
      var m := |b| - 1;
      SumConcat(a, b[..m]);
      assert (a + b)[..|a + b| - 1] == a + b[..m];
    }
  }

  lemma MultisetSplitLast(ts: seq<Treasure>)
    requires ts != []
    ensures multiset(ts) == multiset(ts[..|ts| - 1]) + multiset{ts[|ts| - 1]}
  {
    assert ts == ts[..|ts| - 1] + [ts[|ts| - 1]];
  }
}
