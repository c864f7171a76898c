/** Pirates: a pirate is a named, mutable bag of treasures. Its identity for
    look-up purposes is its name alone. Owner is the value a pirate holds at
    one moment, used to state what the operations compute. */
module Pirates {
  import opened Treasures

  class Pirate {
    const name: string
    var treasures: seq<Treasure>

    /** A fresh pirate with no treasure. */
    constructor (name: string)
      ensures this.name == name && treasures == []
    {
      this.name := name;
      treasures := [];
    }

    /** Appends one treasure to this pirate's list and changes nothing else. */
    method AddTreasure(t: Treasure)
      modifies this
      ensures treasures == old(treasures) + [t]
    {
      treasures := treasures + [t];
    }

    /** The pirate's total treasure value. */
    function TreasureValue(): int
      reads this
    {
      Sum(treasures)
    }
  }

  /** The contents of one pirate, as a value. */
  datatype Owner = Owner(name: string, treasures: seq<Treasure>)

  /** The values held by a list of pirates, position by position. */
  function Snapshot(ps: seq<Pirate>): (crew: seq<Owner>)
    reads set p | p in ps
    ensures |crew| == |ps|
    ensures forall k :: 0 <= k < |ps| ==> crew[k] == Owner(ps[k].name, ps[k].treasures)
  {
    seq(|ps|, k requires 0 <= k < |ps| reads ps => Owner(ps[k].name, ps[k].treasures))
  }

  /** No pirate object occurs twice in the list. */
  predicate DistinctObjects(ps: seq<Pirate>)
  {
    forall j, k :: 0 <= j < k < |ps| ==> ps[j] != ps[k]
  }

  /** All treasures held by a crew, owner after owner. */
  function Flatten(crew: seq<Owner>): seq<Treasure>
  {
    if crew == [] then [] else Flatten(crew[..|crew| - 1]) + crew[|crew| - 1].treasures
  }

  lemma {:induction false} FlattenConcat(a: seq<Owner>, b: seq<Owner>)
    ensures Flatten(a + b) == Flatten(a) + Flatten(b)
    decreases |b|
  {
    if b == [] {
      assert a + b == a;
    } else {
      var m := |b| - 1;
      FlattenConcat(a, b[..m]);
      assert (a + b)[..|a + b| - 1] == a + b[..m];
    }
  }

  /** Flatten splits around any one owner. */
  lemma FlattenAround(crew: seq<Owner>, k: nat)
    requires k < |crew|
    ensures Flatten(crew) == Flatten(crew[..k]) + crew[k].treasures + Flatten(crew[k + 1..])
  {
    var front, back := crew[..k + 1], crew[k + 1..];
    assert crew == front + back;
    FlattenConcat(front, back);
    assert front[..k] == crew[..k];
    assert Flatten(front) == Flatten(crew[..k]) + crew[k].treasures;
  }
}
