/** When an allocation of treasures to pirates counts as balanced: every
    original treasure is held by some pirate (matched by name and value), and
    every pirate's total lies in the tolerance band around the mean. The band
    is stated over integers by cross-multiplying, so it is exact. */
module Balance {
  import opened Treasures
  import opened Pirates
  import opened Allocation

  /** Some treasure the crew holds has the same name and value as `t`. */
  predicate Covers(crew: seq<Owner>, t: Treasure)
  {
    exists c :: c in Flatten(crew) && c.name == t.name && c.value == t.value
  }

  /** Every original treasure is held by the crew. Only this direction is
      checked: the crew may hold treasures that are not in `ts`. */
  predicate Covered(ts: seq<Treasure>, crew: seq<Owner>)
  {
    forall i :: 0 <= i < |ts| ==> Covers(crew, ts[i])
  }

  /** total/n * (100 - d)/100 <= v <= total/n * (100 + d)/100, multiplied out by n * 100. */
  predicate WithinBand(v: int, n: int, total: int, d: int)
  {
    v * n * 100 >= total * (100 - d) && v * n * 100 <= total * (100 + d)
  }

  /** The balance predicate: coverage, then every owner's total within the
      band, where the total is summed over the original treasures. */
  predicate Balanced(ts: seq<Treasure>, crew: seq<Owner>, d: int)
  {
    && Covered(ts, crew)
    && forall k :: 0 <= k < |crew| ==> WithinBand(Sum(crew[k].treasures), |crew|, Sum(ts), d)
  }

  /** With at least one pirate, the integer band is exactly the band computed
      in real arithmetic from the mean. */
  lemma BandIsMeanTolerance(v: int, n: int, total: int, d: int)
    requires n > 0
    ensures WithinBand(v, n, total, d) <==>
      (&& total as real / n as real * (100 - d) as real / 100.0 <= v as real
       && v as real <= total as real / n as real * (100 + d) as real / 100.0)
  {
  }

  /** Coverage is structural: it holds exactly when the treasure itself is held. */
  lemma CoversIsMembership(crew: seq<Owner>, t: Treasure)
    ensures Covers(crew, t) <==> t in Flatten(crew)
  {
  }

  /** Giving some pirate an extra treasure never breaks coverage. */
  lemma ExtraTreasureKeepsCoverage(ts: seq<Treasure>, crew: seq<Owner>, k: nat, extra: Treasure)
    requires k < |crew| && Covered(ts, crew)
    ensures Covered(ts, crew[k := Owner(crew[k].name, crew[k].treasures + [extra])])
  {
    var c := crew[k := Owner(crew[k].name, crew[k].treasures + [extra])];
    FlattenAround(crew, k);
    FlattenAround(c, k);
    assert c[..k] == crew[..k] && c[k + 1..] == crew[k + 1..];
    assert forall x :: x in Flatten(crew) ==> x in Flatten(c);
    forall i | 0 <= i < |ts| ensures Covers(c, ts[i]) {
      assert Covers(crew, ts[i]);
      var x :| x in Flatten(crew) && x.name == ts[i].name && x.value == ts[i].value;
      assert x in Flatten(c);
    }
  }

  /** With no pirates, the answer is true exactly when there is no treasure. */
  lemma EmptyCrew(ts: seq<Treasure>, d: int)
    ensures Balanced(ts, [], d) <==> ts == []
  {
    if ts != [] {
      assert !Covers([], ts[0]);
    }
  }

  /** Every allocation covers the treasures it was built from, and the pirates
      together hold exactly the original total value. */
  lemma AllocationCovers(ts: seq<Treasure>, names: seq<string>)
    requires |ts| == |names|
    ensures Covered(ts, GroupByName(ts, names))
    ensures Sum(Flatten(GroupByName(ts, names))) == Sum(ts)
  {
    var g := GroupByName(ts, names);
    GroupPermutation(ts, names);
    forall i | 0 <= i < |ts| ensures Covers(g, ts[i]) {
      assert ts[i] in multiset(ts);
      assert ts[i] in multiset(Flatten(g));
      CoversIsMembership(g, ts[i]);
    }
  }

  /** Two pirates with 100 each are balanced with no tolerance at all. */
  lemma EqualSharesBalanced()
    ensures var ts := [Treasure("A", 100), Treasure("B", 100)];
      && GroupByName(ts, ["X", "Y"]) == [Owner("X", [ts[0]]), Owner("Y", [ts[1]])]
      && Balanced(ts, GroupByName(ts, ["X", "Y"]), 0)
  {
    var ts := [Treasure("A", 100), Treasure("B", 100)];
    var g := [Owner("X", [ts[0]]), Owner("Y", [ts[1]])];
    assert GroupByName(ts[..1], ["X", "Y"][..1]) == [Owner("X", [ts[0]])];
    assert GroupByName(ts, ["X", "Y"]) == g;
    assert ts[0] in Flatten(g) && ts[1] in Flatten(g) by {
      assert g[..1] == [g[0]];
      assert [g[0]][..0] == [];
    }
    CoversIsMembership(g, ts[0]);
    CoversIsMembership(g, ts[1]);
  }

  /** 10 and 190 around a mean of 100 are both outside a 10% band. */
  lemma UnequalSharesUnbalanced()
    ensures var ts := [Treasure("A", 10), Treasure("B", 190)];
      && GroupByName(ts, ["X", "Y"]) == [Owner("X", [ts[0]]), Owner("Y", [ts[1]])]
      && !WithinBand(10, 2, 200, 10) && !WithinBand(190, 2, 200, 10)
      && !Balanced(ts, GroupByName(ts, ["X", "Y"]), 10)
  {
    var ts := [Treasure("A", 10), Treasure("B", 190)];
    assert GroupByName(ts[..1], ["X", "Y"][..1]) == [Owner("X", [ts[0]])];
    var g := GroupByName(ts, ["X", "Y"]);
    assert g == [Owner("X", [ts[0]]), Owner("Y", [ts[1]])];
    assert Sum(g[0].treasures) == 10;
    assert !WithinBand(10, 2, 200, 10);
    assert !WithinBand(190, 2, 200, 10);
  }

  /** A 100% band around a mean of 50 admits both 100 and 0. */
  lemma WideToleranceBalanced()
    ensures var ts := [Treasure("A", 100), Treasure("B", 0)];
      Balanced(ts, GroupByName(ts, ["X", "Y"]), 100)
  {
    var ts := [Treasure("A", 100), Treasure("B", 0)];
    assert GroupByName(ts[..1], ["X", "Y"][..1]) == [Owner("X", [ts[0]])];
    var g := GroupByName(ts, ["X", "Y"]);
    assert g == [Owner("X", [ts[0]]), Owner("Y", [ts[1]])];
    AllocationCovers(ts, ["X", "Y"]);
  }

  /** A crew that lacks an original treasure is never balanced. */
  lemma MissingTreasureUnbalanced(d: int)
    ensures !Balanced([Treasure("A", 1)], [Owner("X", [Treasure("A", 2)])], d)
  {
    var crew := [Owner("X", [Treasure("A", 2)])];
    assert Flatten(crew) == [Treasure("A", 2)] by { assert crew[..0] == []; }
    assert !Covers(crew, Treasure("A", 1));
  }

  /** A pirate holding a treasure that is not among the originals does not
      by itself make the allocation unbalanced. */
  lemma ExtraTreasureBalanced()
    ensures Balanced([Treasure("A", 10)], [Owner("X", [Treasure("A", 10), Treasure("B", 0)])], 0)
  {
    var crew := [Owner("X", [Treasure("A", 10), Treasure("B", 0)])];
    assert Flatten(crew) == crew[0].treasures by { assert crew[..0] == []; }
    assert Treasure("A", 10) in Flatten(crew);
    CoversIsMembership(crew, Treasure("A", 10));
    assert Sum(crew[0].treasures) == 10;
  }
}
