/** The two operations of the pirate manager: allocating treasures to pirates
    by name, and deciding whether an allocation is balanced. Each is proved
    against the value-level definitions in Allocation and Balance. */
module PirateManager {
  import opened Treasures
  import opened Pirates
  import opened Allocation
  import opened Balance

  datatype Error = IllegalArgument

  datatype Result<T> = Success(value: T) | Failure(error: Error)

  /** List look-up with pirate equality, which compares names only: the first
      position holding a pirate with the probe's name, or -1. */
  method IndexOf(ps: seq<Pirate>, probe: Pirate) returns (idx: int)
    ensures -1 <= idx < |ps|
    ensures idx >= 0 ==> ps[idx].name == probe.name
    ensures idx >= 0 ==> forall j :: 0 <= j < idx ==> ps[j].name != probe.name
    ensures idx == -1 ==> forall j :: 0 <= j < |ps| ==> ps[j].name != probe.name
  {
    var i := 0;
    while i < |ps|
      invariant 0 <= i <= |ps|
      invariant forall j :: 0 <= j < i ==> ps[j].name != probe.name
    {
      if ps[i].name == probe.name {
        return i;
      }
      i := i + 1;
    }
    return -1;
  }

  /** Allocates treasures[i] to the pirate named pirateToTreasureMap[i] for
      every i, creating pirates in order of first appearance. Fails, building
      nothing, when the two inputs differ in length. */
  method BuildPiratesWithTreasure(treasures: seq<Treasure>, pirateToTreasureMap: seq<string>)
    returns (r: Result<seq<Pirate>>)
    ensures r.Failure? <==> |treasures| != |pirateToTreasureMap|
    ensures r.Success? ==>
      && |treasures| == |pirateToTreasureMap|
      && (forall p | p in r.value :: fresh(p))
      && DistinctObjects(r.value)
      && Snapshot(r.value) == GroupByName(treasures, pirateToTreasureMap)
  {
    if |treasures| != |pirateToTreasureMap| {
      return Failure(IllegalArgument);
    }
    var pirateList: seq<Pirate> := [];
    for i := 0 to |pirateToTreasureMap|
      invariant forall p | p in pirateList :: fresh(p)
      invariant DistinctObjects(pirateList)
      invariant Snapshot(pirateList) == GroupByName(treasures[..i], pirateToTreasureMap[..i])
    {
      GroupByNameStep(treasures, pirateToTreasureMap, i);
      pirateList := GiveTreasure(pirateList, pirateToTreasureMap[i], treasures[i]);
    }
    assert treasures[..|treasures|] == treasures;
    assert pirateToTreasureMap[..|treasures|] == pirateToTreasureMap;
    return Success(pirateList);
  }

  /** One pass of the allocation loop: look the name up among the pirates so
      far (a fresh pirate is appended when there is none) and give that pirate
      the treasure. The existing pirates stay in place as the same objects; the
      one found is updated in place, and only it or the one created changes. */
  method GiveTreasure(pirateList: seq<Pirate>, name: string, t: Treasure) returns (result: seq<Pirate>)
    requires DistinctObjects(pirateList)
    modifies set p | p in pirateList
    ensures |pirateList| <= |result| <= |pirateList| + 1
    ensures result[..|pirateList|] == pirateList
    ensures |result| == |pirateList| + 1 ==> fresh(result[|pirateList|])
    ensures DistinctObjects(result)
    ensures forall p | p in result :: p in pirateList || fresh(p)
    ensures Snapshot(result) == Assign(old(Snapshot(pirateList)), name, t)
  {
    ghost var crew := Snapshot(pirateList);
    result := pirateList;
    var pirate := new Pirate(name);
    var pirateIdx := IndexOf(result, pirate);
    ghost var k := FindOwner(crew, name);
    if pirateIdx != -1 {
      assert k == pirateIdx;
      pirate := result[pirateIdx];
    } else {
      assert k == |crew|;
      result := result + [pirate];
    }
    ghost var before := Snapshot(result);
    AssignAt(crew, name, t, k, before);
    assert result[k] == pirate && pirate.name == name;
    pirate.AddTreasure(t);
    forall j | 0 <= j < |result| && j != k
      ensures result[j].treasures == before[j].treasures
    {
      assert result[j] != pirate;
    }
    assert Snapshot(result) == before[k := Owner(pirate.name, before[k].treasures + [t])];
  }

  /** Membership by name and value in a set of held treasures, scanning the
      set in no particular order. */
  method SetContainsTreasure(pirateTreasures: set<Treasure>, treasure: Treasure) returns (found: bool)
    ensures found <==> exists c :: c in pirateTreasures && c.name == treasure.name && c.value == treasure.value
    ensures found <==> treasure in pirateTreasures
  {
    var rest := pirateTreasures;
    while rest != {}
      invariant rest <= pirateTreasures
      invariant forall c :: c in pirateTreasures - rest ==> !(c.name == treasure.name && c.value == treasure.value)
      decreases rest
    {
      var current :| current in rest;
      if current.name == treasure.name && current.value == treasure.value {
        return true;
      }
      rest := rest - {current};
    }
    return false;
  }

  /** The set of all treasures the pirates hold. */
  method HeldTreasures(pirates: seq<Pirate>) returns (pirateTreasures: set<Treasure>)
    ensures forall t :: t in pirateTreasures <==> t in Flatten(Snapshot(pirates))
  {
    ghost var crew := Snapshot(pirates);
    pirateTreasures := {};
    for i := 0 to |pirates|
      invariant forall t :: t in pirateTreasures <==> t in Flatten(crew[..i])
    {
      var held := pirates[i].treasures;
      for j := 0 to |held|
        invariant forall t :: t in pirateTreasures <==> t in Flatten(crew[..i]) + held[..j]
      {
        pirateTreasures := pirateTreasures + {held[j]};
        assert held[..j + 1] == held[..j] + [held[j]];
      }
      assert held[..|held|] == held;
      assert crew[..i + 1][..i] == crew[..i];
    }
    assert crew[..|pirates|] == crew;
  }

  /** Decides whether the pirates hold every original treasure and each
      pirate's total lies in the band around the mean. */
  method IsBalanced(treasures: seq<Treasure>, pirates: seq<Pirate>, deviationPercentage: int)
    returns (b: bool)
    ensures b == Balanced(treasures, Snapshot(pirates), deviationPercentage)
  {
    ghost var crew := Snapshot(pirates);
    var pirateTreasures := HeldTreasures(pirates);

    var totalTreasureValue := 0;
    for i := 0 to |treasures|
      invariant totalTreasureValue == Sum(treasures[..i])
      invariant forall k :: 0 <= k < i ==> Covers(crew, treasures[k])
    {
      var found := SetContainsTreasure(pirateTreasures, treasures[i]);
      if !found {
        CoversIsMembership(crew, treasures[i]);
        return false;
      }
      CoversIsMembership(crew, treasures[i]);
      assert treasures[..i + 1][..i] == treasures[..i];
      totalTreasureValue := totalTreasureValue + treasures[i].value;
    }
    assert treasures[..|treasures|] == treasures;

    // The band [total/n * (100 - d)/100, total/n * (100 + d)/100], scaled by n * 100.
    var n := |pirates|;
    var valueMin := totalTreasureValue * (100 - deviationPercentage);
    var valueMax := totalTreasureValue * (100 + deviationPercentage);
    for i := 0 to n
      invariant forall k :: 0 <= k < i ==>
        WithinBand(Sum(crew[k].treasures), n, totalTreasureValue, deviationPercentage)
    {
      var scaled := pirates[i].TreasureValue() * n * 100;
      if scaled < valueMin || scaled > valueMax {
        return false;
      }
    }
    return true;
  }
}
