/** What allocating treasures to pirates by name computes, as values, and
    the properties of that allocation. GroupByName follows the allocation
    loop index by index; Pick and AppearsBefore describe the result
    independently of how it is built. */
module Allocation {
  import opened Treasures
  import opened Pirates

  /** Position of the first owner called `name`, or |crew| when there is
      none: the look-up by name, first match wins. */
  function FindOwner(crew: seq<Owner>, name: string): (k: nat)
    ensures k <= |crew|
    ensures k < |crew| ==> crew[k].name == name
    ensures forall j :: 0 <= j < k ==> crew[j].name != name
  {
    if crew == [] then 0
    else if crew[0].name == name then 0
    else 1 + FindOwner(crew[1..], name)
  }

  /** One step of the allocation: give `t` to the owner called `name`,
      appending a new owner at the end when there is none yet. */
  function Assign(crew: seq<Owner>, name: string, t: Treasure): seq<Owner>
  {
    var k := FindOwner(crew, name);
    if k < |crew| then crew[k := Owner(name, crew[k].treasures + [t])]
    else crew + [Owner(name, [t])]
  }

  /** The owners after treasures[i] has been given to names[i] for every i
      in increasing order. */
  function GroupByName(ts: seq<Treasure>, names: seq<string>): seq<Owner>
    requires |ts| == |names|
    decreases |ts|
  {
    if ts == [] then []
    else
      var n := |ts| - 1;
      Assign(GroupByName(ts[..n], names[..n]), names[n], ts[n])
  }

  /** Assign as an update of the owner at FindOwner's position, after a new
      empty owner has been appended when there was none. */
  lemma AssignAt(crew: seq<Owner>, name: string, t: Treasure, k: nat, grown: seq<Owner>)
    requires k == FindOwner(crew, name)
    requires grown == if k < |crew| then crew else crew + [Owner(name, [])]
    ensures k < |grown|
    ensures Assign(crew, name, t) == grown[k := Owner(name, grown[k].treasures + [t])]
  {
    assert [] + [t] == [t];
  }

  /** GroupByName over a prefix one longer is one more Assign. */
  lemma GroupByNameStep(ts: seq<Treasure>, names: seq<string>, i: nat)
    requires |ts| == |names| && i < |ts|
    ensures GroupByName(ts[..i + 1], names[..i + 1]) == Assign(GroupByName(ts[..i], names[..i]), names[i], ts[i])
  {
    assert ts[..i + 1][..i] == ts[..i];
    assert names[..i + 1][..i] == names[..i];
  }

  /** The treasures at the indices mapped to `name`, in increasing index order. */
  function Pick(ts: seq<Treasure>, names: seq<string>, name: string): seq<Treasure>
    requires |ts| == |names|
    decreases |ts|
  {
    if ts == [] then []
    else
      var n := |ts| - 1;
      Pick(ts[..n], names[..n], name) + (if names[n] == name then [ts[n]] else [])
  }

  /** No two owners share a name. */
  predicate NamesDistinct(crew: seq<Owner>)
  {
    forall j, k :: 0 <= j < k < |crew| ==> crew[j].name != crew[k].name
  }

  /** Some owner is called `x`. */
  predicate NamedIn(crew: seq<Owner>, x: string)
  {
    exists k :: 0 <= k < |crew| && crew[k].name == x
  }

  /** Every occurrence of `b` in `names` is preceded by an occurrence of `a`:
      `a` first appears before `b` does. */
  predicate AppearsBefore(names: seq<string>, a: string, b: string)
  {
    forall i :: 0 <= i < |names| && names[i] == b ==> a in names[..i]
  }

  /** The owners' names are distinct and are exactly the names in the map. */
  lemma {:induction false} GroupNames(ts: seq<Treasure>, names: seq<string>)
    requires |ts| == |names|
    ensures NamesDistinct(GroupByName(ts, names))
    ensures forall x :: x in names <==> NamedIn(GroupByName(ts, names), x)
    decreases |ts|
  {
    if ts != [] {
      var n := |ts| - 1;
      var g0 := GroupByName(ts[..n], names[..n]);
      var g := GroupByName(ts, names);
      GroupNames(ts[..n], names[..n]);
      assert names == names[..n] + [names[n]];
      var k := FindOwner(g0, names[n]);
      if k < |g0| {
        assert |g| == |g0| && forall j :: 0 <= j < |g| ==> g[j].name == g0[j].name;
        forall x ensures x in names <==> NamedIn(g, x) {
          if NamedIn(g, x) {
            var j :| 0 <= j < |g| && g[j].name == x;
            assert g0[j].name == x;
          }
          if x in names[..n] {
            var j :| 0 <= j < |g0| && g0[j].name == x;
            assert g[j].name == x;
          }
          if x == names[n] {
            assert g[k].name == x;
          }
        }
      } else {
        assert g == g0 + [Owner(names[n], [ts[n]])];
        forall x ensures x in names <==> NamedIn(g, x) {
          if NamedIn(g, x) {
            var j :| 0 <= j < |g| && g[j].name == x;
            if j < |g0| { assert g0[j].name == x; }
          }
          if x in names[..n] {
            var j :| 0 <= j < |g0| && g0[j].name == x;
            assert g[j].name == x;
          }
          if x == names[n] {
            assert g[|g0|].name == x;
          }
        }
      }
    }
  }

  /** The owners come in order of first appearance of their names. */
  lemma {:induction false} GroupOrder(ts: seq<Treasure>, names: seq<string>)
    requires |ts| == |names|
    ensures forall j, k :: 0 <= j < k < |GroupByName(ts, names)| ==>
      AppearsBefore(names, GroupByName(ts, names)[j].name, GroupByName(ts, names)[k].name)
    decreases |ts|
  {
    if ts != [] {
      var n := |ts| - 1;
      var g0 := GroupByName(ts[..n], names[..n]);
      var g := GroupByName(ts, names);
      GroupOrder(ts[..n], names[..n]);
      GroupNames(ts[..n], names[..n]);
      var k := FindOwner(g0, names[n]);
      forall j, l | 0 <= j < l < |g| ensures AppearsBefore(names, g[j].name, g[l].name) {
        assert g[j].name == g0[j].name;
        assert g0[j].name in names[..n] by {
          assert NamedIn(g0, g0[j].name);
        }
        forall i | 0 <= i < |names| && names[i] == g[l].name
          ensures g[j].name in names[..i]
        {
          if i < n {
            assert names[..n][i] == names[i];
            assert names[..n][..i] == names[..i];
            assert NamedIn(g0, g[l].name);
            assert l < |g0|;
            assert g[l].name == g0[l].name;
            assert AppearsBefore(names[..n], g0[j].name, g0[l].name);
          } else {
            assert names[..i] == names[..n];
          }
        }
      }
    }
  }

  lemma {:induction false} PickAbsent(ts: seq<Treasure>, names: seq<string>, name: string)
    requires |ts| == |names| && name !in names
    ensures Pick(ts, names, name) == []
    decreases |ts|
  {
    if ts != [] {
      var n := |ts| - 1;
      assert names[n] in names;
      PickAbsent(ts[..n], names[..n], name);
    }
  }

  /** Each owner holds exactly the treasures mapped to its name, in index order. */
  lemma {:induction false} GroupPicks(ts: seq<Treasure>, names: seq<string>)
    requires |ts| == |names|
    ensures forall k :: 0 <= k < |GroupByName(ts, names)| ==>
      GroupByName(ts, names)[k].treasures == Pick(ts, names, GroupByName(ts, names)[k].name)
    decreases |ts|
  {
    if ts != [] {
      var n := |ts| - 1;
      var g0 := GroupByName(ts[..n], names[..n]);
      var g := GroupByName(ts, names);
      GroupPicks(ts[..n], names[..n]);
      GroupNames(ts[..n], names[..n]);
      var k := FindOwner(g0, names[n]);
      forall l | 0 <= l < |g| ensures g[l].treasures == Pick(ts, names, g[l].name) {
        if l < |g0| {
          assert g0[l].treasures == Pick(ts[..n], names[..n], g0[l].name);
        } else {
          assert !NamedIn(g0, names[n]);
          PickAbsent(ts[..n], names[..n], names[n]);
        }
      }
    }
  }

  lemma {:induction false} PickContains(ts: seq<Treasure>, names: seq<string>, i: nat)
    requires |ts| == |names| && i < |ts|
    ensures ts[i] in Pick(ts, names, names[i])
    decreases |ts|
  {
    var n := |ts| - 1;
    if i < n {
      PickContains(ts[..n], names[..n], i);
    }
  }

  /** treasures[i] is held by the one owner called names[i]. */
  lemma TreasureInOwnBucket(ts: seq<Treasure>, names: seq<string>, i: nat)
    requires |ts| == |names| && i < |ts|
    ensures exists k ::
      && 0 <= k < |GroupByName(ts, names)|
      && GroupByName(ts, names)[k].name == names[i]
      && ts[i] in GroupByName(ts, names)[k].treasures
    ensures forall j, k ::
      (&& 0 <= j < |GroupByName(ts, names)| && 0 <= k < |GroupByName(ts, names)|
       && GroupByName(ts, names)[j].name == names[i] && GroupByName(ts, names)[k].name == names[i])
      ==> j == k
  {
    var g := GroupByName(ts, names);
    GroupNames(ts, names);
    GroupPicks(ts, names);
    PickContains(ts, names, i);
    assert NamedIn(g, names[i]);
    var k :| 0 <= k < |g| && g[k].name == names[i];
    assert ts[i] in g[k].treasures;
  }

  /** One allocation step adds exactly the given treasure to what the crew holds. */
  lemma AssignAddsOne(crew: seq<Owner>, name: string, t: Treasure)
    ensures multiset(Flatten(Assign(crew, name, t))) == multiset(Flatten(crew)) + multiset{t}
    ensures Sum(Flatten(Assign(crew, name, t))) == Sum(Flatten(crew)) + t.value
  {
    var k := FindOwner(crew, name);
    var c := Assign(crew, name, t);
    if k < |crew| {
      FlattenAround(crew, k);
      FlattenAround(c, k);
      assert c[..k] == crew[..k] && c[k + 1..] == crew[k + 1..];
      var a, m, b := Flatten(crew[..k]), crew[k].treasures, Flatten(crew[k + 1..]);
      assert Flatten(c) == a + (m + [t]) + b;
      assert Flatten(crew) == a + m + b;
      SumConcat(a + m, b);
      SumConcat(a, m);
      SumConcat(a + (m + [t]), b);
      SumConcat(a, m + [t]);
      SumConcat(m, [t]);
      assert Sum([t]) == t.value by { assert [t][..0] == []; }
    } else {
      assert c == crew + [Owner(name, [t])];
      assert c[..|c| - 1] == crew;
      SumConcat(Flatten(crew), [t]);
      assert Sum([t]) == t.value by { assert [t][..0] == []; }
    }
  }

  /** The buckets together are a permutation of the treasures, so no
      treasure is lost or duplicated and the total value is unchanged. */
  lemma {:induction false} GroupPermutation(ts: seq<Treasure>, names: seq<string>)
    requires |ts| == |names|
    ensures multiset(Flatten(GroupByName(ts, names))) == multiset(ts)
    ensures |Flatten(GroupByName(ts, names))| == |ts|
    ensures Sum(Flatten(GroupByName(ts, names))) == Sum(ts)
    decreases |ts|
  {
    var g := GroupByName(ts, names);
    if ts != [] {
      var n := |ts| - 1;
      var g0 := GroupByName(ts[..n], names[..n]);
      assert g == Assign(g0, names[n], ts[n]);
      GroupPermutation(ts[..n], names[..n]);
      AssignAddsOne(g0, names[n], ts[n]);
      MultisetSplitLast(ts);
    }
    assert |Flatten(g)| == |multiset(Flatten(g))|;
  }

}
