# Pirate treasure allocation, modelled in Dafny

The pirate manager has two operations. The first hands out an array of treasures
to pirates. A parallel array of names says which pirate receives each treasure.
The second decides whether such an allocation is balanced: every original
treasure must be held by some pirate, and every pirate's total value must lie
within a tolerance band around the mean.

The model has five modules, one file each:

- `Treasures` (treasures.dfy): the `Treasure` value, a name and an integer
  value. Equality is structural. `Sum` gives the total value of a sequence.
- `Pirates` (pirates.dfy): the mutable `Pirate` class. Its name is fixed and
  its treasure list grows with `AddTreasure`. A pirate's value is
  `TreasureValue()`, the sum of its list. `Owner` is the value a pirate holds at
  one moment. `Snapshot` reads a list of pirates as a list of owners.
  `Flatten` lists every treasure a crew holds.
- `Allocation` (allocation.dfy): `GroupByName` is the allocation as a value,
  built index by index with `Assign`. `FindOwner` is the look-up by name, and
  the first match wins. Lemmas state the result without reference to the loop:
  - the names are distinct;
  - the names are exactly those in the map, in order of first appearance;
  - each bucket is `Pick`, the subsequence of treasures mapped to that name,
    in index order;
  - the buckets together are a permutation of the treasures.
- `Balance` (balance.dfy): `Balanced` is the balance predicate. The band
  `mean·(100−d)/100 ≤ v ≤ mean·(100+d)/100` with `mean = total/n` is stated
  exactly over integers as `v·n·100 ≥ total·(100−d)` and
  `v·n·100 ≤ total·(100+d)`. `BandIsMeanTolerance` proves this equals the band
  computed in real arithmetic.
- `PirateManager` (pirate_manager.dfy): the operations as imperative methods
  with loops, each proved against the definitions above.
  - `BuildPiratesWithTreasure` returns a `Result`. A length mismatch is the
    `IllegalArgument` failure, and no pirate is built.
  - On success the method returns fresh, pairwise distinct `Pirate` objects.
    Their snapshot is `GroupByName` of the inputs.
  - `IsBalanced` returns exactly `Balanced` of the pirates' snapshot.

The source arrays are read-only inputs, so they are sequences here.
`pirateList.indexOf(new Pirate(name))` finds a pirate by name, because pirate
equality compares names only. It is modelled by `IndexOf`, which compares names.
The `HashSet` of held treasures is a Dafny `set<Treasure>`.
`SetContainsTreasure` scans it in an unspecified order, as iterating a hash set
does.

Where the documentation and the code differ, the model follows the code:

- The allocation is documented for non-empty inputs. The code also accepts two
  empty arrays and returns no pirates, and so does the model.
- The balance check divides by `pirates.size()`, which is zero for an empty
  pirate list. In the code, an empty pirate list with a non-empty treasure array fails the coverage
  step and gives false. With no treasures, the band loop never runs and the
  answer is true. The band itself is a floating-point division by zero that is
  never compared. `Balance.EmptyCrew` states this.

## Model

| member | source | states |
|---|---|---|
| `Pirates.Pirate.constructor` | src/main/java/pirates/PirateManager.java:25 | A new pirate has the given name and holds no treasure |
| `Pirates.Pirate.AddTreasure` | src/main/java/pirates/PirateManager.java:33 | Appends the treasure to this pirate's list; nothing else changes |
| `Allocation.FindOwner` | src/main/java/pirates/PirateManager.java:26-29 | Gives the first position whose owner has the name, or the list length when no owner has it |
| `Allocation.GroupNames` | src/main/java/pirates/PirateManager.java:24-32 | The allocated pirates have pairwise distinct names; a name is a pirate's name exactly when it occurs in the map |
| `Allocation.GroupOrder` | src/main/java/pirates/PirateManager.java:24-32 | For pirates at positions j < k, pirate j's name first occurs in the map before pirate k's name does |
| `Allocation.GroupPicks` | src/main/java/pirates/PirateManager.java:24-34 | Each pirate's list is exactly the treasures at the indices mapped to its name, in increasing index order |
| `Allocation.PickContains` | src/main/java/pirates/PirateManager.java:33 | treasures[i] is among the treasures picked for the name pirateToTreasureMap[i] |
| `Allocation.TreasureInOwnBucket` | src/main/java/pirates/PirateManager.java:25-33 | treasures[i] is held by a pirate named pirateToTreasureMap[i], and only one pirate has that name |
| `Allocation.AssignAddsOne` | src/main/java/pirates/PirateManager.java:25-33 | One loop step adds exactly that treasure to what the crew holds, and adds its value to the crew's total |
| `Allocation.GroupPermutation` | src/main/java/pirates/PirateManager.java:24-34 | All pirates' treasures together are a permutation of the input: same multiset, same count, same total value |
| `Balance.BandIsMeanTolerance` | src/main/java/pirates/PirateManager.java:66-70 | For n > 0, the integer band check holds exactly when total/n·(100−d)/100 ≤ v ≤ total/n·(100+d)/100 in real arithmetic |
| `Balance.CoversIsMembership` | src/main/java/pirates/PirateManager.java:77-84 | Some held treasure matches name and value exactly when the treasure itself is held (structural, not identity) |
| `Balance.ExtraTreasureKeepsCoverage` | src/main/java/pirates/PirateManager.java:58-64 | If the originals are covered, they stay covered when any pirate receives an extra treasure (coverage is one-directional) |
| `Balance.EmptyCrew` | src/main/java/pirates/PirateManager.java:50-74 | With no pirates the result is true exactly when there are no treasures |
| `Balance.AllocationCovers` | src/main/java/pirates/PirateManager.java:24-34 | Every allocation built from the inputs covers all of them, and its pirates hold exactly the original total value |
| `Balance.EqualSharesBalanced` | src/main/java/pirates/PirateManager.java:49-75 | Treasures 100 and 100 given to X and Y make two pirates that are balanced with 0% tolerance |
| `Balance.UnequalSharesUnbalanced` | src/main/java/pirates/PirateManager.java:66-72 | Treasures 10 and 190 given to X and Y go to two pirates, and both totals lie outside the 10% band [90, 110] around the mean 100, so the allocation is not balanced |
| `Balance.WideToleranceBalanced` | src/main/java/pirates/PirateManager.java:66-72 | Treasures 100 and 0 given to X and Y are balanced with 100% tolerance |
| `Balance.MissingTreasureUnbalanced` | src/main/java/pirates/PirateManager.java:58-62 | If a pirate holds ("A", 2) but the original is ("A", 1), the result is false for every tolerance |
| `Balance.ExtraTreasureBalanced` | src/main/java/pirates/PirateManager.java:58-74 | A pirate can hold an extra treasure that is not among the originals, and the allocation can still be balanced |
| `PirateManager.IndexOf` | src/main/java/pirates/PirateManager.java:26 | Returns the first index holding a pirate with the probe's name, or -1 when no pirate has it |
| `PirateManager.BuildPiratesWithTreasure` | src/main/java/pirates/PirateManager.java:16-37 | Fails with IllegalArgument exactly when the lengths differ. Otherwise returns fresh, distinct pirates whose contents are GroupByName of the inputs |
| `PirateManager.GiveTreasure` | src/main/java/pirates/PirateManager.java:25-33 | One loop pass: the old pirates keep their positions as the same objects, at most one fresh pirate is appended, no object repeats, and the crew's contents become Assign of the old contents (the found pirate is updated in place) |
| `PirateManager.SetContainsTreasure` | src/main/java/pirates/PirateManager.java:77-84 | True exactly when the set holds a treasure with equal name and equal value, which is exactly when it holds that treasure |
| `PirateManager.HeldTreasures` | src/main/java/pirates/PirateManager.java:50-56 | The collected set holds exactly the treasures that some pirate holds |
| `PirateManager.IsBalanced` | src/main/java/pirates/PirateManager.java:49-75 | Returns exactly Balanced: false if some original treasure is not held; otherwise true when every pirate's value is in the band around the mean of the original total |

## Left out

- PirateManager.IsBalanced: does not model floating-point rounding. The `(float)` cast makes the whole band computation single-precision `float`; only the result is widened to `double` for the comparison at line 70. The model compares exactly. So a value on a band boundary may be decided differently. Example: total 100, 3 pirates, d = 2. In `float`, the upper bound is 33.999996, so a pirate holding 34 gives false in the source. The model gives true, because 34·3·100 = 10200 = 100·102. Totals above 2^24 are not even stored exactly as a `float`.
- PirateManager.IsBalanced: does not model 32-bit overflow of the running total or of the products. Integers are unbounded here.
- PirateManager.IsBalanced: does not require `deviationPercentage` to lie in [0, 200]. The documentation asks callers for that range, but the code does not depend on it.
- Hashing and `HashSet` iteration order are not modelled. The set is a mathematical set, scanned in an arbitrary order.
- Null inputs (a `NullPointerException` in the source) are not modelled: sequences and objects here are never null.
- `Pirate` and `Treasure` are not part of this model's source files. `Treasure` is a (name, value) datatype with structural equality. `Pirate` keeps a fixed name and a growing list of treasures. Pirate equality is taken to compare names, and `getTreasureValue` is taken to be the sum of the list.
- The collecting of held treasures (lines 50–56) and the body of the allocation loop (lines 25–33) are separate methods, `HeldTreasures` and `GiveTreasure`, rather than inline loops. This keeps each proof small and does not change behaviour.
