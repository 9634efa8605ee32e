# Water-point aggregation and ranking

The program downloads a JSON array of water-point records. Each record names
its community (`communities_villages`) and says whether the point works
(`water_functioning`). The program groups the records into communities and
answers with a JSON object holding three things:

- `number_functional`: the number of working water points;
- `number_water_points`: each community's name and total, in the order the
  communities first appear;
- `community_ranking`: each community's name and broken percentage, highest
  percentage first.

If the download fails, or if no community could be built, the answer is an
object holding an `error` message instead.

This project models that core in Dafny, in four modules:

- `CommunityModel` (`Community.dfy`) models the mutable `Community` record.
  - It is a class with the three fields, setters that modify only the object
    itself, and reading functions for the broken percentage, the functional
    count and `equals`.
  - The value datatype `Stats` is what one community holds at a given moment.
  - The exact quotient truncated toward zero (`TruncDiv`), which is what
    `intValue` gives on the double quotient (see "## Left out"), and the
    saturation of `Double.intValue` (`Saturate`) are written out.
- `Aggregation` (`Aggregation.dfy`) models the downloaded records and the
  `process` loop.
  - The records are a `Record` datatype with optional fields.
  - `process` and its `getCommunity` lookup are methods over sequences of
    `Community` references. They allocate fresh objects and update them
    through the setters.
  - `Aggregate` gives the specification: one tally per distinct name, in
    first-seen order, or nothing at all when any record lacks a property.
    `Process` is proved to leave exactly those values in the heap.
- `StableSort` (`StableSort.dfy`) is a stable, descending insertion sort on
  keyed sequences (`SortDescending`). It is proved to be a permutation, to be
  sorted, and to keep every run of equal keys in input order. It is also
  proved to be the only sequence with all three properties.
- `Reporting` (`Reporting.dfy`) models `getAllFunctionalWaterpoints`,
  `toJson` and `calculate`.
  - `toJson` sorts the caller's `array<Community>` in place by an insertion
    sort whose result is tied to `SortDescending`. It reads the counts view
    before the sort and the ranking after it.
  - `ReportOf` gives the report as a function of the communities' values.
  - `calculate` takes the result of `download` as an `Option` of records:
    `None` stands for the null that `download` returns on a null or empty
    URL or on any exception.

`Wrappers.dfy` holds the `Option` datatype.

Java `null` for a missing name or property is `None`. The list arguments of
`getCommunity` and `getAllFunctionalWaterpoints` are Dafny sequences, which
are never null.

## Model

| member | source | states |
|---|---|---|
| CommunityModel.Community.constructor | src/challenge/model/Community.java:11-14 | a new community has no name, total 0 and broken 0 |
| CommunityModel.Community.SetName | src/challenge/model/Community.java:20-22 | sets the name and leaves both counts unchanged |
| CommunityModel.Community.SetTotalWaterPoints | src/challenge/model/Community.java:28-30 | sets the total and leaves the name and broken count unchanged |
| CommunityModel.Community.SetBrokenWaterPoints | src/challenge/model/Community.java:36-38 | sets the broken count and leaves the name and total unchanged |
| CommunityModel.TruncDivMagnitude | src/challenge/model/Community.java:45-46 | the truncated quotient's magnitude is the largest whose multiple of the divisor's magnitude does not exceed the dividend's |
| CommunityModel.TruncDivSign | src/challenge/model/Community.java:45-46 | a non-zero truncated quotient is positive exactly when dividend and divisor have the same sign |
| CommunityModel.Stats.Percentage | src/challenge/model/Community.java:40-47 | 0 when broken is 0 (whatever the total); IntMax or IntMin, by the sign of broken, for a zero total; otherwise broken*100 divided by total truncated toward zero and saturated to the int range; always within the int range |
| CommunityModel.Community.BrokenPercentage | src/challenge/model/Community.java:40-47 | the getter on an object gives the percentage of its current name, total and broken values, so every property of `Stats.Percentage` holds of it |
| CommunityModel.BrokenPercentageCases | src/challenge/model/Community.java:40-47 | on an object: 0 with nothing broken, the saturated bound for a zero total, a value in [0, 100] for 0 <= broken <= total with a positive total |
| CommunityModel.Community.FunctionalWaterPoints | src/challenge/model/Community.java:49-51 | the getter plus the broken count is the total; it lies in [0, total] when 0 <= broken <= total |
| CommunityModel.Stats.Functional | src/challenge/model/Community.java:49-51 | functional plus broken is the total; it lies in [0, total] when 0 <= broken <= total |
| CommunityModel.PercentageOfNothingBroken | src/challenge/model/Community.java:40-43 | with broken 0 the percentage is 0 for every total, including 0 |
| CommunityModel.PercentageTruncates | src/challenge/model/Community.java:40-47 | for 0 <= broken <= total and total > 0 the percentage is broken*100 div total, truncated and not rounded: p*total <= broken*100 < (p+1)*total; it lies in [0, 100] |
| CommunityModel.PercentageExamples | test/challenge/MainTest.java:117-129 | 3 of 7 gives 42, 1 of 2 gives 50, 5 of 5 gives 100, 0 of 10 gives 0 |
| CommunityModel.Community.Equals | src/challenge/model/Community.java:53-66 | `equals` holds exactly when the other object is a Community, this name is non-null and both names are equal; an object equals itself exactly when its name is non-null |
| CommunityModel.EqualsSymmetric | src/challenge/model/Community.java:53-66 | `equals` between two communities is symmetric |
| CommunityModel.EqualsTransitive | src/challenge/model/Community.java:53-66 | `equals` between communities is transitive |
| CommunityModel.EqualsIrreflexiveWithoutName | src/challenge/model/Community.java:57-63 | a community with a null name is not equal even to itself |
| Aggregation.FirstIndex | src/challenge/Main.java:100-116 | the position of the first occurrence of a name: it holds the name and no earlier element does |
| Aggregation.FirstSeenMembers | src/challenge/Main.java:100-116 | the first-seen list holds exactly the names of the input |
| Aggregation.FirstSeenDistinct | src/challenge/Main.java:100-116 | the first-seen list has no name twice |
| Aggregation.FirstSeenOrder | src/challenge/Main.java:100-116 | the first-seen list is ordered by the position of each name's first occurrence |
| Aggregation.BrokenAtMostCount | src/challenge/Main.java:108-113 | a name's broken records never outnumber its records |
| Aggregation.CountOfNames | src/challenge/Main.java:97-116 | a name occurs in the input exactly when at least one record carries it |
| Aggregation.AggregateBounds | src/challenge/Main.java:100-116 | every community returned has a name, total >= 1, 0 <= broken <= total and a percentage in [0, 100] |
| Aggregation.AggregateDistinctNames | src/challenge/Main.java:100-116 | the communities returned have pairwise distinct names |
| Aggregation.AggregateNamesFromInput | src/challenge/Main.java:97-116 | every record's community is among those returned, and every returned name comes from some record |
| Aggregation.AggregateFirstSeenOrder | src/challenge/Main.java:100-116 | the communities are ordered by where their names first occur in the input |
| Aggregation.AggregateCounts | src/challenge/Main.java:86-113 | each community's total is the number of its records, and its broken count is the number of those whose status is not exactly "yes" |
| Aggregation.AggregateEmptyIff | src/challenge/Main.java:83-125 | the result is empty exactly when the input is empty or some record lacks `water_functioning` or `communities_villages` |
| Aggregation.AggregateExample | test/challenge/MainTest.java:79-129 | the five test records give village1 (2, 0), village2 (2, 1), village3 (1, 1) in that order |
| Aggregation.IndexOfName | src/challenge/Main.java:172-177 | the index of the first tally with a name, or the length when there is none |
| Aggregation.AggregateStep | src/challenge/Main.java:100-116 | one more well-formed record adds one to its community's total, and to its broken count unless it is functioning; a new name appends a tally at the end |
| Aggregation.GetCommunity | src/challenge/Main.java:167-178 | null exactly when the name is null or no community carries it; otherwise the first community with that name |
| Aggregation.FindOrCreate | src/challenge/Main.java:100-106 | the community found at the first index of the name, or a fresh one holding the name and zero counts; new exactly when the name is absent |
| Aggregation.CountRecord | src/challenge/Main.java:100-116 | the list's values after one record are the tallies counted one step further; the list keeps distinct objects, old or fresh |
| Aggregation.ProcessRecord | src/challenge/Main.java:86-116 | after one record with both properties (functioning exactly when its status is "yes"), the list holds the tallies of the records so far plus this one, as distinct objects |
| Aggregation.Process | src/challenge/Main.java:81-126 | the returned communities hold exactly the specified tallies (first-seen order, counts per name, empty on any missing property) and are distinct objects, all freshly allocated |
| StableSort.InsertPermutes | src/challenge/Main.java:144-150 | one insertion adds exactly the inserted entry |
| StableSort.SortPermutes | src/challenge/Main.java:144-150 | the sort is a permutation of its input, of the entries and of their payloads |
| StableSort.InsertNonIncreasing | src/challenge/Main.java:144-150 | inserting into a sorted sequence keeps it sorted |
| StableSort.SortNonIncreasing | src/challenge/Main.java:144-150 | the sorted sequence is in non-increasing key order, as the reversed comparator asks |
| StableSort.SortStable | src/challenge/Main.java:144-150 | entries with equal keys keep their input order |
| StableSort.StableSortUnique | src/challenge/Main.java:144-150 | any sorted sequence with the same per-key runs as the input is the sort's result, so every stable sort gives this order |
| StableSort.SortIdempotent | src/challenge/Main.java:144-150 | sorting an already sorted sequence changes nothing |
| Reporting.RankedPermutes | src/challenge/Main.java:144-161 | the ranking holds the same communities as the list |
| Reporting.RankedNonIncreasing | src/challenge/Main.java:144-161 | the ranking is non-increasing in broken percentage |
| Reporting.RankedStable | src/challenge/Main.java:144-150 | communities with equal percentages keep their relative order |
| Reporting.ReportRankingSorted | src/challenge/Main.java:152-161 | `community_ranking` has one entry per community, in non-increasing percentage |
| Reporting.ReportExample | test/challenge/MainTest.java:133-200 | the test's three communities give 14 functional, counts 10/7/5 in list order, ranking village3 100, village2 42, village1 0 |
| Reporting.RankingExample | test/challenge/MainTest.java:182-200 | the test's three communities rank in reverse list order |
| Reporting.SumFunctionalTallies | src/challenge/Main.java:180-190 | the functional sum over the tallies equals the per-name sum over the records |
| Reporting.FunctionalOverStep | src/challenge/Main.java:108-113 | one more record adds its name's occurrences to the functional sum when it works, and nothing otherwise |
| Reporting.FunctionalOverWorking | src/challenge/Main.java:180-190 | over distinct names covering every record, the functional sum is the number of working records |
| Reporting.NumberFunctionalCountsWorking | src/challenge/Main.java:130-131 | `number_functional` of the processed list is the number of records whose status is "yes" |
| Reporting.ReportOfAggregate | src/challenge/Main.java:130-142 | for processed records, `number_functional` counts the working records and `number_water_points` lists each first-seen name with its record count |
| Reporting.SortedList | src/challenge/Main.java:144-150 | a list sorted in place holds the same objects, and its values are the ranking of the values before |
| Reporting.GetAllFunctionalWaterpoints | src/challenge/Main.java:180-190 | the loop's count is the sum of total - broken over the list |
| Reporting.SortByBrokenPercentage | src/challenge/Main.java:144-150 | the array, keyed by broken percentage, becomes the stable descending sort of what it held |
| Reporting.InsertLast | src/challenge/Main.java:144-150 | one insertion step places element i among the sorted prefix as `Insert` does, and leaves the suffix alone |
| Reporting.InsertAtSplit | src/challenge/Main.java:144-150 | inserting an entry is splitting at the last place whose key is at least its own |
| Reporting.WaterPointRows | src/challenge/Main.java:133-142 | the rows are every community's name and total, in list order |
| Reporting.RankingRows | src/challenge/Main.java:152-161 | the rows are every community's name and broken percentage, in list order |
| Reporting.ToJson | src/challenge/Main.java:128-165 | the report is that of the list's values before the call; the list is left sorted in place (same objects, ranking order); no community's name or counts change |
| Reporting.ReportFor | src/challenge/Main.java:54 | `toJson` on the processed list gives the report of the communities' values |
| Reporting.Calculate | src/challenge/Main.java:37-55 | a failed download gives "Unable To download Json"; no communities give "Json retrieved doesn't have community data"; otherwise the report of the processed records |

## Left out

- `download` and `main` are not modelled. They do HTTP, Gson parsing,
  pretty-printing and console output. `Calculate` takes the download result
  as an `Option` of records instead.
- Logger calls are not modelled; they only have side effects.
- Building and reading Gson `JsonObject`/`JsonArray` values is not modelled.
  - Input elements are `Record`s. A property that is absent or whose
    `getAsString` would throw is `None`.
  - An element that is not a JSON object is a record with both properties
    `None`, which takes the same failure path.
  - `getAsString` on a one-element JSON array succeeds in Gson; the model
    treats every property as a plain string or `None`.
- CommunityModel.Stats.Percentage: the `double` arithmetic is not modelled.
  For Java-int operands |broken*100| < 2^53, so the double quotient truncates
  to the same integer as exact division. The infinities of a zero total and
  the saturation of `intValue` are modelled.
- Integer overflow of the `Integer` counts and of the functional sum is not
  modelled; counts are unbounded integers.
- Null `Integer` fields are not modelled: the constructor sets both counts to
  0, and no modelled path clears them.
- The null-list guards in `getCommunity` and `getAllFunctionalWaterpoints`
  are not modelled, because a sequence cannot be null. The null-name guard
  is modelled.
- The unused `brokenPercentage` field (src/challenge/model/Community.java:9)
  is not modelled. The getters are plain field reads.
- Reporting.SortByBrokenPercentage: `Collections.sort` (a merge sort) is
  modelled as an insertion sort. `StableSortUnique` shows that every stable
  sort with this comparator yields the same order.
- Reporting.ReportFor: the `ArrayList` that `process` returns and `toJson`
  sorts is modelled as an array that holds the same references.
- Aggregation.ProcessRecord, Aggregation.CountRecord and
  Aggregation.FindOrCreate are the loop body of `process`, split out as
  methods of their own.
- The functional tests that fetch the live dataset are not modelled.
