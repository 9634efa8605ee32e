/** Building the report from the communities and classifying the outcome:
    `getAllFunctionalWaterpoints`, `toJson` with its in-place sort, and
    `calculate` (src/challenge/Main.java). */
module Reporting {
  import opened Wrappers
  import opened CommunityModel
  import opened StableSort
  import opened Aggregation

  datatype NameCount = NameCount(name: Option<string>, count: int)
  datatype NamePercentage = NamePercentage(name: Option<string>, percentage: int)

  /** The three properties of the JSON object `toJson` builds. */
  datatype Report = Report(
    numberFunctional: int,
    numberWaterPoints: seq<NameCount>,
    communityRanking: seq<NamePercentage>)

  /** What `calculate` returns: an object holding only an `error` message, or
      the report. */
  datatype Response = Error(error: string) | Json(report: Report)

  const DownloadFailed: string := "Unable To download Json"
  const NoCommunityData: string := "Json retrieved doesn't have community data"

  // ---------------------------------------------------------------------------
  // The report as a function of the communities' values

  function SumFunctional(stats: seq<Stats>): int
  {
    if stats == [] then 0
    else SumFunctional(stats[..|stats| - 1]) + stats[|stats| - 1].Functional()
  }

  /** `number_water_points`: name and total of each community, in list order. */
  function CountsView(stats: seq<Stats>): (v: seq<NameCount>)
    ensures |v| == |stats|
  {
    seq(|stats|, i requires 0 <= i < |stats| => NameCount(stats[i].name, stats[i].total))
  }

  /** Name and broken percentage of each community, in list order. */
  function PercentagesView(stats: seq<Stats>): (v: seq<NamePercentage>)
    ensures |v| == |stats|
  {
    seq(|stats|, i requires 0 <= i < |stats| => NamePercentage(stats[i].name, stats[i].Percentage()))
  }

  /** Each tally paired with the key the ranking sorts it by. */
  function KeyedStats(stats: seq<Stats>): seq<(Stats, int)>
  {
    seq(|stats|, i requires 0 <= i < |stats| => (stats[i], stats[i].Percentage()))
  }

  /** The communities in ranking order: the comparator puts a higher broken
      percentage first, and the sort is stable. */
  function Ranked(stats: seq<Stats>): seq<Stats>
  {
    Payloads(SortDescending(KeyedStats(stats)))
  }

  /** The report for a list of communities. */
  function ReportOf(stats: seq<Stats>): Report
  {
    Report(SumFunctional(stats), CountsView(stats), PercentagesView(Ranked(stats)))
  }

  // ---------------------------------------------------------------------------
  // Properties of the ranking

  predicate Coherent(w: seq<(Stats, int)>)
  {
    forall i :: 0 <= i < |w| ==> w[i].1 == w[i].0.Percentage()
  }

  lemma SortedCoherent(stats: seq<Stats>)
    ensures Coherent(SortDescending(KeyedStats(stats)))
  {
    var w := SortDescending(KeyedStats(stats));
    SortPermutes(KeyedStats(stats));
    forall i | 0 <= i < |w|
      ensures w[i].1 == w[i].0.Percentage()
    {
      assert w[i] in multiset(w);
      assert w[i] in KeyedStats(stats);
    }
  }

  /** The ranking holds exactly the communities of the list, each once. */
  lemma RankedPermutes(stats: seq<Stats>)
    ensures multiset(Ranked(stats)) == multiset(stats)
  {
    SortPermutes(KeyedStats(stats));
    assert Payloads(KeyedStats(stats)) == stats;
  }

  /** The ranking is non-increasing in broken percentage. */
  lemma RankedNonIncreasing(stats: seq<Stats>)
    ensures forall i, j :: 0 <= i < j < |Ranked(stats)| ==>
      Ranked(stats)[i].Percentage() >= Ranked(stats)[j].Percentage()
  {
    SortNonIncreasing(KeyedStats(stats));
    SortedCoherent(stats);
  }

  /** The communities whose percentage is `p`, in order: `WithKey` stated on
      the tallies themselves, so that stability can be said of the ranking
      without the keyed entries (`WithPercentagePayloads` relates the two). */
  function WithPercentage(stats: seq<Stats>, p: int): seq<Stats>
  {
    if stats == [] then []
    else WithPercentage(stats[..|stats| - 1], p) + (if stats[|stats| - 1].Percentage() == p then [stats[|stats| - 1]] else [])
  }

  lemma {:induction false} WithPercentagePayloads(w: seq<(Stats, int)>, p: int)
    requires Coherent(w)
    ensures WithPercentage(Payloads(w), p) == Payloads(WithKey(w, p))
  {
    if w != [] {
      var init := w[..|w| - 1];
      assert Payloads(w)[..|w| - 1] == Payloads(init);
      WithPercentagePayloads(init, p);
      var tail := if w[|w| - 1].1 == p then [w[|w| - 1]] else [];
      assert Payloads(WithKey(init, p) + tail) == Payloads(WithKey(init, p)) + Payloads(tail);
    }
  }

  /** Communities with equal percentages keep their relative list order. */
  lemma RankedStable(stats: seq<Stats>, p: int)
    ensures WithPercentage(Ranked(stats), p) == WithPercentage(stats, p)
  {
    var w := KeyedStats(stats);
    SortedCoherent(stats);
    WithPercentagePayloads(SortDescending(w), p);
    SortStable(w, p);
    WithPercentagePayloads(w, p);
    assert Payloads(w) == stats;
  }

  /** The ranking rows are name and percentage of the ranked communities, so
      they are non-increasing in percentage. */
  lemma ReportRankingSorted(stats: seq<Stats>)
    ensures |ReportOf(stats).communityRanking| == |stats|
    ensures forall i, j :: 0 <= i < j < |stats| ==>
      ReportOf(stats).communityRanking[i].percentage >= ReportOf(stats).communityRanking[j].percentage
  {
    RankedPermutes(stats);
    assert |Ranked(stats)| == |multiset(Ranked(stats))|;
    RankedNonIncreasing(stats);
  }

  /** The communities of the report unit test: 14 functional water points,
      the counts in list order, and the ranking village3 (100), village2 (42),
      village1 (0). */
  lemma ReportExample(stats: seq<Stats>)
    requires stats == [Stats(Some("village1"), 10, 0), Stats(Some("village2"), 7, 3), Stats(Some("village3"), 5, 5)]
    ensures ReportOf(stats)
         == Report(14,
                   [NameCount(Some("village1"), 10), NameCount(Some("village2"), 7), NameCount(Some("village3"), 5)],
                   [NamePercentage(Some("village3"), 100), NamePercentage(Some("village2"), 42), NamePercentage(Some("village1"), 0)])
  {
    var s1, s2, s3 := stats[0], stats[1], stats[2];
    assert s1.Percentage() == 0 && s2.Percentage() == 42 && s3.Percentage() == 100 by {
      PercentageExamples();
    }
    assert SumFunctional(stats) == 14 by {
      assert stats[..2] == [s1, s2] && [s1, s2][..1] == [s1];
      assert SumFunctional([s1]) == 10;
      assert SumFunctional([s1, s2]) == 14;
    }
    RankingExample(stats);
  }

  lemma RankingExample(stats: seq<Stats>)
    requires stats == [Stats(Some("village1"), 10, 0), Stats(Some("village2"), 7, 3), Stats(Some("village3"), 5, 5)]
    ensures Ranked(stats) == [stats[2], stats[1], stats[0]]
  {
    var s1, s2, s3 := stats[0], stats[1], stats[2];
    assert s1.Percentage() == 0 && s2.Percentage() == 42 && s3.Percentage() == 100 by {
      PercentageExamples();
    }
    var w: seq<(Stats, int)> := [(s1, 0), (s2, 42), (s3, 100)];
    assert KeyedStats(stats) == w;
    assert w[..2] == [(s1, 0), (s2, 42)] && w[..2][..1] == [(s1, 0)];
    assert SortDescending([(s1, 0)]) == [(s1, 0)] by {
      assert |[(s1, 0)][..0]| == 0;
    }
    assert SortDescending([(s1, 0), (s2, 42)]) == [(s2, 42), (s1, 0)] by {
      assert Insert([(s1, 0)], (s2, 42)) == Insert([], (s2, 42)) + [(s1, 0)];
    }
    var t: seq<(Stats, int)> := [(s2, 42), (s1, 0)];
    assert Insert(t, (s3, 100)) == [(s3, 100), (s2, 42), (s1, 0)] by {
      assert t[..1] == [(s2, 42)] && |t[..1][..0]| == 0;
      assert Insert([(s2, 42)], (s3, 100)) == [(s3, 100), (s2, 42)];
    }
    assert SortDescending(w) == [(s3, 100), (s2, 42), (s1, 0)];
  }

  // ---------------------------------------------------------------------------
  // number_functional counts the working records

  /** The number of records whose status is exactly "yes". */
  function WorkingCount(rs: seq<Record>): nat
  {
    if rs == [] then 0
    else WorkingCount(rs[..|rs| - 1]) + (if IsBroken(rs[|rs| - 1]) then 0 else 1)
  }

  /** The number of places `m` occurs in `ns`. */
  function Occurrences(ns: seq<string>, m: string): nat
  {
    if ns == [] then 0
    else Occurrences(ns[..|ns| - 1], m) + (if ns[|ns| - 1] == m then 1 else 0)
  }

  /** Functional water points of the communities named in `ns`, counted over `rs`. */
  function FunctionalOver(rs: seq<Record>, ns: seq<string>): int
  {
    if ns == [] then 0
    else
      var n := ns[|ns| - 1];
      FunctionalOver(rs, ns[..|ns| - 1]) + (CountOf(rs, n) - BrokenOf(rs, n))
  }

  lemma {:induction false} SumFunctionalTallies(rs: seq<Record>, ns: seq<string>)
    ensures SumFunctional(TalliesFor(rs, ns)) == FunctionalOver(rs, ns)
  {
    if ns != [] {
      var init := ns[..|ns| - 1];
      assert TalliesFor(rs, ns)[..|ns| - 1] == TalliesFor(rs, init);
      SumFunctionalTallies(rs, init);
    }
  }

  lemma {:induction false} FunctionalOverEmpty(ns: seq<string>)
    ensures FunctionalOver([], ns) == 0
  {
    if ns != [] {
      FunctionalOverEmpty(ns[..|ns| - 1]);
    }
  }

  lemma {:induction false} FunctionalOverStep(rs: seq<Record>, r: Record, ns: seq<string>)
    requires WellFormed(r)
    ensures FunctionalOver(rs + [r], ns) ==
      FunctionalOver(rs, ns) + (if IsBroken(r) then 0 else Occurrences(ns, r.communitiesVillages.value))
  {
    if ns != [] {
      FunctionalOverStep(rs, r, ns[..|ns| - 1]);
      StepCounts(rs, r, ns[|ns| - 1]);
    }
  }

  lemma {:induction false} OccursOnce(ns: seq<string>, m: string)
    requires forall i, j :: 0 <= i < j < |ns| ==> ns[i] != ns[j]
    requires m in ns
    ensures Occurrences(ns, m) == 1
  {
    var init := ns[..|ns| - 1];
    if ns[|ns| - 1] == m {
      OccursNever(init, m);
    } else {
      assert m in init;
      OccursOnce(init, m);
    }
  }

  lemma {:induction false} OccursNever(ns: seq<string>, m: string)
    requires m !in ns
    ensures Occurrences(ns, m) == 0
  {
    if ns != [] {
      OccursNever(ns[..|ns| - 1], m);
    }
  }

  lemma {:induction false} FunctionalOverWorking(rs: seq<Record>, ns: seq<string>)
    requires AllWellFormed(rs)
    requires forall i, j :: 0 <= i < j < |ns| ==> ns[i] != ns[j]
    requires forall k :: 0 <= k < |rs| ==> rs[k].communitiesVillages.value in ns
    ensures FunctionalOver(rs, ns) == WorkingCount(rs)
  {
    if rs == [] {
      FunctionalOverEmpty(ns);
    } else {
      var init, r := rs[..|rs| - 1], rs[|rs| - 1];
      assert rs == init + [r];
      FunctionalOverWorking(init, ns);
      FunctionalOverStep(init, r, ns);
      OccursOnce(ns, r.communitiesVillages.value);
    }
  }

  /** For well-formed input, `number_functional` is the number of records
      whose status is exactly "yes". */
  lemma NumberFunctionalCountsWorking(rs: seq<Record>)
    requires AllWellFormed(rs)
    ensures ReportOf(Aggregate(rs)).numberFunctional == WorkingCount(rs)
  {
    var ns := FirstSeen(Names(rs));
    SumFunctionalTallies(rs, ns);
    FirstSeenDistinct(Names(rs));
    FirstSeenMembers(Names(rs));
    forall k | 0 <= k < |rs|
      ensures rs[k].communitiesVillages.value in ns
    {
      NameInNames(rs, k);
    }
    FunctionalOverWorking(rs, ns);
  }

  /** The report on the communities `process` builds from well-formed
      records: one count row per community in first-seen order with its
      number of records, and the functional total. */
  lemma ReportOfAggregate(rs: seq<Record>)
    requires AllWellFormed(rs)
    ensures var report, ns := ReportOf(Aggregate(rs)), FirstSeen(Names(rs));
      report.numberFunctional == WorkingCount(rs) &&
      |report.numberWaterPoints| == |ns| &&
      (forall i :: 0 <= i < |ns| ==> report.numberWaterPoints[i] == NameCount(Some(ns[i]), CountOf(rs, ns[i])))
  {
    NumberFunctionalCountsWorking(rs);
  }

  // ---------------------------------------------------------------------------
  // From the objects in the heap to their values

  /** Each community paired with its broken percentage, the key of the sort:
      `KeyedStats` over the objects of the heap rather than over their values
      (`SnapEntries` and `SortSnapshots` carry one to the other). */
  function Keyed(list: seq<Community>): (w: seq<(Community, int)>)
    reads list
    ensures |w| == |list|
  {
    seq(|list|, i requires 0 <= i < |list| reads list => (list[i], list[i].BrokenPercentage()))
  }

  /** The entries of `w` with each community replaced by its values. */
  function SnapEntries(w: seq<(Community, int)>): (v: seq<(Stats, int)>)
    reads set i | 0 <= i < |w| :: w[i].0
    ensures |v| == |w|
  {
    seq(|w|, i requires 0 <= i < |w| reads set j | 0 <= j < |w| :: w[j].0 => (w[i].0.Snapshot(), w[i].1))
  }

  lemma {:induction false} InsertSnapshots(t: seq<(Community, int)>, x: (Community, int))
    ensures SnapEntries(Insert(t, x)) == Insert(SnapEntries(t), (x.0.Snapshot(), x.1))
  {
    var sx := (x.0.Snapshot(), x.1);
    if t == [] || t[|t| - 1].1 >= x.1 {
      assert SnapEntries(t + [x]) == SnapEntries(t) + [sx];
    } else {
      var init, last := t[..|t| - 1], t[|t| - 1];
      InsertSnapshots(init, x);
      assert SnapEntries(t)[..|t| - 1] == SnapEntries(init);
      assert SnapEntries(Insert(init, x) + [last]) == SnapEntries(Insert(init, x)) + [(last.0.Snapshot(), last.1)];
    }
  }

  /** Sorting commutes with reading the communities' values. */
  lemma {:induction false} SortSnapshots(w: seq<(Community, int)>)
    ensures SnapEntries(SortDescending(w)) == SortDescending(SnapEntries(w))
  {
    if w != [] {
      var init := w[..|w| - 1];
      SortSnapshots(init);
      assert SnapEntries(w)[..|w| - 1] == SnapEntries(init);
      InsertSnapshots(SortDescending(init), w[|w| - 1]);
    }
  }

  /** A list reordered as the sort orders its keyed entries holds the same
      communities, and their values are in ranking order. */
  lemma SortedList(before: seq<Community>, after: seq<Community>)
    requires Keyed(after) == SortDescending(Keyed(before))
    ensures multiset(after) == multiset(before)
    ensures Snapshots(after) == Ranked(Snapshots(before))
  {
    assert Payloads(Keyed(after)) == after;
    assert Payloads(Keyed(before)) == before;
    SortPermutes(Keyed(before));
    SortSnapshots(Keyed(before));
    assert SnapEntries(Keyed(before)) == KeyedStats(Snapshots(before));
    assert Snapshots(after) == Payloads(SnapEntries(Keyed(after)));
  }

  // ---------------------------------------------------------------------------
  // The code

  /** `getAllFunctionalWaterpoints`: the sum of every community's functional
      water points. */
  method GetAllFunctionalWaterpoints(list: seq<Community>) returns (count: int)
    ensures count == SumFunctional(Snapshots(list))
  {
    count := 0;
    for i := 0 to |list|
      invariant count == SumFunctional(Snapshots(list[..i]))
    {
      assert Snapshots(list[..i + 1])[..i] == Snapshots(list[..i]);
      count := count + list[i].FunctionalWaterPoints();
    }
    assert list[..|list|] == list;
  }

  lemma SortKeysCurrent(w: seq<(Community, int)>)
    requires forall i :: 0 <= i < |w| ==> w[i].1 == w[i].0.BrokenPercentage()
    ensures var t := SortDescending(w);
      |t| == |w| && forall i :: 0 <= i < |t| ==> t[i].1 == t[i].0.BrokenPercentage()
  {
    var t := SortDescending(w);
    SortPermutes(w);
    forall i | 0 <= i < |t|
      ensures t[i].1 == t[i].0.BrokenPercentage()
    {
      assert t[i] in multiset(t);
      var k :| 0 <= k < |w| && w[k] == t[i];
    }
  }

  /** `Collections.sort` with the comparator of `toJson`, done as the stable
      insertion sort it is equal to: the array ends up holding its
      communities ordered by non-increasing broken percentage, equal
      percentages in their former order. The communities themselves are not
      changed. */
  method SortByBrokenPercentage(a: array<Community>)
    modifies a
    ensures Keyed(a[..]) == SortDescending(Keyed(old(a[..])))
  {
    ghost var s := Keyed(a[..]);
    for i := 0 to a.Length
      invariant forall k :: 0 <= k < |s| ==> s[k].1 == s[k].0.BrokenPercentage()
      invariant |SortDescending(s[..i])| == i
      invariant forall k :: 0 <= k < i ==> a[k] == SortDescending(s[..i])[k].0
      invariant forall k :: i <= k < a.Length ==> a[k] == s[k].0
    {
      ghost var t := SortDescending(s[..i]);
      SortKeysCurrent(s[..i]);
      InsertLast(a, i, t, s[i]);
      assert s[..i + 1][..i] == s[..i];
    }
    assert s[..a.Length] == s;
    SortKeysCurrent(s);
  }

  /** One step of the insertion sort: the community at `i` moves left past
      every community with a smaller broken percentage. */
  method InsertLast(a: array<Community>, i: int, ghost t: seq<(Community, int)>, ghost x: (Community, int))
    requires 0 <= i < a.Length && |t| == i
    requires forall k :: 0 <= k < i ==> a[k] == t[k].0 && t[k].1 == t[k].0.BrokenPercentage()
    requires a[i] == x.0 && x.1 == x.0.BrokenPercentage()
    modifies a
    ensures |Insert(t, x)| == i + 1
    ensures forall k :: 0 <= k <= i ==> a[k] == Insert(t, x)[k].0
    ensures forall k :: i < k < a.Length ==> a[k] == old(a[k])
  {
    var community := a[i];
    var key := community.BrokenPercentage();
    var j := i;
    while j > 0 && a[j - 1].BrokenPercentage() < key
      invariant 0 <= j <= i
      invariant forall k :: 0 <= k < j ==> a[k] == t[k].0
      invariant forall k :: j < k <= i ==> a[k] == t[k - 1].0
      invariant forall k :: i < k < a.Length ==> a[k] == old(a[k])
      invariant forall k :: j <= k < i ==> t[k].1 < x.1
    {
      assert a[j - 1] == t[j - 1].0 && t[j - 1].1 < x.1;
      a[j] := a[j - 1];
      assert forall k :: j <= k <= i ==> a[k] == t[k - 1].0;
      j := j - 1;
    }
    a[j] := community;
    InsertAt(t, x, j);
  }

  /** Where the insertion sort stops: after the entries whose key is at least
      that of `x`, before those it moved past. */
  lemma InsertAt<T>(t: seq<(T, int)>, x: (T, int), j: int)
    requires 0 <= j <= |t|
    requires j == 0 || t[j - 1].1 >= x.1
    requires forall k :: j <= k < |t| ==> t[k].1 < x.1
    ensures forall k :: 0 <= k < j ==> Insert(t, x)[k] == t[k]
    ensures Insert(t, x)[j] == x
    ensures forall k :: j < k <= |t| ==> Insert(t, x)[k] == t[k - 1]
  {
    InsertAtSplit(t, x, j);
  }

  lemma {:induction false} InsertAtSplit<T>(t: seq<(T, int)>, x: (T, int), j: int)
    requires 0 <= j <= |t|
    requires j == 0 || t[j - 1].1 >= x.1
    requires forall k :: j <= k < |t| ==> t[k].1 < x.1
    ensures Insert(t, x) == t[..j] + [x] + t[j..]
  {
    if j < |t| {
      var init := t[..|t| - 1];
      assert init[..j] == t[..j];
      InsertAtSplit(init, x, j);
      assert t[j..] == init[j..] + [t[|t| - 1]];
    } else {
      assert t[..j] == t;
    }
  }

  /** `toJson`: the functional total and the counts are taken from the list as
      given; then the caller's list is sorted in place and the ranking is read
      from the sorted list. */
  method ToJson(list: array<Community>) returns (report: Report)
    modifies list
    ensures report == ReportOf(old(Snapshots(list[..])))
    ensures Keyed(list[..]) == SortDescending(Keyed(old(list[..])))
    ensures multiset(list[..]) == multiset(old(list[..]))
    ensures forall k :: 0 <= k < list.Length ==> old(list[k]).Snapshot() == old(list[k].Snapshot())
  {
    ghost var before := list[..];
    ghost var values := Snapshots(before);
    var numberFunctional := GetAllFunctionalWaterpoints(list[..]);
    var waterPoints := WaterPointRows(list);
    SortByBrokenPercentage(list);
    SortedList(before, list[..]);
    assert Snapshots(list[..]) == Ranked(values);
    var ranking := RankingRows(list);
    report := Report(numberFunctional, waterPoints, ranking);
  }

  /** The loop of `toJson` that builds `number_water_points`. */
  method WaterPointRows(list: array<Community>) returns (rows: seq<NameCount>)
    ensures rows == CountsView(Snapshots(list[..]))
  {
    rows := [];
    for i := 0 to list.Length
      invariant |rows| == i
      invariant forall k :: 0 <= k < i ==> rows[k] == NameCount(list[k].name, list[k].totalWaterPoints)
    {
      rows := rows + [NameCount(list[i].name, list[i].totalWaterPoints)];
    }
  }

  /** The loop of `toJson` that builds `community_ranking` from the sorted list. */
  method RankingRows(list: array<Community>) returns (rows: seq<NamePercentage>)
    ensures rows == PercentagesView(Snapshots(list[..]))
  {
    rows := [];
    for i := 0 to list.Length
      invariant |rows| == i
      invariant forall k :: 0 <= k < i ==> rows[k] == NamePercentage(list[k].name, list[k].BrokenPercentage())
    {
      rows := rows + [NamePercentage(list[i].name, list[i].BrokenPercentage())];
    }
  }

  /** `calculate`, given what `download` produced (None for a failed, empty or
      null URL, or an unreadable document): the download error, the no-data
      error when `process` yields no community, otherwise the report. */
  method Calculate(download: Option<seq<Record>>) returns (response: Response)
    ensures download.None? ==> response == Error(DownloadFailed)
    ensures download.Some? && Aggregate(download.value) == [] ==> response == Error(NoCommunityData)
    ensures download.Some? && Aggregate(download.value) != [] ==>
      response == Json(ReportOf(Aggregate(download.value)))
  {
    if download.None? {
      return Error(DownloadFailed);
    }
    var communityList := Process(download.value);
    if |communityList| == 0 {
      return Error(NoCommunityData);
    }
    var report := ReportFor(communityList);
    return Json(report);
  }

  /** `toJson` on the list `process` returned: the list becomes an array
      holding the same references, which `toJson` sorts. The communities
      themselves are not changed, so the report is that of their values. */
  method ReportFor(communityList: seq<Community>) returns (report: Report)
    ensures report == ReportOf(Snapshots(communityList))
  {
    var list := new Community[|communityList|](i requires 0 <= i < |communityList| => communityList[i]);
    assert list[..] == communityList;
    report := ToJson(list);
  }
}
