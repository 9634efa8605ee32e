/** Grouping downloaded water-point records into communities: `process` and
    its lookup helper `getCommunity` (src/challenge/Main.java). */
module Aggregation {
  import opened Wrappers
  import opened CommunityModel

  /** One element of the downloaded array, reduced to the two properties that
      `process` reads. A property is None when it is absent or when
      `getAsString` fails on it; an element that is not a JSON object is a
      record with both properties None. */
  datatype Record = Record(waterFunctioning: Option<string>, communitiesVillages: Option<string>)

  /** The only `water_functioning` value that counts as working. */
  const Functioning: string := "yes"

  predicate WellFormed(r: Record)
  {
    r.waterFunctioning.Some? && r.communitiesVillages.Some?
  }

  predicate AllWellFormed(rs: seq<Record>)
  {
    forall i :: 0 <= i < |rs| ==> WellFormed(rs[i])
  }

  /** A record counts as broken unless its status is exactly "yes". */
  predicate IsBroken(r: Record)
  {
    r.waterFunctioning != Some(Functioning)
  }

  /** The community names the records carry, in input order. */
  function Names(rs: seq<Record>): (ns: seq<string>)
    ensures AllWellFormed(rs) ==> |ns| == |rs|
  {
    if rs == [] then []
    else
      var last := rs[|rs| - 1].communitiesVillages;
      Names(rs[..|rs| - 1]) + (if last.Some? then [last.value] else [])
  }

  /** The number of records of community `n`. */
  function CountOf(rs: seq<Record>, n: string): nat
  {
    if rs == [] then 0
    else CountOf(rs[..|rs| - 1], n) + (if rs[|rs| - 1].communitiesVillages == Some(n) then 1 else 0)
  }

  /** The number of broken records of community `n`. */
  function BrokenOf(rs: seq<Record>, n: string): nat
  {
    if rs == [] then 0
    else
      var r := rs[|rs| - 1];
      BrokenOf(rs[..|rs| - 1], n) + (if r.communitiesVillages == Some(n) && IsBroken(r) then 1 else 0)
  }

  /** The distinct names of `ns`, each at the place it first occurs. */
  function FirstSeen(ns: seq<string>): seq<string>
  {
    if ns == [] then []
    else
      var earlier := FirstSeen(ns[..|ns| - 1]);
      if ns[|ns| - 1] in earlier then earlier else earlier + [ns[|ns| - 1]]
  }

  /** The position where `n` first occurs in the names of the input; it
      states the order `process` puts the communities in. (`IndexOfName` is
      the search `getCommunity` makes, over the tallies built so far.) */
  function FirstIndex(ns: seq<string>, n: string): (k: nat)
    requires n in ns
    ensures k < |ns| && ns[k] == n && n !in ns[..k]
  {
    if n in ns[..|ns| - 1] then FirstIndex(ns[..|ns| - 1], n)
    else
      assert ns == ns[..|ns| - 1] + [ns[|ns| - 1]];
      |ns| - 1
  }

  /** One tally per name of `ns`, counted over `rs`. */
  function TalliesFor(rs: seq<Record>, ns: seq<string>): (ts: seq<Stats>)
    ensures |ts| == |ns|
  {
    seq(|ns|, i requires 0 <= i < |ns| => Stats(Some(ns[i]), CountOf(rs, ns[i]), BrokenOf(rs, ns[i])))
  }

  /** What `process` returns: one tally per community in first-seen order, or
      nothing at all when some record lacks a required property. */
  function Aggregate(rs: seq<Record>): seq<Stats>
  {
    if AllWellFormed(rs) then TalliesFor(rs, FirstSeen(Names(rs))) else []
  }

  // ---------------------------------------------------------------------------
  // Properties of the specification

  lemma {:induction false} FirstSeenMembers(ns: seq<string>)
    ensures forall n :: n in FirstSeen(ns) <==> n in ns
  {
    if ns != [] {
      FirstSeenMembers(ns[..|ns| - 1]);
      assert ns == ns[..|ns| - 1] + [ns[|ns| - 1]];
    }
  }

  lemma {:induction false} FirstSeenDistinct(ns: seq<string>)
    ensures forall i, j :: 0 <= i < j < |FirstSeen(ns)| ==> FirstSeen(ns)[i] != FirstSeen(ns)[j]
  {
    if ns != [] {
      FirstSeenDistinct(ns[..|ns| - 1]);
    }
  }

  /** Earlier entries of FirstSeen occur earlier in the input. */
  lemma {:induction false} FirstSeenOrder(ns: seq<string>)
    ensures forall i, j :: 0 <= i < j < |FirstSeen(ns)| ==>
      FirstSeen(ns)[i] in ns && FirstSeen(ns)[j] in ns &&
      FirstIndex(ns, FirstSeen(ns)[i]) < FirstIndex(ns, FirstSeen(ns)[j])
  {
    if ns != [] {
      var init, m := ns[..|ns| - 1], ns[|ns| - 1];
      FirstSeenOrder(init);
      FirstSeenMembers(init);
      FirstSeenMembers(ns);
      var fs := FirstSeen(ns);
      forall i, j | 0 <= i < j < |fs|
        ensures fs[i] in ns && fs[j] in ns && FirstIndex(ns, fs[i]) < FirstIndex(ns, fs[j])
      {
        assert fs[i] in fs && fs[j] in fs;
        var early := FirstSeen(init);
        assert fs == early || fs == early + [m];
        assert fs[i] == early[i] && fs[i] in init;
        assert FirstIndex(ns, fs[i]) == FirstIndex(init, fs[i]);
        if j < |early| {
          assert fs[j] == early[j] && fs[j] in init;
          assert FirstIndex(ns, fs[j]) == FirstIndex(init, fs[j]);
        } else {
          assert fs[j] == m && m !in init;
        }
      }
      assert forall i, j :: 0 <= i < j < |FirstSeen(ns)| ==>
        FirstSeen(ns)[i] in ns && FirstSeen(ns)[j] in ns &&
        FirstIndex(ns, FirstSeen(ns)[i]) < FirstIndex(ns, FirstSeen(ns)[j]);
    } else {
      assert FirstSeen(ns) == [];
    }
  }

  lemma {:induction false} BrokenAtMostCount(rs: seq<Record>, n: string)
    ensures BrokenOf(rs, n) <= CountOf(rs, n)
  {
    if rs != [] {
      BrokenAtMostCount(rs[..|rs| - 1], n);
    }
  }

  lemma {:induction false} CountOfNames(rs: seq<Record>, n: string)
    ensures n in Names(rs) <==> CountOf(rs, n) >= 1
  {
    if rs != [] {
      CountOfNames(rs[..|rs| - 1], n);
    }
  }

  /** Every returned community has at least one water point, no more broken
      ones than it has, and a percentage in [0, 100]. */
  lemma AggregateBounds(rs: seq<Record>)
    ensures forall i :: 0 <= i < |Aggregate(rs)| ==>
      var s := Aggregate(rs)[i];
      s.name.Some? && 1 <= s.total && 0 <= s.broken <= s.total && 0 <= s.Percentage() <= 100
  {
    if AllWellFormed(rs) {
      var fs := FirstSeen(Names(rs));
      FirstSeenMembers(Names(rs));
      forall i | 0 <= i < |fs|
        ensures var s := Aggregate(rs)[i];
          1 <= s.total && 0 <= s.broken <= s.total && 0 <= s.Percentage() <= 100
      {
        CountOfNames(rs, fs[i]);
        BrokenAtMostCount(rs, fs[i]);
        PercentageTruncates(Aggregate(rs)[i]);
      }
    }
  }

  /** For well-formed input the communities' names are pairwise distinct. */
  lemma AggregateDistinctNames(rs: seq<Record>)
    requires AllWellFormed(rs)
    ensures forall i, j :: 0 <= i < j < |Aggregate(rs)| ==> Aggregate(rs)[i].name != Aggregate(rs)[j].name
  {
    FirstSeenDistinct(Names(rs));
  }

  /** For well-formed input every record's community is in the result, and
      every name in the result comes from some record. */
  lemma AggregateNamesFromInput(rs: seq<Record>)
    requires AllWellFormed(rs)
    ensures forall k :: 0 <= k < |rs| ==>
      exists i :: 0 <= i < |Aggregate(rs)| && Aggregate(rs)[i].name == rs[k].communitiesVillages
    ensures forall i :: 0 <= i < |Aggregate(rs)| ==>
      Aggregate(rs)[i].name.Some? && Aggregate(rs)[i].name.value in Names(rs)
  {
    var ns := Names(rs);
    var fs := FirstSeen(ns);
    FirstSeenMembers(ns);
    forall k | 0 <= k < |rs|
      ensures exists i :: 0 <= i < |fs| && Aggregate(rs)[i].name == rs[k].communitiesVillages
    {
      var n := rs[k].communitiesVillages.value;
      NameInNames(rs, k);
      var i :| 0 <= i < |fs| && fs[i] == n;
      assert Aggregate(rs)[i].name == rs[k].communitiesVillages;
    }
  }

  /** For well-formed input the communities appear in the order in which
      their names first occur in the input. */
  lemma AggregateFirstSeenOrder(rs: seq<Record>)
    requires AllWellFormed(rs)
    ensures forall i :: 0 <= i < |Aggregate(rs)| ==>
      Aggregate(rs)[i].name.Some? && Aggregate(rs)[i].name.value in Names(rs)
    ensures forall i, j :: 0 <= i < j < |Aggregate(rs)| ==>
      FirstIndex(Names(rs), Aggregate(rs)[i].name.value) < FirstIndex(Names(rs), Aggregate(rs)[j].name.value)
  {
    FirstSeenMembers(Names(rs));
    forall i, j | 0 <= i < j < |Aggregate(rs)|
      ensures FirstIndex(Names(rs), Aggregate(rs)[i].name.value) < FirstIndex(Names(rs), Aggregate(rs)[j].name.value)
    {
      OrderAt(rs, i, j);
    }
  }

  lemma OrderAt(rs: seq<Record>, i: int, j: int)
    requires AllWellFormed(rs)
    requires 0 <= i < j < |Aggregate(rs)|
    ensures Aggregate(rs)[i].name.Some? && Aggregate(rs)[j].name.Some?
    ensures Aggregate(rs)[i].name.value in Names(rs) && Aggregate(rs)[j].name.value in Names(rs)
    ensures FirstIndex(Names(rs), Aggregate(rs)[i].name.value) < FirstIndex(Names(rs), Aggregate(rs)[j].name.value)
  {
    var ns := Names(rs);
    var fs := FirstSeen(ns);
    assert Aggregate(rs) == TalliesFor(rs, fs);
    assert Aggregate(rs)[i].name.value == fs[i] && Aggregate(rs)[j].name.value == fs[j];
    FirstSeenOrder(ns);
  }

  /** For well-formed input each community's total is the number of its
      records and its broken count the number of its broken records. */
  lemma AggregateCounts(rs: seq<Record>)
    requires AllWellFormed(rs)
    ensures forall i :: 0 <= i < |Aggregate(rs)| ==>
      Aggregate(rs)[i].name.Some? &&
      Aggregate(rs)[i].total == CountOf(rs, Aggregate(rs)[i].name.value) &&
      Aggregate(rs)[i].broken == BrokenOf(rs, Aggregate(rs)[i].name.value)
  {
  }

  lemma {:induction false} NameInNames(rs: seq<Record>, k: nat)
    requires k < |rs| && rs[k].communitiesVillages.Some?
    ensures rs[k].communitiesVillages.value in Names(rs)
  {
    if k < |rs| - 1 {
      NameInNames(rs[..|rs| - 1], k);
    }
  }

  /** There are no communities exactly when the input is empty or some record
      lacks a required property: the all-or-nothing rule. */
  lemma AggregateEmptyIff(rs: seq<Record>)
    ensures Aggregate(rs) == [] <==> rs == [] || !AllWellFormed(rs)
  {
    if rs != [] && AllWellFormed(rs) {
      FirstSeenMembers(Names(rs));
      assert Names(rs)[0] in FirstSeen(Names(rs));
    }
  }

  /** The records of the aggregation unit test and the communities it expects:
      village1 with 2 water points and none broken, village2 with 2 and 1,
      village3 with 1 and 1, in that order. */
  lemma AggregateExample(rs: seq<Record>)
    requires rs == [Record(Some("yes"), Some("village1")), Record(Some("yes"), Some("village2")),
                    Record(Some("no"), Some("village3")), Record(Some("yes"), Some("village1")),
                    Record(Some("no"), Some("village2"))]
    ensures Aggregate(rs) == [Stats(Some("village1"), 2, 0), Stats(Some("village2"), 2, 1), Stats(Some("village3"), 1, 1)]
  {
    var v1, v2, v3 := "village1", "village2", "village3";
    var r4, r5 := rs[3], rs[4];
    assert v1 != v2 by {
      assert v1[7] != v2[7];
    }
    assert IsBroken(r5) && !IsBroken(r4) by {
      assert "no" != Functioning by { assert |"no"| != |Functioning|; }
    }
    var p3 := rs[..3];
    ExampleThree(p3);
    var a3 := [Stats(Some(v1), 1, 0), Stats(Some(v2), 1, 0), Stats(Some(v3), 1, 1)];
    var p4 := rs[..4];
    var a4 := [Stats(Some(v1), 2, 0), Stats(Some(v2), 1, 0), Stats(Some(v3), 1, 1)];
    assert AllWellFormed(p4) && Aggregate(p4) == a4 by {
      AggregateStep(p3, r4);
      assert p3 + [r4] == p4;
      assert IndexOfName(a3, v1) == 0;
    }
    var a5 := [Stats(Some(v1), 2, 0), Stats(Some(v2), 2, 1), Stats(Some(v3), 1, 1)];
    assert Aggregate(rs) == a5 by {
      AggregateStep(p4, r5);
      assert p4 + [r5] == rs;
      assert IndexOfName(a4, v2) == 1;
      assert a4[1 := Stats(Some(v2), 2, 1)] == a5;
    }
  }

  /** The first three records of the unit test. */
  lemma ExampleThree(rs: seq<Record>)
    requires rs == [Record(Some("yes"), Some("village1")), Record(Some("yes"), Some("village2")),
                    Record(Some("no"), Some("village3"))]
    ensures AllWellFormed(rs)
    ensures Aggregate(rs) == [Stats(Some("village1"), 1, 0), Stats(Some("village2"), 1, 0), Stats(Some("village3"), 1, 1)]
  {
    var v1, v2, v3 := "village1", "village2", "village3";
    var r3 := rs[2];
    assert v1 != v3 && v2 != v3 by {
      assert v1[7] != v3[7] && v2[7] != v3[7];
    }
    assert IsBroken(r3) by {
      assert "no" != Functioning by { assert |"no"| != |Functioning|; }
    }
    var p2 := rs[..2];
    ExamplePrefix(p2);
    var a2 := [Stats(Some(v1), 1, 0), Stats(Some(v2), 1, 0)];
    AggregateStep(p2, r3);
    assert p2 + [r3] == rs;
    assert IndexOfName(a2, v3) == 2;
  }

  /** The first two records of the unit test: two working water points in two
      communities. */
  lemma ExamplePrefix(rs: seq<Record>)
    requires rs == [Record(Some("yes"), Some("village1")), Record(Some("yes"), Some("village2"))]
    ensures AllWellFormed(rs)
    ensures Aggregate(rs) == [Stats(Some("village1"), 1, 0), Stats(Some("village2"), 1, 0)]
  {
    var v1, v2 := "village1", "village2";
    var r1, r2 := rs[0], rs[1];
    assert v1 != v2 by {
      assert v1[7] != v2[7];
    }
    var p1 := rs[..1];
    var a1 := [Stats(Some(v1), 1, 0)];
    assert AllWellFormed(p1) && Aggregate(p1) == a1 by {
      AggregateStep([], r1);
      assert [] + [r1] == p1;
    }
    assert Aggregate(rs) == a1 + [Stats(Some(v2), 1, 0)] by {
      AggregateStep(p1, r2);
      assert p1 + [r2] == rs;
      assert IndexOfName(a1, v2) == 1;
    }
  }

  // ---------------------------------------------------------------------------
  // One step of the aggregation loop

  lemma StepNames(rs: seq<Record>, r: Record)
    ensures Names(rs + [r]) == Names(rs) + (if r.communitiesVillages.Some? then [r.communitiesVillages.value] else [])
  {
    assert (rs + [r])[..|rs|] == rs;
  }

  lemma StepCounts(rs: seq<Record>, r: Record, n: string)
    ensures CountOf(rs + [r], n) == CountOf(rs, n) + (if r.communitiesVillages == Some(n) then 1 else 0)
    ensures BrokenOf(rs + [r], n) == BrokenOf(rs, n) + (if r.communitiesVillages == Some(n) && IsBroken(r) then 1 else 0)
  {
    assert (rs + [r])[..|rs|] == rs;
  }

  lemma StepFirstSeen(ns: seq<string>, m: string)
    ensures FirstSeen(ns + [m]) == if m in FirstSeen(ns) then FirstSeen(ns) else FirstSeen(ns) + [m]
  {
    assert (ns + [m])[..|ns|] == ns;
  }

  lemma StepWellFormed(rs: seq<Record>, r: Record)
    requires AllWellFormed(rs) && WellFormed(r)
    ensures AllWellFormed(rs + [r])
  {
    assert forall i :: 0 <= i < |rs| ==> (rs + [r])[i] == rs[i];
  }

  /** A record of a community already seen adds one to its total, and one to
      its broken count when broken; nothing else changes. */
  lemma StepSeen(rs: seq<Record>, r: Record, i0: nat)
    requires AllWellFormed(rs) && WellFormed(r)
    requires i0 < |Aggregate(rs)| && Aggregate(rs)[i0].name == r.communitiesVillages
    ensures AllWellFormed(rs + [r])
    ensures Aggregate(rs + [r]) == Aggregate(rs)[i0 := Stats(r.communitiesVillages,
      Aggregate(rs)[i0].total + 1, Aggregate(rs)[i0].broken + if IsBroken(r) then 1 else 0)]
  {
    var m := r.communitiesVillages.value;
    var rs' := rs + [r];
    StepWellFormed(rs, r);
    var ns := Names(rs);
    var fs := FirstSeen(ns);
    var a := Aggregate(rs);
    assert a == TalliesFor(rs, fs);
    assert fs[i0] == m;
    assert FirstSeen(Names(rs')) == fs by {
      StepNames(rs, r);
      StepFirstSeen(ns, m);
    }
    var b := Aggregate(rs');
    assert b == TalliesFor(rs', fs);
    var c := a[i0 := Stats(r.communitiesVillages, a[i0].total + 1, a[i0].broken + if IsBroken(r) then 1 else 0)];
    forall i | 0 <= i < |fs|
      ensures b[i] == c[i]
    {
      StepCounts(rs, r, fs[i]);
      if i != i0 {
        assert fs[i] != m by {
          FirstSeenDistinct(ns);
        }
      }
    }
  }

  /** A record of a new community appends a tally of one water point. */
  lemma StepNew(rs: seq<Record>, r: Record)
    requires AllWellFormed(rs) && WellFormed(r)
    requires forall i :: 0 <= i < |Aggregate(rs)| ==> Aggregate(rs)[i].name != r.communitiesVillages
    ensures AllWellFormed(rs + [r])
    ensures Aggregate(rs + [r]) == Aggregate(rs) + [Stats(r.communitiesVillages, 1, if IsBroken(r) then 1 else 0)]
  {
    var m := r.communitiesVillages.value;
    var rs' := rs + [r];
    StepWellFormed(rs, r);
    var ns := Names(rs);
    var fs := FirstSeen(ns);
    var a := Aggregate(rs);
    assert a == TalliesFor(rs, fs);
    assert m !in ns by {
      forall i | 0 <= i < |fs|
        ensures fs[i] != m
      {
        assert a[i].name == Some(fs[i]);
      }
      FirstSeenMembers(ns);
    }
    assert FirstSeen(Names(rs')) == fs + [m] by {
      StepNames(rs, r);
      StepFirstSeen(ns, m);
      FirstSeenMembers(ns);
    }
    var b := Aggregate(rs');
    assert b == TalliesFor(rs', fs + [m]);
    var c := a + [Stats(r.communitiesVillages, 1, if IsBroken(r) then 1 else 0)];
    forall i | 0 <= i <= |fs|
      ensures b[i] == c[i]
    {
      if i < |fs| {
        assert (fs + [m])[i] == fs[i];
        StepCounts(rs, r, fs[i]);
      } else {
        assert (fs + [m])[i] == m;
        StepCounts(rs, r, m);
        CountOfNames(rs, m);
        BrokenAtMostCount(rs, m);
      }
    }
  }

  /** The position of the first tally named `name`, or |stats| when none is:
      where `getCommunity` finds the community, or that it finds none. */
  function IndexOfName(stats: seq<Stats>, name: string): (k: nat)
    ensures k <= |stats|
    ensures k < |stats| ==> stats[k].name == Some(name)
    ensures forall j :: 0 <= j < k ==> stats[j].name != Some(name)
  {
    if stats == [] then 0
    else if stats[0].name == Some(name) then 0
    else 1 + IndexOfName(stats[1..], name)
  }

  /** One record of community `name` counted into `stats`: the first tally of
      that name gains a water point (and a broken one when `broken`), or a new
      tally of one water point is appended. */
  function Tallied(stats: seq<Stats>, name: string, broken: bool): seq<Stats>
  {
    var k := IndexOfName(stats, name);
    var b := if broken then 1 else 0;
    if k < |stats| then stats[k := Stats(Some(name), stats[k].total + 1, stats[k].broken + b)]
    else stats + [Stats(Some(name), 1, b)]
  }

  /** The aggregate of a longer input is the aggregate of the shorter one with
      the last record counted in. */
  lemma AggregateStep(rs: seq<Record>, r: Record)
    requires AllWellFormed(rs) && WellFormed(r)
    ensures AllWellFormed(rs + [r])
    ensures Aggregate(rs + [r]) == Tallied(Aggregate(rs), r.communitiesVillages.value, IsBroken(r))
  {
    var agg := Aggregate(rs);
    var name := r.communitiesVillages.value;
    var k := IndexOfName(agg, name);
    if k < |agg| {
      StepSeen(rs, r, k);
    } else {
      StepNew(rs, r);
    }
  }

  // ---------------------------------------------------------------------------
  // The code

  /** `getCommunity`: the first community of `list` named `name`, or null when
      there is none or the name is null. Every community in the list must
      have a name, since the comparison dereferences it. */
  method GetCommunity(list: seq<Community>, name: Option<string>) returns (c: Community?)
    requires forall i :: 0 <= i < |list| ==> list[i].name.Some?
    ensures c == null <==> name.None? || forall i :: 0 <= i < |list| ==> list[i].name != name
    ensures c != null ==> exists i :: 0 <= i < |list| && list[i] == c && c.name == name &&
                                     forall j :: 0 <= j < i ==> list[j].name != name
  {
    if name.None? {
      return null;
    }
    var k := 0;
    while k < |list|
      invariant 0 <= k <= |list|
      invariant forall j :: 0 <= j < k ==> list[j].name != name
    {
      if list[k].name.value == name.value {
        return list[k];
      }
      k := k + 1;
    }
    return null;
  }

  /** The first part of the loop body of `process`: the community of that
      name from the list, or a fresh one carrying the name and no water
      points, together with whether it is new. */
  method FindOrCreate(list: seq<Community>, name: string) returns (community: Community, isNew: bool)
    requires forall i :: 0 <= i < |list| ==> list[i].name.Some?
    ensures var k := IndexOfName(Snapshots(list), name);
      (isNew <==> k == |list|) && (!isNew ==> list[k] == community)
    ensures isNew ==> fresh(community) && community.Snapshot() == Stats(Some(name), 0, 0)
  {
    ghost var before := Snapshots(list);
    var found := GetCommunity(list, Some(name));
    ghost var k := IndexOfName(before, name);
    if found == null {
      isNew := true;
      community := new Community();
      community.SetName(Some(name));
      assert forall j :: 0 <= j < |list| ==> before[j].name == list[j].name;
    } else {
      isNew := false;
      community := found;
      var i :| 0 <= i < |list| && list[i] == community && community.name == Some(name) &&
               forall j :: 0 <= j < i ==> list[j].name != Some(name);
      assert forall j :: 0 <= j < |list| ==> before[j] == list[j].Snapshot();
      assert i == k;
    }
  }

  /** Counting one record into the list (the body of the loop in `process`):
      look the name up, create and name a new community when it is missing,
      add one to its total, one to its broken count unless the record is
      functioning, and append it when it is new. */
  method CountRecord(list: seq<Community>, name: string, functioning: bool) returns (updated: seq<Community>)
    requires forall i, j :: 0 <= i < j < |list| ==> list[i] != list[j]
    requires forall i :: 0 <= i < |list| ==> list[i].name.Some?
    modifies list
    ensures Snapshots(updated) == Tallied(old(Snapshots(list)), name, !functioning)
    ensures forall i, j :: 0 <= i < j < |updated| ==> updated[i] != updated[j]
    ensures forall i :: 0 <= i < |updated| ==> updated[i] in list || fresh(updated[i])
  {
    ghost var before := Snapshots(list);
    var community, isNew := FindOrCreate(list, name);
    ghost var k := IndexOfName(before, name);
    community.SetTotalWaterPoints(community.totalWaterPoints + 1);
    if !functioning {
      community.SetBrokenWaterPoints(community.brokenWaterPoints + 1);
    }
    if isNew {
      updated := list + [community];
    } else {
      updated := list;
    }
    ghost var after := Tallied(before, name, !functioning);
    TalliedShape(before, name, !functioning);
    assert Snapshots(updated)[k] == after[k];
    forall i | 0 <= i < |list| && i != k
      ensures Snapshots(updated)[i] == after[i]
    {
      assert list[i] != community;
    }
    assert Snapshots(updated) == after;
  }

  /** `Tallied` changes the tally at the first index of `name` (or appends one
      there) and keeps every other tally. */
  lemma TalliedShape(stats: seq<Stats>, name: string, broken: bool)
    ensures var k, t := IndexOfName(stats, name), Tallied(stats, name, broken);
      |t| == (if k < |stats| then |stats| else |stats| + 1) &&
      (forall i :: 0 <= i < |stats| && i != k ==> t[i] == stats[i]) &&
      t[k] == Stats(Some(name), (if k < |stats| then stats[k].total else 0) + 1,
                    (if k < |stats| then stats[k].broken else 0) + (if broken then 1 else 0))
  {
  }

  /** What `CountRecord` leaves is the aggregate of one more record. */
  lemma CountedStep(rs: seq<Record>, r: Record, before: seq<Stats>, after: seq<Stats>, functioning: bool)
    requires AllWellFormed(rs) && WellFormed(r) && before == Aggregate(rs)
    requires functioning == (r.waterFunctioning.value == Functioning)
    requires after == Tallied(before, r.communitiesVillages.value, !functioning)
    ensures AllWellFormed(rs + [r]) && after == Aggregate(rs + [r])
  {
    AggregateStep(rs, r);
  }

  /** One pass of the loop in `process` for a record that has both
      properties: it is functioning exactly when its status is "yes", and the
      list then holds the tallies of the records so far plus this one. */
  method ProcessRecord(list: seq<Community>, ghost done: seq<Record>, r: Record) returns (updated: seq<Community>)
    requires AllWellFormed(done) && WellFormed(r)
    requires Snapshots(list) == Aggregate(done)
    requires forall i, j :: 0 <= i < j < |list| ==> list[i] != list[j]
    modifies list
    ensures AllWellFormed(done + [r]) && Snapshots(updated) == Aggregate(done + [r])
    ensures forall i, j :: 0 <= i < j < |updated| ==> updated[i] != updated[j]
    ensures forall i :: 0 <= i < |updated| ==> updated[i] in list || fresh(updated[i])
  {
    var functioning := r.waterFunctioning.value == Functioning;
    assert forall i :: 0 <= i < |list| ==> list[i].name.Some? by {
      AggregateBounds(done);
      assert forall i :: 0 <= i < |list| ==> list[i].Snapshot() == Snapshots(list)[i];
    }
    ghost var before := Snapshots(list);
    updated := CountRecord(list, r.communitiesVillages.value, functioning);
    CountedStep(done, r, before, Snapshots(updated), functioning);
  }

  /** `process`: one fresh Community per distinct name, in first-seen order,
      counting every record and every broken record; the empty list as soon
      as some record lacks `water_functioning` or `communities_villages`. */
  method Process(records: seq<Record>) returns (list: seq<Community>)
    ensures Snapshots(list) == Aggregate(records)
    ensures forall i, j :: 0 <= i < j < |list| ==> list[i] != list[j]
    ensures forall i :: 0 <= i < |list| ==> fresh(list[i])
  {
    list := [];
    var k := 0;
    while k < |records|
      invariant 0 <= k <= |records|
      invariant AllWellFormed(records[..k])
      invariant Snapshots(list) == Aggregate(records[..k])
      invariant forall i, j :: 0 <= i < j < |list| ==> list[i] != list[j]
      invariant forall i :: 0 <= i < |list| ==> fresh(list[i])
    {
      var r := records[k];
      if r.waterFunctioning.None? || r.communitiesVillages.None? {
        assert !WellFormed(records[k]);
        return [];
      }
      list := ProcessRecord(list, records[..k], r);
      assert records[..k + 1] == records[..k] + [r];
      k := k + 1;
    }
    assert records[..k] == records;
  }

  /** The values held by each community of `list`, in order. */
  function Snapshots(list: seq<Community>): (ss: seq<Stats>)
    reads list
    ensures |ss| == |list|
  {
    seq(|list|, i requires 0 <= i < |list| reads list => list[i].Snapshot())
  }
}
