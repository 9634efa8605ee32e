/** One community's water-point tally: its value view `Stats` and the mutable
    record `Community` whose setters the aggregation calls. */
module CommunityModel {
  import opened Wrappers

  /** Bounds of a Java `int`. */
  const IntMin: int := -0x8000_0000
  const IntMax: int := 0x7fff_ffff

  /** The exact quotient truncated toward zero, which is what `intValue`
      gives on the double quotient of `getBrokenPercentage` (the double
      rounding is exact for int operands). Dafny's own `/` is Euclidean. */
  function TruncDiv(a: int, b: int): int
    requires b != 0
  {
    var q := Abs(a) / Abs(b);
    if (a >= 0) == (b > 0) then q else -q
  }

  function Abs(x: int): nat
  {
    if x < 0 then -x else x
  }

  /** `TruncDiv` rounds toward zero: its magnitude is the largest whose
      multiple of |b| does not exceed |a|. */
  lemma TruncDivMagnitude(a: int, b: int)
    requires b != 0
    ensures Abs(TruncDiv(a, b)) * Abs(b) <= Abs(a) < (Abs(TruncDiv(a, b)) + 1) * Abs(b)
  {
    var q, y := Abs(TruncDiv(a, b)), Abs(b);
    AbsTruncDiv(a, b);
    DivBounds(Abs(a), y);
    assert q * y <= Abs(a) < (q + 1) * y;
  }

  lemma AbsTruncDiv(a: int, b: int)
    requires b != 0
    ensures Abs(TruncDiv(a, b)) == Abs(a) / Abs(b)
  {
    DivSign(Abs(a), Abs(b));
  }

  /** A non-zero `TruncDiv` has the sign of a / b. */
  lemma TruncDivSign(a: int, b: int)
    requires b != 0
    ensures TruncDiv(a, b) > 0 ==> (a > 0) == (b > 0)
    ensures TruncDiv(a, b) < 0 ==> (a > 0) != (b > 0)
  {
    var q := Abs(a) / Abs(b);
    DivSign(Abs(a), Abs(b));
    assert TruncDiv(a, b) == if (a >= 0) == (b > 0) then q else -q;
  }

  lemma DivSign(x: nat, y: nat)
    requires y > 0
    ensures x / y >= 0
    ensures x / y > 0 ==> x >= y
  {
    var q, m := x / y, x % y;
    assert x == q * y + m && 0 <= m < y;
    if q < 0 {
      MulMonotone(q, -1, y);
      assert false;
    }
    if q > 0 {
      MulMonotone(1, q, y);
    }
  }

  lemma DivBounds(x: nat, y: nat)
    requires y > 0
    ensures (x / y) * y <= x < (x / y + 1) * y
  {
    var q, m := x / y, x % y;
    assert x == q * y + m;
    assert (q + 1) * y == q * y + y;
  }

  /** `Double.intValue` on a double whose integer part is `x`: values outside
      the `int` range saturate at its bounds. */
  function Saturate(x: int): int
  {
    if x < IntMin then IntMin else if x > IntMax then IntMax else x
  }

  /** The values a community record holds: its name (null in Java until set),
      its total and its broken water-point counts. */
  datatype Stats = Stats(name: Option<string>, total: int, broken: int)
  {
    /** `getBrokenPercentage`: 0 when nothing is broken, otherwise
        `broken * 100.0 / total` converted with `intValue`. A zero total makes
        that quotient an infinity, which `intValue` saturates. */
    function Percentage(): (r: int)
      ensures IntMin <= r <= IntMax
      ensures broken == 0 ==> r == 0
      ensures broken != 0 && total == 0 ==> r == (if broken > 0 then IntMax else IntMin)
      ensures broken != 0 && total != 0 ==> r == Saturate(TruncDiv(broken * 100, total))
    {
      if broken == 0 then 0
      else if total == 0 then (if broken > 0 then IntMax else IntMin)
      else Saturate(TruncDiv(broken * 100, total))
    }

    /** `getFunctionalWaterPoints`: the water points that are not broken. */
    function Functional(): (r: int)
      ensures 0 <= broken <= total ==> 0 <= r <= total
      ensures r + broken == total
    {
      total - broken
    }
  }

  /** With nothing broken the percentage is exactly 0, whatever the total,
      including a total of 0. */
  lemma PercentageOfNothingBroken(s: Stats)
    requires s.broken == 0
    ensures s.Percentage() == 0
  {
  }

  /** For a consistent tally with at least one water point, the percentage is
      the truncated (not rounded) quotient of broken * 100 by total, and lies
      in [0, 100]. */
  lemma PercentageTruncates(s: Stats)
    requires 0 <= s.broken <= s.total && 0 < s.total
    ensures s.Percentage() == s.broken * 100 / s.total
    ensures 0 <= s.Percentage() <= 100
    ensures s.Percentage() * s.total <= s.broken * 100 < (s.Percentage() + 1) * s.total
  {
    var a, t := s.broken * 100, s.total;
    var q := a / t;
    assert a == q * t + a % t && 0 <= a % t < t;
    if q > 100 {
      MulMonotone(101, q, t);
      assert false;
    }
    if q < 0 {
      MulMonotone(q, -1, t);
      assert false;
    }
    assert TruncDiv(a, t) == q;
    assert (q + 1) * t == q * t + t;
  }

  lemma MulMonotone(x: int, y: int, t: int)
    requires x <= y && 0 < t
    ensures x * t <= y * t
  {
    assert y * t - x * t == (y - x) * t;
  }

  /** The percentages the unit tests expect: 3 of 7 gives 42, 1 of 2 gives 50,
      5 of 5 gives 100 and 0 of 10 gives 0. */
  lemma PercentageExamples()
    ensures Stats(None, 7, 3).Percentage() == 42
    ensures Stats(None, 2, 1).Percentage() == 50
    ensures Stats(None, 5, 5).Percentage() == 100
    ensures Stats(None, 10, 0).Percentage() == 0
  {
  }

  /** The mutable record of one community. The Java getters are plain reads
      of these fields. */
  class Community {
    var name: Option<string>
    var totalWaterPoints: int
    var brokenWaterPoints: int

    /** A fresh community has no name and both counts at 0. */
    constructor ()
      ensures name == None && totalWaterPoints == 0 && brokenWaterPoints == 0
    {
      name := None;
      totalWaterPoints := 0;
      brokenWaterPoints := 0;
    }

    method SetName(name: Option<string>)
      modifies this
      ensures this.name == name
      ensures totalWaterPoints == old(totalWaterPoints)
      ensures brokenWaterPoints == old(brokenWaterPoints)
    {
      this.name := name;
    }

    method SetTotalWaterPoints(totalWaterPoints: int)
      modifies this
      ensures this.totalWaterPoints == totalWaterPoints
      ensures name == old(name)
      ensures brokenWaterPoints == old(brokenWaterPoints)
    {
      this.totalWaterPoints := totalWaterPoints;
    }

    method SetBrokenWaterPoints(brokenWaterPoints: int)
      modifies this
      ensures this.brokenWaterPoints == brokenWaterPoints
      ensures name == old(name)
      ensures totalWaterPoints == old(totalWaterPoints)
    {
      this.brokenWaterPoints := brokenWaterPoints;
    }

    /** The current values of the three fields. */
    function Snapshot(): Stats
      reads this
    {
      Stats(name, totalWaterPoints, brokenWaterPoints)
    }

    /** `getBrokenPercentage` on the current fields: the percentage their
        values give (`BrokenPercentageCases` spells it out for the object). */
    function BrokenPercentage(): (r: int)
      reads this
      ensures r == Snapshot().Percentage()
    {
      Snapshot().Percentage()
    }

    /** `getFunctionalWaterPoints` on the current fields. */
    function FunctionalWaterPoints(): (r: int)
      reads this
      ensures r + brokenWaterPoints == totalWaterPoints
      ensures 0 <= brokenWaterPoints <= totalWaterPoints ==> 0 <= r <= totalWaterPoints
    {
      Snapshot().Functional()
    }

    /** `equals(Object)`: true only for another Community when both names are
        non-null and equal; so a named community equals itself. */
    predicate Equals(obj: object?): (r: bool)
      reads this, obj
      ensures r <==> obj is Community && name.Some? && (obj as Community).name == name
      ensures obj == this ==> (r <==> name.Some?)
    {
      obj is Community && name.Some? && (obj as Community).name.Some?
      && name.value == (obj as Community).name.value
    }
  }

  /** The percentage a community reports: 0 with nothing broken, the
      saturated bound for a zero total, and a value in [0, 100] for a
      consistent tally. */
  lemma BrokenPercentageCases(c: Community)
    ensures c.brokenWaterPoints == 0 ==> c.BrokenPercentage() == 0
    ensures c.brokenWaterPoints != 0 && c.totalWaterPoints == 0 ==>
      c.BrokenPercentage() == (if c.brokenWaterPoints > 0 then IntMax else IntMin)
    ensures 0 <= c.brokenWaterPoints <= c.totalWaterPoints && 0 < c.totalWaterPoints ==>
      0 <= c.BrokenPercentage() <= 100
  {
    if 0 <= c.brokenWaterPoints <= c.totalWaterPoints && 0 < c.totalWaterPoints {
      PercentageTruncates(c.Snapshot());
    }
  }

  lemma EqualsSymmetric(c: Community, d: Community)
    ensures c.Equals(d) == d.Equals(c)
  {
  }

  lemma EqualsTransitive(c: Community, d: Community, e: Community)
    requires c.Equals(d) && d.Equals(e)
    ensures c.Equals(e)
  {
  }

  /** A community whose name is null is not even equal to itself. */
  lemma EqualsIrreflexiveWithoutName(c: Community)
    requires c.name.None?
    ensures !c.Equals(c)
  {
  }
}
