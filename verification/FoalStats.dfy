/**
 The grade and stats of a foal (src/server/ranch/Genetics.cpp) and the grade read back from its stats
 (src/libserver/registry/HorseRegistry.cpp). Random draws are parameters.
 */
module FoalStats {
  import opened Arithmetic

  const MAX_STAT: nat := 100

  // ---------------------------------------------------------------------------------------------
  // Base stats.

  function Clamp(x: int, low: int, high: int): int {
    if x < low then low else if x > high then high else x
  }

  /** What a draw may be: a small bonus for very weak parents, otherwise an offset either way. */
  predicate IsDraw(average: nat, draw: int) {
    if average <= 2 then 0 <= draw <= 3 else -3 <= draw <= 3
  }

  function BaseStat(mare: nat, stallion: nat, draw: int): (stat: nat)
    requires IsDraw((mare + stallion) / 2, draw)
    ensures stat <= MAX_STAT
    ensures mare <= MAX_STAT && stallion <= MAX_STAT ==>
      (mare - 3 <= stat || stallion - 3 <= stat) && (stat <= mare + 3 || stat <= stallion + 3)
  {
    Clamp((mare + stallion) / 2 + draw, 0, MAX_STAT)
  }

  /** The stat is the mean of the parents, cut off, plus the draw, and at most 100: it does not depend on which
      parent is which, and twice the stat is at most 6 above and 7 below the sum of the parents. */
  lemma BaseStatIsMean(mare: nat, stallion: nat, draw: int)
    requires mare <= MAX_STAT && stallion <= MAX_STAT && IsDraw((mare + stallion) / 2, draw)
    ensures IsDraw((stallion + mare) / 2, draw) && BaseStat(mare, stallion, draw) == BaseStat(stallion, mare, draw)
    ensures
      var stat, sum := BaseStat(mare, stallion, draw), mare + stallion;
      && sum - 7 <= 2 * stat <= sum + 6
      && (2 * stat - 2 * draw == sum || 2 * stat - 2 * draw == sum - 1
          || (stat == 100 && 2 * draw + sum > 200))
  {
  }

  predicate AreDraws(mare: seq<nat>, stallion: seq<nat>, draws: seq<int>) {
    && |mare| == |stallion| == |draws|
    && forall i | 0 <= i < |draws| :: IsDraw((mare[i] + stallion[i]) / 2, draws[i])
  }

  function BaseStats(mare: seq<nat>, stallion: seq<nat>, draws: seq<int>): (r: seq<nat>)
    requires AreDraws(mare, stallion, draws)
    ensures |r| == |draws|
  {
    seq(|draws|, i requires 0 <= i < |draws| => BaseStat(mare[i], stallion[i], draws[i]))
  }

  function Sum(stats: seq<nat>): nat {
    if stats == [] then 0 else Sum(stats[..|stats| - 1]) + stats[|stats| - 1]
  }

  // ---------------------------------------------------------------------------------------------
  // Scaling.

  /** The product of a stat and the scale `target / current`, cut off to an integer. In binary floating
      point a product that is exactly an integer may come out just below it: that is a slip. */
  function ScaledStat(stat: nat, target: nat, current: nat, slip: bool): nat
    requires current > 0
  {
    var q := stat * target / current;
    if slip && q > 0 && q * current == stat * target then q - 1 else q
  }

  function Scaled(stats: seq<nat>, target: nat, current: nat, slips: seq<bool>): (r: seq<nat>)
    requires current > 0 && |slips| == |stats|
    ensures |r| == |stats|
    ensures forall i | 0 <= i < |r| :: r[i] == ScaledStat(stats[i], target, current, slips[i])
  {
    seq(|stats|, i requires 0 <= i < |stats| => ScaledStat(stats[i], target, current, slips[i]))
  }

  /** The index of the first of the largest stats. */
  function LargestIndex(stats: seq<nat>): (r: nat)
    requires stats != []
    ensures r < |stats|
    ensures forall i | 0 <= i < |stats| :: stats[i] <= stats[r]
    ensures forall i | 0 <= i < r :: stats[i] < stats[r]
  {
    if |stats| == 1 then 0
    else
      var r := LargestIndex(stats[..|stats| - 1]);
      if stats[|stats| - 1] > stats[r] then |stats| - 1 else r
  }

  /** The rounding remainder goes into the largest stat. */
  function Absorbed(stats: seq<nat>, target: nat): seq<nat>
    requires stats != [] && Sum(stats) <= target
  {
    var i := LargestIndex(stats);
    stats[i := stats[i] + (target - Sum(stats))]
  }

  function Capped(stats: seq<nat>): seq<nat> {
    seq(|stats|, i requires 0 <= i < |stats| => if stats[i] <= MAX_STAT then stats[i] else MAX_STAT)
  }

  /** The stats once scaled and topped up, before the cap. */
  function Fitted(base: seq<nat>, target: nat, slips: seq<bool>): (r: seq<nat>)
    requires base != [] && |slips| == |base| && Sum(base) > 0
    ensures |r| == |base|
  {
    ScalingRemainder(base, target, slips);
    Absorbed(Scaled(base, target, Sum(base), slips), target)
  }

  function FoalStats(base: seq<nat>, target: nat, slips: seq<bool>): (r: seq<nat>)
    requires base != [] && |slips| == |base|
    ensures |r| == |base|
  {
    if Sum(base) == target || Sum(base) == 0 then base else Capped(Fitted(base, target, slips))
  }

  function FoalOf(mare: seq<nat>, stallion: seq<nat>, target: nat, draws: seq<int>, slips: seq<bool>): seq<nat>
    requires AreDraws(mare, stallion, draws) && draws != [] && |slips| == |draws|
  {
    FoalStats(BaseStats(mare, stallion, draws), target, slips)
  }

  /** Exchanging the parents gives the same foal. */
  lemma ParentsAreInterchangeable(
    mare: seq<nat>, stallion: seq<nat>, target: nat, draws: seq<int>, slips: seq<bool>)
    requires AreDraws(mare, stallion, draws) && draws != [] && |slips| == |draws|
    ensures AreDraws(stallion, mare, draws)
    ensures FoalOf(mare, stallion, target, draws, slips) == FoalOf(stallion, mare, target, draws, slips)
  {
    assert BaseStats(mare, stallion, draws) == BaseStats(stallion, mare, draws);
  }

  // ---------------------------------------------------------------------------------------------
  // The remainder.

  lemma ScaledStatBounds(stat: nat, target: nat, current: nat, slip: bool)
    requires current > 0
    ensures
      var r := ScaledStat(stat, target, current, slip);
      && r * current <= stat * target <= r * current + current
      && (!slip ==> stat * target < r * current + current)
      && (slip && r > 0 ==> r * current < stat * target)
  {
    var q := stat * target / current;
    assert q * current <= stat * target < q * current + current;
    assert (q - 1) * current == q * current - current;
  }

  lemma {:induction false} ScaledSumBounds(stats: seq<nat>, target: nat, current: nat, slips: seq<bool>)
    requires current > 0 && |slips| == |stats|
    ensures
      var total := Sum(Scaled(stats, target, current, slips));
      && total * current <= Sum(stats) * target <= (total + |stats|) * current
      && (stats != [] && (forall i | 0 <= i < |slips| :: !slips[i]) ==>
            Sum(stats) * target < (total + |stats|) * current)
  {
    if stats != [] {
      var n := |stats| - 1;
      var scaled := Scaled(stats, target, current, slips);
      assert scaled[..n] == Scaled(stats[..n], target, current, slips[..n]);
      ScaledSumBounds(stats[..n], target, current, slips[..n]);
      ScaledStatBounds(stats[n], target, current, slips[n]);
      Distribute(Sum(scaled[..n]), scaled[n], current);
      Distribute(Sum(stats[..n]), stats[n], target);
      Distribute(Sum(scaled[..n]) + n, scaled[n] + 1, current);
      Distribute(scaled[n], 1, current);
    }
  }

  lemma Cancel(a: int, b: int, c: nat)
    requires c > 0
    ensures a * c <= b * c ==> a <= b
    ensures a * c < b * c ==> a < b
  {
    Distribute(b, a - b, c);
    AtLeastOnce(a - b, c);
    Distribute(a, b - a, c);
    AtLeastOnce(b - a, c);
  }

  lemma AtLeastOnce(n: int, c: nat)
    requires c > 0
    ensures n >= 1 ==> n * c >= c
    ensures n == 0 ==> n * c == 0
  {
  }

  /** What the truncations lose is between nothing and one per stat, and less than one per stat if no
      floating-point product slips: between 0 and 4 for the five stats. */
  lemma ScalingRemainder(base: seq<nat>, target: nat, slips: seq<bool>)
    requires base != [] && |slips| == |base| && Sum(base) > 0
    ensures
      var total := Sum(Scaled(base, target, Sum(base), slips));
      && 0 <= target - total <= |base|
      && ((forall i | 0 <= i < |slips| :: !slips[i]) ==> target - total < |base|)
  {
    var current := Sum(base);
    var total := Sum(Scaled(base, target, current, slips));
    ScaledSumBounds(base, target, current, slips);
    assert current * target == target * current;
    Cancel(total, target, current);
    Cancel(target, total + |base|, current);
  }

  lemma {:induction false} SumOfUpdate(stats: seq<nat>, i: nat, x: nat)
    requires i < |stats|
    ensures Sum(stats[i := x]) == Sum(stats) - stats[i] + x
  {
    var n := |stats| - 1;
    if i < n {
      assert stats[i := x][..n] == stats[..n][i := x];
      SumOfUpdate(stats[..n], i, x);
    } else {
      assert stats[i := x][..n] == stats[..n];
    }
  }

  lemma {:induction false} PartOfSum(stats: seq<nat>, i: nat)
    requires i < |stats|
    ensures stats[i] <= Sum(stats)
  {
    if i < |stats| - 1 {
      PartOfSum(stats[..|stats| - 1], i);
    }
  }

  lemma {:induction false} CappedSum(stats: seq<nat>)
    ensures Sum(Capped(stats)) <= Sum(stats)
    ensures Sum(Capped(stats)) == Sum(stats) <==> forall i | 0 <= i < |stats| :: stats[i] <= MAX_STAT
  {
    if stats != [] {
      var n := |stats| - 1;
      assert Capped(stats)[..n] == Capped(stats[..n]);
      CappedSum(stats[..n]);
      assert (forall i | 0 <= i < |stats| :: stats[i] <= MAX_STAT) <==>
        (forall i | 0 <= i < n :: stats[..n][i] <= MAX_STAT) && stats[n] <= MAX_STAT;
    }
  }

  lemma AbsorbedSum(stats: seq<nat>, target: nat)
    requires stats != [] && Sum(stats) <= target
    ensures Sum(Absorbed(stats, target)) == target
  {
    var i := LargestIndex(stats);
    SumOfUpdate(stats, i, stats[i] + (target - Sum(stats)));
  }

  /** Stat by stat: each base stat is scaled by the drawn total over the sum of the base stats and cut off, one lower
      at most where a product slips; the first of the largest gets what is missing; and then each is capped. */
  lemma FoalStatsAre(base: seq<nat>, target: nat, slips: seq<bool>) returns (scaled: seq<nat>, largest: nat)
    requires base != [] && |slips| == |base| && Sum(base) > 0 && Sum(base) != target
    ensures |scaled| == |base| && largest < |base| && Sum(scaled) <= target
    ensures forall i | 0 <= i < |base| ::
      && scaled[i] * Sum(base) <= base[i] * target <= scaled[i] * Sum(base) + Sum(base)
      && (!slips[i] ==> base[i] * target < scaled[i] * Sum(base) + Sum(base))
      && (slips[i] && scaled[i] > 0 ==> scaled[i] * Sum(base) < base[i] * target)
    ensures forall i | 0 <= i < |base| :: scaled[i] <= scaled[largest] && (i < largest ==> scaled[i] < scaled[largest])
    ensures forall i | 0 <= i < |base| ::
      FoalStats(base, target, slips)[i] ==
      Min(if i == largest then scaled[i] + (target - Sum(scaled)) else scaled[i], 100)
  {
    scaled := Scaled(base, target, Sum(base), slips);
    largest := LargestIndex(scaled);
    ScalingRemainder(base, target, slips);
    forall i | 0 <= i < |base|
      ensures scaled[i] * Sum(base) <= base[i] * target <= scaled[i] * Sum(base) + Sum(base)
      ensures !slips[i] ==> base[i] * target < scaled[i] * Sum(base) + Sum(base)
      ensures slips[i] && scaled[i] > 0 ==> scaled[i] * Sum(base) < base[i] * target
    {
      ScaledStatBounds(base[i], target, Sum(base), slips[i]);
    }
  }

  /** Only if the base stats have the drawn total already, or are all zero, nothing is scaled. */
  lemma NothingScaled(base: seq<nat>, target: nat, slips: seq<bool>)
    requires base != [] && |slips| == |base| && (Sum(base) == target || Sum(base) == 0)
    ensures FoalStats(base, target, slips) == base
  {
  }

  /** The remainder is absorbed: before the cap, the stats sum up to the drawn total. */
  lemma FittedSum(base: seq<nat>, target: nat, slips: seq<bool>)
    requires base != [] && |slips| == |base| && Sum(base) > 0
    ensures Sum(Fitted(base, target, slips)) == target
  {
    ScalingRemainder(base, target, slips);
    AbsorbedSum(Scaled(base, target, Sum(base), slips), target);
  }

  /** The stats of a foal sum up to the drawn total exactly when nothing had to be scaled, or the base
      stats are not all zero and no stat had to be capped. */
  lemma FoalStatsSum(base: seq<nat>, target: nat, slips: seq<bool>)
    requires base != [] && |slips| == |base|
    ensures Sum(FoalStats(base, target, slips)) == target <==>
      Sum(base) == target
      || (Sum(base) > 0 && forall i | 0 <= i < |base| :: Fitted(base, target, slips)[i] <= MAX_STAT)
  {
    if Sum(base) != target && Sum(base) > 0 {
      FittedSum(base, target, slips);
      CappedSum(Fitted(base, target, slips));
    }
  }

  /** For a total below 100, so for every target grade up to 10, the cap changes nothing: the stats sum up
      to the total, whatever the rounding. */
  lemma FoalStatsHitTotal(base: seq<nat>, target: nat, slips: seq<bool>)
    requires base != [] && |slips| == |base| && Sum(base) > 0 && target < MAX_STAT
    ensures Sum(FoalStats(base, target, slips)) == target
    ensures Sum(base) != target ==> FoalStats(base, target, slips) == Fitted(base, target, slips)
  {
    if Sum(base) != target {
      var fitted := Fitted(base, target, slips);
      FittedSum(base, target, slips);
      forall i | 0 <= i < |fitted|
        ensures fitted[i] <= MAX_STAT
      {
        PartOfSum(fitted, i);
      }
      CapChangesNothing(fitted);
    }
  }

  lemma CapChangesNothing(stats: seq<nat>)
    requires forall i | 0 <= i < |stats| :: stats[i] <= MAX_STAT
    ensures Capped(stats) == stats
  {
  }

  // ---------------------------------------------------------------------------------------------
  // The array algorithm.

  method SumOf(stats: array<nat>) returns (total: nat)
    ensures total == Sum(stats[..])
  {
    total := 0;
    for i := 0 to stats.Length
      invariant total == Sum(stats[..i])
    {
      assert stats[..i + 1][..i] == stats[..i];
      total := total + stats[i];
    }
    assert stats[..stats.Length] == stats[..];
  }

  method ScaleInPlace(stats: array<nat>, target: nat, current: nat, slips: seq<bool>) returns (scaledTotal: nat)
    requires current > 0 && |slips| == stats.Length
    modifies stats
    ensures stats[..] == Scaled(old(stats[..]), target, current, slips)
    ensures scaledTotal == Sum(stats[..])
  {
    scaledTotal := 0;
    for i := 0 to stats.Length
      invariant forall j | 0 <= j < i :: stats[j] == ScaledStat(old(stats[j]), target, current, slips[j])
      invariant forall j | i <= j < stats.Length :: stats[j] == old(stats[j])
      invariant scaledTotal == Sum(stats[..i])
    {
      ghost var before := stats[..i];
      stats[i] := ScaledStat(stats[i], target, current, slips[i]);
      scaledTotal := scaledTotal + stats[i];
      assert stats[..i + 1][..i] == before;
    }
    assert stats[..stats.Length] == stats[..];
    assert stats[..] == Scaled(old(stats[..]), target, current, slips);
  }

  method MaxElement(stats: array<nat>) returns (largest: nat)
    requires stats.Length > 0
    ensures largest == LargestIndex(stats[..])
  {
    largest := 0;
    for i := 1 to stats.Length
      invariant largest < i
      invariant forall j | 0 <= j < i :: stats[j] <= stats[largest]
      invariant forall j | 0 <= j < largest :: stats[j] < stats[largest]
    {
      if stats[largest] < stats[i] {
        largest := i;
      }
    }
    var r := LargestIndex(stats[..]);
    assert stats[..][r] == stats[r] && stats[..][largest] == stats[largest];
  }

  method CapInPlace(stats: array<nat>)
    modifies stats
    ensures stats[..] == Capped(old(stats[..]))
  {
    for i := 0 to stats.Length
      invariant forall j | 0 <= j < i :: stats[j] == Capped(old(stats[..]))[j]
      invariant forall j | i <= j < stats.Length :: stats[j] == old(stats[j])
    {
      stats[i] := if stats[i] <= MAX_STAT then stats[i] else MAX_STAT;
    }
    assert stats[..] == Capped(old(stats[..]));
  }

  method FitToTotal(stats: array<nat>, targetTotal: nat, slips: seq<bool>)
    requires stats.Length > 0 && |slips| == stats.Length
    modifies stats
    ensures stats[..] == FoalStats(old(stats[..]), targetTotal, slips)
  {
    var currentTotal := SumOf(stats);
    if currentTotal != targetTotal && currentTotal > 0 {
      ScalingRemainder(stats[..], targetTotal, slips);
      var scaledTotal := ScaleInPlace(stats, targetTotal, currentTotal, slips);
      ghost var scaled := stats[..];
      var largest := MaxElement(stats);
      if targetTotal - scaledTotal != 0 {
        stats[largest] := stats[largest] + (targetTotal - scaledTotal);
      }
      assert stats[..] == Absorbed(scaled, targetTotal);
      CapInPlace(stats);
    }
  }

  /** The stats of a foal of the target grade: `targetTotal` is drawn from the bucket of the grade, `draws`
      are the bonuses and offsets. The sum lands in the bucket unless all base stats are zero. */
  method CalculateFoalStats(
    mare: seq<nat>, stallion: seq<nat>, targetGrade: nat, targetTotal: nat, draws: seq<int>, slips: seq<bool>)
    returns (stats: seq<nat>)
    requires |mare| == |stallion| == |draws| == |slips| == 5
    requires 1 <= targetGrade && 10 * (targetGrade - 1) <= targetTotal <= 10 * targetGrade - 1
    requires AreDraws(mare, stallion, draws)
    ensures stats == FoalOf(mare, stallion, targetTotal, draws, slips)
    ensures targetGrade <= 10 && Sum(BaseStats(mare, stallion, draws)) > 0 ==> Sum(stats) == targetTotal
    ensures |stats| == 5 && forall i | 0 <= i < 5 :: stats[i] <= MAX_STAT
  {
    ghost var base := BaseStats(mare, stallion, draws);
    var a := new nat[5];
    for i := 0 to 5
      invariant forall j | 0 <= j < i :: a[j] == BaseStat(mare[j], stallion[j], draws[j])
    {
      a[i] := BaseStat(mare[i], stallion[i], draws[i]);
    }
    assert a[..] == base;
    FitToTotal(a, targetTotal, slips);
    stats := a[..];
    if targetGrade <= 10 && Sum(base) > 0 {
      FoalStatsHitTotal(base, targetTotal, slips);
    }
  }

  // ---------------------------------------------------------------------------------------------
  // The grade of a stat sum.

  /** The highest grade whose minimum the sum reaches, but never below 1. */
  ghost predicate IsGradeFor(grades: map<nat, int>, statSum: int, grade: nat) {
    && grade >= 1
    && (grade == 1 || (grade in grades && statSum >= grades[grade]))
    && (forall g | g in grades && statSum >= grades[g] :: g <= grade)
  }

  method GetGradeForStatSum(grades: map<nat, int>, statSum: int) returns (grade: nat)
    ensures IsGradeFor(grades, statSum, grade)
  {
    grade := 1;
    var todo := grades.Keys;
    while todo != {}
      invariant todo <= grades.Keys
      invariant grade >= 1 && (grade == 1 || (grade in grades && statSum >= grades[grade]))
      invariant forall g | g in grades && g !in todo && statSum >= grades[g] :: g <= grade
    {
      var g :| g in todo;
      if statSum >= grades[g] && g > grade {
        grade := g;
      }
      todo := todo - {g};
    }
  }

  lemma GradeIsUnique(grades: map<nat, int>, statSum: int, g: nat, h: nat)
    requires IsGradeFor(grades, statSum, g) && IsGradeFor(grades, statSum, h)
    ensures g == h
  {
  }

  /** The shipped grade table: grade g from 1 to `top` starts at 10(g - 1). */
  ghost function GradeTable(top: nat): map<nat, int> {
    map g: nat | 1 <= g <= top :: MinStatSum(g)
  }

  function MinStatSum(grade: nat): int {
    10 * (grade - 1)
  }

  lemma GradeOfSum(top: nat, statSum: nat, grade: nat)
    requires top >= 1 && IsGradeFor(GradeTable(top), statSum, grade)
    ensures grade == Clamp(statSum / 10 + 1, 1, top)
  {
    var g := Clamp(statSum / 10 + 1, 1, top);
    assert g in GradeTable(top) && statSum >= GradeTable(top)[g];
  }

  /** A foal keeps its target grade: with the shipped table, the grade read back from stats that hit the
      drawn total is the grade the total was drawn for. */
  lemma FoalKeepsTargetGrade(top: nat, targetGrade: nat, targetTotal: nat, base: seq<nat>, slips: seq<bool>, grade: nat)
    requires 1 <= targetGrade <= 10 <= top
    requires 10 * (targetGrade - 1) <= targetTotal <= 10 * targetGrade - 1
    requires |base| == |slips| == 5 && Sum(base) > 0
    requires IsGradeFor(GradeTable(top), Sum(FoalStats(base, targetTotal, slips)), grade)
    ensures grade == targetGrade
  {
    FoalStatsHitTotal(base, targetTotal, slips);
    GradeOfSum(top, targetTotal, grade);
  }

  lemma {:induction false} ZeroStats(stats: seq<nat>)
    ensures Sum(stats) == 0 <==> forall i | 0 <= i < |stats| :: stats[i] == 0
  {
    if stats != [] {
      ZeroStats(stats[..|stats| - 1]);
    }
  }

  /** A foal keeps its target grade exactly if its base stats are not all zero or the grade is 1. */
  lemma FoalKeepsTargetGradeIff(
    top: nat, targetGrade: nat, targetTotal: nat, base: seq<nat>, slips: seq<bool>, grade: nat)
    requires 1 <= targetGrade <= 10 <= top
    requires 10 * (targetGrade - 1) <= targetTotal <= 10 * targetGrade - 1
    requires |base| == |slips| == 5
    requires IsGradeFor(GradeTable(top), Sum(FoalStats(base, targetTotal, slips)), grade)
    ensures grade == targetGrade <==> (exists i :: 0 <= i < 5 && base[i] != 0) || targetGrade == 1
  {
    ZeroStats(base);
    if Sum(base) > 0 {
      FoalKeepsTargetGrade(top, targetGrade, targetTotal, base, slips, grade);
    } else {
      GradeOfSum(top, 0, grade);
    }
  }

  /** With all base stats zero nothing is scaled, and the foal falls back to grade 1. */
  lemma ZeroBaseFallsToGradeOne(top: nat, targetTotal: nat, slips: seq<bool>, grade: nat)
    requires top >= 1 && |slips| == 5
    requires IsGradeFor(GradeTable(top), Sum(FoalStats([0, 0, 0, 0, 0], targetTotal, slips)), grade)
    ensures grade == 1
  {
    ZeroSum();
    GradeOfSum(top, 0, grade);
  }

  lemma ZeroSum()
    ensures Sum([0, 0, 0, 0, 0]) == 0
  {
    assert [0, 0, 0, 0, 0][..4] == [0, 0, 0, 0];
    assert [0, 0, 0, 0][..3] == [0, 0, 0];
    assert [0, 0, 0][..2] == [0, 0];
    assert [0, 0][..1] == [0];
    assert [0][..0] == [];
  }

  // ---------------------------------------------------------------------------------------------
  // The grade of the foal.

  /** The running sum of the columns, rounded after every addition as the float type does. */
  function Total(round: real -> real, probabilities: seq<real>): real {
    if probabilities == [] then 0.0
    else round(Total(round, probabilities[..|probabilities| - 1]) + probabilities[|probabilities| - 1])
  }

  /** The probability of all columns up to column k. */
  function Through(round: real -> real, probabilities: seq<real>, k: nat): real
    requires k < |probabilities|
  {
    Total(round, probabilities[..k + 1])
  }

  /** The roll falls into column k of the outcome distribution. */
  ghost predicate InColumn(round: real -> real, probabilities: seq<real>, roll: real, k: nat) {
    && k < |probabilities| && roll < Through(round, probabilities, k)
    && forall j | 0 <= j < k :: roll >= Through(round, probabilities, j)
  }

  /** Column k moves the lower parent's grade by k - 3; a roll beyond all columns moves it by -3. */
  method CalculateFoalGrade(
    mareGrade: nat, stallionGrade: nat, round: real -> real, probabilities: seq<real>, roll: real, childGradeLimit: nat)
    returns (grade: nat)
    requires childGradeLimit >= 1
    ensures 1 <= grade <= childGradeLimit
    ensures
      var minGrade := if mareGrade <= stallionGrade then mareGrade else stallionGrade;
      && (forall k | InColumn(round, probabilities, roll, k) :: grade == Clamp(minGrade + k - 3, 1, childGradeLimit))
      && ((forall k :: !InColumn(round, probabilities, roll, k)) ==> grade == Clamp(minGrade - 3, 1, childGradeLimit))
  {
    var minGrade := if mareGrade <= stallionGrade then mareGrade else stallionGrade;
    var gradeOffset, cumulative := -3, 0.0;
    var i := 0;
    while i < |probabilities|
      invariant i <= |probabilities| && gradeOffset == -3
      invariant cumulative == Total(round, probabilities[..i])
      invariant forall j | 0 <= j < i :: roll >= Through(round, probabilities, j)
    {
      assert probabilities[..i + 1][..i] == probabilities[..i];
      cumulative := round(cumulative + probabilities[i]);
      if roll < cumulative {
        gradeOffset := i - 3;
        assert InColumn(round, probabilities, roll, i);
        break;
      }
      i := i + 1;
    }
    grade := Clamp(minGrade + gradeOffset, 1, childGradeLimit);
  }
}
