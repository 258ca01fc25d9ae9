/**
 The class of a horse and the class experience it takes (src/libserver/registry/HorseRegistry.cpp).
 All quantities are unsigned 32-bit; the configured costs are signed and converted.
 */
module ClassProgress {
  import opened Arithmetic
  import opened Words

  const MAX_CLASS: nat := 30

  newtype Int32 = x: int | -0x8000_0000 <= x < 0x8000_0000

  /** The configured costs. */
  datatype LevelUpPoints = LevelUpPoints(base: Int32, exp10: Int32, exp20: Int32)

  /** What a level-up costs: the first ten, the next ten, and all further ones. */
  datatype Costs = Costs(base: Word, exp10: Word, exp20: Word)

  function CostsOf(points: LevelUpPoints): Costs {
    Costs(Wrap(points.base as int), Wrap(points.exp10 as int), Wrap(points.exp20 as int))
  }

  // ---------------------------------------------------------------------------------------------
  // The cumulative cost.

  /** The cost of the step from `level` to the next. */
  function StepCost(costs: Costs, level: nat): Word {
    if level <= 10 then costs.base
    else if level <= 20 then costs.exp10
    else costs.exp20
  }

  /** What it takes to reach `level`, in unbounded integers. */
  function TotalCost(costs: Costs, level: nat): nat {
    if level <= 1 then 0 else TotalCost(costs, level - 1) + StepCost(costs, level - 1)
  }

  function CumulativeCost(costs: Costs, level: nat): Word {
    Wrap(TotalCost(costs, level))
  }

  lemma {:induction false} FirstTenLevels(costs: Costs, level: nat)
    requires 1 <= level <= 11
    ensures TotalCost(costs, level) == (level - 1) * StepCost(costs, 1)
  {
    if level > 1 {
      FirstTenLevels(costs, level - 1);
    }
  }

  lemma {:induction false} NextTenLevels(costs: Costs, level: nat)
    requires 11 <= level <= 21
    ensures TotalCost(costs, level) == 10 * StepCost(costs, 1) + (level - 11) * StepCost(costs, 11)
  {
    if level == 11 {
      FirstTenLevels(costs, level);
    } else {
      NextTenLevels(costs, level - 1);
    }
  }

  lemma {:induction false} FurtherLevels(costs: Costs, level: nat)
    requires 21 <= level
    ensures
      TotalCost(costs, level)
      == 10 * StepCost(costs, 1) + 10 * StepCost(costs, 11) + (level - 21) * StepCost(costs, 21)
  {
    var step := StepCost(costs, 21);
    if level == 21 {
      NextTenLevels(costs, level);
    } else {
      FurtherLevels(costs, level - 1);
      assert StepCost(costs, level - 1) == step;
      assert (level - 21) * step == (level - 22) * step + step;
    }
  }

  /** What the first ten level-ups, the next ten and all further ones add up to. */
  lemma TotalCostIs(costs: Costs, level: nat) returns (first: nat, second: nat, third: nat)
    requires level > 1
    ensures first == Min(level - 1, 10) * costs.base
    ensures second == if level > 11 then Min(level - 11, 10) * costs.exp10 else 0
    ensures third == if level > 21 then (level - 21) * costs.exp20 else 0
    ensures TotalCost(costs, level) == first + second + third
  {
    first, second, third := 0, 0, 0;
    if level <= 11 {
      first := (level - 1) * costs.base;
      FirstTenLevels(costs, level);
    } else if level <= 21 {
      first, second := 10 * costs.base, (level - 11) * costs.exp10;
      NextTenLevels(costs, level);
    } else {
      first, second, third := 10 * costs.base, 10 * costs.exp10, (level - 21) * costs.exp20;
      FurtherLevels(costs, level);
    }
  }

  /** The closed form computes the sum of the level costs, for every level and every cost, up to wrap-around. */
  method GetCumulativeClassExp(points: LevelUpPoints, level: Word) returns (total: Word)
    ensures total == CumulativeCost(CostsOf(points), level)
  {
    if level <= 1 {
      return 0;
    }
    var base, exp10, exp20 := Wrap(points.base as int), Wrap(points.exp10 as int), Wrap(points.exp20 as int);
    ghost var first, second, third := TotalCostIs(CostsOf(points), level);
    var transitions := level - 1;
    total := Wrap(Min(transitions, 10) * base);
    if transitions > 10 {
      WrapOfSum(first, second);
      total := Add(total, Wrap(Min(transitions - 10, 10) * exp10));
      if transitions > 20 {
        WrapOfSum(first + second, third);
        total := Add(total, Wrap((transitions - 20) * exp20));
      }
    }
  }

  // ---------------------------------------------------------------------------------------------
  // Levelling.

  datatype Stage = Stage(clazz: Word, progress: Word, growthPoints: Word)

  /** What each class takes: the cumulative costs of all classes. */
  type Ladder = l: seq<Word> | |l| == MAX_CLASS + 1 witness seq(MAX_CLASS + 1, _ => 0)

  function LadderOf(costs: Costs): (r: Ladder)
    ensures forall level | 0 <= level <= MAX_CLASS :: r[level] == CumulativeCost(costs, level)
  {
    seq(MAX_CLASS + 1, level requires 0 <= level => CumulativeCost(costs, level))
  }

  /** The level reached by climbing from `level` one step at a time while the next step is paid for. */
  function Climb(ladder: Ladder, level: nat, progress: Word): (r: nat)
    requires level <= MAX_CLASS
    ensures level <= r <= MAX_CLASS
    decreases MAX_CLASS - level
  {
    if level < MAX_CLASS && progress >= ladder[level + 1]
    then Climb(ladder, level + 1, progress)
    else level
  }

  /** One point for each level gained and one more for the last level. */
  function Points(before: nat, after: nat): nat
    requires before <= after
  {
    after - before + if before < MAX_CLASS == after then 1 else 0
  }

  function Grown(growthPoints: Word, before: nat, level: nat): Word
    requires before <= level <= MAX_CLASS
  {
    Add(growthPoints, Points(before, level))
  }

  function Apply(ladder: Ladder, h: Stage, gained: Word): Stage {
    var level := Max(h.clazz, 1);
    if level >= MAX_CLASS then h
    else
      var progress := Add(h.progress, gained);
      var reached := Climb(ladder, level, progress);
      Stage(reached, progress, Grown(h.growthPoints, level, reached))
  }

  /** Field by field: the progress is added, the class does not fall, and there is one growth point for every level
      gained and one more for level 30; from class 30 on nothing changes. */
  predicate IsGained(h: Stage, after: Stage, gained: Word) {
    if h.clazz >= 30 then after == h
    else
      var levels := after.clazz - (if h.clazz == 0 then 1 else h.clazz);
      && levels >= 0 && after.clazz <= 30 && after.progress == Add(h.progress, gained)
      && after.growthPoints == Add(h.growthPoints, if after.clazz == 30 then levels + 1 else levels)
  }

  lemma ApplyIsGain(ladder: Ladder, h: Stage, gained: Word)
    ensures IsGained(h, Apply(ladder, h, gained), gained)
  {
  }

  lemma OnePointMore(growthPoints: Word, before: nat, level: nat)
    requires before <= level < MAX_CLASS
    ensures
      Add(Grown(growthPoints, before, level), if level + 1 == MAX_CLASS then 2 else 1)
      == Grown(growthPoints, before, level + 1)
  {
  }

  class Horse {
    var clazz: Word
    var clazzProgress: Word
    var growthPoints: Word

    ghost function Now(): Stage
      reads this
    {
      Stage(clazz, clazzProgress, growthPoints)
    }

    method ApplyClassProgress(points: LevelUpPoints, gained: Word)
      modifies this
      ensures Now() == Apply(LadderOf(CostsOf(points)), old(Now()), gained)
    {
      var level: Word := Max(clazz, 1);
      if level >= MAX_CLASS {
        return;
      }
      clazzProgress := Add(clazzProgress, gained);
      ghost var ladder, start, progress := LadderOf(CostsOf(points)), level, clazzProgress;
      var next := GetCumulativeClassExp(points, level + 1);
      while level < MAX_CLASS && clazzProgress >= next
        invariant start <= level <= MAX_CLASS && clazzProgress == progress
        invariant level < MAX_CLASS ==> next == ladder[level + 1]
        invariant Climb(ladder, level, progress) == Climb(ladder, start, progress)
        invariant growthPoints == Grown(old(growthPoints), start, level)
      {
        OnePointMore(old(growthPoints), start, level);
        level := level + 1;
        growthPoints := Add(growthPoints, if level == MAX_CLASS then 2 else 1);
        if level < MAX_CLASS {
          next := GetCumulativeClassExp(points, level + 1);
        }
      }
      clazz := level;
    }
  }

  // ---------------------------------------------------------------------------------------------
  // The level that a progress is worth.

  /** The largest level up to `bound` whose total cost is reached. */
  function LevelFor(costs: Costs, progress: Word, bound: nat): (r: nat)
    requires bound >= 1
    ensures 1 <= r <= bound && TotalCost(costs, r) <= progress
    ensures forall l | r < l <= bound :: TotalCost(costs, l) > progress
  {
    if TotalCost(costs, bound) <= progress then bound else LevelFor(costs, progress, bound - 1)
  }

  lemma {:induction false} TotalCostRises(costs: Costs, a: nat, b: nat)
    requires a <= b
    ensures TotalCost(costs, a) <= TotalCost(costs, b)
    decreases b
  {
    if a < b {
      TotalCostRises(costs, a, b - 1);
    }
  }

  lemma {:induction false} ClimbToWorth(ladder: Ladder, level: nat, progress: Word, worth: nat)
    requires level <= MAX_CLASS && worth <= MAX_CLASS
    requires forall l | level < l <= MAX_CLASS :: ladder[l] <= progress <==> l <= worth
    ensures Climb(ladder, level, progress) == Max(level, worth)
    decreases MAX_CLASS - level
  {
    if level < MAX_CLASS && ladder[level + 1] <= progress {
      ClimbToWorth(ladder, level + 1, progress, worth);
    }
  }

  /** As long as the whole climb fits 32 bits, a climb ends at the level the progress is worth, or stays
      where it is if that is higher already. */
  lemma ClimbIsExact(costs: Costs, level: nat, progress: Word)
    requires 1 <= level <= MAX_CLASS && TotalCost(costs, MAX_CLASS) < WORD
    ensures Climb(LadderOf(costs), level, progress) == Max(level, LevelFor(costs, progress, MAX_CLASS))
  {
    var ladder, worth := LadderOf(costs), LevelFor(costs, progress, MAX_CLASS);
    forall l: nat | l <= MAX_CLASS
      ensures ladder[l] <= progress <==> l <= worth
    {
      TotalCostRises(costs, l, MAX_CLASS);
      if l <= worth {
        TotalCostRises(costs, l, worth);
      }
    }
    ClimbToWorth(ladder, level, progress, worth);
  }

  /** With the progress at its 32-bit maximum every step is paid for. */
  lemma {:induction false} ClimbToTheTop(ladder: Ladder, level: nat)
    requires level <= MAX_CLASS
    ensures Climb(ladder, level, WORD - 1) == MAX_CLASS
    decreases MAX_CLASS - level
  {
    if level < MAX_CLASS {
      ClimbToTheTop(ladder, level + 1);
    }
  }

  /** The cached class is right for every progress exactly when the total cost of the last class fits 32 bits. */
  lemma ClimbIsExactIff(costs: Costs)
    ensures
      (forall progress: Word :: Climb(LadderOf(costs), 1, progress) == LevelFor(costs, progress, MAX_CLASS))
      <==> TotalCost(costs, MAX_CLASS) < WORD
  {
    if TotalCost(costs, MAX_CLASS) < WORD {
      forall progress: Word
        ensures Climb(LadderOf(costs), 1, progress) == LevelFor(costs, progress, MAX_CLASS)
      {
        ClimbIsExact(costs, 1, progress);
      }
    } else {
      ClimbToTheTop(LadderOf(costs), 1);
      assert Climb(LadderOf(costs), 1, WORD - 1) != LevelFor(costs, WORD - 1, MAX_CLASS);
    }
  }

  /** Non-negative costs need not fit: even if only the first ten level-ups cost anything. */
  lemma LargeCostsDoNotFit()
    ensures TotalCost(CostsOf(LevelUpPoints(0x7FFF_FFFF, 0, 0)), MAX_CLASS) >= WORD
  {
    FurtherLevels(CostsOf(LevelUpPoints(0x7FFF_FFFF, 0, 0)), MAX_CLASS);
  }

  lemma DefaultCostsFit()
    ensures TotalCost(CostsOf(LevelUpPoints(6650, 13250, 16550)), MAX_CLASS) == 347950
  {
    FurtherLevels(CostsOf(LevelUpPoints(6650, 13250, 16550)), MAX_CLASS);
  }

  /** The class is the one the progress is worth. */
  ghost predicate Earned(costs: Costs, h: Stage) {
    h.clazz == LevelFor(costs, h.progress, MAX_CLASS)
  }

  /** Progress keeps the class earned, unless it wraps around below the maximum. */
  lemma ApplyKeepsEarned(costs: Costs, h: Stage, gained: Word)
    requires TotalCost(costs, MAX_CLASS) < WORD && Earned(costs, h)
    requires h.progress + gained < WORD
    ensures Earned(costs, Apply(LadderOf(costs), h, gained))
  {
    if h.clazz < MAX_CLASS {
      var progress := h.progress + gained;
      ClimbIsExact(costs, h.clazz, progress);
      assert TotalCost(costs, h.clazz) <= progress;
    }
  }

  // ---------------------------------------------------------------------------------------------
  // Splitting a gain.

  lemma {:induction false} ClimbOnwards(ladder: Ladder, level: nat, p: Word, q: Word)
    requires level <= MAX_CLASS && p <= q
    ensures Climb(ladder, Climb(ladder, level, p), q) == Climb(ladder, level, q)
    decreases MAX_CLASS - level
  {
    if level < MAX_CLASS && p >= ladder[level + 1] {
      ClimbOnwards(ladder, level + 1, p, q);
    }
  }

  lemma PointsAddUp(growthPoints: Word, x: nat, y: nat, z: nat)
    requires x <= y <= z <= MAX_CLASS
    requires y == MAX_CLASS ==> x == y
    ensures Grown(Grown(growthPoints, x, y), y, z) == Grown(growthPoints, x, z)
  {
  }

  /** What is gained from a class below the last one. */
  lemma ApplyBelowLast(ladder: Ladder, h: Stage, gained: Word) returns (level: nat, progress: Word, reached: nat)
    requires h.clazz < MAX_CLASS
    ensures level == Max(h.clazz, 1) && progress == Add(h.progress, gained)
    ensures reached == Climb(ladder, level, progress) && level <= reached <= MAX_CLASS
    ensures Apply(ladder, h, gained) == Stage(reached, progress, Grown(h.growthPoints, level, reached))
  {
    level, progress := Max(h.clazz, 1), Add(h.progress, gained);
    reached := Climb(ladder, level, progress);
  }

  /** The first part reaches the last class: the second adds nothing. */
  lemma SplitAtLast(ladder: Ladder, h: Stage, a: Word, b: Word)
    requires h.clazz < MAX_CLASS && h.progress + a + b < WORD && Apply(ladder, h, a).clazz == MAX_CLASS
    ensures
      var first, once := Apply(ladder, h, a), Apply(ladder, h, a + b);
      && Apply(ladder, first, b) == first
      && once == Stage(MAX_CLASS, h.progress + a + b, first.growthPoints) && first.progress == h.progress + a
  {
    var level, p, x := ApplyBelowLast(ladder, h, a);
    var _, q, y := ApplyBelowLast(ladder, h, a + b);
    ClimbOnwards(ladder, level, p, q);
  }

  lemma SecondPart(ladder: Ladder, first: Stage, b: Word, level: nat, growthPoints: Word)
    requires 1 <= level <= first.clazz < MAX_CLASS && first.progress + b < WORD
    requires first.growthPoints == Grown(growthPoints, level, first.clazz)
    ensures
      var reached := Climb(ladder, first.clazz, first.progress + b);
      Apply(ladder, first, b) == Stage(reached, first.progress + b, Grown(growthPoints, level, reached))
  {
    var _, _, reached := ApplyBelowLast(ladder, first, b);
    PointsAddUp(growthPoints, level, first.clazz, reached);
  }

  lemma ClimbTwice(ladder: Ladder, level: nat, p: Word, q: Word)
    requires level <= MAX_CLASS && p <= q
    ensures
      var x, y := Climb(ladder, level, p), Climb(ladder, level, q);
      x <= y && y == Climb(ladder, x, q)
  {
    ClimbOnwards(ladder, level, p, q);
  }

  lemma SplitClimb(ladder: Ladder, h: Stage, a: Word, b: Word) returns (level: nat, x: nat, y: nat)
    requires h.clazz < MAX_CLASS && h.progress + a + b < WORD
    ensures 1 <= level <= x <= y <= MAX_CLASS && y == Climb(ladder, x, h.progress + a + b)
    ensures Apply(ladder, h, a) == Stage(x, h.progress + a, Grown(h.growthPoints, level, x))
    ensures Apply(ladder, h, a + b) == Stage(y, h.progress + a + b, Grown(h.growthPoints, level, y))
  {
    var p, q;
    level, p, x := ApplyBelowLast(ladder, h, a);
    level, q, y := ApplyBelowLast(ladder, h, a + b);
    ClimbTwice(ladder, level, p, q);
  }

  lemma SplitBelowLast(ladder: Ladder, h: Stage, a: Word, b: Word)
    requires h.clazz < MAX_CLASS && h.progress + a + b < WORD && Apply(ladder, h, a).clazz < MAX_CLASS
    ensures Apply(ladder, Apply(ladder, h, a), b) == Apply(ladder, h, a + b)
  {
    var level, x, y := SplitClimb(ladder, h, a, b);
    SecondPart(ladder, Stage(x, h.progress + a, Grown(h.growthPoints, level, x)), b, level, h.growthPoints);
  }

  /** A gain may be split: same class, same growth points, as long as the progress does not wrap around.
      The stored progress is the same too, unless the first part reached the last class. */
  lemma SplitGain(ladder: Ladder, h: Stage, a: Word, b: Word)
    requires h.progress + a + b < WORD
    ensures
      var first := Apply(ladder, h, a);
      var twice, once := Apply(ladder, first, b), Apply(ladder, h, a + b);
      && twice.clazz == once.clazz && twice.growthPoints == once.growthPoints
      && (twice.progress == once.progress <==> (h.clazz >= MAX_CLASS || first.clazz < MAX_CLASS || b == 0))
  {
    if h.clazz < MAX_CLASS {
      if Apply(ladder, h, a).clazz < MAX_CLASS {
        SplitBelowLast(ladder, h, a, b);
      } else {
        SplitAtLast(ladder, h, a, b);
      }
    }
  }

  /** The law with wrap-around: from a class whose next step is not yet paid for, it holds exactly unless
      the sum of both gains wraps around while the first alone pays for that step. */
  lemma SplitGainIff(ladder: Ladder, h: Stage, a: Word, b: Word)
    requires 1 <= h.clazz < MAX_CLASS && h.progress < ladder[h.clazz + 1]
    requires a + b < WORD
    ensures
      var twice, once := Apply(ladder, Apply(ladder, h, a), b), Apply(ladder, h, a + b);
      (twice.clazz == once.clazz && twice.growthPoints == once.growthPoints)
      <==> (h.progress + a + b < WORD || WORD <= h.progress + a || h.progress + a < ladder[h.clazz + 1])
  {
    if h.progress + a + b < WORD {
      SplitGain(ladder, h, a, b);
    } else {
      assert Apply(ladder, h, a + b).clazz == h.clazz;
    }
  }
}
