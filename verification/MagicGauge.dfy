/**
 The regeneration of the magic gauge (src/server/race/RaceInstance.cpp). Time points are integers in the
 unit of the clock, points are unsigned 32-bit.
 */
module MagicGauge {
  import opened Arithmetic
  import opened Words
  import opened Wrappers

  type Uid = nat

  datatype SetEffect = NoEffect | CriticalSpellChance | PassiveGaugeFaster | GaugeWhileHolding

  /** What the racer has on when a tick comes. */
  datatype Loadout = Loadout(
    magicItem: Option<Word>, setEffect: SetEffect, bufGauge: bool, bufGaugeCritical: bool, courage: Word)

  datatype Config = Config(
    interval: nat, pointPerTick: Word, courageScale: Word, passiveScale: Word, holdingScale: Word, starPointsMax: Word)

  /** The anchor is the time up to which regeneration is settled; it is unset before the first tick. */
  datatype Gauge = Gauge(starPoints: Word, anchor: Option<int>)

  predicate CanRegenerate(l: Loadout) {
    l.magicItem.None? || l.setEffect.GaugeWhileHolding?
  }

  function PlainGain(c: Config, courage: Word): Word {
    Wrap(c.pointPerTick * Wrap(1000 + Wrap(c.courageScale * courage))) / 1000
  }

  function AdjustedGain(c: Config, l: Loadout, plain: Word): Word {
    var faster := if l.setEffect.PassiveGaugeFaster? then Wrap(plain * Wrap(10000 + c.passiveScale)) / 10000 else plain;
    var buffed := if l.bufGauge || l.bufGaugeCritical then Wrap(faster * 2) else faster;
    if l.magicItem.Some? then Wrap(buffed * c.holdingScale) / 10000 else buffed
  }

  function GainedPerTick(c: Config, l: Loadout): Word {
    AdjustedGain(c, l, PlainGain(c, l.courage))
  }

  function AnchorOf(g: Gauge, start: int): int {
    if g.anchor.Some? then g.anchor.value else start
  }

  function Intervals(elapsed: nat, interval: nat): nat
    requires interval > 0
  {
    if elapsed < interval then 0 else 1 + Intervals(elapsed - interval, interval)
  }

  lemma {:induction false} WholeIntervals(elapsed: nat, interval: nat)
    requires interval > 0
    ensures
      var n := Intervals(elapsed, interval);
      n * interval <= elapsed < n * interval + interval && (n > 0 ==> interval <= n * interval)
  {
    if elapsed >= interval {
      WholeIntervals(elapsed - interval, interval);
      Distribute(Intervals(elapsed - interval, interval), 1, interval);
    }
  }

  lemma IntervalsIsQuotient(elapsed: nat, interval: nat)
    requires interval > 0
    ensures Intervals(elapsed, interval) == elapsed / interval
  {
    var n, q := Intervals(elapsed, interval), elapsed / interval;
    WholeIntervals(elapsed, interval);
    assert elapsed == q * interval + elapsed % interval;
    MultiplesApart(n, q, interval);
    MultiplesApart(q, n, interval);
  }

  lemma MultiplesApart(a: nat, b: nat, c: nat)
    ensures a < b ==> a * c + c <= b * c
  {
    if a < b {
      Distribute(a + 1, b - a - 1, c);
      Distribute(a, 1, c);
      assert 0 <= (b - a - 1) * c;
    }
  }

  /** The whole intervals that have passed since the anchor. */
  function Ticks(interval: nat, start: int, g: Gauge, now: int): nat
    requires interval > 0
  {
    if now <= start || now <= AnchorOf(g, start) then 0 else Intervals(now - AnchorOf(g, start), interval)
  }

  /** What a loadout makes of a tick. */
  datatype Rate = Rate(regenerates: bool, perTick: Word, max: Word)

  function RateOf(c: Config, l: Loadout): Rate {
    Rate(CanRegenerate(l), GainedPerTick(c, l), c.starPointsMax)
  }

  function Gain(perTick: Word, ticks: nat): Word {
    Wrap(perTick * Wrap(ticks))
  }

  function Tick(interval: nat, start: int, rate: Rate, g: Gauge, now: int): Gauge
    requires interval > 0
  {
    var ticks := Ticks(interval, start, g, now);
    if now <= start then g
    else if ticks == 0 then g.(anchor := Some(AnchorOf(g, start)))
    else if rate.regenerates && g.starPoints < rate.max
    then Gauge(Min(rate.max, Add(g.starPoints, Gain(rate.perTick, ticks))), Some(now))
    else g.(anchor := Some(now))
  }

  // ---------------------------------------------------------------------------------------------
  // The race.

  datatype Racer = Racer(gauge: Gauge, loadout: Loadout)
  datatype Response = Response(uid: Uid, starPoints: Word, giveMagicItem: bool)

  function TickRacer(c: Config, start: int, r: Racer, now: int): Racer
    requires c.interval > 0
  {
    r.(gauge := Tick(c.interval, start, RateOf(c, r.loadout), r.gauge, now))
  }

  function ResponseTo(c: Config, uid: Uid, r: Racer): Response {
    Response(uid, r.gauge.starPoints, r.loadout.magicItem.None? && r.gauge.starPoints >= c.starPointsMax)
  }

  class RaceInstance {
    var config: Config
    var start: int
    var players: seq<Uid>
    var racers: map<Uid, Racer>

    ghost predicate Valid()
      reads this
    {
      config.interval > 0 && forall i, j | 0 <= i < j < |players| :: players[i] != players[j]
    }

    method GetGainedPerTick(l: Loadout) returns (gained: Word)
      ensures gained == GainedPerTick(config, l)
    {
      gained := Wrap(config.pointPerTick * Wrap(1000 + Wrap(config.courageScale * l.courage))) / 1000;
      if l.setEffect.PassiveGaugeFaster? {
        gained := Wrap(gained * Wrap(10000 + config.passiveScale)) / 10000;
      }
      if l.bufGauge || l.bufGaugeCritical {
        gained := Wrap(gained * 2);
      }
      if l.magicItem.Some? {
        gained := Wrap(gained * config.holdingScale) / 10000;
      }
    }

    method Settle(racer: Racer, now: int) returns (r: Racer)
      requires Valid() && now > start
      ensures r == TickRacer(config, start, racer, now)
    {
      r := racer;
      if r.gauge.anchor.None? {
        r := r.(gauge := r.gauge.(anchor := Some(start)));
      }
      var elapsed := now - r.gauge.anchor.value;
      var ticks := 0;
      if elapsed > 0 {
        ticks := elapsed / config.interval;
        IntervalsIsQuotient(elapsed, config.interval);
      }
      if ticks > 0 {
        r := r.(gauge := r.gauge.(anchor := Some(now)));
        if CanRegenerate(r.loadout) && r.gauge.starPoints < config.starPointsMax {
          var perTick := GetGainedPerTick(r.loadout);
          var gain := Wrap(perTick * Wrap(ticks));
          r := r.(gauge := r.gauge.(starPoints := Min(config.starPointsMax, Add(r.gauge.starPoints, gain))));
        }
      }
    }

    /** Ticks the gauge of every racer in the room once and of nobody else, and tells each of them. */
    method TickMagicGauge(now: int) returns (responses: seq<Response>)
      requires Valid()
      modifies this`racers
      ensures Valid() && racers.Keys == old(racers.Keys)
      ensures forall uid | uid in old(racers) && uid in racers ::
        racers[uid] ==
        if now > start && uid in players then TickRacer(config, start, old(racers[uid]), now) else old(racers[uid])
      ensures forall r :: r in responses <==>
        && now > start && r.uid in players && r.uid in racers
        && r.starPoints == racers[r.uid].gauge.starPoints
        && (r.giveMagicItem
            <==> racers[r.uid].loadout.magicItem.None? && racers[r.uid].gauge.starPoints >= config.starPointsMax)
    {
      responses := [];
      if now <= start {
        return;
      }
      for i := 0 to |players|
        invariant Valid() && racers.Keys == old(racers.Keys)
        invariant forall uid | uid in old(racers) && uid in racers ::
          racers[uid] ==
          if uid in players[..i] then TickRacer(config, start, old(racers[uid]), now) else old(racers[uid])
        invariant forall r :: r in responses <==>
          r.uid in players[..i] && r.uid in racers && r == ResponseTo(config, r.uid, racers[r.uid])
      {
        var uid := players[i];
        if uid in racers {
          var settled := Settle(racers[uid], now);
          racers := racers[uid := settled];
          responses := responses + [ResponseTo(config, uid, settled)];
        }
      }
    }
  }

  // ---------------------------------------------------------------------------------------------
  // One tick.

  /** A tick never takes the gauge over its maximum, and lowers it exactly when the 32-bit sum wraps around. */
  lemma GaugeFallsIff(interval: nat, start: int, rate: Rate, g: Gauge, now: int)
    requires interval > 0
    ensures
      var r, ticks := Tick(interval, start, rate, g, now), Ticks(interval, start, g, now);
      && (g.starPoints <= rate.max ==> r.starPoints <= rate.max)
      && (r.starPoints < g.starPoints
          <==> (&& ticks > 0 && rate.regenerates && g.starPoints < rate.max
                && g.starPoints + Gain(rate.perTick, ticks) >= WORD))
  {
  }

  lemma NoTicksNoGain(perTick: Word)
    ensures Gain(perTick, 0) == 0
  {
    assert perTick * Wrap(0) == 0;
  }

  lemma TickRisesIff(interval: nat, start: int, rate: Rate, g: Gauge, now: int, ticks: nat, gain: Word)
    requires interval > 0 && ticks == Ticks(interval, start, g, now) && gain == Gain(rate.perTick, ticks)
    requires g.starPoints + gain < WORD && (ticks == 0 ==> gain == 0)
    ensures
      var after := Tick(interval, start, rate, g, now);
      && after.starPoints >= g.starPoints
      && (after.starPoints > g.starPoints <==> gain > 0 && g.starPoints < rate.max && rate.regenerates)
  {
  }

  /** A tick raises a gauge exactly if there is something to gain, the gauge is below its maximum, and the racer has no
      item in hand or the set that lets it regenerate nevertheless. Without overflow no tick lowers it. */
  lemma GaugeRisesIff(c: Config, start: int, r: Racer, now: int)
    requires c.interval > 0
    requires r.gauge.starPoints + Gain(GainedPerTick(c, r.loadout), Ticks(c.interval, start, r.gauge, now)) < WORD
    ensures
      var ticks, after := Ticks(c.interval, start, r.gauge, now), TickRacer(c, start, r, now);
      && after.loadout == r.loadout && after.gauge.starPoints >= r.gauge.starPoints
      && (after.gauge.starPoints > r.gauge.starPoints
          <==>
            && Gain(GainedPerTick(c, r.loadout), ticks) > 0 && r.gauge.starPoints < c.starPointsMax
            && (r.loadout.magicItem.None? || r.loadout.setEffect == GaugeWhileHolding))
  {
    var rate, ticks := RateOf(c, r.loadout), Ticks(c.interval, start, r.gauge, now);
    NoTicksNoGain(rate.perTick);
    TickRisesIff(c.interval, start, rate, r.gauge, now, ticks, Gain(rate.perTick, ticks));
  }

  lemma Monotonic(x: nat, a: nat, b: nat)
    requires a <= b
    ensures x * a <= x * b
  {
  }

  lemma Scaling(x: Word, percent: nat)
    requires x * percent < WORD
    ensures percent >= 10000 ==> Wrap(x * percent) / 10000 >= x
    ensures percent <= 10000 ==> Wrap(x * percent) / 10000 <= x
  {
    var p := x * percent;
    if percent >= 10000 {
      Monotonic(x, 10000, percent);
    }
    if percent <= 10000 {
      Monotonic(x, percent, 10000);
    }
    assert 0 <= p && Wrap(p) == p;
  }

  lemma ScalingIsMonotonic(x: Word, y: Word, percent: nat)
    requires x <= y && y * percent < WORD
    ensures Wrap(x * percent) / 10000 <= Wrap(y * percent) / 10000
  {
    Monotonic(percent, x, y);
    assert 0 <= x * percent <= y * percent;
    assert Wrap(x * percent) == x * percent && Wrap(y * percent) == y * percent;
  }

  function Faster(c: Config, plain: Word): int {
    plain * (10000 + c.passiveScale) / 10000
  }

  /** No step of the gain overflows, whatever the loadout. */
  ghost predicate Fits(c: Config, plain: Word) {
    && 10000 + c.passiveScale < WORD && plain * (10000 + c.passiveScale) < WORD
    && Faster(c, plain) * 2 < WORD && (Faster(c, plain) * 2) * c.holdingScale < WORD
  }

  lemma FasterFits(c: Config, plain: Word)
    requires Fits(c, plain)
    ensures Wrap(plain * Wrap(10000 + c.passiveScale)) / 10000 == Faster(c, plain) >= plain
  {
    var percent := 10000 + c.passiveScale;
    WrapOfWord(percent);
    Scaling(plain, percent);
    assert 0 <= plain * percent;
    WrapOfWord(plain * percent);
  }

  lemma BuffFits(c: Config, plain: Word, faster: Word)
    requires Fits(c, plain) && faster <= Faster(c, plain)
    ensures Wrap(faster * 2) == faster * 2 && (faster * 2) * c.holdingScale < WORD && faster * c.holdingScale < WORD
  {
    WrapOfWord(faster * 2);
    Monotonic(c.holdingScale, faster * 2, Faster(c, plain) * 2);
    Monotonic(c.holdingScale, faster, faster * 2);
  }

  /** The gain of a loadout, step by step, if nothing overflows. */
  lemma GainSteps(c: Config, l: Loadout, plain: Word)
    requires Fits(c, plain)
    ensures
      var faster := if l.setEffect.PassiveGaugeFaster? then Faster(c, plain) else plain;
      var buffed := if l.bufGauge || l.bufGaugeCritical then faster * 2 else faster;
      && plain <= Faster(c, plain) && 0 <= buffed <= Faster(c, plain) * 2 < WORD && buffed * c.holdingScale < WORD
      && AdjustedGain(c, l, plain) == if l.magicItem.Some? then Wrap(buffed * c.holdingScale) / 10000 else buffed
  {
    FasterFits(c, plain);
    BuffFits(c, plain, if l.setEffect.PassiveGaugeFaster? then Faster(c, plain) else plain);
  }

  /** Without overflow the set bonus never slows the gauge, whatever else the loadout has. */
  lemma SetBonusIsFaster(c: Config, l: Loadout, other: SetEffect, plain: Word)
    requires Fits(c, plain)
    ensures
      AdjustedGain(c, l.(setEffect := other), plain) <= AdjustedGain(c, l.(setEffect := PassiveGaugeFaster), plain)
  {
    GainSteps(c, l.(setEffect := other), plain);
    GainSteps(c, l.(setEffect := PassiveGaugeFaster), plain);
    if l.magicItem.Some? {
      var faster := if other.PassiveGaugeFaster? then Faster(c, plain) else plain;
      var x := if l.bufGauge || l.bufGaugeCritical then faster * 2 else faster;
      var y := if l.bufGauge || l.bufGaugeCritical then Faster(c, plain) * 2 else Faster(c, plain);
      ScalingIsMonotonic(x, y, c.holdingScale);
    }
  }

  /** Without overflow a buff doubles the gain, whatever else the loadout has, but for the rounding with an
      item in hand; and both buffs do what either does. */
  lemma BuffDoubles(c: Config, l: Loadout, plain: Word)
    requires Fits(c, plain) && (l.bufGauge || l.bufGaugeCritical)
    ensures
      var without := AdjustedGain(c, l.(bufGauge := false, bufGaugeCritical := false), plain);
      && 2 * without <= AdjustedGain(c, l, plain) <= 2 * without + 1
      && (l.magicItem.None? ==> AdjustedGain(c, l, plain) == 2 * without)
  {
    var bare := l.(bufGauge := false, bufGaugeCritical := false);
    GainSteps(c, l, plain);
    GainSteps(c, bare, plain);
    if l.magicItem.Some? {
      var x := if l.setEffect.PassiveGaugeFaster? then Faster(c, plain) else plain;
      DoubledScaling(x, c.holdingScale);
    }
  }

  lemma DoubledScaling(x: nat, percent: nat)
    requires (x * 2) * percent < WORD
    ensures
      var once, twice := Wrap(x * percent) / 10000, Wrap((x * 2) * percent) / 10000;
      2 * once <= twice <= 2 * once + 1
  {
    var p := x * percent;
    assert (x * 2) * percent == 2 * p && 0 <= p;
    assert Wrap(p) == p && Wrap(2 * p) == 2 * p;
  }

  /** Without overflow, and with a scale for it of at most 10000, an item in hand never speeds the gauge up,
      whatever else the loadout has. */
  lemma HoldingIsSlower(c: Config, l: Loadout, plain: Word)
    requires Fits(c, plain) && c.holdingScale <= 10000
    ensures AdjustedGain(c, l, plain) <= AdjustedGain(c, l.(magicItem := None), plain)
  {
    GainSteps(c, l, plain);
    GainSteps(c, l.(magicItem := None), plain);
    if l.magicItem.Some? {
      Scaling(AdjustedGain(c, l.(magicItem := None), plain), c.holdingScale);
    }
  }

  lemma PlainGainIs(c: Config, courage: Word)
    requires c.courageScale * courage + 1000 < WORD && c.pointPerTick * (1000 + c.courageScale * courage) < WORD
    ensures PlainGain(c, courage) == c.pointPerTick * (1000 + c.courageScale * courage) / 1000
  {
    var scaled := c.courageScale * courage;
    assert 0 <= scaled;
    WrapOfWord(scaled);
    WrapOfWord(1000 + scaled);
    assert 0 <= c.pointPerTick * (1000 + scaled);
    WrapOfWord(c.pointPerTick * (1000 + scaled));
  }

  lemma Quotients(x: nat, y: nat)
    requires x <= y
    ensures x / 1000 <= y / 1000
  {
  }

  /** Without overflow more courage is never slower. */
  lemma CourageIsFaster(c: Config, less: Word, more: Word)
    requires less <= more
    requires c.courageScale * more + 1000 < WORD && c.pointPerTick * (1000 + c.courageScale * more) < WORD
    ensures PlainGain(c, less) <= PlainGain(c, more)
  {
    Monotonic(c.courageScale, less, more);
    assert 0 <= c.courageScale * less;
    Monotonic(c.pointPerTick, 1000 + c.courageScale * less, 1000 + c.courageScale * more);
    assert 0 <= c.pointPerTick * (1000 + c.courageScale * less);
    PlainGainIs(c, less);
    PlainGainIs(c, more);
    Quotients(c.pointPerTick * (1000 + c.courageScale * less), c.pointPerTick * (1000 + c.courageScale * more));
  }

  // ---------------------------------------------------------------------------------------------
  // Accounting over any sequence of ticks.

  /** What a tick meets: between ticks the gauge may be filled and spent, and the loadout may change. */
  datatype Moment = Moment(now: int, starPoints: Word, rate: Rate)

  function After(interval: nat, start: int, ms: seq<Moment>): Gauge
    requires interval > 0
  {
    if ms == [] then Gauge(0, None)
    else
      var m := ms[|ms| - 1];
      var before := After(interval, start, ms[..|ms| - 1]);
      Tick(interval, start, m.rate, Gauge(m.starPoints, before.anchor), m.now)
  }

  /** How many intervals have been counted. */
  function Counted(interval: nat, start: int, ms: seq<Moment>): nat
    requires interval > 0
  {
    if ms == [] then 0
    else
      Counted(interval, start, ms[..|ms| - 1])
      + Ticks(interval, start, After(interval, start, ms[..|ms| - 1]), ms[|ms| - 1].now)
  }

  /** One tick settles the time it counts and at most as much again. */
  lemma OneTick(interval: nat, start: int, rate: Rate, g: Gauge, now: int)
    requires interval > 0
    ensures
      var whole := Ticks(interval, start, g, now) * interval;
      var settled := AnchorOf(Tick(interval, start, rate, g, now), start) - AnchorOf(g, start);
      whole <= settled <= 2 * whole && (now > start ==> now - AnchorOf(g, start) < settled + interval)
  {
    if now > start && now > AnchorOf(g, start) {
      WholeIntervals(now - AnchorOf(g, start), interval);
    }
  }

  /** Whatever the ticks meet, the intervals counted never exceed the time settled, and although each tick
      discards its remainder, at least half of that time is counted. What is not settled at a tick is less
      than one interval. */
  lemma {:induction false} TicksAreAccounted(interval: nat, start: int, ms: seq<Moment>)
    requires interval > 0
    ensures
      var settled := AnchorOf(After(interval, start, ms), start) - start;
      var whole := Counted(interval, start, ms) * interval;
      && whole <= settled <= 2 * whole
      && (ms != [] && ms[|ms| - 1].now > start ==> ms[|ms| - 1].now - start < settled + interval)
  {
    if ms != [] {
      var m, before := ms[|ms| - 1], ms[..|ms| - 1];
      TicksAreAccounted(interval, start, before);
      var g := After(interval, start, before);
      OneTick(interval, start, m.rate, Gauge(m.starPoints, g.anchor), m.now);
      Distribute(Counted(interval, start, before), Ticks(interval, start, g, m.now), interval);
    }
  }

  function LastNow(start: int, ms: seq<Moment>): int {
    if ms == [] then start else ms[|ms| - 1].now
  }

  ghost predicate Spaced(gap: nat, start: int, ms: seq<Moment>) {
    ms != [] ==>
      var before := ms[..|ms| - 1];
      LastNow(start, ms) == LastNow(start, before) + gap && Spaced(gap, start, before)
  }

  /** The bound of one half cannot be improved: ticks just short of two intervals apart count one each. */
  lemma {:induction false} HalfIsTight(interval: nat, start: int, ms: seq<Moment>)
    requires interval > 0 && Spaced(2 * interval - 1, start, ms)
    ensures Counted(interval, start, ms) == |ms|
    ensures AnchorOf(After(interval, start, ms), start) == LastNow(start, ms) >= start
  {
    if ms != [] {
      HalfIsTight(interval, start, ms[..|ms| - 1]);
      assert Intervals(2 * interval - 1, interval) == 1 + Intervals(interval - 1, interval);
    }
  }

  // ---------------------------------------------------------------------------------------------
  // A gauge that is left alone.

  function Fill(interval: nat, start: int, rate: Rate, g: Gauge, nows: seq<int>): Gauge
    requires interval > 0
    decreases |nows|
  {
    if nows == [] then g else Fill(interval, start, rate, Tick(interval, start, rate, g, nows[0]), nows[1..])
  }

  function FillTicks(interval: nat, start: int, rate: Rate, g: Gauge, nows: seq<int>): nat
    requires interval > 0
    decreases |nows|
  {
    if nows == [] then 0
    else
      Ticks(interval, start, g, nows[0])
      + FillTicks(interval, start, rate, Tick(interval, start, rate, g, nows[0]), nows[1..])
  }

  /** Without 32-bit overflow a gauge that is left alone gains the same for every interval counted, however
      the ticks are spaced, up to its maximum. */
  lemma {:induction false} GaugeFills(interval: nat, start: int, rate: Rate, g: Gauge, nows: seq<int>)
    requires interval > 0 && rate.regenerates && g.starPoints <= rate.max
    requires FillTicks(interval, start, rate, g, nows) < WORD
    requires FillTicks(interval, start, rate, g, nows) * rate.perTick + rate.max < WORD
    ensures
      Fill(interval, start, rate, g, nows).starPoints
      == Min(rate.max, g.starPoints + FillTicks(interval, start, rate, g, nows) * rate.perTick)
    decreases |nows|
  {
    if nows == [] {
      assert FillTicks(interval, start, rate, g, nows) * rate.perTick == 0;
    } else {
      var ticks, next := Ticks(interval, start, g, nows[0]), Tick(interval, start, rate, g, nows[0]);
      var rest := FillTicks(interval, start, rate, next, nows[1..]);
      assert FillTicks(interval, start, rate, g, nows) == ticks + rest;
      Products(ticks, rest, rate.perTick);
      OneFill(interval, start, rate, g, nows[0]);
      GaugeFills(interval, start, rate, next, nows[1..]);
      Saturate(rate.max, g.starPoints, ticks * rate.perTick, rest * rate.perTick);
    }
  }

  lemma Products(a: nat, b: nat, c: nat)
    ensures (a + b) * c == a * c + b * c && 0 <= a * c && 0 <= b * c
  {
    Distribute(a, b, c);
  }

  lemma Saturate(max: nat, points: nat, a: nat, b: nat)
    ensures Min(max, Min(max, points + a) + b) == Min(max, points + (a + b))
  {
  }

  lemma GainIs(perTick: Word, ticks: nat)
    requires ticks < WORD && ticks * perTick < WORD
    ensures Gain(perTick, ticks) == ticks * perTick && (ticks == 0 ==> ticks * perTick == 0)
  {
  }

  lemma OneFill(interval: nat, start: int, rate: Rate, g: Gauge, now: int)
    requires interval > 0 && rate.regenerates && g.starPoints <= rate.max
    requires Ticks(interval, start, g, now) < WORD
    requires Ticks(interval, start, g, now) * rate.perTick + rate.max < WORD
    ensures
      Tick(interval, start, rate, g, now).starPoints
      == Min(rate.max, g.starPoints + Ticks(interval, start, g, now) * rate.perTick)
  {
    GainIs(rate.perTick, Ticks(interval, start, g, now));
  }
}
