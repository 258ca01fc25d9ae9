/**
 The packed times of src/libserver/util/Util.cpp: a duration is split into years, months, days, hours and
 minutes, which are clamped and packed into one 32-bit word.
 */
module AliciaTime {
  import opened Arithmetic
  import opened Words

  // A duration counts nanoseconds. A year and a month are the average Gregorian ones, in seconds.
  const TICKS_PER_SECOND: nat := 1_000_000_000
  const YEAR: nat := 31_556_952
  const MONTH: nat := 2_629_746
  const DAY: nat := 86_400
  const HOUR: nat := 3_600
  const MINUTE: nat := 60

  datatype DateTime = DateTime(years: int, months: nat, days: nat, hours: nat, minutes: nat)

  // ---------------------------------------------------------------------------------------------
  // Bits of natural numbers.

  function Pow2(k: nat): (r: nat)
    ensures r > 0
  {
    if k == 0 then 1 else 2 * Pow2(k - 1)
  }

  function Or(a: nat, b: nat): nat
    decreases a + b
  {
    if a == 0 && b == 0 then 0
    else (if a % 2 == 1 || b % 2 == 1 then 1 else 0) + 2 * Or(a / 2, b / 2)
  }

  lemma {:induction false} OrZero(a: nat)
    ensures Or(0, a) == a && Or(a, 0) == a
  {
    if a != 0 {
      OrZero(a / 2);
    }
  }

  lemma OrEven(low: nat, half: nat)
    ensures Or(low, 2 * half) == low % 2 + 2 * Or(low / 2, half)
  {
    assert (2 * half) / 2 == half && (2 * half) % 2 == 0;
  }

  lemma Halves(low: nat, high: nat)
    ensures (low + 2 * high) / 2 == low / 2 + high && (low + 2 * high) % 2 == low % 2
  {
  }

  lemma MulDouble(a: nat, b: nat)
    ensures a * (2 * b) == 2 * (a * b)
  {
  }

  /** Or-ing in bits from position `k` on leaves those below alone. */
  lemma {:induction false} OrAbove(low: nat, high: nat, bits: nat, k: nat)
    requires low < Pow2(k)
    ensures Or(low + high * Pow2(k), bits * Pow2(k)) == low + Or(high, bits) * Pow2(k)
  {
    if k > 0 {
      var half := Pow2(k - 1);
      MulDouble(high, half);
      MulDouble(bits, half);
      MulDouble(Or(high, bits), half);
      Halves(low, high * half);
      OrEven(low + high * Pow2(k), bits * half);
      OrAbove(low / 2, high, bits, k - 1);
    }
  }

  lemma {:induction false} OrBelow(a: nat, b: nat, k: nat)
    requires a < Pow2(k) && b < Pow2(k)
    ensures Or(a, b) < Pow2(k)
  {
    if k > 0 {
      OrBelow(a / 2, b / 2, k - 1);
    }
  }

  /** Or-ing in bits below position `k` leaves those from there on alone. */
  lemma {:induction false} OrUnder(low: nat, high: nat, bits: nat, k: nat)
    requires low < Pow2(k) && bits < Pow2(k)
    ensures Or(low + high * Pow2(k), bits) == Or(low, bits) + high * Pow2(k)
  {
    if k == 0 {
      OrZero(high);
    } else {
      MulDouble(high, Pow2(k - 1));
      Halves(low, high * Pow2(k - 1));
      OrUnder(low / 2, high, bits / 2, k - 1);
    }
  }

  /** Bits or-ed into the `j` bits from position `k` on change no others. */
  lemma OrField(low: nat, mid: nat, high: nat, bits: nat, k: nat, j: nat, p: nat, q: nat)
    requires p == Pow2(k) && q == Pow2(j) && low < p && mid < q && bits < q
    ensures Or(low + (mid + high * q) * p, bits * p) == low + (Or(mid, bits) + high * q) * p
    ensures Or(mid, bits) < q
  {
    OrAbove(low, mid + high * q, bits, k);
    OrUnder(mid, high, bits, j);
    OrBelow(mid, bits, j);
  }

  // ---------------------------------------------------------------------------------------------
  // Packing.

  /** A negative year is converted to an unsigned word. */
  function DateTimeToAliciaTime(d: DateTime): nat {
    Or(Or(Or(Or(
      Min(d.years, 4095) % WORD,
      Min(d.months, 15) * Pow2(12)),
      Min(d.days, 31) * Pow2(12 + 4)),
      Min(d.hours, 31) * Pow2(12 + 4 + 5)),
      Min(d.minutes, 63) * Pow2(12 + 4 + 5 + 5))
  }

  function Unpack(time: nat): DateTime {
    DateTime(
      time % Pow2(12),
      time / Pow2(12) % Pow2(4),
      time / Pow2(16) % Pow2(5),
      time / Pow2(21) % Pow2(5),
      time / Pow2(26))
  }

  lemma PowersOfTwo()
    ensures Pow2(4) == 16 && Pow2(5) == 32 && Pow2(12) == 4096 && Pow2(16) == 65536
    ensures Pow2(21) == 2097152 && Pow2(26) == 67108864 && Pow2(6) == 64
  {
    assert Pow2(4) == 16;
    assert Pow2(8) == 256;
    assert Pow2(12) == 4096;
    assert Pow2(16) == 65536;
    assert Pow2(20) == 1048576;
    assert Pow2(24) == 16777216;
    assert Pow2(6) == 64;
  }

  /** The word that has these fields. */
  function Fields(d: DateTime): int {
    d.years + (d.months + (d.days + (d.hours + d.minutes * 32) * 32) * 16) * 4096
  }

  predicate FitsFields(d: DateTime) {
    0 <= d.years < 4096 && d.months < 16 && d.days < 32 && d.hours < 32 && d.minutes < 64
  }

  lemma UnpackFields(d: DateTime)
    requires FitsFields(d)
    ensures 0 <= Fields(d) < WORD && Unpack(Fields(d)) == d
  {
    PowersOfTwo();
    var DateTime(y, m, dd, h, n) := d;
    DivMod(y, m + (dd + (h + n * 32) * 32) * 16, 4096);
    DivMod(m, dd + (h + n * 32) * 32, 16);
    DivMod(dd, h + n * 32, 32);
    DivMod(h, n, 32);
    DivMod(y + m * 4096, dd + (h + n * 32) * 32, 65536);
    DivMod(y + m * 4096 + dd * 65536, h + n * 32, 2097152);
    DivMod(y + m * 4096 + dd * 65536 + h * 2097152, n, 67108864);
  }

  /** Every word has fields. */
  lemma SplitFields(time: nat) returns (d: DateTime)
    requires time < WORD
    ensures FitsFields(d) && Fields(d) == time && Unpack(time) == d
  {
    var m := time / 4096;
    var dd := m / 16;
    var h := dd / 32;
    d := DateTime(time % 4096, m % 16, dd % 32, h % 32, h / 32);
    UnpackFields(d);
  }

  // Each field of a word takes up the bits of one part of the date.

  lemma OrFourBits(word: nat, low: nat, mid: nat, high: nat, bits: nat, k: nat, p: nat) returns (field: nat)
    requires word == low + (mid + high * 16) * p && low < p == Pow2(k) && mid < 16 && bits < 16
    ensures field == Or(mid, bits) && field < 16 && Or(word, bits * p) == low + (field + high * 16) * p
  {
    assert Pow2(4) == 16;
    OrField(low, mid, high, bits, k, 4, p, 16);
    field := Or(mid, bits);
  }

  lemma OrFiveBits(word: nat, low: nat, mid: nat, high: nat, bits: nat, k: nat, p: nat) returns (field: nat)
    requires word == low + (mid + high * 32) * p && low < p == Pow2(k) && mid < 32 && bits < 32
    ensures field == Or(mid, bits) && field < 32 && Or(word, bits * p) == low + (field + high * 32) * p
  {
    assert Pow2(5) == 32;
    OrField(low, mid, high, bits, k, 5, p, 32);
    field := Or(mid, bits);
  }

  lemma OrSixBits(word: nat, low: nat, mid: nat, bits: nat, k: nat, p: nat) returns (field: nat)
    requires word == low + mid * p && low < p == Pow2(k) && mid < 64 && bits < 64
    ensures field == Or(mid, bits) && field < 64 && Or(word, bits * p) == low + field * p
  {
    assert Pow2(6) == 64;
    OrAbove(low, mid, bits, k);
    OrBelow(mid, bits, 6);
    field := Or(mid, bits);
  }

  lemma OrMonths(w: DateTime, months: nat) returns (r: DateTime)
    requires FitsFields(w) && months < 16
    ensures r == w.(months := Or(w.months, months)) && FitsFields(r) && Or(Fields(w), months * 4096) == Fields(r)
  {
    PowersOfTwo();
    var field := OrFourBits(
      Fields(w), w.years, w.months, w.days + (w.hours + w.minutes * 32) * 32, months, 12, 4096);
    r := w.(months := field);
  }

  lemma OrDays(w: DateTime, days: nat) returns (r: DateTime)
    requires FitsFields(w) && days < 32
    ensures r == w.(days := Or(w.days, days)) && FitsFields(r) && Or(Fields(w), days * 65536) == Fields(r)
  {
    PowersOfTwo();
    var field := OrFiveBits(
      Fields(w), w.years + w.months * 4096, w.days, w.hours + w.minutes * 32, days, 16, 65536);
    r := w.(days := field);
  }

  lemma OrHours(w: DateTime, hours: nat) returns (r: DateTime)
    requires FitsFields(w) && hours < 32
    ensures r == w.(hours := Or(w.hours, hours)) && FitsFields(r) && Or(Fields(w), hours * 2097152) == Fields(r)
  {
    PowersOfTwo();
    var field := OrFiveBits(
      Fields(w), w.years + w.months * 4096 + w.days * 65536, w.hours, w.minutes, hours, 21, 2097152);
    r := w.(hours := field);
  }

  lemma OrMinutes(w: DateTime, minutes: nat) returns (r: DateTime)
    requires FitsFields(w) && minutes < 64
    ensures r == w.(minutes := Or(w.minutes, minutes)) && FitsFields(r)
    ensures Or(Fields(w), minutes * 67108864) == Fields(r)
  {
    PowersOfTwo();
    var field := OrSixBits(
      Fields(w), w.years + w.months * 4096 + w.days * 65536 + w.hours * 2097152, w.minutes, minutes, 26, 67108864);
    r := w.(minutes := field);
  }

  lemma OrFields(w: DateTime, months: nat, days: nat, hours: nat, minutes: nat) returns (r: DateTime)
    requires FitsFields(w) && months < 16 && days < 32 && hours < 32 && minutes < 64
    ensures r == DateTime(
      w.years, Or(w.months, months), Or(w.days, days), Or(w.hours, hours), Or(w.minutes, minutes))
    ensures FitsFields(r)
    ensures Or(Or(Or(Or(Fields(w), months * 4096), days * 65536), hours * 2097152), minutes * 67108864) == Fields(r)
  {
    r := OrMonths(w, months);
    r := OrDays(r, days);
    r := OrHours(r, hours);
    r := OrMinutes(r, minutes);
  }

  lemma PackedFrom(d: DateTime, year: nat, m: nat, dd: nat, h: nat, n: nat)
    requires year == Min(d.years, 4095) % WORD && m == Min(d.months, 15) && dd == Min(d.days, 31)
    requires h == Min(d.hours, 31) && n == Min(d.minutes, 63)
    ensures DateTimeToAliciaTime(d) == Or(Or(Or(Or(year, m * 4096), dd * 65536), h * 2097152), n * 67108864)
  {
    PowersOfTwo();
  }

  lemma Unpacked(d: DateTime) returns (r: DateTime)
    ensures FitsFields(r) && DateTimeToAliciaTime(d) == Fields(r) && Unpack(DateTimeToAliciaTime(d)) == r
    ensures
      var w := Unpack(Min(d.years, 4095) % WORD);
      r == DateTime(
        w.years, Or(w.months, Min(d.months, 15)), Or(w.days, Min(d.days, 31)), Or(w.hours, Min(d.hours, 31)),
        Or(w.minutes, Min(d.minutes, 63)))
  {
    var year: nat := Min(d.years, 4095) % WORD;
    var m, dd, h, n := Min(d.months, 15), Min(d.days, 31), Min(d.hours, 31), Min(d.minutes, 63);
    var w := SplitFields(year);
    r := OrFields(w, m, dd, h, n);
    PackedFrom(d, year, m, dd, h, n);
    UnpackFields(r);
  }

  /** Whatever the date, the word fits 32 bits, and what unpacking it gives are the fields of the year as a
      word, with the other parts of the date, clamped to their widths, or-ed into theirs. */
  lemma UnpackPacked(d: DateTime)
    ensures DateTimeToAliciaTime(d) < WORD
    ensures
      var w := Unpack(Min(d.years, 4095) % WORD);
      Unpack(DateTimeToAliciaTime(d)) ==
      DateTime(
        w.years, Or(w.months, Min(d.months, 15)), Or(w.days, Min(d.days, 31)), Or(w.hours, Min(d.hours, 31)),
        Or(w.minutes, Min(d.minutes, 63)))
  {
    var r := Unpacked(d);
    UnpackFields(r);
  }

  lemma UnpackedAs(d: DateTime, w: DateTime, r: DateTime)
    requires FitsFields(w) && Fields(w) == Min(d.years, 4095) % WORD
    requires r.years == w.years && r.months == Or(w.months, Min(d.months, 15)) && r.days == Or(w.days, Min(d.days, 31))
    requires r.hours == Or(w.hours, Min(d.hours, 31)) && r.minutes == Or(w.minutes, Min(d.minutes, 63))
    ensures DateTimeToAliciaTime(d) == Fields(r) && Unpack(DateTimeToAliciaTime(d)) == r
  {
    UnpackFields(w);
    var u := Unpacked(d);
  }

  lemma OrsOfZero(d: DateTime, w: DateTime)
    requires w.months == w.days == w.hours == w.minutes == 0
    ensures Min(d.months, 15) == Or(w.months, Min(d.months, 15)) && Min(d.days, 31) == Or(w.days, Min(d.days, 31))
    ensures Min(d.hours, 31) == Or(w.hours, Min(d.hours, 31)) && Min(d.minutes, 63) == Or(w.minutes, Min(d.minutes, 63))
  {
    OrZero(Min(d.months, 15));
    OrZero(Min(d.days, 31));
    OrZero(Min(d.hours, 31));
    OrZero(Min(d.minutes, 63));
  }

  lemma FitsYear(d: DateTime, w: DateTime)
    requires d.years >= 0 && w == DateTime(Min(d.years, 4095), 0, 0, 0, 0)
    ensures FitsFields(w) && Fields(w) == Min(d.years, 4095) % WORD
  {
  }

  /** From the year 0 on every field is given back, clamped to its width. */
  lemma FieldsAreGivenBack(d: DateTime)
    requires d.years >= 0
    ensures
      Unpack(DateTimeToAliciaTime(d)) ==
      DateTime(Min(d.years, 4095), Min(d.months, 15), Min(d.days, 31), Min(d.hours, 31), Min(d.minutes, 63))
  {
    var w := DateTime(Min(d.years, 4095), 0, 0, 0, 0);
    FitsYear(d, w);
    OrsOfZero(d, w);
    UnpackedAs(d, w, DateTime(w.years, Min(d.months, 15), Min(d.days, 31), Min(d.hours, 31), Min(d.minutes, 63)));
  }

  lemma OrOnesStep(p: nat, bits: nat)
    requires p > 0 && Or(p - 1, bits / 2) == p - 1
    ensures Or(2 * p - 1, bits) == 2 * p - 1
  {
    assert (2 * p - 1) / 2 == p - 1 && (2 * p - 1) % 2 == 1;
  }

  lemma {:induction false} OrOnes(bits: nat, k: nat)
    requires bits < Pow2(k)
    ensures Or(Pow2(k) - 1, bits) == Pow2(k) - 1
  {
    if k > 0 {
      OrOnes(bits / 2, k - 1);
      OrOnesStep(Pow2(k - 1), bits);
    }
  }

  lemma OrsOfOnes(d: DateTime)
    ensures Or(15, Min(d.months, 15)) == 15 && Or(31, Min(d.days, 31)) == 31
    ensures Or(31, Min(d.hours, 31)) == 31 && Or(63, Min(d.minutes, 63)) == 63
  {
    PowersOfTwo();
    OrOnes(Min(d.months, 15), 4);
    OrOnes(Min(d.days, 31), 5);
    OrOnes(Min(d.hours, 31), 5);
    OrOnes(Min(d.minutes, 63), 6);
  }

  /** In the 4096 years before that nothing but the year is given back: the other fields read as their largest
      values whatever the date. */
  lemma EarlierFieldsAreLost(d: DateTime)
    requires -4096 <= d.years < 0
    ensures DateTimeToAliciaTime(d) == WORD + d.years
    ensures Unpack(DateTimeToAliciaTime(d)) == DateTime(4096 + d.years, 15, 31, 31, 63)
  {
    var r := DateTime(4096 + d.years, 15, 31, 31, 63);
    OrsOfOnes(d);
    UnpackedAs(d, r, r);
  }

  lemma DivMod(low: nat, high: nat, p: nat)
    requires low < p
    ensures (low + high * p) % p == low && (low + high * p) / p == high
  {
    Quotient(low, high, p, (low + high * p) / p, (low + high * p) % p);
  }

  lemma Quotient(low: nat, high: nat, p: nat, q: int, r: int)
    requires low < p && 0 <= r < p && low + high * p == q * p + r
    ensures q == high && r == low
  {
    assert (q - high) * p == low - r;
    Multiple(q - high, p);
    Multiple(high - q, p);
  }

  lemma Multiple(d: int, p: nat)
    requires p > 0
    ensures d >= 1 ==> d * p >= p
  {
  }

  // ---------------------------------------------------------------------------------------------
  // Durations.

  function Seconds(d: DateTime): int {
    d.years * YEAR + d.months * MONTH + d.days * DAY + d.hours * HOUR + d.minutes * MINUTE
  }

  /** The seconds a packed time stands for. */
  function PackedSeconds(time: nat): int {
    Seconds(Unpack(time))
  }

  /** Casting a duration to seconds truncates towards zero. */
  function WholeSeconds(duration: int): int {
    if duration >= 0 then duration / TICKS_PER_SECOND else -(-duration / TICKS_PER_SECOND)
  }

  method DurationToAliciaTime(duration: int) returns (time: nat)
    ensures exists d :: IsSplit(d, duration) && time == DateTimeToAliciaTime(d)
    ensures
      var packed := PackedSeconds(time) * TICKS_PER_SECOND;
      (packed <= duration < packed + MINUTE * TICKS_PER_SECOND) <==> 0 <= duration < 4096 * YEAR * TICKS_PER_SECOND
  {
    var timeLeft := WholeSeconds(duration);
    var years := timeLeft / YEAR;
    timeLeft := timeLeft - years * YEAR;
    var months := timeLeft / MONTH;
    timeLeft := timeLeft - months * MONTH;
    var days := timeLeft / DAY;
    timeLeft := timeLeft - days * DAY;
    var hours := timeLeft / HOUR;
    timeLeft := timeLeft - hours * HOUR;
    var minutes := timeLeft / MINUTE;
    timeLeft := timeLeft - minutes * MINUTE;
    var d := DateTime(years, months, days, hours, minutes);
    assert IsSplit(d, duration);
    LosslessIff(duration, d);
    time := DateTimeToAliciaTime(d);
  }

  /** The mixed-radix split of a duration: what is left below each unit is less than that unit. */
  predicate IsSplit(d: DateTime, duration: int) {
    var rest := WholeSeconds(duration) - Seconds(d);
    && 0 <= rest < MINUTE
    && d.minutes * MINUTE + rest < HOUR
    && d.hours * HOUR + d.minutes * MINUTE + rest < DAY
    && d.days * DAY + d.hours * HOUR + d.minutes * MINUTE + rest < MONTH
    && d.months * MONTH + d.days * DAY + d.hours * HOUR + d.minutes * MINUTE + rest < YEAR
  }

  /** Packing a duration loses less than a minute exactly when it is not negative and shorter than 4096 years. */
  lemma LosslessIff(duration: int, d: DateTime)
    requires IsSplit(d, duration)
    ensures
      var packed := PackedSeconds(DateTimeToAliciaTime(d)) * TICKS_PER_SECOND;
      (packed <= duration < packed + MINUTE * TICKS_PER_SECOND) <==> 0 <= duration < 4096 * YEAR * TICKS_PER_SECOND
  {
    assert d.months < 12 && d.days <= 30 && d.hours < 24 && d.minutes < 60;
    if d.years >= 0 {
      FieldsAreGivenBack(d);
      assert Unpack(DateTimeToAliciaTime(d)) == d.(years := Min(d.years, 4095));
    } else {
      var r := Unpacked(d);
      assert PackedSeconds(DateTimeToAliciaTime(d)) == Seconds(r) >= 0 > duration;
    }
  }

  /** Every duration the clock can count (64-bit nanoseconds, less than 293 years) is packed without loss. */
  lemma ClockDurationsAreLossless(duration: nat, d: DateTime)
    requires IsSplit(d, duration) && duration < 0x8000_0000_0000_0000
    ensures
      var packed := PackedSeconds(DateTimeToAliciaTime(d)) * TICKS_PER_SECOND;
      packed <= duration < packed + MINUTE * TICKS_PER_SECOND
  {
    LosslessIff(duration, d);
  }
}
