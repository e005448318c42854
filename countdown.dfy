/**
 * The countdown widget: once a second it splits the milliseconds left until
 * the target time into hours, minutes and seconds; when no time is left it
 * shows zeros and stops its interval. Each value is shown zero-padded to two digits.
 */
module Countdown {
  import opened Text

  // Durations are in milliseconds: a second is 1000, a minute 60000, an hour 3600000.

  /** The `timeLeft` state. */
  datatype TimeLeft = TimeLeft(hours: int, minutes: int, seconds: int)

  const Zero: TimeLeft := TimeLeft(0, 0, 0)

  function TotalSeconds(t: TimeLeft): int {
    (t.hours * 60 + t.minutes) * 60 + t.seconds
  }

  /** The milliseconds the three fields stand for. */
  function Milliseconds(t: TimeLeft): int {
    t.hours * 3600000 + t.minutes * 60000 + t.seconds * 1000
  }

  /**
   * The decomposition of a positive difference `d`:
   * `floor(d / 3600000)`, `floor((d % 3600000) / 60000)`, `floor((d % 60000) / 1000)`.
   * For positive operands JavaScript's `%` and `Math.floor` agree with Dafny's `%` and `/`.
   */
  function Decompose(d: int): (t: TimeLeft)
    requires d > 0
    ensures t.hours >= 0
    ensures 0 <= t.minutes < 60
    ensures 0 <= t.seconds < 60
  {
    TimeLeft(d / 3600000, (d % 3600000) / 60000, (d % 60000) / 1000)
  }

  /**
   * `t` shows the difference `d` truncated to whole seconds: it stands for at most
   * `d` and falls short of it by less than one second.
   */
  predicate ShowsSecondsOf(t: TimeLeft, d: int) {
    1000 * TotalSeconds(t) <= d < 1000 * TotalSeconds(t) + 1000
  }

  /** The fields describe `d` to the second: they cover all of it except less than one second. */
  lemma DecomposeReconstructs(d: int)
    requires d > 0
    ensures Milliseconds(Decompose(d)) <= d < Milliseconds(Decompose(d)) + 1000
    ensures ShowsSecondsOf(Decompose(d), d)
  {
    var h, r := d / 3600000, d % 3600000;
    var m, r2 := r / 60000, r % 60000;
    var sec, r3 := r2 / 1000, r2 % 1000;
    MinuteSplit(d, h, r, m, r2);
    assert Decompose(d) == TimeLeft(h, m, sec);
    Reassemble(d, h, m, sec, r2, r3);
  }

  /** Splitting the hour remainder into minutes is splitting `d` into minutes. */
  lemma MinuteSplit(d: int, h: int, r: int, m: int, r2: int)
    requires d == 3600000 * h + r && 0 <= r < 3600000
    requires r == 60000 * m + r2 && 0 <= r2 < 60000
    ensures d % 60000 == r2
  {
    assert d == 60000 * (60 * h + m) + r2;
  }

  /** Hours, minutes and seconds that add up to `d` up to a sub-second rest stand for `d`. */
  lemma Reassemble(d: int, h: int, m: int, sec: int, r2: int, r3: int)
    requires 0 <= d - (3600000 * h + 60000 * m) == r2
    requires r2 == 1000 * sec + r3 && 0 <= r3 < 1000
    ensures Milliseconds(TimeLeft(h, m, sec)) <= d < Milliseconds(TimeLeft(h, m, sec)) + 1000
    ensures ShowsSecondsOf(TimeLeft(h, m, sec), d)
  {
  }

  /** A reading to the second is the whole seconds of the difference. */
  lemma ShownSecondsAreQuotient(t: TimeLeft, d: int)
    requires ShowsSecondsOf(t, d)
    ensures TotalSeconds(t) == d / 1000
  {
  }

  /** For a positive difference, the decomposed total seconds are `d / 1000`. */
  lemma DecomposeWholeSeconds(d: int)
    requires d > 0
    ensures TotalSeconds(Decompose(d)) == d / 1000
  {
    DecomposeReconstructs(d);
    ShownSecondsAreQuotient(Decompose(d), d);
  }

  /** What one tick shows for difference `d`: zeros once no time is left, else `d` to the second. */
  function Remaining(d: int): (t: TimeLeft)
    ensures d <= 0 ==> t == Zero
    ensures d > 0 ==> ShowsSecondsOf(t, d) && t.hours >= 0 && 0 <= t.minutes < 60 && 0 <= t.seconds < 60
    ensures TotalSeconds(t) >= 0
  {
    if d <= 0 then Zero
    else
      DecomposeReconstructs(d);
      Decompose(d)
  }

  /** A smaller difference never shows more time. */
  lemma RemainingMonotone(d1: int, d2: int)
    requires d1 <= d2
    ensures TotalSeconds(Remaining(d1)) <= TotalSeconds(Remaining(d2))
  {
  }

  /** The first tick, at or after mounting, shows no more than the initial `{ hours, 0, 0 }`. */
  lemma FirstTickNeverGrows(hours: int, mountedAt: int, now: int)
    requires hours >= 0 && now >= mountedAt
    ensures TotalSeconds(Remaining(mountedAt + hours * 3600000 - now)) <= TotalSeconds(TimeLeft(hours, 0, 0))
  {
  }

  /** The widget's state and its interval. */
  class CountdownTimer {
    /** `targetTime`, in milliseconds. */
    const target: int
    var timeLeft: TimeLeft
    /** The interval has not been cleared. */
    var running: bool

    /** A timer whose interval has been cleared shows zeros. */
    ghost predicate Valid()
      reads this
    {
      !running ==> timeLeft == Zero
    }

    /** Mounted at `mountedAt` with the `hours` prop: `{ hours, 0, 0 }`, the target `hours` ahead. */
    constructor (hours: int, mountedAt: int)
      ensures Valid()
      ensures timeLeft == TimeLeft(hours, 0, 0) && running
      ensures target == mountedAt + hours * 3600000
    {
      target := mountedAt + hours * 3600000;
      timeLeft := TimeLeft(hours, 0, 0);
      running := true;
    }

    /**
     * One firing of the interval at time `now`: the display becomes the time left to
     * the second, and the interval is cleared once none is left. A cleared interval
     * no longer fires, so a stopped timer keeps its zeros.
     */
    method Tick(now: int)
      requires Valid()
      modifies this
      ensures Valid()
      ensures !old(running) ==> timeLeft == old(timeLeft) && !running
      ensures old(running) ==> timeLeft == Remaining(target - now) && running == (target - now > 0)
    {
      if !running {
        return;
      }
      var difference := target - now;
      if difference <= 0 {
        running := false;
        timeLeft := Zero;
        return;
      }
      timeLeft := Remaining(difference);
    }
  }

  /** `value.toString().padStart(2, "0")`. */
  function TwoDigits(value: int): string {
    PadStart(IntToString(value), 2, '0')
  }

  /**
   * For a non-negative value the padded text is at least two digits long,
   * reads back as the value, and values 0-9 get exactly one leading `0`.
   */
  lemma TwoDigitsValue(value: nat)
    ensures var s := TwoDigits(value); var digits := NatToString(value);
      && |s| == (if |digits| >= 2 then |digits| else 2)
      && AllDigits(s) && DigitsValue(s) == value
      && (value < 10 <==> s == ['0'] + digits)
  {
    var digits := NatToString(value);
    var s := TwoDigits(value);
    NatToStringValue(value);
    if value < 10 {
      assert s == Repeat('0', 1) + digits;
      LeadingZerosValue(1, digits);
    } else {
      assert |digits| >= 2;
      assert s == digits;
    }
  }
}
