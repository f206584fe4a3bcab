/** Converting brightness between percent and Home Assistant's 0 to 255. */
module Brightness {
  import opened Base

  function Clamp(x: real, high: real): real {
    var low := if x < high then x else high;
    if low > 0.0 then low else 0.0
  }

  function HaToPercent(x: real): int {
    Round(Clamp(x, 255.0) * 100.0 / 255.0)
  }

  function PercentToHa(x: real): int {
    Round(Clamp(x, 100.0) * 255.0 / 100.0)
  }

  lemma RoundIsWithinHalf(x: real)
    ensures x - 0.5 <= Round(x) as real <= x + 0.5
  {
  }

  lemma RoundIs(x: real, k: int)
    requires k as real - 0.5 < x < k as real + 0.5
    ensures Round(x) == k
  {
    RoundIsWithinHalf(x);
    assert -1.0 < Round(x) as real - k as real < 1.0;
  }

  /** A whole percentage survives the way to Home Assistant and back. */
  lemma PercentSurvives(p: int)
    requires 0 <= p <= 100
    ensures 0 <= PercentToHa(p as real) <= 255
    ensures HaToPercent(PercentToHa(p as real) as real) == p
  {
    var h := PercentToHa(p as real);
    RoundIsWithinHalf(p as real * 255.0 / 100.0);
    assert -0.5 <= h as real <= 255.5;
    RoundIs(h as real * 100.0 / 255.0, p);
  }

  /** The percentage of `h` is `20 * h / 51`; this says how far it is from a
      whole one. */
  predicate Survives(h: int) {
    var d := 20 * h % 51;
    d <= 9 || d >= 42 || ((d == 10 || d == 41) && h % 2 == 0)
  }

  lemma PercentageOf(h: int)
    requires 0 <= h <= 255
    ensures 0 <= HaToPercent(h as real) <= 100
    ensures -51 <= 2 * (20 * h - 51 * HaToPercent(h as real)) <= 51
  {
    RoundIsWithinHalf(h as real * 100.0 / 255.0);
  }

  /** `e` twentieths away from `h`, rounding leads back unless `e` is too large;
      a tie goes to the even side. */
  lemma RoundsBackExactlyWhen(h: int, e: int, x: real)
    requires x == h as real - e as real / 20.0
    ensures Round(x) == h <==> -10 < e < 10 || ((e == 10 || e == -10) && h % 2 == 0)
  {
    RoundIsWithinHalf(x);
    if -10 < e < 10 {
      RoundIs(x, h);
    }
  }

  /** The other way round, a whole brightness survives exactly when its
      percentage is close enough to a whole one. */
  lemma HaBrightnessSurvivesExactlyWhen(h: int)
    requires 0 <= h <= 255
    ensures PercentToHa(HaToPercent(h as real) as real) == h <==> Survives(h)
  {
    var p := HaToPercent(h as real);
    PercentageOf(h);
    var e := 20 * h - 51 * p;
    var x := p as real * 255.0 / 100.0;
    assert x == h as real - e as real / 20.0;
    assert PercentToHa(p as real) == Round(x);
    RoundsBackExactlyWhen(h, e, x);
    RemainderIs(h, p, e);
  }

  lemma RemainderIs(h: int, p: int, e: int)
    requires 20 * h == 51 * p + e && -51 < 2 * e < 51
    ensures 20 * h % 51 == if e >= 0 then e else e + 51
  {
  }

  /** For example 1 of 255 becomes 0 percent, and 0 again. */
  lemma HaBrightnessIsLost()
    ensures PercentToHa(HaToPercent(1.0) as real) == 0 && !Survives(1)
  {
    RoundIs(100.0 / 255.0, 0);
    RoundIs(0.0, 0);
  }

  /** Whatever is sent or read stays in range. */
  lemma InRange(x: real)
    ensures 0 <= HaToPercent(x) <= 100 && 0 <= PercentToHa(x) <= 255
  {
    RoundIsWithinHalf(Clamp(x, 255.0) * 100.0 / 255.0);
    RoundIsWithinHalf(Clamp(x, 100.0) * 255.0 / 100.0);
  }
}
