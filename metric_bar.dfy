/**
  Position of the marker on a clinical indicator's bar: where the current reading sits
  between the bar's two ends, as a percentage clamped to the bar.
 */
module MetricBar {
  import opened RealArith

  function Clamp(x: real, lo: real, hi: real): real
    requires lo <= hi
  {
    if x < lo then lo else if x > hi then hi else x
  }

  /** The marker position, in percent, of reading `current` on a bar from `lo` to
      `hi`. The two ends must differ (equal ends would divide by zero). */
  function Position(current: real, lo: real, hi: real): (pct: real)
    requires lo != hi
    ensures 0.0 <= pct <= 100.0
    ensures lo < hi && lo <= current <= hi ==> pct == (current - lo) / (hi - lo) * 100.0
    ensures lo < hi && current <= lo ==> pct == 0.0
    ensures lo < hi && hi <= current ==> pct == 100.0
  {
    var raw := (current - lo) / (hi - lo) * 100.0;
    assert lo < hi && lo <= current <= hi ==> 0.0 <= raw <= 100.0 by {
      if lo < hi && lo <= current <= hi {
        FractionInUnit(current - lo, hi - lo);
      }
    }
    assert lo < hi && current <= lo ==> raw <= 0.0 by {
      if lo < hi && current <= lo {
        FractionInUnit(0.0, hi - lo);
        DivideMonotone(current - lo, 0.0, hi - lo);
      }
    }
    assert lo < hi && hi <= current ==> raw >= 100.0 by {
      if lo < hi && hi <= current {
        DivideMonotone(hi - lo, current - lo, hi - lo);
        SelfDivide(hi - lo);
      }
    }
    Clamp(raw, 0.0, 100.0)
  }

  /** A higher reading never moves the marker to the left. */
  lemma PositionMonotone(c1: real, c2: real, lo: real, hi: real)
    requires lo < hi && c1 <= c2
    ensures Position(c1, lo, hi) <= Position(c2, lo, hi)
  {
    DivideMonotone(c1 - lo, c2 - lo, hi - lo);
  }
}
