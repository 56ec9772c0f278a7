/**
 * `getProps` (index.js:1027-1091) and `mapDirectToProperty` (index.js:915-921): where the page
 * is between `from` and `to`, the value of every prop at that point, the element the values
 * go to, and which callback fires.
 */
module Interpolation {
  import opened Wrappers
  import opened Easings
  import opened Units
  import opened Validation

  /** `precisePercentage`, a JavaScript number: finite, an infinity, or NaN. */
  datatype Percentage = Finite(p: real) | PosInfinity | NegInfinity | NotANumber

  /**
   * How far the page is scrolled from `from` towards `to`, in percent of the distance:
   * `current / (total / 100)`. With `from == to` the division is by zero.
   */
  function Precise(from: real, to: real, scrollTop: real): (r: Percentage)
    ensures r.Finite? <==> from != to
    ensures r.Finite? ==> r.p * (to - from) == 100.0 * (scrollTop - from)
    ensures from == to ==>
      && (r == PosInfinity <==> scrollTop > from)
      && (r == NegInfinity <==> scrollTop < from)
      && (r == NotANumber <==> scrollTop == from)
  {
    var total := to - from;
    var current := scrollTop - from;
    if total != 0.0 then Finite(current / (total / 100.0))
    else if current > 0.0 then PosInfinity
    else if current < 0.0 then NegInfinity
    else NotANumber
  }

  function Min(a: real, b: real): real { if a <= b then a else b }

  function Max(a: real, b: real): real { if a >= b then a else b }

  /** `Math.min(Math.max(p, 0), 100)`; NaN stays NaN (None). */
  function Normalized(p: Percentage): (r: Option<real>)
    ensures r.None? <==> p.NotANumber?
    ensures r.Some? ==> 0.0 <= r.value <= 100.0
    ensures p.Finite? && 0.0 <= p.p <= 100.0 ==> r == Some(p.p)
    ensures (p.Finite? && p.p < 0.0) || p.NegInfinity? ==> r == Some(0.0)
    ensures (p.Finite? && p.p > 100.0) || p.PosInfinity? ==> r == Some(100.0)
  {
    match p
    case Finite(x) => Some(Min(Max(x, 0.0), 100.0))
    case PosInfinity => Some(100.0)
    case NegInfinity => Some(0.0)
    case NotANumber => None
  }

  /** `precisePercentage >= 0 && precisePercentage <= 100` */
  predicate IsInside(p: Percentage) { p.Finite? && 0.0 <= p.p && p.p <= 100.0 }

  /** `precisePercentage < 0 || precisePercentage > 100` */
  predicate IsOutside(p: Percentage) {
    (p.Finite? && (p.p < 0.0 || p.p > 100.0)) || p.PosInfinity? || p.NegInfinity?
  }

  /** The callback a frame invokes, with the precise percentage it passes; none for NaN. */
  datatype Event = Inside(fn: Callback, within: real) | Outside(fn: Callback, beyond: Percentage) | Silent

  function Fire(d: Data, p: Percentage): (e: Event)
    ensures e.Inside? <==> IsInside(p)
    ensures e.Outside? <==> IsOutside(p)
    ensures e.Inside? ==> e == Inside(d.inside, p.p)
    ensures e.Outside? ==> e == Outside(d.outside, p)
  {
    if IsInside(p) then Inside(d.inside, p.p)
    else if IsOutside(p) then Outside(d.outside, p)
    else Silent
  }

  /** `Math.round(v * 10000) / 10000`: rounding to four decimals, halves upwards. */
  function Round4(v: real): (r: real)
    ensures -1.0 / 20000.0 < r - v <= 1.0 / 20000.0
  {
    ((v * 10000.0 + 0.5).Floor as real) / 10000.0
  }

  /** A prop's value as written to the style: the rounded number (None for NaN) and the unit. */
  datatype Output = Output(value: Option<real>, unit: string)

  /** The unit of `from`, or that of `to` when `from` has none. */
  function UnitOf(p: Prop): string {
    if p.from.unit != "" then p.from.unit else p.to.unit
  }

  /**
   * One prop at a normalized percentage: `from - (from - to) * timing(percentage / 100)`.
   * A modelled curve gives a number exactly when the percentage is one.
   */
  function Interpolate(p: Prop, normalized: Option<real>, host: (Easing, Option<real>) -> Option<real>): (r: Output)
    ensures r.unit == (if p.from.unit != "" then p.from.unit else p.to.unit)
    ensures p.timing.Named? && p.timing.name in Polynomial ==> (r.value.Some? <==> normalized.Some?)
  {
    var time := Ease(p.timing, if normalized.Some? then Some(normalized.value / 100.0) else None, host);
    Output(if time.Some? then Some(Round4(Lerp(p.from.value, p.to.value, time.value))) else None, UnitOf(p))
  }

  /** `start - (start - end) * time`: the value at `time` on the way from `start` to `end`. */
  function Lerp(start: real, end: real, time: real): real {
    start - (start - end) * time
  }

  /** Every prop in key order. */
  function Outputs(props: seq<(string, Prop)>, normalized: Option<real>, host: (Easing, Option<real>) -> Option<real>)
    : (r: seq<(string, Output)>)
    ensures |r| == |props|
    ensures forall i :: 0 <= i < |props| ==>
      r[i].0 == props[i].0 && r[i].1 == Interpolate(props[i].1, normalized, host)
  {
    if props == [] then []
    else [(props[0].0, Interpolate(props[0].1, normalized, host))] + Outputs(props[1..], normalized, host)
  }

  /** The element styles are written to. */
  datatype StyleTarget = Root | Element(node: Node)

  /** `direct` true: the instance's element; an element: that one; false: the document element. */
  function MapDirect(direct: Direct, elem: Option<Node>): (t: StyleTarget)
    requires direct == Flag(true) ==> elem.Some?
    ensures t.Root? <==> direct == Flag(false)
    ensures direct.Target? ==> t == Element(direct.node)
    ensures direct == Flag(true) ==> t == Element(elem.value)
  {
    match direct
    case Flag(on) => if on then Element(elem.value) else Root
    case Target(n) => Element(n)
  }

  /** What one call of `getProps` produces: the target, the props and the callback it fires. */
  datatype Frame = Frame(target: StyleTarget, props: seq<(string, Output)>, event: Event)

  /**
   * `precisePercentage` of an instance: a NaN bound makes both differences, and so the
   * percentage, NaN.
   */
  function PercentOf(d: Data, scrollTop: real): Percentage {
    if d.from.value.Some? && d.to.value.Some? then Precise(d.from.value.value, d.to.value.value, scrollTop)
    else NotANumber
  }

  /**
   * One key per prop, in order, each with the unit of its `from` or else of its `to`; the
   * target follows `direct`.
   */
  function GetProps(d: Data, scrollTop: real, host: (Easing, Option<real>) -> Option<real>): (f: Frame)
    requires d.direct == Flag(true) ==> d.elem.Some?
    ensures f.target.Root? <==> d.direct == Flag(false)
    ensures |f.props| == |d.props|
    ensures forall i :: 0 <= i < |f.props| ==>
      && f.props[i].0 == d.props[i].0
      && f.props[i].1.unit == (if d.props[i].1.from.unit != "" then d.props[i].1.from.unit else d.props[i].1.to.unit)
  {
    var precise := PercentOf(d, scrollTop);
    Frame(MapDirect(d.direct, d.elem), Outputs(d.props, Normalized(precise), host), Fire(d, precise))
  }

  // -----------------------------------------------------------------------------------------
  // Properties of a frame

  /**
   * Exactly one callback fires unless a bound is NaN, or `from == to` and the page is exactly
   * at `from`; the inside callback fires exactly when the page is between `from` and `to`,
   * both included.
   */
  lemma {:induction false} CallbackChoice(d: Data, scrollTop: real, host: (Easing, Option<real>) -> Option<real>)
    requires d.direct == Flag(true) ==> d.elem.Some?
    ensures var e, a, b := GetProps(d, scrollTop, host).event, d.from.value, d.to.value;
      && (e.Silent? <==> a.None? || b.None? || (a.value == b.value && scrollTop == a.value))
      && (e.Inside? <==> a.Some? && b.Some? && a.value != b.value && Between(scrollTop, a.value, b.value))
  {
    if d.from.value.Some? && d.to.value.Some? {
      var a, b := d.from.value.value, d.to.value.value;
      if a != b {
        PercentRange(a, b, scrollTop);
      }
    }
  }

  /**
   * A NaN bound silences both callbacks, and every prop eased by a modelled curve gets a NaN
   * value.
   */
  lemma {:induction false} NaNBound(d: Data, scrollTop: real, host: (Easing, Option<real>) -> Option<real>)
    requires d.direct == Flag(true) ==> d.elem.Some?
    requires d.from.value.None? || d.to.value.None?
    ensures var f := GetProps(d, scrollTop, host);
      && f.event == Silent
      && forall i :: 0 <= i < |f.props| && d.props[i].1.timing.Named? && d.props[i].1.timing.name in Polynomial ==>
        f.props[i].1.value.None?
  {
  }

  /** `x` lies between `a` and `b`, whichever is larger. */
  predicate Between(x: real, a: real, b: real) {
    (a <= x <= b) || (b <= x <= a)
  }

  /** The percentage is in [0, 100] exactly when the page is between `from` and `to`. */
  lemma {:induction false} PercentRange(from: real, to: real, scrollTop: real)
    requires from != to
    ensures var p := Precise(from, to, scrollTop).p;
      (0.0 <= p <= 100.0) <==> Between(scrollTop, from, to)
  {
    var p := Precise(from, to, scrollTop).p;
    var total := to - from;
    var current := scrollTop - from;
    assert p * total == 100.0 * current;
    assert (p - 100.0) * total == 100.0 * (current - total);
    if total > 0.0 {
      ProductSign(p, total);
      ProductSign(p - 100.0, total);
    } else {
      ProductSign(-p, -total);
      ProductSign(100.0 - p, -total);
    }
  }

  /** Rounding leaves a value that already has at most four decimals unchanged. */
  lemma {:induction false} RoundExact(k: int)
    ensures Round4(k as real / 10000.0) == k as real / 10000.0
  {
    var v := k as real / 10000.0;
    assert v * 10000.0 == k as real;
    assert (v * 10000.0 + 0.5).Floor == k;
  }

  /**
   * For every modelled curve, at the start of the range a prop takes its `from` value and at
   * the end its `to` value, both rounded.
   */
  lemma {:induction false} Endpoints(p: Prop, host: (Easing, Option<real>) -> Option<real>)
    requires p.timing.Named? && p.timing.name in Polynomial
    ensures Interpolate(p, Some(0.0), host) == Output(Some(Round4(p.from.value)), UnitOf(p))
    ensures Interpolate(p, Some(100.0), host) == Output(Some(Round4(p.to.value)), UnitOf(p))
  {
    CurveEndpoints(p.timing.name);
    assert 0.0 / 100.0 == 0.0;
    assert 100.0 / 100.0 == 1.0;
  }

  /** Rounding to four decimals keeps the order of its arguments. */
  lemma {:induction false} Round4Monotone(x: real, y: real)
    requires x <= y
    ensures Round4(x) <= Round4(y)
  {
    var fx, fy := (x * 10000.0 + 0.5).Floor, (y * 10000.0 + 0.5).Floor;
    assert fx as real <= x * 10000.0 + 0.5 <= y * 10000.0 + 0.5 < fy as real + 1.0;
    assert fx <= fy;
  }

  /** Rounding keeps a value between two bounds between the rounded bounds. */
  lemma {:induction false} RoundBetween(x: real, a: real, b: real)
    requires Between(x, a, b)
    ensures Between(Round4(x), Round4(a), Round4(b))
  {
    if a <= x <= b {
      Round4Monotone(a, x);
      Round4Monotone(x, b);
    } else {
      Round4Monotone(b, x);
      Round4Monotone(x, a);
    }
  }

  /**
   * With `linear` timing and a percentage n in [0, 100] the value is the rounded linear
   * interpolation at n / 100; before rounding it lies between `from` and `to`, and after
   * rounding between their rounded values.
   */
  lemma {:induction false} LinearBetween(p: Prop, n: real, host: (Easing, Option<real>) -> Option<real>)
    requires p.timing == Named("linear") && 0.0 <= n <= 100.0
    ensures var out, v := Interpolate(p, Some(n), host), Lerp(p.from.value, p.to.value, n / 100.0);
      && out.value == Some(Round4(v))
      && Between(v, p.from.value, p.to.value)
      && Between(out.value.value, Round4(p.from.value), Round4(p.to.value))
  {
    assert "linear" in Polynomial;
    LinearIsIdentity(n / 100.0, host);
    EasedValue(p, Some(n), host, n / 100.0);
    LinearInRange(p.from.value, p.to.value, n / 100.0);
    RoundBetween(Lerp(p.from.value, p.to.value, n / 100.0), p.from.value, p.to.value);
  }

  /** When the timing maps the percentage to `time`, the value is `from` moved towards `to` by `time`. */
  lemma {:induction false} EasedValue(p: Prop, normalized: Option<real>, host: (Easing, Option<real>) -> Option<real>, time: real)
    requires normalized.Some? && Ease(p.timing, Some(normalized.value / 100.0), host) == Some(time)
    ensures Interpolate(p, normalized, host).value == Some(Round4(Lerp(p.from.value, p.to.value, time)))
  {
  }

  /** A linear interpolation at a time in [0, 1] lies between its endpoints. */
  lemma {:induction false} LinearInRange(a: real, b: real, t: real)
    requires 0.0 <= t <= 1.0
    ensures Between(Lerp(a, b, t), a, b)
  {
    TowardsEnd(a, b, t);
    TowardsEnd(b, a, 1.0 - t);
    assert Lerp(a, b, t) == Lerp(b, a, 1.0 - t);
  }

  /** Moving from `a` towards `b` never passes `a` in the other direction. */
  lemma {:induction false} TowardsEnd(a: real, b: real, t: real)
    requires 0.0 <= t <= 1.0
    ensures a >= b ==> Lerp(a, b, t) <= a
    ensures a <= b ==> Lerp(a, b, t) >= a
  {
    if a >= b {
      Scale(a - b, t);
    } else {
      Scale(b - a, t);
    }
  }

  /** Scaling a non-negative amount by a factor in [0, 1] keeps it within [0, amount]. */
  lemma {:induction false} Scale(x: real, t: real)
    requires x >= 0.0 && 0.0 <= t <= 1.0
    ensures 0.0 <= x * t <= x
  {
    assert x * t <= x * 1.0 by {
      assert x * (1.0 - t) >= 0.0;
    }
  }

  /** At or before `from`, on the side away from `to`, the percentage clamps to 0. */
  lemma {:induction false} BeforeRange(from: real, to: real, scrollTop: real)
    requires (from < to && scrollTop <= from) || (to < from && from <= scrollTop)
    ensures Normalized(Precise(from, to, scrollTop)) == Some(0.0)
  {
    var total := to - from;
    var current := scrollTop - from;
    var p := Precise(from, to, scrollTop).p;
    assert p * total == 100.0 * current;
    if total > 0.0 {
      ProductSign(p, total);
    } else {
      assert (-p) * (-total) == 100.0 * current;
      ProductSign(-p, -total);
    }
  }

  /** At or past `to`, on the side away from `from`, the percentage clamps to 100. */
  lemma {:induction false} AfterRange(from: real, to: real, scrollTop: real)
    requires (from < to && scrollTop >= to) || (to < from && scrollTop <= to)
    ensures Normalized(Precise(from, to, scrollTop)) == Some(100.0)
  {
    var total := to - from;
    var current := scrollTop - from;
    var p := Precise(from, to, scrollTop).p;
    assert (p - 100.0) * total == 100.0 * (current - total) by {
      assert p * total == 100.0 * current;
    }
    if total > 0.0 {
      ProductSign(p - 100.0, total);
    } else {
      assert (100.0 - p) * (-total) == 100.0 * (current - total);
      ProductSign(100.0 - p, -total);
    }
  }

  /** A product with a positive factor has the sign of the other factor. */
  lemma {:induction false} ProductSign(x: real, y: real)
    requires y > 0.0
    ensures x * y >= 0.0 <==> x >= 0.0
    ensures x * y <= 0.0 <==> x <= 0.0
  {
    if x < 0.0 {
      assert x * y < 0.0;
    } else if x > 0.0 {
      assert x * y > 0.0;
    }
  }

  /**
   * Opacity from "0" to "1" over the first 1000 pixels, eased linearly: half way down the
   * value is 0.5 and the inside callback receives 50.
   */
  lemma {:induction false} HalfWay(d: Data, host: (Easing, Option<real>) -> Option<real>)
    requires d.from == Parsed(Some(0.0), "px") && d.to == Parsed(Some(1000.0), "px") && d.direct == Flag(false)
    requires d.props == [("opacity", Prop(Amount(0.0, ""), Amount(1.0, ""), Named("linear")))]
    ensures GetProps(d, 500.0, host) ==
      Frame(Root, [("opacity", Output(Some(0.5), ""))], Inside(d.inside, 50.0))
  {
    assert Precise(0.0, 1000.0, 500.0) == Finite(50.0);
    RoundExact(5000);
    assert 5000 as real / 10000.0 == 0.5;
  }
}
