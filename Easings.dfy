/**
 * The easing table basicScroll looks timing names up in (index.js:609-641) and the curves
 * modelled concretely: `linear` and the polynomial families (back, cubic, quad, quart,
 * quint). The remaining curves use sines, square roots and powers of two; their values,
 * and those of user-supplied timing functions, are supplied by the host.
 */
module Easings {
  import opened Wrappers

  /** The 31 keys of the easing table. */
  const Names: set<string> := {
    "backInOut", "backIn", "backOut", "bounceInOut", "bounceIn", "bounceOut",
    "circInOut", "circIn", "circOut", "cubicInOut", "cubicIn", "cubicOut",
    "elasticInOut", "elasticIn", "elasticOut", "expoInOut", "expoIn", "expoOut",
    "linear", "quadInOut", "quadIn", "quadOut", "quartInOut", "quartIn", "quartOut",
    "quintInOut", "quintIn", "quintOut", "sineInOut", "sineIn", "sineOut"
  }

  /** A validated timing: an entry of the table, or a function the user passed in. */
  datatype Easing = Named(name: string) | Custom(fn: nat)

  /** The curves whose definitions the model carries: those built from arithmetic alone. */
  const Polynomial: set<string> := {
    "linear", "quadIn", "quadOut", "quadInOut", "cubicIn", "cubicOut", "cubicInOut",
    "quartIn", "quartOut", "quartInOut", "quintIn", "quintOut", "quintInOut",
    "backIn", "backOut", "backInOut"
  }

  /** The overshoot constant of the `back` family. */
  const Overshoot: real := 1.70158

  function Cube(x: real): real { x * x * x }

  function Fourth(x: real): real { x * x * x * x }

  /** The value of a polynomial curve at time `t`. */
  function Curve(name: string, t: real): real
    requires name in Polynomial
  {
    match name
    case "linear" => t
    case "quadIn" => t * t
    case "quadOut" => -t * (t - 2.0)
    case "quadInOut" =>
      var u := t / 0.5;
      if u < 1.0 then 0.5 * u * u else -0.5 * ((u - 1.0) * ((u - 1.0) - 2.0) - 1.0)
    case "cubicIn" => Cube(t)
    case "cubicOut" => Cube(t - 1.0) + 1.0
    case "cubicInOut" => if t < 0.5 then 4.0 * Cube(t) else 0.5 * Cube(2.0 * t - 2.0) + 1.0
    case "quartIn" => Fourth(t)
    case "quartOut" => Cube(t - 1.0) * (1.0 - t) + 1.0
    case "quartInOut" => if t < 0.5 then 8.0 * Fourth(t) else -8.0 * Fourth(t - 1.0) + 1.0
    case "quintIn" => t * Fourth(t)
    case "quintOut" => (t - 1.0) * Fourth(t - 1.0) + 1.0
    case "quintInOut" =>
      var u := t * 2.0;
      if u < 1.0 then 0.5 * u * Fourth(u) else 0.5 * ((u - 2.0) * Fourth(u - 2.0) + 2.0)
    case "backIn" => t * t * ((Overshoot + 1.0) * t - Overshoot)
    case "backOut" =>
      var u := t - 1.0;
      u * u * ((Overshoot + 1.0) * u + Overshoot) + 1.0
    case _ /* backInOut */ =>
      var s := Overshoot * 1.525;
      var u := t * 2.0;
      if u < 1.0 then 0.5 * (u * u * ((s + 1.0) * u - s))
      else 0.5 * ((u - 2.0) * (u - 2.0) * ((s + 1.0) * (u - 2.0) + s) + 2.0)
  }

  /**
   * Applying a timing to a time; None stands for NaN (every polynomial curve maps NaN to NaN).
   * `host` gives the value of the curves and functions the model does not define.
   */
  function Ease(e: Easing, t: Option<real>, host: (Easing, Option<real>) -> Option<real>): Option<real> {
    if e.Named? && e.name in Polynomial then
      (if t.Some? then Some(Curve(e.name, t.value)) else None)
    else host(e, t)
  }

  /** Every modelled curve starts at 0 and ends at 1. */
  lemma {:induction false} CurveEndpoints(name: string)
    requires name in Polynomial
    ensures Curve(name, 0.0) == 0.0 && Curve(name, 1.0) == 1.0
  {
    if name == "quadInOut" {
      assert 1.0 / 0.5 == 2.0;
    }
  }

  /** `linear` is the identity on every time. */
  lemma LinearIsIdentity(t: real, host: (Easing, Option<real>) -> Option<real>)
    ensures Ease(Named("linear"), Some(t), host) == Some(t)
  {
  }

  // -----------------------------------------------------------------------------------------
  // The lookup `_eases[name] == null` (index.js:1010) also finds what every object inherits.

  /** The properties a plain object inherits from `Object.prototype`. */
  const Inherited: set<string> := {
    "constructor", "hasOwnProperty", "isPrototypeOf", "propertyIsEnumerable",
    "toLocaleString", "toString", "valueOf", "__proto__",
    "__defineGetter__", "__defineSetter__", "__lookupGetter__", "__lookupSetter__"
  }

  /** The name check as written: the lookup is not null/undefined. */
  predicate KnownAsWritten(name: string) {
    name in Names || name in Inherited
  }

  /** The name check as intended: the name is a key of the table itself. */
  predicate Known(name: string) {
    name in Names
  }

  /** No key of the table is an inherited property. */
  lemma {:induction false} TableNotInherited(name: string)
    requires name in Inherited
    ensures name !in Names && KnownAsWritten(name) && !Known(name)
  {
  }

  /**
   * The inherited properties whose call throws: `__proto__` is an object, and the two
   * `__define...__` methods reject a missing second argument.
   */
  const Uncallable: set<string> := {"__proto__", "__defineGetter__", "__defineSetter__"}

  /** The check as written lets these names through, so the timing's first call throws. */
  lemma {:induction false} UncallableAccepted(name: string)
    requires name in Uncallable
    ensures name in Inherited && KnownAsWritten(name) && !Known(name)
  {
    TableNotInherited(name);
  }

  /** "toString" passes the check as written although no easing curve has that name. */
  lemma InheritedNameAccepted()
    ensures KnownAsWritten("toString") && !Known("toString")
  {
  }
}
