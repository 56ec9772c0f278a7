/**
 * `validate` (index.js:959-1019): checks an instance's raw configuration in a fixed order,
 * fills in defaults, resolves relative `from`/`to` values against the element and the
 * viewport, and parses every prop into numbers, units and an easing.
 */
module Validation {
  import opened Wrappers
  import opened Units
  import opened Easings
  import opened Anchors

  /** The identity of a DOM element. */
  type Node = nat

  /** A configuration field as the checks see it; functions are known by their identity. */
  datatype Js = Nullish | Bool(flag: bool) | Str(text: string) | Func(fn: nat) | Elem(node: Node) | Other

  /** A prop as given: `from` and `to` by their string form (None: missing), and its timing. */
  datatype RawProp = RawProp(from: Option<string>, to: Option<string>, timing: Js)

  /**
   * The `props` field: missing, an object (its own keys in enumeration order), or anything else.
   * The keys of an object are distinct; the model does not check this of `entries`.
   */
  datatype PropsField = PropsNullish | PropsObject(entries: seq<(string, RawProp)>) | PropsOther

  /** The configuration passed to `create`; `from` and `to` by their string form. */
  datatype Config = Config(
    from: Option<string>, to: Option<string>, elem: Option<Node>, direct: Js, track: Js,
    props: PropsField, inside: Js, outside: Js)

  datatype Callback = Noop | Call(fn: nat)

  /** Where styles go: `false` (the root element), `true` (the instance's element) or an element. */
  datatype Direct = Flag(on: bool) | Target(node: Node)

  /** A parsed absolute value. */
  datatype Amount = Amount(value: real, unit: string)

  datatype Prop = Prop(from: Amount, to: Amount, timing: Easing)

  /**
   * The validated data an instance keeps. `from` and `to` are what `parseAbsoluteValue`
   * returns for them, so their number may be NaN (None) where `validate` lets one through.
   */
  datatype Data = Data(
    from: Parsed, to: Parsed, elem: Option<Node>, direct: Direct, track: bool,
    props: seq<(string, Prop)>, inside: Callback, outside: Callback)

  /** The errors `validate` throws, one per check. */
  datatype Error =
    | MissingFrom | MissingTo | InsideNotFunction | OutsideNotFunction | DirectInvalid
    | ElemRequired | TrackNotBoolean | PropsNotObject
    | FromNotAbsolute | ToNotAbsolute | FromNotResolvable | ToNotResolvable
    | PropFromNotAbsolute(key: string) | PropToNotAbsolute(key: string)
    | TimingInvalid(key: string) | TimingUnknown(key: string)

  // -----------------------------------------------------------------------------------------
  // Field checks with their defaults

  /** `inside`/`outside`: undefined becomes a no-op; otherwise it must be a function. */
  function AsCallback(js: Js): Option<Callback> {
    match js
    case Nullish => Some(Noop)
    case Func(f) => Some(Call(f))
    case _ => None
  }

  /** `direct`: undefined becomes `false`; otherwise a boolean or an element. */
  function AsDirect(js: Js): Option<Direct> {
    match js
    case Nullish => Some(Flag(false))
    case Bool(b) => Some(Flag(b))
    case Elem(n) => Some(Target(n))
    case _ => None
  }

  /** `track`: undefined becomes `true`; otherwise a boolean. */
  function AsTrack(js: Js): Option<bool> {
    match js
    case Nullish => Some(true)
    case Bool(b) => Some(b)
    case _ => None
  }

  function Entries(props: PropsField): seq<(string, RawProp)> {
    if props.PropsObject? then props.entries else []
  }

  /** `parseAbsoluteValue` of an absolute value; None when the value is missing or not absolute. */
  function ReadAmount(v: Option<string>): (r: Option<Amount>)
    ensures r.Some? <==> v.Some? && IsAbsolute(v.value)
    ensures r.Some? ==> ParseUnit(v.value) == Parsed(Some(r.value.value), r.value.unit)
  {
    if v.None? then None
    else
      var p := ParseUnit(v.value);
      if p.value.None? then None else Some(Amount(p.value.value, p.unit))
  }

  /** The value can serve as `from`/`to`: absolute, or relative when there is an element. */
  predicate Resolvable(v: string, elem: Option<Node>) {
    IsAbsolute(v) || (elem.Some? && IsRelative(v))
  }

  /**
   * The top-level `from`/`to` as intended: without an element it must be absolute; with one,
   * a relative value is resolved to pixels and anything else must still be absolute.
   */
  function ResolveBound(v: string, elem: Option<Node>, view: Viewport, rectOf: Node -> Rect): (r: Option<Parsed>)
    ensures r.Some? <==> Resolvable(v, elem)
    ensures r.Some? ==> r.value.value.Some?
    ensures elem.Some? && IsRelative(v) ==> r == Some(Parsed(Some(ToAbsolute(v, rectOf(elem.value), view)), "px"))
    ensures r.Some? && !(elem.Some? && IsRelative(v)) ==> r.value == ParseUnit(v)
  {
    if elem.Some? && IsRelative(v) then Some(Parsed(Some(ToAbsolute(v, rectOf(elem.value), view)), "px"))
    else if IsAbsolute(v) then Some(ParseUnit(v))
    else None
  }

  /**
   * The top-level bound as written: without an element it must be absolute; with one, a
   * relative value is resolved and anything else is parsed unchecked, NaN included.
   */
  function ResolveBoundAsWritten(v: string, elem: Option<Node>, view: Viewport, rectOf: Node -> Rect): (r: Option<Parsed>)
    ensures r.None? <==> elem.None? && !IsAbsolute(v)
    ensures elem.Some? && IsRelative(v) ==> r == Some(Parsed(Some(ToAbsolute(v, rectOf(elem.value), view)), "px"))
    ensures r.Some? && !(elem.Some? && IsRelative(v)) ==> r.value == ParseUnit(v)
  {
    if elem.None? then (if IsAbsolute(v) then Some(ParseUnit(v)) else None)
    else if IsRelative(v) then Some(Parsed(Some(ToAbsolute(v, rectOf(elem.value), view)), "px"))
    else Some(ParseUnit(v))
  }

  /** A prop's timing: undefined becomes `linear`; a name must be a key of the easing table. */
  function CheckTiming(key: string, timing: Js): (r: Result<Easing, Error>)
    ensures r.Ok? <==> timing.Nullish? || timing.Func? || (timing.Str? && timing.text in Names)
    ensures r.Err? ==> r.error == (if timing.Str? then TimingUnknown(key) else TimingInvalid(key))
  {
    match timing
    case Nullish => Ok(Named("linear"))
    case Func(f) => Ok(Custom(f))
    case Str(name) => if Known(name) then Ok(Named(name)) else Err(TimingUnknown(key))
    case _ => Err(TimingInvalid(key))
  }

  /** The timing check as written, where a name is looked up on a plain object. */
  function CheckTimingAsWritten(key: string, timing: Js): (r: Result<Easing, Error>)
    ensures r.Ok? <==> timing.Nullish? || timing.Func? || (timing.Str? && (timing.text in Names || timing.text in Inherited))
    ensures r.Err? ==> r.error == (if timing.Str? then TimingUnknown(key) else TimingInvalid(key))
  {
    match timing
    case Nullish => Ok(Named("linear"))
    case Func(f) => Ok(Custom(f))
    case Str(name) => if KnownAsWritten(name) then Ok(Named(name)) else Err(TimingUnknown(key))
    case _ => Err(TimingInvalid(key))
  }

  /** One prop: `from`, then `to`, then the timing, whose check has given `timing`. */
  function CheckProp(key: string, raw: RawProp, timing: Result<Easing, Error>): (r: Result<Prop, Error>)
    ensures r.Ok? <==> ReadAmount(raw.from).Some? && ReadAmount(raw.to).Some? && timing.Ok?
    ensures r.Ok? ==> r.value == Prop(ReadAmount(raw.from).value, ReadAmount(raw.to).value, timing.value)
    ensures r.Err? && ReadAmount(raw.from).None? ==> r.error == PropFromNotAbsolute(key)
    ensures r.Err? && ReadAmount(raw.from).Some? && ReadAmount(raw.to).None? ==> r.error == PropToNotAbsolute(key)
    ensures r.Err? && ReadAmount(raw.from).Some? && ReadAmount(raw.to).Some? ==> r.error == timing.error
  {
    match ReadAmount(raw.from)
    case None => Err(PropFromNotAbsolute(key))
    case Some(from) =>
      match ReadAmount(raw.to)
      case None => Err(PropToNotAbsolute(key))
      case Some(to) =>
        match timing
        case Err(e) => Err(e)
        case Ok(t) => Ok(Prop(from, to, t))
  }

  /** A prop as intended. */
  function ValidateProp(key: string, raw: RawProp): Result<Prop, Error> {
    CheckProp(key, raw, CheckTiming(key, raw.timing))
  }

  /** A prop as written. */
  function ValidatePropAsWritten(key: string, raw: RawProp): Result<Prop, Error> {
    CheckProp(key, raw, CheckTimingAsWritten(key, raw.timing))
  }

  /**
   * The reduce over the props' keys: each entry checked in key order; the first entry that
   * fails decides the error.
   */
  function ValidateEach(entries: seq<(string, RawProp)>, check: (string, RawProp) -> Result<Prop, Error>)
    : (r: Result<seq<(string, Prop)>, Error>)
    ensures r.Ok? ==> |r.value| == |entries|
    ensures r.Ok? ==> forall i :: 0 <= i < |entries| ==>
      r.value[i].0 == entries[i].0 && check(entries[i].0, entries[i].1) == Ok(r.value[i].1)
    ensures r.Err? ==>
      exists i :: 0 <= i < |entries| && check(entries[i].0, entries[i].1) == Err(r.error) &&
        forall j :: 0 <= j < i ==> check(entries[j].0, entries[j].1).Ok?
  {
    if entries == [] then Ok([])
    else
      match check(entries[0].0, entries[0].1)
      case Err(e) => Err(e)
      case Ok(p) =>
        match ValidateEach(entries[1..], check)
        case Err(e) =>
          ghost var i :| 0 <= i < |entries[1..]| && check(entries[1..][i].0, entries[1..][i].1) == Err(e) &&
            forall j :: 0 <= j < i ==> check(entries[1..][j].0, entries[1..][j].1).Ok?;
          assert check(entries[i + 1].0, entries[i + 1].1) == Err(e);
          Err(e)
        case Ok(rest) => Ok([(entries[0].0, p)] + rest)
  }

  /** Settings the checks before the bounds produce, defaults filled in. */
  datatype Settings = Settings(direct: Direct, track: bool, inside: Callback, outside: Callback)

  /** The checks on everything but the values of `from`, `to` and the props, in their order. */
  function CheckFields(cfg: Config): (r: Result<Settings, Error>)
    ensures r.Ok? ==> cfg.from.Some? && cfg.to.Some? && !cfg.props.PropsOther?
    ensures r.Ok? ==> (r.value.direct == Flag(true) ==> cfg.elem.Some?)
  {
    if cfg.from.None? then Err(MissingFrom)
    else if cfg.to.None? then Err(MissingTo)
    else if AsCallback(cfg.inside).None? then Err(InsideNotFunction)
    else if AsCallback(cfg.outside).None? then Err(OutsideNotFunction)
    else if AsDirect(cfg.direct).None? then Err(DirectInvalid)
    else if AsDirect(cfg.direct) == Some(Flag(true)) && cfg.elem.None? then Err(ElemRequired)
    else if AsTrack(cfg.track).None? then Err(TrackNotBoolean)
    else if cfg.props.PropsOther? then Err(PropsNotObject)
    else Ok(Settings(AsDirect(cfg.direct).value, AsTrack(cfg.track).value,
                     AsCallback(cfg.inside).value, AsCallback(cfg.outside).value))
  }

  /**
   * `validate` as intended: the data it produces, or the error it throws. A bound that cannot
   * be resolved and a timing name the table lacks are rejected.
   */
  function Validate(cfg: Config, view: Viewport, rectOf: Node -> Rect): (r: Result<Data, Error>)
    ensures r.Ok? ==> r.value.elem == cfg.elem
    ensures r.Ok? ==> (r.value.direct == Flag(true) ==> r.value.elem.Some?)
    ensures r.Ok? ==> |r.value.props| == |Entries(cfg.props)|
  {
    match CheckFields(cfg)
    case Err(e) => Err(e)
    case Ok(s) =>
      match ResolveBound(cfg.from.value, cfg.elem, view, rectOf)
      case None => Err(if cfg.elem.None? then FromNotAbsolute else FromNotResolvable)
      case Some(from) =>
        match ResolveBound(cfg.to.value, cfg.elem, view, rectOf)
        case None => Err(if cfg.elem.None? then ToNotAbsolute else ToNotResolvable)
        case Some(to) =>
          match ValidateEach(Entries(cfg.props), ValidateProp)
          case Err(e) => Err(e)
          case Ok(props) => Ok(Data(from, to, cfg.elem, s.direct, s.track, props, s.inside, s.outside))
  }

  /**
   * `validate` as written: with an element, a bound is parsed without a check, and a timing
   * name is looked up on a plain object.
   */
  function ValidateAsWritten(cfg: Config, view: Viewport, rectOf: Node -> Rect): (r: Result<Data, Error>)
    ensures r.Ok? ==> r.value.elem == cfg.elem
    ensures r.Ok? ==> (r.value.direct == Flag(true) ==> r.value.elem.Some?)
    ensures r.Ok? ==> |r.value.props| == |Entries(cfg.props)|
  {
    match CheckFields(cfg)
    case Err(e) => Err(e)
    case Ok(s) =>
      match ResolveBoundAsWritten(cfg.from.value, cfg.elem, view, rectOf)
      case None => Err(FromNotAbsolute)
      case Some(from) =>
        match ResolveBoundAsWritten(cfg.to.value, cfg.elem, view, rectOf)
        case None => Err(ToNotAbsolute)
        case Some(to) =>
          match ValidateEach(Entries(cfg.props), ValidatePropAsWritten)
          case Err(e) => Err(e)
          case Ok(props) => Ok(Data(from, to, cfg.elem, s.direct, s.track, props, s.inside, s.outside))
  }

  // -----------------------------------------------------------------------------------------
  // What a valid configuration is, stated field by field

  predicate IsCallable(js: Js) { js.Nullish? || js.Func? }

  predicate PropOk(raw: RawProp) {
    && raw.from.Some? && IsAbsolute(raw.from.value)
    && raw.to.Some? && IsAbsolute(raw.to.value)
    && (raw.timing.Nullish? || raw.timing.Func? || (raw.timing.Str? && raw.timing.text in Names))
  }

  predicate FieldsOk(cfg: Config) {
    && cfg.from.Some? && cfg.to.Some?
    && IsCallable(cfg.inside) && IsCallable(cfg.outside)
    && (cfg.direct.Nullish? || cfg.direct.Bool? || cfg.direct.Elem?)
    && (cfg.direct == Bool(true) ==> cfg.elem.Some?)
    && (cfg.track.Nullish? || cfg.track.Bool?)
    && !cfg.props.PropsOther?
  }

  predicate ConfigOk(cfg: Config) {
    && FieldsOk(cfg)
    && Resolvable(cfg.from.value, cfg.elem) && Resolvable(cfg.to.value, cfg.elem)
    && forall i :: 0 <= i < |Entries(cfg.props)| ==> PropOk(Entries(cfg.props)[i].1)
  }

  lemma {:induction false} PropIff(key: string, raw: RawProp)
    ensures ValidateProp(key, raw).Ok? <==> PropOk(raw)
  {
  }

  lemma {:induction false} PropsIff(entries: seq<(string, RawProp)>)
    ensures ValidateEach(entries, ValidateProp).Ok? <==> forall i :: 0 <= i < |entries| ==> PropOk(entries[i].1)
  {
    forall i | 0 <= i < |entries| {
      PropIff(entries[i].0, entries[i].1);
    }
  }

  lemma {:induction false} FieldsIff(cfg: Config)
    ensures CheckFields(cfg).Ok? <==> FieldsOk(cfg)
  {
  }

  /** `validate` succeeds exactly on well-formed configurations, whatever the geometry. */
  lemma {:induction false} ValidateIff(cfg: Config, view: Viewport, rectOf: Node -> Rect)
    ensures Validate(cfg, view, rectOf).Ok? <==> ConfigOk(cfg)
  {
    FieldsIff(cfg);
    if CheckFields(cfg).Ok? {
      PropsIff(Entries(cfg.props));
    }
  }

  // -----------------------------------------------------------------------------------------
  // The order of the checks

  /** The position of each check in `validate`; every prop check comes after all the others. */
  function Rank(e: Error): nat {
    match e
    case MissingFrom => 0
    case MissingTo => 1
    case InsideNotFunction => 2
    case OutsideNotFunction => 3
    case DirectInvalid => 4
    case ElemRequired => 5
    case TrackNotBoolean => 6
    case PropsNotObject => 7
    case FromNotAbsolute => 8
    case FromNotResolvable => 8
    case ToNotAbsolute => 9
    case ToNotResolvable => 9
    case _ => 10
  }

  /** The configuration fails the check that throws `e`, stated without running the others. */
  predicate Violated(cfg: Config, e: Error) {
    match e
    case MissingFrom => cfg.from.None?
    case MissingTo => cfg.to.None?
    case InsideNotFunction => !IsCallable(cfg.inside)
    case OutsideNotFunction => !IsCallable(cfg.outside)
    case DirectInvalid => !(cfg.direct.Nullish? || cfg.direct.Bool? || cfg.direct.Elem?)
    case ElemRequired => cfg.direct == Bool(true) && cfg.elem.None?
    case TrackNotBoolean => !(cfg.track.Nullish? || cfg.track.Bool?)
    case PropsNotObject => cfg.props.PropsOther?
    case FromNotAbsolute => cfg.elem.None? && cfg.from.Some? && !IsAbsolute(cfg.from.value)
    case FromNotResolvable => cfg.elem.Some? && cfg.from.Some? && !Resolvable(cfg.from.value, cfg.elem)
    case ToNotAbsolute => cfg.elem.None? && cfg.to.Some? && !IsAbsolute(cfg.to.value)
    case ToNotResolvable => cfg.elem.Some? && cfg.to.Some? && !Resolvable(cfg.to.value, cfg.elem)
    case _ =>
      exists i :: 0 <= i < |Entries(cfg.props)| &&
        ValidateProp(Entries(cfg.props)[i].0, Entries(cfg.props)[i].1) == Err(e)
  }

  lemma {:induction false} FieldsFirst(cfg: Config)
    ensures CheckFields(cfg).Err? ==> Violated(cfg, CheckFields(cfg).error)
    ensures forall e :: Violated(cfg, e) && Rank(e) < 8 ==>
      CheckFields(cfg).Err? && Rank(CheckFields(cfg).error) <= Rank(e)
  {
  }

  /** Where an error of `validate` comes from: the field checks, a bound, or a prop. */
  lemma {:induction false} ErrorSource(cfg: Config, view: Viewport, rectOf: Node -> Rect)
    requires Validate(cfg, view, rectOf).Err?
    ensures var e := Validate(cfg, view, rectOf).error;
      || (CheckFields(cfg).Err? && e == CheckFields(cfg).error)
      || (CheckFields(cfg).Ok? && ResolveBound(cfg.from.value, cfg.elem, view, rectOf).None? &&
          e == (if cfg.elem.None? then FromNotAbsolute else FromNotResolvable))
      || (CheckFields(cfg).Ok? && ResolveBound(cfg.from.value, cfg.elem, view, rectOf).Some? &&
          ResolveBound(cfg.to.value, cfg.elem, view, rectOf).None? &&
          e == (if cfg.elem.None? then ToNotAbsolute else ToNotResolvable))
      || (CheckFields(cfg).Ok? && ResolveBound(cfg.from.value, cfg.elem, view, rectOf).Some? &&
          ResolveBound(cfg.to.value, cfg.elem, view, rectOf).Some? &&
          ValidateEach(Entries(cfg.props), ValidateProp) == Err(e))
  {
  }

  /** Once the field checks pass, the bound and prop errors come in their order. */
  lemma {:induction false} LaterFirst(cfg: Config, e: Error)
    requires FieldsOk(cfg)
    requires
      || (!Resolvable(cfg.from.value, cfg.elem) && e == (if cfg.elem.None? then FromNotAbsolute else FromNotResolvable))
      || (Resolvable(cfg.from.value, cfg.elem) && !Resolvable(cfg.to.value, cfg.elem) &&
          e == (if cfg.elem.None? then ToNotAbsolute else ToNotResolvable))
      || (Resolvable(cfg.from.value, cfg.elem) && Resolvable(cfg.to.value, cfg.elem) &&
          exists i :: 0 <= i < |Entries(cfg.props)| &&
            ValidateProp(Entries(cfg.props)[i].0, Entries(cfg.props)[i].1) == Err(e))
    ensures Violated(cfg, e) && forall e' :: Violated(cfg, e') ==> Rank(e) <= Rank(e')
  {
    if Resolvable(cfg.from.value, cfg.elem) && Resolvable(cfg.to.value, cfg.elem) {
      var i :| 0 <= i < |Entries(cfg.props)| &&
        ValidateProp(Entries(cfg.props)[i].0, Entries(cfg.props)[i].1) == Err(e);
      PropErrorKinds(Entries(cfg.props)[i].0, Entries(cfg.props)[i].1);
    }
  }

  /**
   * The error `validate` throws is one the configuration really has, and no check that comes
   * earlier fails.
   */
  lemma {:induction false} FirstViolation(cfg: Config, view: Viewport, rectOf: Node -> Rect)
    requires Validate(cfg, view, rectOf).Err?
    ensures var e := Validate(cfg, view, rectOf).error;
      Violated(cfg, e) && forall e' :: Violated(cfg, e') ==> Rank(e) <= Rank(e')
  {
    ErrorSource(cfg, view, rectOf);
    if CheckFields(cfg).Err? {
      FieldsFirst(cfg);
    } else {
      FieldsIff(cfg);
      LaterFirst(cfg, Validate(cfg, view, rectOf).error);
    }
  }

  /** A prop fails only with a prop error naming its own key. */
  lemma {:induction false} PropErrorKinds(key: string, raw: RawProp)
    ensures ValidateProp(key, raw).Err? ==>
      ValidateProp(key, raw).error in
        {PropFromNotAbsolute(key), PropToNotAbsolute(key), TimingInvalid(key), TimingUnknown(key)}
  {
  }

  /** Defaults for what is missing, and what is given is kept. */
  lemma {:induction false} FieldDefaults(cfg: Config)
    requires CheckFields(cfg).Ok?
    ensures var s := CheckFields(cfg).value;
      && s.inside == (if cfg.inside.Nullish? then Noop else Call(cfg.inside.fn))
      && s.outside == (if cfg.outside.Nullish? then Noop else Call(cfg.outside.fn))
      && s.direct == (match cfg.direct
                      case Bool(b) => Flag(b)
                      case Elem(n) => Target(n)
                      case _ => Flag(false))
      && s.track == (cfg.track.Nullish? || cfg.track.flag)
  {
  }

  /** The data keeps the settings the field checks produced. */
  lemma {:induction false} ValidateFields(cfg: Config, view: Viewport, rectOf: Node -> Rect)
    requires Validate(cfg, view, rectOf).Ok?
    ensures CheckFields(cfg).Ok?
    ensures var d, s := Validate(cfg, view, rectOf).value, CheckFields(cfg).value;
      d.direct == s.direct && d.track == s.track && d.inside == s.inside && d.outside == s.outside
    ensures ValidateEach(Entries(cfg.props), ValidateProp) == Ok(Validate(cfg, view, rectOf).value.props)
  {
  }

  /** A prop without timing eases linearly; a named timing is an entry of the table. */
  lemma {:induction false} TimingDefaults(key: string, raw: RawProp)
    requires ValidateProp(key, raw).Ok?
    ensures var t := ValidateProp(key, raw).value.timing;
      && (raw.timing.Nullish? ==> t == Named("linear"))
      && (raw.timing.Str? ==> t == Named(raw.timing.text) && raw.timing.text in Names)
      && (raw.timing.Func? ==> t == Custom(raw.timing.fn))
  {
  }

  /** The data's bounds are the resolved `from` and `to`. */
  lemma {:induction false} ValidateBounds(cfg: Config, view: Viewport, rectOf: Node -> Rect)
    requires Validate(cfg, view, rectOf).Ok?
    ensures CheckFields(cfg).Ok?
    ensures ResolveBound(cfg.from.value, cfg.elem, view, rectOf) == Some(Validate(cfg, view, rectOf).value.from)
    ensures ResolveBound(cfg.to.value, cfg.elem, view, rectOf) == Some(Validate(cfg, view, rectOf).value.to)
  {
  }

  /**
   * Whether and how `validate` fails does not depend on the geometry, and on success only
   * `from` and `to` do: recalculating a configuration that was accepted once cannot throw.
   */
  lemma {:induction false} GeometryIndependent(cfg: Config, v1: Viewport, r1: Node -> Rect, v2: Viewport, r2: Node -> Rect)
    ensures Validate(cfg, v1, r1).Ok? == Validate(cfg, v2, r2).Ok?
    ensures Validate(cfg, v1, r1).Err? ==> Validate(cfg, v2, r2) == Validate(cfg, v1, r1)
    ensures Validate(cfg, v1, r1).Ok? ==>
      var a, b := Validate(cfg, v1, r1).value, Validate(cfg, v2, r2).value;
      a.(from := b.from, to := b.to) == b
  {
    ValidateIff(cfg, v1, r1);
    ValidateIff(cfg, v2, r2);
    if Validate(cfg, v1, r1).Ok? {
      ValidateFields(cfg, v1, r1);
      ValidateFields(cfg, v2, r2);
    } else {
      ErrorSource(cfg, v1, r1);
      ErrorSource(cfg, v2, r2);
    }
  }

  // -----------------------------------------------------------------------------------------
  // Checks as written that let values through

  lemma {:induction false} MiddleIsNotRelative()
    ensures !IsRelative("middle") && ParseUnit("middle") == Parsed(None, "middle")
  {
    SpanAll("middle", IsLower);
    assert NoLineTerminator("middle");
    LetterStart("middle");
  }

  /**
   * With an element, a `from` that is neither absolute nor relative ("middle") passes the
   * check as written and becomes NaN; the corrected check rejects it.
   */
  lemma {:induction false} UnresolvableAccepted(n: Node, view: Viewport, rectOf: Node -> Rect)
    ensures ResolveBoundAsWritten("middle", Some(n), view, rectOf) == Some(Parsed(None, "middle"))
    ensures ResolveBound("middle", Some(n), view, rectOf).None?
  {
    MiddleIsNotRelative();
  }

  /**
   * The two bound checks agree exactly where the one as written does not let NaN through:
   * they differ only on a value, with an element, that is neither relative nor absolute.
   */
  lemma {:induction false} BoundAgreement(v: string, elem: Option<Node>, view: Viewport, rectOf: Node -> Rect)
    ensures var w := ResolveBoundAsWritten(v, elem, view, rectOf);
      ResolveBound(v, elem, view, rectOf) == w <==> w.None? || w.value.value.Some?
    ensures Resolvable(v, elem) ==> ResolveBound(v, elem, view, rectOf) == ResolveBoundAsWritten(v, elem, view, rectOf)
  {
  }

  /** A validated timing is a key of the easing table or a function. */
  predicate InTable(e: Easing) { e.Custom? || e.name in Names }

  predicate TableTimings(props: seq<(string, Prop)>) {
    forall i :: 0 <= i < |props| ==> InTable(props[i].1.timing)
  }

  /** What the intended checks add to the ones as written: numeric bounds and table timings. */
  predicate Intended(d: Data) {
    d.from.value.Some? && d.to.value.Some? && TableTimings(d.props)
  }

  /** One prop: the check as written agrees with the intended one unless the timing is inherited. */
  lemma {:induction false} PropAgreement(key: string, raw: RawProp)
    ensures ValidateProp(key, raw).Ok? ==>
      ValidatePropAsWritten(key, raw) == ValidateProp(key, raw) && InTable(ValidateProp(key, raw).value.timing)
    ensures ValidatePropAsWritten(key, raw).Ok? && InTable(ValidatePropAsWritten(key, raw).value.timing) ==>
      ValidateProp(key, raw) == ValidatePropAsWritten(key, raw)
  {
    if raw.timing.Str? && raw.timing.text in Inherited {
      TableNotInherited(raw.timing.text);
    } else {
      TimingAgreement(key, raw.timing);
    }
  }

  /** All props: where the intended reduce succeeds, the one as written gives the same props. */
  lemma {:induction false} PropsAgreement(entries: seq<(string, RawProp)>)
    ensures ValidateEach(entries, ValidateProp).Ok? ==>
      && ValidateEach(entries, ValidatePropAsWritten) == ValidateEach(entries, ValidateProp)
      && TableTimings(ValidateEach(entries, ValidateProp).value)
  {
    if entries != [] {
      PropAgreement(entries[0].0, entries[0].1);
      PropsAgreement(entries[1..]);
    }
  }

  /** Conversely, where the reduce as written gives table timings only, the intended one agrees. */
  lemma {:induction false} PropsAgreementBack(entries: seq<(string, RawProp)>)
    ensures ValidateEach(entries, ValidatePropAsWritten).Ok? && TableTimings(ValidateEach(entries, ValidatePropAsWritten).value) ==>
      ValidateEach(entries, ValidateProp) == ValidateEach(entries, ValidatePropAsWritten)
  {
    if entries != [] {
      PropAgreement(entries[0].0, entries[0].1);
      PropsAgreementBack(entries[1..]);
      var w := ValidateEach(entries, ValidatePropAsWritten);
      if w.Ok? && TableTimings(w.value) {
        assert TableTimings(w.value[1..]);
      }
    }
  }

  /**
   * The intended `validate` accepts exactly the configurations that `validate` as written
   * turns into data with numeric bounds and table timings, and on those the data is the same.
   */
  lemma {:induction false} AsWrittenAgreement(cfg: Config, view: Viewport, rectOf: Node -> Rect)
    ensures Validate(cfg, view, rectOf).Ok? <==>
      ValidateAsWritten(cfg, view, rectOf).Ok? && Intended(ValidateAsWritten(cfg, view, rectOf).value)
    ensures Validate(cfg, view, rectOf).Ok? ==> ValidateAsWritten(cfg, view, rectOf) == Validate(cfg, view, rectOf)
  {
    if CheckFields(cfg).Ok? {
      BoundAgreement(cfg.from.value, cfg.elem, view, rectOf);
      BoundAgreement(cfg.to.value, cfg.elem, view, rectOf);
      PropsAgreement(Entries(cfg.props));
      PropsAgreementBack(Entries(cfg.props));
    }
  }

  /** Whether and how `validate` as written fails does not depend on the geometry either. */
  lemma {:induction false} GeometryIndependentAsWritten(cfg: Config, v1: Viewport, r1: Node -> Rect, v2: Viewport, r2: Node -> Rect)
    ensures ValidateAsWritten(cfg, v1, r1).Ok? == ValidateAsWritten(cfg, v2, r2).Ok?
    ensures ValidateAsWritten(cfg, v1, r1).Err? ==> ValidateAsWritten(cfg, v2, r2) == ValidateAsWritten(cfg, v1, r1)
    ensures ValidateAsWritten(cfg, v1, r1).Ok? ==>
      var a, b := ValidateAsWritten(cfg, v1, r1).value, ValidateAsWritten(cfg, v2, r2).value;
      a.(from := b.from, to := b.to) == b
  {
    if CheckFields(cfg).Ok? {
      var from1, from2 := ResolveBoundAsWritten(cfg.from.value, cfg.elem, v1, r1), ResolveBoundAsWritten(cfg.from.value, cfg.elem, v2, r2);
      var to1, to2 := ResolveBoundAsWritten(cfg.to.value, cfg.elem, v1, r1), ResolveBoundAsWritten(cfg.to.value, cfg.elem, v2, r2);
      assert from1.Some? == from2.Some? && to1.Some? == to2.Some?;
    }
  }

  /**
   * With an element, a `from` that is neither relative nor absolute is accepted as written,
   * with a NaN bound, and rejected by the intended check.
   */
  lemma {:induction false} UnresolvableBoundAccepted(v: string, w: string, n: Node, view: Viewport, rectOf: Node -> Rect)
    requires !Resolvable(v, Some(n)) && IsAbsolute(w)
    ensures var cfg := Config(Some(v), Some(w), Some(n), Nullish, Nullish, PropsNullish, Nullish, Nullish);
      && ValidateAsWritten(cfg, view, rectOf).Ok?
      && ValidateAsWritten(cfg, view, rectOf).value.from == ParseUnit(v)
      && ParseUnit(v).value.None?
      && Validate(cfg, view, rectOf) == Err(FromNotResolvable)
  {
    var cfg := Config(Some(v), Some(w), Some(n), Nullish, Nullish, PropsNullish, Nullish, Nullish);
    assert CheckFields(cfg) == Ok(Settings(Flag(false), true, Noop, Noop));
    assert ResolveBoundAsWritten(w, Some(n), view, rectOf).Some?;
    assert ValidateEach([], ValidatePropAsWritten) == Ok([]);
  }

  /** "middle" with an element: the bound is NaN as written, an error as intended. */
  lemma {:induction false} MiddleBoundAccepted(n: Node, view: Viewport, rectOf: Node -> Rect)
    ensures var cfg := Config(Some("middle"), Some("120px"), Some(n), Nullish, Nullish, PropsNullish, Nullish, Nullish);
      && ValidateAsWritten(cfg, view, rectOf).Ok?
      && ValidateAsWritten(cfg, view, rectOf).value.from == Parsed(None, "middle")
      && Validate(cfg, view, rectOf) == Err(FromNotResolvable)
  {
    MiddleIsNotRelative();
    Parse120px();
    UnresolvableBoundAccepted("middle", "120px", n, view, rectOf);
  }

  /** A prop timed by an inherited name is accepted as written and rejected by the intended check. */
  lemma {:induction false} InheritedTimingProp(key: string, from: string, to: string, name: string)
    requires IsAbsolute(from) && IsAbsolute(to) && name in Inherited
    ensures ValidatePropAsWritten(key, RawProp(Some(from), Some(to), Str(name))).Ok?
    ensures ValidatePropAsWritten(key, RawProp(Some(from), Some(to), Str(name))).value.timing == Named(name)
    ensures ValidateProp(key, RawProp(Some(from), Some(to), Str(name))) == Err(TimingUnknown(key))
  {
    TableNotInherited(name);
  }

  /** "toString" passes the timing check as written but names no easing; the corrected check rejects it. */
  lemma {:induction false} InheritedTimingAccepted(key: string)
    ensures CheckTimingAsWritten(key, Str("toString")) == Ok(Named("toString"))
    ensures CheckTiming(key, Str("toString")) == Err(TimingUnknown(key))
  {
    InheritedNameAccepted();
  }

  /** The corrected timing check accepts a name exactly when the table has it. */
  lemma {:induction false} TimingIff(key: string, name: string)
    ensures CheckTiming(key, Str(name)).Ok? <==> name in Names
    ensures CheckTiming(key, Str(name)).Ok? ==> CheckTiming(key, Str(name)).value == Named(name)
  {
  }

  /** Both timing checks agree on every name an object does not inherit. */
  lemma {:induction false} TimingAgreement(key: string, timing: Js)
    requires !(timing.Str? && timing.text in Inherited)
    ensures CheckTimingAsWritten(key, timing) == CheckTiming(key, timing)
  {
  }
}
