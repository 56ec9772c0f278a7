# basicScroll, modelled in Dafny

This project models the scroll-driven animation engine basicScroll as it is bundled in
`index.js`. An instance is created from a configuration with:

- a scroll range `from`…`to`, either absolute such as `"120px"` or relative such as
  `"top-bottom"`;
- an optional element;
- the `direct`, `track`, `inside` and `outside` options;
- a map of props, each animated from one value to another along an easing curve.

On every animation frame the engine:

1. works out how far the page has scrolled through each active instance's range;
2. computes the value of every prop at that point;
3. writes the values to the style target;
4. calls `inside` or `outside`.

The modules follow the parts of the engine:

- **Units**: `parseUnit` and the `parseFloat` it relies on. A value is split into the number at
  its start and the unit that follows; `isAbsoluteValue` and `parseAbsoluteValue` wrap it.
- **Easings**: the easing table's names. The polynomial curves are defined concretely,
  `linear` among them.
- **Anchors**: `isRelativeValue` and `relativeToAbsoluteValue`. An anchor expression becomes the
  scroll offset at which the element's anchor meets the viewport's anchor.
- **Validation**: `validate`, twice. `ValidateAsWritten` is the function as the code has it:
  it fills in defaults, runs its checks in a fixed order, resolves the range and rebuilds the
  props. `Validate` is the intended version, which also rejects two kinds of input that the
  code lets through (see "## Findings"). A lemma shows that the two agree on every
  configuration the intended version accepts.
- **Interpolation**: `getProps` and `mapDirectToProperty`. For one frame they give the raw and
  clamped percentages, each prop's rounded value and unit, the style target and the callback that
  fires.
- **Registry**: the `instances` array and the handles `create` returns, as the class `Engine`.
  It covers the active and tracked filters, one tick of `loop`, and the resize handler. Like
  the code, every recalculation runs `validate` as written. Only the corrected `create`
  runs the intended checks before it registers an instance.

Numbers are reals. JavaScript's NaN is `None`, and the raw percentage also has its infinities.
Thrown errors are `Err` values naming the check that failed. The page's geometry is a
parameter: the scroll offset, the viewport height and each element's bounding box. So are the
values of easing curves the model does not define and of user timing functions.

## Model

| member | source | states |
|---|---|---|
| Units.ParseUnit | index.js:768-776 | the number is read (not NaN) exactly when the text, after leading white space, starts like a number; the unit is no longer than the text and holds no line terminator |
| Units.IsAbsolute | index.js:878-881 | `isAbsoluteValue`: the number `parseUnit` reads is not NaN; `Units.AbsoluteIff` characterises these texts |
| Units.AbsoluteIff | index.js:878-881 | a value is absolute exactly when, after leading white space, it starts with a digit, optionally after a sign and/or a decimal point |
| Units.UnitOfLine | index.js:774 | on text without line terminators, the unit is everything after the leading run of digits, `.`, `-` and `+` characters and the white space that follows it |
| Units.UnitRender | index.js:774 | the text of a decimal number followed by a unit text yields exactly that unit |
| Units.FloatRender | index.js:771-772 | `parseFloat` of the text of a decimal number followed by a unit text is the number's value |
| Units.ParseRender | index.js:768-776 | round trip: `parseUnit` of a number's text followed by a unit gives back that number and that unit |
| Units.Parse120px | index.js:768-776 | `"120px"` parses to 120 with unit `"px"` |
| Units.Parse0 | index.js:768-776 | `"0"` parses to 0 with an empty unit |
| Units.LetterStart | index.js:768-776 | a single-line text that starts with a lower-case letter has no number (NaN), and the whole text is its unit |
| Easings.Curve | index.js:427-733 | the formulas of the polynomial curves; `Easings.CurveEndpoints` states their endpoints |
| Easings.Ease | index.js:1064 | applying a timing to a time: a modelled curve maps NaN to NaN and a number to its formula's value; other curves and user functions take their value from the host |
| Easings.CurveEndpoints | index.js:427-733 | every polynomial curve (linear, quad, cubic, quart, quint, back in all three forms) maps 0 to 0 and 1 to 1 |
| Easings.LinearIsIdentity | index.js:646-648 | `linear` returns its time unchanged |
| Easings.TableNotInherited | index.js:609-641 | no key of the easing table is a property that every object inherits |
| Easings.UncallableAccepted | index.js:1010 | "__proto__", "__defineGetter__" and "__defineSetter__" pass the check as written although none is an easing name |
| Easings.InheritedNameAccepted | index.js:1010 | the lookup as written finds "toString", which is not an easing name |
| Anchors.IsRelative | index.js:904-907 | `^[a-z]+-[a-z]+$`; `Anchors.RelativeSplit` and `Anchors.RelativeJoin` characterise it in both directions |
| Anchors.ToAbsolute | index.js:931-952 | the offset formula of `relativeToAbsoluteValue`; `Anchors.AnchorsMeet` states its geometric meaning |
| Anchors.RelativeSplit | index.js:904-907 | a relative value is a lower-case word, a hyphen and a lower-case word, and its two anchors are exactly those words |
| Anchors.RelativeJoin | index.js:904-907 | conversely, any two lower-case words joined by a hyphen form a relative value with those anchors |
| Anchors.AnchorsMeet | index.js:931-952 | with known anchors, scrolling to the resolved offset puts the element's anchor point at the viewport's anchor point |
| Anchors.UnknownWords | index.js:942-950 | anchor words other than top, middle and bottom contribute nothing: the offset is 0 |
| Anchors.ScrollInvariant | index.js:931-952 | the resolved offset is a document position: it does not change when the page scrolls and the element's box moves the other way |
| Anchors.RelativeIsNotAbsolute | index.js:878-881 | a relative value is never absolute: `parseUnit` reads NaN and keeps the whole text as unit |
| Anchors.DocumentExample | index.js:931-952 | a 200px element at 500px in an 800px viewport: "top-bottom" resolves to -300 and "bottom-top" to 700 |
| Anchors.PixelsRoundTrip | index.js:951 | the offset written as a decimal followed by "px" parses back to the same offset in pixels |
| Validation.ReadAmount | index.js:887-897 | a value parses to an amount exactly when it is present and absolute; the amount has the number and unit `parseUnit` reads |
| Validation.ResolveBoundAsWritten | index.js:981-992 | the bound check as written fails only without an element and on a value that is not absolute; with an element, a relative value becomes the resolved offset in px and any other value is parsed, NaN included |
| Validation.ResolveBound | index.js:981-992 | the intended bound check accepts a top-level `from`/`to` exactly when it is absolute, or relative with an element present; its number is never NaN; a relative value becomes the resolved offset in px, and any other keeps the number and unit `parseUnit` reads |
| Validation.BoundAgreement | index.js:981-992 | the two bound checks give the same result exactly when the one as written fails or yields a number; they always agree on values the intended check accepts |
| Validation.CheckTimingAsWritten | index.js:1006-1011 | the timing check as written accepts a missing timing, a function, or a name that is a table key or an inherited property; otherwise it gives the unknown-timing error for a name and the invalid-timing error for anything else |
| Validation.CheckTiming | index.js:1006-1011 | the intended timing check accepts exactly a missing timing, a function, or a name in the table; its errors are the same as those of the check as written |
| Validation.CheckProp | index.js:998-1014 | a prop passes exactly when `from` and `to` are absolute and the timing passes; the result holds their amounts and the timing; the error is that of the first failing check, in the order `from`, `to`, timing |
| Validation.ValidateProp | index.js:995-1016 | a prop under the intended timing check (`Validation.CheckProp` with `Validation.CheckTiming`) |
| Validation.ValidatePropAsWritten | index.js:995-1016 | a prop under the timing check as written (`Validation.CheckProp` with `Validation.CheckTimingAsWritten`) |
| Validation.ValidateEach | index.js:995-1016 | on success, one prop per key, in key order, each the checked prop; on failure, the error of the first key whose check fails |
| Validation.CheckFields | index.js:966-979 | when the field checks pass, `from`, `to` and an object `props` are present, and `direct` true comes with an element |
| Validation.ValidateAsWritten | index.js:959-1019 | `validate` as written: the data keeps the element, `direct` true implies an element, and there is one prop per key |
| Validation.Validate | index.js:959-1019 | the intended `validate`: the data keeps the element, `direct` true implies an element, and there is one prop per key |
| Validation.PropIff | index.js:998-1011 | under the intended timing check, a prop passes exactly when `from` and `to` are absolute and its timing is missing, a function or a name in the table |
| Validation.PropsIff | index.js:995-1016 | the props pass the intended checks exactly when every prop passes |
| Validation.FieldsIff | index.js:973-979 | the field checks pass exactly when each field has an allowed type and `direct` true comes with an element |
| Validation.ValidateIff | index.js:959-1019 | the intended `validate` succeeds exactly on well-formed configurations, for every geometry |
| Validation.FieldsFirst | index.js:973-979 | a field error is a real violation, and no earlier field check is violated |
| Validation.FirstViolation | index.js:973-1003 | every error the intended `validate` throws is one the configuration has, and no check ranked earlier is violated |
| Validation.PropErrorKinds | index.js:1001-1010 | a prop fails only with a prop error naming its own key |
| Validation.FieldDefaults | index.js:966-970 | missing callbacks become no-ops, a missing `direct` becomes false and a missing `track` true; given values are kept |
| Validation.ValidateFields | index.js:959-1019 | the validated data carries the settings of the field checks and the rebuilt props |
| Validation.TimingDefaults | index.js:1006-1011 | a missing timing becomes `linear`, a name becomes that table entry, a function is kept |
| Validation.ValidateBounds | index.js:981-992 | the data's `from` and `to` are the resolved bounds |
| Validation.GeometryIndependent | index.js:959-1019 | whether and how the intended `validate` fails does not depend on geometry; on success only `from` and `to` do |
| Validation.GeometryIndependentAsWritten | index.js:959-1019 | the same holds for `validate` as written |
| Validation.PropAgreement | index.js:1006-1011 | where the intended prop check passes, the check as written gives the same prop, with a table timing; where the check as written passes with a table timing, the intended check agrees |
| Validation.PropsAgreement | index.js:995-1016 | where the intended reduce over the props succeeds, the reduce as written gives the same props, all with table timings |
| Validation.PropsAgreementBack | index.js:995-1016 | where the reduce as written succeeds with table timings only, the intended reduce gives the same props |
| Validation.AsWrittenAgreement | index.js:959-1019 | the intended `validate` accepts exactly the configurations that `validate` as written turns into data with numeric bounds and table timings, and on them both give the same data |
| Validation.MiddleIsNotRelative | index.js:904-907 | "middle" is neither relative nor absolute |
| Validation.UnresolvableAccepted | index.js:981-992 | with an element, the bound check as written lets "middle" through as NaN, and the intended check rejects it |
| Validation.UnresolvableBoundAccepted | index.js:981-993 | with an element, `validate` as written accepts a configuration whose `from` is neither relative nor absolute, with a NaN `from`; the intended `validate` rejects it as unresolvable |
| Validation.MiddleBoundAccepted | index.js:981-993 | `{elem, from: "middle", to: "120px"}` is accepted as written with `from` NaN (unit "middle") and rejected as intended |
| Validation.InheritedTimingAccepted | index.js:1010 | the timing check as written accepts "toString", and the intended check reports an unknown timing |
| Validation.InheritedTimingProp | index.js:998-1011 | a prop whose timing is an inherited name passes as written, with that name as its easing, and fails as intended with the unknown-timing error |
| Validation.TimingIff | index.js:1010-1011 | the intended check accepts a name exactly when the easing table has it |
| Validation.TimingAgreement | index.js:1008-1011 | both timing checks agree on every timing that is not an inherited name |
| Interpolation.Precise | index.js:1034-1040 | the raw percentage p satisfies p·(to−from) = 100·(scrollTop−from) when from ≠ to; otherwise it is +∞, −∞ or NaN according to the sign of scrollTop−from |
| Interpolation.PercentOf | index.js:1034-1040 | the raw percentage of an instance: `Interpolation.Precise` of its bounds, and NaN when a bound is NaN |
| Interpolation.Normalized | index.js:1041 | the clamped percentage lies in [0, 100], equals the raw one inside that range, is 0 below it and 100 above it, and stays NaN for NaN |
| Interpolation.Fire | index.js:1080-1085 | `inside` fires exactly when the raw percentage is in [0, 100] and `outside` exactly when it is outside; each receives the raw percentage; NaN fires neither |
| Interpolation.Round4 | index.js:1071 | rounding moves a value by at most half of 1/10000 |
| Interpolation.RoundExact | index.js:1071 | a value with at most four decimals is kept by rounding |
| Interpolation.Interpolate | index.js:1055-1073 | a prop's output has the unit of `from`, or of `to` when `from` has none; under a modelled curve its value is a number exactly when the percentage is |
| Interpolation.Outputs | index.js:1051-1076 | one output per prop, in key order, each the interpolation of that prop |
| Interpolation.MapDirect | index.js:915-921 | `direct` true targets the instance's element, an element targets that element, and false targets the document root |
| Interpolation.GetProps | index.js:1027-1091 | the frame targets the root exactly when `direct` is false, and has one output per prop key in order, each with the unit of `from`, or of `to` when `from` has none |
| Interpolation.CallbackChoice | index.js:1080-1085 | `inside` fires exactly when both bounds are numbers, from ≠ to and the page is between them, both ends included; no callback fires exactly when a bound is NaN or from = to = scrollTop |
| Interpolation.NaNBound | index.js:1031-1085 | with a NaN bound no callback fires, and every prop eased by a modelled curve gets a NaN value |
| Interpolation.PercentRange | index.js:1034-1041 | the raw percentage is in [0, 100] exactly when scrollTop lies between `from` and `to` |
| Interpolation.Endpoints | index.js:1057-1071 | with any polynomial timing, a prop takes its rounded `from` value at 0% and its rounded `to` value at 100% |
| Interpolation.LinearBetween | index.js:1060-1071 | with `linear` timing at a percentage in [0, 100], a prop's value is the rounded interpolation `from − (from − to)·n/100`; before rounding it lies between `from` and `to`, and after rounding between their rounded values |
| Interpolation.EasedValue | index.js:1060-1071 | whenever the timing maps the percentage to a number, a prop's value is `from` moved towards `to` by that number, rounded to four decimals |
| Interpolation.LinearInRange | index.js:1066 | the interpolation at a time in [0, 1] lies between its endpoints |
| Interpolation.Round4Monotone | index.js:1071 | rounding to four decimals keeps the order of its arguments |
| Interpolation.RoundBetween | index.js:1071 | a value between two bounds rounds to a value between the rounded bounds |
| Interpolation.BeforeRange | index.js:1034-1041 | scrolled to `from` or beyond it on the side away from `to`, the clamped percentage is 0, whichever way the range runs |
| Interpolation.AfterRange | index.js:1034-1041 | scrolled to `to` or beyond it on the side away from `from`, the clamped percentage is 100, whichever way the range runs |
| Interpolation.HalfWay | index.js:1027-1091 | opacity 0→1 over 0→1000px, linear: at 500px the value is 0.5, the target is the root and `inside` receives 50 |
| Registry.Indices | index.js:829-846 | a filter keeps exactly the slots that satisfy it, in increasing index order |
| Registry.ActiveIndices | index.js:829-834 | `getActiveInstances`: `Registry.Indices` with the live-and-active test |
| Registry.TrackedIndices | index.js:841-846 | `getTrackedInstances` on a registry where every live slot has data: `Registry.Indices` with the live-and-tracked test |
| Registry.TrackedAsWritten | index.js:841-846 | walking the slots in order, `getTrackedInstances` as written throws exactly when some live slot has no data; otherwise it returns exactly the tracked indices |
| Registry.Engine.constructor | index.js:798 | no instances, and no scroll offset remembered yet |
| Registry.Engine.Create | index.js:1165-1245 | the corrected `create` runs the intended `validate` first. On success it appends at index = old length and leaves earlier slots unchanged; the data it stores is also what `validate` as written gives. On failure nothing is registered, and the registry stays complete |
| Registry.Engine.CreateAsWritten | index.js:1239-1242 | `create` as written appends first and then recalculates with `validate` as written; when that throws, the appended slot stays live with no data |
| Registry.Engine.SetActive | index.js:1208-1218 | `start`/`stop` change only that instance's `active` flag |
| Registry.Engine.Destroy | index.js:1220-1226 | `destroy` empties only its own slot and keeps the array's length |
| Registry.Engine.Calculate | index.js:1186-1190 | recalculation gives the result of `validate` as written under the current geometry; it never throws for an instance that has data; a throw leaves the data untouched |
| Registry.Engine.Update | index.js:1192-1205 | `update` yields the `getProps` frame of the instance and changes nothing |
| Registry.Engine.Tick | index.js:1125-1158 | with no active instance, or with scrollTop equal to the remembered offset, a tick computes nothing and remembers nothing new; otherwise it remembers scrollTop and yields one frame per active instance, in registry order |
| Registry.Engine.Resize | index.js:1254-1265 | with one scroll offset for the whole handler, the resize handler throws (None) and changes nothing exactly when the tracked filter as written throws; otherwise every tracked instance is recalculated, every other slot is unchanged, and the frames are `ResizeFrames` |
| Registry.Engine.RecalculateTracked | index.js:1259-1264 | the `forEach` over the tracked instances: each is recalculated and updated in registry order, and every other slot is left alone |
| Registry.Refresh | index.js:1186-1190 | a recalculated tracked slot keeps its configuration and flags and holds the data that `validate` as written gives; an untracked slot is unchanged |
| Registry.ResizeFramesTracked | index.js:1254-1265 | the k-th resize frame belongs to the k-th tracked instance, recalculated |
| Registry.AcceptedOnce | index.js:1186-1190 | a configuration accepted under one geometry is accepted under all, so recalculation cannot throw |
| Registry.FiltersAfterUpdate | index.js:1208-1226 | changing one slot (start, stop, destroy) changes filter membership at that index alone |
| Registry.FiltersAfterAppend | index.js:1239 | appending keeps every earlier filtered index and may add only the new one, at the end |
| Registry.DestroyedIsIgnored | index.js:829-846 | a destroyed slot is neither active nor tracked |
| Registry.CompleteTracking | index.js:841-846 | while every live slot has data, the tracked filter as written never throws |
| Registry.RejectedCreateBreaksResize | index.js:841-846 | a live slot without data makes every later tracked filter throw, whatever surrounds it |
| Registry.MissingFromRejected | index.js:972 | both `validate`s reject a configuration without `from` with the missing-`from` error |

## Left out

- `parseFloat` reading `Infinity`, and exponents beyond what the model's decimal reading covers. The model reads decimal literals with optional exponents; `"Infinity"` is NaN here, while JavaScript reads it as a number.
- Anchors.PixelsRoundTrip: covers offsets whose JavaScript string form is a plain decimal. Number-to-string conversion, including exponent forms such as `1e21`, is not modelled. `Validation.ResolveBound` therefore uses the resolved offset directly, in pixels.
- Interpolation.GetProps: a prop's output is its rounded number and its unit as a pair. The concatenation `rounded + unit` into one string is not modelled.
- Interpolation.Round4: rounds the exact real value. Floating-point error in `value * 10000` is not modelled, and neither is the sign of zero.
- Transcendental curves (sine, circ, expo, elastic, bounce) and user timing functions: their values come from the `host` parameter, because they use `Math.sin`, `Math.sqrt` and `Math.pow` with real exponents. A host value that is infinite is not modelled.
- DOM writes in `setProp`/`setProps`, `document.documentElement`, `getBoundingClientRect`, `window.innerHeight` and the scroll offset: geometry is passed in, and a frame is returned instead of written.
- `requestAnimationFrame`, the `debounce` timer of the resize handler and `console.warn`: a tick and a resize are single method calls.
- Callbacks: a frame records which callback fires with which percentage. The callback is not run, so a callback that starts, stops or destroys instances during a frame is not modelled.
- Interpolation.GetProps: the props object the callbacks receive is the frame's outputs; the `instance` argument is not passed.
- Registry.Engine.Calculate: the configuration is a snapshot taken at `create`. The code keeps the caller's object by reference and validates it again on every recalculation, so a caller who changes it after `create` can make `calculate` throw and abort the resize handler's loop. That aliasing is not modelled, and the promise that recalculation never throws for an instance with data rests on the snapshot.
- Registry.Engine.Create: runs the intended `validate`, while later recalculations run `validate` as written, as the code does. An engine that also recalculates with the intended checks is not modelled separately: on every configuration the intended `validate` accepts, both give the same data under every geometry (`Validation.AsWrittenAgreement`, `Validation.GeometryIndependentAsWritten`).
- Easings.Ease: a timing named "__proto__", "__defineGetter__" or "__defineSetter__" passes the check as written (`Easings.UncallableAccepted`), but calling it at index.js:1064 throws a TypeError. In the code, every `getProps` of that instance then throws, which ends the animation loop for all instances and aborts the resize handler's loop. The model does not represent a timing whose call throws: `Ease` takes such a timing's value from `host`, so `Registry.Engine.Tick`, `Update` and `Resize` return frames where the code throws.
- Duplicate prop keys: the keys of a JavaScript object are distinct. The `entries` of `Validation.PropsObject` may repeat a key, and then `Interpolation.Outputs` gives two outputs under that key; no such configuration comes from a real object.
- Registry.Engine.SetActive: requires an instance that has data. A handle exists only for a `create` that returned, which is always such an instance.
- Property order: props are taken in the order of the configuration's entries. JavaScript enumerates integer-like keys first; that reordering is not modelled.
- Error messages: errors are kinds, not texts. In the source, the prop `to` error repeats the prop `from` message; the model keeps them apart.
- A non-element `elem` (for example a string) is not modelled: `elem` is an element or missing.
- `setScrollingElement` and `getScrollTop` are outside the model; the scroll offset is a parameter.
- The text balancer, the focus-visible polyfill, the site's theme and logo code, and gulpfile.js are not part of this model.
- When `from == to`, the raw percentage is ±Infinity or NaN, as the code computes it. The model keeps that behaviour rather than excluding the case. At NaN neither callback fires (`Interpolation.CallbackChoice`), and every prop eased by a modelled curve gets a NaN value (`Interpolation.Interpolate`). A user timing function or a host-supplied curve is called with NaN and may return a number.

## Findings

| source | as written | input that shows it | evidently intended | confidence | as-written member | corrected member |
|---|---|---|---|---|---|---|
| index.js:1239-1242 | `create` pushes the instance into `instances` before `calculate` validates the configuration | `create({})` throws "Missing property `from`" but leaves a live slot whose data is null; the next resize calls `getTrackedInstances`, which reads `null.track` and throws before updating any instance | validate before registering, so a rejected configuration leaves no slot | not executed | Registry.Engine.CreateAsWritten, Registry.RejectedCreateBreaksResize | Registry.Engine.Create, Registry.CompleteTracking |
| index.js:981-992 | with `elem` present, a `from`/`to` that is not relative is parsed without checking that it is absolute | `{ elem, from: 'middle', to: '120px' }` passes `validate` with `from.value` NaN, so every percentage is NaN and no callback fires | reject, as without an element, a value that is neither relative nor absolute | not executed | Validation.ValidateAsWritten, Validation.MiddleBoundAccepted | Validation.Validate, Validation.AsWrittenAgreement |
| index.js:1010 | a timing name is looked up with `_eases[name] == null` on a plain object | `timing: 'toString'` passes and `Object.prototype.toString` becomes the easing function; with `timing: '__proto__'` (or `'__defineGetter__'`, `'__defineSetter__'`) it also passes, and every `getProps` of that instance throws at index.js:1064, which stops the animation loop and aborts the resize handler | accept only the table's own keys | not executed | Validation.CheckTimingAsWritten, Validation.InheritedTimingProp, Easings.UncallableAccepted | Validation.CheckTiming, Validation.TimingIff |
