/**
 * The instance registry and the scheduler around it: the module-level `instances` array that
 * `create` appends to and `destroy` empties a slot of (index.js:1165-1245), the filters over it
 * (index.js:829-846), one tick of `loop` (index.js:1125-1158) and the resize handler
 * (index.js:1254-1265).
 */
module Registry {
  import opened Wrappers
  import opened Easings
  import opened Anchors
  import opened Validation
  import opened Interpolation

  /** What the closures of one `create` call share: its configuration, `_data` and `active`. */
  datatype Instance = Instance(config: Config, data: Option<Data>, active: bool)

  /**
   * A slot of `instances`. `destroy` writes `undefined` into the slot; the instance's handle
   * keeps working on its own state, which a `Destroyed` slot keeps for it.
   */
  datatype Slot = Live(inst: Instance) | Destroyed(inst: Instance)

  /** `instance != null && instance.isActive()` */
  predicate IsActive(s: Slot) { s.Live? && s.inst.active }

  /** `instance != null && instance.getData().track`, for an instance that has data. */
  predicate IsTracked(s: Slot) { s.Live? && s.inst.data.Some? && s.inst.data.value.track }

  /** The indices of the slots that satisfy `keep`, in increasing order. */
  function Indices(slots: seq<Slot>, keep: Slot -> bool): (r: seq<nat>)
    ensures forall k :: 0 <= k < |r| ==> r[k] < |slots| && keep(slots[r[k]])
    ensures forall i :: 0 <= i < |slots| && keep(slots[i]) ==> i in r
    ensures forall a, b :: 0 <= a < b < |r| ==> r[a] < r[b]
  {
    if slots == [] then []
    else
      var init := slots[..|slots| - 1];
      Indices(init, keep) + (if keep(slots[|slots| - 1]) then [|slots| - 1] else [])
  }

  /** `getActiveInstances` */
  function ActiveIndices(slots: seq<Slot>): seq<nat> { Indices(slots, IsActive) }

  /** `getTrackedInstances` as intended: every slot here has data. */
  function TrackedIndices(slots: seq<Slot>): seq<nat> { Indices(slots, IsTracked) }

  /**
   * `getTrackedInstances` as written, walking the slots in order: reading `track` of a live
   * instance whose `_data` is still null throws a TypeError (None).
   */
  function TrackedAsWritten(slots: seq<Slot>): (r: Option<seq<nat>>)
    ensures r.None? <==> exists i :: 0 <= i < |slots| && slots[i].Live? && slots[i].inst.data.None?
    ensures r.Some? ==> r.value == TrackedIndices(slots)
  {
    if slots == [] then Some([])
    else
      var init, last := slots[..|slots| - 1], slots[|slots| - 1];
      match TrackedAsWritten(init)
      case None =>
        ghost var i :| 0 <= i < |init| && init[i].Live? && init[i].inst.data.None?;
        assert slots[i] == init[i];
        None
      case Some(tracked) =>
        if last.Live? && last.inst.data.None? then None
        else
          assert forall i :: 0 <= i < |init| ==> slots[i] == init[i];
          Some(tracked + (if IsTracked(last) then [|slots| - 1] else []))
  }

  /** Every live slot holds data: what a `create` that validates first keeps true. */
  predicate Complete(slots: seq<Slot>) {
    forall i :: 0 <= i < |slots| ==> slots[i].Live? ==> slots[i].inst.data.Some?
  }

  /** `validate` accepts the configuration whatever the page's geometry. */
  ghost predicate Accepted(cfg: Config) {
    forall view, rectOf :: ValidateAsWritten(cfg, view, rectOf).Ok?
  }

  /** Acceptance under one geometry is acceptance under all. */
  lemma {:induction false} AcceptedOnce(cfg: Config, view: Viewport, rectOf: Node -> Rect)
    requires ValidateAsWritten(cfg, view, rectOf).Ok?
    ensures Accepted(cfg)
  {
    forall v, r {
      GeometryIndependentAsWritten(cfg, view, rectOf, v, r);
    }
  }

  /** The data an instance keeps came from an accepted configuration; only such instances start. */
  ghost predicate Sound(s: Slot) {
    && (s.inst.data.Some? ==>
          Accepted(s.inst.config) && (s.inst.data.value.direct == Flag(true) ==> s.inst.data.value.elem.Some?))
    && (s.inst.active ==> s.inst.data.Some?)
  }

  /** The instance state after `calculate` stored new data. */
  function WithData(s: Slot, d: Data): (r: Slot)
    ensures r.Live? == s.Live? && r.inst == s.inst.(data := Some(d))
  {
    match s
    case Live(inst) => Live(inst.(data := Some(d)))
    case Destroyed(inst) => Destroyed(inst.(data := Some(d)))
  }

  /** The instance state after `start` (true) or `stop` (false). */
  function WithActive(s: Slot, on: bool): (r: Slot)
    ensures r.Live? == s.Live? && r.inst == s.inst.(active := on)
  {
    match s
    case Live(inst) => Live(inst.(active := on))
    case Destroyed(inst) => Destroyed(inst.(active := on))
  }

  /**
   * The page as the engine sees it: its `instances` array and the `previousScrollTop` the
   * animation loop carries from one frame to the next (None until the first frame that works).
   */
  class Engine {
    var slots: seq<Slot>
    var previousScrollTop: Option<real>

    ghost predicate Valid()
      reads this
    {
      forall i :: 0 <= i < |slots| ==> Sound(slots[i])
    }

    constructor()
      ensures Valid() && slots == [] && previousScrollTop == None
    {
      slots := [];
      previousScrollTop := None;
    }

    /**
     * `create` as intended: validate first, with the intended checks, and register the
     * instance only when the configuration is accepted. Returns the instance's index. The
     * data stored is also what `validate` as written gives, so later recalculations agree.
     */
    method Create(cfg: Config, view: Viewport, rectOf: Node -> Rect) returns (r: Result<nat, Error>)
      requires Valid()
      modifies this
      ensures Valid() && previousScrollTop == old(previousScrollTop)
      ensures r.Ok? <==> Validate(cfg, view, rectOf).Ok?
      ensures r.Err? ==> r.error == Validate(cfg, view, rectOf).error && slots == old(slots)
      ensures r.Ok? ==>
        && r.value == old(|slots|)
        && slots == old(slots) + [Live(Instance(cfg, Some(Validate(cfg, view, rectOf).value), false))]
        && ValidateAsWritten(cfg, view, rectOf) == Validate(cfg, view, rectOf)
      ensures Complete(old(slots)) ==> Complete(slots)
    {
      var v := Validate(cfg, view, rectOf);
      if v.Err? {
        return Err(v.error);
      }
      AsWrittenAgreement(cfg, view, rectOf);
      AcceptedOnce(cfg, view, rectOf);
      r := Ok(|slots|);
      slots := slots + [Live(Instance(cfg, Some(v.value), false))];
    }

    /**
     * `create` as written: the instance is appended before `calculate` runs, so when
     * `validate` throws the slot stays behind, live and without data.
     */
    method CreateAsWritten(cfg: Config, view: Viewport, rectOf: Node -> Rect) returns (r: Result<nat, Error>)
      requires Valid()
      modifies this
      ensures Valid() && previousScrollTop == old(previousScrollTop)
      ensures r.Ok? <==> ValidateAsWritten(cfg, view, rectOf).Ok?
      ensures r.Err? ==> r.error == ValidateAsWritten(cfg, view, rectOf).error
      ensures r.Ok? ==> r.value == old(|slots|)
      ensures slots == old(slots) + [Live(Instance(cfg,
        if r.Ok? then Some(ValidateAsWritten(cfg, view, rectOf).value) else None, false))]
    {
      var index := |slots|;
      slots := slots + [Live(Instance(cfg, None, false))];
      var v := Calculate(index, view, rectOf);
      if v.Err? {
        return Err(v.error);
      }
      StoreAppended(old(slots), cfg, v.value);
      r := Ok(index);
    }

    /**
     * `start` (`on`) and `stop`: only this instance's `active` changes. A handle exists only
     * for an instance whose `create` returned, which has data.
     */
    method SetActive(i: nat, on: bool)
      requires Valid() && i < |slots| && slots[i].inst.data.Some?
      modifies this
      ensures Valid() && previousScrollTop == old(previousScrollTop)
      ensures slots == old(slots)[i := WithActive(old(slots)[i], on)]
    {
      slots := slots[i := WithActive(slots[i], on)];
    }

    /** `destroy`: the slot becomes undefined; no other slot moves or changes. */
    method Destroy(i: nat)
      requires Valid() && i < |slots|
      modifies this
      ensures Valid() && previousScrollTop == old(previousScrollTop)
      ensures slots == old(slots)[i := Destroyed(old(slots)[i].inst)]
    {
      slots := slots[i := Destroyed(slots[i].inst)];
    }

    /**
     * `calculate`: validate the configuration again against the current geometry. For an
     * instance that already has data it cannot throw; when it throws, `_data` is untouched.
     */
    method Calculate(i: nat, view: Viewport, rectOf: Node -> Rect) returns (r: Result<Data, Error>)
      requires Valid() && i < |slots|
      modifies this
      ensures Valid() && previousScrollTop == old(previousScrollTop)
      ensures r == ValidateAsWritten(old(slots)[i].inst.config, view, rectOf)
      ensures old(slots)[i].inst.data.Some? ==> r.Ok?
      ensures slots == (if r.Ok? then old(slots)[i := WithData(old(slots)[i], r.value)] else old(slots))
    {
      var cfg := slots[i].inst.config;
      r := ValidateAsWritten(cfg, view, rectOf);
      if r.Ok? {
        AcceptedOnce(cfg, view, rectOf);
        slots := slots[i := WithData(slots[i], r.value)];
      }
    }

    /** `update`: the frame of `getProps` at the current scroll offset; nothing changes. */
    method Update(i: nat, scrollTop: real, host: (Easing, Option<real>) -> Option<real>) returns (f: Frame)
      requires Valid() && i < |slots| && slots[i].inst.data.Some?
      ensures f == GetProps(slots[i].inst.data.value, scrollTop, host)
    {
      assert Sound(slots[i]);
      f := GetProps(slots[i].inst.data.value, scrollTop, host);
    }

    /**
     * One frame of `loop`: with no active instance, or with the page where it was at the
     * last frame that worked, nothing is computed; otherwise the offset is remembered and
     * every active instance, in registry order, yields its frame.
     */
    method Tick(scrollTop: real, host: (Easing, Option<real>) -> Option<real>) returns (frames: seq<Frame>)
      requires Valid()
      modifies this
      ensures Valid() && slots == old(slots)
      ensures ActiveIndices(slots) == [] || old(previousScrollTop) == Some(scrollTop) ==>
        frames == [] && previousScrollTop == old(previousScrollTop)
      ensures ActiveIndices(slots) != [] ==> previousScrollTop == Some(scrollTop)
      ensures ActiveIndices(slots) != [] && old(previousScrollTop) != Some(scrollTop) ==>
        && |frames| == |ActiveIndices(slots)|
        && forall k :: 0 <= k < |frames| ==>
          frames[k] == GetProps(slots[ActiveIndices(slots)[k]].inst.data.value, scrollTop, host)
    {
      var active := ActiveIndices(slots);
      if active == [] || previousScrollTop == Some(scrollTop) {
        return [];
      }
      previousScrollTop := Some(scrollTop);
      frames := [];
      var k := 0;
      while k < |active|
        invariant k <= |active|
        invariant |frames| == k
        invariant forall j :: 0 <= j < k ==> frames[j] == GetProps(slots[active[j]].inst.data.value, scrollTop, host)
      {
        assert Sound(slots[active[k]]);
        var f := GetProps(slots[active[k]].inst.data.value, scrollTop, host);
        frames := frames + [f];
        k := k + 1;
      }
    }

    /**
     * The resize handler (after its debounce). The filter for tracked instances runs first
     * and throws (None), changing nothing, when a live instance has no data; otherwise the
     * tracked instances are recalculated and updated. Both steps read the same scroll
     * offset within one handler, so the viewport's offset is the one the frames use.
     */
    method Resize(view: Viewport, rectOf: Node -> Rect, scrollTop: real, host: (Easing, Option<real>) -> Option<real>)
      returns (frames: Option<seq<Frame>>)
      requires Valid() && view.scrollTop == scrollTop
      modifies this
      ensures Valid() && previousScrollTop == old(previousScrollTop)
      ensures frames.None? <==> TrackedAsWritten(old(slots)).None?
      ensures frames.None? ==> slots == old(slots)
      ensures frames.Some? ==>
        && |slots| == old(|slots|)
        && (forall i :: 0 <= i < |slots| ==> slots[i] == Refresh(old(slots)[i], view, rectOf))
        && frames.value == ResizeFrames(old(slots), view, rectOf, scrollTop, host)
    {
      if TrackedAsWritten(slots).None? {
        return None;
      }
      var done := RecalculateTracked(view, rectOf, scrollTop, host);
      frames := Some(done);
    }

    /**
     * The `forEach` of the resize handler: every tracked instance, in registry order, is
     * recalculated against the new geometry and updated. No recalculation throws, and every
     * other slot is left alone. The filter and the loop over its result are one pass here.
     */
    method RecalculateTracked(view: Viewport, rectOf: Node -> Rect, scrollTop: real, host: (Easing, Option<real>) -> Option<real>)
      returns (frames: seq<Frame>)
      requires Valid()
      modifies this
      ensures Valid() && previousScrollTop == old(previousScrollTop)
      ensures |slots| == old(|slots|)
      ensures forall i :: 0 <= i < |slots| ==> slots[i] == Refresh(old(slots)[i], view, rectOf)
      ensures frames == ResizeFrames(old(slots), view, rectOf, scrollTop, host)
    {
      ghost var before := slots;
      frames := [];
      var i := 0;
      while i < |slots|
        invariant Valid() && previousScrollTop == old(previousScrollTop)
        invariant |slots| == |before| && i <= |slots|
        invariant forall j :: 0 <= j < i ==> slots[j] == Refresh(before[j], view, rectOf)
        invariant forall j :: i <= j < |slots| ==> slots[j] == before[j]
        invariant frames == ResizeFrames(before[..i], view, rectOf, scrollTop, host)
      {
        ResizeStep(before, i, view, rectOf, scrollTop, host);
        ghost var prev := slots;
        if IsTracked(slots[i]) {
          var r := Calculate(i, view, rectOf);
          var f := Update(i, scrollTop, host);
          frames := frames + [f];
        }
        assert slots == prev[i := Refresh(before[i], view, rectOf)];
        RefreshOne(before, prev, slots, i, view, rectOf);
        i := i + 1;
      }
      assert before[..i] == before;
    }
  }

  /** A slot after the resize handler: a tracked instance gets the data of its recalculation. */
  function Refresh(s: Slot, view: Viewport, rectOf: Node -> Rect): (r: Slot)
    requires Sound(s)
    ensures Sound(r) && r.Live? == s.Live? && r.inst.config == s.inst.config && r.inst.active == s.inst.active
    ensures IsTracked(s) ==> r.inst.data.Some? && ValidateAsWritten(s.inst.config, view, rectOf) == Ok(r.inst.data.value)
    ensures !IsTracked(s) ==> r == s
  {
    if IsTracked(s) then WithData(s, ValidateAsWritten(s.inst.config, view, rectOf).value) else s
  }

  /** The frames the resize handler produces, one per tracked slot, in registry order. */
  function ResizeFrames(slots: seq<Slot>, view: Viewport, rectOf: Node -> Rect, scrollTop: real,
                        host: (Easing, Option<real>) -> Option<real>): seq<Frame>
    requires forall i :: 0 <= i < |slots| ==> Sound(slots[i])
  {
    if slots == [] then []
    else
      var last := slots[|slots| - 1];
      ResizeFrames(slots[..|slots| - 1], view, rectOf, scrollTop, host)
        + (if IsTracked(last) then [GetProps(Refresh(last, view, rectOf).inst.data.value, scrollTop, host)] else [])
  }

  /** Storing data in a slot just appended is appending the slot with that data. */
  lemma {:induction false} StoreAppended(slots: seq<Slot>, cfg: Config, d: Data)
    ensures var added := Live(Instance(cfg, None, false));
      (slots + [added])[|slots| := WithData(added, d)] == slots + [Live(Instance(cfg, Some(d), false))]
  {
    var added := Live(Instance(cfg, None, false));
    assert WithData(added, d) == Live(Instance(cfg, Some(d), false));
  }

  /** Recalculating slot i extends the recalculated prefix by one slot. */
  lemma {:induction false} RefreshOne(before: seq<Slot>, prev: seq<Slot>, next: seq<Slot>, i: nat,
                                      view: Viewport, rectOf: Node -> Rect)
    requires forall j :: 0 <= j < |before| ==> Sound(before[j])
    requires |prev| == |before| && i < |before|
    requires forall j :: 0 <= j < i ==> prev[j] == Refresh(before[j], view, rectOf)
    requires forall j :: i <= j < |prev| ==> prev[j] == before[j]
    requires next == prev[i := Refresh(before[i], view, rectOf)]
    ensures forall j :: 0 <= j < i + 1 ==> next[j] == Refresh(before[j], view, rectOf)
    ensures forall j :: i + 1 <= j < |next| ==> next[j] == before[j]
  {
  }

  /** One more slot adds at most its own frame to a resize. */
  lemma {:induction false} ResizeStep(slots: seq<Slot>, i: nat, view: Viewport, rectOf: Node -> Rect, scrollTop: real,
                                      host: (Easing, Option<real>) -> Option<real>)
    requires forall j :: 0 <= j < |slots| ==> Sound(slots[j])
    requires i < |slots|
    ensures ResizeFrames(slots[..i + 1], view, rectOf, scrollTop, host)
      == ResizeFrames(slots[..i], view, rectOf, scrollTop, host)
        + (if IsTracked(slots[i]) then [GetProps(Refresh(slots[i], view, rectOf).inst.data.value, scrollTop, host)] else [])
  {
    assert slots[..i + 1][..i] == slots[..i];
  }

  /** The k-th frame of a resize belongs to the k-th tracked instance, recalculated. */
  lemma {:induction false} ResizeFramesTracked(slots: seq<Slot>, view: Viewport, rectOf: Node -> Rect, scrollTop: real,
                                               host: (Easing, Option<real>) -> Option<real>)
    requires forall i :: 0 <= i < |slots| ==> Sound(slots[i])
    ensures var frames, tracked := ResizeFrames(slots, view, rectOf, scrollTop, host), TrackedIndices(slots);
      && |frames| == |tracked|
      && forall k :: 0 <= k < |frames| ==>
        frames[k] == GetProps(Refresh(slots[tracked[k]], view, rectOf).inst.data.value, scrollTop, host)
  {
    if slots != [] {
      var init, last := slots[..|slots| - 1], slots[|slots| - 1];
      ResizeFramesTracked(init, view, rectOf, scrollTop, host);
      var before, tracked := ResizeFrames(init, view, rectOf, scrollTop, host), TrackedIndices(init);
      var frames, all := ResizeFrames(slots, view, rectOf, scrollTop, host), TrackedIndices(slots);
      assert all == tracked + (if IsTracked(last) then [|slots| - 1] else []);
      assert frames == before
        + (if IsTracked(last) then [GetProps(Refresh(last, view, rectOf).inst.data.value, scrollTop, host)] else []);
      forall k | 0 <= k < |frames|
        ensures frames[k] == GetProps(Refresh(slots[all[k]], view, rectOf).inst.data.value, scrollTop, host)
      {
        if k < |before| {
          assert frames[k] == before[k] && all[k] == tracked[k];
          assert slots[tracked[k]] == init[tracked[k]];
        }
      }
    }
  }

  // -----------------------------------------------------------------------------------------
  // The filters under the registry's operations

  /**
   * Changing one slot changes membership of that index alone: `destroy`, `start` and `stop`
   * leave every other instance's place in the filters, and so the loop, unchanged.
   */
  lemma {:induction false} FiltersAfterUpdate(slots: seq<Slot>, i: nat, s: Slot, keep: Slot -> bool)
    requires i < |slots|
    ensures forall j :: j in Indices(slots[i := s], keep) <==>
      (if j == i then keep(s) else j in Indices(slots, keep))
  {
    var after := slots[i := s];
    forall j
      ensures j in Indices(after, keep) <==> (if j == i then keep(s) else j in Indices(slots, keep))
    {
      if j in Indices(after, keep) {
        var k :| 0 <= k < |Indices(after, keep)| && Indices(after, keep)[k] == j;
      }
      if j in Indices(slots, keep) {
        var k :| 0 <= k < |Indices(slots, keep)| && Indices(slots, keep)[k] == j;
      }
    }
  }

  /** A destroyed instance is neither active nor tracked, whatever its handle does later. */
  lemma {:induction false} DestroyedIsIgnored(slots: seq<Slot>, i: nat)
    requires i < |slots| && slots[i].Destroyed?
    ensures i !in ActiveIndices(slots) && i !in TrackedIndices(slots)
  {
  }

  /** Appending an instance keeps every earlier index and adds the new one at the end. */
  lemma {:induction false} FiltersAfterAppend(slots: seq<Slot>, s: Slot, keep: Slot -> bool)
    ensures Indices(slots + [s], keep) == Indices(slots, keep) + (if keep(s) then [|slots|] else [])
  {
    assert (slots + [s])[..|slots|] == slots;
  }

  /** While every live slot has data, the resize handler's filter never throws. */
  lemma {:induction false} CompleteTracking(slots: seq<Slot>)
    requires Complete(slots)
    ensures TrackedAsWritten(slots) == Some(TrackedIndices(slots))
  {
  }

  /**
   * A configuration `validate` rejects, passed to `create` as written, leaves a live slot
   * without data behind, and every later resize throws before it updates any instance.
   */
  lemma {:induction false} RejectedCreateBreaksResize(slots: seq<Slot>, cfg: Config, later: seq<Slot>)
    ensures TrackedAsWritten(slots + [Live(Instance(cfg, None, false))] + later).None?
  {
    var all := slots + [Live(Instance(cfg, None, false))] + later;
    assert all[|slots|] == Live(Instance(cfg, None, false));
  }

  /** A configuration both `validate`s reject: `from` is missing. */
  lemma {:induction false} MissingFromRejected(view: Viewport, rectOf: Node -> Rect)
    ensures var cfg := Config(None, Some("100"), None, Nullish, Nullish, PropsNullish, Nullish, Nullish);
      ValidateAsWritten(cfg, view, rectOf) == Err(MissingFrom) && Validate(cfg, view, rectOf) == Err(MissingFrom)
  {
  }
}
