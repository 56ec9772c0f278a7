/**
 * Relative values such as "top-bottom" name an anchor of the element and an anchor of the
 * viewport; they are resolved to the scroll offset, in pixels, at which the two anchors meet
 * (`isRelativeValue`, index.js:904-907; `relativeToAbsoluteValue`, index.js:931-952).
 */
module Anchors {
  import opened Wrappers
  import opened Units

  /** What the page reports at resolution time: pixels scrolled and the viewport's height. */
  datatype Viewport = Viewport(scrollTop: real, height: real)

  /** An element's bounding box, measured from the top of the viewport. */
  datatype Rect = Rect(top: real, height: real)

  predicate IsLower(c: char) { 'a' <= c <= 'z' }

  /** A non-empty run of lower-case letters, `[a-z]+`. */
  predicate IsWord(s: string) { |s| > 0 && forall i :: 0 <= i < |s| ==> IsLower(s[i]) }

  /** The length of the longest suffix of `s` whose characters all satisfy `p`. */
  function SpanBack(s: string, p: char -> bool): (n: nat)
    ensures n <= |s|
    ensures forall i :: |s| - n <= i < |s| ==> p(s[i])
    ensures n < |s| ==> !p(s[|s| - n - 1])
  {
    if s == [] || !p(s[|s| - 1]) then 0 else 1 + SpanBack(s[..|s| - 1], p)
  }

  /** `value` matches `^[a-z]+-[a-z]+$`. */
  predicate IsRelative(value: string) {
    var n := Span(value, IsLower);
    0 < n < |value| && value[n] == '-' && IsWord(value[n + 1..])
  }

  /** The match of `^[a-z]+`: the element's anchor. */
  function ElementAnchor(value: string): string {
    value[..Span(value, IsLower)]
  }

  /** The match of `[a-z]+$`: the viewport's anchor. */
  function ViewportAnchor(value: string): string {
    value[|value| - SpanBack(value, IsLower)..]
  }

  /** The part of a height below its top edge at which an anchor word sits. */
  function Share(word: string): Option<real> {
    if word == "top" then Some(0.0)
    else if word == "middle" then Some(0.5)
    else if word == "bottom" then Some(1.0)
    else None
  }

  /** What the viewport anchor takes away; any other word takes away nothing. */
  function ViewportTerm(word: string, view: Viewport): real {
    if word == "top" then 0.0
    else if word == "middle" then view.height / 2.0
    else if word == "bottom" then view.height
    else 0.0
  }

  /** What the element anchor adds: its position in the document; any other word adds nothing. */
  function ElementTerm(word: string, box: Rect, view: Viewport): real {
    if word == "top" then box.top + view.scrollTop
    else if word == "middle" then box.top + view.scrollTop + box.height / 2.0
    else if word == "bottom" then box.top + view.scrollTop + box.height
    else 0.0
  }

  /** The pixel offset a relative value resolves to. */
  function ToAbsolute(value: string, box: Rect, view: Viewport): real
    requires IsRelative(value)
  {
    (0.0 - ViewportTerm(ViewportAnchor(value), view)) + ElementTerm(ElementAnchor(value), box, view)
  }

  lemma {:induction false} SpanBackAll(s: string, p: char -> bool)
    requires forall i :: 0 <= i < |s| ==> p(s[i])
    ensures SpanBack(s, p) == |s|
  {
    if s != [] {
      SpanBackAll(s[..|s| - 1], p);
    }
  }

  lemma {:induction false} SpanBackConcat(x: string, y: string, p: char -> bool)
    requires forall i :: 0 <= i < |y| ==> p(y[i])
    ensures SpanBack(x + y, p) == SpanBack(x, p) + |y|
  {
    if y == [] {
      assert x + y == x;
    } else {
      assert (x + y)[..|x + y| - 1] == x + y[..|y| - 1];
      SpanBackConcat(x, y[..|y| - 1], p);
    }
  }

  /** A relative value is two words joined by a hyphen, and the anchors are those words. */
  lemma {:induction false} RelativeSplit(value: string)
    requires IsRelative(value)
    ensures IsWord(ElementAnchor(value)) && IsWord(ViewportAnchor(value))
    ensures value == ElementAnchor(value) + "-" + ViewportAnchor(value)
  {
    var n := Span(value, IsLower);
    var b := value[n + 1..];
    assert value == value[..n + 1] + b;
    SpanBackConcat(value[..n + 1], b, IsLower);
    assert value[..n + 1][n] == '-';
    assert SpanBack(value[..n + 1], IsLower) == 0;
    assert ViewportAnchor(value) == b;
  }

  /** Conversely, two words joined by a hyphen form a relative value with those anchors. */
  lemma {:induction false} RelativeJoin(a: string, b: string)
    requires IsWord(a) && IsWord(b)
    ensures IsRelative(a + "-" + b)
    ensures ElementAnchor(a + "-" + b) == a && ViewportAnchor(a + "-" + b) == b
  {
    var v := a + "-" + b;
    assert v == a + ("-" + b);
    SpanConcat(a, "-" + b, IsLower);
    assert Span(v, IsLower) == |a|;
    assert v[|a| + 1..] == b;
    assert v == (a + "-") + b;
    SpanBackConcat(a + "-", b, IsLower);
    assert (a + "-")[|a|] == '-';
    assert SpanBack(a + "-", IsLower) == 0;
  }

  /**
   * With both anchors known, scrolling the page to the resolved offset brings the element's
   * anchor to the viewport's anchor.
   */
  lemma {:induction false} AnchorsMeet(a: string, b: string, box: Rect, view: Viewport)
    requires IsWord(a) && IsWord(b) && Share(a).Some? && Share(b).Some?
    ensures IsRelative(a + "-" + b)
    ensures var y := ToAbsolute(a + "-" + b, box, view);
      (box.top + view.scrollTop + Share(a).value * box.height) - y == Share(b).value * view.height
  {
    RelativeJoin(a, b);
  }

  /** Words other than top, middle and bottom add and take away nothing. */
  lemma {:induction false} UnknownWords(a: string, b: string, box: Rect, view: Viewport)
    requires IsWord(a) && IsWord(b) && Share(a).None? && Share(b).None?
    ensures IsRelative(a + "-" + b) && ToAbsolute(a + "-" + b, box, view) == 0.0
  {
    RelativeJoin(a, b);
  }

  /**
   * The resolved offset is a document position: scrolling by `d` moves the element's box by
   * `-d` in the viewport and leaves the offset unchanged.
   */
  lemma {:induction false} ScrollInvariant(value: string, box: Rect, view: Viewport, d: real)
    requires IsRelative(value)
    ensures ToAbsolute(value, Rect(box.top - d, box.height), Viewport(view.scrollTop + d, view.height))
         == ToAbsolute(value, box, view)
  {
  }

  /** A relative value is never absolute: `parseUnit` reads no number from it. */
  lemma {:induction false} RelativeIsNotAbsolute(value: string)
    requires IsRelative(value)
    ensures ParseUnit(value) == Parsed(None, value)
  {
    var n := Span(value, IsLower);
    forall i | 0 <= i < |value|
      ensures !IsLineTerminator(value[i])
    {
      if i > n {
        assert value[i] == value[n + 1..][i - n - 1];
      }
    }
    LetterStart(value);
  }

  /**
   * An element 200 pixels high whose top is 500 pixels down the document, in an 800 pixel
   * viewport: "top-bottom" resolves to -300 and "bottom-top" to 700.
   */
  lemma {:induction false} DocumentExample()
    ensures IsRelative("top-bottom") && IsRelative("bottom-top")
    ensures ToAbsolute("top-bottom", Rect(500.0, 200.0), Viewport(0.0, 800.0)) == -300.0
    ensures ToAbsolute("bottom-top", Rect(500.0, 200.0), Viewport(0.0, 800.0)) == 700.0
  {
    TopBottom();
    BottomTop();
  }

  lemma {:induction false} TopBottom()
    ensures IsRelative("top-bottom")
    ensures ElementAnchor("top-bottom") == "top" && ViewportAnchor("top-bottom") == "bottom"
  {
    assert IsWord("top") && IsWord("bottom");
    assert "top-bottom" == "top" + "-" + "bottom";
    RelativeJoin("top", "bottom");
  }

  lemma {:induction false} BottomTop()
    ensures IsRelative("bottom-top")
    ensures ElementAnchor("bottom-top") == "bottom" && ViewportAnchor("bottom-top") == "top"
  {
    assert IsWord("top") && IsWord("bottom");
    assert "bottom-top" == "bottom" + "-" + "top";
    RelativeJoin("bottom", "top");
  }

  /**
   * The offset is handed on as the text of the number followed by "px"; reading that text
   * back gives the offset again, in pixels.
   */
  lemma {:induction false} PixelsRoundTrip(d: Decimal)
    requires WellFormed(d)
    ensures ParseUnit(Render(d) + "px") == Parsed(Some(ValueOf(d)), "px")
  {
    assert IsUnitText("px");
    ParseRender(d, "px");
  }
}
