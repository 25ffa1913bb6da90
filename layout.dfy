/**
 * The layout arithmetic at the top of the renderer's `render`
 * (src/tube-timeline.js:209-317): orientation, the scale factor for short
 * viewports, and the margins that keep rotated labels and the "Today" flag
 * inside the drawing.  Lengths are exact reals; the label extents, which
 * the source estimates with trigonometry, are inputs.
 */
module Layout {

  function Max(a: real, b: real): real {
    if a >= b then a else b
  }

  function Min(a: real, b: real): real {
    if a <= b then a else b
  }

  /** The orientation option falls back to "auto" when missing (""). */
  function OrientationOption(given: string): string {
    if given == "" then "auto" else given
  }

  /** "auto" is horizontal exactly when the viewport is at least as wide as it
      is tall; otherwise only "horizontal" is horizontal. */
  function IsHorizontal(forced: string, viewportWidth: real, viewportHeight: real): (h: bool)
    ensures forced == "auto" ==> (h <==> viewportWidth >= viewportHeight)
    ensures forced != "auto" ==> (h <==> forced == "horizontal")
  {
    if forced == "auto" then viewportWidth >= viewportHeight else forced == "horizontal"
  }

  /** The orientation a given option leads to: a missing option or "auto"
      follows the viewport, "horizontal" is always horizontal, and any other
      value is always vertical. */
  lemma OrientationDecision(given: string, viewportWidth: real, viewportHeight: real)
    ensures IsHorizontal(OrientationOption(given), viewportWidth, viewportHeight)
        <==> ((given == "" || given == "auto") && viewportWidth >= viewportHeight) || given == "horizontal"
  {
  }

  /** 1 for a viewport at least 500 high, else `max(0.6, height / 500)`. */
  function Scale(viewportHeight: real): (s: real)
    ensures 0.6 <= s <= 1.0
    ensures viewportHeight >= 500.0 ==> s == 1.0
    ensures viewportHeight < 500.0 ==> s == Max(0.6, viewportHeight / 500.0)
  {
    if viewportHeight < 500.0 then Max(0.6, viewportHeight / 500.0) else 1.0
  }

  /** A taller viewport never shrinks the drawing more. */
  lemma ScaleMonotone(h1: real, h2: real)
    requires h1 <= h2
    ensures Scale(h1) <= Scale(h2)
  {
  }

  /** The "Today" flag's width: 4.5% of the viewport width, kept in [48, 80]. */
  function FlagWidth(viewportWidth: real): (w: real)
    ensures 48.0 <= w <= 80.0
  {
    Max(48.0, Min(80.0, viewportWidth * 0.045))
  }

  datatype Margins = Margins(top: real, right: real, bottom: real, left: real)

  /** The margins before any label or flag is taken into account. */
  function BaseMargins(scale: real, viewportHeight: real): Margins {
    Margins(
      Min(16.0 * scale, viewportHeight * 0.03),
      60.0 * scale,
      Min(30.0 * scale, viewportHeight * 0.06),
      35.0 * scale)
  }

  function SafetyPadding(scale: real): real {
    20.0 * scale
  }

  function LaneHeight(scale: real): real {
    15.0 * scale
  }

  /** The margins `render` draws with.  `extentRight` and `extentBottom` are
      the largest rightward and downward reach of a rotated label. */
  function ComputeMargins(isHorizontal: bool, scale: real, viewportWidth: real, viewportHeight: real,
                          extentRight: real, extentBottom: real): Margins
  {
    var base := BaseMargins(scale, viewportHeight);
    var padding := SafetyPadding(scale);
    var requiredRight :=
      if isHorizontal then Max(base.right, base.left / 2.0 + extentRight + padding) else base.right;
    var verticalLabelExtent := LaneHeight(scale) * 2.2 + extentRight + padding;
    var requiredRightVertical :=
      if !isHorizontal then Max(base.right, (verticalLabelExtent - 16.0) / 1.5) else 0.0;
    var requiredBottomVertical :=
      if !isHorizontal then Max(base.bottom, extentBottom + padding) else 0.0;
    var flagWidth := if !isHorizontal then FlagWidth(viewportWidth) else 0.0;
    var requiredLeftVertical :=
      if !isHorizontal then Max(base.left, flagWidth + 6.0 + padding) else 0.0;
    Margins(
      base.top,
      if isHorizontal then requiredRight else Max(base.right, requiredRightVertical),
      if isHorizontal then base.bottom else Max(base.bottom, requiredBottomVertical),
      if isHorizontal then base.left else Max(base.left, requiredLeftVertical))
  }

  /** The header band's height. */
  function HeaderHeight(isHorizontal: bool, scale: real, viewportHeight: real): real {
    Min((if isHorizontal then 50.0 else 40.0) * scale, viewportHeight * 0.12)
  }

  /** The plot area's height. */
  function PlotHeight(m: Margins, headerHeight: real, viewportHeight: real): real {
    viewportHeight - m.top - m.bottom - headerHeight
  }

  /** The plot area's width: a horizontal plot gives up the right margin, a
      vertical one the left margin and one and a half right margins. */
  function PlotWidth(isHorizontal: bool, m: Margins, viewportWidth: real): real {
    viewportWidth - (if isHorizontal then m.right else m.left + 1.5 * m.right)
  }

  /** No margin is below its base value and the top margin is the base. */
  lemma MarginsAtLeastBase(isHorizontal: bool, scale: real, viewportWidth: real, viewportHeight: real,
                           extentRight: real, extentBottom: real)
    ensures var m, b := ComputeMargins(isHorizontal, scale, viewportWidth, viewportHeight, extentRight, extentBottom),
                        BaseMargins(scale, viewportHeight);
      && m.top == b.top && m.right >= b.right && m.bottom >= b.bottom && m.left >= b.left
    ensures isHorizontal ==>
      var m, b := ComputeMargins(isHorizontal, scale, viewportWidth, viewportHeight, extentRight, extentBottom),
                  BaseMargins(scale, viewportHeight);
      m.bottom == b.bottom && m.left == b.left
  {
  }

  /** Horizontal: the plot is shifted right by half the left margin and its
      last milestone sits at the plot's width; a label reaching
      `extentRight` past it still ends a safety padding inside the viewport. */
  lemma HorizontalLabelsFit(scale: real, viewportWidth: real, viewportHeight: real,
                            extentRight: real, extentBottom: real)
    ensures var m := ComputeMargins(true, scale, viewportWidth, viewportHeight, extentRight, extentBottom);
      && m.right >= m.left / 2.0 + extentRight + SafetyPadding(scale)
      && m.left / 2.0 + PlotWidth(true, m, viewportWidth) + extentRight + SafetyPadding(scale) <= viewportWidth
  {
  }

  /** Vertical: the rightmost track sits 16 inside the plot's width and its
      labels start 2.2 lane heights to its right; they and the padding end
      inside the viewport. */
  lemma VerticalLabelsFitRight(scale: real, viewportWidth: real, viewportHeight: real,
                               extentRight: real, extentBottom: real)
    ensures var m := ComputeMargins(false, scale, viewportWidth, viewportHeight, extentRight, extentBottom);
      && m.right >= (LaneHeight(scale) * 2.2 + extentRight + SafetyPadding(scale) - 16.0) / 1.5
      && m.left + (PlotWidth(false, m, viewportWidth) - 16.0) + LaneHeight(scale) * 2.2
           + extentRight + SafetyPadding(scale) <= viewportWidth
  {
  }

  /** Vertical: the flag drawn `flagWidth + 6` left of the plot starts at
      least a safety padding inside the viewport's left edge. */
  lemma VerticalFlagFitsLeft(scale: real, viewportWidth: real, viewportHeight: real,
                             extentRight: real, extentBottom: real)
    ensures var m := ComputeMargins(false, scale, viewportWidth, viewportHeight, extentRight, extentBottom);
      && m.left >= FlagWidth(viewportWidth) + 6.0 + SafetyPadding(scale)
      && m.left - FlagWidth(viewportWidth) - 6.0 >= SafetyPadding(scale)
  {
  }

  /** Vertical: the bottom margin holds the lowest label's reach and the
      padding, so a label hanging `extentBottom` below the plot stays inside
      the viewport. */
  lemma VerticalLabelsFitBottom(scale: real, viewportWidth: real, viewportHeight: real,
                                extentRight: real, extentBottom: real)
    ensures var m := ComputeMargins(false, scale, viewportWidth, viewportHeight, extentRight, extentBottom);
      var top := m.top + HeaderHeight(false, scale, viewportHeight);
      && m.bottom >= extentBottom + SafetyPadding(scale)
      && top + PlotHeight(m, HeaderHeight(false, scale, viewportHeight), viewportHeight)
           + extentBottom + SafetyPadding(scale) <= viewportHeight
  {
  }
}
