// The integer rules that place the zoom window of the plots panel: the window
// width, the clamp at the end of the video, and the centring on the current frame.

module ZoomWindow {

  /** The width of the zoom window, in frames (`Increment` in Zoom_Move):
      the frame count divided by the zoom scale, rounded down. */
  function WindowWidth(frameCount: nat, zoomScale: nat): (w: nat)
    requires zoomScale >= 1
    ensures w <= frameCount
    ensures w * zoomScale <= frameCount < (w + 1) * zoomScale
  {
    var w := frameCount / zoomScale;
    DivisionBounds(frameCount, zoomScale);
    w
  }

  /** Euclidean division bounds the quotient by the remainder's range. */
  lemma DivisionBounds(n: nat, d: nat)
    requires d >= 1
    ensures n / d <= n
    ensures (n / d) * d <= n < (n / d + 1) * d
  {
    var q := n / d;
    DivisionIdentity(n, d);
    ScaleUp(q, d);
    assert (q + 1) * d == q * d + d by { SuccTimes(q, d); }
  }

  lemma DivisionIdentity(n: nat, d: nat)
    requires d >= 1
    ensures n == (n / d) * d + n % d && 0 <= n % d < d
  {
  }

  lemma ScaleUp(q: nat, d: nat)
    requires d >= 1
    ensures q <= q * d
  {
    assert q * d == q * (d - 1) + q;
  }

  lemma SuccTimes(q: nat, d: nat)
    ensures (q + 1) * d == q * d + d
  {
  }

  /** The clamp in Zoom_Move: a start that would let the window run past the
      last frame is pulled back so that the window ends exactly at the end. */
  function ClampedBegin(begin: nat, frameCount: nat, width: nat): (b: nat)
    requires width <= frameCount
    ensures b + width <= frameCount
    ensures b <= begin
    ensures begin + width <= frameCount ==> b == begin
    ensures b == begin || b + width == frameCount
  {
    if begin + width > frameCount then frameCount - width else begin
  }

  /** The start that on_XAxis_Kind_currentIndexChanged hands to Zoom_Move:
      half a window before the current frame, saturating at frame 0. */
  function CentredBegin(pos: nat, width: nat): (b: nat)
    ensures b <= pos
    ensures pos - b <= width / 2
    ensures b == 0 || pos - b == width / 2
  {
    if pos > width / 2 then pos - width / 2 else 0
  }

  /** After centring and clamping, the window still shows the current frame
      (when that frame is within the video) and never runs past its end. */
  lemma WindowShowsFrame(frameCount: nat, zoomScale: nat, pos: nat)
    requires zoomScale >= 1
    requires pos <= frameCount
    ensures var w := WindowWidth(frameCount, zoomScale);
            var b := ClampedBegin(CentredBegin(pos, w), frameCount, w);
            b <= pos <= b + w <= frameCount
  {
  }
}
