/**
 * X-axis labels of the cycle charts (src/components/cycles/chart-geometry.ts:17-89), over the reals.
 */
module Chart {
  import opened Common

  const PADDING_LEFT: real := 36.0
  const PADDING_RIGHT: real := 12.0

  /** Minimum horizontal room one label needs. */
  const LABEL_SLOT: real := 52.0

  function PlotWidth(width: real): real { width - PADDING_LEFT - PADDING_RIGHT }

  /** Index to x; a single point is centred. */
  function XScale(pointCount: nat, width: real, i: int): real {
    PADDING_LEFT +
    if pointCount > 1 then (i as real / (pointCount - 1) as real) * PlotWidth(width) else PlotWidth(width) / 2.0
  }

  function Slots(width: real): (slots: int)
    ensures slots >= 2
  {
    Max(2, (PlotWidth(width) / LABEL_SLOT).Floor)
  }

  function CeilDiv(a: nat, b: int): (q: int)
    requires b > 0
    ensures q * b >= a && (q - 1) * b < a
  {
    (a + b - 1) / b
  }

  /** Every `step`-th point gets a label. */
  function XAxisStep(pointCount: nat, width: real): (step: int)
    ensures step >= 1
  {
    Max(1, CeilDiv(pointCount, Slots(width)))
  }

  /** The filter of `xAxisLabels`. */
  predicate Kept(pointCount: nat, step: int, i: int)
    requires step >= 1
  {
    var last := pointCount - 1;
    i == last || (i % step == 0 && last - i >= step)
  }

  /** The indices that keep a label, in order. */
  function LabelsFrom(pointCount: nat, step: int, i: nat): seq<int>
    requires step >= 1 && i <= pointCount
    decreases pointCount - i
  {
    if i == pointCount then []
    else (if Kept(pointCount, step, i) then [i as int] else []) + LabelsFrom(pointCount, step, i + 1)
  }

  lemma {:induction false} LabelsAreKept(pointCount: nat, step: int, i: nat, x: int)
    requires step >= 1 && i <= pointCount
    ensures x in LabelsFrom(pointCount, step, i) <==> i <= x < pointCount && Kept(pointCount, step, x)
    decreases pointCount - i
  {
    if i < pointCount { LabelsAreKept(pointCount, step, i + 1, x); }
  }

  lemma Products(a: int, b: int, k: int)
    ensures a >= b && k >= 0 ==> a * k >= b * k
    ensures a <= 0 && k >= 0 ==> a * k <= 0
  {
  }

  lemma MultiplesApart(a: int, b: int, step: int)
    requires step >= 1 && a % step == 0 && b % step == 0 && a < b
    ensures b - a >= step
  {
    var k := b / step - a / step;
    assert a == step * (a / step) && b == step * (b / step);
    assert b - a == k * step;
    Products(k, 1, step);
  }

  /** Two kept labels are at least a step of indices apart. */
  lemma LabelsApart(pointCount: nat, step: int, i: int, j: int)
    requires step >= 1 && 0 <= i < j < pointCount
    requires Kept(pointCount, step, i) && Kept(pointCount, step, j)
    ensures j - i >= step
  {
    if j < pointCount - 1 {
      MultiplesApart(i, j, step);
    }
  }

  lemma CeilIsSmall(n: int, q: int, slots: int)
    requires n >= 2 && slots >= 2 && (q - 1) * slots < n
    ensures q <= n - 1
  {
  }

  /** The ends of the axis are always labelled. */
  lemma EndsAreLabelled(pointCount: nat, width: real)
    requires pointCount >= 2
    ensures var step := XAxisStep(pointCount, width);
            Kept(pointCount, step, 0) && Kept(pointCount, step, pointCount - 1)
  {
    var slots := Slots(width);
    var q := CeilDiv(pointCount, slots);
    hide CeilDiv, Slots;
    CeilIsSmall(pointCount, q, slots);
  }

  /** A step that halves the points or more leaves only the two ends. */
  lemma OnlyEnds(pointCount: nat, step: int, i: int)
    requires step >= 1 && 2 * step >= pointCount && 0 <= i < pointCount && Kept(pointCount, step, i)
    ensures i == 0 || i == pointCount - 1
  {
  }

  lemma Distance(pointCount: nat, width: real, i: int, j: int)
    requires pointCount >= 2
    ensures XScale(pointCount, width, j) - XScale(pointCount, width, i)
            == ((j - i) as real / (pointCount - 1) as real) * PlotWidth(width)
  {
  }

  lemma RealQuotients(a: real, m: real)
    requires m > 0.0
    ensures (a / m) * m == a && m / m == 1.0
    ensures a >= 0.0 ==> a / m >= 0.0
  {
  }

  lemma StepIsWide(pointCount: nat, width: real, d: int)
    requires pointCount >= 2 && PlotWidth(width) >= 2.0 * LABEL_SLOT
    requires d >= XAxisStep(pointCount, width)
    ensures (d as real / (pointCount - 1) as real) * PlotWidth(width) >= LABEL_SLOT
  {
  }

  /** On a narrow plot only the two ends are labelled, the whole plot apart. */
  lemma EndsApart(pointCount: nat, width: real, i: int, j: int)
    requires pointCount >= 2 && LABEL_SLOT <= PlotWidth(width) < 2.0 * LABEL_SLOT && 0 <= i < j < pointCount
    requires var step := XAxisStep(pointCount, width); Kept(pointCount, step, i) && Kept(pointCount, step, j)
    ensures i == 0 && j == pointCount - 1
  {
    assert Slots(width) == 2;
    var step := XAxisStep(pointCount, width);
    hide Kept;
    OnlyEnds(pointCount, step, i);
    OnlyEnds(pointCount, step, j);
  }

  lemma PairApart(pointCount: nat, width: real, i: int, j: int)
    requires pointCount >= 2 && PlotWidth(width) >= LABEL_SLOT && 0 <= i < j < pointCount
    requires var step := XAxisStep(pointCount, width); Kept(pointCount, step, i) && Kept(pointCount, step, j)
    ensures XScale(pointCount, width, j) - XScale(pointCount, width, i) >= LABEL_SLOT
  {
    hide XScale, Kept, XAxisStep, PlotWidth;
    Distance(pointCount, width, i, j);
    if PlotWidth(width) >= 2.0 * LABEL_SLOT {
      LabelsApart(pointCount, XAxisStep(pointCount, width), i, j);
      StepIsWide(pointCount, width, j - i);
    } else {
      EndsApart(pointCount, width, i, j);
      RealQuotients(1.0, (pointCount - 1) as real);
    }
  }

  /** No two labels are closer than their slot. */
  ghost predicate NeverCrowded(pointCount: nat, width: real) {
    var labels := LabelsFrom(pointCount, XAxisStep(pointCount, width), 0);
    forall i, j | i in labels && j in labels && i < j ::
      XScale(pointCount, width, j) - XScale(pointCount, width, i) >= LABEL_SLOT
  }

  lemma RoomKeepsApart(pointCount: nat, width: real)
    requires pointCount >= 2 && PlotWidth(width) >= LABEL_SLOT
    ensures NeverCrowded(pointCount, width)
  {
    var step := XAxisStep(pointCount, width);
    hide XScale, Kept, LabelsFrom, XAxisStep, PlotWidth;
    forall i, j | i in LabelsFrom(pointCount, step, 0) && j in LabelsFrom(pointCount, step, 0) && i < j
      ensures XScale(pointCount, width, j) - XScale(pointCount, width, i) >= LABEL_SLOT
    {
      LabelsAreKept(pointCount, step, 0, i);
      LabelsAreKept(pointCount, step, 0, j);
      PairApart(pointCount, width, i, j);
    }
  }

  /** With two points or more, labels keep their distance exactly when the plot has room for one. */
  lemma LabelsNeverCrowdExactly(pointCount: nat, width: real)
    requires pointCount >= 2
    ensures NeverCrowded(pointCount, width) <==> PlotWidth(width) >= LABEL_SLOT
  {
    if PlotWidth(width) >= LABEL_SLOT {
      RoomKeepsApart(pointCount, width);
    } else {
      var (last, step) := (pointCount - 1, XAxisStep(pointCount, width));
      EndsAreLabelled(pointCount, width);
      LabelsAreKept(pointCount, step, 0, 0);
      LabelsAreKept(pointCount, step, 0, last);
      Distance(pointCount, width, 0, last);
      RealQuotients(1.0, last as real);
      hide XScale, Kept, LabelsFrom, XAxisStep, PlotWidth;
      assert XScale(pointCount, width, last) - XScale(pointCount, width, 0) == PlotWidth(width);
    }
  }

  // ----- in pixels ----------------------------------------------------------------------------

  /** The first point sits 36 px from the left, the last 12 px from the right, a single one in the middle. */
  lemma ScaleInPixels(pointCount: nat, width: real, i: int)
    ensures pointCount > 1 ==> XScale(pointCount, width, 0) == 36.0
    ensures pointCount > 1 ==> XScale(pointCount, width, pointCount - 1) == width - 12.0
    ensures pointCount > 1 ==>
              XScale(pointCount, width, i) == 36.0 + (i as real / (pointCount - 1) as real) * (width - 48.0)
    ensures pointCount <= 1 ==> XScale(pointCount, width, i) - 36.0 == width - 12.0 - XScale(pointCount, width, i)
  {
    if pointCount > 1 {
      RealQuotients(1.0, (pointCount - 1) as real);
    }
  }

  /** The step is the least one with which the labels have 52 px each, or the two that always fit. */
  lemma StepIsLeast(pointCount: nat, width: real)
    ensures var (step, slots) := (XAxisStep(pointCount, width), ((width - 48.0) / 52.0).Floor);
            if slots < 2 then
              && 2 * step >= pointCount && (step > 1 ==> 2 * (step - 1) < pointCount)
            else
              && step * slots >= pointCount && (step > 1 ==> (step - 1) * slots < pointCount)
  {
  }

  /** Every multiple of the step keeps its label unless it is too near the last one. */
  lemma NoLabelIsDroppedInVain(pointCount: nat, step: int, i: int)
    requires step >= 1 && 0 <= i < pointCount
    ensures i in LabelsFrom(pointCount, step, 0)
            <==> i == pointCount - 1 || (i % step == 0 && pointCount - 1 - i >= step)
  {
    LabelsAreKept(pointCount, step, 0, i);
  }

  /** In pixels: labels are 52 px apart exactly if the chart is at least 100 px wide. */
  lemma LabelsInPixels(pointCount: nat, width: real)
    requires pointCount >= 2
    ensures (forall i, j |
               && i in LabelsFrom(pointCount, XAxisStep(pointCount, width), 0)
               && j in LabelsFrom(pointCount, XAxisStep(pointCount, width), 0) && i < j ::
               XScale(pointCount, width, j) - XScale(pointCount, width, i) >= 52.0)
            <==> width >= 100.0
  {
    LabelsNeverCrowdExactly(pointCount, width);
    hide XScale, LabelsFrom, XAxisStep;
  }
}
