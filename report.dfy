/**
 * The usage report of controller/report.go: how many pods are ready and how
 * many are occupied, the occupancy ratio, and how many pods to add (or remove)
 * to reach an expected occupancy. The Go code works in float32; this model
 * works in exact real arithmetic.
 */
module Reports {

  /** Counts of ready and occupied pods, as `Status.Report` builds them. */
  datatype Report = Report(readyPods: nat, occupiedPods: nat)

  function Total(r: Report): nat
  {
    r.readyPods + r.occupiedPods
  }

  /** `Usage`: the fraction of counted pods that are occupied. */
  function Usage(r: Report): (u: real)
    requires Total(r) > 0
    ensures 0.0 <= u <= 1.0
    ensures u * Total(r) as real == r.occupiedPods as real
  {
    var total := Total(r) as real;
    var occupied := r.occupiedPods as real;
    assert occupied <= total;
    assert occupied / total <= 1.0 by {
      assert occupied / total * total == occupied;
    }
    occupied / total
  }

  /**
   * The number x of extra occupied pods that solves
   * (occupied + x) / (ready + occupied + x) = eu, before any conversion to an
   * integer (the closed form of controller/report.go:32).
   */
  function ExactDelta(r: Report, eu: real): (x: real)
    requires eu != 1.0
    ensures r.occupiedPods as real + x == eu * (Total(r) as real + x)
  {
    var ready := r.readyPods as real;
    var occupied := r.occupiedPods as real;
    var x := eu * ready / (1.0 - eu) - occupied;
    assert (occupied + x) * (1.0 - eu) == eu * ready;
    x
  }

  /**
   * `Delta`: the exact solution converted to a Go `int`, which truncates
   * toward zero (never rounds, and rounds negative values up).
   */
  function Delta(r: Report, eu: real): (d: int)
    requires eu != 1.0
    ensures var x := ExactDelta(r, eu);
      && (0.0 <= x ==> 0 <= d && d as real <= x < d as real + 1.0)
      && (x < 0.0 ==> d <= 0 && d as real - 1.0 < x <= d as real)
  {
    var x := ExactDelta(r, eu);
    if x >= 0.0 then x.Floor else -((-x).Floor)
  }

  /** With no ready pods, or an expected usage of zero, every occupied pod is surplus. */
  lemma DeltaWithoutReadyOrTarget(r: Report, eu: real)
    requires eu != 1.0
    requires r.readyPods == 0 || eu == 0.0
    ensures Delta(r, eu) == -(r.occupiedPods as int)
  {
    var numerator := eu * (r.readyPods as real);
    assert numerator == 0.0;
    var denominator := 1.0 - eu;
    assert 0.0 / denominator == 0.0;
    assert numerator / denominator == 0.0;
    assert ExactDelta(r, eu) == -(r.occupiedPods as real);
  }

  /** The two sizing scenarios for an expected usage of 80%, in exact arithmetic. */
  lemma DeltaAtEightyPercent()
    ensures Delta(Report(1, 9), 0.8) == -5
    ensures Delta(Report(8, 2), 0.8) == 30
  {
    assert ExactDelta(Report(1, 9), 0.8) == -5.0;
    assert ExactDelta(Report(8, 2), 0.8) == 30.0;
  }
}
