/** The fiducial-volume ratio used to scale a near-detector off-axis slice to
    the far detector. Volumes are in cm^3 and computed over the reals. */
module PRISMUtils {

  /** The far-detector fiducial volume, 620 x 1100 x (1244 - 50) cm. */
  const FDFV: real := 620.0 * 1100.0 * (1244.0 - 50.0)

  /** The fiducial volume of a near-detector slice `xSliceCm` wide:
      200 cm high and 350 - 50 cm deep. */
  function NDSliceFV(xSliceCm: real): (v: real)
    ensures v == xSliceCm * 60000.0
    ensures xSliceCm > 0.0 ==> v > 0.0
  {
    xSliceCm * 200.0 * (350.0 - 50.0)
  }

  /** `FD_ND_FVRatio`: how many slices of width `xSliceCm` fill the far
      detector's fiducial volume. */
  function FD_ND_FVRatio(xSliceCm: real): (r: real)
    requires xSliceCm != 0.0
    ensures r * NDSliceFV(xSliceCm) == FDFV
    ensures xSliceCm > 0.0 ==> r > 0.0
    ensures xSliceCm < 0.0 ==> r < 0.0
  {
    var ndSliceFV := NDSliceFV(xSliceCm);
    var fdFV := FDFV;
    fdFV / ndSliceFV
  }

  /** The far-detector volume evaluates to 814,308,000 cm^3. */
  lemma FarVolumeValue()
    ensures FDFV == 814308000.0
  {
  }

  /** The ratio is inversely proportional to the slice width. */
  lemma RatioInverselyProportional(x: real, k: real)
    requires x != 0.0 && k > 0.0
    ensures FD_ND_FVRatio(k * x) == FD_ND_FVRatio(x) / k
  {
    var r, rk := FD_ND_FVRatio(x), FD_ND_FVRatio(k * x);
    assert r * (x * 60000.0) == FDFV;
    assert rk * (k * x * 60000.0) == FDFV;
    assert (rk * k) * (x * 60000.0) == r * (x * 60000.0);
    assert rk * k == r;
  }
}
