/** `calc_inversion`, the Function node `calcinv`, and the two BinaryMaths
    nodes `mulinv` and `addinv` that apply its result to every voxel of the
    masked anatomical image: first multiply by `mul`, then add `add`.
    Intensities are modelled as reals; floating-point rounding is not. */
module Inversion {
  import opened Wrappers

  /** The pair returned by `calc_inversion`, in the order of the Function
      node's output names `['mul', 'add']`. */
  datatype Rescaling = Rescaling(mul: real, add: real)

  /** Python's built-in `abs` on a float. */
  function Abs(x: real): (r: real)
    ensures r >= 0.0 && (r == x || r == -x)
  {
    if x < 0.0 then -x else x
  }

  /** `calc_inversion(anat_min_max, epi_min_max)`. The two arguments are the
      lists printed by ImageStats (`-R` and `-r`): element 0 is the minimum,
      element 1 the maximum. A list shorter than two raises IndexError before
      anything is divided; a zero-width anatomical range raises
      ZeroDivisionError. */
  function CalcInversion(anat: seq<real>, epi: seq<real>): (r: Result<Rescaling>)
    ensures r.Ok? <==> |anat| >= 2 && |epi| >= 2 && anat[1] != anat[0]
    ensures r.Err? ==> r.error == (if |anat| < 2 || |epi| < 2 then IndexError else ZeroDivisionError)
    ensures r.Ok? ==> r.value.mul * (anat[1] - anat[0]) == epi[0] - epi[1]
  {
    if |epi| < 2 || |anat| < 2 then Err(IndexError)
    else if anat[1] - anat[0] == 0.0 then Err(ZeroDivisionError)
    else
      var mul := -(epi[1] - epi[0]) / (anat[1] - anat[0]);
      var add := Abs(anat[1] * mul) + epi[0];
      Ok(Rescaling(mul, add))
  }

  /** One voxel through `mulinv` (multiply by `mul`) and then `addinv`
      (add `add`). */
  function Apply(v: real, rs: Rescaling): real {
    v * rs.mul + rs.add
  }

  /** Both ranges ordered (minimum before maximum), the anatomical one with
      non-zero width: `calc_inversion` succeeds with a non-positive
      multiplier, so the rescaling reverses intensity order. */
  lemma ReversesOrder(anat: seq<real>, epi: seq<real>, v: real, w: real)
    requires |anat| >= 2 && |epi| >= 2
    requires anat[0] < anat[1] && epi[0] <= epi[1]
    requires v <= w
    ensures CalcInversion(anat, epi).Ok?
    ensures CalcInversion(anat, epi).value.mul <= 0.0
    ensures Apply(v, CalcInversion(anat, epi).value) >= Apply(w, CalcInversion(anat, epi).value)
  {
    var rs := CalcInversion(anat, epi).value;
    var width := anat[1] - anat[0];
    assert rs.mul * width == epi[0] - epi[1];
    assert (w - v) * rs.mul <= 0.0;
  }

  /** With ordered ranges and a non-negative anatomical maximum, the
      rescaling sends the anatomical maximum to the EPI minimum and the
      anatomical minimum to the EPI maximum: it flips the anatomical range
      onto the EPI range. */
  lemma InvertsRange(anat: seq<real>, epi: seq<real>)
    requires |anat| >= 2 && |epi| >= 2
    requires anat[0] < anat[1] && epi[0] <= epi[1]
    requires anat[1] >= 0.0
    ensures CalcInversion(anat, epi).Ok?
    ensures Apply(anat[1], CalcInversion(anat, epi).value) == epi[0]
    ensures Apply(anat[0], CalcInversion(anat, epi).value) == epi[1]
  {
    var rs := CalcInversion(anat, epi).value;
    ReversesOrder(anat, epi, anat[0], anat[1]);
    assert anat[1] * rs.mul <= 0.0;
    assert rs.add == -(anat[1] * rs.mul) + epi[0];
    assert anat[0] * rs.mul - anat[1] * rs.mul == -(rs.mul * (anat[1] - anat[0]));
  }

  /** Under the same conditions every anatomical intensity inside its range
      lands inside the EPI range. */
  lemma MapsIntoRange(anat: seq<real>, epi: seq<real>, v: real)
    requires |anat| >= 2 && |epi| >= 2
    requires anat[0] < anat[1] && epi[0] <= epi[1]
    requires anat[1] >= 0.0
    requires anat[0] <= v <= anat[1]
    ensures CalcInversion(anat, epi).Ok?
    ensures epi[0] <= Apply(v, CalcInversion(anat, epi).value) <= epi[1]
  {
    InvertsRange(anat, epi);
    ReversesOrder(anat, epi, anat[0], v);
    ReversesOrder(anat, epi, v, anat[1]);
  }

  /** The `abs` in the offset matters: for strictly ordered ranges (minimum
      below maximum), the anatomical maximum is sent to the EPI minimum
      exactly when that maximum is non-negative. For a negative maximum the
      offset takes the wrong sign. */
  lemma MaximumToMinimumIff(anat: seq<real>, epi: seq<real>)
    requires |anat| >= 2 && |epi| >= 2
    requires anat[0] < anat[1] && epi[0] < epi[1]
    ensures CalcInversion(anat, epi).Ok?
    ensures Apply(anat[1], CalcInversion(anat, epi).value) == epi[0] <==> anat[1] >= 0.0
  {
    var rs := CalcInversion(anat, epi).value;
    var width := anat[1] - anat[0];
    assert rs.mul * width == epi[0] - epi[1];
    assert rs.mul < 0.0;
    if anat[1] < 0.0 {
      assert anat[1] * rs.mul > 0.0;
      assert Apply(anat[1], rs) == 2.0 * (anat[1] * rs.mul) + epi[0];
    } else {
      InvertsRange(anat, epi);
    }
  }

  /** A worked case: anatomical range (0, 10), EPI range (0, 100) give
      `mul = -10` and `add = 100`. */
  lemma ExampleRanges()
    ensures CalcInversion([0.0, 10.0], [0.0, 100.0]) == Ok(Rescaling(-10.0, 100.0))
  {
  }
}
