/** `EUV_conductance`: Hall and Pedersen conductance from solar EUV ionisation.

    A production table sampled on a fixed solar-zenith-angle grid is scaled
    by a calibration-specific law, interpolated (and linearly extrapolated)
    at each requested zenith angle, and clamped at zero from below.
 */
module Euv {
  import opened Results
  import opened Text
  import opened Channels
  import opened Numerics

  datatype Calibration = MoenBrekke1993 | MoenBrekke1993Alt | Cousinsetal2015

  function CalibrationName(c: Calibration): string {
    match c
    case MoenBrekke1993 => "MoenBrekke1993"
    case MoenBrekke1993Alt => "MoenBrekke1993_alt"
    case Cousinsetal2015 => "Cousinsetal2015"
  }

  const CalibrationNames: set<string> := {"MoenBrekke1993", "MoenBrekke1993_alt", "Cousinsetal2015"}

  /** The calibration a name selects, and whether the "Invalid calibration"
      notice is printed. The comparison is case-sensitive; every unrecognised
      name falls back to `MoenBrekke1993` and raises the notice, so this
      never fails. */
  function ResolveCalibration(name: string): (r: (Calibration, bool))
    ensures r.1 <==> name !in CalibrationNames
    ensures !r.1 ==> CalibrationName(r.0) == name
    ensures r.1 ==> r.0 == MoenBrekke1993
  {
    if name == "MoenBrekke1993" then (MoenBrekke1993, false)
    else if name == "MoenBrekke1993_alt" then (MoenBrekke1993Alt, false)
    else if name == "Cousinsetal2015" then (Cousinsetal2015, false)
    else (MoenBrekke1993, true)
  }

  /** Every calibration is recognised by its own name, without a notice. */
  lemma ResolveName(c: Calibration)
    ensures ResolveCalibration(CalibrationName(c)) == (c, false)
  {
  }

  /** How production is turned into conductance before the F10.7 factor:
      `linear * P + root * sqrt(P)` (Moen and Brekke, 1993), or
      `scale * P ** exponent` (the alternative fit and Cousins et al., 2015). */
  datatype Profile = Mixed(linear: real, root: real) | PowerLaw(scale: real, exponent: real)

  /** One channel's law: the F10.7 exponent and the production profile. */
  datatype Law = Law(f107Exponent: real, profile: Profile)

  function HallLaw(c: Calibration): Law {
    match c
    case MoenBrekke1993 => Law(0.53, Mixed(0.81, 0.54))
    case MoenBrekke1993Alt => Law(0.53, PowerLaw(1.35, 0.79))
    case Cousinsetal2015 => Law(0.5, PowerLaw(1.8, 1.0))
  }

  function PedersenLaw(c: Calibration): Law {
    match c
    case MoenBrekke1993 => Law(0.49, Mixed(0.34, 0.93))
    case MoenBrekke1993Alt => Law(0.49, PowerLaw(1.27, 0.65))
    case Cousinsetal2015 => Law(0.667, PowerLaw(0.5, 0.667))
  }

  /** Conductance implied by one production value `p`. No production gives
      no conductance, whatever the F10.7 factor, as long as `sqrt(0)` and
      `0 ** exponent` are 0. */
  function Scaled(ops: FloatOps, law: Law, f107: real, p: real): (r: real)
    ensures p == 0.0 && ops.sqrt(0.0) == 0.0
            && (law.profile.PowerLaw? ==> ops.pow(0.0, law.profile.exponent) == 0.0)
            ==> r == 0.0
  {
    match law.profile
    case Mixed(a, b) => ops.pow(f107, law.f107Exponent) * (a * p + b * ops.sqrt(p))
    case PowerLaw(s, e) => ops.pow(f107, law.f107Exponent) * s * ops.pow(p, e)
  }

  /** The law table reproduces the six scaled-production formulas, written
      out as the calibration branches compute them. */
  lemma LawsMatchCalibrationFormulas(ops: FloatOps, f107: real, p: real)
    ensures Scaled(ops, HallLaw(MoenBrekke1993), f107, p) == ops.pow(f107, 0.53) * (0.81 * p + 0.54 * ops.sqrt(p))
    ensures Scaled(ops, PedersenLaw(MoenBrekke1993), f107, p) == ops.pow(f107, 0.49) * (0.34 * p + 0.93 * ops.sqrt(p))
    ensures Scaled(ops, HallLaw(MoenBrekke1993Alt), f107, p) == ops.pow(f107, 0.53) * 1.35 * ops.pow(p, 0.79)
    ensures Scaled(ops, PedersenLaw(MoenBrekke1993Alt), f107, p) == ops.pow(f107, 0.49) * 1.27 * ops.pow(p, 0.65)
    ensures Scaled(ops, HallLaw(Cousinsetal2015), f107, p) == ops.pow(f107, 0.5) * 1.8 * ops.pow(p, 1.0)
    ensures Scaled(ops, PedersenLaw(Cousinsetal2015), f107, p) == ops.pow(f107, 0.667) * 0.5 * ops.pow(p, 0.667)
  {
  }

  /** The scaled array handed to the interpolant, one value per production sample. */
  function ScaledTable(ops: FloatOps, law: Law, f107: real, production: seq<real>): (t: seq<real>)
    ensures |t| == |production|
  {
    seq(|production|, i requires 0 <= i < |production| => Scaled(ops, law, f107, production[i]))
  }

  /** Number of samples of the production table: 0 to 120 degrees in steps of 0.1. */
  const GridSize: nat := 1201

  /** `MODELSZAS`, the fixed zenith-angle grid of the production table. */
  function ModelSzas(): (g: seq<real>)
    ensures |g| == GridSize
  {
    seq(GridSize, i requires 0 <= i < GridSize => i as real / 10.0)
  }

  /** The grid runs from 0 to 120 degrees in strictly increasing steps of 0.1. */
  lemma ModelSzasSpan()
    ensures ModelSzas()[0] == 0.0 && ModelSzas()[GridSize - 1] == 120.0
    ensures forall i :: 0 < i < GridSize ==> ModelSzas()[i] == ModelSzas()[i - 1] + 0.1
  {
  }

  /** `x[x < 0] = 0` on one value. */
  function Clamp(x: real): (r: real)
    ensures r >= 0.0
    ensures x >= 0.0 ==> r == x
    ensures r == 0.0 || r == x
  {
    if x < 0.0 then 0.0 else x
  }

  /** `x[x < 0] = 0` on an array: every value ends up non-negative, and
      values that already were are left alone. */
  function ClampAll(xs: seq<real>): (r: seq<real>)
    ensures |r| == |xs|
    ensures AllNonNegative(r)
    ensures forall i :: 0 <= i < |xs| && xs[i] >= 0.0 ==> r[i] == xs[i]
    ensures forall i :: 0 <= i < |xs| && xs[i] < 0.0 ==> r[i] == 0.0
  {
    seq(|xs|, i requires 0 <= i < |xs| => Clamp(xs[i]))
  }

  /** Clamping a second time changes nothing. */
  lemma ClampAllIdempotent(xs: seq<real>)
    ensures ClampAll(ClampAll(xs)) == ClampAll(xs)
  {
    assert forall i :: 0 <= i < |xs| ==> ClampAll(ClampAll(xs))[i] == ClampAll(xs)[i];
  }

  /** One channel: interpolate the scaled table at every zenith angle, then clamp. */
  function EuvChannel(ops: FloatOps, law: Law, f107: real, production: seq<real>, sza: seq<real>): (r: seq<real>)
    ensures |r| == |sza|
    ensures AllNonNegative(r)
    ensures forall i :: 0 <= i < |sza| ==>
      var v := ops.interp(ModelSzas(), ScaledTable(ops, law, f107, production), sza[i]);
      (v >= 0.0 ==> r[i] == v) && (v < 0.0 ==> r[i] == 0.0)
  {
    var table := ScaledTable(ops, law, f107, production);
    ClampAll(seq(|sza|, i requires 0 <= i < |sza| => ops.interp(ModelSzas(), table, sza[i])))
  }

  /** Output of a call: the conductance arrays, and whether the calibration
      notice was printed. */
  datatype Output = Output(conductance: Conductance, calibrationNotice: bool)

  /** `EUV_conductance(sza, F107, hallOrPed, calibration)`. A table whose
      length differs from the grid makes the interpolant constructor fail. */
  function EuvConductance(ops: FloatOps, production: seq<real>, sza: seq<real>, f107: real,
                          token: string, calibration: string): (r: Result<Output>)
    ensures r.Ok? <==> Lower(token) in EvaluatorTokens && |production| == GridSize
    ensures Lower(token) !in EvaluatorTokens ==> r == Err(InvalidChannel)
    ensures r.Ok? ==> Shaped(r.value.conductance, |sza|) && NonNegative(r.value.conductance)
    ensures r.Ok? ==> (r.value.conductance.Pair? <==> Lower(token) == "hp")
    ensures r.Ok? ==> (r.value.calibrationNotice <==> calibration !in CalibrationNames)
    ensures r.Ok? && Lower(token) != "p" ==>
              Component(r.value.conductance, true)
              == EuvChannel(ops, HallLaw(ResolveCalibration(calibration).0), f107, production, sza)
    ensures r.Ok? && Lower(token) != "h" ==>
              Component(r.value.conductance, false)
              == EuvChannel(ops, PedersenLaw(ResolveCalibration(calibration).0), f107, production, sza)
  {
    var c :- ParseChannel(token);
    var (cal, notice) := ResolveCalibration(calibration);
    if |production| != GridSize then Err(TableLength)
    else
      var hall := if WantsHall(c) then EuvChannel(ops, HallLaw(cal), f107, production, sza) else [];
      var pedersen := if WantsPedersen(c) then EuvChannel(ops, PedersenLaw(cal), f107, production, sza) else [];
      Ok(Output(Dispatch(c, hall, pedersen), notice))
  }

  /** An unrecognised calibration name gives exactly the arrays of
      `MoenBrekke1993`, and differs from that call only by the notice. */
  lemma EuvCalibrationFallback(ops: FloatOps, production: seq<real>, sza: seq<real>, f107: real,
                               token: string, calibration: string)
    requires calibration !in CalibrationNames
    ensures var r := EuvConductance(ops, production, sza, f107, token, calibration);
            var d := EuvConductance(ops, production, sza, f107, token, "MoenBrekke1993");
            r.Ok? == d.Ok? && (r.Ok? ==> r.value.conductance == d.value.conductance
                                         && r.value.calibrationNotice && !d.value.calibrationNotice)
  {
  }

  /** Channel independence: the `hp` call returns exactly the `h` array and
      the `p` array, in that order, with the same notice. */
  lemma EuvChannelsIndependent(ops: FloatOps, production: seq<real>, sza: seq<real>, f107: real,
                               calibration: string)
    ensures var both := EuvConductance(ops, production, sza, f107, "hp", calibration);
            var h := EuvConductance(ops, production, sza, f107, "h", calibration);
            var p := EuvConductance(ops, production, sza, f107, "p", calibration);
            both.Ok? == h.Ok? == p.Ok?
            && (both.Ok? ==> both.value == Output(Pair(h.value.conductance.values, p.value.conductance.values),
                                                  h.value.calibrationNotice)
                             && h.value.calibrationNotice == p.value.calibrationNotice)
  {
    assert Lower("hp") == "hp" && Lower("h") == "h" && Lower("p") == "p";
  }
}
