# Ionospheric conductance: the discrete skeleton of `utils/conductance.py`

This project models the conductance functions of lompe: `hardy_EUV`,
`EUV_conductance` and `hardy`. Between them they compute Hall and Pedersen
conductance in two parts:

- an auroral part from the Hardy et al. (1987) model, driven by Kp,
  magnetic latitude and magnetic local time;
- a solar EUV part from a Chapman production table, driven by solar zenith
  angle and F10.7.

The model covers the logic around the physics:

- selector validation and normalisation;
- the Kp domain check;
- the calibration fallback;
- selecting coefficient rows by Kp label;
- parsing Fourier term labels;
- the row-ordered Fourier sum of the four Epstein parameters;
- the Epstein formula's shape;
- the EUV zero clamp and the Hardy floors;
- the per-channel sum `hardy + EUV + starlight` in (Hall, Pedersen) order.

Numbers are Dafny `real`s. The transcendental functions, floating-point
division, `**` and the scipy interpolant are fields of a `FloatOps` record.
Every property below therefore holds whatever functions are supplied for them.

Modules, one per component:

- `Results`: the error and result types.
- `Text`: `lower()`, substring tests, digits and `str(int)`.
- `Channels`: selectors and the return dispatch.
- `Numerics`: `FloatOps`, `abs` and 1-D broadcasting.
- `Euv`: `EUV_conductance`.
- `Hardy`: `hardy`.
- `Combiner`: `hardy_EUV`.

Points where the model follows the exact behaviour of the code:

- The Hardy floors at utils/conductance.py:319-320 and 343-344 use strict comparisons (`mlat < h0`, `mlat > h0`). At `mlat == h0` the value is left unfloored, so it is not guaranteed to be non-negative there.
- When no coefficient row carries the label `'K' + str(kp)`, the four Epstein parameters stay the Python integer `0`, and `1 - (S1/S2)` at line 316 (line 340 for Pedersen) raises ZeroDivisionError. The model fails such a call with `NoCoefficients`.
- The Kp check is Python's `kp in [0, ..., 6]`, which also admits `3.0`. This is reported under Findings, and the model uses the corrected check.

## Model

| member | source | states |
|---|---|---|
| `Text.Lower` | utils/conductance.py:52 | `lower()` (here and at line 170) keeps the length and lower-cases each character on its own |
| `Text.LowerIdempotent` | utils/conductance.py:52 | lower-casing is idempotent, so every selector test gives the same answer for a string and its lower-case form |
| `Text.IsSubstringOccurs` | utils/conductance.py:69-71 | the substring test `a in b` holds exactly when `a` occurs at some index of `b` |
| `Text.DigitValue` | utils/conductance.py:304 | `int(c)` succeeds exactly on the digits `0`-`9` and returns the digit that `c` writes |
| `Text.DigitRoundTrip` | utils/conductance.py:304 | reading back a written digit returns that digit |
| `Channels.ParseChannel` | utils/conductance.py:170 | `EUV_conductance` and `hardy` accept a selector exactly when its lower-case form is `h`, `p` or `hp`; otherwise InvalidChannel; the accepted channel's token is that lower-case form |
| `Channels.ParseToken` | utils/conductance.py:170 | every canonical selector is accepted and names its own channel (the inverse of `ParseChannel`) |
| `Channels.WantsHall` | utils/conductance.py:178 | the Hall array is computed for every selector except Pedersen alone |
| `Channels.WantsPedersen` | utils/conductance.py:179 | the Pedersen array is computed for every selector except Hall alone |
| `Channels.Dispatch` | utils/conductance.py:240-249 | a pair comes back exactly for `hp`; the Hall and Pedersen arrays sit in their own slots in (Hall, Pedersen) order |
| `Channels.HopTests` | utils/conductance.py:69-74 | no test fires exactly when none of the three conditions holds; the last test wins, so `hp`/`hallandpedersen` always give both channels, and Hall survives only when the `pedersen` test did not fire |
| `Channels.HopTestsOnAcceptedTokens` | utils/conductance.py:69-74 | on each of the six accepted selectors exactly one of the three tests fires; it maps `h`/`hall` to Hall, `p`/`pedersen` to Pedersen and `hp`/`hallandpedersen` to both |
| `Channels.LooseTestAcceptsFragment` | utils/conductance.py:69-70 | without the membership check, the substring tests would take `"al"` for Hall |
| `Channels.NormaliseHop` | utils/conductance.py:52-74 | `hardy_EUV` accepts a selector exactly when its lower-case form is one of the six tokens, and maps it to the channel the token names |
| `Numerics.AbsAll` | utils/conductance.py:291 | `np.abs` gives a non-negative array of the same length, each value plus or minus its input |
| `Numerics.AbsAllIgnoresSign` | utils/conductance.py:291 | the absolute values of an array do not depend on the signs of its entries |
| `Numerics.Broadcast` | utils/conductance.py:292 | two 1-D arrays broadcast exactly when their lengths are equal or one is 1; the result has the broadcast length and repeats a length-1 side; otherwise ShapeMismatch |
| `Numerics.BroadcastEqualLengths` | utils/conductance.py:292 | arrays of equal length broadcast to their elementwise pairing |
| `Euv.ResolveCalibration` | utils/conductance.py:181-184 | a notice is raised exactly for names outside the three recognised ones; such names fall back to `MoenBrekke1993`; recognised names select their own calibration |
| `Euv.ResolveName` | utils/conductance.py:181-184 | each calibration is recognised under its own name, without a notice |
| `Euv.Scaled` | utils/conductance.py:186-237 | zero production gives zero conductance under every law and F10.7, given `sqrt(0) == 0` and `0 ** e == 0` |
| `Euv.LawsMatchCalibrationFormulas` | utils/conductance.py:186-237 | the per-calibration law table gives the six scaled-production formulas and their constants |
| `Euv.ModelSzasSpan` | utils/conductance.py:175 | the grid has 1201 points from 0 to 120 degrees, in steps of 0.1 |
| `Euv.Clamp` | utils/conductance.py:241 | the clamped value is at least 0, and a non-negative value is unchanged |
| `Euv.ClampAll` | utils/conductance.py:241-249 | every clamped array value is at least 0; non-negative values are kept; negative ones become 0 |
| `Euv.ClampAllIdempotent` | utils/conductance.py:241-249 | clamping twice equals clamping once |
| `Euv.EuvChannel` | utils/conductance.py:213-249 | one value per zenith angle: the interpolated scaled table if that is non-negative, 0 otherwise |
| `Euv.EuvConductance` | utils/conductance.py:168-249 | succeeds exactly for an accepted selector and a 1201-sample table; output has the input length and is non-negative; a pair comes back exactly for `hp`; notice exactly for an unknown calibration; each array is its channel's interpolated, clamped law for the resolved calibration |
| `Euv.EuvCalibrationFallback` | utils/conductance.py:181-184 | an unknown calibration gives the same arrays as `MoenBrekke1993`, plus the notice |
| `Euv.EuvChannelsIndependent` | utils/conductance.py:178-179 | the `hp` call returns exactly (the `h` array, the `p` array) and succeeds exactly when they do |
| `Hardy.KpLabelDigits` | utils/conductance.py:301 | for Kp 0..6 the label `'K' + str(kp)` is `K` plus the digit, so different levels have different labels |
| `Hardy.FloatKpSelectsNoRows` | utils/conductance.py:289-316 | as written, `kp = 3.0` passes the Kp check, yet its label `K3.0` selects no row of a table labelled `K0`..`K6`, so the channel evaluation fails with the division by zero (`NoCoefficients`) |
| `Hardy.CheckKp` | utils/conductance.py:289 | the Kp check succeeds exactly for an integer from 0 to 6 and returns it; otherwise InvalidKp |
| `Hardy.CheckKpRefusesFloat` | utils/conductance.py:289 | the corrected check refuses `3.0` and agrees with the written check on every integer |
| `Hardy.Select` | utils/conductance.py:301 | the selected rows are exactly the table's rows that carry the label, each as many times as in the table (order: `Hardy.SelectAppend`) |
| `Hardy.SelectAppend` | utils/conductance.py:301 | selection distributes over concatenation and keeps table order |
| `Hardy.SelectNone` | utils/conductance.py:301 | when no row carries the label, nothing is selected |
| `Hardy.ParseTerm` | utils/conductance.py:304-305 | a label parses exactly when it is non-empty and ends in a digit or `t`; the order is that digit, or 0 for `t`; the function is sine exactly when the label starts with `Sin` |
| `Hardy.ParseTermLabel` | utils/conductance.py:304-305 | the labels `Sin<n>` and `Cos<n>` parse back to their term |
| `Hardy.ParseConstantTerm` | utils/conductance.py:328-329 | any label ending in `t` that does not start with `Sin` is the order-0 cosine term |
| `Hardy.ParseRows` | utils/conductance.py:304-305 | the selected rows parse exactly when every term label parses; each row keeps its coefficients, in order |
| `Hardy.FourierSum` | utils/conductance.py:308-312 | the parameters start at 0 and stay 0 when every selected row has zero coefficients |
| `Hardy.FourierSumAppend` | utils/conductance.py:308-312 | the Fourier sum over concatenated rows is the sum of the two partial sums |
| `Hardy.FourierSumOfNoRows` | utils/conductance.py:308 | with no rows, all four Epstein parameters are 0 |
| `Hardy.EvaluateParameters` | utils/conductance.py:308-312 | the row-by-row loop gives, at every local time, the row-ordered sum of `coef * trig(n*mlt/12*pi)` |
| `Hardy.EpsteinConductance` | utils/conductance.py:315-316 | at the peak latitude `h0` the Epstein function equals the peak value `r`, given `exp(0) == 1`, `log(1) == 0` and a denominator `1 - S1/S2` that divides itself to 1 |
| `Hardy.Floor` | utils/conductance.py:319-320 | where `mlat < h0` the result is at least 0 (a negative value becomes 0); where `mlat > h0` it is at least 0.55 (a smaller value becomes 0.55); where `mlat == h0` it is untouched |
| `Hardy.FloorIdempotent` | utils/conductance.py:319-320 | flooring twice equals flooring once |
| `Hardy.HardyValue` | utils/conductance.py:315-320 | a sample's conductance is the floored Epstein value: at least 0 equatorward and at least 0.55 poleward of the reconstructed `h0`; an Epstein value already above its floor is kept; at `h0` the plain Epstein value |
| `Hardy.HardyChannel` | utils/conductance.py:299-320 | one channel succeeds exactly when at least one row carries the label and every such row parses; no row gives NoCoefficients (the 0/0 of line 316), an unparseable row MalformedTerm; on success one floored Epstein value per sample |
| `Hardy.HardyChannelIgnoresOtherKp` | utils/conductance.py:301 | adding rows with another label changes nothing |
| `Hardy.HardyConductance` | utils/conductance.py:288-351 | a bad selector gives InvalidChannel, then a bad Kp InvalidKp, then shapes numpy cannot broadcast ShapeMismatch; the call succeeds exactly when all three pass and each requested channel has parseable rows for the Kp; the output has the broadcast length; a pair comes back exactly for `hp` |
| `Hardy.HardyChannelsIndependent` | utils/conductance.py:346-351 | the `hp` call returns exactly (the `h` array, the `p` array) and succeeds exactly when both do |
| `Hardy.HardyMlatSignIrrelevant` | utils/conductance.py:291 | negating every `mlat` leaves the result unchanged |
| `Hardy.HardyPairValues` | utils/conductance.py:291-344 | each array of an `hp` call is, sample by sample, the floored Epstein value at (abs(mlat), mlt) from that channel's rows for Kp, a length-1 input being repeated against the other |
| `Combiner.Total` | utils/conductance.py:85-89 | each total less its EUV value is the auroral value plus starlight, so with a non-negative EUV part no total drops below auroral plus starlight |
| `Combiner.Combine` | utils/conductance.py:84-89 | the totals have the sample count and come back as a pair exactly for the both-channels selector; each requested channel's total is its own auroral + EUV + starlight, in (Hall, Pedersen) order |
| `Combiner.HardyEuv` | utils/conductance.py:52-89 | errors come in source order: InvalidChannel for a selector outside the six tokens, then TableLength, then InvalidKp; the call succeeds exactly when the selector, the table length and Kp are valid and both coefficient tables have parseable rows for the Kp; the output has one value per sample; a pair comes back exactly for `hp`/`hallandpedersen`; notice exactly for an unknown calibration |
| `Combiner.HardyEuvAliases` | utils/conductance.py:69-74 | `hall`, `pedersen` and `hallandpedersen` give the results of `h`, `p` and `hp` |
| `Combiner.HardyEuvSumsChannels` | utils/conductance.py:82-89 | per requested channel and sample, total = single-channel `hardy` + single-channel `EUV_conductance` + starlight, and so at least auroral + starlight |
| `Combiner.HardyEuvChannelsIndependent` | utils/conductance.py:76-89 | the `hp` call returns exactly (the `h` totals, the `p` totals) and succeeds exactly when both do |
| `Combiner.HardyEuvMlatSignIrrelevant` | utils/conductance.py:82 | negating every sample's magnetic latitude leaves the combined result unchanged |
| `Combiner.HardyEuvFloors` | utils/conductance.py:82-89 | poleward of a channel's `h0` the total is at least 0.55 + starlight; equatorward of it the total is at least the starlight |

## Left out

- Coordinate and time transforms (`Dipole`, `geo2mag`, `mag2geo`, `mlon2mlt`, `sunlight.sza`): these are foreign modules and are not part of this model. Each `Combiner.Sample` already carries `mlat`, `mlt` and `sza`.
- File loading (`np.loadtxt`, `pd.read_table`, the skipped header line): this is I/O. The production table and the coefficient tables are given as sequences.
- Floating-point numerics: `sin`, `cos`, `exp`, `log`, `sqrt`, `**`, division and the `interp1d` interpolant are uninterpreted parameters, so no claim is made about their values or about rounding. NaN and infinity are not modelled. In the source, a NaN passes the clamp and the floors unchanged, because its comparisons are false.
- Only 1-D arrays are modelled, with no `reshape`. Broadcasting is numpy's 1-D rule. Multi-dimensional shapes, and `hardy` flattening `mlat` and `mlt` separately before combining them, are not modelled.
- `F107` is a scalar only. Broadcasting an F107 array against the table is not modelled.
- The calibration notice is a returned flag, not a `print`.
- `Text.Lower` and `Text.DigitValue` cover ASCII only. Python's Unicode case mapping and Unicode digits are not modelled.
- Checks are always active. Python `assert`s disappear under `python -O`, and the model does not follow that.
- Kp is an `int` or a `float` (`Hardy.KpValue`). Other Python values that compare equal to 0..6 are not modelled, such as `True` or numpy scalars.
- Of the errors `interp1d` can raise, only the length check of the table against the grid is modelled.

## Findings

| source | as written | input that shows it | evidently intended | confidence | as-written member | corrected member |
|---|---|---|---|---|---|---|
| utils/conductance.py:289 | `kp in [0, 1, 2, 3, 4, 5, 6]` is an equality test, so a float equal to an integer passes. Line 301 then selects rows labelled `'K' + str(kp)`, which is `K3.0`; no row carries that label, so the Epstein parameters stay the integer 0 and `1 - (S1/S2)` at line 316 raises ZeroDivisionError instead of the check's own assertion error | `kp = 3.0` | only the integers 0..6 pass, as the check's own message says ("Kp must be an integer in the range 0-6") | medium, not executed | `Hardy.FloatKpSelectsNoRows` | `Hardy.CheckKp` |
