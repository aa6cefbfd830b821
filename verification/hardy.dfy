/** `hardy`: auroral Hall and Pedersen conductance from the Hardy et al. (1987)
    model.

    For the requested Kp level, the coefficient rows of each channel give four
    Epstein-function parameters as truncated Fourier series in magnetic local
    time; the Epstein transition function of |mlat| is then evaluated and
    floored.
 */
module Hardy {
  import opened Results
  import opened Text
  import opened Channels
  import opened Numerics

  /** One row of a coefficient table, as read from the file. */
  datatype CoefficientRow = CoefficientRow(
    kp: string,          // Kp label, `K0` .. `K6`
    term: string,        // Fourier term label
    maxValue: real,
    maxLatitude: real,
    upSlope: real,
    downSlope: real)

  /** The Hall and Pedersen coefficient tables. */
  datatype HardyTables = HardyTables(hall: seq<CoefficientRow>, pedersen: seq<CoefficientRow>)

  datatype Trig = Sine | Cosine

  /** A parsed term label: harmonic order and trigonometric function. */
  datatype Term = Term(order: nat, trig: Trig)

  /** The four Epstein parameters: `r`, `h0`, `S1` and `S2` of the
      transition function. */
  datatype Epstein = Epstein(maxValue: real, maxLatitude: real, upSlope: real, downSlope: real)

  datatype ParsedRow = ParsedRow(term: Term, coefficients: Epstein)

  // ---------------------------------------------------------------- Kp

  /** The Kp argument: an `int`, or a `float`. */
  datatype KpValue = KpInt(n: int) | KpFloat(x: real)

  /** The row label `'K' + str(kp)` of an integer Kp. */
  function KpLabel(kp: int): string {
    "K" + IntString(kp)
  }

  /** The label of each admissible Kp is `K` followed by its one digit, so
      different levels select disjoint sets of rows. */
  lemma KpLabelDigits(kp: int, other: int)
    requires 0 <= kp <= 6 && 0 <= other <= 6
    ensures KpLabel(kp) == ['K', DigitChar(kp)]
    ensures KpLabel(kp) == KpLabel(other) <==> kp == other
  {
    assert KpLabel(kp)[1] == DigitChar(kp);
    assert KpLabel(other)[1] == DigitChar(other);
  }

  /** The Kp check as the source writes it, `kp in [0, 1, 2, 3, 4, 5, 6]`:
      an equality test, which a float equal to one of these integers passes. */
  predicate KpAcceptedAsWritten(kp: KpValue) {
    match kp
    case KpInt(n) => 0 <= n <= 6
    case KpFloat(x) => x in {0.0, 1.0, 2.0, 3.0, 4.0, 5.0, 6.0}
  }

  /** `'K' + str(kp)` for an accepted Kp as the source writes it; `str` of
      an integral float ends in `.0`. */
  function KpLabelAsWritten(kp: KpValue): string
    requires KpAcceptedAsWritten(kp)
  {
    match kp
    case KpInt(n) => KpLabel(n)
    case KpFloat(x) => "K" + IntString(x.Floor) + ".0"
  }

  /** The labels of the coefficient files. */
  const TableKpLabels: set<string> := {"K0", "K1", "K2", "K3", "K4", "K5", "K6"}

  /** Finding: `kp = 3.0` passes the Kp check as written, yet its label
      `K3.0` is none of the table labels, so no coefficient row is selected
      for it, while `kp = 3` selects the `K3` rows. The channel evaluation
      then divides zero by zero in the Epstein formula and fails. */
  lemma FloatKpSelectsNoRows(ops: FloatOps, rows: seq<CoefficientRow>, samples: seq<(real, real)>)
    requires forall i :: 0 <= i < |rows| ==> rows[i].kp in TableKpLabels
    ensures KpAcceptedAsWritten(KpFloat(3.0))
    ensures KpLabelAsWritten(KpFloat(3.0)) == "K3.0"
    ensures Select(rows, KpLabelAsWritten(KpFloat(3.0))) == []
    ensures HardyChannel(ops, rows, KpLabelAsWritten(KpFloat(3.0)), samples) == Err(NoCoefficients)
    ensures KpLabelAsWritten(KpInt(3)) == "K3"
  {
    FloatLabel();
    forall i | 0 <= i < |rows|
      ensures rows[i].kp != "K3.0"
    {
      TableLabelLength(rows[i].kp);
    }
    SelectNone(rows, "K3.0");
  }

  lemma FloatLabel()
    ensures KpLabelAsWritten(KpFloat(3.0)) == "K3.0"
  {
    assert (3.0).Floor == 3;
    assert IntString(3) == [DigitChar(3)] == "3";
  }

  lemma TableLabelLength(w: string)
    requires w in TableKpLabels
    ensures |w| == 2
  {
  }

  /** The corrected Kp check: an integer from 0 to 6, as the error message
      of the check states; a float is refused like any other non-integer. */
  function CheckKp(kp: KpValue): (r: Result<int>)
    ensures r.Ok? <==> kp.KpInt? && 0 <= kp.n <= 6
    ensures r.Err? ==> r.error == InvalidKp
    ensures r.Ok? ==> r.value == kp.n && KpAcceptedAsWritten(kp)
  {
    match kp
    case KpInt(n) => if 0 <= n <= 6 then Ok(n) else Err(InvalidKp)
    case KpFloat(_) => Err(InvalidKp)
  }

  /** The corrected check refuses the float the written check lets through,
      and agrees with it on every integer. */
  lemma CheckKpRefusesFloat(n: int)
    ensures CheckKp(KpFloat(3.0)).Err? && KpAcceptedAsWritten(KpFloat(3.0))
    ensures CheckKp(KpInt(n)).Ok? <==> KpAcceptedAsWritten(KpInt(n))
  {
  }

  // ---------------------------------------------------------------- rows

  /** `hc[hc.Kp == wanted]`: the rows carrying `wanted`, in table order. */
  function Select(rows: seq<CoefficientRow>, wanted: string): (r: seq<CoefficientRow>)
    ensures |r| <= |rows|
    ensures forall i :: 0 <= i < |r| ==> r[i].kp == wanted
    ensures forall row :: row in r <==> row in rows && row.kp == wanted
    ensures forall row :: multiset(r)[row] == if row.kp == wanted then multiset(rows)[row] else 0
  {
    if |rows| == 0 then []
    else
      assert rows == [rows[0]] + rows[1..];
      if rows[0].kp == wanted then [rows[0]] + Select(rows[1..], wanted)
      else Select(rows[1..], wanted)
  }

  /** No row carries the label, so none is selected. */
  lemma {:induction false} SelectNone(rows: seq<CoefficientRow>, wanted: string)
    requires forall i :: 0 <= i < |rows| ==> rows[i].kp != wanted
    ensures Select(rows, wanted) == []
  {
    if |rows| > 0 {
      SelectNone(rows[1..], wanted);
    }
  }

  /** Selection distributes over concatenation, keeping order. */
  lemma {:induction false} SelectAppend(a: seq<CoefficientRow>, b: seq<CoefficientRow>, wanted: string)
    ensures Select(a + b, wanted) == Select(a, wanted) + Select(b, wanted)
  {
    if |a| == 0 {
      assert a + b == b;
    } else {
      assert (a + b)[1..] == a[1..] + b;
      SelectAppend(a[1..], b, wanted);
    }
  }

  /** The label parsing of lines 304-305: the harmonic order is the last
      character read as a digit, or 0 when that character is `t` (the
      constant term); the function is sine exactly when the label starts
      with `Sin`. An empty label or another last character fails. */
  function ParseTerm(t: string): (r: Result<Term>)
    ensures r.Ok? <==> |t| > 0 && (t[|t| - 1] == 't' || '0' <= t[|t| - 1] <= '9')
    ensures r.Err? ==> r.error == MalformedTerm
    ensures r.Ok? && t[|t| - 1] == 't' ==> r.value.order == 0
    ensures r.Ok? && t[|t| - 1] != 't' ==> r.value.order < 10 && DigitChar(r.value.order) == t[|t| - 1]
    ensures r.Ok? ==> (r.value.trig == Sine <==> IsPrefix("Sin", t))
  {
    if |t| == 0 then Err(MalformedTerm)
    else
      var last := t[|t| - 1];
      var order :- if last == 't' then Ok(0)
                   else match DigitValue(last)
                        case Some(d) => Ok(d)
                        case None => Err(MalformedTerm);
      Ok(Term(order, if |t| >= 3 && t[..3] == "Sin" then Sine else Cosine))
  }

  /** A canonical label for a term of order below ten: `Sin` or `Cos`
      followed by the order. */
  function TermLabel(term: Term): string
    requires term.order < 10
  {
    (if term.trig == Sine then "Sin" else "Cos") + [DigitChar(term.order)]
  }

  /** Parsing a canonical label gives back the term. */
  lemma ParseTermLabel(term: Term)
    requires term.order < 10
    ensures ParseTerm(TermLabel(term)) == Ok(term)
  {
    var t := TermLabel(term);
    assert t[..3] == (if term.trig == Sine then "Sin" else "Cos");
    DigitRoundTrip(term.order);
  }

  /** Any label ending in `t` is the constant term: order 0, and cosine
      unless the label starts with `Sin`. */
  lemma ParseConstantTerm(prefix: string)
    requires !IsPrefix("Sin", prefix + "t")
    ensures ParseTerm(prefix + "t") == Ok(Term(0, Cosine))
  {
  }

  function Coefficients(row: CoefficientRow): Epstein {
    Epstein(row.maxValue, row.maxLatitude, row.upSlope, row.downSlope)
  }

  /** Parses the term label of every row; one malformed label fails the call. */
  function ParseRows(rows: seq<CoefficientRow>): (r: Result<seq<ParsedRow>>)
    ensures r.Ok? <==> forall i :: 0 <= i < |rows| ==> ParseTerm(rows[i].term).Ok?
    ensures r.Err? ==> r.error == MalformedTerm
    ensures r.Ok? ==> |r.value| == |rows|
    ensures r.Ok? ==> forall i :: 0 <= i < |rows| ==>
      r.value[i] == ParsedRow(ParseTerm(rows[i].term).value, Coefficients(rows[i]))
  {
    if |rows| == 0 then Ok([])
    else
      var head :- ParseTerm(rows[0].term);
      var tail :- ParseRows(rows[1..]);
      Ok([ParsedRow(head, Coefficients(rows[0]))] + tail)
  }

  // ---------------------------------------------------------------- Fourier sum

  const Zero: Epstein := Epstein(0.0, 0.0, 0.0, 0.0)

  function Add(a: Epstein, b: Epstein): Epstein {
    Epstein(a.maxValue + b.maxValue, a.maxLatitude + b.maxLatitude, a.upSlope + b.upSlope, a.downSlope + b.downSlope)
  }

  /** `trig(n * mlt / 12 * pi)` of one term. */
  function TermValue(ops: FloatOps, term: Term, mlt: real): real {
    var angle := term.order as real * mlt / 12.0 * ops.pi;
    if term.trig == Sine then ops.sin(angle) else ops.cos(angle)
  }

  /** `values[key] * trig(...)` for the four keys of one row. */
  function Contribution(ops: FloatOps, row: ParsedRow, mlt: real): Epstein {
    var w := TermValue(ops, row.term, mlt);
    Epstein(row.coefficients.maxValue * w, row.coefficients.maxLatitude * w,
            row.coefficients.upSlope * w, row.coefficients.downSlope * w)
  }

  /** The four Epstein parameters at one local time: starting from zero,
      the contributions of the rows are added in table order. Rows whose
      coefficients are all zero leave every parameter at zero. */
  function FourierSum(ops: FloatOps, rows: seq<ParsedRow>, mlt: real): (r: Epstein)
    ensures (forall k :: 0 <= k < |rows| ==> rows[k].coefficients == Zero) ==> r == Zero
  {
    if |rows| == 0 then Zero
    else Add(FourierSum(ops, rows[..|rows| - 1], mlt), Contribution(ops, rows[|rows| - 1], mlt))
  }

  /** The sum over a concatenation is the sum of the two partial sums. */
  lemma {:induction false} FourierSumAppend(ops: FloatOps, a: seq<ParsedRow>, b: seq<ParsedRow>, mlt: real)
    ensures FourierSum(ops, a + b, mlt) == Add(FourierSum(ops, a, mlt), FourierSum(ops, b, mlt))
    decreases |b|
  {
    if |b| == 0 {
      assert a + b == a;
    } else {
      var b' := b[..|b| - 1];
      assert (a + b)[..|a + b| - 1] == a + b';
      assert (a + b)[|a + b| - 1] == b[|b| - 1];
      FourierSumAppend(ops, a, b', mlt);
    }
  }

  /** The Fourier loop of lines 309-312 over all samples: the parameters at
      every local time are the row-ordered sum of the row contributions. */
  method EvaluateParameters(ops: FloatOps, rows: seq<ParsedRow>, mlt: seq<real>) returns (params: seq<Epstein>)
    ensures |params| == |mlt|
    ensures forall j :: 0 <= j < |mlt| ==> params[j] == FourierSum(ops, rows, mlt[j])
  {
    params := seq(|mlt|, j requires 0 <= j < |mlt| => Zero);
    var i := 0;
    while i < |rows|
      invariant 0 <= i <= |rows|
      invariant |params| == |mlt|
      invariant forall j :: 0 <= j < |mlt| ==> params[j] == FourierSum(ops, rows[..i], mlt[j])
    {
      assert rows[..i + 1][..i] == rows[..i];
      var prev := params;
      params := seq(|mlt|, j requires 0 <= j < |mlt| => Add(prev[j], Contribution(ops, rows[i], mlt[j])));
      i := i + 1;
    }
    assert rows[..i] == rows;
  }

  // ---------------------------------------------------------------- Epstein function

  /** The Epstein transition function of line 316 at magnetic latitude `mlat`.
      At the peak latitude `h0` it takes the peak value `r`, as long as
      `exp(0) == 1`, `log(1) == 0` and the denominator `1 - S1/S2` divided by
      itself is 1 (the formula is undefined when `S1 == S2`). */
  function EpsteinConductance(ops: FloatOps, p: Epstein, mlat: real): (c: real)
    ensures var d := 1.0 - ops.div(p.upSlope, p.downSlope);
            mlat == p.maxLatitude && ops.exp(0.0) == 1.0 && ops.log(1.0) == 0.0 && ops.div(d, d) == 1.0
            ==> c == p.maxValue
  {
    var r, s1, s2, h0 := p.maxValue, p.upSlope, p.downSlope, p.maxLatitude;
    r + s1 * (mlat - h0)
      + (s2 - s1) * ops.log(ops.div(1.0 - ops.div(s1, s2 * ops.exp(-(mlat - h0))), 1.0 - ops.div(s1, s2)))
  }

  /** The floors of lines 319-320, applied in order. Both comparisons on
      `mlat` are strict: equatorward of the peak latitude a negative value
      becomes 0, poleward of it a value below 0.55 becomes 0.55, and at the
      peak latitude itself the value is untouched. */
  function Floor(mlat: real, h0: real, c: real): (r: real)
    ensures mlat < h0 ==> r >= 0.0 && (c >= 0.0 ==> r == c) && (c < 0.0 ==> r == 0.0)
    ensures mlat > h0 ==> r >= 0.55 && (c >= 0.55 ==> r == c) && (c < 0.55 ==> r == 0.55)
    ensures mlat == h0 ==> r == c
  {
    var equatorward := if mlat < h0 && c < 0.0 then 0.0 else c;
    if mlat > h0 && equatorward < 0.55 then 0.55 else equatorward
  }

  /** Flooring a floored value changes nothing. */
  lemma FloorIdempotent(mlat: real, h0: real, c: real)
    ensures Floor(mlat, h0, Floor(mlat, h0, c)) == Floor(mlat, h0, c)
  {
  }

  /** Conductance of one channel at one sample (|mlat|, mlt): the Fourier
      parameters at `mlt`, the Epstein function at `mlat`, then the floors.
      An Epstein value already above its floor is kept as it is. */
  function HardyValue(ops: FloatOps, rows: seq<ParsedRow>, mlat: real, mlt: real): (v: real)
    ensures var p := FourierSum(ops, rows, mlt);
            v == Floor(mlat, p.maxLatitude, EpsteinConductance(ops, p, mlat))
    ensures var p := FourierSum(ops, rows, mlt);
            var c := EpsteinConductance(ops, p, mlat);
            (mlat < p.maxLatitude ==> v >= 0.0 && (c >= 0.0 ==> v == c))
            && (mlat > p.maxLatitude ==> v >= 0.55 && (c >= 0.55 ==> v == c))
            && (mlat == p.maxLatitude ==> v == c)
            && (v == c || v == 0.0 || v == 0.55)
  {
    var p := FourierSum(ops, rows, mlt);
    Floor(mlat, p.maxLatitude, EpsteinConductance(ops, p, mlat))
  }

  /** A channel's rows for the Kp label `wanted` can be evaluated: at least
      one row carries the label, and the term label of every such row parses. */
  predicate RowsReady(rows: seq<CoefficientRow>, wanted: string) {
    |Select(rows, wanted)| > 0 && ParseRows(Select(rows, wanted)).Ok?
  }

  /** One channel over all broadcast samples (|mlat|, mlt), from the rows
      labelled `wanted`. With no such row the parameters stay the integer 0
      and `1 - S1/S2` divides 0 by 0, so the call fails. */
  function HardyChannel(ops: FloatOps, rows: seq<CoefficientRow>, wanted: string, samples: seq<(real, real)>)
    : (r: Result<seq<real>>)
    ensures r.Ok? <==> RowsReady(rows, wanted)
    ensures r.Err? ==> r.error == if |Select(rows, wanted)| == 0 then NoCoefficients else MalformedTerm
    ensures r.Ok? ==> |r.value| == |samples|
    ensures r.Ok? ==> forall i :: 0 <= i < |samples| ==>
      r.value[i] == HardyValue(ops, ParseRows(Select(rows, wanted)).value, samples[i].0, samples[i].1)
  {
    var parsed :- ParseRows(Select(rows, wanted));
    if |parsed| == 0 then Err(NoCoefficients)
    else Ok(seq(|samples|, i requires 0 <= i < |samples| => HardyValue(ops, parsed, samples[i].0, samples[i].1)))
  }

  /** Rows labelled otherwise never contribute: adding them to the table
      changes nothing. */
  lemma HardyChannelIgnoresOtherKp(ops: FloatOps, rows: seq<CoefficientRow>, others: seq<CoefficientRow>,
                                   wanted: string, samples: seq<(real, real)>)
    requires forall i :: 0 <= i < |others| ==> others[i].kp != wanted
    ensures HardyChannel(ops, rows + others, wanted, samples) == HardyChannel(ops, rows, wanted, samples)
  {
    SelectAppend(rows, others, wanted);
    SelectNone(others, wanted);
    assert Select(rows, wanted) + [] == Select(rows, wanted);
  }

  /** With no selected rows every Epstein parameter is 0. */
  lemma FourierSumOfNoRows(ops: FloatOps, mlt: real)
    ensures FourierSum(ops, [], mlt) == Epstein(0.0, 0.0, 0.0, 0.0)
  {
  }

  // ---------------------------------------------------------------- the evaluator

  /** `hardy(mlat, mlt, kp, hallOrPed)`: selector check, Kp check, absolute
      value of `mlat`, broadcasting with `mlt`, then each requested channel,
      Hall first. The call succeeds exactly when every check passes and each
      requested channel has parseable rows for the Kp level. */
  function HardyConductance(ops: FloatOps, tables: HardyTables, mlat: seq<real>, mlt: seq<real>, kp: KpValue, token: string)
    : (r: Result<Conductance>)
    ensures Lower(token) !in EvaluatorTokens ==> r == Err(InvalidChannel)
    ensures Lower(token) in EvaluatorTokens && CheckKp(kp).Err? ==> r == Err(InvalidKp)
    ensures Lower(token) in EvaluatorTokens && CheckKp(kp).Ok? && !Broadcastable(|mlat|, |mlt|)
            ==> r == Err(ShapeMismatch)
    ensures r.Ok? <==> Lower(token) in EvaluatorTokens && CheckKp(kp).Ok? && Broadcastable(|mlat|, |mlt|)
                       && (Lower(token) != "p" ==> RowsReady(tables.hall, KpLabel(kp.n)))
                       && (Lower(token) != "h" ==> RowsReady(tables.pedersen, KpLabel(kp.n)))
    ensures r.Ok? ==> Shaped(r.value, BroadcastLength(|mlat|, |mlt|))
    ensures r.Ok? ==> (r.value.Pair? <==> Lower(token) == "hp")
  {
    var c :- ParseChannel(token);
    var k :- CheckKp(kp);
    var samples :- Broadcast(AbsAll(mlat), mlt);
    var hall :- if WantsHall(c) then HardyChannel(ops, tables.hall, KpLabel(k), samples) else Ok([]);
    var pedersen :- if WantsPedersen(c) then HardyChannel(ops, tables.pedersen, KpLabel(k), samples) else Ok([]);
    Ok(Dispatch(c, hall, pedersen))
  }

  /** Channel independence: the `hp` call returns exactly the `h` array and
      the `p` array, in that order, and succeeds exactly when both do. */
  lemma HardyChannelsIndependent(ops: FloatOps, tables: HardyTables, mlat: seq<real>, mlt: seq<real>, kp: KpValue)
    ensures var both := HardyConductance(ops, tables, mlat, mlt, kp, "hp");
            var h := HardyConductance(ops, tables, mlat, mlt, kp, "h");
            var p := HardyConductance(ops, tables, mlat, mlt, kp, "p");
            (both.Ok? <==> h.Ok? && p.Ok?)
            && (both.Ok? ==> both.value == Pair(h.value.values, p.value.values))
  {
    assert Lower("hp") == "hp" && Lower("h") == "h" && Lower("p") == "p";
  }

  /** The hemisphere does not matter: flipping the sign of every `mlat`
      leaves the result unchanged. */
  lemma HardyMlatSignIrrelevant(ops: FloatOps, tables: HardyTables, mlat: seq<real>, mlt: seq<real>,
                                kp: KpValue, token: string)
    ensures HardyConductance(ops, tables, NegateAll(mlat), mlt, kp, token) == HardyConductance(ops, tables, mlat, mlt, kp, token)
  {
    AbsAllIgnoresSign(mlat);
  }

  /** The coefficient table of one channel. */
  function ChannelTable(tables: HardyTables, hall: bool): seq<CoefficientRow> {
    if hall then tables.hall else tables.pedersen
  }

  /** Sample by sample, each array of an `hp` call is the floored Epstein
      value at (|mlat|, mlt) from the Fourier parameters of that channel's
      rows for the requested Kp; an input of length 1 is repeated against
      the other. */
  lemma HardyPairValues(ops: FloatOps, tables: HardyTables, mlat: seq<real>, mlt: seq<real>, kp: KpValue,
                        hall: bool, i: int)
    requires HardyConductance(ops, tables, mlat, mlt, kp, "hp").Ok?
    requires 0 <= i < BroadcastLength(|mlat|, |mlt|)
    ensures kp.KpInt? && RowsReady(ChannelTable(tables, hall), KpLabel(kp.n))
    ensures i < |mlat| || |mlat| == 1
    ensures i < |mlt| || |mlt| == 1
    ensures Component(HardyConductance(ops, tables, mlat, mlt, kp, "hp").value, hall)[i]
            == HardyValue(ops, ParseRows(Select(ChannelTable(tables, hall), KpLabel(kp.n))).value,
                          Abs(mlat[if |mlat| == 1 then 0 else i]), mlt[if |mlt| == 1 then 0 else i])
  {
    assert Lower("hp") == "hp";
    var k := CheckKp(kp).value;
    var samples := Broadcast(AbsAll(mlat), mlt).value;
    var h := HardyChannel(ops, tables.hall, KpLabel(k), samples);
    var p := HardyChannel(ops, tables.pedersen, KpLabel(k), samples);
    assert HardyConductance(ops, tables, mlat, mlt, kp, "hp") == Ok(Pair(h.value, p.value));
    var own := if hall then h else p;
    assert own.Ok? && own == HardyChannel(ops, ChannelTable(tables, hall), KpLabel(k), samples);
    assert samples[i].0 == Abs(mlat[if |mlat| == 1 then 0 else i]);
  }
}
