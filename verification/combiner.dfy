/** `hardy_EUV`: total conductance, the sum of the auroral (Hardy) part, the
    EUV part and a constant starlight background, per requested channel.

    The coordinate and time transforms that feed it are not modelled: each
    sample already carries its magnetic latitude, magnetic local time and
    solar zenith angle.
 */
module Combiner {
  import opened Results
  import opened Text
  import opened Channels
  import opened Numerics
  import opened Euv
  import opened Hardy

  /** One spatial point, after the coordinate and time transforms. */
  datatype Sample = Sample(mlat: real, mlt: real, sza: real)

  /** The three static tables. */
  datatype ModelTables = ModelTables(production: seq<real>, hardy: HardyTables)

  function Mlats(samples: seq<Sample>): (r: seq<real>)
    ensures |r| == |samples| && forall i :: 0 <= i < |samples| ==> r[i] == samples[i].mlat
  {
    seq(|samples|, i requires 0 <= i < |samples| => samples[i].mlat)
  }

  function Mlts(samples: seq<Sample>): (r: seq<real>)
    ensures |r| == |samples| && forall i :: 0 <= i < |samples| ==> r[i] == samples[i].mlt
  {
    seq(|samples|, i requires 0 <= i < |samples| => samples[i].mlt)
  }

  function Szas(samples: seq<Sample>): (r: seq<real>)
    ensures |r| == |samples| && forall i :: 0 <= i < |samples| ==> r[i] == samples[i].sza
  {
    seq(|samples|, i requires 0 <= i < |samples| => samples[i].sza)
  }

  /** `hardy_component + EUV_component + starlight`, elementwise; with a
      non-negative EUV part no total drops below auroral plus starlight. */
  function Total(auroral: seq<real>, euv: seq<real>, starlight: real): (r: seq<real>)
    requires |auroral| == |euv|
    ensures |r| == |auroral|
    ensures forall i :: 0 <= i < |r| ==> r[i] - euv[i] == auroral[i] + starlight
    ensures AllNonNegative(euv) ==> forall i :: 0 <= i < |r| ==> r[i] >= auroral[i] + starlight
  {
    seq(|auroral|, i requires 0 <= i < |auroral| => auroral[i] + euv[i] + starlight)
  }

  /** The return statement of `hardy_EUV`: the total of the normalised
      channel, or both totals in (Hall, Pedersen) order. */
  function Combine(hop: Channel, auroral: Conductance, euv: Conductance, starlight: real, n: nat): (r: Conductance)
    requires Shaped(auroral, n) && Shaped(euv, n)
    ensures Shaped(r, n)
    ensures r.Pair? <==> hop == HallAndPedersen
    ensures WantsHall(hop) ==> forall i :: 0 <= i < n ==>
      Component(r, true)[i] == Component(auroral, true)[i] + Component(euv, true)[i] + starlight
    ensures WantsPedersen(hop) ==> forall i :: 0 <= i < n ==>
      Component(r, false)[i] == Component(auroral, false)[i] + Component(euv, false)[i] + starlight
  {
    match hop
    case Hall => Single(Total(Component(auroral, true), Component(euv, true), starlight))
    case Pedersen => Single(Total(Component(auroral, false), Component(euv, false), starlight))
    case HallAndPedersen =>
      Pair(Total(Component(auroral, true), Component(euv, true), starlight),
           Total(Component(auroral, false), Component(euv, false), starlight))
  }

  /** The array of one requested channel of `Combine` is that channel's
      auroral array plus its EUV array plus the starlight. */
  lemma CombineChannel(hop: Channel, auroral: Conductance, euv: Conductance, starlight: real, n: nat, hall: bool)
    requires Shaped(auroral, n) && Shaped(euv, n)
    requires if hall then WantsHall(hop) else WantsPedersen(hop)
    ensures |Component(auroral, hall)| == |Component(euv, hall)| == n
    ensures Component(Combine(hop, auroral, euv, starlight, n), hall)
            == Total(Component(auroral, hall), Component(euv, hall), starlight)
  {
  }

  /** `hardy_EUV(...)` on samples already in magnetic coordinates. The
      selector is checked and normalised first, then the EUV part is computed
      for the normalised channel and the auroral part for both channels, and
      the requested totals are returned. */
  function HardyEuv(ops: FloatOps, tables: ModelTables, samples: seq<Sample>, kp: KpValue, token: string,
                    starlight: real, f107: real, calibration: string): (r: Result<Output>)
    ensures Lower(token) !in CombinerTokens ==> r == Err(InvalidChannel)
    ensures Lower(token) in CombinerTokens && |tables.production| != GridSize ==> r == Err(TableLength)
    ensures Lower(token) in CombinerTokens && |tables.production| == GridSize && CheckKp(kp).Err?
            ==> r == Err(InvalidKp)
    ensures r.Ok? <==> Lower(token) in CombinerTokens && |tables.production| == GridSize && CheckKp(kp).Ok?
                       && RowsReady(tables.hardy.hall, KpLabel(kp.n))
                       && RowsReady(tables.hardy.pedersen, KpLabel(kp.n))
    ensures r.Ok? ==> Shaped(r.value.conductance, |samples|)
    ensures r.Ok? ==> (r.value.conductance.Pair? <==> Lower(token) in {"hp", "hallandpedersen"})
    ensures r.Ok? ==> (r.value.calibrationNotice <==> calibration !in CalibrationNames)
  {
    var hop :- NormaliseHop(token);
    ParseToken(hop);
    assert Lower("hp") == "hp";
    HardyEuvChannel(ops, tables, samples, kp, hop, starlight, f107, calibration)
  }

  /** The part of `hardy_EUV` after the selector is normalised to `hop`. */
  function HardyEuvChannel(ops: FloatOps, tables: ModelTables, samples: seq<Sample>, kp: KpValue, hop: Channel,
                           starlight: real, f107: real, calibration: string): Result<Output>
  {
    var euv :- EuvConductance(ops, tables.production, Szas(samples), f107, Token(hop), calibration);
    var auroral :- HardyConductance(ops, tables.hardy, Mlats(samples), Mlts(samples), kp, "hp");
    Ok(Output(Combine(hop, auroral, euv.conductance, starlight, |samples|), euv.calibrationNotice))
  }

  /** The six accepted selectors reduce to the three canonical ones: `hall`
      gives the result of `h`, `pedersen` of `p`, `hallandpedersen` of `hp`. */
  lemma HardyEuvAliases(ops: FloatOps, tables: ModelTables, samples: seq<Sample>, kp: KpValue, token: string,
                        starlight: real, f107: real, calibration: string)
    requires Lower(token) in CombinerTokens
    ensures HardyEuv(ops, tables, samples, kp, token, starlight, f107, calibration)
            == HardyEuv(ops, tables, samples, kp, Token(NormaliseHop(token).value), starlight, f107, calibration)
  {
    NormaliseToken(NormaliseHop(token).value);
    HardyEuvByHop(ops, tables, samples, kp, token, Token(NormaliseHop(token).value), starlight, f107, calibration);
  }

  /** The selector matters only through its normalised channel. */
  lemma HardyEuvByHop(ops: FloatOps, tables: ModelTables, samples: seq<Sample>, kp: KpValue, token: string,
                      other: string, starlight: real, f107: real, calibration: string)
    requires NormaliseHop(token) == NormaliseHop(other)
    ensures HardyEuv(ops, tables, samples, kp, token, starlight, f107, calibration)
            == HardyEuv(ops, tables, samples, kp, other, starlight, f107, calibration)
  {
  }

  /** A successful call is `Combine` applied to the `hp` auroral arrays and
      the EUV arrays of the normalised channel. */
  lemma HardyEuvUnfold(ops: FloatOps, tables: ModelTables, samples: seq<Sample>, kp: KpValue, token: string,
                       starlight: real, f107: real, calibration: string)
    requires HardyEuv(ops, tables, samples, kp, token, starlight, f107, calibration).Ok?
    ensures var hop := NormaliseHop(token).value;
            var auroral := HardyConductance(ops, tables.hardy, Mlats(samples), Mlts(samples), kp, "hp");
            var euv := EuvConductance(ops, tables.production, Szas(samples), f107, Token(hop), calibration);
            NormaliseHop(token).Ok? && auroral.Ok? && euv.Ok?
            && Shaped(auroral.value, |samples|) && Shaped(euv.value.conductance, |samples|)
            && HardyEuv(ops, tables, samples, kp, token, starlight, f107, calibration).value.conductance
               == Combine(hop, auroral.value, euv.value.conductance, starlight, |samples|)
  {
    assert Lower("hp") == "hp";
    ParseToken(NormaliseHop(token).value);
  }

  /** The EUV array of one requested channel is that of the single-channel call. */
  lemma EuvOwnChannel(ops: FloatOps, production: seq<real>, sza: seq<real>, f107: real, calibration: string,
                      hop: Channel, hall: bool)
    requires EuvConductance(ops, production, sza, f107, Token(hop), calibration).Ok?
    requires if hall then WantsHall(hop) else WantsPedersen(hop)
    ensures var euv := EuvConductance(ops, production, sza, f107, if hall then "h" else "p", calibration);
            euv.Ok? && euv.value.conductance.Single?
            && Component(EuvConductance(ops, production, sza, f107, Token(hop), calibration).value.conductance, hall)
               == euv.value.conductance.values
  {
    ParseToken(hop);
    assert Lower("h") == "h" && Lower("p") == "p";
  }

  /** The auroral array of one channel of the `hp` call is that of the
      single-channel call. */
  lemma HardyOwnChannel(ops: FloatOps, tables: HardyTables, mlat: seq<real>, mlt: seq<real>, kp: KpValue, hall: bool)
    requires HardyConductance(ops, tables, mlat, mlt, kp, "hp").Ok?
    ensures var single := HardyConductance(ops, tables, mlat, mlt, kp, if hall then "h" else "p");
            single.Ok? && single.value.Single?
            && Component(HardyConductance(ops, tables, mlat, mlt, kp, "hp").value, hall) == single.value.values
  {
    HardyChannelsIndependent(ops, tables, mlat, mlt, kp);
    assert Lower("h") == "h" && Lower("p") == "p";
  }

  /** Per channel, the total is the auroral array of the single-channel
      `hardy` call plus the EUV array of the single-channel `EUV_conductance`
      call plus the starlight, sample by sample; as the EUV part is never
      negative, the total never drops below auroral plus starlight. */
  lemma HardyEuvSumsChannels(ops: FloatOps, tables: ModelTables, samples: seq<Sample>, kp: KpValue, token: string,
                             starlight: real, f107: real, calibration: string, hall: bool)
    requires HardyEuv(ops, tables, samples, kp, token, starlight, f107, calibration).Ok?
    requires if hall then WantsHall(NormaliseHop(token).value) else WantsPedersen(NormaliseHop(token).value)
    ensures var single := if hall then "h" else "p";
            var auroral := HardyConductance(ops, tables.hardy, Mlats(samples), Mlts(samples), kp, single);
            var euv := EuvConductance(ops, tables.production, Szas(samples), f107, single, calibration);
            var total := Component(HardyEuv(ops, tables, samples, kp, token, starlight, f107, calibration).value.conductance, hall);
            auroral.Ok? && euv.Ok? && auroral.value.Single? && euv.value.conductance.Single?
            && |total| == |auroral.value.values| == |euv.value.conductance.values| == |samples|
            && forall i :: 0 <= i < |samples| ==>
                 total[i] == auroral.value.values[i] + euv.value.conductance.values[i] + starlight
                 && total[i] >= auroral.value.values[i] + starlight
  {
    var hop := NormaliseHop(token).value;
    HardyEuvUnfold(ops, tables, samples, kp, token, starlight, f107, calibration);
    EuvOwnChannel(ops, tables.production, Szas(samples), f107, calibration, hop, hall);
    HardyOwnChannel(ops, tables.hardy, Mlats(samples), Mlts(samples), kp, hall);
    var both := HardyConductance(ops, tables.hardy, Mlats(samples), Mlts(samples), kp, "hp").value;
    var own := EuvConductance(ops, tables.production, Szas(samples), f107, Token(hop), calibration).value;
    CombineChannel(hop, both, own.conductance, starlight, |samples|, hall);
  }

  /** Channel independence of the combined model: the `hp` call returns the
      `h` totals and the `p` totals, in that order. */
  lemma HardyEuvChannelsIndependent(ops: FloatOps, tables: ModelTables, samples: seq<Sample>, kp: KpValue,
                                    starlight: real, f107: real, calibration: string)
    ensures var both := HardyEuv(ops, tables, samples, kp, "hp", starlight, f107, calibration);
            var h := HardyEuv(ops, tables, samples, kp, "h", starlight, f107, calibration);
            var p := HardyEuv(ops, tables, samples, kp, "p", starlight, f107, calibration);
            (both.Ok? <==> h.Ok? && p.Ok?)
            && (both.Ok? ==> both.value == Output(Pair(h.value.conductance.values, p.value.conductance.values),
                                                  h.value.calibrationNotice))
  {
    assert Lower("hp") == "hp" && Lower("h") == "h" && Lower("p") == "p";
    HardyChannelsIndependent(ops, tables.hardy, Mlats(samples), Mlts(samples), kp);
    EuvChannelsIndependent(ops, tables.production, Szas(samples), f107, calibration);
  }

  /** Flips the sign of the magnetic latitude of every sample. */
  function MirrorSamples(samples: seq<Sample>): (r: seq<Sample>)
    ensures |r| == |samples|
    ensures forall i :: 0 <= i < |samples| ==>
      r[i].mlat == -samples[i].mlat && r[i].mlt == samples[i].mlt && r[i].sza == samples[i].sza
  {
    seq(|samples|, i requires 0 <= i < |samples| => samples[i].(mlat := -samples[i].mlat))
  }

  /** The hemisphere does not matter to the combined model either: the
      result is the same with every magnetic latitude negated. */
  lemma HardyEuvMlatSignIrrelevant(ops: FloatOps, tables: ModelTables, samples: seq<Sample>, kp: KpValue,
                                   token: string, starlight: real, f107: real, calibration: string)
    ensures HardyEuv(ops, tables, MirrorSamples(samples), kp, token, starlight, f107, calibration)
            == HardyEuv(ops, tables, samples, kp, token, starlight, f107, calibration)
  {
    var m := MirrorSamples(samples);
    assert Mlats(m) == NegateAll(Mlats(samples));
    assert Mlts(m) == Mlts(samples);
    assert Szas(m) == Szas(samples);
    HardyMlatSignIrrelevant(ops, tables.hardy, Mlats(samples), Mlts(samples), kp, "hp");
  }

  /** The Hardy floors survive the sum: at a sample poleward of the peak
      latitude `h0` of a requested channel the total is at least
      0.55 + starlight, and equatorward of it at least the starlight. */
  lemma HardyEuvFloors(ops: FloatOps, tables: ModelTables, samples: seq<Sample>, kp: KpValue, token: string,
                       starlight: real, f107: real, calibration: string, hall: bool, i: int)
    requires HardyEuv(ops, tables, samples, kp, token, starlight, f107, calibration).Ok?
    requires if hall then WantsHall(NormaliseHop(token).value) else WantsPedersen(NormaliseHop(token).value)
    requires 0 <= i < |samples|
    ensures kp.KpInt? && ParseRows(Select(ChannelTable(tables.hardy, hall), KpLabel(kp.n))).Ok?
    ensures var rows := ParseRows(Select(ChannelTable(tables.hardy, hall), KpLabel(kp.n))).value;
            var h0 := FourierSum(ops, rows, samples[i].mlt).maxLatitude;
            var total := Component(HardyEuv(ops, tables, samples, kp, token, starlight, f107, calibration).value.conductance, hall);
            (Abs(samples[i].mlat) > h0 ==> total[i] >= 0.55 + starlight)
            && (Abs(samples[i].mlat) < h0 ==> total[i] >= starlight)
  {
    var hop := NormaliseHop(token).value;
    ParseToken(hop);
    HardyEuvSumsChannels(ops, tables, samples, kp, token, starlight, f107, calibration, hall);
    HardyChannelsIndependent(ops, tables.hardy, Mlats(samples), Mlts(samples), kp);
    HardyPairValues(ops, tables.hardy, Mlats(samples), Mlts(samples), kp, hall, i);
    assert (if |samples| == 1 then 0 else i) == i;
  }
}
