/**
 * The report analysis engine: the rows a report counts, per-measure average,
 * minimum and maximum, the status labels with their fixed breakpoints, the
 * ordered recommendation rules and the overall status line. Readings arrive
 * already parsed: `None` is a null or absent field, and present text that
 * `parseFloat` cannot read is not represented.
 */
module Report {
  import opened Common
  import opened Strings

  /** One sensor row as the report sees it (identifier and timestamp are not used by the analysis). */
  datatype Reading = Reading(
    temperature: Option<real>, humidity: Option<real>, ph: Option<real>,
    n: Option<real>, p: Option<real>, k: Option<real>)

  datatype Measure = Temperature | Humidity | Ph
  datatype Nutrient = Nitrogen | Phosphorus | Potassium

  function MeasureOf(d: Reading, m: Measure): (r: Option<real>)
    ensures IsValid(d) ==> r.Some?
  {
    match m
    case Temperature => d.temperature
    case Humidity => d.humidity
    case Ph => d.ph
  }

  function NutrientOf(d: Reading, nut: Nutrient): Option<real> {
    match nut
    case Nitrogen => d.n
    case Phosphorus => d.p
    case Potassium => d.k
  }

  /** A row counts when temperature, humidity and pH are all present. */
  predicate IsValid(d: Reading) {
    d.temperature.Some? && d.humidity.Some? && d.ph.Some?
  }

  /** The counted rows, in their original order, each as often as it occurs in `data`. */
  function ValidData(data: seq<Reading>): (r: seq<Reading>)
    ensures |r| <= |data|
    ensures forall i :: 0 <= i < |r| ==> IsValid(r[i])
    ensures forall d :: d in r <==> d in data && IsValid(d)
    ensures forall d :: multiset(r)[d] == if IsValid(d) then multiset(data)[d] else 0
  {
    if |data| == 0 then []
    else
      assert data == [data[0]] + data[1..];
      if IsValid(data[0]) then [data[0]] + ValidData(data[1..])
      else ValidData(data[1..])
  }

  /** Appending a row appends it to the counted rows exactly when it is complete, so the filter keeps the original order. */
  lemma {:induction false} ValidDataAppend(data: seq<Reading>, d: Reading)
    ensures ValidData(data + [d]) == ValidData(data) + (if IsValid(d) then [d] else [])
  {
    if |data| == 0 {
      assert data + [d] == [d];
      assert [d][1..] == [];
    } else {
      assert (data + [d])[0] == data[0];
      assert (data + [d])[1..] == data[1..] + [d];
      ValidDataAppend(data[1..], d);
      var tail := if IsValid(d) then [d] else [];
      if IsValid(data[0]) {
        assert [data[0]] + (ValidData(data[1..]) + tail) == ([data[0]] + ValidData(data[1..])) + tail;
      }
    }
  }

  /** Filtering twice keeps the same rows as filtering once. */
  lemma {:induction false} ValidDataIdempotent(data: seq<Reading>)
    ensures ValidData(ValidData(data)) == ValidData(data)
  {
    if |data| > 0 {
      ValidDataIdempotent(data[1..]);
      if IsValid(data[0]) {
        assert ([data[0]] + ValidData(data[1..]))[1..] == ValidData(data[1..]);
      }
    }
  }

  /** Rows without temperature, humidity or pH never reach the statistics. */
  lemma ValidDataAppendInvalid(data: seq<Reading>, d: Reading)
    requires !IsValid(d)
    ensures ValidData(data + [d]) == ValidData(data)
  {
    ValidDataAppend(data, d);
  }

  /** The values of a measure over rows that all carry it. */
  function MeasureValues(rows: seq<Reading>, m: Measure): (r: seq<real>)
    requires forall i :: 0 <= i < |rows| ==> IsValid(rows[i])
    ensures |r| == |rows|
    ensures forall i :: 0 <= i < |rows| ==> r[i] == MeasureOf(rows[i], m).value
  {
    if |rows| == 0 then [] else [MeasureOf(rows[0], m).value] + MeasureValues(rows[1..], m)
  }

  /** The values of a nutrient, a missing value read as 0 rather than dropped. */
  function NutrientValues(rows: seq<Reading>, nut: Nutrient): (r: seq<real>)
    ensures |r| == |rows|
    ensures forall i :: 0 <= i < |rows| ==> r[i] == NutrientOf(rows[i], nut).GetOr(0.0)
  {
    if |rows| == 0 then [] else [NutrientOf(rows[0], nut).GetOr(0.0)] + NutrientValues(rows[1..], nut)
  }

  function Sum(xs: seq<real>): real {
    if |xs| == 0 then 0.0 else xs[0] + Sum(xs[1..])
  }

  /** `Math.min(...xs)` on a non-empty list. */
  function Min(xs: seq<real>): (r: real)
    requires |xs| > 0
    ensures r in xs
    ensures forall i :: 0 <= i < |xs| ==> r <= xs[i]
  {
    if |xs| == 1 then xs[0]
    else var m := Min(xs[1..]); if xs[0] <= m then xs[0] else m
  }

  /** `Math.max(...xs)` on a non-empty list. */
  function Max(xs: seq<real>): (r: real)
    requires |xs| > 0
    ensures r in xs
    ensures forall i :: 0 <= i < |xs| ==> xs[i] <= r
  {
    if |xs| == 1 then xs[0]
    else var m := Max(xs[1..]); if xs[0] >= m then xs[0] else m
  }

  /** A lower bound of every element bounds the sum from below, times the length. */
  lemma {:induction false} SumAtLeast(xs: seq<real>, lo: real)
    requires forall i :: 0 <= i < |xs| ==> lo <= xs[i]
    ensures |xs| as real * lo <= Sum(xs)
  {
    if |xs| > 0 {
      SumAtLeast(xs[1..], lo);
      assert |xs| as real * lo == lo + (|xs| - 1) as real * lo;
    }
  }

  /** An upper bound of every element bounds the sum from above, times the length. */
  lemma {:induction false} SumAtMost(xs: seq<real>, hi: real)
    requires forall i :: 0 <= i < |xs| ==> xs[i] <= hi
    ensures Sum(xs) <= |xs| as real * hi
  {
    if |xs| > 0 {
      SumAtMost(xs[1..], hi);
      assert |xs| as real * hi == hi + (|xs| - 1) as real * hi;
    }
  }

  /** Dividing a sum bounded by `n` times a bound by `n` stays within the bound. */
  lemma DivideBounds(s: real, n: real, lo: real, hi: real)
    requires n > 0.0
    requires n * lo <= s <= n * hi
    ensures lo <= s / n <= hi
  {
    assert (s / n) * n == s;
  }

  /** The arithmetic mean, `reduce` over the length; 0 for the empty list. */
  function Average(xs: seq<real>): (r: real)
    ensures |xs| > 0 ==> r * |xs| as real == Sum(xs)
    ensures |xs| == 0 ==> r == 0.0
  {
    if |xs| > 0 then Sum(xs) / |xs| as real else 0.0
  }

  /** Bounds on every element of a non-empty list bound its mean. */
  lemma MeanWithin(xs: seq<real>, lo: real, hi: real)
    requires |xs| > 0
    requires forall i :: 0 <= i < |xs| ==> lo <= xs[i] <= hi
    ensures lo <= Average(xs) <= hi
  {
    SumAtLeast(xs, lo);
    SumAtMost(xs, hi);
    DivideBounds(Sum(xs), |xs| as real, lo, hi);
  }

  /** The mean of a non-empty list lies between its minimum and its maximum. */
  lemma AverageBetweenMinMax(xs: seq<real>)
    requires |xs| > 0
    ensures Min(xs) <= Average(xs) <= Max(xs)
  {
    MeanWithin(xs, Min(xs), Max(xs));
  }

  const SinDatos := "Sin datos"
  const Optimo := "Óptimo"
  const MuyFrio := "Muy Frío"
  const Frio := "Frío"
  const Caluroso := "Caluroso"
  const MuyCaluroso := "Muy Caluroso"
  const MuySeco := "Muy Seco"
  const Seco := "Seco"
  const Humedo := "Húmedo"
  const MuyHumedo := "Muy Húmedo"
  const MuyAcido := "Muy Ácido"
  const Acido := "Ácido"
  const Alcalino := "Alcalino"
  const MuyAlcalino := "Muy Alcalino"
  const Deficiente := "Deficiente"
  const Adecuado := "Adecuado"
  const Excesivo := "Excesivo"

  /** Temperature bands: below 15, below 20, up to 25, up to 30, above. */
  function TemperatureStatus(t: real): (r: string)
    ensures r == MuyFrio <==> t < 15.0
    ensures r == Frio <==> 15.0 <= t < 20.0
    ensures r == Optimo <==> 20.0 <= t <= 25.0
    ensures r == Caluroso <==> 25.0 < t <= 30.0
    ensures r == MuyCaluroso <==> 30.0 < t
  {
    if t < 15.0 then MuyFrio
    else if t < 20.0 then Frio
    else if t <= 25.0 then Optimo
    else if t <= 30.0 then Caluroso
    else MuyCaluroso
  }

  /** Humidity bands: below 30, below 50, up to 70, up to 85, above. */
  function HumidityStatus(h: real): (r: string)
    ensures r == MuySeco <==> h < 30.0
    ensures r == Seco <==> 30.0 <= h < 50.0
    ensures r == Optimo <==> 50.0 <= h <= 70.0
    ensures r == Humedo <==> 70.0 < h <= 85.0
    ensures r == MuyHumedo <==> 85.0 < h
  {
    if h < 30.0 then MuySeco
    else if h < 50.0 then Seco
    else if h <= 70.0 then Optimo
    else if h <= 85.0 then Humedo
    else MuyHumedo
  }

  /** pH bands: below 6.0, below 6.5, up to 7.5, up to 8.0, above. */
  function PhStatus(ph: real): (r: string)
    ensures r == MuyAcido <==> ph < 6.0
    ensures r == Acido <==> 6.0 <= ph < 6.5
    ensures r == Optimo <==> 6.5 <= ph <= 7.5
    ensures r == Alcalino <==> 7.5 < ph <= 8.0
    ensures r == MuyAlcalino <==> 8.0 < ph
  {
    if ph < 6.0 then MuyAcido
    else if ph < 6.5 then Acido
    else if ph <= 7.5 then Optimo
    else if ph <= 8.0 then Alcalino
    else MuyAlcalino
  }

  function StatusOf(m: Measure, v: real): string {
    match m
    case Temperature => TemperatureStatus(v)
    case Humidity => HumidityStatus(v)
    case Ph => PhStatus(v)
  }

  /** The low and high thresholds, in mg/kg, of each nutrient. */
  function Low(nut: Nutrient): real {
    match nut
    case Nitrogen => 20.0
    case Phosphorus => 15.0
    case Potassium => 100.0
  }

  function High(nut: Nutrient): real {
    match nut
    case Nitrogen => 40.0
    case Phosphorus => 30.0
    case Potassium => 200.0
  }

  /** Below the low threshold is deficient; the closed range up to the high one is adequate; above it, excessive. */
  function NutrientStatus(v: real, nut: Nutrient): (r: string)
    ensures r == Deficiente <==> v < Low(nut)
    ensures r == Adecuado <==> Low(nut) <= v <= High(nut)
    ensures r == Excesivo <==> High(nut) < v
  {
    if v < Low(nut) then Deficiente
    else if v <= High(nut) then Adecuado
    else Excesivo
  }

  datatype Stat = Stat(avg: real, min: real, max: real, status: string)
  datatype NutrientStat = NutrientStat(avg: real, status: string)
  datatype Analysis = Analysis(
    temperature: Stat, humidity: Stat, ph: Stat,
    nitrogen: NutrientStat, phosphorus: NutrientStat, potassium: NutrientStat)

  /** The analysis returned when no row counts: every number 0, every status 'Sin datos'. */
  const NoData := Analysis(
    Stat(0.0, 0.0, 0.0, SinDatos), Stat(0.0, 0.0, 0.0, SinDatos), Stat(0.0, 0.0, 0.0, SinDatos),
    NutrientStat(0.0, SinDatos), NutrientStat(0.0, SinDatos), NutrientStat(0.0, SinDatos))

  function MeasureStat(rows: seq<Reading>, m: Measure): (r: Stat)
    requires |rows| > 0
    requires forall i :: 0 <= i < |rows| ==> IsValid(rows[i])
  {
    var xs := MeasureValues(rows, m);
    Stat(Average(xs), Min(xs), Max(xs), StatusOf(m, Average(xs)))
  }

  function NutrientStatOf(rows: seq<Reading>, nut: Nutrient): NutrientStat {
    var xs := NutrientValues(rows, nut);
    NutrientStat(Average(xs), NutrientStatus(Average(xs), nut))
  }

  /** A statistic whose minimum and maximum are attained by some counted row and bracket its average. */
  ghost predicate Summarises(rows: seq<Reading>, m: Measure, s: Stat)
    requires forall i :: 0 <= i < |rows| ==> IsValid(rows[i])
  {
    && s.min <= s.avg <= s.max
    && (exists i :: 0 <= i < |rows| && MeasureOf(rows[i], m).value == s.min)
    && (exists i :: 0 <= i < |rows| && MeasureOf(rows[i], m).value == s.max)
    && (forall i :: 0 <= i < |rows| ==> s.min <= MeasureOf(rows[i], m).value <= s.max)
    && s.status == StatusOf(m, s.avg)
  }

  /** `analyzeData`: statistics over the counted rows, or the no-data analysis when there are none. */
  function AnalyzeData(data: seq<Reading>): (a: Analysis)
    ensures ValidData(data) == [] ==> a == NoData
    ensures ValidData(data) != [] ==>
      && Summarises(ValidData(data), Temperature, a.temperature)
      && Summarises(ValidData(data), Humidity, a.humidity)
      && Summarises(ValidData(data), Ph, a.ph)
      && a.nitrogen.status == NutrientStatus(a.nitrogen.avg, Nitrogen)
      && a.phosphorus.status == NutrientStatus(a.phosphorus.avg, Phosphorus)
      && a.potassium.status == NutrientStatus(a.potassium.avg, Potassium)
    ensures ValidData(data) != [] ==>
      && a.temperature.avg == Average(MeasureValues(ValidData(data), Temperature))
      && a.humidity.avg == Average(MeasureValues(ValidData(data), Humidity))
      && a.ph.avg == Average(MeasureValues(ValidData(data), Ph))
      && a.nitrogen.avg == Average(NutrientValues(ValidData(data), Nitrogen))
      && a.phosphorus.avg == Average(NutrientValues(ValidData(data), Phosphorus))
      && a.potassium.avg == Average(NutrientValues(ValidData(data), Potassium))
  {
    var valid := ValidData(data);
    if |valid| == 0 then NoData
    else
      var a := AnalyzeValid(valid);
      StatSummarises(valid, Temperature);
      StatSummarises(valid, Humidity);
      StatSummarises(valid, Ph);
      a
  }

  /** The statistics of a non-empty list of counted rows. */
  function AnalyzeValid(valid: seq<Reading>): Analysis
    requires |valid| > 0
    requires forall i :: 0 <= i < |valid| ==> IsValid(valid[i])
  {
    Analysis(
      MeasureStat(valid, Temperature), MeasureStat(valid, Humidity), MeasureStat(valid, Ph),
      NutrientStatOf(valid, Nitrogen), NutrientStatOf(valid, Phosphorus), NutrientStatOf(valid, Potassium))
  }

  lemma StatSummarises(rows: seq<Reading>, m: Measure)
    requires |rows| > 0
    requires forall i :: 0 <= i < |rows| ==> IsValid(rows[i])
    ensures Summarises(rows, m, MeasureStat(rows, m))
  {
    var xs := MeasureValues(rows, m);
    var i :| 0 <= i < |xs| && xs[i] == Min(xs);
    var j :| 0 <= j < |xs| && xs[j] == Max(xs);
    AverageBetweenMinMax(xs);
    assert MeasureOf(rows[i], m).value == Min(xs);
    assert MeasureOf(rows[j], m).value == Max(xs);
  }

  /** Rows that are all complete are all counted, in order. */
  lemma {:induction false} AllValidKept(data: seq<Reading>)
    requires forall d :: d in data ==> IsValid(d)
    ensures ValidData(data) == data
  {
    if |data| > 0 {
      assert data[0] in data;
      assert forall d :: d in data[1..] ==> d in data;
      AllValidKept(data[1..]);
      assert [data[0]] + data[1..] == data;
    }
  }

  /** With counted rows, the temperature statistic is the one computed over them. */
  lemma AnalyzeTemperature(data: seq<Reading>)
    requires ValidData(data) != []
    ensures AnalyzeData(data).temperature == MeasureStat(ValidData(data), Temperature)
  {
  }

  /** The statistics of the readings 10, 20 and 30. */
  lemma Stats102030(xs: seq<real>)
    requires |xs| == 3 && xs[0] == 10.0 && xs[1] == 20.0 && xs[2] == 30.0
    ensures Average(xs) == 20.0 && Min(xs) == 10.0 && Max(xs) == 30.0
  {
    assert Sum(xs[3..]) == 0.0;
    assert Sum(xs[2..]) == 30.0 by { assert xs[2..][1..] == xs[3..]; }
    assert Sum(xs[1..]) == 50.0 by { assert xs[1..][1..] == xs[2..]; }
    assert Sum(xs) == 60.0;
  }


  /** Temperatures 10, 20 and 30 average 20, which is 'Óptimo', with minimum 10 and maximum 30. */
  lemma TemperatureExample(h: real, ph: real)
    ensures
      var data := [Reading(Some(10.0), Some(h), Some(ph), None, None, None),
                   Reading(Some(20.0), Some(h), Some(ph), None, None, None),
                   Reading(Some(30.0), Some(h), Some(ph), None, None, None)];
      AnalyzeData(data).temperature == Stat(20.0, 10.0, 30.0, Optimo)
  {
    var data := [Reading(Some(10.0), Some(h), Some(ph), None, None, None),
                 Reading(Some(20.0), Some(h), Some(ph), None, None, None),
                 Reading(Some(30.0), Some(h), Some(ph), None, None, None)];
    assert forall d :: d in data ==> IsValid(d);
    AllValidKept(data);
    AnalyzeTemperature(data);
    var xs := MeasureValues(data, Temperature);
    Stats102030(xs);
    assert TemperatureStatus(20.0) == Optimo;
    assert MeasureStat(data, Temperature) == Stat(20.0, 10.0, 30.0, Optimo);
  }

  /** When no row has all of temperature, humidity and pH, everything is 0 and 'Sin datos'. */
  lemma NoValidRowsNoData(data: seq<Reading>)
    requires forall i :: 0 <= i < |data| ==> !IsValid(data[i])
    ensures AnalyzeData(data) == NoData
    ensures AnalyzeData(data).temperature.status == SinDatos && AnalyzeData(data).nitrogen.avg == 0.0
  {
    assert forall d :: d in data ==> !IsValid(d);
  }

  /** Only the counted rows matter: rows missing temperature, humidity or pH change nothing. */
  lemma AnalysisOnlyCountsValid(data: seq<Reading>, d: Reading)
    requires !IsValid(d)
    ensures AnalyzeData(data) == AnalyzeData(ValidData(data))
    ensures AnalyzeData(data + [d]) == AnalyzeData(data)
  {
    ValidDataIdempotent(data);
    ValidDataAppendInvalid(data, d);
  }

  /** A missing nitrogen value counts as a zero reading: rows with 40 and with nothing average 20. */
  lemma MissingNutrientCountsAsZero(t: real, h: real, ph: real)
    ensures
      var data := [Reading(Some(t), Some(h), Some(ph), Some(40.0), None, None),
                   Reading(Some(t), Some(h), Some(ph), None, None, None)];
      AnalyzeData(data).nitrogen == NutrientStat(20.0, Adecuado)
  {
    var data := [Reading(Some(t), Some(h), Some(ph), Some(40.0), None, None),
                 Reading(Some(t), Some(h), Some(ph), None, None, None)];
    assert ValidData(data) == data by {
      assert ValidData(data[1..]) == data[1..] by {
        assert data[1..][1..] == [];
      }
    }
    var xs := NutrientValues(data, Nitrogen);
    assert xs == [40.0, 0.0];
    assert Sum([40.0, 0.0]) == 40.0 by {
      assert [40.0, 0.0][1..] == [0.0];
      assert [0.0][1..] == [];
    }
    assert Average(xs) == 20.0;
    assert NutrientStatOf(data, Nitrogen) == NutrientStat(20.0, Adecuado);
    assert AnalyzeData(data).nitrogen == NutrientStatOf(data, Nitrogen);
  }

  /** The fixed recommendations, one per rule. */
  datatype RecKind =
    | IncreaseTemperature | ReduceTemperature
    | IncreaseHumidity | ControlHumidity
    | AdjustPh | ReduceAlkalinity
    | NitrogenFertilization | PhosphorusSupplement | AddPotassium

  datatype Recommendation = Recommendation(title: string, description: string, priority: string)

  /** The rule group, in the order the rules are checked: temperature, humidity, pH, N, P, K. */
  function Group(k: RecKind): nat {
    match k
    case IncreaseTemperature => 0
    case ReduceTemperature => 0
    case IncreaseHumidity => 1
    case ControlHumidity => 1
    case AdjustPh => 2
    case ReduceAlkalinity => 2
    case NitrogenFertilization => 3
    case PhosphorusSupplement => 4
    case AddPotassium => 5
  }

  /** The recommendation a rule contributes. */
  function Rec(k: RecKind): Recommendation {
    Recommendation(Title(k), Description(k), Priority(k))
  }

  /** The title of a rule's recommendation. */
  function Title(k: RecKind): string {
    match k
    case IncreaseTemperature => "Incrementar temperatura"
    case ReduceTemperature => "Reducir temperatura"
    case IncreaseHumidity => "Aumentar humedad"
    case ControlHumidity => "Controlar humedad"
    case AdjustPh => "Ajustar pH del suelo"
    case ReduceAlkalinity => "Reducir alcalinidad"
    case NitrogenFertilization => "Fertilización nitrogenada"
    case PhosphorusSupplement => "Suplementar fósforo"
    case AddPotassium => "Añadir potasio"
  }

  /** The advice of a rule's recommendation. */
  function Description(k: RecKind): string {
    match k
    case IncreaseTemperature => "Considere implementar sistemas de calefacción o invernaderos para mejorar las condiciones térmicas."
    case ReduceTemperature => "Implemente sistemas de ventilación o sombreado para reducir el estrés térmico de los cultivos."
    case IncreaseHumidity => "Incremente la frecuencia de riego o instale sistemas de nebulización."
    case ControlHumidity => "Mejore la ventilación para prevenir enfermedades fúngicas."
    case AdjustPh => "Aplique cal agrícola para neutralizar la acidez del suelo."
    case ReduceAlkalinity => "Aplique azufre elemental o sulfato de hierro para reducir el pH."
    case NitrogenFertilization => "Aplique fertilizantes ricos en nitrógeno como urea o nitrato de amonio."
    case PhosphorusSupplement => "Utilice superfosfato simple o fosfato diamónico."
    case AddPotassium => "Aplique cloruro o sulfato de potasio según las necesidades del cultivo."
  }

  /** The priority of a rule's recommendation: 'Alta' or 'Media'. */
  function Priority(k: RecKind): string {
    match k
    case IncreaseTemperature => "Alta"
    case ReduceTemperature => "Alta"
    case IncreaseHumidity => "Media"
    case ControlHumidity => "Media"
    case AdjustPh => "Alta"
    case ReduceAlkalinity => "Alta"
    case NitrogenFertilization => "Alta"
    case PhosphorusSupplement => "Media"
    case AddPotassium => "Media"
  }


  /** When each rule fires, stated independently of the others. */
  predicate Triggered(k: RecKind, a: Analysis) {
    match k
    case IncreaseTemperature => a.temperature.avg < 18.0
    case ReduceTemperature => a.temperature.avg > 28.0
    case IncreaseHumidity => a.humidity.avg < 40.0
    case ControlHumidity => a.humidity.avg > 80.0
    case AdjustPh => a.ph.avg < 6.0
    case ReduceAlkalinity => a.ph.avg > 8.0
    case NitrogenFertilization => a.nitrogen.status == Deficiente
    case PhosphorusSupplement => a.phosphorus.status == Deficiente
    case AddPotassium => a.potassium.status == Deficiente
  }

  /** Rule groups strictly increase along the list: at most one entry per group, in checking order. */
  ghost predicate Ordered(ks: seq<RecKind>) {
    forall i, j :: 0 <= i < j < |ks| ==> Group(ks[i]) < Group(ks[j])
  }

  ghost predicate AllBelow(ks: seq<RecKind>, g: nat) {
    forall i :: 0 <= i < |ks| ==> Group(ks[i]) < g
  }

  /** Appending at most one entry of the next group keeps the list ordered. */
  lemma Extend(acc: seq<RecKind>, piece: seq<RecKind>, g: nat)
    requires Ordered(acc) && AllBelow(acc, g)
    requires |piece| <= 1 && forall i :: 0 <= i < |piece| ==> Group(piece[i]) == g
    ensures Ordered(acc + piece) && AllBelow(acc + piece, g + 1)
  {
  }

  /** The `if … else if …` of one measure: the low-side entry, else the high-side one, else nothing. */
  function OneSide(low: bool, high: bool, lowKind: RecKind, highKind: RecKind): (r: seq<RecKind>)
    requires lowKind != highKind && Group(lowKind) == Group(highKind)
    ensures |r| <= 1
    ensures forall k :: k in r <==> (k == lowKind && low) || (k == highKind && !low && high)
    ensures forall i :: 0 <= i < |r| ==> Group(r[i]) == Group(lowKind)
  {
    if low then [lowKind] else if high then [highKind] else []
  }

  /** The `if (status === 'Deficiente')` of one nutrient. */
  function IfDeficient(s: NutrientStat, kind: RecKind): (r: seq<RecKind>)
    ensures |r| <= 1
    ensures forall k :: k in r <==> k == kind && s.status == Deficiente
    ensures forall i :: 0 <= i < |r| ==> r[i] == kind
  {
    if s.status == Deficiente then [kind] else []
  }

  /** The rules that fire, in checking order; each fires exactly under its own condition. */
  function RecommendationKinds(a: Analysis): (r: seq<RecKind>)
    ensures forall k :: k in r <==> Triggered(k, a)
    ensures Ordered(r)
    ensures |r| <= 6
  {
    KindsOfTriggered(a);
    KindsOf(a)
  }

  /** The six rule pieces, concatenated in checking order. */
  function KindsOf(a: Analysis): seq<RecKind> {
    OneSide(a.temperature.avg < 18.0, a.temperature.avg > 28.0, IncreaseTemperature, ReduceTemperature)
    + OneSide(a.humidity.avg < 40.0, a.humidity.avg > 80.0, IncreaseHumidity, ControlHumidity)
    + OneSide(a.ph.avg < 6.0, a.ph.avg > 8.0, AdjustPh, ReduceAlkalinity)
    + IfDeficient(a.nitrogen, NitrogenFertilization)
    + IfDeficient(a.phosphorus, PhosphorusSupplement)
    + IfDeficient(a.potassium, AddPotassium)
  }

  /** The concatenated pieces hold exactly the rules that fire, in group order. */
  lemma KindsOfTriggered(a: Analysis)
    ensures forall k :: k in KindsOf(a) <==> Triggered(k, a)
    ensures Ordered(KindsOf(a)) && |KindsOf(a)| <= 6
  {
    forall x
      ensures x in KindsOf(a) <==> Triggered(x, a)
    {
      KindMember(a, x);
    }
    KindsOfOrdered(a);
  }

  /** One rule is among the pieces exactly when it fires. */
  lemma KindMember(a: Analysis, x: RecKind)
    ensures x in KindsOf(a) <==> Triggered(x, a)
  {
    var t := OneSide(a.temperature.avg < 18.0, a.temperature.avg > 28.0, IncreaseTemperature, ReduceTemperature);
    var h := OneSide(a.humidity.avg < 40.0, a.humidity.avg > 80.0, IncreaseHumidity, ControlHumidity);
    var p := OneSide(a.ph.avg < 6.0, a.ph.avg > 8.0, AdjustPh, ReduceAlkalinity);
    var n := IfDeficient(a.nitrogen, NitrogenFertilization);
    var ph := IfDeficient(a.phosphorus, PhosphorusSupplement);
    var k := IfDeficient(a.potassium, AddPotassium);
    assert KindsOf(a) == t + h + p + n + ph + k;
    PiecesMembers(t, h, p, n, ph, k);
    assert x in t <==> (x == IncreaseTemperature && Triggered(x, a)) || (x == ReduceTemperature && Triggered(x, a));
    assert x in h <==> (x == IncreaseHumidity && Triggered(x, a)) || (x == ControlHumidity && Triggered(x, a));
    assert x in p <==> (x == AdjustPh && Triggered(x, a)) || (x == ReduceAlkalinity && Triggered(x, a));
    assert x in n <==> x == NitrogenFertilization && Triggered(x, a);
    assert x in ph <==> x == PhosphorusSupplement && Triggered(x, a);
    assert x in k <==> x == AddPotassium && Triggered(x, a);
  }

  /** The pieces come in group order, at most one per group. */
  lemma KindsOfOrdered(a: Analysis)
    ensures Ordered(KindsOf(a)) && |KindsOf(a)| <= 6
  {
    var t := OneSide(a.temperature.avg < 18.0, a.temperature.avg > 28.0, IncreaseTemperature, ReduceTemperature);
    var h := OneSide(a.humidity.avg < 40.0, a.humidity.avg > 80.0, IncreaseHumidity, ControlHumidity);
    var p := OneSide(a.ph.avg < 6.0, a.ph.avg > 8.0, AdjustPh, ReduceAlkalinity);
    var n := IfDeficient(a.nitrogen, NitrogenFertilization);
    var ph := IfDeficient(a.phosphorus, PhosphorusSupplement);
    var k := IfDeficient(a.potassium, AddPotassium);
    assert KindsOf(a) == t + h + p + n + ph + k;
    PiecesOrdered(t, h, p, n, ph, k);
  }


  /** Six pieces of at most one entry each, of groups 0 to 5, concatenate to an ordered list of at most six. */
  lemma PiecesOrdered(t: seq<RecKind>, h: seq<RecKind>, p: seq<RecKind>, n: seq<RecKind>, ph: seq<RecKind>, k: seq<RecKind>)
    requires |t| <= 1 && forall i :: 0 <= i < |t| ==> Group(t[i]) == 0
    requires |h| <= 1 && forall i :: 0 <= i < |h| ==> Group(h[i]) == 1
    requires |p| <= 1 && forall i :: 0 <= i < |p| ==> Group(p[i]) == 2
    requires |n| <= 1 && forall i :: 0 <= i < |n| ==> Group(n[i]) == 3
    requires |ph| <= 1 && forall i :: 0 <= i < |ph| ==> Group(ph[i]) == 4
    requires |k| <= 1 && forall i :: 0 <= i < |k| ==> Group(k[i]) == 5
    ensures Ordered(t + h + p + n + ph + k) && |t + h + p + n + ph + k| <= 6
  {
    Extend([], t, 0);
    assert [] + t == t;
    Extend(t, h, 1);
    Extend(t + h, p, 2);
    Extend(t + h + p, n, 3);
    Extend(t + h + p + n, ph, 4);
    Extend(t + h + p + n + ph, k, 5);
  }

  /** Membership in a concatenation of six pieces is membership in one of them. */
  lemma PiecesMembers<T>(t: seq<T>, h: seq<T>, p: seq<T>, n: seq<T>, ph: seq<T>, k: seq<T>)
    ensures forall x :: x in t + h + p + n + ph + k <==> x in t || x in h || x in p || x in n || x in ph || x in k
  {
  }

  function RecsOf(ks: seq<RecKind>): (r: seq<Recommendation>)
    ensures |r| == |ks|
    ensures forall i :: 0 <= i < |ks| ==> r[i] == Rec(ks[i])
  {
    if |ks| == 0 then [] else [Rec(ks[0])] + RecsOf(ks[1..])
  }

  lemma RecsOfContains(ks: seq<RecKind>, k: RecKind)
    requires k in ks
    ensures Rec(k) in RecsOf(ks)
  {
    var i :| 0 <= i < |ks| && ks[i] == k;
    var r := RecsOf(ks);
    ElementIn(r, i);
  }

  lemma ElementIn<T>(s: seq<T>, i: nat)
    requires i < |s|
    ensures s[i] in s
  {
  }

  /**
   * `generateRecommendations`: one entry per rule that fires and none for a
   * rule that does not, in the order the rules are checked.
   */
  function GenerateRecommendations(a: Analysis): (r: seq<Recommendation>)
    ensures |r| == |RecommendationKinds(a)| <= 6
    ensures forall i :: 0 <= i < |r| ==> r[i] == Rec(RecommendationKinds(a)[i])
  {
    RecsOf(RecommendationKinds(a))
  }

  /** Every rule that fires contributes its recommendation. */
  lemma FiredRulesRecommended(a: Analysis, k: RecKind)
    requires Triggered(k, a)
    ensures Rec(k) in GenerateRecommendations(a)
  {
    assert k in RecommendationKinds(a);
    RecsOfContains(RecommendationKinds(a), k);
  }

  /** Every recommendation comes from a rule that fires. */
  lemma RecommendedRulesFired(a: Analysis, i: int)
    requires 0 <= i < |GenerateRecommendations(a)|
    ensures exists k :: Triggered(k, a) && GenerateRecommendations(a)[i] == Rec(k)
  {
    var ks := RecommendationKinds(a);
    assert ks[i] in ks;
  }

  /** Each measure contributes at most one recommendation. */
  lemma AtMostOnePerMeasure(a: Analysis)
    ensures !(IncreaseTemperature in RecommendationKinds(a) && ReduceTemperature in RecommendationKinds(a))
    ensures !(IncreaseHumidity in RecommendationKinds(a) && ControlHumidity in RecommendationKinds(a))
    ensures !(AdjustPh in RecommendationKinds(a) && ReduceAlkalinity in RecommendationKinds(a))
  {
  }

  /** The no-data analysis yields exactly the three low-side recommendations. */
  lemma NoDataRecommendations()
    ensures RecommendationKinds(NoData) == [IncreaseTemperature, IncreaseHumidity, AdjustPh]
  {
    assert |SinDatos| != |Deficiente|;
    assert IfDeficient(NoData.nitrogen, NitrogenFertilization) == [];
    assert IfDeficient(NoData.phosphorus, PhosphorusSupplement) == [];
    assert IfDeficient(NoData.potassium, AddPotassium) == [];
    assert KindsOf(NoData) == [IncreaseTemperature] + [IncreaseHumidity] + [AdjustPh] + [] + [] + [];
  }

  /** Two rules that fire appear in the order their measures are checked. */
  lemma FiredKindsInOrder(a: Analysis, k1: RecKind, k2: RecKind) returns (i: nat, j: nat)
    requires Triggered(k1, a) && Triggered(k2, a) && Group(k1) < Group(k2)
    ensures i < j < |RecommendationKinds(a)|
    ensures RecommendationKinds(a)[i] == k1 && RecommendationKinds(a)[j] == k2
  {
    var ks := RecommendationKinds(a);
    assert k1 in ks && k2 in ks;
    i :| 0 <= i < |ks| && ks[i] == k1;
    j :| 0 <= j < |ks| && ks[j] == k2;
    assert Group(ks[i]) < Group(ks[j]);
  }

  /** `x` occurs in `r` at an earlier position than `y`. */
  ghost predicate Precedes<T>(r: seq<T>, x: T, y: T) {
    exists i, j :: 0 <= i < j < |r| && r[i] == x && r[j] == y
  }

  /** The same for the recommendations themselves. */
  lemma FiredRulesInOrder(a: Analysis, k1: RecKind, k2: RecKind)
    requires Triggered(k1, a) && Triggered(k2, a) && Group(k1) < Group(k2)
    ensures Precedes(GenerateRecommendations(a), Rec(k1), Rec(k2))
  {
    var i, j := FiredKindsInOrder(a, k1, k2);
    var r := GenerateRecommendations(a);
    assert r[i] == Rec(k1) && r[j] == Rec(k2);
  }

  const Bueno := "Bueno"
  const RequiereAtencion := "Requiere Atención"
  const Aceptable := "Aceptable"

  /** `getOverallStatus`: any optimal measure wins, then any status containing 'Muy', else acceptable. */
  function OverallStatus(a: Analysis): (r: string)
    ensures r in {Bueno, RequiereAtencion, Aceptable}
  {
    var statuses := Statuses(a);
    if Optimo in statuses then Bueno
    else if exists s | s in statuses :: Contains(s, "Muy") then RequiereAtencion
    else Aceptable
  }

  /** The three labels `getOverallStatus` inspects. */
  function Statuses(a: Analysis): seq<string> {
    [a.temperature.status, a.humidity.status, a.ph.status]
  }

  /** A temperature status contains 'Muy' exactly in the two extreme bands. */
  lemma TemperatureVery(t: real)
    ensures Contains(TemperatureStatus(t), "Muy") <==> t < 15.0 || t > 30.0
  {
    if t < 15.0 { PrefixContained(MuyFrio, "Muy"); }
    else if t < 20.0 { DisjointNotContained(Frio, "Muy"); }
    else if t <= 25.0 { DisjointNotContained(Optimo, "Muy"); }
    else if t <= 30.0 { DisjointNotContained(Caluroso, "Muy"); }
    else { PrefixContained(MuyCaluroso, "Muy"); }
  }

  /** A humidity status contains 'Muy' exactly in the two extreme bands. */
  lemma HumidityVery(h: real)
    ensures Contains(HumidityStatus(h), "Muy") <==> h < 30.0 || h > 85.0
  {
    if h < 30.0 { PrefixContained(MuySeco, "Muy"); }
    else if h < 50.0 { DisjointNotContained(Seco, "Muy"); }
    else if h <= 70.0 { DisjointNotContained(Optimo, "Muy"); }
    else if h <= 85.0 { DisjointNotContained(Humedo, "Muy"); }
    else { PrefixContained(MuyHumedo, "Muy"); }
  }

  /** A pH status contains 'Muy' exactly in the two extreme bands. */
  lemma PhVery(ph: real)
    ensures Contains(PhStatus(ph), "Muy") <==> ph < 6.0 || ph > 8.0
  {
    if ph < 6.0 { PrefixContained(MuyAcido, "Muy"); }
    else if ph < 6.5 { DisjointNotContained(Acido, "Muy"); }
    else if ph <= 7.5 { DisjointNotContained(Optimo, "Muy"); }
    else if ph <= 8.0 { DisjointNotContained(Alcalino, "Muy"); }
    else { PrefixContained(MuyAlcalino, "Muy"); }
  }

  /** Some measure's average lies in its optimal band. */
  predicate AnyOptimal(a: Analysis) {
    || 20.0 <= a.temperature.avg <= 25.0
    || 50.0 <= a.humidity.avg <= 70.0
    || 6.5 <= a.ph.avg <= 7.5
  }

  /** Some measure's average lies in an extreme band. */
  predicate AnyExtreme(a: Analysis) {
    || a.temperature.avg < 15.0 || a.temperature.avg > 30.0
    || a.humidity.avg < 30.0 || a.humidity.avg > 85.0
    || a.ph.avg < 6.0 || a.ph.avg > 8.0
  }

  /** The statuses are the bands of the averages, as `analyzeData` computes them. */
  predicate Banded(a: Analysis) {
    && a.temperature.status == TemperatureStatus(a.temperature.avg)
    && a.humidity.status == HumidityStatus(a.humidity.avg)
    && a.ph.status == PhStatus(a.ph.avg)
  }

  /**
   * The overall status in terms of the averages: 'Bueno' exactly when one of
   * them is in its optimal band, even if another is extreme; otherwise
   * 'Requiere Atención' exactly when one is extreme.
   */
  lemma OverallByAverages(a: Analysis)
    requires Banded(a)
    ensures OverallStatus(a) == Bueno <==> AnyOptimal(a)
    ensures OverallStatus(a) == RequiereAtencion <==> !AnyOptimal(a) && AnyExtreme(a)
    ensures OverallStatus(a) == Aceptable <==> !AnyOptimal(a) && !AnyExtreme(a)
  {
    OptimalIff(a);
    VeryIff(a);
  }

  /** With banded statuses, one of them is 'Óptimo' exactly when an average is in its optimal band. */
  lemma OptimalIff(a: Analysis)
    requires Banded(a)
    ensures Optimo in Statuses(a) <==> AnyOptimal(a)
  {
    assert Optimo in Statuses(a) <==> a.temperature.status == Optimo || a.humidity.status == Optimo || a.ph.status == Optimo;
  }

  /** With banded statuses, one of them contains 'Muy' exactly when an average is in an extreme band. */
  lemma VeryIff(a: Analysis)
    requires Banded(a)
    ensures (exists s | s in Statuses(a) :: Contains(s, "Muy")) <==> AnyExtreme(a)
  {
    TemperatureVery(a.temperature.avg);
    HumidityVery(a.humidity.avg);
    PhVery(a.ph.avg);
    var statuses := Statuses(a);
    assert forall s :: s in statuses <==> s == a.temperature.status || s == a.humidity.status || s == a.ph.status;
    if AnyExtreme(a) {
      if Contains(a.temperature.status, "Muy") {
        assert a.temperature.status in statuses;
      } else if Contains(a.humidity.status, "Muy") {
        assert a.humidity.status in statuses;
      } else {
        assert a.ph.status in statuses;
      }
    }
  }

  /** For a report with data, the overall status follows the averages as above. */
  lemma AnalysisOverall(data: seq<Reading>)
    requires ValidData(data) != []
    ensures OverallStatus(AnalyzeData(data)) == Bueno <==> AnyOptimal(AnalyzeData(data))
    ensures OverallStatus(AnalyzeData(data)) == RequiereAtencion <==>
      !AnyOptimal(AnalyzeData(data)) && AnyExtreme(AnalyzeData(data))
  {
    OverallByAverages(AnalyzeData(data));
  }

  /** The no-data analysis is summarised as 'Aceptable'. */
  lemma OverallNoData()
    ensures OverallStatus(NoData) == Aceptable
  {
    DisjointNotContained(SinDatos, "Muy");
    var statuses := Statuses(NoData);
    assert forall s :: s in statuses ==> s == SinDatos;
  }

  /** A very cold but otherwise optimal reading is still summarised as 'Bueno'. */
  lemma OptimalMasksExtreme()
    ensures OverallStatus(Analysis(
      Stat(10.0, 10.0, 10.0, MuyFrio), Stat(60.0, 60.0, 60.0, Optimo), Stat(7.0, 7.0, 7.0, Optimo),
      NutrientStat(30.0, Adecuado), NutrientStat(20.0, Adecuado), NutrientStat(150.0, Adecuado))) == Bueno
  {
  }

  /** The data table shows at most the first 20 rows. */
  function TableRows(data: seq<Reading>): (r: seq<Reading>)
    ensures |r| <= 20
    ensures |r| == if |data| < 20 then |data| else 20
    ensures r == data[..|r|]
  {
    if |data| <= 20 then data else data[..20]
  }

  /** What one report holds: the measurement count, the analysis and its summary, the recommendations and the tabulated rows. */
  datatype ReportContent = ReportContent(
    measurements: nat, analysis: Analysis, overall: string,
    recommendations: seq<Recommendation>, rows: seq<Reading>)

  /** `generatePDF` without the layout: the content is a function of the data alone. */
  function GenerateReport(data: seq<Reading>): (r: ReportContent)
    ensures r.measurements == |data|
    ensures |r.rows| == (if |data| < 20 then |data| else 20) && r.rows == data[..|r.rows|]
  {
    var a := AnalyzeData(data);
    ReportContent(|data|, a, OverallStatus(a), GenerateRecommendations(a), TableRows(data))
  }

  /** A report over data with no complete row: no-data analysis, 'Aceptable', and the three low-side recommendations. */
  lemma EmptyReport(data: seq<Reading>)
    requires ValidData(data) == []
    ensures GenerateReport(data).analysis == NoData
    ensures GenerateReport(data).overall == Aceptable
    ensures GenerateReport(data).recommendations == RecsOf([IncreaseTemperature, IncreaseHumidity, AdjustPh])
  {
    assert GenerateReport(data).analysis == NoData;
    OverallNoData();
    NoDataRecs();
  }

  /** The recommendations for the no-data analysis, written out. */
  lemma NoDataRecs()
    ensures GenerateRecommendations(NoData) == RecsOf([IncreaseTemperature, IncreaseHumidity, AdjustPh])
  {
    NoDataRecommendations();
  }

}
