/** The ratio unit converter of the Unit Converter app: the units offered per
    category, the fixed table of scale factors, and the multiply-divide
    conversion over it. Factors are exact reals; floating-point rounding is
    not modelled. */
module Conversion {

  /** The conversion types offered by the category selector. */
  datatype Category = Length | Weight | Temperature | Speed | Time | Volume | Pressure

  /** Why a conversion produced no number: a missing key in the factor table. */
  datatype ConvertError = UnknownCategory(category: Category) | UnknownUnit(unit: string)

  datatype Result<+T, +E> = Success(value: T) | Failure(error: E)

  /** The categories in the order the selector lists them. */
  const Categories: seq<Category> := [Length, Weight, Temperature, Speed, Time, Volume, Pressure]

  /** The unit names offered for a category; every category has an entry,
      Temperature included. */
  function UnitOptions(c: Category): seq<string>
  {
    match c
    case Length => ["Meter", "Kilometer", "Centimeter", "Millimeter", "Mile", "Yard", "Feet", "Inches"]
    case Weight => ["Kilogram", "Gram", "Milligram", "Pound", "Ounce"]
    case Temperature => ["Celsius", "Fahrenheit", "Kelvin"]
    case Speed => ["km/h", "mph", "m/s"]
    case Time => ["Seconds", "Minutes", "Hours", "Days"]
    case Volume => ["Liters", "Milliliters", "Cubic Meters", "Gallons"]
    case Pressure => ["Pascal", "Bar", "PSI", "Atmosphere"]
  }

  /** How many of each unit make one base unit of its category (one metre,
      one kilogram, one km/h, one second, one litre, one pascal), keyed by
      category. There is no entry for Temperature. */
  const Conversions: map<Category, map<string, real>> := map[
    Length := LengthFactors,
    Weight := WeightFactors,
    Speed := SpeedFactors,
    Time := TimeFactors,
    Volume := VolumeFactors,
    Pressure := PressureFactors
  ]

  const LengthFactors: map<string, real> :=
    map["Meter" := 1.0, "Kilometer" := 0.001, "Centimeter" := 100.0, "Millimeter" := 1000.0,
        "Mile" := 0.000621371, "Yard" := 1.09361, "Feet" := 3.28084, "Inches" := 39.3701]
  const WeightFactors: map<string, real> :=
    map["Kilogram" := 1.0, "Gram" := 1000.0, "Milligram" := 1000000.0, "Pound" := 2.20462, "Ounce" := 35.274]
  const SpeedFactors: map<string, real> :=
    map["km/h" := 1.0, "mph" := 0.621371, "m/s" := 0.277778]
  const TimeFactors: map<string, real> :=
    map["Seconds" := 1.0, "Minutes" := 1.0 / 60.0, "Hours" := 1.0 / 3600.0, "Days" := 1.0 / 86400.0]
  const VolumeFactors: map<string, real> :=
    map["Liters" := 1.0, "Milliliters" := 1000.0, "Cubic Meters" := 0.001, "Gallons" := 0.264172]
  const PressureFactors: map<string, real> :=
    map["Pascal" := 1.0, "Bar" := 0.00001, "PSI" := 0.000145038, "Atmosphere" := 0.00000986923]

  /** True when the table has a factor for unit `u` in category `c`. */
  predicate Known(c: Category, u: string)
  {
    c in Conversions && u in Conversions[c]
  }

  function Factor(c: Category, u: string): real
    requires Known(c, u)
  {
    Conversions[c][u]
  }

  /** The factors of one category, each strictly positive. */
  predicate Positive(m: map<string, real>)
  {
    forall u :: u in m ==> m[u] > 0.0
  }

  /** The units offered for a category are exactly the keys of its factors. */
  predicate SameUnits(options: seq<string>, m: map<string, real>)
  {
    (forall u :: u in options ==> u in m) && (forall u :: u in m ==> u in options)
  }

  /** Table invariant: every category's factors are strictly positive and
      cover exactly the units offered for it. */
  lemma TableValid(c: Category)
    requires c in Conversions
    ensures Positive(Conversions[c])
    ensures SameUnits(UnitOptions(c), Conversions[c])
  {
    match c
    case Length => LengthTable();
    case Weight => WeightTable();
    case Speed => SpeedTable();
    case Time => TimeTable();
    case Volume => VolumeTable();
    case Pressure => PressureTable();
  }

  lemma LengthTable()
    ensures Positive(LengthFactors) && SameUnits(UnitOptions(Length), LengthFactors)
  {
  }

  lemma WeightTable()
    ensures Positive(WeightFactors) && SameUnits(UnitOptions(Weight), WeightFactors)
  {
  }

  lemma SpeedTable()
    ensures Positive(SpeedFactors) && SameUnits(UnitOptions(Speed), SpeedFactors)
  {
  }

  lemma TimeTable()
    ensures Positive(TimeFactors) && SameUnits(UnitOptions(Time), TimeFactors)
  {
  }

  lemma VolumeTable()
    ensures Positive(VolumeFactors) && SameUnits(UnitOptions(Volume), VolumeFactors)
  {
  }

  lemma PressureTable()
    ensures Positive(PressureFactors) && SameUnits(UnitOptions(Pressure), PressureFactors)
  {
  }

  lemma FactorPositive(c: Category, u: string)
    requires Known(c, u)
    ensures Factor(c, u) > 0.0
  {
    TableValid(c);
  }

  /** The unit lookups inside one category's factors, `from` before `to`. */
  function LookupUnits(m: map<string, real>, from: string, to: string): Result<(real, real), ConvertError>
  {
    if from !in m then Failure(UnknownUnit(from))
    else if to !in m then Failure(UnknownUnit(to))
    else Success((m[from], m[to]))
  }

  /** The source's arithmetic within one category: `value * m[from] / m[to]`. */
  function RatioAsWritten(m: map<string, real>, value: real, from: string, to: string): (r: Result<real, ConvertError>)
    requires Positive(m)
    ensures r.Success? <==> from in m && to in m
    ensures r.Success? ==> r.value / m[from] == value / m[to]
    ensures from !in m ==> r == Failure(UnknownUnit(from))
    ensures from in m && to !in m ==> r == Failure(UnknownUnit(to))
  {
    match LookupUnits(m, from, to)
    case Failure(e) => Failure(e)
    case Success(fg) =>
      ScaleMeasure(value, fg.1, fg.0);
      Success(Scale(value, fg.0, fg.1))
  }

  /** The intended arithmetic within one category: the result holds as many
      base units as the input. */
  function Ratio(m: map<string, real>, value: real, from: string, to: string): (r: Result<real, ConvertError>)
    requires Positive(m)
    ensures r.Success? <==> from in m && to in m
    ensures r.Success? ==> r.value / m[to] == value / m[from]
    ensures from !in m ==> r == Failure(UnknownUnit(from))
    ensures from in m && to !in m ==> r == Failure(UnknownUnit(to))
  {
    match LookupUnits(m, from, to)
    case Failure(e) => Failure(e)
    case Success(fg) =>
      ScaleMeasure(value, fg.0, fg.1);
      Success(Scale(value, fg.1, fg.0))
  }

  /** `value * num / den`: the one arithmetic step of a conversion. */
  function Scale(value: real, num: real, den: real): real
    requires den > 0.0
  {
    value * num / den
  }

  /** Scaling by g / f keeps an amount's measure in base units. */
  lemma ScaleMeasure(value: real, f: real, g: real)
    requires f > 0.0 && g > 0.0
    ensures Scale(value, g, f) / g == value / f
  {
  }

  /** An amount `x` of unit `u`, measured in the base unit of `c`. */
  function InBase(c: Category, u: string, x: real): real
    requires Known(c, u)
  {
    FactorPositive(c, u);
    x / Factor(c, u)
  }

  /** The conversion exactly as the source writes it: `value * f[from] / f[to]`.
      With factors counted per base unit this divides where it should
      multiply, so it converts in the wrong direction. */
  function ConvertAsWritten(c: Category, value: real, from: string, to: string): (r: Result<real, ConvertError>)
    ensures r.Success? <==> Known(c, from) && Known(c, to)
    ensures r.Success? ==> InBase(c, from, r.value) == InBase(c, to, value)
    ensures c !in Conversions ==> r == Failure(UnknownCategory(c))
    ensures c in Conversions && !Known(c, from) ==> r == Failure(UnknownUnit(from))
    ensures Known(c, from) && !Known(c, to) ==> r == Failure(UnknownUnit(to))
  {
    if c !in Conversions then Failure(UnknownCategory(c))
    else
      TableValid(c);
      RatioAsWritten(Conversions[c], value, from, to)
  }

  /** `value` in unit `from` expressed in unit `to` of category `c`: the same
      amount of the base unit, as the factor table means it. Fails, with the
      first missing key, when the table lacks the category or a unit. */
  function Convert(c: Category, value: real, from: string, to: string): (r: Result<real, ConvertError>)
    ensures r.Success? <==> Known(c, from) && Known(c, to)
    ensures r.Success? ==> InBase(c, to, r.value) == InBase(c, from, value)
    ensures c !in Conversions ==> r == Failure(UnknownCategory(c))
    ensures c in Conversions && !Known(c, from) ==> r == Failure(UnknownUnit(from))
    ensures Known(c, from) && !Known(c, to) ==> r == Failure(UnknownUnit(to))
  {
    if c !in Conversions then Failure(UnknownCategory(c))
    else
      TableValid(c);
      Ratio(Conversions[c], value, from, to)
  }

  /** The source's formula is the corrected conversion with the two units
      swapped. */
  lemma AsWrittenSwapsUnits(c: Category, value: real, from: string, to: string)
    requires Known(c, from) && Known(c, to)
    ensures ConvertAsWritten(c, value, from, to) == Convert(c, value, to, from)
  {
  }

  /** The formula as written also composes: u1 to u2 and then on to u3 is u1
      to u3. Swapping the units does not give this from `ConvertCompose`,
      since the swap reverses the chain. */
  lemma AsWrittenCompose(c: Category, value: real, u1: string, u2: string, u3: string)
    requires Known(c, u1) && Known(c, u2) && Known(c, u3)
    ensures ConvertAsWritten(c, ConvertAsWritten(c, value, u1, u2).value, u2, u3)
         == ConvertAsWritten(c, value, u1, u3)
  {
    TableValid(c);
    RatioAsWrittenCompose(Conversions[c], value, u1, u2, u3);
  }

  lemma RatioAsWrittenCompose(m: map<string, real>, value: real, u1: string, u2: string, u3: string)
    requires Positive(m) && u1 in m && u2 in m && u3 in m
    ensures RatioAsWritten(m, RatioAsWritten(m, value, u1, u2).value, u2, u3)
         == RatioAsWritten(m, value, u1, u3)
  {
    ScaleComposeAsWritten(value, m[u1], m[u2], m[u3]);
  }

  lemma ScaleComposeAsWritten(value: real, f1: real, f2: real, f3: real)
    requires f2 > 0.0 && f3 > 0.0
    ensures Scale(Scale(value, f1, f2), f2, f3) == Scale(value, f1, f3)
  {
  }

  /** The other laws carry over to the formula as written through the unit
      swap: identity, round trip, linearity and monotonicity. */
  lemma AsWrittenIdentity(c: Category, value: real, u: string)
    requires Known(c, u)
    ensures ConvertAsWritten(c, value, u, u) == Success(value)
  {
    AsWrittenSwapsUnits(c, value, u, u);
    ConvertIdentity(c, value, u);
  }

  lemma AsWrittenRoundTrip(c: Category, value: real, from: string, to: string)
    requires Known(c, from) && Known(c, to)
    ensures ConvertAsWritten(c, ConvertAsWritten(c, value, from, to).value, to, from) == Success(value)
  {
    AsWrittenSwapsUnits(c, value, from, to);
    AsWrittenSwapsUnits(c, ConvertAsWritten(c, value, from, to).value, to, from);
    ConvertRoundTrip(c, value, to, from);
  }

  lemma AsWrittenScales(c: Category, a: real, v: real, from: string, to: string)
    requires Known(c, from) && Known(c, to)
    ensures ConvertAsWritten(c, a * v, from, to).value == a * ConvertAsWritten(c, v, from, to).value
  {
    var m := Conversions[c];
    AsWrittenIsRatio(c, a * v, from, to);
    AsWrittenIsRatio(c, v, from, to);
    RatioAsWrittenScales(m, a, v, from, to);
    calc {
      ConvertAsWritten(c, a * v, from, to).value;
      == RatioAsWritten(m, a * v, from, to).value;
      == a * RatioAsWritten(m, v, from, to).value;
      == a * ConvertAsWritten(c, v, from, to).value;
    }
  }

  lemma RatioAsWrittenScales(m: map<string, real>, a: real, v: real, from: string, to: string)
    requires Positive(m) && from in m && to in m
    ensures RatioAsWritten(m, a * v, from, to).value == a * RatioAsWritten(m, v, from, to).value
  {
    ScaleLinear(a, v, 0.0, m[from], m[to]);
  }

  lemma AsWrittenIsRatio(c: Category, value: real, from: string, to: string)
    requires c in Conversions
    ensures Positive(Conversions[c])
    ensures ConvertAsWritten(c, value, from, to) == RatioAsWritten(Conversions[c], value, from, to)
  {
    TableValid(c);
  }

  lemma AsWrittenAdds(c: Category, v: real, w: real, from: string, to: string)
    requires Known(c, from) && Known(c, to)
    ensures ConvertAsWritten(c, v + w, from, to).value
         == ConvertAsWritten(c, v, from, to).value + ConvertAsWritten(c, w, from, to).value
  {
    AsWrittenSwapsUnits(c, v + w, from, to);
    AsWrittenSwapsUnits(c, v, from, to);
    AsWrittenSwapsUnits(c, w, from, to);
    ConvertAdds(c, v, w, to, from);
  }

  lemma AsWrittenMonotone(c: Category, v: real, w: real, from: string, to: string)
    requires Known(c, from) && Known(c, to)
    ensures v >= 0.0 ==> ConvertAsWritten(c, v, from, to).value >= 0.0
    ensures v < w ==> ConvertAsWritten(c, v, from, to).value < ConvertAsWritten(c, w, from, to).value
  {
    AsWrittenSwapsUnits(c, v, from, to);
    AsWrittenSwapsUnits(c, w, from, to);
    ConvertMonotone(c, v, w, to, from);
  }

  /** The input that shows the inversion: one kilometre comes out as 0.001
      metres instead of 1000. */
  lemma AsWrittenKilometerToMeter()
    ensures ConvertAsWritten(Length, 1.0, "Kilometer", "Meter") == Success(0.001)
    ensures Convert(Length, 1.0, "Kilometer", "Meter") == Success(1000.0)
  {
  }

  /** The selector offers every category, and every category but
      Temperature has a factor table. */
  lemma CategoriesWithFactors(c: Category)
    ensures c in Categories
    ensures c in Conversions <==> c != Temperature
  {
  }

  /** For every category with a factor table, the units offered are exactly
      the units that have a factor. */
  lemma OfferedUnitsAreKnown(c: Category, u: string)
    requires c != Temperature
    ensures u in UnitOptions(c) <==> Known(c, u)
  {
    TableValid(c);
  }

  /** A conversion between two offered units fails exactly when the category
      is Temperature. */
  lemma OfferedConversionSucceeds(c: Category, value: real, from: string, to: string)
    requires from in UnitOptions(c) && to in UnitOptions(c)
    ensures Convert(c, value, from, to).Success? <==> c != Temperature
  {
    if c != Temperature {
      OfferedUnitsAreKnown(c, from);
      OfferedUnitsAreKnown(c, to);
    }
  }

  /** Temperature is offered but yields no number: the category lookup fails. */
  lemma TemperatureFails(value: real, from: string, to: string)
    ensures Convert(Temperature, value, from, to) == Failure(UnknownCategory(Temperature))
    ensures ConvertAsWritten(Temperature, value, from, to) == Failure(UnknownCategory(Temperature))
  {
  }

  /** Converting a unit to itself returns the value unchanged. */
  lemma ConvertIdentity(c: Category, value: real, u: string)
    requires Known(c, u)
    ensures Convert(c, value, u, u) == Success(value)
  {
    TableValid(c);
    RatioIdentity(Conversions[c], value, u);
  }

  lemma RatioIdentity(m: map<string, real>, value: real, u: string)
    requires Positive(m) && u in m
    ensures Ratio(m, value, u, u) == Success(value)
  {
    ScaleIdentity(value, m[u]);
  }

  lemma ScaleIdentity(value: real, f: real)
    requires f > 0.0
    ensures Scale(value, f, f) == value
  {
  }

  /** Converting from u1 to u2 and then on to u3 is converting from u1 to u3. */
  lemma ConvertCompose(c: Category, value: real, u1: string, u2: string, u3: string)
    requires Known(c, u1) && Known(c, u2) && Known(c, u3)
    ensures Convert(c, Convert(c, value, u1, u2).value, u2, u3) == Convert(c, value, u1, u3)
  {
    TableValid(c);
    RatioCompose(Conversions[c], value, u1, u2, u3);
  }

  lemma RatioCompose(m: map<string, real>, value: real, u1: string, u2: string, u3: string)
    requires Positive(m) && u1 in m && u2 in m && u3 in m
    ensures Ratio(m, Ratio(m, value, u1, u2).value, u2, u3) == Ratio(m, value, u1, u3)
  {
    ScaleCompose(value, m[u1], m[u2], m[u3]);
  }

  lemma ScaleCompose(value: real, f1: real, f2: real, f3: real)
    requires f1 > 0.0 && f2 > 0.0
    ensures Scale(Scale(value, f2, f1), f3, f2) == Scale(value, f3, f1)
  {
  }

  /** Converting there and back returns the original value. */
  lemma ConvertRoundTrip(c: Category, value: real, from: string, to: string)
    requires Known(c, from) && Known(c, to)
    ensures Convert(c, Convert(c, value, from, to).value, to, from) == Success(value)
  {
    ConvertCompose(c, value, from, to, from);
    ConvertIdentity(c, value, from);
  }

  /** Conversion is linear: scaling the input scales the result... */
  lemma ConvertScales(c: Category, a: real, v: real, from: string, to: string)
    requires Known(c, from) && Known(c, to)
    ensures Convert(c, a * v, from, to).value == a * Convert(c, v, from, to).value
  {
    var m := Conversions[c];
    ConvertIsRatio(c, a * v, from, to);
    ConvertIsRatio(c, v, from, to);
    RatioScales(m, a, v, from, to);
    calc {
      Convert(c, a * v, from, to).value;
      == Ratio(m, a * v, from, to).value;
      == a * Ratio(m, v, from, to).value;
      == a * Convert(c, v, from, to).value;
    }
  }

  /** ... and converting a sum is summing the conversions. */
  lemma ConvertAdds(c: Category, v: real, w: real, from: string, to: string)
    requires Known(c, from) && Known(c, to)
    ensures Convert(c, v + w, from, to).value
         == Convert(c, v, from, to).value + Convert(c, w, from, to).value
  {
    var m := Conversions[c];
    ConvertIsRatio(c, v + w, from, to);
    ConvertIsRatio(c, v, from, to);
    ConvertIsRatio(c, w, from, to);
    RatioAdds(m, v, w, from, to);
  }

  /** Inside a category that has factors, conversion is the ratio over that
      category's factors. */
  lemma ConvertIsRatio(c: Category, value: real, from: string, to: string)
    requires c in Conversions
    ensures Positive(Conversions[c])
    ensures Convert(c, value, from, to) == Ratio(Conversions[c], value, from, to)
  {
    TableValid(c);
  }

  lemma RatioScales(m: map<string, real>, a: real, v: real, from: string, to: string)
    requires Positive(m) && from in m && to in m
    ensures Ratio(m, a * v, from, to).value == a * Ratio(m, v, from, to).value
  {
    ScaleLinear(a, v, 0.0, m[to], m[from]);
  }

  lemma RatioAdds(m: map<string, real>, v: real, w: real, from: string, to: string)
    requires Positive(m) && from in m && to in m
    ensures Ratio(m, v + w, from, to).value == Ratio(m, v, from, to).value + Ratio(m, w, from, to).value
  {
    ScaleLinear(1.0, v, w, m[to], m[from]);
  }

  lemma ScaleLinear(a: real, v: real, w: real, num: real, den: real)
    requires den > 0.0
    ensures Scale(a * v, num, den) == a * Scale(v, num, den)
    ensures Scale(v + w, num, den) == Scale(v, num, den) + Scale(w, num, den)
  {
  }

  /** Positive factors preserve sign and order: a non-negative input gives a
      non-negative result, and a larger input a larger result. */
  lemma ConvertMonotone(c: Category, v: real, w: real, from: string, to: string)
    requires Known(c, from) && Known(c, to)
    ensures v >= 0.0 ==> Convert(c, v, from, to).value >= 0.0
    ensures v < w ==> Convert(c, v, from, to).value < Convert(c, w, from, to).value
  {
    TableValid(c);
    RatioMonotone(Conversions[c], v, w, from, to);
  }

  lemma RatioMonotone(m: map<string, real>, v: real, w: real, from: string, to: string)
    requires Positive(m) && from in m && to in m
    ensures v >= 0.0 ==> Ratio(m, v, from, to).value >= 0.0
    ensures v < w ==> Ratio(m, v, from, to).value < Ratio(m, w, from, to).value
  {
    ScaleMonotone(v, w, m[to], m[from]);
  }

  lemma ScaleMonotone(v: real, w: real, num: real, den: real)
    requires num > 0.0 && den > 0.0
    ensures v >= 0.0 ==> Scale(v, num, den) >= 0.0
    ensures v < w ==> Scale(v, num, den) < Scale(w, num, den)
  {
  }

  /** Two kilograms are 4.40924 pounds (4.4092 once shown to four places). */
  lemma KilogramToPound()
    ensures Convert(Weight, 2.0, "Kilogram", "Pound") == Success(4.40924)
  {
  }
}
