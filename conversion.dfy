/** Unit normalisation of the inventory layer (`inferConversionFactor`): a
    user-facing unit spelling and a canonical family give the multiplier to
    that family's base unit. Unknown spellings, cross-family pairs and the
    `count` family all fall back to 1. */
module Conversion {
  import opened Text
  import opened DatabaseTypes

  /** The spelling the alias table is matched against: trimmed, lower case. */
  function NormalizeUnit(u: string): string {
    ToLower(Trim(u))
  }

  /** Factors for the mass family (base unit: gram). */
  function MassFactor(u: string): (r: real)
    ensures r > 0.0
  {
    if u == "kg" || u == "kilogram" || u == "kilograms" then 1000.0
    else if u == "g" || u == "gram" || u == "grams" then 1.0
    else if u == "lb" || u == "lbs" || u == "pound" || u == "pounds" then 453.5924
    else if u == "oz" || u == "ounce" || u == "ounces" then 28.3495
    else 1.0
  }

  /** Factors for the volume family (base unit: millilitre). */
  function VolumeFactor(u: string): (r: real)
    ensures r > 0.0
  {
    if u == "l" || u == "liter" || u == "litre" || u == "liters" || u == "litres" then 1000.0
    else if u == "ml" || u == "milliliter" || u == "millilitre" || u == "milliliters" || u == "millilitres" then 1.0
    else if u == "cup" || u == "cups" then 236.588
    else if u == "tbsp" || u == "tablespoon" || u == "tablespoons" then 14.7868
    else if u == "tsp" || u == "teaspoon" || u == "teaspoons" then 4.92892
    else if u == "fl oz" || u == "floz" then 29.5735
    else 1.0
  }

  /** `inferConversionFactor(userUnit, standardUnit)`: never fails, always
      positive, and 1 for every `count` request. */
  function InferConversionFactor(userUnit: string, standardUnit: StandardUnit): (r: real)
    ensures r > 0.0
    ensures standardUnit == Count ==> r == 1.0
  {
    var u := NormalizeUnit(userUnit);
    if standardUnit == G then MassFactor(u)
    else if standardUnit == Ml then VolumeFactor(u)
    else 1.0
  }

  /** The recognised mass spellings and their factors to grams. */
  const MassAliases: map<string, real> := map[
    "kg" := 1000.0, "kilogram" := 1000.0, "kilograms" := 1000.0,
    "g" := 1.0, "gram" := 1.0, "grams" := 1.0,
    "lb" := 453.5924, "lbs" := 453.5924, "pound" := 453.5924, "pounds" := 453.5924,
    "oz" := 28.3495, "ounce" := 28.3495, "ounces" := 28.3495
  ]

  /** The recognised volume spellings and their factors to millilitres. */
  const VolumeAliases: map<string, real> := map[
    "l" := 1000.0, "liter" := 1000.0, "litre" := 1000.0, "liters" := 1000.0, "litres" := 1000.0,
    "ml" := 1.0, "milliliter" := 1.0, "millilitre" := 1.0, "milliliters" := 1.0, "millilitres" := 1.0,
    "cup" := 236.588, "cups" := 236.588,
    "tbsp" := 14.7868, "tablespoon" := 14.7868, "tablespoons" := 14.7868,
    "tsp" := 4.92892, "teaspoon" := 4.92892, "teaspoons" := 4.92892,
    "fl oz" := 29.5735, "floz" := 29.5735
  ]

  /** The factor the alias tables give: the listed factor when the normalised
      spelling is an alias of the requested family, otherwise 1. */
  function TableFactor(userUnit: string, standardUnit: StandardUnit): real {
    var u := NormalizeUnit(userUnit);
    match standardUnit
    case G => if u in MassAliases then MassAliases[u] else 1.0
    case Ml => if u in VolumeAliases then VolumeAliases[u] else 1.0
    case Count => 1.0
  }

  lemma {:induction false} MassFactorIsTable(u: string)
    ensures MassFactor(u) == (if u in MassAliases then MassAliases[u] else 1.0)
  {
  }

  lemma {:induction false} VolumeFactorIsTable(u: string)
    ensures VolumeFactor(u) == (if u in VolumeAliases then VolumeAliases[u] else 1.0)
  {
  }

  /** The if-chain agrees with the alias tables on every input: each alias maps
      to its listed factor under its own family, and every other pair
      (unknown spellings, an alias asked for under the other family, and
      every `count` request) gets 1. */
  lemma {:induction false} FactorMatchesAliasTable(userUnit: string, standardUnit: StandardUnit)
    ensures InferConversionFactor(userUnit, standardUnit) == TableFactor(userUnit, standardUnit)
  {
    MassFactorIsTable(NormalizeUnit(userUnit));
    VolumeFactorIsTable(NormalizeUnit(userUnit));
  }

  /** Mass spellings start with k, g, p, o or "lb". */
  lemma MassSpelling(u: string)
    requires u in MassAliases
    ensures |u| >= 1 && (u[0] in "kgpo" || (|u| >= 2 && u[..2] == "lb"))
  {
  }

  /** Volume spellings start with m, c, t, f, or are "l" or start with "li". */
  lemma VolumeSpelling(u: string)
    requires u in VolumeAliases
    ensures |u| >= 1 && (u[0] in "mctf" || u == "l" || (|u| >= 2 && u[..2] == "li"))
  {
  }

  /** No spelling is both a mass and a volume alias. */
  lemma {:induction false} AliasFamiliesDisjoint(u: string)
    ensures !(u in MassAliases && u in VolumeAliases)
  {
    if u in MassAliases {
      MassSpelling(u);
      if u in VolumeAliases {
        VolumeSpelling(u);
        assert false;
      }
    }
  }

  /** A mass spelling asked for as millilitres falls back to 1 ("kg" under ml). */
  lemma {:induction false} MassAliasUnderVolume(userUnit: string)
    requires NormalizeUnit(userUnit) in MassAliases
    ensures InferConversionFactor(userUnit, Ml) == 1.0
  {
    AliasFamiliesDisjoint(NormalizeUnit(userUnit));
    VolumeFactorIsTable(NormalizeUnit(userUnit));
  }

  /** A volume spelling asked for as grams falls back to 1 ("cup" under g). */
  lemma {:induction false} VolumeAliasUnderMass(userUnit: string)
    requires NormalizeUnit(userUnit) in VolumeAliases
    ensures InferConversionFactor(userUnit, G) == 1.0
  {
    AliasFamiliesDisjoint(NormalizeUnit(userUnit));
    MassFactorIsTable(NormalizeUnit(userUnit));
  }

  /** A trimmed string stays trimmed under lower-casing. */
  lemma {:induction false} LowerKeepsTrimmed(s: string)
    requires IsTrimmed(s)
    ensures IsTrimmed(ToLower(s))
  {
  }

  /** Normalising twice is normalising once. */
  lemma {:induction false} NormalizeIdempotent(u: string)
    ensures NormalizeUnit(NormalizeUnit(u)) == NormalizeUnit(u)
  {
    var l := ToLower(Trim(u));
    LowerKeepsTrimmed(Trim(u));
    TrimOfTrimmed(l);
    assert ToLower(l) == l;
  }

  /** Matching is case- and padding-insensitive: the factor depends on the
      spelling only through its normalised form. */
  lemma {:induction false} FactorIgnoresCaseAndPadding(userUnit: string, standardUnit: StandardUnit)
    ensures InferConversionFactor(userUnit, standardUnit)
         == InferConversionFactor(NormalizeUnit(userUnit), standardUnit)
  {
    NormalizeIdempotent(userUnit);
  }
}
