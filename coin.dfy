/** A coin of the read-only reference catalog (models/Coin.js): its stored fields, the
    constructor's defaults, the database row it converts to, and the derived predicates the
    catalog screens and the denomination grouping rely on. */
module Coins {
  import opened Wrappers
  import opened Truthiness
  import opened Text

  /** The fields of a catalog coin. The same shape serves as the constructor's input (any
      field may be missing) and as the constructed object (after the defaults). */
  datatype Coin = Coin(
    id: Option<string>,
    rulerId: Option<string>,
    catalogNumber: Option<string>,
    name: Option<string>,
    nameEn: Option<string>,
    year: Option<int>,
    denomination: Option<string>,
    denominationValue: Option<real>,
    currency: Option<string>,
    metal: Option<string>,
    weight: Option<real>,
    diameter: Option<real>,
    mint: Option<string>,
    mintMark: Option<string>,
    mintage: Option<int>,
    rarity: Option<string>,
    rarityScore: Option<int>,
    estimatedValueMin: Option<real>,
    estimatedValueMax: Option<real>,
    obverseImage: Option<string>,
    reverseImage: Option<string>,
    description: Option<string>,
    ruler: Option<string>,
    rulerEn: Option<string>)

  /** The object `toDatabase` returns: every catalog field, without the joined ruler names. */
  datatype CoinRow = CoinRow(
    id: Option<string>,
    rulerId: Option<string>,
    catalogNumber: Option<string>,
    name: Option<string>,
    nameEn: Option<string>,
    year: Option<int>,
    denomination: Option<string>,
    denominationValue: Option<real>,
    currency: Option<string>,
    metal: Option<string>,
    weight: Option<real>,
    diameter: Option<real>,
    mint: Option<string>,
    mintMark: Option<string>,
    mintage: Option<int>,
    rarity: Option<string>,
    rarityScore: Option<int>,
    estimatedValueMin: Option<real>,
    estimatedValueMax: Option<real>,
    obverseImage: Option<string>,
    reverseImage: Option<string>,
    description: Option<string>)

  datatype Metal = Gold | Silver | Copper | Platinum | Other

  /** `new Coin(data)`: id, rulerId, name, year and denomination are kept as given; every
      other field goes through `|| null`. */
  function NewCoin(data: Coin): Coin {
    Coin(
      data.id, data.rulerId, OrNullStr(data.catalogNumber), data.name,
      OrNullStr(data.nameEn), data.year, data.denomination,
      OrNullReal(data.denominationValue), OrNullStr(data.currency), OrNullStr(data.metal),
      OrNullReal(data.weight), OrNullReal(data.diameter), OrNullStr(data.mint),
      OrNullStr(data.mintMark), OrNullInt(data.mintage), OrNullStr(data.rarity),
      OrNullInt(data.rarityScore), OrNullReal(data.estimatedValueMin),
      OrNullReal(data.estimatedValueMax), OrNullStr(data.obverseImage),
      OrNullStr(data.reverseImage), OrNullStr(data.description), OrNullStr(data.ruler),
      OrNullStr(data.rulerEn))
  }

  /** The fields a constructed coin holds: no optional field is falsy but present. */
  predicate Constructed(c: Coin) {
    && NormalStr(c.catalogNumber) && NormalStr(c.nameEn) && NormalReal(c.denominationValue)
    && NormalStr(c.currency) && NormalStr(c.metal) && NormalReal(c.weight)
    && NormalReal(c.diameter) && NormalStr(c.mint) && NormalStr(c.mintMark)
    && NormalInt(c.mintage) && NormalStr(c.rarity) && NormalInt(c.rarityScore)
    && NormalReal(c.estimatedValueMin) && NormalReal(c.estimatedValueMax)
    && NormalStr(c.obverseImage) && NormalStr(c.reverseImage) && NormalStr(c.description)
    && NormalStr(c.ruler) && NormalStr(c.rulerEn)
  }

  /** The constructor's output has no present-but-falsy optional field, and constructing
      again from it changes nothing. */
  lemma NewCoinNormalizes(data: Coin)
    ensures Constructed(NewCoin(data))
    ensures NewCoin(NewCoin(data)) == NewCoin(data)
  {
    var c := NewCoin(data);
    assert Constructed(c);
    ConstructedIsFixed(c);
  }

  /** The constructor leaves a coin with no present-but-falsy optional field as it is. */
  lemma ConstructedIsFixed(c: Coin)
    requires Constructed(c)
    ensures NewCoin(c) == c
  {
  }

  function ToDatabase(c: Coin): CoinRow {
    CoinRow(
      c.id, c.rulerId, c.catalogNumber, c.name, c.nameEn, c.year, c.denomination,
      c.denominationValue, c.currency, c.metal, c.weight, c.diameter, c.mint, c.mintMark,
      c.mintage, c.rarity, c.rarityScore, c.estimatedValueMin, c.estimatedValueMax,
      c.obverseImage, c.reverseImage, c.description)
  }

  /** `Coin.fromDatabase(row)`: the constructor applied to a row, which has no ruler names. */
  function FromDatabase(row: CoinRow): Coin {
    NewCoin(Coin(
      row.id, row.rulerId, row.catalogNumber, row.name, row.nameEn, row.year,
      row.denomination, row.denominationValue, row.currency, row.metal, row.weight,
      row.diameter, row.mint, row.mintMark, row.mintage, row.rarity, row.rarityScore,
      row.estimatedValueMin, row.estimatedValueMax, row.obverseImage, row.reverseImage,
      row.description, None, None))
  }

  /** Storing a constructed coin and reading it back gives the same coin, except for the
      joined ruler names, which the row does not carry. */
  lemma DatabaseRoundTrip(data: Coin)
    ensures FromDatabase(ToDatabase(NewCoin(data))) == NewCoin(data).(ruler := None, rulerEn := None)
  {
  }

  /** `getEstimatedValue`: the midpoint of the estimate, when both bounds are truthy. */
  function GetEstimatedValue(c: Coin): (r: Option<real>)
    ensures r.Some? <==> TruthyReal(c.estimatedValueMin) && TruthyReal(c.estimatedValueMax)
    ensures r.Some? && c.estimatedValueMin.value <= c.estimatedValueMax.value ==>
              c.estimatedValueMin.value <= r.value <= c.estimatedValueMax.value
    ensures r.Some? ==> r.value - c.estimatedValueMin.value == c.estimatedValueMax.value - r.value
  {
    if !TruthyReal(c.estimatedValueMin) || !TruthyReal(c.estimatedValueMax) then None
    else Some((c.estimatedValueMin.value + c.estimatedValueMax.value) / 2.0)
  }

  /** `getEstimatedValueRange`: the two bounds the "min-max" text is made of, under the same
      condition as the estimated value. */
  function GetEstimatedValueRange(c: Coin): (r: Option<(real, real)>)
    ensures r.Some? <==> GetEstimatedValue(c).Some?
    ensures r.Some? ==> r.value == (c.estimatedValueMin.value, c.estimatedValueMax.value)
  {
    if !TruthyReal(c.estimatedValueMin) || !TruthyReal(c.estimatedValueMax) then None
    else Some((c.estimatedValueMin.value, c.estimatedValueMax.value))
  }

  /** `isRare`: a truthy rarity score of at least 7. */
  predicate IsRare(c: Coin) {
    TruthyInt(c.rarityScore) && c.rarityScore.value >= 7
  }

  /** `isVeryRare`: a truthy rarity score of at least 9. */
  predicate IsVeryRare(c: Coin) {
    TruthyInt(c.rarityScore) && c.rarityScore.value >= 9
  }

  /** Every very rare coin is rare; a score of 7 or 8 is rare but not very rare. */
  lemma VeryRareIsRare(c: Coin)
    ensures IsVeryRare(c) ==> IsRare(c)
    ensures IsRare(c) && !IsVeryRare(c) <==> c.rarityScore.Some? && 7 <= c.rarityScore.value < 9
  {
  }

  predicate NamesGold(m: string) { Contains(m, "золото") || Contains(m, "gold") }
  predicate NamesSilver(m: string) { Contains(m, "серебро") || Contains(m, "silver") }
  predicate NamesCopper(m: string) { Contains(m, "медь") || Contains(m, "copper") }
  predicate NamesPlatinum(m: string) { Contains(m, "платина") || Contains(m, "platinum") }

  /** `getMetalType`: the lower-cased metal name is searched for gold, then silver, then
      copper, then platinum, in Russian or English; anything else is "other". */
  function GetMetalType(c: Coin): (r: Option<Metal>)
    ensures r.None? <==> !TruthyStr(c.metal)
    ensures r == Some(Gold) <==> TruthyStr(c.metal) && NamesGold(Lower(c.metal.value))
    ensures r == Some(Silver) <==>
              TruthyStr(c.metal) && !NamesGold(Lower(c.metal.value)) && NamesSilver(Lower(c.metal.value))
    ensures r == Some(Copper) <==>
              && TruthyStr(c.metal) && !NamesGold(Lower(c.metal.value)) && !NamesSilver(Lower(c.metal.value))
              && NamesCopper(Lower(c.metal.value))
    ensures r == Some(Platinum) <==>
              && TruthyStr(c.metal) && !NamesGold(Lower(c.metal.value)) && !NamesSilver(Lower(c.metal.value))
              && !NamesCopper(Lower(c.metal.value)) && NamesPlatinum(Lower(c.metal.value))
    ensures r == Some(Other) <==>
              && TruthyStr(c.metal) && !NamesGold(Lower(c.metal.value)) && !NamesSilver(Lower(c.metal.value))
              && !NamesCopper(Lower(c.metal.value)) && !NamesPlatinum(Lower(c.metal.value))
  {
    if !TruthyStr(c.metal) then None
    else
      var m := Lower(c.metal.value);
      if NamesGold(m) then Some(Gold)
      else if NamesSilver(m) then Some(Silver)
      else if NamesCopper(m) then Some(Copper)
      else if NamesPlatinum(m) then Some(Platinum)
      else Some(Other)
  }

  /** The six name fragments that mark a commemorative issue. */
  const CommemorativeMarks: seq<string> :=
    ["коронация", "памят", "юбилей", "бородино", "романов", "гангут"]

  /** `isCommemorative`: a truthy name whose lower-cased form contains one of the marks. */
  predicate IsCommemorative(c: Coin) {
    TruthyStr(c.name) && exists k :: 0 <= k < |CommemorativeMarks| && Contains(Lower(c.name.value), CommemorativeMarks[k])
  }

  /** Example: a coin named after a coronation is commemorative; a coin without a name never is. */
  lemma CommemorativeExamples(c: Coin)
    ensures !TruthyStr(c.name) ==> !IsCommemorative(c)
    ensures c.name == Some("коронация") ==> IsCommemorative(c)
  {
    if c.name == Some("коронация") {
      LowerOfCyrillic("коронация");
      assert StartsWith("коронация", CommemorativeMarks[0]);
    }
  }

  /** The test ignores case: a name and its lower-case form are classified alike. */
  lemma CommemorativeIgnoresCase(c: Coin)
    requires TruthyStr(c.name)
    ensures IsCommemorative(c) <==> IsCommemorative(c.(name := Some(Lower(c.name.value))))
  {
    LowerIdempotent(c.name.value);
  }

  /** `validate(currentYear)`: id, ruler id and name must be truthy, and a truthy year must lie
      between 1000 and the current year. */
  function Validate(c: Coin, currentYear: int): (r: Result<bool, string>)
    ensures r.Ok? <==> (&& TruthyStr(c.id) && TruthyStr(c.rulerId) && TruthyStr(c.name)
                        && (TruthyInt(c.year) ==> 1000 <= c.year.value <= currentYear))
    ensures r.Ok? ==> r.value
    ensures !(TruthyStr(c.id) && TruthyStr(c.rulerId) && TruthyStr(c.name)) ==>
              r == Err("Coin must have id, rulerId and name")
    ensures (&& TruthyStr(c.id) && TruthyStr(c.rulerId) && TruthyStr(c.name)
             && TruthyInt(c.year) && !(1000 <= c.year.value <= currentYear)) ==>
              r == Err("Coin year is invalid")
  {
    if !TruthyStr(c.id) || !TruthyStr(c.rulerId) || !TruthyStr(c.name) then
      Err("Coin must have id, rulerId and name")
    else if TruthyInt(c.year) && (c.year.value < 1000 || c.year.value > currentYear) then
      Err("Coin year is invalid")
    else Ok(true)
  }
}
