/** A ruler of the catalog hierarchy (models/Ruler.js): constructor defaults, the year
    arithmetic shown on the ruler screen, and validation. Reign years are whole numbers that
    every catalog ruler carries. */
module Rulers {
  import opened Wrappers
  import opened Truthiness

  datatype Ruler = Ruler(
    id: Option<string>,
    periodId: Option<string>,
    name: Option<string>,
    nameEn: Option<string>,
    title: Option<string>,
    startYear: int,
    endYear: int,
    birthYear: Option<int>,
    deathYear: Option<int>,
    description: Option<string>,
    imageUrl: Option<string>,
    sortOrder: Option<int>,
    succession: Option<string>,
    coinage: Option<string>)

  /** `new Ruler(data)`: identity, names and reign years are kept; the optional fields go
      through `|| null`, and `sortOrder` through `|| 0`. */
  function NewRuler(data: Ruler): (r: Ruler)
    ensures r.id == data.id && r.name == data.name && r.nameEn == data.nameEn
    ensures r.startYear == data.startYear && r.endYear == data.endYear
    ensures r.periodId == OrNullStr(data.periodId) && r.title == OrNullStr(data.title)
    ensures r.birthYear == OrNullInt(data.birthYear) && r.deathYear == OrNullInt(data.deathYear)
    ensures r.description == OrNullStr(data.description) && r.imageUrl == OrNullStr(data.imageUrl)
    ensures r.succession == OrNullStr(data.succession) && r.coinage == OrNullStr(data.coinage)
    ensures r.sortOrder.Some? && (r.sortOrder.value == 0 <==> !TruthyInt(data.sortOrder))
    ensures TruthyInt(data.sortOrder) ==> r.sortOrder == data.sortOrder
    ensures r.birthYear.Some? ==> r.birthYear.value != 0
  {
    data.(periodId := OrNullStr(data.periodId), title := OrNullStr(data.title),
          birthYear := OrNullInt(data.birthYear), deathYear := OrNullInt(data.deathYear),
          description := OrNullStr(data.description), imageUrl := OrNullStr(data.imageUrl),
          sortOrder := Some(if TruthyInt(data.sortOrder) then data.sortOrder.value else 0),
          succession := OrNullStr(data.succession), coinage := OrNullStr(data.coinage))
  }

  /** `toDatabase` followed by `fromDatabase` gives back the constructed ruler. */
  lemma DatabaseRoundTrip(data: Ruler)
    ensures NewRuler(NewRuler(data)) == NewRuler(data)
  {
  }

  function GetReignDuration(r: Ruler): int {
    r.endYear - r.startYear
  }

  /** `getAgeAtStart`: no age without a truthy birth year. */
  function GetAgeAtStart(r: Ruler): (age: Option<int>)
    ensures age.Some? <==> TruthyInt(r.birthYear)
    ensures age.Some? ==> r.birthYear.value + age.value == r.startYear
  {
    if !TruthyInt(r.birthYear) then None else Some(r.startYear - r.birthYear.value)
  }

  /** `getAgeAtEnd`: no age without a truthy birth year. */
  function GetAgeAtEnd(r: Ruler): (age: Option<int>)
    ensures age.Some? <==> TruthyInt(r.birthYear)
    ensures age.Some? ==> r.birthYear.value + age.value == r.endYear
  {
    if !TruthyInt(r.birthYear) then None else Some(r.endYear - r.birthYear.value)
  }

  /** The age at the end of the reign exceeds the age at its start by the reign's length. */
  lemma AgesSpanReign(r: Ruler)
    requires TruthyInt(r.birthYear)
    ensures GetAgeAtEnd(r).value - GetAgeAtStart(r).value == GetReignDuration(r)
  {
  }

  /** `getLifespan`: only when both birth and death years are truthy. */
  function GetLifespan(r: Ruler): (span: Option<int>)
    ensures span.Some? <==> TruthyInt(r.birthYear) && TruthyInt(r.deathYear)
    ensures span.Some? ==> r.birthYear.value + span.value == r.deathYear.value
  {
    if !TruthyInt(r.birthYear) || !TruthyInt(r.deathYear) then None
    else Some(r.deathYear.value - r.birthYear.value)
  }

  /** `validate`: id, period id and name must be truthy, and when both reign years are
      non-zero the reign must not end before it starts. */
  function Validate(r: Ruler): (res: Result<bool, string>)
    ensures res.Ok? <==> (&& TruthyStr(r.id) && TruthyStr(r.periodId) && TruthyStr(r.name)
                          && (r.startYear != 0 && r.endYear != 0 ==> r.startYear <= r.endYear))
    ensures res.Ok? ==> res.value
    ensures !(TruthyStr(r.id) && TruthyStr(r.periodId) && TruthyStr(r.name)) ==>
              res == Err("Ruler must have id, periodId and name")
    ensures (&& TruthyStr(r.id) && TruthyStr(r.periodId) && TruthyStr(r.name)
             && r.startYear != 0 && r.endYear != 0 && r.startYear > r.endYear) ==>
              res == Err("Ruler startYear must be less than endYear")
  {
    if !TruthyStr(r.id) || !TruthyStr(r.periodId) || !TruthyStr(r.name) then
      Err("Ruler must have id, periodId and name")
    else if r.startYear != 0 && r.endYear != 0 && r.startYear > r.endYear then
      Err("Ruler startYear must be less than endYear")
    else Ok(true)
  }

  /** A valid ruler whose reign years are both set reigns for a non-negative number of years. */
  lemma ValidReignIsNonNegative(r: Ruler)
    requires Validate(r).Ok? && r.startYear != 0 && r.endYear != 0
    ensures GetReignDuration(r) >= 0
  {
  }
}
