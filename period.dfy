/** A historical period of a country (models/Period.js): constructor defaults, duration,
    year membership and validation. */
module Periods {
  import opened Wrappers
  import opened Truthiness

  datatype Period = Period(
    id: Option<string>,
    countryId: Option<string>,
    name: Option<string>,
    nameEn: Option<string>,
    startYear: int,
    endYear: int,
    description: Option<string>,
    sortOrder: Option<int>)

  /** `new Period(data)`: `description` goes through `|| null`, `sortOrder` through `|| 0`. */
  function NewPeriod(data: Period): (p: Period)
    ensures p.description == OrNullStr(data.description)
    ensures p.sortOrder.Some? && (p.sortOrder.value == 0 <==> !TruthyInt(data.sortOrder))
    ensures TruthyInt(data.sortOrder) ==> p.sortOrder == data.sortOrder
    ensures p.(description := data.description, sortOrder := data.sortOrder) == data
  {
    data.(description := OrNullStr(data.description),
          sortOrder := Some(if TruthyInt(data.sortOrder) then data.sortOrder.value else 0))
  }

  /** `toDatabase` hands back every stored field, so reading the row again changes nothing. */
  lemma DatabaseRoundTrip(data: Period)
    ensures NewPeriod(NewPeriod(data)) == NewPeriod(data)
  {
  }

  function GetDuration(p: Period): int {
    p.endYear - p.startYear
  }

  /** `includesYear`: inclusive at both ends. */
  predicate IncludesYear(p: Period, year: int) {
    year >= p.startYear && year <= p.endYear
  }

  /** A year inside the period lies between zero and the duration past its start; both end
      years belong to a non-empty period. */
  lemma IncludesYearBounds(p: Period, year: int)
    ensures IncludesYear(p, year) <==> 0 <= year - p.startYear <= GetDuration(p) && year <= p.endYear
    ensures p.startYear <= p.endYear ==> IncludesYear(p, p.startYear) && IncludesYear(p, p.endYear)
  {
  }

  /** `validate`: id, country id and name must be truthy; when both years are non-zero the
      period must not end before it starts (equal years are accepted). */
  function Validate(p: Period): (r: Result<bool, string>)
    ensures r.Ok? <==> (&& TruthyStr(p.id) && TruthyStr(p.countryId) && TruthyStr(p.name)
                        && (p.startYear != 0 && p.endYear != 0 ==> p.startYear <= p.endYear))
    ensures r.Ok? ==> r.value
    ensures !(TruthyStr(p.id) && TruthyStr(p.countryId) && TruthyStr(p.name)) ==>
              r == Err("Period must have id, countryId and name")
    ensures (&& TruthyStr(p.id) && TruthyStr(p.countryId) && TruthyStr(p.name)
             && p.startYear != 0 && p.endYear != 0 && p.startYear > p.endYear) ==>
              r == Err("Period startYear must be less than endYear")
  {
    if !TruthyStr(p.id) || !TruthyStr(p.countryId) || !TruthyStr(p.name) then
      Err("Period must have id, countryId and name")
    else if p.startYear != 0 && p.endYear != 0 && p.startYear > p.endYear then
      Err("Period startYear must be less than endYear")
    else Ok(true)
  }

  /** A valid period with both years set contains its own start year. */
  lemma ValidPeriodContainsStart(p: Period)
    requires Validate(p).Ok? && p.startYear != 0 && p.endYear != 0
    ensures IncludesYear(p, p.startYear) && GetDuration(p) >= 0
  {
  }
}
