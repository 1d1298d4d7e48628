/** A country at the top of the catalog hierarchy (models/Country.js). */
module Countries {
  import opened Wrappers
  import opened Truthiness

  datatype Country = Country(
    id: Option<string>,
    name: Option<string>,
    nameEn: Option<string>,
    description: Option<string>)

  /** `new Country(data)`: only `description` has a default, `null`. */
  function NewCountry(data: Country): (c: Country)
    ensures c.description.None? <==> !TruthyStr(data.description)
    ensures TruthyStr(data.description) ==> c.description == data.description
    ensures c.(description := data.description) == data
  {
    data.(description := OrNullStr(data.description))
  }

  /** `toDatabase`: exactly the four constructor fields. */
  function ToDatabase(c: Country): Country {
    Country(c.id, c.name, c.nameEn, c.description)
  }

  /** A stored country read back through the constructor is unchanged. */
  lemma DatabaseRoundTrip(data: Country)
    ensures NewCountry(ToDatabase(NewCountry(data))) == NewCountry(data)
  {
  }

  /** `validate`: both id and name must be truthy. */
  function Validate(c: Country): (r: Result<bool, string>)
    ensures r.Ok? <==> TruthyStr(c.id) && TruthyStr(c.name)
    ensures r.Ok? ==> r.value
    ensures r.Err? ==> r.error == "Country must have id and name"
  {
    if !TruthyStr(c.id) || !TruthyStr(c.name) then Err("Country must have id and name")
    else Ok(true)
  }
}
