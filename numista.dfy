/** The client of the Numista catalogue used to import coins (services/NumistaService.js):
    the monthly request budget, the search parameters, the paged harvest of one country's
    coins and the conversion of a Numista type into a catalog document. Each request's
    outcome is a parameter: what the HTTP call would have returned, or its error. */
module Numista {
  import opened Wrappers
  import opened Truthiness
  import opened Text
  import Coins
  import opened Sequences

  /** Requests allowed per month. */
  const MaxRequests: nat := 2000
  /** Results per page, the most the search accepts. */
  const PageSize: int := 50
  /** The harvest stops after this many pages. */
  const MaxPages: nat := 10

  const KeyMissing := "Numista API key is not configured"
  const LimitExceeded := "Превышен лимит запросов к Numista API"

  /** The fields of a Numista coin type the application reads. */
  datatype NumistaCoin = NumistaCoin(
    id: Option<int>,
    title: Option<string>,
    minYear: Option<int>,
    maxYear: Option<int>,
    composition: Option<string>,
    rarity: Option<string>,
    weight: Option<real>,
    diameter: Option<real>,
    mint: Option<string>,
    obverseThumbnail: Option<string>,
    reverseThumbnail: Option<string>)

  /** A page of search results: the `types` array, possibly absent. */
  datatype SearchPage = SearchPage(types: Option<seq<NumistaCoin>>)

  /** The outcome of one request: its result and the request counter afterwards. */
  datatype Outcome = Outcome(result: Result<SearchPage, string>, count: nat)

  /** `makeRequest`: no key or an exhausted budget fail before anything is sent and leave the
      counter alone; otherwise the response is returned and the counter grows by one exactly
      when the request succeeded. */
  function Attempt(apiKey: string, count: nat, response: Result<SearchPage, string>): (o: Outcome)
    ensures apiKey == "" ==> o == Outcome(Err(KeyMissing), count)
    ensures apiKey != "" && count >= MaxRequests ==> o == Outcome(Err(LimitExceeded), count)
    ensures apiKey != "" && count < MaxRequests ==> o.result == response
    ensures o.count == if o.result.Ok? then count + 1 else count
    ensures o.result.Ok? ==> o.count <= MaxRequests
  {
    if apiKey == "" then Outcome(Err(KeyMissing), count)
    else if count >= MaxRequests then Outcome(Err(LimitExceeded), count)
    else if response.Ok? then Outcome(response, count + 1)
    else Outcome(response, count)
  }

  /** The filters `searchCoins` accepts; any may be missing. */
  datatype Filters = Filters(issuer: Option<string>, year: Option<int>, ruler: Option<string>,
                             page: Option<int>, count: Option<int>)

  /** The query parameters of a search; an absent optional one is not sent. */
  datatype SearchParams = SearchParams(page: int, count: int, issuer: Option<string>,
                                       year: Option<int>, ruler: Option<string>)

  /** The parameters `searchCoins` builds: page 1 by default, at most 50 results (50 by
      default), and issuer, year and ruler only when truthy. */
  function BuildSearchParams(f: Filters): (p: SearchParams)
    ensures p.page == if TruthyInt(f.page) then f.page.value else 1
    ensures p.count <= PageSize
    ensures !TruthyInt(f.count) ==> p.count == PageSize
    ensures TruthyInt(f.count) && f.count.value <= PageSize ==> p.count == f.count.value
    ensures TruthyInt(f.count) && f.count.value > PageSize ==> p.count == PageSize
    ensures p.issuer.Some? <==> TruthyStr(f.issuer)
    ensures p.year.Some? <==> TruthyInt(f.year)
    ensures p.ruler.Some? <==> TruthyStr(f.ruler)
    ensures p.issuer.Some? ==> p.issuer == f.issuer
    ensures p.year.Some? ==> p.year == f.year
    ensures p.ruler.Some? ==> p.ruler == f.ruler
  {
    var requested := if TruthyInt(f.count) then f.count.value else PageSize;
    SearchParams(
      if TruthyInt(f.page) then f.page.value else 1,
      if requested < PageSize then requested else PageSize,
      OrNullStr(f.issuer), OrNullInt(f.year), OrNullStr(f.ruler))
  }

  /** The filters of page `page` of the harvest: one country, full pages. */
  function HarvestFilters(page: int): Filters {
    Filters(Some("russia"), None, None, Some(page), Some(PageSize))
  }

  /** The year a harvested type is dated by: its first year, or its last when the first is
      missing or zero. */
  function TypeYear(c: NumistaCoin): Option<int> {
    if TruthyInt(c.minYear) then c.minYear else c.maxYear
  }

  /** A type dated within the reign. A type with no year at all is left out. */
  predicate InReign(c: NumistaCoin, startYear: int, endYear: int) {
    TypeYear(c).Some? && startYear <= TypeYear(c).value <= endYear
  }

  /** The test of the reign filter. */
  function InReignOf(startYear: int, endYear: int): NumistaCoin -> bool {
    (c: NumistaCoin) => InReign(c, startYear, endYear)
  }

  /** The types of a page dated within the reign, in page order. */
  function InReignTypes(types: seq<NumistaCoin>, startYear: int, endYear: int): (r: seq<NumistaCoin>)
    ensures |r| <= |types|
    ensures r == Select(types, InReignOf(startYear, endYear))
    ensures forall i :: 0 <= i < |r| ==> InReign(r[i], startYear, endYear) && r[i] in types
    ensures forall c :: c in types && InReign(c, startYear, endYear) ==> c in r
  {
    if types == [] then []
    else
      var rest := InReignTypes(types[1..], startYear, endYear);
      assert forall c :: c in types ==> c == types[0] || c in types[1..];
      if InReign(types[0], startYear, endYear) then [types[0]] + rest else rest
  }

  /** What the harvest gathers and the request counter at the end. */
  datatype Harvest = Harvest(coins: seq<NumistaCoin>, count: nat)

  /** What the harvest takes from one response: nothing, and no next page, after a failed
      request or a missing or empty `types` array; otherwise the types dated within the
      reign, and a next page exactly when this one was full. */
  datatype PageRead = PageRead(found: seq<NumistaCoin>, more: bool)

  function ReadPage(r: Result<SearchPage, string>, startYear: int, endYear: int): PageRead {
    if r.Err? || r.value.types.None? || r.value.types.value == [] then PageRead([], false)
    else PageRead(InReignTypes(r.value.types.value, startYear, endYear), |r.value.types.value| == PageSize)
  }

  /** `searchRussianEmpireCoins` from page `page` on: a request per page while pages remain
      (at most 10 in all); a failed request, a missing or empty `types` array, or a page of
      fewer than 50 types ends it; each page contributes its types dated within the reign. */
  function FetchPages(apiKey: string, count: nat, pages: int -> Result<SearchPage, string>,
                      startYear: int, endYear: int, page: nat): Harvest
    decreases MaxPages + 1 - page
  {
    if page > MaxPages then Harvest([], count)
    else
      var o := Attempt(apiKey, count, pages(page));
      var p := ReadPage(o.result, startYear, endYear);
      var rest := if p.more then FetchPages(apiKey, o.count, pages, startYear, endYear, page + 1)
                  else Harvest([], o.count);
      Harvest(p.found + rest.coins, rest.count)
  }

  /** One page of the harvest: with `acc` gathered before page `page` and the page read as
      `found` and `more`, the pages after it complete the same total. */
  lemma FetchPagesStep(apiKey: string, count: nat, pages: int -> Result<SearchPage, string>,
                       startYear: int, endYear: int, page: nat, acc: seq<NumistaCoin>,
                       found: seq<NumistaCoin>, more: bool, total: Harvest)
    requires page <= MaxPages
    requires var h := FetchPages(apiKey, count, pages, startYear, endYear, page);
             Harvest(acc + h.coins, h.count) == total
    requires PageRead(found, more) == ReadPage(Attempt(apiKey, count, pages(page)).result, startYear, endYear)
    ensures var c := Attempt(apiKey, count, pages(page)).count;
            && (more ==> var h := FetchPages(apiKey, c, pages, startYear, endYear, page + 1);
                         Harvest((acc + found) + h.coins, h.count) == total)
            && (!more ==> Harvest(acc + found, c) == total)
  {
    var c := Attempt(apiKey, count, pages(page)).count;
    var rest := if more then FetchPages(apiKey, c, pages, startYear, endYear, page + 1) else Harvest([], c);
    assert acc + (found + rest.coins) == (acc + found) + rest.coins;
    if !more {
      assert (acc + found) + [] == acc + found;
    }
  }

  /** From page `page` on, the harvest sends at most one request per remaining page. */
  lemma {:induction false} FetchPagesRequests(apiKey: string, count: nat, pages: int -> Result<SearchPage, string>,
                                              startYear: int, endYear: int, page: nat)
    requires 1 <= page
    ensures var h := FetchPages(apiKey, count, pages, startYear, endYear, page);
            count <= h.count <= count + (if page <= MaxPages then MaxPages + 1 - page else 0)
    decreases MaxPages + 1 - page
  {
    if page <= MaxPages {
      var o := Attempt(apiKey, count, pages(page));
      if ReadPage(o.result, startYear, endYear).more {
        FetchPagesRequests(apiKey, o.count, pages, startYear, endYear, page + 1);
      }
    }
  }

  /** A harvest that starts within the monthly budget ends within it. */
  lemma {:induction false} FetchPagesWithinBudget(apiKey: string, count: nat, pages: int -> Result<SearchPage, string>,
                                                  startYear: int, endYear: int, page: nat)
    requires count <= MaxRequests
    ensures FetchPages(apiKey, count, pages, startYear, endYear, page).count <= MaxRequests
    decreases MaxPages + 1 - page
  {
    if page <= MaxPages {
      var o := Attempt(apiKey, count, pages(page));
      if ReadPage(o.result, startYear, endYear).more {
        FetchPagesWithinBudget(apiKey, o.count, pages, startYear, endYear, page + 1);
      }
    }
  }

  /** Every type of `cs` is dated within the reign. */
  predicate AllInReign(cs: seq<NumistaCoin>, startYear: int, endYear: int) {
    forall i :: 0 <= i < |cs| ==> InReign(cs[i], startYear, endYear)
  }

  lemma AllInReignAppend(a: seq<NumistaCoin>, b: seq<NumistaCoin>, startYear: int, endYear: int)
    requires AllInReign(a, startYear, endYear) && AllInReign(b, startYear, endYear)
    ensures AllInReign(a + b, startYear, endYear)
  {
    forall i | 0 <= i < |a + b|
      ensures InReign((a + b)[i], startYear, endYear)
    {
      if i < |a| {
        assert (a + b)[i] == a[i];
      } else {
        assert (a + b)[i] == b[i - |a|];
      }
    }
  }

  /** Every harvested type is dated within the reign, and without a key nothing is
      harvested and nothing is counted. */
  lemma {:induction false} FetchPagesInReign(apiKey: string, count: nat, pages: int -> Result<SearchPage, string>,
                                             startYear: int, endYear: int, page: nat)
    ensures AllInReign(FetchPages(apiKey, count, pages, startYear, endYear, page).coins, startYear, endYear)
    ensures apiKey == "" ==> FetchPages(apiKey, count, pages, startYear, endYear, page) == Harvest([], count)
    decreases MaxPages + 1 - page
  {
    if page <= MaxPages {
      var o := Attempt(apiKey, count, pages(page));
      var p := ReadPage(o.result, startYear, endYear);
      if p.more {
        FetchPagesInReign(apiKey, o.count, pages, startYear, endYear, page + 1);
      }
      var rest := if p.more then FetchPages(apiKey, o.count, pages, startYear, endYear, page + 1)
                  else Harvest([], o.count);
      AllInReignAppend(p.found, rest.coins, startYear, endYear);
      if apiKey == "" {
        assert p.found + rest.coins == [];
      }
    }
  }

  /** The stems the importer looks for, in English and Russian. */
  predicate MentionsGold(comp: string) { Contains(comp, "gold") || Contains(comp, "золот") }
  predicate MentionsSilver(comp: string) { Contains(comp, "silver") || Contains(comp, "серебр") }
  predicate MentionsCopper(comp: string) { Contains(comp, "copper") || Contains(comp, "медь") }

  /** The metal written into the catalog: gold before silver before copper, by English or
      Russian stem in the lower-cased composition; 'Неизвестно' when none matches or there is
      no composition. */
  function MetalName(composition: Option<string>): (m: string)
    ensures !TruthyStr(composition) ==> m == "Неизвестно"
    ensures m == "Золото" <==> TruthyStr(composition) && MentionsGold(Lower(composition.value))
    ensures m == "Серебро" <==>
              && TruthyStr(composition) && !MentionsGold(Lower(composition.value))
              && MentionsSilver(Lower(composition.value))
    ensures m == "Медь" <==>
              && TruthyStr(composition) && !MentionsGold(Lower(composition.value))
              && !MentionsSilver(Lower(composition.value)) && MentionsCopper(Lower(composition.value))
    ensures m in {"Золото", "Серебро", "Медь", "Неизвестно"}
  {
    if !TruthyStr(composition) then "Неизвестно"
    else
      var comp := Lower(composition.value);
      if MentionsGold(comp) then "Золото"
      else if MentionsSilver(comp) then "Серебро"
      else if MentionsCopper(comp) then "Медь"
      else "Неизвестно"
  }

  /** The rarity label and score given to an imported coin. */
  datatype Rarity = Rarity(grade: string, score: int)

  /** The rarity mapping as written: "common" first, then any mention of "rare"; the
      "very rare" and "extremely rare" tests come after the "rare" one. */
  function RarityOf(rarity: Option<string>): Rarity {
    if !TruthyStr(rarity) then Rarity("Common", 3)
    else
      var r := Lower(rarity.value);
      if Contains(r, "common") then Rarity("Common", 3)
      else if Contains(r, "rare") then Rarity("R", 6)
      else if Contains(r, "very rare") then Rarity("R1", 7)
      else if Contains(r, "extremely rare") then Rarity("R2", 8)
      else Rarity("Common", 3)
  }

  /** Whatever contains "very rare" or "extremely rare" contains "rare", so the R1 and R2
      labels are never given: every rarity is Common/3 or R/6, and R/6 exactly for a
      mention of "rare" without "common". */
  lemma RarityLabels(rarity: Option<string>)
    ensures RarityOf(rarity) in {Rarity("Common", 3), Rarity("R", 6)}
    ensures RarityOf(rarity) == Rarity("R", 6) <==>
              TruthyStr(rarity) && !Contains(Lower(rarity.value), "common") && Contains(Lower(rarity.value), "rare")
  {
    if TruthyStr(rarity) {
      var r := Lower(rarity.value);
      if !Contains(r, "common") && !Contains(r, "rare") {
        SuffixOccurrence(r, "very ", "rare");
        assert "very " + "rare" == "very rare";
        SuffixOccurrence(r, "extremely ", "rare");
        assert "extremely " + "rare" == "extremely rare";
      }
    }
  }

  /** Where `pre + sub` occurs, `sub` occurs. */
  lemma SuffixOccurrence(s: string, pre: string, sub: string)
    ensures Contains(s, pre + sub) ==> Contains(s, sub)
  {
    if Contains(s, pre + sub) {
      ContainsIff(s, pre + sub);
      var i :| OccursAt(s, pre + sub, i);
      assert s[i + |pre|..i + |pre| + |sub|] == (pre + sub)[|pre|..];
      assert OccursAt(s, sub, i + |pre|);
      ContainsIff(s, sub);
    }
  }

  /** The decimal form of an optional id, as a template literal prints it. */
  function IdText(id: Option<int>): string {
    if id.Some? then IntToString(id.value) else "undefined"
  }

  /** The document `convertToFirestoreFormat` builds; the parsed face value is not part of
      this model. */
  datatype ImportedCoin = ImportedCoin(
    id: string,
    rulerId: string,
    name: string,
    year: int,
    denomination: string,
    metal: string,
    weight: real,
    diameter: real,
    mint: string,
    rarity: string,
    rarityScore: int,
    estimatedValueMin: real,
    estimatedValueMax: real,
    numistaId: Option<int>,
    numistaUrl: string,
    imageObverse: Option<string>,
    imageReverse: Option<string>,
    source: string,
    updatedAt: int)

  /** `convertToFirestoreFormat(numistaCoin, rulerId)` at time `now`. */
  function ConvertToFirestoreFormat(c: NumistaCoin, rulerId: string, now: int): (r: ImportedCoin)
    ensures r.id == "numista-" + IdText(c.id) && r.source == "numista"
    ensures r.name != "" && (TruthyStr(c.title) ==> r.name == c.title.value && r.denomination == c.title.value)
    ensures !TruthyStr(c.title) ==> r.name == "Без названия" && r.denomination == ""
    ensures r.year == if TruthyInt(c.minYear) then c.minYear.value else if TruthyInt(c.maxYear) then c.maxYear.value else 0
    ensures r.rulerId == rulerId && r.numistaId == c.id && r.updatedAt == now
    ensures r.metal == MetalName(c.composition)
    ensures r.rarity == RarityOf(c.rarity).grade && r.rarityScore == RarityOf(c.rarity).score
    ensures r.weight == (if c.weight.Some? then c.weight.value else 0.0)
    ensures r.diameter == (if c.diameter.Some? then c.diameter.value else 0.0)
    ensures r.mint == (if TruthyStr(c.mint) then c.mint.value else "")
    ensures r.numistaUrl == "https://ru.numista.com/catalogue/pieces" + IdText(c.id) + ".html"
    ensures r.imageObverse == OrNullStr(c.obverseThumbnail) && r.imageReverse == OrNullStr(c.reverseThumbnail)
    ensures r.estimatedValueMin == 0.0 && r.estimatedValueMax == 0.0
  {
    var rarity := RarityOf(c.rarity);
    ImportedCoin(
      "numista-" + IdText(c.id),
      rulerId,
      if TruthyStr(c.title) then c.title.value else "Без названия",
      if TruthyInt(c.minYear) then c.minYear.value else if TruthyInt(c.maxYear) then c.maxYear.value else 0,
      if TruthyStr(c.title) then c.title.value else "",
      MetalName(c.composition),
      c.weight.GetOr(0.0),
      c.diameter.GetOr(0.0),
      if TruthyStr(c.mint) then c.mint.value else "",
      rarity.grade,
      rarity.score,
      0.0,
      0.0,
      c.id,
      "https://ru.numista.com/catalogue/pieces" + IdText(c.id) + ".html",
      OrNullStr(c.obverseThumbnail),
      OrNullStr(c.reverseThumbnail),
      "numista",
      now)
  }

  /** The catalog coin `new Coin(doc)` makes of an imported document: the fields whose names
      the catalog shares; the Numista-only fields are not read. */
  function ToCatalogCoin(d: ImportedCoin): Coins.Coin {
    Coins.NewCoin(Coins.Coin(
      Some(d.id), Some(d.rulerId), None, Some(d.name), None, Some(d.year), Some(d.denomination),
      None, None, Some(d.metal), Some(d.weight), Some(d.diameter), Some(d.mint), None, None,
      Some(d.rarity), Some(d.rarityScore), Some(d.estimatedValueMin), Some(d.estimatedValueMax),
      None, None, None, None, None))
  }

  /** Example: the catalog reads the importer's gold name as gold. */
  lemma GoldNameRead()
    ensures Coins.NamesGold(Lower("Золото"))
  {
    assert Lower("Золото") == "золото";
    assert StartsWith("золото", "золото");
  }

  /** Example: neither gold stem occurs in "серебро": no position of it starts with 'з' or 'g'. */
  lemma NoGoldInSilver()
    ensures !Coins.NamesGold("серебро")
  {
    var m := "серебро";
    forall i | OccursAt(m, "золото", i)
      ensures m[i] == 'з'
    {
      assert m[i..i + 6][0] == m[i];
    }
    forall i | OccursAt(m, "gold", i)
      ensures m[i] == 'g'
    {
      assert m[i..i + 4][0] == m[i];
    }
    ContainsIff(m, "золото");
    ContainsIff(m, "gold");
  }

  /** Example: the catalog reads the importer's silver name as silver and not as gold. */
  lemma SilverNameRead()
    ensures !Coins.NamesGold(Lower("Серебро")) && Coins.NamesSilver(Lower("Серебро"))
  {
    assert Lower("Серебро") == "серебро";
    assert StartsWith("серебро", "серебро");
    NoGoldInSilver();
  }

  /** The metal names the importer writes are the ones the catalog recognises: an imported
      gold coin reads back as gold, a silver one as silver. */
  lemma ImportedMetalRecognised(c: NumistaCoin, rulerId: string, now: int)
    ensures var metal := Coins.GetMetalType(ToCatalogCoin(ConvertToFirestoreFormat(c, rulerId, now)));
            (MetalName(c.composition) == "Золото" ==> metal == Some(Coins.Gold))
            && (MetalName(c.composition) == "Серебро" ==> metal == Some(Coins.Silver))
  {
    var coin := ToCatalogCoin(ConvertToFirestoreFormat(c, rulerId, now));
    assert coin.metal == Some(MetalName(c.composition));
    GoldNameRead();
    SilverNameRead();
  }

  /** An imported coin is never rare in the catalog's sense, since the importer's scores stop
      at 6; and it passes the catalog's validation exactly when it has a ruler and its year is
      0 or a plausible one. */
  lemma ImportedCoinInCatalog(c: NumistaCoin, rulerId: string, now: int, currentYear: int)
    ensures !Coins.IsRare(ToCatalogCoin(ConvertToFirestoreFormat(c, rulerId, now)))
    ensures var d := ConvertToFirestoreFormat(c, rulerId, now);
            Coins.Validate(ToCatalogCoin(d), currentYear).Ok? <==>
              rulerId != "" && (d.year == 0 || 1000 <= d.year <= currentYear)
  {
    RarityLabels(c.rarity);
  }

  /** The client with its request counter. */
  class NumistaClient {
    const apiKey: string
    const userId: string
    var requestCount: nat

    /** The counter never passes the monthly budget. */
    predicate Valid()
      reads this
    {
      requestCount <= MaxRequests
    }

    /** The key and user id come from the runtime configuration, empty when unset. */
    constructor(configuredKey: Option<string>, configuredUser: Option<string>)
      ensures Valid() && requestCount == 0
      ensures apiKey == (if TruthyStr(configuredKey) then configuredKey.value else "")
      ensures userId == (if TruthyStr(configuredUser) then configuredUser.value else "")
    {
      apiKey := if TruthyStr(configuredKey) then configuredKey.value else "";
      userId := if TruthyStr(configuredUser) then configuredUser.value else "";
      requestCount := 0;
    }

    /** `makeRequest` with the response the request would get. */
    method MakeRequest(response: Result<SearchPage, string>) returns (r: Result<SearchPage, string>)
      requires Valid()
      modifies this
      ensures Valid()
      ensures Outcome(r, requestCount) == Attempt(apiKey, old(requestCount), response)
    {
      if apiKey == "" {
        return Err(KeyMissing);
      }
      if requestCount >= MaxRequests {
        return Err(LimitExceeded);
      }
      r := response;
      if r.Ok? {
        requestCount := requestCount + 1;
      }
    }

    /** `searchCoins(filters)`: the parameters sent, and the request's result. */
    method SearchCoins(filters: Filters, response: Result<SearchPage, string>)
      returns (params: SearchParams, r: Result<SearchPage, string>)
      requires Valid()
      modifies this
      ensures Valid()
      ensures params == BuildSearchParams(filters)
      ensures Outcome(r, requestCount) == Attempt(apiKey, old(requestCount), response)
    {
      params := BuildSearchParams(filters);
      r := MakeRequest(response);
    }

    /** One round of the loop in `searchRussianEmpireCoins`: request page `page` and keep
        its types within the reign; `more` says whether the page was full, so that the
        next one is asked for. */
    method HarvestPage(startYear: int, endYear: int, pages: int -> Result<SearchPage, string>, page: nat)
      returns (found: seq<NumistaCoin>, more: bool)
      requires Valid()
      modifies this
      ensures Valid()
      ensures var o := Attempt(apiKey, old(requestCount), pages(page));
              requestCount == o.count && PageRead(found, more) == ReadPage(o.result, startYear, endYear)
    {
      var params, result := SearchCoins(HarvestFilters(page), pages(page));
      if result.Err? || result.value.types.None? || result.value.types.value == [] {
        return [], false;
      }
      var types := result.value.types.value;
      found := InReignTypes(types, startYear, endYear);
      more := |types| == PageSize;
    }

    /** `searchRussianEmpireCoins(rulerName, startYear, endYear)`, where `pages(p)` is the
        response to the request for page `p`. */
    method SearchRussianEmpireCoins(startYear: int, endYear: int, pages: int -> Result<SearchPage, string>)
      returns (allCoins: seq<NumistaCoin>)
      requires Valid()
      modifies this
      ensures Valid()
      ensures Harvest(allCoins, requestCount) == FetchPages(apiKey, old(requestCount), pages, startYear, endYear, 1)
    {
      ghost var total := FetchPages(apiKey, requestCount, pages, startYear, endYear, 1);
      allCoins := [];
      var page := 1;
      var hasMore := true;
      while hasMore && page <= MaxPages
        invariant Valid() && 1 <= page <= MaxPages + 1
        invariant hasMore ==>
                    var h := FetchPages(apiKey, requestCount, pages, startYear, endYear, page);
                    Harvest(allCoins + h.coins, h.count) == total
        invariant !hasMore ==> Harvest(allCoins, requestCount) == total
        decreases MaxPages + 1 - page, hasMore
      {
        ghost var before := requestCount;
        var found, more := HarvestPage(startYear, endYear, pages, page);
        FetchPagesStep(apiKey, before, pages, startYear, endYear, page, allCoins, found, more, total);
        allCoins := allCoins + found;
        hasMore := more;
        page := page + 1;
      }
      if hasMore {
        assert allCoins + [] == allCoins;
      }
    }

    /** `getUsageStats().remaining`: what is left of the monthly budget. */
    function Remaining(): (r: int)
      reads this
      requires Valid()
      ensures 0 <= r <= MaxRequests
      ensures r + requestCount == MaxRequests
    {
      MaxRequests - requestCount
    }
  }
}
