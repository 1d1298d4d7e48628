/** The read side of the catalog (services/FirestoreDatabaseService.js): the per-query cache
    in front of the remote catalog, the denomination classes the ruler screen groups coins
    into, and the client-side search. Every remote query is one fetch whose outcome is a
    parameter: the raw documents on success, an error message on failure. */
module CatalogService {
  import opened Wrappers
  import opened Truthiness
  import opened Text
  import Coins
  import opened Countries
  import opened Periods
  import opened Rulers
  import opened Sequences

  /** The denomination classes, named in the source by the strings of `TypeKey`. `Token`
      appears in the ordering and the display names but no coin is ever classified so. */
  datatype DenominationType = Gold | SilverRuble | SilverSmall | Copper | Commemorative | Token

  function TypeKey(t: DenominationType): string {
    match t
    case Gold => "gold"
    case SilverRuble => "silver_ruble"
    case SilverSmall => "silver_small"
    case Copper => "copper"
    case Commemorative => "commemorative"
    case Token => "token"
  }

  /** Distinct classes have distinct keys, so comparing keys compares classes. */
  lemma TypeKeyInjective(a: DenominationType, b: DenominationType)
    ensures TypeKey(a) == TypeKey(b) <==> a == b
  {
    if a != b {
      assert TypeKey(a)[0] != TypeKey(b)[0] || TypeKey(a)[|TypeKey(a)| - 1] != TypeKey(b)[|TypeKey(b)| - 1]
             || |TypeKey(a)| != |TypeKey(b)|;
    }
  }

  /** The classification shared by `getCoinsByDenomination` and `getDenominationsByRuler`. */
  function Classify(c: Coins.Coin): DenominationType {
    if Coins.IsCommemorative(c) then Commemorative
    else
      var metal := Coins.GetMetalType(c);
      var value := c.denominationValue.GetOr(0.0);
      if metal == Some(Coins.Gold) then Gold
      else if metal == Some(Coins.Silver) then (if value >= 0.5 then SilverRuble else SilverSmall)
      else Copper
  }

  /** Commemorative coins go to their own class whatever the metal; then gold; silver splits
      at a face value of one half, a missing or zero value counting as 0; everything else,
      platinum, other metals and no metal included, is copper. No coin is a token. */
  lemma ClassifyCases(c: Coins.Coin)
    ensures Coins.IsCommemorative(c) ==> Classify(c) == Commemorative
    ensures Classify(c) == Gold <==> !Coins.IsCommemorative(c) && Coins.GetMetalType(c) == Some(Coins.Gold)
    ensures Classify(c) == SilverRuble <==>
              && !Coins.IsCommemorative(c) && Coins.GetMetalType(c) == Some(Coins.Silver)
              && c.denominationValue.Some? && c.denominationValue.value >= 0.5
    ensures Classify(c) == SilverSmall <==>
              && !Coins.IsCommemorative(c) && Coins.GetMetalType(c) == Some(Coins.Silver)
              && (c.denominationValue.None? || c.denominationValue.value < 0.5)
    ensures Classify(c) == Copper <==>
              !Coins.IsCommemorative(c) && Coins.GetMetalType(c) != Some(Coins.Gold)
              && Coins.GetMetalType(c) != Some(Coins.Silver)
    ensures Classify(c) != Token
  {
  }

  /** `_getDenominationTypeName`: the display name of a known key, the key itself otherwise. */
  function DenominationTypeName(key: string): string {
    if key == "gold" then "Золотые монеты"
    else if key == "silver_ruble" then "Серебряные рубли"
    else if key == "silver_small" then "Серебряная мелочь"
    else if key == "copper" then "Медные монеты"
    else if key == "commemorative" then "Памятные монеты"
    else if key == "token" then "Жетоны"
    else key
  }

  /** Every class has a display name of its own, different from its key; an unknown key is
      shown as it is. */
  lemma DenominationNames(a: DenominationType, b: DenominationType, key: string)
    ensures DenominationTypeName(TypeKey(a)) != TypeKey(a)
    ensures a != b ==> DenominationTypeName(TypeKey(a)) != DenominationTypeName(TypeKey(b))
    ensures (forall t :: TypeKey(t) != key) ==> DenominationTypeName(key) == key
  {
    var na, nb := DenominationTypeName(TypeKey(a)), DenominationTypeName(TypeKey(b));
    if a != b {
      assert na[0] != nb[0] || na[|na| - 1] != nb[|nb| - 1] || na[|na| - 2] != nb[|nb| - 2] || |na| != |nb|;
    }
    if forall t :: TypeKey(t) != key {
      assert TypeKey(Gold) != key && TypeKey(SilverRuble) != key && TypeKey(SilverSmall) != key;
      assert TypeKey(Copper) != key && TypeKey(Commemorative) != key && TypeKey(Token) != key;
    }
  }

  /** The test of the filter in `getCoinsByDenomination`. */
  function HasKey(key: string): Coins.Coin -> bool {
    (c: Coins.Coin) => TypeKey(Classify(c)) == key
  }

  /** The filter in `getCoinsByDenomination`: the coins whose class has the key asked for, in
      the order the catalog returned them. */
  function ByDenomination(coins: seq<Coins.Coin>, denominationType: string): (r: seq<Coins.Coin>)
    ensures forall i :: 0 <= i < |r| ==> TypeKey(Classify(r[i])) == denominationType
    ensures forall c :: c in coins && TypeKey(Classify(c)) == denominationType ==> c in r
    ensures forall c :: c in r ==> c in coins
    ensures IsSubsequence(r, coins)
  {
    var p := HasKey(denominationType);
    SelectIsSubsequence(coins, p);
    SelectMembers(coins, p);
    Select(coins, p)
  }

  /** No coin is ever listed under the token class, and the classes split the coins: each
      coin is listed under exactly the key of its own class. */
  lemma ByDenominationPartition(coins: seq<Coins.Coin>, t: DenominationType, c: Coins.Coin)
    ensures ByDenomination(coins, TypeKey(Token)) == []
    ensures c in coins ==> (c in ByDenomination(coins, TypeKey(t)) <==> Classify(c) == t)
  {
    var tokens := ByDenomination(coins, TypeKey(Token));
    if tokens != [] {
      ClassifyCases(tokens[0]);
      TypeKeyInjective(Classify(tokens[0]), Token);
    }
    TypeKeyInjective(Classify(c), t);
  }

  /** The class of each coin, in order. */
  function Kinds(coins: seq<Coins.Coin>): (ks: seq<DenominationType>)
    ensures |ks| == |coins| && forall i :: 0 <= i < |coins| ==> ks[i] == Classify(coins[i])
  {
    seq(|coins|, i requires 0 <= i < |coins| => Classify(coins[i]))
  }

  /** The number of occurrences of class `t` among the classes `ks`. */
  function CountOf(ks: seq<DenominationType>, t: DenominationType): nat {
    if ks == [] then 0
    else CountOf(ks[..|ks| - 1], t) + (if ks[|ks| - 1] == t then 1 else 0)
  }

  /** A class has a positive count exactly when it occurs. */
  lemma {:induction false} CountOfPositive(ks: seq<DenominationType>, t: DenominationType)
    ensures CountOf(ks, t) > 0 <==> t in ks
  {
    if ks != [] {
      var init := ks[..|ks| - 1];
      CountOfPositive(init, t);
      assert ks == init + [ks[|ks| - 1]];
    }
  }

  /** A filter that keeps exactly the positions where `ks` holds `t` keeps as many elements as
      `t` occurs in `ks`. */
  lemma {:induction false} SelectCount<T(!new)>(s: seq<T>, p: T -> bool, ks: seq<DenominationType>, t: DenominationType)
    requires |ks| == |s| && forall i :: 0 <= i < |s| ==> (p(s[i]) <==> ks[i] == t)
    ensures |Select(s, p)| == CountOf(ks, t)
  {
    if s != [] {
      var n := |s| - 1;
      assert s == s[..n] + [s[n]];
      SelectCount(s[..n], p, ks[..n], t);
      SelectSnoc(s[..n], s[n], p);
    }
  }

  lemma HasKeyCount(coins: seq<Coins.Coin>, t: DenominationType)
    ensures |Select(coins, HasKey(TypeKey(t)))| == CountOf(Kinds(coins), t)
  {
    var ks := Kinds(coins);
    forall i | 0 <= i < |coins|
      ensures HasKey(TypeKey(t))(coins[i]) <==> ks[i] == t
    {
      TypeKeyInjective(Classify(coins[i]), t);
    }
    SelectCount(coins, HasKey(TypeKey(t)), ks, t);
  }

  /** The list of one denomination holds as many coins as that class counts in the
      denomination list. */
  lemma ByDenominationCount(coins: seq<Coins.Coin>, t: DenominationType)
    ensures |ByDenomination(coins, TypeKey(t))| == CountOf(Kinds(coins), t)
  {
    HasKeyCount(coins, t);
  }

  /** One group of the denomination list: its class (whose key is the group's `type`), its
      display name and the number of coins in it. */
  datatype DenominationGroup = DenominationGroup(kind: DenominationType, name: string, count: nat)

  /** The fixed order of the denomination list. */
  const Order: seq<DenominationType> := [Gold, SilverRuble, SilverSmall, Copper, Commemorative, Token]

  /** The position of a class in `Order`. */
  function Rank(t: DenominationType): (k: nat)
    ensures k < |Order| && Order[k] == t
  {
    match t
    case Gold => 0
    case SilverRuble => 1
    case SilverSmall => 2
    case Copper => 3
    case Commemorative => 4
    case Token => 5
  }

  /** `Order` lists each class once: the class at position `i` has rank `i`. */
  lemma RankOfOrder(i: nat)
    requires i < |Order|
    ensures Rank(Order[i]) == i
  {
    if i == 0 {
    } else if i == 1 {
    } else if i == 2 {
    } else if i == 3 {
    } else if i == 4 {
    } else {
      assert Order[i] == Token;
    }
  }

  /** The group of class `t` when it occurs among `ks`, as a list of at most one group. */
  function GroupOf(t: DenominationType, ks: seq<DenominationType>): seq<DenominationGroup> {
    if CountOf(ks, t) > 0 then [DenominationGroup(t, DenominationTypeName(TypeKey(t)), CountOf(ks, t))] else []
  }

  /** The groups of the classes of `ts` that occur among `ks`, in the order of `ts`. */
  function GroupsOver(ts: seq<DenominationType>, ks: seq<DenominationType>): (r: seq<DenominationGroup>)
    ensures forall i :: 0 <= i < |r| ==> r[i].count >= 1 && r[i].count == CountOf(ks, r[i].kind)
    ensures forall i :: 0 <= i < |r| ==> r[i].kind in ts
    ensures ks == [] ==> r == []
  {
    if ts == [] then [] else GroupsOver(ts[..|ts| - 1], ks) + GroupOf(ts[|ts| - 1], ks)
  }

  /** Every group carries the display name of its class. */
  lemma {:induction false} GroupsOverNames(ts: seq<DenominationType>, ks: seq<DenominationType>)
    ensures forall g :: g in GroupsOver(ts, ks) ==> g.name == DenominationTypeName(TypeKey(g.kind))
  {
    if ts != [] {
      GroupsOverNames(ts[..|ts| - 1], ks);
    }
  }

  /** The result of `getDenominationsByRuler` for the coins of one ruler. */
  function Groups(coins: seq<Coins.Coin>): seq<DenominationGroup> {
    GroupsOver(Order, Kinds(coins))
  }

  /** Taking one more class of the order appends its group, if any. */
  lemma GroupsOverStep(k: nat, ks: seq<DenominationType>)
    requires 0 < k <= |Order|
    ensures GroupsOver(Order[..k], ks) == GroupsOver(Order[..k - 1], ks) + GroupOf(Order[k - 1], ks)
  {
    assert Order[..k][..k - 1] == Order[..k - 1];
  }

  /** The groups follow the fixed order strictly, so no class has two groups. */
  predicate SortedByRank(gs: seq<DenominationGroup>) {
    forall i, j :: 0 <= i < j < |gs| ==> Rank(gs[i].kind) < Rank(gs[j].kind)
  }

  /** Appending groups of rank `k` to sorted groups of lower ranks keeps them sorted. */
  lemma SortedAppend(prev: seq<DenominationGroup>, last: seq<DenominationGroup>, k: nat)
    requires SortedByRank(prev) && forall g :: g in prev ==> Rank(g.kind) < k
    requires |last| <= 1 && forall g :: g in last ==> Rank(g.kind) == k
    ensures SortedByRank(prev + last)
    ensures forall g :: g in prev + last ==> Rank(g.kind) <= k
  {
    var r := prev + last;
    forall i, j | 0 <= i < j < |r|
      ensures Rank(r[i].kind) < Rank(r[j].kind)
    {
      if j < |prev| {
        assert r[i] == prev[i] && r[j] == prev[j];
      } else {
        assert r[j] == last[j - |prev|] && r[i] == prev[i];
        assert prev[i] in prev && last[j - |prev|] in last;
      }
    }
  }

  lemma {:induction false} GroupsOverSorted(k: nat, ks: seq<DenominationType>)
    requires k <= |Order|
    ensures SortedByRank(GroupsOver(Order[..k], ks))
    ensures forall g :: g in GroupsOver(Order[..k], ks) ==> Rank(g.kind) < k
  {
    if k > 0 {
      GroupsOverStep(k, ks);
      GroupsOverSorted(k - 1, ks);
      var prev := GroupsOver(Order[..k - 1], ks);
      var last := GroupOf(Order[k - 1], ks);
      RankOfOrder(k - 1);
      SortedAppend(prev, last, k - 1);
    }
  }

  /** Some group in `gs` is of class `t`. */
  predicate HasGroup(gs: seq<DenominationGroup>, t: DenominationType) {
    exists g :: g in gs && g.kind == t
  }

  lemma HasGroupAppend(a: seq<DenominationGroup>, b: seq<DenominationGroup>, t: DenominationType)
    ensures HasGroup(a + b, t) <==> HasGroup(a, t) || HasGroup(b, t)
  {
    if HasGroup(a + b, t) {
      var g :| g in a + b && g.kind == t;
      assert g in a || g in b;
    }
  }

  lemma HasGroupOf(u: DenominationType, ks: seq<DenominationType>, t: DenominationType)
    ensures HasGroup(GroupOf(u, ks), t) <==> u == t && CountOf(ks, t) > 0
  {
    if u == t && CountOf(ks, t) > 0 {
      assert GroupOf(u, ks)[0] in GroupOf(u, ks);
    }
  }

  /** There is a group for a class exactly when it is among the first `k` of the order and
      occurs among `ks`. */
  lemma {:induction false} GroupsOverComplete(k: nat, ks: seq<DenominationType>, t: DenominationType)
    requires k <= |Order|
    ensures HasGroup(GroupsOver(Order[..k], ks), t) <==> Rank(t) < k && CountOf(ks, t) > 0
  {
    if k > 0 {
      GroupsOverStep(k, ks);
      GroupsOverComplete(k - 1, ks, t);
      HasGroupAppend(GroupsOver(Order[..k - 1], ks), GroupOf(Order[k - 1], ks), t);
      HasGroupOf(Order[k - 1], ks, t);
      RankOfOrder(k - 1);
    }
  }

  /** The sum of the counts of a list of groups. */
  function SumCounts(gs: seq<DenominationGroup>): nat {
    if gs == [] then 0 else SumCounts(gs[..|gs| - 1]) + gs[|gs| - 1].count
  }

  lemma {:induction false} SumCountsAppend(a: seq<DenominationGroup>, b: seq<DenominationGroup>)
    ensures SumCounts(a + b) == SumCounts(a) + SumCounts(b)
    decreases |b|
  {
    if b != [] {
      assert (a + b)[..|a + b| - 1] == a + b[..|b| - 1];
      assert (a + b)[|a + b| - 1] == b[|b| - 1];
      SumCountsAppend(a, b[..|b| - 1]);
    } else {
      assert a + b == a;
    }
  }

  /** The number of classes among `ks` that come within the first `k` of the order. */
  function CountBelow(ks: seq<DenominationType>, k: nat): nat {
    if ks == [] then 0
    else CountBelow(ks[..|ks| - 1], k) + (if Rank(ks[|ks| - 1]) < k then 1 else 0)
  }

  lemma {:induction false} CountBelowStep(ks: seq<DenominationType>, k: nat)
    requires k < |Order|
    ensures CountBelow(ks, k + 1) == CountBelow(ks, k) + CountOf(ks, Order[k])
  {
    if ks != [] {
      CountBelowStep(ks[..|ks| - 1], k);
      var c := ks[|ks| - 1];
      assert Rank(c) == k <==> c == Order[k];
    }
  }

  lemma {:induction false} CountBelowAll(ks: seq<DenominationType>)
    ensures CountBelow(ks, |Order|) == |ks|
  {
    if ks != [] {
      CountBelowAll(ks[..|ks| - 1]);
    }
  }

  lemma {:induction false} CountBelowNone(ks: seq<DenominationType>)
    ensures CountBelow(ks, 0) == 0
  {
    if ks != [] {
      CountBelowNone(ks[..|ks| - 1]);
    }
  }

  /** The group of a class counts its occurrences, or is absent when there are none. */
  lemma SumGroupOf(t: DenominationType, ks: seq<DenominationType>)
    ensures SumCounts(GroupOf(t, ks)) == CountOf(ks, t)
  {
    var last := GroupOf(t, ks);
    if last != [] {
      assert last[..0] == [];
    }
  }

  lemma {:induction false} GroupsOverSum(k: nat, ks: seq<DenominationType>)
    requires k <= |Order|
    ensures SumCounts(GroupsOver(Order[..k], ks)) == CountBelow(ks, k)
  {
    if k == 0 {
      CountBelowNone(ks);
    } else {
      GroupsOverStep(k, ks);
      GroupsOverSum(k - 1, ks);
      CountBelowStep(ks, k - 1);
      SumCountsAppend(GroupsOver(Order[..k - 1], ks), GroupOf(Order[k - 1], ks));
      SumGroupOf(Order[k - 1], ks);
    }
  }

  /** Every group of the denomination list counts at least one coin and carries its
      class's display name. */
  lemma GroupsNamed(coins: seq<Coins.Coin>)
    ensures forall g :: g in Groups(coins) ==> g.count >= 1 && g.name == DenominationTypeName(TypeKey(g.kind))
  {
    GroupsOverNames(Order, Kinds(coins));
  }

  /** The denomination list follows the fixed order. */
  lemma GroupsSorted(coins: seq<Coins.Coin>)
    ensures SortedByRank(Groups(coins))
  {
    assert Order[..|Order|] == Order;
    GroupsOverSorted(|Order|, Kinds(coins));
  }

  /** The counts of the denomination list add up to the number of coins. */
  lemma GroupsCountAll(coins: seq<Coins.Coin>)
    ensures SumCounts(Groups(coins)) == |coins|
  {
    var ks := Kinds(coins);
    assert Order[..|Order|] == Order;
    GroupsOverSum(|Order|, ks);
    CountBelowAll(ks);
  }

  /** A class has a group exactly when some coin is of that class. */
  lemma GroupsCoverKinds(coins: seq<Coins.Coin>, t: DenominationType)
    ensures (exists g :: g in Groups(coins) && g.kind == t) <==> exists i :: 0 <= i < |coins| && Classify(coins[i]) == t
  {
    var ks := Kinds(coins);
    assert Order[..|Order|] == Order;
    GroupsOverComplete(|Order|, ks, t);
    CountOfPositive(ks, t);
    if t in ks {
      var i :| 0 <= i < |ks| && ks[i] == t;
      assert Classify(coins[i]) == t;
    }
  }

  /** The denomination list: one group per class that occurs, each counting at least one
      coin, in the fixed order, with counts adding up to the number of coins. */
  lemma GroupsProperties(coins: seq<Coins.Coin>, t: DenominationType)
    ensures var r := Groups(coins);
            && (forall g :: g in r ==> g.count >= 1 && g.name == DenominationTypeName(TypeKey(g.kind)))
            && SortedByRank(r)
            && ((exists g :: g in r && g.kind == t) <==> exists i :: 0 <= i < |coins| && Classify(coins[i]) == t)
            && SumCounts(r) == |coins|
  {
    GroupsNamed(coins);
    GroupsSorted(coins);
    GroupsCountAll(coins);
    GroupsCoverKinds(coins, t);
  }

  /** The first loop of `getDenominationsByRuler`: one pass over the coins, creating a
      group the first time its class is met and incrementing its count each time. */
  method CountByKind(coins: seq<Coins.Coin>) returns (groups: map<DenominationType, nat>)
    ensures forall t :: t in groups <==> CountOf(Kinds(coins), t) > 0
    ensures forall t :: t in groups ==> groups[t] == CountOf(Kinds(coins), t)
  {
    ghost var ks := Kinds(coins);
    groups := map[];
    var i := 0;
    while i < |coins|
      invariant 0 <= i <= |coins|
      invariant forall t :: t in groups <==> CountOf(ks[..i], t) > 0
      invariant forall t :: t in groups ==> groups[t] == CountOf(ks[..i], t)
    {
      assert ks[..i + 1][..i] == ks[..i];
      var t := Classify(coins[i]);
      if t !in groups {
        groups := groups[t := 0];
      }
      groups := groups[t := groups[t] + 1];
      i := i + 1;
    }
    assert ks[..i] == ks;
  }

  /** The sort of `getDenominationsByRuler`: the groups that exist, in the fixed order. The
      classes are distinct and all in the order, so sorting by position in the order lists
      them exactly as walking the order does. */
  method OrderedGroups(groups: map<DenominationType, nat>, ghost ks: seq<DenominationType>)
    returns (r: seq<DenominationGroup>)
    requires forall t :: t in groups <==> CountOf(ks, t) > 0
    requires forall t :: t in groups ==> groups[t] == CountOf(ks, t)
    ensures r == GroupsOver(Order, ks)
  {
    r := [];
    var k := 0;
    while k < |Order|
      invariant 0 <= k <= |Order|
      invariant r == GroupsOver(Order[..k], ks)
    {
      assert Order[..k + 1][..k] == Order[..k];
      var t := Order[k];
      if t in groups {
        r := r + [DenominationGroup(t, DenominationTypeName(TypeKey(t)), groups[t])];
      }
      k := k + 1;
    }
    assert Order[..k] == Order;
  }

  /** The key under which the coins of a ruler are cached. */
  function CoinsCacheKey(rulerId: string): string {
    "ruler_" + rulerId
  }

  /** Different rulers never share a cache slot. */
  lemma CoinsCacheKeyInjective(a: string, b: string)
    ensures CoinsCacheKey(a) == CoinsCacheKey(b) <==> a == b
  {
    if CoinsCacheKey(a) == CoinsCacheKey(b) {
      assert a == CoinsCacheKey(a)[6..] && b == CoinsCacheKey(b)[6..];
    }
  }

  function NewCoins(docs: seq<Coins.Coin>): (r: seq<Coins.Coin>)
    ensures |r| == |docs| && forall i :: 0 <= i < |docs| ==> r[i] == Coins.NewCoin(docs[i])
  {
    seq(|docs|, i requires 0 <= i < |docs| => Coins.NewCoin(docs[i]))
  }

  /** A coin matches a search when its lower-cased name, denomination or metal contains the
      lower-cased query, or the decimal form of its year contains the query as typed. */
  predicate MatchesQuery(c: Coins.Coin, query: string) {
    var q := Lower(query);
    || (c.name.Some? && Contains(Lower(c.name.value), q))
    || (c.denomination.Some? && Contains(Lower(c.denomination.value), q))
    || (c.metal.Some? && Contains(Lower(c.metal.value), q))
    || (c.year.Some? && Contains(IntToString(c.year.value), query))
  }

  /** The test of the filter in `searchCoins`. */
  function Matcher(query: string): Coins.Coin -> bool {
    (c: Coins.Coin) => MatchesQuery(c, query)
  }

  /** `searchCoins(query)`: all catalog documents are fetched, filtered on the client, and
      the first 50 matches returned; a failed fetch gives an empty list. */
  function SearchCoins(query: string, fetched: Result<seq<Coins.Coin>, string>): (r: seq<Coins.Coin>)
    ensures |r| <= 50
    ensures forall i :: 0 <= i < |r| ==> MatchesQuery(r[i], query)
    ensures fetched.Err? ==> r == []
    ensures fetched.Ok? ==>
              var all := Select(NewCoins(fetched.value), Matcher(query));
              |r| <= |all| && r == all[..|r|] && (|r| == 50 || |r| == |all|)
  {
    match fetched
    case Err(_) => []
    case Ok(docs) =>
      var all := Select(NewCoins(docs), Matcher(query));
      if |all| <= 50 then all else all[..50]
  }

  /** A coin that matches is found whenever fewer than 50 coins match. */
  lemma SearchFindsEveryMatch(query: string, docs: seq<Coins.Coin>, i: nat)
    requires i < |docs| && MatchesQuery(Coins.NewCoin(docs[i]), query)
    requires |Select(NewCoins(docs), Matcher(query))| <= 50
    ensures Coins.NewCoin(docs[i]) in SearchCoins(query, Ok(docs))
  {
    var p := Matcher(query);
    var all := Select(NewCoins(docs), p);
    var c := Coins.NewCoin(docs[i]);
    assert c == NewCoins(docs)[i];
    SelectMembers(NewCoins(docs), p);
    assert c in all;
  }

  /** The catalog reader with its cache. Each slot holds the list the last successful fetch
      returned, an empty list included; a failed fetch caches nothing. */
  class FirestoreCatalog {
    var countries: Option<seq<Country>>
    var periods: map<string, seq<Period>>
    var rulers: map<string, seq<Ruler>>
    var coins: map<string, seq<Coins.Coin>>

    predicate Empty()
      reads this
    {
      countries.None? && periods == map[] && rulers == map[] && coins == map[]
    }

    constructor()
      ensures Empty()
    {
      countries := None;
      periods := map[];
      rulers := map[];
      coins := map[];
    }

    /** `clearCache`: every slot is emptied. */
    method ClearCache()
      modifies this
      ensures Empty()
    {
      countries := None;
      periods := map[];
      rulers := map[];
      coins := map[];
    }

    /** `getCountries`: the cached list if there is one, without fetching; otherwise the
        fetched documents through the constructor, cached, or `[]` on failure. */
    method GetCountries(fetched: Result<seq<Country>, string>) returns (r: seq<Country>)
      modifies this
      ensures periods == old(periods) && rulers == old(rulers) && coins == old(coins)
      ensures old(countries).Some? ==> r == old(countries).value && countries == old(countries)
      ensures old(countries).None? && fetched.Ok? ==>
                && |r| == |fetched.value|
                && (forall i :: 0 <= i < |r| ==> r[i] == NewCountry(fetched.value[i]))
                && countries == Some(r)
      ensures old(countries).None? && fetched.Err? ==> r == [] && countries == old(countries)
    {
      if countries.Some? {
        return countries.value;
      }
      match fetched
      case Err(_) =>
        r := [];
      case Ok(docs) =>
        r := seq(|docs|, i requires 0 <= i < |docs| => NewCountry(docs[i]));
        countries := Some(r);
    }

    /** `getPeriodsByCountry(countryId)`, cached per country. */
    method GetPeriodsByCountry(countryId: string, fetched: Result<seq<Period>, string>) returns (r: seq<Period>)
      modifies this
      ensures countries == old(countries) && rulers == old(rulers) && coins == old(coins)
      ensures countryId in old(periods) ==> r == old(periods)[countryId] && periods == old(periods)
      ensures countryId !in old(periods) && fetched.Ok? ==>
                && |r| == |fetched.value|
                && (forall i :: 0 <= i < |r| ==> r[i] == NewPeriod(fetched.value[i]))
                && periods == old(periods)[countryId := r]
      ensures countryId !in old(periods) && fetched.Err? ==> r == [] && periods == old(periods)
    {
      if countryId in periods {
        return periods[countryId];
      }
      match fetched
      case Err(_) =>
        r := [];
      case Ok(docs) =>
        r := seq(|docs|, i requires 0 <= i < |docs| => NewPeriod(docs[i]));
        periods := periods[countryId := r];
    }

    /** `getRulersByPeriod(periodId)`, cached per period. */
    method GetRulersByPeriod(periodId: string, fetched: Result<seq<Ruler>, string>) returns (r: seq<Ruler>)
      modifies this
      ensures countries == old(countries) && periods == old(periods) && coins == old(coins)
      ensures periodId in old(rulers) ==> r == old(rulers)[periodId] && rulers == old(rulers)
      ensures periodId !in old(rulers) && fetched.Ok? ==>
                && |r| == |fetched.value|
                && (forall i :: 0 <= i < |r| ==> r[i] == NewRuler(fetched.value[i]))
                && rulers == old(rulers)[periodId := r]
      ensures periodId !in old(rulers) && fetched.Err? ==> r == [] && rulers == old(rulers)
    {
      if periodId in rulers {
        return rulers[periodId];
      }
      match fetched
      case Err(_) =>
        r := [];
      case Ok(docs) =>
        r := seq(|docs|, i requires 0 <= i < |docs| => NewRuler(docs[i]));
        rulers := rulers[periodId := r];
    }

    /** `getCoinsByRuler(rulerId)`, cached under `ruler_<rulerId>`. */
    method GetCoinsByRuler(rulerId: string, fetched: Result<seq<Coins.Coin>, string>) returns (r: seq<Coins.Coin>)
      modifies this
      ensures countries == old(countries) && periods == old(periods) && rulers == old(rulers)
      ensures CoinsCacheKey(rulerId) in old(coins) ==> r == old(coins)[CoinsCacheKey(rulerId)] && coins == old(coins)
      ensures CoinsCacheKey(rulerId) !in old(coins) && fetched.Ok? ==>
                r == NewCoins(fetched.value) && coins == old(coins)[CoinsCacheKey(rulerId) := r]
      ensures CoinsCacheKey(rulerId) !in old(coins) && fetched.Err? ==> r == [] && coins == old(coins)
    {
      var key := CoinsCacheKey(rulerId);
      if key in coins {
        return coins[key];
      }
      match fetched
      case Err(_) =>
        r := [];
      case Ok(docs) =>
        r := NewCoins(docs);
        coins := coins[key := r];
    }

    /** `getCoinsByDenomination(rulerId, type)`: the ruler's coins, through the cache, kept
        when their class has the key asked for. */
    method GetCoinsByDenomination(rulerId: string, denominationType: string, fetched: Result<seq<Coins.Coin>, string>)
      returns (r: seq<Coins.Coin>)
      modifies this
      ensures countries == old(countries) && periods == old(periods) && rulers == old(rulers)
      ensures CoinsCacheKey(rulerId) in old(coins) ==>
                r == ByDenomination(old(coins)[CoinsCacheKey(rulerId)], denominationType) && coins == old(coins)
      ensures CoinsCacheKey(rulerId) !in old(coins) && fetched.Ok? ==>
                && r == ByDenomination(NewCoins(fetched.value), denominationType)
                && coins == old(coins)[CoinsCacheKey(rulerId) := NewCoins(fetched.value)]
      ensures CoinsCacheKey(rulerId) !in old(coins) && fetched.Err? ==> r == [] && coins == old(coins)
    {
      var all := GetCoinsByRuler(rulerId, fetched);
      r := ByDenomination(all, denominationType);
    }

    /** `getDenominationsByRuler(rulerId)`: the ruler's coins, through the cache, counted per
        class in one pass, then listed in the fixed order. */
    method GetDenominationsByRuler(rulerId: string, fetched: Result<seq<Coins.Coin>, string>)
      returns (r: seq<DenominationGroup>)
      modifies this
      ensures countries == old(countries) && periods == old(periods) && rulers == old(rulers)
      ensures CoinsCacheKey(rulerId) in old(coins) ==>
                r == Groups(old(coins)[CoinsCacheKey(rulerId)]) && coins == old(coins)
      ensures CoinsCacheKey(rulerId) !in old(coins) && fetched.Ok? ==>
                && r == Groups(NewCoins(fetched.value))
                && coins == old(coins)[CoinsCacheKey(rulerId) := NewCoins(fetched.value)]
      ensures CoinsCacheKey(rulerId) !in old(coins) && fetched.Err? ==> r == [] && coins == old(coins)
    {
      var all := GetCoinsByRuler(rulerId, fetched);
      var groups := CountByKind(all);
      r := OrderedGroups(groups, Kinds(all));
    }
  }
}
