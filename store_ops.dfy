/** The local collection as a value: the list of user-coin records
    (`webStorage.userCoins` in services/UserCollectionService.js) and the pure effect of each
    operation on it. The service's methods are proved to change their list exactly as these
    functions say; the lemmas here state what the operations promise. */
module Store {
  import opened Wrappers
  import opened Truthiness
  import opened UserCoins
  import opened Sequences

  /** The `data` argument of `addCoin`; a missing flag is `false`, a missing value `None`. */
  datatype AddData = AddData(
    isWishlist: bool,
    condition: Option<string>,
    grade: Option<string>,
    purchasePrice: Option<real>,
    purchaseDate: Option<int>,
    notes: Option<string>,
    userObverseImage: Option<string>,
    userReverseImage: Option<string>,
    userWeight: Option<real>,
    userDiameter: Option<real>)

  /** The object `addCoin` hands to the constructor: a fresh id, the service's user, every
      optional value through `|| null`, created now and marked for sync. */
  function AddInput(newId: string, userId: Option<string>, catalogCoinId: Option<string>,
                    data: AddData, now: int): UserCoinData
  {
    UserCoinData(
      Some(newId), userId, catalogCoinId, data.isWishlist, OrNullStr(data.condition),
      OrNullStr(data.grade), OrNullReal(data.purchasePrice), data.purchaseDate,
      OrNullStr(data.notes), OrNullStr(data.userObverseImage),
      OrNullStr(data.userReverseImage), OrNullReal(data.userWeight),
      OrNullReal(data.userDiameter), Some(now), None, None, true, false, None)
  }

  /** The record `addCoin` builds before validating it. */
  function NewCoinRecord(newId: string, userId: Option<string>, catalogCoinId: Option<string>,
                         data: AddData, now: int): (r: CoinRecord)
    ensures r.id == Some(newId) && r.catalogCoinId == catalogCoinId && r.isWishlist == data.isWishlist
    ensures r.needsSync && !r.isDeleted && r.createdAt == now
    ensures r.updatedAt.None? && r.syncedAt.None? && r.catalogCoin.None?
    ensures Normalized(r)
    ensures Validate(r).Ok? <==> newId != "" && TruthyStr(catalogCoinId)
                                 && !(TruthyReal(data.purchasePrice) && data.purchasePrice.value < 0.0)
  {
    NewRecord(AddInput(newId, userId, catalogCoinId, data, now), now)
  }

  /** A wishlist record for the given catalog coin. */
  predicate IsWishlistTwin(c: CoinRecord, catalogCoinId: Option<string>) {
    c.catalogCoinId == catalogCoinId && c.isWishlist
  }

  /** The test of that filter: keep what is not a wishlist twin. */
  function NotTwinOf(catalogCoinId: Option<string>): CoinRecord -> bool {
    (c: CoinRecord) => !IsWishlistTwin(c, catalogCoinId)
  }

  /** The `filter` that `addCoin` applies before adding an owned coin. */
  function DropWishlistTwins(s: seq<CoinRecord>, catalogCoinId: Option<string>): (res: seq<CoinRecord>)
    ensures |res| <= |s|
    ensures forall c :: c in res <==> c in s && !IsWishlistTwin(c, catalogCoinId)
    ensures res == Select(s, NotTwinOf(catalogCoinId))
  {
    if s == [] then []
    else if IsWishlistTwin(s[0], catalogCoinId) then DropWishlistTwins(s[1..], catalogCoinId)
    else [s[0]] + DropWishlistTwins(s[1..], catalogCoinId)
  }

  /** The list after `addCoin` has pushed the validated record `rec`. */
  function AddRecord(s: seq<CoinRecord>, rec: CoinRecord): (res: seq<CoinRecord>)
    ensures |res| >= 1 && res[|res| - 1] == rec
  {
    (if rec.isWishlist then s else DropWishlistTwins(s, rec.catalogCoinId)) + [rec]
  }

  /** After adding an owned coin no wishlist record for it is left; every other record is kept;
      and the list grew by the one new record at its end. */
  lemma AddOwnedPurgesWishlist(s: seq<CoinRecord>, rec: CoinRecord)
    requires !rec.isWishlist
    ensures forall c :: c in AddRecord(s, rec) ==> !IsWishlistTwin(c, rec.catalogCoinId)
    ensures forall c :: c in s && !IsWishlistTwin(c, rec.catalogCoinId) ==> c in AddRecord(s, rec)
    ensures forall c :: c in AddRecord(s, rec) ==> c in s || c == rec
  {
  }

  /** Adding to the wishlist keeps the whole list and appends the record. */
  lemma AddWishlistAppends(s: seq<CoinRecord>, rec: CoinRecord)
    requires rec.isWishlist
    ensures AddRecord(s, rec) == s + [rec]
  {
  }

  /** Owned records of a coin. */
  function OwnedCount(s: seq<CoinRecord>, catalogCoinId: Option<string>): nat {
    if s == [] then 0
    else (if s[0].catalogCoinId == catalogCoinId && !s[0].isWishlist then 1 else 0)
         + OwnedCount(s[1..], catalogCoinId)
  }

  lemma {:induction false} OwnedCountDrop(s: seq<CoinRecord>, catalogCoinId: Option<string>)
    ensures OwnedCount(DropWishlistTwins(s, catalogCoinId), catalogCoinId) == OwnedCount(s, catalogCoinId)
  {
    if s != [] {
      OwnedCountDrop(s[1..], catalogCoinId);
    }
  }

  lemma {:induction false} OwnedCountAppend(s: seq<CoinRecord>, c: CoinRecord, catalogCoinId: Option<string>)
    ensures OwnedCount(s + [c], catalogCoinId)
            == OwnedCount(s, catalogCoinId) + (if c.catalogCoinId == catalogCoinId && !c.isWishlist then 1 else 0)
  {
    if s != [] {
      assert (s + [c])[1..] == s[1..] + [c];
      OwnedCountAppend(s[1..], c, catalogCoinId);
    }
  }

  /** `addCoin` does not look for an owned record of the same coin: adding an owned coin
      always raises the number of owned records of that coin by one, so a second add makes a
      duplicate. */
  lemma AddOwnedCountsUp(s: seq<CoinRecord>, rec: CoinRecord)
    requires !rec.isWishlist
    ensures OwnedCount(AddRecord(s, rec), rec.catalogCoinId) == OwnedCount(s, rec.catalogCoinId) + 1
  {
    OwnedCountDrop(s, rec.catalogCoinId);
    OwnedCountAppend(DropWishlistTwins(s, rec.catalogCoinId), rec, rec.catalogCoinId);
  }

  /** `find(c => c.id === id)`: the first position holding that id. */
  function FindById(s: seq<CoinRecord>, id: Option<string>): (m: Option<nat>)
    ensures m.Some? ==> m.value < |s| && s[m.value].id == id
    ensures m.Some? ==> forall j :: 0 <= j < m.value ==> s[j].id != id
    ensures m.None? <==> forall j :: 0 <= j < |s| ==> s[j].id != id
  {
    if s == [] then None
    else if s[0].id == id then Some(0)
    else
      var m := FindById(s[1..], id);
      if m.None? then None else Some(m.value + 1)
  }

  /** `find(c => c.catalogCoinId === catalogCoinId)`: the first position for that coin. */
  function FindByCatalog(s: seq<CoinRecord>, catalogCoinId: Option<string>): (m: Option<nat>)
    ensures m.Some? ==> m.value < |s| && s[m.value].catalogCoinId == catalogCoinId
    ensures m.Some? ==> forall j :: 0 <= j < m.value ==> s[j].catalogCoinId != catalogCoinId
    ensures m.None? <==> forall j :: 0 <= j < |s| ==> s[j].catalogCoinId != catalogCoinId
  {
    if s == [] then None
    else if s[0].catalogCoinId == catalogCoinId then Some(0)
    else
      var m := FindByCatalog(s[1..], catalogCoinId);
      if m.None? then None else Some(m.value + 1)
  }

  /** The web path of `updateCoin` on the list: the first record with the id is updated and
      marked for sync; an unknown id is an error and changes nothing. */
  function UpdateById(s: seq<CoinRecord>, id: Option<string>, p: CoinPatch, now: int): (res: Result<seq<CoinRecord>, string>)
    ensures res.Err? <==> forall j :: 0 <= j < |s| ==> s[j].id != id
    ensures res.Err? ==> res.error == "UserCoin not found"
    ensures res.Ok? ==> |res.value| == |s|
    ensures res.Ok? ==> exists i :: 0 <= i < |s| && s[i].id == id
                                 && (forall j :: 0 <= j < i ==> s[j].id != id)
                                 && res.value == s[i := Updated(s[i], p, now)]
  {
    var i := FindById(s, id);
    if i.None? then Err("UserCoin not found") else Ok(s[i.value := Updated(s[i.value], p, now)])
  }

  /** The updated record is left marked for sync and keeps its identity, owner list and
      wishlist flag; every other record is unchanged. */
  lemma UpdateTouchesOne(s: seq<CoinRecord>, id: Option<string>, p: CoinPatch, now: int)
    requires UpdateById(s, id, p, now).Ok?
    ensures var t := UpdateById(s, id, p, now).value;
            exists i :: 0 <= i < |s| && t[i].needsSync && t[i].id == id
                        && (forall j :: 0 <= j < i ==> s[j].id != id)
                        && t[i].isWishlist == s[i].isWishlist && t[i].catalogCoinId == s[i].catalogCoinId
                        && forall j :: 0 <= j < |s| && j != i ==> t[j] == s[j]
  {
  }

  /** `moveToCollection` on the list: the first record with the id becomes owned and is marked
      for sync; an unknown id changes nothing. */
  function MoveById(s: seq<CoinRecord>, id: Option<string>, now: int): (res: seq<CoinRecord>)
    ensures |res| == |s|
    ensures (forall j :: 0 <= j < |s| ==> s[j].id != id) ==> res == s
    ensures forall j :: 0 <= j < |s| && s[j].id != id ==> res[j] == s[j]
  {
    var i := FindById(s, id);
    if i.None? then s else s[i.value := MarkedForSync(s[i.value].(isWishlist := false), now)]
  }

  /** The moved record is owned, dirty and otherwise the same. */
  lemma MoveMakesOwned(s: seq<CoinRecord>, id: Option<string>, now: int, i: nat)
    requires i < |s| && s[i].id == id && forall j :: 0 <= j < i ==> s[j].id != id
    ensures var t := MoveById(s, id, now);
            !t[i].isWishlist && t[i].needsSync && t[i].updatedAt == Some(now)
            && t[i].(isWishlist := s[i].isWishlist, needsSync := s[i].needsSync, updatedAt := s[i].updatedAt) == s[i]
  {
    assert FindById(s, id) == Some(i);
  }

  /** The test of the `removeCoin` filter: keep the records of other coins. */
  function OtherCatalog(catalogCoinId: Option<string>): CoinRecord -> bool {
    (c: CoinRecord) => c.catalogCoinId != catalogCoinId
  }

  /** The `filter` of `removeCoin` and `_deleteLocalCoin`: every record of the coin goes, owned
      or wishlist, and the others stay in order. */
  function DeleteByCatalog(s: seq<CoinRecord>, catalogCoinId: Option<string>): (res: seq<CoinRecord>)
    ensures |res| <= |s|
    ensures res == Select(s, OtherCatalog(catalogCoinId))
    ensures forall c :: c in res <==> c in s && c.catalogCoinId != catalogCoinId
    ensures (forall j :: 0 <= j < |s| ==> s[j].catalogCoinId != catalogCoinId) ==> res == s
  {
    if s == [] then []
    else if s[0].catalogCoinId == catalogCoinId then DeleteByCatalog(s[1..], catalogCoinId)
    else [s[0]] + DeleteByCatalog(s[1..], catalogCoinId)
  }

  /** The test of the `syncAll` filter. */
  function NeedsSync(): CoinRecord -> bool {
    (c: CoinRecord) => c.needsSync
  }

  /** The records `syncAll` sends: those marked for sync, in list order. */
  function Dirty(s: seq<CoinRecord>): (res: seq<CoinRecord>)
    ensures |res| <= |s|
    ensures forall c :: c in res <==> c in s && c.needsSync
    ensures res == Select(s, NeedsSync())
  {
    if s == [] then []
    else
      var init := s[..|s| - 1];
      assert s == init + [s[|s| - 1]];
      SelectSnoc(init, s[|s| - 1], NeedsSync());
      Dirty(init) + (if s[|s| - 1].needsSync then [s[|s| - 1]] else [])
  }

  /** `markAsSynced` on every record marked for sync. */
  function SyncedRecord(r: CoinRecord, now: int): CoinRecord {
    if r.needsSync then MarkedSynced(r, now) else r
  }

  function MarkAllSynced(s: seq<CoinRecord>, now: int): (res: seq<CoinRecord>)
    ensures |res| == |s|
    ensures forall i :: 0 <= i < |s| ==> res[i] == SyncedRecord(s[i], now)
  {
    seq(|s|, i requires 0 <= i < |s| => SyncedRecord(s[i], now))
  }

  /** After `syncAll` has marked its batch, nothing is left to sync, no data field changed and
      records that were clean are untouched. */
  lemma MarkAllSyncedCleans(s: seq<CoinRecord>, now: int)
    ensures Dirty(MarkAllSynced(s, now)) == []
    ensures forall i :: 0 <= i < |s| ==>
              MarkAllSynced(s, now)[i].(needsSync := s[i].needsSync, syncedAt := s[i].syncedAt) == s[i]
    ensures forall i :: 0 <= i < |s| && !s[i].needsSync ==> MarkAllSynced(s, now)[i] == s[i]
  {
    NothingDirty(MarkAllSynced(s, now));
  }

  lemma {:induction false} NothingDirty(s: seq<CoinRecord>)
    requires forall i :: 0 <= i < |s| ==> !s[i].needsSync
    ensures Dirty(s) == []
  {
    if s != [] {
      NothingDirty(s[..|s| - 1]);
    }
  }

  /** With nothing marked for sync the batch is empty and marking changes nothing. */
  lemma CleanListHasNoBatch(s: seq<CoinRecord>, now: int)
    requires forall i :: 0 <= i < |s| ==> !s[i].needsSync
    ensures Dirty(s) == [] && MarkAllSynced(s, now) == s
  {
    NothingDirty(s);
  }

  /** `getUserCoins(isWishlist)` before sorting: the live records of one list. */
  predicate Visible(c: CoinRecord, isWishlist: bool) {
    c.isWishlist == isWishlist && !c.isDeleted
  }

  /** The test of the `getUserCoins` filter. */
  function VisibleOn(isWishlist: bool): CoinRecord -> bool {
    (c: CoinRecord) => Visible(c, isWishlist)
  }

  function VisibleRecords(s: seq<CoinRecord>, isWishlist: bool): (res: seq<CoinRecord>)
    ensures forall c :: c in res <==> c in s && Visible(c, isWishlist)
    ensures res == Select(s, VisibleOn(isWishlist))
  {
    if s == [] then []
    else if Visible(s[0], isWishlist) then [s[0]] + VisibleRecords(s[1..], isWishlist)
    else VisibleRecords(s[1..], isWishlist)
  }

  /** Newest first by creation time. */
  predicate NewestFirst(s: seq<CoinRecord>) {
    forall i, j :: 0 <= i < j < |s| ==> s[i].createdAt >= s[j].createdAt
  }

  /** Places `x` after every record created at the same time or later. */
  function InsertByCreated(s: seq<CoinRecord>, x: CoinRecord): (res: seq<CoinRecord>)
    ensures multiset(res) == multiset(s) + multiset{x}
  {
    if s == [] then [x]
    else if s[0].createdAt >= x.createdAt then
      assert s == [s[0]] + s[1..];
      [s[0]] + InsertByCreated(s[1..], x)
    else
      [x] + s
  }

  /** No record of `s` was created after `bound`. */
  predicate CreatedBy(s: seq<CoinRecord>, bound: int) {
    forall i :: 0 <= i < |s| ==> s[i].createdAt <= bound
  }

  /** Inserting a record created no later than `bound` among such records keeps them so. */
  lemma {:induction false} InsertBelow(s: seq<CoinRecord>, x: CoinRecord, bound: int)
    requires CreatedBy(s, bound) && x.createdAt <= bound
    ensures CreatedBy(InsertByCreated(s, x), bound)
  {
    var res := InsertByCreated(s, x);
    if s != [] && s[0].createdAt >= x.createdAt {
      var rest := InsertByCreated(s[1..], x);
      assert res == [s[0]] + rest;
      assert forall i :: 0 <= i < |s[1..]| ==> s[1..][i] == s[i + 1];
      InsertBelow(s[1..], x, bound);
      assert forall i :: 0 < i < |res| ==> res[i] == rest[i - 1];
    } else {
      assert res == [x] + s;
      assert forall i :: 0 < i < |res| ==> res[i] == s[i - 1];
    }
  }

  lemma {:induction false} InsertKeepsOrder(s: seq<CoinRecord>, x: CoinRecord)
    requires NewestFirst(s)
    ensures NewestFirst(InsertByCreated(s, x))
  {
    if s != [] && s[0].createdAt >= x.createdAt {
      var rest := InsertByCreated(s[1..], x);
      InsertKeepsOrder(s[1..], x);
      assert forall i :: 0 <= i < |s[1..]| ==> s[1..][i] == s[i + 1];
      assert CreatedBy(s[1..], s[0].createdAt);
      InsertBelow(s[1..], x, s[0].createdAt);
      var res := [s[0]] + rest;
      forall i, j | 0 <= i < j < |res|
        ensures res[i].createdAt >= res[j].createdAt
      {
        assert res[j] == rest[j - 1];
        if i > 0 {
          assert res[i] == rest[i - 1];
        } else {
          assert rest[j - 1].createdAt <= s[0].createdAt;
        }
      }
    }
  }

  /** `sort((a, b) => b.createdAt - a.createdAt)`: the same records, newest first. The sort
      is stable, as `Array.prototype.sort` is: records created at the same time keep their
      order (`SortKeepsTies`). */
  function SortNewestFirst(s: seq<CoinRecord>): (res: seq<CoinRecord>)
    ensures multiset(res) == multiset(s)
    ensures NewestFirst(res)
  {
    if s == [] then []
    else
      assert s == s[..|s| - 1] + [s[|s| - 1]];
      var sorted := SortNewestFirst(s[..|s| - 1]);
      InsertKeepsOrder(sorted, s[|s| - 1]);
      InsertByCreated(sorted, s[|s| - 1])
  }

  /** `map(uc => new UserCoin({...uc}))`: each record copied through the constructor. */
  function Copies(s: seq<CoinRecord>): (res: seq<CoinRecord>)
    ensures |res| == |s| && forall i :: 0 <= i < |s| ==> res[i] == Copied(s[i])
  {
    seq(|s|, i requires 0 <= i < |s| => Copied(s[i]))
  }

  /** The test that picks the records created at time `t`. */
  function CreatedAt(t: int): CoinRecord -> bool {
    (c: CoinRecord) => c.createdAt == t
  }

  /** Inserting into a newest-first list puts `x` after every record created at its time. */
  lemma {:induction false} InsertKeepsTies(s: seq<CoinRecord>, x: CoinRecord, t: int)
    requires NewestFirst(s)
    ensures Select(InsertByCreated(s, x), CreatedAt(t)) == Select(s, CreatedAt(t)) + if x.createdAt == t then [x] else []
  {
    if s == [] {
      SelectCons(x, [], CreatedAt(t));
      assert [x] + [] == [x];
    } else if s[0].createdAt >= x.createdAt {
      NewestFirstTail(s);
      InsertKeepsTies(s[1..], x, t);
      InsertTiesBehind(s, x, t);
    } else {
      if x.createdAt == t {
        NoneCreatedAt(s, t);
      }
      InsertTiesInFront(s, x, t);
    }
  }

  /** The step of `InsertKeepsTies` where `x` goes behind the first record. */
  lemma InsertTiesBehind(s: seq<CoinRecord>, x: CoinRecord, t: int)
    requires s != [] && s[0].createdAt >= x.createdAt
    requires Select(InsertByCreated(s[1..], x), CreatedAt(t)) == Select(s[1..], CreatedAt(t)) + if x.createdAt == t then [x] else []
    ensures Select(InsertByCreated(s, x), CreatedAt(t)) == Select(s, CreatedAt(t)) + if x.createdAt == t then [x] else []
  {
    var rest := InsertByCreated(s[1..], x);
    SelectFrontTail(s, rest, if x.createdAt == t then [x] else [], CreatedAt(t));
  }

  /** The step of `InsertKeepsTies` where `x` goes in front. */
  lemma InsertTiesInFront(s: seq<CoinRecord>, x: CoinRecord, t: int)
    requires s != [] && s[0].createdAt < x.createdAt
    requires x.createdAt == t ==> Select(s, CreatedAt(t)) == []
    ensures Select(InsertByCreated(s, x), CreatedAt(t)) == Select(s, CreatedAt(t)) + if x.createdAt == t then [x] else []
  {
    SelectCons(x, s, CreatedAt(t));
    if x.createdAt == t {
      assert [x] + [] == [x];
    }
  }

  /** A newest-first list that starts before `t` has no record created at `t`. */
  lemma {:induction false} NoneCreatedAt(s: seq<CoinRecord>, t: int)
    requires NewestFirst(s) && s != [] && s[0].createdAt < t
    ensures Select(s, CreatedAt(t)) == []
  {
    SelectCons(s[0], s[1..], CreatedAt(t));
    assert [s[0]] + s[1..] == s;
    if |s| > 1 {
      NewestFirstTail(s);
      NoneCreatedAt(s[1..], t);
    }
  }

  /** The tail of a newest-first list is newest first. */
  lemma NewestFirstTail(s: seq<CoinRecord>)
    requires NewestFirst(s) && s != []
    ensures NewestFirst(s[1..]) && (|s| > 1 ==> s[1].createdAt <= s[0].createdAt)
  {
    assert forall i :: 0 <= i < |s[1..]| ==> s[1..][i] == s[i + 1];
  }

  /** The sort is stable: for every creation time, the records created then appear in the
      result in the same order as in the input. */
  lemma {:induction false} SortKeepsTies(s: seq<CoinRecord>, t: int)
    ensures Select(SortNewestFirst(s), CreatedAt(t)) == Select(s, CreatedAt(t))
  {
    if s != [] {
      var init := s[..|s| - 1];
      var x := s[|s| - 1];
      assert s == init + [x];
      SortKeepsTies(init, t);
      InsertKeepsTies(SortNewestFirst(init), x, t);
      SelectSnoc(init, x, CreatedAt(t));
    }
  }

  /** `getUserCoins(isWishlist)` on the list (without the catalog join): the visible records,
      copied through the constructor, then sorted newest first. */
  function ListRecords(s: seq<CoinRecord>, isWishlist: bool): seq<CoinRecord> {
    SortNewestFirst(Copies(VisibleRecords(s, isWishlist)))
  }

  /** The listing holds the copies of exactly the live records of the requested list, each as
      often as in the store's visible part, newest first. */
  lemma ListingIsExact(s: seq<CoinRecord>, isWishlist: bool)
    ensures NewestFirst(ListRecords(s, isWishlist))
    ensures multiset(ListRecords(s, isWishlist)) == multiset(Copies(VisibleRecords(s, isWishlist)))
    ensures forall c :: c in ListRecords(s, isWishlist) <==>
                          exists v :: v in s && Visible(v, isWishlist) && c == Copied(v)
    ensures forall c :: c in ListRecords(s, isWishlist) ==> Visible(c, isWishlist) && Normalized(c)
  {
    var l := ListRecords(s, isWishlist);
    var v := VisibleRecords(s, isWishlist);
    SameMembers(l, Copies(v));
    CopiesMembers(v);
  }

  /** The copies are exactly the copies of the records. */
  lemma CopiesMembers(v: seq<CoinRecord>)
    ensures forall c :: c in Copies(v) <==> exists x :: x in v && c == Copied(x)
  {
    var cs := Copies(v);
    forall c
      ensures c in cs <==> exists x :: x in v && c == Copied(x)
    {
      if c in cs {
        var i :| 0 <= i < |cs| && cs[i] == c;
        assert v[i] in v;
      }
      if exists x :: x in v && c == Copied(x) {
        var x :| x in v && c == Copied(x);
        var i :| 0 <= i < |v| && v[i] == x;
        assert cs[i] == c;
      }
    }
  }

  /** Copies created at the same time are listed in the order of the stored list. */
  lemma ListingKeepsTies(s: seq<CoinRecord>, isWishlist: bool, t: int)
    ensures Select(ListRecords(s, isWishlist), CreatedAt(t)) == Select(Copies(VisibleRecords(s, isWishlist)), CreatedAt(t))
  {
    SortKeepsTies(Copies(VisibleRecords(s, isWishlist)), t);
  }

  /** When every stored record is already in its normal form, as every record built by the
      constructor is, the copies are the records themselves. */
  lemma ListingOfNormalized(s: seq<CoinRecord>, isWishlist: bool)
    requires forall c :: c in s ==> Normalized(c)
    ensures multiset(ListRecords(s, isWishlist)) == multiset(VisibleRecords(s, isWishlist))
    ensures forall c :: c in ListRecords(s, isWishlist) <==> c in s && Visible(c, isWishlist)
  {
    var v := VisibleRecords(s, isWishlist);
    assert Copies(v) == v by {
      forall i | 0 <= i < |v|
        ensures Copies(v)[i] == v[i]
      {
        assert v[i] in v;
      }
    }
    ListingIsExact(s, isWishlist);
  }

  /** Whether some live record of the coin is in the requested list. */
  function HasVisible(s: seq<CoinRecord>, catalogCoinId: Option<string>, isWishlist: bool): (b: bool)
    ensures b <==> exists c :: c in s && c.catalogCoinId == catalogCoinId && Visible(c, isWishlist)
  {
    if s == [] then false
    else (s[0].catalogCoinId == catalogCoinId && Visible(s[0], isWishlist))
         || HasVisible(s[1..], catalogCoinId, isWishlist)
  }

  datatype Presence = Presence(owned: bool, wishlisted: bool)

  /** `isInCollection(catalogCoinId)`. */
  function InCollection(s: seq<CoinRecord>, catalogCoinId: Option<string>): Presence {
    Presence(HasVisible(s, catalogCoinId, false), HasVisible(s, catalogCoinId, true))
  }

  /** The query agrees with the listings: a coin is owned (wishlisted) exactly when the owned
      (wishlist) listing holds a record of it. */
  lemma InCollectionMatchesListing(s: seq<CoinRecord>, catalogCoinId: Option<string>)
    ensures InCollection(s, catalogCoinId).owned <==>
              exists c :: c in ListRecords(s, false) && c.catalogCoinId == catalogCoinId
    ensures InCollection(s, catalogCoinId).wishlisted <==>
              exists c :: c in ListRecords(s, true) && c.catalogCoinId == catalogCoinId
  {
    ListingIsExact(s, false);
    ListingIsExact(s, true);
  }

  /** Right after an owned coin is added it is reported owned and not wishlisted. */
  lemma AddedCoinIsOwned(s: seq<CoinRecord>, rec: CoinRecord)
    requires !rec.isWishlist && !rec.isDeleted
    ensures InCollection(AddRecord(s, rec), rec.catalogCoinId) == Presence(true, false)
  {
    assert rec in AddRecord(s, rec);
    AddOwnedPurgesWishlist(s, rec);
  }

  /** Right after a coin is removed it is neither owned nor wishlisted. */
  lemma RemovedCoinIsAbsent(s: seq<CoinRecord>, catalogCoinId: Option<string>)
    ensures InCollection(DeleteByCatalog(s, catalogCoinId), catalogCoinId) == Presence(false, false)
  {
  }
}
