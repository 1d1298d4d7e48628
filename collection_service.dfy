/** The collection service (services/UserCollectionService.js, web in-memory path): a list
    of user-coin objects, the signed-in user's id and the "loading from server" flag, with
    the CRUD operations, the two queries, and the push and pull halves of sync against the
    remote store. The clock (`now`), generated ids and the availability check `_canSync()`
    are parameters. */
module CollectionService {
  import opened Wrappers
  import opened Truthiness
  import opened UserCoins
  import opened RemoteMerge
  import opened Store
  import opened Pull

  /** The `coins` array of a user's remote document; a missing document reads as empty. */
  function Stored(docs: map<string, CollectionDoc>, uid: string): seq<RemoteCoin> {
    if uid in docs then docs[uid].coins else []
  }

  /** The remote documents after one record was merged into the user's array at `now`. */
  function PushedDocs(docs: map<string, CollectionDoc>, uid: string, r: CoinRecord, now: int): map<string, CollectionDoc> {
    docs[uid := CollectionDoc(uid, MergeRecord(Stored(docs, uid), r, now), now)]
  }

  lemma DirtyStep(s: seq<CoinRecord>, i: int)
    requires 0 <= i < |s|
    ensures Dirty(s[..i + 1]) == Dirty(s[..i]) + (if s[i].needsSync then [s[i]] else [])
  {
    assert s[..i + 1][..i] == s[..i];
  }

  /** One step of the `syncAll` loop: the batch of the first `i + 1` records is the batch of the
      first `i` with the record at `i` merged in exactly when it is marked for sync. */
  lemma BatchStep(existing: seq<RemoteCoin>, s: seq<CoinRecord>, i: int, now: int)
    requires 0 <= i < |s|
    ensures s[i].needsSync ==>
              BatchMerge(existing, Dirty(s[..i + 1]), now) == MergeRecord(BatchMerge(existing, Dirty(s[..i]), now), s[i], now)
    ensures !s[i].needsSync ==> BatchMerge(existing, Dirty(s[..i + 1]), now) == BatchMerge(existing, Dirty(s[..i]), now)
  {
    DirtyStep(s, i);
    var d := Dirty(s[..i]);
    if s[i].needsSync {
      assert Dirty(s[..i + 1]) == d + [s[i]];
      BatchAppend(existing, d, s[i], now);
    } else {
      assert Dirty(s[..i + 1]) == d;
    }
  }

  /** The list part-way through the `syncAll` loop: the first `i` records marked synced. */
  function SyncedPrefix(s: seq<CoinRecord>, i: int, now: int): seq<CoinRecord>
    requires 0 <= i <= |s|
  {
    MarkAllSynced(s[..i], now) + s[i..]
  }

  lemma SyncedPrefixStep(s: seq<CoinRecord>, i: int, now: int)
    requires 0 <= i < |s|
    ensures |SyncedPrefix(s, i, now)| == |s| && SyncedPrefix(s, i, now)[i] == s[i]
    ensures SyncedPrefix(s, i, now)[i := SyncedRecord(s[i], now)] == SyncedPrefix(s, i + 1, now)
  {
    var a := SyncedPrefix(s, i, now)[i := SyncedRecord(s[i], now)];
    var b := SyncedPrefix(s, i + 1, now);
    assert forall k :: 0 <= k < |s| ==> a[k] == b[k];
  }

  lemma SyncedPrefixEnds(s: seq<CoinRecord>, now: int)
    ensures SyncedPrefix(s, 0, now) == s
    ensures SyncedPrefix(s, |s|, now) == MarkAllSynced(s, now)
  {
    assert s[..0] == [] && s[0..] == s;
    assert s[..|s|] == s;
  }

  /** Replacing the record `addCoin` appended by one for the same catalog coin and list is
      the same as having appended that one. */
  lemma AddRecordLast(s: seq<CoinRecord>, rec: CoinRecord, x: CoinRecord)
    requires x.isWishlist == rec.isWishlist && x.catalogCoinId == rec.catalogCoinId
    ensures AddRecord(s, rec)[|AddRecord(s, rec)| - 1 := x] == AddRecord(s, x)
  {
    var kept := if rec.isWishlist then s else DropWishlistTwins(s, rec.catalogCoinId);
    assert AddRecord(s, rec) == kept + [rec];
    assert AddRecord(s, x) == kept + [x];
    assert (kept + [rec])[|kept| := x] == kept + [x];
  }

  /** The remote store of collection documents. Every read and write may fail. */
  class RemoteStore {
    var docs: map<string, CollectionDoc>

    constructor(initial: map<string, CollectionDoc>)
      ensures docs == initial
    {
      docs := initial;
    }

    /** `getDoc`: the stored array, or a failure. */
    method Read(uid: string) returns (ok: bool, coins: seq<RemoteCoin>)
      ensures ok ==> coins == Stored(docs, uid)
    {
      ok := *;
      coins := if ok then Stored(docs, uid) else [];
    }

    /** `setDoc`: replaces the whole document, or fails and changes nothing. */
    method Write(uid: string, doc: CollectionDoc) returns (ok: bool)
      modifies this
      ensures ok ==> docs == old(docs)[uid := doc]
      ensures !ok ==> docs == old(docs)
    {
      ok := *;
      if ok {
        docs := docs[uid := doc];
      }
    }
  }

  /** The records the objects hold now, in list order. */
  function Snapshot(cs: seq<UserCoin>): (r: seq<CoinRecord>)
    reads cs
    ensures |r| == |cs|
  {
    if cs == [] then [] else [cs[0].Data()] + Snapshot(cs[1..])
  }

  /** Each position of the snapshot holds that object's record. */
  lemma {:induction false} SnapshotAt(cs: seq<UserCoin>, i: int)
    requires 0 <= i < |cs|
    ensures Snapshot(cs)[i] == cs[i].Data()
  {
    if i > 0 {
      SnapshotAt(cs[1..], i - 1);
    }
  }

  lemma SnapshotEach(cs: seq<UserCoin>)
    ensures forall k :: 0 <= k < |cs| ==> Snapshot(cs)[k] == cs[k].Data()
  {
    forall k | 0 <= k < |cs|
      ensures Snapshot(cs)[k] == cs[k].Data()
    {
      SnapshotAt(cs, k);
    }
  }

  /** A sequence that agrees with the objects' records position by position is the snapshot. */
  lemma SnapshotExt(cs: seq<UserCoin>, s: seq<CoinRecord>)
    requires |s| == |cs| && forall k :: 0 <= k < |cs| ==> cs[k].Data() == s[k]
    ensures Snapshot(cs) == s
  {
    SnapshotEach(cs);
  }

  lemma SnapshotSnoc(cs: seq<UserCoin>, c: UserCoin)
    ensures Snapshot(cs + [c]) == Snapshot(cs) + [c.Data()]
  {
    SnapshotEach(cs);
    SnapshotEach(cs + [c]);
    SnapshotExt(cs + [c], Snapshot(cs) + [c.Data()]);
  }

  predicate Distinct(cs: seq<UserCoin>) {
    forall i, j :: 0 <= i < j < |cs| ==> cs[i] != cs[j]
  }

  lemma DistinctTail(cs: seq<UserCoin>)
    requires cs != [] && Distinct(cs)
    ensures Distinct(cs[1..]) && cs[0] !in cs[1..]
  {
  }

  lemma SnapshotCons(c: UserCoin, cs: seq<UserCoin>)
    ensures Snapshot([c] + cs) == [c.Data()] + Snapshot(cs)
  {
    assert ([c] + cs)[1..] == cs;
  }

  /** The object-level `filter` of `addCoin`. */
  function DropWishlistTwinObjects(cs: seq<UserCoin>, catalogCoinId: Option<string>): (res: seq<UserCoin>)
    reads cs
    ensures forall c :: c in res ==> c in cs
    ensures Distinct(cs) ==> Distinct(res)
  {
    if cs == [] then []
    else
      var rest := DropWishlistTwinObjects(cs[1..], catalogCoinId);
      if IsWishlistTwin(cs[0].Data(), catalogCoinId) then
        (if Distinct(cs) then DistinctTail(cs); rest else rest)
      else
        (if Distinct(cs) then DistinctTail(cs); [cs[0]] + rest else [cs[0]] + rest)
  }

  /** The filtered objects hold exactly the filtered records. */
  lemma {:induction false} DropTwinObjectsSnapshot(cs: seq<UserCoin>, catalogCoinId: Option<string>)
    ensures Snapshot(DropWishlistTwinObjects(cs, catalogCoinId)) == DropWishlistTwins(Snapshot(cs), catalogCoinId)
  {
    if cs != [] {
      DropTwinObjectsSnapshot(cs[1..], catalogCoinId);
      var rest := DropWishlistTwinObjects(cs[1..], catalogCoinId);
      SnapshotCons(cs[0], cs[1..]);
      assert cs == [cs[0]] + cs[1..];
      var s := Snapshot(cs);
      assert s[0] == cs[0].Data() && s[1..] == Snapshot(cs[1..]);
      if !IsWishlistTwin(cs[0].Data(), catalogCoinId) {
        SnapshotCons(cs[0], rest);
      }
    }
  }

  /** The object-level `filter` of `removeCoin` and `_deleteLocalCoin`. */
  function DeleteCatalogObjects(cs: seq<UserCoin>, catalogCoinId: Option<string>): (res: seq<UserCoin>)
    reads cs
    ensures forall c :: c in res ==> c in cs && c.catalogCoinId != catalogCoinId
    ensures Distinct(cs) ==> Distinct(res)
  {
    if cs == [] then []
    else
      var rest := DeleteCatalogObjects(cs[1..], catalogCoinId);
      if cs[0].catalogCoinId == catalogCoinId then
        (if Distinct(cs) then DistinctTail(cs); rest else rest)
      else
        (if Distinct(cs) then DistinctTail(cs); [cs[0]] + rest else [cs[0]] + rest)
  }

  /** The filtered objects hold exactly the filtered records. */
  lemma {:induction false} DeleteCatalogObjectsSnapshot(cs: seq<UserCoin>, catalogCoinId: Option<string>)
    ensures Snapshot(DeleteCatalogObjects(cs, catalogCoinId)) == DeleteByCatalog(Snapshot(cs), catalogCoinId)
  {
    if cs != [] {
      DeleteCatalogObjectsSnapshot(cs[1..], catalogCoinId);
      var rest := DeleteCatalogObjects(cs[1..], catalogCoinId);
      SnapshotCons(cs[0], cs[1..]);
      assert cs == [cs[0]] + cs[1..];
      var s := Snapshot(cs);
      assert s[0] == cs[0].Data() && s[1..] == Snapshot(cs[1..]);
      if cs[0].catalogCoinId != catalogCoinId {
        SnapshotCons(cs[0], rest);
      }
    }
  }

  class UserCollectionService {
    var userCoins: seq<UserCoin>
    var userId: Option<string>
    var isLoadingFromServer: bool

    /** No object appears twice in the list. */
    predicate Valid()
      reads this
    {
      Distinct(userCoins)
    }

    /** The list as values. */
    function Records(): seq<CoinRecord>
      reads this, userCoins
    {
      Snapshot(userCoins)
    }

    /** The objects the list holds, as a frame. */
    ghost function Objects(): set<UserCoin>
      reads this
    {
      set c | c in userCoins
    }

    /** The service after `initialize(userId)` with nothing saved. */
    constructor(uid: Option<string>)
      ensures Valid() && userCoins == [] && userId == uid && !isLoadingFromServer
    {
      userCoins := [];
      userId := uid;
      isLoadingFromServer := false;
    }

    /** `_syncToServer(coin)`: with a user and a reachable store, read the user's array,
        merge the record into it, write it back and mark the object synced. Any failure is
        swallowed and leaves the object as it was. */
    method SyncToServer(coin: UserCoin, now: int, canSync: bool, remote: RemoteStore)
      modifies coin, remote
      ensures (&& coin.Data() == old(coin.Data()) && remote.docs == old(remote.docs))
              || (&& TruthyStr(userId) && canSync
                  && coin.Data() == MarkedSynced(old(coin.Data()), now)
                  && remote.docs == PushedDocs(old(remote.docs), userId.value, old(coin.Data()), now))
      ensures !TruthyStr(userId) || !canSync ==> coin.Data() == old(coin.Data()) && remote.docs == old(remote.docs)
    {
      if !TruthyStr(userId) || !canSync {
        return;
      }
      var uid := userId.value;
      var ok, existing := remote.Read(uid);
      if !ok {
        return;
      }
      existing := MergeRecord(existing, coin.Data(), now);
      ok := remote.Write(uid, CollectionDoc(uid, existing, now));
      if ok {
        coin.MarkAsSynced(now);
      }
    }

    /** `_syncToServer` on the object at position `i`, seen on the list. */
    method SyncAt(i: nat, now: int, canSync: bool, remote: RemoteStore)
      requires Valid() && i < |userCoins|
      modifies userCoins[i], remote
      ensures || (Records() == old(Records()) && remote.docs == old(remote.docs))
              || (&& TruthyStr(userId) && canSync
                  && Records() == old(Records())[i := MarkedSynced(old(Records())[i], now)]
                  && remote.docs == PushedDocs(old(remote.docs), userId.value, old(Records())[i], now))
    {
      var coin := userCoins[i];
      SnapshotEach(userCoins);
      ghost var before := Records();
      SyncToServer(coin, now, canSync, remote);
      SnapshotExt(userCoins, before[i := coin.Data()]);
    }

    /** The list step of `addCoin`: an owned coin first drops the wishlist records of its
        catalog coin, then the object is appended. */
    method PushCoin(coin: UserCoin)
      requires Valid() && coin !in userCoins
      modifies this
      ensures Valid() && userId == old(userId) && isLoadingFromServer == old(isLoadingFromServer)
      ensures forall c :: c in userCoins ==> c in old(userCoins) || c == coin
      ensures |userCoins| > 0 && userCoins[|userCoins| - 1] == coin
      ensures Records() == AddRecord(old(Records()), coin.Data())
    {
      var kept := userCoins;
      if !coin.isWishlist {
        DropTwinObjectsSnapshot(userCoins, coin.catalogCoinId);
        kept := DropWishlistTwinObjects(userCoins, coin.catalogCoinId);
      }
      SnapshotSnoc(kept, coin);
      userCoins := kept + [coin];
    }

    /** The rest of `addCoin` once the new record passed validation: the list step, then the
        push, or only the mark while a pull is running. */
    method AddValidated(coin: UserCoin, now: int, canSync: bool, remote: RemoteStore)
      requires Valid() && coin !in userCoins && coin.needsSync
      modifies this, coin, remote
      ensures Valid() && userId == old(userId) && isLoadingFromServer == old(isLoadingFromServer)
      ensures forall c :: c in userCoins ==> c in old(userCoins) || c == coin
      ensures old(isLoadingFromServer) ==>
                && Records() == AddRecord(old(Records()), MarkedSynced(old(coin.Data()), now))
                && remote.docs == old(remote.docs)
      ensures !old(isLoadingFromServer) ==>
                || (Records() == AddRecord(old(Records()), old(coin.Data())) && remote.docs == old(remote.docs))
                || (&& TruthyStr(userId) && canSync
                    && Records() == AddRecord(old(Records()), MarkedSynced(old(coin.Data()), now))
                    && remote.docs == PushedDocs(old(remote.docs), userId.value, old(coin.Data()), now))
    {
      ghost var rec := coin.Data();
      PushCoin(coin);
      AddRecordLast(old(Records()), rec, MarkedSynced(rec, now));
      if !isLoadingFromServer {
        SyncAt(|userCoins| - 1, now, canSync, remote);
      } else {
        MarkSyncedAt(|userCoins| - 1, now);
      }
    }

    /** `addCoin(catalogCoinId, data)`: the record is built and validated; an owned coin first
        drops the wishlist records of the same catalog coin; the record is appended, then
        pushed, or only marked synced while a pull is running. */
    method AddCoin(catalogCoinId: Option<string>, data: AddData, newId: string, now: int,
                   canSync: bool, remote: RemoteStore) returns (r: Result<UserCoin, string>)
      requires Valid()
      modifies this, remote
      ensures Valid() && userId == old(userId) && isLoadingFromServer == old(isLoadingFromServer)
      ensures fresh(Objects() - old(Objects()))
      ensures var rec := NewCoinRecord(newId, old(userId), catalogCoinId, data, now);
              r.Err? <==> Validate(rec).Err?
      ensures var rec := NewCoinRecord(newId, old(userId), catalogCoinId, data, now);
              r.Err? ==> r.error == Validate(rec).error && Records() == old(Records())
                         && remote.docs == old(remote.docs)
      ensures var rec := NewCoinRecord(newId, old(userId), catalogCoinId, data, now);
              r.Ok? && old(isLoadingFromServer) ==>
                Records() == AddRecord(old(Records()), MarkedSynced(rec, now)) && remote.docs == old(remote.docs)
      ensures var rec := NewCoinRecord(newId, old(userId), catalogCoinId, data, now);
              r.Ok? && !old(isLoadingFromServer) ==>
                || (Records() == AddRecord(old(Records()), rec) && remote.docs == old(remote.docs))
                || (&& TruthyStr(userId) && canSync
                    && Records() == AddRecord(old(Records()), MarkedSynced(rec, now))
                    && remote.docs == PushedDocs(old(remote.docs), userId.value, rec, now))
    {
      SnapshotEach(userCoins);
      ghost var before := Records();
      var coin := new UserCoin(AddInput(newId, userId, catalogCoinId, data, now), now);
      SnapshotExt(userCoins, before);
      var rec := coin.Data();
      assert rec == NewCoinRecord(newId, userId, catalogCoinId, data, now);
      var valid := Validate(rec);
      if valid.Err? {
        return Err(valid.error);
      }
      AddValidated(coin, now, canSync, remote);
      r := Ok(coin);
    }

    /** `updateCoin(userCoinId, data)`: the first record with the id takes the patch, is marked
        for sync and is pushed; an unknown id is an error. */
    method UpdateCoin(userCoinId: Option<string>, p: CoinPatch, now: int, canSync: bool,
                      remote: RemoteStore) returns (r: Result<UserCoin, string>)
      requires Valid()
      modifies userCoins, remote
      ensures r.Err? <==> UpdateById(old(Records()), userCoinId, p, now).Err?
      ensures r.Err? ==> r.error == "UserCoin not found" && Records() == old(Records())
                         && remote.docs == old(remote.docs)
      ensures r.Ok? ==>
                var t := UpdateById(old(Records()), userCoinId, p, now).value;
                var i := FindById(old(Records()), userCoinId).value;
                || (Records() == t && remote.docs == old(remote.docs))
                || (&& TruthyStr(userId) && canSync && Records() == t[i := MarkedSynced(t[i], now)]
                    && remote.docs == PushedDocs(old(remote.docs), userId.value, t[i], now))
    {
      var i := FindById(Records(), userCoinId);
      if i.None? {
        return Err("UserCoin not found");
      }
      var coin := userCoins[i.value];
      SnapshotEach(userCoins);
      ghost var before := Records();
      coin.Update(p, now);
      SnapshotExt(userCoins, before[i.value := coin.Data()]);
      SyncAt(i.value, now, canSync, remote);
      r := Ok(coin);
    }

    /** The first half of `removeCoin`: every object of the coin leaves the list, and the
        first one found is handed back, no longer in the list. */
    method DropCatalogCoin(catalogCoinId: Option<string>) returns (coin: UserCoin?)
      requires Valid()
      modifies this
      ensures Valid() && userId == old(userId) && isLoadingFromServer == old(isLoadingFromServer)
      ensures Objects() <= old(Objects())
      ensures Records() == DeleteByCatalog(old(Records()), catalogCoinId)
      ensures coin == null <==> FindByCatalog(old(Records()), catalogCoinId).None?
      ensures coin != null ==>
                && coin !in userCoins && coin in old(userCoins)
                && coin.Data() == old(Records())[FindByCatalog(old(Records()), catalogCoinId).value]
    {
      var i := FindByCatalog(Records(), catalogCoinId);
      coin := null;
      if i.Some? {
        coin := userCoins[i.value];
        SnapshotAt(userCoins, i.value);
      }
      DeleteCatalogObjectsSnapshot(userCoins, catalogCoinId);
      userCoins := DeleteCatalogObjects(userCoins, catalogCoinId);
    }

    /** `removeCoin(catalogCoinId)`: every record of the coin leaves the list; the first one
        found is soft-deleted and pushed, so the remote array loses the coin too. */
    method RemoveCoin(catalogCoinId: Option<string>, now: int, canSync: bool, remote: RemoteStore)
      requires Valid()
      modifies this, userCoins, remote
      ensures Valid() && userId == old(userId) && isLoadingFromServer == old(isLoadingFromServer)
      ensures Objects() <= old(Objects())
      ensures Records() == DeleteByCatalog(old(Records()), catalogCoinId)
      ensures FindByCatalog(old(Records()), catalogCoinId).None? ==> remote.docs == old(remote.docs)
      ensures FindByCatalog(old(Records()), catalogCoinId).Some? ==>
                var gone := MarkedDeleted(old(Records())[FindByCatalog(old(Records()), catalogCoinId).value], now);
                || remote.docs == old(remote.docs)
                || (TruthyStr(userId) && canSync && remote.docs == PushedDocs(old(remote.docs), userId.value, gone, now))
    {
      var coin := DropCatalogCoin(catalogCoinId);
      if coin != null {
        SnapshotEach(userCoins);
        ghost var kept := Records();
        coin.MarkAsDeleted(now);
        SyncToServer(coin, now, canSync, remote);
        SnapshotExt(userCoins, kept);
      }
    }

    /** `getUserCoins(isWishlist)` without the catalog join: copies of the live records of
        that list, newest first. */
    function GetUserCoins(isWishlist: bool): (r: seq<CoinRecord>)
      reads this, userCoins
      ensures NewestFirst(r)
      ensures multiset(r) == multiset(Copies(VisibleRecords(Records(), isWishlist)))
      ensures forall c :: c in r <==> exists v :: v in Records() && Visible(v, isWishlist) && c == Copied(v)
      ensures forall c :: c in r ==> Visible(c, isWishlist) && Normalized(c)
    {
      ListingIsExact(Records(), isWishlist);
      ListRecords(Records(), isWishlist)
    }

    /** `isInCollection(catalogCoinId)`. */
    function IsInCollection(catalogCoinId: Option<string>): (p: Presence)
      reads this, userCoins
      ensures p.owned <==> exists c :: c in Records() && c.catalogCoinId == catalogCoinId && Visible(c, false)
      ensures p.wishlisted <==> exists c :: c in Records() && c.catalogCoinId == catalogCoinId && Visible(c, true)
    {
      InCollection(Records(), catalogCoinId)
    }

    /** `moveToCollection(userCoinId)`: the first record with the id becomes owned and is
        pushed; an unknown id is silently ignored. */
    method MoveToCollection(userCoinId: Option<string>, now: int, canSync: bool, remote: RemoteStore)
      requires Valid()
      modifies userCoins, remote
      ensures FindById(old(Records()), userCoinId).None? ==>
                Records() == old(Records()) && remote.docs == old(remote.docs)
      ensures FindById(old(Records()), userCoinId).Some? ==>
                var t := MoveById(old(Records()), userCoinId, now);
                var i := FindById(old(Records()), userCoinId).value;
                || (Records() == t && remote.docs == old(remote.docs))
                || (&& TruthyStr(userId) && canSync && Records() == t[i := MarkedSynced(t[i], now)]
                    && remote.docs == PushedDocs(old(remote.docs), userId.value, t[i], now))
    {
      var i := FindById(Records(), userCoinId);
      if i.Some? {
        var coin := userCoins[i.value];
        SnapshotEach(userCoins);
        ghost var before := Records();
        coin.isWishlist := false;
        coin.MarkForSync(now);
        SnapshotExt(userCoins, before[i.value := coin.Data()]);
        SyncAt(i.value, now, canSync, remote);
      }
    }

    /** `clearAll()`: the local list is emptied; with a user and a reachable store the remote
        array is replaced by an empty one, a failure being swallowed. */
    method ClearAll(now: int, canSync: bool, remote: RemoteStore)
      modifies this, remote
      ensures Valid() && userCoins == [] && Records() == []
      ensures userId == old(userId) && isLoadingFromServer == old(isLoadingFromServer)
      ensures !(canSync && TruthyStr(userId)) ==> remote.docs == old(remote.docs)
      ensures || remote.docs == old(remote.docs)
              || (TruthyStr(userId) && remote.docs == old(remote.docs)[userId.value := CollectionDoc(userId.value, [], now)])
    {
      userCoins := [];
      if canSync && TruthyStr(userId) {
        var _ := remote.Write(userId.value, CollectionDoc(userId.value, [], now));
      }
    }

    /** `markAsSynced` on the object at position `i` when it is marked for sync. */
    method MarkSyncedAt(i: nat, now: int)
      requires Valid() && i < |userCoins|
      modifies userCoins[i]
      ensures Records() == old(Records())[i := SyncedRecord(old(Records())[i], now)]
    {
      var coin := userCoins[i];
      SnapshotEach(userCoins);
      ghost var before := Records();
      if coin.needsSync {
        coin.MarkAsSynced(now);
      }
      SnapshotExt(userCoins, before[i := coin.Data()]);
    }

    /** The loop of `syncAll`: each record marked for sync, in list order, is merged into
        `existing` and then marked synced. */
    method MergeAndMarkDirty(existing: seq<RemoteCoin>, now: int) returns (merged: seq<RemoteCoin>)
      requires Valid()
      modifies userCoins
      ensures Records() == MarkAllSynced(old(Records()), now)
      ensures merged == BatchMerge(existing, Dirty(old(Records())), now)
    {
      ghost var before := Records();
      SyncedPrefixEnds(before, now);
      assert before[..0] == [];
      merged := existing;
      var i := 0;
      while i < |userCoins|
        invariant 0 <= i <= |userCoins| == |before|
        invariant Records() == SyncedPrefix(before, i, now)
        invariant merged == BatchMerge(existing, Dirty(before[..i]), now)
      {
        var coin := userCoins[i];
        SnapshotAt(userCoins, i);
        SyncedPrefixStep(before, i, now);
        BatchStep(existing, before, i, now);
        if coin.needsSync {
          merged := MergeRecord(merged, coin.Data(), now);
        }
        MarkSyncedAt(i, now);
        i := i + 1;
      }
      assert before[..i] == before;
    }

    /** `syncAll()`: every record marked for sync is merged, in list order, into the remote
        array read once, and marked synced as it is merged; the array is then written once.
        A failed read leaves everything as it was; a failed write is swallowed after the
        records were already marked synced. */
    method SyncAll(now: int, canSync: bool, remote: RemoteStore)
      requires Valid()
      modifies userCoins, remote
      ensures !canSync || Dirty(old(Records())) == [] ==>
                Records() == old(Records()) && remote.docs == old(remote.docs)
      ensures || (Records() == old(Records()) && remote.docs == old(remote.docs))
              || (&& canSync && TruthyStr(userId)
                  && Records() == MarkAllSynced(old(Records()), now)
                  && (|| remote.docs == old(remote.docs)
                      || remote.docs == old(remote.docs)[userId.value := CollectionDoc(userId.value,
                           BatchMerge(Stored(old(remote.docs), userId.value), Dirty(old(Records())), now), now)]))
    {
      if !canSync {
        return;
      }
      if Dirty(Records()) == [] {
        return;
      }
      // `doc(db, 'collections', userId)` throws for a null or empty id
      if !TruthyStr(userId) {
        return;
      }
      PushDirty(userId.value, now, remote);
    }

    /** The read, merge and write of `syncAll` for the user `uid`. */
    method PushDirty(uid: string, now: int, remote: RemoteStore)
      requires Valid()
      modifies userCoins, remote
      ensures || (Records() == old(Records()) && remote.docs == old(remote.docs))
              || (&& Records() == MarkAllSynced(old(Records()), now)
                  && (|| remote.docs == old(remote.docs)
                      || remote.docs == old(remote.docs)[uid := CollectionDoc(uid,
                           BatchMerge(Stored(old(remote.docs), uid), Dirty(old(Records())), now), now)]))
    {
      ghost var before := Records();
      var ok, existing := remote.Read(uid);
      if !ok {
        return;
      }
      existing := MergeAndMarkDirty(existing, now);
      ghost var synced := Records();
      assert synced == MarkAllSynced(before, now);
      var _ := remote.Write(uid, CollectionDoc(uid, existing, now));
      assert Records() == synced;
    }

    /** `_updateLocalCoin(userCoinId, data)`: update without pushing. */
    method UpdateLocalCoin(userCoinId: Option<string>, p: CoinPatch, now: int)
      requires Valid()
      modifies userCoins
      ensures Records() == UpdateLocal(old(Records()), userCoinId, p, now)
    {
      var i := FindById(Records(), userCoinId);
      if i.Some? {
        var coin := userCoins[i.value];
        SnapshotEach(userCoins);
        ghost var before := Records();
        coin.Update(p, now);
        coin.MarkAsSynced(now);
        SnapshotExt(userCoins, before[i.value := coin.Data()]);
      }
    }

    /** `_deleteLocalCoin(catalogCoinId)`: delete without pushing. */
    method DeleteLocalCoin(catalogCoinId: Option<string>)
      requires Valid()
      modifies this
      ensures Valid() && userId == old(userId) && isLoadingFromServer == old(isLoadingFromServer)
      ensures Objects() <= old(Objects())
      ensures Records() == DeleteByCatalog(old(Records()), catalogCoinId)
    {
      DeleteCatalogObjectsSnapshot(userCoins, catalogCoinId);
      userCoins := DeleteCatalogObjects(userCoins, catalogCoinId);
    }

    /** One pass of the first loop of `loadFromFirebase` for the remote entry `sc`: a coin
        missing locally is added through `addCoin`, a local one is overwritten from the server
        when `ShouldUpdate` says so, anything else is left alone. */
    method ApplyRemoteEntry(localAll: seq<CoinRecord>, sc: RemoteCoin, newId: string, now: int,
                            canSync: bool, remote: RemoteStore) returns (ok: bool)
      requires Valid() && isLoadingFromServer
      modifies this, userCoins, remote
      ensures Valid() && isLoadingFromServer && userId == old(userId)
      ensures remote.docs == old(remote.docs)
      ensures fresh(Objects() - old(Objects()))
      ensures ok <==> PullStep(old(Records()), localAll, sc, newId, userId, now).Ok?
      ensures ok ==> Records() == PullStep(old(Records()), localAll, sc, newId, userId, now).value
      ensures !ok ==> Records() == old(Records())
    {
      var key := ServerKey(sc);
      var j := FindByCatalog(localAll, key);
      if j.None? {
        var added := AddCoin(key, ServerData(sc), newId, now, canSync, remote);
        ok := added.Ok?;
      } else {
        if ShouldUpdate(sc, localAll[j.value]) {
          UpdateLocalCoin(localAll[j.value].id, ServerPatch(sc), now);
        }
        ok := true;
      }
    }

    /** The first loop of `loadFromFirebase`: the remote entries in order, as `PullAdds`
        says; an add that fails validation ends the loop (the surrounding `try` catches it). */
    method ApplyRemoteEntries(localAll: seq<CoinRecord>, scs: seq<RemoteCoin>, newId: nat -> string,
                              now: int, canSync: bool, remote: RemoteStore) returns (failed: bool)
      requires Valid() && isLoadingFromServer
      modifies this, userCoins, remote
      ensures Valid() && isLoadingFromServer && userId == old(userId)
      ensures remote.docs == old(remote.docs)
      ensures fresh(Objects() - old(Objects()))
      ensures PullAdds(old(Records()), localAll, scs, newId, userId, now) == PullState(Records(), failed)
    {
      ghost var before := Records();
      var i := 0;
      while i < |scs|
        invariant 0 <= i <= |scs|
        invariant Valid() && isLoadingFromServer && userId == old(userId)
        invariant remote.docs == old(remote.docs)
        invariant fresh(Objects() - old(Objects()))
        invariant PullAdds(before, localAll, scs[..i], newId, userId, now) == PullState(Records(), false)
      {
        PullAddsNext(before, localAll, scs, i, newId, userId, now);
        var ok := ApplyRemoteEntry(localAll, scs[i], newId(i), now, canSync, remote);
        if !ok {
          FailureIsFinal(before, localAll, scs, i + 1, newId, userId, now);
          return true;
        }
        i := i + 1;
      }
      assert scs[..i] == scs;
      return false;
    }

    /** The second loop of `loadFromFirebase`: every local record that was clean and whose
        catalog coin is not on the server takes its catalog coin out of the list. */
    method DropRemoteDeleted(localAll: seq<CoinRecord>, keys: set<Option<string>>)
      requires Valid()
      modifies this
      ensures Valid() && isLoadingFromServer == old(isLoadingFromServer) && userId == old(userId)
      ensures Objects() <= old(Objects())
      ensures Records() == PullDeletes(old(Records()), localAll, keys)
    {
      ghost var before := Records();
      var k := 0;
      while k < |localAll|
        invariant 0 <= k <= |localAll|
        invariant Valid() && isLoadingFromServer == old(isLoadingFromServer) && userId == old(userId)
        invariant Objects() <= old(Objects())
        invariant Records() == PullDeletes(before, localAll[..k], keys)
      {
        assert localAll[..k + 1][..k] == localAll[..k];
        var local := localAll[k];
        if local.catalogCoinId !in keys && !local.needsSync {
          DeleteLocalCoin(local.catalogCoinId);
        }
        k := k + 1;
      }
      assert localAll[..k] == localAll;
    }

    /** The body of the `try` in `loadFromFirebase` once the remote array `scs` has been read:
        the snapshot of both lists, the first loop, and the second loop when the first did not
        fail and the array is non-empty. */
    method PullFrom(scs: seq<RemoteCoin>, newId: nat -> string, now: int, canSync: bool, remote: RemoteStore)
      requires Valid() && isLoadingFromServer
      modifies this, userCoins, remote
      ensures Valid() && isLoadingFromServer && userId == old(userId)
      ensures remote.docs == old(remote.docs)
      ensures Records() == PullAll(old(Records()), scs, newId, userId, now).store
    {
      ghost var before := Records();
      var localAll := GetUserCoins(false) + GetUserCoins(true);
      assert localAll == LocalSnapshot(before);
      var keys := ServerKeys(scs);
      var failed := ApplyRemoteEntries(localAll, scs, newId, now, canSync, remote);
      ghost var adds := Records();
      assert PullAdds(before, localAll, scs, newId, userId, now) == PullState(adds, failed);
      if !failed && |scs| > 0 {
        DropRemoteDeleted(localAll, keys);
        assert Records() == PullDeletes(adds, localAll, keys);
      }
    }

    /** Sets the flag that marks a pull in progress; the list is untouched. */
    method SetLoading(loading: bool)
      modifies this
      ensures isLoadingFromServer == loading
      ensures userCoins == old(userCoins) && userId == old(userId)
      ensures Records() == old(Records())
    {
      isLoadingFromServer := loading;
    }

    /** `loadFromFirebase()`: with a user and a reachable store, read the remote array and
        merge it into the list as `PullAll` says. Nothing is pushed back, and once the pull has
        started the loading flag is clear again at the end whatever happened. */
    method LoadFromFirebase(now: int, newId: nat -> string, canSync: bool, remote: RemoteStore)
      requires Valid()
      modifies this, userCoins, remote
      ensures Valid() && userId == old(userId)
      ensures remote.docs == old(remote.docs)
      ensures !TruthyStr(userId) || !canSync ==>
                Records() == old(Records()) && isLoadingFromServer == old(isLoadingFromServer)
      ensures TruthyStr(userId) && canSync ==> !isLoadingFromServer
      ensures || Records() == old(Records())
              || (TruthyStr(userId) && Records() == PullAll(old(Records()), Stored(old(remote.docs), userId.value), newId, userId, now).store)
    {
      if !TruthyStr(userId) || !canSync {
        return;
      }
      ghost var start := Records();
      var uid := userId.value;
      SetLoading(true);
      var ok, scs := remote.Read(uid);
      if ok {
        assert Records() == start && scs == Stored(old(remote.docs), uid);
        PullFrom(scs, newId, now, canSync, remote);
        ghost var pulled := Records();
        SetLoading(false);
        assert Records() == pulled;
      } else {
        SetLoading(false);
      }
    }
  }
}
