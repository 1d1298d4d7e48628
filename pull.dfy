/** The pull direction of sync, `loadFromFirebase` in services/UserCollectionService.js, as
    a function of the local list and the remote `coins` array. It runs while
    `_isLoadingFromServer` is set, so the records it adds are marked synced and nothing is
    pushed back. */
module Pull {
  import opened Wrappers
  import opened Truthiness
  import opened UserCoins
  import opened RemoteMerge
  import opened Store

  /** `serverCoin.catalogCoinId || serverCoin.coinId`: the catalog reference, or the legacy
      one when it is falsy. */
  function ServerKey(sc: RemoteCoin): (k: Option<string>)
    ensures TruthyStr(sc.catalogCoinId) ==> k == sc.catalogCoinId
    ensures !TruthyStr(sc.catalogCoinId) ==> k == sc.coinId
  {
    if TruthyStr(sc.catalogCoinId) then sc.catalogCoinId else sc.coinId
  }

  /** `serverCoinIds`. */
  function ServerKeys(scs: seq<RemoteCoin>): set<Option<string>> {
    set i | 0 <= i < |scs| :: ServerKey(scs[i])
  }

  /** `serverData`: the remote entry's user fields, with `|| null` and notes through `|| ''`. */
  function ServerData(sc: RemoteCoin): (d: AddData)
    ensures d.isWishlist == sc.isWishlist && d.purchaseDate == sc.purchaseDate
    ensures d.notes.Some? && (TruthyStr(sc.notes) ==> d.notes == sc.notes)
    ensures !TruthyStr(sc.notes) ==> d.notes == Some("")
    ensures d.condition == OrNullStr(sc.condition) && d.grade == OrNullStr(sc.grade)
    ensures d.purchasePrice == OrNullReal(sc.purchasePrice)
    ensures d.userObverseImage == OrNullStr(sc.userObverseImage) && d.userReverseImage == OrNullStr(sc.userReverseImage)
    ensures d.userWeight == OrNullReal(sc.userWeight) && d.userDiameter == OrNullReal(sc.userDiameter)
    ensures NormalStr(d.condition) && NormalStr(d.grade) && NormalReal(d.purchasePrice)
  {
    AddData(
      sc.isWishlist, OrNullStr(sc.condition), OrNullStr(sc.grade), OrNullReal(sc.purchasePrice),
      sc.purchaseDate, Some(if TruthyStr(sc.notes) then sc.notes.value else ""),
      OrNullStr(sc.userObverseImage), OrNullStr(sc.userReverseImage),
      OrNullReal(sc.userWeight), OrNullReal(sc.userDiameter))
  }

  /** `update(serverData)`: every field of `serverData` is defined, so every one is written
      (and `isWishlist` is then ignored by `update`). */
  function ServerPatch(sc: RemoteCoin): CoinPatch {
    var d := ServerData(sc);
    CoinPatch(
      Set(Some(d.isWishlist)), Set(d.condition), Set(d.grade), Set(d.purchasePrice),
      Set(d.purchaseDate), Set(d.notes), Set(d.userObverseImage), Set(d.userReverseImage),
      Set(d.userWeight), Set(d.userDiameter))
  }

  /** A missing `updatedAt` counts as the epoch. */
  function TimeOrEpoch(t: Option<int>): int {
    t.GetOr(0)
  }

  /** The update rule of a pull: the server copy wins when it is newer or when the local copy
      has nothing unsynced. */
  predicate ShouldUpdate(sc: RemoteCoin, local: CoinRecord) {
    TimeOrEpoch(sc.updatedAt) > TimeOrEpoch(local.updatedAt) || !local.needsSync
  }

  /** `_updateLocalCoin(id, data)`: the first record with the id is updated and then marked
      synced; an unknown id changes nothing. */
  function UpdateLocal(s: seq<CoinRecord>, id: Option<string>, p: CoinPatch, now: int): (res: seq<CoinRecord>)
    ensures |res| == |s|
    ensures forall j :: 0 <= j < |s| && s[j].id != id ==> res[j] == s[j]
    ensures FindById(s, id).None? ==> res == s
    ensures FindById(s, id).Some? ==>
              var i := FindById(s, id).value;
              && !res[i].needsSync && res[i].syncedAt == Some(now) && res[i].updatedAt == Some(now)
              && res[i].isWishlist == s[i].isWishlist && res[i].catalogCoinId == s[i].catalogCoinId
              && res[i].id == id
              && res[i] == MarkedSynced(Updated(s[i], p, now), now)
  {
    var i := FindById(s, id);
    if i.None? then s else s[i.value := MarkedSynced(Updated(s[i.value], p, now), now)]
  }

  /** One iteration of the first loop of `loadFromFirebase` for the remote entry `sc`, given
      the snapshot `localAll` of the local listings taken before the loop. A coin missing from
      the snapshot is added through `addCoin` (which may fail validation); a present one is
      updated by the update rule. */
  function PullStep(s: seq<CoinRecord>, localAll: seq<CoinRecord>, sc: RemoteCoin,
                    newId: string, userId: Option<string>, now: int): Result<seq<CoinRecord>, string>
  {
    var key := ServerKey(sc);
    var j := FindByCatalog(localAll, key);
    if j.None? then
      var rec := NewCoinRecord(newId, userId, key, ServerData(sc), now);
      match Validate(rec)
      case Err(e) => Err(e)
      case Ok(_) => Ok(AddRecord(s, MarkedSynced(rec, now)))
    else if ShouldUpdate(sc, localAll[j.value]) then
      Ok(UpdateLocal(s, localAll[j.value].id, ServerPatch(sc), now))
    else
      Ok(s)
  }

  datatype PullState = PullState(store: seq<CoinRecord>, failed: bool)

  /** The first loop over the remote entries; `newId(i)` is the id generated if entry `i` is
      added. An error stops the loop and keeps the list reached so far. */
  function PullAdds(s: seq<CoinRecord>, localAll: seq<CoinRecord>, scs: seq<RemoteCoin>,
                    newId: nat -> string, userId: Option<string>, now: int): PullState
    decreases |scs|
  {
    if scs == [] then PullState(s, false)
    else
      var prev := PullAdds(s, localAll, scs[..|scs| - 1], newId, userId, now);
      if prev.failed then prev
      else match PullStep(prev.store, localAll, scs[|scs| - 1], newId(|scs| - 1), userId, now)
        case Err(_) => PullState(prev.store, true)
        case Ok(t) => PullState(t, false)
  }

  /** Once the first loop has failed, later remote entries change nothing. */
  lemma {:induction false} FailureIsFinal(s: seq<CoinRecord>, localAll: seq<CoinRecord>, scs: seq<RemoteCoin>,
                                          k: nat, newId: nat -> string, userId: Option<string>, now: int)
    requires k <= |scs| && PullAdds(s, localAll, scs[..k], newId, userId, now).failed
    ensures PullAdds(s, localAll, scs, newId, userId, now) == PullAdds(s, localAll, scs[..k], newId, userId, now)
    decreases |scs| - k
  {
    if k < |scs| {
      assert scs[..|scs| - 1][..k] == scs[..k];
      FailureIsFinal(s, localAll, scs[..|scs| - 1], k, newId, userId, now);
    } else {
      assert scs[..k] == scs;
    }
  }

  /** One more remote entry after a run that has not failed: the step's error marks the run
      failed with the list unchanged, its success continues from the list it returns. */
  lemma PullAddsNext(s: seq<CoinRecord>, localAll: seq<CoinRecord>, scs: seq<RemoteCoin>, i: nat,
                     newId: nat -> string, userId: Option<string>, now: int)
    requires i < |scs| && !PullAdds(s, localAll, scs[..i], newId, userId, now).failed
    ensures var prev := PullAdds(s, localAll, scs[..i], newId, userId, now).store;
            var step := PullStep(prev, localAll, scs[i], newId(i), userId, now);
            PullAdds(s, localAll, scs[..i + 1], newId, userId, now)
              == if step.Ok? then PullState(step.value, false) else PullState(prev, true)
  {
    assert scs[..i + 1][..i] == scs[..i];
  }

  /** The second loop: each clean snapshot record whose coin is absent from the server keys
      has every local record of that coin deleted. */
  function PullDeletes(s: seq<CoinRecord>, localAll: seq<CoinRecord>, keys: set<Option<string>>): seq<CoinRecord>
    decreases |localAll|
  {
    if localAll == [] then s
    else
      var prev := PullDeletes(s, localAll[..|localAll| - 1], keys);
      var l := localAll[|localAll| - 1];
      if l.catalogCoinId !in keys && !l.needsSync then DeleteByCatalog(prev, l.catalogCoinId) else prev
  }

  /** `[...localOwned, ...localWishlist]`. */
  function LocalSnapshot(s: seq<CoinRecord>): seq<CoinRecord> {
    ListRecords(s, false) + ListRecords(s, true)
  }

  /** The whole effect of `loadFromFirebase` on the list once the remote array `scs` has been
      read: the first loop, then the second only when the first did not fail and the remote
      array is non-empty. */
  function PullAll(s: seq<CoinRecord>, scs: seq<RemoteCoin>, newId: nat -> string,
                   userId: Option<string>, now: int): PullState
  {
    var localAll := LocalSnapshot(s);
    var adds := PullAdds(s, localAll, scs, newId, userId, now);
    if adds.failed || |scs| == 0 then adds
    else PullState(PullDeletes(adds.store, localAll, ServerKeys(scs)), false)
  }

  /** An empty remote array changes nothing: nothing is added and nothing is deleted. */
  lemma EmptyServerKeepsAll(s: seq<CoinRecord>, newId: nat -> string, userId: Option<string>, now: int)
    ensures PullAll(s, [], newId, userId, now) == PullState(s, false)
  {
  }

  /** A remote coin missing from the snapshot is appended as a clean record of that coin with
      the server's wishlist flag; the rest of the list is kept but for a wishlist record the
      new owned coin replaces. */
  lemma PullAddsMissing(s: seq<CoinRecord>, localAll: seq<CoinRecord>, sc: RemoteCoin,
                        newId: string, userId: Option<string>, now: int)
    requires FindByCatalog(localAll, ServerKey(sc)).None?
    requires newId != "" && TruthyStr(ServerKey(sc))
    requires !(TruthyReal(sc.purchasePrice) && sc.purchasePrice.value < 0.0)
    ensures PullStep(s, localAll, sc, newId, userId, now).Ok?
    ensures var t := PullStep(s, localAll, sc, newId, userId, now).value;
            var added := t[|t| - 1];
            && |t| >= 1 && added.catalogCoinId == ServerKey(sc) && added.id == Some(newId)
            && !added.needsSync && added.isWishlist == sc.isWishlist && !added.isDeleted
            && (forall c :: c in s && !(IsWishlistTwin(c, added.catalogCoinId) && !added.isWishlist) ==> c in t)
  {
    var rec := NewCoinRecord(newId, userId, ServerKey(sc), ServerData(sc), now);
    if !rec.isWishlist {
      AddOwnedPurgesWishlist(s, MarkedSynced(rec, now));
    }
  }

  /** A remote entry without a usable catalog reference makes `addCoin` throw, which ends the
      pull before the deletion loop; the list keeps what was reached before it. */
  lemma PullStopsOnMissingKey(s: seq<CoinRecord>, localAll: seq<CoinRecord>, scs: seq<RemoteCoin>,
                              newId: nat -> string, userId: Option<string>, now: int)
    requires scs != [] && !TruthyStr(ServerKey(scs[|scs| - 1]))
    requires FindByCatalog(localAll, ServerKey(scs[|scs| - 1])).None?
    ensures var prev := PullAdds(s, localAll, scs[..|scs| - 1], newId, userId, now);
            PullAdds(s, localAll, scs, newId, userId, now) == PullState(prev.store, true)
  {
  }

  /** A remote coin present in the snapshot is applied exactly when the update rule holds:
      otherwise the list is unchanged; when it is applied the local record of that id is left
      clean, carries the server's values and keeps its own wishlist flag. */
  lemma PullUpdateRule(s: seq<CoinRecord>, localAll: seq<CoinRecord>, sc: RemoteCoin,
                       newId: string, userId: Option<string>, now: int)
    requires FindByCatalog(localAll, ServerKey(sc)).Some?
    ensures var local := localAll[FindByCatalog(localAll, ServerKey(sc)).value];
            var r := PullStep(s, localAll, sc, newId, userId, now);
            && r.Ok?
            && (!ShouldUpdate(sc, local) ==> r.value == s)
            && (ShouldUpdate(sc, local) && FindById(s, local.id).Some? ==>
                  var i := FindById(s, local.id).value;
                  && r.value[i] == MarkedSynced(Updated(s[i], ServerPatch(sc), now), now)
                  && !r.value[i].needsSync && r.value[i].isWishlist == s[i].isWishlist
                  && r.value[i].purchaseDate == sc.purchaseDate
                  && r.value[i].notes.Some? && (TruthyStr(sc.notes) ==> r.value[i].notes == sc.notes))
  {
  }

  /** The update rule lets a newer server copy overwrite a local record that still has
      unsynced edits. */
  lemma NewerServerOverwritesDirty(s: seq<CoinRecord>, localAll: seq<CoinRecord>, sc: RemoteCoin,
                                   newId: string, userId: Option<string>, now: int)
    requires FindByCatalog(localAll, ServerKey(sc)).Some?
    requires var local := localAll[FindByCatalog(localAll, ServerKey(sc)).value];
             local.needsSync && TimeOrEpoch(sc.updatedAt) > TimeOrEpoch(local.updatedAt)
    requires FindById(s, localAll[FindByCatalog(localAll, ServerKey(sc)).value].id).Some?
    ensures var local := localAll[FindByCatalog(localAll, ServerKey(sc)).value];
            var i := FindById(s, local.id).value;
            var t := PullStep(s, localAll, sc, newId, userId, now).value;
            && t[i] == MarkedSynced(Updated(s[i], ServerPatch(sc), now), now)
            && (s[i].needsSync ==> t[i] != s[i])
  {
  }

  /** The deletion loop only removes records: it never adds one, and it keeps every record
      whose coin the server still lists. */
  lemma {:induction false} DeletesKeepListed(s: seq<CoinRecord>, localAll: seq<CoinRecord>, keys: set<Option<string>>)
    ensures forall c :: c in PullDeletes(s, localAll, keys) ==> c in s
    ensures forall c :: c in s && c.catalogCoinId in keys ==> c in PullDeletes(s, localAll, keys)
    decreases |localAll|
  {
    if localAll != [] {
      DeletesKeepListed(s, localAll[..|localAll| - 1], keys);
    }
  }

  /** Each clean snapshot record whose coin the server no longer lists loses every local
      record of that coin, including one with unsynced edits: the deletion is by catalog coin
      id, not by record. */
  lemma {:induction false} DeletesUnlisted(s: seq<CoinRecord>, localAll: seq<CoinRecord>, keys: set<Option<string>>, k: nat)
    requires k < |localAll| && localAll[k].catalogCoinId !in keys && !localAll[k].needsSync
    ensures forall c :: c in PullDeletes(s, localAll, keys) ==> c.catalogCoinId != localAll[k].catalogCoinId
    decreases |localAll|
  {
    var init := localAll[..|localAll| - 1];
    var prev := PullDeletes(s, init, keys);
    if k < |localAll| - 1 {
      assert init[k] == localAll[k];
      DeletesUnlisted(s, init, keys, k);
      var l := localAll[|localAll| - 1];
      if l.catalogCoinId !in keys && !l.needsSync {
        assert forall c :: c in DeleteByCatalog(prev, l.catalogCoinId) ==> c in prev;
      }
    }
  }

  /** A pull deletes only where the server list is non-empty and the snapshot record was
      clean: a record is removed only if a clean snapshot record of its coin is unlisted. */
  lemma {:induction false} DeletesOnlyClean(s: seq<CoinRecord>, localAll: seq<CoinRecord>, keys: set<Option<string>>, c: CoinRecord)
    requires c in s && c !in PullDeletes(s, localAll, keys)
    ensures exists k :: 0 <= k < |localAll| && localAll[k].catalogCoinId == c.catalogCoinId
                        && localAll[k].catalogCoinId !in keys && !localAll[k].needsSync
    decreases |localAll|
  {
    var init := localAll[..|localAll| - 1];
    var prev := PullDeletes(s, init, keys);
    if c in prev {
      var l := localAll[|localAll| - 1];
      assert l.catalogCoinId == c.catalogCoinId;
    } else {
      DeletesOnlyClean(s, init, keys, c);
      var k :| 0 <= k < |init| && init[k].catalogCoinId == c.catalogCoinId
               && init[k].catalogCoinId !in keys && !init[k].needsSync;
      assert localAll[k] == init[k];
    }
  }

  /** Pulling one remote entry with a usable key into an empty list gives exactly its new
      clean record. */
  lemma PullIntoEmpty(sc: RemoteCoin, newId: nat -> string, userId: Option<string>, now: int)
    requires TruthyStr(ServerKey(sc)) && newId(0) != ""
    requires Validate(NewCoinRecord(newId(0), userId, ServerKey(sc), ServerData(sc), now)).Ok?
    ensures PullAll([], [sc], newId, userId, now)
            == PullState([MarkedSynced(NewCoinRecord(newId(0), userId, ServerKey(sc), ServerData(sc), now), now)], false)
  {
    var rec := NewCoinRecord(newId(0), userId, ServerKey(sc), ServerData(sc), now);
    var added := [MarkedSynced(rec, now)];
    assert LocalSnapshot([]) == [];
    assert PullStep([], [], sc, newId(0), userId, now) == Ok(added) by {
      assert FindByCatalog([], ServerKey(sc)).None?;
      assert AddRecord([], MarkedSynced(rec, now)) == added;
    }
    assert PullAdds([], [], [sc], newId, userId, now) == PullState(added, false) by {
      assert [sc][..0] == [];
      assert PullAdds([], [], [], newId, userId, now) == PullState([], false);
    }
    assert PullDeletes(added, [], ServerKeys([sc])) == added;
  }

  /** The record created from a pushed record's server form carries its catalog coin, its
      wishlist flag and its user-entered values, and is clean. */
  lemma PulledRecordOfPushed(r: CoinRecord, pushedAt: int, id: string, userId: Option<string>, now: int)
    requires Normalized(r) && !r.isDeleted && TruthyStr(r.catalogCoinId) && id != ""
    requires !(TruthyReal(r.purchasePrice) && r.purchasePrice.value < 0.0)
    ensures var sc := ToRemote(r, pushedAt);
            var rec := NewCoinRecord(id, userId, ServerKey(sc), ServerData(sc), now);
            && ServerKey(sc) == r.catalogCoinId
            && Validate(rec).Ok?
            && var p := MarkedSynced(rec, now);
               p.catalogCoinId == r.catalogCoinId && p.isWishlist == r.isWishlist
               && WithEditable(p, r) == p && !p.needsSync
  {
  }

  /** A record pushed by `_syncToServer` and pulled into an empty list on another device
      comes back with the same catalog coin, wishlist flag and user-entered values. */
  lemma PushPullRoundTrip(r: CoinRecord, pushedAt: int, newId: nat -> string,
                          userId: Option<string>, now: int)
    requires Normalized(r) && !r.isDeleted && TruthyStr(r.catalogCoinId) && newId(0) != ""
    requires !(TruthyReal(r.purchasePrice) && r.purchasePrice.value < 0.0)
    ensures var pulled := PullAll([], [ToRemote(r, pushedAt)], newId, userId, now);
            && !pulled.failed && |pulled.store| == 1
            && pulled.store[0].catalogCoinId == r.catalogCoinId
            && pulled.store[0].isWishlist == r.isWishlist
            && WithEditable(pulled.store[0], r) == pulled.store[0]
            && !pulled.store[0].needsSync
  {
    PulledRecordOfPushed(r, pushedAt, newId(0), userId, now);
    PullIntoEmpty(ToRemote(r, pushedAt), newId, userId, now);
  }
}
