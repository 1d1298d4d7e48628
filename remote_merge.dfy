/** The remote copy of a user's collection: one document `collections/{userId}` holding an
    array of coin entries, and the merge step that both push paths
    (services/UserCollectionService.js `_syncToServer` and `syncAll`) apply to that array. */
module RemoteMerge {
  import opened Wrappers
  import opened Truthiness
  import opened UserCoins
  import opened Sequences

  /** One entry of the remote `coins` array. `coinId` is the legacy name of the catalog
      reference that older entries carry instead of `catalogCoinId`. */
  datatype RemoteCoin = RemoteCoin(
    id: Option<string>,
    catalogCoinId: Option<string>,
    coinId: Option<string>,
    condition: Option<string>,
    grade: Option<string>,
    purchasePrice: Option<real>,
    purchaseDate: Option<int>,
    notes: Option<string>,
    userObverseImage: Option<string>,
    userReverseImage: Option<string>,
    userWeight: Option<real>,
    userDiameter: Option<real>,
    isWishlist: bool,
    addedAt: Option<int>,
    updatedAt: Option<int>)

  /** The whole remote document. */
  datatype CollectionDoc = CollectionDoc(userId: string, coins: seq<RemoteCoin>, updatedAt: int)

  /** The entry written for a live record at time `now` (`coinData`): optional fields through
      `|| null`, notes through `|| ''`, the creation time as `addedAt`. */
  function ToRemote(r: CoinRecord, now: int): (c: RemoteCoin)
    ensures c.id == r.id && c.catalogCoinId == r.catalogCoinId && c.coinId.None?
    ensures c.isWishlist == r.isWishlist && c.addedAt == Some(r.createdAt) && c.updatedAt == Some(now)
    ensures c.notes.Some? && (TruthyStr(r.notes) <==> c.notes.value != "")
    ensures TruthyStr(r.notes) ==> c.notes == r.notes
    ensures c.condition == OrNullStr(r.condition) && c.grade == OrNullStr(r.grade)
    ensures c.purchasePrice == OrNullReal(r.purchasePrice) && c.purchaseDate == r.purchaseDate
    ensures c.userObverseImage == OrNullStr(r.userObverseImage) && c.userReverseImage == OrNullStr(r.userReverseImage)
    ensures c.userWeight == OrNullReal(r.userWeight) && c.userDiameter == OrNullReal(r.userDiameter)
    ensures NormalStr(c.condition) && NormalStr(c.grade) && NormalReal(c.purchasePrice)
    ensures Normalized(r) ==> c.condition == r.condition && c.grade == r.grade && c.purchasePrice == r.purchasePrice
  {
    RemoteCoin(
      r.id, r.catalogCoinId, None, OrNullStr(r.condition), OrNullStr(r.grade),
      OrNullReal(r.purchasePrice), r.purchaseDate,
      Some(if TruthyStr(r.notes) then r.notes.value else ""),
      OrNullStr(r.userObverseImage), OrNullStr(r.userReverseImage), OrNullReal(r.userWeight),
      OrNullReal(r.userDiameter), r.isWishlist, Some(r.createdAt), Some(now))
  }

  /** A remote entry belongs to a record when either its id or its catalog coin id equals the
      record's. */
  predicate Matches(c: RemoteCoin, r: CoinRecord) {
    c.id == r.id || c.catalogCoinId == r.catalogCoinId
  }

  /** `findIndex`: the first matching position, if any. */
  function FindMatch(cs: seq<RemoteCoin>, r: CoinRecord): (m: Option<nat>)
    ensures m.Some? ==> m.value < |cs| && Matches(cs[m.value], r)
    ensures m.Some? ==> forall j :: 0 <= j < m.value ==> !Matches(cs[j], r)
    ensures m.None? ==> forall j :: 0 <= j < |cs| ==> !Matches(cs[j], r)
  {
    if cs == [] then None
    else if Matches(cs[0], r) then Some(0)
    else
      var m := FindMatch(cs[1..], r);
      if m.None? then None else Some(m.value + 1)
  }

  /** The test of that filter: keep the entries that do not match `r`. */
  function Unmatched(r: CoinRecord): RemoteCoin -> bool {
    (c: RemoteCoin) => !Matches(c, r)
  }

  /** The `filter` for a deleted record: every entry matching by id or by catalog coin id is
      dropped, the others are kept in order. */
  function DropMatches(cs: seq<RemoteCoin>, r: CoinRecord): (res: seq<RemoteCoin>)
    ensures |res| <= |cs|
    ensures res == Select(cs, Unmatched(r))
    ensures forall c :: c in res <==> c in cs && !Matches(c, r)
    ensures (forall j :: 0 <= j < |cs| ==> !Matches(cs[j], r)) ==> res == cs
  {
    if cs == [] then []
    else if Matches(cs[0], r) then DropMatches(cs[1..], r)
    else [cs[0]] + DropMatches(cs[1..], r)
  }

  /** The merge step of one record into the remote array at time `now`: a deleted record
      removes its entries; a live record replaces the first matching entry, or is appended
      when none matches. */
  function MergeRecord(existing: seq<RemoteCoin>, r: CoinRecord, now: int): (res: seq<RemoteCoin>)
    ensures r.isDeleted ==> |res| <= |existing| && forall c :: c in res <==> c in existing && !Matches(c, r)
    ensures r.isDeleted ==> res == Select(existing, Unmatched(r))
    ensures !r.isDeleted ==> |res| == |existing| || |res| == |existing| + 1
    ensures !r.isDeleted ==> ToRemote(r, now) in res
    ensures !r.isDeleted && |res| == |existing| ==>
              exists i :: && 0 <= i < |existing| && Matches(existing[i], r)
                          && (forall j :: 0 <= j < i ==> !Matches(existing[j], r))
                          && res == existing[i := ToRemote(r, now)]
    ensures !r.isDeleted && |res| == |existing| + 1 ==>
              res == existing + [ToRemote(r, now)] && forall c :: c in existing ==> !Matches(c, r)
  {
    if r.isDeleted then DropMatches(existing, r)
    else
      var i := FindMatch(existing, r);
      if i.Some? then
        var res := existing[i.value := ToRemote(r, now)];
        assert res[i.value] == ToRemote(r, now);
        res
      else existing + [ToRemote(r, now)]
  }

  /** Merging a live record keeps every entry that neither matches it nor sits at the replaced
      position; in particular an entry for an unrelated coin survives. */
  lemma MergeKeepsUnrelated(existing: seq<RemoteCoin>, r: CoinRecord, now: int, c: RemoteCoin)
    requires c in existing && !Matches(c, r)
    ensures c in MergeRecord(existing, r, now)
  {
    if !r.isDeleted {
      var i := FindMatch(existing, r);
      if i.Some? {
        var k :| 0 <= k < |existing| && existing[k] == c;
        assert k != i.value;
        assert MergeRecord(existing, r, now)[k] == c;
      }
    }
  }

  lemma {:induction false} DropMatchesIdempotent(cs: seq<RemoteCoin>, r: CoinRecord)
    ensures DropMatches(DropMatches(cs, r), r) == DropMatches(cs, r)
  {
    var d := DropMatches(cs, r);
    forall j | 0 <= j < |d|
      ensures !Matches(d[j], r)
    {
      assert d[j] in d;
    }
  }

  /** Merging the same record twice at the same time is the same as merging it once. */
  lemma MergeIdempotent(existing: seq<RemoteCoin>, r: CoinRecord, now: int)
    ensures MergeRecord(MergeRecord(existing, r, now), r, now) == MergeRecord(existing, r, now)
  {
    var once := MergeRecord(existing, r, now);
    if r.isDeleted {
      DropMatchesIdempotent(existing, r);
    } else {
      var entry := ToRemote(r, now);
      assert Matches(entry, r);
      var i := FindMatch(existing, r);
      if i.Some? {
        assert once[i.value] == entry;
        assert forall j :: 0 <= j < i.value ==> once[j] == existing[j];
        assert FindMatch(once, r) == i by {
          FindMatchFirst(once, r, i.value);
        }
      } else {
        assert once[|existing|] == entry;
        assert forall j :: 0 <= j < |existing| ==> once[j] == existing[j];
        FindMatchFirst(once, r, |existing|);
      }
    }
  }

  /** The first matching position is the one `FindMatch` returns. */
  lemma FindMatchFirst(cs: seq<RemoteCoin>, r: CoinRecord, i: nat)
    requires i < |cs| && Matches(cs[i], r)
    requires forall j :: 0 <= j < i ==> !Matches(cs[j], r)
    ensures FindMatch(cs, r) == Some(i)
  {
  }

  /** The `syncAll` batch: the merge step applied to each record in turn. */
  function BatchMerge(existing: seq<RemoteCoin>, rs: seq<CoinRecord>, now: int): (res: seq<RemoteCoin>)
    ensures |res| <= |existing| + |rs|
    decreases |rs|
  {
    if rs == [] then existing
    else MergeRecord(BatchMerge(existing, rs[..|rs| - 1], now), rs[|rs| - 1], now)
  }

  /** A batch of one record is exactly the single-record merge of `_syncToServer`. */
  lemma BatchOfOne(existing: seq<RemoteCoin>, r: CoinRecord, now: int)
    ensures BatchMerge(existing, [r], now) == MergeRecord(existing, r, now)
  {
    assert [r][..0] == [];
  }

  /** Extending a batch by one record merges that record into the batch's result. */
  lemma BatchAppend(existing: seq<RemoteCoin>, rs: seq<CoinRecord>, r: CoinRecord, now: int)
    ensures BatchMerge(existing, rs + [r], now) == MergeRecord(BatchMerge(existing, rs, now), r, now)
  {
    assert (rs + [r])[..|rs|] == rs;
  }

  /** After a batch, the entry of its last live record is present. */
  lemma BatchContainsLastLive(existing: seq<RemoteCoin>, rs: seq<CoinRecord>, now: int)
    requires rs != [] && !rs[|rs| - 1].isDeleted
    ensures ToRemote(rs[|rs| - 1], now) in BatchMerge(existing, rs, now)
  {
  }

  /** After a batch of only deletions, no entry matches any of them. */
  lemma {:induction false} BatchOfDeletions(existing: seq<RemoteCoin>, rs: seq<CoinRecord>, now: int)
    requires forall k :: 0 <= k < |rs| ==> rs[k].isDeleted
    ensures forall c, k :: c in BatchMerge(existing, rs, now) && 0 <= k < |rs| ==> !Matches(c, rs[k])
    ensures forall c :: c in BatchMerge(existing, rs, now) ==> c in existing
    decreases |rs|
  {
    if rs != [] {
      var init := rs[..|rs| - 1];
      var last := rs[|rs| - 1];
      var before := BatchMerge(existing, init, now);
      BatchOfDeletions(existing, init, now);
      assert BatchMerge(existing, rs, now) == MergeRecord(before, last, now);
      forall c, k | c in BatchMerge(existing, rs, now) && 0 <= k < |rs|
        ensures !Matches(c, rs[k])
      {
        assert c in before && !Matches(c, last);
        if k < |rs| - 1 {
          assert rs[k] == init[k];
        }
      }
    }
  }
}
