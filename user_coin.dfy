/** A coin in the user's collection or wishlist (models/UserCoin.js). The record is an
    object whose sync flags and data fields are changed in place by `update`,
    `markForSync`, `markAsSynced` and `markAsDeleted`; `Data()` takes a value snapshot of it.
    Timestamps (`Date` objects) are whole numbers of milliseconds supplied by the caller. */
module UserCoins {
  import opened Wrappers
  import opened Truthiness
  import Coins

  /** The value of a user coin at one moment. */
  datatype CoinRecord = CoinRecord(
    id: Option<string>,
    userId: Option<string>,
    catalogCoinId: Option<string>,
    isWishlist: bool,
    condition: Option<string>,
    grade: Option<string>,
    purchasePrice: Option<real>,
    purchaseDate: Option<int>,
    notes: Option<string>,
    userObverseImage: Option<string>,
    userReverseImage: Option<string>,
    userWeight: Option<real>,
    userDiameter: Option<real>,
    createdAt: int,
    updatedAt: Option<int>,
    syncedAt: Option<int>,
    needsSync: bool,
    isDeleted: bool,
    catalogCoin: Option<Coins.Coin>)

  /** The object handed to `new UserCoin(data)`; a missing flag is `false`, a missing date
      `None`. */
  datatype UserCoinData = UserCoinData(
    id: Option<string>,
    userId: Option<string>,
    catalogCoinId: Option<string>,
    isWishlist: bool,
    condition: Option<string>,
    grade: Option<string>,
    purchasePrice: Option<real>,
    purchaseDate: Option<int>,
    notes: Option<string>,
    userObverseImage: Option<string>,
    userReverseImage: Option<string>,
    userWeight: Option<real>,
    userDiameter: Option<real>,
    createdAt: Option<int>,
    updatedAt: Option<int>,
    syncedAt: Option<int>,
    needsSync: bool,
    isDeleted: bool,
    catalogCoin: Option<Coins.Coin>)

  /** One field of the object passed to `update`: `Keep` is `undefined`, `Set(v)` any other
      value, `null` included. */
  datatype Patch<T> = Keep | Set(v: Option<T>)

  datatype CoinPatch = CoinPatch(
    isWishlist: Patch<bool>,
    condition: Patch<string>,
    grade: Patch<string>,
    purchasePrice: Patch<real>,
    purchaseDate: Patch<int>,
    notes: Patch<string>,
    userObverseImage: Patch<string>,
    userReverseImage: Patch<string>,
    userWeight: Patch<real>,
    userDiameter: Patch<real>)

  function Patched<T>(old_: Option<T>, p: Patch<T>): (r: Option<T>)
    ensures p.Keep? ==> r == old_
    ensures p.Set? ==> r == p.v
  {
    match p
    case Keep => old_
    case Set(v) => v
  }

  /** `new UserCoin(data)`: the optional text and number fields go through `|| null`, and a
      missing `createdAt` becomes the current time. */
  function NewRecord(d: UserCoinData, now: int): (r: CoinRecord)
    ensures r.id == d.id && r.catalogCoinId == d.catalogCoinId
    ensures r.isWishlist == d.isWishlist && r.needsSync == d.needsSync && r.isDeleted == d.isDeleted
    ensures r.createdAt == (if d.createdAt.Some? then d.createdAt.value else now)
    ensures Normalized(r)
    ensures TruthyStr(d.notes) ==> r.notes == d.notes
    ensures TruthyReal(d.purchasePrice) ==> r.purchasePrice == d.purchasePrice
  {
    CoinRecord(
      d.id, OrNullStr(d.userId), d.catalogCoinId, d.isWishlist, OrNullStr(d.condition),
      OrNullStr(d.grade), OrNullReal(d.purchasePrice), d.purchaseDate, OrNullStr(d.notes),
      OrNullStr(d.userObverseImage), OrNullStr(d.userReverseImage), OrNullReal(d.userWeight),
      OrNullReal(d.userDiameter), d.createdAt.GetOr(now), d.updatedAt, d.syncedAt,
      d.needsSync, d.isDeleted, d.catalogCoin)
  }

  /** A record whose optional fields hold no falsy value other than `null`. */
  predicate Normalized(r: CoinRecord) {
    && NormalStr(r.userId) && NormalStr(r.condition) && NormalStr(r.grade)
    && NormalReal(r.purchasePrice) && NormalStr(r.notes) && NormalStr(r.userObverseImage)
    && NormalStr(r.userReverseImage) && NormalReal(r.userWeight) && NormalReal(r.userDiameter)
  }

  /** The constructor input that reproduces a record (the inverse of `NewRecord`). */
  function AsData(r: CoinRecord): UserCoinData {
    UserCoinData(
      r.id, r.userId, r.catalogCoinId, r.isWishlist, r.condition, r.grade, r.purchasePrice,
      r.purchaseDate, r.notes, r.userObverseImage, r.userReverseImage, r.userWeight,
      r.userDiameter, Some(r.createdAt), r.updatedAt, r.syncedAt, r.needsSync, r.isDeleted,
      r.catalogCoin)
  }

  /** Copying a normalized record through the constructor (`new UserCoin({...uc})`) changes
      nothing, whatever the current time. */
  lemma CopyIsIdentity(r: CoinRecord, now: int)
    requires Normalized(r)
    ensures NewRecord(AsData(r), now) == r
  {
  }

  /** `new UserCoin({...uc})` on a stored record: identity, flags and times are kept, and the
      optional fields come back in their `|| null` form, so an empty note or a zero price
      becomes `null`. */
  function Copied(r: CoinRecord): (c: CoinRecord)
    ensures c.id == r.id && c.catalogCoinId == r.catalogCoinId && c.isWishlist == r.isWishlist
    ensures c.isDeleted == r.isDeleted && c.needsSync == r.needsSync && c.createdAt == r.createdAt
    ensures c.updatedAt == r.updatedAt && c.syncedAt == r.syncedAt && c.purchaseDate == r.purchaseDate
    ensures c.notes == OrNullStr(r.notes) && c.purchasePrice == OrNullReal(r.purchasePrice)
    ensures c.condition == OrNullStr(r.condition) && c.grade == OrNullStr(r.grade)
    ensures Normalized(c)
    ensures Normalized(r) ==> c == r
  {
    NewRecord(AsData(r), r.createdAt)
  }

  /** `update(data)` without its sync bookkeeping: each field whose new value is not
      `undefined` is overwritten; `isWishlist` is never read. */
  function ApplyPatch(r: CoinRecord, p: CoinPatch): (u: CoinRecord)
    ensures u.id == r.id && u.userId == r.userId && u.catalogCoinId == r.catalogCoinId
    ensures u.isWishlist == r.isWishlist && u.createdAt == r.createdAt && u.isDeleted == r.isDeleted
    ensures u.updatedAt == r.updatedAt && u.syncedAt == r.syncedAt && u.needsSync == r.needsSync
    ensures u.catalogCoin == r.catalogCoin
  {
    r.(condition := Patched(r.condition, p.condition),
       grade := Patched(r.grade, p.grade),
       purchasePrice := Patched(r.purchasePrice, p.purchasePrice),
       purchaseDate := Patched(r.purchaseDate, p.purchaseDate),
       notes := Patched(r.notes, p.notes),
       userObverseImage := Patched(r.userObverseImage, p.userObverseImage),
       userReverseImage := Patched(r.userReverseImage, p.userReverseImage),
       userWeight := Patched(r.userWeight, p.userWeight),
       userDiameter := Patched(r.userDiameter, p.userDiameter))
  }

  /** `update` overwrites exactly the fields whose new value is not `undefined`. */
  lemma PatchSetsDefinedFields(r: CoinRecord, p: CoinPatch)
    ensures p.condition.Keep? ==> ApplyPatch(r, p).condition == r.condition
    ensures p.condition.Set? ==> ApplyPatch(r, p).condition == p.condition.v
    ensures p.grade.Keep? ==> ApplyPatch(r, p).grade == r.grade
    ensures p.grade.Set? ==> ApplyPatch(r, p).grade == p.grade.v
    ensures p.purchasePrice.Keep? ==> ApplyPatch(r, p).purchasePrice == r.purchasePrice
    ensures p.purchasePrice.Set? ==> ApplyPatch(r, p).purchasePrice == p.purchasePrice.v
    ensures p.purchaseDate.Keep? ==> ApplyPatch(r, p).purchaseDate == r.purchaseDate
    ensures p.purchaseDate.Set? ==> ApplyPatch(r, p).purchaseDate == p.purchaseDate.v
    ensures p.notes.Keep? ==> ApplyPatch(r, p).notes == r.notes
    ensures p.notes.Set? ==> ApplyPatch(r, p).notes == p.notes.v
    ensures p.userObverseImage.Keep? ==> ApplyPatch(r, p).userObverseImage == r.userObverseImage
    ensures p.userObverseImage.Set? ==> ApplyPatch(r, p).userObverseImage == p.userObverseImage.v
    ensures p.userReverseImage.Keep? ==> ApplyPatch(r, p).userReverseImage == r.userReverseImage
    ensures p.userReverseImage.Set? ==> ApplyPatch(r, p).userReverseImage == p.userReverseImage.v
    ensures p.userWeight.Keep? ==> ApplyPatch(r, p).userWeight == r.userWeight
    ensures p.userWeight.Set? ==> ApplyPatch(r, p).userWeight == p.userWeight.v
    ensures p.userDiameter.Keep? ==> ApplyPatch(r, p).userDiameter == r.userDiameter
    ensures p.userDiameter.Set? ==> ApplyPatch(r, p).userDiameter == p.userDiameter.v
  {
  }

  /** `r` with the nine user-editable fields taken from `u`. */
  function WithEditable(r: CoinRecord, u: CoinRecord): CoinRecord {
    r.(condition := u.condition, grade := u.grade, purchasePrice := u.purchasePrice,
       purchaseDate := u.purchaseDate, notes := u.notes, userObverseImage := u.userObverseImage,
       userReverseImage := u.userReverseImage, userWeight := u.userWeight,
       userDiameter := u.userDiameter)
  }

  /** A patch that leaves every field `undefined`. */
  const NoChange := CoinPatch(Keep, Keep, Keep, Keep, Keep, Keep, Keep, Keep, Keep, Keep)

  /** The whole effect of `update(data)` at time `now`: the patch, then `updatedAt` set and
      `markForSync`. */
  function Updated(r: CoinRecord, p: CoinPatch, now: int): (u: CoinRecord)
    ensures u.needsSync && u.updatedAt == Some(now)
    ensures u.isWishlist == r.isWishlist && u.isDeleted == r.isDeleted
    ensures u.id == r.id && u.catalogCoinId == r.catalogCoinId && u.createdAt == r.createdAt
  {
    ApplyPatch(r, p).(updatedAt := Some(now), needsSync := true)
  }

  /** An update with an all-`undefined` patch only marks the record for sync. */
  lemma EmptyUpdateOnlyMarks(r: CoinRecord, now: int)
    ensures Updated(r, NoChange, now) == MarkedForSync(r, now)
  {
  }

  /** Applying the same patch twice gives the same record as applying it once. */
  lemma {:induction false} PatchIdempotent(r: CoinRecord, p: CoinPatch)
    ensures ApplyPatch(ApplyPatch(r, p), p) == ApplyPatch(r, p)
  {
  }

  /** `markForSync()`. */
  function MarkedForSync(r: CoinRecord, now: int): (u: CoinRecord)
    ensures u.needsSync && u.updatedAt == Some(now)
    ensures u.(needsSync := r.needsSync, updatedAt := r.updatedAt) == r
  {
    r.(needsSync := true, updatedAt := Some(now))
  }

  /** `markAsSynced()`: clears the sync flag and stamps `syncedAt`, touching no data field and
      not `updatedAt`. */
  function MarkedSynced(r: CoinRecord, now: int): (u: CoinRecord)
    ensures !u.needsSync && u.syncedAt == Some(now)
    ensures u.(needsSync := r.needsSync, syncedAt := r.syncedAt) == r
  {
    r.(needsSync := false, syncedAt := Some(now))
  }

  /** `markAsDeleted()`: a soft delete that also marks the record for sync. */
  function MarkedDeleted(r: CoinRecord, now: int): (u: CoinRecord)
    ensures u.isDeleted && u.needsSync && u.updatedAt == Some(now)
    ensures u.(isDeleted := r.isDeleted, needsSync := r.needsSync, updatedAt := r.updatedAt) == r
  {
    MarkedForSync(r.(isDeleted := true, updatedAt := Some(now)), now)
  }

  /** Marking synced after any of the marking operations leaves the record clean. */
  lemma SyncedAfterMarking(r: CoinRecord, p: CoinPatch, now: int, later: int)
    ensures !MarkedSynced(Updated(r, p, now), later).needsSync
    ensures MarkedSynced(Updated(r, p, now), later).updatedAt == Some(now)
    ensures MarkedSynced(MarkedDeleted(r, now), later).isDeleted
  {
  }

  /** `validate()`: the first failing rule gives the error. */
  function Validate(r: CoinRecord): (res: Result<bool, string>)
    ensures res.Ok? <==> TruthyStr(r.id) && TruthyStr(r.catalogCoinId)
                         && !(TruthyReal(r.purchasePrice) && r.purchasePrice.value < 0.0)
    ensures res.Ok? ==> res.value
    ensures !TruthyStr(r.id) || !TruthyStr(r.catalogCoinId) ==>
              res == Err("UserCoin must have id and catalogCoinId")
    ensures res == Err("Purchase price cannot be negative") ==> r.purchasePrice.value < 0.0
  {
    if !TruthyStr(r.id) || !TruthyStr(r.catalogCoinId) then
      Err("UserCoin must have id and catalogCoinId")
    else if TruthyReal(r.purchasePrice) && r.purchasePrice.value < 0.0 then
      Err("Purchase price cannot be negative")
    else Ok(true)
  }

  /** The row `toDatabase()` produces: flags as 1/0 and dates as timestamps or `null` (the ISO
      text form of a date is not modelled). The joined catalog coin is not stored. */
  datatype DbRow = DbRow(
    id: Option<string>,
    userId: Option<string>,
    catalogCoinId: Option<string>,
    isWishlist: int,
    condition: Option<string>,
    grade: Option<string>,
    purchasePrice: Option<real>,
    purchaseDate: Option<int>,
    notes: Option<string>,
    userObverseImage: Option<string>,
    userWeight: Option<real>,
    userDiameter: Option<real>,
    userReverseImage: Option<string>,
    createdAt: int,
    updatedAt: Option<int>,
    syncedAt: Option<int>,
    needsSync: int,
    isDeleted: int)

  function Flag(b: bool): (n: int)
    ensures n == 0 || n == 1
    ensures n == 1 <==> b
  {
    if b then 1 else 0
  }

  function ToDatabase(r: CoinRecord): (row: DbRow)
    ensures row.isWishlist == Flag(r.isWishlist) && row.needsSync == Flag(r.needsSync)
    ensures row.isDeleted == Flag(r.isDeleted)
  {
    DbRow(
      r.id, r.userId, r.catalogCoinId, Flag(r.isWishlist), r.condition, r.grade,
      r.purchasePrice, r.purchaseDate, r.notes, r.userObverseImage, r.userWeight,
      r.userDiameter, r.userReverseImage, r.createdAt, r.updatedAt, r.syncedAt,
      Flag(r.needsSync), Flag(r.isDeleted))
  }

  /** `UserCoin.fromDatabase(row)`: the constructor on a row, whose 1/0 flags are read as
      truthy or falsy. */
  function FromDatabase(row: DbRow, now: int): CoinRecord {
    NewRecord(UserCoinData(
      row.id, row.userId, row.catalogCoinId, row.isWishlist != 0, row.condition, row.grade,
      row.purchasePrice, row.purchaseDate, row.notes, row.userObverseImage,
      row.userReverseImage, row.userWeight, row.userDiameter, Some(row.createdAt),
      row.updatedAt, row.syncedAt, row.needsSync != 0, row.isDeleted != 0, None), now)
  }

  /** Saving a constructed record and loading it back gives the same record, without the
      joined catalog coin. */
  lemma DatabaseRoundTrip(r: CoinRecord, now: int)
    requires Normalized(r)
    ensures FromDatabase(ToDatabase(r), now) == r.(catalogCoin := None)
  {
  }

  /** `getCurrentValue()`: the catalog coin's estimated value, when it is joined. */
  function GetCurrentValue(r: CoinRecord): (v: Option<real>)
    ensures v.Some? <==> r.catalogCoin.Some? && TruthyReal(r.catalogCoin.value.estimatedValueMin)
                         && TruthyReal(r.catalogCoin.value.estimatedValueMax)
    ensures v.Some? ==> v == Coins.GetEstimatedValue(r.catalogCoin.value)
  {
    if r.catalogCoin.None? then None else Coins.GetEstimatedValue(r.catalogCoin.value)
  }

  /** `getProfitLoss()`: current value minus purchase price, when both are truthy. */
  function GetProfitLoss(r: CoinRecord): (pl: Option<real>)
    ensures pl.Some? <==> TruthyReal(r.purchasePrice) && TruthyReal(GetCurrentValue(r))
    ensures pl.Some? ==> r.purchasePrice.value + pl.value == GetCurrentValue(r).value
  {
    if !TruthyReal(r.purchasePrice) then None
    else
      var cv := GetCurrentValue(r);
      if !TruthyReal(cv) then None else Some(cv.value - r.purchasePrice.value)
  }

  /** A user coin object. Identity, owner, catalog reference, creation time and the joined
      catalog coin are fixed at construction; the rest is changed in place. */
  class UserCoin {
    const id: Option<string>
    const userId: Option<string>
    const catalogCoinId: Option<string>
    var isWishlist: bool
    var condition: Option<string>
    var grade: Option<string>
    var purchasePrice: Option<real>
    var purchaseDate: Option<int>
    var notes: Option<string>
    var userObverseImage: Option<string>
    var userReverseImage: Option<string>
    var userWeight: Option<real>
    var userDiameter: Option<real>
    const createdAt: int
    var updatedAt: Option<int>
    var syncedAt: Option<int>
    var needsSync: bool
    var isDeleted: bool
    const catalogCoin: Option<Coins.Coin>

    /** The record this object holds now. */
    function Data(): CoinRecord
      reads this
    {
      CoinRecord(
        id, userId, catalogCoinId, isWishlist, condition, grade, purchasePrice, purchaseDate,
        notes, userObverseImage, userReverseImage, userWeight, userDiameter, createdAt,
        updatedAt, syncedAt, needsSync, isDeleted, catalogCoin)
    }

    constructor(d: UserCoinData, now: int)
      ensures Data() == NewRecord(d, now)
    {
      var r := NewRecord(d, now);
      id, userId, catalogCoinId, isWishlist := r.id, r.userId, r.catalogCoinId, r.isWishlist;
      condition, grade, purchasePrice, purchaseDate := r.condition, r.grade, r.purchasePrice, r.purchaseDate;
      notes, userObverseImage, userReverseImage := r.notes, r.userObverseImage, r.userReverseImage;
      userWeight, userDiameter, createdAt := r.userWeight, r.userDiameter, r.createdAt;
      updatedAt, syncedAt, needsSync, isDeleted := r.updatedAt, r.syncedAt, r.needsSync, r.isDeleted;
      catalogCoin := r.catalogCoin;
    }

    method MarkForSync(now: int)
      modifies this
      ensures Data() == MarkedForSync(old(Data()), now)
    {
      needsSync := true;
      updatedAt := Some(now);
    }

    method MarkAsSynced(now: int)
      modifies this
      ensures Data() == MarkedSynced(old(Data()), now)
    {
      needsSync := false;
      syncedAt := Some(now);
    }

    method MarkAsDeleted(now: int)
      modifies this
      ensures Data() == MarkedDeleted(old(Data()), now)
    {
      isDeleted := true;
      updatedAt := Some(now);
      MarkForSync(now);
    }

    /** Copies the nine user-editable fields of `u` into this object. */
    method SetEditable(u: CoinRecord)
      modifies this
      ensures Data() == WithEditable(old(Data()), u)
    {
      condition, grade, purchasePrice, purchaseDate := u.condition, u.grade, u.purchasePrice, u.purchaseDate;
      notes, userObverseImage, userReverseImage := u.notes, u.userObverseImage, u.userReverseImage;
      userWeight, userDiameter := u.userWeight, u.userDiameter;
    }

    method Update(p: CoinPatch, now: int)
      modifies this
      ensures Data() == Updated(old(Data()), p, now)
    {
      // a field left `undefined` keeps its value
      var u := ApplyPatch(Data(), p);
      SetEditable(u);
      updatedAt := Some(now);
      MarkForSync(now);
    }
  }
}
