/** Option and Result types shared by every module of the model. A JavaScript `null` or
    `undefined` becomes `None`; a thrown `Error` becomes `Err`. */
module Wrappers {

  datatype Option<T> = None | Some(value: T) {
    function GetOr(default: T): T {
      match this
      case Some(v) => v
      case None => default
    }
  }

  datatype Result<T, E> = Ok(value: T) | Err(error: E)
}

/** JavaScript truthiness for the optional values the application stores. `null` and
    `undefined` are `None`; the empty string and the number zero are falsy too. The
    `x || null` idiom keeps a truthy value and turns every falsy one into `null`. */
module Truthiness {
  import opened Wrappers

  predicate TruthyStr(o: Option<string>) { o.Some? && o.value != "" }
  predicate TruthyReal(o: Option<real>) { o.Some? && o.value != 0.0 }
  predicate TruthyInt(o: Option<int>) { o.Some? && o.value != 0 }

  /** `s || null` on an optional string. */
  function OrNullStr(o: Option<string>): (r: Option<string>)
    ensures TruthyStr(o) ==> r == o
    ensures !TruthyStr(o) ==> r.None?
  {
    if TruthyStr(o) then o else None
  }

  /** `x || null` on an optional number. */
  function OrNullReal(o: Option<real>): (r: Option<real>)
    ensures TruthyReal(o) ==> r == o
    ensures !TruthyReal(o) ==> r.None?
  {
    if TruthyReal(o) then o else None
  }

  /** `n || null` on an optional integer. */
  function OrNullInt(o: Option<int>): (r: Option<int>)
    ensures TruthyInt(o) ==> r == o
    ensures !TruthyInt(o) ==> r.None?
  {
    if TruthyInt(o) then o else None
  }

  /** A value already passed through `|| null` is left alone by a second pass. */
  predicate NormalStr(o: Option<string>) { o.None? || o.value != "" }
  predicate NormalReal(o: Option<real>) { o.None? || o.value != 0.0 }
  predicate NormalInt(o: Option<int>) { o.None? || o.value != 0 }
}
