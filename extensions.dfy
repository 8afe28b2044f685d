/** Kotlin's nullable values and the `orDefault` extension the widget uses. */
module Extensions {

  /** A Kotlin `T?`: `None` stands for `null`. */
  datatype Option<+T> = None | Some(value: T)

  /**
   * `orDefault`: the receiver when it is non-null, otherwise the default.
   * Kotlin's `T` may itself be a nullable type, so the default is an `Option` too:
   * a `null` default can make the result `null`, a non-null one never does.
   */
  function OrDefault<T>(x: Option<T>, defaultValue: Option<T>): (r: Option<T>)
    ensures x.Some? ==> r == x
    ensures x.None? ==> r == defaultValue
    ensures defaultValue.Some? ==> r.Some?
  {
    match x
    case Some(_) => x
    case None => defaultValue
  }

  /** Applying `orDefault` a second time with the same default changes nothing. */
  lemma OrDefaultIdempotent<T>(x: Option<T>, defaultValue: Option<T>)
    ensures OrDefault(OrDefault(x, defaultValue), defaultValue) == OrDefault(x, defaultValue)
  {
  }

  /** `orDefault` only ever answers the receiver or the default. */
  lemma OrDefaultPicksOne<T>(x: Option<T>, defaultValue: Option<T>)
    ensures OrDefault(x, defaultValue) in {x, defaultValue}
    ensures OrDefault(x, defaultValue).None? <==> x.None? && defaultValue.None?
  {
  }
}
