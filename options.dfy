/**
 * `Option<T>` and `FirstOrNone` (Option.cs), plus the result type the
 * importer hands back for an operation that can fail with a reason.
 *
 * The source's `Option<T>` is an immutable pair (`Some` flag, value); here it
 * is the usual two-constructor datatype: `ToNone` is `None`, `ToSome(v)` is
 * `Some(v)`, and the `Some` property is the discriminator `Some?`.
 */
module Options {

  datatype Option<T> = None | Some(value: T)

  /** A value, or the human-readable reason why there is none. */
  datatype Result<T> = Success(value: T) | Failure(error: string)

  const NoValueMessage := "This option doesn't have a value, check HasValue before calling Value"

  /**
   * The `Value` getter: the stored value of a `Some`, and the
   * `InvalidOperationException` (as a failure) of a `None`.
   */
  function Value<T>(o: Option<T>): (r: Result<T>)
    ensures r.Success? <==> o.Some?
    ensures o.Some? ==> r.value == o.value
    ensures o.None? ==> r.error == NoValueMessage
  {
    match o
    case Some(v) => Success(v)
    case None => Failure(NoValueMessage)
  }

  /**
   * The first element of `source` that satisfies `test`, or `None` when
   * no element does. (A null source or test cannot be expressed here.)
   */
  function FirstOrNone<T(==)>(source: seq<T>, test: T -> bool): (r: Option<T>)
    ensures r.None? <==> forall i :: 0 <= i < |source| ==> !test(source[i])
    ensures r.Some? ==>
      exists i :: 0 <= i < |source| && source[i] == r.value && test(source[i]) &&
        forall j :: 0 <= j < i ==> !test(source[j])
  {
    if |source| == 0 then None
    else if test(source[0]) then Some(source[0])
    else
      var rest := FirstOrNone(source[1..], test);
      assert forall j :: 1 <= j < |source| ==> source[j] == source[1..][j - 1];
      rest
  }
}
