/** Value types shared by the whole model: nullable values, the errors the
    services raise, System.DateTime and the 32-bit integer of ScoreValue. */
module Common {

  /** A C# nullable reference or nullable value: null is None. */
  datatype Option<+T> = None | Some(value: T)

  /** The exceptions a service call can end with, as values. */
  datatype Error =
    | NotFound             // NotFoundException: the addressed record does not exist
    | ConcurrencyConflict  // DbUpdateConcurrencyException re-raised: the record exists at the re-check
    | DuplicateKey         // the store refuses a second record with the same primary key
    | ValueTooLong         // the store refuses a string longer than its column
    | ForeignKeyViolation  // the store refuses a link to a missing record, or deleting a referenced one
    | NullReference        // a method was called on an unset navigation

  /** The outcome of a service call that returns a value. */
  datatype Result<+T> = Success(value: T) | Failure(error: Error)

  /** The outcome of a service call that returns nothing (a plain Task). */
  datatype Outcome = Pass | Fail(error: Error)

  /** System.DateTime, kept opaque: its tick count. No clock is read anywhere. */
  datatype DateTime = DateTime(ticks: nat)

  /** default(DateTime), the value of a DateTime property nobody assigned. */
  const MinValue: DateTime := DateTime(0)

  /** C#'s int, the type of ScoreValue. */
  newtype int32 = x: int | -0x8000_0000 <= x < 0x8000_0000

  /** The set of elements of a sequence. */
  function Elems<T>(s: seq<T>): set<T>
  {
    set x | x in s
  }

  /** Extending a sequence by one element adds that element to its set. */
  lemma ElemsAppend<T>(s: seq<T>, x: T)
    ensures Elems(s + [x]) == Elems(s) + {x}
  {
    assert forall y :: y in s + [x] <==> y in s || y == x;
  }

  /** A sequence has no elements exactly when it is empty. */
  lemma ElemsEmpty<T>(s: seq<T>)
    ensures Elems(s) == {} <==> s == []
  {
    if s != [] {
      assert s[0] in Elems(s);
    }
  }

  /** No element occurs twice. */
  predicate Distinct<T(==)>(s: seq<T>)
  {
    forall i, j :: 0 <= i < j < |s| ==> s[i] != s[j]
  }
}
