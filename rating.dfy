/** The rating schema of the API (src/api/pixlibs/schemas_api.py): an
    image rating is accepted by a validator whose message asks for a value
    between 0 and 10.  The condition is written `v<0 | v>10`; since `|`
    binds tighter than comparisons in Python, it reads `v < (0 | v) > 10`, a
    chained comparison, and rejects nothing. */
module Rating {
  import opened Wrappers

  function Abs(x: int): nat
  {
    if x < 0 then -x else x
  }

  /** Python's `|` on integers: bitwise or on the unbounded two's
      complement representation, taken bit by bit from the lowest one
      until both operands are reduced to their sign (0 or -1). */
  function BitOr(a: int, b: int): int
    decreases Abs(a) + Abs(b)
  {
    if (a == 0 || a == -1) && (b == 0 || b == -1) then
      (if a == -1 || b == -1 then -1 else 0)
    else
      2 * BitOr(a / 2, b / 2) + (if a % 2 == 1 || b % 2 == 1 then 1 else 0)
  }

  /** `0 | v == v` for every integer. */
  lemma {:induction false} ZeroOr(v: int)
    ensures BitOr(0, v) == v
    decreases Abs(v)
  {
    if v != 0 && v != -1 {
      ZeroOr(v / 2);
    }
  }

  datatype RatingError = InvalidRating

  /** `rating_verification` as written: `v < (0 | v) and (0 | v) > 10`. */
  function RatingVerificationAsWritten(v: int): (r: Result<int, RatingError>)
    ensures r.Ok? ==> r.value == v
  {
    if v < BitOr(0, v) && BitOr(0, v) > 10 then Err(InvalidRating) else Ok(v)
  }

  /** The validator as written accepts every rating. */
  lemma AsWrittenAcceptsAll(v: int)
    ensures RatingVerificationAsWritten(v) == Ok(v)
  {
    ZeroOr(v);
  }

  /** In particular 11, outside the range the message names, passes. */
  lemma AsWrittenAcceptsEleven()
    ensures RatingVerificationAsWritten(11) == Ok(11)
    ensures RatingVerification(11) == Err(InvalidRating)
  {
    AsWrittenAcceptsAll(11);
  }

  /** The validator its message describes: `v < 0 or v > 10` is rejected,
      any other rating is returned unchanged. */
  function RatingVerification(v: int): (r: Result<int, RatingError>)
    ensures r.Ok? <==> 0 <= v <= 10
    ensures r.Ok? ==> r.value == v
  {
    if v < 0 || v > 10 then Err(InvalidRating) else Ok(v)
  }
}
