/**
 * Interpretation of integer form fields: the cart's quantity field and a review's
 * rating field are both parsed, defaulted when parsing fails and clamped to a range.
 * Parsing itself (Python's `int(...)` on the submitted text) is not modelled: a field
 * arrives as `Some(n)` when it parsed to `n` and as `None` when it was missing or did
 * not parse.
 */
module FormInput {
  import opened Wrappers

  /** Largest quantity `update_cart_quantity` stores. */
  const MAX_QUANTITY: int := 50

  /** `max(lo, min(hi, x))`: the point of `[lo, hi]` nearest to `x`. */
  function Clamp(lo: int, hi: int, x: int): (r: int)
    requires lo <= hi
    ensures lo <= r <= hi
    ensures lo <= x <= hi ==> r == x
    ensures x < lo ==> r == lo
    ensures hi < x ==> r == hi
  {
    var upper := if hi < x then hi else x;
    if upper < lo then lo else upper
  }

  /**
   * The quantity `update_cart_quantity` stores: the parsed field clamped to
   * `[1, MAX_QUANTITY]`, and 1 when the field is missing (its default text is "1")
   * or does not parse.
   */
  function QuantityInput(raw: Option<int>): (q: int)
    ensures 1 <= q <= MAX_QUANTITY
    ensures raw.None? ==> q == 1
    ensures raw.Some? && 1 <= raw.value <= MAX_QUANTITY ==> q == raw.value
    ensures raw.Some? && raw.value < 1 ==> q == 1
    ensures raw.Some? && MAX_QUANTITY < raw.value ==> q == MAX_QUANTITY
  {
    Clamp(1, MAX_QUANTITY, raw.GetOr(1))
  }

  /**
   * The rating `add_review` stores: the parsed field clamped to `[1, 5]`, and 5 when
   * the field is missing (its default text is "5") or does not parse.
   */
  function ReviewRating(raw: Option<int>): (rating: int)
    ensures 1 <= rating <= 5
    ensures raw.None? ==> rating == 5
    ensures raw.Some? && 1 <= raw.value <= 5 ==> rating == raw.value
    ensures raw.Some? && raw.value < 1 ==> rating == 1
    ensures raw.Some? && 5 < raw.value ==> rating == 5
  {
    Clamp(1, 5, raw.GetOr(5))
  }

  /** Clamping is idempotent: a value already stored passes a second clamp unchanged. */
  lemma QuantityInputIdempotent(raw: Option<int>)
    ensures QuantityInput(Some(QuantityInput(raw))) == QuantityInput(raw)
  {
  }
}
