/** Small shared vocabulary: text, the optional value used wherever the source
    has `None`, `null` or `undefined`, and repetition-free sequences. */
module Common {

  /** Text as the source handles it: a sequence of characters. */
  type Text = seq<char>

  datatype Option<+T> = None | Some(value: T) {

    /** The value, or `default` when absent (Python's `dict.get(k, default)`). */
    function GetOr(default: T): T {
      match this
      case Some(v) => v
      case None => default
    }
  }

  /** No element occurs twice. */
  predicate Distinct<T(==)>(xs: seq<T>) {
    forall i, j | 0 <= i < j < |xs| :: xs[i] != xs[j]
  }
}
