/** Value types shared by the scripts: Python's `None`, raised errors, and the
    `float('inf')` sentinel used for "mismatch count not known". */
module Common {
  import opened TextUtil

  datatype Option<T> = None | Some(value: T)

  datatype Result<T, E> = Ok(value: T) | Err(error: E)

  /** A mismatch count: a natural number, or the `float('inf')` sentinel. */
  datatype Count = Finite(n: nat) | Infinite {
    /** Python's `<` between two such values (`inf < inf` is false). */
    predicate Less(other: Count) {
      match this
      case Finite(a) => other.Infinite? || a < other.n
      case Infinite => false
    }
  }

  /** `f"{c}"`: digits for a number, `inf` for the sentinel. */
  function CountText(c: Count): string {
    match c
    case Finite(n) => NatToString(n)
    case Infinite => "inf"
  }

  function Max0(x: int): nat {
    if x < 0 then 0 else x
  }

  /** Concatenation regrouped, for steps the solver would otherwise prove element by element. */
  lemma AppendAssoc<T>(a: seq<T>, b: seq<T>, c: seq<T>)
    ensures a + b + c == a + (b + c)
  {
  }
}
