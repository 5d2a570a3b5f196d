/** Shapes shared by every component. */
module Common {

  datatype Option<+T> = None | Some(value: T)

  /** One utterance, of a live stream, a batch or a stored transcript row; times in milliseconds. */
  datatype Segment = Segment(text: string, start: int, end: int, speaker: Option<string>)

  predicate NoDuplicates<T(==)>(xs: seq<T>) {
    forall i, j | 0 <= i < j < |xs| :: xs[i] != xs[j]
  }

  function Max(a: int, b: int): int {
    if a < b then b else a
  }

  function Min(a: int, b: int): int {
    if a < b then a else b
  }

  function MaxReal(a: real, b: real): real {
    if a < b then b else a
  }

  function MinReal(a: real, b: real): real {
    if a < b then a else b
  }
}
