/** Types shared by the modules of the model. */
module Common {

  datatype Option<+T> = None | Some(value: T)

  /** A byte, as in Go's `[]byte`. */
  type Byte = x: nat | x < 256

  /** No element occurs twice. */
  ghost predicate Distinct<T>(s: seq<T>) {
    forall i, j :: 0 <= i < j < |s| ==> s[i] != s[j]
  }
}
