/** The already-parsed export document, as the YAML decoder hands it to the converter.
    A mapping decodes to Go's `map[any]any` (unique keys, no order), a sequence to `[]any`,
    a string scalar to `string`; any other scalar (number, boolean, timestamp) is kept as
    `Scalar` so that a type assertion to `string` on it fails as it does in Go. */
module Yaml {

  datatype Node =
    | Map(entries: map<Node, Node>)
    | Seq(items: seq<Node>)
    | Str(s: string)
    | Scalar(text: string)
    | Null

  /** The value of a failed-or-passed type assertion chain: a failed assertion is a Go panic,
      and `cause` says which assertion failed. */
  datatype Result<+T> = Ok(value: T) | Fail(cause: string)

  datatype Option<+T> = None | Some(value: T)

  /** Go's `m[key]` on a `map[any]any` with a string key: the value stored under that key, or
      nil (`Null`) when the key is absent. A nil map (`Null`) behaves as an empty one. */
  function Get(n: Node, key: string): (r: Node)
    ensures n.Map? && Str(key) in n.entries ==> r == n.entries[Str(key)]
    ensures !(n.Map? && Str(key) in n.entries) ==> r == Null
    ensures r != Null ==> r < n
  {
    if n.Map? && Str(key) in n.entries then n.entries[Str(key)] else Null
  }
}
