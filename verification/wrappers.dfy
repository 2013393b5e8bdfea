/** The optional value shared by the loop models. */
module Wrappers {
  datatype Option<T> = None | Some(value: T)

  /** The values an optional result contributes to a sequence of outputs: none, or exactly its value. */
  function Emitted<T>(x: Option<T>): (w: seq<T>)
    ensures |w| == if x.Some? then 1 else 0
    ensures x.Some? ==> w[0] == x.value
  {
    if x.Some? then [x.value] else []
  }
}
