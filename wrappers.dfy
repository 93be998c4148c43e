/** Optional values and Go's `error` results, in place of nil and error returns. */
module Wrappers {

  datatype Option<+T> = None | Some(value: T)

  /** A Go `error`: nil, or an error with its message. */
  datatype Status = Ok | Fail(reason: string)
}

/** Concatenation facts shared by the modules that build strings and logs. */
module Seqs {

  lemma AppendAssoc<T>(a: seq<T>, b: seq<T>, c: seq<T>)
    ensures (a + b) + c == a + (b + c)
  {
  }
}
