/** Option and Result, the two failure-carrying datatypes used across the model. */
module Wrappers {

  datatype Option<+T> = None | Some(value: T)

  /** The outcome of an operation that the Ruby code would end by raising `error`. */
  datatype Result<+T, +E> = Ok(value: T) | Err(error: E)

  function GetOr<K, V>(m: Option<map<K, V>>, default: map<K, V>): map<K, V>
  {
    if m.Some? then m.value else default
  }

  /** Concatenation regroups; stated once over an arbitrary element type, where it is cheap to prove. */
  lemma AppendAssoc<T>(a: seq<T>, b: seq<T>, c: seq<T>)
    ensures (a + b) + c == a + (b + c)
  {
  }

  /** `a` is a prefix of `b`, and `b` of `c`: then `a` is a prefix of `c`, and what `c` adds to `a` is what `b` added, then what `c` added to `b`. */
  lemma PrefixChain<T>(a: seq<T>, b: seq<T>, c: seq<T>)
    requires |a| <= |b| <= |c| && b[..|a|] == a && c[..|b|] == b
    ensures c[..|a|] == a && c[|a|..] == b[|a|..] + c[|b|..]
  {
  }

  lemma AppendParts<T>(a: seq<T>, b: seq<T>)
    ensures (a + b)[..|a|] == a && (a + b)[|a|..] == b
  {
  }
}
