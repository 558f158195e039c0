/** Values shared by the protocol, the engine and the network. */
module Types {

  /** A node identifier; the source's 128-bit UUID read as a number. */
  type NodeId = nat

  /** A phase number. The source's u64 counters are taken below their limit. */
  type Phase = nat

  /** The values nodes vote for: reject, accept, undecided. */
  datatype StateValue = V0 | V1 | VQuestion

  datatype Option<+T> = None | Some(value: T)

  function Max(a: int, b: int): (m: int)
    ensures m >= a && m >= b && (m == a || m == b)
  {
    if a >= b then a else b
  }

  lemma ConcatAssociates<T>(a: seq<T>, b: seq<T>, c: seq<T>)
    ensures (a + b) + c == a + (b + c)
  {
  }
}
