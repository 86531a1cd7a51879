/** What a memory socket is for: payloads arrive in the order sent, each once. */
module Channels {

  datatype Channel<V> = Channel(sent: seq<V>, received: seq<V>)

  ghost predicate Sends<V>(a: Channel<V>, b: Channel<V>) {
    b.received == a.received && |b.sent| == |a.sent| + 1 && b.sent[..|a.sent|] == a.sent
  }

  ghost predicate Receives<V>(a: Channel<V>, b: Channel<V>) {
    b.sent == a.sent && |a.received| < |a.sent| && b.received == a.received + [a.sent[|a.received|]]
  }

  /** A step of the channel, or none. */
  ghost predicate Next<V>(a: Channel<V>, b: Channel<V>) {
    a == b || Sends(a, b) || Receives(a, b)
  }

  ghost predicate Ordered<V>(a: Channel<V>) {
    |a.received| <= |a.sent| && a.received == a.sent[..|a.received|]
  }

  lemma NextOrdered<V>(a: Channel<V>, b: Channel<V>)
    requires Ordered(a) && Next(a, b)
    ensures Ordered(b)
  {
  }
}
