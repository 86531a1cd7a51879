/** What several modules need to know of sequences. */
module Seqs {

  /** The k-th of several sequences, empty if there are fewer. */
  function Port<T>(ports: seq<seq<T>>, k: nat): seq<T> { if k < |ports| then ports[k] else [] }

  lemma ConcatAssociates<T>(x: seq<T>, y: seq<T>, z: seq<T>)
    ensures x + y + z == x + (y + z)
  {
  }

  /** All of them, one behind the other. */
  function Flatten<T>(parts: seq<seq<T>>): seq<T> {
    if |parts| == 0 then [] else Flatten(parts[..|parts| - 1]) + parts[|parts| - 1]
  }

  lemma FlattenSnoc<T>(parts: seq<seq<T>>, b: seq<T>)
    ensures Flatten(parts + [b]) == Flatten(parts) + b
  {
  }

  lemma {:induction false} FlattenConcat<T>(a: seq<seq<T>>, b: seq<seq<T>>)
    ensures Flatten(a + b) == Flatten(a) + Flatten(b)
    decreases |b|
  {
    if |b| == 0 {
      assert a + b == a;
    } else {
      var shorter := b[..|b| - 1];
      assert (a + b)[..|a + b| - 1] == a + shorter;
      FlattenConcat(a, shorter);
    }
  }
}
