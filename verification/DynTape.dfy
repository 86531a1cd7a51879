/** dynTape: a ring buffer that grows when it is full and calls the upstream work functions when it is empty. */
module DynTapes {
  import opened Tapes
  import Bits

  /** The power-of-two sizes the code chooses from; 512, 2048, 8192 and 32768 are not among them. */
  function P2Ceil(a: int): (r: nat) {
    if a <= 2 then 2 else if a <= 4 then 4 else if a <= 8 then 8 else if a <= 16 then 16
    else if a <= 32 then 32 else if a <= 64 then 64 else if a <= 128 then 128 else if a <= 256 then 256
    else if a <= 1024 then 1024 else if a <= 4096 then 4096 else if a <= 16384 then 16384
    else if a <= 65536 then 65536 else if a <= 131072 then 131072 else if a <= 262144 then 262144
    else if a <= 524288 then 524288 else if a <= 1048576 then 1048576 else if a <= 2097152 then 2097152
    else if a <= 4194304 then 4194304 else if a <= 8388608 then 8388608 else if a <= 16777216 then 16777216
    else if a <= 33554432 then 33554432 else if a <= 67108864 then 67108864 else if a <= 134217728 then 134217728
    else if a <= 268435456 then 268435456 else if a <= 536870912 then 536870912 else 1073741824
  }

  /** The powers of two up to 2 to the 30th, but for the four the code leaves out. */
  ghost predicate Offered(n: nat) {
    exists e: nat :: OfferedAt(n, e)
  }

  ghost predicate OfferedAt(n: nat, e: nat) {
    1 <= e <= 30 && n == Bits.Pow2(e) && e != 9 && e != 11 && e != 13 && e != 15
  }

  /** The size is the least one offered that reaches the estimate, or the largest if none does. */
  lemma P2CeilFits(a: int)
    ensures Bits.IsPow2(P2Ceil(a)) && P2Ceil(a) >= 2 && Offered(P2Ceil(a))
    ensures P2Ceil(a) >= a <==> a <= 0x4000_0000
    ensures forall n: nat | Offered(n) && n >= a :: P2Ceil(a) <= n
    ensures a > 0x4000_0000 ==> P2Ceil(a) == 0x4000_0000
  {
    PowersUpTo30();
    var e := Exponent(a);
    ExponentOf(a);
    assert OfferedAt(P2Ceil(a), e);
    forall n: nat | Offered(n) && n >= a ensures P2Ceil(a) <= n {
      OfferedStays(n);
      P2CeilMonotone(a, n);
    }
  }

  lemma P2CeilMonotone(a: int, b: int)
    requires a <= b
    ensures P2Ceil(a) <= P2Ceil(b)
  {
  }

  function Exponent(a: int): nat { Bits.Log2(P2Ceil(a)) }

  lemma ExponentOf(a: int)
    ensures OfferedAt(P2Ceil(a), Exponent(a))
  {
    PowersUpTo30();
    Bits.Pow2Log2(P2Ceil(a));
    Table();
    var e := Exponent(a);
    if e == 0 || e > 30 { Bits.Pow2Monotone(30, e); }
  }

  lemma OfferedStays(n: nat)
    requires Offered(n)
    ensures P2Ceil(n) == n
  {
    Table();
    var e: nat :| OfferedAt(n, e);
  }

  lemma Table()
    ensures Bits.Pow2(1) == 2 && Bits.Pow2(2) == 4 && Bits.Pow2(3) == 8 && Bits.Pow2(4) == 16 && Bits.Pow2(5) == 32
    ensures Bits.Pow2(6) == 64 && Bits.Pow2(7) == 128 && Bits.Pow2(8) == 256 && Bits.Pow2(9) == 512
    ensures Bits.Pow2(10) == 1024 && Bits.Pow2(11) == 2048 && Bits.Pow2(12) == 4096 && Bits.Pow2(13) == 8192
    ensures Bits.Pow2(14) == 16384 && Bits.Pow2(15) == 32768 && Bits.Pow2(16) == 65536 && Bits.Pow2(17) == 131072
    ensures Bits.Pow2(18) == 262144 && Bits.Pow2(19) == 524288 && Bits.Pow2(20) == 1048576
    ensures Bits.Pow2(21) == 2097152 && Bits.Pow2(22) == 4194304 && Bits.Pow2(23) == 8388608
    ensures Bits.Pow2(24) == 16777216 && Bits.Pow2(25) == 33554432 && Bits.Pow2(26) == 67108864
    ensures Bits.Pow2(27) == 134217728 && Bits.Pow2(28) == 268435456 && Bits.Pow2(29) == 536870912
    ensures Bits.Pow2(30) == 1073741824
  {
  }

  lemma PowersUpTo30()
    ensures Bits.IsPow2(2) && Bits.IsPow2(4) && Bits.IsPow2(8) && Bits.IsPow2(16) && Bits.IsPow2(32) && Bits.IsPow2(64)
    ensures Bits.IsPow2(128) && Bits.IsPow2(256) && Bits.IsPow2(1024) && Bits.IsPow2(4096) && Bits.IsPow2(16384)
    ensures Bits.IsPow2(65536) && Bits.IsPow2(131072) && Bits.IsPow2(262144) && Bits.IsPow2(524288)
            && Bits.IsPow2(1048576)
    ensures Bits.IsPow2(2097152) && Bits.IsPow2(4194304) && Bits.IsPow2(8388608) && Bits.IsPow2(16777216)
    ensures Bits.IsPow2(33554432) && Bits.IsPow2(67108864) && Bits.IsPow2(134217728) && Bits.IsPow2(268435456)
    ensures Bits.IsPow2(536870912) && Bits.IsPow2(1073741824)
  {
  }

  method BufferSize(a: int) returns (n: nat)
    ensures n == P2Ceil(a) && n >= 2 && Bits.Log2(n) > 0 && n == Bits.Pow2(Bits.Log2(n))
  {
    n := P2Ceil(a);
    P2CeilFits(a);
    Bits.Pow2Log2(n);
  }

  lemma RingReadSnoc<T>(c: seq<T>, c': seq<T>, a: nat, m: nat, x: T)
    requires a < |c| && m + 1 < |c| && c' == c[Ring(a + m, |c|) := x]
    ensures RingRead(c', a, m + 1) == RingRead(c, a, m) + [x]
  {
  }

  lemma RingReadTail<T>(c: seq<T>, a: nat, m: nat)
    requires a < |c| && 0 < m <= |c|
    ensures RingRead(c, Ring(a + 1, |c|), m - 1) == RingRead(c, a, m)[1..]
  {
  }

  /** items stand in the ring from index a on. */
  ghost predicate Stand<T>(c: seq<T>, a: nat, items: seq<T>) {
    forall u: nat :: StandAt(u, c, a, items)
  }

  ghost predicate StandAt<T>(unused: nat, c: seq<T>, a: nat, items: seq<T>) {
    a < |c| && |items| < |c| && items == RingRead(c, a, |items|)
  }

  lemma NoneStand<T>(c: seq<T>)
    requires |c| > 0
    ensures Stand(c, 0, [])
  {
    forall u: nat ensures StandAt(u, c, 0, []) { }
  }

  lemma ItemStands<T>(c: seq<T>, a: nat, items: seq<T>, n: nat)
    requires Stand(c, a, items) && n < |items|
    ensures a + n < 2 * |c| && items[n] == c[Ring(a + n, |c|)]
  {
    assert StandAt(0, c, a, items);
  }

  /** The ring after its first item is taken. */
  lemma RingTake<T>(c: seq<T>, a: nat, items: seq<T>, b: nat)
    requires Stand(c, a, items) && a < |c| && 0 < |items| < |c| && b == Ring(a + 1, |c|)
    ensures items[0] == c[a] && Stand(c, b, items[1..])
    ensures Ring(a + |items|, |c|) == Ring(b + |items[1..]|, |c|)
  {
    assert StandAt(0, c, a, items);
    RingReadTail(c, a, |items|);
    var rest := items[1..];
    forall u: nat ensures StandAt(u, c, b, rest) { }
  }

  /** The ring after an item is put at its head. */
  lemma RingPut<T>(c: seq<T>, a: nat, items: seq<T>, head: nat, x: T, c': seq<T>, longer: seq<T>)
    requires Stand(c, a, items) && a < |c| && |items| + 1 < |c| && head == Ring(a + |items|, |c|)
    requires c' == c[head := x] && longer == items + [x]
    ensures Stand(c', a, longer) && Ring(head + 1, |c|) == Ring(a + |longer|, |c|)
  {
    assert StandAt(0, c, a, items);
    RingReadSnoc(c, c', a, |items|, x);
    forall u: nat ensures StandAt(u, c', a, longer) { }
  }

  class DynTape<T(0)> {
    var bufp: array<T>
    var size: nat
    var mask: nat
    var head: nat
    var tail: nat
    /** What each call of the upstream functions, one pass over the workers at a time, will push. */
    const script: seq<seq<seq<T>>>
    var passes: nat

    ghost var bits: nat
    /** What has been pushed and not popped. */
    ghost var items: seq<T>

    ghost predicate Valid()
      reads this, bufp
    {
      && bits > 0 && size == bufp.Length == Bits.Pow2(bits) && mask == size - 1
      && tail < size && |items| < size && head == Ring(tail + |items|, size) && Stand(bufp[..], tail, items)
      && passes <= |script|
    }

    constructor (estimate: int, script: seq<seq<seq<T>>>)
      ensures Valid() && fresh(bufp) && items == [] && this.script == script && passes == 0
      ensures size == P2Ceil(estimate + 1)
    {
      var n := BufferSize(estimate + 1);
      size, mask, bufp := n, n - 1, new T[n];
      head, tail, passes := 0, 0, 0;
      bits, items := Bits.Log2(n), [];
      this.script := script;
      new;
      NoneStand(bufp[..]);
    }

    /** The two pieces copied are all items, in order. */
    static lemma Unrolled(buf: seq<T>, b0: seq<T>, b1: seq<T>, b2: seq<T>, tail: nat, head: nat, items: seq<T>)
      requires tail < |buf| && |items| == |buf| - 1 && head == Ring(tail + |items|, |buf|) && Stand(buf, tail, items)
      requires |b0| == 2 * |buf| && Placed(b0, b1, buf, 0, tail, |buf| - tail)
      requires if head != |buf| - 1 then Placed(b1, b2, buf, |buf| - tail, 0, head) else b2 == b1
      ensures Stand(b2, 0, items)
    {
      assert StandAt(0, buf, tail, items);
      forall k | 0 <= k < |items| ensures b2[k] == items[k] {
        if k < |buf| - tail { assert b1[k] == buf[tail + k]; }
      }
      forall u: nat ensures StandAt(u, b2, 0, items) { }
    }

    /** Doubles a full buffer, in either of its two configurations. */
    method MakeRoom()
      requires Valid() && |items| == size - 1
      modifies this`bufp, this`size, this`mask, this`head, this`tail, this`bits
      ensures Valid() && fresh(bufp) && items == old(items)
      ensures size == 2 * old(size) && tail == 0 && head == old(size) - 1
    {
      var newSize := size * 2;
      var newBufp := new T[newSize];
      ghost var b0 := newBufp[..];
      CopyTo(newBufp, 0, tail, size - tail);
      ghost var b1 := newBufp[..];
      if head != mask { CopyTo(newBufp, size - tail, 0, head); }
      Unrolled(bufp[..], b0, b1, newBufp[..], tail, head, items);
      head := size - 1;
      tail := 0;
      bufp := newBufp;
      size := newSize;
      mask := size - 1;
      bits := bits + 1;
    }

    /** Copies n items of the buffer, from index a on, to index b of dst. */
    method CopyTo(dst: array<T>, b: nat, a: nat, n: nat)
      requires dst != bufp && a + n <= bufp.Length && b + n <= dst.Length
      modifies dst
      ensures Placed(old(dst[..]), dst[..], bufp[..], b, a, n)
    {
      var i := 0;
      while i < n
        invariant 0 <= i <= n && Placed(old(dst[..]), dst[..], bufp[..], b, a, i)
      {
        dst[b + i] := bufp[a + i];
        i := i + 1;
      }
    }

    method Push(item: T)
      requires Valid()
      modifies this`bufp, this`size, this`mask, this`head, this`tail, this`bits, this`items, bufp
      ensures Valid() && (bufp == old(bufp) || fresh(bufp))
      ensures items == old(items) + [item]
      ensures size == if |old(items)| == old(size) - 1 then 2 * old(size) else old(size)
      decreases if |items| == size - 1 then 1 else 0
    {
      if (tail == 0 && head == mask) || head == tail - 1 {
        MakeRoom();
        Push(item);
      } else {
        MaskAdvances(head + 1, bits);
        RingPut(bufp[..], tail, items, head, item, bufp[..][head := item], items + [item]);
        bufp[head] := item;
        head := Bits.And(head + 1, mask);
        items := items + [item];
      }
    }

    /** What a worker pushes in one call. */
    method PushAll(batch: seq<T>)
      requires Valid()
      modifies this`bufp, this`size, this`mask, this`head, this`tail, this`bits, this`items, bufp
      ensures Valid() && (bufp == old(bufp) || fresh(bufp)) && items == old(items) + batch
    {
      for i := 0 to |batch|
        invariant Valid() && (bufp == old(bufp) || fresh(bufp)) && items == old(items) + batch[..i]
      {
        Push(batch[i]);
      }
    }

    /** One pass over the upstream workers; ok is false if they have nothing more to do. */
    method UpstreamPass() returns (ok: bool)
      requires Valid()
      modifies this, bufp
      ensures Valid() && (bufp == old(bufp) || fresh(bufp))
      ensures ok == (old(passes) < |script|)
      ensures if ok then passes == old(passes) + 1 && items == old(items) + Joined(script[old(passes)])
              else passes == old(passes) && items == old(items)
    {
      ok := passes < |script|;
      if ok {
        var batches := script[passes];
        var i := 0;
        while i < |batches|
          invariant 0 <= i <= |batches| && Valid() && passes == old(passes) && (bufp == old(bufp) || fresh(bufp))
          invariant items == old(items) + Joined(batches[..i])
        {
          JoinedSnoc(batches, i);
          PushAll(batches[i]);
          i := i + 1;
        }
        assert batches[..i] == batches;
        passes := passes + 1;
      }
    }

    /** A pass made because there is no item at index n. */
    method NeededPass(ghost start: nat, ghost was: seq<T>, ghost n: nat) returns (ok: bool)
      requires Valid() && start <= passes && |items| <= n
      requires items == was + Produced(script, start, passes) && AllNeeded(script, was, start, passes, n)
      modifies this, bufp
      ensures Valid() && (bufp == old(bufp) || fresh(bufp)) && ok == (old(passes) < |script|)
      ensures if ok then passes == old(passes) + 1 else passes == old(passes) && items == old(items)
      ensures items == was + Produced(script, start, passes) && AllNeeded(script, was, start, passes, n)
    {
      ProducedSnoc(script, start, passes);
      OneMoreNeeded(script, was, start, passes, n);
      ok := UpstreamPass();
    }

    /** Calls the upstream until there is an item, and no longer; ok is false if it never produces one. */
    method AwaitItem() returns (ok: bool)
      requires Valid()
      modifies this, bufp
      ensures Valid() && passes >= old(passes) && (bufp == old(bufp) || fresh(bufp))
      ensures items == old(items) + Produced(script, old(passes), passes)
      ensures if ok then items != [] else items == [] && passes == |script|
      ensures AllNeeded(script, old(items), old(passes), passes, 0)
    {
      ghost var start, was := passes, items;
      while head == tail
        invariant Valid() && passes >= start && (bufp == old(bufp) || fresh(bufp))
        invariant items == was + Produced(script, start, passes)
        invariant AllNeeded(script, was, start, passes, 0)
        decreases |script| - passes
      {
        assert items == [];
        ok := NeededPass(start, was, 0);
        if !ok { return; }
      }
      ok := true;
    }

    /** done is false if the upstream never produces an item. */
    method Pop() returns (done: bool, item: T)
      requires Valid()
      modifies this, bufp
      ensures Valid() && passes >= old(passes) && (bufp == old(bufp) || fresh(bufp))
      ensures if done then [item] + items == old(items) + Produced(script, old(passes), passes)
              else items == [] && passes == |script|
      ensures AllNeeded(script, old(items), old(passes), passes, 0)
    {
      done := AwaitItem();
      item := bufp[tail];
      if done { item := TakeItem(); }
    }

    method TakeItem() returns (item: T)
      requires Valid() && items != []
      modifies this`tail, this`items
      ensures Valid() && [item] + items == old(items)
    {
      MaskAdvances(tail + 1, bits);
      RingTake(bufp[..], tail, items, Ring(tail + 1, size));
      item := bufp[tail];
      tail := Bits.And(tail + 1, mask);
      items := items[1..];
    }

    /** Pops n items without returning them. */
    method PopN(n: nat) returns (done: bool)
      requires Valid()
      modifies this, bufp
      ensures Valid() && passes >= old(passes)
      ensures done ==> n <= |old(items) + Produced(script, old(passes), passes)|
      ensures done ==> items == (old(items) + Produced(script, old(passes), passes))[n..]
      ensures !done ==> items == [] && passes == |script|
      ensures AllNeeded(script, old(items), old(passes), passes, n - 1)
    {
      ghost var start, was := passes, items;
      var i := 0;
      while i < n
        invariant 0 <= i <= n && Valid() && passes >= start && (bufp == old(bufp) || fresh(bufp))
        invariant i <= |was + Produced(script, start, passes)| && items == (was + Produced(script, start, passes))[i..]
        invariant AllNeeded(script, was, start, passes, n - 1)
      {
        ghost var mid, all := passes, was + Produced(script, start, passes);
        var item;
        done, item := Pop();
        NeededAfter(script, was, start, mid, passes, i, n, all);
        if !done { return; }
        ProducedSplit(script, start, mid, passes);
        DropFirst(all, Produced(script, mid, passes), was + Produced(script, start, passes), i, item, items);
        i := i + 1;
      }
      done := true;
    }

    method ItemAt(n: nat) returns (item: T)
      requires Valid() && n < |items|
      ensures item == items[n]
    {
      MaskAdvances(tail + n, bits);
      ItemStands(bufp[..], tail, items, n);
      item := bufp[Bits.And(tail + n, mask)];
    }

    /** The test in peek's loop says that there is no item at index n yet. */
    lemma NotYetThere(n: nat)
      requires Valid()
      ensures (head >= tail && head - tail <= n) || size - tail + head <= n <==> |items| <= n
    {
    }

    /** The n-th item not yet popped, however often the buffer grows while it is produced. */
    method Peek(n: nat) returns (done: bool, item: T)
      requires Valid()
      modifies this, bufp
      ensures Valid() && passes >= old(passes) && items == old(items) + Produced(script, old(passes), passes)
      ensures if done then n < |items| && item == items[n] else |items| <= n && passes == |script|
      ensures AllNeeded(script, old(items), old(passes), passes, n)
    {
      ghost var start, was := passes, items;
      item := bufp[0];
      NotYetThere(n);
      while (head >= tail && head - tail <= n) || size - tail + head <= n
        invariant Valid() && passes >= start && (bufp == old(bufp) || fresh(bufp))
        invariant items == was + Produced(script, start, passes)
        invariant AllNeeded(script, was, start, passes, n)
        invariant (head >= tail && head - tail <= n) || size - tail + head <= n <==> |items| <= n
        decreases |script| - passes
      {
        done := NeededPass(start, was, n);
        if !done { return; }
        NotYetThere(n);
      }
      done := true;
      item := ItemAt(n);
    }
  }

  function Joined<T>(batches: seq<seq<T>>): seq<T> {
    if |batches| == 0 then [] else Joined(batches[..|batches| - 1]) + batches[|batches| - 1]
  }

  lemma JoinedSnoc<T>(batches: seq<seq<T>>, i: nat)
    requires i < |batches|
    ensures Joined(batches[..i + 1]) == Joined(batches[..i]) + batches[i]
  {
    assert batches[..i + 1][..i] == batches[..i];
  }

  /** What the upstream pushes in passes [lo, hi). */
  function Produced<T>(script: seq<seq<seq<T>>>, lo: nat, hi: nat): seq<T>
    requires lo <= hi <= |script|
    decreases hi
  {
    if lo == hi then [] else Produced(script, lo, hi - 1) + Joined(script[hi - 1])
  }

  lemma ProducedSnoc<T>(script: seq<seq<seq<T>>>, lo: nat, hi: nat)
    requires lo <= hi <= |script|
    ensures hi < |script| ==> Produced(script, lo, hi + 1) == Produced(script, lo, hi) + Joined(script[hi])
  {
  }

  lemma {:induction false} ProducedSplit<T>(script: seq<seq<seq<T>>>, lo: nat, mid: nat, hi: nat)
    requires lo <= mid <= hi <= |script|
    ensures Produced(script, lo, hi) == Produced(script, lo, mid) + Produced(script, mid, hi)
    decreases hi
  {
    if mid < hi { ProducedSplit(script, lo, mid, hi - 1); }
  }

  /** None of passes lo to hi - 1 was made when there was already an item at index n. */
  ghost predicate AllNeeded<T>(script: seq<seq<seq<T>>>, was: seq<T>, lo: nat, hi: nat, n: int) {
    forall k: nat | lo <= k < hi :: !Reaches(script, was, lo, k, n)
  }

  ghost predicate Reaches<T>(script: seq<seq<seq<T>>>, was: seq<T>, lo: nat, hi: nat, n: int) {
    lo <= hi <= |script| && |was| + |Produced(script, lo, hi)| > n
  }

  lemma OneMoreNeeded<T>(script: seq<seq<seq<T>>>, was: seq<T>, lo: nat, hi: nat, n: int)
    requires AllNeeded(script, was, lo, hi, n) && lo <= hi <= |script| && |was + Produced(script, lo, hi)| <= n
    ensures AllNeeded(script, was, lo, hi + 1, n)
  {
  }

  /** Passes made when nothing was left after i items were dropped. */
  lemma NeededAfter<T>(script: seq<seq<seq<T>>>, was: seq<T>, lo: nat, mid: nat, hi: nat, i: nat, n: nat, all: seq<T>)
    requires lo <= mid <= hi <= |script| && all == was + Produced(script, lo, mid) && i <= |all| && i < n
    requires AllNeeded(script, was, lo, mid, n - 1) && AllNeeded(script, all[i..], mid, hi, 0)
    ensures AllNeeded(script, was, lo, hi, n - 1)
  {
    var last := n - 1;
    forall k: nat | mid <= k < hi ensures !Reaches(script, was, lo, k, last) {
      assert !Reaches(script, all[i..], mid, k, 0);
      ProducedSplit(script, lo, mid, k);
    }
  }

  lemma DropFirst<T>(before: seq<T>, more: seq<T>, all: seq<T>, i: nat, item: T, rest: seq<T>)
    requires i <= |before| && [item] + rest == before[i..] + more && all == before + more
    ensures i + 1 <= |all| && rest == all[i + 1..]
  {
    assert all[i..] == [item] + rest;
    assert rest == ([item] + rest)[1..] == all[i..][1..];
  }
}
