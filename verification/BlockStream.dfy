/**
 * producer2 and consumer2: items cross a socket in whole blocks. The producer sends a block as soon as
 * it is full, the consumer asks for one only when it needs an item.
 */
module BlockStreams {
  import opened Channels
  import opened Seqs

  /** The items in k blocks. */
  function Items(length: nat, k: nat): nat {
    if k == 0 then 0 else Items(length, k - 1) + length
  }

  ghost predicate Blocks<T>(blocks: seq<seq<T>>, length: nat) {
    forall b | b in blocks :: |b| == length
  }

  /** A block completed by chunk. */
  lemma BlockDone<T>(blocks: seq<seq<T>>, part: seq<T>, chunk: seq<T>, block: seq<T>, stream: seq<T>)
    requires block == part + chunk && stream == Flatten(blocks) + part && Blocks(blocks, |block|)
    ensures Flatten(blocks + [block]) == stream + chunk && Blocks(blocks + [block], |block|)
  {
  }

  lemma {:induction false} FlattenPrefix<T>(blocks: seq<seq<T>>, k: nat)
    requires k <= |blocks|
    ensures |Flatten(blocks[..k])| <= |Flatten(blocks)|
    ensures Flatten(blocks)[..|Flatten(blocks[..k])|] == Flatten(blocks[..k])
    decreases |blocks|
  {
    if k < |blocks| {
      var shorter := blocks[..|blocks| - 1];
      FlattenPrefix(shorter, k);
      assert shorter[..k] == blocks[..k];
    } else {
      assert blocks[..k] == blocks;
    }
  }

  lemma {:induction false} FlattenLength<T>(blocks: seq<seq<T>>, length: nat)
    requires Blocks(blocks, length)
    ensures |Flatten(blocks)| == Items(length, |blocks|)
  {
    if |blocks| > 0 {
      var shorter := blocks[..|blocks| - 1];
      assert blocks[|blocks| - 1] in blocks;
      forall b | b in shorter ensures |b| == length { assert b in blocks; }
      FlattenLength(shorter, length);
    }
  }

  lemma Continued<T>(data: array<T>, at: nat, n: nat, before: seq<T>)
    requires at + n <= data.Length
    ensures before + data[..at] + data[at..at + n] == before + data[..at + n]
  {
  }

  /** The next n items of buf, from index o on, have been popped. */
  lemma Shorter<T>(popped: seq<T>, buf: seq<T>, o: nat, n: nat)
    requires o + n <= |buf|
    ensures popped + buf[o..o + n] + buf[o + n..] == popped + buf[o..]
  {
    assert buf[o..o + n] + buf[o + n..] == buf[o..];
  }

  class Producer2<T(0)> {
    const length: nat
    var buf: array<T>
    var offs: nat
    /** The blocks handed to the socket. */
    var sent: seq<seq<T>>
    /** All items pushed so far, and what flushes added behind them. */
    ghost var stream: seq<T>

    ghost predicate Valid()
      reads this, buf
    {
      && length > 0 && buf.Length == length && offs < length
      && Blocks(sent, length) && stream == Flatten(sent) + buf[..offs]
    }

    constructor (length: nat)
      requires length > 0
      ensures Valid() && fresh(buf) && this.length == length && sent == [] && stream == []
    {
      this.length := length;
      buf := new T[length];
      offs, sent, stream := 0, [], [];
    }

    /** Hands the block over, whatever its last part contains, and takes a free one. */
    method SendBuffer()
      requires buf.Length == length
      modifies this`buf, this`offs, this`sent
      ensures fresh(buf) && buf.Length == length && offs == 0 && sent == old(sent) + [old(buf[..])]
    {
      sent := sent + [buf[..]];
      buf := new T[length];
      offs := 0;
    }

    method Push(data: T)
      requires Valid()
      modifies this, buf
      ensures Valid() && (buf == old(buf) || fresh(buf))
      ensures stream == old(stream) + [data]
    {
      ghost var part, was := buf[..offs], stream;
      buf[offs] := data;
      offs := offs + 1;
      assert buf[..offs] == part + [data];
      stream := stream + [data];
      if offs == length {
        assert buf[..] == buf[..length];
        BlockDone(sent, part, [data], buf[..], was);
        SendBuffer();
        assert buf[..0] == [] && stream + [] == stream;
      } else {
        ConcatAssociates(Flatten(sent), part, [data]);
      }
    }

    /** Copies data[from..from + n] behind what the block holds. */
    method Copy(data: array<T>, from: nat, n: nat)
      requires data != buf && from + n <= data.Length && buf.Length == length && offs + n <= length
      modifies this`offs, buf
      ensures offs == old(offs) + n && buf[..offs] == old(buf[..offs]) + data[from..from + n]
    {
      var i := 0;
      while i < n
        invariant i <= n && offs == old(offs) + i
        invariant buf[..old(offs)] == old(buf[..offs])
        invariant forall k | old(offs) <= k < offs :: buf[k] == data[from + k - old(offs)]
      {
        buf[offs] := data[from + i];
        i, offs := i + 1, offs + 1;
      }
    }

    /** Completes the block with items of data, of which the first from have been pushed, and sends it. */
    method FillBlock(data: array<T>, from: nat, ghost before: seq<T>)
      requires Valid() && data != buf && from + length - offs <= data.Length && stream == before + data[..from]
      modifies this, buf
      ensures Valid() && fresh(buf) && offs == 0 && stream == before + data[..from + length - old(offs)]
    {
      ghost var avail, part := length - offs, buf[..offs];
      Copy(data, from, length - offs);
      ghost var block, chunk := buf[..], data[from..from + avail];
      assert block == part + chunk by { assert buf[..] == buf[..length]; }
      BlockDone(sent, part, chunk, block, stream);
      Continued(data, from, avail, before);
      stream := stream + chunk;
      SendBuffer();
    }

    /** Puts the rest of data into the block, which it does not complete. */
    method FillPart(data: array<T>, from: nat, ghost before: seq<T>)
      requires Valid() && data != buf && from <= data.Length && data.Length - from < length - offs
      requires stream == before + data[..from]
      modifies this`offs, this`stream, buf
      ensures Valid() && stream == before + data[..]
    {
      ghost var n, part := data.Length - from, buf[..offs];
      Copy(data, from, data.Length - from);
      Continued(data, from, n, before);
      ConcatAssociates(Flatten(sent), part, data[from..from + n]);
      stream := stream + data[from..from + n];
      assert data[..from + n] == data[..];
    }

    method PushItems(data: array<T>)
      requires Valid() && data != buf
      modifies this, buf
      ensures Valid() && (buf == old(buf) || fresh(buf)) && data[..] == old(data[..])
      ensures stream == old(stream) + data[..]
    {
      var pos, num := 0, data.Length;
      while num >= length - offs
        invariant Valid() && (buf == old(buf) || fresh(buf)) && data != buf
        invariant 0 <= num && 0 <= pos && pos + num == data.Length && stream == old(stream) + data[..pos]
        decreases num
      {
        var avail := length - offs;
        FillBlock(data, pos, old(stream));
        pos, num := pos + avail, num - avail;
      }
      FillPart(data, pos, old(stream));
    }

    /** Sends a block that is not full, with whatever its last part contains. */
    method Flush()
      requires Valid()
      modifies this
      ensures Valid() && offs == 0 && (buf == old(buf) || fresh(buf))
      ensures stream == old(stream) + if old(offs) > 0 then old(buf[offs..]) else []
    {
      if offs > 0 {
        ghost var part, rest := buf[..offs], buf[offs..];
        assert buf[..] == part + rest;
        BlockDone(sent, part, rest, buf[..], stream);
        stream := stream + rest;
        SendBuffer();
        assert buf[..0] == [] && stream + [] == stream;
      }
    }
  }

  class Consumer2<T(0)> {
    const length: nat
    /** The blocks the socket delivers, in the order it does; the first taken of them have been read. */
    const incoming: seq<seq<T>>
    var taken: nat
    var buf: seq<T>
    var offs: nat
    /** All items popped so far. */
    ghost var popped: seq<T>

    ghost predicate Valid()
      reads this
    {
      && length > 0 && Blocks(incoming, length) && taken <= |incoming|
      && |buf| == length && offs <= length && popped + buf[offs..] == Flatten(incoming[..taken])
    }

    constructor (length: nat, incoming: seq<seq<T>>, block: seq<T>)
      requires length > 0 && Blocks(incoming, length) && |block| == length
      ensures Valid() && this.length == length && this.incoming == incoming && popped == [] && taken == 0
    {
      this.length, this.incoming := length, incoming;
      taken, buf, offs, popped := 0, block, length, [];
    }

    /** How many items can be popped without another block arriving. */
    ghost function Available(): int
      requires taken <= |incoming|
      reads this
    {
      length - offs + Items(length, |incoming| - taken)
    }

    /** Waits for the next block; ok is false if it never comes. */
    method RecvBuffer() returns (ok: bool)
      requires Valid() && offs == length
      modifies this`taken, this`buf, this`offs
      ensures Valid() && ok == (old(taken) < |incoming|)
      ensures if ok then offs == 0 && taken == old(taken) + 1 else offs == length && taken == old(taken)
    {
      ok := taken < |incoming|;
      if ok {
        assert incoming[..taken + 1] == incoming[..taken] + [incoming[taken]];
        FlattenSnoc(incoming[..taken], incoming[taken]);
        buf, taken, offs := incoming[taken], taken + 1, 0;
      }
    }

    /** done is false if the call never returns for want of blocks. */
    method Pop() returns (done: bool, item: T)
      requires Valid()
      modifies this
      ensures Valid() && done == (old(Available()) >= 1)
      ensures if done then popped == old(popped) + [item] else popped == old(popped)
      ensures taken == old(taken) + if done && old(offs) == length then 1 else 0
    {
      done := true;
      item := buf[0];
      if offs == length { done := RecvBuffer(); }
      if done {
        item := buf[offs];
        offs := offs + 1;
        popped := popped + [item];
      }
    }

    /** Copies the rest of the block into data behind the first at, and waits for the next block. */
    method FinishBlock(data: array<T>, at: nat, ghost before: seq<T>) returns (ok: bool)
      requires Valid() && at + length - offs <= data.Length && popped == before + data[..at]
      modifies this, data
      ensures Valid() && popped == before + data[..at + length - old(offs)]
      ensures ok == (old(taken) < |incoming|) && taken == old(taken) + if ok then 1 else 0
      ensures old(Available()) == length - old(offs) + if ok then Available() else 0
    {
      Copy(data, at, length - offs, before);
      ok := RecvBuffer();
    }

    /** Fills data; done is false if the call never returns for want of blocks. */
    method PopItems(data: array<T>) returns (done: bool)
      requires Valid()
      modifies this, data
      ensures Valid() && done == (old(Available()) >= data.Length)
      ensures done ==> popped == old(popped) + data[..] && (taken == old(taken) || offs > 0)
    {
      var pos, num := 0, data.Length;
      while num > length - offs
        invariant Valid() && 0 <= num && 0 <= pos && pos + num == data.Length
        invariant popped == old(popped) + data[..pos] && Available() + pos == old(Available())
        invariant taken == old(taken) || num > 0
        decreases |incoming| - taken
      {
        var avail := length - offs;
        var ok := FinishBlock(data, pos, old(popped));
        pos, num := pos + avail, num - avail;
        if !ok { return false; }
      }
      Copy(data, pos, num, old(popped));
      assert data[..pos + num] == data[..];
      return true;
    }

    /** Copies the next n items into data behind the first at. */
    method Copy(data: array<T>, at: nat, n: nat, ghost before: seq<T>)
      requires Valid() && at + n <= data.Length && n <= length - offs && popped == before + data[..at]
      modifies this`offs, this`popped, data
      ensures Valid() && offs == old(offs) + n && popped == before + data[..at + n]
    {
      var i := 0;
      while i < n
        invariant i <= n && offs == old(offs) + i && popped == old(popped)
        invariant data[..at] == old(data[..at])
        invariant forall k | at <= k < at + i :: data[k] == buf[old(offs) + k - at]
      {
        data[at + i] := buf[offs];
        i, offs := i + 1, offs + 1;
      }
      ghost var o := old(offs);
      assert data[at..at + n] == buf[o..o + n];
      Continued(data, at, n, before);
      Shorter(popped, buf, o, n);
      popped := popped + buf[o..o + n];
    }
  }

  /**
   * End to end: whatever sizes the items are pushed and popped in, and whenever blocks move, the items
   * popped are the first ones pushed. The channel is a memory socket's, its payloads the blocks.
   */
  lemma EndToEnd<T(0)>(p: Producer2<T>, c: Consumer2<T>, chan: Channel<seq<T>>)
    requires p.Valid() && c.Valid() && p.length == c.length
    requires Ordered(chan) && chan.sent == p.sent && chan.received == c.incoming[..c.taken]
    ensures |c.popped| <= |p.stream| && p.stream[..|c.popped|] == c.popped
  {
    FlattenPrefix(p.sent, |chan.received|);
    assert Flatten(chan.received) == Flatten(p.sent)[..|Flatten(chan.received)|];
  }

  lemma {:induction false} ItemsAdd(length: nat, j: nat, k: nat)
    ensures Items(length, j + k) == Items(length, j) + Items(length, k)
  {
    if k > 0 { ItemsAdd(length, j, k - 1); }
  }

  /** Nothing is held back but the last block's worth: every full block's items can be popped. */
  lemma FullBlocksDelivered<T(0)>(p: Producer2<T>, c: Consumer2<T>)
    requires p.Valid() && c.Valid() && p.length == c.length && c.incoming == p.sent
    ensures |c.popped| + c.Available() + p.offs == |p.stream|
    ensures |p.stream| - |c.popped| - c.Available() < p.length
  {
    FlattenLength(p.sent, p.length);
    forall b | b in c.incoming[..c.taken] ensures |b| == p.length { assert b in c.incoming; }
    FlattenLength(c.incoming[..c.taken], p.length);
    ItemsAdd(p.length, c.taken, |p.sent| - c.taken);
  }
}
