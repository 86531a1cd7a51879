/**
 * data_producer and data_consumer: bytes written in chunks of any size cross a socket in buffers of one
 * size and are read in chunks of any other.
 */
module ByteStreams {
  import opened Seqs
  import Tapes

  type byte = Tapes.byte

  const CAPACITY: nat := 16000

  /** n more elements of d behind the first at. */
  lemma SliceOn<T>(before: seq<T>, d: seq<T>, at: nat, n: nat)
    requires at + n <= |d|
    ensures before + d[..at] + d[at..at + n] == before + d[..at + n]
  {
    assert d[..at] + d[at..at + n] == d[..at + n];
  }

  /** n elements of d, from index i on, go from what is left to what is done. */
  lemma PassedOn<T>(done: seq<T>, d: seq<T>, i: nat, n: nat, end: nat)
    requires i + n <= end <= |d|
    ensures done + d[i..i + n] + d[i + n..end] == done + d[i..end]
  {
    assert d[i..i + n] + d[i + n..end] == d[i..end];
  }

  /** What two parts make up begins with the first. */
  lemma FirstPart<T>(x: seq<T>, y: seq<T>, all: seq<T>, n: nat, s: seq<T>)
    requires n <= |s| && x + y == s[..n] && s == all
    ensures |x| <= |all| && all[..|x|] == x
  {
    assert x == (x + y)[..|x|];
  }

  /** What has been sent is whole buffers, unless chunks go out at once. */
  ghost predicate Whole(sent: nat, size: nat) {
    sent == 0 || size == 0 || (sent >= size && Whole(sent - size, size))
  }

  class DataProducer {
    /** The buffer size in use; 0 sends every chunk at once. */
    const size: nat
    const dataBuffer: array<byte>
    var bufOffset: nat
    var itemsSent: nat
    /** What has been written to the socket. */
    var sent: seq<byte>
    /** All bytes written so far. */
    ghost var written: seq<byte>

    ghost predicate Valid()
      reads this, dataBuffer
    {
      && size <= CAPACITY == dataBuffer.Length && (if size == 0 then bufOffset == 0 else bufOffset < size)
      && written == sent + dataBuffer[..bufOffset] && Whole(|sent|, size)
    }

    constructor (size: nat)
      requires size <= CAPACITY
      ensures Valid() && fresh(dataBuffer) && this.size == size && sent == written == [] && itemsSent == 0
    {
      this.size := size;
      dataBuffer := new byte[CAPACITY];
      bufOffset, itemsSent, sent, written := 0, 0, [], [];
    }

    /** Copies n bytes of data, from index at on, behind those the buffer holds. */
    method Put(data: array<byte>, at: nat, n: nat)
      requires data != dataBuffer && at + n <= data.Length && bufOffset + n <= dataBuffer.Length
      modifies this`bufOffset, dataBuffer
      ensures bufOffset == old(bufOffset) + n
      ensures dataBuffer[..bufOffset] == old(dataBuffer[..bufOffset]) + data[at..at + n]
    {
      Tapes.MemCpy(dataBuffer, bufOffset, data, at, n);
      bufOffset := bufOffset + n;
    }

    /** Completes the buffer with bytes of data, of which the first at have been written, and sends it. */
    method FillAndSend(data: array<byte>, at: nat, ghost before: seq<byte>)
      requires Valid() && size > 0 && data != dataBuffer && at + size - bufOffset <= data.Length
      requires written == before + data[..at]
      modifies this`bufOffset, this`sent, this`written, dataBuffer
      ensures Valid() && bufOffset == 0 && written == before + data[..at + size - old(bufOffset)]
    {
      ghost var fits, held, sent0, d := size - bufOffset, dataBuffer[..bufOffset], sent, data[..];
      Put(data, at, size - bufOffset);
      assert data[..] == d;
      assert Whole(|sent|, size);
      sent := sent + dataBuffer[..size];
      bufOffset := 0;
      written := written + d[at..at + fits];
      SliceOn(before, d, at, fits);
      ConcatAssociates(sent0, held, d[at..at + fits]);
      assert dataBuffer[..0] == [] && sent + [] == sent;
    }

    /** Puts the rest of data into the buffer, which it does not fill. */
    method PutRest(data: array<byte>, at: nat, ghost before: seq<byte>)
      requires Valid() && size > 0 && data != dataBuffer && at <= data.Length && bufOffset + data.Length - at < size
      requires written == before + data[..at]
      modifies this`bufOffset, this`written, dataBuffer
      ensures Valid() && written == before + data[..]
    {
      ghost var held, n, d := dataBuffer[..bufOffset], data.Length - at, data[..];
      if data.Length - at > 0 { Put(data, at, data.Length - at); }
      assert data[..] == d;
      written := written + d[at..at + n];
      SliceOn(before, d, at, n);
      ConcatAssociates(sent, held, d[at..at + n]);
    }

    method WriteChunk(data: array<byte>, nitems: nat)
      requires Valid() && data != dataBuffer
      modifies this, dataBuffer
      ensures Valid() && data[..] == old(data[..])
      ensures written == old(written) + data[..] && itemsSent == old(itemsSent) + nitems
    {
      if size == 0 {
        sent := sent + data[..];
        written := written + data[..];
      } else {
        var ptr, left := 0, data.Length;
        while bufOffset + left >= size
          invariant Valid() && itemsSent == old(itemsSent)
          invariant 0 <= left && 0 <= ptr && ptr + left == data.Length && written == old(written) + data[..ptr]
          decreases left
        {
          var fits := size - bufOffset;
          FillAndSend(data, ptr, old(written));
          ptr, left := ptr + fits, left - fits;
        }
        PutRest(data, ptr, old(written));
      }
      itemsSent := itemsSent + nitems;
    }

    /** Sends the buffer, whatever follows what it holds; called when nothing more will be written. */
    method Flush()
      requires Valid()
      modifies this`sent
      ensures sent == if bufOffset > 0 then old(sent) + dataBuffer[..size] else old(sent)
      ensures |sent| >= |written| && sent[..|written|] == written && Whole(|sent|, size)
    {
      if bufOffset > 0 {
          sent := sent + dataBuffer[..size];
      }
    }
  }

  class DataConsumer {
    const size: nat
    const dataBuffer: array<byte>
    var bufOffset: nat
    var itemsRead: nat
    /** The bytes the socket delivers; the first taken of them have been received. */
    const incoming: seq<byte>
    var taken: nat
    /** All bytes read so far. */
    ghost var read: seq<byte>

    /** The part of a buffer from offset i on. */
    static function HeldIn(d: seq<byte>, i: nat, size: nat): seq<byte> {
      if i <= size <= |d| then d[i..size] else []
    }

    /** What has been received and not read; at first the offset is past the end of the buffer. */
    ghost function Held(): seq<byte>
      reads this, dataBuffer
    {
      HeldIn(dataBuffer[..], bufOffset, size)
    }

    ghost predicate Valid()
      reads this, dataBuffer
    {
      && size <= CAPACITY == dataBuffer.Length && bufOffset <= CAPACITY && taken <= |incoming|
      && (size == 0 ==> Held() == []) && read + Held() == incoming[..taken]
    }

    constructor (size: nat, incoming: seq<byte>)
      requires size <= CAPACITY
      ensures Valid() && fresh(dataBuffer) && this.size == size && this.incoming == incoming && read == []
              && itemsRead == 0
    {
      this.size, this.incoming := size, incoming;
      dataBuffer := new byte[CAPACITY];
      bufOffset, itemsRead, taken, read := CAPACITY, 0, 0, [];
    }

    /** The next n bytes the socket delivers. */
    method FromSocket(dst: array<byte>, n: nat)
      requires taken + n <= |incoming| && n <= dst.Length
      modifies dst
      ensures dst[..n] == incoming[taken..taken + n]
    {
      var i := 0;
      while i < n
        invariant 0 <= i <= n && forall k | 0 <= k < i :: dst[k] == incoming[taken + k]
      {
        dst[i] := incoming[taken + i];
        i := i + 1;
      }
    }

    /** Receives a full buffer; ok is false if it never comes. */
    method Receive() returns (ok: bool)
      requires Valid() && size > 0 && bufOffset >= size
      modifies this`bufOffset, this`taken, dataBuffer
      ensures Valid() && ok == (old(taken) + size <= |incoming|)
      ensures if ok then bufOffset == 0 && taken == old(taken) + size
              else bufOffset == old(bufOffset) && taken == old(taken)
    {
      ok := taken + size <= |incoming|;
      if ok {
        NextBytes(size);
        FromSocket(dataBuffer, size);
        taken, bufOffset := taken + size, 0;
      }
    }

    lemma NextBytes(n: nat)
      requires taken + n <= |incoming|
      ensures incoming[..taken + n] == incoming[..taken] + incoming[taken..taken + n]
    {
    }

    static lemma PlacedSlices(was: seq<byte>, c: seq<byte>, src: seq<byte>, b: nat, a: nat, n: nat)
      requires Tapes.Placed(was, c, src, b, a, n)
      ensures c[b..b + n] == src[a..a + n] && c[..b] == was[..b]
    {
    }

    static lemma Passed(done: seq<byte>, d: seq<byte>, i: nat, n: nat, size: nat)
      requires n <= |HeldIn(d, i, size)| && i + n <= |d|
      ensures done + d[i..i + n] + HeldIn(d, i + n, size) == done + HeldIn(d, i, size)
    {
      if i <= size <= |d| { PassedOn(done, d, i, n, size); } else { assert d[i..i + n] == []; }
    }

    /** Copies the next n bytes of the buffer into out, from index at on. */
    method Get(out: array<byte>, at: nat, n: nat)
      requires Valid() && out != dataBuffer && at + n <= out.Length && n <= |Held()|
      modifies this`bufOffset, this`read, out
      ensures Valid() && bufOffset == old(bufOffset) + n && read == old(read) + out[at..at + n]
      ensures out[..at] == old(out[..at])
    {
      ghost var d, i, was := dataBuffer[..], bufOffset, out[..];
      assert Held() == HeldIn(d, i, size);
      Tapes.MemCpy(out, at, dataBuffer, bufOffset, n);
      PlacedSlices(was, out[..], d, at, i, n);
      Passed(read, d, i, n, size);
      assert dataBuffer[..] == d;
      read := read + d[i..i + n];
      bufOffset := bufOffset + n;
      assert Held() == HeldIn(d, i + n, size);
    }

    /**
     * Fills out; done is false if the call never returns for want of bytes. Buffers are received as they
     * are needed, except that reading nothing at all receives the first one.
     */
    method ReadChunk(out: array<byte>, nitems: nat) returns (done: bool)
      requires Valid() && out != dataBuffer
      modifies this, dataBuffer, out
      ensures Valid() && (done ==> read == old(read) + out[..] && itemsRead == old(itemsRead) + nitems)
      ensures done || taken + (if size == 0 then out.Length else size) > |incoming|
      ensures done && size > 0 && taken > old(taken) ==> |Held()| < size || out.Length == 0
    {
      if size == 0 {
        done := ReadDirect(out);
      } else {
        done := ReadBuffered(out);
      }
      if done { itemsRead := itemsRead + nitems; }
    }

    method ReadBuffered(out: array<byte>) returns (done: bool)
      requires Valid() && size > 0 && out != dataBuffer
      modifies this`bufOffset, this`taken, this`read, dataBuffer, out
      ensures Valid() && (done ==> read == old(read) + out[..])
      ensures done || taken + size > |incoming|
      ensures done && taken > old(taken) ==> |Held()| < size || out.Length == 0
    {
      var ptr, left := 0, out.Length;
      while bufOffset + left > size
        invariant Valid() && 0 <= left && 0 <= ptr && ptr + left == out.Length && read == old(read) + out[..ptr]
        invariant left > 0 || out.Length == 0
        decreases |incoming| - taken
      {
        var fits := size - bufOffset;
        if fits > 0 {
          Continue(out, ptr, fits, old(read));
          ptr, left := ptr + fits, left - fits;
        }
        done := Receive();
        if !done { return; }
      }
      if left > 0 { Continue(out, ptr, left, old(read)); }
      done := true;
    }

    /** Reads n more bytes into out behind the first at. */
    method Continue(out: array<byte>, at: nat, n: nat, ghost before: seq<byte>)
      requires Valid() && out != dataBuffer && at + n <= out.Length && n <= |Held()| && read == before + out[..at]
      modifies this`bufOffset, this`read, out
      ensures Valid() && bufOffset == old(bufOffset) + n && read == before + out[..at + n]
    {
      ghost var was := out[..at];
      Get(out, at, n);
      assert out[..at] == was;
      SliceOn(before, out[..], at, n);
    }

    method ReadDirect(out: array<byte>) returns (done: bool)
      requires Valid() && size == 0 && out != dataBuffer
      modifies this`taken, this`read, out
      ensures Valid() && done == (old(taken) + out.Length <= |incoming|)
      ensures if done then read == old(read) + out[..] else read == old(read) && taken == old(taken)
    {
      done := taken + out.Length <= |incoming|;
      if done {
        NextBytes(out.Length);
        FromSocket(out, out.Length);
        assert out[..] == out[..out.Length];
        taken, read := taken + out.Length, read + out[..];
      }
    }
  }

  /**
   * Transparency: at any moment the bytes read are the first bytes written, when what the consumer has
   * received is the beginning of what the producer has sent.
   */
  lemma Transparent(p: DataProducer, c: DataConsumer)
    requires p.Valid() && c.Valid() && c.taken <= |p.sent| && c.incoming[..c.taken] == p.sent[..c.taken]
    ensures |c.read| <= |p.written| && p.written[..|c.read|] == c.read
  {
  }

  /** After the flush what is read is the bytes written and then only what was left in the buffer. */
  lemma TransparentAfterFlush(p: DataProducer, c: DataConsumer, flushed: seq<byte>, padding: seq<byte>)
    requires p.Valid() && c.Valid()
    requires flushed == p.sent + (if p.bufOffset > 0 then p.dataBuffer[..p.size] else [])
    requires padding == if p.bufOffset > 0 then p.dataBuffer[p.bufOffset..p.size] else []
    requires c.taken <= |flushed| && c.incoming[..c.taken] == flushed[..c.taken]
    ensures |c.read| <= |p.written + padding| && (p.written + padding)[..|c.read|] == c.read
  {
    PassedOn(p.sent, p.dataBuffer[..], 0, p.bufOffset, if p.bufOffset > 0 then p.size else 0);
    assert flushed == p.written + padding;
    FirstPart(c.read, c.Held(), p.written + padding, c.taken, flushed);
  }
}
