/** The pipe of kernel/pipe.c: a ring buffer with free-running 32-bit counters. */
module Pipe {
  import opened Common

  const PIPESIZE := 512

  // Why a critical section of pipewrite or piperead ended.
  datatype Stop = Done | Wait | Gone | Fault

  function At(n: int): int {
    n % PIPESIZE
  }

  // data holds the bytes written but not yet read, from counter value r on.
  ghost predicate Buffered(data: seq<int>, r: int, q: seq<int>) {
    |data| == PIPESIZE && 0 <= r && |q| <= PIPESIZE && forall k :: 0 <= k < |q| ==> data[At(r + k)] == q[k]
  }

  // A wrapped counter finds the slot of the unwrapped one.
  lemma WrappedAt(n: int)
    ensures At(n % U32) == At(n)
  {
    var q := n / U32;
    assert n == PIPESIZE * (8388608 * q) + n % U32;
  }

  lemma ApartAt(r: int, j: int, k: int)
    requires 0 <= r && 0 <= j < k < j + PIPESIZE
    ensures At(r + j) != At(r + k)
  {
    var a, b := (r + j) / PIPESIZE, (r + k) / PIPESIZE;
    assert r + j == PIPESIZE * a + At(r + j) && r + k == PIPESIZE * b + At(r + k);
  }

  lemma PutByte(data: seq<int>, r: int, q: seq<int>, ch: int, data': seq<int>, q': seq<int>)
    requires Buffered(data, r, q) && |q| < PIPESIZE && data' == data[At(r + |q|) := ch] && q' == q + [ch]
    ensures Buffered(data', r, q')
  {
    forall k | 0 <= k < |q'| ensures data'[At(r + k)] == q'[k] {
      if k < |q| {
        ApartAt(r, k, |q|);
      }
    }
  }

  lemma GetByte(data: seq<int>, r: int, q: seq<int>, q': seq<int>)
    requires Buffered(data, r, q) && q != [] && q' == q[1..]
    ensures data[At(r)] == q[0] && Buffered(data, r + 1, q')
  {
    assert data[At(r + 0)] == q[0];
    forall k | 0 <= k < |q'| ensures data[At(r + 1 + k)] == q'[k] {
      assert data[At(r + (k + 1))] == q[k + 1];
    }
  }

  // One byte more has been read.
  lemma OneRead(written: seq<int>, consumed: seq<int>, ch: int, q: seq<int>, q': seq<int>)
    requires consumed <= written && q == written[|consumed|..] && q != [] && ch == q[0] && q' == q[1..]
    ensures consumed + [ch] <= written && written[|consumed + [ch]|..] == q'
  {
    assert consumed + [ch] == written[..|consumed| + 1];
  }

  lemma OneWritten(written: seq<int>, consumed: seq<int>, ch: int, q: seq<int>, q': seq<int>)
    requires consumed <= written && q == written[|consumed|..] && q' == q + [ch]
    ensures consumed <= written + [ch] && (written + [ch])[|consumed|..] == q'
  {
  }

  lemma CountOne(n: int)
    requires 0 <= n
    ensures (n % U32 + 1) % U32 == (n + 1) % U32
  {
    var q := n / U32;
    assert n + 1 == U32 * q + (n % U32 + 1);
  }

  // The tests for a full and an empty pipe compare wrapped counters.
  lemma CounterTests(r: int, n: int)
    requires 0 <= r && 0 <= n <= PIPESIZE
    ensures (r + n) % U32 == (r % U32 + PIPESIZE) % U32 <==> n == PIPESIZE
    ensures (r + n) % U32 == r % U32 <==> n == 0
  {
    var q, m := r / U32, r % U32;
    assert (r + n) % U32 == (m + n) % U32 by {
      assert r + n == U32 * q + (m + n);
    }
  }

  class PipeBuffer {
    var data: seq<int>
    var nread: int
    var nwrite: int
    var readopen: bool
    var writeopen: bool
    ghost var written: seq<int>  // every byte ever written, and every byte ever read
    ghost var consumed: seq<int>

    ghost function InTransit(): seq<int>
      reads this
    {
      if |consumed| <= |written| then written[|consumed|..] else []
    }

    // Bytes come out as they went in, and at most PIPESIZE of them are inside.
    ghost predicate Valid()
      reads this
    {
      && consumed <= written && Buffered(data, |consumed|, InTransit())
      && nread == |consumed| % U32 && nwrite == |written| % U32
    }

    constructor ()
      ensures Valid() && written == [] && consumed == [] && readopen && writeopen
    {
      data := seq(PIPESIZE, _ => 0);
      nread, nwrite, readopen, writeopen := 0, 0, true, true;
      written, consumed := [], [];
    }

    // Close one end.
    method Close(writable: bool) returns (last: bool)
      requires Valid()
      modifies this
      ensures Valid() && unchanged(`written) && unchanged(`consumed)
      ensures writeopen == (old(writeopen) && !writable) && readopen == (old(readopen) && writable)
      ensures last <==> !readopen && !writeopen
    {
      if writable {
        writeopen := false;
      } else {
        readopen := false;
      }
      last := !readopen && !writeopen;
    }

    method Put(ch: int)
      requires Valid() && |InTransit()| < PIPESIZE
      modifies this
      ensures Valid() && written == old(written) + [ch] && unchanged(`consumed) && unchanged(`readopen)
              && unchanged(`writeopen)
    {
      ghost var q, q' := InTransit(), InTransit() + [ch];
      WrappedAt(|written|);
      assert |consumed| + |q| == |written|;
      var data' := data[At(nwrite) := ch];
      PutByte(data, |consumed|, q, ch, data', q');
      OneWritten(written, consumed, ch, q, q');
      CountOne(|written|);
      data, nwrite, written := data', (nwrite + 1) % U32, written + [ch];
    }

    method Get() returns (ch: int)
      requires Valid() && InTransit() != []
      modifies this
      ensures Valid() && consumed == old(consumed) + [ch] && unchanged(`written) && unchanged(`readopen)
              && unchanged(`writeopen)
    {
      ghost var q, q' := InTransit(), InTransit()[1..];
      WrappedAt(|consumed|);
      GetByte(data, |consumed|, q, q');
      ch := data[At(nread)];
      OneRead(written, consumed, ch, q, q');
      CountOne(|consumed|);
      nread, consumed := (nread + 1) % U32, consumed + [ch];
    }

    // pi->nwrite == pi->nread + PIPESIZE
    method Full() returns (b: bool)
      requires Valid()
      ensures b <==> |InTransit()| == PIPESIZE
    {
      CounterTests(|consumed|, |InTransit()|);
      b := nwrite == (nread + PIPESIZE) % U32;
    }

    // pi->nread == pi->nwrite
    method Empty() returns (b: bool)
      requires Valid()
      ensures b <==> InTransit() == []
    {
      CounterTests(|consumed|, |InTransit()|);
      b := nread == nwrite;
    }

    // pipewrite from byte i of src on, up to its end or its next sleep.  Of src, avail bytes can be read, and
    // killed() turns true once killAt bytes are written: a kill needs no lock of the pipe.
    method Write(src: seq<int>, i: int, avail: int, killAt: int) returns (i': int, stop: Stop)
      requires Valid() && 0 <= i <= avail <= |src|
      modifies this
      ensures Valid() && i <= i' <= |src| && written == old(written) + src[i..i'] && unchanged(`consumed)
      ensures unchanged(`readopen) && unchanged(`writeopen)
      ensures match stop
              case Done => i' == |src|
              case Gone => i' < |src| && (if readopen then i' == Max(i, killAt) else i' == i)
              case Wait => i' < |src| && readopen && i' < killAt && |InTransit()| == PIPESIZE
              case Fault => i' == avail < |src| && readopen && i' < killAt
    {
      i' := i;
      while i' < |src|
        invariant Valid() && i <= i' <= avail && written == old(written) + src[i..i'] && unchanged(`consumed)
        invariant unchanged(`readopen) && unchanged(`writeopen) && (i' > i ==> readopen && i' <= killAt)
      {
        if !readopen || i' >= killAt {
          return i', Gone;
        }
        var full := Full();
        if full {
          return i', Wait;
        }
        if i' >= avail {
          return i', Fault;
        }
        Put(src[i']);
        assert src[i..i' + 1] == src[i..i'] + [src[i']];
        i' := i' + 1;
      }
      stop := Done;
    }

    // piperead of n bytes into a destination of which avail can be written; called when the pipe is
    // not empty or its write end is closed.
    method Read(n: int, avail: int) returns (i: int, dst: seq<int>)
      requires Valid() && 0 <= n && 0 <= avail
      modifies this
      ensures Valid() && unchanged(`written) && unchanged(`readopen) && unchanged(`writeopen)
      ensures consumed == old(consumed) + dst
      ensures |dst| <= n && |dst| <= avail && |dst| <= |old(InTransit())|
      ensures |dst| == n || |dst| == avail || |dst| == |old(InTransit())|
      ensures i == if |dst| == 0 && 0 < n && avail == 0 && old(InTransit()) != [] then -1 else |dst|
    {
      i, dst := 0, [];
      while i < n
        invariant Valid() && unchanged(`written) && unchanged(`readopen) && unchanged(`writeopen)
        invariant 0 <= i == |dst| && i <= n && i <= avail && i <= |old(InTransit())| && consumed == old(consumed) + dst
      {
        var empty := Empty();
        if empty {
          break;
        }
        if i >= avail {
          if i == 0 {
            i := -1;
          }
          break;
        }
        var ch := Get();
        dst := dst + [ch];
        i := i + 1;
      }
    }
  }
}
