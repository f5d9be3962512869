/** Pipes: a ring of 512 bytes whose read and write counters are 32-bit and wrap around.

    pipewrite and piperead hold the pipe's lock except while they sleep, so each method here is the part
    of a call from acquiring the lock to the next sleep or to the return. `readers` and `writers` are
    the processes asleep on &nread and &nwrite.
 */
module Pipe {
  import opened Blocks

  const PIPESIZE := 512
  const WRAP := 0x1_0000_0000

  datatype Outcome = Sleeps | Returns(value: int)

  /** The lower 32 bits agree with the count, and index the ring the same way. */
  lemma WrapIndex(k: nat)
    ensures k % WRAP % PIPESIZE == k % PIPESIZE && (k % WRAP + 1) % WRAP == (k + 1) % WRAP
  {
  }

  /** Counters that differ by at most the size of the ring are told apart by their lower 32 bits. */
  lemma WrapCompare(r: nat, w: nat)
    requires r <= w <= r + PIPESIZE
    ensures r % WRAP == w % WRAP <==> r == w
    ensures w % WRAP == (r % WRAP + PIPESIZE) % WRAP <==> w == r + PIPESIZE
  {
  }

  lemma RingDistinct(j: nat, k: nat)
    requires j < k < j + PIPESIZE
    ensures j % PIPESIZE != k % PIPESIZE
  {
  }

  class Ring {
    var data: seq<byte>
    var nread: nat
    var nwrite: nat
    var readopen: bool
    var writeopen: bool
    var readers: set<nat>
    var writers: set<nat>
    /** Every byte ever stored and every byte ever read, in order. */
    ghost var stored: seq<byte>
    ghost var received: seq<byte>

    /** First in, first out: what was read is a prefix of what was stored, and the ring holds exactly the
        bytes in between. */
    ghost predicate Fifo()
      reads this
    {
      && |data| == PIPESIZE && received <= stored && |stored| <= |received| + PIPESIZE
      && nread == |received| % WRAP && nwrite == |stored| % WRAP
      && forall k | |received| <= k < |stored| :: data[k % PIPESIZE] == stored[k]
    }

    predicate Empty()
      reads this
    {
      nread == nwrite
    }

    predicate Full()
      reads this
    {
      nwrite == (nread + PIPESIZE) % WRAP
    }

    /** Nobody sleeps who could go on. */
    ghost predicate SleepersOk()
      reads this
    {
      (readers != {} ==> Empty() && writeopen) && (writers != {} ==> Full() && readopen)
    }

    constructor ()
      ensures Fifo() && SleepersOk() && readopen && writeopen && stored == [] && received == [] && readers == {} && writers == {}
    {
      data := seq(PIPESIZE, _ => 0);
      nread, nwrite, readopen, writeopen := 0, 0, true, true;
      readers, writers, stored, received := {}, {}, [], [];
    }

    /** The counters tell how many bytes are in the ring. */
    lemma Occupancy()
      requires Fifo()
      ensures Empty() <==> received == stored
      ensures Full() <==> |stored| == |received| + PIPESIZE
    {
      WrapCompare(|received|, |stored|);
    }

    method Put(ch: byte)
      requires Fifo() && !Full()
      modifies this`data, this`nwrite, this`stored
      ensures Fifo() && stored == old(stored) + [ch] && !Empty()
    {
      Occupancy();
      WrapIndex(|stored|);
      forall k | |received| <= k < |stored| ensures k % PIPESIZE != |stored| % PIPESIZE {
        RingDistinct(k, |stored|);
      }
      data := data[nwrite % PIPESIZE := ch];
      nwrite := (nwrite + 1) % WRAP;
      stored := stored + [ch];
      Occupancy();
    }

    method Take() returns (ch: byte)
      requires Fifo() && !Empty()
      modifies this`nread, this`received
      ensures Fifo() && received == old(received) + [ch] && !Full()
    {
      Occupancy();
      WrapIndex(|received|);
      ch := data[nread % PIPESIZE];
      nread := (nread + 1) % WRAP;
      received := received + [ch];
      Occupancy();
    }

    /** A write to an empty pipe stores a byte and is then killed before it ends or has to sleep. */
    predicate KilledMidway(src: seq<byte>, start: nat, n: int, killAt: int)
      reads this
    {
      readopen && start < killAt < n && killAt <= |src| && killAt <= start + PIPESIZE
    }

    /** pipewrite by process `me`, with `start` of n bytes already written. `src` is what can be copied
        in; killed() turns true when byte `killAt` is reached, if ever. */
    method Write(me: nat, src: seq<byte>, start: nat, n: int, killAt: int) returns (i: nat, out: Outcome)
      requires Fifo() && start <= |src|
      modifies this`data, this`nwrite, this`readers, this`writers, this`stored
      ensures Fifo() && start <= i <= |src| && stored == old(stored) + src[start..i] && (if start <= n then i <= n else i == start)
      ensures out.Sleeps? ==> Full() && readopen && me in writers && i < n
      ensures out.Returns? ==> out.value == -1 || (out.value == i && (i >= n || i == |src|) && (readopen || start >= n))
      ensures out == Returns(-1) <==> i < n && (!readopen || i == killAt)
      ensures !(start <= killAt < i) && readers == if out == Returns(-1) then old(readers) else {}
      ensures old(SleepersOk()) ==> (SleepersOk() <==> !(old(readers) != {} && KilledMidway(src, start, n, killAt)))
      ensures writers == if out.Sleeps? then old(writers) + {me} else old(writers)
    {
      Occupancy();
      i := start;
      while i < n
        invariant start <= i <= |src| && (start < n ==> i <= n) && (start >= n ==> i == start)
        invariant Fifo() && stored == old(stored) + src[start..i] && readers == old(readers) && writers == old(writers)
        invariant i > start ==> readopen && !Empty() && (old(SleepersOk()) ==> old(writers) == {})
        invariant |stored| == |old(stored)| + i - start
        invariant i == start ==> nwrite == old(nwrite)
        invariant i < n || start >= n || readopen
        invariant !(start <= killAt < i)
      {
        if !readopen || i == killAt {
          return i, Returns(-1);
        }
        Occupancy();
        if Full() {
          readers := {};
          writers := writers + {me};
          return i, Sleeps;
        }
        if i == |src| {
          break;
        }
        Put(src[i]);
        i := i + 1;
      }
      readers := {};
      return i, Returns(i);
    }

    /** piperead by process `me`; `room` bytes can be copied out, and `killed` is what killed() says when
        the pipe is empty. */
    method Read(me: nat, n: int, room: nat, killed: bool) returns (got: seq<byte>, out: Outcome)
      requires Fifo()
      modifies this`nread, this`received, this`readers, this`writers
      ensures Fifo() && (old(SleepersOk()) ==> SleepersOk())
      ensures received == old(received) + got && |got| <= room && |got| <= if n >= 0 then n else 0
      ensures out.Sleeps? ==> Empty() && writeopen && got == []
      ensures readers == if out.Sleeps? then old(readers) + {me} else old(readers)
      ensures old(Empty()) && writeopen ==> out == if killed then Returns(-1) else Sleeps
      ensures !(old(Empty()) && writeopen) ==>
        && writers == {} && out.Returns?
        && (out.value == -1 <==> n > 0 && room == 0 && !Empty())
        && (out.value != -1 ==> out.value == |got| && (|got| >= n || Empty() || |got| == room))
    {
      got := [];
      if Empty() && writeopen {
        if killed {
          return [], Returns(-1);
        }
        readers := readers + {me};
        return [], Sleeps;
      }
      var i := 0;
      while i < n
        invariant 0 <= i && i == |got| && (n >= 0 ==> i <= n) && (n < 0 ==> i == 0) && i <= room
        invariant Fifo() && readers == old(readers) && writers == old(writers)
        invariant received == old(received) + got
        invariant i == 0 ==> nread == old(nread)
      {
        if Empty() {
          break;
        }
        if i == room {
          if i == 0 {
            i := -1;
          }
          break;
        }
        var ch := Take();
        got := got + [ch];
        i := i + 1;
      }
      writers := {};
      return got, Returns(i);
    }

    /** pipeclose wakes everyone who sleeps at the other end. */
    method Close(writable: bool)
      requires Fifo()
      modifies this`readopen, this`writeopen, this`readers, this`writers
      ensures Fifo() && (old(SleepersOk()) ==> SleepersOk())
      ensures if writable then readers == {} && writers == old(writers) else writers == {} && readers == old(readers)
      ensures if writable then !writeopen && readopen == old(readopen) else !readopen && writeopen == old(writeopen)
    {
      if writable {
        writeopen := false;
        readers := {};
      } else {
        readopen := false;
        writers := {};
      }
    }
  }

  /** A reader left asleep beside a byte: it sleeps on the empty pipe, and a write of two bytes is
      killed after the first. */
  method StrandedReader() returns (pipe: Ring)
    ensures pipe.Fifo() && !pipe.SleepersOk() && pipe.readers == {1} && pipe.stored == [7] && pipe.received == []
  {
    pipe := new Ring();
    var got, slept := pipe.Read(1, 1, 1, false);
    var i, out := pipe.Write(2, [7, 7], 0, 2, 1);
    pipe.Occupancy();
    assert [7, 7][0..1] == [7];
  }
}
