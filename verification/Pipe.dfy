/**
 * kernel/pipe.c: a ring buffer with 32-bit counters and sleeping readers and writers.
 *
 * A stretch of code from taking the pipe's lock to sleep() or return is one atomic step on this
 * single-CPU machine, so each method below is one such stretch: a call that sleeps is continued by
 * a later call. The whole streams written and consumed are ghost state.
 */
module Pipe {
  const PIPESIZE := 512
  const WORD := 0x1_0000_0000

  /** How a stretch ends: asleep after `i` bytes, back with a count, or back with -1. */
  datatype Outcome = Slept(i: int) | Done(i: int) | Failed

  /** A 32-bit counter of `n` bytes; the ring index it gives is that of `n` itself. */
  function Count(n: nat): nat { n % WORD }

  lemma CountIndex(n: nat)
    ensures Count(n) % PIPESIZE == n % PIPESIZE
    ensures Count(n + 1) == (Count(n) + 1) % WORD
  {
    var q := n / WORD;
    assert n == WORD * q + n % WORD;
    assert WORD * q == PIPESIZE * (8388608 * q);
    Shift(n % WORD, 8388608 * q);
    Wrap(n % WORD, q);
  }

  lemma Shift(r: nat, q: nat)
    ensures (PIPESIZE * q + r) % PIPESIZE == r % PIPESIZE
  {
  }

  lemma Wrap(r: nat, q: nat)
    requires r < WORD
    ensures (WORD * q + r + 1) % WORD == (r + 1) % WORD
  {
  }

  /** The two comparisons of counters decide emptiness and fullness in spite of the wrap-around. */
  lemma CountTests(r: nat, w: nat)
    requires r <= w <= r + PIPESIZE
    ensures Count(r) == Count(w) <==> r == w
    ensures Count(w) == (Count(r) + PIPESIZE) % WORD <==> w == r + PIPESIZE
  {
    var q := r / WORD;
    Residue(r % WORD, w - r, q);
    Residue(r % WORD, PIPESIZE, q);
  }

  /** Adding less than a word to a residue wraps round at most once. */
  lemma Residue(x: nat, d: nat, q: nat)
    requires x < WORD && d <= PIPESIZE
    ensures (WORD * q + x + d) % WORD == (x + d) % WORD == if x + d < WORD then x + d else x + d - WORD
  {
    if x + d < WORD {
      Remainder(q, x + d);
      Remainder(0, x + d);
    } else {
      Remainder(q + 1, x + d - WORD);
      Remainder(1, x + d - WORD);
    }
  }

  lemma Remainder(q: nat, x: nat)
    requires x < WORD
    ensures (WORD * q + x) % WORD == x
  {
  }

  class Pipe {
    const data: array<int>
    var nread: nat
    var nwrite: nat
    var readopen: bool
    var writeopen: bool
    /** Processes asleep on the two counters' addresses. */
    var readers: set<nat>
    var writers: set<nat>
    ghost var written: seq<int>
    ghost var consumed: seq<int>

    /** What was consumed is a prefix of what was written, and the rest is in the ring. */
    ghost predicate Streams()
      reads this, data
    {
      && data.Length == PIPESIZE
      && |consumed| <= |written| <= |consumed| + PIPESIZE
      && consumed == written[..|consumed|]
      && nread == Count(|consumed|) && nwrite == Count(|written|)
      && (forall k :: |consumed| <= k < |written| ==> data[k % PIPESIZE] == written[k])
    }

    /** No wakeup is ever lost: whoever sleeps has something to wait for and someone to wake it. */
    ghost predicate Sleepers()
      reads this
    {
      && (readers != {} ==> |consumed| == |written| && writeopen)
      && (writers != {} ==> |written| == |consumed| + PIPESIZE && readopen)
    }

    ghost predicate Valid()
      reads this, data
    {
      Streams() && Sleepers()
    }

    ghost function Now(): Shot
      reads this
    {
      Shot(written, consumed, readopen, writeopen, readers, writers)
    }

    constructor ()
      ensures Valid() && readopen && writeopen && written == [] && consumed == [] && readers == {} && writers == {}
      ensures fresh(data)
    {
      data := new int[PIPESIZE](_ => 0);
      nread, nwrite, readopen, writeopen := 0, 0, true, true;
      readers, writers := {}, {};
      written, consumed := [], [];
    }

    /** Puts one byte into the ring. */
    method Put(ch: int)
      requires Streams() && |written| < |consumed| + PIPESIZE
      modifies data, `nwrite, `written
      ensures Streams() && written == old(written) + [ch]
    {
      CountIndex(|written|);
      Distinct(|consumed|, |written|);
      data[nwrite % PIPESIZE] := ch;
      nwrite := (nwrite + 1) % WORD;
      written := written + [ch];
    }

    lemma Distinct(r: nat, w: nat)
      requires r <= w < r + PIPESIZE
      ensures forall k :: r <= k < w ==> k % PIPESIZE != w % PIPESIZE
    {
    }

    /**
     * pipewrite() from byte `i0` on; `fault` is the index at which copyin() fails, if it does.
     * Bytes join the stream in order, and readers are woken before the writer sleeps or leaves.
     */
    method WriteStep(p: nat, src: seq<int>, i0: nat, isKilled: bool, fault: nat) returns (r: Outcome)
      requires Valid() && i0 <= |src| && i0 <= fault
      modifies this, data
      ensures Valid() && consumed == old(consumed) && nread == old(nread)
      ensures readopen == old(readopen) && writeopen == old(writeopen)
      ensures r.Failed? <==> i0 < |src| && (!readopen || isKilled)
      ensures r.Failed? ==> written == old(written) && readers == old(readers) && writers == old(writers)
      ensures !r.Failed? ==> i0 <= r.i <= |src| && written == old(written) + src[i0..r.i] && readers == {}
      ensures r.Slept? ==> r.i < |src| && |written| == |consumed| + PIPESIZE && writers == old(writers) + {p}
      ensures r.Done? ==> writers == old(writers)
      ensures r.Done? ==> r.i == |src| || (r.i == fault && |written| < |consumed| + PIPESIZE)
    {
      var i := i0;
      while i < |src|
        invariant i0 <= i <= |src| && i <= fault && Streams() && consumed == old(consumed)
        invariant written == old(written) + src[i0..i]
        invariant nread == old(nread) && readopen == old(readopen) && writeopen == old(writeopen)
        invariant readers == old(readers) && writers == old(writers)
        invariant i > i0 ==> readopen && !isKilled
        invariant writers != {} ==> |old(written)| == |consumed| + PIPESIZE
      {
        if !readopen || isKilled {
          return Failed;
        }
        CountTests(|consumed|, |written|);
        if nwrite == (nread + PIPESIZE) % WORD {
          readers := {};
          writers := writers + {p};
          return Slept(i);
        }
        if i == fault {
          break;
        }
        Put(src[i]);
        i := i + 1;
      }
      readers := {};
      r := Done(i);
    }

    /**
     * piperead(): what it returns is the next stretch of the stream; a reader sleeps only on an
     * empty pipe that may still be written, and writers are woken before a reader leaves.
     */
    method ReadStep(p: nat, n: nat, isKilled: bool, fault: nat) returns (r: Outcome, bytes: seq<int>)
      requires Valid()
      modifies this
      ensures Valid() && written == old(written) && nwrite == old(nwrite)
      ensures readopen == old(readopen) && writeopen == old(writeopen)
      ensures consumed == old(consumed) + bytes
      ensures var waits := old(consumed) == old(written) && writeopen;
              && (r.Failed? <==> waits && isKilled) && (r.Slept? <==> waits && !isKilled)
      ensures r.Failed? ==> bytes == [] && readers == old(readers) && writers == old(writers)
      ensures r.Slept? ==> bytes == [] && readers == old(readers) + {p} && writers == old(writers)
      ensures r.Done? ==> writers == {} && readers == old(readers)
                          && |bytes| <= n && |bytes| <= fault
                          && (|bytes| == n || |bytes| == fault || consumed == written)
                          && r.i == if fault == 0 && n > 0 && consumed != written then -1 else |bytes|
    {
      bytes := [];
      CountTests(|consumed|, |written|);
      if nread == nwrite && writeopen {
        if isKilled {
          return Failed, [];
        }
        readers := readers + {p};
        return Slept(0), [];
      }
      var i := 0;
      var result := 0;
      while i < n
        invariant 0 <= i == |bytes| <= n && i <= fault && result == i
        invariant Streams() && written == old(written) && nwrite == old(nwrite)
        invariant readopen == old(readopen) && writeopen == old(writeopen)
        invariant readers == old(readers) && writers == old(writers)
        invariant consumed == old(consumed) + bytes
      {
        CountTests(|consumed|, |written|);
        if nread == nwrite {
          break;
        }
        CountIndex(|consumed|);
        var ch := data[nread % PIPESIZE];
        if i == fault {
          if i == 0 {
            result := -1;
          }
          break;
        }
        nread := (nread + 1) % WORD;
        consumed := consumed + [ch];
        bytes := bytes + [ch];
        i := i + 1;
        result := i;
      }
      writers := {};
      r := Done(result);
    }

    /** One end goes. When both are gone nobody sleeps on the pipe, so its page may be freed. */
    method Close(writable: bool) returns (freed: bool)
      requires Valid()
      modifies this
      ensures Valid() && written == old(written) && consumed == old(consumed)
      ensures readopen == (old(readopen) && writable) && writeopen == (old(writeopen) && !writable)
      ensures freed <==> !readopen && !writeopen
      ensures readers == (if writable then {} else old(readers)) && writers == (if writable then old(writers) else {})
      ensures freed ==> readers == {} && writers == {}
    {
      if writable {
        writeopen := false;
        readers := {};
      } else {
        readopen := false;
        writers := {};
      }
      freed := !readopen && !writeopen;
    }

    /** kkill() takes a process off whatever channel it sleeps on. */
    method Kill(p: nat)
      requires Valid()
      modifies this
      ensures Valid() && readers == old(readers) - {p} && writers == old(writers) - {p}
      ensures written == old(written) && consumed == old(consumed) && readopen == old(readopen)
      ensures writeopen == old(writeopen)
    {
      readers, writers := readers - {p}, writers - {p};
    }
  }

  datatype Event =
    | Write(p: nat, src: seq<int>, i0: nat, isKilled: bool, fault: nat)
    | Read(p: nat, n: nat, isKilled: bool, fault: nat)
    | Close(writable: bool)
    | Kill(p: nat)

  predicate Sensible(e: Event) {
    e.Write? ==> e.i0 <= |e.src| && e.i0 <= e.fault
  }

  /** The pipe between two stretches. */
  datatype Shot = Shot(written: seq<int>, consumed: seq<int>, readopen: bool, writeopen: bool, readers: set<nat>,
                       writers: set<nat>)

  datatype Reply = Wrote(r: Outcome) | Got(r: Outcome, bytes: seq<int>) | Closed(freed: bool) | Killed

  /** What was consumed is a prefix of what was written, at most PIPESIZE bytes are on the way, and whoever sleeps
      has something to wait for and someone to wake it. */
  ghost predicate ShotOk(b: Shot) {
    && b.consumed <= b.written && |b.written| <= |b.consumed| + PIPESIZE
    && (b.readers != {} ==> b.consumed == b.written && b.writeopen)
    && (b.writers != {} ==> |b.written| == |b.consumed| + PIPESIZE && b.readopen)
  }

  ghost predicate WriteOk(a: Shot, p: nat, src: seq<int>, i0: nat, isKilled: bool, fault: nat, r: Outcome, b: Shot)
    requires i0 <= |src|
  {
    if i0 < |src| && (!a.readopen || isKilled) then r == Failed && b == a
    else
      && !r.Failed? && i0 <= r.i <= |src|
      && b == a.(written := a.written + src[i0..r.i], readers := {}, writers := b.writers)
      && b.writers == (if r.Slept? then a.writers + {p} else a.writers)
      && var full := |b.written| == |b.consumed| + PIPESIZE;
         if r.Slept? then r.i < |src| && full else r.i == |src| || (r.i == fault && !full)
  }

  ghost predicate ReadOk(a: Shot, p: nat, n: nat, isKilled: bool, fault: nat, r: Outcome, bytes: seq<int>, b: Shot) {
    if a.consumed == a.written && a.writeopen then
      && bytes == [] && (if isKilled then r.Failed? && b == a else r.Slept? && b == a.(readers := a.readers + {p}))
    else
      && r.Done? && b == a.(consumed := a.consumed + bytes, writers := {})
      && |bytes| <= n && |bytes| <= fault && (|bytes| == n || |bytes| == fault || b.consumed == b.written)
      && r.i == if fault == 0 && n > 0 && b.consumed != b.written then -1 else |bytes|
  }

  /** What each stretch does and how it ends. */
  ghost predicate EventOk(a: Shot, e: Event, reply: Reply, b: Shot)
    requires Sensible(e)
  {
    match e
    case Write(p, src, i0, isKilled, fault) => reply.Wrote? && WriteOk(a, p, src, i0, isKilled, fault, reply.r, b)
    case Read(p, n, isKilled, fault) => reply.Got? && ReadOk(a, p, n, isKilled, fault, reply.r, reply.bytes, b)
    case Close(true) => b == a.(writeopen := false, readers := {}) && reply == Closed(!a.readopen)
    case Close(false) => b == a.(readopen := false, writers := {}) && reply == Closed(!a.writeopen)
    case Kill(p) => b == a.(readers := a.readers - {p}, writers := a.writers - {p}) && reply == Killed
  }

  ghost predicate IsTrail(trail: seq<Shot>, events: seq<Event>, replies: seq<Reply>)
    requires forall i :: 0 <= i < |events| ==> Sensible(events[i])
  {
    && |trail| == |events| + 1 && |events| == |replies|
    && (forall i :: 0 <= i < |trail| ==> ShotOk(trail[i]))
    && forall i :: 0 <= i < |events| ==> EventOk(trail[i], events[i], replies[i], trail[i + 1])
  }

  lemma TrailSnoc(trail: seq<Shot>, events: seq<Event>, replies: seq<Reply>, n: nat, reply: Reply, b: Shot)
    requires n < |events| && forall i :: 0 <= i < |events| ==> Sensible(events[i])
    requires IsTrail(trail, events[..n], replies) && ShotOk(b) && EventOk(trail[n], events[n], reply, b)
    ensures IsTrail(trail + [b], events[..n + 1], replies + [reply])
  {
    hide ShotOk, EventOk;
  }

  method Step(pi: Pipe, e: Event) returns (reply: Reply)
    requires pi.Valid() && Sensible(e)
    modifies pi, pi.data
    ensures pi.Valid() && EventOk(old(pi.Now()), e, reply, pi.Now())
  {
    hide Pipe.Valid;
    match e
    case Write(p, src, i0, isKilled, fault) =>
      var r := pi.WriteStep(p, src, i0, isKilled, fault);
      reply := Wrote(r);
    case Read(p, n, isKilled, fault) =>
      var r, bytes := pi.ReadStep(p, n, isKilled, fault);
      reply := Got(r, bytes);
    case Close(writable) =>
      var freed := pi.Close(writable);
      reply := Closed(freed);
    case Kill(p) =>
      pi.Kill(p);
      reply := Killed;
  }

  /**
   * Any number of processes reading, writing, closing and being killed in any order: every stretch adds what it
   * wrote or takes what it returns, readers get a prefix of what writers put in, and nobody sleeps for nothing.
   */
  method Run(events: seq<Event>) returns (pi: Pipe, replies: seq<Reply>, ghost trail: seq<Shot>)
    requires forall i :: 0 <= i < |events| ==> Sensible(events[i])
    ensures pi.Valid() && IsTrail(trail, events, replies) && trail[|events|] == pi.Now()
    ensures trail[0] == Shot([], [], true, true, {}, {})
  {
    hide EventOk;
    pi := new Pipe();
    replies, trail := [], [pi.Now()];
    for i := 0 to |events|
      invariant pi.Valid() && fresh(pi) && fresh(pi.data) && trail != [] && trail[0] == Shot([], [], true, true, {}, {})
      invariant IsTrail(trail, events[..i], replies) && trail[i] == pi.Now()
    {
      var reply := Step(pi, events[i]);
      TrailSnoc(trail, events, replies, i, reply, pi.Now());
      replies, trail := replies + [reply], trail + [pi.Now()];
    }
    assert events[..|events|] == events;
  }

  /** The bytes that the calls put in, and those that they got. */
  function Sent(events: seq<Event>, replies: seq<Reply>): seq<int>
    requires |events| == |replies|
  {
    if |events| == 0 then []
    else
      var n := |events| - 1;
      Sent(events[..n], replies[..n])
      + match events[n]
        case Write(_, src, i0, _, _) =>
          if replies[n].Wrote? && !replies[n].r.Failed? && i0 <= replies[n].r.i <= |src|
          then src[i0..replies[n].r.i] else []
        case _ => []
  }

  function Received(replies: seq<Reply>): seq<int>
  {
    if |replies| == 0 then []
    else
      var n := |replies| - 1;
      Received(replies[..n]) + if replies[n].Got? then replies[n].bytes else []
  }

  /** Over a whole run the calls got a prefix of what the calls put in, at most PIPESIZE bytes short of all of it. */
  lemma {:induction false} BytesInOrder(trail: seq<Shot>, events: seq<Event>, replies: seq<Reply>)
    requires forall i :: 0 <= i < |events| ==> Sensible(events[i])
    requires IsTrail(trail, events, replies) && trail[0] == Shot([], [], true, true, {}, {})
    ensures trail[|events|].written == Sent(events, replies) && trail[|events|].consumed == Received(replies)
    ensures Received(replies) <= Sent(events, replies) && |Sent(events, replies)| <= |Received(replies)| + PIPESIZE
    decreases |events|
  {
    if |events| > 0 {
      var n := |events| - 1;
      assert IsTrail(trail[..n + 1], events[..n], replies[..n]) by { TrailPrefix(trail, events, replies, n); }
      BytesInOrder(trail[..n + 1], events[..n], replies[..n]);
      assert EventOk(trail[n], events[n], replies[n], trail[n + 1]) && ShotOk(trail[n + 1]);
    }
  }

  lemma TrailPrefix(trail: seq<Shot>, events: seq<Event>, replies: seq<Reply>, n: nat)
    requires forall i :: 0 <= i < |events| ==> Sensible(events[i])
    requires IsTrail(trail, events, replies) && n < |events|
    ensures IsTrail(trail[..n + 1], events[..n], replies[..n])
  {
    hide EventOk, ShotOk;
    forall i | 0 <= i < n ensures EventOk(trail[..n + 1][i], events[..n][i], replies[..n][i], trail[..n + 1][i + 1]) {
      assert EventOk(trail[i], events[i], replies[i], trail[i + 1]);
    }
  }
}
