/** Writing several buffers to a TCP connection in pieces: the cursor that survives between the
    calls of lwip_netconn_do_writemore (src/api/api_msg.c, src/api/api_lib.c). */
module VectorWrite {
  import opened Bytes

  const U16 := 0x1_0000

  /** What tcp_write answers, and what the caller of netconn_write is told. */
  datatype Err = Ok | Mem | WouldBlock | Val | Other | NoRoute

  // --- The size of the request ---------------------------------------------------------------

  datatype Size = TooBig | Bytes(n: nat)

  /** The sum of the lengths in unsigned arithmetic modulo `modulus`; overflow is noticed because
      the sum gets smaller than the last length. */
  method TotalSize(vectors: seq<seq<Byte>>, modulus: nat) returns (r: Size)
    requires modulus > 0 && forall i | 0 <= i < |vectors| :: |vectors[i]| < modulus
    ensures r == if |Concat(vectors)| < modulus then Bytes(|Concat(vectors)|) else TooBig
  {
    var size := 0;
    for i := 0 to |vectors|
      invariant size == |Concat(vectors[..i])| < modulus
    {
      ConcatAt(vectors, i);
      var sum := size + |vectors[i]|;
      size := if sum >= modulus then sum - modulus else sum;
      if size < |vectors[i]| {
        return TooBig;
      }
    }
    assert vectors[..|vectors|] == vectors;
    r := Bytes(size);
  }

  function Min(a: nat, b: nat): nat {
    if a <= b then a else b
  }

  // --- The cursor ----------------------------------------------------------------------------

  /** The cursor (vector `v`, position `off`, `cnt` vectors left) denotes the position `offset` of
      the whole, and exactly the bytes before it have been written. */
  ghost predicate At(vectors: seq<seq<Byte>>, v: nat, off: nat, cnt: nat, offset: nat, written: seq<Byte>) {
    && v < |vectors| && off <= |vectors[v]|
    && (if cnt > 0 then cnt == |vectors| - v else v == |vectors| - 1 && off == |vectors[v]|)
    && offset == |Concat(vectors[..v])| + off
    && offset <= |Concat(vectors)| && written == Concat(vectors)[..offset]
  }

  /** Writing `len` more bytes of the current vector moves the cursor by as much. */
  lemma Advance(vectors: seq<seq<Byte>>, v: nat, off: nat, cnt: nat, offset: nat, written: seq<Byte>, len: nat)
    requires At(vectors, v, off, cnt, offset, written) && cnt > 0 && off + len <= |vectors[v]|
    ensures var written' := written + vectors[v][off..off + len];
            if off + len == |vectors[v]| && cnt > 1 then At(vectors, v + 1, 0, cnt - 1, offset + len, written')
            else At(vectors, v, off + len, if off + len == |vectors[v]| then 0 else cnt, offset + len, written')
    ensures offset + len <= |Concat(vectors)|
  {
    hide Concat;
    ConcatAt(vectors, v);
    var before, data, after := Concat(vectors[..v]), vectors[v], Concat(vectors[v + 1..]);
    Slices(before, data, after, off, len);
  }

  lemma Slices(before: seq<Byte>, data: seq<Byte>, after: seq<Byte>, off: nat, len: nat)
    requires off + len <= |data|
    ensures var all := before + data + after;
            all[..|before| + off] + data[off..off + len] == all[..|before| + off + len]
  {
  }

  lemma AtEnd(vectors: seq<seq<Byte>>, v: nat, off: nat, offset: nat, written: seq<Byte>)
    requires At(vectors, v, off, 0, offset, written)
    ensures written == Concat(vectors) && offset == |Concat(vectors)|
  {
    ConcatAt(vectors, v);
    assert vectors[v + 1..] == [];
  }

  /** The position `p` lies in the vector `v`, which is not the last, with a multiple of 65536
      bytes of it left. */
  predicate SticksIn(vectors: seq<seq<Byte>>, v: nat, p: nat) {
    && v + 1 < |vectors| && |Concat(vectors[..v])| <= p < |Concat(vectors[..v])| + |vectors[v]|
    && (|Concat(vectors[..v])| + |vectors[v]| - p) % U16 == 0
  }

  ghost predicate Sticks(vectors: seq<seq<Byte>>, p: nat) {
    exists v: nat :: SticksIn(vectors, v, p)
  }

  lemma {:induction false} StartsInOrder(vectors: seq<seq<Byte>>, v: nat, w: nat)
    requires v < w <= |vectors|
    ensures |Concat(vectors[..v])| + |vectors[v]| <= |Concat(vectors[..w])|
    decreases w
  {
    ConcatAt(vectors, w - 1);
    if v < w - 1 {
      StartsInOrder(vectors, v, w - 1);
    }
  }

  /** The cursor alone decides whether a write sticks at its position. */
  lemma SticksHere(vectors: seq<seq<Byte>>, v: nat, off: nat, cnt: nat, offset: nat, written: seq<Byte>)
    requires At(vectors, v, off, cnt, offset, written) && cnt > 0 && off < |vectors[v]|
    ensures Sticks(vectors, offset) <==> cnt > 1 && (|vectors[v]| - off) % U16 == 0
  {
    hide Concat;
    if w: nat :| SticksIn(vectors, w, offset) {
      if w < v {
        StartsInOrder(vectors, w, v);
      } else if v < w {
        StartsInOrder(vectors, v, w);
      }
    } else if cnt > 1 {
      assert !SticksIn(vectors, v, offset);
    }
  }

  lemma NoneStuckAtEnd(vectors: seq<seq<Byte>>, p: nat)
    requires |Concat(vectors)| <= p
    ensures !Sticks(vectors, p)
  {
    hide Concat;
    assert vectors[..|vectors|] == vectors;
    forall v: nat ensures !SticksIn(vectors, v, p) {
      if SticksIn(vectors, v, p) {
        StartsInOrder(vectors, v, |vectors|);
      }
    }
  }

  /** One call of lwip_netconn_do_writemore and the buffer space gained before it. */
  datatype Call = Call(room: nat, answers: seq<Err>, timedOut: bool, route: bool)

  /** How the loop of one call ends. */
  datatype End = Done | NoSpace | Never | Going

  class Message {
    const vectors: seq<seq<Byte>>
    const dontblock: bool
    var offset: nat    // bytes written so far
    var vector: nat    // index of the current vector
    var vectorOff: nat // position in it
    var vectorCnt: nat // vectors left, the current one included
    var sndBuf: nat    // tcp_sndbuf, not limited to 16 bits yet
    /** The bytes that tcp_write has accepted. */
    ghost var written: seq<Byte>

    ghost predicate Valid()
      reads this
    {
      At(vectors, vector, vectorOff, vectorCnt, offset, written)
    }

    /** What lwip_netconn_do_writemore asserts on entry. */
    ghost predicate Ready()
      reads this
    {
      Valid() && vectorCnt > 0 && offset < |Concat(vectors)|
    }

    constructor (vectors: seq<seq<Byte>>, dontblock: bool, sndBuf: nat)
      requires Concat(vectors) != []
      ensures Ready() && written == [] && this.vectors == vectors && this.dontblock == dontblock
      ensures vector == 0 && vectorOff == 0 && this.sndBuf == sndBuf
    {
      this.vectors, this.dontblock, this.sndBuf := vectors, dontblock, sndBuf;
      offset, vector, vectorOff, vectorCnt, written := 0, 0, 0, |vectors|, [];
      new;
      assert vectors[..0] == [];
    }

    /** The bytes of the current vector that are left. */
    function Diff(): int
      reads this
      requires vector < |vectors|
    {
      |vectors[vector]| - vectorOff
    }

    /** The loop would go on without writing anything: no buffer space, a multiple of 65536 bytes
        left in a vector that is not the last. */
    predicate Stuck()
      reads this
      requires vector < |vectors|
    {
      !dontblock && sndBuf == 0 && Diff() > 0 && Diff() % U16 == 0 && vectorCnt > 1
    }

    /** How many bytes to write next. */
    function Len(): (n: int)
      reads this
      requires vector < |vectors| && vectorOff <= |vectors[vector]|
      ensures 0 <= n <= Diff() && n <= 0xffff && n <= sndBuf && (n == 0 <==> Diff() == 0 || sndBuf == 0)
      ensures n == Diff() || n == sndBuf || n == 0xffff < Diff()
    {
      var len := if Diff() > 0xffff then 0xffff else Diff();
      var available := if sndBuf > 0xffff then 0xffff else sndBuf;
      if available < len then available else len
    }

    /** msg.w.len */
    function TotalLen(): nat {
      |Concat(vectors)|
    }

    /** A write that must not block finds no buffer space. */
    predicate Full()
      reads this
      requires vector < |vectors|
    {
      dontblock && sndBuf == 0 && Diff() > 0
    }

    /** One round of the loop.  `answer` is what tcp_write says; it does not run out of memory for
        no bytes at all. */
    method Round(answer: Err) returns (err: Err, more: bool)
      requires Valid() && vectorCnt > 0 && !Full() && answer in {Ok, Mem, Other}
      modifies this`offset, this`vector, this`vectorOff, this`vectorCnt, this`sndBuf, this`written
      ensures Valid() && old(written) <= written && err in {Ok, Mem, Other}
      ensures err != Ok ==> unchanged(this)
      ensures (answer == Other <==> err == Other) && (answer == Ok ==> err == Ok)
      ensures err == Mem ==> offset < |Concat(vectors)|
      ensures err == Ok ==> offset == old(offset) + old(Len()) && sndBuf == old(sndBuf) - old(Len())
      ensures more && err == Ok ==> vectorCnt > 0
      // another round means progress, or no progress for ever
      ensures more && err == Ok && !old(Stuck()) ==>
              offset > old(offset) || (offset == old(offset) && vectorCnt < old(vectorCnt))
      ensures old(Stuck()) && answer != Other ==> more && err == Ok && written == old(written) && Stuck()
      ensures err != Other && !(more && err == Ok) ==> !Stuck()
      ensures err == Ok && !more && vectorCnt > 0 ==>
                sndBuf == 0 && vector < |vectors| && Diff() > 0 && (dontblock ==> offset > old(offset))
      ensures err == answer || (err == Ok && answer == Mem)
    {
      hide At, Concat, Len;
      CursorBounds(vectors, vector, vectorOff, vectorCnt, offset, written);
      var diff := Diff();
      var len := Len();
      more := (len == 0xffff && diff > 0xffff) || (len == diff % U16 && vectorCnt > 1);
      err := if len == 0 && answer == Mem then Ok else answer;
      Advance(vectors, vector, vectorOff, vectorCnt, offset, written, len);
      if err == Ok {
        written := written + vectors[vector][vectorOff..vectorOff + len];
        offset, sndBuf := offset + len, sndBuf - len;
        vectorOff := vectorOff + len;
        if vectorOff == |vectors[vector]| {
          vectorCnt := vectorCnt - 1;
          if vectorCnt > 0 {
            vector := vector + 1;
            vectorOff := 0;
          }
        }
      }
    }

    /** One pass through the loop of lwip_netconn_do_writemore: how it ends there, or `Going`. */
    method Pass(answer: Err) returns (end: End, err: Err)
      requires Valid() && vectorCnt > 0 && answer in {Ok, Mem, Other}
      modifies this`offset, this`vector, this`vectorOff, this`vectorCnt, this`sndBuf, this`written
      ensures Valid() && old(written) <= written && (err == answer || err == Ok)
      ensures offset + sndBuf == old(offset + sndBuf) && vector < |vectors|
      ensures end == Going ==>
                && err == Ok && vectorCnt > 0
                && (offset > old(offset) || (offset == old(offset) && vectorCnt < old(vectorCnt)))
      ensures end == Never ==> Stuck() && Ready() && Sticks(vectors, offset) && !dontblock
                               && vector + 1 < |vectors| && |vectors[vector]| > 0xffff
      ensures end == NoSpace ==> dontblock && sndBuf == 0 && err == Ok && offset < |Concat(vectors)|
      ensures end == Done ==>
                && (err == Mem ==> Ready()) && (err != Other ==> !Stuck()) && (answer == Ok ==> err == Ok)
                && (err == Ok && offset < |Concat(vectors)| ==> Ready() && sndBuf == 0)
                && (err == Ok && dontblock && |Concat(vectors)| > 0 ==> offset > 0)
                && (err == Ok && !dontblock ==> !Sticks(vectors, offset + sndBuf))
      ensures old(vector < |vectors| && Stuck()) && answer != Other ==> end == Never
    {
      hide At, Concat, Len, Sticks;
      CursorBounds(vectors, vector, vectorOff, vectorCnt, offset, written);
      if Full() {
        InVector(vectors, vector, vectorOff, vectorCnt, offset, written);
        return NoSpace, Ok;
      }
      if Stuck() && answer != Other {
        StuckVector(vectors, vector, vectorOff, vectorCnt, offset, written);
        SticksHere(vectors, vector, vectorOff, vectorCnt, offset, written);
        return Never, Ok;
      }
      var more;
      err, more := Round(answer);
      CursorBounds(vectors, vector, vectorOff, vectorCnt, offset, written);
      OffsetBound(vectors, vector, vectorOff, vectorCnt, offset, written);
      if more && err == Ok {
        return Going, Ok;
      }
      if err == Ok {
        if !dontblock {
          Stopped(vectors, vector, vectorOff, vectorCnt, offset, written, sndBuf);
        }
        if vectorCnt > 0 {
          InVector(vectors, vector, vectorOff, vectorCnt, offset, written);
        }
      }
      end := Done;
    }

    /** The loop of lwip_netconn_do_writemore.  It ends because a write that must not block is out
        of buffer space, because no further round is due, or not at all. */
    method Rounds(answers: seq<Err>) returns (end: End, err: Err)
      requires Ready() && forall a | a in answers :: a in {Ok, Mem, Other}
      modifies this`offset, this`vector, this`vectorOff, this`vectorCnt, this`sndBuf, this`written
      ensures Valid() && old(written) <= written && vector < |vectors| && end != Going && (err in answers || err == Ok)
      ensures end == Never ==> Stuck() && Ready() && !dontblock
      ensures end == NoSpace ==> dontblock && sndBuf == 0 && err == Ok && offset < |Concat(vectors)|
      ensures end == Done ==>
                && (err == Mem ==> Ready()) && (err != Other ==> !Stuck())
                && (err == Ok && offset < |Concat(vectors)| ==> Ready() && sndBuf == 0)
                && (err == Ok && dontblock ==> offset > 0)
      ensures old(Stuck()) && answers == [] ==> end == Never
      ensures end == Never ==> vector + 1 < |vectors| && |vectors[vector]| > 0xffff
      // it writes what fits into the buffer space, as long as tcp_write accepts it
      ensures offset + sndBuf == old(offset + sndBuf)
      ensures (forall a | a in answers :: a == Ok) ==>
                err == Ok && (!dontblock ==> (end == Never <==> Sticks(vectors, old(offset + sndBuf))))
    {
      hide At, Concat, Sticks;
      CursorBounds(vectors, vector, vectorOff, vectorCnt, offset, written);
      OffsetBound(vectors, vector, vectorOff, vectorCnt, offset, written);
      var i := 0;
      while true
        invariant 0 <= i && Valid() && vectorCnt > 0 && vector < |vectors| && offset <= |Concat(vectors)|
        invariant old(written) <= written && offset + sndBuf == old(offset + sndBuf)
        invariant old(Stuck()) && answers == [] ==> Stuck()
        decreases |Concat(vectors)| - offset, vectorCnt
      {
        var answer := Ok;
        if i < |answers| {
          assert answers[i] in answers;
          answer := answers[i];
        }
        end, err := Pass(answer);
        OffsetBound(vectors, vector, vectorOff, vectorCnt, offset, written);
        if end != Going {
          return;
        }
        i := i + 1;
      }
    }

    /** lwip_netconn_do_writemore.  `answers` are those of tcp_write round by round, `timedOut`
        that of the send timer, `route` that of tcp_output.  A blocking write either gives up
        with an error, or has written everything, or waits with a cursor that it can go on
        from. */
    method WriteMore(answers: seq<Err>, timedOut: bool, route: bool) returns (finished: bool, err: Err, endless: bool)
      requires Ready() && forall a | a in answers :: a in {Ok, Mem, Other}
      modifies this`offset, this`vector, this`vectorOff, this`vectorCnt, this`sndBuf, this`written
      ensures Valid() && old(written) <= written && vector < |vectors|
      ensures !finished ==> Ready()
      ensures finished && err == Ok && !dontblock && !timedOut ==> written == Concat(vectors)
      ensures finished && err == WouldBlock ==> written == []
      ensures dontblock || timedOut ==> finished
      // the loop does not end if and only if it gets stuck
      ensures endless <==> !finished && Stuck()
      // which the buffer space decides beforehand, as long as tcp_write accepts what it is given
      ensures !dontblock && !timedOut && (forall a | a in answers :: a == Ok) ==>
                (endless <==> Sticks(vectors, old(offset + sndBuf)))
      // it writes what fits into the buffer space, and says so
      ensures offset + sndBuf == old(offset + sndBuf)
      ensures timedOut ==> written == old(written) && err == if offset == 0 then WouldBlock else Ok
      ensures !timedOut && !endless && (forall a | a in answers :: a == Ok) ==>
                && offset == Min(|Concat(vectors)|, old(offset + sndBuf))
                && (finished <==> dontblock || !route || offset == |Concat(vectors)|)
                && err == (if dontblock && offset == 0 then WouldBlock else if route then Ok else NoRoute)
      ensures err == Other ==> Other in answers
      ensures old(Stuck()) && !timedOut && answers == [] ==> endless
      ensures (forall i | 0 <= i < |vectors| - 1 :: |vectors[i]| <= 0xffff) ==> !endless
    {
      hide At, Concat, Len, Sticks;
      CursorBounds(vectors, vector, vectorOff, vectorCnt, offset, written);
      if timedOut {
        NothingWritten(vectors, vector, vectorOff, vectorCnt, offset, written);
        return true, if offset == 0 then WouldBlock else Ok, false;
      }
      var end;
      end, err := Rounds(answers);
      NothingWritten(vectors, vector, vectorOff, vectorCnt, offset, written);
      OffsetBound(vectors, vector, vectorOff, vectorCnt, offset, written);
      endless := end == Never;
      if end == Never {
        finished := false;
      } else if end == NoSpace {
        finished, err := true, if offset == 0 then WouldBlock else if route then Ok else NoRoute;
      } else if err == Ok {
        finished := offset == TotalLen() || dontblock;
        if !route {
          finished, err := true, NoRoute;
        }
      } else if err == Mem {
        finished := false;
        if !route {
          finished, err := true, NoRoute;
        } else if dontblock {
          finished, err := true, if offset == 0 then WouldBlock else Ok;
        }
      } else {
        finished := true;
      }
    }

    /** The whole write: between two calls, acknowledgements may have made room.  Whatever
        happens, what has been written is a prefix of the vectors put together, and a blocking
        write that ends well has written all of it.  As long as tcp_write accepts what it is given,
        the prefix is as long as all the room so far allows. */
    method Write(calls: seq<Call>) returns (n: nat, finished: bool, err: Err, endless: bool)
      requires Ready() && forall c | c in calls :: forall a | a in c.answers :: a in {Ok, Mem, Other}
      modifies this`offset, this`vector, this`vectorOff, this`vectorCnt, this`sndBuf, this`written
      ensures Valid() && old(written) <= written <= Concat(vectors) && |written| == offset
      ensures finished && err == Ok && !dontblock && (forall c | c in calls :: !c.timedOut) ==>
              written == Concat(vectors)
      ensures !finished ==> Ready()
      ensures (forall i | 0 <= i < |vectors| - 1 :: |vectors[i]| <= 0xffff) ==> !endless
      ensures n <= |calls| && (n < |calls| ==> finished || endless)
      ensures offset + sndBuf == old(offset + sndBuf) + Room(calls[..n])
      ensures Smooth(calls) && n > 0 && !endless ==>
                offset == Min(|Concat(vectors)|, old(offset + sndBuf) + Room(calls[..n]))
    {
      hide At, Concat, Sticks;
      finished, err, endless, n := false, Ok, false, 0;
      while n < |calls| && !finished && !endless
        invariant n <= |calls| && Valid() && old(written) <= written && (!finished ==> Ready())
        invariant finished && err == Ok && !dontblock && (forall c | c in calls :: !c.timedOut) ==>
                  written == Concat(vectors)
        invariant (forall i | 0 <= i < |vectors| - 1 :: |vectors[i]| <= 0xffff) ==> !endless
        invariant offset + sndBuf == old(offset + sndBuf) + Room(calls[..n])
        invariant Smooth(calls) && n > 0 && !endless ==>
                    offset == Min(|Concat(vectors)|, old(offset + sndBuf) + Room(calls[..n]))
      {
        assert calls[n] in calls;
        RoomStep(calls, n);
        sndBuf := sndBuf + calls[n].room;
        finished, err, endless := WriteMore(calls[n].answers, calls[n].timedOut, calls[n].route);
        n := n + 1;
      }
      NothingWritten(vectors, vector, vectorOff, vectorCnt, offset, written);
    }
  }

  /** The buffer space gained before these calls. */
  function Room(calls: seq<Call>): nat {
    if calls == [] then 0 else Room(calls[..|calls| - 1]) + calls[|calls| - 1].room
  }

  lemma RoomStep(calls: seq<Call>, n: nat)
    requires n < |calls|
    ensures Room(calls[..n + 1]) == Room(calls[..n]) + calls[n].room
  {
    assert calls[..n + 1][..n] == calls[..n];
  }

  /** No time-out, and tcp_write accepts what it is given. */
  predicate Smooth(calls: seq<Call>) {
    forall c | c in calls :: !c.timedOut && forall a | a in c.answers :: a == Ok
  }

  lemma NothingWritten(vectors: seq<seq<Byte>>, v: nat, off: nat, cnt: nat, offset: nat, written: seq<Byte>)
    requires At(vectors, v, off, cnt, offset, written)
    ensures |written| == offset && written <= Concat(vectors)
  {
  }

  lemma OffsetBound(vectors: seq<seq<Byte>>, v: nat, off: nat, cnt: nat, offset: nat, written: seq<Byte>)
    requires At(vectors, v, off, cnt, offset, written)
    ensures offset <= |Concat(vectors)| && (cnt == 0 ==> offset == |Concat(vectors)|)
    ensures offset == |Concat(vectors)| ==> written == Concat(vectors)
  {
    if cnt == 0 {
      AtEnd(vectors, v, off, offset, written);
    }
  }

  lemma StuckVector(vectors: seq<seq<Byte>>, v: nat, off: nat, cnt: nat, offset: nat, written: seq<Byte>)
    requires At(vectors, v, off, cnt, offset, written) && cnt > 1
    requires |vectors[v]| - off > 0 && (|vectors[v]| - off) % U16 == 0
    ensures v < |vectors| - 1 && |vectors[v]| > 0xffff && offset < |Concat(vectors)|
  {
    ConcatAt(vectors, v);
  }

  /** A cursor inside a vector is not at the end. */
  lemma InVector(vectors: seq<seq<Byte>>, v: nat, off: nat, cnt: nat, offset: nat, written: seq<Byte>)
    requires At(vectors, v, off, cnt, offset, written) && cnt > 0 && off < |vectors[v]|
    ensures offset < |Concat(vectors)|
  {
    ConcatAt(vectors, v);
  }

  /** The loop stopped with everything written, or without buffer space at a place that does not
      make it stick. */
  lemma Stopped(vectors: seq<seq<Byte>>, v: nat, off: nat, cnt: nat, offset: nat, written: seq<Byte>, sndBuf: nat)
    requires At(vectors, v, off, cnt, offset, written)
    requires cnt > 0 ==> sndBuf == 0 && off < |vectors[v]| && !(cnt > 1 && (|vectors[v]| - off) % U16 == 0)
    ensures !Sticks(vectors, offset + sndBuf)
  {
    hide Concat, Sticks;
    if cnt > 0 {
      SticksHere(vectors, v, off, cnt, offset, written);
    } else {
      OffsetBound(vectors, v, off, cnt, offset, written);
      NoneStuckAtEnd(vectors, offset + sndBuf);
    }
  }

  lemma CursorBounds(vectors: seq<seq<Byte>>, v: nat, off: nat, cnt: nat, offset: nat, written: seq<Byte>)
    requires At(vectors, v, off, cnt, offset, written)
    ensures v < |vectors| && off <= |vectors[v]| && (cnt > 0 ==> cnt == |vectors| - v)
  {
  }

  /** A blocking write of 65536 bytes and one more, with no buffer space, does not come back. */
  method EndlessExample() returns (endless: bool)
    ensures endless
  {
    var first: seq<Byte> := seq(U16, i => 0);
    var vectors := [first, [1]];
    ConcatAt(vectors, 1);
    var message := new Message(vectors, false, 0);
    CursorBounds(message.vectors, message.vector, message.vectorOff, message.vectorCnt, message.offset,
        message.written);
    var finished, err;
    finished, err, endless := message.WriteMore([], false, true);
  }
}
