/** Two connections, run with the operations of the other modules, that end up in the cases in
    which the queues no longer hold the stream. */
module TcpExamples {
  import opened Bytes
  import opened Checksum
  import opened ChainChecksum
  import opened TcpSegment
  import opened TcpQueue
  import opened TcpStream
  import opened TcpConnection

  /** The only segment of a queue that was empty before the write. */
  lemma FirstWritten(big: bool, arg: seq<Byte>, q: seq<Seg>, lbb: nat, mss: nat)
    requires WrittenQueue(big, [], 0, arg, q, lbb) && AllOk(big, q, mss) && |q| == 1 && lbb < U32
    requires AllWithOptions(q[0..], 0)
    ensures q[0].seqno == lbb && Flat(q[0].bufs) == arg && TcpLen(q[0]) == |arg| && ProperSeg(q[0]) && q[0].len == |arg|
    ensures q[0].optlen == 0
  {
    hide SegOk, Flat, TcpLen;
    AllOkAt(big, q, mss, 0);
    assert q[0..] == q && [] + q == q && q == [q[0]] && arg[0..] == arg;
    QueueEmpty(lbb);
    QueueSnoc([], q[0], lbb);
    SegIsProper(big, q[0]);
  }

  lemma SegIsProper(big: bool, s: Seg)
    requires SegOk(big, s)
    ensures ProperSeg(s)
  {
  }

  /** One segment more, behind the stream. */
  lemma StreamedSnoc(q: seq<Seg>, stream: seq<Byte>, lbb: nat, s: Seg)
    requires Streamed(q, 0, stream, multiset(q), lbb) && s.seqno == lbb && ProperSeg(s) && Span(q) + TcpLen(s) < HALF
    ensures Streamed(q + [s], 0, stream + Flat(s.bufs), multiset(q + [s]), Seq(Span(q) + TcpLen(s)))
    ensures Span(q + [s]) == Span(q) + TcpLen(s)
  {
    hide Contiguous, Payload, Span, Flat, TcpLen, ProperSeg;
    QueueSnoc(q, s, 0);
  }

  /** All of `stream` has been written, copied and sent, one buffer a segment, and nothing of it
      is acknowledged. */
  ghost predicate InFlight(pcb: Pcb, stream: seq<Byte>)
    reads pcb
  {
    && pcb.Valid() && pcb.unsent == [] && pcb.unsentOversize == 0 && pcb.lastack == 0 && pcb.writable
    && Streamed(pcb.unacked, 0, stream, multiset(pcb.unacked), pcb.sndLbb) && Span(pcb.unacked) == |stream|
    && pcb.sndNxt == pcb.sndLbb == |stream| && pcb.sndBuf == 4000 - |stream| && pcb.sndQueuelen == |pcb.unacked|
    && pcb.mssLocal == 1460 && pcb.optlen == 0 && pcb.sndQueuelenMax == 16
  }

  /** Enough memory, and nothing in the way. */
  const EASY := Circumstances(false, false, true, true)

  /** What a write of a few bytes does: one new segment, or all of it into the last one. */
  lemma SmallWrite(cfg: Config, arg: seq<Byte>, alloc: nat -> bool, a: Snap, err: Err, b: Snap)
    requires DidWrite(cfg, arg, 0, true, alloc, a, err, b) && Plenty(alloc) && cfg.queueMax == 16 && cfg.optlen == 0
    requires 0 < |arg| <= 100 && |arg| <= a.sndBuf && a.mssLocal == 1460 && a.writable && a.oversize == 0
    requires Pbufs(a.unacked) + Pbufs(a.unsent) <= 8
    requires a.unsent == [] || (|a.unsent| == 1 && 0 < a.unsent[0].len <= 1000 && a.unsent[0].optlen == 0)
    ensures err == Ok && |b.unsent| == 1
    ensures WrittenQueue(cfg.big, a.unsent, if a.unsent == [] then 0 else |arg|, arg, b.unsent, a.sndLbb)
    ensures b == a.(unsent := b.unsent, sndLbb := Seq(a.sndLbb + |arg|), sndBuf := a.sndBuf - |arg|,
                    oversize := b.oversize)
  {
    hide WrittenQueue, Seq, Pbufs;
    SegmentsStep(|arg|, 1460);
    SegmentsNone(1460);
  }

  /** What Output needs to send the segment behind the stream. */
  lemma ReadyToSend(unacked: seq<Seg>, stream: seq<Byte>, s: Seg, lbb: nat)
    requires Streamed(unacked, 0, stream, multiset(unacked), lbb) && Span(unacked) == |stream| == lbb < 1000
    requires s.seqno == lbb && ProperSeg(s) && TcpLen(s) <= 100
    ensures var all := multiset(unacked) + multiset([s]);
            Spread(0, all) && Rising(0, unacked) && Within(0, all, lbb + TcpLen(s))
    ensures Streamed(unacked + [s], 0, stream + Flat(s.bufs), multiset(unacked + [s]), lbb + TcpLen(s))
    ensures Span(unacked + [s]) == lbb + TcpLen(s) && Filed(unacked, s) == unacked + [s]
  {
    hide Contiguous, Payload, Span, Flat, TcpLen, ProperSeg, Placed, Spread, Rising, Sorted, Apart, Within, Seq, Proper,
        Backed, SeqLt;
    StreamedSnoc(unacked, stream, lbb, s);
    SeqSmall(lbb + TcpLen(s));
    var q, stream' := unacked + [s], stream + Flat(s.bufs);
    StreamedPlaced(q, 0, stream', multiset(q), lbb + TcpLen(s));
    PlacedSpread(0, multiset(q));
    WithinOrder(q, 0, stream', multiset(q), lbb + TcpLen(s));
    StreamedOrder(q, 0, stream', multiset(q), lbb + TcpLen(s));
    StreamedOrder(unacked, 0, stream, multiset(unacked), lbb);
    OrderSorted(q, 0);
    OrderSorted(unacked, 0);
    StrictIff(0, multiset(q), unacked);
    NotBefore(q, multiset(q));
  }

  /** The last segment of a sorted queue does not precede the one before it. */
  lemma NotBefore(q: seq<Seg>, all: multiset<Seg>)
    requires Sorted(0, q) && Spread(0, all) && multiset(q) <= all
    ensures |q| >= 2 ==> !SeqLt(q[|q| - 1].seqno, q[|q| - 2].seqno)
  {
    hide Pos, SeqLt, TcpLen;
    if |q| >= 2 {
      var s, t := q[|q| - 1], q[|q| - 2];
      assert s in multiset(q) && t in multiset(q);
      SeqLtPos(0, s.seqno, t.seqno);
    }
  }

  lemma PosFromZero(n: nat)
    requires n < 1000
    ensures Pos(0, n) == n < HALF
  {
  }

  lemma SmallInWindow(s: Seg)
    requires s.seqno + s.len <= 1000
    ensures InWindow(s, 0, 1000)
  {
  }

  lemma SmallAdvance(nxt: nat, s: Seg)
    requires nxt < 1000 && s.seqno + TcpLen(s) < 1000
    ensures Advanced(nxt, s) == if nxt < s.seqno + TcpLen(s) then s.seqno + TcpLen(s) else nxt
  {
    hide TcpLen;
  }

  /** The only unsent segment is sent and filed. */
  lemma OneSent(a: Snap, err: Err, b: Snap)
    requires DidOutput(EASY, 1000, [Send], a, err, b) && |a.unsent| == 1 && a.lastack == 0
    requires a.unsent[0].seqno + a.unsent[0].len <= 1000
    ensures b == a.(unacked := Filed(a.unacked, a.unsent[0]), unsent := [], sndNxt := Advanced(a.sndNxt, a.unsent[0]),
                    oversize := 0, memErr := false)
  {
    hide InWindow, Filed, Advanced;
    SmallInWindow(a.unsent[0]);
    assert a.unsent[..1] == a.unsent && a.unsent[..0] == [];
    assert AllFiled(a.unacked, a.sndNxt, []) == (a.unacked, a.sndNxt);
  }

  /** The one segment behind the stream is sent. */
  method SendIt(pcb: Pcb, ghost stream: seq<Byte>, ghost s: Seg, ghost end: nat)
    requires pcb.Valid() && pcb.unsent == [s] && pcb.lastack == 0 && pcb.sndNxt == |stream| <= 200
    requires Streamed(pcb.unacked, 0, stream, multiset(pcb.unacked), |stream|) && Span(pcb.unacked) == |stream|
    requires s.seqno == |stream| && ProperSeg(s) && s.len == TcpLen(s) <= 100 && end == |stream| + s.len
    modifies pcb`unacked, pcb`unsent, pcb`sndNxt, pcb`unsentOversize, pcb`nagleMemErr
    ensures pcb.Valid() && pcb.unsent == [] && pcb.unsentOversize == 0
    ensures pcb.unacked == old(pcb.unacked) + [s] && pcb.sndNxt == end
    ensures Streamed(pcb.unacked, 0, stream + Flat(s.bufs), multiset(pcb.unacked), end)
    ensures Span(pcb.unacked) == end
  {
    hide Pcb.Valid, Streamed, Spread, Rising, Sorted, Within, Span, Flat, TcpLen, ProperSeg, Pos, DidOutput, Covered,
        Apart, Filed, Advanced;
    ghost var was := pcb.Now();
    ReadyToSend(was.unacked, stream, s, |stream|);
    PosFromZero(pcb.sndNxt);
    var err := pcb.Output(EASY, 1000, [Send], 0, end);
    OneSent(was, err, pcb.Now());
    SmallAdvance(|stream|, s);
  }

  /** `x` is written and its one segment is sent. */
  method WriteAndSend(pcb: Pcb, x: seq<Byte>, ghost stream: seq<Byte>) returns (ghost s: Seg)
    requires InFlight(pcb, stream) && 0 < |x| <= 100 && |stream| <= 200 && |pcb.unacked| <= 4
    modifies pcb
    ensures InFlight(pcb, stream + x) && pcb.unacked == old(pcb.unacked) + [s]
    ensures s.seqno == |stream| && TcpLen(s) == s.len == |x| && Flat(s.bufs) == x && s.optlen == 0
  {
    hide WrittenQueue, AllOk, Streamed, Span, Flat, TcpLen, ProperSeg, Pbufs, AllWithOptions, DidWrite, Seq;
    ghost var a := pcb.Now();
    var err := pcb.Write(x, 0, true, false, (k: nat) => true);
    SmallWrite(pcb.Settings(), x, (k: nat) => true, a, err, pcb.Now());
    FirstWritten(pcb.big, x, pcb.unsent, |stream|, pcb.sizeMax);
    s := pcb.unsent[0];
    SeqSmall(|stream| + |x|);
    SendIt(pcb, stream, s, |stream| + |x|);
  }

  lemma NothingInFlight(pcb: Pcb)
    requires pcb.Valid() && pcb.unacked == [] && pcb.unsent == [] && pcb.unsentOversize == 0 && pcb.writable
    requires pcb.sndNxt == pcb.lastack == pcb.sndLbb == 0 && pcb.sndQueuelen == 0 && pcb.sndBuf == 4000
    requires pcb.mssLocal == 1460 && pcb.optlen == 0 && pcb.sndQueuelenMax == 16
    ensures InFlight(pcb, [])
  {
  }

  /** Two segments with the bytes `x` and `y` are in flight, then the first is taken back. */
  method TakenBack(big: bool, x: seq<Byte>, y: seq<Byte>) returns (pcb: Pcb, ghost a: Seg, ghost b: Seg)
    requires 0 < |x| <= 100 && 0 < |y| <= 100
    ensures fresh(pcb) && pcb.big == big
    ensures pcb.Valid() && pcb.unacked == [b] && pcb.unsent == [a] && pcb.unsentOversize == 0
    ensures a.seqno == 0 && TcpLen(a) == a.len == |x| && Flat(a.bufs) == x && a.optlen == 0
    ensures b.seqno == |x| && TcpLen(b) == b.len == |y| && Flat(b.bufs) == y
    ensures pcb.sndNxt == pcb.sndLbb == |x| + |y| && pcb.lastack == 0
    ensures Streamed([a, b], 0, x + y, multiset([b]) + multiset([a]), |x| + |y|) && Span([a, b]) == |x| + |y|
    ensures pcb.writable && pcb.sndBuf >= 3000 && pcb.mssLocal == 1460 && pcb.optlen == 0
    ensures pcb.sndQueuelen == 2 && pcb.sndQueuelenMax == 16
  {
    hide Pcb.Valid, Streamed, Span, Flat, TcpLen, Placed, Spread, Rising, Sorted;
    pcb := new Pcb(big, 16, 0, 4, 0, 1460, 4000, 0);
    NothingInFlight(pcb);
    a := WriteAndSend(pcb, x, []);
    assert [] + x == x && [] + [a] == [a];
    b := WriteAndSend(pcb, y, x);
    assert pcb.unacked == [a, b];
    TakeBack(pcb, a, b);
  }

  method TakeBack(pcb: Pcb, ghost a: Seg, ghost b: Seg)
    requires pcb.Valid() && pcb.unacked == [a, b] && pcb.unsent == []
    modifies pcb`unacked, pcb`unsent, pcb`unsentOversize
    ensures pcb.Valid() && pcb.unacked == [b] && pcb.unsent == [a] && pcb.unsentOversize == 0
    ensures multiset([a, b]) == multiset([b]) + multiset([a]) && pcb.sndQueuelen == old(pcb.sndQueuelen)
  {
    hide Pcb.Valid, Placed, Spread, Rising, Sorted, Backed;
    ghost var was := pcb.Now();
    var err := pcb.Rexmit(false, 0);
    TookBack(was, err, pcb.Now(), a, b);
  }

  lemma TookBack(was: Snap, err: Err, now: Snap, a: Seg, b: Seg)
    requires DidRexmit(false, was, err, now) && was.unacked == [a, b] && was.unsent == []
    ensures now.unacked == [b] && now.unsent == [a] && now.oversize == 0
    ensures multiset([a, b]) == multiset([b]) + multiset([a])
  {
    assert [a] + [b] == [a, b];
  }

  /** The case that tcp_write gets wrong: of two segments in flight the first is taken back by
      tcp_rexmit, and the next write appends to it.  The bytes `z` get the numbers of `y`. */
  method WriteAfterRexmit(big: bool, x: seq<Byte>, y: seq<Byte>, z: seq<Byte>) returns (pcb: Pcb)
    requires 0 < |x| <= 100 && 0 < |y| <= 100 && 0 < |z| <= 100
    ensures fresh(pcb) && pcb.Valid() && pcb.big == big
    ensures pcb.sndLbb == |x| + |y| + |z| && |pcb.unacked| == |pcb.unsent| == 1
    ensures pcb.unsent[0].seqno == 0 && Flat(pcb.unsent[0].bufs) == x + z
    ensures pcb.unacked[0].seqno == |x| && Flat(pcb.unacked[0].bufs) == y && TcpLen(pcb.unacked[0]) == |y|
    ensures pcb.lastack == 0 && pcb.sndNxt == |x| + |y|
    ensures !IsStream(0, x + y + z, pcb.Queued(), pcb.sndLbb)
  {
    hide Streamed, WrittenQueue, AllOk, Span, Flat, TcpLen, IsStream, TailIsLast, Seq, Pbufs, DidWrite, AllWithOptions;
    ghost var a, b;
    pcb, a, b := TakenBack(big, x, y);
    ghost var was := pcb.Now();
    var err := pcb.Write(z, 0, true, false, (k: nat) => true);
    SmallWrite(pcb.Settings(), z, (k: nat) => true, was, err, pcb.Now());
    NotTheTail(a, |x| + |y|);
    SeqSmall(|x| + |y| + |z|);
    WriteStreamedIff(big, [a, b], 0, x + y, [b], [a], |z|, z, pcb.unsent, |x| + |y|, pcb.sizeMax);
    GrownTail(big, a, z, pcb.unsent, |x| + |y|);
  }

  /** Splitting the segment that was appended to gives its second part the number of a segment in
      flight, and tcp_output files it behind that one: the order is not strict any more. */
  method SharedNumber(big: bool, x: seq<Byte>, y: seq<Byte>, z: seq<Byte>) returns (pcb: Pcb)
    requires 0 < |x| <= 100 && 0 < |y| <= 100 && 0 < |z| <= 100
    ensures pcb.Valid() && |pcb.unacked| == 3 && pcb.unsent == []
    ensures pcb.unacked[1].seqno == |x| == pcb.unacked[2].seqno
    ensures Flat(pcb.unacked[0].bufs) == x && Flat(pcb.unacked[1].bufs) == y && Flat(pcb.unacked[2].bufs) == z
    ensures Ordered(pcb.unacked) && !Ascending(pcb.unacked)
  {
    hide Pcb.Valid, Flat, TcpLen, SplitInto, IsStream, Spread, Rising, Sorted, Within, Pos, Covered, Apart, DidOutput,
        Ordered, Ascending, Filed, Advanced;
    pcb := WriteAfterRexmit(big, x, y, z);
    ghost var b, s := pcb.unacked[0], pcb.unsent[0];
    UnsentLen(pcb);
    var err := pcb.Split(|x|, (k: nat) => true);
    ghost var a, c := pcb.unsent[0], pcb.unsent[1];
    assert pcb.unacked == [b] && pcb.unsent == [a, c];
    SplitParts(big, s, x, z, a, c);
    ThreeReady(a, b, c, |x|, pcb.sndNxt);
    ghost var was := pcb.Now();
    err := pcb.Output(EASY, 1000, [Send, Send], 0, 999);
    TwoSent(was, err, pcb.Now(), a, b, c);
    NotAscending(pcb.unacked);
    ThreeOrdered(a, b, c);
  }

  lemma UnsentLen(pcb: Pcb)
    requires pcb.Valid() && |pcb.unsent| == 1
    ensures SegOk(pcb.big, pcb.unsent[0]) && pcb.unsent[0].len == |Flat(pcb.unsent[0].bufs)|
    ensures pcb.unsent[0].len > 0 ==> !pcb.unsent[0].ctl
  {
    hide SegOk;
    AllOkAt(pcb.big, pcb.unsent, pcb.sizeMax, 0);
    SegBasics(pcb.big, pcb.unsent[0]);
  }

  lemma SplitParts(big: bool, s: Seg, x: seq<Byte>, z: seq<Byte>, a: Seg, c: Seg)
    requires SplitInto(big, s, |x|, a, c) && Flat(s.bufs) == x + z && s.seqno == 0 && |x| <= 100 && |z| <= 100
    ensures a.seqno == 0 && Flat(a.bufs) == x && TcpLen(a) == a.len == |x|
    ensures c.seqno == |x| && Flat(c.bufs) == z && TcpLen(c) == c.len == |z|
  {
    hide Flat;
    SeqSmall(|x|);
  }

  lemma ThreeReady(a: Seg, b: Seg, c: Seg, n: nat, nxt: nat)
    requires a.seqno == 0 && b.seqno == n == c.seqno && n <= 100 && TcpLen(a) <= 100 && TcpLen(b) <= 100
    requires TcpLen(c) <= 100 && nxt <= 200
    ensures var all := multiset([b]) + multiset([a, c]);
            Spread(0, all) && Rising(0, [b]) && Within(0, all, 999) && Pos(0, nxt) <= 999
  {
    hide TcpLen;
    PosFromZero(0);
    PosFromZero(n);
    PosFromZero(nxt);
    forall s | s in multiset([b]) + multiset([a, c]) ensures s.seqno <= 100 && TcpLen(s) <= 100 {
      assert s == a || s == b || s == c;
    }
  }

  lemma TwoSent(was: Snap, err: Err, now: Snap, a: Seg, b: Seg, c: Seg)
    requires DidOutput(EASY, 1000, [Send, Send], was, err, now) && was.unacked == [b] && was.unsent == [a, c]
    requires was.lastack == 0 && a.seqno == 0 && 0 < b.seqno == c.seqno <= 100 && a.len <= 100 && c.len <= 100
    ensures now.unacked == [a, b, c] && now.unsent == []
  {
    hide Advanced, TcpLen;
    SmallInWindow(a);
    SmallInWindow(c);
    assert Filed([b], a) == [a, b] && Filed([a, b], c) == [a, b, c];
    assert [a, c][..2] == [a, c] && [a, c][..1] == [a] && [a][..0] == [];
    assert AllFiled([b], was.sndNxt, [a]) == (Filed([b], a), Advanced(was.sndNxt, a));
  }

  lemma NotAscending(q: seq<Seg>)
    requires |q| == 3 && q[1].seqno == q[2].seqno < U32
    ensures !Ascending(q)
  {
    hide SeqLt;
    OneIsLess(q[1].seqno, q[2].seqno);
  }

  lemma ThreeOrdered(a: Seg, b: Seg, c: Seg)
    requires a.seqno == 0 && b.seqno == c.seqno <= 100
    ensures Ordered([a, b, c])
  {
  }

  /** A connection with one segment queued. */
  method OneQueued(big: bool, x: seq<Byte>) returns (pcb: Pcb)
    requires 0 < |x| <= 100
    ensures fresh(pcb) && pcb.Valid() && |pcb.unsent| == 1 && pcb.unsent[0].len == |x| && pcb.unsent[0].optlen == 0
    ensures pcb.writable && pcb.sndBuf >= 3000 && pcb.sndQueuelen == 1 && pcb.sndQueuelenMax == 16
    ensures pcb.mssLocal == 1460 && pcb.optlen == 0
  {
    hide WrittenQueue, AllOk, Flat, TcpLen, Seq, Pbufs, DidWrite, AllWithOptions;
    pcb := new Pcb(big, 16, 0, 4, 0, 1460, 4000, 0);
    QueueEmpty(0);
    ghost var a := pcb.Now();
    var err := pcb.Write(x, 0, true, false, (k: nat) => true);
    SmallWrite(pcb.Settings(), x, (k: nat) => true, a, err, pcb.Now());
    FirstWritten(big, x, pcb.unsent, 0, pcb.sizeMax);
  }

  /** A segment has been queued, then the peer announces a smaller maximum or a window of which half
      is less than the segment: an assertion of the next write fails.  The size before may come from
      a window of 8000 or from one below 2. */
  method SizeFalls(big: bool, x: seq<Byte>, mss: nat, wndMax: nat) returns (err: Err)
    requires 0 < |x| <= 100 && 0 < mss <= 0xffff && (mss < |x| || 2 <= wndMax < 2 * |x|)
    ensures err == Abort
    ensures SizeFor(1460, 8000, 0) == SizeFor(1460, 1, 0) == 1460
  {
    hide AllOk, Pbufs, DidWrite, AllWithOptions, OversizeFits;
    var pcb := OneQueued(big, x);
    pcb.Resize(mss, wndMax);
    ghost var a := pcb.Now();
    err := pcb.Write([1], 0, true, false, (k: nat) => true);
    TooLargeAborts(pcb.Settings(), [1], a, err, pcb.Now());
  }

  lemma TooLargeAborts(cfg: Config, arg: seq<Byte>, a: Snap, err: Err, b: Snap)
    requires DidWrite(cfg, arg, 0, true, (k: nat) => true, a, err, b) && a.writable
    requires Checked(cfg.queueMax, a.sndBuf, Pbufs(a.unacked) + Pbufs(a.unsent), |arg|)
    requires TooLarge(a.mssLocal, a.unsent, a.oversize)
    ensures err == Abort
  {
  }

  lemma NotTheTail(a: Seg, lbb: nat)
    requires a.seqno == 0 && TcpLen(a) < lbb < U32
    ensures !TailIsLast([a], lbb)
  {
    hide TcpLen;
    SeqSmall(TcpLen(a));
  }

  lemma GrownTail(big: bool, a: Seg, z: seq<Byte>, after: seq<Seg>, lbb: nat)
    requires WrittenQueue(big, [a], |z|, z, after, lbb) && |z| > 0 && |after| == 1
    ensures after[0].seqno == a.seqno && Flat(after[0].bufs) == Flat(a.bufs) + z
  {
    hide Flat, SegOk, Contiguous, Payload, Span;
    assert z[..|z|] == z;
  }

  /** Of two segments in flight the first is taken back, then the timer expires: the unsent queue
      is out of order, and an acknowledgement of the first segment does not remove it. */
  method TimeoutAfterRexmit(big: bool, x: seq<Byte>, y: seq<Byte>) returns (pcb: Pcb)
    requires 0 < |x| <= 100 && 0 < |y| <= 100
    ensures pcb.Valid() && pcb.lastack == |x| && pcb.unacked == [] && |pcb.unsent| == 2
    ensures Flat(pcb.unsent[0].bufs) == y && Flat(pcb.unsent[1].bufs) == x
    ensures Acknowledged(pcb.unsent[1], pcb.lastack) && !Sorted(0, pcb.unsent)
    ensures !IsStream(|x|, y, pcb.Queued(), pcb.sndLbb)
  {
    hide Pcb.Valid, Streamed, Sorted, Span, Flat, TcpLen, IsStream, TakesAck, Acknowledged, Popped, DataLen;
    ghost var a, b;
    pcb, a, b := TakenBack(big, x, y);
    var err := pcb.RexmitRtoPrepare({});
    assert pcb.unsent == [b, a];
    FirstIsAcked(a, b, |x|, |x| + |y|);
    pcb.Ack(|x|);
    NothingPopped([b, a], pcb.unsent, |x|);
    NothingPopped([], pcb.unacked, |x|);
    AckedStays(a, b, x, y, |x| + |y|);
  }

  lemma FirstIsAcked(a: Seg, b: Seg, n: nat, end: nat)
    requires a.seqno == 0 && TcpLen(a) == n == b.seqno && n + TcpLen(b) == end && 0 < n < end < 1000
    ensures TakesAck(0, end, n) && Acknowledged(a, n) && !Acknowledged(b, n) && !Sorted(0, [b, a])
  {
    hide TcpLen;
    assert [b, a][0] == b && [b, a][1] == a;
  }

  lemma NothingPopped(q: seq<Seg>, rest: seq<Seg>, ackno: nat)
    requires Popped(q, rest, ackno) && (q != [] ==> !Acknowledged(q[0], ackno))
    ensures rest == q
  {
  }

  lemma AckedStays(a: Seg, b: Seg, x: seq<Byte>, y: seq<Byte>, lbb: nat)
    requires Streamed([a, b], 0, x + y, multiset([b]) + multiset([a]), lbb) && Span([a, b]) == |x| + |y| < 1000
    requires TcpLen(a) == |x| && 0 < |y| && Acknowledged(a, |x|) && !Acknowledged(b, |x|)
    ensures !IsStream(|x|, y, multiset([]) + multiset([b, a]), lbb)
  {
    hide Contiguous, Payload, TcpLen, Proper, Acknowledged;
    var q: seq<Seg> := [b, a];
    assert [a, b][..1] == [a] && [a, b][..2] == [a, b] && Span([a]) == |x| by { QueueEmpty(0); QueueSnoc([], a, 0); }
    PosFromZero(|x|);
    assert q == [b] + [a] && q[0] == b && q[1] == a;
    assert Streamed([a, b], 0, x + y, multiset([]) + multiset(q), lbb);
    assert Popped(q, q, |x|);
    forall o ensures !Streamed(o, |x|, y, multiset([]) + multiset(q), lbb) {
      AckBreaks([a, b], 0, x + y, [], q, lbb, |x|, 1, [], q, o, y, lbb);
    }
  }
}
