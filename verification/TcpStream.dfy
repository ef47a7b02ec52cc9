/** What the send queues are for: at any time the queued segments, put in sequence order, carry
    exactly the bytes that were accepted by tcp_write and are not acknowledged yet
    (src/core/tcp_out.c). */
module TcpStream {
  import opened Bytes
  import opened Checksum
  import opened ChainChecksum
  import opened TcpSegment
  import opened TcpQueue

  /** The queued segments can be put in the order `order`: contiguous from the position `una` to
      the sequence number `lbb`, with the bytes `stream`. */
  ghost predicate Streamed(order: seq<Seg>, una: nat, stream: seq<Byte>, queued: multiset<Seg>, lbb: nat) {
    && Contiguous(order, una) && Payload(order) == stream && multiset(order) == queued
    && Seq(una + Span(order)) == lbb && Span(order) < HALF && Proper(order)
  }

  /** Every segment takes up sequence numbers, as many as it has bytes or more. */
  ghost predicate Proper(q: seq<Seg>) {
    forall i | 0 <= i < |q| :: ProperSeg(q[i])
  }

  ghost predicate ProperSeg(s: Seg) {
    TcpLen(s) > 0 && s.seqno < U32 && s.len == |Flat(s.bufs)|
  }

  lemma ProperAppend(a: seq<Seg>, b: seq<Seg>)
    ensures Proper(a + b) <==> Proper(a) && Proper(b)
  {
    hide ProperSeg;
    if Proper(a + b) {
      forall i | 0 <= i < |a| ensures ProperSeg(a[i]) { assert (a + b)[i] == a[i]; }
      forall i | 0 <= i < |b| ensures ProperSeg(b[i]) { assert (a + b)[|a| + i] == b[i]; }
    }
  }

  lemma PosOf(una: nat, d: nat)
    requires d < U32
    ensures Pos(una, Seq(una + d)) == d
  {
  }

  /** Where the i-th segment of the order lies. */
  lemma OrderAt(order: seq<Seg>, una: nat, i: nat)
    requires Contiguous(order, una) && Span(order) < HALF && i < |order|
    ensures Pos(una, order[i].seqno) == Span(order[..i])
    ensures Span(order[..i]) + TcpLen(order[i]) == Span(order[..i + 1]) <= Span(order)
  {
    ContiguousAt(order, una, i);
    assert order[..i + 1] == order[..i] + [order[i]];
    SpanAppend(order[..i], [order[i]]);
    assert Span([order[i]]) == TcpLen(order[i]) + Span([]);
    PosOf(una, Span(order[..i]));
  }

  lemma SpanGrows(order: seq<Seg>, i: nat, j: nat)
    requires i <= j <= |order|
    ensures Span(order[..i]) <= Span(order[..j])
    ensures i < j && (forall k | 0 <= k < |order| :: TcpLen(order[k]) > 0) ==> Span(order[..i]) < Span(order[..j])
  {
    assert order[..j] == order[..i] + order[i..j];
    SpanAppend(order[..i], order[i..j]);
    if i < j {
      assert order[i..j][0] == order[i];
    }
  }

  lemma {:induction false} NoDuplicates(q: seq<Seg>)
    requires forall i, j | 0 <= i < j < |q| :: q[i] != q[j]
    ensures forall s | s in q :: multiset(q)[s] == 1
  {
    if q != [] {
      var n := |q| - 1;
      assert q == q[..n] + [q[n]];
      NoDuplicates(q[..n]);
      forall s | s in q ensures multiset(q)[s] == 1 {
        if s == q[n] {
          assert s !in q[..n];
        }
      }
    }
  }

  lemma OrderSorted(order: seq<Seg>, una: nat)
    requires Contiguous(order, una) && Span(order) < HALF && Proper(order)
    ensures Sorted(una, order)
  {
    hide Pos, Contiguous, Span, TcpLen;
    forall i, j | 0 <= i < j < |order|
      ensures Pos(una, order[i].seqno) < Pos(una, order[j].seqno)
    {
      OrderAt(order, una, i);
      OrderAt(order, una, j);
      SpanGrows(order, i, j);
    }
  }

  lemma PlacedOne(order: seq<Seg>, una: nat, s: Seg)
    requires Contiguous(order, una) && Span(order) < HALF && Proper(order) && s in order
    ensures multiset(order)[s] == 1 && s.seqno < U32 && Pos(una, s.seqno) + TcpLen(s) < HALF
  {
    hide Pos, Contiguous, Span, TcpLen;
    OrderSorted(order, una);
    NoDuplicates(order);
    var i :| 0 <= i < |order| && order[i] == s;
    OrderAt(order, una, i);
    assert ProperSeg(order[i]);
  }

  /** Segments in a contiguous order lie at different places within half the number space. */
  lemma StreamedPlaced(order: seq<Seg>, una: nat, stream: seq<Byte>, queued: multiset<Seg>, lbb: nat)
    requires Streamed(order, una, stream, queued, lbb)
    ensures Placed(una, queued)
  {
    hide Pos, Contiguous, Span, Payload, TcpLen, Proper;
    OrderSorted(order, una);
    forall s | s in queued
      ensures queued[s] == 1 && s.seqno < U32 && Pos(una, s.seqno) + TcpLen(s) < HALF
    {
      PlacedOne(order, una, s);
    }
    forall s, t | s in queued && t in queued && Pos(una, s.seqno) == Pos(una, t.seqno)
      ensures s == t
    {
      assert s in order && t in order;
      var i :| 0 <= i < |order| && order[i] == s;
      var j :| 0 <= j < |order| && order[j] == t;
    }
  }

  /** The last unsent segment ends where the next byte will go. */
  predicate TailIsLast(unsent: seq<Seg>, lbb: nat) {
    unsent != [] && Seq(unsent[|unsent| - 1].seqno + TcpLen(unsent[|unsent| - 1])) == lbb
  }

  lemma TailIsLastInOrder(order: seq<Seg>, una: nat, stream: seq<Byte>, queued: multiset<Seg>, lbb: nat, s: Seg)
    requires Streamed(order, una, stream, queued, lbb) && s in queued
    ensures Seq(s.seqno + TcpLen(s)) == lbb <==> s == order[|order| - 1]
  {
    hide Pos, Contiguous, Span, Payload, TcpLen, Seq;
    assert s in order;
    var i :| 0 <= i < |order| && order[i] == s;
    OrderAt(order, una, i);
    PosAdd(una, s.seqno, TcpLen(s));
    PosOf(una, Span(order));
    SpanGrows(order, i + 1, |order|);
    assert order[..|order|] == order;
    StreamedPlaced(order, una, stream, queued, lbb);
    var last := order[|order| - 1];
    OrderAt(order, una, |order| - 1);
    if Seq(s.seqno + TcpLen(s)) == lbb {
      assert Span(order[..i + 1]) == Span(order);
    } else if s == last {
      SeqOfPos(una, Seq(s.seqno + TcpLen(s)), lbb);
    }
  }

  lemma SeqOfPos(una: nat, a: nat, b: nat)
    requires a < U32 && b < U32 && Pos(una, a) == Pos(una, b)
    ensures a == b
  {
  }

  lemma {:induction false} ContiguousMod(q: seq<Seg>, a: nat, b: nat)
    requires Seq(a) == Seq(b) && Contiguous(q, a)
    ensures Contiguous(q, b)
    decreases |q|
  {
    if q != [] {
      SeqAdd(a, b, TcpLen(q[0]));
      ContiguousMod(q[1..], a + TcpLen(q[0]), b + TcpLen(q[0]));
    }
  }

  lemma SeqAdd(a: nat, b: nat, n: nat)
    requires Seq(a) == Seq(b)
    ensures Seq(a + n) == Seq(b + n)
  {
  }

  // --- tcp_write -----------------------------------------------------------------------------

  /** New segments behind everything that is queued. */
  lemma AppendStreamed(order: seq<Seg>, una: nat, stream: seq<Byte>, queued: multiset<Seg>, lbb: nat, q: seq<Seg>)
    requires Streamed(order, una, stream, queued, lbb) && Contiguous(q, lbb) && Span(order) + Span(q) < HALF
    requires Proper(q)
    ensures Streamed(order + q, una, stream + Payload(q), queued + multiset(q), Seq(lbb + Span(q)))
  {
    hide Contiguous, Span, Payload, Proper, Seq;
    ProperAppend(order, q);
    SpanAppend(order, q);
    SeqSmall(lbb);
    ContiguousMod(q, lbb, una + Span(order));
    ContiguousAppend(order, q, una);
    SeqAdd(una + Span(order), lbb, Span(q));
  }

  /** The last segment of the order grows. */
  lemma GrowStreamed(big: bool, front: seq<Seg>, last: Seg, una: nat, stream: seq<Byte>, queued: multiset<Seg>,
                     lbb: nat, s: Seg, t: seq<Byte>)
    requires Streamed(front + [last], una, stream, queued, lbb) && Span(front + [last]) + |t| < HALF
    requires Grown(big, last, t, s)
    ensures Streamed(front + [s], una, stream + t, queued - multiset{last} + multiset{s}, Seq(lbb + |t|))
    ensures Span(front + [s]) == Span(front + [last]) + |t|
  {
    hide Contiguous, Span, Payload, TcpLen, Grown, Seq, Flat, Proper;
    QueueSnoc(front, last, una);
    QueueSnoc(front, s, una);
    GrownLen(big, last, t, s);
    ProperAppend(front, [last]);
    ProperAppend(front, [s]);
    assert Proper([s]) by { ProperOne(s); }
    assert Payload(front) + (Flat(last.bufs) + t) == Payload(front) + Flat(last.bufs) + t;
    SeqSmall(lbb);
    SeqAddTo(una + Span(front + [last]), lbb, |t|, una + Span(front + [s]));
  }

  lemma ProperOne(s: Seg)
    requires ProperSeg(s)
    ensures Proper([s])
  {
  }

  lemma SeqAddTo(a: nat, b: nat, n: nat, x: nat)
    requires Seq(a) == Seq(b) && x == a + n
    ensures Seq(x) == Seq(b + n)
  {
    hide Seq;
    SeqAdd(a, b, n);
  }

  lemma SeqSmall(n: nat)
    requires n < U32
    ensures Seq(n) == n
  {
  }

  lemma SeqTwice(n: nat)
    ensures Seq(Seq(n)) == Seq(n)
  {
  }

  lemma GrownLen(big: bool, last: Seg, t: seq<Byte>, s: Seg)
    requires Grown(big, last, t, s)
    ensures TcpLen(s) == TcpLen(last) + |t| && s.seqno == last.seqno && Flat(s.bufs) == Flat(last.bufs) + t
    ensures ProperSeg(s)
  {
  }

  /** tcp_write with new segments only. */
  lemma WriteFreshStreamed(big: bool, order: seq<Seg>, una: nat, stream: seq<Byte>, unacked: seq<Seg>,
                           before: seq<Seg>, arg: seq<Byte>, after: seq<Seg>, lbb: nat, mss: nat)
    returns (order': seq<Seg>)
    requires Streamed(order, una, stream, multiset(unacked) + multiset(before), lbb)
    requires WrittenQueue(big, before, 0, arg, after, lbb) && AllOk(big, after, mss) && Span(order) + |arg| < HALF
    ensures Streamed(order', una, stream + arg, multiset(unacked) + multiset(after), Seq(lbb + |arg|))
  {
    hide Contiguous, Span, Payload, TcpLen, Streamed, AllOk, Grown, Seq, Proper;
    var queue := after[|before|..];
    NewSegmentsPlaced(big, after, |before|, mss);
    StreamedSpan(order, una, stream, multiset(unacked) + multiset(before), lbb);
    assert after == after[..|before|] + queue && arg[0..] == arg;
    AppendStreamed(order, una, stream, multiset(unacked) + multiset(before), lbb, queue);
    assert multiset(unacked) + multiset(before) + multiset(queue) == multiset(unacked) + multiset(after);
    order' := order + queue;
  }

  lemma GrownMultiset(unacked: seq<Seg>, front: seq<Seg>, last: Seg, s: Seg, queue: seq<Seg>)
    ensures multiset(unacked) + multiset(front + [last]) - multiset{last} + multiset{s} + multiset(queue) ==
            multiset(unacked) + multiset(front + [s] + queue)
  {
  }

  /** tcp_write that extends the last unsent segment, which is last in sequence. */
  lemma WriteGrownStreamed(big: bool, order: seq<Seg>, una: nat, stream: seq<Byte>, unacked: seq<Seg>,
                           before: seq<Seg>, ext: nat, arg: seq<Byte>, after: seq<Seg>, lbb: nat, mss: nat)
    returns (order': seq<Seg>)
    requires Streamed(order, una, stream, multiset(unacked) + multiset(before), lbb)
    requires WrittenQueue(big, before, ext, arg, after, lbb) && AllOk(big, after, mss)
    requires ext > 0 && TailIsLast(before, lbb) && Span(order) + |arg| < HALF
    ensures Streamed(order', una, stream + arg, multiset(unacked) + multiset(after), Seq(lbb + |arg|))
  {
    hide Contiguous, Span, Payload, TcpLen, Streamed, AllOk, Grown, Seq, Proper;
    var queue := after[|before|..];
    var queued := multiset(unacked) + multiset(before);
    NewSegmentsPlaced(big, after, |before|, mss);
    StreamedSpan(order, una, stream, queued, lbb);
    var n := |before| - 1;
    var last, s := before[n], after[n];
    assert before == before[..n] + [last] && after == before[..n] + [s] + queue;
    assert last in multiset(before);
    TailIsLastInOrder(order, una, stream, queued, lbb, last);
    OrderNotEmpty(order, una, stream, queued, lbb, last);
    var front := order[..|order| - 1];
    assert order == front + [last];
    GrowStreamed(big, front, last, una, stream, queued, lbb, s, arg[..ext]);
    var grown := front + [s];
    var all := queued - multiset{last} + multiset{s};
    SeqTwice(lbb + ext);
    ContiguousMod(queue, lbb + ext, Seq(lbb + ext));
    AppendStreamed(grown, una, stream + arg[..ext], all, Seq(lbb + ext), queue);
    assert stream + arg[..ext] + arg[ext..] == stream + arg;
    GrownMultiset(unacked, before[..n], last, s, queue);
    SeqAdd(Seq(lbb + ext), lbb + ext, |arg| - ext);
    order' := grown + queue;
  }

  /** A successful tcp_write appends its bytes to the stream if it leaves the last unsent
      segment alone or that segment is the last one in sequence. */
  lemma WriteStreamed(big: bool, order: seq<Seg>, una: nat, stream: seq<Byte>, unacked: seq<Seg>,
                      before: seq<Seg>, ext: nat, arg: seq<Byte>, after: seq<Seg>, lbb: nat, mss: nat)
    returns (order': seq<Seg>)
    requires Streamed(order, una, stream, multiset(unacked) + multiset(before), lbb)
    requires WrittenQueue(big, before, ext, arg, after, lbb) && AllOk(big, after, mss)
    requires ext == 0 || TailIsLast(before, lbb)
    requires Span(order) + |arg| < HALF
    ensures Streamed(order', una, stream + arg, multiset(unacked) + multiset(after), Seq(lbb + |arg|))
  {
    hide *;
    if ext == 0 {
      order' := WriteFreshStreamed(big, order, una, stream, unacked, before, arg, after, lbb, mss);
    } else {
      order' := WriteGrownStreamed(big, order, una, stream, unacked, before, ext, arg, after, lbb, mss);
    }
  }

  lemma NewSegmentsPlaced(big: bool, after: seq<Seg>, n: nat, mss: nat)
    requires AllOk(big, after, mss) && n <= |after|
    ensures Proper(after[n..])
  {
  }

  lemma StreamedSpan(order: seq<Seg>, una: nat, stream: seq<Byte>, queued: multiset<Seg>, lbb: nat)
    requires Streamed(order, una, stream, queued, lbb)
    ensures Span(order) < HALF && lbb < U32
  {
  }

  lemma OrderNotEmpty(order: seq<Seg>, una: nat, stream: seq<Byte>, queued: multiset<Seg>, lbb: nat, s: Seg)
    requires Streamed(order, una, stream, queued, lbb) && s in queued
    ensures order != []
  {
  }

  /** Two segments of one order do not overlap. */
  lemma OrderDisjoint(order: seq<Seg>, una: nat, s: Seg, t: Seg)
    requires Contiguous(order, una) && Span(order) < HALF && Proper(order)
    requires s in order && t in order && s != t
    ensures Pos(una, s.seqno) + TcpLen(s) <= Pos(una, t.seqno) || Pos(una, t.seqno) + TcpLen(t) <= Pos(una, s.seqno)
  {
    hide Pos, Contiguous, Span, TcpLen;
    var i :| 0 <= i < |order| && order[i] == s;
    var j :| 0 <= j < |order| && order[j] == t;
    OrderAt(order, una, i);
    OrderAt(order, una, j);
    if i < j {
      SpanGrows(order, i + 1, j);
    } else {
      SpanGrows(order, j + 1, i);
    }
  }

  /** The segment behind one that is not last in sequence. */
  lemma NextInOrder(order: seq<Seg>, una: nat, stream: seq<Byte>, queued: multiset<Seg>, lbb: nat, s: Seg)
    returns (x: Seg)
    requires Streamed(order, una, stream, queued, lbb) && s in queued && Seq(s.seqno + TcpLen(s)) != lbb
    ensures x in queued && x != s && Pos(una, x.seqno) == Pos(una, s.seqno) + TcpLen(s) && TcpLen(s) > 0
  {
    hide Pos, Contiguous, Span, Payload, TcpLen, Seq, Proper;
    TailIsLastInOrder(order, una, stream, queued, lbb, s);
    assert s in order;
    var i :| 0 <= i < |order| && order[i] == s;
    x := order[i + 1];
    OrderAt(order, una, i);
    OrderAt(order, una, i + 1);
    assert x in multiset(order);
    ProperAt(order, i);
  }

  lemma ProperAt(q: seq<Seg>, i: nat)
    requires Proper(q) && i < |q|
    ensures TcpLen(q[i]) > 0
  {
  }

  /** If tcp_write extends a last unsent segment that is not last in sequence, the result is no
      stream at all: the new bytes claim sequence numbers that the next segment already has. */
  lemma WriteBreaks(big: bool, order: seq<Seg>, una: nat, stream: seq<Byte>, unacked: seq<Seg>,
                    before: seq<Seg>, ext: nat, arg: seq<Byte>, after: seq<Seg>, lbb: nat,
                    order': seq<Seg>, stream': seq<Byte>, lbb': nat)
    requires Streamed(order, una, stream, multiset(unacked) + multiset(before), lbb)
    requires WrittenQueue(big, before, ext, arg, after, lbb) && ext > 0 && !TailIsLast(before, lbb)
    ensures !Streamed(order', una, stream', multiset(unacked) + multiset(after), lbb')
  {
    hide Pos, Contiguous, Span, Payload, TcpLen, Seq, Proper, Grown;
    var n := |before| - 1;
    var last, s := before[n], after[n];
    var x := NextInOrder(order, una, stream, multiset(unacked) + multiset(before), lbb, last);
    GrownLen(big, last, arg[..ext], s);
    Survives(unacked, before, after, n, x);
    if Streamed(order', una, stream', multiset(unacked) + multiset(after), lbb') {
      OverlapImpossible(order', multiset(unacked) + multiset(after), una, s, x, TcpLen(last));
    }
  }

  /** Replacing the last element keeps the others. */
  lemma Survives(unacked: seq<Seg>, before: seq<Seg>, after: seq<Seg>, n: nat, x: Seg)
    requires |before| == n + 1 <= |after| && before[..n] == after[..n]
    requires x in multiset(unacked) + multiset(before) && x != before[n]
    ensures x in multiset(unacked) + multiset(after) && after[n] in multiset(unacked) + multiset(after)
  {
  }

  lemma OverlapImpossible(order: seq<Seg>, queued: multiset<Seg>, una: nat, s: Seg, x: Seg, d: nat)
    requires multiset(order) == queued && s in queued && x in queued
    requires 0 < d < TcpLen(s) && Pos(una, x.seqno) == Pos(una, s.seqno) + d
    ensures !(Contiguous(order, una) && Span(order) < HALF && Proper(order))
  {
    hide Pos, Contiguous, Span, Proper;
    if Contiguous(order, una) && Span(order) < HALF && Proper(order) {
      assert s in order && x in order;
      OrderDisjoint(order, una, s, x);
    }
  }

  /** Some order makes the queued segments the byte stream `stream` from `una` up to `lbb`. */
  ghost predicate IsStream(una: nat, stream: seq<Byte>, queued: multiset<Seg>, lbb: nat) {
    exists order :: Streamed(order, una, stream, queued, lbb)
  }

  /** tcp_write keeps the stream if and only if it leaves the last unsent segment alone or that
      segment is the last one in sequence. */
  lemma WriteStreamedIff(big: bool, order: seq<Seg>, una: nat, stream: seq<Byte>, unacked: seq<Seg>,
                         before: seq<Seg>, ext: nat, arg: seq<Byte>, after: seq<Seg>, lbb: nat, mss: nat)
    requires Streamed(order, una, stream, multiset(unacked) + multiset(before), lbb)
    requires WrittenQueue(big, before, ext, arg, after, lbb) && AllOk(big, after, mss)
    requires Span(order) + |arg| < HALF
    ensures IsStream(una, stream + arg, multiset(unacked) + multiset(after), Seq(lbb + |arg|))
            <==> ext == 0 || TailIsLast(before, lbb)
  {
    hide Streamed, WrittenQueue, AllOk, Span, Seq, TailIsLast;
    var queued, lbb' := multiset(unacked) + multiset(after), Seq(lbb + |arg|);
    if ext == 0 || TailIsLast(before, lbb) {
      var o := WriteStreamed(big, order, una, stream, unacked, before, ext, arg, after, lbb, mss);
    } else {
      forall o
        ensures !Streamed(o, una, stream + arg, queued, lbb')
      {
        WriteBreaks(big, order, una, stream, unacked, before, ext, arg, after, lbb, o, stream + arg, lbb');
      }
    }
  }
}
