/** One connection's send side over its whole life: whatever is written, sent, retransmitted and
    acknowledged, the queues carry the stream (src/core/tcp_out.c, src/core/tcp_in.c). */
module TcpConnection {
  import opened Bytes
  import opened Checksum
  import opened ChainChecksum
  import opened TcpSegment
  import opened TcpQueue
  import opened TcpStream

  // --- Amounts of data -----------------------------------------------------------------------

  lemma {:induction false} DataLenAppend(a: seq<Seg>, b: seq<Seg>)
    ensures DataLen(a + b) == DataLen(a) + DataLen(b)
  {
    if a == [] {
      assert a + b == b;
    } else {
      assert (a + b)[1..] == a[1..] + b;
      DataLenAppend(a[1..], b);
    }
  }

  lemma DataLenOne(s: Seg)
    ensures DataLen([s]) == s.len
  {
  }

  lemma RemoveOne(a: seq<Seg>, b: seq<Seg>, i: nat)
    requires multiset(a) == multiset(b) && a != [] && i < |b| && b[i] == a[0]
    ensures multiset(a[1..]) == multiset(b[..i] + b[i + 1..])
  {
    assert a == [a[0]] + a[1..];
    assert b == b[..i] + [b[i]] + b[i + 1..];
    var x, y := multiset(a[1..]), multiset(b[..i] + b[i + 1..]);
    assert multiset{a[0]} + x == multiset{a[0]} + y;
    forall s: Seg ensures x[s] == y[s] {
      assert (multiset{a[0]} + x)[s] == (multiset{a[0]} + y)[s];
    }
  }

  lemma {:induction false} DataLenPermutation(a: seq<Seg>, b: seq<Seg>)
    requires multiset(a) == multiset(b)
    ensures DataLen(a) == DataLen(b)
  {
    assert |a| == |multiset(a)| == |b|;
    if a != [] {
      assert a[0] in multiset(b);
      var i :| 0 <= i < |b| && b[i] == a[0];
      RemoveOne(a, b, i);
      DataLenPermutation(a[1..], b[..i] + b[i + 1..]);
      assert b == b[..i] + ([b[i]] + b[i + 1..]);
      DataLenAppend(b[..i], [b[i]] + b[i + 1..]);
      DataLenAppend([b[i]], b[i + 1..]);
      DataLenAppend(b[..i], b[i + 1..]);
      DataLenOne(b[i]);
    }
  }

  lemma {:induction false} PayloadLen(q: seq<Seg>)
    requires Proper(q)
    ensures |Payload(q)| == DataLen(q) <= Span(q)
  {
    if q != [] {
      assert ProperSeg(q[0]);
      assert q == [q[0]] + q[1..];
      ProperAppend([q[0]], q[1..]);
      PayloadLen(q[1..]);
    }
  }

  /** The queues hold as many bytes as the stream. */
  lemma StreamLen(order: seq<Seg>, una: nat, stream: seq<Byte>, unacked: seq<Seg>, unsent: seq<Seg>, lbb: nat)
    requires Streamed(order, una, stream, multiset(unacked) + multiset(unsent), lbb)
    ensures |stream| == DataLen(unacked) + DataLen(unsent)
  {
    hide DataLen, Payload, Span, Contiguous, Proper;
    PayloadLen(order);
    DataLenPermutation(order, unacked + unsent);
    DataLenAppend(unacked, unsent);
  }

  /** Where the stream ends fixes how many sequence numbers the order takes up. */
  lemma SpanOf(order: seq<Seg>, una: nat, stream: seq<Byte>, queued: multiset<Seg>, lbb: nat, d: nat)
    requires Streamed(order, una, stream, queued, lbb) && d < HALF && lbb == Seq(una + d)
    ensures Span(order) == d
  {
    PosOf(una, d);
    PosOf(una, Span(order));
  }

  // --- Sorted queues -------------------------------------------------------------------------

  lemma SortedSuffix(una: nat, q: seq<Seg>, n: nat)
    requires Sorted(una, q) && n <= |q|
    ensures Sorted(una, q[n..])
  {
  }

  ghost predicate Below(una: nat, q: seq<Seg>, d: nat) {
    forall i | 0 <= i < |q| :: Pos(una, q[i].seqno) < d
  }

  ghost predicate NotBelow(una: nat, q: seq<Seg>, d: nat) {
    forall i | 0 <= i < |q| :: d <= Pos(una, q[i].seqno)
  }

  lemma SortedAppend(una: nat, a: seq<Seg>, b: seq<Seg>, d: nat)
    requires Sorted(una, a) && Sorted(una, b) && Below(una, a, d) && NotBelow(una, b, d)
    ensures Sorted(una, a + b)
  {
  }

  /** Everything queued lies below the end of the stream. */
  lemma WithinOrder(order: seq<Seg>, una: nat, stream: seq<Byte>, queued: multiset<Seg>, lbb: nat)
    requires Streamed(order, una, stream, queued, lbb)
    ensures Within(una, queued, Span(order))
  {
    hide Pos, Contiguous, Span, TcpLen, Payload, Proper;
    forall s | s in queued ensures Pos(una, s.seqno) + TcpLen(s) <= Span(order) {
      assert s in order;
      var i :| 0 <= i < |order| && order[i] == s;
      OrderAt(order, una, i);
    }
  }

  // --- tcp_write and tcp_enqueue_flags -------------------------------------------------------

  lemma StreamedEnd(order: seq<Seg>, una: nat, stream: seq<Byte>, queued: multiset<Seg>, lbb: nat)
    requires Streamed(order, una, stream, queued, lbb)
    ensures lbb < U32 && Seq(lbb) == Seq(una + Span(order)) == lbb && Span(order) < HALF
  {
    hide Contiguous, Span, Payload, Proper, Seq;
    SeqTwice(una + Span(order));
    SeqBound(una + Span(order));
  }

  /** After a write of some bytes the last unsent segment is last in sequence. */
  lemma WrittenTail(big: bool, before: seq<Seg>, ext: nat, arg: seq<Byte>, after: seq<Seg>, lbb: nat)
    requires WrittenQueue(big, before, ext, arg, after, lbb) && arg != [] && lbb < U32
    requires ext == 0 || TailIsLast(before, lbb)
    ensures TailIsLast(after, Seq(lbb + |arg|))
  {
    hide Contiguous, Span, Payload, Grown, TcpLen, Seq;
    var queue := after[|before|..];
    if queue == [] {
      QueueEmpty(0);
      var n := |before| - 1;
      GrownLen(big, before[n], arg[..ext], after[n]);
      SeqSmall(lbb);
      SeqAddTo(before[n].seqno + TcpLen(before[n]), lbb, ext, after[n].seqno + TcpLen(after[n]));
    } else {
      var k := |queue| - 1;
      var last := queue[k];
      assert last == after[|after| - 1];
      ContiguousAt(queue, lbb + ext, k);
      assert queue[k + 1..] == [];
      QueueEmpty(0);
      SeqTwice(lbb + ext + Span(queue[..k]));
      SeqAddTo(last.seqno, lbb + ext + Span(queue[..k]), TcpLen(last), last.seqno + TcpLen(last));
    }
  }

  /** A segment without data behind everything else. */
  lemma FlagsStreamed(order: seq<Seg>, una: nat, stream: seq<Byte>, unacked: seq<Seg>, before: seq<Seg>, lbb: nat,
                      seg: Seg)
    requires Streamed(order, una, stream, multiset(unacked) + multiset(before), lbb)
    requires seg.seqno == lbb && TcpLen(seg) == 1 && Flat(seg.bufs) == [] && seg.len == 0 && Span(order) + 1 < HALF
    ensures Streamed(order + [seg], una, stream, multiset(unacked) + multiset(before + [seg]), Seq(lbb + 1))
    ensures Span(order + [seg]) == Span(order) + 1
  {
    hide Pos, Contiguous, Span, Payload, Proper, Streamed, Seq, Sorted, Below, NotBelow;
    var all := multiset(unacked) + multiset(before);
    StreamedEnd(order, una, stream, all, lbb);
    ProperOne(seg);
    OneSegment(seg, lbb);
    assert stream + [] == stream;
    AppendStreamed(order, una, stream, all, lbb, [seg]);
    SpanAppend(order, [seg]);
    assert all + multiset([seg]) == multiset(unacked) + multiset(before + [seg]);
  }

  lemma OneSegment(seg: Seg, lbb: nat)
    requires seg.seqno == Seq(lbb)
    ensures Contiguous([seg], lbb) && Span([seg]) == TcpLen(seg) && Payload([seg]) == Flat(seg.bufs)
  {
  }

  // --- tcp_split_unsent_seg ------------------------------------------------------------------

  /** One segment of a contiguous list is cut in two. */
  lemma CutOne(f: seq<Seg>, s: Seg, a: Seg, b: Seg, r: seq<Seg>, una: nat)
    requires Contiguous(f + [s] + r, una) && a.seqno == s.seqno < U32
    requires b.seqno == Seq(s.seqno + TcpLen(a)) && TcpLen(a) + TcpLen(b) == TcpLen(s)
    requires Flat(a.bufs) + Flat(b.bufs) == Flat(s.bufs)
    ensures Contiguous(f + [a, b] + r, una) && Span(f + [a, b] + r) == Span(f + [s] + r)
    ensures Payload(f + [a, b] + r) == Payload(f + [s] + r)
  {
    hide Contiguous, Span, Payload, TcpLen, Seq, Flat;
    var d := una + Span(f);
    assert [a, b] == [a] + [b];
    SpanAppend(f, [s]); SpanAppend(f + [s], r);
    SpanAppend([a], [b]); SpanAppend(f, [a, b]); SpanAppend(f + [a, b], r);
    ContiguousAppend(f + [s], r, una); ContiguousAppend(f, [s], una);
    ContiguousAppend([a], [b], d); ContiguousAppend(f, [a, b], una); ContiguousAppend(f + [a, b], r, una);
    ContiguousOne(s, d); ContiguousOne(a, d);
    SeqSmall(s.seqno);
    SeqAddTo(s.seqno, d, TcpLen(a), s.seqno + TcpLen(a));
    OneSegment(b, d + TcpLen(a)); OneSegment(a, d); OneSegment(s, d);
    assert Payload(f) + (Flat(a.bufs) + Flat(b.bufs)) + Payload(r) == Payload(f) + Flat(s.bufs) + Payload(r);
  }

  lemma ContiguousOne(s: Seg, d: nat)
    ensures Contiguous([s], d) <==> s.seqno == Seq(d)
  {
  }

  lemma SplitPieces(big: bool, s: Seg, n: nat, a: Seg, b: Seg)
    requires SplitInto(big, s, n, a, b)
    ensures a.seqno == s.seqno < U32 && b.seqno == Seq(s.seqno + TcpLen(a)) && TcpLen(a) == n
    ensures TcpLen(a) + TcpLen(b) == TcpLen(s) && Flat(a.bufs) + Flat(b.bufs) == Flat(s.bufs)
    ensures Proper([a, b])
  {
    hide Running;
    assert Flat(s.bufs) == Flat(s.bufs)[..n] + Flat(s.bufs)[n..];
  }

  lemma SplitStreamed(big: bool, order: seq<Seg>, una: nat, stream: seq<Byte>, unacked: seq<Seg>, rest: seq<Seg>,
                      lbb: nat, s: Seg, n: nat, a: Seg, b: Seg)
    returns (order': seq<Seg>)
    requires Streamed(order, una, stream, multiset(unacked) + multiset([s] + rest), lbb)
    requires SplitInto(big, s, n, a, b)
    ensures Streamed(order', una, stream, multiset(unacked) + multiset([a, b] + rest), lbb)
    ensures Span(order') == Span(order)
  {
    hide Contiguous, Span, Payload, TcpLen, Seq, Flat, Proper, SplitInto;
    assert ([s] + rest)[0] == s;
    UnsentInOrder(order, unacked, [s] + rest, s);
    var i :| 0 <= i < |order| && order[i] == s;
    var f, r := order[..i], order[i + 1..];
    assert order == f + [s] + r;
    CutMultiset(f, s, a, b, r, unacked, rest);
    order' := f + [a, b] + r;
    SplitWithin(big, f, s, r, una, stream, multiset(order), lbb, n, a, b);
  }

  lemma SplitWithin(big: bool, f: seq<Seg>, s: Seg, r: seq<Seg>, una: nat, stream: seq<Byte>, queued: multiset<Seg>,
                    lbb: nat, n: nat, a: Seg, b: Seg)
    requires Streamed(f + [s] + r, una, stream, queued, lbb) && SplitInto(big, s, n, a, b)
    ensures Streamed(f + [a, b] + r, una, stream, multiset(f + [a, b] + r), lbb)
    ensures Span(f + [a, b] + r) == Span(f + [s] + r)
  {
    hide Contiguous, Span, Payload, TcpLen, Seq, Flat, Proper, SplitInto;
    SplitPieces(big, s, n, a, b);
    CutOne(f, s, a, b, r, una);
    ProperAppend(f + [s], r); ProperAppend(f, [s]);
    ProperAppend(f + [a, b], r); ProperAppend(f, [a, b]);
  }

  lemma CutMultiset(f: seq<Seg>, s: Seg, a: Seg, b: Seg, r: seq<Seg>, unacked: seq<Seg>, rest: seq<Seg>)
    requires multiset(f + [s] + r) == multiset(unacked) + multiset([s] + rest)
    ensures multiset(f + [a, b] + r) == multiset(unacked) + multiset([a, b] + rest)
  {
    var x, y := multiset(f) + multiset(r), multiset(unacked) + multiset(rest);
    assert multiset(f + [s] + r) == x + multiset([s]);
    assert multiset([s] + rest) == multiset(rest) + multiset([s]);
    forall t: Seg ensures x[t] == y[t] {
      assert (x + multiset([s]))[t] == (y + multiset([s]))[t];
    }
    assert multiset(f + [a, b] + r) == x + multiset([a, b]);
    assert multiset([a, b] + rest) == multiset(rest) + multiset([a, b]);
  }

  lemma UnsentInOrder(order: seq<Seg>, unacked: seq<Seg>, unsent: seq<Seg>, s: Seg)
    requires multiset(order) == multiset(unacked) + multiset(unsent) && s in unsent
    ensures s in multiset(order) && s in order
  {
  }

  // --- Acknowledgements ----------------------------------------------------------------------

  lemma SeqLeqPos(una: nat, a: nat, b: nat)
    requires a < U32 && b < U32 && Pos(una, a) < HALF && Pos(una, b) < HALF
    ensures SeqLeq(a, b) <==> Pos(una, a) <= Pos(una, b)
  {
  }

  /** tcp_receive takes an acknowledgement number if and only if it is new and not beyond snd_nxt,
      for every number that a packet can carry. */
  lemma AcceptsExactly(lastack: nat, sndNxt: nat, ackno: nat)
    requires lastack < U32 && sndNxt < U32 && ackno < U32 && Pos(lastack, sndNxt) < HALF
    ensures TakesAck(lastack, sndNxt, ackno) <==> 0 < Pos(lastack, ackno) <= Pos(lastack, sndNxt)
  {
    hide Pos, Seq, SeqLt, SeqLeq;
    PosOf(lastack, 0);
    PosOf(lastack, 1);
    SeqSmall(lastack);
    SeqBound(lastack + 1);
    PosDifference(lastack, ackno, lastack);
    PosDifference(lastack, ackno, Seq(lastack + 1));
    PosDifference(lastack, ackno, sndNxt);
  }

  lemma SeqBound(n: nat)
    ensures Seq(n) < U32
  {
  }

  /** Comparing sequence numbers looks at the difference of their distances only. */
  lemma PosDifference(una: nat, a: nat, b: nat)
    requires a < U32 && b < U32
    ensures var d := Pos(una, a) - Pos(una, b);
            && (SeqLt(a, b) <==> -HALF <= d < 0 || d >= HALF)
            && (SeqLeq(a, b) <==> -HALF <= d <= 0 || d >= HALF)
  {
  }

  /** Moving the origin forward. */
  lemma PosShift(una: nat, d: nat, x: nat)
    requires d <= Pos(una, x)
    ensures Pos(una + d, x) == Pos(una, x) - d
  {
  }

  lemma SortedShift(una: nat, d: nat, q: seq<Seg>)
    requires Sorted(una, q) && NotBelow(una, q, d)
    ensures Sorted(una + d, q)
  {
    hide Pos;
    forall i | 0 <= i < |q| ensures Pos(una + d, q[i].seqno) == Pos(una, q[i].seqno) - d {
      PosShift(una, d, q[i].seqno);
    }
  }

  /** The number `m` of segments of the order that end within the distance `p`. */
  lemma {:induction false} AckedCount(order: seq<Seg>, p: nat) returns (m: nat)
    ensures m <= |order| && Span(order[..m]) <= p
    ensures m < |order| ==> p < Span(order[..m + 1])
  {
    m := 0;
    QueueEmpty(0);
    assert order[..0] == [];
    while m < |order| && Span(order[..m + 1]) <= p
      invariant m <= |order| && Span(order[..m]) <= p
    {
      m := m + 1;
    }
  }

  /** `ackno` lies within the stream, behind the first `m` segments of the order. */
  ghost predicate AckedUpTo(order: seq<Seg>, una: nat, ackno: nat, m: nat) {
    && m <= |order| && Span(order[..m]) <= Pos(una, ackno) <= Span(order)
    && (m < |order| ==> Pos(una, ackno) < Span(order[..m + 1]))
  }

  /** A segment is acknowledged if and only if it is one of the first `m`. */
  lemma AckedInOrder(order: seq<Seg>, una: nat, ackno: nat, m: nat, i: nat)
    requires Contiguous(order, una) && Span(order) < HALF && Proper(order) && i < |order| && ackno < U32
    requires AckedUpTo(order, una, ackno, m)
    ensures Acknowledged(order[i], ackno) <==> i < m
    ensures Acknowledged(order[i], ackno) <==> Pos(una, order[i].seqno) + TcpLen(order[i]) <= Pos(una, ackno)
    ensures m <= i ==> Span(order[..m]) <= Pos(una, order[i].seqno)
    ensures i < m ==> Pos(una, order[i].seqno) < Span(order[..m])
  {
    hide Pos, Contiguous, Span, TcpLen, Seq, SeqLeq;
    var s := order[i];
    OrderAt(order, una, i);
    assert ProperSeg(s);
    PosAdd(una, s.seqno, TcpLen(s));
    SeqLeqPos(una, Seq(s.seqno + TcpLen(s)), ackno);
    if i < m {
      SpanGrows(order, i + 1, m);
    } else {
      SpanGrows(order, m + 1, i + 1);
      SpanGrows(order, m, i);
    }
  }

  /** In this queue the acknowledged segments come first. */
  predicate AckedFirst(q: seq<Seg>, ackno: nat) {
    forall i, j | 0 <= i < j < |q| :: Acknowledged(q[j], ackno) ==> Acknowledged(q[i], ackno)
  }

  /** Popping acknowledged heads removes every acknowledged segment if and only if they come
      first. */
  lemma PoppedAllIff(q: seq<Seg>, rest: seq<Seg>, ackno: nat)
    requires Popped(q, rest, ackno)
    ensures (forall s | s in rest :: !Acknowledged(s, ackno)) <==> AckedFirst(q, ackno)
  {
  }

  /** In a sorted queue the acknowledged segments come first. */
  lemma SortedAckedFirst(order: seq<Seg>, una: nat, ackno: nat, m: nat, q: seq<Seg>)
    requires Contiguous(order, una) && Span(order) < HALF && Proper(order) && ackno < U32
    requires AckedUpTo(order, una, ackno, m) && Sorted(una, q) && multiset(q) <= multiset(order)
    ensures AckedFirst(q, ackno)
  {
    hide Pos, Contiguous, Span, TcpLen, Acknowledged, Proper, AckedUpTo;
    forall i, j | 0 <= i < j < |q| && Acknowledged(q[j], ackno) ensures Acknowledged(q[i], ackno) {
      var x := IndexInOrder(order, q, i);
      var y := IndexInOrder(order, q, j);
      AckedInOrder(order, una, ackno, m, x);
      AckedInOrder(order, una, ackno, m, y);
      OrderDisjoint(order, una, q[i], q[j]);
    }
  }

  lemma IndexInOrder(order: seq<Seg>, q: seq<Seg>, i: nat) returns (x: nat)
    requires multiset(q) <= multiset(order) && i < |q|
    ensures x < |order| && order[x] == q[i]
  {
    assert multiset(q)[q[i]] > 0;
    assert q[i] in order;
    x :| 0 <= x < |order| && order[x] == q[i];
  }

  /** What is left of both queues is what is left of the order. */
  lemma AckMultiset(order: seq<Seg>, una: nat, stream: seq<Byte>, unacked: seq<Seg>, unsent: seq<Seg>, lbb: nat,
                    ackno: nat, m: nat, unacked': seq<Seg>, unsent': seq<Seg>)
    requires Streamed(order, una, stream, multiset(unacked) + multiset(unsent), lbb) && ackno < U32
    requires AckedUpTo(order, una, ackno, m) && Sorted(una, unacked) && AckedFirst(unsent, ackno)
    requires Popped(unacked, unacked', ackno) && Popped(unsent, unsent', ackno)
    ensures multiset(order[m..]) == multiset(unacked') + multiset(unsent')
  {
    hide Pos, Contiguous, Span, Payload, TcpLen, Acknowledged, AckedFirst, Proper, Sorted, AckedUpTo, Popped, Placed;
    SortedAckedFirst(order, una, ackno, m, unacked);
    var gone := PoppedParts(unacked, unacked', ackno);
    var gone' := PoppedParts(unsent, unsent', ackno);
    AckedSplit(order, una, ackno, m);
    var head, tail := order[..m], order[m..];
    assert order == head + tail;
    forall s: Seg ensures multiset(tail)[s] == (multiset(unacked') + multiset(unsent'))[s] {
      assert multiset(order)[s] == multiset(head)[s] + multiset(tail)[s];
      assert multiset(order)[s] == multiset(unacked)[s] + multiset(unsent)[s];
      assert multiset(unacked)[s] == multiset(gone)[s] + multiset(unacked')[s];
      assert multiset(unsent)[s] == multiset(gone')[s] + multiset(unsent')[s];
      if Acknowledged(s, ackno) {
        assert s !in tail && s !in unacked' && s !in unsent';
      } else {
        assert s !in head && s !in gone && s !in gone';
      }
    }
  }

  lemma AckedBound(order: seq<Seg>, una: nat, ackno: nat, m: nat)
    requires AckedUpTo(order, una, ackno, m)
    ensures m <= |order| && Span(order[..m]) <= Pos(una, ackno) <= Span(order)
  {
  }

  /** The first `m` segments are acknowledged, the others are not. */
  lemma AckedSplit(order: seq<Seg>, una: nat, ackno: nat, m: nat)
    requires Contiguous(order, una) && Span(order) < HALF && Proper(order)
    requires ackno < U32 && AckedUpTo(order, una, ackno, m)
    ensures m <= |order| && (forall s | s in order[..m] :: Acknowledged(s, ackno))
    ensures forall s | s in order[m..] :: !Acknowledged(s, ackno) && Span(order[..m]) <= Pos(una, s.seqno)
  {
    hide Pos, Contiguous, Span, Acknowledged, Proper, AckedUpTo;
    AckedBound(order, una, ackno, m);
    forall s | s in order[..m] ensures Acknowledged(s, ackno) {
      var i :| 0 <= i < m && order[..m][i] == s;
      AckedInOrder(order, una, ackno, m, i);
    }
    forall s | s in order[m..] ensures !Acknowledged(s, ackno) && Span(order[..m]) <= Pos(una, s.seqno) {
      var i :| 0 <= i < |order| - m && order[m..][i] == s;
      AckedInOrder(order, una, ackno, m, m + i);
    }
  }

  /** The popped part of a queue, acknowledged, and the rest, not acknowledged. */
  lemma PoppedParts(q: seq<Seg>, rest: seq<Seg>, ackno: nat) returns (gone: seq<Seg>)
    requires Popped(q, rest, ackno) && AckedFirst(q, ackno)
    ensures q == gone + rest && multiset(q) == multiset(gone) + multiset(rest)
    ensures forall s | s in gone :: Acknowledged(s, ackno)
    ensures forall s | s in rest :: !Acknowledged(s, ackno)
  {
    hide Acknowledged, AckedFirst;
    gone := q[..|q| - |rest|];
    assert q == gone + rest;
    PoppedAllIff(q, rest, ackno);
  }

  /** An acknowledgement takes a prefix off the stream and nothing else. */
  lemma AckStreamed(order: seq<Seg>, una: nat, stream: seq<Byte>, unacked: seq<Seg>, unsent: seq<Seg>, lbb: nat,
                    ackno: nat, m: nat, unacked': seq<Seg>, unsent': seq<Seg>)
    requires Streamed(order, una, stream, multiset(unacked) + multiset(unsent), lbb) && ackno < U32
    requires AckedUpTo(order, una, ackno, m) && Sorted(una, unacked) && AckedFirst(unsent, ackno)
    requires Popped(unacked, unacked', ackno) && Popped(unsent, unsent', ackno)
    ensures m <= |order| && stream == Payload(order[..m]) + Payload(order[m..])
    ensures Streamed(order[m..], una + Span(order[..m]), Payload(order[m..]),
            multiset(unacked') + multiset(unsent'), lbb)
    ensures Span(order) == Span(order[..m]) + Span(order[m..])
    ensures multiset(order[m..]) == multiset(unacked') + multiset(unsent')
  {
    hide Pos, Contiguous, Span, Payload, Proper, Sorted, AckedUpTo, Popped, Seq, Streamed, AckedFirst;
    AckMultiset(order, una, stream, unacked, unsent, lbb, ackno, m, unacked', unsent');
    AckedBound(order, una, ackno, m);
    assert order == order[..m] + order[m..];
    DropPrefix(order[..m], order[m..], una, stream, multiset(unacked) + multiset(unsent), lbb);
  }

  /** Behind the origin there is no place for a segment. */
  lemma PosBehind(una: nat, d: nat, x: nat)
    requires Pos(una, x) < d < HALF
    ensures Pos(una + d, x) >= HALF
  {
  }

  /** An acknowledged segment that stays in a queue is in no stream of what is left. */
  lemma AckBreaks(order: seq<Seg>, una: nat, stream: seq<Byte>, unacked: seq<Seg>, unsent: seq<Seg>, lbb: nat,
                  ackno: nat, m: nat, unacked': seq<Seg>, unsent': seq<Seg>,
                  order': seq<Seg>, stream': seq<Byte>, lbb': nat)
    requires Streamed(order, una, stream, multiset(unacked) + multiset(unsent), lbb) && ackno < U32
    requires AckedUpTo(order, una, ackno, m) && !AckedFirst(unsent, ackno) && Popped(unsent, unsent', ackno)
    ensures m <= |order|
            && !Streamed(order', una + Span(order[..m]), stream', multiset(unacked') + multiset(unsent'), lbb')
  {
    hide Pos, Span, Payload, Contiguous, Proper, AckedUpTo, Popped, Seq, Streamed, AckedFirst, Acknowledged, Placed;
    PoppedAllIff(unsent, unsent', ackno);
    var s :| s in unsent' && Acknowledged(s, ackno);
    PoppedSuffix(unsent, unsent', ackno);
    StreamedOrder(order, una, stream, multiset(unacked) + multiset(unsent), lbb);
    UnsentInOrder(order, unacked, unsent, s);
    var i :| 0 <= i < |order| && order[i] == s;
    AckedInOrder(order, una, ackno, m, i);
    AckedBound(order, una, ackno, m);
    PosBehind(una, Span(order[..m]), s.seqno);
    var una', left := una + Span(order[..m]), multiset(unacked') + multiset(unsent');
    if Streamed(order', una', stream', left, lbb') {
      StreamedPlaced(order', una', stream', left, lbb');
      PlacedAt(una', left, s);
    }
  }

  /** An acknowledgement leaves the stream of the bytes not acknowledged if and only if the
      acknowledged segments come first in the unsent queue. */
  lemma AckStreamedIff(order: seq<Seg>, una: nat, stream: seq<Byte>, unacked: seq<Seg>, unsent: seq<Seg>, lbb: nat,
                       ackno: nat, m: nat, unacked': seq<Seg>, unsent': seq<Seg>)
    requires Streamed(order, una, stream, multiset(unacked) + multiset(unsent), lbb) && ackno < U32
    requires AckedUpTo(order, una, ackno, m) && Sorted(una, unacked)
    requires Popped(unacked, unacked', ackno) && Popped(unsent, unsent', ackno)
    ensures m <= |order|
    ensures IsStream(una + Span(order[..m]), Payload(order[m..]), multiset(unacked') + multiset(unsent'), lbb)
            <==> AckedFirst(unsent, ackno)
  {
    hide Streamed, AckedUpTo, Sorted, Popped, AckedFirst, Span, Payload;
    AckedBound(order, una, ackno, m);
    var una', left := una + Span(order[..m]), multiset(unacked') + multiset(unsent');
    if AckedFirst(unsent, ackno) {
      AckStreamed(order, una, stream, unacked, unsent, lbb, ackno, m, unacked', unsent');
    } else {
      forall o ensures !Streamed(o, una', Payload(order[m..]), left, lbb) {
        AckBreaks(order, una, stream, unacked, unsent, lbb, ackno, m, unacked', unsent', o, Payload(order[m..]), lbb);
      }
    }
  }

  lemma DropPrefix(head: seq<Seg>, tail: seq<Seg>, una: nat, stream: seq<Byte>, queued: multiset<Seg>, lbb: nat)
    requires Streamed(head + tail, una, stream, queued, lbb)
    ensures stream == Payload(head) + Payload(tail) && Span(head + tail) == Span(head) + Span(tail)
    ensures Streamed(tail, una + Span(head), Payload(tail), multiset(tail), lbb)
  {
    hide Pos, Contiguous, Span, Payload, Proper, Seq;
    SpanAppend(head, tail);
    ContiguousAppend(head, tail, una);
    ProperAppend(head, tail);
    assert una + Span(head) + Span(tail) == una + Span(head + tail);
  }

  // --- Retransmission time-out ---------------------------------------------------------------

  /** The last unacknowledged segment precedes the first unsent one. */
  predicate InOrder(unacked: seq<Seg>, unsent: seq<Seg>) {
    unacked == [] || unsent == [] || SeqLt(unacked[|unacked| - 1].seqno, unsent[0].seqno)
  }

  /** Putting the unacknowledged segments in front of the unsent ones keeps the queue sorted if
      and only if the last of them precedes the first unsent one; after tcp_rexmit it may not. */
  lemma RtoSortedIff(una: nat, unacked: seq<Seg>, unsent: seq<Seg>)
    requires Placed(una, multiset(unacked) + multiset(unsent)) && Sorted(una, unacked) && Sorted(una, unsent)
    ensures Sorted(una, unacked + unsent) <==> InOrder(unacked, unsent)
  {
    hide Pos, TcpLen, SeqLt, Placed, Seq;
    if unacked != [] && unsent != [] {
      var n := |unacked| - 1;
      var a, b := unacked[n], unsent[0];
      assert a in multiset(unacked) && b in multiset(unsent);
      PlacedAt(una, multiset(unacked) + multiset(unsent), a);
      PlacedAt(una, multiset(unacked) + multiset(unsent), b);
      SeqLtPos(una, a.seqno, b.seqno);
      assert (unacked + unsent)[n] == a && (unacked + unsent)[n + 1] == b;
      if InOrder(unacked, unsent) {
        SortedAppend(una, unacked, unsent, Pos(una, b.seqno));
      }
    } else {
      assert unacked + unsent == if unsent == [] then unacked else unsent;
    }
  }

  // --- The connection ------------------------------------------------------------------------

  /** The queues hold the stream, in order, and the sequence number variables fit it. */
  ghost predicate Carries(order: seq<Seg>, una: nat, stream: seq<Byte>, unacked: seq<Seg>, unsent: seq<Seg>,
                          lbb: nat, sndNxt: nat, lastack: nat, oversize: nat) {
    && Streamed(order, una, stream, multiset(unacked) + multiset(unsent), lbb)
    && Sorted(una, unacked)
    && Pos(una, lastack) <= Pos(una, sndNxt) <= Span(order)
    && (oversize > 0 ==> TailIsLast(unsent, lbb))
  }

  lemma CarriesWrite(big: bool, order: seq<Seg>, una: nat, stream: seq<Byte>, unacked: seq<Seg>, before: seq<Seg>,
                     lbb: nat, sndNxt: nat, lastack: nat, oversize: nat,
                     ext: nat, arg: seq<Byte>, after: seq<Seg>, mss: nat, oversize': nat)
    returns (order': seq<Seg>)
    requires Carries(order, una, stream, unacked, before, lbb, sndNxt, lastack, oversize)
    requires WrittenQueue(big, before, ext, arg, after, lbb) && AllOk(big, after, mss)
    requires ext == 0 || TailIsLast(before, lbb)
    requires arg == [] ==> after == before && oversize' == oversize
    requires Span(order) + |arg| < HALF
    ensures Carries(order', una, stream + arg, unacked, after, Seq(lbb + |arg|), sndNxt, lastack, oversize')
    ensures Span(order') == Span(order) + |arg|
  {
    hide Streamed, Sorted, Pos, Span, TailIsLast, WrittenQueue, AllOk, Seq;
    order' := WriteStreamed(big, order, una, stream, unacked, before, ext, arg, after, lbb, mss);
    StreamedEnd(order, una, stream, multiset(unacked) + multiset(before), lbb);
    SeqAddTo(lbb, una + Span(order), |arg|, lbb + |arg|);
    SpanOf(order', una, stream + arg, multiset(unacked) + multiset(after), Seq(lbb + |arg|), Span(order) + |arg|);
    if arg != [] {
      WrittenTail(big, before, ext, arg, after, lbb);
    } else {
      SeqSmall(lbb);
    }
  }

  lemma CarriesNoMore(big: bool, order: seq<Seg>, una: nat, stream: seq<Byte>, unacked: seq<Seg>, before: seq<Seg>,
                      lbb: nat, sndNxt: nat, lastack: nat, oversize: nat,
                      ext: nat, arg: seq<Byte>, after: seq<Seg>, mss: nat)
    requires Carries(order, una, stream, unacked, before, lbb, sndNxt, lastack, oversize)
    requires WrittenQueue(big, before, ext, arg, after, lbb) && AllOk(big, after, mss)
    requires ext > 0 && !TailIsLast(before, lbb) && Span(order) + |arg| < HALF
    ensures !IsStream(una, stream + arg, multiset(unacked) + multiset(after), Seq(lbb + |arg|))
  {
    hide Streamed, Sorted, Pos, Span, TailIsLast, WrittenQueue, AllOk, Seq, IsStream;
    WriteStreamedIff(big, order, una, stream, unacked, before, ext, arg, after, lbb, mss);
  }

  lemma CarriesSplit(big: bool, order: seq<Seg>, una: nat, stream: seq<Byte>, unacked: seq<Seg>, s: Seg, rest: seq<Seg>,
                     lbb: nat, sndNxt: nat, lastack: nat, oversize: nat, n: nat, a: Seg, b: Seg)
    returns (order': seq<Seg>)
    requires Carries(order, una, stream, unacked, [s] + rest, lbb, sndNxt, lastack, oversize)
    requires SplitInto(big, s, n, a, b)
    ensures Carries(order', una, stream, unacked, [a, b] + rest, lbb, sndNxt, lastack,
            if rest == [] then 0 else oversize)
    ensures Span(order') == Span(order)
  {
    hide Streamed, Sorted, Pos, Span, Seq, SplitInto, TcpLen;
    order' := SplitStreamed(big, order, una, stream, unacked, rest, lbb, s, n, a, b);
    if rest != [] {
      assert ([a, b] + rest)[|rest| + 1] == rest[|rest| - 1] == ([s] + rest)[|rest|];
    }
  }

  lemma TailSuffix(q: seq<Seg>, rest: seq<Seg>, lbb: nat)
    requires TailIsLast(q, lbb) && rest != [] && |rest| <= |q| && rest == q[|q| - |rest|..]
    ensures TailIsLast(rest, lbb)
  {
  }

  /** How many segments of the order an acceptable number acknowledges. */
  lemma CarriesCount(order: seq<Seg>, una: nat, stream: seq<Byte>, unacked: seq<Seg>, unsent: seq<Seg>,
                     lbb: nat, sndNxt: nat, lastack: nat, oversize: nat, ackno: nat)
    returns (m: nat)
    requires Carries(order, una, stream, unacked, unsent, lbb, sndNxt, lastack, oversize)
    requires Pos(una, ackno) <= Pos(una, sndNxt)
    ensures AckedUpTo(order, una, ackno, m) && m <= |order| && stream == Payload(order[..m]) + Payload(order[m..])
  {
    hide Streamed, Sorted, Pos, Span, Seq, Payload, TailIsLast, AckedUpTo;
    m := AckedCount(order, Pos(una, ackno));
    assert AckedUpTo(order, una, ackno, m) by { AckedUpToIs(order, una, ackno, m); }
    assert order == order[..m] + order[m..];
    DropPrefix(order[..m], order[m..], una, stream, multiset(unacked) + multiset(unsent), lbb);
  }

  lemma CarriesAck(order: seq<Seg>, una: nat, stream: seq<Byte>, unacked: seq<Seg>, unsent: seq<Seg>,
                   lbb: nat, sndNxt: nat, lastack: nat, oversize: nat,
                   ackno: nat, m: nat, unacked': seq<Seg>, unsent': seq<Seg>)
    requires Carries(order, una, stream, unacked, unsent, lbb, sndNxt, lastack, oversize) && ackno < U32
    requires Pos(una, ackno) <= Pos(una, sndNxt) && AckedFirst(unsent, ackno) && AckedUpTo(order, una, ackno, m)
    requires Popped(unacked, unacked', ackno) && Popped(unsent, unsent', ackno) && m <= |order|
    ensures Carries(order[m..], una + Span(order[..m]), Payload(order[m..]), unacked', unsent', lbb, sndNxt, ackno,
                    if unsent' == [] then 0 else oversize)
    ensures Span(order) == Span(order[..m]) + Span(order[m..])
  {
    hide Streamed, Sorted, Pos, Span, Seq, Payload, TailIsLast, Popped, AckedUpTo, AckedFirst;
    AckStreamed(order, una, stream, unacked, unsent, lbb, ackno, m, unacked', unsent');
    var d := Span(order[..m]);
    AckedBound(order, una, ackno, m);
    PosShift(una, d, ackno);
    PosShift(una, d, sndNxt);
    StreamedOrder(order, una, stream, multiset(unacked) + multiset(unsent), lbb);
    RestSorted(order, una, ackno, m, unacked, unacked');
    if unsent' != [] && oversize > 0 {
      PoppedSuffix(unsent, unsent', ackno);
      TailSuffix(unsent, unsent', lbb);
    }
  }

  lemma CarriesLen(order: seq<Seg>, una: nat, stream: seq<Byte>, unacked: seq<Seg>, unsent: seq<Seg>,
                   lbb: nat, sndNxt: nat, lastack: nat, oversize: nat, m: nat)
    requires Carries(order, una, stream, unacked, unsent, lbb, sndNxt, lastack, oversize) && m <= |order|
    ensures |stream| == DataLen(unacked) + DataLen(unsent) && |Payload(order[..m])| <= Span(order[..m])
  {
    hide Streamed, Sorted, Pos, Span, Payload, DataLen;
    StreamLen(order, una, stream, unacked, unsent, lbb);
    HeadLen(order, una, stream, multiset(unacked) + multiset(unsent), lbb, m);
  }

  lemma CarriesStale(order: seq<Seg>, una: nat, stream: seq<Byte>, unacked: seq<Seg>, unsent: seq<Seg>,
                     lbb: nat, sndNxt: nat, lastack: nat, oversize: nat,
                     ackno: nat, m: nat, unacked': seq<Seg>, unsent': seq<Seg>)
    requires Carries(order, una, stream, unacked, unsent, lbb, sndNxt, lastack, oversize) && ackno < U32
    requires AckedUpTo(order, una, ackno, m) && !AckedFirst(unsent, ackno) && m <= |order|
    requires Popped(unacked, unacked', ackno) && Popped(unsent, unsent', ackno)
    ensures !IsStream(una + Span(order[..m]), Payload(order[m..]), multiset(unacked') + multiset(unsent'), lbb)
  {
    hide Streamed, Sorted, Pos, Span, Payload, Popped, AckedUpTo, AckedFirst, IsStream;
    AckStreamedIff(order, una, stream, unacked, unsent, lbb, ackno, m, unacked', unsent');
  }

  /** The first `m` segments, all that `ackno` acknowledges, are gone from the order; they took up
      `numbers` sequence numbers and held `bytes` bytes. */
  ghost predicate DroppedFirst(order: seq<Seg>, una: nat, ackno: nat, m: int, rest: seq<Seg>, numbers: int,
                               bytes: int) {
    && 0 <= m <= |order| && AckedUpTo(order, una, ackno, m) && rest == order[m..]
    && numbers == Span(order[..m]) && bytes == |Payload(order[..m])|
  }

  lemma AckedUpToIs(order: seq<Seg>, una: nat, ackno: nat, m: nat)
    requires m <= |order| && Span(order[..m]) <= Pos(una, ackno) <= Span(order)
    requires m < |order| ==> Pos(una, ackno) < Span(order[..m + 1])
    ensures AckedUpTo(order, una, ackno, m)
  {
  }

  lemma PoppedSuffix(q: seq<Seg>, rest: seq<Seg>, ackno: nat)
    requires Popped(q, rest, ackno)
    ensures |rest| <= |q| && rest == q[|q| - |rest|..]
  {
  }

  lemma StreamedOrder(order: seq<Seg>, una: nat, stream: seq<Byte>, queued: multiset<Seg>, lbb: nat)
    requires Streamed(order, una, stream, queued, lbb)
    ensures Contiguous(order, una) && Span(order) < HALF && Proper(order) && multiset(order) == queued
  {
  }

  lemma HeadLen(order: seq<Seg>, una: nat, stream: seq<Byte>, queued: multiset<Seg>, lbb: nat, m: nat)
    requires Streamed(order, una, stream, queued, lbb) && m <= |order|
    ensures |Payload(order[..m])| <= Span(order[..m])
  {
    hide Payload, Span, Contiguous, Proper;
    assert order == order[..m] + order[m..];
    ProperAppend(order[..m], order[m..]);
    PayloadLen(order[..m]);
  }

  lemma RestSorted(order: seq<Seg>, una: nat, ackno: nat, m: nat, unacked: seq<Seg>, unacked': seq<Seg>)
    requires Contiguous(order, una) && Span(order) < HALF && Proper(order) && ackno < U32
    requires AckedUpTo(order, una, ackno, m) && Sorted(una, unacked) && Popped(unacked, unacked', ackno) && m <= |order|
    requires multiset(unacked') <= multiset(order[m..])
    ensures Sorted(una + Span(order[..m]), unacked')
  {
    hide Sorted, Pos, Span, Popped, AckedUpTo, Contiguous, Proper, Acknowledged, NotBelow;
    AckedSplit(order, una, ackno, m);
    PoppedSuffix(unacked, unacked', ackno);
    SortedSuffix(una, unacked, |unacked| - |unacked'|);
    TailNotBelow(order[m..], una, unacked', Span(order[..m]));
    SortedShift(una, Span(order[..m]), unacked');
  }

  lemma TailNotBelow(tail: seq<Seg>, una: nat, q: seq<Seg>, d: nat)
    requires multiset(q) <= multiset(tail) && forall s | s in tail :: d <= Pos(una, s.seqno)
    ensures NotBelow(una, q, d)
  {
    hide Pos;
    forall i | 0 <= i < |q| ensures d <= Pos(una, q[i].seqno) {
      var x := IndexInOrder(tail, q, i);
    }
  }

  datatype Event =
    | WriteCall(arg: seq<Byte>, argAddr: nat, copy: bool, more: bool, alloc: nat -> bool)
    | SplitCall(size: nat, alloc: nat -> bool)
    | FlagsCall(opts: nat, alloc: nat -> bool)
    | OutputCall(circumstances: Circumstances, wnd: nat, attempts: seq<Attempt>)
    | RexmitCall(driverBusy: bool)
    | TimeoutCall(busy: set<nat>)
    | AckCall(ackno: nat)
    | ResizeCall(mss: nat, wndMax: nat)

  /** The event `e` led from `a` to `b` with the answer `err`, as the contract of its operation says. */
  ghost predicate Did(cfg: Config, e: Event, a: Snap, err: Err, b: Snap) {
    match e
    case WriteCall(arg, argAddr, copy, _, alloc) => DidWrite(cfg, arg, argAddr, copy, alloc, a, err, b)
    case SplitCall(size, alloc) => DidSplit(cfg, size, alloc, a, err, b)
    case FlagsCall(opts, alloc) => DidFlags(opts, alloc, a, err, b)
    case OutputCall(c, wnd, attempts) => DidOutput(c, wnd, attempts, a, err, b)
    case RexmitCall(driverBusy) => DidRexmit(driverBusy, a, err, b)
    case TimeoutCall(busy) => DidTimeout(busy, a, err, b)
    case AckCall(ackno) => err == Ok && DidAck(ackno, a, b)
    case ResizeCall(mss, wndMax) => err == Ok && b == a.(mssLocal := SizeFor(mss, wndMax, cfg.optlen))
  }

  /** A run: the states before, between and after the events, and their answers. */
  ghost predicate History(cfg: Config, events: seq<Event>, errs: seq<Err>, states: seq<Snap>) {
    && |errs| <= |events| && |states| == |errs| + 1
    && forall i | 0 <= i < |errs| :: Did(cfg, events[i], states[i], errs[i], states[i + 1])
  }

  lemma HistoryStart(cfg: Config, events: seq<Event>, a: Snap)
    ensures History(cfg, events, [], [a])
  {
  }

  lemma HistoryStep(cfg: Config, events: seq<Event>, errs: seq<Err>, states: seq<Snap>, err: Err, b: Snap)
    requires History(cfg, events, errs, states) && |errs| < |events|
    requires |states| == |errs| + 1 && Did(cfg, events[|errs|], states[|errs|], err, b)
    ensures History(cfg, events, errs + [err], states + [b])
  {
    hide Did;
  }

  /** The bytes that tcp_write accepted. */
  function Accepted(events: seq<Event>, errs: seq<Err>): seq<Byte>
    requires |errs| <= |events|
  {
    if errs == [] then []
    else
      var n := |errs| - 1;
      Accepted(events, errs[..n]) + if events[n].WriteCall? && errs[n] == Ok then events[n].arg else []
  }

  /** What the types and the callers of the source guarantee. */
  predicate Legal(e: Event, optlen: nat, sizeMax: nat) {
    match e
    case WriteCall(arg, _, _, _, _) => |arg| <= 0xffff
    case FlagsCall(opts, _) => opts <= sizeMax
    case AckCall(ackno) => ackno < U32
    case ResizeCall(mss, wndMax) => 0 < mss <= 0xffff && optlen < SizeFor(mss, wndMax, optlen)
    case _ => true
  }

  class Connection {
    const pcb: Pcb
    const sndBufMax: nat // TCP_SND_BUF
    /** All bytes that tcp_write accepted so far, and how many of them were acknowledged. */
    ghost var written: seq<Byte>
    ghost var done: nat
    /** The queued segments in sequence order, and where they start. */
    ghost var order: seq<Seg>
    ghost var una: nat
    /** How many segments without data were queued. */
    var flags: nat

    ghost predicate Inv()
      reads this, pcb
    {
      && pcb.Valid() && done <= |written|
      && Carries(order, una, written[done..], pcb.unacked, pcb.unsent, pcb.sndLbb, pcb.sndNxt, pcb.lastack,
          pcb.unsentOversize)
      && pcb.sndBuf + |written| - done == sndBufMax
      && Span(order) <= |written| - done + flags && sndBufMax + flags < HALF
    }

    constructor (pcb: Pcb, iss: nat)
      requires pcb.Valid() && pcb.unacked == [] && pcb.unsent == [] && pcb.unsentOversize == 0
      requires pcb.sndLbb == pcb.sndNxt == pcb.lastack == iss && pcb.sndBuf < HALF
      ensures Inv() && this.pcb == pcb && written == [] && done == 0
    {
      this.pcb, sndBufMax := pcb, pcb.sndBuf;
      written, done, order, una, flags := [], 0, [], iss, 0;
      new;
      CarriesNothing(iss);
    }

    /** What the code takes for granted when it extends a segment or drops acknowledged ones. */
    predicate Safe(e: Event)
      reads pcb
    {
      match e
      case WriteCall(arg, _, _, _, _) => pcb.ExtendLen(|arg|) == 0 || TailIsLast(pcb.unsent, pcb.sndLbb)
      case AckCall(ackno) => pcb.Accepts(ackno) ==> AckedFirst(pcb.unsent, ackno)
      case _ => true
    }

    /** The run ends here: an assertion of tcp_write fails, or half the number space is used up. */
    predicate Ends(e: Event)
      reads this`flags, pcb
    {
      match e
      case WriteCall(arg, _, _, _, _) => pcb.writable && pcb.Passes(|arg|) && pcb.Aborts()
      case FlagsCall(_, _) => sndBufMax + flags + 1 >= HALF
      case _ => false
    }

    method Write(arg: seq<Byte>, argAddr: nat, copy: bool, more: bool, alloc: nat -> bool) returns (err: Err)
      requires Inv() && |arg| <= 0xffff
      modifies this`written, this`order, pcb
      ensures pcb.Valid() && done <= |old(written)| && written == old(written) + (if err == Ok then arg else [])
      ensures pcb.sizeMax == old(pcb.sizeMax)
      ensures DidWrite(pcb.Settings(), arg, argAddr, copy, alloc, old(pcb.Now()), err, pcb.Now())
      ensures err != Ok || old(Safe(WriteCall(arg, argAddr, copy, more, alloc))) ==> Inv()
      ensures err == Ok && !old(Safe(WriteCall(arg, argAddr, copy, more, alloc))) ==>
                !IsStream(una, written[done..], pcb.Queued(), pcb.sndLbb)
    {
      hide Carries, WrittenQueue, Pcb.Valid, AllOk, Span, TailIsLast, Seq, OversizeFits, IsStream, DidWrite, Extent;
      ghost var a, ext := pcb.Now(), pcb.ExtendLen(|arg|);
      ghost var safe := Safe(WriteCall(arg, argAddr, copy, more, alloc));
      err := pcb.Write(arg, argAddr, copy, more, alloc);
      WroteFacts(pcb.Settings(), arg, argAddr, copy, alloc, a, err, pcb.Now());
      if err == Ok {
        assert AllOk(pcb.big, pcb.unsent, pcb.sizeMax) && 0 <= ext by {
          WrittenFacts(pcb, a.unsent, ext, arg, a.sndLbb);
        }
        assert (written + arg)[done..] == written[done..] + arg;
        if safe {
          order := CarriesWrite(pcb.big, order, una, written[done..], pcb.unacked, a.unsent, a.sndLbb, pcb.sndNxt,
                                pcb.lastack, a.oversize, ext, arg, pcb.unsent, pcb.sizeMax, pcb.unsentOversize);
        } else {
          CarriesNoMore(pcb.big, order, una, written[done..], pcb.unacked, a.unsent, a.sndLbb, pcb.sndNxt,
                        pcb.lastack, a.oversize, ext, arg, pcb.unsent, pcb.sizeMax);
        }
        written := written + arg;
      }
    }

    method Split(size: nat, alloc: nat -> bool) returns (err: Err)
      requires Inv()
      modifies this`order, pcb
      ensures Inv() && pcb.sizeMax == old(pcb.sizeMax)
      ensures DidSplit(pcb.Settings(), size, alloc, old(pcb.Now()), err, pcb.Now())
    {
      hide Carries, SplitInto, Pcb.Valid, Span;
      ghost var before, over := pcb.unsent, pcb.unsentOversize;
      err := pcb.Split(size, alloc);
      if pcb.unsent != before {
        ghost var s, rest, a, b := before[0], before[1..], pcb.unsent[0], pcb.unsent[1];
        assert before == [s] + rest && pcb.unsent == [a, b] + rest;
        order := CarriesSplit(pcb.big, order, una, written[done..], pcb.unacked, s, rest, pcb.sndLbb, pcb.sndNxt,
                              pcb.lastack, over, size, a, b);
      }
    }

    method EnqueueFlags(opts: nat, alloc: nat -> bool) returns (err: Err)
      requires Inv() && opts <= pcb.sizeMax && !Ends(FlagsCall(opts, alloc))
      modifies this`order, this`flags, pcb
      ensures Inv() && pcb.sizeMax == old(pcb.sizeMax) && flags == old(flags) + if err == Ok then 1 else 0
      ensures DidFlags(opts, alloc, old(pcb.Now()), err, pcb.Now())
    {
      hide Carries, Pcb.Valid, Span, Flat, TcpLen, Seq;
      ghost var before, lbb, over := pcb.unsent, pcb.sndLbb, pcb.unsentOversize;
      err := pcb.EnqueueFlags(opts, alloc);
      if err == Ok {
        ghost var seg := pcb.unsent[|before|];
        assert pcb.unsent == before + [seg];
        CarriesFlags(order, una, written[done..], pcb.unacked, before, lbb, pcb.sndNxt, pcb.lastack, over, seg);
        order, flags := order + [seg], flags + 1;
      }
    }

    method Output(c: Circumstances, wnd: nat, attempts: seq<Attempt>) returns (err: Err)
      requires Inv()
      modifies pcb
      ensures Inv() && pcb.sizeMax == old(pcb.sizeMax)
      ensures DidOutput(c, wnd, attempts, old(pcb.Now()), err, pcb.Now())
    {
      hide Carries, Pcb.Valid, Span, Sorted, Rising, Placed, Spread, Within, Pos, DidOutput, Covered, Apart, Suffix;
      ghost var a := pcb.Now();
      CarriesReady(order, una, written[done..], a.unacked, a.unsent, a.sndLbb, a.sndNxt, a.lastack, a.oversize);
      EmptyOversize(pcb);
      err := pcb.Output(c, wnd, attempts, una, Span(order));
      OutputFacts(c, wnd, attempts, a, err, pcb.Now());
      StaysStrict(una, a.unacked, a.unsent, pcb.unacked, pcb.unsent);
      CarriesOutput(order, una, written[done..], a.unacked, a.unsent, a.sndLbb, a.sndNxt, a.lastack, a.oversize,
                    pcb.unacked, pcb.unsent, pcb.sndNxt, pcb.unsentOversize);
    }

    method Rexmit(driverBusy: bool) returns (err: Err)
      requires Inv()
      modifies pcb
      ensures Inv() && pcb.sizeMax == old(pcb.sizeMax)
      ensures DidRexmit(driverBusy, old(pcb.Now()), err, pcb.Now())
    {
      hide Carries, Pcb.Valid, Span, Sorted, Placed, Rising, Spread, Backed, GoesLast;
      ghost var unacked, unsent, over := pcb.unacked, pcb.unsent, pcb.unsentOversize;
      err := pcb.Rexmit(driverBusy, una);
      if err == Ok {
        CarriesRexmit(order, una, written[done..], unacked, unsent, pcb.sndLbb, pcb.sndNxt, pcb.lastack, over,
                      pcb.unacked, pcb.unsent, pcb.unsentOversize);
      }
    }

    method Timeout(busy: set<nat>) returns (err: Err)
      requires Inv()
      modifies pcb
      ensures Inv() && pcb.sizeMax == old(pcb.sizeMax)
      ensures DidTimeout(busy, old(pcb.Now()), err, pcb.Now())
    {
      hide Carries, Pcb.Valid, Span;
      ghost var unacked, unsent := pcb.unacked, pcb.unsent;
      err := pcb.RexmitRtoPrepare(busy);
      if err == Ok {
        CarriesTimeout(order, una, written[done..], unacked, unsent, pcb.sndLbb, pcb.sndNxt, pcb.lastack,
            pcb.unsentOversize);
      }
    }

    method Ack(ackno: nat)
      requires Inv() && ackno < U32
      modifies this`order, this`una, this`done, pcb
      ensures pcb.Valid() && old(done) <= done <= |written| && pcb.sizeMax == old(pcb.sizeMax)
      ensures DidAck(ackno, old(pcb.Now()), pcb.Now())
      ensures !old(pcb.Accepts(ackno)) ==> una == old(una) && order == old(order) && done == old(done)
      ensures old(pcb.Accepts(ackno)) ==>
                DroppedFirst(old(order), old(una), ackno, old(|order|) - |order|, order,
                             una - old(una), done - old(done))
      ensures if old(Safe(AckCall(ackno))) then Inv() else !IsStream(una, written[done..], pcb.Queued(), pcb.sndLbb)
    {
      hide Carries, Pcb.Valid, Span, Payload, Popped, DataLen, Pos, TakesAck, AckedFirst, AckedUpTo, IsStream;
      ghost var unacked, unsent, last, over := pcb.unacked, pcb.unsent, pcb.lastack, pcb.unsentOversize;
      ghost var accepted, safe := pcb.Accepts(ackno), Safe(AckCall(ackno));
      ValidNumbers(pcb);
      pcb.Ack(ackno);
      if accepted {
        AcceptedPos(order, una, written[done..], unacked, unsent, pcb.sndLbb, pcb.sndNxt, last, over, ackno);
        ghost var m := CarriesCount(order, una, written[done..], unacked, unsent, pcb.sndLbb, pcb.sndNxt, last, over,
                                    ackno);
        if safe {
          CarriesAck(order, una, written[done..], unacked, unsent, pcb.sndLbb, pcb.sndNxt, last, over,
                     ackno, m, pcb.unacked, pcb.unsent);
          CarriesLen(order, una, written[done..], unacked, unsent, pcb.sndLbb, pcb.sndNxt, last, over, m);
          CarriesLen(order[m..], una + Span(order[..m]), Payload(order[m..]), pcb.unacked, pcb.unsent, pcb.sndLbb,
                     pcb.sndNxt, ackno, pcb.unsentOversize, 0);
        } else {
          CarriesStale(order, una, written[done..], unacked, unsent, pcb.sndLbb, pcb.sndNxt, last, over,
                       ackno, m, pcb.unacked, pcb.unsent);
        }
        ghost var n := |Payload(order[..m])|;
        assert written[done..][n..] == written[done + n..] == Payload(order[m..]);
        assert DroppedFirst(order, una, ackno, m, order[m..], Span(order[..m]), n);
        done, una, order := done + n, una + Span(order[..m]), order[m..];
      }
    }

    method Resize(mss: nat, wndMax: nat)
      requires Inv() && 0 < mss <= 0xffff && pcb.optlen < SizeFor(mss, wndMax, pcb.optlen)
      modifies pcb
      ensures Inv() && old(pcb.sizeMax) <= pcb.sizeMax
      ensures pcb.Now() == old(pcb.Now()).(mssLocal := SizeFor(mss, wndMax, pcb.optlen))
    {
      hide Carries, Pcb.Valid, SizeFor;
      pcb.Resize(mss, wndMax);
    }

    /** One event that is safe. */
    method Step(e: Event) returns (err: Err)
      requires Inv() && Legal(e, pcb.optlen, pcb.sizeMax) && Safe(e) && !Ends(e)
      modifies this`written, this`done, this`order, this`una, this`flags, pcb
      ensures Inv() && old(done) <= done && old(pcb.sizeMax) <= pcb.sizeMax
      ensures Did(pcb.Settings(), e, old(pcb.Now()), err, pcb.Now())
      ensures written == old(written) + if e.WriteCall? && err == Ok then e.arg else []
    {
      hide Inv, SizeFor, DidWrite, DidSplit, DidFlags, DidOutput, DidRexmit, DidTimeout, DidAck, DroppedFirst, IsStream,
          Pcb.Valid;
      match e {
        case WriteCall(arg, argAddr, copy, more, alloc) => err := Write(arg, argAddr, copy, more, alloc);
        case SplitCall(size, alloc) => err := Split(size, alloc);
        case FlagsCall(opts, alloc) => err := EnqueueFlags(opts, alloc);
        case OutputCall(c, wnd, attempts) => err := Output(c, wnd, attempts);
        case RexmitCall(driverBusy) => err := Rexmit(driverBusy);
        case TimeoutCall(busy) => err := Timeout(busy);
        case AckCall(ackno) => Ack(ackno); err := Ok;
        case ResizeCall(mss, wndMax) => Resize(mss, wndMax); err := Ok;
      }
    }

    /** Any run of events: up to the first one that is not safe or at which an assertion fails, the
        queues carry exactly the accepted bytes that are not acknowledged yet.  Write and Ack say that
        they no longer do after an event that is not safe. */
    method Run(events: seq<Event>) returns (errs: seq<Err>, ghost states: seq<Snap>)
      requires Inv() && forall i | 0 <= i < |events| :: Legal(events[i], pcb.optlen, pcb.sizeMax)
      modifies this`written, this`done, this`order, this`una, this`flags, pcb
      ensures Inv() && old(done) <= done
      ensures History(pcb.Settings(), events, errs, states)
      ensures states[0] == old(pcb.Now()) && states[|errs|] == pcb.Now()
      ensures written == old(written) + Accepted(events, errs)
      ensures |errs| < |events| ==> !Safe(events[|errs|]) || Ends(events[|errs|])
    {
      hide Inv, Did, Safe, Ends, Pcb.Now, History;
      var n := 0;
      errs, states := [], [pcb.Now()];
      HistoryStart(pcb.Settings(), events, pcb.Now());
      while n < |events| && Safe(events[n]) && !Ends(events[n])
        invariant n == |errs| <= |events| && Inv() && old(done) <= done && old(pcb.sizeMax) <= pcb.sizeMax
        invariant History(pcb.Settings(), events, errs, states) && |states| == n + 1
        invariant states[0] == old(pcb.Now()) && states[n] == pcb.Now()
        invariant written == old(written) + Accepted(events, errs)
      {
        var err := Step(events[n]);
        HistoryStep(pcb.Settings(), events, errs, states, err, pcb.Now());
        assert (errs + [err])[..n] == errs;
        errs, states, n := errs + [err], states + [pcb.Now()], n + 1;
      }
    }
  }

  lemma WroteFacts(cfg: Config, arg: seq<Byte>, argAddr: nat, copy: bool, alloc: nat -> bool, a: Snap, err: Err,
                   b: Snap)
    requires DidWrite(cfg, arg, argAddr, copy, alloc, a, err, b)
    ensures err == Ok ==>
              && WrittenQueue(cfg.big, a.unsent, Extent(a.mssLocal, a.unsent, a.oversize, |arg|), arg, b.unsent,
                              a.sndLbb)
              && |arg| <= a.sndBuf && b.sndBuf == a.sndBuf - |arg| && b.sndLbb == Seq(a.sndLbb + |arg|)
    ensures err != Ok ==> b == a.(memErr := b.memErr)
    ensures b.unacked == a.unacked && b.sndNxt == a.sndNxt && b.lastack == a.lastack
  {
  }

  lemma EmptyOversize(pcb: Pcb)
    requires pcb.Valid()
    ensures pcb.unsent == [] ==> pcb.unsentOversize == 0
  {
  }

  lemma OutputFacts(c: Circumstances, wnd: nat, attempts: seq<Attempt>, a: Snap, err: Err, b: Snap)
    requires DidOutput(c, wnd, attempts, a, err, b) && (a.unsent == [] ==> a.oversize == 0)
    ensures Suffix(a.unsent, b.unsent) && b.oversize == if b.unsent == [] then 0 else a.oversize
    ensures b.sndLbb == a.sndLbb && b.lastack == a.lastack && b.sndBuf == a.sndBuf && b.mssLocal == a.mssLocal
  {
    hide InWindow, Filing, Sendable;
  }

  /** Segments at different places that are in order are strictly in order. */
  lemma StaysStrict(una: nat, unacked: seq<Seg>, unsent: seq<Seg>, unacked': seq<Seg>, unsent': seq<Seg>)
    requires Placed(una, multiset(unacked) + multiset(unsent)) && Rising(una, unacked')
    requires multiset(unacked') + multiset(unsent') == multiset(unacked) + multiset(unsent)
    ensures Sorted(una, unacked')
  {
    hide Placed, Rising, Sorted, Apart, Spread;
    var all := multiset(unacked) + multiset(unsent);
    PlacedSpread(una, all);
    PlacedApart(una, all, unacked');
    StrictIff(una, all, unacked');
  }

  // --- Order of the queues in every run ------------------------------------------------------

  /** No segment precedes an earlier one, as sequence numbers compare. */
  ghost predicate Ordered(q: seq<Seg>) {
    forall i, j | 0 <= i < j < |q| :: !SeqLt(q[j].seqno, q[i].seqno)
  }

  /** Each segment precedes all later ones. */
  ghost predicate Ascending(q: seq<Seg>) {
    forall i, j | 0 <= i < j < |q| :: SeqLt(q[i].seqno, q[j].seqno)
  }

  /** Of two different numbers one precedes the other. */
  lemma OneIsLess(a: nat, b: nat)
    requires a < U32 && b < U32
    ensures !SeqLt(a, a) && (a != b && !SeqLt(b, a) ==> SeqLt(a, b))
  {
  }

  /** An ordered queue is strictly so if and only if no two of its segments share a number. */
  lemma AscendingIff(q: seq<Seg>)
    requires Ordered(q) && forall i | 0 <= i < |q| :: q[i].seqno < U32
    ensures Ascending(q) <==> Apart(q)
  {
    hide SeqLt;
    forall i, j | 0 <= i < j < |q| ensures SeqLt(q[i].seqno, q[j].seqno) <==> q[i].seqno != q[j].seqno {
      OneIsLess(q[i].seqno, q[j].seqno);
    }
  }

  /** Within half the number space behind `w` lie `nxt` and all segments. */
  predicate NearFrom(w: nat, q: seq<Seg>, nxt: nat) {
    && Pos(w, nxt) < HALF
    && (forall i | 0 <= i < |q| :: q[i].seqno < U32 && Pos(w, q[i].seqno) + TcpLen(q[i]) < HALF)
  }

  predicate Near(q: seq<Seg>, nxt: nat) {
    exists w | 0 <= w < U32 :: NearFrom(w, q, nxt)
  }

  lemma NearSpread(w: nat, unacked: seq<Seg>, unsent: seq<Seg>, nxt: nat)
    requires NearFrom(w, unacked + unsent, nxt)
    ensures Spread(w, multiset(unacked) + multiset(unsent))
    ensures Within(w, multiset(unacked) + multiset(unsent), HALF - 1) && Pos(w, nxt) <= HALF - 1
  {
    hide Pos, TcpLen;
    var q := unacked + unsent;
    forall s: Seg | s in multiset(unacked) + multiset(unsent)
      ensures s.seqno < U32 && Pos(w, s.seqno) + TcpLen(s) < HALF
    {
      assert s in q;
      var i :| 0 <= i < |q| && q[i] == s;
    }
  }

  /** Seen from such a place, ordered is rising. */
  lemma OrderedIsRising(w: nat, all: multiset<Seg>, q: seq<Seg>)
    requires Spread(w, all) && multiset(q) <= all
    ensures Ordered(q) <==> Rising(w, q)
  {
    hide Pos, SeqLt, TcpLen;
    forall i, j | 0 <= i < j < |q|
      ensures !SeqLt(q[j].seqno, q[i].seqno) <==> Pos(w, q[i].seqno) <= Pos(w, q[j].seqno)
    {
      assert q[i] in multiset(q) && q[j] in multiset(q);
      SeqLtPos(w, q[j].seqno, q[i].seqno);
    }
  }

  /** Seen from such a place, ascending is sorted. */
  lemma AscendingIsSorted(w: nat, all: multiset<Seg>, q: seq<Seg>)
    requires Spread(w, all) && multiset(q) <= all
    ensures Ascending(q) <==> Sorted(w, q)
  {
    hide Pos, SeqLt, TcpLen;
    forall i, j | 0 <= i < j < |q|
      ensures SeqLt(q[i].seqno, q[j].seqno) <==> Pos(w, q[i].seqno) < Pos(w, q[j].seqno)
    {
      assert q[i] in multiset(q) && q[j] in multiset(q);
      SeqLtPos(w, q[i].seqno, q[j].seqno);
    }
  }

  lemma OrderedSuffix(q: seq<Seg>, rest: seq<Seg>)
    requires Ordered(q) && Suffix(q, rest)
    ensures Ordered(rest)
  {
  }

  /** tcp_output seen without a place to count from: the unacknowledged queue stays in order, and it
      is strictly so afterwards if and only if no two of the segments that end up in it share a
      number. */
  method OutputOrdered(pcb: Pcb, c: Circumstances, wnd: nat, attempts: seq<Attempt>) returns (err: Err)
    requires pcb.Valid() && Ordered(pcb.unacked) && Near(pcb.unacked + pcb.unsent, pcb.sndNxt)
    modifies pcb
    ensures pcb.Valid() && Ordered(pcb.unacked) && SeqLeq(old(pcb.sndNxt), pcb.sndNxt)
    ensures Suffix(old(pcb.unsent), pcb.unsent)
    ensures Ascending(pcb.unacked) <==>
            Apart(old(pcb.unacked) + old(pcb.unsent)[..|old(pcb.unsent)| - |pcb.unsent|])
    ensures old(pcb.sizeMax) == pcb.sizeMax && DidOutput(c, wnd, attempts, old(pcb.Now()), err, pcb.Now())
  {
    hide Pcb.Valid, Sorted, Rising, Spread, Within, Pos, Ordered, Ascending, SeqLeq, NearFrom, DidOutput, Covered,
        Apart, Suffix;
    ghost var w :| 0 <= w < U32 && NearFrom(w, pcb.unacked + pcb.unsent, pcb.sndNxt);
    NearSpread(w, pcb.unacked, pcb.unsent, pcb.sndNxt);
    ghost var all, a := pcb.Queued(), pcb.Now();
    OrderedIsRising(w, all, pcb.unacked);
    ValidNumbers(pcb);
    EmptyOversize(pcb);
    err := pcb.Output(c, wnd, attempts, w, HALF - 1);
    ValidNumbers(pcb);
    OutputFacts(c, wnd, attempts, a, err, pcb.Now());
    SeqLeqPos(w, old(pcb.sndNxt), pcb.sndNxt);
    assert multiset(pcb.unacked) <= all;
    OrderedIsRising(w, all, pcb.unacked);
    AscendingIsSorted(w, all, pcb.unacked);
  }

  /** tcp_output is the only event that needs the numbers to lie close together. */
  predicate Runs(pcb: Pcb, e: Event)
    reads pcb
  {
    match e
    case OutputCall(_, _, _) => Near(pcb.unacked + pcb.unsent, pcb.sndNxt)
    case WriteCall(arg, _, _, _, _) => !(pcb.writable && pcb.Passes(|arg|) && pcb.Aborts())
    case _ => true
  }

  lemma SameLeq(n: nat)
    ensures SeqLeq(n, n)
  {
  }

  lemma PoppedIsSuffix(q: seq<Seg>, rest: seq<Seg>, ackno: nat)
    requires Popped(q, rest, ackno)
    ensures Suffix(q, rest)
  {
  }

  /** Every event but tcp_output leaves a suffix of the unacknowledged queue, and snd_nxt alone. */
  lemma DidKeeps(cfg: Config, e: Event, a: Snap, err: Err, b: Snap)
    requires Did(cfg, e, a, err, b) && !e.OutputCall?
    ensures Suffix(a.unacked, b.unacked) && b.sndNxt == a.sndNxt
  {
    hide WrittenQueue, Extent, FitsQueue, Checked, TooLarge, SplitInto, TakesAck, Acknowledged, DataLen, Backed,
        GoesLast, Segments, Pbufs, SizeFor;
  }

  /** One event on a connection in any state. */
  method Step(pcb: Pcb, e: Event) returns (err: Err)
    requires pcb.Valid() && Ordered(pcb.unacked) && Legal(e, pcb.optlen, pcb.sizeMax) && Runs(pcb, e)
    modifies pcb
    ensures pcb.Valid() && Ordered(pcb.unacked) && SeqLeq(old(pcb.sndNxt), pcb.sndNxt)
    ensures old(pcb.sizeMax) <= pcb.sizeMax && Did(pcb.Settings(), e, old(pcb.Now()), err, pcb.Now())
  {
    hide Pcb.Valid, Ordered, Near, SeqLeq, SizeFor, DidWrite, DidSplit, DidFlags, DidOutput, DidRexmit, DidTimeout,
        DidAck, Suffix, Ascending, Apart, Placed, Spread, Sorted, Rising;
    ghost var a := pcb.Now();
    SameLeq(pcb.sndNxt);
    if e.OutputCall? {
      err := OutputOrdered(pcb, e.circumstances, e.wnd, e.attempts);
      return;
    }
    match e {
      case WriteCall(arg, argAddr, copy, more, alloc) => err := pcb.Write(arg, argAddr, copy, more, alloc);
      case SplitCall(size, alloc) => err := pcb.Split(size, alloc);
      case FlagsCall(opts, alloc) => err := pcb.EnqueueFlags(opts, alloc);
      case RexmitCall(driverBusy) => err := pcb.Rexmit(driverBusy, 0);
      case TimeoutCall(busy) => err := pcb.RexmitRtoPrepare(busy);
      case AckCall(ackno) => pcb.Ack(ackno); err := Ok;
      case ResizeCall(mss, wndMax) => pcb.Resize(mss, wndMax); err := Ok;
    }
    DidKeeps(pcb.Settings(), e, a, err, pcb.Now());
    OrderedSuffix(a.unacked, pcb.unacked);
  }

  /** In every state of a run. */
  ghost predicate InOrderThroughout(states: seq<Snap>) {
    && (forall i | 0 <= i < |states| ::
          Ordered(states[i].unacked) && (Ascending(states[i].unacked) <==> Apart(states[i].unacked)))
    && (forall i | 0 <= i < |states| - 1 :: SeqLeq(states[i].sndNxt, states[i + 1].sndNxt))
  }

  lemma ThroughoutStep(states: seq<Snap>, b: Snap)
    requires InOrderThroughout(states) && states != [] && SeqLeq(states[|states| - 1].sndNxt, b.sndNxt)
    requires Ordered(b.unacked) && (Ascending(b.unacked) <==> Apart(b.unacked))
    ensures InOrderThroughout(states + [b])
  {
    hide Ordered, Ascending, Apart, SeqLeq;
  }

  lemma ThroughoutStart(a: Snap)
    requires Ordered(a.unacked) && (Ascending(a.unacked) <==> Apart(a.unacked))
    ensures InOrderThroughout([a])
  {
    hide Ordered, Ascending, Apart;
  }

  lemma UnackedAscending(pcb: Pcb)
    requires pcb.Valid() && Ordered(pcb.unacked)
    ensures Ascending(pcb.unacked) <==> Apart(pcb.unacked)
  {
    hide Ordered, Ascending, Apart, SegOk;
    forall i | 0 <= i < |pcb.unacked| ensures pcb.unacked[i].seqno < U32 {
      AllOkAt(pcb.big, pcb.unacked, pcb.sizeMax, i);
    }
    AscendingIff(pcb.unacked);
  }

  /** Any run of events on a fresh or running connection, whether its unsent queue is in order or
      not: the unacknowledged queue stays in sequence order, strictly so in exactly the states in which
      no two of its segments share a number, and snd_nxt never moves back.  The run stops only at a
      tcp_output whose numbers do not lie within half the number space, and where an assertion of
      tcp_write fails. */
  method RunOrdered(pcb: Pcb, events: seq<Event>) returns (errs: seq<Err>, ghost states: seq<Snap>)
    requires pcb.Valid() && Ordered(pcb.unacked)
    requires forall i | 0 <= i < |events| :: Legal(events[i], pcb.optlen, pcb.sizeMax)
    modifies pcb
    ensures pcb.Valid() && History(pcb.Settings(), events, errs, states)
    ensures states[0] == old(pcb.Now()) && states[|errs|] == pcb.Now()
    ensures InOrderThroughout(states)
    ensures |errs| < |events| ==> !Runs(pcb, events[|errs|])
  {
    hide Pcb.Valid, Ordered, Ascending, Apart, SeqLeq, Runs, Did, History, InOrderThroughout;
    var n := 0;
    errs, states := [], [pcb.Now()];
    HistoryStart(pcb.Settings(), events, pcb.Now());
    UnackedAscending(pcb);
    ThroughoutStart(pcb.Now());
    while n < |events| && Runs(pcb, events[n])
      invariant n == |errs| <= |events| && |states| == n + 1 && pcb.Valid() && Ordered(pcb.unacked)
      invariant old(pcb.sizeMax) <= pcb.sizeMax
      invariant History(pcb.Settings(), events, errs, states) && InOrderThroughout(states)
      invariant states[0] == old(pcb.Now()) && states[n] == pcb.Now()
    {
      var err := Step(pcb, events[n]);
      UnackedAscending(pcb);
      HistoryStep(pcb.Settings(), events, errs, states, err, pcb.Now());
      ThroughoutStep(states, pcb.Now());
      errs, states, n := errs + [err], states + [pcb.Now()], n + 1;
    }
  }

  lemma ValidNumbers(pcb: Pcb)
    requires pcb.Valid()
    ensures pcb.sndNxt < U32 && pcb.lastack < U32
  {
  }

  lemma CarriesNothing(iss: nat)
    requires iss < U32
    ensures Carries([], iss, [], [], [], iss, iss, iss, 0) && Span([]) == 0
  {
  }

  lemma CarriesFlags(order: seq<Seg>, una: nat, stream: seq<Byte>, unacked: seq<Seg>, before: seq<Seg>,
                     lbb: nat, sndNxt: nat, lastack: nat, oversize: nat, seg: Seg)
    requires Carries(order, una, stream, unacked, before, lbb, sndNxt, lastack, oversize)
    requires seg.seqno == lbb && TcpLen(seg) == 1 && Flat(seg.bufs) == [] && seg.len == 0 && Span(order) + 1 < HALF
    ensures Carries(order + [seg], una, stream, unacked, before + [seg], Seq(lbb + 1), sndNxt, lastack, 0)
    ensures Span(order + [seg]) == Span(order) + 1
  {
    hide Streamed, Sorted, Pos, Span, Seq, TcpLen, Flat;
    FlagsStreamed(order, una, stream, unacked, before, lbb, seg);
  }

  /** What sending and retransmitting rely on. */
  lemma CarriesReady(order: seq<Seg>, una: nat, stream: seq<Byte>, unacked: seq<Seg>, unsent: seq<Seg>,
                     lbb: nat, sndNxt: nat, lastack: nat, oversize: nat)
    requires Carries(order, una, stream, unacked, unsent, lbb, sndNxt, lastack, oversize)
    ensures Placed(una, multiset(unacked) + multiset(unsent)) && Sorted(una, unacked)
    ensures Spread(una, multiset(unacked) + multiset(unsent)) && Rising(una, unacked)
    ensures Within(una, multiset(unacked) + multiset(unsent), Span(order)) && Pos(una, sndNxt) <= Span(order) < HALF
  {
    hide Sorted, Rising, Apart, Spread, Pos, Contiguous, Payload, Proper, Placed, Within, Seq;
    StreamedPlaced(order, una, stream, multiset(unacked) + multiset(unsent), lbb);
    PlacedSpread(una, multiset(unacked) + multiset(unsent));
    StrictIff(una, multiset(unacked) + multiset(unsent), unacked);
    WithinOrder(order, una, stream, multiset(unacked) + multiset(unsent), lbb);
  }

  lemma CarriesOutput(order: seq<Seg>, una: nat, stream: seq<Byte>, unacked: seq<Seg>, unsent: seq<Seg>,
                      lbb: nat, sndNxt: nat, lastack: nat, oversize: nat,
                      unacked': seq<Seg>, unsent': seq<Seg>, sndNxt': nat, oversize': nat)
    requires Carries(order, una, stream, unacked, unsent, lbb, sndNxt, lastack, oversize)
    requires multiset(unacked') + multiset(unsent') == multiset(unacked) + multiset(unsent) && Sorted(una, unacked')
    requires Pos(una, sndNxt) <= Pos(una, sndNxt') <= Span(order)
    requires Suffix(unsent, unsent')
    requires oversize' == if unsent' == [] then 0 else oversize
    ensures Carries(order, una, stream, unacked', unsent', lbb, sndNxt', lastack, oversize')
  {
    hide Streamed, Sorted, Pos, Span, Seq, TcpLen, TailIsLast;
    if unsent' != [] && oversize > 0 {
      TailSuffix(unsent, unsent', lbb);
    }
  }

  lemma CarriesRexmit(order: seq<Seg>, una: nat, stream: seq<Byte>, unacked: seq<Seg>, unsent: seq<Seg>,
                      lbb: nat, sndNxt: nat, lastack: nat, oversize: nat,
                      unacked': seq<Seg>, unsent': seq<Seg>, oversize': nat)
    requires Carries(order, una, stream, unacked, unsent, lbb, sndNxt, lastack, oversize)
    requires multiset(unacked') + multiset(unsent') == multiset(unacked) + multiset(unsent)
    requires unacked != [] && unacked' == unacked[1..]
    requires oversize' > 0 ==>
               && oversize' == oversize && unsent' != [] && unsent != []
               && unsent'[|unsent'| - 1] == unsent[|unsent| - 1]
    ensures Carries(order, una, stream, unacked', unsent', lbb, sndNxt, lastack, oversize')
  {
    hide Streamed, Sorted, Pos, Span, Seq, TcpLen;
    SortedSuffix(una, unacked, 1);
  }

  lemma CarriesTimeout(order: seq<Seg>, una: nat, stream: seq<Byte>, unacked: seq<Seg>, unsent: seq<Seg>,
                       lbb: nat, sndNxt: nat, lastack: nat, oversize: nat)
    requires Carries(order, una, stream, unacked, unsent, lbb, sndNxt, lastack, oversize)
    ensures Carries(order, una, stream, [], unacked + unsent, lbb, sndNxt, lastack, oversize)
  {
  }

  lemma AcceptedPos(order: seq<Seg>, una: nat, stream: seq<Byte>, unacked: seq<Seg>, unsent: seq<Seg>,
                    lbb: nat, sndNxt: nat, lastack: nat, oversize: nat, ackno: nat)
    requires Carries(order, una, stream, unacked, unsent, lbb, sndNxt, lastack, oversize)
    requires sndNxt < U32 && lastack < U32 && ackno < U32 && TakesAck(lastack, sndNxt, ackno)
    ensures Pos(una, ackno) <= Pos(una, sndNxt)
  {
    hide Streamed, Sorted, TakesAck, Pos, Span;
    StreamedEnd(order, una, stream, multiset(unacked) + multiset(unsent), lbb);
    PosChain(una, lastack, sndNxt);
    AcceptsExactly(lastack, sndNxt, ackno);
    PosChain(una, lastack, ackno);
  }

  /** Distances add up. */
  lemma PosChain(una: nat, a: nat, b: nat)
    requires a < U32 && b < U32
    ensures Pos(una, a) <= Pos(una, b) ==> Pos(a, b) == Pos(una, b) - Pos(una, a)
    ensures Pos(una, a) + Pos(a, b) < U32 ==> Pos(una, b) == Pos(una, a) + Pos(a, b)
  {
  }

  lemma WrittenFacts(pcb: Pcb, before: seq<Seg>, ext: int, arg: seq<Byte>, lbb: nat)
    requires pcb.Valid() && WrittenQueue(pcb.big, before, ext, arg, pcb.unsent, lbb)
    ensures AllOk(pcb.big, pcb.unsent, pcb.sizeMax) && 0 <= ext
  {
  }
}