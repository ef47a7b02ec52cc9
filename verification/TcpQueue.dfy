/** The send queues of a TCP connection (src/core/tcp_out.c): tcp_write, tcp_split_unsent_seg,
    tcp_enqueue_flags, tcp_output, tcp_rexmit and tcp_rexmit_rto_prepare. */
module TcpQueue {
  import opened Bytes
  import opened Checksum
  import opened ChainChecksum
  import opened TcpSegment

  /** `Abort` stands for an assertion of the source that fails. */
  datatype Err = Ok | Conn | Mem | Val | Rte | NoBuf | Abort

  function Min(a: int, b: int): int { if a <= b then a else b }

  // TCP_SNDQUEUELEN_OVERFLOW
  const QUEUELEN_OVERFLOW := 0xffff - 3

  /** Data added behind the last byte of the last buffer. */
  function AppendTail(bufs: seq<Buf>, t: seq<Byte>): seq<Buf>
    requires bufs != []
  {
    var last := bufs[|bufs| - 1];
    bufs[..|bufs| - 1] + [last.(payload := last.payload + t)]
  }

  lemma FlatOne(b: Buf)
    ensures Flat([b]) == b.payload
  {
  }

  lemma AppendTailFlat(bufs: seq<Buf>, t: seq<Byte>)
    requires bufs != []
    ensures Flat(AppendTail(bufs, t)) == Flat(bufs) + t && |AppendTail(bufs, t)| == |bufs|
  {
    var n := |bufs| - 1;
    var grown := bufs[n].(payload := bufs[n].payload + t);
    assert bufs == bufs[..n] + [bufs[n]];
    FlatAppend(bufs[..n], [bufs[n]]);
    FlatAppend(bufs[..n], [grown]);
    FlatOne(bufs[n]);
    FlatOne(grown);
  }

  /** What tcp_write intends to add to the last unsent segment: `used` bytes go into its
      preallocated tail, the bytes up to `pos` into the buffer `concat` or, if that is empty,
      into the referenced memory behind its last buffer. */
  datatype Plan = Plan(used: nat, pos: nat, concat: seq<Buf>, chksum: nat, swapped: bool)

  /** Phase 1 of the commit: bytes are copied into the preallocated tail. */
  function Filled(big: bool, s: Seg, t: seq<Byte>): Seg
    requires s.bufs != []
  {
    if t == [] then s else
      var c := SegAddChksum(RfcSum(big, t), |t|, s.chksum, s.swapped);
      s.(bufs := AppendTail(s.bufs, t), len := s.len + |t|, chksum := c.0, swapped := c.1)
  }

  /** Phase 2 of the commit: a buffer is appended, or the last reference is extended. */
  function Joined(s: Seg, concat: seq<Buf>, t: seq<Byte>, chksum: nat, swapped: bool): Seg
    requires s.bufs != []
  {
    if t == [] then s else
      var c := SegAddChksum(if swapped then Swap(chksum) else chksum, |t|, s.chksum, s.swapped);
      s.(bufs := if concat != [] then s.bufs + concat else AppendTail(s.bufs, t),
         len := s.len + |t|, chksum := c.0, swapped := c.1)
  }

  /** The extended segment, as the commit part of tcp_write leaves it. */
  function Extended(big: bool, last: Seg, plan: Plan, arg: seq<Byte>): Seg
    requires last.bufs != [] && plan.used <= plan.pos <= |arg|
  {
    Joined(Filled(big, last, arg[..plan.used]), plan.concat, arg[plan.used..plan.pos], plan.chksum, plan.swapped)
  }

  /** `s` is `last` with the bytes `t` behind its own. */
  ghost predicate Grown(big: bool, last: Seg, t: seq<Byte>, s: Seg) {
    && SegOk(big, s) && s.seqno == last.seqno && s.ctl == last.ctl && s.optlen == last.optlen
    && Flat(s.bufs) == Flat(last.bufs) + t && s.len == last.len + |t|
  }

  lemma FilledGrown(big: bool, s: Seg, t: seq<Byte>)
    requires SegOk(big, s) && s.len + |t| <= 0xffff && (s.ctl ==> t == [])
    ensures Grown(big, s, t, Filled(big, s, t)) && |Filled(big, s, t).bufs| == |s.bufs|
  {
    hide Running, RfcSum, Fold, Swap, SegAddChksum, Flat;
    AppendTailFlat(s.bufs, t);
    SegAddSummed(big, s.chksum, s.swapped, Flat(s.bufs), t);
    assert Flat(s.bufs) + [] == Flat(s.bufs);
  }

  lemma JoinedGrown(big: bool, s: Seg, concat: seq<Buf>, t: seq<Byte>, chksum: nat, swapped: bool)
    requires SegOk(big, s) && s.len + |t| <= 0xffff && (s.ctl ==> t == [])
    requires Summed(big, chksum, swapped, t) && (concat != [] ==> Flat(concat) == t)
    ensures var r := Joined(s, concat, t, chksum, swapped);
            Grown(big, s, t, r) && (t != [] ==> |r.bufs| == |s.bufs| + |concat|)
  {
    hide Running, RfcSum, Fold, Swap, SegAddChksum, Flat;
    AppendTailFlat(s.bufs, t);
    FlatAppend(s.bufs, concat);
    ConcatSummed(big, s, t, chksum, swapped);
    assert Flat(s.bufs) + [] == Flat(s.bufs);
  }

  ghost predicate PlanOk(big: bool, plan: Plan, arg: seq<Byte>) {
    && plan.used <= plan.pos <= |arg|
    && |plan.concat| <= 1 && (plan.concat != [] ==>
        plan.pos > plan.used && Flat(plan.concat) == arg[plan.used..plan.pos])
    && Summed(big, plan.chksum, plan.swapped, arg[plan.used..plan.pos])
  }

  /** The extended segment is sound, stays where it was and has exactly the planned bytes more. */
  lemma ExtendedGrown(big: bool, last: Seg, plan: Plan, arg: seq<Byte>)
    requires SegOk(big, last) && PlanOk(big, plan, arg) && last.len + plan.pos <= 0xffff
    requires last.ctl ==> plan.pos == 0
    ensures var s := Extended(big, last, plan, arg);
            Grown(big, last, arg[..plan.pos], s) && |s.bufs| == |last.bufs| + |plan.concat|
  {
    hide Running, Flat, Filled, Joined;
    var a, b := arg[..plan.used], arg[plan.used..plan.pos];
    assert arg[..plan.pos] == a + b;
    FilledGrown(big, last, a);
    JoinedGrown(big, Filled(big, last, a), plan.concat, b, plan.chksum, plan.swapped);
    JoinNothing(Filled(big, last, a), plan.concat, plan.chksum, plan.swapped);
  }

  lemma JoinNothing(s: Seg, concat: seq<Buf>, chksum: nat, swapped: bool)
    requires s.bufs != []
    ensures Joined(s, concat, [], chksum, swapped) == s
  {
  }

  ghost predicate AllOk(big: bool, q: seq<Seg>, mss: nat) {
    forall i | 0 <= i < |q| :: SegOk(big, q[i]) && q[i].len + q[i].optlen <= mss
  }

  /** The preallocated tail belongs to a buffer of our own, and filling it keeps the segment
      within the maximum segment size. */
  ghost predicate OversizeFits(last: Seg, room: nat, mss: nat) {
    && last.bufs != [] && !last.bufs[|last.bufs| - 1].rom && last.len > 0 && !last.ctl
    && last.len + last.optlen + room <= mss
  }

  lemma PlanFill(big: bool, arg: seq<Byte>, used: nat)
    requires used <= |arg|
    ensures PlanOk(big, Plan(used, used, [], 0, false), arg)
  {
  }

  /** The sum of the appended bytes starts from nothing. */
  lemma PlanJoined(big: bool, arg: seq<Byte>, used: nat, pos: nat, concat: seq<Buf>, c: (nat, bool))
    requires used < pos <= |arg| && |concat| <= 1
    requires c == SegAddChksum(RfcSum(big, arg[used..pos]), pos - used, 0, false)
    requires concat != [] ==> concat[0].payload == arg[used..pos]
    ensures PlanOk(big, Plan(used, pos, concat, c.0, c.1), arg)
  {
    hide Running, RfcSum, SegAddChksum;
    SummedEmpty(big);
    SegAddSummed(big, 0, false, [], arg[used..pos]);
    assert [] + arg[used..pos] == arg[used..pos];
    if concat != [] {
      assert concat == [concat[0]];
      FlatOne(concat[0]);
    }
  }

  lemma FillLeavesRoom(big: bool, last: Seg, used: nat, arg: seq<Byte>, room: nat, mss: nat)
    requires OversizeFits(last, room, mss) && used <= room && used <= |arg|
    ensures OversizeFits(Extended(big, last, Plan(used, used, [], 0, false), arg), room - used, mss)
  {
  }

  lemma CopyLeavesRoom(big: bool, last: Seg, plan: Plan, arg: seq<Byte>, room: nat, mss: nat)
    requires PlanOk(big, plan, arg) && SegOk(big, last) && last.len > 0
    requires plan.concat != [] && !plan.concat[0].rom && last.len + last.optlen + plan.pos + room <= mss <= 0xffff
    ensures OversizeFits(Extended(big, last, plan, arg), room, mss)
  {
  }

  lemma SegBasics(big: bool, s: Seg)
    requires SegOk(big, s)
    ensures s.bufs != [] && s.len == |Flat(s.bufs)| && TcpLen(s) > 0 && s.seqno < U32 && (s.ctl ==> s.len == 0)
  {
  }

  lemma QueueEmpty(start: nat)
    ensures Contiguous([], start) && Payload([]) == [] && Span([]) == 0 && Pbufs([]) == 0
  {
  }

  lemma QueueSnoc(q: seq<Seg>, s: Seg, start: nat)
    ensures Contiguous(q + [s], start) <==> Contiguous(q, start) && s.seqno == Seq(start + Span(q))
    ensures Payload(q + [s]) == Payload(q) + Flat(s.bufs)
    ensures Span(q + [s]) == Span(q) + TcpLen(s) && Pbufs(q + [s]) == Pbufs(q) + |s.bufs|
  {
    ContiguousAppend(q, [s], start);
    SpanAppend(q, [s]);
    assert [s][1..] == [];
    assert Payload([s]) == Flat(s.bufs) + Payload([]);
  }

  /** The unsent queue `after` is `before` with the bytes `arg` written: the first `ext` of them
      into its last segment, the others into new segments that start behind them. */
  ghost predicate WrittenQueue(big: bool, before: seq<Seg>, ext: int, arg: seq<Byte>, after: seq<Seg>, lbb: nat) {
    && 0 <= ext <= |arg| && |before| <= |after|
    && (if ext == 0 then after[..|before|] == before
        else
          && before != []
          && after[..|before| - 1] == before[..|before| - 1]
          && Grown(big, before[|before| - 1], arg[..ext], after[|before| - 1]))
    && var queue := after[|before|..];
       && Contiguous(queue, lbb + ext) && Payload(queue) == arg[ext..] && Span(queue) == |arg| - ext
  }

  lemma OversizeData(last: Seg, room: nat, mss: nat)
    requires OversizeFits(last, room, mss)
    ensures last.len > 0 && !last.ctl
  {
  }

  lemma PlanBounds(big: bool, plan: Plan, arg: seq<Byte>)
    requires PlanOk(big, plan, arg)
    ensures plan.used <= plan.pos <= |arg| && |plan.concat| <= 1 && (plan.concat != [] ==> plan.used < plan.pos)
  {
  }

  lemma {:induction false} AllOkAppend(big: bool, a: seq<Seg>, b: seq<Seg>, mss: nat)
    requires AllOk(big, a, mss) && AllOk(big, b, mss)
    ensures AllOk(big, a + b, mss)
  {
  }

  /** The commit part of tcp_write on a queue that is not empty. */
  lemma WriteExtends(big: bool, before: seq<Seg>, plan: Plan, arg: seq<Byte>, queue: seq<Seg>, mss: nat, lbb: nat)
    requires before != [] && AllOk(big, before, mss) && AllOk(big, queue, mss) && mss <= 0xffff
    requires PlanOk(big, plan, arg)
    requires var last := before[|before| - 1];
             last.len + last.optlen + plan.pos <= mss && (last.ctl ==> plan.pos == 0)
    requires Contiguous(queue, lbb + plan.pos) && Payload(queue) == arg[plan.pos..] && Span(queue) == |arg| - plan.pos
    ensures var n := |before| - 1;
            var after := before[..n] + [Extended(big, before[n], plan, arg)] + queue;
            && AllOk(big, after, mss) && WrittenQueue(big, before, plan.pos, arg, after, lbb)
            && Pbufs(after) == Pbufs(before) + |plan.concat| + Pbufs(queue)
            && (arg == [] && queue == [] ==> after == before)
  {
    hide SegOk, Flat, Contiguous, Payload, Span, Extended, AllOk, PlanOk, Grown;
    var n := |before| - 1;
    AllOkAt(big, before, mss, n);
    PlanBounds(big, plan, arg);
    var last, s := before[n], Extended(big, before[n], plan, arg);
    ExtendedGrown(big, last, plan, arg);
    GrownSeg(big, last, arg[..plan.pos], s);
    assert before == before[..n] + [last];
    SpanAppend(before[..n], [last]);
    SpanAppend(before[..n], [s]);
    SpanAppend(before[..n] + [s], queue);
    assert Pbufs([last]) == |last.bufs| && Pbufs([s]) == |s.bufs|;
    ReplaceLastOk(big, before, s, queue, mss);
    var after := before[..n] + [s] + queue;
    assert after[|before|..] == queue && after[n] == s && after[..n] == before[..n];
    if plan.pos == 0 {
      ExtendedByNothing(big, last, plan, arg);
      assert after[..|before|] == before;
      assert queue == [] ==> after == after[..|before|];
    }
  }

  lemma ReplaceLastOk(big: bool, before: seq<Seg>, s: Seg, queue: seq<Seg>, mss: nat)
    requires before != [] && AllOk(big, before, mss) && AllOk(big, queue, mss)
    requires SegOk(big, s) && s.len + s.optlen <= mss
    ensures AllOk(big, before[..|before| - 1] + [s] + queue, mss)
  {
  }

  lemma GrownSeg(big: bool, last: Seg, t: seq<Byte>, s: Seg)
    requires Grown(big, last, t, s)
    ensures SegOk(big, s) && s.len == last.len + |t| && s.optlen == last.optlen
    ensures s.ctl == last.ctl && s.seqno == last.seqno
    ensures Flat(s.bufs) == Flat(last.bufs) + t
  {
  }

  lemma ExtendedByNothing(big: bool, last: Seg, plan: Plan, arg: seq<Byte>)
    requires last.bufs != [] && plan.used == 0 && plan.pos == 0
    ensures Extended(big, last, plan, arg) == last
  {
  }

  lemma WriteFirst(big: bool, queue: seq<Seg>, arg: seq<Byte>, lbb: nat)
    requires Contiguous(queue, lbb) && Payload(queue) == arg && Span(queue) == |arg|
    ensures WrittenQueue(big, [], 0, arg, queue, lbb)
  {
  }

  lemma AllOkAt(big: bool, q: seq<Seg>, mss: nat, i: nat)
    requires AllOk(big, q, mss) && i < |q|
    ensures SegOk(big, q[i]) && q[i].len + q[i].optlen <= mss
    ensures q[i].bufs != [] && TcpLen(q[i]) > 0 && q[i].seqno < U32 && (q[i].ctl ==> q[i].len == 0)
  {
  }

  function Payloads(bufs: seq<Buf>): seq<seq<Byte>> {
    seq(|bufs|, i requires 0 <= i < |bufs| => bufs[i].payload)
  }

  lemma {:induction false} PayloadsFlat(bufs: seq<Buf>)
    ensures Concat(Payloads(bufs)) == Flat(bufs)
  {
    if bufs != [] {
      assert Payloads(bufs)[1..] == Payloads(bufs[1..]);
      PayloadsFlat(bufs[1..]);
    }
  }

  /** pbuf_realloc: the chain cut down to `n` bytes. */
  function Truncate(bufs: seq<Buf>, n: nat): (r: seq<Buf>)
    requires bufs != [] && n <= |Flat(bufs)|
  {
    PayloadsFlat(bufs);
    var parts := Shortened(Payloads(bufs), n);
    seq(|parts|, i requires 0 <= i < |parts| => bufs[i].(payload := parts[i]))
  }

  lemma TruncateFlat(bufs: seq<Buf>, n: nat)
    requires bufs != [] && n <= |Flat(bufs)|
    ensures Flat(Truncate(bufs, n)) == Flat(bufs)[..n] && 0 < |Truncate(bufs, n)| <= |bufs|
  {
    hide Shortened;
    PayloadsFlat(bufs);
    PayloadsFlat(Truncate(bufs, n));
    ShortenedConcat(Payloads(bufs), n);
    assert Payloads(Truncate(bufs, n)) == Shortened(Payloads(bufs), n);
  }

  /** The checksum of the part that stays, summed afresh buffer by buffer. */
  method Resum(big: bool, bufs: seq<Buf>) returns (c: (nat, bool))
    requires |Flat(bufs)| <= 0xffff
    ensures Summed(big, c.0, c.1, Flat(bufs))
  {
    hide SegAddChksum, RfcSum, Running, Flat;
    c := (0, false);
    SummedEmpty(big);
    FlatBounds(bufs);
    FlatLengths(bufs);
    for i := 0 to |bufs|
      invariant Summed(big, c.0, c.1, Flat(bufs[..i]))
    {
      var sum := Chksum2(big, bufs[i].addr, bufs[i].payload);
      FlatTake(bufs, i);
      SegAddSummed(big, c.0, c.1, Flat(bufs[..i]), bufs[i].payload);
      c := SegAddChksum(sum, |bufs[i].payload|, c.0, c.1);
    }
  }

  /** The segment `s` cut at `n` into `a` and `b`. */
  ghost predicate SplitInto(big: bool, s: Seg, n: nat, a: Seg, b: Seg) {
    && 0 < n < s.len == |Flat(s.bufs)| && !s.ctl
    && SegOk(big, a) && a.seqno == s.seqno && !a.ctl && a.len == n && Flat(a.bufs) == Flat(s.bufs)[..n]
    && SegOk(big, b) && b.seqno == Seq(s.seqno + n) && !b.ctl && b.len == s.len - n && Flat(b.bufs) == Flat(s.bufs)[n..]
    && a.optlen == b.optlen == s.optlen
  }

  lemma SplitSound(big: bool, s: Seg, n: nat, a: Seg, b: Seg, c: (nat, bool))
    requires SegOk(big, s) && 0 < n < s.len
    requires a == s.(bufs := a.bufs, len := n, chksum := a.chksum, swapped := a.swapped) && a.bufs != []
    requires Flat(a.bufs) == Flat(s.bufs)[..n] && Summed(big, a.chksum, a.swapped, Flat(a.bufs))
    requires c == SegAddChksum(RfcSum(big, Flat(s.bufs)[n..]), s.len - n, 0, false)
    requires b == Seg(Seq(s.seqno + n), [Buf(false, 0, Flat(s.bufs)[n..])], s.len - n, s.optlen, false, c.0, c.1)
    ensures SplitInto(big, s, n, a, b)
  {
    hide SegAddChksum, RfcSum, Running;
    var data := Flat(s.bufs)[n..];
    SummedEmpty(big);
    SegAddSummed(big, 0, false, [], data);
    assert [] + data == data;
    FlatOne(b.bufs[0]);
  }

  lemma PbufsHead(q: seq<Seg>)
    requires q != []
    ensures Pbufs(q) == |q[0].bufs| + Pbufs(q[1..])
  {
  }

  lemma SplitQueue(big: bool, q: seq<Seg>, a: Seg, b: Seg, mss: nat)
    requires q != [] && AllOk(big, q, mss) && exists n :: SplitInto(big, q[0], n, a, b)
    ensures AllOk(big, [a, b] + q[1..], mss)
    ensures Pbufs([a, b] + q[1..]) == Pbufs(q) - |q[0].bufs| + |a.bufs| + |b.bufs|
  {
    hide SegOk;
    assert ([a, b] + q[1..])[1..] == [b] + q[1..];
    assert ([b] + q[1..])[1..] == q[1..];
  }

  /** The two parts of a segment: the first keeps its buffers, shortened, and is summed again; the
      second is a copy of the rest. */
  method SplitSegment(big: bool, useg: Seg, split: nat) returns (head: Seg, seg: Seg)
    requires SegOk(big, useg) && 0 < split < useg.len
    ensures SplitInto(big, useg, split, head, seg) && |seg.bufs| == 1
  {
    hide SegAddChksum, RfcSum, Running, Truncate;
    TruncateFlat(useg.bufs, split);
    var data := Flat(useg.bufs)[split..];
    var sum := Chksum2(big, 0, data);
    var c := SegAddChksum(sum, |data|, 0, false);
    seg := Seg(Seq(useg.seqno + split), [Buf(false, 0, data)], |data|, useg.optlen, false, c.0, c.1);
    var bufs := Truncate(useg.bufs, split);
    var d := Resum(big, bufs);
    head := useg.(bufs := bufs, len := split, chksum := d.0, swapped := d.1);
    SplitSound(big, useg, split, head, seg, c);
  }

  lemma OneOk(big: bool, s: Seg, mss: nat)
    requires SegOk(big, s) && s.len + s.optlen <= mss
    ensures AllOk(big, [s], mss)
  {
  }

  // --- Order of the queues -------------------------------------------------------------------

  /** What happens to the next segment that tcp_output looks at. */
  datatype Attempt = Send | HoldBack | Fail

  const HALF := 0x8000_0000

  /** The distance of a sequence number from the position `una`. */
  function Pos(una: nat, seqno: nat): (p: nat)
    ensures p < U32
  {
    (seqno - una) % U32
  }

  /** All segments lie within half the number space. */
  ghost predicate Spread(una: nat, all: multiset<Seg>) {
    forall s | s in all :: s.seqno < U32 && Pos(una, s.seqno) + TcpLen(s) < HALF
  }

  /** All segments lie within half the number space and at different places. */
  ghost predicate Placed(una: nat, all: multiset<Seg>) {
    && (forall s | s in all :: all[s] == 1 && s.seqno < U32 && Pos(una, s.seqno) + TcpLen(s) < HALF)
    && (forall s, t | s in all && t in all :: Pos(una, s.seqno) == Pos(una, t.seqno) ==> s == t)
  }

  /** All segments end at or before the distance `bound`. */
  ghost predicate Within(una: nat, all: multiset<Seg>, bound: nat) {
    forall s | s in all :: Pos(una, s.seqno) + TcpLen(s) <= bound
  }

  ghost predicate Sorted(una: nat, q: seq<Seg>) {
    forall i, j | 0 <= i < j < |q| :: Pos(una, q[i].seqno) < Pos(una, q[j].seqno)
  }

  /** In order, with equal numbers side by side. */
  ghost predicate Rising(una: nat, q: seq<Seg>) {
    forall i, j | 0 <= i < j < |q| :: Pos(una, q[i].seqno) <= Pos(una, q[j].seqno)
  }

  /** No two segments share a number. */
  predicate Apart(q: seq<Seg>) {
    forall i, j | 0 <= i < j < |q| :: q[i].seqno != q[j].seqno
  }

  lemma PosAdd(una: nat, seqno: nat, n: nat)
    requires seqno < U32 && Pos(una, seqno) + n < U32
    ensures Pos(una, Seq(seqno + n)) == Pos(una, seqno) + n
  {
  }

  /** Comparing sequence numbers compares distances. */
  lemma SeqLtPos(una: nat, a: nat, b: nat)
    requires a < U32 && b < U32 && Pos(una, a) < HALF && Pos(una, b) < HALF
    ensures SeqLt(a, b) <==> Pos(una, a) < Pos(una, b)
    ensures Pos(una, a) == Pos(una, b) <==> a == b
  {
  }

  lemma SpreadAt(una: nat, all: multiset<Seg>, s: Seg)
    requires Spread(una, all) && s in all
    ensures s.seqno < U32 && Pos(una, s.seqno) + TcpLen(s) < HALF
    ensures Pos(una, Seq(s.seqno + TcpLen(s))) == Pos(una, s.seqno) + TcpLen(s)
  {
    PosAdd(una, s.seqno, TcpLen(s));
  }

  lemma PlacedAt(una: nat, all: multiset<Seg>, s: Seg)
    requires Placed(una, all) && s in all
    ensures s.seqno < U32 && Pos(una, s.seqno) + TcpLen(s) < HALF
    ensures Pos(una, Seq(s.seqno + TcpLen(s))) == Pos(una, s.seqno) + TcpLen(s)
  {
    PosAdd(una, s.seqno, TcpLen(s));
  }

  lemma PlacedSpread(una: nat, all: multiset<Seg>)
    requires Placed(una, all)
    ensures Spread(una, all)
  {
  }

  /** Segments at different places do not share a number. */
  lemma PlacedApart(una: nat, all: multiset<Seg>, q: seq<Seg>)
    requires Placed(una, all) && multiset(q) <= all
    ensures Apart(q)
  {
    hide Pos, TcpLen;
    forall i, j | 0 <= i < j < |q| ensures q[i].seqno != q[j].seqno {
      assert q[i] in multiset(q) && q[j] in multiset(q);
      if q[i] == q[j] {
        Twice(q, i, j);
      }
    }
  }

  lemma Twice(q: seq<Seg>, i: nat, j: nat)
    requires i < j < |q| && q[i] == q[j]
    ensures multiset(q)[q[i]] >= 2
  {
    assert q == q[..j] + [q[j]] + q[j + 1..];
    assert q[i] == q[..j][i] && q[i] in multiset(q[..j]);
  }

  /** Strictly in order is in order and without shared numbers. */
  lemma StrictIff(una: nat, all: multiset<Seg>, q: seq<Seg>)
    requires Spread(una, all) && multiset(q) <= all
    ensures Sorted(una, q) <==> Rising(una, q) && Apart(q)
  {
    hide Pos, TcpLen;
    forall i, j | 0 <= i < j < |q| ensures Pos(una, q[i].seqno) == Pos(una, q[j].seqno) <==> q[i].seqno == q[j].seqno {
      assert q[i] in multiset(q) && q[j] in multiset(q);
      SeqLtPos(una, q[i].seqno, q[j].seqno);
    }
  }

  lemma WithinAt(una: nat, all: multiset<Seg>, bound: nat, s: Seg)
    requires Within(una, all, bound) && s in all
    ensures Pos(una, s.seqno) + TcpLen(s) <= bound
  {
  }

  lemma AllOkTail(big: bool, q: seq<Seg>, mss: nat)
    requires AllOk(big, q, mss) && q != []
    ensures AllOk(big, q[1..], mss) && AllOk(big, [q[0]], mss)
    ensures Pbufs(q) == Pbufs([q[0]]) + Pbufs(q[1..])
  {
  }

  lemma AllOkSplit(big: bool, q: seq<Seg>, k: nat, mss: nat)
    requires AllOk(big, q, mss) && k <= |q|
    ensures AllOk(big, q[..k], mss) && AllOk(big, q[k..], mss)
  {
  }

  lemma InsertQueue(big: bool, q: seq<Seg>, k: nat, s: Seg, mss: nat)
    requires AllOk(big, q, mss) && AllOk(big, [s], mss) && k <= |q|
    ensures AllOk(big, q[..k] + [s] + q[k..], mss)
    ensures Pbufs(q[..k] + [s] + q[k..]) == Pbufs(q) + Pbufs([s])
    ensures multiset(q[..k] + [s] + q[k..]) == multiset(q) + multiset{s}
  {
    hide AllOk, Pbufs, Span, Payload;
    AllOkSplit(big, q, k, mss);
    assert q == q[..k] + q[k..];
    InsertBetween(big, q[..k], s, q[k..], mss);
  }

  lemma InsertBetween(big: bool, a: seq<Seg>, s: Seg, b: seq<Seg>, mss: nat)
    requires AllOk(big, a, mss) && AllOk(big, [s], mss) && AllOk(big, b, mss)
    ensures AllOk(big, a + [s] + b, mss) && Pbufs(a + [s] + b) == Pbufs(a + b) + Pbufs([s])
    ensures multiset(a + [s] + b) == multiset(a + b) + multiset{s}
  {
    hide AllOk, Pbufs, Span, Payload;
    AllOkAppend(big, a, [s], mss);
    AllOkAppend(big, a + [s], b, mss);
    SpanAppend(a, b);
    SpanAppend(a, [s]);
    SpanAppend(a + [s], b);
  }

  /** A segment of the queue compared with another one. */
  lemma ComparedTo(una: nat, q: seq<Seg>, i: nat, s: Seg, all: multiset<Seg>)
    requires Spread(una, all) && i < |q| && multiset(q) + multiset{s} <= all
    ensures SeqLt(q[i].seqno, s.seqno) <==> Pos(una, q[i].seqno) < Pos(una, s.seqno)
    ensures SeqLt(s.seqno, q[i].seqno) <==> Pos(una, s.seqno) < Pos(una, q[i].seqno)
  {
    hide Pos, SeqLt, TcpLen;
    assert q[i] in multiset(q) && q[i] in all && s in all;
    SeqLtPos(una, q[i].seqno, s.seqno);
    SeqLtPos(una, s.seqno, q[i].seqno);
  }

  /** Inserting in front of the first segment that is not smaller, or behind a last one that is not
      larger, keeps the queue in order. */
  lemma InsertRising(una: nat, q: seq<Seg>, k: nat, s: Seg, all: multiset<Seg>)
    requires Spread(una, all) && Rising(una, q) && k <= |q| && multiset(q) + multiset{s} <= all
    requires if k < |q| then !SeqLt(q[k].seqno, s.seqno) && forall i | 0 <= i < k :: SeqLt(q[i].seqno, s.seqno)
             else q != [] ==> !SeqLt(s.seqno, q[|q| - 1].seqno)
    ensures Rising(una, q[..k] + [s] + q[k..])
  {
    hide Pos, SeqLt, Spread;
    forall i | 0 <= i < |q|
      ensures if i < k then Pos(una, q[i].seqno) <= Pos(una, s.seqno) else Pos(una, s.seqno) <= Pos(una, q[i].seqno)
    {
      ComparedTo(una, q, i, s, all);
      ComparedTo(una, q, if k < |q| then k else |q| - 1, s, all);
    }
  }

  /** The search runs to the end only behind a last segment that is smaller. */
  lemma AllSmaller(una: nat, q: seq<Seg>, s: Seg, all: multiset<Seg>)
    requires Spread(una, all) && multiset(q) + multiset{s} <= all
    requires forall i | 0 <= i < |q| :: SeqLt(q[i].seqno, s.seqno)
    ensures q != [] ==> !SeqLt(s.seqno, q[|q| - 1].seqno)
  {
    hide Pos, SeqLt, Spread;
    if q != [] {
      ComparedTo(una, q, |q| - 1, s, all);
    }
  }

  /** Moving the head of one queue into another one changes nothing in total. */
  lemma MoveQueues(big: bool, unacked: seq<Seg>, unsent: seq<Seg>, k: nat, mss: nat, moved: seq<Seg>, rest: seq<Seg>)
    requires AllOk(big, unacked, mss) && AllOk(big, unsent, mss) && unsent != [] && k <= |unacked|
    requires moved == unacked[..k] + [unsent[0]] + unacked[k..] && rest == unsent[1..]
    ensures AllOk(big, moved, mss) && AllOk(big, rest, mss)
    ensures Pbufs(moved) + Pbufs(rest) == Pbufs(unacked) + Pbufs(unsent)
    ensures multiset(moved) + multiset(rest) == multiset(unacked) + multiset(unsent)
    ensures |moved| == |unacked| + 1
  {
    hide AllOk, Pbufs;
    AllOkTail(big, unsent, mss);
    InsertQueue(big, unacked, k, unsent[0], mss);
    assert unsent == [unsent[0]] + unsent[1..];
  }

  /** The queue with `s` in front of the first segment that is not smaller. */
  function Backed(q: seq<Seg>, s: Seg): seq<Seg> {
    if q == [] || !SeqLt(q[0].seqno, s.seqno) then [s] + q else [q[0]] + Backed(q[1..], s)
  }

  predicate GoesLast(q: seq<Seg>, s: Seg) {
    forall i | 0 <= i < |q| :: SeqLt(q[i].seqno, s.seqno)
  }

  lemma {:induction false} BackedAt(q: seq<Seg>, s: Seg, k: nat)
    requires k <= |q| && (k < |q| ==> !SeqLt(q[k].seqno, s.seqno))
    requires forall i | 0 <= i < k :: SeqLt(q[i].seqno, s.seqno)
    ensures Backed(q, s) == q[..k] + [s] + q[k..]
  {
    hide SeqLt;
    if k > 0 {
      assert SeqLt(q[0].seqno, s.seqno);
      BackedAt(q[1..], s, k - 1);
      assert [q[0]] + (q[1..][..k - 1] + [s] + q[1..][k - 1..]) == q[..k] + [s] + q[k..];
    }
  }

  /** The unacknowledged queue with `s` filed: at the tail if that is not larger. */
  function Filed(q: seq<Seg>, s: Seg): seq<Seg> {
    if q == [] || !SeqLt(s.seqno, q[|q| - 1].seqno) then q + [s] else Backed(q, s)
  }

  /** snd_nxt after `s` has been sent. */
  function Advanced(nxt: nat, s: Seg): nat {
    var end := Seq(s.seqno + TcpLen(s));
    if SeqLt(nxt, end) then end else nxt
  }

  /** The unacknowledged queue and snd_nxt after all of `sent` has been sent, one after the other. */
  function AllFiled(q: seq<Seg>, nxt: nat, sent: seq<Seg>): (seq<Seg>, nat) {
    if sent == [] then (q, nxt)
    else
      var n := |sent| - 1;
      var (q', nxt') := AllFiled(q, nxt, sent[..n]);
      (Filed(q', sent[n]), Advanced(nxt', sent[n]))
  }

  ghost predicate Filing(q0: seq<Seg>, nxt0: nat, sent: seq<Seg>, n: int, q: seq<Seg>, nxt: nat) {
    0 <= n <= |sent| && (q, nxt) == AllFiled(q0, nxt0, sent[..n])
  }

  lemma FilingStep(q0: seq<Seg>, nxt0: nat, sent: seq<Seg>, n: nat, q: seq<Seg>, nxt: nat)
    requires Filing(q0, nxt0, sent, n, q, nxt) && n < |sent|
    ensures Filing(q0, nxt0, sent, n + 1, Filed(q, sent[n]), Advanced(nxt, sent[n]))
  {
    hide Filed, Advanced;
    assert sent[..n + 1][..n] == sent[..n] && sent[..n + 1][n] == sent[n];
  }

  lemma FilingStart(q0: seq<Seg>, nxt0: nat, sent: seq<Seg>)
    ensures Filing(q0, nxt0, sent, 0, q0, nxt0)
  {
  }

  /** Where tcp_output puts the segment `seg` into the sorted queue `q`; the tail is tried
      first. */
  method FindPlace(q: seq<Seg>, seg: Seg, useg: int, ghost una: nat, ghost all: multiset<Seg>)
    returns (k: nat, q': seq<Seg>)
    requires useg == |q| - 1 && Spread(una, all) && Rising(una, q) && multiset(q) + multiset{seg} <= all
    ensures k <= |q| && q' == q[..k] + [seg] + q[k..] == Filed(q, seg) && Rising(una, q')
  {
    hide SeqLt, Pos, Rising, Spread, Backed;
    k := |q|;
    if q != [] && SeqLt(seg.seqno, q[useg].seqno) {
      k := 0;
      while k < |q| && SeqLt(q[k].seqno, seg.seqno)
        invariant k <= |q|
        invariant forall i | 0 <= i < k :: SeqLt(q[i].seqno, seg.seqno)
      {
        k := k + 1;
      }
      if k == |q| {
        AllSmaller(una, q, seg, all);
      }
      BackedAt(q, seg, k);
    }
    InsertRising(una, q, k, seg, all);
    q' := q[..k] + [seg] + q[k..];
  }

  /** One round of the loop in tcp_output: the head of `unsent` has been sent and moves to its
      place in `unacked`; snd_nxt only moves forward.  `useg` is the cached index of the last
      unacknowledged segment. */
  method SendHead(unacked: seq<Seg>, unsent: seq<Seg>, sndNxt: nat, useg: int, ghost una: nat, ghost bound: nat)
    returns (k: nat, unacked': seq<Seg>, sndNxt': nat, useg': int)
    requires unsent != [] && TcpLen(unsent[0]) > 0 && useg == |unacked| - 1 && sndNxt < U32
    requires Spread(una, multiset(unacked) + multiset(unsent)) && Rising(una, unacked)
    requires Within(una, multiset(unacked) + multiset(unsent), bound) && Pos(una, sndNxt) <= bound < HALF
    ensures k <= |unacked| && unacked' == unacked[..k] + [unsent[0]] + unacked[k..] && Rising(una, unacked')
    ensures unacked' == Filed(unacked, unsent[0]) && sndNxt' == Advanced(sndNxt, unsent[0])
    ensures useg' == |unacked'| - 1
    ensures sndNxt' < U32 && Pos(una, sndNxt) <= Pos(una, sndNxt') <= bound
    ensures Pos(una, unsent[0].seqno) + TcpLen(unsent[0]) <= Pos(una, sndNxt')
  {
    hide SeqLt, Pos, Rising, Spread, Within, TcpLen, Filed;
    var seg := unsent[0];
    ghost var all := multiset(unacked) + multiset(unsent);
    assert seg in multiset(unsent) && multiset{seg} <= multiset(unsent);
    SpreadAt(una, all, seg);
    WithinAt(una, all, bound, seg);
    var nxt := Seq(seg.seqno + TcpLen(seg));
    SeqLtPos(una, sndNxt, nxt);
    sndNxt' := if SeqLt(sndNxt, nxt) then nxt else sndNxt;
    k, unacked' := FindPlace(unacked, seg, useg, una, all);
    useg' := if k <= useg then useg + 1 else k;
  }

  /** The segment lies within the window `wnd` behind the last acknowledgement. */
  predicate InWindow(s: Seg, lastack: nat, wnd: nat)
    requires lastack < U32
  {
    Seq(s.seqno + U32 - lastack + s.len) <= wnd
  }

  /** The first `n` attempts are made and the segments are in the window. */
  ghost predicate Sendable(q: seq<Seg>, attempts: seq<Attempt>, n: nat, lastack: nat, wnd: nat)
    requires lastack < U32
  {
    && n <= |q| && n <= |attempts|
    && (forall i | 0 <= i < n :: attempts[i] == Send && InWindow(q[i], lastack, wnd))
  }

  /** Of the queue `q` the part `rest` was not sent: it is empty, its head lies beyond the window
      or its head's attempt was not made; `err` tells whether that attempt failed. */
  ghost predicate SentUpTo(q: seq<Seg>, rest: seq<Seg>, attempts: seq<Attempt>, lastack: nat, wnd: nat, err: Err)
    requires lastack < U32
  {
    && |rest| <= |q| && rest == q[|q| - |rest|..]
    && Sendable(q, attempts, |q| - |rest|, lastack, wnd)
    && var open := rest != [] && InWindow(rest[0], lastack, wnd);
       var next := if |q| - |rest| < |attempts| then attempts[|q| - |rest|] else HoldBack;
       && (open ==> next != Send)
       && (err == if open && next == Fail then Conn else Ok)
  }

  /** `rest` is the queue without its first `n` segments. */
  ghost predicate Behind(q: seq<Seg>, n: nat, rest: seq<Seg>) {
    n <= |q| && rest == q[n..]
  }

  lemma BehindAt(q: seq<Seg>, n: nat, rest: seq<Seg>)
    requires Behind(q, n, rest)
    ensures |rest| == |q| - n && (rest != [] ==> n < |q| && rest[0] == q[n] && Behind(q, n + 1, rest[1..]))
  {
  }

  lemma StopAt(q: seq<Seg>, n: nat, rest: seq<Seg>, attempts: seq<Attempt>, lastack: nat, wnd: nat, err: Err)
    requires lastack < U32 && Behind(q, n, rest) && Sendable(q, attempts, n, lastack, wnd)
    requires var open := rest != [] && InWindow(rest[0], lastack, wnd);
             var next := if n < |attempts| then attempts[n] else HoldBack;
             (open ==> next != Send) && (err == if open && next == Fail then Conn else Ok)
    ensures SentUpTo(q, rest, attempts, lastack, wnd, err)
  {
    hide Sendable, InWindow;
  }

  lemma SendableStep(q: seq<Seg>, attempts: seq<Attempt>, n: nat, lastack: nat, wnd: nat)
    requires lastack < U32 && Sendable(q, attempts, n, lastack, wnd)
    requires n < |q| && n < |attempts| && attempts[n] == Send && InWindow(q[n], lastack, wnd)
    ensures Sendable(q, attempts, n + 1, lastack, wnd)
  {
  }

  /** The first `n` segments of the queue end at or before `nxt`. */
  ghost predicate Covered(una: nat, q: seq<Seg>, n: int, nxt: nat) {
    && 0 <= n <= |q|
    && forall i | 0 <= i < n :: Pos(una, q[i].seqno) + TcpLen(q[i]) <= Pos(una, nxt)
  }

  lemma NothingSent(una: nat, q: seq<Seg>, attempts: seq<Attempt>, lastack: nat, wnd: nat, nxt: nat)
    requires lastack < U32
    ensures Sendable(q, attempts, 0, lastack, wnd) && Covered(una, q, 0, nxt) && Behind(q, 0, q)
  {
  }

  ghost predicate Suffix(q: seq<Seg>, rest: seq<Seg>) {
    |rest| <= |q| && rest == q[|q| - |rest|..]
  }

  lemma SentTail(q: seq<Seg>, rest: seq<Seg>, attempts: seq<Attempt>, lastack: nat, wnd: nat, err: Err)
    requires lastack < U32 && SentUpTo(q, rest, attempts, lastack, wnd, err)
    ensures rest != [] ==> q != [] && rest[|rest| - 1] == q[|q| - 1]
    ensures err == Conn ==> rest != []
    ensures Suffix(q, rest)
  {
  }

  lemma CoveredStep(una: nat, q: seq<Seg>, n: nat, nxt: nat, nxt': nat)
    requires n < |q| && Covered(una, q, n, nxt) && Pos(una, nxt) <= Pos(una, nxt')
    requires Pos(una, q[n].seqno) + TcpLen(q[n]) <= Pos(una, nxt')
    ensures Covered(una, q, n + 1, nxt')
  {
    hide Pos, TcpLen;
  }

  /** Both queues are sound and hold the segments `all` in `pbufs` buffers, the unacknowledged one is
      in order, and snd_nxt is not beyond `bound`. */
  ghost predicate Sending(big: bool, mss: nat, unacked: seq<Seg>, unsent: seq<Seg>, nxt: nat, una: nat, bound: nat,
                          all: multiset<Seg>, pbufs: nat) {
    && AllOk(big, unacked, mss) && AllOk(big, unsent, mss) && Pbufs(unacked) + Pbufs(unsent) == pbufs
    && multiset(unacked) + multiset(unsent) == all && Rising(una, unacked) && nxt < U32 && Pos(una, nxt) <= bound
  }

  /** The head of `unsent` has been sent: all queued segments are kept. */
  method SendOne(big: bool, mss: nat, unacked: seq<Seg>, unsent: seq<Seg>, nxt: nat, useg: int,
                 ghost una: nat, ghost bound: nat, ghost all: multiset<Seg>, ghost pbufs: nat)
    returns (unacked': seq<Seg>, unsent': seq<Seg>, nxt': nat, useg': int)
    requires Sending(big, mss, unacked, unsent, nxt, una, bound, all, pbufs) && unsent != [] && useg == |unacked| - 1
    requires Spread(una, all) && Within(una, all, bound) && bound < HALF
    ensures Sending(big, mss, unacked', unsent', nxt', una, bound, all, pbufs)
    ensures unsent' == unsent[1..] && useg' == |unacked'| - 1 && Pos(una, nxt) <= Pos(una, nxt')
    ensures unacked' == Filed(unacked, unsent[0]) && nxt' == Advanced(nxt, unsent[0])
    ensures Pos(una, unsent[0].seqno) + TcpLen(unsent[0]) <= Pos(una, nxt')
  {
    hide AllOk, Pbufs, Pos, Rising, Spread, Within, TcpLen, Filed, Advanced;
    AllOkAt(big, unsent, mss, 0);
    var k;
    k, unacked', nxt', useg' := SendHead(unacked, unsent, nxt, useg, una, bound);
    unsent' := unsent[1..];
    MoveQueues(big, unacked, unsent, k, mss, unacked', unsent');
  }

  /** The loop of tcp_output.  Whether Nagle's algorithm holds a segment back and whether sending it
      fails is up to `attempts`. */
  method SendWhile(big: bool, mss: nat, unacked0: seq<Seg>, unsent0: seq<Seg>, nxt0: nat, lastack: nat, wnd: nat,
                   attempts: seq<Attempt>, ghost una: nat, ghost bound: nat, ghost all: multiset<Seg>, ghost pbufs: nat)
    returns (unacked: seq<Seg>, unsent: seq<Seg>, nxt: nat, err: Err)
    requires Sending(big, mss, unacked0, unsent0, nxt0, una, bound, all, pbufs) && lastack < U32
    requires Spread(una, all) && Within(una, all, bound) && bound < HALF
    ensures Sending(big, mss, unacked, unsent, nxt, una, bound, all, pbufs) && Pos(una, nxt0) <= Pos(una, nxt)
    ensures SentUpTo(unsent0, unsent, attempts, lastack, wnd, err)
    ensures Covered(una, unsent0, |unsent0| - |unsent|, nxt)
    ensures Filing(unacked0, nxt0, unsent0, |unsent0| - |unsent|, unacked, nxt)
  {
    hide *;
    NothingSent(una, unsent0, attempts, lastack, wnd, nxt0);
    FilingStart(unacked0, nxt0, unsent0);
    unacked, unsent, nxt := unacked0, unsent0, nxt0;
    var useg, i := |unacked| - 1, 0;
    while unsent != [] && InWindow(unsent[0], lastack, wnd)
      invariant 0 <= i && Behind(unsent0, i, unsent) && Sendable(unsent0, attempts, i, lastack, wnd)
      invariant Covered(una, unsent0, i, nxt) && Pos(una, nxt0) <= Pos(una, nxt)
      invariant Filing(unacked0, nxt0, unsent0, i, unacked, nxt)
      invariant Sending(big, mss, unacked, unsent, nxt, una, bound, all, pbufs)
      // the cached pointer is the real tail
      invariant useg == |unacked| - 1
      decreases |unsent|
    {
      var attempt := if i < |attempts| then attempts[i] else HoldBack;
      BehindAt(unsent0, i, unsent);
      if attempt == HoldBack {
        break;
      }
      if attempt == Fail {
        StopAt(unsent0, i, unsent, attempts, lastack, wnd, Conn);
        return unacked, unsent, nxt, Conn;
      }
      SendableStep(unsent0, attempts, i, lastack, wnd);
      FilingStep(unacked0, nxt0, unsent0, i, unacked, nxt);
      ghost var before := nxt;
      unacked, unsent, nxt, useg := SendOne(big, mss, unacked, unsent, nxt, useg, una, bound, all, pbufs);
      CoveredStep(una, unsent0, i, before, nxt);
      i := i + 1;
    }
    BehindAt(unsent0, i, unsent);
    StopAt(unsent0, i, unsent, attempts, lastack, wnd, Ok);
    err := Ok;
  }

  /** What else decides what tcp_output does: it is called from input processing, an acknowledgement is
      due and can be sent, there is a route. */
  datatype Circumstances = Circumstances(inInput: bool, ackNow: bool, ackSent: bool, route: bool)

  /** What tcp_output returns if it sends no segment. */
  function Refusal(c: Circumstances, unsent: seq<Seg>): Err {
    if c.inInput then Ok
    else if unsent != [] && !c.route then Rte
    else if c.ackNow && !c.ackSent then NoBuf else Ok
  }

  lemma {:induction false} TwoIndices(p: seq<Seg>, s: Seg) returns (i: nat, j: nat)
    requires multiset(p)[s] >= 2
    ensures i < j < |p| && p[i] == s && p[j] == s
  {
    assert s in p;
    var k :| 0 <= k < |p| && p[k] == s;
    assert p == p[..k] + [s] + p[k + 1..];
    assert multiset(p[..k])[s] + multiset(p[k + 1..])[s] >= 1;
    if s in p[..k] {
      i :| 0 <= i < k && p[..k][i] == s;
      j := k;
    } else {
      assert s in p[k + 1..];
      var l :| 0 <= l < |p| - k - 1 && p[k + 1..][l] == s;
      i, j := k, k + 1 + l;
    }
  }

  /** Whether numbers are shared does not depend on the order. */
  lemma ApartPermutation(p: seq<Seg>, q: seq<Seg>)
    requires multiset(p) == multiset(q) && Apart(p)
    ensures Apart(q)
  {
    forall i, j | 0 <= i < j < |q| ensures q[i].seqno != q[j].seqno {
      assert q[i] in multiset(p) && q[j] in multiset(p);
      if q[i] == q[j] {
        Twice(q, i, j);
        var k, l := TwoIndices(p, q[i]);
      } else {
        var k :| 0 <= k < |p| && p[k] == q[i];
        var l :| 0 <= l < |p| && p[l] == q[j];
        assert k < l || l < k;
      }
    }
  }

  lemma NothingMoved(una: nat, pcb: Pcb)
    requires Spread(una, pcb.Queued()) && Rising(una, pcb.unacked)
    ensures Sorted(una, pcb.unacked) <==> Apart(pcb.unacked + pcb.unsent[..|pcb.unsent| - |pcb.unsent|])
    ensures Covered(una, pcb.unsent, |pcb.unsent| - |pcb.unsent|, pcb.sndNxt)
  {
    hide Spread, Rising, Sorted, Apart;
    StrictIff(una, pcb.Queued(), pcb.unacked);
    assert pcb.unacked + pcb.unsent[..|pcb.unsent| - |pcb.unsent|] == pcb.unacked;
  }

  /** After the loop of tcp_output the order is strict if and only if no two of the segments that are
      unacknowledged then share a number. */
  lemma MovedStrict(una: nat, all: multiset<Seg>, was: seq<Seg>, q: seq<Seg>, unacked: seq<Seg>, unsent: seq<Seg>)
    requires Spread(una, all) && Rising(una, unacked) && Suffix(q, unsent)
    requires multiset(was) + multiset(q) == all == multiset(unacked) + multiset(unsent)
    ensures |unsent| <= |q| && (Sorted(una, unacked) <==> Apart(was + q[..|q| - |unsent|]))
  {
    hide Spread, Rising, Sorted, Apart;
    StrictIff(una, all, unacked);
    var sent := q[..|q| - |unsent|];
    assert q == sent + unsent;
    SameFront(was, sent, unsent, unacked);
    if Apart(unacked) {
      ApartPermutation(unacked, was + sent);
    }
    if Apart(was + sent) {
      ApartPermutation(was + sent, unacked);
    }
  }

  lemma SameFront(was: seq<Seg>, sent: seq<Seg>, rest: seq<Seg>, unacked: seq<Seg>)
    requires multiset(was) + multiset(sent + rest) == multiset(unacked) + multiset(rest)
    ensures multiset(was + sent) == multiset(unacked)
  {
    forall s: Seg ensures multiset(was + sent)[s] == multiset(unacked)[s] {
      assert (multiset(was) + multiset(sent + rest))[s] == (multiset(unacked) + multiset(rest))[s];
    }
  }

  /** Where tcp_rexmit puts the segment `seg` into the unsent queue. */
  method BackIn(unsent: seq<Seg>, seg: Seg) returns (k: nat)
    ensures k <= |unsent| && (k < |unsent| ==> !SeqLt(unsent[k].seqno, seg.seqno))
    ensures forall i | 0 <= i < k :: SeqLt(unsent[i].seqno, seg.seqno)
  {
    hide SeqLt;
    k := 0;
    while k < |unsent| && SeqLt(unsent[k].seqno, seg.seqno)
      invariant k <= |unsent|
      invariant forall i | 0 <= i < k :: SeqLt(unsent[i].seqno, seg.seqno)
    {
      k := k + 1;
    }
  }

  lemma BackInRising(una: nat, unacked: seq<Seg>, unsent: seq<Seg>, k: nat)
    requires unacked != []
    requires k <= |unsent| && (k < |unsent| ==> !SeqLt(unsent[k].seqno, unacked[0].seqno))
    requires forall i | 0 <= i < k :: SeqLt(unsent[i].seqno, unacked[0].seqno)
    ensures Spread(una, multiset(unacked) + multiset(unsent)) && Rising(una, unsent) ==>
            Rising(una, unsent[..k] + [unacked[0]] + unsent[k..])
  {
    hide SeqLt, Spread, Rising;
    var seg, all := unacked[0], multiset(unacked) + multiset(unsent);
    assert multiset{seg} <= multiset(unacked) by { assert seg in multiset(unacked); }
    if Spread(una, all) && Rising(una, unsent) {
      if k == |unsent| {
        AllSmaller(una, unsent, seg, all);
      }
      InsertRising(una, unsent, k, seg, all);
    }
  }

  lemma BackInStrict(una: nat, all: multiset<Seg>, unsent: seq<Seg>, moved: seq<Seg>, rest: seq<Seg>)
    requires multiset(unsent) <= all == multiset(rest) + multiset(moved)
    requires Spread(una, all) && Rising(una, unsent) ==> Rising(una, moved)
    ensures Placed(una, all) && Sorted(una, unsent) ==> Sorted(una, moved)
  {
    hide Spread, Placed, Rising, Sorted, Apart;
    if Placed(una, all) && Sorted(una, unsent) {
      PlacedSpread(una, all);
      PlacedApart(una, all, moved);
      StrictIff(una, all, unsent);
      StrictIff(una, all, moved);
    }
  }

  /** The first unacknowledged segment goes back to its place `k` in `unsent`. */
  method PutBack(big: bool, mss: nat, unacked: seq<Seg>, unsent: seq<Seg>, ghost una: nat)
    returns (rest: seq<Seg>, moved: seq<Seg>, k: nat)
    requires AllOk(big, unacked, mss) && AllOk(big, unsent, mss) && unacked != []
    ensures AllOk(big, rest, mss) && AllOk(big, moved, mss) && rest == unacked[1..]
    ensures Pbufs(rest) + Pbufs(moved) == Pbufs(unacked) + Pbufs(unsent)
    ensures multiset(rest) + multiset(moved) == multiset(unacked) + multiset(unsent)
    ensures k <= |unsent| && |moved| == |unsent| + 1 && moved == Backed(unsent, unacked[0])
    ensures k < |unsent| ==> moved[|moved| - 1] == unsent[|unsent| - 1]
    ensures k == |unsent| <==> GoesLast(unsent, unacked[0])
    ensures var all := multiset(unacked) + multiset(unsent);
            && (Spread(una, all) && Rising(una, unsent) ==> Rising(una, moved))
            && (Placed(una, all) && Sorted(una, unsent) ==> Sorted(una, moved))
  {
    hide AllOk, Pbufs, SeqLt, Placed, Sorted, Rising, Spread, Backed;
    var seg := unacked[0];
    k := BackIn(unsent, seg);
    BackedAt(unsent, seg, k);
    rest, moved := unacked[1..], unsent[..k] + [seg] + unsent[k..];
    MoveQueues(big, unsent, unacked, k, mss, moved, rest);
    SumSwap(multiset(moved), multiset(rest), multiset(unsent), multiset(unacked));
    BackInRising(una, unacked, unsent, k);
    BackInStrict(una, multiset(unacked) + multiset(unsent), unsent, moved, rest);
  }

  /** The driver still holds one of the first `n` segments. */
  method AnyBusy(n: nat, busy: set<nat>) returns (held: bool)
    ensures held <==> exists i :: i in busy && i < n
  {
    for i: nat := 0 to n
      invariant forall j | j in busy :: j >= i
    {
      if i in busy {
        return true;
      }
    }
    held := false;
  }

  lemma TailOfBoth(a: seq<Seg>, b: seq<Seg>)
    ensures b != [] ==> (a + b)[|a + b| - 1] == b[|b| - 1]
  {
  }

  lemma NoneOk(big: bool, mss: nat)
    ensures AllOk(big, [], mss)
  {
  }

  function DataLen(q: seq<Seg>): nat {
    if q == [] then 0 else q[0].len + DataLen(q[1..])
  }

  // --- The segment size ----------------------------------------------------------------------

  const OPT_LEN_TS := 10     // LWIP_TCP_OPT_LEN_TS
  const OPT_LEN_TS_OUT := 12 // LWIP_TCP_OPT_LEN_TS_OUT

  /** mss_local as tcp_write computes it before it looks at the timestamp option. */
  function HalfWindowMss(mss: nat, wndMax: nat): nat {
    var m := Min(mss, Min(wndMax / 2, 0xffff));
    if m == 0 then mss else m
  }

  /** mss_local with the timestamp option: at least one more than the length of the option. */
  function ClampedMss(mss: nat, wndMax: nat): nat {
    if HalfWindowMss(mss, wndMax) >= OPT_LEN_TS + 1 then HalfWindowMss(mss, wndMax) else OPT_LEN_TS + 1
  }

  /** max_len: what tcp_write puts into one new segment, an unsigned 16-bit difference. */
  function MaxLen(mssLocal: nat, optlen: nat): nat {
    (mssLocal - optlen) % WORD
  }

  /** The clamp is there so that a byte of data fits beside the timestamp option, but the option
      is sent padded: a byte fits if and only if the size exceeds the padded length on its own. */
  lemma ClampLeavesRoom(mss: nat, wndMax: nat)
    requires 0 < mss <= 0xffff
    ensures var m := ClampedMss(mss, wndMax);
            0 < MaxLen(m, OPT_LEN_TS_OUT) <= m - OPT_LEN_TS_OUT <==> HalfWindowMss(mss, wndMax) > OPT_LEN_TS_OUT
  {
  }

  /** With a window of 22 bytes a segment would be filled far beyond mss_local. */
  lemma ClampTooSmall()
    ensures ClampedMss(536, 22) == 11 && MaxLen(ClampedMss(536, 22), OPT_LEN_TS_OUT) == 0xffff
  {
  }

  /** mss_local; there are options in every data segment only if the timestamp option is agreed. */
  function SizeFor(mss: nat, wndMax: nat, optlen: nat): nat {
    if optlen > 0 then ClampedMss(mss, wndMax) else HalfWindowMss(mss, wndMax)
  }

  /** The size falls, whether the peer announces another maximum segment size or a larger window, if
      and only if the new maximum or half the new window is below it. */
  lemma SizeFallsIff(mss: nat, wndMax: nat, mss': nat, wndMax': nat)
    requires 0 < mss <= 0xffff && 0 < mss' <= 0xffff
    ensures var size := HalfWindowMss(mss, wndMax);
            HalfWindowMss(mss', wndMax') < size <==> mss' < size || (2 <= wndMax' && wndMax' / 2 < size)
  {
  }

  /** `n` bytes fit into a segment if and only if they fit into the maximum and into half the window,
      which counts from 2 on only; with timestamps 11 bytes always pass. */
  lemma SizeForIff(mss: nat, wndMax: nat, optlen: nat, n: nat)
    requires 0 < mss <= 0xffff && n > 0
    ensures n <= SizeFor(mss, wndMax, optlen) <==>
            (n <= mss && (wndMax < 2 || n <= wndMax / 2)) || (optlen > 0 && n <= OPT_LEN_TS + 1)
  {
  }

  lemma SizeBound(mss: nat, wndMax: nat, optlen: nat)
    requires 0 < mss <= 0xffff
    ensures 0 < SizeFor(mss, wndMax, optlen) <= 0xffff
  {
  }

  lemma LargerOk(big: bool, q: seq<Seg>, mss: nat, mss': nat)
    requires AllOk(big, q, mss) && mss <= mss'
    ensures AllOk(big, q, mss')
  {
  }

  /** TCP_SEQ_LEQ */
  predicate SeqLeq(a: nat, b: nat) {
    SeqLt(a, b) || Seq(a) == Seq(b)
  }

  /** The tests of tcp_receive: not an old or repeated acknowledgement, and then
      TCP_SEQ_BETWEEN(ackno, lastack + 1, snd_nxt). */
  predicate TakesAck(lastack: nat, sndNxt: nat, ackno: nat) {
    !SeqLeq(ackno, lastack) && !SeqLt(ackno, Seq(lastack + 1)) && SeqLeq(ackno, sndNxt)
  }

  /** The segment ends at or before `ackno`. */
  predicate Acknowledged(s: Seg, ackno: nat) {
    SeqLeq(Seq(s.seqno + TcpLen(s)), ackno)
  }

  lemma {:induction false} AllOkSuffix(big: bool, q: seq<Seg>, n: nat, mss: nat)
    requires AllOk(big, q, mss) && n <= |q|
    ensures AllOk(big, q[n..], mss)
  {
  }

  /** `rest` is `q` without its longest acknowledged prefix. */
  ghost predicate Popped(q: seq<Seg>, rest: seq<Seg>, ackno: nat) {
    && |rest| <= |q| && rest == q[|q| - |rest|..]
    && (rest != [] ==> !Acknowledged(rest[0], ackno))
    && (forall i | 0 <= i < |q| - |rest| :: Acknowledged(q[i], ackno))
  }

  /** tcp_free_acked_segments: pops acknowledged segments off the front of a queue; `n` of them
      with `clen` packet buffers and `acked` bytes. */
  method FreeAcked(q: seq<Seg>, ackno: nat) returns (n: nat, clen: nat, acked: nat)
    ensures n <= |q| && (n < |q| ==> !Acknowledged(q[n], ackno))
    ensures forall i | 0 <= i < n :: Acknowledged(q[i], ackno)
    ensures Pbufs(q) == clen + Pbufs(q[n..]) && DataLen(q) == acked + DataLen(q[n..])
  {
    hide Acknowledged;
    n, clen, acked := 0, 0, 0;
    assert q[0..] == q;
    while n < |q| && Acknowledged(q[n], ackno)
      invariant n <= |q|
      invariant forall i | 0 <= i < n :: Acknowledged(q[i], ackno)
      invariant Pbufs(q) == clen + Pbufs(q[n..]) && DataLen(q) == acked + DataLen(q[n..])
    {
      assert q[n..][1..] == q[n + 1..];
      clen, acked, n := clen + |q[n].bufs|, acked + q[n].len, n + 1;
    }
  }

  /** A queue without its acknowledged front, with the buffers and bytes that this frees. */
  method DropAcked(big: bool, mss: nat, q: seq<Seg>, ackno: nat) returns (rest: seq<Seg>, clen: nat, acked: nat)
    requires AllOk(big, q, mss)
    ensures AllOk(big, rest, mss) && Popped(q, rest, ackno)
    ensures Pbufs(q) == clen + Pbufs(rest) && DataLen(q) == acked + DataLen(rest)
  {
    hide AllOk, Pbufs, DataLen, Acknowledged;
    var n;
    n, clen, acked := FreeAcked(q, ackno);
    AllOkSuffix(big, q, n, mss);
    rest := q[n..];
  }

  lemma PoppedTail(q: seq<Seg>, rest: seq<Seg>, ackno: nat)
    requires Popped(q, rest, ackno)
    ensures rest != [] ==> q != [] && rest[|rest| - 1] == q[|q| - 1]
  {
  }

  lemma FlagsQueue(big: bool, q: seq<Seg>, seg: Seg, mss: nat)
    requires AllOk(big, q, mss) && seg.seqno < U32 && seg.optlen <= mss
    requires seg == Seg(seg.seqno, [Buf(false, 0, [])], 0, seg.optlen, true, 0, false)
    ensures AllOk(big, q + [seg], mss) && Pbufs(q + [seg]) == Pbufs(q) + 1 && Flat(seg.bufs) == []
  {
    hide AllOk, Pbufs, Running;
    FlatOne(seg.bufs[0]);
    SummedEmpty(big);
    QueueSnoc(q, seg, 0);
    assert AllOk(big, [seg], mss) by { OneOk(big, seg, mss); }
    AllOkAppend(big, q, [seg], mss);
  }

  lemma SumSwap(a: multiset<Seg>, b: multiset<Seg>, c: multiset<Seg>, d: multiset<Seg>)
    requires a + b == c + d
    ensures b + a == d + c
  {
    forall s: Seg ensures (b + a)[s] == (d + c)[s] {
      assert (a + b)[s] == (c + d)[s];
    }
  }

  function AlignUp(n: nat, align: nat): nat
    requires align > 0
  {
    (n + align - 1) / align * align
  }

  /** The unsent queue after the commit of tcp_write. */
  method Committed(big: bool, before: seq<Seg>, plan: Plan, arg: seq<Byte>, queue: seq<Seg>, mss: nat, lbb: nat)
    returns (after: seq<Seg>)
    requires AllOk(big, before, mss) && AllOk(big, queue, mss) && mss <= 0xffff && PlanOk(big, plan, arg)
    requires before == [] ==> plan.pos == 0 && plan.concat == []
    requires before != [] ==>
               var last := before[|before| - 1];
               last.len + last.optlen + plan.pos <= mss && (last.ctl ==> plan.pos == 0) && last.bufs != []
    requires plan.used <= plan.pos <= |arg| && Contiguous(queue, lbb + plan.pos)
    requires Payload(queue) == arg[plan.pos..] && Span(queue) == |arg| - plan.pos
    ensures AllOk(big, after, mss) && WrittenQueue(big, before, plan.pos, arg, after, lbb)
    ensures Pbufs(after) == Pbufs(before) + |plan.concat| + Pbufs(queue) && |after| == |before| + |queue|
    ensures arg == [] && queue == [] ==> after == before
    ensures after[|before|..] == queue
    ensures queue != [] ==> after[|after| - 1] == queue[|queue| - 1]
    ensures queue == [] && before != [] ==> after[|after| - 1] == Extended(big, before[|before| - 1], plan, arg)
  {
    hide SegOk, Flat, Contiguous, Payload, Span, Extended, WrittenQueue, AllOk, PlanOk;
    if before != [] {
      var n := |before| - 1;
      WriteExtends(big, before, plan, arg, queue, mss, lbb);
      after := before[..n] + [Extended(big, before[n], plan, arg)] + queue;
    } else {
      assert arg[plan.pos..] == arg;
      WriteFirst(big, queue, arg, lbb);
      after := queue;
    }
  }

  /** How many segments with room for `m` bytes each `n` bytes need. */
  function Segments(n: nat, m: nat): nat
    requires m > 0
  {
    if n == 0 then 0 else 1 + Segments(n - Min(n, m), m)
  }

  lemma SegmentsStep(n: nat, m: nat)
    requires n > 0 && m > 0
    ensures Segments(n, m) == 1 + Segments(n - Min(n, m), m)
  {
  }

  lemma SegmentsNone(m: nat)
    requires m > 0
    ensures Segments(0, m) == 0
  {
  }

  lemma SnocOk(big: bool, q: seq<Seg>, s: Seg, mss: nat)
    requires AllOk(big, q, mss) && SegOk(big, s) && s.len + s.optlen <= mss
    ensures AllOk(big, q + [s], mss)
  {
    hide SegOk;
  }

  /** How many buffers `n` new segments need: data that is not copied needs one more each. */
  function Bufs(copy: bool, n: nat): nat {
    if copy then n else 2 * n
  }

  ghost predicate AllWithOptions(q: seq<Seg>, optlen: nat) {
    forall i | 0 <= i < |q| :: q[i].optlen == optlen
  }

  lemma NoOptions(optlen: nat)
    ensures AllWithOptions([], optlen)
  {
  }

  lemma SnocOptions(q: seq<Seg>, s: Seg, optlen: nat)
    requires AllWithOptions(q, optlen) && s.optlen == optlen
    ensures AllWithOptions(q + [s], optlen)
  {
  }

  /** No allocation fails. */
  ghost predicate Plenty(alloc: nat -> bool) {
    forall k: nat :: alloc(k)
  }

  /** Appending to `last` takes a new buffer, because its last buffer does not end where the new
      data, not to be copied, begins. */
  predicate Allocates(last: Seg, argAddr: nat, copy: bool) {
    || copy || last.bufs == []
    || var tail := last.bufs[|last.bufs| - 1]; !(tail.rom && tail.addr + |tail.payload| == argAddr)
  }

  // --- What tcp_write decides beforehand -----------------------------------------------------

  /** Room left in the last unsent segment. */
  function Space(mss: nat, unsent: seq<Seg>): int {
    if unsent == [] then 0 else mss - (unsent[|unsent| - 1].len + unsent[|unsent| - 1].optlen)
  }

  /** The last unsent segment, with its spare tail, is larger than mss_local is now. */
  predicate TooLarge(mss: nat, unsent: seq<Seg>, oversize: nat) {
    unsent != [] && Space(mss, unsent) < oversize
  }

  /** How many bytes of a write of `n` bytes go into the last unsent segment. */
  function Extent(mss: nat, unsent: seq<Seg>, oversize: nat, n: nat): int {
    if unsent == [] then 0 else
      var space := Space(mss, unsent);
      var used := Min(space, Min(oversize, n));
      if used < n && space - used > 0 && unsent[|unsent| - 1].len > 0
      then used + Min(space - used, n - used) else used
  }

  /** A write of `n` bytes takes a buffer to be chained to the last unsent segment. */
  predicate TakesBuffer(mss: nat, unsent: seq<Seg>, oversize: nat, n: nat, argAddr: nat, copy: bool) {
    && Extent(mss, unsent, oversize, n) > Min(Space(mss, unsent), Min(oversize, n)) && unsent != []
    && Allocates(unsent[|unsent| - 1], argAddr, copy)
  }

  /** tcp_write_checks, the state aside. */
  predicate Checked(queueMax: nat, sndBuf: nat, queuelen: nat, n: nat) {
    n > 0 ==> n <= sndBuf && queuelen < Min(queueMax, QUEUELEN_OVERFLOW + 1)
  }

  /** `n` bytes in new segments fit into a queue of `queuelen` buffers. */
  predicate Room(queueMax: nat, optlen: nat, mss: nat, queuelen: nat, n: nat, copy: bool)
    requires optlen < mss
  {
    queuelen + Bufs(copy, Segments(n, mss - optlen)) <= Min(queueMax, QUEUELEN_OVERFLOW)
  }

  predicate FitsQueue(queueMax: nat, optlen: nat, mss: nat, unsent: seq<Seg>, oversize: nat, queuelen: nat, n: nat,
                      argAddr: nat, copy: bool)
    requires optlen < mss
  {
    var ext := Extent(mss, unsent, oversize, n);
    0 <= ext < n ==>
      Room(queueMax, optlen, mss, queuelen + (if TakesBuffer(mss, unsent, oversize, n, argAddr, copy) then 1 else 0),
           n - ext, copy)
  }

  // --- What the operations do ----------------------------------------------------------------

  /** The state of a connection; snd_queuelen is the number of buffers in its queues. */
  datatype Snap = Snap(unacked: seq<Seg>, unsent: seq<Seg>, sndLbb: nat, sndNxt: nat, lastack: nat, sndBuf: nat,
                       oversize: nat, mssLocal: nat, memErr: bool, writable: bool)

  /** What does not change. */
  datatype Config = Config(big: bool, queueMax: nat, optlen: nat)

  /** tcp_write: all or nothing. */
  ghost predicate DidWrite(cfg: Config, arg: seq<Byte>, argAddr: nat, copy: bool, alloc: nat -> bool,
                           a: Snap, err: Err, b: Snap) {
    && cfg.optlen < a.mssLocal && err in {Ok, Conn, Mem, Abort} && (err == Conn <==> !a.writable)
    && var queuelen, n := Pbufs(a.unacked) + Pbufs(a.unsent), |arg|;
       var ext := Extent(a.mssLocal, a.unsent, a.oversize, n);
       var checked := a.writable && Checked(cfg.queueMax, a.sndBuf, queuelen, n);
       var fits := FitsQueue(cfg.queueMax, cfg.optlen, a.mssLocal, a.unsent, a.oversize, queuelen, n, argAddr, copy);
       && (err == Abort <==> checked && TooLarge(a.mssLocal, a.unsent, a.oversize))
       && (err == Ok ==> checked && fits)
       && (checked && fits && !TooLarge(a.mssLocal, a.unsent, a.oversize) && Plenty(alloc) ==> err == Ok)
       && (err != Ok ==> b == a.(memErr := err == Mem || a.memErr))
       && (err == Ok ==>
             && WrittenQueue(cfg.big, a.unsent, ext, arg, b.unsent, a.sndLbb) && n <= a.sndBuf
             && |b.unsent| == |a.unsent| + Segments(n - ext, a.mssLocal - cfg.optlen)
             && b == a.(unsent := b.unsent, sndLbb := Seq(a.sndLbb + n), sndBuf := a.sndBuf - n,
                        oversize := b.oversize))
  }

  /** tcp_split_unsent_seg */
  ghost predicate DidSplit(cfg: Config, size: nat, alloc: nat -> bool, a: Snap, err: Err, b: Snap) {
    && err == (if a.unsent == [] then Mem else if size == 0 then Val
               else if a.unsent[0].len <= size || (alloc(0) && alloc(1)) then Ok else Mem)
    && if err != Ok || a.unsent[0].len <= size then b == a
       else
         && |b.unsent| == |a.unsent| + 1 && b.unsent[2..] == a.unsent[1..]
         && SplitInto(cfg.big, a.unsent[0], size, b.unsent[0], b.unsent[1])
         && b == a.(unsent := b.unsent, oversize := if |b.unsent| == 2 then 0 else a.oversize)
  }

  /** A segment without data that takes up one sequence number. */
  ghost predicate IsFlag(s: Seg, seqno: nat, opts: nat) {
    s.seqno == seqno && s.optlen == opts && TcpLen(s) == 1 && s.len == 0 && Flat(s.bufs) == []
  }

  /** tcp_enqueue_flags */
  ghost predicate DidFlags(opts: nat, alloc: nat -> bool, a: Snap, err: Err, b: Snap) {
    && err == (if alloc(0) && alloc(1) then Ok else Mem)
    && if err == Mem then b == a.(memErr := true)
       else
         && |b.unsent| == |a.unsent| + 1 && b.unsent[..|a.unsent|] == a.unsent
         && IsFlag(b.unsent[|a.unsent|], a.sndLbb, opts)
         && b == a.(unsent := b.unsent, sndLbb := Seq(a.sndLbb + 1), oversize := 0)
  }

  /** tcp_output */
  ghost predicate DidOutput(c: Circumstances, wnd: nat, attempts: seq<Attempt>, a: Snap, err: Err, b: Snap) {
    && a.lastack < U32
    && if !c.inInput && a.unsent != [] && c.route && InWindow(a.unsent[0], a.lastack, wnd)
       then
         && SentUpTo(a.unsent, b.unsent, attempts, a.lastack, wnd, err)
         && Filing(a.unacked, a.sndNxt, a.unsent, |a.unsent| - |b.unsent|, b.unacked, b.sndNxt)
         && b == a.(unacked := b.unacked, unsent := b.unsent, sndNxt := b.sndNxt,
                    oversize := if b.unsent == [] then 0 else a.oversize, memErr := err == Conn)
       else
         err == Refusal(c, a.unsent) && b == a.(memErr := a.memErr && (c.inInput || c.ackNow || err == Rte))
  }

  /** tcp_rexmit */
  ghost predicate DidRexmit(busy: bool, a: Snap, err: Err, b: Snap) {
    if a.unacked == [] || busy then err == Val && b == a
    else
      && err == Ok
      && b == a.(unacked := a.unacked[1..], unsent := Backed(a.unsent, a.unacked[0]),
                 oversize := if GoesLast(a.unsent, a.unacked[0]) then 0 else a.oversize)
  }

  /** tcp_rexmit_rto_prepare */
  ghost predicate DidTimeout(busy: set<nat>, a: Snap, err: Err, b: Snap) {
    if a.unacked == [] || (exists i :: i in busy && i < |a.unacked|) then err == Val && b == a
    else err == Ok && b == a.(unacked := [], unsent := a.unacked + a.unsent)
  }

  /** The acknowledgement part of tcp_receive. */
  ghost predicate DidAck(ackno: nat, a: Snap, b: Snap) {
    if !TakesAck(a.lastack, a.sndNxt, ackno) then b == a
    else
      && Popped(a.unacked, b.unacked, ackno) && Popped(a.unsent, b.unsent, ackno)
      && var freed := DataLen(a.unacked) + DataLen(a.unsent) - DataLen(b.unacked) - DataLen(b.unsent);
         && a.sndBuf + freed >= 0
         && b == a.(unacked := b.unacked, unsent := b.unsent, lastack := ackno, sndBuf := a.sndBuf + freed,
                    oversize := if b.unsent == [] then 0 else a.oversize)
  }

  lemma WriteRefused(cfg: Config, arg: seq<Byte>, argAddr: nat, copy: bool, alloc: nat -> bool, a: Snap, err: Err,
                     b: Snap)
    requires cfg.optlen < a.mssLocal && err in {Conn, Mem, Abort} && b == a.(memErr := err == Mem || a.memErr)
    requires var queuelen, n := Pbufs(a.unacked) + Pbufs(a.unsent), |arg|;
             var checked := Checked(cfg.queueMax, a.sndBuf, queuelen, n);
             if !a.writable then err == Conn
             else if !checked then err == Mem
             else if TooLarge(a.mssLocal, a.unsent, a.oversize) then err == Abort
             else
               err == Mem &&
               !(FitsQueue(cfg.queueMax, cfg.optlen, a.mssLocal, a.unsent, a.oversize, queuelen, n, argAddr, copy)
                 && Plenty(alloc))
    ensures DidWrite(cfg, arg, argAddr, copy, alloc, a, err, b)
  {
    hide Pbufs, Checked, TooLarge, FitsQueue, Extent, WrittenQueue, Segments;
  }

  lemma WriteDone(cfg: Config, arg: seq<Byte>, argAddr: nat, copy: bool, alloc: nat -> bool, a: Snap, b: Snap)
    requires cfg.optlen < a.mssLocal && a.writable && !TooLarge(a.mssLocal, a.unsent, a.oversize)
    requires var queuelen, n := Pbufs(a.unacked) + Pbufs(a.unsent), |arg|;
             var ext := Extent(a.mssLocal, a.unsent, a.oversize, n);
             && Checked(cfg.queueMax, a.sndBuf, queuelen, n)
             && FitsQueue(cfg.queueMax, cfg.optlen, a.mssLocal, a.unsent, a.oversize, queuelen, n, argAddr, copy)
             && WrittenQueue(cfg.big, a.unsent, ext, arg, b.unsent, a.sndLbb) && n <= a.sndBuf
             && 0 <= n - ext && |b.unsent| == |a.unsent| + Segments(n - ext, a.mssLocal - cfg.optlen)
             && b == a.(unsent := b.unsent, sndLbb := Seq(a.sndLbb + n), sndBuf := a.sndBuf - n, oversize := b.oversize)
    ensures DidWrite(cfg, arg, argAddr, copy, alloc, a, Ok, b)
  {
    hide Pbufs, Checked, TooLarge, FitsQueue, Extent, WrittenQueue, Segments, Seq;
  }

  lemma FlagsRefused(opts: nat, alloc: nat -> bool, a: Snap, b: Snap)
    requires !(alloc(0) && alloc(1)) && b == a.(memErr := true)
    ensures DidFlags(opts, alloc, a, Mem, b)
  {
  }

  lemma FlagsDone(alloc: nat -> bool, a: Snap, s: Seg, b: Snap)
    requires alloc(0) && alloc(1) && s.seqno == a.sndLbb && TcpLen(s) == 1 && s.len == 0 && Flat(s.bufs) == []
    requires b == a.(unsent := a.unsent + [s], sndLbb := Seq(a.sndLbb + 1), oversize := 0)
    ensures DidFlags(s.optlen, alloc, a, Ok, b)
  {
    hide Seq, Flat, TcpLen;
  }

  lemma AckDone(ackno: nat, a: Snap, b: Snap)
    requires if !TakesAck(a.lastack, a.sndNxt, ackno) then b == a
             else
               && Popped(a.unacked, b.unacked, ackno) && Popped(a.unsent, b.unsent, ackno)
               && b.sndBuf == a.sndBuf + DataLen(a.unacked) + DataLen(a.unsent) - DataLen(b.unacked) - DataLen(b.unsent)
               && b == a.(unacked := b.unacked, unsent := b.unsent, lastack := ackno, sndBuf := b.sndBuf,
                          oversize := if b.unsent == [] then 0 else a.oversize)
    ensures DidAck(ackno, a, b)
  {
    hide Popped, DataLen, TakesAck;
  }

  lemma OutputSent(c: Circumstances, wnd: nat, attempts: seq<Attempt>, a: Snap, err: Err, b: Snap)
    requires a.lastack < U32 && !c.inInput && a.unsent != [] && c.route && InWindow(a.unsent[0], a.lastack, wnd)
    requires SentUpTo(a.unsent, b.unsent, attempts, a.lastack, wnd, err)
    requires Filing(a.unacked, a.sndNxt, a.unsent, |a.unsent| - |b.unsent|, b.unacked, b.sndNxt)
    requires b == a.(unacked := b.unacked, unsent := b.unsent, sndNxt := b.sndNxt,
                     oversize := if b.unsent == [] then 0 else a.oversize, memErr := err == Conn)
    ensures DidOutput(c, wnd, attempts, a, err, b)
  {
    hide SentUpTo, Filing, InWindow;
  }

  /** A new data segment: the data copied into a buffer, or referenced behind an empty one. */
  method BuildSegment(big: bool, seqno: nat, t: seq<Byte>, addr: nat, copy: bool, optlen: nat) returns (seg: Seg)
    requires t != [] && |t| <= 0xffff && seqno < U32
    ensures SegOk(big, seg) && Flat(seg.bufs) == t && !seg.ctl && seg.optlen == optlen && seg.seqno == seqno
    ensures seg.len == |t| && |seg.bufs| == Bufs(copy, 1) == (if copy then 1 else 2)
    ensures copy ==> !seg.bufs[0].rom
  {
    hide Running, RfcSum, SegAddChksum;
    var sum := Chksum2(big, addr, t);
    var c := SegAddChksum(sum, |t|, 0, false);
    if copy {
      seg := Seg(seqno, [Buf(false, 0, t)], |t|, optlen, false, c.0, c.1);
      FlatOne(seg.bufs[0]);
    } else {
      seg := Seg(seqno, [Buf(false, 0, [])] + [Buf(true, addr, t)], |t|, optlen, false, c.0, c.1);
      FlatAppend([Buf(false, 0, [])], [Buf(true, addr, t)]);
      FlatOne(Buf(false, 0, []));
      FlatOne(Buf(true, addr, t));
    }
    SummedEmpty(big);
    SegAddSummed(big, 0, false, [], t);
    assert [] + t == t;
  }

  lemma BuiltFits(seg: Seg, spare: nat, mss: nat)
    requires |seg.bufs| == 1 && !seg.bufs[0].rom && seg.len > 0 && !seg.ctl && seg.len + seg.optlen + spare <= mss
    ensures OversizeFits(seg, spare, mss)
  {
  }

  /** The last segment after the commit fits into the size, with its spare tail. */
  lemma TailFits(big: bool, before: seq<Seg>, ext: nat, arg: seq<Byte>, queue: seq<Seg>, after: seq<Seg>, lbb: nat,
                 mss: nat, spare: nat)
    requires WrittenQueue(big, before, ext, arg, after, lbb) && AllOk(big, queue, mss)
    requires |before| <= |after| && after[|before|..] == queue
    requires before != [] ==> before[|before| - 1].len + before[|before| - 1].optlen + ext <= mss
    requires spare > 0 ==> after != [] && OversizeFits(after[|after| - 1], spare, mss)
    ensures after != [] ==> after[|after| - 1].len + after[|after| - 1].optlen + spare <= mss
  {
    hide SegOk, Contiguous, Payload, Span, Flat;
    if queue != [] {
      assert after[|after| - 1] == queue[|queue| - 1];
    } else if before != [] {
      assert after[..|before|][|before| - 1] == after[|before| - 1];
    }
  }

  lemma SmallerFits(last: Seg, room: nat, mss: nat, mss': nat)
    requires OversizeFits(last, room, mss) && last.len + last.optlen + room <= mss'
    ensures OversizeFits(last, room, mss')
  {
  }

  lemma LargerFits(last: Seg, room: nat, mss: nat, mss': nat)
    requires OversizeFits(last, room, mss) && mss <= mss'
    ensures OversizeFits(last, room, mss')
  {
  }

  /** Phase 1 of tcp_write: the spare tail of the last unsent segment is filled. */
  method FillSpare(big: bool, unsent: seq<Seg>, mss: nat, oversize: nat, arg: seq<Byte>, ghost was: nat)
    returns (used: nat, space: nat, spare: nat)
    requires unsent != [] && !TooLarge(mss, unsent, oversize)
    requires oversize > 0 ==> OversizeFits(unsent[|unsent| - 1], oversize, was)
    ensures used == Min(Space(mss, unsent), Min(oversize, |arg|))
    ensures space == Space(mss, unsent) - used && spare == oversize - used
    ensures PlanOk(big, Plan(used, used, [], 0, false), arg)
    ensures spare > 0 ==>
              OversizeFits(Extended(big, unsent[|unsent| - 1], Plan(used, used, [], 0, false), arg), spare, mss)
  {
    hide PlanOk, Extended, OversizeFits;
    var last := unsent[|unsent| - 1];
    used, space, spare := 0, mss - (last.len + last.optlen), oversize;
    if spare > 0 {
      used := Min(space, Min(spare, |arg|));
      SmallerFits(last, spare, was, mss);
      FillLeavesRoom(big, last, used, arg, spare, mss);
      spare := spare - used;
      space := space - used;
    }
    PlanFill(big, arg, used);
  }

  class Pcb {
    const big: bool           // byte order of the host
    const sndQueuelenMax: nat // TCP_SND_QUEUELEN
    const oversize: nat       // TCP_OVERSIZE
    const align: nat          // MEM_ALIGNMENT
    const optlen: nat         // room for the options of a data segment
    var mssLocal: nat         // mss_local, from the mss and the largest window seen
    var sizeMax: nat          // the largest mss_local so far
    var nodelay: bool
    var writable: bool        // the state allows tcp_write
    var unacked: seq<Seg>
    var unsent: seq<Seg>
    var sndLbb: nat
    var sndNxt: nat
    var lastack: nat
    var sndBuf: nat
    var sndQueuelen: nat
    var unsentOversize: nat
    var nagleMemErr: bool
    /** Packet buffers and segments taken from the memory pools. */
    var livePbufs: int
    var liveSegs: int

    ghost predicate Valid()
      reads this`mssLocal, this`sizeMax, this`unacked, this`unsent, this`sndLbb, this`sndNxt, this`lastack,
            this`sndQueuelen, this`unsentOversize
    {
      && ValidQueues()
      && (unsentOversize > 0 ==> unsent != [] && OversizeFits(unsent[|unsent| - 1], unsentOversize, sizeMax))
    }

    ghost function Now(): Snap
      reads this
    {
      Snap(unacked, unsent, sndLbb, sndNxt, lastack, sndBuf, unsentOversize, mssLocal, nagleMemErr, writable)
    }

    function Settings(): Config {
      Config(big, sndQueuelenMax, optlen)
    }

    /** A connection whose initial sequence number is `iss`; nothing is queued. */
    constructor (big: bool, sndQueuelenMax: nat, oversize: nat, align: nat, optlen: nat, mssLocal: nat, sndBuf: nat,
                 iss: nat)
      requires align > 0 && optlen < mssLocal <= 0xffff && iss < U32
      ensures Valid() && this.sndBuf == sndBuf && unacked == [] && unsent == [] && unsentOversize == 0
      ensures sndNxt == lastack == sndLbb == iss && sndQueuelen == 0 && writable
      ensures this.big == big && this.sndQueuelenMax == sndQueuelenMax && this.optlen == optlen
      ensures this.mssLocal == sizeMax == mssLocal
    {
      this.big, this.sndQueuelenMax, this.oversize := big, sndQueuelenMax, oversize;
      this.align, this.optlen := align, optlen;
      this.mssLocal, sizeMax, nodelay, writable, this.sndBuf := mssLocal, mssLocal, false, true, sndBuf;
      sndNxt, lastack, sndLbb := iss, iss, iss;
      unacked, unsent, sndQueuelen, unsentOversize, nagleMemErr, livePbufs, liveSegs := [], [], 0, 0, false, 0, 0;
    }

    ghost predicate ValidQueues()
      reads this`mssLocal, this`sizeMax, this`unacked, this`unsent, this`sndLbb, this`sndNxt, this`lastack,
            this`sndQueuelen
    {
      && align > 0 && optlen < mssLocal <= sizeMax <= 0xffff
      && sndLbb < U32 && sndNxt < U32 && lastack < U32
      && AllOk(big, unacked, sizeMax) && AllOk(big, unsent, sizeMax)
      && sndQueuelen == Pbufs(unacked) + Pbufs(unsent)
    }

    /** tcp_write asserts that the last unsent segment is not too large. */
    predicate Aborts()
      reads this`mssLocal, this`unsent, this`unsentOversize
    {
      TooLarge(mssLocal, unsent, unsentOversize)
    }

    function ExtendLen(n: nat): int
      reads this`mssLocal, this`unsent, this`unsentOversize
    {
      Extent(mssLocal, unsent, unsentOversize, n)
    }

    predicate Joins(n: nat, argAddr: nat, copy: bool)
      reads this`mssLocal, this`unsent, this`unsentOversize
    {
      TakesBuffer(mssLocal, unsent, unsentOversize, n, argAddr, copy)
    }

    predicate Passes(n: nat)
      reads this`sndBuf, this`sndQueuelen
    {
      Checked(sndQueuelenMax, sndBuf, sndQueuelen, n)
    }

    /** The data fits into the send buffer and its buffers into the send queue. */
    predicate WriteFits(n: nat, argAddr: nat, copy: bool)
      reads this`mssLocal, this`unsent, this`unsentOversize, this`sndBuf, this`sndQueuelen
      requires optlen < mssLocal
    {
      Passes(n) && QueueFits(n, argAddr, copy)
    }

    predicate QueueFits(n: nat, argAddr: nat, copy: bool)
      reads this`mssLocal, this`unsent, this`unsentOversize, this`sndQueuelen
      requires optlen < mssLocal
    {
      FitsQueue(sndQueuelenMax, optlen, mssLocal, unsent, unsentOversize, sndQueuelen, n, argAddr, copy)
    }

    predicate RoomFor(queuelen: nat, n: nat, copy: bool)
      reads this`mssLocal
      requires optlen < mssLocal
    {
      Room(sndQueuelenMax, optlen, mssLocal, queuelen, n, copy)
    }

    /** tcp_pbuf_prealloc: spare bytes behind a new buffer. */
    function Spare(length: nat, maxLength: nat, more: bool, first: bool): (r: nat)
      reads this`nodelay, this`unsent, this`unacked
      requires align > 0 && length <= maxLength
      ensures r <= maxLength - length
    {
      if length < maxLength && (more || (!nodelay && (!first || unsent != [] || unacked != [])))
      then var alloc := Min(maxLength, AlignUp(length + oversize, align));
           if alloc > length then alloc - length else 0
      else 0
    }

    /** Phase 2 of tcp_write: up to `space` bytes from position `used` on are appended to the
        segment `last`.  `alloc(k)` says whether the k-th allocation succeeds. */
    method PlanJoin(last: Seg, used: nat, space: nat, arg: seq<Byte>, argAddr: nat, copy: bool, more: bool,
                    alloc: nat -> bool)
      returns (ok: bool, plan: Plan, spare: nat)
      requires align > 0 && SegOk(big, last) && last.len > 0 && used < |arg| <= 0xffff && space > 0
      requires last.len + last.optlen + used + space <= mssLocal <= 0xffff
      modifies this`livePbufs
      ensures PlanOk(big, plan, arg) && plan.used == used
      ensures livePbufs == old(livePbufs) + |plan.concat|
      ensures plan.pos == if ok then used + Min(space, |arg| - used) else used
      ensures ok <==> !Allocates(last, argAddr, copy) || alloc(0)
      ensures ok ==> |plan.concat| == if Allocates(last, argAddr, copy) then 1 else 0
      ensures ok && spare > 0 ==>
                plan.pos == |arg| && OversizeFits(Extended(big, last, plan, arg), spare, mssLocal)
    {
      hide SegOk, SegAddChksum, RfcSum, PlanOk, Extended, Running, Spare, OversizeFits;
      SegBasics(big, last);
      var pos := used + Min(space, |arg| - used);
      var t := arg[used..pos];
      var sum := Chksum2(big, argAddr + used, t);
      var c := SegAddChksum(sum, pos - used, 0, false);
      spare := 0;
      var tail := last.bufs[|last.bufs| - 1];
      if !copy && tail.rom && tail.addr + |tail.payload| == argAddr {
        plan := Plan(used, pos, [], c.0, c.1);
        PlanJoined(big, arg, used, pos, [], c);
      } else if !alloc(0) {
        PlanFill(big, arg, used);
        return false, Plan(used, used, [], 0, false), 0;
      } else {
        livePbufs := livePbufs + 1;
        var concat := [if copy then Buf(false, 0, t) else Buf(true, argAddr + used, t)];
        plan := Plan(used, pos, concat, c.0, c.1);
        PlanJoined(big, arg, used, pos, concat, c);
        if copy {
          spare := Spare(pos - used, space, more, true);
          CopyLeavesRoom(big, last, plan, arg, spare, mssLocal);
        }
      }
      ok := true;
    }

    /** Phases 1 and 2 of tcp_write: what is added to the last unsent segment. */
    method PlanAppend(arg: seq<Byte>, argAddr: nat, copy: bool, more: bool, alloc: nat -> bool)
      returns (ok: bool, plan: Plan, spare: nat)
      requires Valid() && !Aborts() && |arg| <= 0xffff
      modifies this`livePbufs
      ensures PlanOk(big, plan, arg) && plan.pos <= ExtendLen(|arg|)
      ensures livePbufs == old(livePbufs) + |plan.concat|
      ensures ok ==> plan.pos == ExtendLen(|arg|)
      ensures ok <==> !Joins(|arg|, argAddr, copy) || alloc(0)
      ensures ok ==> |plan.concat| == if Joins(|arg|, argAddr, copy) then 1 else 0
      ensures ok && arg == [] ==> spare == unsentOversize
      ensures ok && spare > 0 ==>
                && plan.pos == |arg| && unsent != []
                && OversizeFits(Extended(big, unsent[|unsent| - 1], plan, arg), spare, mssLocal)
    {
      hide SegOk, SegAddChksum, RfcSum, PlanOk, Extended, Running, Spare, AllOk, Pbufs, OversizeFits, Allocates;
      PlanFill(big, arg, 0);
      if unsent == [] {
        return true, Plan(0, 0, [], 0, false), 0;
      }
      var last := unsent[|unsent| - 1];
      AllOkAt(big, unsent, sizeMax, |unsent| - 1);
      var used, space;
      used, space, spare := FillSpare(big, unsent, mssLocal, unsentOversize, arg, sizeMax);
      ok, plan := true, Plan(used, used, [], 0, false);
      if used < |arg| && space > 0 && last.len > 0 {
        ok, plan, spare := PlanJoin(last, used, space, arg, argAddr, copy, more, alloc);
      }
    }

    /** One round of phase 3 of tcp_write: a new segment for the bytes `t` at `pos`.  On failure
        everything it allocated has been released. */
    method NewSegment(t: seq<Byte>, addr: nat, pos: nat, copy: bool, more: bool, first: bool, queuelen: nat,
                      alloc: nat -> bool, k: nat)
      returns (ok: bool, seg: Seg, spare: nat)
      requires align > 0 && t != [] && |t| + optlen <= mssLocal <= 0xffff
      modifies this`livePbufs, this`liveSegs
      ensures ok ==>
                && SegOk(big, seg) && Flat(seg.bufs) == t && !seg.ctl && seg.optlen == optlen
                && seg.seqno == Seq(sndLbb + pos) && seg.len == |t|
                && livePbufs == old(livePbufs) + |seg.bufs| && liveSegs == old(liveSegs) + 1
                && queuelen + |seg.bufs| <= Min(sndQueuelenMax, QUEUELEN_OVERFLOW)
                && (spare > 0 ==> OversizeFits(seg, spare, mssLocal))
      ensures !ok ==> livePbufs == old(livePbufs) && liveSegs == old(liveSegs)
      ensures ok ==> |seg.bufs| == Bufs(copy, 1)
      ensures Plenty(alloc) && queuelen + Bufs(copy, 1) <= Min(sndQueuelenMax, QUEUELEN_OVERFLOW) ==> ok
    {
      hide SegOk, Spare, OversizeFits, Flat, Bufs, Seq;
      seg := BuildSegment(big, Seq(sndLbb + pos), t, addr, copy, optlen);
      spare := 0;
      if copy {
        if !alloc(k) {
          return false, seg, 0;
        }
        livePbufs := livePbufs + 1;
        spare := Spare(|t| + optlen, mssLocal, more, first);
      } else {
        if !alloc(k) {
          return false, seg, 0;
        }
        livePbufs := livePbufs + 1;
        if !alloc(k + 1) {
          livePbufs := livePbufs - 1;
          return false, seg, 0;
        }
        livePbufs := livePbufs + 1;
      }
      if queuelen + |seg.bufs| > Min(sndQueuelenMax, QUEUELEN_OVERFLOW) || !alloc(k + 2) {
        livePbufs := livePbufs - |seg.bufs|;
        return false, seg, 0;
      }
      liveSegs := liveSegs + 1;
      if spare > 0 {
        BuiltFits(seg, spare, mssLocal);
      }
      ok := true;
    }

    /** Phase 3 of tcp_write: new segments for the rest of the data. */
    method NewSegments(arg: seq<Byte>, from: nat, argAddr: nat, copy: bool, more: bool, queuelen: nat,
                       alloc: nat -> bool)
      returns (ok: bool, queue: seq<Seg>, spare: nat)
      requires Valid() && from <= |arg| <= 0xffff
      modifies this`livePbufs, this`liveSegs
      ensures AllOk(big, queue, mssLocal) && Contiguous(queue, sndLbb + from)
      ensures livePbufs == old(livePbufs) + Pbufs(queue) && liveSegs == old(liveSegs) + |queue|
      ensures ok ==> Payload(queue) == arg[from..] && Span(queue) == |arg| - from
      ensures ok && spare > 0 ==> queue != [] && OversizeFits(queue[|queue| - 1], spare, mssLocal)
      ensures from == |arg| ==> queue == []
      ensures ok ==> |queue| == Segments(|arg| - from, mssLocal - optlen) && Pbufs(queue) == Bufs(copy, |queue|)
      ensures AllWithOptions(queue, optlen)
      ensures ok && from < |arg| ==> RoomFor(queuelen, |arg| - from, copy)
      ensures Plenty(alloc) && (from < |arg| ==> RoomFor(queuelen, |arg| - from, copy)) ==> ok
    {
      hide SegOk, OversizeFits, Flat, Contiguous, Payload, Span, Pbufs, AllOk, Segments, Seq, AllWithOptions;
      var pos := from;
      queue, spare := [], 0;
      assert AllWithOptions([], optlen) by { NoOptions(optlen); }
      QueueEmpty(sndLbb + from);
      NoneOk(big, mssLocal);
      while pos < |arg|
        invariant from <= pos <= |arg| && Valid()
        invariant AllOk(big, queue, mssLocal) && Contiguous(queue, sndLbb + from)
        invariant Payload(queue) == arg[from..pos] && Span(queue) == pos - from && (pos == from ==> queue == [])
        invariant livePbufs == old(livePbufs) + Pbufs(queue) && liveSegs == old(liveSegs) + |queue|
        invariant spare > 0 ==> queue != [] && OversizeFits(queue[|queue| - 1], spare, mssLocal)
        invariant Segments(|arg| - from, mssLocal - optlen) == |queue| + Segments(|arg| - pos, mssLocal - optlen)
        invariant Pbufs(queue) == Bufs(copy, |queue|) && AllWithOptions(queue, optlen)
        invariant queue != [] ==> queuelen + Pbufs(queue) <= Min(sndQueuelenMax, QUEUELEN_OVERFLOW)
      {
        var seglen := Min(|arg| - pos, mssLocal - optlen);
        var t := arg[pos..pos + seglen];
        SegmentsStep(|arg| - pos, mssLocal - optlen);
        var made, seg, room := NewSegment(t, argAddr + pos, pos, copy, more, queue == [], queuelen + Pbufs(queue),
            alloc, 1 + 3 * |queue|);
        if !made {
          return false, queue, 0;
        }
        QueueSnoc(queue, seg, sndLbb + from);
        SnocOk(big, queue, seg, mssLocal);
        SnocOptions(queue, seg, optlen);
        assert arg[from..pos] + t == arg[from..pos + seglen];
        queue, spare := queue + [seg], room;
        pos := pos + seglen;
      }
      assert arg[from..pos] == arg[from..];
      SegmentsNone(mssLocal - optlen);
      ok := true;
    }

    /** An MSS option in a packet, or a larger window than before: the segment size may grow or fall.
        The next tcp_write aborts if and only if the last unsent segment exceeds the new maximum or
        half the new window. */
    method Resize(mss: nat, wndMax: nat)
      requires Valid() && 0 < mss <= 0xffff && optlen < SizeFor(mss, wndMax, optlen)
      modifies this`mssLocal, this`sizeMax
      ensures Valid() && mssLocal == SizeFor(mss, wndMax, optlen)
      ensures sizeMax == if old(sizeMax) < mssLocal then mssLocal else old(sizeMax)
      ensures Aborts() <==>
                unsent != [] &&
                var n := unsent[|unsent| - 1].len + unsent[|unsent| - 1].optlen + unsentOversize;
                (mss < n || (2 <= wndMax && wndMax / 2 < n)) && !(optlen > 0 && n <= OPT_LEN_TS + 1)
    {
      hide SegOk, AllOk, SizeFor;
      SizeBound(mss, wndMax, optlen);
      if unsent != [] {
        AllOkAt(big, unsent, sizeMax, |unsent| - 1);
        var n := unsent[|unsent| - 1].len + unsent[|unsent| - 1].optlen + unsentOversize;
        if n > 0 {
          SizeForIff(mss, wndMax, optlen, n);
        }
      }
      mssLocal := SizeFor(mss, wndMax, optlen);
      if sizeMax < mssLocal {
        LargerOk(big, unacked, sizeMax, mssLocal);
        LargerOk(big, unsent, sizeMax, mssLocal);
        sizeMax := mssLocal;
      }
    }

    /** The last part of tcp_write: all phases were successful. */
    method Commit(arg: seq<Byte>, plan: Plan, queue: seq<Seg>, spare: nat)
      requires Valid() && !Aborts() && PlanOk(big, plan, arg) && plan.pos == ExtendLen(|arg|) && |arg| <= sndBuf
      requires AllOk(big, queue, mssLocal) && Contiguous(queue, sndLbb + plan.pos)
      requires Payload(queue) == arg[plan.pos..] && Span(queue) == |arg| - plan.pos
      requires spare > 0 ==> SpareOk(plan, queue, arg, spare)
      modifies this`unsent, this`sndLbb, this`sndBuf, this`sndQueuelen, this`unsentOversize
      ensures Valid()
      ensures WrittenQueue(big, old(unsent), old(ExtendLen(|arg|)), arg, unsent, old(sndLbb))
      ensures sndBuf == old(sndBuf) - |arg| && sndLbb == Seq(old(sndLbb) + |arg|) && unsentOversize == spare
      ensures sndQueuelen == old(sndQueuelen) + |plan.concat| + Pbufs(queue)
      ensures |unsent| == old(|unsent|) + |queue| && unsent[old(|unsent|)..] == queue
      ensures arg == [] && queue == [] ==> unsent == old(unsent)
      ensures !Aborts()
    {
      hide Contiguous, Payload, Span, Pbufs, Extended, WrittenQueue, AllOk, PlanOk, OversizeFits, Seq;
      PlanBounds(big, plan, arg);
      if unsent != [] {
        AllOkAt(big, unsent, sizeMax, |unsent| - 1);
        if unsentOversize > 0 {
          OversizeData(unsent[|unsent| - 1], unsentOversize, sizeMax);
        }
      }
      LargerOk(big, queue, mssLocal, sizeMax);
      var after := Committed(big, unsent, plan, arg, queue, sizeMax, sndLbb);
      TailFits(big, unsent, plan.pos, arg, queue, after, sndLbb, mssLocal, spare);
      if spare > 0 {
        LargerFits(after[|after| - 1], spare, mssLocal, sizeMax);
      }
      Store(after, |arg|, |plan.concat| + Pbufs(queue), spare);
    }

    /** The fields that a successful tcp_write changes. */
    method Store(after: seq<Seg>, len: nat, bufs: nat, spare: nat)
      requires ValidQueues() && AllOk(big, after, sizeMax) && Pbufs(after) == Pbufs(unsent) + bufs && len <= sndBuf
      requires spare > 0 ==> after != [] && OversizeFits(after[|after| - 1], spare, sizeMax)
      modifies this`unsent, this`sndLbb, this`sndBuf, this`sndQueuelen, this`unsentOversize
      ensures Valid() && unsent == after && unsentOversize == spare
      ensures sndBuf == old(sndBuf) - len && sndLbb == Seq(old(sndLbb) + len) && sndQueuelen == old(sndQueuelen) + bufs
    {
      hide Pbufs, AllOk, OversizeFits, Seq;
      unsent := after;
      unsentOversize := spare;
      sndLbb := Seq(sndLbb + len);
      sndBuf := sndBuf - len;
      sndQueuelen := sndQueuelen + bufs;
    }

    /** The three phases of tcp_write, recorded in local variables.  On failure every temporary
        buffer and segment has been released. */
    method Segmentation(arg: seq<Byte>, argAddr: nat, copy: bool, more: bool, alloc: nat -> bool)
      returns (ok: bool, plan: Plan, queue: seq<Seg>, spare: nat)
      requires Valid() && !Aborts() && |arg| <= 0xffff
      modifies this`livePbufs, this`liveSegs
      ensures !ok ==> livePbufs == old(livePbufs) && liveSegs == old(liveSegs)
      ensures ok ==>
                && PlanOk(big, plan, arg) && plan.pos == ExtendLen(|arg|)
                && AllOk(big, queue, mssLocal) && Contiguous(queue, sndLbb + plan.pos)
                && Payload(queue) == arg[plan.pos..] && Span(queue) == |arg| - plan.pos
                && livePbufs == old(livePbufs) + |plan.concat| + Pbufs(queue) && liveSegs == old(liveSegs) + |queue|
                && (arg == [] ==> queue == [] && spare == unsentOversize)
      ensures ok && spare > 0 ==> SpareOk(plan, queue, arg, spare)
      ensures ok ==> |queue| == Segments(|arg| - plan.pos, mssLocal - optlen) && Pbufs(queue) == Bufs(copy, |queue|)
      ensures ok ==> |plan.concat| == (if Joins(|arg|, argAddr, copy) then 1 else 0) && AllWithOptions(queue, optlen)
      ensures ok ==> QueueFits(|arg|, argAddr, copy)
      ensures Plenty(alloc) && QueueFits(|arg|, argAddr, copy) ==> ok
    {
      hide SegOk, Contiguous, Payload, Span, Pbufs, PlanOk, Extended, AllOk, OversizeFits, Extent, TakesBuffer, Room,
           Segments, AllWithOptions, TooLarge;
      ok, plan, spare := PlanAppend(arg, argAddr, copy, more, alloc);
      PlanBounds(big, plan, arg);
      queue := [];
      if !ok {
        livePbufs := livePbufs - |plan.concat|;
        return;
      }
      if unsent != [] {
        AllOkAt(big, unsent, sizeMax, |unsent| - 1);
      }
      var room;
      ok, queue, room := NewSegments(arg, plan.pos, argAddr, copy, more, sndQueuelen + |plan.concat|, alloc);
      if !ok {
        livePbufs := livePbufs - Pbufs(queue) - |plan.concat|;
        liveSegs := liveSegs - |queue|;
        return;
      }
      if queue != [] {
        spare := room;
      }
    }

    /** The spare bytes lie behind the last byte written. */
    ghost predicate SpareOk(plan: Plan, queue: seq<Seg>, arg: seq<Byte>, spare: nat)
      reads this`mssLocal, this`unsent
    {
      if queue != [] then OversizeFits(queue[|queue| - 1], spare, mssLocal)
      else
        && unsent != [] && unsent[|unsent| - 1].bufs != [] && plan.used <= plan.pos <= |arg|
        && OversizeFits(Extended(big, unsent[|unsent| - 1], plan, arg), spare, mssLocal)
    }

    /** tcp_write: all or nothing. */
    method Write(arg: seq<Byte>, argAddr: nat, copy: bool, more: bool, alloc: nat -> bool) returns (err: Err)
      requires Valid() && |arg| <= 0xffff
      modifies this`unsent, this`sndLbb, this`sndBuf, this`sndQueuelen, this`unsentOversize,
               this`nagleMemErr, this`livePbufs, this`liveSegs
      ensures Valid() && DidWrite(Settings(), arg, argAddr, copy, alloc, old(Now()), err, Now())
      ensures livePbufs - old(livePbufs) == sndQueuelen - old(sndQueuelen)
      ensures liveSegs - old(liveSegs) == |unsent| - old(|unsent|)
      ensures err == Ok && arg == [] ==> unsent == old(unsent) && unsentOversize == old(unsentOversize)
      ensures err == Ok ==>
                && old(|unsent|) <= |unsent|
                && sndQueuelen == old(sndQueuelen) + (if old(Joins(|arg|, argAddr, copy)) then 1 else 0)
                                  + Bufs(copy, |unsent| - old(|unsent|))
                && AllWithOptions(unsent[old(|unsent|)..], optlen)
                && !Aborts() && AllOk(big, unsent[old(|unsent|)..], mssLocal)
    {
      hide SegOk, Pbufs, WrittenQueue, AllOk, OversizeFits, Segments, AllWithOptions, Extent, TakesBuffer, TooLarge,
           FitsQueue, Seq, DidWrite, Bufs, Checked;
      ghost var was := Now();
      if !writable {
        WriteRefused(Settings(), arg, argAddr, copy, alloc, was, Conn, Now());
        return Conn;
      }
      if !Passes(|arg|) {
        nagleMemErr := true;
        WriteRefused(Settings(), arg, argAddr, copy, alloc, was, Mem, Now());
        return Mem;
      }
      if Aborts() {
        WriteRefused(Settings(), arg, argAddr, copy, alloc, was, Abort, Now());
        return Abort;
      }
      err := WriteSegments(arg, argAddr, copy, more, alloc);
    }

    /** tcp_write after its checks. */
    method WriteSegments(arg: seq<Byte>, argAddr: nat, copy: bool, more: bool, alloc: nat -> bool) returns (err: Err)
      requires Valid() && |arg| <= 0xffff && writable && Passes(|arg|) && !Aborts()
      modifies this`unsent, this`sndLbb, this`sndBuf, this`sndQueuelen, this`unsentOversize,
               this`nagleMemErr, this`livePbufs, this`liveSegs
      ensures Valid() && DidWrite(Settings(), arg, argAddr, copy, alloc, old(Now()), err, Now())
      ensures livePbufs - old(livePbufs) == sndQueuelen - old(sndQueuelen)
      ensures liveSegs - old(liveSegs) == |unsent| - old(|unsent|)
      ensures err == Ok && arg == [] ==> unsent == old(unsent) && unsentOversize == old(unsentOversize)
      ensures err == Ok ==>
                && old(|unsent|) <= |unsent|
                && sndQueuelen == old(sndQueuelen) + (if old(Joins(|arg|, argAddr, copy)) then 1 else 0)
                                  + Bufs(copy, |unsent| - old(|unsent|))
                && AllWithOptions(unsent[old(|unsent|)..], optlen)
                && !Aborts() && AllOk(big, unsent[old(|unsent|)..], mssLocal)
    {
      hide SegOk, Contiguous, Payload, Span, Pbufs, PlanOk, Extended, WrittenQueue, AllOk, OversizeFits, SpareOk,
           Segments, AllWithOptions, Extent, TakesBuffer, TooLarge, FitsQueue, Seq, DidWrite;
      ghost var was := Now();
      var ok, plan, queue, spare := Segmentation(arg, argAddr, copy, more, alloc);
      if !ok {
        nagleMemErr := true;
        WriteRefused(Settings(), arg, argAddr, copy, alloc, was, Mem, Now());
        return Mem;
      }
      PlanBounds(big, plan, arg);
      Commit(arg, plan, queue, spare);
      WriteDone(Settings(), arg, argAddr, copy, alloc, was, Now());
      err := Ok;
    }

    // --- tcp_split_unsent_seg ----------------------------------------------------------------

    /** tcp_split_unsent_seg: the head of the unsent queue keeps `split` bytes, a new segment
        behind it gets the rest.  On any error the queues stay as they are. */
    method Split(split: nat, alloc: nat -> bool) returns (err: Err)
      requires Valid()
      modifies this`unsent, this`sndQueuelen, this`unsentOversize
      ensures Valid()
      ensures DidSplit(Settings(), split, alloc, old(Now()), err, Now())
    {
      hide SegOk, AllOk, Pbufs, Flat, SplitInto, OversizeFits;
      if unsent == [] {
        return Mem;
      }
      if split == 0 {
        return Val;
      }
      var useg := unsent[0];
      if useg.len <= split {
        return Ok;
      }
      if !alloc(0) || !alloc(1) {
        return Mem;
      }
      AllOkAt(big, unsent, sizeMax, 0);
      var head, seg := SplitSegment(big, useg, split);
      assert Pbufs(unsent) >= |useg.bufs| by { PbufsHead(unsent); }
      sndQueuelen := sndQueuelen - |useg.bufs|;
      sndQueuelen := sndQueuelen + |head.bufs|;
      sndQueuelen := sndQueuelen + |seg.bufs|;
      SplitQueue(big, unsent, head, seg, sizeMax);
      unsent := [head, seg] + unsent[1..];
      if |unsent| == 2 {
        unsentOversize := 0;
      }
      err := Ok;
    }

    // --- tcp_enqueue_flags -------------------------------------------------------------------

    /** tcp_enqueue_flags: a segment without data that takes up one sequence number. */
    method EnqueueFlags(opts: nat, alloc: nat -> bool) returns (err: Err)
      requires Valid() && opts <= sizeMax
      modifies this`unsent, this`sndLbb, this`sndQueuelen, this`unsentOversize, this`nagleMemErr,
               this`livePbufs, this`liveSegs
      ensures Valid() && livePbufs - old(livePbufs) == sndQueuelen - old(sndQueuelen)
      ensures liveSegs - old(liveSegs) == |unsent| - old(|unsent|)
      ensures DidFlags(opts, alloc, old(Now()), err, Now())
    {
      hide AllOk, Pbufs, OversizeFits, Flat, DidFlags, Seq;
      ghost var was := Now();
      if !alloc(0) || !alloc(1) {
        nagleMemErr := true;
        FlagsRefused(opts, alloc, was, Now());
        return Mem;
      }
      var seg := Seg(sndLbb, [Buf(false, 0, [])], 0, opts, true, 0, false);
      FlagsQueue(big, unsent, seg, sizeMax);
      QueueLast(seg);
      FlagsDone(alloc, was, seg, Now());
      err := Ok;
    }

    /** A segment without data becomes the last unsent one. */
    method QueueLast(seg: Seg)
      modifies this`unsent, this`sndLbb, this`sndQueuelen, this`unsentOversize, this`livePbufs, this`liveSegs
      ensures unsent == old(unsent) + [seg] && unsentOversize == 0 && sndLbb == Seq(old(sndLbb) + 1)
      ensures sndQueuelen == old(sndQueuelen) + |seg.bufs|
      ensures livePbufs == old(livePbufs) + |seg.bufs| && liveSegs == old(liveSegs) + 1
    {
      livePbufs, liveSegs := livePbufs + |seg.bufs|, liveSegs + 1;
      unsent := unsent + [seg];
      unsentOversize := 0;
      sndLbb := Seq(sndLbb + 1);
      sndQueuelen := sndQueuelen + |seg.bufs|;
    }

    // --- tcp_output and retransmission -------------------------------------------------------

    /** All queued segments. */
    ghost function Queued(): multiset<Seg>
      reads this`unacked, this`unsent
    {
      multiset(unacked) + multiset(unsent)
    }

    /** tcp_output gets as far as looking at the window. */
    predicate Begins(c: Circumstances, wnd: nat)
      reads this`unsent, this`lastack
    {
      !c.inInput && unsent != [] && c.route && lastack < U32 && InWindow(unsent[0], lastack, wnd)
    }

    /** tcp_output; `una` is the oldest unacknowledged position and `bound` limits how far snd_nxt can
        get.  The unacknowledged queue stays in order, and strictly so if and only if no two of the
        segments in it share a number. */
    method Output(c: Circumstances, wnd: nat, attempts: seq<Attempt>, ghost una: nat, ghost bound: nat)
      returns (err: Err)
      requires Valid() && Spread(una, Queued()) && Rising(una, unacked)
      requires Within(una, Queued(), bound) && Pos(una, sndNxt) <= bound < HALF
      modifies this`unacked, this`unsent, this`sndNxt, this`unsentOversize, this`nagleMemErr
      ensures Valid() && Queued() == old(Queued()) && DidOutput(c, wnd, attempts, old(Now()), err, Now())
      ensures Pos(una, old(sndNxt)) <= Pos(una, sndNxt) <= bound
      ensures Covered(una, old(unsent), |old(unsent)| - |unsent|, sndNxt)
      ensures Rising(una, unacked)
      ensures Sorted(una, unacked) <==> Apart(old(unacked) + old(unsent)[..|old(unsent)| - |unsent|])
    {
      hide *;
      if !Begins(c, wnd) {
        NothingMoved(una, this);
        err := Idle(c, wnd, attempts);
        return;
      }
      err := SendAll(c, wnd, attempts, una, bound);
    }

    /** The part of tcp_output that sends. */
    method SendAll(c: Circumstances, wnd: nat, attempts: seq<Attempt>, ghost una: nat, ghost bound: nat)
      returns (err: Err)
      requires Valid() && Spread(una, Queued()) && Rising(una, unacked) && Begins(c, wnd)
      requires Within(una, Queued(), bound) && Pos(una, sndNxt) <= bound < HALF
      modifies this`unacked, this`unsent, this`sndNxt, this`unsentOversize, this`nagleMemErr
      ensures Valid() && Queued() == old(Queued()) && DidOutput(c, wnd, attempts, old(Now()), err, Now())
      ensures Pos(una, old(sndNxt)) <= Pos(una, sndNxt) <= bound
      ensures Covered(una, old(unsent), |old(unsent)| - |unsent|, sndNxt)
      ensures Rising(una, unacked)
      ensures Sorted(una, unacked) <==> Apart(old(unacked) + old(unsent)[..|old(unsent)| - |unsent|])
    {
      hide AllOk, Pbufs, OversizeFits, Pos, Sorted, Rising, Spread, Within, Covered, SentUpTo, InWindow, Apart,
           Filing, DidOutput;
      ghost var before, was, q := Now(), unacked, unsent;
      var filed, rest, nxt;
      filed, rest, nxt, err :=
        SendWhile(big, sizeMax, unacked, unsent, sndNxt, lastack, wnd, attempts, una, bound, Queued(), sndQueuelen);
      SentTail(q, rest, attempts, lastack, wnd, err);
      MovedStrict(una, Queued(), was, q, filed, rest);
      Settle(filed, rest, nxt, err == Conn);
      OutputSent(c, wnd, attempts, before, err, Now());
    }

    /** The queues and flags when the loop has ended. */
    method Settle(filed: seq<Seg>, rest: seq<Seg>, nxt: nat, failed: bool)
      modifies this`unacked, this`unsent, this`sndNxt, this`unsentOversize, this`nagleMemErr
      ensures unacked == filed && unsent == rest && sndNxt == nxt && nagleMemErr == failed
      ensures unsentOversize == if rest == [] then 0 else old(unsentOversize)
    {
      unacked, unsent, sndNxt := filed, rest, nxt;
      if unsent == [] {
        unsentOversize := 0;
      }
      nagleMemErr := failed;
    }

    /** The ways out of tcp_output before its loop. */
    method Idle(c: Circumstances, wnd: nat, attempts: seq<Attempt>) returns (err: Err)
      requires Valid() && !Begins(c, wnd)
      modifies this`nagleMemErr
      ensures DidOutput(c, wnd, attempts, old(Now()), err, Now())
    {
      hide AllOk, Pbufs, InWindow, SentUpTo, Filing;
      if c.inInput {
        return Ok;
      }
      if unsent != [] && !c.route {
        return Rte;
      }
      // nothing to send, or nothing that fits into the window
      if c.ackNow {
        return if c.ackSent then Ok else NoBuf;
      }
      nagleMemErr := false;
      err := Ok;
    }

    /** tcp_rexmit: the first unacknowledged segment goes back to its place in `unsent`, unless
        the driver still holds it. */
    method Rexmit(busy: bool, ghost una: nat) returns (err: Err)
      requires Valid()
      modifies this`unacked, this`unsent, this`unsentOversize
      ensures Valid() && Queued() == old(Queued())
      ensures err == if old(unacked) == [] || busy then Val else Ok
      ensures err != Ok ==> unacked == old(unacked) && unsent == old(unsent) && unsentOversize == old(unsentOversize)
      ensures err == Ok ==> unacked == old(unacked)[1..] && unsent == Backed(old(unsent), old(unacked)[0])
      ensures err == Ok && Spread(una, old(Queued())) && Rising(una, old(unsent)) ==> Rising(una, unsent)
      ensures err == Ok && Placed(una, old(Queued())) && Sorted(una, old(unsent)) ==> Sorted(una, unsent)
      ensures err == Ok ==>
                unsentOversize == if GoesLast(old(unsent), old(unacked)[0]) then 0 else old(unsentOversize)
      ensures unsentOversize > 0 ==>
                && unsentOversize == old(unsentOversize) && unsent != [] && old(unsent) != []
                && unsent[|unsent| - 1] == old(unsent)[|old(unsent)| - 1]
      ensures DidRexmit(busy, old(Now()), err, Now())
    {
      hide AllOk, Pbufs, OversizeFits, SeqLt, Placed, Sorted, Rising, Spread, Apart, Backed, GoesLast;
      if unacked == [] || busy {
        return Val;
      }
      var k;
      unacked, unsent, k := PutBack(big, sizeMax, unacked, unsent, una);
      if k + 1 == |unsent| {
        unsentOversize := 0;
      }
      err := Ok;
    }

    /** tcp_rexmit_rto_prepare: all unacknowledged segments go in front of the unsent ones,
        unless the driver still holds one of them. */
    method RexmitRtoPrepare(busy: set<nat>) returns (err: Err)
      requires Valid()
      modifies this`unacked, this`unsent
      ensures Valid() && Queued() == old(Queued())
      ensures DidTimeout(busy, old(Now()), err, Now())
    {
      hide AllOk, Pbufs, OversizeFits;
      if unacked == [] {
        return Val;
      }
      var held := AnyBusy(|unacked|, busy);
      if held {
        return Val;
      }
      AllOkAppend(big, unacked, unsent, sizeMax);
      SpanAppend(unacked, unsent);
      QueueEmpty(0);
      NoneOk(big, sizeMax);
      TailOfBoth(unacked, unsent);
      unacked, unsent := [], unacked + unsent;
      err := Ok;
    }

    predicate Accepts(ackno: nat)
      reads this`lastack, this`sndNxt
    {
      TakesAck(lastack, sndNxt, ackno)
    }

    /** The part of tcp_receive that handles an acknowledgement of new data: acknowledged
        segments leave both queues and their buffer space becomes available again. */
    method Ack(ackno: nat)
      requires Valid() && ackno < U32
      modifies this`unacked, this`unsent, this`lastack, this`sndBuf, this`sndQueuelen, this`unsentOversize
      ensures Valid()
      ensures DidAck(ackno, old(Now()), Now())
    {
      hide AllOk, Pbufs, OversizeFits, DataLen, Popped, TakesAck, DidAck;
      ghost var was := Now();
      if Accepts(ackno) {
        var q, clen, acked := DropAcked(big, sizeMax, unacked, ackno);
        var q', clen', acked' := DropAcked(big, sizeMax, unsent, ackno);
        PoppedTail(unsent, q', ackno);
        Release(ackno, q, clen, q', clen', acked + acked');
      }
      AckDone(ackno, was, Now());
    }

    /** What is left of the queues, and the space that has become available. */
    method Release(ackno: nat, q: seq<Seg>, clen: nat, q': seq<Seg>, clen': nat, acked: nat)
      requires clen + clen' <= sndQueuelen
      modifies this`unacked, this`unsent, this`lastack, this`sndBuf, this`sndQueuelen, this`unsentOversize
      ensures unacked == q && unsent == q' && lastack == ackno && sndBuf == old(sndBuf) + acked
      ensures sndQueuelen == old(sndQueuelen) - clen - clen'
      ensures unsentOversize == if q' == [] then 0 else old(unsentOversize)
    {
      lastack := ackno;
      unacked := q;
      sndQueuelen := sndQueuelen - clen;
      unsent := q';
      sndQueuelen := sndQueuelen - clen';
      if unsent == [] {
        unsentOversize := 0;
      }
      sndBuf := sndBuf + acked;
    }
  }

  /** The assertion can fail only after the size has fallen below what it once was. */
  lemma AbortsOnlyFallen(pcb: Pcb)
    requires pcb.Valid() && pcb.Aborts()
    ensures pcb.mssLocal < pcb.sizeMax
  {
    hide SegOk, AllOk;
    AllOkAt(pcb.big, pcb.unsent, pcb.sizeMax, |pcb.unsent| - 1);
  }
}
