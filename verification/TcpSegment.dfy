/** TCP segments on the send queues of src/core/tcp_out.c: sequence arithmetic, contiguity, and
    the checksum that is kept up to date while data is copied in. */
module TcpSegment {
  import opened Bytes
  import opened Checksum
  import opened ChainChecksum

  // --- Sequence numbers (section 3.4 of RFC 9293) --------------------------------------------

  function Seq(n: nat): (s: nat)
    ensures s < U32
  {
    n % U32
  }

  /** TCP_SEQ_LT: the 32-bit difference, read as a signed number, is negative. */
  predicate SeqLt(a: nat, b: nat) {
    (a - b) % U32 >= 0x8000_0000
  }

  // --- Segments ------------------------------------------------------------------------------

  /** struct tcp_seg.  `ctl` says that the header carries SYN or FIN, which takes up one sequence
      number; `optlen` is the room its options need. */
  datatype Seg = Seg(seqno: nat, bufs: seq<Buf>, len: nat, optlen: nat, ctl: bool, chksum: nat, swapped: bool)

  /** TCP_TCPLEN */
  function TcpLen(s: Seg): nat {
    s.len + if s.ctl then 1 else 0
  }

  /** The checksum fields describe the bytes `data`. */
  ghost predicate Summed(big: bool, chksum: nat, swapped: bool, data: seq<Byte>) {
    swapped == Odd(data) && chksum == Running(big, swapped, data)
  }

  ghost predicate SegOk(big: bool, s: Seg) {
    && s.seqno < U32 && s.bufs != [] && s.len == |Flat(s.bufs)| <= 0xffff
    && TcpLen(s) > 0 && (s.ctl ==> s.len == 0)
    && Summed(big, s.chksum, s.swapped, Flat(s.bufs))
  }

  /** Sequence numbers taken up by a list of segments. */
  function Span(q: seq<Seg>): nat {
    if q == [] then 0 else TcpLen(q[0]) + Span(q[1..])
  }

  /** The payload of a list of segments. */
  function Payload(q: seq<Seg>): seq<Byte> {
    if q == [] then [] else Flat(q[0].bufs) + Payload(q[1..])
  }

  /** The number of packet buffers in a list of segments. */
  function Pbufs(q: seq<Seg>): nat {
    if q == [] then 0 else |q[0].bufs| + Pbufs(q[1..])
  }

  /** The segments follow each other without gap or overlap from position `start` on. */
  ghost predicate Contiguous(q: seq<Seg>, start: nat)
    decreases |q|
  {
    q == [] || (q[0].seqno == Seq(start) && Contiguous(q[1..], start + TcpLen(q[0])))
  }

  lemma {:induction false} SpanAppend(a: seq<Seg>, b: seq<Seg>)
    ensures Span(a + b) == Span(a) + Span(b)
    ensures Pbufs(a + b) == Pbufs(a) + Pbufs(b)
    ensures Payload(a + b) == Payload(a) + Payload(b)
  {
    if a == [] {
      assert a + b == b;
    } else {
      assert (a + b)[1..] == a[1..] + b;
      SpanAppend(a[1..], b);
    }
  }

  lemma {:induction false} ContiguousAppend(a: seq<Seg>, b: seq<Seg>, start: nat)
    ensures Contiguous(a + b, start) <==> Contiguous(a, start) && Contiguous(b, start + Span(a))
    decreases |a|
  {
    if a == [] {
      assert a + b == b;
    } else {
      assert (a + b)[1..] == a[1..] + b;
      ContiguousAppend(a[1..], b, start + TcpLen(a[0]));
    }
  }

  /** Where the i-th segment of a contiguous list lies. */
  lemma ContiguousAt(q: seq<Seg>, start: nat, i: nat)
    requires Contiguous(q, start) && i < |q|
    ensures q[i].seqno == Seq(start + Span(q[..i]))
    ensures Span(q) == Span(q[..i]) + TcpLen(q[i]) + Span(q[i + 1..])
  {
    assert q == q[..i] + q[i..] && q[i..] == [q[i]] + q[i + 1..];
    ContiguousAppend(q[..i], q[i..], start);
    SpanAppend(q[..i], q[i..]);
    SpanAppend([q[i]], q[i + 1..]);
    assert Span([q[i]]) == TcpLen(q[i]) + Span([]);
  }

  // --- Checksum on copy ----------------------------------------------------------------------

  /** tcp_seg_add_chksum */
  function SegAddChksum(chksum: nat, len: nat, segChksum: nat, swapped: bool): (nat, bool) {
    var f := Fold(chksum + segChksum);
    if len % 2 != 0 then (Swap(f), !swapped) else (f, swapped)
  }

  /** Adding the checksum of new data describes the data so far followed by the new data. */
  lemma SegAddSummed(big: bool, chksum: nat, swapped: bool, data: seq<Byte>, more: seq<Byte>)
    requires Summed(big, chksum, swapped, data)
    ensures var r := SegAddChksum(RfcSum(big, more), |more|, chksum, swapped);
            Summed(big, r.0, r.1, data + more)
  {
    hide Running, RfcSum, Fold, Swap;
    RunningAppend(big, data, more);
    RunningSwap(big, swapped, data + more);
    assert RfcSum(big, more) + chksum == chksum + RfcSum(big, more);
  }

  /** Nothing has been added yet. */
  lemma SummedEmpty(big: bool)
    ensures Summed(big, 0, false, [])
  {
  }

  /** tcp_write keeps the sum of the appended data separately, swaps it back if necessary and
      adds it to the segment in the end. */
  lemma ConcatSummed(big: bool, seg: Seg, more: seq<Byte>, c: nat, sw: bool)
    requires Summed(big, seg.chksum, seg.swapped, Flat(seg.bufs)) && Summed(big, c, sw, more)
    ensures var r := SegAddChksum(if sw then Swap(c) else c, |more|, seg.chksum, seg.swapped);
            Summed(big, r.0, r.1, Flat(seg.bufs) + more)
  {
    hide Running, RfcSum, Fold, Swap;
    RunningSwap(big, sw, more);
    RunningDone(big, more);
    SegAddSummed(big, seg.chksum, seg.swapped, Flat(seg.bufs), more);
  }

  /** The checksum part of tcp_output_segment: header and options are summed afresh, the payload
      sum is taken from the segment, and the result is the checksum of the whole. */
  method OutputChksum(big: bool, seg: Seg, hdrAddr: nat, hdr: seq<Byte>, src: seq<Byte>, dst: seq<Byte>)
    returns (fast: nat, slow: nat)
    requires SegOk(big, seg) && |hdr| % 4 == 0 && |hdr| + seg.len <= 0xffff
    requires |src| == |dst| && (|src| == 4 || |src| == 16)
    ensures fast == 0xffff - RfcSum(big, PseudoHeader(src, dst, 6, |hdr| + seg.len) + (hdr + Flat(seg.bufs)))
    ensures fast == slow
  {
    hide Running, RfcSum, Fold, Swap, PseudoHeader, Flat;
    var chain := [seg.bufs[0].(addr := hdrAddr, payload := hdr + seg.bufs[0].payload)] + seg.bufs[1..];
    HeaderInFront(seg.bufs, hdrAddr, hdr);
    slow := ChksumPseudo(big, chain, 6, |hdr| + seg.len, src, dst);
    var acc := ChksumPseudoPartial(big, chain, 6, |hdr| + seg.len, |hdr|, src, dst);
    var chksum := if seg.swapped then Swap(seg.chksum) else seg.chksum;
    ghost var pseudo, data := PseudoHeader(src, dst, 6, |hdr| + seg.len), Flat(seg.bufs);
    HeaderEven(src, dst, |hdr| + seg.len, hdr);
    PayloadAdds(big, pseudo + hdr, data, seg.chksum, seg.swapped);
    ThreeParts(pseudo, hdr, data);
    fast := 0xffff - Fold(0xffff - acc + chksum);
  }

  lemma ThreeParts(a: seq<Byte>, b: seq<Byte>, c: seq<Byte>)
    ensures a + b + c == a + (b + c) && (b + c)[..|b|] == b
  {
  }

  lemma {:induction false} FlatLengths(c: seq<Buf>)
    ensures forall i | 0 <= i < |c| :: |c[i].payload| <= |Flat(c)|
  {
    if c != [] {
      FlatLengths(c[1..]);
      forall i | 0 <= i < |c| ensures |c[i].payload| <= |Flat(c)| {
        if i > 0 {
          assert c[i] == c[1..][i - 1];
        }
      }
    }
  }

  lemma HeaderInFront(bufs: seq<Buf>, addr: nat, hdr: seq<Byte>)
    requires bufs != [] && |hdr| + |Flat(bufs)| <= 0xffff
    ensures var chain := [bufs[0].(addr := addr, payload := hdr + bufs[0].payload)] + bufs[1..];
            Flat(chain) == hdr + Flat(bufs) && forall i | 0 <= i < |chain| :: |chain[i].payload| <= 0xffff
  {
    hide Flat;
    var rest := bufs[1..];
    var first := bufs[0].(addr := addr, payload := hdr + bufs[0].payload);
    assert bufs == [bufs[0]] + rest;
    FlatFirst(first, rest);
    FlatFirst(bufs[0], rest);
    assert hdr + bufs[0].payload + Flat(rest) == hdr + (bufs[0].payload + Flat(rest));
    FlatLengths([first] + rest);
  }

  lemma FlatFirst(b: Buf, rest: seq<Buf>)
    ensures Flat([b] + rest) == b.payload + Flat(rest)
  {
  }

  lemma HeaderEven(src: seq<Byte>, dst: seq<Byte>, len: nat, hdr: seq<Byte>)
    requires |hdr| % 4 == 0 && len <= 0xffff && |src| == |dst| && (|src| == 4 || |src| == 16)
    ensures |PseudoHeader(src, dst, 6, len) + hdr| % 2 == 0
  {
  }

  /** Behind an even number of bytes, the payload sum can be added on its own. */
  lemma PayloadAdds(big: bool, h: seq<Byte>, data: seq<Byte>, chksum: nat, swapped: bool)
    requires |h| % 2 == 0 && Summed(big, chksum, swapped, data)
    ensures var c := if swapped then Swap(chksum) else chksum;
            RfcSum(big, h) <= 0xffff && RfcSum(big, h + data) == Fold(RfcSum(big, h) + c)
  {
    hide Running, RfcSum, Fold, Swap;
    RunningSwap(big, swapped, data);
    RunningDone(big, data);
    RunningDone(big, h);
    RunningDone(big, h + data);
    RunningAppend(big, h, data);
  }
}
