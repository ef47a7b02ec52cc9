/** Checksums over chains of packet buffers (src/core/inet_chksum.c): every buffer is summed on
    its own, the accumulator is folded once, and it is kept byte-swapped while the bytes seen so
    far are odd in number. */
module ChainChecksum {
  import opened Bytes
  import opened Checksum

  /** A packet buffer: whether it only refers to memory of the caller, where its payload starts
      in memory, and the payload. */
  datatype Buf = Buf(rom: bool, addr: nat, payload: seq<Byte>)

  type Chain = c: seq<Buf> | forall i | 0 <= i < |c| :: |c[i].payload| <= 0xffff

  /** The bytes of a chain, back to back. */
  function Flat(c: seq<Buf>): seq<Byte> {
    if c == [] then [] else c[0].payload + Flat(c[1..])
  }

  lemma {:induction false} FlatAppend(a: seq<Buf>, b: seq<Buf>)
    ensures Flat(a + b) == Flat(a) + Flat(b)
  {
    if a == [] {
      assert a + b == b;
    } else {
      assert (a + b)[1..] == a[1..] + b;
      FlatAppend(a[1..], b);
    }
  }

  lemma FlatTake(c: seq<Buf>, i: nat)
    requires i < |c|
    ensures Flat(c[..i + 1]) == Flat(c[..i]) + c[i].payload
  {
    assert c[..i + 1] == c[..i] + [c[i]];
    FlatAppend(c[..i], [c[i]]);
    assert Flat([c[i]]) == c[i].payload + Flat([]);
  }

  predicate Odd(s: seq<Byte>) { |s| % 2 == 1 }

  /** The accumulator after the bytes `s`, as is or byte-swapped. */
  function Running(big: bool, swapped: bool, s: seq<Byte>): (r: nat)
    ensures r <= 0xffff
  {
    Norm(Raw(big != swapped, s))
  }

  /** Swapped exactly while `s` is odd, the accumulator is ready for more bytes, and one fold
      keeps it within 16 bits. */
  lemma RunningAppend(big: bool, s: seq<Byte>, t: seq<Byte>)
    ensures Running(big, Odd(s), s) + RfcSum(big, t) <= 0x1fffe
    ensures Fold(Running(big, Odd(s), s) + RfcSum(big, t)) == Running(big, Odd(s), s + t)
    ensures Odd(s + t) == (Odd(s) != Odd(t))
  {
    hide Norm, Raw, Fold, RfcSum;
    var h := big != Odd(s);
    var u := Running(big, Odd(s), s) + RfcSum(big, t);
    RfcSumIsNorm(big, t);
    RawAppend(h, s, t);
    NormAdd(Raw(h, s), RfcSum(big, t));
    NormAdd(Raw(big, t), Raw(h, s));
    FoldNorm(u);
    NormAlready(Fold(u));
  }

  lemma RunningSwap(big: bool, swapped: bool, s: seq<Byte>)
    ensures Swap(Running(big, swapped, s)) == Running(big, !swapped, s)
  {
    hide Norm, Raw, Swap;
    SwapRaw(big != swapped, s);
    assert (big != swapped) == !(big != !swapped);
  }

  lemma RunningDone(big: bool, s: seq<Byte>)
    ensures RfcSum(big, s) == Running(big, false, s)
    ensures Running(big, false, []) == 0
  {
    RfcSumIsNorm(big, s);
  }

  lemma FlatBounds(c: seq<Buf>)
    ensures Flat(c[..0]) == [] && c[..|c|] == c
  {
  }

  /** inet_chksum_pbuf: the complement of the sum of all bytes, however they are cut up. */
  method InetChksumPbuf(big: bool, chain: Chain) returns (r: nat)
    ensures r == 0xffff - RfcSum(big, Flat(chain))
  {
    hide Running, RfcSum, Fold, Swap, Flat;
    var acc := 0;
    var swapped := false;
    FlatBounds(chain);
    RunningDone(big, []);
    for i := 0 to |chain|
      invariant acc == Running(big, swapped, Flat(chain[..i])) && swapped == Odd(Flat(chain[..i]))
    {
      var q := chain[i];
      var sum := Chksum2(big, q.addr, q.payload);
      FlatTake(chain, i);
      RunningAppend(big, Flat(chain[..i]), q.payload);
      acc := Fold(acc + sum);
      if |q.payload| % 2 != 0 {
        RunningSwap(big, swapped, Flat(chain[..i + 1]));
        swapped := !swapped;
        acc := Swap(acc);
      }
    }
    RunningSwap(big, true, Flat(chain));
    RunningDone(big, Flat(chain));
    if swapped {
      acc := Swap(acc);
    }
    r := 0xffff - acc;
  }

  // --- Pseudo headers ------------------------------------------------------------------------

  /** The pseudo header of IPv4 (section 3.1 of RFC 793) or IPv6 (section 8.1 of RFC 8200). */
  function PseudoHeader(src: seq<Byte>, dst: seq<Byte>, proto: Byte, len: nat): seq<Byte>
    requires len <= 0xffff
  {
    src + dst +
    if |src| == 4 then [0, proto, len / 256, len % 256]
    else [0, 0, len / 256, len % 256, 0, 0, 0, proto]
  }

  lemma RawConcat(big: bool, s: seq<Byte>, t: seq<Byte>)
    requires |s| % 2 == 0
    ensures Raw(big, s + t) == Raw(big, s) + Raw(big, t)
  {
    RawAppend(big, s, t);
  }

  lemma RawFour(big: bool, a: Byte, b: Byte, c: Byte, d: Byte)
    ensures Raw(big, [a, b, c, d]) == Word(big, a, b) + Word(big, c, d)
  {
    var s := [a, b, c, d];
    assert s[..4] == s && s[..2] == [a, b];
    RawTakeTwo(big, s, 0);
    RawTakeTwo(big, s, 2);
    RawNone(big, s);
  }

  /** What the protocol and the length add to the sum. */
  lemma PseudoTail(big: bool, src: seq<Byte>, dst: seq<Byte>, proto: Byte, len: nat)
    requires len <= 0xffff && |src| % 2 == 0 && |dst| % 2 == 0
    ensures |PseudoHeader(src, dst, proto, len)| % 2 == 0
    ensures Raw(big, PseudoHeader(src, dst, proto, len)) ==
            Raw(big, src) + Raw(big, dst) + Word(big, 0, proto) + Word(big, len / 256, len % 256)
  {
    hide Raw;
    var hi: Byte, lo: Byte := len / 256, len % 256;
    RawConcat(big, src, dst);
    if |src| == 4 {
      RawConcat(big, src + dst, [0, proto, hi, lo]);
      RawFour(big, 0, proto, hi, lo);
    } else {
      var t: seq<Byte>, u: seq<Byte> := [0, 0, hi, lo], [0, 0, 0, proto];
      assert t + u == [0, 0, hi, lo, 0, 0, 0, proto];
      RawConcat(big, src + dst, t + u);
      RawConcat(big, t, u);
      RawFour(big, 0, 0, hi, lo);
      RawFour(big, 0, 0, 0, proto);
      assert Word(big, 0, 0) == 0;
    }
  }

  /** The end of inet_cksum_pseudo_base: protocol and length come last, and two folds make the
      sum that of pseudo header and data. */
  lemma PseudoSum(big: bool, src: seq<Byte>, dst: seq<Byte>, proto: Byte, len: nat, data: seq<Byte>)
    requires len <= 0xffff && |src| % 2 == 0 && |dst| % 2 == 0
    ensures var u := RfcSum(big, src + dst + data) + Word(big, 0, proto) + Word(big, len / 256, len % 256);
            RfcSum(big, PseudoHeader(src, dst, proto, len) + data) == Fold(Fold(u)) <= 0xffff
  {
    hide Norm, Raw, RfcSum, Fold, Word;
    var w := Word(big, 0, proto) + Word(big, len / 256, len % 256);
    var h := PseudoHeader(src, dst, proto, len);
    RfcSumIsNorm(big, src + dst + data);
    RfcSumIsNorm(big, h + data);
    PseudoTail(big, src, dst, proto, len);
    RawConcat(big, h, data);
    RawConcat(big, src, dst);
    RawConcat(big, src + dst, data);
    NormAdd(Raw(big, src + dst + data), w);
    assert Raw(big, h + data) == Raw(big, src + dst + data) + w;
    FoldTwice(RfcSum(big, src + dst + data) + w);
  }

  /** The two folds of ip_chksum_pseudo over the addresses, four bytes at a time: IPv4 has one
      such part in each address, IPv6 has four. */
  method AddressSum(big: bool, src: seq<Byte>, dst: seq<Byte>) returns (acc: nat)
    requires |src| == |dst| && (|src| == 4 || |src| == 16)
    ensures acc == RfcSum(big, src + dst)
  {
    hide Raw, Norm, RfcSum, Fold, Add32, Long;
    acc := 0;
    RawNone(big, src);
    RawNone(big, dst);
    for part := 0 to |src| / 4
      invariant acc == Raw(big, src[..4 * part]) + Raw(big, dst[..4 * part]) <= 0xffff * 16
    {
      LongParts(big, src, 4 * part);
      LongParts(big, dst, 4 * part);
      var addr := Long(big, src, 4 * part);
      acc := Add32(acc, addr % WORD);
      acc := Add32(acc, addr / WORD);
      addr := Long(big, dst, 4 * part);
      acc := Add32(acc, addr % WORD);
      acc := Add32(acc, addr / WORD);
    }
    RawConcat(big, src, dst);
    RfcSumIsNorm(big, src + dst);
    FoldTwice(acc);
    acc := Fold(acc);
    acc := Fold(acc);
  }

  lemma LongHalves(big: bool, s: seq<Byte>, i: nat)
    requires i + 4 <= |s|
    ensures Long(big, s, i) % WORD + Long(big, s, i) / WORD == Word(big, s[i], s[i + 1]) + Word(big, s[i + 2], s[i + 3])
  {
    hide Word;
  }

  /** The halves of a 32-bit load are the two words it covers. */
  lemma LongParts(big: bool, s: seq<Byte>, i: nat)
    requires i % 2 == 0 && i + 4 <= |s| <= 16
    ensures Raw(big, s[..i + 4]) == Raw(big, s[..i]) + Long(big, s, i) % WORD + Long(big, s, i) / WORD
    ensures Raw(big, s[..i + 4]) <= 0xffff * 8
  {
    hide Raw, Word, Long;
    LongHalves(big, s, i);
    RawTakeTwo(big, s, i);
    RawTakeTwo(big, s, i + 2);
    RawBound(big, s[..i + 4]);
  }

  /** ip_chksum_pseudo_partial: the complement of the sum of the pseudo header and the first
      `chksumLen` bytes of the chain.  The parity test looks at the whole buffer even when only
      its front is summed; since that buffer is the last one, the swap is undone. */
  method ChksumPseudoPartial(big: bool, chain: Chain, proto: Byte, len: nat, chksumLen: nat,
                             src: seq<Byte>, dst: seq<Byte>) returns (r: nat)
    requires len <= 0xffff && |src| == |dst| && (|src| == 4 || |src| == 16)
    requires chksumLen <= |Flat(chain)|
    ensures r == 0xffff - RfcSum(big, PseudoHeader(src, dst, proto, len) + Flat(chain)[..chksumLen])
  {
    hide Running, RfcSum, Fold, Swap, Flat, Word, PseudoHeader;
    var acc := AddressSum(big, src, dst);
    var swapped := false;
    ghost var addrs := src + dst;
    RunningDone(big, addrs);
    FlatBounds(chain);
    ghost var seen: seq<Byte> := [];
    assert addrs + [] == addrs;
    var left: nat := chksumLen;
    var i := 0;
    while i < |chain| && left > 0
      invariant 0 <= i <= |chain|
      invariant acc == Running(big, swapped, addrs + seen)
      invariant left > 0 ==> seen == Flat(chain[..i]) && swapped == Odd(addrs + seen)
      invariant |seen| + left == chksumLen && seen == Flat(chain)[..|seen|]
    {
      var q := chain[i];
      var chklen := |q.payload|;
      if chklen > left {
        chklen := left;
      }
      ghost var front := q.payload[..chklen];
      var sum := Chksum2(big, q.addr, q.payload[..chklen]);
      FlatTake(chain, i);
      FlatPrefix(chain, i + 1);
      assert addrs + (seen + front) == addrs + seen + front;
      RunningAppend(big, addrs + seen, front);
      acc := Fold(acc + sum);
      seen := seen + front;
      left := left - chklen;
      if |q.payload| % 2 != 0 {
        RunningSwap(big, swapped, addrs + seen);
        swapped := !swapped;
        acc := Swap(acc);
      }
      i := i + 1;
    }
    assert seen == Flat(chain)[..chksumLen];
    RunningSwap(big, true, addrs + seen);
    RunningDone(big, addrs + seen);
    if swapped {
      acc := Swap(acc);
    }
    acc := acc + Word(big, 0, proto);
    acc := acc + Word(big, len / 256, len % 256);
    PseudoSum(big, src, dst, proto, len, seen);
    acc := Fold(acc);
    acc := Fold(acc);
    r := 0xffff - acc;
  }

  lemma FlatPrefix(c: seq<Buf>, i: nat)
    requires i <= |c|
    ensures |Flat(c[..i])| <= |Flat(c)| && Flat(c)[..|Flat(c[..i])|] == Flat(c[..i])
  {
    assert c == c[..i] + c[i..];
    FlatAppend(c[..i], c[i..]);
  }

  /** ip_chksum_pseudo: the complement of the sum of the pseudo header and all bytes. */
  method ChksumPseudo(big: bool, chain: Chain, proto: Byte, len: nat, src: seq<Byte>, dst: seq<Byte>)
    returns (r: nat)
    requires len <= 0xffff && |src| == |dst| && (|src| == 4 || |src| == 16)
    ensures r == 0xffff - RfcSum(big, PseudoHeader(src, dst, proto, len) + Flat(chain))
  {
    hide Running, RfcSum, Fold, Swap, Flat, Word, PseudoHeader;
    var acc := AddressSum(big, src, dst);
    var swapped := false;
    ghost var addrs := src + dst;
    RunningDone(big, addrs);
    FlatBounds(chain);
    assert addrs + [] == addrs;
    for i := 0 to |chain|
      invariant acc == Running(big, swapped, addrs + Flat(chain[..i]))
      invariant swapped == Odd(addrs + Flat(chain[..i]))
    {
      var q := chain[i];
      var sum := Chksum2(big, q.addr, q.payload);
      FlatTake(chain, i);
      assert addrs + Flat(chain[..i + 1]) == addrs + Flat(chain[..i]) + q.payload;
      RunningAppend(big, addrs + Flat(chain[..i]), q.payload);
      acc := Fold(acc + sum);
      if |q.payload| % 2 != 0 {
        RunningSwap(big, swapped, addrs + Flat(chain[..i + 1]));
        swapped := !swapped;
        acc := Swap(acc);
      }
    }
    RunningSwap(big, true, addrs + Flat(chain));
    RunningDone(big, addrs + Flat(chain));
    if swapped {
      acc := Swap(acc);
    }
    acc := acc + Word(big, 0, proto);
    acc := acc + Word(big, len / 256, len % 256);
    PseudoSum(big, src, dst, proto, len, Flat(chain));
    acc := Fold(acc);
    acc := Fold(acc);
    r := 0xffff - acc;
  }
}
