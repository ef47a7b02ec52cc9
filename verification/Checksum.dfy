/** The Internet checksum (section 2 of RFC 1071) and the forms of it in
    src/core/inet_chksum.c.

    The reference is `RfcSum`, the ones' complement sum of the 16-bit words.  Everything else
    is related to it through `Raw`, the plain sum of the bytes weighted by their position, and
    `Norm`, which reduces a sum modulo 65535 without confusing 0 with 0xffff. */
module Checksum {
  import opened Bytes

  const WORD := 0x1_0000
  const U32 := 0x1_0000_0000

  /** Unsigned 32-bit addition. */
  function Add32(a: nat, b: nat): (r: nat)
    ensures r < U32 && (a + b < U32 ==> r == a + b)
  {
    (a + b) % U32
  }

  // --- Reference: section 2 of RFC 1071 ------------------------------------------------------

  /** A 16-bit word as the host sees two bytes in memory. */
  function Word(big: bool, first: Byte, second: Byte): (w: nat)
    ensures w < WORD
  {
    if big then 256 * first + second else first + 256 * second
  }

  /** Ones' complement addition: the carry out of the top comes back in at the bottom. */
  function OnesAdd(x: nat, y: nat): nat {
    if x + y >= WORD then x + y - WORD + 1 else x + y
  }

  /** The ones' complement sum of the words of `s`; an odd last byte is padded with zero. */
  function RfcSum(big: bool, s: seq<Byte>): nat {
    if |s| == 0 then 0
    else if |s| == 1 then Word(big, s[0], 0)
    else OnesAdd(Word(big, s[0], s[1]), RfcSum(big, s[2..]))
  }

  // --- Sums and their normal form ------------------------------------------------------------

  /** The plain sum of the bytes; those at high positions count 256 fold. */
  function Raw(high: bool, s: seq<Byte>): nat
    decreases |s|
  {
    if s == [] then 0 else (if high then 256 * s[0] else s[0]) + Raw(!high, s[1..])
  }

  /** The 16-bit ones' complement value of a sum: 0 only for 0. */
  function Norm(n: nat): (r: nat)
    ensures r <= 0xffff && (r == 0 <==> n == 0)
  {
    if n == 0 then 0 else (n - 1) % 0xffff + 1
  }

  /** `Norm` is the only value in range that differs by a multiple of 0xffff. */
  lemma NormIs(n: nat, r: nat, k: nat)
    requires n == r + 0xffff * k && r <= 0xffff && (r == 0 ==> n == 0)
    ensures Norm(n) == r
  {
  }

  lemma NormAlready(n: nat)
    requires n <= 0xffff
    ensures Norm(n) == n
  {
  }

  lemma NormAdd(a: nat, b: nat)
    ensures Norm(Norm(a) + b) == Norm(a + b) && Norm(b + Norm(a)) == Norm(a + b)
  {
  }

  lemma NormOnesAdd(x: nat, y: nat)
    requires x <= 0xffff && y <= 0xffff
    ensures OnesAdd(x, y) == Norm(x + y) && OnesAdd(x, y) <= 0xffff
  {
  }

  lemma {:induction false} RawAppend(high: bool, s: seq<Byte>, t: seq<Byte>)
    ensures Raw(high, s + t) == Raw(high, s) + Raw(high != (|s| % 2 == 1), t)
    decreases |s|
  {
    if s == [] {
      assert s + t == t;
    } else {
      assert (s + t)[1..] == s[1..] + t;
      RawAppend(!high, s[1..], t);
    }
  }

  /** The reference sum is the normal form of the weighted sum. */
  lemma {:induction false} RfcSumIsNorm(big: bool, s: seq<Byte>)
    ensures RfcSum(big, s) == Norm(Raw(big, s))
  {
    if |s| == 1 {
      assert Raw(!big, s[1..]) == 0;
    } else if |s| >= 2 {
      var w := Word(big, s[0], s[1]);
      assert s[1..][1..] == s[2..];
      assert Raw(big, s) == w + Raw(big, s[2..]);
      RfcSumIsNorm(big, s[2..]);
      NormOnesAdd(w, RfcSum(big, s[2..]));
      NormAdd(Raw(big, s[2..]), w);
    }
  }

  // --- FOLD_U32T and SWAP_BYTES_IN_WORD ------------------------------------------------------

  function Fold(u: nat): nat {
    u / WORD + u % WORD
  }

  function Swap(w: nat): (r: nat)
  {
    (w % 256) * 256 + (w / 256) % 256
  }

  lemma FoldNorm(u: nat)
    ensures Norm(Fold(u)) == Norm(u)
    ensures Fold(u) <= u && (u <= 0x1fffe ==> Fold(u) <= 0xffff) && (u < U32 ==> Fold(u) <= 0x1fffe)
  {
  }

  /** Two folds bring any 32-bit sum down to its normal form. */
  lemma FoldTwice(u: nat)
    requires u < U32
    ensures Fold(Fold(u)) == Norm(u)
  {
  }

  /** Swapping the bytes multiplies by 256. */
  lemma SwapNorm(w: nat)
    requires w <= 0xffff
    ensures Swap(w) == Norm(256 * w) && Swap(w) <= 0xffff
  {
    NormIs(256 * w, Swap(w), w / 256);
  }

  lemma {:induction false} RawShift(high: bool, s: seq<Byte>)
    ensures exists k: nat :: 256 * Raw(high, s) == Raw(!high, s) + 0xffff * k
    ensures Raw(high, s) == 0 <==> Raw(!high, s) == 0
    decreases |s|
  {
    if s == [] {
      assert 256 * Raw(high, s) == Raw(!high, s) + 0xffff * 0;
    } else {
      RawShift(!high, s[1..]);
      var k: nat :| 256 * Raw(!high, s[1..]) == Raw(high, s[1..]) + 0xffff * k;
      var m := if high then s[0] + k else k;
      assert 256 * Raw(high, s) == Raw(!high, s) + 0xffff * m;
    }
  }

  lemma NormSplit(n: nat) returns (k: nat)
    ensures n == Norm(n) + 0xffff * k && Norm(n) <= 0xffff && (Norm(n) == 0 <==> n == 0)
  {
    k := if n == 0 then 0 else (n - 1) / 0xffff;
  }

  /** Swapping the bytes of a sum gives the sum of the same bytes read the other way round. */
  lemma SwapRaw(high: bool, s: seq<Byte>)
    ensures Swap(Norm(Raw(high, s))) == Norm(Raw(!high, s))
  {
    hide Raw, Swap, Norm;
    var a, b := Raw(high, s), Raw(!high, s);
    RawShift(high, s);
    var k: nat :| 256 * a == b + 0xffff * k;
    SwapNorm(Norm(a));
    var j := NormSplit(a);
    var i := NormSplit(b);
    var y := NormSplit(256 * Norm(a));
    NormIs(256 * a, Norm(256 * Norm(a)), y + 256 * j);
    NormIs(256 * a, Norm(b), i + k);
  }

  // --- The three versions of lwip_standard_chksum --------------------------------------------

  lemma {:induction false} RawBound(high: bool, s: seq<Byte>)
    ensures Raw(high, s) <= 0xffff * ((|s| + 1) / 2)
    decreases |s|
  {
    if |s| == 1 {
      assert Raw(!high, s[1..]) == 0;
    } else if |s| >= 2 {
      assert s[1..][1..] == s[2..];
      RawBound(high, s[2..]);
    }
  }

  /** Reading one more word; the running sum fits 32 bits up to 0x20000 bytes. */
  lemma RawTakeTwo(high: bool, s: seq<Byte>, i: nat)
    requires i + 2 <= |s|
    ensures Raw(high, s[..i + 2]) == Raw(high, s[..i]) + Word(high != (i % 2 == 1), s[i], s[i + 1])
    ensures |s| <= 0x20000 ==> Raw(high, s[..i + 2]) < U32
  {
    var t := s[i..i + 2];
    assert s[..i + 2] == s[..i] + t;
    RawAppend(high, s[..i], t);
    var h := high != (i % 2 == 1);
    assert Raw(!h, t[1..]) == (if h then 0 else 256 * t[1] as int) + if h then t[1] as int else 0 by {
      assert t[1..][1..] == [];
    }
    RawBound(high, s[..i + 2]);
  }

  /** Reading one more byte. */
  lemma RawTakeOne(high: bool, s: seq<Byte>, i: nat)
    requires i + 1 <= |s|
    ensures Raw(high, s[..i + 1]) == Raw(high, s[..i]) + Word(high != (i % 2 == 1), s[i], 0)
    ensures |s| <= 0x20000 ==> Raw(high, s[..i + 1]) < U32
  {
    var t := s[i..i + 1];
    assert s[..i + 1] == s[..i] + t;
    RawAppend(high, s[..i], t);
    assert t[1..] == [];
    RawBound(high, s[..i + 1]);
  }

  lemma WordSplit(big: bool, a: Byte, b: Byte)
    ensures Word(big, a, b) == Word(big, a, 0) + Word(big, 0, b)
    ensures Word(!big, a, 0) == Word(big, 0, a)
  {
  }

  lemma RawNone(high: bool, s: seq<Byte>)
    ensures Raw(high, s[..0]) == 0 && s[..|s|] == s
  {
  }

  /** Fold twice, and swap if the bytes were read the wrong way round. */
  lemma FoldedSum(big: bool, high: bool, s: seq<Byte>, sum: nat)
    requires sum < U32 && Norm(sum) == Norm(Raw(high, s))
    ensures RfcSum(big, s) == if high == big then Fold(Fold(sum)) else Swap(Fold(Fold(sum)))
  {
    FoldTwice(sum);
    SwapRaw(high, s);
    RfcSumIsNorm(big, s);
  }

  /** Version 1: big-endian words, swapped at the end on a little-endian host.  The unsigned
      32-bit accumulator does not overflow. */
  method Chksum1(big: bool, data: seq<Byte>) returns (r: nat)
    requires |data| <= 0x20000
    ensures r == RfcSum(big, data)
  {
    hide Raw, RfcSum, Swap, Add32;
    var acc := 0;
    var i := 0;
    RawNone(true, data);
    while |data| - i > 1
      invariant 0 <= i <= |data| && i % 2 == 0
      invariant acc == Raw(true, data[..i])
    {
      RawTakeTwo(true, data, i);
      acc := Add32(acc, Word(true, data[i], data[i + 1]));
      i := i + 2;
    }
    if |data| - i > 0 {
      RawTakeOne(true, data, i);
      acc := Add32(acc, Word(true, data[i], 0));
    }
    assert acc < U32 by { RawBound(true, data); }
    FoldedSum(big, true, data, acc);
    acc := Fold(acc);
    if acc / WORD != 0 {
      acc := Fold(acc);
    }
    r := if big then acc else Swap(acc);
  }

  /** Version 2: words in host order from the first even address; the bytes left over at the
      two ends share one word.  Works for 0x20000 bytes, as its comment promises. */
  method Chksum2(big: bool, addr: nat, data: seq<Byte>) returns (r: nat)
    requires |data| <= 0x20000
    ensures r == RfcSum(big, data)
  {
    hide Raw, RfcSum, Swap, Word, Fold, Add32;
    var odd := addr % 2 == 1;
    var t0: Byte, t1: Byte := 0, 0;
    var i := 0;
    // how the bytes are weighted: an odd start shifts everything by one position
    ghost var high := big != odd;
    RawNone(high, data);
    WordSplit(big, 0, 0);
    if odd && |data| > 0 {
      t1 := data[0];
      i := 1;
      RawTakeOne(high, data, 0);
      WordSplit(big, data[0], 0);
    }
    var sum: nat := 0;
    while |data| - i > 1
      invariant 0 <= i <= |data| && (i % 2 == 1 <==> odd && |data| > 0)
      invariant sum + Word(big, 0, t1) == Raw(high, data[..i])
    {
      RawTakeTwo(high, data, i);
      sum := Add32(sum, Word(big, data[i], data[i + 1]));
      i := i + 2;
    }
    if |data| - i > 0 {
      t0 := data[i];
      RawTakeOne(high, data, i);
    }
    WordSplit(big, t0, t1);
    assert Raw(high, data) < U32 by { RawBound(high, data); }
    sum := Add32(sum, Word(big, t0, t1));
    FoldedSum(big, high, data, sum);
    sum := Fold(Fold(sum));
    r := if odd then Swap(sum) else sum;
  }

  /** Two adjacent words of memory loaded as one 32-bit word. */
  function Long(big: bool, s: seq<Byte>, i: nat): (w: nat)
    requires i + 4 <= |s|
    ensures w < U32
  {
    var a, b := Word(big, s[i], s[i + 1]), Word(big, s[i + 2], s[i + 3]);
    if big then WORD * a + b else a + WORD * b
  }

  /** Unsigned 32-bit addition that adds the carry back in. */
  function AddBack(sum: nat, x: nat): nat {
    var tmp := Add32(sum, x);
    if tmp < sum then tmp + 1 else tmp
  }

  /** Adding back the carry keeps the normal form and never wraps a second time. */
  lemma AddBackNorm(sum: nat, x: nat)
    requires sum < U32 && x < U32
    ensures AddBack(sum, x) < U32 && Norm(AddBack(sum, x)) == Norm(sum + x)
  {
    var s := AddBack(sum, x);
    var q := if sum + x >= U32 then 1 else 0;
    assert U32 - 1 == 0xffff * 0x10001;
    assert sum + x == s + 0xffff * (0x10001 * q);
    var k := if s == 0 then 0 else (s - 1) / 0xffff;
    assert s == Norm(s) + 0xffff * k;
    NormIs(sum + x, Norm(s), k + 0x10001 * q);
  }

  lemma LongNorm(big: bool, s: seq<Byte>, i: nat, n: nat)
    requires i + 4 <= |s|
    ensures Norm(n + Long(big, s, i)) == Norm(n + Word(big, s[i], s[i + 1]) + Word(big, s[i + 2], s[i + 3]))
  {
    var a, b := Word(big, s[i], s[i + 1]), Word(big, s[i + 2], s[i + 3]);
    var m := n + a + b;
    var k := if m == 0 then 0 else (m - 1) / 0xffff;
    assert m == Norm(m) + 0xffff * k;
    NormIs(n + Long(big, s, i), Norm(m), k + if big then a else b);
  }

  /** One ping or pong of version 3: four more bytes are accounted for. */
  lemma PingPong(big: bool, high: bool, s: seq<Byte>, i: nat, sum: nat, end: nat)
    requires i + 4 <= |s| && big == (high != (i % 2 == 1)) && sum < U32
    requires Norm(sum + end) == Norm(Raw(high, s[..i]))
    ensures AddBack(sum, Long(big, s, i)) < U32
    ensures Norm(AddBack(sum, Long(big, s, i)) + end) == Norm(Raw(high, s[..i + 4]))
  {
    hide Norm, Raw, Word, Long, AddBack;
    var x := Long(big, s, i);
    var a, b := Word(big, s[i], s[i + 1]), Word(big, s[i + 2], s[i + 3]);
    AddBackNorm(sum, x);
    NormAdd(AddBack(sum, x), end);
    NormAdd(sum + x, end);
    assert sum + x + end == (sum + end) + x;
    LongNorm(big, s, i, sum + end);
    NormAdd(sum + end, a + b);
    assert sum + end + a + b == sum + end + (a + b);
    NormAdd(Raw(high, s[..i]), a + b);
    RawTakeTwo(high, s, i);
    RawTakeTwo(high, s, i + 2);
  }

  lemma AddWord(big: bool, high: bool, s: seq<Byte>, i: nat, sum: nat, end: nat)
    requires i + 2 <= |s| && big == (high != (i % 2 == 1))
    requires Norm(sum + end) == Norm(Raw(high, s[..i]))
    ensures Norm(sum + Word(big, s[i], s[i + 1]) + end) == Norm(Raw(high, s[..i + 2]))
    ensures Word(big, s[i], s[i + 1]) <= 0xffff
  {
    hide Norm, Raw;
    var w := Word(big, s[i], s[i + 1]);
    RawTakeTwo(high, s, i);
    NormAdd(sum + end, w);
    NormAdd(Raw(high, s[..i]), w);
    assert sum + w + end == sum + end + w;
  }

  lemma AddByte(big: bool, high: bool, s: seq<Byte>, i: nat, sum: nat, end: nat)
    requires i + 1 <= |s| && big == (high != (i % 2 == 1))
    requires Norm(sum + end) == Norm(Raw(high, s[..i]))
    ensures Norm(sum + (Word(big, s[i], 0) + end)) == Norm(Raw(high, s[..i + 1]))
    ensures Word(big, s[i], 0) <= 0xffff
  {
    hide Norm, Raw;
    var w := Word(big, s[i], 0);
    RawTakeOne(high, s, i);
    NormAdd(sum + end, w);
    NormAdd(Raw(high, s[..i]), w);
    assert sum + (w + end) == sum + end + w;
  }

  /** The words behind the last eight bytes. */
  method LastWords(big: bool, ghost high: bool, data: seq<Byte>, i0: nat, sum0: nat, ghost end: nat)
    returns (i: nat, sum: nat)
    requires i0 <= |data| <= i0 + 7 && sum0 <= 0x1fffe && (data != [] ==> big == (high != (i0 % 2 == 1)))
    requires Norm(sum0 + end) == Norm(Raw(high, data[..i0]))
    ensures i <= |data| <= i + 1 && i % 2 == i0 % 2 && sum <= 0x1fffe + 0xffff * 7
    ensures Norm(sum + end) == Norm(Raw(high, data[..i]))
  {
    hide Raw, Norm, Word, Add32;
    i, sum := i0, sum0;
    while |data| - i > 1
      invariant i <= |data| <= i + 7 && i % 2 == i0 % 2
      invariant sum <= 0x1fffe + 0xffff * (7 - (|data| - i))
      invariant Norm(sum + end) == Norm(Raw(high, data[..i]))
    {
      AddWord(big, high, data, i, sum, end);
      sum := Add32(sum, Word(big, data[i], data[i + 1]));
      i := i + 2;
    }
  }

  /** Version 3: eight bytes at a time from the first address divisible by four. */
  method Chksum3(big: bool, addr: nat, data: seq<Byte>) returns (r: nat)
    ensures r == RfcSum(big, data)
  {
    hide Raw, RfcSum, Swap, Word, Fold, Norm, Long, AddBack, Add32;
    var odd := addr % 2 == 1;
    var t0: Byte, t1: Byte := 0, 0;
    var i := 0;
    ghost var high := big != odd;
    RawNone(high, data);
    WordSplit(big, 0, 0);
    if odd && |data| > 0 {
      t1 := data[0];
      i := 1;
      RawTakeOne(high, data, 0);
      WordSplit(big, data[0], 0);
    }
    ghost var end := Word(big, 0, t1);
    var sum: nat := 0;
    if (addr + i) % 4 != 0 && |data| - i > 1 {
      RawTakeTwo(high, data, i);
      sum := Word(big, data[i], data[i + 1]);
      i := i + 2;
    }
    while |data| - i > 7
      invariant 0 <= i <= |data| && (i % 2 == 1 <==> odd && |data| > 0) && sum < U32
      invariant Norm(sum + end) == Norm(Raw(high, data[..i]))
    {
      PingPong(big, high, data, i, sum, end);
      var tmp := AddBack(sum, Long(big, data, i));
      PingPong(big, high, data, i + 4, tmp, end);
      sum := AddBack(tmp, Long(big, data, i + 4));
      i := i + 8;
    }
    FoldNorm(sum);
    NormAdd(sum, end);
    NormAdd(Fold(sum), end);
    sum := Fold(sum);
    i, sum := LastWords(big, high, data, i, sum, end);
    if |data| - i > 0 {
      t0 := data[i];
      AddByte(big, high, data, i, sum, end);
    }
    WordSplit(big, t0, t1);
    sum := Add32(sum, Word(big, t0, t1));
    FoldedSum(big, high, data, sum);
    sum := Fold(Fold(sum));
    r := if odd then Swap(sum) else sum;
  }
}
