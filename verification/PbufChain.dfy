/** Chains of packet buffers and the bytes in them: every operation on a chain is an operation on
    the flat byte string (src/core/pbuf.c). */
module PbufChain {
  import opened Bytes

  const U16 := 0x1_0000

  /** A chain: the payload and the tot_len of every buffer. */
  datatype Chain = Chain(data: seq<seq<Byte>>, tot: seq<nat>)

  datatype Err = Ok | Mem | Arg | Val

  /** Every tot_len is the number of bytes from its buffer to the end, modulo 65536. */
  ghost predicate TotalsMod(c: Chain) {
    |c.tot| == |c.data| && forall i | 0 <= i < |c.data| :: c.tot[i] == |Concat(c.data[i..])| % U16
  }

  /** The same exactly. */
  ghost predicate WellFormed(c: Chain) {
    |c.tot| == |c.data| && forall i | 0 <= i < |c.data| :: c.tot[i] == |Concat(c.data[i..])| <= 0xffff
  }

  function Min(a: int, b: int): int { if a <= b then a else b }

  /** At most `len` bytes from `offset` on. */
  function Window(flat: seq<Byte>, offset: nat, len: nat): seq<Byte> {
    if offset >= |flat| then [] else flat[offset..Min(offset + len, |flat|)]
  }

  /** The bytes `t` at position `at` of `flat`. */
  function Overwritten(flat: seq<Byte>, at: nat, t: seq<Byte>): seq<Byte>
    requires at + |t| <= |flat|
  {
    flat[..at] + t + flat[at + |t|..]
  }

  // --- Reading -------------------------------------------------------------------------------

  /** pbuf_skip: the buffer that holds the byte at `offset`, and where in it. */
  method Skip(data: seq<seq<Byte>>, offset: nat) returns (k: nat, left: nat)
    ensures k <= |data| && |Concat(data[..k])| + left == offset
    ensures k < |data| <==> offset < |Concat(data)|
    ensures k < |data| ==> left < |data[k]|
  {
    hide Concat;
    k, left := 0, offset;
    ConcatNone(data);
    while k < |data| && |data[k]| <= left
      invariant k <= |data| && |Concat(data[..k])| + left == offset
    {
      ConcatAt(data, k);
      left, k := left - |data[k]|, k + 1;
    }
    if k < |data| {
      ConcatAt(data, k);
    } else {
      assert data[..k] == data;
    }
  }

  lemma ConcatNone(data: seq<seq<Byte>>)
    ensures Concat(data[..0]) == [] && Concat(data[|data|..]) == []
  {
  }

  lemma Piece(before: seq<Byte>, part: seq<Byte>, after: seq<Byte>, offset: nat, n: nat, start: nat, out: seq<Byte>)
    requires offset + n <= |part| && |before| + offset == start + |out|
    requires out == [] || out == (before + part + after)[start..start + |out|]
    ensures out + part[offset..offset + n] == (before + part + after)[start..start + |out| + n]
  {
  }

  /** pbuf_copy_partial */
  method CopyPartial(data: seq<seq<Byte>>, len0: nat, offset0: nat) returns (out: seq<Byte>)
    ensures out == Window(Concat(data), offset0, len0)
  {
    hide Concat;
    var len, offset := len0, offset0;
    out := [];
    ConcatNone(data);
    ghost var flat := Concat(data);
    var i := 0;
    while i < |data| && len != 0
      invariant 0 <= i <= |data| && 0 <= offset && 0 <= len == len0 - |out| && (out != [] ==> offset == 0)
      invariant out == [] || (offset0 + |out| <= |flat| && out == flat[offset0..offset0 + |out|])
      invariant len != 0 ==> |Concat(data[..i])| + offset == offset0 + |out|
      invariant |Concat(data[..i])| <= |flat|
    {
      ConcatAt(data, i);
      if offset != 0 && offset >= |data[i]| {
        offset := offset - |data[i]|;
      } else {
        var n := Min(|data[i]| - offset, len);
        Piece(Concat(data[..i]), data[i], Concat(data[i + 1..]), offset, n, offset0, out);
        out := out + data[i][offset..offset + n];
        len, offset := len - n, 0;
      }
      i := i + 1;
    }
    if len != 0 {
      assert data[..i] == data;
    }
  }

  /** pbuf_get_at: zero behind the end. */
  method GetAt(data: seq<seq<Byte>>, offset: nat) returns (b: Byte)
    ensures b == if offset < |Concat(data)| then Concat(data)[offset] else 0
  {
    var k, left := Skip(data, offset);
    if k < |data| {
      ConcatAt(data, k);
      b := data[k][left];
    } else {
      b := 0;
    }
  }

  /** The bytes `t` are found at position `i`. */
  predicate MatchAt(flat: seq<Byte>, i: nat, t: seq<Byte>) {
    i + |t| <= |flat| && flat[i..i + |t|] == t
  }

  /** pbuf_memcmp: zero if and only if the bytes are equal, otherwise one more than the first
      difference. */
  method MemCmp(data: seq<seq<Byte>>, offset: nat, t: seq<Byte>) returns (r: nat)
    requires |Concat(data)| <= 0xffff
    ensures r == 0 <==> MatchAt(Concat(data), offset, t)
    ensures offset + |t| > |Concat(data)| ==> r == 0xffff
    ensures 0 < r && offset + |t| <= |Concat(data)| ==>
              r <= |t| && Concat(data)[offset + r - 1] != t[r - 1] && Concat(data)[offset..offset + r - 1] == t[..r - 1]
  {
    hide Concat;
    ghost var flat := Concat(data);
    if TotalLen(data) < offset + |t| {
      return 0xffff;
    }
    var k, start := Skip(data, offset);
    ConcatCut(data, k);
    for i := 0 to |t|
      invariant forall j | 0 <= j < i :: flat[offset + j] == t[j]
    {
      var a := GetAt(data[k..], start + i);
      assert a == flat[offset + i];
      if a != t[i] {
        return i + 1;
      }
    }
    r := 0;
  }

  /** tot_len of the first buffer. */
  function TotalLen(data: seq<seq<Byte>>): nat {
    |Concat(data)|
  }

  /** pbuf_memfind: the least match from `start` on. */
  method MemFind(data: seq<seq<Byte>>, t: seq<Byte>, start: nat) returns (r: nat)
    requires |Concat(data)| <= 0xfffe
    ensures if exists i :: start <= i <= |Concat(data)| && MatchAt(Concat(data), i, t)
            then start <= r && MatchAt(Concat(data), r, t) && forall i | start <= i < r :: !MatchAt(Concat(data), i, t)
            else r == 0xffff
  {
    hide Concat;
    ghost var flat := Concat(data);
    if TotalLen(data) >= |t| + start {
      var last := TotalLen(data) - |t|;
      var i := start;
      while i <= last
        invariant start <= i <= last + 1
        invariant forall j | start <= j < i :: !MatchAt(flat, j, t)
      {
        var plus := MemCmp(data, i, t);
        if plus == 0 {
          return i;
        }
        i := i + 1;
      }
    }
    r := 0xffff;
  }

  // --- Writing -------------------------------------------------------------------------------

  ghost predicate SameLengths(a: seq<seq<Byte>>, b: seq<seq<Byte>>) {
    |a| == |b| && forall i | 0 <= i < |a| :: |a[i]| == |b[i]|
  }

  lemma {:induction false} SamePosition(a: seq<seq<Byte>>, b: seq<seq<Byte>>, i: nat)
    requires SameLengths(a, b) && i <= |a|
    ensures |Concat(a[..i])| == |Concat(b[..i])|
  {
    ConcatNone(a);
    ConcatNone(b);
    if i > 0 {
      SamePosition(a, b, i - 1);
      ConcatAt(a, i - 1);
      ConcatAt(b, i - 1);
    }
  }

  /** Overwriting within one buffer overwrites the flat bytes. */
  lemma OverwritePart(data: seq<seq<Byte>>, i: nat, j: nat, t: seq<Byte>)
    requires i < |data| && j + |t| <= |data[i]|
    ensures var at := |Concat(data[..i])| + j;
            && at + |t| <= |Concat(data)|
            && Concat(data[i := Overwritten(data[i], j, t)]) == Overwritten(Concat(data), at, t)
    ensures SameLengths(data, data[i := Overwritten(data[i], j, t)])
  {
    hide Concat;
    OverwriteLen(data[i], j, t);
    var data' := data[i := Overwritten(data[i], j, t)];
    ConcatAt(data, i);
    ConcatAt(data', i);
    assert data'[..i] == data[..i] && data'[i + 1..] == data[i + 1..];
    hide Overwritten;
    Around(Concat(data[..i]), data[i], Concat(data[i + 1..]), j, t);
  }

  lemma Around(before: seq<Byte>, part: seq<Byte>, after: seq<Byte>, j: nat, t: seq<Byte>)
    requires j + |t| <= |part|
    ensures before + Overwritten(part, j, t) + after == Overwritten(before + part + after, |before| + j, t)
  {
  }

  lemma OverwriteOn(flat: seq<Byte>, at: nat, a: seq<Byte>, b: seq<Byte>)
    requires at + |a| + |b| <= |flat|
    ensures Overwritten(Overwritten(flat, at, a), at + |a|, b) == Overwritten(flat, at, a + b)
  {
  }

  /** pbuf_take from the buffer `k` on. */
  method TakeFrom(data0: seq<seq<Byte>>, k: nat, t: seq<Byte>) returns (data: seq<seq<Byte>>)
    requires k <= |data0| && |Concat(data0[..k])| + |t| <= |Concat(data0)|
    ensures SameLengths(data0, data) && Concat(data) == Overwritten(Concat(data0), |Concat(data0[..k])|, t)
  {
    hide Concat, Overwritten;
    data := data0;
    ghost var flat, at := Concat(data0), |Concat(data0[..k])|;
    var i, copied := k, 0;
    OverwriteNothing(flat, at);
    while copied < |t|
      invariant k <= i <= |data0| && 0 <= copied <= |t| && SameLengths(data0, data)
      invariant copied < |t| ==> |Concat(data0[..i])| == at + copied
      invariant Concat(data) == Overwritten(flat, at, t[..copied])
      decreases |data0| - i
    {
      WholePrefix(data0, i);
      ConcatAt(data0, i);
      SamePosition(data0, data, i);
      var n := Min(|data[i]|, |t| - copied);
      OverwritePart(data, i, 0, t[copied..copied + n]);
      OverwriteOn(flat, at, t[..copied], t[copied..copied + n]);
      assert t[..copied] + t[copied..copied + n] == t[..copied + n];
      data := data[i := Overwritten(data[i], 0, t[copied..copied + n])];
      copied, i := copied + n, i + 1;
    }
    assert t[..copied] == t;
  }

  lemma WholePrefix(data: seq<seq<Byte>>, i: nat)
    requires i <= |data|
    ensures i == |data| ==> Concat(data[..i]) == Concat(data)
  {
    assert i == |data| ==> data[..i] == data;
  }

  lemma OverwriteNothing(flat: seq<Byte>, at: nat)
    requires at <= |flat|
    ensures Overwritten(flat, at, []) == flat
  {
  }

  /** pbuf_take */
  method Take(data0: seq<seq<Byte>>, t: seq<Byte>) returns (err: Err, data: seq<seq<Byte>>)
    ensures err == if |t| <= |Concat(data0)| then Ok else Mem
    ensures err == Mem ==> data == data0
    ensures err == Ok ==> SameLengths(data0, data) && Concat(data) == t + Concat(data0)[|t|..]
  {
    ConcatNone(data0);
    if TotalLen(data0) < |t| {
      return Mem, data0;
    }
    data := TakeFrom(data0, 0, t);
    err := Ok;
  }

  /** pbuf_take_at: the bytes must lie within the chain, and at least begin there. */
  method TakeAt(data0: seq<seq<Byte>>, t: seq<Byte>, offset: nat) returns (err: Err, data: seq<seq<Byte>>)
    ensures err == Ok <==> offset < |Concat(data0)| && offset + |t| <= |Concat(data0)|
    ensures err != Ok ==> err == Mem && data == data0
    ensures err == Ok ==> SameLengths(data0, data) && Concat(data) == Overwritten(Concat(data0), offset, t)
  {
    hide Concat, Overwritten;
    var k, at := Skip(data0, offset);
    ConcatCut(data0, k);
    if k == |data0| || TotalLen(data0[k..]) < at + |t| {
      return Mem, data0;
    }
    var n := Min(|data0[k]| - at, |t|);
    OverwritePart(data0, k, at, t[..n]);
    data := data0[k := Overwritten(data0[k], at, t[..n])];
    if n < |t| {
      SamePosition(data0, data, k + 1);
      ConcatAt(data0, k);
      OverwriteLen(Concat(data0), offset, t[..n]);
      data := TakeFrom(data, k + 1, t[n..]);
      OverwriteOn(Concat(data0), offset, t[..n], t[n..]);
      assert t[..n] + t[n..] == t;
    } else {
      assert t[..n] == t;
    }
    err := Ok;
  }

  lemma OverwriteLen(flat: seq<Byte>, at: nat, t: seq<Byte>)
    requires at + |t| <= |flat|
    ensures |Overwritten(flat, at, t)| == |flat|
  {
  }

  // --- Copying from chain to chain -----------------------------------------------------------

  ghost predicate NonEmpty(data: seq<seq<Byte>>) {
    data != [] && forall i | 0 <= i < |data| :: |data[i]| > 0
  }

  /** The check against packet queues: a buffer that holds all that is left must be the last. */
  predicate QueueAt(data: seq<seq<Byte>>, i: nat) {
    i + 1 < |data| && |data[i]| == TotalLen(data[i..])
  }

  lemma NoQueue(data: seq<seq<Byte>>, i: nat)
    requires NonEmpty(data) && i < |data|
    ensures !QueueAt(data, i)
  {
    ConcatAt(data, i);
    if i + 1 < |data| {
      ConcatAt(data, i + 1);
    }
  }

  /** The source has an empty last buffer and the target is just big enough. */
  predicate EmptyAtEnd(to: seq<seq<Byte>>, from: seq<seq<Byte>>) {
    |to| == 1 && |from| == 2 && from[1] == [] && |to[0]| == |from[0]|
  }

  /** One round of pbuf_copy: as many bytes as fit go from buffer `j` to buffer `i`. */
  lemma CopyRound(to: seq<seq<Byte>>, i: nat, oi: nat, from: seq<seq<Byte>>, j: nat, oj: nat, n: nat, flat: seq<Byte>)
    requires i < |to| && oi + n <= |to[i]| && j < |from| && oj + n <= |from[j]|
    requires |Concat(to[..i])| + oi == |Concat(from[..j])| + oj
    requires var c := |Concat(from[..j])| + oj;
             c <= |flat| && c <= |Concat(from)| && Concat(to) == Concat(from)[..c] + flat[c..] && |flat| == |Concat(to)|
    ensures var to' := to[i := Overwritten(to[i], oi, from[j][oj..oj + n])];
            var c := |Concat(from[..j])| + oj + n;
            c <= |flat| && c <= |Concat(from)| && SameLengths(to, to') && Concat(to') == Concat(from)[..c] + flat[c..]
  {
    hide Concat;
    var t := from[j][oj..oj + n];
    OverwritePart(to, i, oi, t);
    ConcatAt(from, j);
    var c := |Concat(from[..j])| + oj;
    Piece(Concat(from[..j]), from[j], Concat(from[j + 1..]), oj, n, 0, Concat(from)[..c]);
    Extend(Concat(from)[..c], flat, t);
  }

  lemma Extend(a: seq<Byte>, flat: seq<Byte>, t: seq<Byte>)
    requires |a| + |t| <= |flat|
    ensures Overwritten(a + flat[|a|..], |a|, t) == a + t + flat[|a| + |t|..]
  {
  }

  /** Both cursors stand at the same position, and the bytes before it have been copied. */
  ghost predicate Copying(to0: seq<seq<Byte>>, to: seq<seq<Byte>>, from: seq<seq<Byte>>, i: nat, oi: nat, j: nat,
                          oj: nat) {
    && SameLengths(to0, to) && |Concat(to)| == |Concat(to0)| && i <= |to| && j <= |from|
    && (oi == 0 || (i < |to| && oi < |to[i]|)) && (oj == 0 || (j < |from| && oj < |from[j]|))
    && var c := |Concat(from[..j])| + oj;
       && |Concat(to[..i])| + oi == c && c <= |Concat(from)| && c <= |Concat(to0)|
       && Concat(to) == Concat(from)[..c] + Concat(to0)[c..]
  }

  /** One round of the loop of pbuf_copy. */
  method CopySome(to0: seq<seq<Byte>>, to: seq<seq<Byte>>, from: seq<seq<Byte>>, i: nat, oi: nat, j: nat, oj: nat)
    returns (to': seq<seq<Byte>>, i': nat, oi': nat, j': nat, oj': nat)
    requires Copying(to0, to, from, i, oi, j, oj) && i < |to| && j < |from|
    ensures Copying(to0, to', from, i', oi', j', oj') && i <= i' && j <= j' && i + j < i' + j'
    ensures oi <= |to[i]| && oj <= |from[j]|
    ensures i' == i + if |to[i]| - oi <= |from[j]| - oj then 1 else 0
    ensures j' == j + if |from[j]| - oj <= |to[i]| - oi then 1 else 0
  {
    hide Concat, Overwritten;
    var n := Min(|to[i]| - oi, |from[j]| - oj);
    CopyRound(to, i, oi, from, j, oj, n, Concat(to0));
    to' := to[i := Overwritten(to[i], oi, from[j][oj..oj + n])];
    i', oi', j', oj' := i, oi + n, j, oj + n;
    SamePosition(to, to', i);
    ConcatAt(to', i);
    ConcatAt(from, j);
    if oj' >= |from[j]| {
      oj', j' := 0, j + 1;
    }
    if oi' == |to[i]| {
      oi', i' := 0, i + 1;
    }
    WholePrefix(to', |to'|);
    CopiedLength(Concat(from), Concat(to0), |Concat(from[..j])| + oj + n);
  }

  lemma CopiedLength(from: seq<Byte>, flat: seq<Byte>, c: nat)
    requires c <= |from| && c <= |flat|
    ensures |from[..c] + flat[c..]| == |flat|
  {
  }

  lemma CopyingStart(to0: seq<seq<Byte>>, from: seq<seq<Byte>>)
    requires to0 != [] && from != []
    ensures Copying(to0, to0, from, 0, 0, 0, 0)
  {
  }

  lemma CopyingEnd(to0: seq<seq<Byte>>, to: seq<seq<Byte>>, from: seq<seq<Byte>>, i: nat, oi: nat, j: nat, oj: nat)
    requires Copying(to0, to, from, i, oi, j, oj)
    ensures i <= |to| == |to0| && j <= |from| && SameLengths(to0, to)
    ensures j == |from| ==>
              |Concat(from)| <= |Concat(to0)| && Concat(to) == Concat(from) + Concat(to0)[|Concat(from)|..]
  {
    hide Concat;
    WholePrefix(from, j);
    if j == |from| {
      assert Concat(from)[..|Concat(from)|] == Concat(from);
    }
  }

  // --- Which checks pbuf_copy makes ----------------------------------------------------------

  /** How many bytes lie before the buffer `i`. */
  ghost function Before(data: seq<seq<Byte>>, i: nat): nat
    requires i <= |data|
  {
    |Concat(data[..i])|
  }

  /** Whether the first round of pbuf_copy uses up the first buffer of `a`. */
  function First(a: seq<seq<Byte>>, b: seq<seq<Byte>>): nat
    requires a != [] && b != []
  {
    if |a[0]| <= |b[0]| then 1 else 0
  }

  /** The target buffers at which a round can end: the one before has been filled, and it was
      still needed.  A last source buffer that is empty makes a round of its own. */
  ghost predicate Reached(to: seq<seq<Byte>>, from: seq<seq<Byte>>, i: nat)
    requires to != [] && from != []
  {
    if |from[|from| - 1]| > 0 then
      i == 0 || (i <= |to| && Before(to, i - 1) < |Concat(from)| && Before(to, i) <= |Concat(from)|)
    else
      i <= First(to, from) + if First(to, from) == 1 && |from| == 2 && |to| > 1 && to[1] == [] then 1 else 0
  }

  /** No round ends at a buffer of the source behind which all are empty. */
  ghost predicate SourcePasses(to: seq<seq<Byte>>, from: seq<seq<Byte>>)
    requires to != [] && from != []
  {
    forall j | First(from, to) <= j < |from| :: !QueueAt(from, j)
  }

  /** The same of the target. */
  ghost predicate TargetPasses(to: seq<seq<Byte>>, from: seq<seq<Byte>>)
    requires to != [] && from != []
  {
    forall i | First(to, from) <= i < |to| && Reached(to, from, i) :: !QueueAt(to, i)
  }

  /** Both cursors stand at the same position. */
  ghost predicate Position(to: seq<seq<Byte>>, from: seq<seq<Byte>>, i: nat, oi: nat, j: nat, oj: nat) {
    && i <= |to| && j <= |from| && Before(to, i) + oi == Before(from, j) + oj
    && (oi == 0 || (i < |to| && oi < |to[i]|)) && (oj == 0 || (j < |from| && oj < |from[j]|))
  }

  lemma CopyingPosition(to0: seq<seq<Byte>>, to: seq<seq<Byte>>, from: seq<seq<Byte>>, i: nat, oi: nat, j: nat, oj: nat)
    requires Copying(to0, to, from, i, oi, j, oj)
    ensures Position(to0, from, i, oi, j, oj)
  {
    hide Concat;
    SamePosition(to0, to, i);
  }

  lemma {:induction false} BeforeMore(data: seq<seq<Byte>>, i: nat, k: nat)
    requires i <= k <= |data|
    ensures Before(data, i) <= Before(data, k) <= |Concat(data)|
    decreases k
  {
    hide Concat;
    ConcatCut(data, k);
    if i < k {
      BeforeMore(data, i, k - 1);
      ConcatAt(data, k - 1);
    }
  }

  /** Inside or before the last buffer, which is not empty, something is left. */
  lemma SomethingLeft(data: seq<seq<Byte>>, j: nat, oj: nat)
    requires j < |data| && |data[|data| - 1]| > 0 && (oj == 0 || oj < |data[j]|)
    ensures Before(data, j) + oj < |Concat(data)|
  {
    hide Concat;
    ConcatAt(data, j);
    var m := |data| - 1;
    BeforeMore(data, j, m);
    ConcatAt(data, m);
  }

  /** Two empty buffers at the end of the source are noticed. */
  lemma SourceShort(to: seq<seq<Byte>>, from: seq<seq<Byte>>)
    requires to != [] && from != [] && SourcePasses(to, from) && from[|from| - 1] == []
    ensures |from| == 1 || (|from| == 2 && First(from, to) == 1)
  {
    var m := |from|;
    if m > 1 {
      ConcatAt(from, m - 2);
      assert from[m - 2..][1..] == from[m - 1..] == [[]];
      assert QueueAt(from, m - 2);
    }
  }

  /** Where the cursors can stand after a round. */
  ghost predicate Track(to: seq<seq<Byte>>, from: seq<seq<Byte>>, i: nat, j: nat)
    requires to != [] && from != []
  {
    && First(to, from) <= i <= |to| && First(from, to) <= j <= |from|
    && (SourcePasses(to, from) ==>
          && Reached(to, from, i) && (j == |from| ==> forall x: nat | Reached(to, from, x) :: x <= i)
          && (from[|from| - 1] == [] ==> j >= 1 && (j == 1 ==> i == First(to, from))))
  }

  /** The copy ends at the last buffer that it can reach. */
  lemma EndReached(to: seq<seq<Byte>>, from: seq<seq<Byte>>, i: nat, oi: nat, x: nat)
    requires to != [] && from != [] && Position(to, from, i, oi, |from|, 0) && |from[|from| - 1]| > 0
    requires Reached(to, from, x)
    ensures x <= i
  {
    hide Concat;
    WholePrefix(from, |from|);
    if x > i {
      BeforeMore(to, i, x - 1);
      BeforeMore(to, i + 1, x);
      ConcatAt(to, i);
    }
  }

  lemma TrackStart(to: seq<seq<Byte>>, from: seq<seq<Byte>>, i: nat, oi: nat, j: nat, oj: nat)
    requires to != [] && from != [] && Position(to, from, i, oi, j, oj) && i == First(to, from) && j == First(from, to)
    ensures Track(to, from, i, j)
  {
    hide Concat, QueueAt, SourcePasses;
    ConcatNone(to);
    ConcatAt(to, 0);
    BeforeMore(from, j, |from|);
    if SourcePasses(to, from) {
      if from[|from| - 1] == [] {
        SourceShort(to, from);
      } else {
        SomethingLeft(from, 0, 0);
        EndIsLast(to, from, i, oi, j, oj);
      }
    }
  }

  lemma EndIsLast(to: seq<seq<Byte>>, from: seq<seq<Byte>>, i: nat, oi: nat, j: nat, oj: nat)
    requires to != [] && from != [] && Position(to, from, i, oi, j, oj) && |from[|from| - 1]| > 0
    ensures Before(from, j) + oj <= |Concat(from)|
    ensures j == |from| ==> forall x: nat | Reached(to, from, x) :: x <= i
  {
    hide Concat, Reached;
    if j < |from| {
      SomethingLeft(from, j, oj);
    } else {
      BeforeMore(from, j, |from|);
      forall x: nat | Reached(to, from, x) ensures x <= i { EndReached(to, from, i, oi, x); }
    }
  }

  lemma TrackRound(to: seq<seq<Byte>>, from: seq<seq<Byte>>, i: nat, oi: nat, j: nat, oj: nat, i': nat, oi': nat,
                   j': nat, oj': nat)
    requires to != [] && from != [] && Position(to, from, i, oi, j, oj) && Position(to, from, i', oi', j', oj')
    requires Track(to, from, i, j) && i < |to| && j < |from| && oi <= |to[i]| && oj <= |from[j]|
    requires i' == i + if |to[i]| - oi <= |from[j]| - oj then 1 else 0
    requires j' == j + if |from[j]| - oj <= |to[i]| - oi then 1 else 0
    ensures Track(to, from, i', j')
  {
    hide Concat, QueueAt, SourcePasses;
    if SourcePasses(to, from) {
      if from[|from| - 1] == [] {
        SourceShort(to, from);
        ConcatAt(to, 0);
        ConcatAt(from, 0);
        ConcatNone(to);
        ConcatNone(from);
      } else {
        SomethingLeft(from, j, oj);
        EndIsLast(to, from, i', oi', j', oj');
      }
    }
  }

  /** The target is used up before the source: only in one case. */
  lemma UsedUp(to: seq<seq<Byte>>, from: seq<seq<Byte>>, i: nat, j: nat, oj: nat)
    requires to != [] && from != [] && Position(to, from, i, 0, j, oj) && Track(to, from, i, j)
    requires i == |to| && j < |from| && |Concat(from)| <= |Concat(to)|
    ensures !SourcePasses(to, from) || EmptyAtEnd(to, from)
  {
    hide Concat, QueueAt, SourcePasses;
    WholePrefix(to, i);
    if SourcePasses(to, from) {
      if from[|from| - 1] == [] {
        SourceShort(to, from);
      } else {
        SomethingLeft(from, j, oj);
      }
    }
  }

  lemma SameQueue(a: seq<seq<Byte>>, b: seq<seq<Byte>>, i: nat)
    requires SameLengths(a, b) && i < |a|
    ensures QueueAt(a, i) <==> QueueAt(b, i)
  {
    hide Concat;
    SamePosition(a, b, i);
    SamePosition(a, b, |a|);
    WholePrefix(a, |a|);
    WholePrefix(b, |b|);
    ConcatCut(a, i);
    ConcatCut(b, i);
  }

  /** The buffers at which rounds have ended so far pass the checks. */
  ghost predicate Passed(to: seq<seq<Byte>>, from: seq<seq<Byte>>, i: nat, j: nat)
    requires to != [] && from != []
  {
    && (forall x | First(to, from) <= x <= i && x < |to| :: !QueueAt(to, x))
    && (forall x | First(from, to) <= x <= j && x < |from| :: !QueueAt(from, x))
  }

  lemma PassedRound(to: seq<seq<Byte>>, from: seq<seq<Byte>>, i: nat, j: nat, i': nat, j': nat)
    requires to != [] && from != []
    requires Passed(to, from, i, j) || (i' == First(to, from) && j' == First(from, to))
    requires i' <= i + 1 && j' <= j + 1
    requires (i' < |to| ==> !QueueAt(to, i')) && (j' < |from| ==> !QueueAt(from, j'))
    ensures Passed(to, from, i', j')
  {
    hide QueueAt;
  }

  lemma PassedEnd(to: seq<seq<Byte>>, from: seq<seq<Byte>>, i: nat)
    requires to != [] && from != [] && Passed(to, from, i, |from|) && Track(to, from, i, |from|)
    ensures SourcePasses(to, from) && TargetPasses(to, from)
  {
    hide QueueAt, Reached;
  }

  lemma Refused(to: seq<seq<Byte>>, from: seq<seq<Byte>>, i: nat, j: nat)
    requires to != [] && from != [] && Track(to, from, i, j)
    requires (i < |to| && QueueAt(to, i)) || (j < |from| && QueueAt(from, j))
    ensures !SourcePasses(to, from) || !TargetPasses(to, from)
  {
    hide QueueAt, Reached;
  }

  /** pbuf_copy: what it reports as copied is copied.  It copies if and only if the target is big
      enough, except that empty buffers may make it report an error, even after everything has
      been copied: exactly when a round ends at a buffer behind which all others are empty. */
  method Copy(to0: seq<seq<Byte>>, from: seq<seq<Byte>>) returns (err: Err, to: seq<seq<Byte>>)
    requires to0 != [] && from != []
    ensures |Concat(to0)| < |Concat(from)| ==> err == Arg && to == to0
    ensures err == Ok ==> SameLengths(to0, to) && |Concat(from)| <= |Concat(to0)|
    ensures err == Ok ==> Concat(to) == Concat(from) + Concat(to0)[|Concat(from)|..]
    ensures err == Ok <==>
              && |Concat(from)| <= |Concat(to0)| && !EmptyAtEnd(to0, from)
              && SourcePasses(to0, from) && TargetPasses(to0, from)
    ensures NonEmpty(to0) && NonEmpty(from) && |Concat(from)| <= |Concat(to0)| ==> err == Ok
    ensures EmptyAtEnd(to0, from) ==> err == Arg
  {
    hide Concat, NonEmpty, QueueAt, Copying, Position, Track, Passed, SourcePasses, TargetPasses, SameLengths, First,
        EmptyAtEnd;
    to := to0;
    if TotalLen(to0) < TotalLen(from) {
      return Arg, to0;
    }
    NonEmptyPasses(to0, from);
    CopyingStart(to0, from);
    var i: nat, oi: nat, j: nat, oj: nat := 0, 0, 0, 0;
    ghost var started := false;
    while true
      invariant Copying(to0, to, from, i, oi, j, oj) && i < |to| == |to0| && j < |from| && SameLengths(to0, to)
      invariant if started then Track(to0, from, i, j) && Passed(to0, from, i, j) && !EmptyAtEnd(to0, from)
                else i == 0 && j == 0 && oi == 0 && oj == 0
      decreases |to| - i + |from| - j
    {
      ghost var i0, oi0, j0, oj0 := i, oi, j, oj;
      CopyingPosition(to0, to, from, i, oi, j, oj);
      LengthsAt(to0, to, i);
      to, i, oi, j, oj := CopySome(to0, to, from, i, oi, j, oj);
      CopyingEnd(to0, to, from, i, oi, j, oj);
      CopyingPosition(to0, to, from, i, oi, j, oj);
      if started {
        TrackRound(to0, from, i0, oi0, j0, oj0, i, oi, j, oj);
      } else {
        FirstIs(to0, from);
        TrackStart(to0, from, i, oi, j, oj);
      }
      if i == |to| && j < |from| {
        PositionEnd(to0, from, i, oi, j, oj);
        UsedUp(to0, from, i, j, oj);
        return Arg, to;
      }
      if j < |from| && QueueAt(from, j) {
        Refused(to0, from, i, j);
        return Val, to;
      }
      if i < |to| {
        SameQueue(to0, to, i);
      }
      if i < |to| && QueueAt(to, i) {
        Refused(to0, from, i, j);
        return Val, to;
      }
      PassedRound(to0, from, i0, j0, i, j);
      started := true;
      if j == |from| {
        break;
      }
    }
    PassedEnd(to0, from, i);
    err := Ok;
  }

  /** One byte fits into one byte and into two, but an empty buffer behind either chain is refused. */
  method CopyExample(x: Byte) returns (source: Err, target: Err)
    ensures source == Arg && target != Ok
  {
    var to;
    source, to := Copy([[x]], [[x], []]);
    var wide := [[x, x], []];
    assert QueueAt(wide, 0) by {
      assert wide[0..] == wide;
      ConcatAt(wide, 0);
      ConcatAt(wide, 1);
    }
    assert !TargetPasses(wide, [[x]]) by { assert Reached(wide, [[x]], 0); }
    target, to := Copy(wide, [[x]]);
  }

  /** Without empty buffers every check passes. */
  lemma NonEmptyPasses(to: seq<seq<Byte>>, from: seq<seq<Byte>>)
    requires to != [] && from != []
    ensures NonEmpty(to) && NonEmpty(from) ==>
              SourcePasses(to, from) && TargetPasses(to, from) && !EmptyAtEnd(to, from)
  {
    hide QueueAt, Reached;
    if NonEmpty(to) && NonEmpty(from) {
      forall j | First(from, to) <= j < |from| ensures !QueueAt(from, j) { NoQueue(from, j); }
      forall i | First(to, from) <= i < |to| ensures !QueueAt(to, i) { NoQueue(to, i); }
      assert |from| == 2 ==> |from[1]| > 0;
    }
  }

  lemma LengthsAt(a: seq<seq<Byte>>, b: seq<seq<Byte>>, i: nat)
    requires SameLengths(a, b) && i < |a|
    ensures |a| == |b| && |a[i]| == |b[i]|
  {
  }

  lemma FirstIs(a: seq<seq<Byte>>, b: seq<seq<Byte>>)
    requires a != [] && b != []
    ensures First(a, b) == if |a[0]| <= |b[0]| then 1 else 0
    ensures First(b, a) == if |b[0]| <= |a[0]| then 1 else 0
    ensures EmptyAtEnd(a, b) ==> |a| == 1 && |b| == 2 && |a[0]| == |b[0]|
  {
  }

  lemma PositionEnd(to: seq<seq<Byte>>, from: seq<seq<Byte>>, i: nat, oi: nat, j: nat, oj: nat)
    requires Position(to, from, i, oi, j, oj) && i == |to|
    ensures oi == 0
  {
  }

  // --- Shortening and joining ----------------------------------------------------------------

  lemma TotalAt(c: Chain, i: nat)
    requires WellFormed(c) && i < |c.data|
    ensures c.tot[i] == |Concat(c.data[i..])| == |c.data[i]| + |Concat(c.data[i + 1..])|
    ensures |Concat(c.data)| == |Concat(c.data[..i])| + c.tot[i]
  {
    ConcatAt(c.data, i);
    ConcatCut(c.data, i);
  }

  /** Cutting a chain to `keep` buffers and the first `rem` bytes of the next one. */
  lemma CutAt(data: seq<seq<Byte>>, keep: nat, rem: nat)
    requires keep < |data| && rem <= |data[keep]|
    ensures var n := |Concat(data[..keep])| + rem;
            n <= |Concat(data)| && Concat(data[..keep] + [data[keep][..rem]]) == Concat(data)[..n]
  {
    ConcatAt(data, keep);
    ConcatAppend(data[..keep], [data[keep][..rem]]);
    assert Concat([data[keep][..rem]]) == data[keep][..rem] + Concat([]);
  }

  lemma CutTotals(data: seq<seq<Byte>>, keep: nat, rem: nat, i: nat)
    requires keep < |data| && rem <= |data[keep]| && i <= keep
    ensures var cut := data[..keep] + [data[keep][..rem]];
            |Concat(cut[i..])| + |Concat(data)| == |Concat(data[i..])| + |Concat(data[..keep])| + rem
  {
    hide Concat;
    var cut := data[..keep] + [data[keep][..rem]];
    CutAt(data, keep, rem);
    ConcatCut(data, i);
    ConcatCut(cut, i);
    assert cut[..i] == data[..i];
  }

  lemma ShortenedHere(parts: seq<seq<Byte>>, n: nat)
    requires parts != [] && n <= |parts[0]| && n <= |Concat(parts)|
    ensures Shortened(parts, n) == [parts[0][..n]]
  {
  }

  /** pbuf_realloc: a shorter chain keeps a prefix of the bytes, with correct totals. */
  method Realloc(c: Chain, newLen: nat) returns (r: Chain)
    requires WellFormed(c) && c.data != []
    ensures WellFormed(r) && r.data != [] && |r.data| <= |c.data|
    ensures r.data == if newLen < |Concat(c.data)| then Shortened(c.data, newLen) else c.data
    ensures Concat(r.data) == if newLen < |Concat(c.data)| then Concat(c.data)[..newLen] else Concat(c.data)
  {
    hide Concat, Shortened;
    TotalAt(c, 0);
    ConcatNone(c.data);
    assert c.data[0..] == c.data;
    if newLen >= c.tot[0] {
      return c;
    }
    var shrink := c.tot[0] - newLen;
    var rem, q := newLen, 0;
    var tot: seq<nat> := c.tot;
    while rem > |c.data[q]|
      invariant 0 <= q < |c.data| && 0 <= rem && |Concat(c.data[..q])| + rem == newLen && |tot| == |c.tot|
      invariant forall i | 0 <= i < q :: tot[i] == c.tot[i] - shrink
      invariant forall i | q <= i < |tot| :: tot[i] == c.tot[i]
      invariant rem <= |Concat(c.data[q..])| && Shortened(c.data, newLen) == c.data[..q] + Shortened(c.data[q..], rem)
      decreases |c.data| - q
    {
      TotalAt(c, q);
      ConcatAt(c.data, q);
      ShortenedStep(c.data, q, rem);
      rem := rem - |c.data[q]|;
      tot := tot[q := tot[q] - shrink];
      q := q + 1;
    }
    CutAt(c.data, q, rem);
    assert Shortened(c.data[q..], rem) == [c.data[q][..rem]] by { ShortenedHere(c.data[q..], rem); }
    r := Chain(c.data[..q] + [c.data[q][..rem]], tot[..q] + [rem]);
    forall i | 0 <= i < |r.data| ensures r.tot[i] == |Concat(r.data[i..])| <= 0xffff {
      CutTotals(c.data, q, rem, i);
      TotalAt(c, i);
      TotalAt(c, q);
    }
  }

  /** pbuf_free_header on buffers that nobody else uses: drops bytes from the front. */
  method FreeHeader(c: Chain, size: nat) returns (r: Chain)
    requires WellFormed(c)
    ensures WellFormed(r) && Concat(r.data) == Concat(c.data)[Min(size, |Concat(c.data)|)..]
  {
    hide Concat;
    r := c;
    var left := size;
    ghost var gone := 0;
    while left > 0 && r.data != []
      invariant WellFormed(r) && 0 <= left && 0 <= gone <= |Concat(c.data)|
      invariant gone + left == size || (left == 0 && gone == size)
      invariant Concat(r.data) == Concat(c.data)[gone..]
      decreases |r.data|, left
    {
      TotalAt(r, 0);
      ConcatAt(r.data, 0);
      ConcatNone(r.data);
      assert Concat(r.data[..0]) == [] && Concat(r.data) == r.data[0] + Concat(r.data[1..]);
      if left >= |r.data[0]| {
        left := left - |r.data[0]|;
        gone := gone + |r.data[0]|;
        DropHead(r);
        r := Chain(r.data[1..], r.tot[1..]);
      } else {
        DropFront(r, left);
        r := Chain([r.data[0][left..]] + r.data[1..], [r.tot[0] - left] + r.tot[1..]);
        gone, left := gone + left, 0;
      }
    }
    if r.data == [] {
      Nothing();
    }
  }

  lemma Nothing()
    ensures Concat([]) == []
  {
  }

  lemma DropHead(c: Chain)
    requires WellFormed(c) && c.data != []
    ensures WellFormed(Chain(c.data[1..], c.tot[1..])) && Concat(c.data[1..]) == Concat(c.data)[|c.data[0]|..]
  {
  }

  lemma DropFront(c: Chain, n: nat)
    requires WellFormed(c) && c.data != [] && n < |c.data[0]|
    ensures n <= c.tot[0] && WellFormed(Chain([c.data[0][n..]] + c.data[1..], [c.tot[0] - n] + c.tot[1..]))
    ensures Concat([c.data[0][n..]] + c.data[1..]) == Concat(c.data)[n..]
  {
    hide Concat;
    TotalAt(c, 0);
    ConcatAt(c.data, 0);
    ConcatNone(c.data);
    var data := [c.data[0][n..]] + c.data[1..];
    var tot: seq<nat> := [c.tot[0] - n] + c.tot[1..];
    ConcatAt(data, 0);
    ConcatNone(data);
    assert data[1..] == c.data[1..];
    FrontBytes(c.data[0], Concat(c.data[1..]), n);
    forall i | 1 <= i < |data| ensures tot[i] == |Concat(data[i..])| <= 0xffff {
      assert data[i..] == c.data[i..] && tot[i] == c.tot[i];
    }
  }

  lemma FrontBytes(a: seq<Byte>, b: seq<Byte>, n: nat)
    requires n <= |a|
    ensures (a + b)[n..] == a[n..] + b && [] + a + b == a + b && [] + a[n..] + b == a[n..] + b
  {
  }

  /** pbuf_cat: the totals grow modulo 65536. */
  method Cat(h: Chain, t: Chain) returns (r: Chain)
    requires TotalsMod(h) && TotalsMod(t) && h.data != [] && t.data != []
    ensures TotalsMod(r) && Concat(r.data) == Concat(h.data) + Concat(t.data)
    ensures |Concat(r.data)| <= 0xffff ==> WellFormed(r)
  {
    hide Concat;
    var tot := h.tot;
    for i := 0 to |h.tot|
      invariant |tot| == |h.tot|
      invariant forall k | 0 <= k < i :: tot[k] == (h.tot[k] + t.tot[0]) % U16
      invariant forall k | i <= k < |tot| :: tot[k] == h.tot[k]
    {
      tot := tot[i := (tot[i] + t.tot[0]) % U16];
    }
    r := Chain(h.data + t.data, tot + t.tot);
    ConcatAppend(h.data, t.data);
    forall i | 0 <= i < |r.data| ensures r.tot[i] == |Concat(r.data[i..])| % U16 {
      CatTotal(h, t, i);
    }
    if |Concat(r.data)| <= 0xffff {
      forall i | 0 <= i < |r.data| ensures r.tot[i] == |Concat(r.data[i..])| <= 0xffff {
        ConcatCut(r.data, i);
      }
    }
  }

  lemma CatTotal(h: Chain, t: Chain, i: nat)
    requires TotalsMod(h) && TotalsMod(t) && h.data != [] && t.data != [] && i < |h.data| + |t.data|
    ensures i < |h.data| ==> |Concat((h.data + t.data)[i..])| % U16 == (h.tot[i] + t.tot[0]) % U16
    ensures i >= |h.data| ==> |Concat((h.data + t.data)[i..])| % U16 == t.tot[i - |h.data|]
  {
    hide Concat;
    if i < |h.data| {
      assert (h.data + t.data)[i..] == h.data[i..] + t.data[0..];
      ConcatAppend(h.data[i..], t.data[0..]);
      SumMod(|Concat(h.data[i..])|, |Concat(t.data[0..])|);
    } else {
      assert (h.data + t.data)[i..] == t.data[i - |h.data|..];
    }
  }

  lemma SumMod(a: nat, b: nat)
    ensures (a + b) % U16 == (a % U16 + b % U16) % U16
  {
  }

  /** The loop of pbuf_split_64k: how many buffers can be counted in 16 bits. */
  method CountFront(data: seq<seq<Byte>>) returns (r: nat)
    requires data != [] && forall i | 0 <= i < |data| :: |data[i]| <= 0xffff
    ensures 1 <= r <= |data| && |Concat(data[..r])| <= 0xffff
    ensures r < |data| ==> |Concat(data[..r])| + |data[r]| > 0xffff
  {
    hide Concat;
    var sum := |data[0]|;
    r := 1;
    ConcatAt(data, 0);
    ConcatNone(data);
    assert Concat(data[..1]) == data[0];
    while r < |data| && (sum + |data[r]|) % U16 >= sum
      invariant 1 <= r <= |data| && sum == |Concat(data[..r])| <= 0xffff
    {
      ConcatAt(data, r);
      sum, r := (sum + |data[r]|) % U16, r + 1;
    }
  }

  /** pbuf_split_64k: totals that are known modulo 65536 only become exact in the front part,
      which is as long as its bytes can be counted in 16 bits. */
  method Split64k(c: Chain) returns (front: Chain, rest: Chain)
    requires TotalsMod(c) && c.data != [] && forall i | 0 <= i < |c.data| :: |c.data[i]| <= 0xffff
    ensures front.data != [] && front.data + rest.data == c.data && WellFormed(front) && TotalsMod(rest)
    ensures rest.data != [] ==> |Concat(front.data)| + |rest.data[0]| > 0xffff
  {
    hide Concat;
    var r := CountFront(c.data);
    var tot := c.tot[..r];
    if r < |c.data| {
      tot := Lower(tot, c.tot[r]);
    }
    front, rest := Chain(c.data[..r], tot), Chain(c.data[r..], c.tot[r..]);
    forall i | 0 <= i < r ensures tot[i] == |Concat(front.data[i..])| <= 0xffff {
      FrontTotal(c, r, i);
    }
    RestTotals(c, r);
  }

  lemma RestTotals(c: Chain, r: nat)
    requires TotalsMod(c) && r <= |c.data|
    ensures TotalsMod(Chain(c.data[r..], c.tot[r..]))
  {
    hide Concat;
    forall i | 0 <= i < |c.data| - r ensures c.tot[r..][i] == |Concat(c.data[r..][i..])| % U16 {
      assert c.data[r..][i..] == c.data[r + i..];
    }
  }

  /** All totals are lowered by the same amount. */
  method Lower(tot0: seq<nat>, n: nat) returns (tot: seq<nat>)
    ensures |tot| == |tot0| && forall k | 0 <= k < |tot| :: tot[k] == (tot0[k] - n) % U16
  {
    tot := tot0;
    for i := 0 to |tot0|
      invariant |tot| == |tot0|
      invariant forall k | 0 <= k < i :: tot[k] == (tot0[k] - n) % U16
      invariant forall k | i <= k < |tot| :: tot[k] == tot0[k]
    {
      tot := tot[i := (tot[i] - n) % U16];
    }
  }

  lemma FrontTotal(c: Chain, r: nat, i: nat)
    requires TotalsMod(c) && i < r <= |c.data| && |Concat(c.data[..r])| <= 0xffff
    ensures |Concat(c.data[..r][i..])| <= 0xffff
    ensures |Concat(c.data[..r][i..])| == if r < |c.data| then (c.tot[i] - c.tot[r]) % U16 else c.tot[i]
  {
    hide Concat;
    ConcatCut(c.data[..r], i);
    var n := |Concat(c.data[..r][i..])|;
    assert c.data[i..] == c.data[..r][i..] + c.data[r..];
    ConcatAppend(c.data[..r][i..], c.data[r..]);
    if r < |c.data| {
      DifferenceMod(n, |Concat(c.data[r..])|);
    } else {
      ConcatNone(c.data);
    }
  }

  lemma DifferenceMod(n: nat, m: nat)
    requires n < U16
    ensures ((n + m) % U16 - m % U16) % U16 == n
  {
  }
}
