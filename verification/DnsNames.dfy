/** Host names in DNS messages: the encoder of dns_send and the two readers (src/core/dns.c). */
module DnsNames {
  import opened Bytes

  const DOT: Byte := 46
  const SIZEOF_DNS_HDR := 12
  const MAX_NAME_LENGTH := 256

  /** How far the label that starts at `k` goes: up to a dot or the end. */
  function LabelLen(name: seq<Byte>, k: nat): (n: nat)
    requires k <= |name|
    ensures k + n <= |name| && (k + n == |name| || name[k + n] == DOT)
    ensures forall j | k <= j < k + n :: name[j] != DOT
    decreases |name| - k
  {
    if k == |name| || name[k] == DOT then 0 else 1 + LabelLen(name, k + 1)
  }

  /** Every label is preceded by its length, which takes the place of the dot; a zero ends the
      name.  This is position by position. */
  function EncodedAt(name: seq<Byte>, k: nat): nat
    requires k <= |name| + 1
  {
    if k == |name| + 1 then 0
    else if k == 0 || name[k - 1] == DOT then LabelLen(name, k)
    else name[k - 1]
  }

  /** Labels are not empty and have at most 63 bytes. */
  ghost predicate GoodName(name: seq<Byte>) {
    forall k | 0 <= k <= |name| && LabelStart(name, k) :: 0 < LabelLen(name, k) <= 63
  }

  predicate LabelStart(name: seq<Byte>, k: nat) {
    k == 0 || (k <= |name| && name[k - 1] == DOT)
  }

  function ToLower(c: nat): nat {
    if 65 <= c <= 90 then c + 32 else c
  }

  predicate SameLetters(a: seq<Byte>, b: seq<Byte>) {
    |a| == |b| && forall i | 0 <= i < |a| :: ToLower(a[i]) == ToLower(b[i])
  }

  /** The packet holds the encoded name at `start`. */
  ghost predicate HoldsName(p: seq<Byte>, start: nat, name: seq<Byte>) {
    start + |name| + 2 <= |p| && forall k | 0 <= k < |name| + 2 :: p[start + k] == EncodedAt(name, k)
  }

  // --- The encoder ---------------------------------------------------------------------------

  /** The part of dns_send that writes the name behind the header; `p` has the size that dns_send
      allocates and the name fits exactly. */
  method PutName(p: array<Byte>, name: seq<Byte>) returns (idx: nat)
    requires |name| < MAX_NAME_LENGTH && p.Length == SIZEOF_DNS_HDR + |name| + 2 + 4
    modifies p
    ensures idx == SIZEOF_DNS_HDR + |name| + 2 && p.Length - idx == 4
    ensures HoldsName(p[..], SIZEOF_DNS_HDR, name)
    ensures forall i | 0 <= i < p.Length && !(SIZEOF_DNS_HDR <= i < idx) :: p[i] == old(p[i])
  {
    idx := SIZEOF_DNS_HDR;
    var host := 0;
    while true
      invariant 0 <= host <= |name| && idx == SIZEOF_DNS_HDR + host && LabelStart(name, host)
      invariant forall k | 0 <= k < host :: p[SIZEOF_DNS_HDR + k] == EncodedAt(name, k)
      invariant forall i | 0 <= i < p.Length && !(SIZEOF_DNS_HDR <= i < idx) :: p[i] == old(p[i])
      decreases |name| - host
    {
      var part := host;
      var n := 0;
      while host < |name| && name[host] != DOT
        invariant part <= host <= |name| && n == host - part && n + LabelLen(name, host) == LabelLen(name, part)
      {
        n, host := n + 1, host + 1;
      }
      p[idx] := n;
      forall j | 0 <= j < n {
        p[idx + 1 + j] := name[part + j];
      }
      forall k | part <= k <= part + n ensures p[SIZEOF_DNS_HDR + k] == EncodedAt(name, k) {
        assert k > part ==> p[idx + 1 + (k - 1 - part)] == name[k - 1];
      }
      idx := idx + n + 1;
      if host == |name| {
        break;
      }
      host := host + 1;
    }
    p[idx] := 0;
    idx := idx + 1;
  }

  // --- The readers ---------------------------------------------------------------------------

  /** pbuf_try_get_at */
  function TryGetAt(p: seq<Byte>, offset: nat): int {
    if offset < |p| then p[offset] else -1
  }

  /** The length byte has both top bits set. */
  predicate Compressed(n: nat) {
    n >= 0xc0
  }

  /** One label of an encoded name: where its bytes are and what follows. */
  lemma LabelIn(p: seq<Byte>, start: nat, name: seq<Byte>, k: nat)
    requires HoldsName(p, start, name) && GoodName(name) && k <= |name| && LabelStart(name, k)
    ensures var n := LabelLen(name, k);
            && p[start + k] == n && 0 < n <= 63
            && (forall j | k <= j < k + n :: p[start + 1 + j] == name[j])
            && (if k + n == |name| then p[start + k + n + 1] == 0
                else LabelStart(name, k + n + 1) && p[start + k + n + 1] == LabelLen(name, k + n + 1) > 0)
  {
    var n := LabelLen(name, k);
    assert p[start + k] == EncodedAt(name, k);
    forall j | k <= j < k + n ensures p[start + 1 + j] == name[j] {
      assert p[start + (j + 1)] == EncodedAt(name, j + 1);
    }
    assert p[start + (k + n + 1)] == EncodedAt(name, k + n + 1);
  }

  /** dns_skip_name finds the end of every encoded name. */
  method SkipName(p: seq<Byte>, start: nat, ghost name: seq<Byte>) returns (r: nat)
    requires |p| <= 0xffff && start <= 0xffff
    ensures r <= 0xffff
    ensures HoldsName(p, start, name) && GoodName(name) ==> r == start + |name| + 2
    ensures start < |p| - 1 && Compressed(p[start]) ==> r == start + 2
  {
    hide HoldsName, GoodName;
    var offset := start;
    ghost var k: nat := 0;
    while true
      invariant start <= offset <= 0xffff && (start < |p| && Compressed(p[start]) ==> offset == start)
      invariant HoldsName(p, start, name) && GoodName(name) ==>
                k <= |name| && offset == start + k && LabelStart(name, k)
      decreases 0x1_0000 - offset
    {
      if HoldsName(p, start, name) && GoodName(name) {
        LabelIn(p, start, name, k);
        NameFits(p, start, name);
      }
      var n := TryGetAt(p, offset);
      offset := (offset + 1) % 0x1_0000;
      if n < 0 || offset == 0 {
        return 0xffff;
      }
      if Compressed(n) {
        break;
      }
      if offset + n >= |p| {
        return 0xffff;
      }
      offset := offset + n;
      n := TryGetAt(p, offset);
      if n < 0 {
        return 0xffff;
      }
      if n == 0 {
        break;
      }
      k := k + 1 + LabelLenOr(name, k);
    }
    if offset == 0xffff {
      return 0xffff;
    }
    r := offset + 1;
  }

  ghost function LabelLenOr(name: seq<Byte>, k: nat): nat {
    if k <= |name| then LabelLen(name, k) else 0
  }

  lemma NameFits(p: seq<Byte>, start: nat, name: seq<Byte>)
    requires HoldsName(p, start, name)
    ensures start + |name| + 2 <= |p|
  {
  }

  /** dns_compare_name: the name in the packet is the one that was asked for, in whatever case. */
  method CompareName(query: seq<Byte>, p: seq<Byte>, start: nat, ghost name: seq<Byte>) returns (r: nat)
    requires |p| <= 0xffff && start <= 0xffff
    ensures r <= 0xffff
    ensures HoldsName(p, start, name) && GoodName(name) && SameLetters(query, name) ==> r == start + |name| + 2
    ensures start >= |p| || Compressed(p[start]) ==> r == 0xffff
  {
    hide HoldsName, GoodName, SameLetters;
    var offset, q := start, 0;
    ghost var held := HoldsName(p, start, name) && GoodName(name) && SameLetters(query, name);
    while true
      invariant start <= offset <= 0xffff && 0 <= q && (start >= |p| || Compressed(p[start]) ==> offset == start)
      invariant held ==> q <= |name| && offset == start + q && LabelStart(name, q)
      decreases 0x1_0000 - offset
    {
      ghost var k, at := q, offset;
      if held {
        LabelIn(p, start, name, k);
        NameFits(p, start, name);
      }
      var n := TryGetAt(p, offset);
      if n < 0 || offset == 0xffff {
        return 0xffff;
      }
      offset := offset + 1;
      if Compressed(n) {
        return 0xffff;
      }
      while n > 0
        invariant 0 <= n && start <= at < offset <= 0xffff && 0 <= q
        invariant held ==> offset == start + 1 + q && k <= q && q + n == k + LabelLenOr(name, k)
      {
        var c := TryGetAt(p, offset);
        if c < 0 {
          return 0xffff;
        }
        if held {
          LetterAt(query, name, q);
        }
        if ToLower(QueryAt(query, q)) != ToLower(c) {
          return 0xffff;
        }
        if offset == 0xffff {
          return 0xffff;
        }
        offset, q, n := offset + 1, q + 1, n - 1;
      }
      q := q + 1;
      n := TryGetAt(p, offset);
      if n < 0 {
        return 0xffff;
      }
      if n == 0 {
        break;
      }
    }
    if offset == 0xffff {
      return 0xffff;
    }
    r := offset + 1;
  }

  /** A C string: behind its end there is a zero. */
  function QueryAt(query: seq<Byte>, q: nat): nat {
    if q < |query| then query[q] else 0
  }

  lemma LetterAt(query: seq<Byte>, name: seq<Byte>, q: nat)
    requires SameLetters(query, name)
    ensures q < |name| ==> ToLower(QueryAt(query, q)) == ToLower(name[q])
  {
  }

  /** What dns_send writes, both readers read back, and the query fields follow it. */
  method RoundTrip(name: seq<Byte>, query: seq<Byte>) returns (idx: nat, compared: nat, skipped: nat)
    requires |name| < MAX_NAME_LENGTH
    ensures idx == SIZEOF_DNS_HDR + |name| + 2
    ensures GoodName(name) && SameLetters(query, name) ==> compared == idx
    ensures GoodName(name) ==> skipped == idx
  {
    hide HoldsName, GoodName;
    var p := new Byte[SIZEOF_DNS_HDR + |name| + 2 + 4](i => 0);
    idx := PutName(p, name);
    compared := CompareName(query, p[..], SIZEOF_DNS_HDR, name);
    skipped := SkipName(p[..], SIZEOF_DNS_HDR, name);
  }
}
