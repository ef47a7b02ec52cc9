/** Bytes and lists of byte strings. */
module Bytes {
  type Byte = n: nat | n < 256

  function Concat(parts: seq<seq<Byte>>): seq<Byte> {
    if parts == [] then [] else parts[0] + Concat(parts[1..])
  }

  lemma {:induction false} ConcatAppend(a: seq<seq<Byte>>, b: seq<seq<Byte>>)
    ensures Concat(a + b) == Concat(a) + Concat(b)
  {
    if a == [] {
      assert a + b == b;
    } else {
      assert (a + b)[1..] == a[1..] + b;
      ConcatAppend(a[1..], b);
    }
  }

  /** Where part `v` lies in the whole. */
  lemma ConcatAt(parts: seq<seq<Byte>>, v: nat)
    requires v < |parts|
    ensures Concat(parts[..v + 1]) == Concat(parts[..v]) + parts[v]
    ensures Concat(parts[v..]) == parts[v] + Concat(parts[v + 1..])
    ensures Concat(parts) == Concat(parts[..v]) + parts[v] + Concat(parts[v + 1..])
  {
    hide Concat;
    CutAround(parts, v);
    ConcatAround(parts[..v], parts[v], parts[v + 1..]);
  }

  lemma CutAround(parts: seq<seq<Byte>>, v: nat)
    requires v < |parts|
    ensures parts[..v + 1] == parts[..v] + [parts[v]] && parts[v..] == [parts[v]] + parts[v + 1..]
    ensures parts == parts[..v] + [parts[v]] + parts[v + 1..]
  {
  }

  lemma ConcatAround(before: seq<seq<Byte>>, part: seq<Byte>, after: seq<seq<Byte>>)
    ensures Concat(before + [part]) == Concat(before) + part && Concat([part] + after) == part + Concat(after)
    ensures Concat(before + [part] + after) == Concat(before) + part + Concat(after)
  {
    hide Concat;
    ConcatOne(part);
    ConcatAppend(before, [part]);
    ConcatAppend([part], after);
    ConcatAppend(before + [part], after);
  }

  lemma ConcatOne(part: seq<Byte>)
    ensures Concat([part]) == part
  {
    assert [part][1..] == [];
  }

  lemma ConcatCut(parts: seq<seq<Byte>>, v: nat)
    requires v <= |parts|
    ensures Concat(parts) == Concat(parts[..v]) + Concat(parts[v..])
  {
    assert parts == parts[..v] + parts[v..];
    ConcatAppend(parts[..v], parts[v..]);
  }

  lemma NoBytes(parts: seq<seq<Byte>>)
    ensures parts == [] ==> Concat(parts) == []
  {
  }

  /** The parts cut down to `n` bytes in all, as pbuf_realloc leaves a chain: the part in which they
      end is the last one. */
  function Shortened(parts: seq<seq<Byte>>, n: nat): (r: seq<seq<Byte>>)
    requires parts != [] && n <= |Concat(parts)|
    ensures 0 < |r| <= |parts|
  {
    if n <= |parts[0]| then [parts[0][..n]]
    else
      NoBytes(parts[1..]);
      [parts[0]] + Shortened(parts[1..], n - |parts[0]|)
  }

  lemma {:induction false} ShortenedConcat(parts: seq<seq<Byte>>, n: nat)
    requires parts != [] && n <= |Concat(parts)|
    ensures Concat(Shortened(parts, n)) == Concat(parts)[..n]
  {
    if n <= |parts[0]| {
      assert [parts[0][..n]][1..] == [];
    } else {
      var rest := Shortened(parts[1..], n - |parts[0]|);
      ShortenedConcat(parts[1..], n - |parts[0]|);
      assert ([parts[0]] + rest)[1..] == rest;
      assert Concat(parts)[..n] == parts[0] + Concat(parts[1..])[..n - |parts[0]|];
    }
  }

  /** The parts in front of the cut stay whole. */
  lemma {:induction false} ShortenedStep(parts: seq<seq<Byte>>, q: nat, rem: nat)
    requires q < |parts| && |parts[q]| < rem <= |Concat(parts[q..])|
    ensures q + 1 < |parts| && rem - |parts[q]| <= |Concat(parts[q + 1..])|
    ensures parts[..q] + Shortened(parts[q..], rem) == parts[..q + 1] + Shortened(parts[q + 1..], rem - |parts[q]|)
  {
    assert parts[q..][1..] == parts[q + 1..] && parts[q..][0] == parts[q];
    assert parts[..q + 1] == parts[..q] + [parts[q]];
    NoBytes(parts[q + 1..]);
  }
}
