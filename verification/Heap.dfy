/** The first-fit heap of src/core/mem.c (heap branch: neither libc malloc nor pools).

    Block headers live inside one array and are linked by byte offsets.  The set `live` of
    header offsets is the only specification state: where a block ends, which block precedes
    it and what tiles the heap all follow from it (see `TilesExactly`). */
module Heap {

  /** `struct mem`: the header in front of every block. */
  datatype Header = Header(next: nat, prev: nat, used: bool)

  /** A pointer handed to or returned by the allocator, as an offset into `ram`. */
  datatype Ptr = Null | At(addr: int)

  /** The compile-time constants: MEM_ALIGNMENT, SIZEOF_STRUCT_MEM, MIN_SIZE_ALIGNED,
      MEM_SIZE_ALIGNED and the number of values of `mem_size_t`. */
  datatype Layout = Layout(align: nat, hdr: nat, minData: nat, size: nat, width: nat) {
    ghost predicate Valid() {
      && 0 < align && 0 < hdr && 0 < minData
      && hdr % align == 0 && minData % align == 0 && size % align == 0 && width % align == 0
      && hdr + minData <= size && size + hdr < width
    }

    /** `(mem_size_t)LWIP_MEM_ALIGN_SIZE(n)`, wrap-around included, raised to the minimum. */
    function Rounded(n: nat): (r: nat)
      requires 0 < align && 0 < width
    {
      var up := (n + align - 1) / align * align % width;
      if up < minData then minData else up
    }

    /** The size is refused: too large for the heap, or it wrapped around. */
    predicate TooBig(n: nat)
      requires 0 < align && 0 < width
    {
      Rounded(n) > size || Rounded(n) < n
    }
  }

  lemma MultipleSum(a: int, b: int, m: int)
    requires 0 < m && a % m == 0 && b % m == 0
    ensures (a + b) % m == 0 && (a - b) % m == 0
  {
    var x, y := a / m, b / m;
    assert a == m * x && b == m * y;
    assert a + b == m * (x + y) && a - b == m * (x - y);
    MultipleMod(x + y, m);
    MultipleMod(x - y, m);
  }

  lemma MultipleMod(x: int, m: int)
    requires 0 < m
    ensures (m * x) % m == 0
  {
    var q, r := (m * x) / m, (m * x) % m;
    assert m * x == m * q + r;
    assert r == m * (x - q);
    assert x - q >= 1 ==> m * (x - q) >= m;
    assert x - q <= -1 ==> m * (x - q) <= -m;
  }

  /** Rounding gives an aligned size of at least the minimum; a size that is not refused is
      large enough for the request. */
  lemma RoundedFits(L: Layout, n: nat)
    requires L.Valid()
    ensures L.Rounded(n) % L.align == 0 && L.minData <= L.Rounded(n)
    ensures !L.TooBig(n) ==> n <= L.Rounded(n) <= L.size
  {
    var k := (n + L.align - 1) / L.align;
    var up := k * L.align;
    MultipleMod(k, L.align);
    assert up == L.align * k;
    var q := up / L.width;
    var r := up % L.width;
    assert up == L.width * q + r;
    var w := L.width / L.align;
    assert L.width == L.align * w;
    assert r == L.align * (k - w * q) by {
      assert L.width * q == L.align * (w * q);
    }
    MultipleMod(k - w * q, L.align);
  }

  /** The state a caller can see: where the headers are and which blocks are in use. */
  datatype Blocks = Blocks(live: set<nat>, used: set<nat>)

  /** The blocks at the offsets `b.live` tile the heap: `next` leads from each header to the
      one behind it in address order. */
  ghost predicate NextLinks(L: Layout, ram: seq<Header>, b: Blocks) {
    && |ram| == L.size + 1
    && 0 in b.live && L.size in b.live
    && (forall o | o in b.live :: o <= L.size)
    && (forall o {:trigger ram[o].next} | o in b.live && o < L.size ::
          ram[o].next in b.live && o < ram[o].next)
    && (forall o, p {:trigger ram[o].next, p in b.live} | o in b.live && p in b.live && o < p ::
          ram[o].next <= p)
  }

  ghost predicate Inverse(L: Layout, ram: seq<Header>, b: Blocks)
    requires NextLinks(L, ram, b)
  {
    forall o, p {:trigger ram[o].next, ram[p].prev} | o in b.live && p in b.live && o < p < L.size ::
      ram[o].next == p <==> ram[p].prev == o
  }

  /** `prev` is the inverse of `next`. */
  ghost predicate PrevLinks(L: Layout, ram: seq<Header>, b: Blocks)
    requires NextLinks(L, ram, b)
  {
    && (forall o {:trigger ram[o].prev} | o in b.live && 0 < o < L.size ::
          ram[o].prev in b.live && ram[o].prev < o)
    && Inverse(L, ram, b)
    && ram[0].prev == 0
  }

  /** The in-use marks are those of `b`, and the end marker is in place. */
  ghost predicate Marks(L: Layout, ram: seq<Header>, b: Blocks)
    requires NextLinks(L, ram, b)
  {
    && (forall o | o in b.used :: o in b.live)
    && (forall o {:trigger ram[o].used} | o in b.live :: ram[o].used <==> o in b.used)
    && ram[L.size] == Header(L.size, L.size, true)
  }

  ghost predicate Chained(L: Layout, ram: seq<Header>, b: Blocks) {
    NextLinks(L, ram, b) && PrevLinks(L, ram, b) && Marks(L, ram, b)
  }

  /** No free block is followed by a free block; blocks in `lefts` are not looked at. */
  ghost predicate NoTwoFree(L: Layout, ram: seq<Header>, b: Blocks, lefts: set<nat>)
    requires NextLinks(L, ram, b)
  {
    forall o {:trigger ram[o].next} | o in b.live && o < L.size && o !in b.used && o !in lefts ::
      ram[o].next in b.used
  }

  /** Every block starts aligned and has room for the minimum. */
  ghost predicate Roomy(L: Layout, ram: seq<Header>, b: Blocks)
    requires NextLinks(L, ram, b)
  {
    && L.Valid() && (forall o | o in b.live :: o % L.align == 0)
    && (forall o {:trigger ram[o].next} | o in b.live && o < L.size ::
          o + L.hdr + L.minData <= ram[o].next)
  }

  /** The heap invariant, free pairs that start in `lefts` aside. */
  ghost predicate Sound(L: Layout, ram: seq<Header>, b: Blocks, lefts: set<nat>) {
    Chained(L, ram, b) && Roomy(L, ram, b) && NoTwoFree(L, ram, b, lefts)
  }

  /** Every byte of the heap belongs to exactly one block. */
  lemma {:induction false} TilesExactly(L: Layout, ram: seq<Header>, b: Blocks, x: nat)
    requires NextLinks(L, ram, b) && x < L.size
    ensures exists o :: o in b.live && o < L.size && o <= x < ram[o].next
    ensures forall o, p | o in b.live && p in b.live && o <= x && p <= x ::
              x < ram[o].next && x < ram[p].next ==> o == p
  {
    CoveringBlock(L, ram, b, x, 0);
  }

  lemma {:induction false} CoveringBlock(L: Layout, ram: seq<Header>, b: Blocks, x: nat, from: nat)
    requires NextLinks(L, ram, b) && x < L.size
    requires from in b.live && from <= x
    ensures exists o :: o in b.live && o < L.size && o <= x < ram[o].next
    decreases L.size - from
  {
    if ram[from].next <= x {
      CoveringBlock(L, ram, b, x, ram[from].next);
    }
  }

  /** What following a link from a live header gives. */
  lemma Follow(L: Layout, ram: seq<Header>, b: Blocks, o: nat)
    requires Chained(L, ram, b) && o in b.live
    ensures o <= L.size && |ram| == L.size + 1
    ensures o < L.size ==> ram[o].next in b.live && o < ram[o].next <= L.size
    ensures 0 < o < L.size ==> ram[o].prev in b.live && ram[o].prev < o && ram[ram[o].prev].next == o
    ensures 0 < o < L.size && ram[o].next < L.size ==> ram[ram[o].next].prev == o
    ensures ram[o].used <==> o in b.used
    ensures ram[0].prev == 0 && L.size in b.live && L.size in b.used
  {
  }

  /** `prev` undoes `next` and `next` undoes `prev`. */
  lemma LinksAreInverse(L: Layout, ram: seq<Header>, b: Blocks, o: nat)
    requires NextLinks(L, ram, b) && PrevLinks(L, ram, b) && o in b.live && 0 < o < L.size
    ensures ram[ram[o].prev].next == o
    ensures ram[o].next < L.size ==> ram[ram[o].next].prev == o
  {
  }

  /** Room and alignment of one block. */
  lemma RoomOf(L: Layout, ram: seq<Header>, b: Blocks, lefts: set<nat>, o: nat)
    requires Sound(L, ram, b, lefts) && o in b.live
    ensures L.Valid() && o % L.align == 0
    ensures o < L.size ==> o + L.hdr + L.minData <= ram[o].next
    ensures o < L.size && o !in b.used && o !in lefts ==> ram[o].next in b.used
  {
  }

  // --- Surgery: every operation is a composition of these three -----------------------------

  /** `r` is `ram` after the block at `a` has swallowed its successor. */
  ghost predicate Merged(L: Layout, ram: seq<Header>, b: Blocks, a: nat, r: seq<Header>)
    requires NextLinks(L, ram, b) && a in b.live && a < L.size
  {
    var n := ram[a].next;
    var m := ram[n].next;
    && |r| == |ram|
    && r[a] == Header(m, ram[a].prev, ram[a].used)
    && (m < L.size ==> r[m] == Header(ram[m].next, a, ram[m].used))
    && (forall o {:trigger r[o]} | o in b.live && o != a && o != n && (o != m || m == L.size) :: r[o] == ram[o])
  }

  ghost function Without(b: Blocks, o: nat): Blocks {
    b.(live := b.live - {o})
  }

  lemma MergeNext(L: Layout, ram: seq<Header>, b: Blocks, a: nat, r: seq<Header>)
    requires NextLinks(L, ram, b) && a in b.live && a < L.size && ram[a].next < L.size
    requires Merged(L, ram, b, a, r)
    ensures NextLinks(L, r, Without(b, ram[a].next))
  {
    assert ram[ram[a].next].next in b.live;
  }

  lemma MergeInverse(L: Layout, ram: seq<Header>, b: Blocks, a: nat, r: seq<Header>)
    requires NextLinks(L, ram, b) && a in b.live && a < L.size && ram[a].next < L.size
    requires PrevLinks(L, ram, b) && Merged(L, ram, b, a, r)
    requires NextLinks(L, r, Without(b, ram[a].next))
    ensures Inverse(L, r, Without(b, ram[a].next))
  {
    assert ram[ram[a].next].next in b.live;
  }

  lemma MergePrev(L: Layout, ram: seq<Header>, b: Blocks, a: nat, r: seq<Header>)
    requires NextLinks(L, ram, b) && a in b.live && a < L.size && ram[a].next < L.size
    requires PrevLinks(L, ram, b) && Merged(L, ram, b, a, r)
    requires NextLinks(L, r, Without(b, ram[a].next))
    ensures PrevLinks(L, r, Without(b, ram[a].next))
  {
    MergeInverse(L, ram, b, a, r);
    assert ram[ram[a].next].next in b.live;
  }

  lemma MergeMarks(L: Layout, ram: seq<Header>, b: Blocks, a: nat, r: seq<Header>)
    requires NextLinks(L, ram, b) && a in b.live && a < L.size && ram[a].next !in b.used
    requires Marks(L, ram, b) && Merged(L, ram, b, a, r)
    requires NextLinks(L, r, Without(b, ram[a].next))
    ensures Marks(L, r, Without(b, ram[a].next))
  {
  }

  /** Swallowing a free successor removes exactly its header and keeps the chain. */
  lemma MergeKeepsChain(L: Layout, ram: seq<Header>, b: Blocks, a: nat, r: seq<Header>)
    requires Chained(L, ram, b) && a in b.live && a < L.size
    requires ram[a].next !in b.used && Merged(L, ram, b, a, r)
    ensures Chained(L, r, Without(b, ram[a].next))
  {
    assert ram[a].next < L.size by { assert ram[L.size].used; }
    MergeNext(L, ram, b, a, r);
    MergePrev(L, ram, b, a, r);
    MergeMarks(L, ram, b, a, r);
  }

  /** ... and settles the pair that starts at `a`. */
  lemma MergeKeepsSound(L: Layout, ram: seq<Header>, b: Blocks, a: nat, r: seq<Header>, lefts: set<nat>)
    requires Sound(L, ram, b, lefts) && a in b.live && a < L.size && Merged(L, ram, b, a, r)
    requires ram[a].next !in b.used && ram[a].next !in lefts
    ensures Sound(L, r, Without(b, ram[a].next), lefts - {a})
  {
    MergeKeepsChain(L, ram, b, a, r);
    assert ram[a].next < L.size by { assert ram[L.size].used; }
    assert ram[ram[a].next].next in b.used;
  }

  /** `r` is `ram` after a free block has been cut off at `c` from the block at `a`. */
  ghost predicate Cut(L: Layout, ram: seq<Header>, b: Blocks, a: nat, c: nat, r: seq<Header>)
    requires NextLinks(L, ram, b) && a in b.live && a < c < ram[a].next
  {
    var n := ram[a].next;
    && |r| == |ram| && n <= L.size
    && r[a] == Header(c, ram[a].prev, ram[a].used)
    && r[c] == Header(n, a, false)
    && (n < L.size ==> r[n] == Header(ram[n].next, c, ram[n].used))
    && (forall o {:trigger r[o]} | o in b.live && o != a && (o != n || n == L.size) :: r[o] == ram[o])
  }

  ghost function With(b: Blocks, o: nat): Blocks {
    b.(live := b.live + {o})
  }

  lemma CutNext(L: Layout, ram: seq<Header>, b: Blocks, a: nat, c: nat, r: seq<Header>)
    requires NextLinks(L, ram, b) && a in b.live && a < c < ram[a].next && Cut(L, ram, b, a, c, r)
    ensures c !in b.live && NextLinks(L, r, With(b, c))
  {
  }

  lemma CutInverse(L: Layout, ram: seq<Header>, b: Blocks, a: nat, c: nat, r: seq<Header>)
    requires NextLinks(L, ram, b) && a in b.live && a < c < ram[a].next && Cut(L, ram, b, a, c, r)
    requires PrevLinks(L, ram, b) && c !in b.live && NextLinks(L, r, With(b, c))
    ensures Inverse(L, r, With(b, c))
  {
  }

  lemma CutPrev(L: Layout, ram: seq<Header>, b: Blocks, a: nat, c: nat, r: seq<Header>)
    requires NextLinks(L, ram, b) && a in b.live && a < c < ram[a].next && Cut(L, ram, b, a, c, r)
    requires PrevLinks(L, ram, b) && c !in b.live && NextLinks(L, r, With(b, c))
    ensures PrevLinks(L, r, With(b, c))
  {
    CutInverse(L, ram, b, a, c, r);
  }

  lemma CutMarks(L: Layout, ram: seq<Header>, b: Blocks, a: nat, c: nat, r: seq<Header>)
    requires NextLinks(L, ram, b) && a in b.live && a < c < ram[a].next && Cut(L, ram, b, a, c, r)
    requires Marks(L, ram, b) && c !in b.live && NextLinks(L, r, With(b, c))
    ensures Marks(L, r, With(b, c))
  {
  }

  /** Cutting a block adds exactly one header and keeps the chain. */
  lemma CutKeepsChain(L: Layout, ram: seq<Header>, b: Blocks, a: nat, c: nat, r: seq<Header>)
    requires Chained(L, ram, b) && a in b.live && a < c < ram[a].next && Cut(L, ram, b, a, c, r)
    ensures c !in b.live && Chained(L, r, With(b, c))
  {
    CutNext(L, ram, b, a, c, r);
    CutPrev(L, ram, b, a, c, r);
    CutMarks(L, ram, b, a, c, r);
  }

  /** Cutting with room on both sides only leaves the new pair to be looked at. */
  lemma CutKeepsSound(L: Layout, ram: seq<Header>, b: Blocks, a: nat, c: nat, r: seq<Header>)
    requires Sound(L, ram, b, {}) && a in b.live && a < c < ram[a].next && Cut(L, ram, b, a, c, r)
    requires ram[a].next in b.used
    requires c % L.align == 0 && a + L.hdr + L.minData <= c && c + L.hdr + L.minData <= ram[a].next
    ensures c !in b.live && Sound(L, r, With(b, c), {a})
  {
    hide PrevLinks, Marks;
    CutKeepsChain(L, ram, b, a, c, r);
  }

  /** mem_trim, first case: the free successor of `a` moves down to `c`. */
  lemma MoveKeepsSound(L: Layout, ram: seq<Header>, b: Blocks, a: nat, c: nat, cut: seq<Header>, r: seq<Header>)
    requires Sound(L, ram, b, {}) && a in b.live && a in b.used && a < c < ram[a].next
    requires Cut(L, ram, b, a, c, cut) && ram[a].next !in b.used
    requires c !in b.live && Chained(L, cut, With(b, c)) && Merged(L, cut, With(b, c), c, r)
    requires c % L.align == 0 && a + L.hdr + L.minData <= c
    ensures Sound(L, r, Without(With(b, c), ram[a].next), {})
  {
    hide PrevLinks;
    var n := ram[a].next;
    MergeKeepsChain(L, cut, With(b, c), c, r);
    assert n < L.size by { assert ram[L.size].used; }
    assert ram[n].next in b.used && n + L.hdr + L.minData <= ram[n].next;
  }

  /** `r` is `ram` with the in-use mark of the block at `a` set to `used`. */
  ghost predicate Marked(ram: seq<Header>, b: Blocks, a: nat, used: bool, r: seq<Header>) {
    && |r| == |ram| && a < |ram| && r[a] == ram[a].(used := used)
    && (forall o {:trigger r[o]} | o in b.live && o < |ram| && o != a :: r[o] == ram[o])
  }

  ghost function Mark(b: Blocks, a: nat, used: bool): Blocks {
    b.(used := if used then b.used + {a} else b.used - {a})
  }

  lemma MarkNext(L: Layout, ram: seq<Header>, b: Blocks, a: nat, used: bool, r: seq<Header>)
    requires NextLinks(L, ram, b) && a in b.live && Marked(ram, b, a, used, r)
    ensures NextLinks(L, r, Mark(b, a, used))
  {
  }

  lemma MarkPrev(L: Layout, ram: seq<Header>, b: Blocks, a: nat, used: bool, r: seq<Header>)
    requires NextLinks(L, ram, b) && a in b.live && Marked(ram, b, a, used, r)
    requires PrevLinks(L, ram, b) && NextLinks(L, r, Mark(b, a, used))
    ensures PrevLinks(L, r, Mark(b, a, used))
  {
  }

  /** Setting the in-use mark of one block keeps the chain. */
  lemma MarkKeepsChain(L: Layout, ram: seq<Header>, b: Blocks, a: nat, used: bool, r: seq<Header>)
    requires Chained(L, ram, b) && a in b.live && a < L.size && Marked(ram, b, a, used, r)
    ensures Chained(L, r, Mark(b, a, used))
  {
    MarkNext(L, ram, b, a, used, r);
    MarkPrev(L, ram, b, a, used, r);
  }

  /** Taking a block settles the pair that starts at it. */
  lemma TakeKeepsSound(L: Layout, ram: seq<Header>, b: Blocks, a: nat, r: seq<Header>, lefts: set<nat>)
    requires Sound(L, ram, b, lefts) && a in b.live && a < L.size && Marked(ram, b, a, true, r)
    ensures Sound(L, r, Mark(b, a, true), lefts - {a})
  {
    MarkKeepsChain(L, ram, b, a, true, r);
  }

  /** Releasing a block leaves the pairs on both sides of it to be looked at. */
  lemma ReleaseKeepsSound(L: Layout, ram: seq<Header>, b: Blocks, a: nat, r: seq<Header>)
    requires Sound(L, ram, b, {}) && a in b.live && a < L.size && Marked(ram, b, a, false, r)
    ensures Sound(L, r, Mark(b, a, false), {a, ram[a].prev})
  {
    MarkKeepsChain(L, ram, b, a, false, r);
    forall o | o in b.live && o < L.size && o !in b.used && r[o].next == a
      ensures o == ram[a].prev
    {
      assert ram[o].next == a && 0 < a;
    }
  }

  /** `lfree` is a block header that no free block lies below. */
  ghost predicate LfreeSafe(lfree: nat, b: Blocks) {
    lfree in b.live && forall o | o in b.live :: o < lfree ==> o in b.used
  }

  /** `lfree` is the lowest free block, or the end marker if there is none. */
  ghost predicate LfreeExact(L: Layout, lfree: nat, b: Blocks) {
    LfreeSafe(lfree, b) && (lfree == L.size || lfree !in b.used)
  }

  /** The end of a used block is only moved by its owner. */
  ghost predicate SameExtents(ram: seq<Header>, r: seq<Header>, blocks: set<nat>) {
    |r| == |ram| && forall o | o in blocks && o < |ram| :: r[o].next == ram[o].next
  }

  lemma SoundChain(L: Layout, ram: seq<Header>, b: Blocks, lefts: set<nat>)
    requires Sound(L, ram, b, lefts)
    ensures Chained(L, ram, b) && |ram| == L.size + 1 && 0 < L.align && 0 < L.hdr && 0 < L.width
  {
  }

  lemma MergeKeepsLfree(L: Layout, ram: seq<Header>, b: Blocks, a: nat, lfree: nat)
    requires Chained(L, ram, b) && a in b.live && a < L.size && a !in b.used && ram[a].next !in b.used
    requires LfreeSafe(lfree, b) || (lfree == ram[a].next && LfreeSafe(a, b))
    ensures LfreeSafe(if lfree == ram[a].next then a else lfree, Without(b, ram[a].next))
  {
  }

  /** The writes of plug_holes swallow the successor. */
  lemma MergedIs(L: Layout, ram: seq<Header>, b: Blocks, a: nat, r: seq<Header>)
    requires Chained(L, ram, b) && a in b.live && a < L.size
    requires ram[a].next < L.size
    requires r == var n := ram[a].next; var m := ram[n].next;
      var s := ram[a := ram[a].(next := m)];
      if m != L.size && m < |s| then s[m := s[m].(prev := a)] else s
    ensures Merged(L, ram, b, a, r)
    ensures a !in b.used && ram[a].next !in b.used ==> SameExtents(ram, r, b.used)
  {
  }

  /** A pair that is not two free blocks need not be excused. */
  lemma Settled(L: Layout, ram: seq<Header>, b: Blocks, lefts: set<nat>, a: nat)
    requires Sound(L, ram, b, lefts)
    requires a !in b.live || a in b.used || a >= L.size || ram[a].next in b.used || a !in lefts
    ensures Sound(L, ram, b, lefts - {a})
  {
  }

  /** The headers that disappear when the block `mem` becomes free. */
  ghost function MergedAway(ram: seq<Header>, b: Blocks, mem: nat): set<nat>
    requires mem < |ram|
  {
    (if ram[mem].next !in b.used then {ram[mem].next} else {}) +
    (if mem > 0 && ram[mem].prev !in b.used then {mem} else {})
  }

  /** mem_link_valid: the links of the header at `o` look like those of a linked block. */
  predicate LinkValid(L: Layout, ram: seq<Header>, o: nat)
    requires |ram| == L.size + 1 && o < |ram|
  {
    && ram[o].next <= L.size && ram[o].prev <= L.size
    && (ram[o].prev == o || ram[ram[o].prev].next == o)
    && (ram[o].next == L.size || ram[ram[o].next].prev == o)
  }

  /** The pointer passes every check that mem_free makes before it releases anything. */
  ghost predicate Releases(L: Layout, ram: seq<Header>, rmem: Ptr) {
    && rmem.At? && 0 < L.align && rmem.addr % L.align == 0
    && L.hdr <= rmem.addr <= L.size - L.minData
    && |ram| == L.size + 1
    && ram[rmem.addr - L.hdr].used && LinkValid(L, ram, rmem.addr - L.hdr)
  }

  /** The header written behind a block of a rounded size is aligned and leaves that block
      its minimum. */
  lemma NewHeaderAligned(L: Layout, ram: seq<Header>, b: Blocks, a: nat, n: nat)
    requires Sound(L, ram, b, {}) && a in b.live
    ensures (a + L.hdr + L.Rounded(n)) % L.align == 0 && L.minData <= L.Rounded(n)
    ensures !L.TooBig(n) ==> n <= L.Rounded(n) <= L.size
  {
    RoomOf(L, ram, b, {}, a);
    RoundedFits(L, n);
    MultipleSum(a, L.hdr, L.align);
    MultipleSum(a + L.hdr, L.Rounded(n), L.align);
  }

  /** The writes that create a free block at `c` inside the block at `a`. */
  function CutWrites(L: Layout, ram: seq<Header>, a: nat, c: nat): (r: seq<Header>)
    requires a < |ram| && c < |ram| && ram[a].next < |ram|
    ensures |r| == |ram|
  {
    var n := ram[a].next;
    var r := ram[c := Header(n, a, false)];
    var r := r[a := r[a].(next := c)];
    if n != L.size then r[n := r[n].(prev := c)] else r
  }

  lemma CutIs(L: Layout, ram: seq<Header>, b: Blocks, a: nat, c: nat)
    requires Chained(L, ram, b) && a in b.live && a < c < ram[a].next
    ensures c <= L.size && c !in b.used && Cut(L, ram, b, a, c, CutWrites(L, ram, a, c))
    ensures SameExtents(ram, CutWrites(L, ram, a, c), b.used - {a})
  {
  }

  /** The writes of mem_trim that move the free successor of `a` down to `c`. */
  function MoveWrites(L: Layout, ram: seq<Header>, a: nat, c: nat): (r: seq<Header>)
    requires a < |ram| && c < |ram| && ram[a].next < |ram| && ram[ram[a].next].next < |ram|
    ensures |r| == |ram|
  {
    var m := ram[ram[a].next].next;
    var r := ram[c := Header(m, a, false)];
    var r := r[a := r[a].(next := c)];
    if m != L.size then r[m := r[m].(prev := c)] else r
  }

  lemma MoveIs(L: Layout, ram: seq<Header>, b: Blocks, a: nat, c: nat)
    requires Chained(L, ram, b) && a in b.live && a < c < ram[a].next < L.size
    requires c !in b.live && Cut(L, ram, b, a, c, CutWrites(L, ram, a, c))
    requires Chained(L, CutWrites(L, ram, a, c), With(b, c)) 
    ensures ram[ram[a].next].next <= L.size
    ensures Merged(L, CutWrites(L, ram, a, c), With(b, c), c, MoveWrites(L, ram, a, c))
    ensures ram[a].next !in b.used ==> SameExtents(ram, MoveWrites(L, ram, a, c), b.used - {a})
  {
  }

  lemma MoveKeepsLfree(L: Layout, ram: seq<Header>, b: Blocks, a: nat, c: nat, lfree: nat)
    requires Chained(L, ram, b) && a in b.used && a in b.live && a < c < ram[a].next && ram[a].next !in b.used
    requires LfreeSafe(lfree, b)
    ensures LfreeSafe(if lfree == ram[a].next then c else lfree, Without(With(b, c), ram[a].next))
  {
  }

  lemma SoundUsed(L: Layout, ram: seq<Header>, b: Blocks, o: nat)
    requires Sound(L, ram, b, {}) && o in b.used
    ensures o in b.live
  {
  }

  /** mem_trim gives up: the size is refused, or the block would have to grow. */
  ghost predicate TrimRefused(L: Layout, ram: seq<Header>, rmem: int, newSize: nat) {
    0 < L.align && 0 < L.width && (L.TooBig(newSize) ||
    (L.hdr <= rmem < L.size && rmem - L.hdr < |ram| && L.Rounded(newSize) > ram[rmem - L.hdr].next - rmem))
  }

  /** mem_trim shrinks: the block is larger than asked, and the tail can become a free block
      of its own or join the free block behind it. */
  ghost predicate TrimShrinks(L: Layout, ram: seq<Header>, b: Blocks, rmem: int, newSize: nat) {
    && 0 < L.align && 0 < L.width && !L.TooBig(newSize)
    && L.hdr <= rmem < L.size && rmem - L.hdr < |ram|
    && var next := ram[rmem - L.hdr].next;
       && rmem + L.Rounded(newSize) < next
       && (next !in b.used || rmem + L.Rounded(newSize) + L.hdr + L.minData <= next)
  }

  /** The free block at `o` can hold `size` bytes. */
  predicate Fits(L: Layout, ram: seq<Header>, o: nat, size: nat)
    requires o < |ram|
  {
    ram[o].next - (o + L.hdr) >= size
  }

  /** No free block below `limit` can hold `size` bytes. */
  ghost predicate NoFitBelow(L: Layout, ram: seq<Header>, b: Blocks, limit: nat, size: nat) {
    forall o | o in b.live && o < limit && o < |ram| && o !in b.used :: !Fits(L, ram, o, size)
  }

  /** The free block `mem` now belongs to a caller who asked for `size` bytes; the rest of a
      block with room for one more stays free, and nobody else's block has moved. */
  ghost predicate Claimed(L: Layout, ram: seq<Header>, b: Blocks, mem: nat, size: nat, r: seq<Header>, c: Blocks)
    requires mem < |ram|
  {
    && mem in b.live && mem !in b.used && |r| == |ram|
    && c.used == b.used + {mem} && SameExtents(ram, r, b.used)
    && if Fits(L, ram, mem, size + L.hdr + L.minData)
       then c.live == b.live + {mem + L.hdr + size} && r[mem].next == mem + L.hdr + size
       else c.live == b.live && r[mem].next == ram[mem].next
  }

  /** Starting the search at `lfree` skips no free block. */
  lemma NoFitBelowLfree(L: Layout, ram: seq<Header>, b: Blocks, lfree: nat, size: nat)
    requires LfreeSafe(lfree, b)
    ensures NoFitBelow(L, ram, b, lfree, size)
  {
  }

  lemma NoFitStep(L: Layout, ram: seq<Header>, b: Blocks, o: nat, size: nat)
    requires Chained(L, ram, b) && o in b.live && o < L.size
    requires NoFitBelow(L, ram, b, o, size) && (o in b.used || !Fits(L, ram, o, size))
    ensures NoFitBelow(L, ram, b, ram[o].next, size)
  {
  }

  /** The search may stop early: no block from the shortened bound on can fit. */
  lemma NoFitAbove(L: Layout, ram: seq<Header>, b: Blocks, o: nat, size: nat)
    requires Sound(L, ram, b, {}) && NoFitBelow(L, ram, b, o, size) && o >= L.size - size
    ensures NoFitBelow(L, ram, b, L.size, size)
  {
  }

  lemma NextIsSafe(L: Layout, ram: seq<Header>, b: Blocks, o: nat)
    requires Chained(L, ram, b) && LfreeSafe(o, b) && o in b.used && o < L.size
    ensures LfreeSafe(ram[o].next, b)
  {
  }

  lemma PointerAligned(L: Layout, ram: seq<Header>, b: Blocks, o: nat)
    requires Sound(L, ram, b, {}) && o in b.live && o < L.size
    ensures L.hdr <= o + L.hdr < L.size && (o + L.hdr) % L.align == 0
  {
    RoomOf(L, ram, b, {}, o);
    Follow(L, ram, b, o);
    MultipleSum(o, L.hdr, L.align);
  }

  lemma ClaimedRoom(L: Layout, ram: seq<Header>, b: Blocks, mem: nat, n: nat, r: seq<Header>, c: Blocks)
    requires 0 < L.align && 0 < L.width && !L.TooBig(n) && mem < |ram| && Fits(L, ram, mem, L.Rounded(n))
    requires Claimed(L, ram, b, mem, L.Rounded(n), r, c)
    ensures |r| == |ram| && n <= r[mem].next - (mem + L.hdr)
    ensures mem in c.live && c.used == b.used + {mem}
  {
  }

  /** The bytes of two blocks in use do not overlap, and each is aligned, inside the heap and
      at least as large as the minimum. */
  lemma UsedBlocksDisjoint(L: Layout, ram: seq<Header>, b: Blocks, o: nat, p: nat)
    requires Sound(L, ram, b, {}) && o in b.used && p in b.used && o != p && o < L.size && p < L.size
    ensures |ram| == L.size + 1
    ensures L.minData <= ram[o].next - (o + L.hdr) && ram[o].next <= L.size && (o + L.hdr) % L.align == 0
    ensures ram[o].next <= p || ram[p].next <= o
  {
    PointerAligned(L, ram, b, o);
    RoomOf(L, ram, b, {}, o);
    Follow(L, ram, b, o);
    assert ram[p].next > p;
  }

  /** The pointer of a block in use passes every check of mem_free. */
  lemma PointerReleases(L: Layout, ram: seq<Header>, b: Blocks, o: nat)
    requires Sound(L, ram, b, {}) && o in b.used && o < L.size
    ensures o in b.live && Releases(L, ram, At(o + L.hdr))
  {
    PointerAligned(L, ram, b, o);
    RoomOf(L, ram, b, {}, o);
    Follow(L, ram, b, o);
    LinksOfFirst(L, ram, b);
  }

  lemma LinksOfFirst(L: Layout, ram: seq<Header>, b: Blocks)
    requires Chained(L, ram, b)
    ensures ram[0].next < L.size ==> ram[ram[0].next].prev == 0
  {
  }

  lemma InitialChain(L: Layout, ram: seq<Header>)
    requires 0 < L.size && |ram| == L.size + 1
    requires ram[0] == Header(L.size, 0, false) && ram[L.size] == Header(L.size, L.size, true)
    ensures Chained(L, ram, Blocks({0, L.size}, {L.size}))
  {
  }

  /** One free block and the end marker are a sound heap. */
  lemma InitialHeap(L: Layout, ram: seq<Header>)
    requires L.Valid() && |ram| == L.size + 1
    requires ram[0] == Header(L.size, 0, false) && ram[L.size] == Header(L.size, L.size, true)
    ensures Sound(L, ram, Blocks({0, L.size}, {L.size}), {})
  {
    hide PrevLinks, Marks, Layout.Valid;
    InitialChain(L, ram);
    InitialSizes(L);
    var b := Blocks({0, L.size}, {L.size});
    forall o | o in b.live ensures o % L.align == 0 {
      assert o == 0 || o == L.size;
    }
  }

  lemma InitialSizes(L: Layout)
    requires L.Valid()
    ensures 0 < L.align && 0 % L.align == 0 && L.size % L.align == 0 && L.hdr + L.minData <= L.size
  {
  }

  /** Around a block that was free until it was claimed: what precedes it is in use, and what
      follows it is in use or is the rest that was cut off. */
  lemma ClaimedNeighbours(L: Layout, ram: seq<Header>, b: Blocks, mem: nat, size: nat, r: seq<Header>, c: Blocks)
    requires Sound(L, ram, b, {}) && Sound(L, r, c, {}) && mem < L.size
    requires mem < |ram| && Claimed(L, ram, b, mem, size, r, c) && Fits(L, ram, mem, size)
    ensures mem > 0 ==> r[mem].prev in c.used
    ensures c.live == b.live + if r[mem].next in c.used then {} else {r[mem].next}
    ensures r[mem].next !in c.used ==> r[mem].next !in b.live
  {
    hide Layout.Valid;
    ClaimedPrev(L, ram, b, mem, size, r, c);
    ClaimedNext(L, ram, b, mem, size, r, c);
  }

  lemma ClaimedPrev(L: Layout, ram: seq<Header>, b: Blocks, mem: nat, size: nat, r: seq<Header>, c: Blocks)
    requires Sound(L, ram, b, {}) && Sound(L, r, c, {}) && mem < L.size
    requires mem < |ram| && Claimed(L, ram, b, mem, size, r, c)
    ensures mem > 0 ==> r[mem].prev in c.used
  {
    hide Roomy;
    if mem > 0 {
      var p := r[mem].prev;
      LinksAreInverse(L, r, c, mem);
      assert p in b.live && ram[p].next <= mem && r[p].next == mem;
    }
  }

  lemma ClaimedNext(L: Layout, ram: seq<Header>, b: Blocks, mem: nat, size: nat, r: seq<Header>, c: Blocks)
    requires Sound(L, ram, b, {}) && Sound(L, r, c, {}) && mem < L.size
    requires mem < |ram| && Claimed(L, ram, b, mem, size, r, c) && Fits(L, ram, mem, size)
    ensures c.live == b.live + if r[mem].next in c.used then {} else {r[mem].next}
    ensures r[mem].next !in c.used ==> r[mem].next !in b.live
  {
    hide PrevLinks;
    assert ram[mem].next in b.used;
  }

  // --- What the callers hold -----------------------------------------------------------------

  /** The callers hold the blocks at these offsets, each large enough for the bytes it stands
      for. */
  ghost predicate Holds(L: Layout, ram: seq<Header>, owned: map<nat, nat>) {
    forall o | o in owned :: o < |ram| && owned[o] <= ram[o].next - (o + L.hdr)
  }

  lemma HoldsMore(L: Layout, ram: seq<Header>, r: seq<Header>, held: map<nat, nat>, blocks: set<nat>, o: nat, n: nat)
    requires Holds(L, ram, held) && SameExtents(ram, r, blocks) && held.Keys - {o} <= blocks
    requires o < |r| && n <= r[o].next - (o + L.hdr)
    ensures Holds(L, r, held[o := n])
  {
  }

  lemma HoldsLess(L: Layout, ram: seq<Header>, r: seq<Header>, held: map<nat, nat>, blocks: set<nat>, o: nat)
    requires Holds(L, ram, held) && SameExtents(ram, r, blocks) && held.Keys - {o} <= blocks
    ensures Holds(L, r, held - {o})
  {
  }

  /** The bytes that two callers hold do not overlap, and all of them lie inside the heap. */
  lemma HeldApart(L: Layout, ram: seq<Header>, b: Blocks, owned: map<nat, nat>, o: nat, p: nat)
    requires Sound(L, ram, b, {}) && b.used == owned.Keys + {L.size} && L.size !in owned && Holds(L, ram, owned)
    requires o in owned && p in owned && o != p
    ensures o + L.hdr + owned[o] <= p || p + L.hdr + owned[p] <= o
    ensures (o + L.hdr) % L.align == 0 && o + L.hdr + owned[o] <= L.size
  {
    hide Sound;
    UsedBelow(L, ram, b, o);
    UsedBelow(L, ram, b, p);
    UsedBlocksDisjoint(L, ram, b, o, p);
  }

  lemma UsedBelow(L: Layout, ram: seq<Header>, b: Blocks, o: nat)
    requires Sound(L, ram, b, {}) && o in b.used && o != L.size
    ensures o in b.live && o < L.size && o + L.hdr < L.size && |ram| == L.size + 1
    ensures 0 < L.align && 0 < L.width
  {
    hide Sound;
    SoundUsed(L, ram, b, o);
    SoundChain(L, ram, b, {});
    RoomOf(L, ram, b, {}, o);
    Follow(L, ram, b, o);
  }

  /** One step of a client of the allocator; blocks are named by their header offsets. */
  datatype Op = Malloc(n: nat) | Free(o: nat) | Trim(o: nat, newSize: nat)

  /** The heap and what its callers hold. */
  datatype Snap = Snap(ram: seq<Header>, b: Blocks, lfree: nat, owned: map<nat, nat>)

  /** mem_malloc: the first block that fits, or NULL. */
  ghost predicate DidMalloc(L: Layout, n: nat, a: Snap, p: Ptr, c: Snap) {
    && 0 < L.align && 0 < L.width
    && (p == Null <==> n == 0 || L.TooBig(n) || NoFitBelow(L, a.ram, a.b, L.size, L.Rounded(n)))
    && if p == Null then c == a
       else
         && L.hdr <= p.addr < L.size && p.addr % L.align == 0
         && var mem := p.addr - L.hdr;
            && mem < |a.ram| && Fits(L, a.ram, mem, L.Rounded(n)) && NoFitBelow(L, a.ram, a.b, mem, L.Rounded(n))
            && Claimed(L, a.ram, a.b, mem, L.Rounded(n), c.ram, c.b) && c.owned == a.owned[mem := n]
  }

  /** mem_free of a block that a caller holds. */
  ghost predicate DidFree(o: nat, a: Snap, c: Snap) {
    && o < |a.ram| && c.owned == a.owned - {o}
    && c.b == Blocks(a.b.live - MergedAway(a.ram, a.b, o), a.b.used - {o}) && SameExtents(a.ram, c.ram, c.b.used)
  }

  /** mem_trim of a block that a caller holds. */
  ghost predicate DidTrim(L: Layout, o: nat, newSize: nat, a: Snap, p: Ptr, c: Snap) {
    && 0 < L.align && 0 < L.width && o < |a.ram| == |c.ram|
    && p == (if TrimRefused(L, a.ram, o + L.hdr, newSize) then Null else At(o + L.hdr))
    && c.owned == (if p == Null then a.owned else a.owned[o := newSize])
    && if !TrimShrinks(L, a.ram, a.b, o + L.hdr, newSize) then c == a.(owned := c.owned)
       else
         && c.ram[o].next == o + L.hdr + L.Rounded(newSize)
         && c.b.live == a.b.live + {c.ram[o].next} - (if a.ram[o].next in a.b.used then {} else {a.ram[o].next})
         && c.b.used == a.b.used && SameExtents(a.ram, c.ram, a.b.used - {o})
  }

  /** What an operation did; one that names a block nobody holds is skipped. */
  ghost predicate Did(L: Layout, op: Op, a: Snap, p: Ptr, c: Snap) {
    match op
    case Malloc(n) => DidMalloc(L, n, a, p, c)
    case Free(o) => if o in a.owned then DidFree(o, a, c) else c == a
    case Trim(o, newSize) => if o in a.owned then DidTrim(L, o, newSize, a, p, c) else c == a
  }

  /** The states before, between and after the operations, and the pointers they returned. */
  ghost predicate History(L: Layout, ops: seq<Op>, results: seq<Ptr>, states: seq<Snap>) {
    && |results| <= |ops| && |states| == |results| + 1
    && forall i | 0 <= i < |results| :: Did(L, ops[i], states[i], results[i], states[i + 1])
  }

  lemma HistoryStep(L: Layout, ops: seq<Op>, results: seq<Ptr>, states: seq<Snap>, p: Ptr, c: Snap)
    requires History(L, ops, results, states) && |results| < |ops|
    requires |states| == |results| + 1 && Did(L, ops[|results|], states[|results|], p, c)
    ensures History(L, ops, results + [p], states + [c])
  {
    hide Did;
  }

  lemma HistoryStart(L: Layout, ops: seq<Op>, a: Snap)
    ensures History(L, ops, [], [a])
  {
  }

  /** A state between two operations. */
  ghost predicate InService(L: Layout, s: Snap) {
    && Sound(L, s.ram, s.b, {}) && LfreeExact(L, s.lfree, s.b) && Holds(L, s.ram, s.owned)
    && s.b.used == s.owned.Keys + {L.size} && L.size !in s.owned
  }

  lemma Serves(h: Heap, owned: map<nat, nat>)
    requires h.Valid() && LfreeExact(h.L, h.lfree, h.b) && Holds(h.L, h.ram[..], owned)
    requires h.b.used == owned.Keys + {h.L.size} && h.L.size !in owned
    ensures InService(h.L, h.Now(owned))
  {
    hide Sound, LfreeExact, Holds;
  }

  lemma StartIsLive(L: Layout, ram: seq<Header>, b: Blocks)
    requires Sound(L, ram, b, {})
    ensures 0 in b.live && 0 < L.size && ram[L.size] == Header(L.size, L.size, true)
  {
  }

  class Heap {
    const L: Layout
    const ram: array<Header>
    var lfree: nat
    /** mem_free_count: set by mem_free and mem_trim so that an interrupted mem_malloc notices. */
    var memFreeCount: bool
    ghost var b: Blocks

    ghost predicate Valid()
      reads this, ram
    {
      Sound(L, ram[..], b, {}) && LfreeSafe(lfree, b)
    }

    /** mem_init */
    constructor (layout: Layout)
      requires layout.Valid()
      ensures L == layout && fresh(ram) && Valid() && LfreeExact(L, lfree, b)
      ensures b == Blocks({0, L.size}, {L.size})
    {
      L := layout;
      ram := new Header[layout.size + 1](_ => Header(0, 0, false));
      lfree := 0;
      memFreeCount := false;
      b := Blocks({0, layout.size}, {layout.size});
      new;
      ram[0] := Header(layout.size, 0, false);
      ram[layout.size] := Header(layout.size, layout.size, true);
      hide Sound;
      InitialHeap(layout, ram[..]);
    }

    /** One half of plug_holes: the block `a` swallows its free successor. */
    method Swallow(a: nat, ghost lefts: set<nat>)
      requires Sound(L, ram[..], b, lefts)
      requires a in b.live && a < L.size && a !in b.used && a < ram.Length
      requires LfreeSafe(lfree, b) || (lfree == ram[a].next && LfreeSafe(a, b))
      requires ram[a].next !in b.used && ram[a].next !in lefts
      modifies this`lfree, this`b, ram
      ensures b == old(Without(b, ram[a].next))
      ensures Sound(L, ram[..], b, lefts - {a}) && LfreeSafe(lfree, b)
      ensures ram[a].prev == old(ram[a].prev)
      ensures lfree == if old(lfree == ram[a].next) then a else old(lfree)
      ensures SameExtents(old(ram[..]), ram[..], b.used)
    {
      hide Sound, Chained, Merged;
      ghost var before := ram[..];
      var n := ram[a].next;
      assert Chained(L, before, b) by { SoundChain(L, before, b, lefts); }
      Follow(L, before, b, a);
      Follow(L, before, b, n);
      if lfree == n {
        lfree := a;
      }
      ram[a] := ram[a].(next := ram[n].next);
      if ram[n].next != L.size {
        ram[ram[n].next] := ram[ram[n].next].(prev := a);
      }
      ghost var after := ram[..];
      MergedIs(L, before, b, a, after);
      MergeKeepsSound(L, before, b, a, after, lefts);
      MergeKeepsLfree(L, before, b, a, old(lfree));
      b := Without(b, n);
    }

    /** plug_holes: merge the free block `mem` with a free successor and a free predecessor. */
    method PlugHoles(mem: nat)
      requires mem in b.live && mem < L.size && mem !in b.used && mem < ram.Length
      requires Sound(L, ram[..], b, {mem, ram[mem].prev}) && LfreeSafe(lfree, b)
      modifies this`lfree, this`b, ram
      ensures Valid()
      ensures b == Blocks(old(b.live - MergedAway(ram[..], b, mem)), old(b.used))
      ensures SameExtents(old(ram[..]), ram[..], b.used)
      ensures old(LfreeExact(L, lfree, b)) ==> LfreeExact(L, lfree, b)
      ensures lfree == old(lfree)
    {
      hide Sound, Chained, Layout.Valid;
      ghost var left := ram[mem].prev;
      SoundChain(L, ram[..], b, {mem, left});
      Follow(L, ram[..], b, mem);
      Follow(L, ram[..], b, ram[mem].next);
      var nmem := ram[mem].next;
      if mem != nmem && !ram[nmem].used && nmem != L.size {
        Swallow(mem, {mem, left});
      } else {
        Settled(L, ram[..], b, {mem, left}, mem);
      }
      assert Sound(L, ram[..], b, {mem, left} - {mem});
      SoundChain(L, ram[..], b, {mem, left} - {mem});
      Follow(L, ram[..], b, mem);
      var pmem := ram[mem].prev;
      assert pmem == left;
      Follow(L, ram[..], b, pmem);
      if pmem != mem && !ram[pmem].used {
        Swallow(pmem, {mem, left} - {mem});
        assert {mem, left} - {mem} - {left} == {};
      } else {
        Settled(L, ram[..], b, {mem, left} - {mem}, left);
        assert {mem, left} - {mem} - {left} == {};
      }
    }

    /** mem_free.  Pointers that are null, misaligned, outside the heap, or whose header fails
        the sanity checks are ignored; any other pointer must be one that was handed out. */
    method Free(rmem: Ptr)
      requires Valid()
      requires Releases(L, ram[..], rmem) ==> (rmem.addr - L.hdr) as nat in b.live
      modifies this`lfree, this`memFreeCount, this`b, ram
      ensures Valid()
      ensures !old(Releases(L, ram[..], rmem)) ==> b == old(b) && lfree == old(lfree) && ram[..] == old(ram[..])
      ensures old(Releases(L, ram[..], rmem)) ==>
                var mem := rmem.addr - L.hdr;
                && mem in old(b.used)
                && b == Blocks(old(b.live - MergedAway(ram[..], b, mem)), old(b.used) - {mem})
                && SameExtents(old(ram[..]), ram[..], b.used)
      ensures old(LfreeExact(L, lfree, b)) || lfree != old(lfree) ==> LfreeExact(L, lfree, b)
      ensures memFreeCount == old(memFreeCount || Releases(L, ram[..], rmem))
    {
      hide Sound, Chained, Layout.Valid;
      SoundChain(L, ram[..], b, {});
      if rmem.Null? || rmem.addr % L.align != 0 {
        return;
      }
      if rmem.addr - L.hdr < 0 || rmem.addr + L.minData > L.size {
        return;
      }
      var mem: nat := rmem.addr - L.hdr;
      if !ram[mem].used {
        return;
      }
      if !LinkValid(L, ram[..], mem) {
        return;
      }
      Follow(L, ram[..], b, mem);
      ghost var before := ram[..];
      ram[mem] := ram[mem].(used := false);
      ReleaseKeepsSound(L, before, b, mem, ram[..]);
      b := Mark(b, mem, false);
      if mem < lfree {
        lfree := mem;
      }
      PlugHoles(mem);
      memFreeCount := true;
    }

    /** Make the tail of the block `a` from `c` on a free block of its own. */
    method CutBlock(a: nat, c: nat)
      requires Sound(L, ram[..], b, {}) && a in b.live && a < L.size < ram.Length
      requires a < c < ram[a].next && ram[a].next in b.used
      requires c % L.align == 0 && a + L.hdr + L.minData <= c && c + L.hdr + L.minData <= ram[a].next
      modifies this`b, ram
      ensures b == With(old(b), c) && Sound(L, ram[..], b, {a}) && c !in old(b.live) && c !in b.used
      ensures ram[a].next == c && ram[a].used == old(ram[a].used)
      ensures SameExtents(old(ram[..]), ram[..], b.used - {a})
    {
      hide Sound, Chained, Cut, Layout.Valid;
      ghost var before := ram[..];
      SoundChain(L, before, b, {});
      Follow(L, before, b, a);
      var next := ram[a].next;
      ram[c] := Header(next, a, false);
      ram[a] := ram[a].(next := c);
      if next != L.size {
        ram[next] := ram[next].(prev := c);
      }
      assert ram[..] == CutWrites(L, before, a, c);
      CutIs(L, before, b, a, c);
      CutKeepsSound(L, before, b, a, c, ram[..]);
      b := With(b, c);
    }

    /** Move the free successor of the used block `a` down to `c`. */
    method MoveFree(a: nat, c: nat)
      requires Valid() && a in b.live && a in b.used && a < L.size < ram.Length
      requires a < c < ram[a].next && ram[a].next !in b.used
      requires c % L.align == 0 && a + L.hdr + L.minData <= c
      modifies this`lfree, this`b, ram
      ensures b == Without(With(old(b), c), old(ram[a].next)) && Valid() && c !in old(b.live) && c !in b.used
      ensures ram[a].next == c
      ensures SameExtents(old(ram[..]), ram[..], b.used - {a})
      ensures lfree == if old(lfree == ram[a].next) then c else old(lfree)
    {
      hide Sound, Chained, Cut, Merged, LfreeSafe, Layout.Valid;
      ghost var before := ram[..];
      SoundChain(L, before, b, {});
      Follow(L, before, b, a);
      var next := ram[a].next;
      Follow(L, before, b, next);
      var after := ram[next].next;
      if lfree == next {
        lfree := c;
      }
      ram[c] := Header(after, a, false);
      ram[a] := ram[a].(next := c);
      if after != L.size {
        ram[after] := ram[after].(prev := c);
      }
      assert ram[..] == MoveWrites(L, before, a, c);
      CutIs(L, before, b, a, c);
      CutKeepsChain(L, before, b, a, c, CutWrites(L, before, a, c));
      MoveIs(L, before, b, a, c);
      MoveKeepsSound(L, before, b, a, c, CutWrites(L, before, a, c), ram[..]);
      MoveKeepsLfree(L, before, b, a, c, old(lfree));
      b := Without(With(b, c), next);
    }

    /** mem_trim: shrink the block behind `rmem` to `newSize` bytes if it is larger. */
    method Trim(rmem: int, newSize: nat) returns (p: Ptr)
      requires Valid()
      requires 0 <= rmem < L.size && !L.TooBig(newSize) ==>
                 L.hdr <= rmem && (rmem - L.hdr) as nat in b.used && rmem - L.hdr < L.size
      modifies this`lfree, this`memFreeCount, this`b, ram
      ensures Valid()
      ensures p == if old(TrimRefused(L, ram[..], rmem, newSize)) then Null else At(rmem)
      ensures b.used == old(b.used)
      ensures !old(TrimShrinks(L, ram[..], b, rmem, newSize)) ==>
                b == old(b) && lfree == old(lfree) && ram[..] == old(ram[..])
      ensures old(TrimShrinks(L, ram[..], b, rmem, newSize)) ==>
                var mem := rmem - L.hdr; var cut := rmem + L.Rounded(newSize);
                && ram[mem].next == cut
                && b.live == old(b.live) + {cut} - old(if ram[mem].next in b.used then {} else {ram[mem].next})
                && SameExtents(old(ram[..]), ram[..], b.used - {mem})
      ensures old(LfreeExact(L, lfree, b)) || lfree != old(lfree) ==> LfreeExact(L, lfree, b)
      ensures old(memFreeCount || TrimShrinks(L, ram[..], b, rmem, newSize)) ==> memFreeCount
    {
      hide Sound, Chained, Layout.Valid;
      SoundChain(L, ram[..], b, {});
      var size' := L.Rounded(newSize);
      if size' > L.size || size' < newSize {
        return Null;
      }
      if rmem < 0 || rmem >= L.size {
        return At(rmem);
      }
      var mem: nat := rmem - L.hdr;
      SoundUsed(L, ram[..], b, mem);
      Follow(L, ram[..], b, mem);
      var next := ram[mem].next;
      var size := next - mem - L.hdr;
      if size' > size {
        return Null;
      }
      if size' == size {
        return At(rmem);
      }
      var ptr2: nat := mem + L.hdr + size';
      Follow(L, ram[..], b, next);
      NewHeaderAligned(L, ram[..], b, mem, newSize);
      if !ram[next].used {
        MoveFree(mem, ptr2);
      } else if size' + L.hdr + L.minData <= size {
        CutBlock(mem, ptr2);
        if ptr2 < lfree {
          lfree := ptr2;
        }
        Settled(L, ram[..], b, {mem}, mem);
        assert {mem} - {mem} == {};
      }
      memFreeCount := true;
      return At(rmem);
    }

    /** The part of mem_malloc that claims the free block `mem`: the rest of a much larger
        block stays free as a block of its own. */
    method Take(mem: nat, n: nat)
      requires Valid() && mem in b.live && mem < L.size < ram.Length && mem !in b.used
      requires !L.TooBig(n) && Fits(L, ram[..], mem, L.Rounded(n))
      modifies this`b, ram
      ensures Valid() && Claimed(L, old(ram[..]), old(b), mem, L.Rounded(n), ram[..], b)
    {
      hide Sound, Chained, Layout.Valid, Layout.Rounded, Layout.TooBig;
      SoundChain(L, ram[..], b, {});
      var size := L.Rounded(n);
      Follow(L, ram[..], b, mem);
      RoomOf(L, ram[..], b, {}, mem);
      NewHeaderAligned(L, ram[..], b, mem, n);
      ghost var lefts: set<nat> := {};
      if ram[mem].next - (mem + L.hdr) >= size + L.hdr + L.minData {
        CutBlock(mem, mem + L.hdr + size);
        lefts := {mem};
      }
      ghost var before := ram[..];
      ram[mem] := ram[mem].(used := true);
      TakeKeepsSound(L, before, b, mem, ram[..], lefts);
      b := Mark(b, mem, true);
      assert lefts - {mem} == {};
    }

    /** mem_malloc without interference: first fit over the whole heap, although the search
        starts at `lfree` and stops early. */
    method Malloc(n: nat) returns (p: Ptr)
      requires Valid() && LfreeExact(L, lfree, b)
      modifies this`lfree, this`b, ram
      ensures Valid() && LfreeExact(L, lfree, b)
      ensures p == Null ==> b == old(b) && lfree == old(lfree) && ram[..] == old(ram[..])
      ensures p == Null <==> n == 0 || L.TooBig(n) || old(NoFitBelow(L, ram[..], b, L.size, L.Rounded(n)))
      ensures p != Null ==>
                && L.hdr <= p.addr < L.size && p.addr % L.align == 0
                && var mem := p.addr - L.hdr;
                && old(mem < ram.Length && mem in b.live && mem !in b.used && Fits(L, ram[..], mem, L.Rounded(n)))
                && old(NoFitBelow(L, ram[..], b, mem, L.Rounded(n)))
                && Claimed(L, old(ram[..]), old(b), mem, L.Rounded(n), ram[..], b)
                && n <= ram[mem].next - p.addr
    {
      hide Sound, Chained, Layout.Valid, Layout.Rounded, Layout.TooBig, Claimed;
      SoundChain(L, ram[..], b, {});
      if n == 0 {
        return Null;
      }
      var size := L.Rounded(n);
      if L.TooBig(n) {
        return Null;
      }
      NewHeaderAligned(L, ram[..], b, lfree, n);
      var ptr := lfree;
      while ptr < L.size - size
        invariant b == old(b) && lfree == old(lfree) && ram[..] == old(ram[..])
        invariant ptr in b.live
        invariant NoFitBelow(L, ram[..], b, ptr, size)
        decreases L.size - ptr
      {
        Follow(L, ram[..], b, ptr);
        if !ram[ptr].used && ram[ptr].next - (ptr + L.hdr) >= size {
          Take(ptr, n);
          ClaimedRoom(L, old(ram[..]), old(b), ptr, n, ram[..], b);
          PointerAligned(L, ram[..], b, ptr);
          if ptr == lfree {
            NextFree(ptr);
          }
          return At(ptr + L.hdr);
        }
        NoFitStep(L, ram[..], b, ptr, size);
        ptr := ram[ptr].next;
      }
      NoFitAbove(L, ram[..], b, ptr, size);
      return Null;
    }

    /** The end of mem_malloc: move `lfree` from the block just taken to the next free one. */
    method NextFree(mem: nat)
      requires Valid() && mem == lfree && mem in b.used && mem < L.size
      modifies this`lfree
      ensures Valid() && LfreeExact(L, lfree, b)
    {
      hide Sound, Chained;
      SoundChain(L, ram[..], b, {});
      var cur := lfree;
      Follow(L, ram[..], b, cur);
      while ram[cur].used && cur != L.size
        invariant cur < ram.Length && LfreeSafe(cur, b) && (ram[cur].used <==> cur in b.used)
        decreases L.size - cur
      {
        NextIsSafe(L, ram[..], b, cur);
        Follow(L, ram[..], b, cur);
        cur := ram[cur].next;
        Follow(L, ram[..], b, cur);
      }
      lfree := cur;
    }

    /** Freeing what mem_malloc just returned restores the very same blocks. */
    method MallocThenFree(n: nat) returns (p: Ptr)
      requires Valid() && LfreeExact(L, lfree, b)
      modifies this, ram
      ensures Valid() && b == old(b) && lfree == old(lfree)
    {
      hide Sound, Chained, Layout.Valid, Layout.Rounded, Layout.TooBig;
      p := Malloc(n);
      if p != Null {
        var mem: nat := p.addr - L.hdr;
        SoundChain(L, ram[..], b, {});
        Follow(L, ram[..], b, mem);
        ClaimedNeighbours(L, old(ram[..]), old(b), mem, L.Rounded(n), ram[..], b);
        PointerReleases(L, ram[..], b, mem);
        Free(p);
      }
    }

    /** mem_trim of a block that a caller holds: the caller keeps `newSize` bytes of it, unless the
        call is refused. */
    method TrimHeld(o: nat, newSize: nat, held: map<nat, nat>) returns (p: Ptr, owned: map<nat, nat>)
      requires Valid() && Holds(L, ram[..], held) && o in held && held.Keys <= b.used && o != L.size
      modifies this`lfree, this`memFreeCount, this`b, ram
      ensures Valid() && b.used == old(b.used) && Holds(L, ram[..], owned)
      ensures p == if old(TrimRefused(L, ram[..], o + L.hdr, newSize)) then Null else At(o + L.hdr)
      ensures owned == if p == Null then held else held[o := newSize]
      ensures old(LfreeExact(L, lfree, b)) || lfree != old(lfree) ==> LfreeExact(L, lfree, b)
      ensures old(memFreeCount || TrimShrinks(L, ram[..], b, o + L.hdr, newSize)) ==> memFreeCount
      ensures !old(TrimShrinks(L, ram[..], b, o + L.hdr, newSize)) ==>
                b == old(b) && lfree == old(lfree) && ram[..] == old(ram[..])
      ensures SameExtents(old(ram[..]), ram[..], b.used - {o})
      ensures DidTrim(L, o, newSize, old(Now(held)), p, Now(owned))
    {
      hide Sound, Chained, Layout.Valid, Layout.Rounded, Layout.TooBig;
      UsedBelow(L, ram[..], b, o);
      NewHeaderAligned(L, ram[..], b, o, newSize);
      p := Trim(o + L.hdr, newSize);
      owned := held;
      if p != Null {
        HoldsMore(L, old(ram[..]), ram[..], held, b.used - {o}, o, newSize);
        owned := held[o := newSize];
      }
    }

    /** mem_free of a block that a caller holds. */
    method FreeHeld(o: nat, held: map<nat, nat>) returns (owned: map<nat, nat>)
      requires Valid() && Holds(L, ram[..], held) && o in held && held.Keys <= b.used && o != L.size
      modifies this`lfree, this`memFreeCount, this`b, ram
      ensures Valid() && b.used == old(b.used) - {o} && owned == held - {o} && Holds(L, ram[..], owned)
      ensures old(LfreeExact(L, lfree, b)) || lfree != old(lfree) ==> LfreeExact(L, lfree, b)
      ensures memFreeCount && SameExtents(old(ram[..]), ram[..], b.used)
      ensures DidFree(o, old(Now(held)), Now(owned))
    {
      hide Sound, Chained, Layout.Valid, Layout.Rounded, Layout.TooBig, LinkValid;
      UsedBelow(L, ram[..], b, o);
      PointerReleases(L, ram[..], b, o);
      Free(At(o + L.hdr));
      HoldsLess(L, old(ram[..]), ram[..], held, b.used, o);
      owned := held - {o};
    }

    /** mem_malloc for a caller. */
    method MallocHeld(n: nat, held: map<nat, nat>) returns (p: Ptr, owned: map<nat, nat>)
      requires Valid() && LfreeExact(L, lfree, b) && Holds(L, ram[..], held) && b.used == held.Keys + {L.size}
      requires L.size !in held
      modifies this`lfree, this`b, ram
      ensures Valid() && LfreeExact(L, lfree, b) && b.used == owned.Keys + {L.size} && L.size !in owned
      ensures Holds(L, ram[..], owned) && DidMalloc(L, n, old(Now(held)), p, Now(owned))
    {
      hide Sound, Chained, Layout.Valid, Layout.Rounded, Layout.TooBig, NoFitBelow, Holds;
      SoundChain(L, ram[..], b, {});
      p := Malloc(n);
      owned := held;
      if p != Null {
        var mem: nat := p.addr - L.hdr;
        HoldsMore(L, old(ram[..]), ram[..], held, held.Keys, mem, n);
        owned := held[mem := n];
      }
    }

    ghost function Now(owned: map<nat, nat>): Snap
      reads this, ram
    {
      Snap(ram[..], b, lfree, owned)
    }

    /** One operation of a client. */
    method Step(op: Op, held: map<nat, nat>) returns (p: Ptr, owned: map<nat, nat>)
      requires Valid() && LfreeExact(L, lfree, b) && b.used == held.Keys + {L.size} && L.size !in held
      requires Holds(L, ram[..], held)
      modifies this, ram
      ensures Valid() && LfreeExact(L, lfree, b) && b.used == owned.Keys + {L.size} && L.size !in owned
      ensures Holds(L, ram[..], owned) && Did(L, op, old(Now(held)), p, Now(owned))
    {
      hide Sound, LfreeExact, Holds, DidMalloc, DidFree, DidTrim, TrimShrinks, TrimRefused, SameExtents;
      p, owned := Null, held;
      match op
      case Malloc(n) => p, owned := MallocHeld(n, held);
      case Free(o) =>
        if o in held {
          owned := FreeHeld(o, held);
        }
      case Trim(o, newSize) =>
        if o in held {
          p, owned := TrimHeld(o, newSize, held);
        }
    }

    /** Any sequence of allocations, releases and trims under the mutex: in every state the heap is
        sound, `lfree` is exact, in use are exactly the blocks the callers hold, and each of them
        is as large as its holder asked. */
    method Run(ops: seq<Op>, held: map<nat, nat>)
      returns (owned: map<nat, nat>, results: seq<Ptr>, ghost states: seq<Snap>)
      requires Valid() && LfreeExact(L, lfree, b) && b.used == held.Keys + {L.size} && L.size !in held
      requires Holds(L, ram[..], held)
      modifies this, ram
      ensures Valid() && |results| == |ops| && History(L, ops, results, states)
      ensures states[0] == old(Now(held)) && states[|ops|] == Now(owned)
      ensures forall i | 0 <= i <= |ops| :: InService(L, states[i])
    {
      hide Sound, LfreeExact, Holds, Did, History, Now;
      owned, results, states := held, [], [Now(held)];
      HistoryStart(L, ops, Now(held));
      Serves(this, held);
      for i := 0 to |ops|
        invariant Valid() && LfreeExact(L, lfree, b) && b.used == owned.Keys + {L.size} && L.size !in owned
        invariant Holds(L, ram[..], owned) && |results| == i && |states| == i + 1 && History(L, ops, results, states)
        invariant states[0] == old(Now(held)) && states[i] == Now(owned)
        invariant forall j | 0 <= j <= i :: InService(L, states[j])
      {
        var p;
        p, owned := Step(ops[i], owned);
        HistoryStep(L, ops, results, states, p, Now(owned));
        Serves(this, owned);
        results, states := results + [p], states + [Now(owned)];
      }
    }

    /** mem_sanity: the checks the source makes while it walks over all blocks never fail. */
    method Sanity() returns (ok: bool)
      requires Valid()
      ensures ok
    {
      hide Sound, Chained, Layout.Valid;
      SoundChain(L, ram[..], b, {});
      StartIsLive(L, ram[..], b);
      Follow(L, ram[..], b, 0);
      var lastUsed := ram[0].used;
      ok := ram[0].prev == 0 && ram[0].next <= L.size;
      RoomOf(L, ram[..], b, {}, 0);
      var mem := ram[0].next;
      while mem > 0 && mem < L.size
        invariant ok && mem in b.live && 0 < mem <= L.size
        invariant !lastUsed ==> mem in b.used
        decreases L.size - mem
      {
        Follow(L, ram[..], b, mem);
        RoomOf(L, ram[..], b, {}, mem);
        LinksOfFirst(L, ram[..], b);
        ok := ok && mem % L.align == 0 && ram[mem].prev <= L.size && ram[mem].next <= L.size;
        ok := ok && (lastUsed || ram[mem].used) && LinkValid(L, ram[..], mem);
        lastUsed := ram[mem].used;
        mem := ram[mem].next;
      }
      ok := ok && mem == L.size && ram[mem] == Header(L.size, L.size, true);
    }
  }
}
