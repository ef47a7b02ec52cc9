/** mem_malloc under LWIP_ALLOW_MEM_FREE_FROM_OTHER_CONTEXT (src/core/mem.c): mem_free and
    mem_trim may run whenever mem_malloc drops its protection.

    Each method below is one protected region.  `Run` executes any schedule of them. */
module InterruptedMalloc {
  import opened Heap

  /** Where mem_malloc stands while it is not protected.  `n` is the requested size. */
  datatype Pc =
    | Idle
    | Searching(ptr: nat, n: nat)            // in the search loop, about to look at `ptr`
    | Adjusting(mem: nat, cur: nat, n: nat)  // owns `mem`, looking for the next free block

  datatype Outcome = Running | Returned(p: Ptr)

  /** What the scheduler may do next. */
  datatype Event =
    | MallocCall(n: nat)
    | Resume
    | FreeCall(o: nat)
    | TrimCall(o: nat, newSize: nat)

  /** `mem` is the lowest free block that fits `n` bytes in the heap `ram`, `b`. */
  ghost predicate FirstFit(L: Layout, ram: seq<Header>, b: Blocks, mem: nat, n: nat)
    requires 0 < L.align && 0 < L.width
  {
    && mem in b.live && mem !in b.used && mem < |ram|
    && Fits(L, ram, mem, L.Rounded(n)) && NoFitBelow(L, ram, b, mem, L.Rounded(n))
  }

  /** The heap, what its callers hold, mem_free_count and where mem_malloc stands. */
  datatype Moment = Moment(heap: Snap, freed: bool, pc: Pc)

  /** The head of the search loop at `ptr`. */
  ghost predicate DidLook(L: Layout, ptr: nat, n: nat, a: Moment, o: Outcome, c: Moment)
    requires 0 < L.align && 0 < L.width
  {
    if ptr < L.size - L.Rounded(n) then o == Running && c == a.(pc := Searching(ptr, n), freed := false)
    else o == Returned(Null) && c == a.(pc := Idle) && NoFitBelow(L, a.heap.ram, a.heap.b, L.size, L.Rounded(n))
  }

  /** A call of mem_malloc up to its first yield. */
  ghost predicate DidStart(L: Layout, n: nat, a: Moment, o: Outcome, c: Moment) {
    && 0 < L.align && 0 < L.width
    && if n == 0 || L.TooBig(n) then o == Returned(Null) && c == a else DidLook(L, a.heap.lfree, n, a, o, c)
  }

  /** The search goes on: over again after a release, with the block if it fits, or with the next. */
  ghost predicate DidSearch(L: Layout, a: Moment, o: Outcome, c: Moment)
    requires a.pc.Searching?
  {
    && 0 < L.align && 0 < L.width
    && var ptr, n := a.pc.ptr, a.pc.n;
       if a.freed then DidLook(L, a.heap.lfree, n, a, o, c)
       else
         && ptr < |a.heap.ram|
         && if a.heap.ram[ptr].used || !Fits(L, a.heap.ram, ptr, L.Rounded(n))
            then DidLook(L, a.heap.ram[ptr].next, n, a, o, c)
            else
              && FirstFit(L, a.heap.ram, a.heap.b, ptr, n) && c.heap.lfree == a.heap.lfree
              && Claimed(L, a.heap.ram, a.heap.b, ptr, L.Rounded(n), c.heap.ram, c.heap.b)
              && if ptr == a.heap.lfree
                 then o == Running && c.pc == Adjusting(ptr, ptr, n) && c.heap.owned == a.heap.owned
                 else o == Returned(At(ptr + L.hdr)) && c.pc == Idle && c.heap.owned == a.heap.owned[ptr := n]
  }

  /** The search for the new lfree goes on. */
  ghost predicate DidAdjust(L: Layout, a: Moment, o: Outcome, c: Moment)
    requires a.pc.Adjusting?
  {
    && var Adjusting(mem, cur, n) := a.pc;
       && c.heap.ram == a.heap.ram && c.heap.b == a.heap.b
       && if o == Running
          then
            && c.heap == a.heap && c.pc.Adjusting? && c.pc.mem == mem && c.pc.n == n
            && (if a.freed then mem == a.heap.lfree && c.pc.cur == mem
                else cur < |a.heap.ram| && c.pc.cur == a.heap.ram[cur].next && c.pc.cur in a.heap.b.used - {L.size})
          else
            && o == Returned(At(mem + L.hdr)) && c.pc == Idle && c.heap.owned == a.heap.owned[mem := n]
            && LfreeExact(L, c.heap.lfree, c.heap.b)
  }

  /** What an event did.  One that cannot happen is skipped; `o` is what mem_malloc returned, if
      it did. */
  ghost predicate DidEvent(L: Layout, e: Event, a: Moment, o: Outcome, c: Moment) {
    match e
    case MallocCall(n) => if a.pc == Idle then DidStart(L, n, a, o, c) else Skipped(a, o, c)
    case Resume =>
      if a.pc.Searching? then DidSearch(L, a, o, c)
      else if a.pc.Adjusting? then DidAdjust(L, a, o, c)
      else Skipped(a, o, c)
    case FreeCall(x) =>
      if x in a.heap.owned then o == Running && DidFree(x, a.heap, c.heap) && c.freed && c.pc == a.pc
      else Skipped(a, o, c)
    case TrimCall(x, newSize) =>
      if x in a.heap.owned then
        o == Running && (exists p :: DidTrim(L, x, newSize, a.heap, p, c.heap)) && (a.freed ==> c.freed) && c.pc == a.pc
      else Skipped(a, o, c)
  }

  ghost predicate Skipped(a: Moment, o: Outcome, c: Moment) {
    o == Running && c == a
  }

  /** The states before, between and after the events, and what mem_malloc answered. */
  ghost predicate Chronicle(L: Layout, events: seq<Event>, outs: seq<Outcome>, states: seq<Moment>) {
    && |outs| <= |events| && |states| == |outs| + 1
    && forall i | 0 <= i < |outs| :: DidEvent(L, events[i], states[i], outs[i], states[i + 1])
  }

  lemma ChronicleStart(L: Layout, events: seq<Event>, a: Moment)
    ensures Chronicle(L, events, [], [a])
  {
  }

  lemma ChronicleStep(L: Layout, events: seq<Event>, outs: seq<Outcome>, states: seq<Moment>, o: Outcome, c: Moment)
    requires Chronicle(L, events, outs, states) && |outs| < |events|
    requires |states| == |outs| + 1 && DidEvent(L, events[|outs|], states[|outs|], o, c)
    ensures Chronicle(L, events, outs + [o], states + [c])
  {
    hide DidEvent;
  }

  /** A finished call of mem_malloc. */
  datatype Call = Call(n: nat, p: Ptr)

  /** A returned pointer is aligned and its bytes lie inside the heap. */
  predicate InHeap(L: Layout, c: Call) {
    c.p != Null ==> L.hdr <= c.p.addr && 0 < L.align && c.p.addr % L.align == 0 && c.p.addr + c.n <= L.size
  }

  lemma NoPointer(L: Layout, n: nat)
    ensures InHeap(L, Call(n, Null))
  {
  }

  lemma NewPointer(L: Layout, ram: seq<Header>, b: Blocks, owned: map<nat, nat>, n: nat, p: Ptr)
    requires Sound(L, ram, b, {}) && b.used == owned.Keys + {L.size} && L.size !in owned && Holds(L, ram, owned)
    requires p != Null && L.hdr <= p.addr && (p.addr - L.hdr) as nat in owned && owned[(p.addr - L.hdr) as nat] == n
    ensures InHeap(L, Call(n, p))
  {
    hide Sound, Chained, Layout.Valid;
    var o: nat := p.addr - L.hdr;
    UsedBelow(L, ram, b, o);
    PointerAligned(L, ram, b, o);
    SoundChain(L, ram, b, {});
    Follow(L, ram, b, o);
  }

  /** Taking a free block moves no end of a block that a caller holds. */
  lemma HeldAfterTake(L: Layout, ram: seq<Header>, b: Blocks, mem: nat, n: nat, r: seq<Header>, c: Blocks,
                      held: map<nat, nat>)
    requires 0 < L.align && 0 < L.width && mem < |ram| && Claimed(L, ram, b, mem, L.Rounded(n), r, c)
    requires held.Keys <= b.used && Holds(L, ram, held) && n <= r[mem].next - (mem + L.hdr)
    ensures Holds(L, r, held) && Holds(L, r, held[mem := n])
  {
  }

  lemma HeldOneMore(L: Layout, ram: seq<Header>, held: map<nat, nat>, mem: nat, n: nat)
    requires Holds(L, ram, held) && mem < |ram| && n <= ram[mem].next - (mem + L.hdr)
    ensures Holds(L, ram, held[mem := n])
  {
  }

  class Allocator {
    const heap: Heap
    var pc: Pc
    /** The blocks whose pointers callers hold, by header offset, with the sizes they asked for. */
    var owned: map<nat, nat>

    /** The block that mem_malloc has claimed but not returned yet. */
    ghost function Pending(): set<nat>
      reads this
    {
      if pc.Adjusting? then {pc.mem} else {}
    }

    ghost predicate Inv()
      reads this, heap, heap.ram
    {
      var L := heap.L;
      && heap.Valid()
      // exactly the blocks handed out and the one in the making are in use
      && heap.b.used == owned.Keys + Pending() + {L.size}
      && L.size !in owned && owned.Keys !! Pending()
      && Holds(L, heap.ram[..], owned)
      && match pc
         case Idle => LfreeExact(L, heap.lfree, heap.b)
         case Searching(ptr, n) =>
           && LfreeExact(L, heap.lfree, heap.b) && n > 0 && !L.TooBig(n)
           && (!heap.memFreeCount ==>
                 && ptr in heap.b.live && ptr < L.size - L.Rounded(n)
                 && NoFitBelow(L, heap.ram[..], heap.b, ptr, L.Rounded(n)))
         case Adjusting(mem, cur, n) =>
           && mem < L.size < heap.ram.Length && n <= heap.ram[mem].next - (mem + L.hdr)
           && (heap.lfree == mem || LfreeExact(L, heap.lfree, heap.b))
           && (!heap.memFreeCount ==> heap.lfree == mem && LfreeSafe(cur, heap.b) && cur in heap.b.used && cur < L.size)
    }

    constructor (layout: Layout)
      requires layout.Valid()
      ensures Inv() && heap.L == layout && fresh(heap) && fresh(heap.ram) && owned == map[] && pc == Idle
    {
      heap := new Heap(layout);
      pc := Idle;
      owned := map[];
    }

    ghost function Now(): Moment
      reads this, heap, heap.ram
    {
      Moment(heap.Now(owned), heap.memFreeCount, pc)
    }

    /** The head of the search loop: stop, or yield in front of the block at `ptr`. */
    method SearchFrom(ptr: nat, n: nat) returns (o: Outcome)
      requires heap.Valid() && LfreeExact(heap.L, heap.lfree, heap.b)
      requires !pc.Adjusting? && heap.b.used == owned.Keys + {heap.L.size} && heap.L.size !in owned
      requires Holds(heap.L, heap.ram[..], owned)
      requires n > 0 && !heap.L.TooBig(n)
      requires ptr in heap.b.live && NoFitBelow(heap.L, heap.ram[..], heap.b, ptr, heap.L.Rounded(n))
      modifies this`pc, heap`memFreeCount
      ensures Inv()
      ensures o.Returned? ==>
                && o.p == Null && pc == Idle
                && NoFitBelow(heap.L, heap.ram[..], heap.b, heap.L.size, heap.L.Rounded(n))
      ensures o.Running? ==> pc.Searching? && !heap.memFreeCount
      ensures 0 < heap.L.align && 0 < heap.L.width && DidLook(heap.L, ptr, n, old(Now()), o, Now())
    {
      hide Sound, Chained, Layout.Rounded, Layout.TooBig, Layout.Valid, NoFitBelow, Holds, LfreeExact;
      SoundChain(heap.L, heap.ram[..], heap.b, {});
      if ptr < heap.L.size - heap.L.Rounded(n) {
        heap.memFreeCount := false;
        pc := Searching(ptr, n);
        o := Running;
      } else {
        NoFitAbove(heap.L, heap.ram[..], heap.b, ptr, heap.L.Rounded(n));
        pc := Idle;
        o := Returned(Null);
      }
    }

    /** A call of mem_malloc up to its first yield. */
    method MallocCall(n: nat) returns (o: Outcome)
      requires Inv() && pc == Idle
      modifies this`pc, heap`memFreeCount
      ensures Inv()
      ensures o.Returned? ==> o.p == Null && pc == Idle
      ensures o.Returned? && n > 0 && !heap.L.TooBig(n) ==>
                NoFitBelow(heap.L, heap.ram[..], heap.b, heap.L.size, heap.L.Rounded(n))
      ensures o.Running? ==> pc.Searching?
      ensures DidStart(heap.L, n, old(Now()), o, Now())
    {
      hide Sound, Layout.Rounded, Layout.TooBig;
      SoundChain(heap.L, heap.ram[..], heap.b, {});
      if n == 0 || heap.L.TooBig(n) {
        return Returned(Null);
      }
      o := SearchFrom(heap.lfree, n);
    }

    /** The block that the search has reached is taken. */
    method TakeHere() returns (o: Outcome)
      requires Inv() && pc.Searching? && !heap.memFreeCount && pc.ptr < heap.ram.Length
      requires 0 < heap.L.align && 0 < heap.L.width && FirstFit(heap.L, heap.ram[..], heap.b, pc.ptr, pc.n)
      modifies this, heap, heap.ram
      ensures Inv() && !heap.memFreeCount && heap.lfree == old(heap.lfree)
      ensures Claimed(heap.L, old(heap.ram[..]), old(heap.b), old(pc.ptr), heap.L.Rounded(old(pc.n)), heap.ram[..],
                      heap.b)
      ensures old(pc.n) <= heap.ram[old(pc.ptr)].next - (old(pc.ptr) + heap.L.hdr)
      ensures if old(pc.ptr) == heap.lfree
              then o == Running && pc == Adjusting(old(pc.ptr), old(pc.ptr), old(pc.n)) && owned == old(owned)
              else o == Returned(At(old(pc.ptr) + heap.L.hdr)) && pc == Idle &&
                   owned == old(owned)[old(pc.ptr) := old(pc.n)]
    {
      hide Sound, Layout.Rounded, Layout.TooBig, NoFitBelow, Claimed, Layout.Valid, Chained, Holds;
      var Searching(ptr, n) := pc;
      SoundChain(heap.L, heap.ram[..], heap.b, {});
      Follow(heap.L, heap.ram[..], heap.b, ptr);
      heap.Take(ptr, n);
      ClaimedRoom(heap.L, old(heap.ram[..]), old(heap.b), ptr, n, heap.ram[..], heap.b);
      HeldAfterTake(heap.L, old(heap.ram[..]), old(heap.b), ptr, n, heap.ram[..], heap.b, owned);
      if ptr == heap.lfree {
        heap.memFreeCount := false;
        pc := Adjusting(ptr, ptr, n);
        return Running;
      }
      owned := owned[ptr := n];
      pc := Idle;
      return Returned(At(ptr + heap.L.hdr));
    }

    /** mem_malloc continues its search.  If something was freed meanwhile it starts over. */
    method ResumeSearch() returns (o: Outcome)
      requires Inv() && pc.Searching?
      modifies this, heap, heap.ram
      ensures Inv()
      ensures o == Returned(Null) ==>
                && pc == Idle && heap.b == old(heap.b) && owned == old(owned)
                && NoFitBelow(heap.L, heap.ram[..], heap.b, heap.L.size, heap.L.Rounded(old(pc.n)))
      ensures o.Returned? && o.p != Null ==>
                && o.p.addr >= heap.L.hdr && pc == Idle
                && owned == old(owned)[(o.p.addr - heap.L.hdr) as nat := old(pc.n)]
                && FirstFit(heap.L, old(heap.ram[..]), old(heap.b), o.p.addr - heap.L.hdr, old(pc.n))
                && old(pc.n) <= heap.ram[o.p.addr - heap.L.hdr].next - o.p.addr
      ensures pc.Adjusting? ==>
                FirstFit(heap.L, old(heap.ram[..]), old(heap.b), pc.mem, old(pc.n)) && owned == old(owned)
      ensures DidSearch(heap.L, old(Now()), o, Now())
    {
      hide Sound, Layout.Rounded, Layout.TooBig, NoFitBelow, Claimed, Layout.Valid, Chained, Holds, LfreeExact;
      var n := pc.n;
      if heap.memFreeCount {
        SoundChain(heap.L, heap.ram[..], heap.b, {});
        NoFitBelowLfree(heap.L, heap.ram[..], heap.b, heap.lfree, heap.L.Rounded(n));
        o := SearchFrom(heap.lfree, n);
        return;
      }
      var ptr := pc.ptr;
      SoundChain(heap.L, heap.ram[..], heap.b, {});
      Follow(heap.L, heap.ram[..], heap.b, ptr);
      var size := heap.L.Rounded(n);
      if !heap.ram[ptr].used && heap.ram[ptr].next - (ptr + heap.L.hdr) >= size {
        o := TakeHere();
        return;
      }
      NoFitStep(heap.L, heap.ram[..], heap.b, ptr, size);
      o := SearchFrom(heap.ram[ptr].next, n);
    }

    /** mem_malloc continues to look for the block that `lfree` should name. */
    method ResumeAdjust() returns (o: Outcome)
      requires Inv() && pc.Adjusting?
      modifies this, heap
      ensures Inv() && heap.b == old(heap.b)
      ensures o.Returned? ==>
                o.p == At(old(pc.mem) + heap.L.hdr) && pc == Idle && owned == old(owned[pc.mem := pc.n])
      ensures o.Running? ==> pc.Adjusting? && pc.mem == old(pc.mem) && pc.n == old(pc.n) && owned == old(owned)
      ensures DidAdjust(heap.L, old(Now()), o, Now())
    {
      hide Sound, Chained, Layout.Rounded, Layout.TooBig, Layout.Valid, NoFitBelow, Holds;
      var Adjusting(mem, cur, n) := pc;
      SoundChain(heap.L, heap.ram[..], heap.b, {});
      if heap.memFreeCount {
        if mem == heap.lfree {
          heap.memFreeCount := false;
          pc := Adjusting(mem, mem, n);
          return Running;
        }
      } else {
        Follow(heap.L, heap.ram[..], heap.b, cur);
        NextIsSafe(heap.L, heap.ram[..], heap.b, cur);
        var next := heap.ram[cur].next;
        Follow(heap.L, heap.ram[..], heap.b, next);
        if heap.ram[next].used && next != heap.L.size {
          heap.memFreeCount := false;
          pc := Adjusting(mem, next, n);
          return Running;
        }
        heap.lfree := next;
      }
      HeldOneMore(heap.L, heap.ram[..], owned, mem, n);
      owned := owned[mem := n];
      pc := Idle;
      return Returned(At(mem + heap.L.hdr));
    }

    /** mem_free of a block that a caller holds, at any yield point. */
    method FreeCall(o: nat)
      requires Inv() && o in owned
      modifies this`owned, heap, heap.ram
      ensures Inv() && owned == old(owned) - {o} && heap.b.used == old(heap.b.used) - {o}
      ensures SameExtents(old(heap.ram[..]), heap.ram[..], heap.b.used)
      ensures DidFree(o, old(Now()).heap, Now().heap) && heap.memFreeCount && pc == old(pc)
    {
      hide Sound, Chained, Layout.Rounded, Layout.TooBig, Layout.Valid, Holds;
      owned := heap.FreeHeld(o, owned);
    }

    /** mem_trim of a block that a caller holds, at any yield point. */
    method TrimCall(o: nat, newSize: nat) returns (p: Ptr)
      requires Inv() && o in owned
      modifies this`owned, heap, heap.ram
      ensures Inv() && heap.b.used == old(heap.b.used)
      ensures p == if old(TrimRefused(heap.L, heap.ram[..], o + heap.L.hdr, newSize)) then Null else At(o + heap.L.hdr)
      ensures owned == if p == Null then old(owned) else old(owned)[o := newSize]
      ensures SameExtents(old(heap.ram[..]), heap.ram[..], heap.b.used - {o})
      ensures DidTrim(heap.L, o, newSize, old(Now()).heap, p, Now().heap) && pc == old(pc)
      ensures old(heap.memFreeCount) ==> heap.memFreeCount
    {
      hide Sound, Chained, Layout.Rounded, Layout.TooBig, Layout.Valid, Holds;
      p, owned := heap.TrimHeld(o, newSize, owned);
    }

    /** The size that the call in progress, or the one that begins, asks for. */
    function Asked(e: Event): nat
      reads this
    {
      match e
      case MallocCall(n) => n
      case _ => if pc == Idle then 0 else pc.n
    }

    /** One event. */
    method Step(e: Event) returns (o: Outcome)
      requires Inv()
      modifies this, heap, heap.ram
      ensures Inv() && DidEvent(heap.L, e, old(Now()), o, Now())
      ensures o.Returned? ==> InHeap(heap.L, Call(old(Asked(e)), o.p))
    {
      hide Inv, DidStart, DidSearch, DidAdjust, DidFree, DidTrim, InHeap, Holds, SameExtents, FirstFit, Claimed;
      hide TrimRefused, NoFitBelow, Layout.TooBig, Layout.Rounded;
      o := Running;
      match e
      case MallocCall(n) =>
        if pc == Idle {
          o := MallocCall(n);
          if o.Returned? {
            NoPointer(heap.L, n);
          }
        }
      case Resume =>
        if pc != Idle {
          ghost var n := pc.n;
          if pc.Searching? {
            o := ResumeSearch();
          } else {
            o := ResumeAdjust();
          }
          if o.Returned? {
            Answered(n, o.p);
          }
        }
      case FreeCall(x) =>
        if x in owned { FreeCall(x); }
      case TrimCall(x, newSize) =>
        if x in owned {
          var _ := TrimCall(x, newSize);
        }
    }

    lemma InvHolds()
      requires Inv()
      ensures Holds(heap.L, heap.ram[..], owned)
    {
    }

    lemma Answered(n: nat, p: Ptr)
      requires Inv() && pc == Idle
      requires p != Null ==>
                 && heap.L.hdr <= p.addr && (p.addr - heap.L.hdr) as nat in owned
                 && owned[(p.addr - heap.L.hdr) as nat] == n
      ensures InHeap(heap.L, Call(n, p))
    {
      hide Sound, Chained, Holds, InHeap;
      if p == Null {
        NoPointer(heap.L, n);
      } else {
        NewPointer(heap.L, heap.ram[..], heap.b, owned, n, p);
      }
    }

    /** Every schedule of calls, resumptions and interrupts keeps the invariant: the blocks in use
        are those that callers hold, and each is as large as its holder asked.  Each event did
        what its contract says, and a pointer that mem_malloc returned has its bytes in the heap. */
    method Run(events: seq<Event>) returns (results: seq<Call>, outs: seq<Outcome>, ghost states: seq<Moment>)
      requires Inv()
      modifies this, heap, heap.ram
      ensures Inv() && Holds(heap.L, heap.ram[..], owned)
      ensures |outs| == |events| && Chronicle(heap.L, events, outs, states)
      ensures states[0] == old(Now()) && states[|outs|] == Now()
      ensures forall i | 0 <= i < |results| :: InHeap(heap.L, results[i])
    {
      hide Inv, Chronicle, DidEvent, InHeap, Holds, Now, Asked;
      results, outs, states := [], [], [Now()];
      ChronicleStart(heap.L, events, Now());
      for i := 0 to |events|
        invariant Inv() && |outs| == i && |states| == i + 1 && Chronicle(heap.L, events, outs, states)
        invariant states[0] == old(Now()) && states[i] == Now()
        invariant forall i | 0 <= i < |results| :: InHeap(heap.L, results[i])
      {
        var n := Asked(events[i]);
        var o := Step(events[i]);
        if o.Returned? {
          results := results + [Call(n, o.p)];
        }
        ChronicleStep(heap.L, events, outs, states, o, Now());
        outs, states := outs + [o], states + [Now()];
      }
      InvHolds();
    }
  }
}
