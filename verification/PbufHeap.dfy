/** Reference counts of packet buffers: buffers linked into chains that may share their tails
    (src/core/pbuf.c). */
module PbufHeap {
  datatype Ptr = Null | At(addr: nat)

  /** struct pbuf: next and ref, which has eight bits. */
  datatype Node = Node(next: Ptr, ref: nat)

  const REF_WIDTH := 0x100

  type Nodes = map<nat, Node>

  /** The buffers that link to `a`. */
  ghost function In(nodes: Nodes, a: nat): set<nat> {
    set b | b in nodes && nodes[b].next == At(a)
  }

  function Held(held: map<nat, nat>, a: nat): nat {
    if a in held then held[a] else 0
  }

  /** The reference count is the number of pointers: those that callers hold, the links of other
      buffers, and `x`, a pointer that is about to be dropped. */
  ghost predicate Balanced(nodes: Nodes, held: map<nat, nat>, x: Ptr) {
    && (x.At? ==> x.addr in nodes)
    && (forall a | a in held && held[a] > 0 :: a in nodes)
    && (forall a | a in nodes :: NodeOk(nodes, held, x, a))
  }

  ghost predicate NodeOk(nodes: Nodes, held: map<nat, nat>, x: Ptr, a: nat)
    requires a in nodes
  {
    && nodes[a].ref == Held(held, a) + |In(nodes, a)| + (if x == At(a) then 1 else 0) && 0 < nodes[a].ref < REF_WIDTH
    && (nodes[a].next.At? ==> nodes[a].next.addr in nodes)
  }

  /** Links lead downwards, so there are no cycles. */
  ghost predicate Ranked(nodes: Nodes, rank: map<nat, nat>) {
    forall a | a in nodes :: a in rank &&
      (nodes[a].next.At? ==>
        nodes[a].next.addr in nodes && nodes[a].next.addr in rank && rank[nodes[a].next.addr] < rank[a])
  }

  /** The buffers from `p` on. */
  function Chain(nodes: Nodes, ghost rank: map<nat, nat>, p: Ptr): (c: seq<nat>)
    requires Ranked(nodes, rank) && (p.At? ==> p.addr in nodes)
    ensures forall a | a in c :: a in nodes
    ensures p.At? <==> c != []
    ensures p.At? ==> c[0] == p.addr && forall a | a in c :: a in rank && rank[a] <= rank[p.addr]
    decreases if p.At? then rank[p.addr] + 1 else 0
  {
    if p == Null then [] else [p.addr] + Chain(nodes, rank, nodes[p.addr].next)
  }

  /** Following the chain step by step; no buffer occurs twice. */
  lemma {:induction false} ChainStep(nodes: Nodes, rank: map<nat, nat>, p: Ptr, i: nat)
    requires Ranked(nodes, rank) && (p.At? ==> p.addr in nodes) && i < |Chain(nodes, rank, p)|
    ensures var c := Chain(nodes, rank, p);
            && Chain(nodes, rank, nodes[c[i]].next) == c[i + 1..]
            && nodes[c[i]].next == (if i + 1 < |c| then At(c[i + 1]) else Null)
            && c[i] !in c[..i] && (forall j | 0 <= j < |c| && j != i :: c[j] != c[i])
    decreases if p.At? then rank[p.addr] + 1 else 0
  {
    hide Ranked, Chain;
    var c, next := Chain(nodes, rank, p), nodes[p.addr].next;
    ChainNext(nodes, rank, p.addr);
    var d := Chain(nodes, rank, next);
    if i > 0 {
      ChainStep(nodes, rank, next, i - 1);
      assert c[i + 1..] == d[i..];
      assert forall j | 0 < j < |c| :: c[j] == d[j - 1];
    } else {
      assert c[1..] == d;
    }
  }

  lemma ChainNext(nodes: Nodes, rank: map<nat, nat>, a: nat)
    requires Ranked(nodes, rank) && a in nodes
    ensures var next := nodes[a].next;
            && a in rank && (next.At? ==> next.addr in nodes && next.addr in rank && rank[next.addr] < rank[a])
            && Chain(nodes, rank, At(a)) == [a] + Chain(nodes, rank, next) && a !in Chain(nodes, rank, next)
  {
  }

  // --- Counting links ------------------------------------------------------------------------

  ghost function LinkTo(n: Node, a: nat): nat {
    if n.next == At(a) then 1 else 0
  }

  /** Changing one buffer changes the number of links by its own. */
  lemma InUpdate(nodes: Nodes, a: nat, n: Node, b: nat)
    ensures |In(nodes[a := n], b)| == |In(nodes, b)| - (if a in nodes then LinkTo(nodes[a], b) else 0) + LinkTo(n, b)
  {
    InOthers(nodes, a, n, b);
    hide In;
    Minus(In(nodes, b), a);
    Minus(In(nodes[a := n], b), a);
  }

  lemma InOthers(nodes: Nodes, a: nat, n: Node, b: nat)
    ensures In(nodes[a := n], b) - {a} == In(nodes, b) - {a}
    ensures a in In(nodes, b) <==> a in nodes && nodes[a].next == At(b)
    ensures a in In(nodes[a := n], b) <==> n.next == At(b)
  {
  }

  lemma Minus(s: set<nat>, a: nat)
    ensures |s| == |s - {a}| + if a in s then 1 else 0
  {
  }

  lemma InRemove(nodes: Nodes, a: nat, b: nat)
    requires a in nodes
    ensures |In(nodes - {a}, b)| == |In(nodes, b)| - LinkTo(nodes[a], b)
  {
    assert In(nodes - {a}, b) == In(nodes, b) - {a};
  }

  lemma InSome(nodes: Nodes, a: nat, b: nat)
    requires b in nodes && nodes[b].next == At(a)
    ensures |In(nodes, a)| > 0
  {
    assert b in In(nodes, a);
  }

  // --- Dropping a pointer --------------------------------------------------------------------

  /** The buffer is still referenced. */
  lemma StillReferenced(nodes: Nodes, held: map<nat, nat>, a: nat)
    requires Balanced(nodes, held, At(a)) && nodes[a].ref > 1
    ensures Balanced(nodes[a := nodes[a].(ref := nodes[a].ref - 1)], held, Null)
  {
    hide In;
    var n := nodes[a].(ref := nodes[a].ref - 1);
    forall b | b in nodes ensures NodeOk(nodes[a := n], held, Null, b) {
      assert NodeOk(nodes, held, At(a), b);
      InUpdate(nodes, a, n, b);
    }
  }

  /** It was the last pointer: the buffer goes, and with it its link to the next one. */
  lemma LastPointer(nodes: Nodes, held: map<nat, nat>, a: nat)
    requires Balanced(nodes, held, At(a)) && nodes[a].ref == 1 && nodes[a].next != At(a)
    ensures Balanced(nodes - {a}, held, nodes[a].next)
    ensures forall b | b in nodes :: nodes[b].next != At(a)
  {
    hide In;
    assert NodeOk(nodes, held, At(a), a);
    forall b | b in nodes ensures nodes[b].next != At(a) {
      if nodes[b].next == At(a) {
        InSome(nodes, a, b);
      }
    }
    forall b | b in nodes && b != a ensures NodeOk(nodes - {a}, held, nodes[a].next, b) {
      assert NodeOk(nodes, held, At(a), b);
      InRemove(nodes, a, b);
    }
  }

  /** A link from `a` is removed; the pointer that it was is to be dropped. */
  lemma Unlinked(nodes: Nodes, held: map<nat, nat>, a: nat)
    requires Balanced(nodes, held, Null) && a in nodes && nodes[a].next.At?
    ensures Balanced(nodes[a := nodes[a].(next := Null)], held, nodes[a].next)
  {
    hide In;
    var n := nodes[a].(next := Null);
    assert NodeOk(nodes, held, Null, a);
    forall b | b in nodes ensures NodeOk(nodes[a := n], held, nodes[a].next, b) {
      assert NodeOk(nodes, held, Null, b);
      InUpdate(nodes, a, n, b);
    }
  }

  /** A pointer that was to be dropped becomes a link from `a`. */
  lemma Linked(nodes: Nodes, held: map<nat, nat>, a: nat, t: nat)
    requires Balanced(nodes, held, At(t)) && a in nodes && nodes[a].next == Null
    ensures Balanced(nodes[a := nodes[a].(next := At(t))], held, Null)
  {
    hide In;
    var n := nodes[a].(next := At(t));
    forall b | b in nodes ensures NodeOk(nodes[a := n], held, Null, b) {
      assert NodeOk(nodes, held, At(t), b);
      InUpdate(nodes, a, n, b);
    }
  }

  /** A caller gives up one of its pointers. */
  lemma HandOver(nodes: Nodes, held: map<nat, nat>, a: nat)
    requires Balanced(nodes, held, Null) && Held(held, a) > 0
    ensures Balanced(nodes, held[a := held[a] - 1], At(a))
  {
  }

  /** A caller takes a pointer over. */
  lemma TakeOver(nodes: Nodes, held: map<nat, nat>, a: nat)
    requires Balanced(nodes, held, At(a))
    ensures Balanced(nodes, held[a := Held(held, a) + 1], Null)
  {
  }

  /** One pointer more, counted in eight bits: the count is right if and only if it fits. */
  lemma ReferencedIff(nodes: Nodes, held: map<nat, nat>, a: nat)
    requires Balanced(nodes, held, Null) && a in nodes
    ensures Balanced(nodes[a := Counted(nodes[a])], held[a := Held(held, a) + 1], Null)
            <==> nodes[a].ref + 1 < REF_WIDTH
  {
    hide In;
    var nodes', held' := nodes[a := Counted(nodes[a])], held[a := Held(held, a) + 1];
    if nodes[a].ref + 1 < REF_WIDTH {
      forall b | b in nodes ensures NodeOk(nodes', held', Null, b) {
        assert NodeOk(nodes, held, Null, b);
        InUpdate(nodes, a, Counted(nodes[a]), b);
      }
    } else {
      assert NodeOk(nodes, held, Null, a);
      assert !NodeOk(nodes', held', Null, a);
    }
  }

  /** The buffer with its count raised in eight bits. */
  function Counted(n: Node): Node {
    n.(ref := (n.ref + 1) % REF_WIDTH)
  }

  lemma Allocated(nodes: Nodes, held: map<nat, nat>, a: nat)
    requires Balanced(nodes, held, Null) && a !in nodes
    ensures Balanced(nodes[a := Node(Null, 1)], held[a := 1], Null)
  {
    forall c | c in nodes ensures nodes[c].next != At(a) { assert NodeOk(nodes, held, Null, c); }
    assert In(nodes, a) == {};
    forall b | b in nodes || b == a ensures NodeOk(nodes[a := Node(Null, 1)], held[a := 1], Null, b) {
      assert b != a ==> NodeOk(nodes, held, Null, b);
      InUpdate(nodes, a, Node(Null, 1), b);
    }
  }

  // --- Chains of which nothing is shared -----------------------------------------------------

  /** How many buffers at the front of the chain have one reference only. */
  function Unshared(nodes: Nodes, c: seq<nat>): (n: nat)
    requires forall a | a in c :: a in nodes
    ensures n <= |c|
  {
    if c == [] || nodes[c[0]].ref != 1 then 0 else 1 + Unshared(nodes, c[1..])
  }

  lemma {:induction false} UnsharedIs(nodes: Nodes, c: seq<nat>, n: nat)
    requires (forall a | a in c :: a in nodes) && n <= |c|
    requires (forall j | 0 <= j < n :: nodes[c[j]].ref == 1) && (n < |c| ==> nodes[c[n]].ref != 1)
    ensures Unshared(nodes, c) == n
  {
    if n > 0 {
      assert nodes[c[0]].ref == 1;
      forall j | 0 <= j < n - 1 ensures nodes[c[1..][j]].ref == 1 { assert c[1..][j] == c[j + 1]; }
      UnsharedIs(nodes, c[1..], n - 1);
    }
  }

  lemma DroppedCount(before: Nodes, rank: map<nat, nat>, p: Ptr, after: Nodes, count: nat)
    requires Ranked(before, rank) && (p.At? ==> p.addr in before) && Dropped(before, rank, p, after, count)
    ensures count == Unshared(before, Chain(before, rank, p))
  {
    hide Ranked, Unshared, Without;
    UnsharedIs(before, Chain(before, rank, p), count);
  }

  lemma {:induction false} SameUnshared(nodes: Nodes, cut: Nodes, c: seq<nat>)
    requires forall a | a in c :: a in nodes && a in cut && cut[a].ref == nodes[a].ref
    ensures Unshared(cut, c) == Unshared(nodes, c)
  {
    if c != [] {
      SameUnshared(nodes, cut, c[1..]);
    }
  }

  /** Cutting the link of `a` leaves the chain behind it as it is. */
  lemma CutChain(nodes: Nodes, rank: map<nat, nat>, a: nat)
    requires Ranked(nodes, rank) && a in nodes
    ensures var cut := nodes[a := nodes[a].(next := Null)]; var tail := nodes[a].next;
            && Ranked(cut, rank) && (tail.At? ==> tail.addr in nodes && tail.addr in cut)
            && Chain(cut, rank, tail) == Chain(nodes, rank, tail)
  {
    hide Chain;
    ChainNext(nodes, rank, a);
    SameChain(nodes, nodes[a := nodes[a].(next := Null)], rank, nodes[a].next, a);
  }

  lemma {:induction false} SameChain(nodes: Nodes, cut: Nodes, rank: map<nat, nat>, p: Ptr, a: nat)
    requires Ranked(nodes, rank) && Ranked(cut, rank) && (p.At? ==> p.addr in nodes)
    requires a in nodes && a in cut && cut == nodes[a := cut[a]] && a !in Chain(nodes, rank, p)
    ensures Chain(cut, rank, p) == Chain(nodes, rank, p)
    decreases if p.At? then rank[p.addr] + 1 else 0
  {
    if p.At? {
      SameChain(nodes, cut, rank, nodes[p.addr].next, a);
    }
  }

  // --- Joining chains ------------------------------------------------------------------------

  /** Ranks after the end `last` of one chain has been linked to `t`. */
  ghost function Lifted(nodes: Nodes, rank: map<nat, nat>, last: nat, t: nat): map<nat, nat>
    requires Ranked(nodes, rank) && t in nodes
  {
    map a | a in nodes :: rank[a] + if last in Chain(nodes, rank, At(a)) then rank[t] + 1 else 0
  }

  lemma LiftedRanked(nodes: Nodes, rank: map<nat, nat>, last: nat, t: nat)
    requires Ranked(nodes, rank) && t in nodes && last in nodes && nodes[last].next == Null
    requires last !in Chain(nodes, rank, At(t))
    ensures Ranked(nodes[last := nodes[last].(next := At(t))], Lifted(nodes, rank, last, t))
  {
    var nodes', rank' := nodes[last := nodes[last].(next := At(t))], Lifted(nodes, rank, last, t);
    forall a | a in nodes' && nodes'[a].next.At?
      ensures nodes'[a].next.addr in nodes' && rank'[nodes'[a].next.addr] < rank'[a]
    {
      if a == last {
        assert last in Chain(nodes, rank, At(last));
      } else {
        assert Chain(nodes, rank, At(a)) == [a] + Chain(nodes, rank, nodes[a].next);
      }
    }
  }

  lemma RankedLess(nodes: Nodes, rank: map<nat, nat>, a: nat)
    requires Ranked(nodes, rank) && a in nodes
    ensures (forall b | b in nodes :: nodes[b].next != At(a)) ==> Ranked(nodes - {a}, rank)
    ensures Ranked(nodes[a := nodes[a].(next := Null)], rank) && nodes[a].next != At(a)
    ensures nodes[a].next.At? ==> nodes[a].next.addr in rank && rank[nodes[a].next.addr] < rank[a]
    ensures a in rank
    ensures nodes[a].ref > 0 ==> Ranked(nodes[a := nodes[a].(ref := nodes[a].ref - 1)], rank)
    ensures Ranked(nodes[a := Counted(nodes[a])], rank)
  {
  }

  ghost function Without(nodes: Nodes, c: seq<nat>): Nodes {
    nodes - (set x | x in c)
  }

  lemma WithoutOne(nodes: Nodes, c: seq<nat>, i: nat)
    requires i < |c| && c[i] in nodes && c[i] !in c[..i]
    ensures c[i] in Without(nodes, c[..i]) && Without(nodes, c[..i])[c[i]] == nodes[c[i]]
    ensures Without(nodes, c[..i + 1]) == Without(nodes, c[..i]) - {c[i]}
  {
  }

  lemma WithoutNone(nodes: Nodes)
    ensures Without(nodes, []) == nodes
  {
  }

  // --- The operations ------------------------------------------------------------------------

  /** The loop of pbuf_free: the pointer `p` is dropped.  Buffers that nothing points to any more
      are deallocated one after the other, up to the first that is still referenced. */
  method Release(before: Nodes, p: Ptr, ghost held: map<nat, nat>, ghost rank: map<nat, nat>)
    returns (nodes: Nodes, count: nat)
    requires Balanced(before, held, p) && Ranked(before, rank)
    ensures Balanced(nodes, held, Null) && Ranked(nodes, rank) && (p.At? ==> p.addr in before)
    ensures Dropped(before, rank, p, nodes, count)
  {
    hide Balanced, Without, Ranked, Chain;
    nodes, count := before, 0;
    BalancedPtr(nodes, held, p);
    ghost var c := Chain(nodes, rank, p);
    assert c[..0] == [];
    WithoutNone(nodes);
    var q := p;
    while q != Null
      invariant Ranked(nodes, rank) && Balanced(nodes, held, q) && count <= |c|
      invariant q == (if count < |c| then At(c[count]) else Null)
      invariant forall j | 0 <= j < count :: before[c[j]].ref == 1
      invariant nodes == Without(before, c[..count])
      decreases |c| - count
    {
      var a := q.addr;
      BalancedPtr(nodes, held, q);
      ChainStep(before, rank, p, count);
      RankedLess(nodes, rank, a);
      WithoutOne(before, c, count);
      if nodes[a].ref == 1 {
        LastPointer(nodes, held, a);
        q := nodes[a].next;
        nodes := nodes - {a};
        count := count + 1;
      } else {
        StillReferenced(nodes, held, a);
        nodes := nodes[a := nodes[a].(ref := nodes[a].ref - 1)];
        return;
      }
    }
  }

  /** The walk to the end of a chain. */
  method LastOf(nodes: Nodes, h: nat, ghost rank: map<nat, nat>) returns (p: nat)
    requires Ranked(nodes, rank) && h in nodes
    ensures var c := Chain(nodes, rank, At(h)); p == c[|c| - 1] && p in nodes && nodes[p].next == Null
  {
    hide Ranked;
    ghost var c := Chain(nodes, rank, At(h));
    p := h;
    ghost var i := 0;
    ChainStep(nodes, rank, At(h), 0);
    while nodes[p].next != Null
      invariant 0 <= i < |c| && p == c[i] && p in nodes
      invariant nodes[p].next == if i + 1 < |c| then At(c[i + 1]) else Null
      decreases |c| - i
    {
      ChainStep(nodes, rank, At(h), i + 1);
      p, i := nodes[p].next.addr, i + 1;
    }
  }

  // --- Runs ----------------------------------------------------------------------------------

  /** What callers may ask for. */
  datatype Op =
    | AllocOp(a: nat) | RefOp(a: nat) | FreeOp(a: nat) | CatOp(h: nat, t: nat) | ChainOp(h: nat, t: nat)
    | DechainOp(a: nat) | CutOp(a: nat) | FreeHeaderOp(a: nat, k: nat)

  datatype Answer = Done | Freed(count: nat) | Rest(p: Ptr)

  datatype State = State(nodes: Nodes, held: map<nat, nat>, rank: map<nat, nat>)

  /** Every count is right and there are no cycles. */
  ghost predicate Counts(s: State) {
    Balanced(s.nodes, s.held, Null) && Ranked(s.nodes, s.rank)
  }

  /** The caller holds `t` and would not make a cycle. */
  predicate CanJoin(nodes: Nodes, held: map<nat, nat>, ghost rank: map<nat, nat>, h: nat, t: nat)
    requires Ranked(nodes, rank)
  {
    h in nodes && t in nodes && Held(held, t) > 0 &&
    var c := Chain(nodes, rank, At(h)); c[|c| - 1] !in Chain(nodes, rank, At(t))
  }

  /** The last buffer of `h` links to `t`. */
  ghost function Joined(s: State, h: nat, t: nat): Nodes
    requires Ranked(s.nodes, s.rank) && h in s.nodes
  {
    var c := Chain(s.nodes, s.rank, At(h));
    var last := c[|c| - 1];
    s.nodes[last := s.nodes[last].(next := At(t))]
  }

  /** The link of `a` is gone, and with it what only it pointed to: `n` buffers. */
  ghost predicate CutOff(s: State, a: nat, n: nat, nodes: Nodes)
    requires Ranked(s.nodes, s.rank) && a in s.nodes
  {
    var cut, tail := s.nodes[a := s.nodes[a].(next := Null)], s.nodes[a].next;
    && Ranked(cut, s.rank) && (tail.At? ==> tail.addr in cut) && Dropped(cut, s.rank, tail, nodes, n)
  }

  /** The first `k` buffers of the chain `c` have lost their links and one reference each; those
      that had only one are gone.  Nothing else changes. */
  ghost predicate Popped(before: Nodes, c: seq<nat>, k: nat, after: Nodes) {
    && k <= |c|
    && (forall a | a in before ::
          a in after <==> a !in c[..k] || before[a].ref > 1)
    && (forall a | a in after :: a in before && before[a].ref > 0 &&
          after[a] == if a in c[..k] then Node(Null, before[a].ref - 1) else before[a])
  }

  /** A caller's pointer to `q` has become one to `p`. */
  ghost predicate Moved(held: map<nat, nat>, q: nat, p: Ptr, held': map<nat, nat>) {
    forall x :: Held(held', x) == Held(held, x) - (if x == q then 1 else 0) + (if p == At(x) then 1 else 0)
  }

  /** What an operation did.  One that callers may not ask for is skipped. */
  ghost predicate Did(op: Op, s: State, r: Answer, t: State)
    requires Ranked(s.nodes, s.rank)
  {
    match op
    case AllocOp(a) =>
      if a in s.nodes then t == s && r == Done
      else r == Done && t.nodes == s.nodes[a := Node(Null, 1)] && t.held == s.held[a := 1]
    case RefOp(a) =>
      if a !in s.nodes then t == s && r == Done
      else
        && r == Done && t.nodes == s.nodes[a := s.nodes[a].(ref := s.nodes[a].ref + 1)]
        && t.held == s.held[a := Held(s.held, a) + 1]
    case FreeOp(a) =>
      if Held(s.held, a) == 0 then t == s && r == Done
      else
        && a in s.nodes && t.held == s.held[a := s.held[a] - 1]
        && exists n: nat :: Dropped(s.nodes, s.rank, At(a), t.nodes, n) && r == Freed(n % 0x100)
    case CatOp(h, x) =>
      if !CanJoin(s.nodes, s.held, s.rank, h, x) then t == s && r == Done
      else r == Done && t.nodes == Joined(s, h, x) && t.held == s.held[x := s.held[x] - 1]
    case ChainOp(h, x) =>
      if !CanJoin(s.nodes, s.held, s.rank, h, x) then t == s && r == Done
      else
        && r == Done && t.held == s.held
        && t.nodes == Joined(s, h, x)[x := s.nodes[x].(ref := s.nodes[x].ref + 1)]
    case DechainOp(a) =>
      if a !in s.nodes then t == s && r == Done
      else
        && t.held == s.held
        && exists n: nat :: CutOff(s, a, n, t.nodes) && r == Rest(if n % 0x100 > 0 then Null else s.nodes[a].next)
    case CutOp(a) =>
      if a !in s.nodes then t == s && r == Done
      else t.held == s.held && exists n: nat :: CutOff(s, a, n, t.nodes) && r == Freed(n)
    case FreeHeaderOp(q, k) =>
      if Held(s.held, q) == 0 then t == s && r == Done
      else
        && q in s.nodes
        && var c := Chain(s.nodes, s.rank, At(q));
           && r == Rest(if k < |c| then At(c[k]) else Null) && Moved(s.held, q, r.p, t.held)
           && Popped(s.nodes, c, if k < |c| then k else |c|, t.nodes)
  }

  /** The states before, between and after the operations; in each of them every count is right. */
  ghost predicate History(ops: seq<Op>, answers: seq<Answer>, states: seq<State>) {
    && |answers| <= |ops| && |states| == |answers| + 1
    && (forall i | 0 <= i < |states| :: Counts(states[i]))
    && forall i | 0 <= i < |answers| :: Counts(states[i]) && Did(ops[i], states[i], answers[i], states[i + 1])
  }

  lemma HistoryStart(ops: seq<Op>, s: State)
    requires Counts(s)
    ensures History(ops, [], [s])
  {
  }

  lemma HistoryStep(ops: seq<Op>, answers: seq<Answer>, states: seq<State>, r: Answer, t: State)
    requires History(ops, answers, states) && |answers| < |ops| && Counts(t)
    requires |states| == |answers| + 1 && Counts(states[|answers|]) && Did(ops[|answers|], states[|answers|], r, t)
    ensures History(ops, answers + [r], states + [t])
  {
    hide Did, Balanced, Ranked;
  }

  class Heap {
    var nodes: Nodes
    /** How many pointers to a buffer the callers hold. */
    var held: map<nat, nat>
    ghost var rank: map<nat, nat>

    ghost predicate Valid()
      reads this
    {
      Balanced(nodes, held, Null) && Ranked(nodes, rank)
    }

    constructor ()
      ensures Valid() && nodes == map[]
    {
      nodes, held, rank := map[], map[], map[];
    }

    ghost function Now(): State
      reads this
    {
      State(nodes, held, rank)
    }

    /** pbuf_alloc for one buffer. */
    method Alloc(a: nat)
      requires Valid() && a !in nodes
      modifies this
      ensures Valid() && nodes == old(nodes)[a := Node(Null, 1)] && held == old(held)[a := 1]
    {
      hide Balanced;
      Allocated(nodes, held, a);
      nodes, held, rank := nodes[a := Node(Null, 1)], held[a := 1], rank[a := 0];
    }

    /** pbuf_ref: the counts stay right if and only if the new one fits into eight bits. */
    method Ref(a: nat)
      requires Valid() && a in nodes
      modifies this`nodes, this`held
      ensures nodes == old(nodes)[a := Counted(old(nodes)[a])] && held == old(held)[a := Held(old(held), a) + 1]
      ensures Ranked(nodes, rank) && (Valid() <==> old(nodes)[a].ref + 1 < REF_WIDTH)
    {
      hide Balanced;
      ReferencedIff(nodes, held, a);
      RankedLess(nodes, rank, a);
      nodes, held := nodes[a := Counted(nodes[a])], held[a := Held(held, a) + 1];
    }

    /** pbuf_free; the number of deallocated buffers is returned in eight bits. */
    method Free(a: nat) returns (count: nat, ghost n: nat)
      requires Valid() && Held(held, a) > 0
      modifies this`nodes, this`held
      ensures Valid() && held == old(held)[a := old(held)[a] - 1] && a in old(nodes)
      ensures Dropped(old(nodes), rank, At(a), nodes, n) && count == n % 0x100
    {
      hide Balanced, Dropped, Ranked;
      HandOver(nodes, held, a);
      held := held[a := held[a] - 1];
      var all;
      nodes, all := Release(nodes, At(a), held, rank);
      count, n := all % 0x100, all;
    }

    /** pbuf_cat: the caller's pointer to `t` becomes the link of the last buffer of `h`. */
    method Cat(h: nat, t: nat)
      requires Valid() && h in nodes && t in nodes && Held(held, t) > 0
      requires var c := Chain(nodes, rank, At(h)); c[|c| - 1] !in Chain(nodes, rank, At(t))
      modifies this`nodes, this`held, this`rank
      ensures Valid() && held == old(held)[t := old(held)[t] - 1]
      ensures var c := Chain(old(nodes), old(rank), At(h)); var last := c[|c| - 1];
              last in old(nodes) && nodes == old(nodes)[last := old(nodes)[last].(next := At(t))]
    {
      hide Balanced, Ranked;
      var p := LastOf(nodes, h, rank);
      HandOver(nodes, held, t);
      held := held[t := held[t] - 1];
      Linked(nodes, held, p, t);
      LiftedRanked(nodes, rank, p, t);
      rank := Lifted(nodes, rank, p, t);
      nodes := nodes[p := nodes[p].(next := At(t))];
    }

    /** pbuf_chain: like pbuf_cat, but the caller keeps its pointer. */
    method ChainTo(h: nat, t: nat)
      requires Valid() && h in nodes && t in nodes && Held(held, t) > 0
      requires var c := Chain(nodes, rank, At(h)); c[|c| - 1] !in Chain(nodes, rank, At(t))
      modifies this`nodes, this`held, this`rank
      ensures held == old(held) && nodes.Keys == old(nodes).Keys
      ensures Valid() <==> old(nodes)[t].ref + 1 < REF_WIDTH
      ensures var c := Chain(old(nodes), old(rank), At(h)); var last := c[|c| - 1];
              last in old(nodes) && last != t &&
              nodes == old(nodes)[last := old(nodes)[last].(next := At(t))]
                                 [t := Counted(old(nodes)[t])]
    {
      hide Balanced, Ranked;
      Cat(h, t);
      Ref(t);
      assert held == old(held);
    }

    /** Everything behind `a` is cut off and the link is dropped, as at the end of pbuf_realloc and
        in pbuf_dechain. */
    method Cut(a: nat) returns (tail: Ptr, n: nat)
      requires Valid() && a in nodes
      modifies this`nodes
      ensures Valid() && tail == old(nodes)[a].next && a in nodes && nodes[a].next == Null && (tail == Null ==> n == 0)
      ensures var cut := old(nodes)[a := old(nodes)[a].(next := Null)];
              Ranked(cut, rank) && (tail.At? ==> tail.addr in cut) && Dropped(cut, rank, tail, nodes, n)
    {
      hide Balanced, Ranked, Dropped;
      tail, n := nodes[a].next, 0;
      RankedLess(nodes, rank, a);
      if tail != Null {
        LinkInside(nodes, held, a);
        Unlinked(nodes, held, a);
        nodes := nodes[a := nodes[a].(next := Null)];
        ghost var cut := nodes;
        nodes, n := Release(nodes, tail, held, rank);
        CutStays(cut, rank, tail, nodes, n, a);
      } else {
        assert nodes[a := nodes[a].(next := Null)] == nodes;
        DroppedNone(nodes, rank);
      }
    }

    /** pbuf_dechain: the rest of the chain if it still exists.  The number of deallocated buffers
        is looked at in eight bits only, so the answer is right if and only if the number of
        leading buffers behind `a` that nothing else points to is not a positive multiple of 256. */
    method Dechain(a: nat) returns (r: Ptr, ghost n: nat)
      requires Valid() && a in nodes
      modifies this`nodes
      ensures Valid() && a in nodes && nodes[a].next == Null
      ensures var tail := old(nodes)[a].next;
              && (tail.At? ==> tail.addr in old(nodes)) && n == Unshared(old(nodes), Chain(old(nodes), rank, tail))
              && r == (if n % 0x100 > 0 then Null else tail)
              && (tail.At? ==> ((r == Null <==> tail.addr !in nodes) <==> n == 0 || n % 0x100 != 0))
      ensures var cut := old(nodes)[a := old(nodes)[a].(next := Null)];
              Ranked(cut, rank) && (old(nodes)[a].next.At? ==> old(nodes)[a].next.addr in cut) &&
              Dropped(cut, rank, old(nodes)[a].next, nodes, n)
    {
      hide Balanced, Ranked, Dropped, Chain, Unshared;
      var tail, all := Cut(a);
      n := all;
      ghost var cut := old(nodes)[a := old(nodes)[a].(next := Null)];
      CutChain(old(nodes), rank, a);
      DroppedCount(cut, rank, tail, nodes, n);
      SameUnshared(old(nodes), cut, Chain(cut, rank, tail));
      if tail != Null {
        DroppedHead(cut, rank, tail, nodes, n);
      }
      r := if tail == Null || all % 0x100 > 0 then Null else tail;
    }

    /** One round of pbuf_free_header: the caller's pointer moves on to the next buffer, whose link
        it takes over. */
    method Pop(f: nat) returns (p: Ptr)
      requires Valid() && Held(held, f) > 0
      modifies this`nodes, this`held
      ensures Valid() && f in old(nodes) && p == old(nodes)[f].next
      ensures p.At? ==> p.addr in nodes && Held(held, p.addr) > 0
      ensures nodes == if old(nodes)[f].ref == 1 then old(nodes) - {f}
                       else old(nodes)[f := Node(Null, old(nodes)[f].ref - 1)]
      ensures Moved(old(held), f, p, held) && old(nodes)[f].ref > 0 && p != At(f)
    {
      hide Balanced, Ranked, Dropped;
      HeldInside(nodes, held, f);
      RankedLess(nodes, rank, f);
      p := nodes[f].next;
      if p != Null {
        LinkInside(nodes, held, f);
        Unlinked(nodes, held, f);
        nodes := nodes[f := nodes[f].(next := Null)];
        TakeOver(nodes, held, p.addr);
        held := held[p.addr := Held(held, p.addr) + 1];
      }
      ghost var cut := nodes;
      BalancedRef(nodes, held, f);
      var count;
      ghost var n;
      count, n := Free(f);
      DroppedSingle(cut, rank, f, nodes, n);
      if p != Null {
        HeldInside(nodes, held, p.addr);
      }
    }

    /** pbuf_free_header for a header that reaches over `k` buffers: the caller's pointer moves on to
        the rest, and the buffers before it lose their links and the reference that led to them. */
    method FreeHeader(q: nat, k: nat) returns (p: Ptr)
      requires Valid() && Held(held, q) > 0 && q in nodes
      modifies this`nodes, this`held
      ensures Valid() && (p.At? ==> p.addr in nodes && Held(held, p.addr) > 0)
      ensures var c := Chain(old(nodes), rank, At(q)); p == if k < |c| then At(c[k]) else Null
      ensures var c := Chain(old(nodes), rank, At(q)); Popped(old(nodes), c, if k < |c| then k else |c|, nodes)
      ensures Moved(old(held), q, p, held)
    {
      hide Balanced, Ranked, Chain, Popped, Moved;
      p := At(q);
      ghost var c := Chain(nodes, rank, At(q));
      PoppedNone(nodes, held, c);
      MovedNowhere(held, q);
      var i := 0;
      while i < k && p != Null
        invariant Valid() && (p.At? ==> p.addr in nodes && Held(held, p.addr) > 0)
        invariant 0 <= i <= |c| && i <= k && p == if i < |c| then At(c[i]) else Null
        invariant Popped(old(nodes), c, i, nodes) && Moved(old(held), q, p, held)
        decreases k - i
      {
        ChainStep(old(nodes), rank, At(q), i);
        ghost var before, took := nodes, held;
        PoppedAt(old(nodes), c, i, nodes);
        ghost var f := p.addr;
        p := Pop(p.addr);
        PoppedOne(old(nodes), c, i, before, nodes);
        MovedOn(old(held), q, f, took, p, held);
        i := i + 1;
      }
    }

    /** One pointer more than eight bits can count. */
    predicate Overflows(op: Op)
      reads this
      requires Ranked(nodes, rank)
    {
      match op
      case RefOp(a) => a in nodes && nodes[a].ref + 1 == REF_WIDTH
      case ChainOp(h, t) => CanJoin(nodes, held, rank, h, t) && nodes[t].ref + 1 == REF_WIDTH
      case _ => false
    }

    /** One operation, unless callers may not ask for it. */
    method Step(op: Op) returns (r: Answer)
      requires Valid() && !Overflows(op)
      modifies this
      ensures Valid() && old(Ranked(nodes, rank)) && Did(op, old(Now()), r, Now())
    {
      hide Balanced, Ranked, Dropped, Unshared, Popped, Moved, Chain;
      r := Done;
      match op
      case AllocOp(a) => if a !in nodes { Alloc(a); }
      case RefOp(a) =>
        if a in nodes {
          RefBound(nodes, held, a);
          Ref(a);
        }
      case FreeOp(a) =>
        if Held(held, a) > 0 {
          var count;
          ghost var n;
          count, n := Free(a);
          r := Freed(count);
        }
      case CatOp(h, t) => if CanJoin(nodes, held, rank, h, t) { Cat(h, t); }
      case ChainOp(h, t) =>
        if CanJoin(nodes, held, rank, h, t) {
          RefBound(nodes, held, t);
          ChainTo(h, t);
        }
      case DechainOp(a) =>
        if a in nodes {
          var p;
          ghost var n;
          p, n := Dechain(a);
          assert CutOff(old(Now()), a, n, nodes);
          r := Rest(p);
        }
      case CutOp(a) =>
        if a in nodes {
          var p, n := Cut(a);
          assert CutOff(old(Now()), a, n, nodes);
          r := Freed(n);
        }
      case FreeHeaderOp(a, k) =>
        if Held(held, a) > 0 {
          HeldInside(nodes, held, a);
          var p := FreeHeader(a, k);
          r := Rest(p);
        }
    }

    /** Any run of operations does what their contracts say and keeps every count right, up to the
        first one that would make more pointers than the count can tell. */
    method Run(ops: seq<Op>) returns (answers: seq<Answer>, ghost states: seq<State>)
      requires Valid()
      modifies this
      ensures Valid() && History(ops, answers, states)
      ensures states[0] == old(Now()) && states[|answers|] == Now()
      ensures |answers| < |ops| ==> Overflows(ops[|answers|])
    {
      hide Balanced, Ranked, Did, History, Overflows, Counts;
      answers, states := [], [Now()];
      CountsNow();
      HistoryStart(ops, Now());
      while |answers| < |ops| && !Overflows(ops[|answers|])
        invariant Valid() && |answers| <= |ops| && |states| == |answers| + 1 && History(ops, answers, states)
        invariant states[0] == old(Now()) && states[|answers|] == Now() && Counts(Now())
        decreases |ops| - |answers|
      {
        var r := Step(ops[|answers|]);
        CountsNow();
        HistoryStep(ops, answers, states, r, Now());
        answers, states := answers + [r], states + [Now()];
      }
    }

    lemma CountsNow()
      ensures Valid() <==> Counts(Now())
    {
    }
  }

  lemma PoppedNone(nodes: Nodes, held: map<nat, nat>, c: seq<nat>)
    requires Balanced(nodes, held, Null)
    ensures Popped(nodes, c, 0, nodes)
  {
  }

  lemma MovedNowhere(held: map<nat, nat>, q: nat)
    ensures Moved(held, q, At(q), held)
  {
  }

  lemma PoppedAt(before: Nodes, c: seq<nat>, i: nat, now: Nodes)
    requires Popped(before, c, i, now) && i < |c| && c[i] in before && c[i] !in c[..i]
    ensures c[i] in now && now[c[i]] == before[c[i]]
  {
  }

  lemma PoppedOne(before: Nodes, c: seq<nat>, i: nat, now: Nodes, after: Nodes)
    requires Popped(before, c, i, now) && i < |c| && c[i] in before && c[i] !in c[..i]
    requires c[i] in now && now[c[i]].ref > 0
    requires after == if now[c[i]].ref == 1 then now - {c[i]} else now[c[i] := Node(Null, now[c[i]].ref - 1)]
    ensures Popped(before, c, i + 1, after)
  {
    assert forall a :: a in c[..i + 1] <==> a in c[..i] || a == c[i];
  }

  lemma MovedOn(held: map<nat, nat>, q: nat, f: nat, now: map<nat, nat>, p: Ptr, after: map<nat, nat>)
    requires Moved(held, q, At(f), now) && Moved(now, f, p, after)
    ensures Moved(held, q, p, after)
  {
  }

  lemma HeldInside(nodes: Nodes, held: map<nat, nat>, a: nat)
    requires Balanced(nodes, held, Null) && Held(held, a) > 0
    ensures a in nodes
  {
  }

  // --- A chain of 257 ------------------------------------------------------------------------

  /** Buffer `k` links to buffer `k - 1`, and nothing else does. */
  ghost predicate Ladder(nodes: Nodes, n: nat) {
    forall k | 0 <= k < n :: k in nodes && nodes[k] == Node(if k == 0 then Null else At(k - 1), 1)
  }

  lemma LadderAt(nodes: Nodes, n: nat, k: nat)
    requires Ladder(nodes, n) && k < n
    ensures k in nodes && nodes[k] == Node(if k == 0 then Null else At(k - 1), 1)
  {
  }

  lemma {:induction false} LadderChain(nodes: Nodes, rank: map<nat, nat>, n: nat, k: nat)
    requires Ranked(nodes, rank) && Ladder(nodes, n) && k < n
    ensures k in nodes && |Chain(nodes, rank, At(k))| == k + 1
    ensures forall j | 0 <= j <= k :: Chain(nodes, rank, At(k))[j] == k - j
  {
    hide Ranked, Ladder;
    LadderAt(nodes, n, k);
    if k > 0 {
      LadderChain(nodes, rank, n, k - 1);
    }
  }

  lemma LadderUp(nodes: Nodes, nodes': Nodes, n: nat)
    requires Ladder(nodes, n) && n > 0 && nodes' == nodes[n := Node(At(n - 1), 1)]
    ensures Ladder(nodes', n + 1)
  {
  }

  lemma LadderMore(nodes: Nodes, n: nat, x: Node, m: nat)
    requires Ladder(nodes, n) && n <= m
    ensures Ladder(nodes[m := x], n)
  {
  }

  lemma SingleChain(nodes: Nodes, rank: map<nat, nat>, a: nat)
    requires Ranked(nodes, rank) && a in nodes && nodes[a].next == Null
    ensures Chain(nodes, rank, At(a)) == [a]
  {
  }

  /** Everything in a ladder goes when its top does. */
  lemma LadderDropped(nodes: Nodes, rank: map<nat, nat>, n: nat, k: nat, after: Nodes, count: nat)
    requires Ranked(nodes, rank) && Ladder(nodes, n) && k < n && k in nodes && Dropped(nodes, rank, At(k), after, count)
    ensures count == k + 1
  {
    hide Ranked, Ladder, Without;
    LadderChain(nodes, rank, n, k);
    if count <= k {
      LadderAt(nodes, n, k - count);
    }
  }

  /** Dechaining the first of 257 buffers deallocates 256 and reports the rest as still there. */
  method DechainExample() returns (r: Ptr, gone: bool)
    ensures r == At(255) && gone
  {
    hide Ranked, Ladder, Dropped, Balanced, Chain;
    var heap := new Heap();
    heap.Alloc(0);
    LadderZero(heap.nodes);
    for i := 1 to 257
      invariant fresh(heap) && heap.Valid() && Ladder(heap.nodes, i) && Held(heap.held, i - 1) > 0
      invariant forall a | a in heap.nodes :: a < i
    {
      LadderMore(heap.nodes, i, Node(Null, 1), i);
      ghost var before := heap.nodes;
      heap.Alloc(i);
      LadderChain(heap.nodes, heap.rank, i, i - 1);
      SingleChain(heap.nodes, heap.rank, i);
      heap.Cat(i, i - 1);
      LadderUp(before, heap.nodes, i);
    }
    LadderAt(heap.nodes, 257, 256);
    ghost var n;
    ghost var before := heap.nodes;
    r, n := heap.Dechain(256);
    ghost var cut := before[256 := before[256].(next := Null)];
    LadderLess(before, cut, 256);
    LadderAt(cut, 256, 255);
    LadderDropped(cut, heap.rank, 256, 255, heap.nodes, n);
    DroppedHead(cut, heap.rank, At(255), heap.nodes, n);
    gone := 255 !in heap.nodes;
  }

  /** A buffer to which callers hold 256 pointers has a count of zero. */
  method RefExample() returns (ref: nat, pointers: nat, ghost right: bool)
    ensures ref == 0 && pointers == 256 && !right
  {
    hide Balanced, Ranked;
    var heap := new Heap();
    heap.Alloc(0);
    for i := 1 to 255
      invariant fresh(heap) && heap.Valid() && 0 in heap.nodes && heap.nodes[0].ref == i && Held(heap.held, 0) == i
    {
      heap.Ref(0);
    }
    heap.Ref(0);
    ref, pointers, right := heap.nodes[0].ref, Held(heap.held, 0), heap.Valid();
  }

  lemma LadderZero(nodes: Nodes)
    requires nodes == map[0 := Node(Null, 1)]
    ensures Ladder(nodes, 1)
  {
  }

  lemma LadderLess(nodes: Nodes, cut: Nodes, n: nat)
    requires Ladder(nodes, n + 1) && cut == nodes[n := Node(Null, 1)]
    ensures Ladder(cut, n)
  {
  }

  lemma RefBound(nodes: Nodes, held: map<nat, nat>, a: nat)
    requires Balanced(nodes, held, Null) && a in nodes
    ensures nodes[a].ref < REF_WIDTH
  {
  }

  lemma BalancedRef(nodes: Nodes, held: map<nat, nat>, a: nat)
    requires Balanced(nodes, held, Null) && a in nodes
    ensures nodes[a].ref > 0
  {
  }

  lemma DroppedSingle(before: Nodes, rank: map<nat, nat>, a: nat, after: Nodes, n: nat)
    requires Ranked(before, rank) && a in before && before[a].next == Null
    requires Dropped(before, rank, At(a), after, n) && before[a].ref > 0
    ensures after == if before[a].ref == 1 then before - {a} else before[a := before[a].(ref := before[a].ref - 1)]
  {
  }

  lemma LinkInside(nodes: Nodes, held: map<nat, nat>, a: nat)
    requires Balanced(nodes, held, Null) && a in nodes && nodes[a].next.At?
    ensures nodes[a].next.addr in nodes
  {
  }

  lemma DroppedNone(nodes: Nodes, rank: map<nat, nat>)
    requires Ranked(nodes, rank)
    ensures Dropped(nodes, rank, Null, nodes, 0)
  {
  }

  /** The first buffer is gone if and only if some are. */
  lemma DroppedHead(before: Nodes, rank: map<nat, nat>, p: Ptr, after: Nodes, n: nat)
    requires Ranked(before, rank) && p.At? && p.addr in before && Dropped(before, rank, p, after, n)
    ensures p.addr !in after <==> n > 0
  {
  }

  /** The buffer that was cut off from the rest stays. */
  lemma CutStays(cut: Nodes, rank: map<nat, nat>, tail: Ptr, after: Nodes, n: nat, a: nat)
    requires Ranked(cut, rank) && tail.At? && tail.addr in cut && Dropped(cut, rank, tail, after, n)
    requires a in cut && cut[a].next == Null && rank[tail.addr] < rank[a]
    ensures a in after && after[a].next == Null
  {
  }

  lemma BalancedPtr(nodes: Nodes, held: map<nat, nat>, p: Ptr)
    requires Balanced(nodes, held, p)
    ensures p.At? ==> p.addr in nodes && nodes[p.addr].ref > 0
  {
  }

  /** What dropping the pointer `p` does: the first `count` buffers of its chain, to which nothing
      else pointed, are gone; the next one, if there is one, has lost one reference and has some
      left; nothing else changes. */
  ghost predicate Dropped(before: Nodes, rank: map<nat, nat>, p: Ptr, after: Nodes, count: nat)
    requires Ranked(before, rank) && (p.At? ==> p.addr in before)
  {
    var c := Chain(before, rank, p);
    && count <= |c| && (forall j | 0 <= j < count :: before[c[j]].ref == 1)
    && var left := Without(before, c[..count]);
       if count == |c| then after == left
       else before[c[count]].ref > 1 && c[count] in left &&
            after == left[c[count] := before[c[count]].(ref := before[c[count]].ref - 1)]
  }
}
