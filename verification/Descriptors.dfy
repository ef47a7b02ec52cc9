/** The life cycle of a socket descriptor in full-duplex mode: several threads use, close and
    reuse descriptors.  Every step is one protected region (src/api/sockets.c). */
module Descriptors {
  datatype Conn = NoConn | Conn(id: nat)

  const U8 := 0x100

  /** struct lwip_sock: conn, fd_used, which has eight bits, and fd_free_pending. */
  datatype Slot = Slot(conn: Conn, used: nat, pending: bool)

  /** `uses` says which descriptor a call that has got hold of one works on; `given` are the
      connections that were given a descriptor so far, `freed` those that were deleted. */
  datatype State = State(slots: seq<Slot>, uses: map<nat, nat>, given: set<nat>, freed: seq<nat>)

  /** One round of alloc_socket: the slot is taken if it is free and nobody uses it. */
  function Alloc(s: State, u: nat, fd: nat, c: nat): State {
    if u in s.uses || c in s.given || fd >= |s.slots| || s.slots[fd].conn != NoConn || s.slots[fd].used != 0 then s
    else s.(slots := s.slots[fd := Slot(Conn(c), 1, false)], uses := s.uses[u := fd], given := s.given + {c})
  }

  /** tryget_socket_unconn: no new use once the descriptor is to be freed. */
  function Get(s: State, u: nat, fd: nat): State {
    if u in s.uses || fd >= |s.slots| || s.slots[fd].pending then s
    else s.(slots := s.slots[fd := s.slots[fd].(used := (s.slots[fd].used + 1) % U8)], uses := s.uses[u := fd])
  }

  function Drop(uses: map<nat, nat>, u: nat): map<nat, nat> {
    map x | x in uses && x != u :: uses[x]
  }

  /** free_socket_locked after the last use has ended. */
  function Release(s: State, u: nat, fd: nat): State
    requires fd < |s.slots|
  {
    s.(slots := s.slots[fd := s.slots[fd].(conn := NoConn, used := 0)], uses := Drop(s.uses, u),
       freed := s.freed + if s.slots[fd].conn.Conn? then [s.slots[fd].conn.id] else [])
  }

  /** done_socket */
  function Done(s: State, u: nat): State {
    if u !in s.uses || s.uses[u] >= |s.slots| || s.slots[s.uses[u]].used == 0 then s
    else
      var fd := s.uses[u];
      var slot := s.slots[fd];
      if slot.used == 1 && slot.pending then Release(s, u, fd)
      else s.(slots := s.slots[fd := slot.(used := slot.used - 1)], uses := Drop(s.uses, u))
  }

  /** free_socket, called by lwip_close on a descriptor that it has got hold of. */
  function Free(s: State, u: nat): State {
    if u !in s.uses || s.uses[u] >= |s.slots| then s
    else if s.slots[s.uses[u]].used == 0 || s.slots[s.uses[u]].conn == NoConn then s
    else
      var fd := s.uses[u];
      var slot := s.slots[fd];
      if slot.used > 1
      then s.(slots := s.slots[fd := slot.(used := slot.used - 1, pending := true)], uses := Drop(s.uses, u))
      else Release(s, u, fd)
  }

  // --- The invariant -------------------------------------------------------------------------

  ghost function Users(uses: map<nat, nat>, fd: nat): set<nat> {
    set u | u in uses && uses[u] == fd
  }

  /** fd_used is the number of uses; a descriptor that is to be freed has some until it is. */
  ghost predicate SlotOk(slot: Slot, users: set<nat>) {
    slot.used == |users| < U8 && (slot.pending ==> (slot.used > 0 <==> slot.conn != NoConn))
  }

  ghost predicate Used(s: State) {
    && (forall u | u in s.uses :: s.uses[u] < |s.slots|)
    && (forall fd | 0 <= fd < |s.slots| :: SlotOk(s.slots[fd], Users(s.uses, fd)))
  }

  /** Every connection has one descriptor, or was deleted once. */
  ghost predicate Owned(s: State) {
    && (forall i, j | 0 <= i < j < |s.freed| :: s.freed[i] != s.freed[j])
    && (forall i, j | 0 <= i < j < |s.slots| && s.slots[i].conn.Conn? :: s.slots[i].conn != s.slots[j].conn)
    && (forall c :: c in s.given <==> c in s.freed || Live(s, c))
    && (forall c | c in s.freed :: !Live(s, c))
  }

  ghost predicate Live(s: State, c: nat) {
    exists fd :: 0 <= fd < |s.slots| && s.slots[fd].conn == Conn(c)
  }

  ghost predicate Inv(s: State) {
    Used(s) && Owned(s)
  }

  lemma UsersAdd(uses: map<nat, nat>, u: nat, fd: nat, g: nat)
    requires u !in uses
    ensures |Users(uses[u := fd], g)| == |Users(uses, g)| + if g == fd then 1 else 0
  {
    if g == fd {
      assert Users(uses[u := fd], g) == Users(uses, g) + {u};
    } else {
      assert Users(uses[u := fd], g) == Users(uses, g);
    }
  }

  lemma UsersDrop(uses: map<nat, nat>, u: nat, g: nat)
    requires u in uses
    ensures |Users(Drop(uses, u), g)| == |Users(uses, g)| - if g == uses[u] then 1 else 0
  {
    if g == uses[u] {
      assert Users(uses, g) == Users(Drop(uses, u), g) + {u};
    } else {
      assert Users(Drop(uses, u), g) == Users(uses, g);
    }
  }

  lemma UsedOf(s: State, fd: nat)
    requires Used(s) && fd < |s.slots|
    ensures SlotOk(s.slots[fd], Users(s.uses, fd))
  {
  }

  // --- Every step keeps it -------------------------------------------------------------------

  lemma AllocUsed(s: State, u: nat, fd: nat, c: nat)
    requires Used(s)
    ensures Used(Alloc(s, u, fd, c))
  {
    hide Users;
    var s' := Alloc(s, u, fd, c);
    if s' != s {
      forall g | 0 <= g < |s.slots| ensures SlotOk(s'.slots[g], Users(s'.uses, g)) {
        UsedOf(s, g);
        UsersAdd(s.uses, u, fd, g);
      }
    }
  }

  lemma AllocOwned(s: State, u: nat, fd: nat, c: nat)
    requires Owned(s)
    ensures Owned(Alloc(s, u, fd, c))
  {
    var s' := Alloc(s, u, fd, c);
    if s' != s {
      assert s'.slots[fd].conn == Conn(c);
      assert !Live(s, c) && c !in s.freed;
      forall d ensures Live(s', d) <==> Live(s, d) || d == c {
        if Live(s, d) {
          var g :| 0 <= g < |s.slots| && s.slots[g].conn == Conn(d);
          assert s'.slots[g].conn == Conn(d);
        }
        if d == c {
          assert s'.slots[fd].conn == Conn(d);
        }
      }
    }
  }

  /** The next use is one more than eight bits can count. */
  predicate WrapsNow(s: State, a: Step) {
    a.Gets? && a.u !in s.uses && a.fd < |s.slots| && !s.slots[a.fd].pending && s.slots[a.fd].used + 1 == U8
  }

  lemma GetKeepsIff(s: State, u: nat, fd: nat)
    requires Inv(s)
    ensures Inv(Get(s, u, fd)) <==> !WrapsNow(s, Gets(u, fd))
  {
    hide Users, Live;
    var s' := Get(s, u, fd);
    if WrapsNow(s, Gets(u, fd)) {
      UsedOf(s, fd);
      UsersAdd(s.uses, u, fd, fd);
      assert !SlotOk(s'.slots[fd], Users(s'.uses, fd));
    } else if s' != s {
      UsedOf(s, fd);
      forall g | 0 <= g < |s.slots| ensures SlotOk(s'.slots[g], Users(s'.uses, g)) {
        UsedOf(s, g);
        UsersAdd(s.uses, u, fd, g);
      }
      SameConns(s, s');
    }
  }

  lemma SameConns(s: State, s': State)
    requires Owned(s) && |s'.slots| == |s.slots| && s'.freed == s.freed && s'.given == s.given
    requires forall fd | 0 <= fd < |s.slots| :: s'.slots[fd].conn == s.slots[fd].conn
    ensures Owned(s')
  {
  }

  /** One use less of a descriptor that stays. */
  lemma DropKeeps(s: State, u: nat, pending: bool)
    requires Inv(s) && u in s.uses
    requires var slot := s.slots[s.uses[u]]; slot.used > 0 && (pending ==> slot.used > 1 && slot.conn != NoConn)
    ensures var fd := s.uses[u]; var slot := s.slots[fd];
            Inv(s.(slots := s.slots[fd := slot.(used := slot.used - 1, pending := pending)], uses := Drop(s.uses, u)))
  {
    hide Users, Live;
    var fd := s.uses[u];
    var slot := s.slots[fd];
    var s' := s.(slots := s.slots[fd := slot.(used := slot.used - 1, pending := pending)], uses := Drop(s.uses, u));
    forall g | 0 <= g < |s.slots| ensures SlotOk(s'.slots[g], Users(s'.uses, g)) {
      UsedOf(s, g);
      UsersDrop(s.uses, u, g);
    }
    SameConns(s, s');
  }

  /** The last use frees the descriptor and deletes its connection. */
  lemma ReleaseKeeps(s: State, u: nat)
    requires Inv(s) && u in s.uses && s.slots[s.uses[u]].used == 1
    ensures Inv(Release(s, u, s.uses[u]))
  {
    hide Users, Owned;
    var fd := s.uses[u];
    var s' := Release(s, u, fd);
    forall g | 0 <= g < |s.slots| ensures SlotOk(s'.slots[g], Users(s'.uses, g)) {
      UsedOf(s, g);
      UsersDrop(s.uses, u, g);
    }
    ReleaseOwned(s, u, fd);
  }

  lemma ReleaseOwned(s: State, u: nat, fd: nat)
    requires Owned(s) && fd < |s.slots|
    ensures Owned(Release(s, u, fd))
  {
    var s' := Release(s, u, fd);
    var was := s.slots[fd].conn;
    forall c ensures Live(s', c) <==> Live(s, c) && was != Conn(c) {
      if Live(s, c) && was != Conn(c) {
        var g :| 0 <= g < |s.slots| && s.slots[g].conn == Conn(c);
        assert s'.slots[g].conn == Conn(c);
      }
      if Live(s', c) {
        var g :| 0 <= g < |s'.slots| && s'.slots[g].conn == Conn(c);
        assert g != fd && s.slots[g].conn == Conn(c);
      }
    }
    if was.Conn? {
      assert s.slots[fd].conn == Conn(was.id) && Live(s, was.id);
      assert s'.freed == s.freed + [was.id];
    }
  }

  lemma DoneKeeps(s: State, u: nat)
    requires Inv(s)
    ensures Inv(Done(s, u))
  {
    hide Used, Owned, Release;
    if Done(s, u) != s {
      var slot := s.slots[s.uses[u]];
      if slot.used == 1 && slot.pending {
        ReleaseKeeps(s, u);
      } else {
        UsedConn(s, s.uses[u]);
        DropKeeps(s, u, slot.pending);
      }
    }
  }

  lemma UsedConn(s: State, fd: nat)
    requires Used(s) && fd < |s.slots|
    ensures s.slots[fd].pending ==> (s.slots[fd].used > 0 <==> s.slots[fd].conn != NoConn)
  {
  }

  lemma FreeKeeps(s: State, u: nat)
    requires Inv(s)
    ensures Inv(Free(s, u))
  {
    hide Used, Owned, Release;
    if Free(s, u) != s {
      if s.slots[s.uses[u]].used > 1 {
        DropKeeps(s, u, true);
      } else {
        ReleaseKeeps(s, u);
      }
    }
  }

  // --- Runs ----------------------------------------------------------------------------------

  datatype Step = Allocs(u: nat, fd: nat, c: nat) | Gets(u: nat, fd: nat) | IsDone(u: nat) | Frees(u: nat)

  function Apply(s: State, a: Step): State {
    match a
    case Allocs(u, fd, c) => Alloc(s, u, fd, c)
    case Gets(u, fd) => Get(s, u, fd)
    case IsDone(u) => Done(s, u)
    case Frees(u) => Free(s, u)
  }

  function Exec(s: State, run: seq<Step>): State
    decreases |run|
  {
    if run == [] then s else Exec(Apply(s, run[0]), run[1..])
  }

  function Init(n: nat): State {
    State(seq(n, i => Slot(NoConn, 0, false)), map[], {}, [])
  }

  lemma InitInv(n: nat)
    ensures Inv(Init(n))
  {
  }

  lemma StepKeepsIff(s: State, a: Step)
    requires Inv(s)
    ensures Inv(Apply(s, a)) <==> !WrapsNow(s, a)
  {
    hide Used, Owned, Alloc, Get, Done, Free;
    match a
    case Allocs(u, fd, c) =>
      AllocUsed(s, u, fd, c);
      AllocOwned(s, u, fd, c);
    case Gets(u, fd) => GetKeepsIff(s, u, fd);
    case IsDone(u) => DoneKeeps(s, u);
    case Frees(u) => FreeKeeps(s, u);
  }

  /** Somewhere in the run a use is not counted for lack of bits. */
  predicate Wraps(s: State, run: seq<Step>)
    decreases |run|
  {
    run != [] && (WrapsNow(s, run[0]) || Wraps(Apply(s, run[0]), run[1..]))
  }

  /** The invariant holds at the start and after every step. */
  ghost predicate Throughout(s: State, run: seq<Step>)
    decreases |run|
  {
    Inv(s) && (run != [] ==> Throughout(Apply(s, run[0]), run[1..]))
  }

  lemma {:induction false} RunKeepsIff(s: State, run: seq<Step>)
    requires Inv(s)
    ensures Throughout(s, run) <==> !Wraps(s, run)
    ensures !Wraps(s, run) ==> Inv(Exec(s, run))
    decreases |run|
  {
    hide Inv, Apply, WrapsNow;
    if run != [] {
      StepKeepsIff(s, run[0]);
      if !WrapsNow(s, run[0]) {
        RunKeepsIff(Apply(s, run[0]), run[1..]);
      }
    }
  }

  const USES := 255

  lemma UsersFew(s: State, u: nat, fd: nat)
    requires (forall v | v in s.uses :: v < USES) && u < USES && u !in s.uses
    ensures |Users(s.uses, fd)| < USES
  {
    AtMost(Users(s.uses, fd) + {u}, USES);
    assert |Users(s.uses, fd) + {u}| == |Users(s.uses, fd)| + 1;
  }

  lemma {:induction false} AtMost(t: set<nat>, n: nat)
    requires forall v | v in t :: v < n
    ensures |t| <= n
  {
    if n > 0 {
      AtMost(t - {n - 1}, n - 1);
      assert n - 1 in t ==> t == (t - {n - 1}) + {n - 1};
      assert n - 1 !in t ==> t == t - {n - 1};
    } else {
      assert t == {};
    }
  }

  /** With at most 255 uses at a time every use is counted; a thread in select has two. */
  lemma {:induction false} FewUses(s: State, run: seq<Step>)
    requires Inv(s) && (forall v | v in s.uses :: v < USES) && forall a | a in run :: a.u < USES
    ensures !Wraps(s, run)
    decreases |run|
  {
    hide Users, Owned;
    if run != [] {
      assert run[0] in run;
      var a := run[0];
      if a.Gets? && a.u !in s.uses && a.fd < |s.slots| {
        UsersFew(s, a.u, a.fd);
        UsedOf(s, a.fd);
      }
      StepKeepsIff(s, a);
      assert forall b | b in run[1..] :: b in run;
      FewUses(Apply(s, a), run[1..]);
    }
  }

  /** The step ends the use `u`. */
  predicate Ends(a: Step, u: nat) {
    a == IsDone(u) || a == Frees(u)
  }

  lemma HeldStep(s: State, a: Step, u: nat)
    requires Inv(s) && u in s.uses && !Ends(a, u)
    ensures var s' := Apply(s, a);
            u in s'.uses && s'.uses[u] == s.uses[u] < |s'.slots| && s'.slots[s.uses[u]].conn == s.slots[s.uses[u]].conn
  {
    hide Owned;
    var fd := s.uses[u];
    UsedOf(s, fd);
    assert u in Users(s.uses, fd);
    if (a.IsDone? || a.Frees?) && a.u in s.uses && s.uses[a.u] == fd {
      assert {u, a.u} <= Users(s.uses, fd);
      TwoUsers(Users(s.uses, fd), u, a.u);
    }
  }

  lemma TwoUsers(users: set<nat>, u: nat, v: nat)
    requires u in users && v in users && u != v
    ensures |users| >= 2
  {
    assert users == (users - {u, v}) + {u, v};
  }

  /** From getting hold of a descriptor to letting it go, whatever other threads do, the
      connection behind it stays the same and is not deleted. */
  lemma {:induction false} HeldConnIsStable(s: State, run: seq<Step>, u: nat)
    requires Inv(s) && u in s.uses && !Wraps(s, run) && forall a | a in run :: !Ends(a, u)
    ensures var s' := Exec(s, run);
            && u in s'.uses && s'.uses[u] == s.uses[u] < |s'.slots| && s.uses[u] < |s.slots|
            && s'.slots[s.uses[u]].conn == s.slots[s.uses[u]].conn
            && (s.slots[s.uses[u]].conn.Conn? ==> s.slots[s.uses[u]].conn.id !in s'.freed)
    decreases |run|
  {
    hide Apply, Ends, WrapsNow;
    if run == [] {
      if s.slots[s.uses[u]].conn.Conn? {
        assert Live(s, s.slots[s.uses[u]].conn.id);
      }
    } else {
      assert run[0] in run;
      HeldStep(s, run[0], u);
      StepKeepsIff(s, run[0]);
      assert forall a | a in run[1..] :: a in run;
      HeldConnIsStable(Apply(s, run[0]), run[1..], u);
    }
  }

  /** In any run: fd_used counts the uses, a descriptor given out is not given out again, no
      connection is deleted twice, and none is lost: it has a descriptor or was deleted.  A
      descriptor that was closed and is not used any more has no connection left. */
  lemma RunIsSafe(n: nat, run: seq<Step>)
    requires !Wraps(Init(n), run)
    ensures var s := Exec(Init(n), run);
            && Inv(s)
            && (forall fd | 0 <= fd < |s.slots| && s.slots[fd].pending && Users(s.uses, fd) == {} ::
                s.slots[fd].conn == NoConn)
  {
    hide Exec, Init, Owned, Users;
    InitInv(n);
    RunKeepsIff(Init(n), run);
    var s := Exec(Init(n), run);
    forall fd | 0 <= fd < |s.slots| && s.slots[fd].pending && Users(s.uses, fd) == {}
      ensures s.slots[fd].conn == NoConn
    {
      UsedOf(s, fd);
    }
  }

  /** sock_inc_used_locked asserts that a descriptor that is to be freed is in use.  That holds if
      and only if the descriptor still has its connection. */
  lemma PendingAssertion(n: nat, run: seq<Step>, fd: nat)
    requires !Wraps(Init(n), run) && var s := Exec(Init(n), run); fd < |s.slots| && s.slots[fd].pending
    ensures var s := Exec(Init(n), run); s.slots[fd].used > 0 <==> s.slots[fd].conn != NoConn
  {
    hide Exec, Init, Used, Owned;
    InitInv(n);
    RunKeepsIff(Init(n), run);
    UsedConn(Exec(Init(n), run), fd);
  }

  /** And it does fail: closed while another thread uses it, then looked up again. */
  lemma PendingAssertionFails()
    ensures var s := Exec(Init(1), [Allocs(0, 0, 7), Gets(1, 0), Frees(0), IsDone(1)]);
            |s.slots| == 1 && s.slots[0].pending && s.slots[0].used == 0
  {
  }

  lemma {:induction false} ExecSnoc(s: State, run: seq<Step>, a: Step)
    ensures Exec(s, run + [a]) == Apply(Exec(s, run), a)
    decreases |run|
  {
    hide Apply;
    if run == [] {
      assert [a][1..] == [] && run + [a] == [a];
      assert Exec(Apply(s, a), []) == Apply(s, a);
    } else {
      assert (run + [a])[1..] == run[1..] + [a];
      ExecSnoc(Apply(s, run[0]), run[1..], a);
    }
  }

  /** `k` threads use the same descriptor at once. */
  lemma {:induction false} ManyUses(k: nat) returns (run: seq<Step>)
    requires 1 <= k <= U8
    ensures var s := Exec(Init(1), run);
            && s.slots == [Slot(Conn(7), k % U8, false)] && forall u :: u in s.uses <==> 0 <= u < k
  {
    if k == 1 {
      run := [Allocs(0, 0, 7)];
      assert run[1..] == [] && [] + run == run;
      ExecSnoc(Init(1), [], Allocs(0, 0, 7));
    } else {
      run := ManyUses(k - 1);
      ExecSnoc(Init(1), run, Gets(k - 1, 0));
      run := run + [Gets(k - 1, 0)];
    }
  }

  /** With the 256th use the count is zero, as if nobody used the descriptor. */
  lemma WrapExample() returns (run: seq<Step>)
    ensures var s := Exec(Init(1), run); |s.slots| == 1 && s.slots[0].used == 0 && 0 in s.uses && 255 in s.uses
  {
    run := ManyUses(U8);
  }
}
