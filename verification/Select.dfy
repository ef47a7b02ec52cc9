/** How select is woken: threads in lwip_select, events on sockets and the walks through the list
    of waiting threads, without core locking.  Every step is one protected region
    (src/api/sockets.c). */
module Select {
  /** struct lwip_sock; `open` is false once the descriptor is no longer valid, `leftover` says
      that lastdata is set, `waiting` is select_waiting. */
  datatype Sock = Sock(open: bool, rcv: int, send: bool, err: bool, leftover: bool, waiting: nat)

  datatype Cond = Reading | Writing | Except

  /** The arguments of select: descriptors below `limit` in the three sets. */
  datatype Watch = Watch(limit: nat, read: set<nat>, write: set<nat>, except: set<nat>)

  /** Where a thread is in lwip_select, after a first scan that found nothing ready. */
  datatype Pc =
    | Linking
    | Counting(k: nat)            // select_waiting++ for descriptor k next
    | Scanning(k: nat)            // second scan, descriptor k next
    | Blocked
    | Leaving(k: nat, upto: nat)  // select_waiting-- for descriptor k next
    | Unlinking
    | Draining
    | Gone

  /** `signalled` is sem_signalled, `sem` the count of the semaphore, `taken` says that the wait
      was successful. */
  datatype Thread = Thread(watch: Watch, pc: Pc, found: bool, signalled: bool, sem: nat, taken: bool)

  /** A run of select_check_waiters for one event on `fd`; it has looked at the entry `at` when
      the generation counter was `last`, or has not begun. */
  datatype Walker = Walker(fd: nat, flags: set<Cond>, place: Place)
  datatype Place = Begin | After(at: nat, last: nat)

  datatype State = State(socks: seq<Sock>, threads: map<nat, Thread>, list: seq<nat>, ctr: nat,
                         walkers: map<nat, Walker>)

  datatype Event = RcvPlus | RcvMinus | SendPlus | SendMinus | Error

  predicate Ready(sock: Sock, c: Cond) {
    match c
    case Reading => sock.rcv > 0
    case Writing => sock.send
    case Except => sock.err
  }

  predicate Watches(w: Watch, c: Cond, f: nat) {
    f < w.limit && match c
                   case Reading => f in w.read
                   case Writing => f in w.write
                   case Except => f in w.except
  }

  predicate Wants(w: Watch, f: nat) {
    f < w.limit && (f in w.read || f in w.write || f in w.except)
  }

  /** What lwip_selscan reports for one descriptor. */
  predicate ScanFinds(w: Watch, f: nat, sock: Sock) {
    || (Watches(w, Reading, f) && (sock.leftover || sock.rcv > 0))
    || (Watches(w, Writing, f) && sock.send)
    || (Watches(w, Except, f) && sock.err)
  }

  predicate Linked(pc: Pc) {
    pc.Counting? || pc.Scanning? || pc.Blocked? || pc.Leaving? || pc.Unlinking?
  }

  /** The thread has incremented select_waiting of `f` and not decremented it yet. */
  predicate Counts(t: Thread, f: nat) {
    Wants(t.watch, f) && match t.pc
                         case Counting(k) => f < k
                         case Scanning(_) => true
                         case Blocked => true
                         case Leaving(k, upto) => k <= f < upto
                         case _ => false
  }

  // --- Steps of a thread in lwip_select ------------------------------------------------------

  function SetThread(s: State, i: nat, t: Thread): State {
    s.(threads := s.threads[i := t])
  }

  function Start(s: State, i: nat, w: Watch): State {
    if i in s.threads || w.limit > |s.socks| then s
    else SetThread(s, i, Thread(w, Linking, false, false, 0, false))
  }

  /** lwip_link_select_cb */
  function Link(s: State, i: nat): State {
    if i in s.threads && s.threads[i].pc == Linking
    then SetThread(s, i, s.threads[i].(pc := Counting(0))).(list := [i] + s.list, ctr := s.ctr + 1)
    else s
  }

  function Count(s: State, i: nat): State {
    if i !in s.threads || !s.threads[i].pc.Counting? then s
    else
      var t := s.threads[i];
      var k := t.pc.k;
      if k >= t.watch.limit || k >= |s.socks| then SetThread(s, i, t.(pc := Scanning(0)))
      else if !Wants(t.watch, k) then SetThread(s, i, t.(pc := Counting(k + 1)))
      else if !s.socks[k].open || s.socks[k].waiting == 0xff
      then SetThread(s, i, t.(pc := Leaving(0, k)))
      else
        var sock := s.socks[k].(waiting := s.socks[k].waiting + 1);
        SetThread(s, i, t.(pc := Counting(k + 1))).(socks := s.socks[k := sock])
  }

  function Scan(s: State, i: nat): State {
    if i !in s.threads || !s.threads[i].pc.Scanning? then s
    else
      var t := s.threads[i];
      var k := t.pc.k;
      if k >= t.watch.limit || k >= |s.socks|
      then SetThread(s, i, t.(pc := if t.found then Leaving(0, t.watch.limit) else Blocked))
      else if !Wants(t.watch, k) then SetThread(s, i, t.(pc := Scanning(k + 1)))
      else if !s.socks[k].open then SetThread(s, i, t.(pc := Leaving(0, t.watch.limit)))
      else SetThread(s, i, t.(pc := Scanning(k + 1), found := t.found || ScanFinds(t.watch, k, s.socks[k])))
  }

  /** sys_arch_sem_wait returns: the semaphore was signalled, or it timed out. */
  function Wake(s: State, i: nat, timeout: bool): State {
    if i !in s.threads || s.threads[i].pc != Blocked || (!timeout && s.threads[i].sem == 0) then s
    else
      var t := s.threads[i];
      if timeout then SetThread(s, i, t.(pc := Leaving(0, t.watch.limit)))
      else SetThread(s, i, t.(pc := Leaving(0, t.watch.limit), sem := t.sem - 1, taken := true))
  }

  function Leave(s: State, i: nat): State {
    if i !in s.threads || !s.threads[i].pc.Leaving? then s
    else
      var t := s.threads[i];
      var k, upto := t.pc.k, t.pc.upto;
      if k >= upto || k >= |s.socks| then SetThread(s, i, t.(pc := Unlinking))
      else if !Wants(t.watch, k) || !s.socks[k].open then SetThread(s, i, t.(pc := Leaving(k + 1, upto)))
      else
        var n := s.socks[k].waiting;
        var sock := s.socks[k].(waiting := if n > 0 then n - 1 else 0);
        SetThread(s, i, t.(pc := Leaving(k + 1, upto))).(socks := s.socks[k := sock])
  }

  function Without(q: seq<nat>, x: nat): seq<nat> {
    if q == [] then [] else if q[0] == x then q[1..] else [q[0]] + Without(q[1..], x)
  }

  /** lwip_unlink_select_cb */
  function Unlink(s: State, i: nat): State {
    if i in s.threads && s.threads[i].pc == Unlinking
    then SetThread(s, i, s.threads[i].(pc := Draining)).(list := Without(s.list, i), ctr := s.ctr + 1)
    else s
  }

  /** The thread's own semaphore must not stay signalled. */
  function Drain(s: State, i: nat): State {
    if i in s.threads && s.threads[i].pc == Draining
    then
      var t := s.threads[i];
      SetThread(s, i, t.(pc := Gone, sem := if t.signalled && !t.taken && t.sem > 0 then t.sem - 1 else t.sem))
    else s
  }

  // --- Events and walks ----------------------------------------------------------------------

  /** The new state of the socket, and whether waiting threads have to be looked at. */
  function OnEvent(sock: Sock, e: Event): (Sock, bool) {
    match e
    case RcvPlus => (sock.(rcv := sock.rcv + 1), sock.rcv + 1 <= 1)
    case RcvMinus => (sock.(rcv := sock.rcv - 1), false)
    case SendPlus => (sock.(send := true), !sock.send)
    case SendMinus => (sock.(send := false), false)
    case Error => (sock.(err := true), true)
  }

  function Flags(sock: Sock): set<Cond> {
    (if Ready(sock, Reading) then {Reading} else {}) +
    (if Ready(sock, Writing) then {Writing} else {}) +
    (if Ready(sock, Except) then {Except} else {})
  }

  /** event_callback, up to the start of the walk. */
  function Happen(s: State, f: nat, e: Event, w: nat): State {
    if f >= |s.socks| || !s.socks[f].open || w in s.walkers then s
    else
      var (sock, check) := OnEvent(s.socks[f], e);
      var s' := s.(socks := s.socks[f := sock]);
      if sock.waiting > 0 && check then s'.(walkers := s.walkers[w := Walker(f, Flags(sock), Begin)]) else s'
  }

  /** The test that select_check_waiters makes for one entry. */
  function Signal(t: Thread, f: nat, flags: set<Cond>): Thread {
    if !t.signalled && (exists c | c in flags :: Watches(t.watch, c, f))
    then t.(signalled := true, sem := t.sem + 1) else t
  }

  function Successor(q: seq<nat>, x: nat): seq<nat> {
    if q == [] then [] else if q[0] == x then q[1..] else Successor(q[1..], x)
  }

  /** The entries that the walk has still to look at. */
  function Rest(s: State, w: Walker): seq<nat> {
    if w.place.Begin? || w.place.last != s.ctr then s.list else Successor(s.list, w.place.at)
  }

  /** One round of the walk: back to the head of the list if the list has changed, otherwise on
      to the next entry. */
  function Walk(s: State, w: nat): State {
    if w !in s.walkers then s
    else
      var rest := Rest(s, s.walkers[w]);
      if rest == [] then s.(walkers := map x | x in s.walkers && x != w :: s.walkers[x])
      else if rest[0] !in s.threads then s
      else
        var i, walker := rest[0], s.walkers[w];
        s.(threads := s.threads[i := Signal(s.threads[i], walker.fd, walker.flags)],
           walkers := s.walkers[w := walker.(place := After(i, s.ctr))])
  }

  function Close(s: State, f: nat): State {
    if f < |s.socks| then s.(socks := s.socks[f := s.socks[f].(open := false)]) else s
  }

  /** A thread that reads from the socket keeps the rest of what it received, or uses it up. */
  function Keep(s: State, f: nat, leftover: bool): State {
    if f < |s.socks| then s.(socks := s.socks[f := s.socks[f].(leftover := leftover)]) else s
  }

  // --- The invariant -------------------------------------------------------------------------

  ghost predicate Distinct(q: seq<nat>) {
    forall i, j | 0 <= i < j < |q| :: q[i] != q[j]
  }

  /** The list holds exactly the linked threads. */
  ghost predicate Listed(s: State) {
    Distinct(s.list) && forall i :: i in s.list <==> i in s.threads && Linked(s.threads[i].pc)
  }

  ghost function Counters(threads: map<nat, Thread>, f: nat): set<nat> {
    set i | i in threads && Counts(threads[i], f)
  }

  /** select_waiting is the number of threads that have counted themselves in; a socket that was
      closed meanwhile may have kept some more. */
  ghost predicate CountOk(threads: map<nat, Thread>, sock: Sock, f: nat) {
    |Counters(threads, f)| <= sock.waiting <= 0xff && (sock.open ==> sock.waiting == |Counters(threads, f)|)
  }

  ghost predicate AllCounted(threads: map<nat, Thread>, socks: seq<Sock>) {
    forall f | 0 <= f < |socks| :: CountOk(threads, socks[f], f)
  }

  ghost predicate Counted(s: State) {
    AllCounted(s.threads, s.socks)
  }

  ghost predicate Limits(s: State) {
    forall i | i in s.threads ::
      s.threads[i].watch.limit <= |s.socks| &&
      (s.threads[i].pc.Leaving? ==> s.threads[i].pc.upto <= s.threads[i].watch.limit)
  }

  /** A walk that will not restart stands at a linked entry. */
  ghost predicate Walks(s: State) {
    forall w | w in s.walkers && s.walkers[w].place.After? ::
      s.walkers[w].place.last <= s.ctr && (s.walkers[w].place.last == s.ctr ==> s.walkers[w].place.at in s.list)
  }

  /** The semaphore is signalled at most once, and taken again before select returns. */
  ghost predicate SemOk(t: Thread) {
    && t.sem == (if t.signalled && !t.taken && t.pc != Gone then 1 else 0)
    && (t.taken ==> t.signalled && (t.pc.Leaving? || t.pc.Unlinking? || t.pc.Draining? || t.pc.Gone?))
  }

  ghost predicate Semaphores(s: State) {
    forall i | i in s.threads :: SemOk(s.threads[i])
  }

  /** The second scan has passed `f` without result. */
  predicate Scanned(t: Thread, f: nat) {
    t.pc.Blocked? || (t.pc.Scanning? && f < t.pc.k && !t.found)
  }

  /** The thread waits for something that has happened. */
  ghost predicate Owed(s: State, i: nat, f: nat, c: Cond) {
    && i in s.threads && f < |s.socks| && Scanned(s.threads[i], f) && !s.threads[i].signalled
    && Watches(s.threads[i].watch, c, f) && Ready(s.socks[f], c)
  }

  /** Some walk for it has still to come to the thread. */
  ghost predicate Covered(s: State, i: nat, f: nat, c: Cond) {
    exists w :: w in s.walkers && Reaches(s, w, i, f, c)
  }

  ghost predicate Reaches(s: State, w: nat, i: nat, f: nat, c: Cond)
    requires w in s.walkers
  {
    s.walkers[w].fd == f && c in s.walkers[w].flags && i in Rest(s, s.walkers[w])
  }

  ghost predicate NoLost(s: State) {
    forall i, f, c :: Owed(s, i, f, c) ==> Covered(s, i, f, c)
  }

  ghost predicate Inv(s: State) {
    Listed(s) && Counted(s) && Limits(s) && Walks(s) && Semaphores(s) && NoLost(s)
  }

  // --- Lists ---------------------------------------------------------------------------------

  lemma {:induction false} SuccessorAt(q: seq<nat>, k: nat)
    requires Distinct(q) && k < |q|
    ensures Successor(q, q[k]) == q[k + 1..]
  {
    if k > 0 {
      assert q[0] != q[k];
      SuccessorAt(q[1..], k - 1);
      assert q[1..][k - 1] == q[k] && q[1..][k..] == q[k + 1..];
    }
  }

  lemma {:induction false} WithoutIs(q: seq<nat>, x: nat)
    requires Distinct(q)
    ensures Distinct(Without(q, x)) && forall y :: y in Without(q, x) <==> y in q && y != x
  {
    if q != [] {
      assert Distinct(q[1..]) && q == [q[0]] + q[1..];
      WithoutIs(q[1..], x);
      assert q[0] !in q[1..];
      assert forall y :: y in q <==> y == q[0] || y in q[1..];
      if q[0] != x {
        DistinctCons(q[0], Without(q[1..], x));
      }
    }
  }

  lemma DistinctCons(x: nat, q: seq<nat>)
    requires Distinct(q) && x !in q
    ensures Distinct([x] + q)
  {
  }

  /** What is left of a walk is the end of the list. */
  lemma RestIsSuffix(s: State, w: nat) returns (k: nat)
    requires Listed(s) && Walks(s) && w in s.walkers
    ensures k <= |s.list| && Rest(s, s.walkers[w]) == s.list[k..]
  {
    var p := s.walkers[w].place;
    if p.Begin? || p.last != s.ctr {
      k := 0;
    } else {
      var j :| 0 <= j < |s.list| && s.list[j] == p.at;
      SuccessorAt(s.list, j);
      k := j + 1;
    }
  }

  /** The entry that a walk turns to next is still in the list, so its thread is still inside
      lwip_select and its entry exists. */
  lemma WalkStaysOnList(s: State, w: nat)
    requires Listed(s) && Walks(s) && w in s.walkers && Rest(s, s.walkers[w]) != []
    ensures Rest(s, s.walkers[w])[0] in s.list && Rest(s, s.walkers[w])[0] in s.threads
    ensures Linked(s.threads[Rest(s, s.walkers[w])[0]].pc)
  {
    var k := RestIsSuffix(s, w);
    assert s.list[k..][0] == s.list[k];
  }

  // --- select_waiting ------------------------------------------------------------------------

  lemma CountersSame(threads: map<nat, Thread>, i: nat, t: Thread, f: nat)
    requires Counts(t, f) <==> i in threads && Counts(threads[i], f)
    ensures Counters(threads[i := t], f) == Counters(threads, f)
  {
  }

  lemma CountersAdd(threads: map<nat, Thread>, i: nat, t: Thread, f: nat)
    requires Counts(t, f) && i in threads && !Counts(threads[i], f)
    ensures |Counters(threads[i := t], f)| == |Counters(threads, f)| + 1
  {
    hide Counts;
    assert Counters(threads[i := t], f) == Counters(threads, f) + {i};
  }

  lemma CountersRemove(threads: map<nat, Thread>, i: nat, t: Thread, f: nat)
    requires !Counts(t, f) && i in threads && Counts(threads[i], f)
    ensures |Counters(threads[i := t], f)| + 1 == |Counters(threads, f)|
  {
    hide Counts;
    assert Counters(threads, f) == Counters(threads[i := t], f) + {i};
  }

  /** A step that changes one thread but none of what it counts. */
  lemma CountedSame(s: State, i: nat, t: Thread, socks: seq<Sock>)
    requires Counted(s) && |socks| == |s.socks|
    requires forall f | 0 <= f < |socks| ::
               socks[f].waiting == s.socks[f].waiting && (socks[f].open ==> s.socks[f].open)
    requires forall f | 0 <= f < |socks| :: (Counts(t, f) <==> i in s.threads && Counts(s.threads[i], f))
    ensures Counted(s.(threads := s.threads[i := t], socks := socks))
  {
    hide Counts, Counters;
    forall f | 0 <= f < |socks| ensures CountOk(s.threads[i := t], socks[f], f) {
      assert CountOk(s.threads, s.socks[f], f);
      CountersSame(s.threads, i, t, f);
    }
  }

  /** Counting in and out. */
  lemma CountedStep(s: State, i: nat, t: Thread, k: nat, n: int)
    requires Counted(s) && k < |s.socks| && i in s.threads && s.socks[k].open
    requires forall f | 0 <= f < |s.socks| && f != k :: (Counts(t, f) <==> Counts(s.threads[i], f))
    requires if n > 0 then Counts(t, k) && !Counts(s.threads[i], k) && s.socks[k].waiting < 0xff
             else !Counts(t, k) && Counts(s.threads[i], k)
    requires n == 1 || n == -1
    ensures s.socks[k].waiting + n >= 0
    ensures var sock := s.socks[k].(waiting := s.socks[k].waiting + n);
            Counted(s.(threads := s.threads[i := t], socks := s.socks[k := sock]))
  {
    hide Counts, Counters;
    assert CountOk(s.threads, s.socks[k], k);
    if n > 0 {
      CountersAdd(s.threads, i, t, k);
    } else {
      CountersRemove(s.threads, i, t, k);
    }
    var socks := s.socks[k := s.socks[k].(waiting := s.socks[k].waiting + n)];
    forall f | 0 <= f < |socks| ensures CountOk(s.threads[i := t], socks[f], f) {
      if f != k {
        assert CountOk(s.threads, s.socks[f], f);
        CountersSame(s.threads, i, t, f);
      }
    }
  }

  // --- Every step keeps the invariant --------------------------------------------------------

  ghost predicate SameReady(a: seq<Sock>, b: seq<Sock>) {
    |a| == |b| && forall f, c | 0 <= f < |a| :: Ready(a[f], c) == Ready(b[f], c)
  }

  lemma WaitingReady(socks: seq<Sock>, k: nat, n: nat)
    requires k < |socks|
    ensures SameReady(socks, socks[k := socks[k].(waiting := n)])
  {
  }

  lemma CountOf(s: State, f: nat)
    requires Counted(s) && f < |s.socks|
    ensures CountOk(s.threads, s.socks[f], f)
  {
  }

  /** A step of one thread that leaves the list alone: it may forget or finish waiting, or pass a
      descriptor that is not ready. */
  lemma ThreadStep(s: State, i: nat, t: Thread, socks: seq<Sock>)
    requires Listed(s) && Limits(s) && Walks(s) && Semaphores(s) && NoLost(s) && i in s.threads
    requires SameReady(s.socks, socks)
    requires t.watch == s.threads[i].watch && t.signalled == s.threads[i].signalled && SemOk(t)
    requires Linked(t.pc) == Linked(s.threads[i].pc) && (t.pc.Leaving? ==> t.pc.upto <= t.watch.limit)
    requires forall f, c | 0 <= f < |socks| && Scanned(t, f) && Watches(t.watch, c, f) && Ready(socks[f], c) ::
             Scanned(s.threads[i], f)
    ensures var s' := s.(threads := s.threads[i := t], socks := socks);
            Listed(s') && Limits(s') && Walks(s') && Semaphores(s') && NoLost(s')
  {
    hide Ready, Watches, Scanned, SemOk, Linked, Distinct;
    var s' := s.(threads := s.threads[i := t], socks := socks);
    forall j, f, c | Owed(s', j, f, c) ensures Covered(s', j, f, c) {
      assert Owed(s, j, f, c);
      var w :| w in s.walkers && Reaches(s, w, j, f, c);
      assert Reaches(s', w, j, f, c);
    }
  }

  lemma StartKeeps(s: State, i: nat, w: Watch)
    requires Inv(s)
    ensures Inv(Start(s, i, w))
  {
    hide Ready, Watches, Distinct, Counters;
    var s' := Start(s, i, w);
    if s' != s {
      CountedSame(s, i, s'.threads[i], s.socks);
      forall j, f, c | Owed(s', j, f, c) ensures Covered(s', j, f, c) {
        assert Owed(s, j, f, c);
        var x :| x in s.walkers && Reaches(s, x, j, f, c);
        assert Reaches(s', x, j, f, c);
      }
    }
  }

  /** After a change of the list every walk starts again, so it comes to every linked thread. */
  lemma RestartCovers(s: State, s': State)
    requires NoLost(s) && Walks(s) && s'.ctr == s.ctr + 1 && s'.walkers == s.walkers && s'.socks == s.socks
    requires forall i, f | i in s'.threads && Scanned(s'.threads[i], f) ::
             i in s.threads && s'.threads[i] == s.threads[i] && i in s'.list
    ensures Walks(s') && NoLost(s')
  {
    hide Ready, Watches, Scanned;
    forall j, f, c | Owed(s', j, f, c) ensures Covered(s', j, f, c) {
      assert Owed(s, j, f, c);
      var w :| w in s.walkers && Reaches(s, w, j, f, c);
      assert Rest(s', s'.walkers[w]) == s'.list;
      assert Reaches(s', w, j, f, c);
    }
  }

  lemma LinkKeeps(s: State, i: nat)
    requires Inv(s)
    ensures Inv(Link(s, i))
  {
    hide Ready, Watches, NoLost, Counters, Walks;
    var s' := Link(s, i);
    if s' != s {
      CountedSame(s, i, s'.threads[i], s.socks);
      assert Counted(s') by { assert s'.socks == s.socks; }
      DistinctCons(i, s.list);
      assert Listed(s');
      RestartCovers(s, s');
    }
  }

  lemma UnlinkKeeps(s: State, i: nat)
    requires Inv(s)
    ensures Inv(Unlink(s, i))
  {
    hide Ready, Watches, NoLost, Counters, Walks;
    var s' := Unlink(s, i);
    if s' != s {
      CountedSame(s, i, s'.threads[i], s.socks);
      assert Counted(s') by { assert s'.socks == s.socks; }
      WithoutIs(s.list, i);
      assert Listed(s');
      RestartCovers(s, s');
    }
  }

  /** The thread counts itself in at the socket `k`. */
  lemma CountInKeeps(s: State, i: nat, k: nat)
    requires Inv(s) && i in s.threads && s.threads[i].pc == Counting(k)
    requires k < |s.socks| && Wants(s.threads[i].watch, k) && s.socks[k].open && s.socks[k].waiting < 0xff
    ensures Inv(s.(threads := s.threads[i := s.threads[i].(pc := Counting(k + 1))],
                   socks := s.socks[k := s.socks[k].(waiting := s.socks[k].waiting + 1)]))
  {
    hide Ready, SameReady, Watches, Listed, Walks, NoLost, Semaphores, Counted, CountOk, Wants;
    var t := s.threads[i].(pc := Counting(k + 1));
    SemOf(s, i);
    WaitingReady(s.socks, k, s.socks[k].waiting + 1);
    CountedStep(s, i, t, k, 1);
    ThreadStep(s, i, t, s.socks[k := s.socks[k].(waiting := s.socks[k].waiting + 1)]);
  }

  /** The thread goes on without counting itself in. */
  lemma CountPastKeeps(s: State, i: nat, k: nat, pc: Pc)
    requires Inv(s) && i in s.threads && s.threads[i].pc == Counting(k)
    requires if k >= s.threads[i].watch.limit || k >= |s.socks| then pc == Scanning(0)
             else pc == Leaving(0, k) || (pc == Counting(k + 1) && !Wants(s.threads[i].watch, k))
    ensures Inv(SetThread(s, i, s.threads[i].(pc := pc)))
  {
    hide Ready, SameReady, Watches, Listed, Walks, NoLost, Semaphores, Counted, CountOk;
    var t := s.threads[i].(pc := pc);
    SemOf(s, i);
    SameSocks(s.socks);
    CountedSame(s, i, t, s.socks);
    ThreadStep(s, i, t, s.socks);
  }

  lemma CountKeeps(s: State, i: nat)
    requires Inv(s)
    ensures Inv(Count(s, i))
  {
    hide Ready, SameReady, Watches, Listed, Walks, NoLost, Semaphores, Counted, CountOk, Wants, Limits;
    var s' := Count(s, i);
    if s' != s {
      var k := s.threads[i].pc.k;
      if s'.socks != s.socks {
        CountBelow(s, k);
        CountInKeeps(s, i, k);
      } else {
        CountPastKeeps(s, i, k, s'.threads[i].pc);
      }
    }
  }

  lemma SameSocks(socks: seq<Sock>)
    ensures SameReady(socks, socks)
  {
  }

  lemma CountBelow(s: State, k: nat)
    requires Counted(s) && k < |s.socks|
    ensures s.socks[k].waiting <= 0xff
  {
  }

  lemma SemOf(s: State, i: nat)
    requires Semaphores(s) && i in s.threads
    ensures SemOk(s.threads[i])
  {
  }

  /** The scan passes only descriptors on which nothing has happened. */
  lemma ScanPasses(s: State, i: nat, f: nat, c: Cond)
    requires Scan(s, i) != s && f < |s.socks| && Scanned(Scan(s, i).threads[i], f)
    requires s.threads[i].watch.limit <= |s.socks|
    requires Watches(s.threads[i].watch, c, f) && Ready(s.socks[f], c)
    ensures Scanned(s.threads[i], f)
  {
  }

  lemma ScanCounts(s: State, i: nat, f: nat)
    requires Scan(s, i) != s
    ensures var t, t' := s.threads[i], Scan(s, i).threads[i];
            && t'.watch == t.watch && t'.signalled == t.signalled && t'.sem == t.sem && t'.taken == t.taken
            && Linked(t.pc) && Linked(t'.pc) && (Counts(t', f) <==> Counts(t, f))
            && (t'.pc.Leaving? ==> t'.pc.upto == t.watch.limit)
  {
    hide ScanFinds;
  }

  lemma ScanKeeps(s: State, i: nat)
    requires Inv(s)
    ensures Inv(Scan(s, i))
  {
    hide Listed, Walks, NoLost, Semaphores, Counted, Ready, Watches, Scanned, SameReady, ScanFinds, Counts, Linked;
    var s' := Scan(s, i);
    if s' != s {
      var t := s'.threads[i];
      SemOf(s, i);
      SameSocks(s.socks);
      forall f | 0 <= f < |s.socks| ensures Counts(t, f) <==> Counts(s.threads[i], f) {
        ScanCounts(s, i, f);
      }
      ScanCounts(s, i, 0);
      forall f, c | 0 <= f < |s.socks| && Scanned(t, f) && Watches(t.watch, c, f) && Ready(s.socks[f], c)
        ensures Scanned(s.threads[i], f)
      {
        ScanPasses(s, i, f, c);
      }
      ThreadStep(s, i, t, s.socks);
      CountedSame(s, i, t, s.socks);
    }
  }

  lemma WakeKeeps(s: State, i: nat, timeout: bool)
    requires Inv(s)
    ensures Inv(Wake(s, i, timeout))
  {
    hide Ready, Listed, Walks, NoLost, Semaphores, Counted;
    var s' := Wake(s, i, timeout);
    if s' != s {
      SemOf(s, i);
      ThreadStep(s, i, s'.threads[i], s.socks);
      CountedSame(s, i, s'.threads[i], s.socks);
    }
  }

  lemma LeaveKeeps(s: State, i: nat)
    requires Inv(s)
    ensures Inv(Leave(s, i))
  {
    hide Ready, SameReady, Watches, Listed, Walks, NoLost, Semaphores, Counted;
    var s' := Leave(s, i);
    if s' != s {
      var t, t' := s.threads[i], s'.threads[i];
      SemOf(s, i);
      SameSocks(s.socks);
      assert SameReady(s.socks, s'.socks) by {
        if s'.socks != s.socks { WaitingReady(s.socks, t.pc.k, s'.socks[t.pc.k].waiting); }
      }
      ThreadStep(s, i, t', s'.socks);
      if t.pc.k < t.pc.upto && Wants(t.watch, t.pc.k) && s.socks[t.pc.k].open {
        CountedStep(s, i, t', t.pc.k, -1);
      } else {
        CountedClosed(s, i, t', t.pc.k);
      }
    }
  }

  /** A closed socket keeps its count when a thread leaves. */
  lemma CountedClosed(s: State, i: nat, t: Thread, k: nat)
    requires Counted(s) && i in s.threads
    requires forall f | 0 <= f < |s.socks| && f != k :: (Counts(t, f) <==> Counts(s.threads[i], f))
    requires k < |s.socks| ==> (Counts(t, k) <==> Counts(s.threads[i], k)) || (!s.socks[k].open && !Counts(t, k))
    ensures Counted(s.(threads := s.threads[i := t]))
  {
    hide Counts, Counters;
    forall f | 0 <= f < |s.socks| ensures CountOk(s.threads[i := t], s.socks[f], f) {
      assert CountOk(s.threads, s.socks[f], f);
      if Counts(t, f) <==> Counts(s.threads[i], f) {
        CountersSame(s.threads, i, t, f);
      } else {
        CountersRemove(s.threads, i, t, f);
      }
    }
  }

  lemma DrainKeeps(s: State, i: nat)
    requires Inv(s)
    ensures Inv(Drain(s, i))
  {
    hide Ready, Listed, Walks, NoLost, Semaphores, Counted;
    var s' := Drain(s, i);
    if s' != s {
      SemOf(s, i);
      ThreadStep(s, i, s'.threads[i], s.socks);
      CountedSame(s, i, s'.threads[i], s.socks);
    }
  }

  lemma FlagsAre(sock: Sock, c: Cond)
    ensures c in Flags(sock) <==> Ready(sock, c)
  {
  }

  /** Whenever a condition begins to hold, the waiting threads are looked at. */
  lemma EventChecks(sock: Sock, e: Event, c: Cond)
    requires !Ready(sock, c) && Ready(OnEvent(sock, e).0, c)
    ensures OnEvent(sock, e).1
  {
  }

  lemma ScannedCounts(s: State, i: nat, f: nat, c: Cond)
    requires Counted(s) && Listed(s) && i in s.threads && f < |s.socks|
    requires Scanned(s.threads[i], f) && Watches(s.threads[i].watch, c, f)
    ensures s.socks[f].waiting > 0 && i in s.list
  {
    CountOf(s, f);
    assert i in Counters(s.threads, f);
  }

  lemma HappenKeeps(s: State, f: nat, e: Event, w: nat)
    requires Inv(s)
    ensures Inv(Happen(s, f, e, w))
  {
    hide Ready, Watches, Scanned, Counts, Counters, Flags, Linked, SemOk, Distinct;
    var s' := Happen(s, f, e, w);
    if s' != s {
      forall g | 0 <= g < |s'.socks| ensures CountOk(s'.threads, s'.socks[g], g) { CountOf(s, g); }
      forall j, g: nat, c | Owed(s', j, g, c) ensures Covered(s', j, g, c) {
        if Ready(s.socks[g], c) {
          assert Owed(s, j, g, c);
          var x :| x in s.walkers && Reaches(s, x, j, g, c);
          assert Reaches(s', x, j, g, c);
        } else {
          EventChecks(s.socks[f], e, c);
          ScannedCounts(s, j, g, c);
          FlagsAre(s'.socks[f], c);
          assert Reaches(s', w, j, g, c);
        }
      }
    }
  }

  /** What a walk has still to look at after one round. */
  lemma WalkRest(s: State, w: nat)
    requires Listed(s) && Walks(s) && w in s.walkers && Rest(s, s.walkers[w]) != []
    ensures var rest := Rest(s, s.walkers[w]);
            && rest[0] in s.threads
            && Walk(s, w).walkers == s.walkers[w := s.walkers[w].(place := After(rest[0], s.ctr))]
            && Rest(Walk(s, w), Walk(s, w).walkers[w]) == rest[1..] && rest[0] in s.list
  {
    var rest := Rest(s, s.walkers[w]);
    WalkStaysOnList(s, w);
    var k := RestIsSuffix(s, w);
    assert s.list[k..][0] == s.list[k];
    SuccessorAt(s.list, k);
    assert s.list[k..][1..] == s.list[k + 1..];
  }

  lemma SignalIs(t: Thread, f: nat, flags: set<Cond>, g: nat)
    ensures var t' := Signal(t, f, flags);
            && t'.watch == t.watch && t'.pc == t.pc && t'.found == t.found && (t.signalled ==> t' == t)
            && (Counts(t', g) <==> Counts(t, g)) && (Scanned(t', g) <==> Scanned(t, g))
            && (SemOk(t) ==> SemOk(t') || t.pc == Gone)
            && (forall c | c in flags && Watches(t.watch, c, f) :: t'.signalled)
  {
  }

  lemma WalkKeeps(s: State, w: nat)
    requires Inv(s)
    ensures Inv(Walk(s, w))
  {
    hide Ready, Watches, Scanned, Counts, Counters, Linked, SemOk, Distinct, Signal, NoLost, Counted;
    var s' := Walk(s, w);
    if w in s.walkers {
      var rest := Rest(s, s.walkers[w]);
      if rest == [] {
        WalkEnds(s, w);
      } else {
        WalkRest(s, w);
        WalkSignals(s, w);
        WalkCovers(s, w);
      }
    }
  }

  lemma WalkEnds(s: State, w: nat)
    requires Inv(s) && w in s.walkers && Rest(s, s.walkers[w]) == []
    ensures Inv(Walk(s, w))
  {
    hide Ready, Watches, Scanned, Counts, Counters, Linked, SemOk, Distinct, CountOk;
    var s' := Walk(s, w);
    forall j, g, c | Owed(s', j, g, c) ensures Covered(s', j, g, c) {
      assert Owed(s, j, g, c);
      var x :| x in s.walkers && Reaches(s, x, j, g, c);
      assert Reaches(s', x, j, g, c);
    }
  }

  lemma WalkSignals(s: State, w: nat)
    requires Inv(s) && w in s.walkers && Rest(s, s.walkers[w]) != []
    ensures var s' := Walk(s, w); Listed(s') && Counted(s') && Limits(s') && Walks(s') && Semaphores(s')
  {
    hide Ready, Watches, Scanned, Counts, Counters, SemOk, Distinct, Signal, NoLost, AllCounted;
    var s' := Walk(s, w);
    WalkRest(s, w);
    WalkStaysOnList(s, w);
    var i, walker := Rest(s, s.walkers[w])[0], s.walkers[w];
    forall f | 0 <= f < |s.socks| ensures Counts(s'.threads[i], f) <==> Counts(s.threads[i], f) {
      SignalIs(s.threads[i], walker.fd, walker.flags, f);
    }
    CountedSame(s, i, s'.threads[i], s.socks);
    SignalIs(s.threads[i], walker.fd, walker.flags, 0);
    SemOf(s, i);
  }

  lemma WalkCovers(s: State, w: nat)
    requires Inv(s) && w in s.walkers && Rest(s, s.walkers[w]) != []
    ensures NoLost(Walk(s, w))
  {
    hide Ready, Watches, Scanned, Counts, Counters, SemOk, Distinct, Signal, Counted, Linked, Listed, Walks;
    var s' := Walk(s, w);
    WalkRest(s, w);
    var rest := Rest(s, s.walkers[w]);
    var i, walker := rest[0], s.walkers[w];
    forall j, g, c | Owed(s', j, g, c) ensures Covered(s', j, g, c) {
      SignalIs(s.threads[i], walker.fd, walker.flags, g);
      assert Owed(s, j, g, c);
      var x :| x in s.walkers && Reaches(s, x, j, g, c);
      assert x == w ==> j != i;
      assert j in rest && j != i ==> j in rest[1..] by { assert rest == [i] + rest[1..]; }
      assert Reaches(s', x, j, g, c);
    }
  }

  lemma CloseKeeps(s: State, f: nat)
    requires Inv(s)
    ensures Inv(Close(s, f))
  {
    hide Watches, Scanned, Counts, Counters, SemOk, Distinct, Linked;
    var s' := Close(s, f);
    forall g | 0 <= g < |s'.socks| ensures CountOk(s'.threads, s'.socks[g], g) { CountOf(s, g); }
    forall j, g, c | Owed(s', j, g, c) ensures Covered(s', j, g, c) {
      assert Owed(s, j, g, c);
      var x :| x in s.walkers && Reaches(s, x, j, g, c);
      assert Reaches(s', x, j, g, c);
    }
  }

  lemma KeepKeeps(s: State, f: nat, leftover: bool)
    requires Inv(s)
    ensures Inv(Keep(s, f, leftover))
  {
    hide Watches, Scanned, Counts, Counters, SemOk, Distinct, Linked;
    var s' := Keep(s, f, leftover);
    forall g | 0 <= g < |s'.socks| ensures CountOk(s'.threads, s'.socks[g], g) { CountOf(s, g); }
    forall j, g, c | Owed(s', j, g, c) ensures Covered(s', j, g, c) {
      assert Owed(s, j, g, c);
      var x :| x in s.walkers && Reaches(s, x, j, g, c);
      assert Reaches(s', x, j, g, c);
    }
  }

  // --- Runs ----------------------------------------------------------------------------------

  datatype Step =
    | Starts(i: nat, watch: Watch)
    | Links(i: nat)
    | CountsNext(i: nat)
    | ScansNext(i: nat)
    | Wakes(i: nat, timeout: bool)
    | Leaves(i: nat)
    | Unlinks(i: nat)
    | Drains(i: nat)
    | Happens(f: nat, event: Event, w: nat)
    | WalksOn(w: nat)
    | Closes(f: nat)
    | Keeps(f: nat, leftover: bool)

  function Apply(s: State, a: Step): State {
    match a
    case Starts(i, watch) => Start(s, i, watch)
    case Links(i) => Link(s, i)
    case CountsNext(i) => Count(s, i)
    case ScansNext(i) => Scan(s, i)
    case Wakes(i, timeout) => Wake(s, i, timeout)
    case Leaves(i) => Leave(s, i)
    case Unlinks(i) => Unlink(s, i)
    case Drains(i) => Drain(s, i)
    case Happens(f, e, w) => Happen(s, f, e, w)
    case WalksOn(w) => Walk(s, w)
    case Closes(f) => Close(s, f)
    case Keeps(f, leftover) => Keep(s, f, leftover)
  }

  function Exec(s: State, run: seq<Step>): State
    decreases |run|
  {
    if run == [] then s else Exec(Apply(s, run[0]), run[1..])
  }

  function Init(socks: seq<Sock>): State {
    State(socks, map[], [], 0, map[])
  }

  predicate Fresh(socks: seq<Sock>) {
    forall f | 0 <= f < |socks| :: socks[f].waiting == 0
  }

  lemma InitInv(socks: seq<Sock>)
    requires Fresh(socks)
    ensures Inv(Init(socks))
  {
  }

  lemma StepKeeps(s: State, a: Step)
    requires Inv(s)
    ensures Inv(Apply(s, a))
  {
    hide Inv, Start, Link, Count, Scan, Wake, Leave, Unlink, Drain, Happen, Walk, Close, Keep;
    match a
    case Starts(i, watch) => StartKeeps(s, i, watch);
    case Links(i) => LinkKeeps(s, i);
    case CountsNext(i) => CountKeeps(s, i);
    case ScansNext(i) => ScanKeeps(s, i);
    case Wakes(i, timeout) => WakeKeeps(s, i, timeout);
    case Leaves(i) => LeaveKeeps(s, i);
    case Unlinks(i) => UnlinkKeeps(s, i);
    case Drains(i) => DrainKeeps(s, i);
    case Happens(f, e, w) => HappenKeeps(s, f, e, w);
    case WalksOn(w) => WalkKeeps(s, w);
    case Closes(f) => CloseKeeps(s, f);
    case Keeps(f, leftover) => KeepKeeps(s, f, leftover);
  }

  lemma {:induction false} RunKeeps(s: State, run: seq<Step>)
    requires Inv(s)
    ensures Inv(Exec(s, run))
    decreases |run|
  {
    hide Inv, Apply;
    if run != [] {
      StepKeeps(s, run[0]);
      RunKeeps(Apply(s, run[0]), run[1..]);
    }
  }

  /** The walk `w` alone for `n` rounds. */
  function WalkFor(s: State, w: nat, n: nat): State
    decreases n
  {
    if n == 0 then s else WalkFor(Walk(s, w), w, n - 1)
  }

  /** A walk that reaches a thread wakes it within as many rounds as there are entries left. */
  lemma {:induction false} WalkWakes(s: State, w: nat, i: nat, f: nat, c: Cond) returns (n: nat)
    requires Inv(s) && Owed(s, i, f, c) && w in s.walkers && Reaches(s, w, i, f, c)
    ensures n <= |Rest(s, s.walkers[w])| && i in WalkFor(s, w, n).threads
    ensures WalkFor(s, w, n).threads[i].signalled && WalkFor(s, w, n).threads[i].sem == 1
    decreases |Rest(s, s.walkers[w])|
  {
    hide Ready, Watches, Scanned, Counts, Counters, SemOk, Distinct, Signal, Counted, Linked, Listed, Walks, NoLost,
        Semaphores;
    var s', rest := Walk(s, w), Rest(s, s.walkers[w]);
    WalkKeeps(s, w);
    WalkRest(s, w);
    SignalIs(s.threads[rest[0]], f, s.walkers[w].flags, f);
    if rest[0] == i {
      n := 1;
      assert WalkFor(s, w, 1) == WalkFor(s', w, 0);
      SemOf(s', i);
      ScannedSem(s'.threads[i], f);
    } else {
      assert i in rest[1..] by { assert rest == [rest[0]] + rest[1..]; }
      n := WalkWakes(s', w, i, f, c);
      n := n + 1;
    }
  }

  lemma ScannedSem(t: Thread, f: nat)
    requires SemOk(t) && Scanned(t, f) && t.signalled
    ensures t.sem == 1
  {
  }

  /** The semaphore of the thread is signalled, or a walk on its way signals it. */
  ghost predicate Woken(s: State, i: nat)
    requires i in s.threads
  {
    s.threads[i].sem == 1 ||
    exists w, n: nat :: w in s.walkers && n <= |s.list| && i in WalkFor(s, w, n).threads &&
        WalkFor(s, w, n).threads[i].sem == 1
  }

  /** No lost wake-up: in any run, a thread that is blocked in select while something it waits for
      has happened finds its semaphore signalled, or a walk on its way signals it. */
  lemma NoLostWakeUp(socks: seq<Sock>, run: seq<Step>, i: nat, f: nat, c: Cond)
    requires Fresh(socks)
    requires var s := Exec(Init(socks), run);
             i in s.threads && s.threads[i].pc == Blocked && f < |s.socks| && Watches(s.threads[i].watch, c, f) &&
                 Ready(s.socks[f], c)
    ensures Woken(Exec(Init(socks), run), i)
  {
    hide Ready, Watches, Exec, Init, Fresh, Counted, Listed, Walks, Semaphores;
    var s := Exec(Init(socks), run);
    InitInv(socks);
    RunKeeps(Init(socks), run);
    if s.threads[i].signalled {
      SemOf(s, i);
      ScannedSem(s.threads[i], f);
    } else {
      assert Owed(s, i, f, c);
      var w :| w in s.walkers && Reaches(s, w, i, f, c);
      var n := WalkWakes(s, w, i, f, c);
      var k := RestIsSuffix(s, w);
    }
  }

  /** Around a run: the semaphore is signalled at most once per call and never left signalled; no
      walk turns to an entry that has left the list; select_waiting does not underflow. */
  lemma RunIsSafe(socks: seq<Sock>, run: seq<Step>)
    requires Fresh(socks)
    ensures var s := Exec(Init(socks), run);
            && (forall i | i in s.threads ::
                  s.threads[i].sem <= 1 && (s.threads[i].pc == Gone ==> s.threads[i].sem == 0))
            && (forall w | w in s.walkers && Rest(s, s.walkers[w]) != [] ::
                  Rest(s, s.walkers[w])[0] in s.threads && Linked(s.threads[Rest(s, s.walkers[w])[0]].pc))
            && (forall f | 0 <= f < |s.socks| && s.socks[f].open ::
                s.socks[f].waiting == |Counters(s.threads, f)| <= 0xff)
  {
    hide Exec, Init, Fresh, NoLost, Counters, Linked;
    var s := Exec(Init(socks), run);
    InitInv(socks);
    RunKeeps(Init(socks), run);
    forall i | i in s.threads ensures s.threads[i].sem <= 1 && (s.threads[i].pc == Gone ==> s.threads[i].sem == 0) {
      SemOf(s, i);
    }
    forall w | w in s.walkers && Rest(s, s.walkers[w]) != []
      ensures Rest(s, s.walkers[w])[0] in s.threads && Linked(s.threads[Rest(s, s.walkers[w])[0]].pc)
    {
      WalkStaysOnList(s, w);
    }
    forall f | 0 <= f < |s.socks| && s.socks[f].open ensures s.socks[f].waiting == |Counters(s.threads, f)| <= 0xff {
      CountOf(s, f);
    }
  }

  // --- What a blocked thread is woken for ----------------------------------------------------

  /** The run ends with thread `i` blocked in a select on `w`, and the descriptor `f` looks like
      `sock`, select_waiting aside. */
  ghost predicate EndsBlocked(socks: seq<Sock>, run: seq<Step>, i: nat, w: Watch, f: nat, sock: Sock) {
    && Fresh(socks)
    && var s := Exec(Init(socks), run);
       && i in s.threads && s.threads[i].pc == Blocked && s.threads[i].watch == w
       && f < |s.socks| && s.socks[f].(waiting := 0) == sock.(waiting := 0)
  }

  /** Whatever has happened before, a thread blocked on `w` is woken when `f` looks like `sock`. */
  ghost predicate Announced(w: Watch, f: nat, sock: Sock) {
    forall socks, run, i :: EndsBlocked(socks, run, i, w, f, sock) ==> Woken(Exec(Init(socks), run), i)
  }

  lemma {:induction false} ExecAppend(s: State, a: seq<Step>, b: seq<Step>)
    ensures Exec(s, a + b) == Exec(Exec(s, a), b)
    decreases |a|
  {
    hide Apply;
    if a == [] {
      assert a + b == b;
    } else {
      assert (a + b)[1..] == a[1..] + b;
      ExecAppend(Apply(s, a[0]), a[1..], b);
    }
  }

  lemma ExecOne(s: State, a: Step)
    ensures Exec(s, [a]) == Apply(s, a)
  {
    hide Apply;
    assert [a][1..] == [];
    assert Exec(Apply(s, a), []) == Apply(s, a);
  }

  /** Thread 0 is the only one, on its way through select, and nothing is going on. */
  ghost predicate Alone(s: State, w: Watch, pc: Pc) {
    && s.threads == map[0 := Thread(w, pc, false, false, 0, false)] && s.walkers == map[]
    && w.limit <= |s.socks|
  }

  /** All sockets are open, the scan finds nothing, and from `k` on nobody has counted. */
  ghost predicate Quiet(socks: seq<Sock>, w: Watch, k: nat) {
    forall g | 0 <= g < |socks| ::
      socks[g].open && !ScanFinds(w, g, socks[g]) && (k <= g ==> socks[g].waiting == 0)
  }

  ghost predicate SameLooks(socks: seq<Sock>, socks': seq<Sock>) {
    |socks'| == |socks| && forall g | 0 <= g < |socks| :: socks'[g].(waiting := 0) == socks[g].(waiting := 0)
  }

  lemma CountsOne(s: State, w: Watch, k: nat)
    requires Alone(s, w, Counting(k)) && Quiet(s.socks, w, k) && k < w.limit
    ensures Alone(Count(s, 0), w, Counting(k + 1)) && Quiet(Count(s, 0).socks, w, k + 1)
    ensures SameLooks(s.socks, Count(s, 0).socks)
  {
    hide Watches;
  }

  lemma {:induction false} CountsAll(s: State, w: Watch, k: nat) returns (run: seq<Step>)
    requires Alone(s, w, Counting(k)) && Quiet(s.socks, w, k) && k <= w.limit
    ensures var t := Exec(s, run);
            Alone(t, w, Scanning(0)) && Quiet(t.socks, w, |t.socks|) && SameLooks(s.socks, t.socks)
    decreases w.limit - k
  {
    run := [CountsNext(0)];
    ExecOne(s, CountsNext(0));
    if k < w.limit {
      hide Exec, Count, Alone, Quiet, Apply;
      CountsOne(s, w, k);
      assert Apply(s, CountsNext(0)) == Count(s, 0) by { CountStep(s); }
      var rest := CountsAll(Count(s, 0), w, k + 1);
      ExecAppend(s, run, rest);
      run := run + rest;
    }
  }

  lemma CountStep(s: State)
    ensures Apply(s, CountsNext(0)) == Count(s, 0) && Apply(s, ScansNext(0)) == Scan(s, 0)
  {
  }

  lemma ScansOne(s: State, w: Watch, k: nat)
    requires Alone(s, w, Scanning(k)) && Quiet(s.socks, w, |s.socks|) && k < w.limit
    ensures Alone(Scan(s, 0), w, Scanning(k + 1)) && Scan(s, 0).socks == s.socks
  {
  }

  lemma {:induction false} ScansAll(s: State, w: Watch, k: nat) returns (run: seq<Step>)
    requires Alone(s, w, Scanning(k)) && Quiet(s.socks, w, |s.socks|) && k <= w.limit
    ensures Alone(Exec(s, run), w, Blocked) && Exec(s, run).socks == s.socks
    decreases w.limit - k
  {
    run := [ScansNext(0)];
    ExecOne(s, ScansNext(0));
    if k < w.limit {
      hide Exec, Scan, Alone, Quiet, Apply;
      ScansOne(s, w, k);
      CountStep(s);
      var rest := ScansAll(Scan(s, 0), w, k + 1);
      ExecAppend(s, run, rest);
      run := run + rest;
    }
  }

  lemma Enters(socks: seq<Sock>, w: Watch)
    requires w.limit <= |socks|
    ensures var t := Exec(Init(socks), [Starts(0, w)] + [Links(0)]); Alone(t, w, Counting(0)) && t.socks == socks
  {
    hide Exec;
    ExecAppend(Init(socks), [Starts(0, w)], [Links(0)]);
    ExecOne(Init(socks), Starts(0, w));
    ExecOne(Start(Init(socks), 0, w), Links(0));
  }

  /** A thread can block on `w` as long as the scan finds nothing. */
  lemma CanBlock(socks: seq<Sock>, w: Watch) returns (run: seq<Step>)
    requires w.limit <= |socks| && Quiet(socks, w, 0)
    ensures Alone(Exec(Init(socks), run), w, Blocked) && SameLooks(socks, Exec(Init(socks), run).socks)
  {
    hide Exec, Alone, Quiet, Init;
    run := [Starts(0, w)] + [Links(0)];
    Enters(socks, w);
    var counts := CountsAll(Exec(Init(socks), run), w, 0);
    ExecAppend(Init(socks), run, counts);
    run := run + counts;
    var scans := ScansAll(Exec(Init(socks), run), w, 0);
    ExecAppend(Init(socks), run, scans);
    run := run + scans;
  }

  /** Sockets of which only `f` looks like `sock`, without kept data. */
  function Around(n: nat, f: nat, sock: Sock): seq<Sock> {
    seq(n, g requires 0 <= g < n =>
      if g == f then sock.(open := true, leftover := false, waiting := 0) else Sock(true, 0, false, false, false, 0))
  }

  lemma AroundQuiet(n: nat, w: Watch, f: nat, sock: Sock)
    requires f < n && !exists c :: Watches(w, c, f) && Ready(sock, c)
    ensures Quiet(Around(n, f, sock), w, 0) && Fresh(Around(n, f, sock))
  {
    assert forall c :: Watches(w, c, f) ==> !Ready(sock, c);
  }

  /** The last two steps bring about the rest of the looks; neither wakes anybody. */
  lemma Finishes(s: State, w: Watch, f: nat, sock: Sock) returns (run: seq<Step>)
    requires Alone(s, w, Blocked) && f < |s.socks|
    requires s.socks[f].(waiting := 0) == sock.(open := true, leftover := false, waiting := 0)
    ensures var t := Exec(s, run);
            Alone(t, w, Blocked) && f < |t.socks| && t.socks[f].(waiting := 0) == sock.(waiting := 0)
  {
    hide Exec;
    ExecOne(s, Keeps(f, sock.leftover));
    run := [Keeps(f, sock.leftover)];
    if !sock.open {
      ExecAppend(s, run, [Closes(f)]);
      ExecOne(Keep(s, f, sock.leftover), Closes(f));
      run := run + [Closes(f)];
    }
  }

  lemma NobodyWakes(s: State, w: Watch)
    requires Alone(s, w, Blocked)
    ensures 0 in s.threads && !Woken(s, 0)
  {
  }

  /** Where nothing watched is ready, some run leaves the thread asleep. */
  lemma StaysAsleep(w: Watch, f: nat, sock: Sock)
    requires !exists c :: Watches(w, c, f) && Ready(sock, c)
    ensures !Announced(w, f, sock)
  {
    hide Watches, Ready, Exec, Init, Quiet, Woken, Alone;
    var n := if f < w.limit then w.limit else f + 1;
    var socks := Around(n, f, sock);
    AroundQuiet(n, w, f, sock);
    var run := CanBlock(socks, w);
    var s := Exec(Init(socks), run);
    var last := Finishes(s, w, f, sock);
    ExecAppend(Init(socks), run, last);
    AloneBlocked(Exec(s, last), w);
    NobodyWakes(Exec(s, last), w);
    assert EndsBlocked(socks, run + last, 0, w, f, sock);
  }

  lemma AloneBlocked(s: State, w: Watch)
    requires Alone(s, w, Blocked)
    ensures 0 in s.threads && s.threads[0].pc == Blocked && s.threads[0].watch == w
  {
  }

  /** A blocked thread is woken for a descriptor, whatever has happened before, if and only if a
      condition that it watches holds there. */
  lemma AnnouncedExactly(w: Watch, f: nat, sock: Sock)
    ensures Announced(w, f, sock) <==> exists c :: Watches(w, c, f) && Ready(sock, c)
  {
    hide Watches, Woken, Exec, Init, Fresh;
    if c :| Watches(w, c, f) && Ready(sock, c) {
      forall socks, run, i | EndsBlocked(socks, run, i, w, f, sock) ensures Woken(Exec(Init(socks), run), i) {
        NoLostWakeUp(socks, run, i, f, c);
      }
    } else {
      StaysAsleep(w, f, sock);
    }
  }

  /** What the second scan would report is announced to a thread that is already blocked, unless
      the scan reports kept data only. */
  lemma ScanAnnouncedIff(w: Watch, f: nat, sock: Sock)
    ensures (ScanFinds(w, f, sock) ==> Announced(w, f, sock)) <==>
            (Watches(w, Reading, f) && sock.leftover ==> exists c :: Watches(w, c, f) && Ready(sock, c))
  {
    hide Announced;
    AnnouncedExactly(w, f, sock);
    assert Ready(sock, Reading) == (sock.rcv > 0) && Ready(sock, Writing) == sock.send
        && Ready(sock, Except) == sock.err;
  }

  /** A thread enters select to read from descriptor 0 and blocks. */
  function BlockingRun(): seq<Step> {
    [Starts(0, Watch(1, {0}, {}, {})), Links(0), CountsNext(0)] + [CountsNext(0), ScansNext(0), ScansNext(0)]
  }

  function BlockedOnZero(): State {
    State([Sock(true, 0, false, false, false, 1)],
          map[0 := Thread(Watch(1, {0}, {}, {}), Blocked, false, false, 0, false)], [0], 1, map[])
  }

  lemma ExecThree(s: State, a: Step, b: Step, c: Step)
    ensures Exec(s, [a, b, c]) == Apply(Apply(Apply(s, a), b), c)
  {
    hide Apply, Exec;
    assert [a] + [b] == [a, b] && [a, b] + [c] == [a, b, c];
    ExecAppend(s, [a, b], [c]);
    ExecAppend(s, [a], [b]);
    ExecOne(s, a);
    ExecOne(Apply(s, a), b);
    ExecOne(Apply(Apply(s, a), b), c);
  }

  lemma Blocks()
    ensures Exec(Init([Sock(true, 0, false, false, false, 0)]), BlockingRun()) == BlockedOnZero()
  {
    hide Exec;
    var w := Watch(1, {0}, {}, {});
    var s0 := Init([Sock(true, 0, false, false, false, 0)]);
    ExecAppend(s0, [Starts(0, w), Links(0), CountsNext(0)], [CountsNext(0), ScansNext(0), ScansNext(0)]);
    ExecThree(s0, Starts(0, w), Links(0), CountsNext(0));
    var s3 := EntersSelect(w);
    ExecThree(s3, CountsNext(0), ScansNext(0), ScansNext(0));
    FindsNothing(w, s3);
  }

  lemma EntersSelect(w: Watch) returns (s: State)
    requires w == Watch(1, {0}, {}, {})
    ensures s == Count(Link(Start(Init([Sock(true, 0, false, false, false, 0)]), 0, w), 0), 0)
    ensures s == State([Sock(true, 0, false, false, false, 1)],
            map[0 := Thread(w, Counting(1), false, false, 0, false)], [0], 1, map[])
  {
    var s1 := Start(Init([Sock(true, 0, false, false, false, 0)]), 0, w);
    assert s1.threads == map[0 := Thread(w, Linking, false, false, 0, false)];
    var s2 := Link(s1, 0);
    assert s2 == State(s1.socks, map[0 := Thread(w, Counting(0), false, false, 0, false)], [0], 1, map[]);
    s := Count(s2, 0);
  }

  lemma FindsNothing(w: Watch, s: State)
    requires w == Watch(1, {0}, {}, {})
    requires s == State([Sock(true, 0, false, false, false, 1)],
             map[0 := Thread(w, Counting(1), false, false, 0, false)], [0], 1, map[])
    ensures Scan(Scan(Count(s, 0), 0), 0) == BlockedOnZero()
  {
    var s4 := Count(s, 0);
    assert s4 == s.(threads := map[0 := Thread(w, Scanning(0), false, false, 0, false)]);
    var s5 := Scan(s4, 0);
    assert s5 == s4.(threads := map[0 := Thread(w, Scanning(1), false, false, 0, false)]);
    assert Scan(s5, 0).threads == map[0 := Thread(w, Blocked, false, false, 0, false)];
  }

  /** The scan also reports data that another thread has kept from an earlier read; no event
      announces that, so a blocked thread is not woken for it. */
  lemma LeftoverIsNotAnnounced()
    ensures var s := Exec(Init([Sock(true, 0, false, false, false, 0)]), BlockingRun() + [Keeps(0, true)]);
            && 0 in s.threads && s.threads[0].pc == Blocked && |s.socks| == 1 && !Woken(s, 0)
            && ScanFinds(s.threads[0].watch, 0, s.socks[0])
  {
    hide Exec, BlockingRun;
    Blocks();
    ExecAppend(Init([Sock(true, 0, false, false, false, 0)]), BlockingRun(), [Keeps(0, true)]);
    ExecOne(BlockedOnZero(), Keeps(0, true));
  }

  lemma StaleWalk(s: State) returns (s': State)
    requires s == BlockedOnZero()
    ensures s' == Keep(Happen(Happen(s, 0, RcvPlus, 0), 0, RcvMinus, 1), 0, true)
    ensures s' == s.(socks := [Sock(true, 0, false, false, true, 1)],
                     walkers := map[0 := Walker(0, {Reading}, Begin)])
  {
    var s1 := Happen(s, 0, RcvPlus, 0);
    assert s1 == s.(socks := [Sock(true, 1, false, false, false, 1)],
                    walkers := map[0 := Walker(0, {Reading}, Begin)]);
    s' := Keep(Happen(s1, 0, RcvMinus, 1), 0, true);
  }

  lemma StaleWakes(s: State)
    requires s == BlockedOnZero().(socks := [Sock(true, 0, false, false, true, 1)],
                                   walkers := map[0 := Walker(0, {Reading}, Begin)])
    ensures 0 in s.threads && Woken(s, 0)
  {
    assert WalkFor(s, 0, 1) == WalkFor(Walk(s, 0), 0, 0) == Walk(s, 0);
    assert Reading in s.walkers[0].flags && Watches(s.threads[0].watch, Reading, 0);
    assert 0 in s.walkers && 0 in WalkFor(s, 0, 1).threads && WalkFor(s, 0, 1).threads[0].sem == 1;
  }

  /** A walk for data that has been used up meanwhile wakes the thread all the same. */
  lemma LeftoverAfterStaleWalk()
    ensures var s := Exec(Init([Sock(true, 0, false, false, false, 0)]),
                          BlockingRun() + [Happens(0, RcvPlus, 0), Happens(0, RcvMinus, 1), Keeps(0, true)]);
            && 0 in s.threads && s.threads[0].pc == Blocked && !s.threads[0].signalled && |s.socks| == 1
            && !Ready(s.socks[0], Reading) && s.socks[0].leftover && Woken(s, 0)
  {
    hide Exec, BlockingRun;
    Blocks();
    ExecAppend(Init([Sock(true, 0, false, false, false, 0)]), BlockingRun(),
               [Happens(0, RcvPlus, 0), Happens(0, RcvMinus, 1), Keeps(0, true)]);
    var s0 := BlockedOnZero();
    ExecThree(s0, Happens(0, RcvPlus, 0), Happens(0, RcvMinus, 1), Keeps(0, true));
    var s := StaleWalk(s0);
    StaleWakes(s);
  }
}
