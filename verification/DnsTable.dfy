/** The resolver's table of names and its table of requests (src/core/dns.c). */
module DnsTable {
  import opened Bytes
  import opened DnsNames

  type Name = seq<Byte>

  datatype Status = Unused | New | Asking | Done

  /** Which kind of address is wanted; with a second choice if the first gives nothing. */
  datatype Kind = V4 | V6 | V4ThenV6 | V6ThenV4

  /** struct dns_table_entry */
  datatype Entry = Entry(state: Status, name: Name, kind: Kind, seqno: nat, txid: nat, server: nat, tmr: nat,
                         retries: nat, ttl: nat)

  /** struct dns_req_entry: the callback with number `id` waits for table entry `idx`. */
  datatype Request = Free | Waiting(id: nat, idx: nat)

  datatype Err = InProgress | Mem

  /** What dns_recv makes of a packet whose transmission id is known. */
  datatype Verdict = Ignored | ServerError | Answer(ttl: nat) | NoAnswer

  const MAX_TTL: nat := 604800

  /** DNS_lim.servers and DNS_lim.retries. */
  datatype Limits = Limits(servers: nat, retries: nat)

  // --- Counting requests ---------------------------------------------------------------------

  predicate Is(q: Request, id: nat) {
    q.Waiting? && q.id == id
  }

  /** How often the callback `id` is waiting. */
  ghost function Count(requests: seq<Request>, id: nat): nat {
    if requests == [] then 0 else (if Is(requests[0], id) then 1 else 0) + Count(requests[1..], id)
  }

  lemma {:induction false} CountUpdate(requests: seq<Request>, r: nat, q: Request, id: nat)
    requires r < |requests|
    ensures Count(requests[r := q], id) + (if Is(requests[r], id) then 1 else 0) ==
            Count(requests, id) + (if Is(q, id) then 1 else 0)
  {
    if r == 0 {
      assert requests[0 := q][1..] == requests[1..];
    } else {
      assert requests[r := q][1..] == requests[1..][r - 1 := q];
      CountUpdate(requests[1..], r - 1, q, id);
    }
  }

  /** Every callback that was accepted is waiting or was called, and only once. */
  ghost predicate Once(requests: seq<Request>, called: seq<nat>, accepted: nat) {
    forall id: nat :: multiset(called)[id] + Count(requests, id) == if id < accepted then 1 else 0
  }

  lemma OnceCall(requests: seq<Request>, called: seq<nat>, accepted: nat, r: nat)
    requires Once(requests, called, accepted) && r < |requests| && requests[r].Waiting?
    ensures Once(requests[r := Free], called + [requests[r].id], accepted)
  {
    var called': seq<nat> := called + [requests[r].id];
    forall id: nat ensures multiset(called')[id] + Count(requests[r := Free], id) == if id < accepted then 1 else 0 {
      CountUpdate(requests, r, Free, id);
      assert multiset(called)[id] + Count(requests, id) == if id < accepted then 1 else 0;
    }
  }

  lemma OnceAccept(requests: seq<Request>, called: seq<nat>, accepted: nat, r: nat, idx: nat)
    requires Once(requests, called, accepted) && r < |requests| && requests[r] == Free
    ensures Once(requests[r := Waiting(accepted, idx)], called, accepted + 1)
  {
    var q := Waiting(accepted, idx);
    forall id: nat ensures multiset(called)[id] + Count(requests[r := q], id) == if id < accepted + 1 then 1 else 0 {
      CountUpdate(requests, r, q, id);
      assert multiset(called)[id] + Count(requests, id) == if id < accepted then 1 else 0;
    }
  }

  // --- Table entries -------------------------------------------------------------------------

  /** The counters of an entry that is being asked for. */
  predicate EntryOk(lim: Limits, e: Entry) {
    e.state == Asking ==>
      1 <= e.tmr <= lim.retries && e.retries < lim.retries && e.server < lim.servers && e.txid < 0x1_0000
  }

  /** No two entries that are being asked for share a transmission id. */
  ghost predicate DistinctIds(table: seq<Entry>) {
    forall i, j | 0 <= i < j < |table| && table[i].state == Asking && table[j].state == Asking ::
        table[i].txid != table[j].txid
  }

  /** Every waiting request points at an entry that is being asked for. */
  ghost predicate Attached(table: seq<Entry>, requests: seq<Request>) {
    forall r | 0 <= r < |requests| && requests[r].Waiting? ::
        requests[r].idx < |table| && table[requests[r].idx].state == Asking
  }

  ghost predicate TableOk(lim: Limits, table: seq<Entry>) {
    DistinctIds(table) && forall i | 0 <= i < |table| :: EntryOk(lim, table[i])
  }

  // --- Tries ---------------------------------------------------------------------------------

  /** Two digits put together, the lower one to the base `base`. */
  function Mix(hi: nat, lo: nat, base: nat): nat {
    hi * base + lo
  }

  lemma MixOrder(hi: nat, lo: nat, hi': nat, lo': nat, base: nat)
    requires lo < base && lo' < base
    ensures hi < hi' || (hi == hi' && lo < lo') ==> Mix(hi, lo, base) < Mix(hi', lo', base)
    ensures hi < hi' ==> Mix(hi, lo, base) < hi' * base
  {
    if hi < hi' {
      assert hi * base + base == (hi + 1) * base <= hi' * base;
    }
  }

  function Kinds(e: Entry): nat {
    if e.kind == V4ThenV6 || e.kind == V6ThenV4 then 1 else 0
  }

  function Servers(lim: Limits, e: Entry): nat
    requires EntryOk(lim, e) && e.state == Asking
  {
    Mix(Kinds(e), lim.servers - 1 - e.server, lim.servers)
  }

  function Retries(lim: Limits, e: Entry): nat
    requires EntryOk(lim, e) && e.state == Asking
  {
    Mix(Servers(lim, e), lim.retries - 1 - e.retries, lim.retries)
  }

  /** Tries left: address kinds, then servers, then retries, then ticks of the timer. */
  function Rank(lim: Limits, e: Entry): (n: nat)
    requires EntryOk(lim, e) && e.state == Asking
    ensures n < Ranks(lim)
  {
    RetriesBound(lim, e);
    MixOrder(Retries(lim, e), e.tmr, 2 * lim.servers * lim.retries, 0, lim.retries + 1);
    Mix(Retries(lim, e), e.tmr, lim.retries + 1)
  }

  function Ranks(lim: Limits): nat {
    2 * lim.servers * lim.retries * (lim.retries + 1)
  }

  lemma RetriesBound(lim: Limits, e: Entry)
    requires EntryOk(lim, e) && e.state == Asking
    ensures Retries(lim, e) < 2 * lim.servers * lim.retries
  {
    hide Mix;
    MixOrder(Kinds(e), lim.servers - 1 - e.server, 2, 0, lim.servers);
    MixOrder(Servers(lim, e), lim.retries - 1 - e.retries, 2 * lim.servers, 0, lim.retries);
  }

  /** The second entry has fewer tries left, the more important ones first. */
  predicate Fewer(e: Entry, e': Entry) {
    if Kinds(e) != Kinds(e') then Kinds(e') < Kinds(e)
    else if e.server != e'.server then e.server < e'.server
    else if e.retries != e'.retries then e.retries < e'.retries
    else e'.tmr < e.tmr
  }

  lemma FewerRank(lim: Limits, e: Entry, e': Entry)
    requires EntryOk(lim, e) && e.state == Asking && EntryOk(lim, e') && e'.state == Asking && Fewer(e, e')
    ensures Rank(lim, e') < Rank(lim, e)
  {
    hide Mix;
    MixOrder(Kinds(e'), lim.servers - 1 - e'.server, Kinds(e), lim.servers - 1 - e.server, lim.servers);
    MixOrder(Servers(lim, e'), lim.retries - 1 - e'.retries, Servers(lim, e), lim.retries - 1 - e.retries, lim.retries);
    MixOrder(Retries(lim, e'), e'.tmr, Retries(lim, e), e.tmr, lim.retries + 1);
  }

  /** One tick uses up a try. */
  lemma AskedLowers(lim: Limits, e: Entry, valid: seq<bool>)
    requires EntryOk(lim, e) && e.state == Asking && |valid| == lim.servers
    ensures EntryOk(lim, Asked(lim, e, valid))
    ensures Asked(lim, e, valid).state == Asking ==> Rank(lim, Asked(lim, e, valid)) < Rank(lim, e)
  {
    hide Rank;
    if Asked(lim, e, valid).state == Asking {
      FewerRank(lim, e, Asked(lim, e, valid));
    }
  }

  predicate TxidFree(table: seq<Entry>, t: nat) {
    forall i | 0 <= i < |table| && table[i].state == Asking :: table[i].txid != t
  }

  /** With more candidates than entries, one of them is free. */
  lemma {:induction false} FreeAmong(table: seq<Entry>, candidates: set<nat>) returns (t: nat)
    requires |table| < |candidates|
    ensures t in candidates && TxidFree(table, t)
  {
    if table == [] {
      t :| t in candidates;
    } else {
      var n := |table| - 1;
      t := FreeAmong(table[..n], candidates - {table[n].txid});
      assert forall i | 0 <= i < n :: table[..n][i] == table[i];
    }
  }

  function Below(n: nat): (r: set<nat>)
    ensures |r| == n && forall x :: x in r <==> 0 <= x < n
  {
    if n == 0 then {} else Below(n - 1) + {n - 1}
  }

  /** What has become of the requests `q0`: answered, or still waiting for an entry with at least
      `d` tries less. */
  ghost predicate Progress(lim: Limits, t0: seq<Entry>, q0: seq<Request>, t1: seq<Entry>, q1: seq<Request>,
                           called: seq<nat>, d: nat)
    requires TableOk(lim, t0) && TableOk(lim, t1) && Attached(t0, q0) && Attached(t1, q1)
  {
    |q1| == |q0| && forall r | 0 <= r < |q0| && q0[r].Waiting? :: Forward(lim, t0, q0[r], t1, q1[r], called, d)
  }

  ghost predicate Forward(lim: Limits, t0: seq<Entry>, a: Request, t1: seq<Entry>, b: Request, called: seq<nat>, d: nat)
    requires TableOk(lim, t0) && TableOk(lim, t1) && a.Waiting? && a.idx < |t0| && t0[a.idx].state == Asking
    requires b.Waiting? ==> b.idx < |t1| && t1[b.idx].state == Asking
  {
    a.id in called || (b == a && Rank(lim, t1[a.idx]) + d <= Rank(lim, t0[a.idx]))
  }

  lemma ProgressTwice(lim: Limits, t0: seq<Entry>, q0: seq<Request>, t1: seq<Entry>, q1: seq<Request>,
                      called1: seq<nat>, d1: nat,
                      t2: seq<Entry>, q2: seq<Request>, called2: seq<nat>, d2: nat)
    requires TableOk(lim, t0) && TableOk(lim, t1) && TableOk(lim, t2)
    requires Attached(t0, q0) && Attached(t1, q1) && Attached(t2, q2) && called1 <= called2
    requires Progress(lim, t0, q0, t1, q1, called1, d1) && Progress(lim, t1, q1, t2, q2, called2, d2)
    ensures Progress(lim, t0, q0, t2, q2, called2, d1 + d2)
  {
  }

  lemma ProgressNone(lim: Limits, t: seq<Entry>, q: seq<Request>, called: seq<nat>)
    requires TableOk(lim, t) && Attached(t, q)
    ensures Progress(lim, t, q, t, q, called, 0)
  {
  }

  /** Only entry `i` changes; its requests are answered when it is no longer asked for, and not
      before. */
  ghost predicate Local(t0: seq<Entry>, q0: seq<Request>, t1: seq<Entry>, q1: seq<Request>, called: seq<nat>, i: nat) {
    && |t1| == |t0| && |q1| == |q0| && i < |t0| && t1 == t0[i := t1[i]]
    && (forall r | 0 <= r < |q0| ::
          q1[r] == q0[r] || (q0[r].Waiting? && q0[r].idx == i && q1[r] == Free && q0[r].id in called))
    && (if t1[i].state == Asking then q1 == q0 else forall r | 0 <= r < |q1| && q1[r].Waiting? :: q1[r].idx != i)
  }

  lemma LocalAttached(t0: seq<Entry>, q0: seq<Request>, t1: seq<Entry>, q1: seq<Request>, called: seq<nat>, i: nat)
    requires Local(t0, q0, t1, q1, called, i)
    requires forall r | 0 <= r < |q0| && q0[r].Waiting? ::
             q0[r].idx < |t0| && (q0[r].idx != i ==> t0[q0[r].idx].state == Asking)
    ensures Attached(t1, q1)
  {
  }

  lemma TableUpdate(lim: Limits, table: seq<Entry>, i: nat, e: Entry)
    requires TableOk(lim, table) && i < |table| && EntryOk(lim, e)
    requires e.state == Asking ==> (table[i].state == Asking && e.txid == table[i].txid) || TxidFree(table, e.txid)
    ensures TableOk(lim, table[i := e])
  {
  }

  /** Sending a query: a server that is not set ends the request. */
  function Sent(e: Entry, valid: seq<bool>): Entry {
    if e.server < |valid| && valid[e.server] then e else e.(state := Unused)
  }

  /** dns_backupserver_available */
  predicate Backup(e: Entry, valid: seq<bool>) {
    e.server + 1 < |valid| && valid[e.server + 1]
  }

  /** One tick for an entry that is being asked for: wait, ask again and then wait longer, go to
      the next server, or give up. */
  function Asked(lim: Limits, e: Entry, valid: seq<bool>): Entry {
    if e.tmr > 1 then e.(tmr := e.tmr - 1)
    else if e.retries + 1 < lim.retries then Sent(e.(retries := e.retries + 1, tmr := e.retries + 1), valid)
    else if Backup(e, valid) then Sent(e.(server := e.server + 1, tmr := 1, retries := 0), valid)
    else e.(state := Unused)
  }

  /** One tick for any entry: a completed one gets older and is flushed in the end. */
  function Next(lim: Limits, e: Entry, valid: seq<bool>): Entry {
    match e.state
    case Asking => Asked(lim, e, valid)
    case Done => if e.ttl <= 1 then e.(ttl := 0, state := Unused) else e.(ttl := e.ttl - 1)
    case _ => e
  }

  /** A query sent for the first time. */
  ghost predicate FirstSent(e: Entry, e': Entry, valid: seq<bool>) {
    e' == Sent(e.(txid := e'.txid, state := Asking, server := 0, tmr := 1, retries := 0), valid)
  }

  /** A completed entry; one that must not be kept is unused at once. */
  function Answered(e: Entry, ttl: nat): Entry {
    e.(state := if ttl == 0 then Unused else Done, ttl := if ttl > MAX_TTL then MAX_TTL else ttl,
       kind := if e.kind in {V6, V6ThenV4} then V6 else V4)
  }

  /** What becomes of an entry when an answer to it comes in. */
  ghost predicate Reacts(e: Entry, verdict: Verdict, e': Entry, valid: seq<bool>) {
    match verdict
    case Ignored => e' == e
    case Answer(ttl) => e' == Answered(e, ttl)
    case ServerError =>
      e' == if Backup(e, valid) then e.(server := e.server + 1, tmr := 1, retries := 0) else e.(state := Unused)
    case NoAnswer =>
      if e.kind in {V4ThenV6, V6ThenV4} then FirstSent(e.(kind := if e.kind == V4ThenV6 then V6 else V4), e', valid)
      else e' == e.(state := Unused)
  }

  predicate HasFree(requests: seq<Request>) {
    exists r | 0 <= r < |requests| :: requests[r] == Free
  }

  /** The age of a completed entry, in eight bits. */
  function Age(e: Entry, seqno: nat): nat {
    (seqno - e.seqno) % 0x100
  }

  /** An entry is unused, or completed and older than the present number. */
  predicate HasSlot(table: seq<Entry>, seqno: nat) {
    exists i | 0 <= i < |table| ::
      table[i].state == Unused || (table[i].state == Done && Age(table[i], seqno) > 0)
  }

  /** The name is being asked for already, for the same kind of address. */
  predicate IsAsked(table: seq<Entry>, name: Name, kind: Kind) {
    exists i | 0 <= i < |table| ::
      table[i].state == Asking && SameLetters(name, table[i].name) && table[i].kind == kind
  }

  /** The entry that dns_enqueue uses: the first that is unused or, if none is, the first of the
      oldest completed ones. */
  ghost predicate IsSlot(table: seq<Entry>, seqno: nat, i: nat) {
    && i < |table|
    && if table[i].state == Unused then forall k | 0 <= k < i :: table[k].state != Unused
       else
         && NoneUnused(table) && table[i].state == Done && Age(table[i], seqno) > 0
         && (forall k | 0 <= k < |table| && table[k].state == Done :: Age(table[k], seqno) <= Age(table[i], seqno))
         && (forall k | 0 <= k < i && table[k].state == Done :: Age(table[k], seqno) < Age(table[i], seqno))
  }

  predicate NoneUnused(table: seq<Entry>) {
    forall k | 0 <= k < |table| :: table[k].state != Unused
  }

  /** There is one such entry at most. */
  lemma OneSlot(table: seq<Entry>, seqno: nat, i: nat, j: nat)
    requires IsSlot(table, seqno, i) && IsSlot(table, seqno, j)
    ensures i == j
  {
    hide Age;
    if table[i].state == Done {
      assert table[j].state == Done;
      assert Age(table[i], seqno) == Age(table[j], seqno);
    }
  }

  /** The entry as dns_enqueue fills it. */
  function Filled(e: Entry, name: Name, kind: Kind, seqno: nat): Entry {
    e.(state := New, seqno := seqno, kind := kind, name := name)
  }

  /** What dns_enqueue makes of the table: nothing if it refuses for lack of a place or if the name is
      being asked for; otherwise the slot is filled and asked for, or given up for lack of a port. */
  ghost predicate Enqueued(t0: seq<Entry>, q0: seq<Request>, seqno: nat, name: Name, kind: Kind, port: bool,
                           valid: seq<bool>, t1: seq<Entry>) {
    if !HasFree(q0) || IsAsked(t0, name, kind) || !HasSlot(t0, seqno) then t1 == t0
    else
      exists i: nat ::
        && IsSlot(t0, seqno, i) && |t1| == |t0| && t1 == t0[i := t1[i]]
        && if port then FirstSent(Filled(t0[i], name, kind, seqno), t1[i], valid)
           else t1[i] == Filled(t0[i], name, kind, seqno).(state := Unused)
  }

  /** A completed entry is lost without anything being asked for if and only if only the port is
      missing and no entry is unused. */
  lemma LosesIff(t0: seq<Entry>, q0: seq<Request>, seqno: nat, name: Name, kind: Kind, port: bool, valid: seq<bool>,
                 t1: seq<Entry>)
    requires Enqueued(t0, q0, seqno, name, kind, port, valid, t1)
    requires !(HasFree(q0) && (IsAsked(t0, name, kind) || (HasSlot(t0, seqno) && port)))
    ensures |t1| == |t0| && ((exists i :: 0 <= i < |t0| && t0[i].state == Done && t1[i].state == Unused) <==>
            !port && HasFree(q0) && !IsAsked(t0, name, kind) && NoneUnused(t0) && HasSlot(t0, seqno))
  {
    hide HasFree, IsAsked, HasSlot, FirstSent, Age;
    if HasFree(q0) && !IsAsked(t0, name, kind) && HasSlot(t0, seqno) {
      var i: nat :| IsSlot(t0, seqno, i) && t1 == t0[i := t1[i]]
               && t1[i] == Filled(t0[i], name, kind, seqno).(state := Unused);
      assert NoneUnused(t0) ==> t0[i].state == Done && t1[i].state == Unused;
    }
  }

  class Resolver {
    const lim: Limits
    var table: seq<Entry>      // dns_table
    var requests: seq<Request> // dns_requests
    var valid: seq<bool>       // which of dns_servers are set
    var seqno: nat             // dns_seqno
    /** Callbacks are numbered in the order in which they are accepted; those that were called. */
    var accepted: nat
    ghost var called: seq<nat>

    ghost predicate Inv()
      reads this
    {
      && TableOk(lim, table) && Attached(table, requests) && Once(requests, called, accepted)
      && lim.servers > 0 && lim.retries > 0 && |valid| == lim.servers && |table| <= 0xff && seqno <= 0xff
      && (forall i | 0 <= i < |table| :: table[i].state != New)
    }

    constructor (lim: Limits, size: nat, slots: nat)
      requires size <= 0xff && lim.servers > 0 && lim.retries > 0
      ensures Inv() && accepted == 0 && called == [] && this.lim == lim && seqno == 0
      ensures |table| == size && (forall i | 0 <= i < size :: table[i].state == Unused)
      ensures |requests| == slots && (forall r | 0 <= r < slots :: requests[r] == Free)
    {
      this.lim := lim;
      table := seq(size, i => Entry(Unused, [], V4, 0, 0, 0, 0, 0, 0));
      requests := seq(slots, i => Free);
      valid, seqno, accepted, called := seq(lim.servers, i => false), 0, 0, [];
      new;
      NoneWaiting(requests);
    }

    /** dns_call_found */
    method CallFound(idx: nat)
      requires Once(requests, called, accepted)
      modifies this`requests, this`called
      ensures Once(requests, called, accepted) && |requests| == |old(requests)| && old(called) <= called
      ensures forall r | 0 <= r < |requests| ::
                if old(requests)[r].Waiting? && old(requests)[r].idx == idx
                then requests[r] == Free && old(requests)[r].id in called
                else requests[r] == old(requests)[r]
    {
      hide Once;
      for i := 0 to |requests|
        invariant Once(requests, called, accepted) && |requests| == |old(requests)| && old(called) <= called
        invariant forall r | 0 <= r < i ::
                    if old(requests)[r].Waiting? && old(requests)[r].idx == idx
                    then requests[r] == Free && old(requests)[r].id in called
                    else requests[r] == old(requests)[r]
        invariant forall r | i <= r < |requests| :: requests[r] == old(requests)[r]
      {
        if requests[i].Waiting? && requests[i].idx == idx {
          OnceCall(requests, called, accepted, i);
          called := called + [requests[i].id];
          requests := requests[i := Free];
        }
      }
    }

    /** The requests for entry `i` are told that there is no address. */
    method GiveUp(i: nat)
      requires TableOk(lim, table) && Once(requests, called, accepted) && i < |table|
      modifies this`table, this`requests, this`called
      ensures TableOk(lim, table) && Once(requests, called, accepted) && old(called) <= called
      ensures Local(old(table), old(requests), table, requests, called, i)
      ensures table[i] == old(table)[i].(state := Unused)
    {
      hide Once, TableOk;
      CallFound(i);
      TableUpdate(lim, table, i, table[i].(state := Unused));
      table := table[i := table[i].(state := Unused)];
    }

    /** dns_send: a server that is not set any more ends the request. */
    method Send(i: nat)
      requires TableOk(lim, table) && Once(requests, called, accepted) && i < |table|
      requires table[i].state == Asking && |valid| == lim.servers
      modifies this`table, this`requests, this`called
      ensures TableOk(lim, table) && Once(requests, called, accepted) && old(called) <= called
      ensures Local(old(table), old(requests), table, requests, called, i)
      ensures table[i] == Sent(old(table)[i], valid)
    {
      hide Once, DistinctIds;
      assert EntryOk(lim, table[i]);
      if !valid[table[i].server] {
        GiveUp(i);
      }
    }

    /** dns_create_txid: any number that no entry being asked for has. */
    method CreateTxid() returns (t: nat)
      requires |table| <= 0xff
      ensures t < 0x1_0000 && TxidFree(table, t)
    {
      ghost var x := FreeAmong(table, Below(0x1_0000));
      t :| 0 <= t < 0x1_0000 && TxidFree(table, t);
    }

    /** dns_check_entry: sends the first query, or counts down and tries again, with the next
        server after a while, or gives up. */
    method CheckEntry(i: nat)
      requires TableOk(lim, table) && Once(requests, called, accepted) && i < |table| <= 0xff
      requires |valid| == lim.servers > 0 && lim.retries > 0
      requires table[i].state in {Done, Unused} ==> forall r | 0 <= r < |requests| && requests[r].Waiting? ::
               requests[r].idx != i
      modifies this`table, this`requests, this`called
      ensures TableOk(lim, table) && Once(requests, called, accepted) && old(called) <= called
      ensures Local(old(table), old(requests), table, requests, called, i) && table[i].state != New
      ensures table[i].state == Asking ==>
                if old(table)[i].state == Asking then Rank(lim, table[i]) < Rank(lim, old(table)[i])
                else old(table)[i].state == New
      ensures old(table)[i].state != New ==> table[i] == Next(lim, old(table)[i], valid)
      ensures old(table)[i].state == New ==> FirstSent(old(table)[i], table[i], valid)
    {
      hide Once, DistinctIds, Rank;
      var entry := table[i];
      assert EntryOk(lim, entry);
      if entry.state == Asking {
        AskedLowers(lim, entry, valid);
      }
      match entry.state {
        case New =>
          var t := CreateTxid();
          var first := entry.(txid := t, state := Asking, server := 0, tmr := 1, retries := 0);
          TableUpdate(lim, table, i, first);
          table := table[i := first];
          Send(i);
        case Asking =>
          entry := entry.(tmr := entry.tmr - 1);
          if entry.tmr == 0 {
            entry := entry.(retries := entry.retries + 1);
            if entry.retries == lim.retries {
              if Backup(entry, valid) {
                entry := entry.(server := entry.server + 1, tmr := 1, retries := 0);
              } else {
                GiveUp(i);
                return;
              }
            } else {
              entry := entry.(tmr := entry.retries);
            }
            TableUpdate(lim, table, i, entry);
            table := table[i := entry];
            Send(i);
          } else {
            TableUpdate(lim, table, i, entry);
            table := table[i := entry];
          }
        case Done =>
          entry := if entry.ttl <= 1 then entry.(ttl := 0, state := Unused) else entry.(ttl := entry.ttl - 1);
          TableUpdate(lim, table, i, entry);
          table := table[i := entry];
        case Unused =>
      }
    }

    /** dns_tmr: one tick for every entry. */
    method Tick()
      requires Inv()
      modifies this`table, this`requests, this`called
      ensures Inv() && old(called) <= called
      ensures Progress(lim, old(table), old(requests), table, requests, called, 1)
      ensures |table| == |old(table)| && forall i | 0 <= i < |table| :: table[i] == Next(lim, old(table)[i], valid)
    {
      hide Once, DistinctIds, Rank, EntryOk, Next;
      for i := 0 to |table|
        invariant |table| == |old(table)| && Inv() && old(called) <= called && |requests| == |old(requests)|
        invariant forall k | 0 <= k < i :: table[k] == Next(lim, old(table)[k], valid)
        invariant forall k | i <= k < |table| :: table[k] == old(table)[k]
        invariant forall r | 0 <= r < |requests| && old(requests)[r].Waiting? ::
                  Ticked(lim, old(table), old(requests)[r], table, requests[r], called, i)
      {
        ghost var t0, q0, c0 := table, requests, called;
        assert table[i].state in {Done, Unused} ==> forall r | 0 <= r < |requests| && requests[r].Waiting? ::
            requests[r].idx != i;
        CheckEntry(i);
        LocalAttached(t0, q0, table, requests, called, i);
        forall r | 0 <= r < |requests| && old(requests)[r].Waiting?
          ensures Ticked(lim, old(table), old(requests)[r], table, requests[r], called, i + 1)
        {
          TickedOn(lim, old(table), old(requests)[r], t0, q0, r, c0, table, requests, called, i);
        }
      }
    }

    /** dns_correct_response */
    method CorrectResponse(i: nat, ttl: nat)
      requires TableOk(lim, table) && Once(requests, called, accepted) && i < |table|
      modifies this`table, this`requests, this`called
      ensures TableOk(lim, table) && Once(requests, called, accepted) && old(called) <= called
      ensures Local(old(table), old(requests), table, requests, called, i)
      ensures table[i] == Answered(old(table)[i], ttl)
    {
      hide Once, TableOk;
      var t := if ttl > MAX_TTL then MAX_TTL else ttl;
      var kind := if table[i].kind in {V6, V6ThenV4} then V6 else V4;
      var entry := table[i].(state := Done, ttl := t, kind := kind);
      TableUpdate(lim, table, i, entry);
      table := table[i := entry];
      CallFound(i);
      if t == 0 && table[i].state == Done {
        TableUpdate(lim, table, i, entry.(state := Unused));
        table := table[i := entry.(state := Unused)];
      }
    }

    /** The server cannot answer: the next one is asked, if there is one. */
    method AskNextServer(i: nat)
      requires TableOk(lim, table) && Once(requests, called, accepted) && i < |table| <= 0xff
      requires |valid| == lim.servers > 0 && lim.retries > 0 && table[i].state == Asking
      modifies this`table, this`requests, this`called
      ensures TableOk(lim, table) && Once(requests, called, accepted) && old(called) <= called
      ensures Local(old(table), old(requests), table, requests, called, i)
      ensures Reacts(old(table)[i], ServerError, table[i], valid)
      ensures table[i].state == Asking ==> Rank(lim, table[i]) <= Rank(lim, old(table)[i])
    {
      hide Once, Rank, DistinctIds;
      var entry := table[i];
      assert EntryOk(lim, entry);
      if Backup(entry, valid) {
        entry := entry.(retries := lim.retries - 1, tmr := 1);
        LastTry(lim, table[i], entry);
        TableUpdate(lim, table, i, entry);
        table := table[i := entry];
        CheckEntry(i);
      } else {
        GiveUp(i);
      }
    }

    /** There is no address of the wanted kind: the other kind is asked for, if that will do. */
    method AskOtherKind(i: nat)
      requires TableOk(lim, table) && Once(requests, called, accepted) && i < |table| <= 0xff
      requires |valid| == lim.servers > 0 && lim.retries > 0 && table[i].state == Asking
      modifies this`table, this`requests, this`called
      ensures TableOk(lim, table) && Once(requests, called, accepted) && old(called) <= called
      ensures Local(old(table), old(requests), table, requests, called, i) && table[i].state != New
      ensures Reacts(old(table)[i], NoAnswer, table[i], valid)
      ensures table[i].state == Asking ==> Rank(lim, table[i]) <= Rank(lim, old(table)[i])
    {
      hide Once, Rank, DistinctIds;
      var entry := table[i];
      assert EntryOk(lim, entry);
      if entry.kind in {V4ThenV6, V6ThenV4} {
        entry := entry.(kind := if entry.kind == V4ThenV6 then V6 else V4, state := New);
        TableUpdate(lim, table, i, entry);
        table := table[i := entry];
        CheckEntry(i);
        assert EntryOk(lim, table[i]);
        if table[i].state == Asking {
          SecondChoice(lim, old(table)[i], table[i]);
        }
      } else {
        GiveUp(i);
      }
    }

    /** The entry that has the transmission id, if there is one. */
    method FindTxid(txid: nat) returns (i: nat)
      ensures i <= |table| && (i < |table| ==> table[i].state == Asking && table[i].txid == txid)
      ensures forall k | 0 <= k < i :: !(table[k].state == Asking && table[k].txid == txid)
    {
      i := 0;
      while i < |table| && !(table[i].state == Asking && table[i].txid == txid)
        invariant 0 <= i <= |table|
        invariant forall k | 0 <= k < i :: !(table[k].state == Asking && table[k].txid == txid)
      {
        i := i + 1;
      }
    }

    /** dns_recv, once the packet has been read. */
    method Receive(txid: nat, verdict: Verdict)
      requires Inv()
      modifies this`table, this`requests, this`called
      ensures Inv() && old(called) <= called && |table| == |old(table)|
      ensures Progress(lim, old(table), old(requests), table, requests, called, 0)
      ensures forall i | 0 <= i < |table| ::
                if old(table)[i].state == Asking && old(table)[i].txid == txid
                then Reacts(old(table)[i], verdict, table[i], valid)
                else table[i] == old(table)[i]
    {
      hide Once, Rank, EntryOk;
      var i := FindTxid(txid);
      ProgressNone(lim, table, requests, called);
      if i == |table| || verdict == Ignored {
        return;
      }
      OnlyOne(lim, table, i);
      match verdict {
        case Answer(ttl) => CorrectResponse(i, ttl);
        case ServerError => AskNextServer(i);
        case NoAnswer => AskOtherKind(i);
        case Ignored =>
      }
      LocalProgress(lim, old(table), old(requests), table, requests, called, i);
    }

    /** A free place in the table of requests. */
    method FindFree() returns (r: nat)
      ensures r <= |requests| && (r < |requests| ==> requests[r] == Free)
      ensures forall k | 0 <= k < r :: requests[k] != Free
      ensures r < |requests| <==> HasFree(requests)
    {
      r := 0;
      while r < |requests| && requests[r] != Free
        invariant r <= |requests| && forall k | 0 <= k < r :: requests[k] != Free
      {
        r := r + 1;
      }
    }

    /** An unused entry, or else the oldest completed one; never one that is being asked for. */
    method FindSlot() returns (i: nat)
      ensures i <= |table| && (i < |table| ==> IsSlot(table, seqno, i))
      ensures i < |table| <==> HasSlot(table, seqno)
    {
      hide Age;
      var lseq, lseqi := 0, |table|;
      i := 0;
      while i < |table| && table[i].state != Unused
        invariant i <= |table|
        invariant forall k | 0 <= k < i ::
                    table[k].state != Unused && (table[k].state == Done ==> Age(table[k], seqno) <= lseq)
        invariant if lseqi == |table| then lseq == 0
                  else 0 <= lseqi < i && table[lseqi].state == Done && Age(table[lseqi], seqno) == lseq > 0
        invariant forall k | 0 <= k < lseqi && k < i && table[k].state == Done ::
                    lseq > 0 ==> Age(table[k], seqno) < lseq
      {
        if table[i].state == Done {
          var age := Age(table[i], seqno);
          if age > lseq {
            lseq, lseqi := age, i;
          }
        }
        i := i + 1;
      }
      if i == |table| {
        i := lseqi;
      }
    }

    /** The callback number `accepted` waits for entry `i`. */
    method Accept(r: nat, i: nat)
      requires Once(requests, called, accepted) && r < |requests| && requests[r] == Free
      modifies this`requests, this`accepted
      ensures Once(requests, called, accepted) && accepted == old(accepted) + 1
      ensures requests == old(requests)[r := Waiting(old(accepted), i)]
    {
      hide Once;
      OnceAccept(requests, called, accepted, r, i);
      requests := requests[r := Waiting(accepted, i)];
      accepted := accepted + 1;
    }

    /** The callback waits for an entry with its own name and kind of address. */
    ghost predicate WaitsFor(id: nat, name: Name, kind: Kind)
      reads this`table, this`requests
    {
      exists r :: 0 <= r < |requests| && Is(requests[r], id) && requests[r].idx < |table| &&
                  SameLetters(name, table[requests[r].idx].name) && table[requests[r].idx].kind == kind
    }

    /** A request for a name that is being asked for already joins it. */
    method Join(name: Name, kind: Kind) returns (joined: bool)
      requires Inv()
      modifies this`requests, this`accepted
      ensures Inv() && accepted == old(accepted) + if joined then 1 else 0
      ensures Progress(lim, old(table), old(requests), table, requests, called, 0)
      ensures if joined then WaitsFor(old(accepted), name, kind) else requests == old(requests)
      ensures joined <==> IsAsked(table, name, kind) && HasFree(old(requests))
    {
      hide Once, DistinctIds, Rank, EntryOk;
      ProgressNone(lim, table, requests, called);
      var i := 0;
      while i < |table|
        invariant 0 <= i <= |table| && requests == old(requests) && accepted == old(accepted) && Inv()
        invariant HasFree(requests) ==> forall k | 0 <= k < i ::
                    !(table[k].state == Asking && SameLetters(name, table[k].name) && table[k].kind == kind)
      {
        if table[i].state == Asking && SameLetters(name, table[i].name) && table[i].kind == kind {
          var r := FindFree();
          if r < |requests| {
            Accept(r, i);
            assert Is(requests[r], old(accepted));
            return true;
          }
        }
        i := i + 1;
      }
      joined := false;
    }

    /** dns_enqueue; `port` says whether a source port can be had.  It refuses if and only if no
        request is free, or the name has to be asked for and no slot or no port is free. */
    method Enqueue(name: Name, kind: Kind, port: bool) returns (err: Err)
      requires Inv()
      modifies this`table, this`requests, this`called, this`accepted, this`seqno
      ensures Inv() && old(called) <= called && accepted == old(accepted) + if err == InProgress then 1 else 0
      ensures err == InProgress <==>
                old(HasFree(requests) && (IsAsked(table, name, kind) || (HasSlot(table, seqno) && port)))
      ensures err == Mem ==> requests == old(requests) && called == old(called)
      ensures seqno == if err == Mem || old(IsAsked(table, name, kind)) then old(seqno) else (old(seqno) + 1) % 0x100
      ensures Enqueued(old(table), old(requests), old(seqno), name, kind, port, valid, table)
      ensures err == InProgress ==> old(accepted) in called || WaitsFor(old(accepted), name, kind)
      ensures Progress(lim, old(table), old(requests), table, requests, called, 0)
    {
      hide Once, DistinctIds, Rank, Forward, EntryOk, HasFree, HasSlot, IsAsked, IsSlot, FirstSent;
      var joined := Join(name, kind);
      if joined {
        return InProgress;
      }
      ProgressNone(lim, table, requests, called);
      var i := FindSlot();
      if i == |table| {
        return Mem;
      }
      var r := FindFree();
      if r == |requests| {
        return Mem;
      }
      SlotState(table, seqno, i);
      var entry := Filled(table[i], name, kind, seqno);
      if port {
        AskNew(i, r, entry);
        return InProgress;
      }
      EvictProgress(lim, table, requests, called, i, entry.(state := Unused));
      table := table[i := entry.(state := Unused)];
      err := Mem;
    }

    /** The new entry is filled in, a request waits for it and the query is sent. */
    method AskNew(i: nat, r: nat, entry: Entry)
      requires Inv() && i < |table| && table[i].state in {Unused, Done} && r < |requests| && requests[r] == Free
      requires entry.state == New
      modifies this`table, this`requests, this`called, this`accepted, this`seqno
      ensures Inv() && old(called) <= called && accepted == old(accepted) + 1 && seqno == (old(seqno) + 1) % 0x100
      ensures |table| == |old(table)| && table == old(table)[i := table[i]] && FirstSent(entry, table[i], valid)
      ensures old(accepted) in called || WaitsFor(old(accepted), entry.name, entry.kind)
      ensures Progress(lim, old(table), old(requests), table, requests, called, 0)
    {
      hide Once, DistinctIds, Rank, Forward;
      Accept(r, i);
      ghost var waiting := requests[r];
      TableUpdate(lim, table, i, entry);
      table := table[i := entry];
      seqno := (seqno + 1) % 0x100;
      CheckEntry(i);
      EnqueueProgress(lim, old(table), entry, old(requests), r, waiting, table, requests, called, i);
      SameName(entry.name);
    }

    /** dns_setserver */
    method SetServer(k: nat, set': bool)
      requires Inv()
      modifies this`valid
      ensures Inv() && valid == if k < |old(valid)| then old(valid)[k := set'] else old(valid)
    {
      hide Once, TableOk, Attached;
      if k < |valid| {
        valid := valid[k := set'];
      }
    }

    /** Any run: every accepted callback is called once or is waiting, and every request that was
        waiting at the start has been answered after a bounded number of ticks, whatever else
        happens. */
    method Run(events: seq<Event>)
      requires Inv()
      modifies this
      ensures Inv() && old(called) <= called
      ensures Progress(lim, old(table), old(requests), table, requests, called, Ticks(events))
      ensures Ticks(events) >= Ranks(lim) ==>
                forall r | 0 <= r < |old(requests)| && old(requests)[r].Waiting? :: old(requests)[r].id in called
    {
      hide Once, TableOk, Attached, Progress;
      ProgressNone(lim, table, requests, called);
      for i := 0 to |events|
        invariant Inv() && old(called) <= called
        invariant Progress(lim, old(table), old(requests), table, requests, called, Ticks(events[..i]))
      {
        ghost var t1, q1, c1 := table, requests, called;
        match events[i] {
          case TickEvent => Tick();
          case PacketEvent(txid, verdict) => Receive(txid, verdict);
          case RequestEvent(name, kind, port) => var err := Enqueue(name, kind, port);
          case ServerEvent(k, set') => SetServer(k, set'); ProgressNone(lim, table, requests, called);
        }
        ghost var d := if events[i] == TickEvent then 1 else 0;
        ProgressTwice(lim, old(table), old(requests), t1, q1, c1, Ticks(events[..i]), table, requests, called, d);
        TicksSnoc(events, i);
      }
      assert events[..|events|] == events;
      ProgressEnds(lim, old(table), old(requests), table, requests, called, Ticks(events));
    }
  }

  datatype Event =
    | TickEvent
    | PacketEvent(txid: nat, verdict: Verdict)
    | RequestEvent(name: Name, kind: Kind, port: bool)
    | ServerEvent(k: nat, set': bool)

  function Ticks(events: seq<Event>): nat {
    if events == [] then 0 else (if events[0] == TickEvent then 1 else 0) + Ticks(events[1..])
  }

  lemma {:induction false} TicksSnoc(events: seq<Event>, i: nat)
    requires i < |events|
    ensures Ticks(events[..i + 1]) == Ticks(events[..i]) + if events[i] == TickEvent then 1 else 0
  {
    if i > 0 {
      TicksSnoc(events[1..], i - 1);
      assert events[..i + 1][1..] == events[1..][..i] && events[..i][1..] == events[1..][..i - 1];
    }
  }

  /** With no tries left a request has been answered. */
  lemma ProgressEnds(lim: Limits, t0: seq<Entry>, q0: seq<Request>, t1: seq<Entry>, q1: seq<Request>,
                     called: seq<nat>, d: nat)
    requires TableOk(lim, t0) && TableOk(lim, t1) && Attached(t0, q0) && Attached(t1, q1)
    requires Progress(lim, t0, q0, t1, q1, called, d)
    ensures d >= Ranks(lim) ==> forall r | 0 <= r < |q0| && q0[r].Waiting? :: q0[r].id in called
  {
  }

  lemma EnqueueProgress(lim: Limits, t0: seq<Entry>, x: Entry, q0: seq<Request>, r: nat, w: Request,
                        t1: seq<Entry>, q1: seq<Request>, called: seq<nat>, i: nat)
    requires TableOk(lim, t0) && TableOk(lim, t1) && Attached(t0, q0) && i < |t0| && t0[i].state != Asking
    requires r < |q0| && q0[r] == Free && w.Waiting? && w.idx == i && Local(t0[i := x], q0[r := w], t1, q1, called, i)
    ensures Attached(t1, q1) && Progress(lim, t0, q0, t1, q1, called, 0)
  {
  }

  lemma SameName(name: Name)
    ensures SameLetters(name, name)
  {
  }

  lemma EvictProgress(lim: Limits, t0: seq<Entry>, q: seq<Request>, called: seq<nat>, i: nat, e: Entry)
    requires TableOk(lim, t0) && Attached(t0, q) && i < |t0| && t0[i].state in {Unused, Done} && e.state == Unused
    ensures var t1 := t0[i := e];
            TableOk(lim, t1) && Attached(t1, q) && Progress(lim, t0, q, t1, q, called, 0)
  {
    hide Rank;
    var t1 := t0[i := e];
    TableUpdate(lim, t0, i, e);
  }

  lemma SlotState(table: seq<Entry>, seqno: nat, i: nat)
    requires IsSlot(table, seqno, i)
    ensures i < |table| && table[i].state in {Unused, Done}
  {
  }

  lemma LastTry(lim: Limits, e: Entry, e': Entry)
    requires e.state == Asking && EntryOk(lim, e) && e' == e.(retries := lim.retries - 1, tmr := 1)
    ensures EntryOk(lim, e') && Rank(lim, e') <= Rank(lim, e)
  {
    hide Rank;
    if e' != e {
      FewerRank(lim, e, e');
    }
  }

  lemma SecondChoice(lim: Limits, e: Entry, e': Entry)
    requires e.state == Asking && e'.state == Asking && EntryOk(lim, e) && EntryOk(lim, e')
    requires e.kind in {V4ThenV6, V6ThenV4} && e'.kind in {V4, V6}
    ensures Rank(lim, e') < Rank(lim, e)
  {
    hide Rank;
    FewerRank(lim, e, e');
  }

  /** No other entry that is being asked for has the transmission id. */
  lemma OnlyOne(lim: Limits, table: seq<Entry>, i: nat)
    requires TableOk(lim, table) && i < |table| && table[i].state == Asking
    ensures forall k | 0 <= k < |table| && k != i :: !(table[k].state == Asking && table[k].txid == table[i].txid)
  {
  }

  /** A change of one entry is progress for every request. */
  lemma LocalProgress(lim: Limits, t0: seq<Entry>, q0: seq<Request>, t1: seq<Entry>, q1: seq<Request>,
                      called: seq<nat>, i: nat)
    requires TableOk(lim, t0) && TableOk(lim, t1) && Attached(t0, q0) && i < |t0| && Local(t0, q0, t1, q1, called, i)
    requires t0[i].state == Asking && (t1[i].state == Asking ==> Rank(lim, t1[i]) <= Rank(lim, t0[i]))
    ensures Attached(t1, q1) && Progress(lim, t0, q0, t1, q1, called, 0)
  {
  }

  /** A request after the entries below `k` have been ticked. */
  ghost predicate Ticked(lim: Limits, t0: seq<Entry>, a: Request, t1: seq<Entry>, b: Request, called: seq<nat>, k: nat)
    requires TableOk(lim, t0) && TableOk(lim, t1) && |t1| == |t0|
    requires a.Waiting? && a.idx < |t0| && t0[a.idx].state == Asking
    requires b.Waiting? ==> b.idx < |t1| && t1[b.idx].state == Asking
  {
    || a.id in called
    || (b == a && if a.idx < k then Rank(lim, t1[a.idx]) < Rank(lim, t0[a.idx]) else t1[a.idx] == t0[a.idx])
  }

  lemma TickedOn(lim: Limits, t0: seq<Entry>, a: Request, t1: seq<Entry>, q1: seq<Request>, r: nat, c1: seq<nat>,
                 t2: seq<Entry>, q2: seq<Request>, c2: seq<nat>, k: nat)
    requires TableOk(lim, t0) && TableOk(lim, t1) && TableOk(lim, t2) && |t1| == |t0|
    requires a.Waiting? && a.idx < |t0| && t0[a.idx].state == Asking
    requires Attached(t1, q1) && Attached(t2, q2) && r < |q1| == |q2| && c1 <= c2
    requires Ticked(lim, t0, a, t1, q1[r], c1, k)
    requires Local(t1, q1, t2, q2, c2, k)
    requires t1[k].state == Asking && t2[k].state == Asking ==> Rank(lim, t2[k]) < Rank(lim, t1[k])
    ensures Ticked(lim, t0, a, t2, q2[r], c2, k + 1)
  {
  }

  lemma {:induction false} NoneWaiting(requests: seq<Request>)
    requires forall r | 0 <= r < |requests| :: requests[r] == Free
    ensures Once(requests, [], 0)
  {
    forall id: nat ensures Count(requests, id) == 0 {
      NoneCounted(requests, id);
    }
  }

  lemma {:induction false} NoneCounted(requests: seq<Request>, id: nat)
    requires forall r | 0 <= r < |requests| :: requests[r] == Free
    ensures Count(requests, id) == 0
  {
    if requests != [] {
      NoneCounted(requests[1..], id);
    }
  }

  lemma AskedAlone(t0: seq<Entry>, q0: seq<Request>, seqno: nat, name: Name, kind: Kind, valid: seq<bool>,
                   t1: seq<Entry>)
    requires |t0| == 1 && t0[0].state == Unused && |q0| == 1 && q0[0] == Free && |valid| > 0 && valid[0]
    requires Enqueued(t0, q0, seqno, name, kind, true, valid, t1)
    ensures HasFree(q0) && HasSlot(t0, seqno) && !IsAsked(t0, name, kind)
    ensures |t1| == 1 && t1[0].state == Asking && t1[0].seqno == seqno && t1[0].kind == kind
  {
    assert q0[0] == Free && t0[0].state == Unused;
  }

  lemma DoneAlone(t: seq<Entry>, q: seq<Request>, seqno: nat, name: Name, kind: Kind)
    requires |t| == 1 && t[0].state == Done && Age(t[0], seqno) > 0 && |q| == 1 && q[0] == Free
    ensures HasFree(q) && HasSlot(t, seqno) && !IsAsked(t, name, kind) && NoneUnused(t)
  {
    assert q[0] == Free && t[0].state == Done;
  }

  /** No request waits for an entry that is not being asked for. */
  lemma NoneWaits(r: Resolver)
    requires r.Inv() && |r.table| == 1 && r.table[0].state != Asking
    ensures forall k | 0 <= k < |r.requests| :: r.requests[k] == Free
  {
  }

  lemma SameCount(lim: Limits, t0: seq<Entry>, q0: seq<Request>, t1: seq<Entry>, q1: seq<Request>,
                  called: seq<nat>, d: nat)
    requires TableOk(lim, t0) && TableOk(lim, t1) && Attached(t0, q0) && Attached(t1, q1)
    requires Progress(lim, t0, q0, t1, q1, called, d)
    ensures |q1| == |q0|
  {
  }

  /** The only entry holds an answer; a request for another name finds no port, is refused, and the
      answer is gone. */
  method LosesEntry(lim: Limits) returns (err: Err, before: Status, after: Status)
    requires lim.servers > 0 && lim.retries > 0
    ensures err == Mem && before == Done && after == Unused
  {
    hide Progress, Rank, Once, TableOk, HasFree, HasSlot, IsAsked, NoneUnused, Enqueued;
    var r := new Resolver(lim, 1, 1);
    r.SetServer(0, true);
    ghost var t, q := r.table, r.requests;
    err := r.Enqueue([97], V4, true);
    AskedAlone(t, q, 0, [97], V4, r.valid, r.table);
    SameCount(lim, t, q, r.table, r.requests, r.called, 0);
    t, q := r.table, r.requests;
    r.Receive(r.table[0].txid, Answer(100));
    SameCount(lim, t, q, r.table, r.requests, r.called, 0);
    before := r.table[0].state;
    NoneWaits(r);
    DoneAlone(r.table, r.requests, r.seqno, [98], V4);
    t, q := r.table, r.requests;
    err := r.Enqueue([98], V4, false);
    LosesIff(t, q, 1, [98], V4, false, r.valid, r.table);
    after := r.table[0].state;
  }
}
