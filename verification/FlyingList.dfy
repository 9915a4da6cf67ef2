/** The list of flying transfers, sorted by timeout: insertion, the scan that
    cancels expired transfers, and the question when to call in next. */
module FlyingList {
  import ListHead
  import opened TransferFlags

  datatype Timeval = Timeval(sec: int, usec: int)

  const UNSET := Timeval(0, 0)

  /** timerisset() */
  predicate IsSet(t: Timeval) { t.sec != 0 || t.usec != 0 }

  predicate Normal(t: Timeval) { t.sec >= 0 && 0 <= t.usec < 1000000 }

  predicate Later(a: Timeval, b: Timeval) {
    a.sec > b.sec || (a.sec == b.sec && a.usec > b.usec)
  }

  /** The moment in microseconds. */
  function Micros(t: Timeval): int { 1000000 * t.sec + t.usec }

  lemma LaterIsMicros(a: Timeval, b: Timeval)
    requires Normal(a) && Normal(b)
    ensures Later(a, b) <==> Micros(a) > Micros(b)
  {
  }

  /** timersub() */
  function Minus(a: Timeval, b: Timeval): (d: Timeval)
    requires Normal(a) && Normal(b)
    ensures Micros(d) == Micros(a) - Micros(b) && 0 <= d.usec < 1000000
  {
    if a.usec < b.usec then Timeval(a.sec - b.sec - 1, a.usec - b.usec + 1000000)
    else Timeval(a.sec - b.sec, a.usec - b.usec)
  }

  /** What the list knows about a transfer. */
  datatype Entry = Entry(timeout: Timeval, flags: Flags)

  /** The monotonic clock, or the error with which reading it failed. */
  datatype Clock = Time(now: Timeval) | Failed(error: int)

  // ----- what the list is for -----

  /** a may stand before b: timeouts ascend, infinite ones come last. */
  predicate NotAfter(a: Timeval, b: Timeval) { !IsSet(b) || (IsSet(a) && !Later(a, b)) }

  ghost predicate Sorted(es: seq<Entry>) {
    forall i, j | 0 <= i < j < |es| :: NotAfter(es[i].timeout, es[j].timeout)
  }

  /** Position p comes after all entries that are not later than t and before
      all others. */
  ghost predicate StablePlace(es: seq<Entry>, t: Timeval, p: nat) {
    && p <= |es|
    && (forall k | 0 <= k < p :: NotAfter(es[k].timeout, t))
    && (forall k | p <= k < |es| :: !NotAfter(es[k].timeout, t))
  }

  lemma StablePlaceKeepsSorted(es: seq<Entry>, e: Entry, p: nat)
    requires Sorted(es) && StablePlace(es, e.timeout, p)
    ensures Sorted(es[..p] + [e] + es[p..])
  {
  }

  /** In a sorted list a place that splits it locally splits it globally. */
  lemma PlaceFound(es: seq<Entry>, t: Timeval, p: nat)
    requires Sorted(es) && p <= |es| && (forall k | 0 <= k < p :: NotAfter(es[k].timeout, t))
    requires p < |es| ==> !NotAfter(es[p].timeout, t)
    ensures StablePlace(es, t, p)
  {
    forall k | p <= k < |es| ensures !NotAfter(es[k].timeout, t) {
      assert k == p || NotAfter(es[p].timeout, es[k].timeout);
    }
  }

  /** Does the library still have to deal with this timeout? */
  predicate Awaited(e: Entry) { IsSet(e.timeout) && !e.flags.timeoutHandled && !e.flags.osHandlesTimeout }

  predicate Due(e: Entry, now: Timeval) { Awaited(e) && !Later(e.timeout, now) }

  function Expired(e: Entry, r: int): Entry { e.(flags := TimedOut(e.flags, r)) }

  /** One pass of the timeout handling: exactly the due transfers are cancelled.
      The backend would answer answers[k] to the cancellation of transfer k. */
  ghost function Pass(es: seq<Entry>, now: Timeval, answers: seq<int>): (r: seq<Entry>)
    requires |answers| == |es|
    ensures |r| == |es|
  {
    seq(|es|, k requires 0 <= k < |es| => if Due(es[k], now) then Expired(es[k], answers[k]) else es[k])
  }

  /** Behind an unset or a future timeout nothing is due. */
  lemma NothingDueFrom(es: seq<Entry>, k: nat, now: Timeval)
    requires Sorted(es) && k < |es| && (!IsSet(es[k].timeout) || Later(es[k].timeout, now))
    ensures forall j | k <= j < |es| :: !Due(es[j], now)
  {
    forall j | k <= j < |es| ensures !Due(es[j], now) {
      assert j == k || NotAfter(es[k].timeout, es[j].timeout);
    }
  }

  ghost predicate NoneAwaited(es: seq<Entry>) {
    forall k | 0 <= k < |es| :: !Awaited(es[k])
  }

  /** Entry k has the earliest awaited timeout. */
  ghost predicate Earliest(es: seq<Entry>, k: nat) {
    && k < |es| && Awaited(es[k])
    && forall j | 0 <= j < |es| && Awaited(es[j]) :: Micros(es[k].timeout) <= Micros(es[j].timeout)
  }

  /** The time until t, zero if it has passed */
  function Remaining(t: Timeval, now: Timeval): int {
    if Micros(t) <= Micros(now) then 0 else Micros(t) - Micros(now)
  }

  /** What libusb_get_next_timeout() owes its caller: nothing to wait for, or the
      time until the earliest awaited timeout. */
  ghost predicate NextTimeoutIs(es: seq<Entry>, now: Timeval, r: int, tv: Timeval) {
    if NoneAwaited(es) then r == 0
    else r == 1 && Normal(tv) && exists k: nat :: Earliest(es, k) && Micros(tv) == Remaining(es[k].timeout, now)
  }

  ghost predicate AllNormal(es: seq<Entry>) {
    forall k | 0 <= k < |es| :: Normal(es[k].timeout)
  }

  ghost predicate SomethingDue(es: seq<Entry>, now: Timeval) {
    exists k :: 0 <= k < |es| && Due(es[k], now)
  }

  lemma DueIfEarliestDue(es: seq<Entry>, now: Timeval, k: nat)
    requires AllNormal(es) && Normal(now) && Earliest(es, k)
    ensures SomethingDue(es, now) <==> Micros(es[k].timeout) <= Micros(now)
  {
    LaterIsMicros(es[k].timeout, now);
    if SomethingDue(es, now) {
      var j :| 0 <= j < |es| && Due(es[j], now);
      LaterIsMicros(es[j].timeout, now);
    } else {
      assert !Due(es[k], now);
    }
  }

  lemma WaitIsForEarliest(es: seq<Entry>, now: Timeval, r: int, tv: Timeval) returns (k: nat)
    requires NextTimeoutIs(es, now, r, tv) && !NoneAwaited(es)
    ensures Earliest(es, k) && r == 1 && Normal(tv) && Micros(tv) == Remaining(es[k].timeout, now)
  {
    k :| Earliest(es, k) && Micros(tv) == Remaining(es[k].timeout, now);
  }

  lemma ZeroTime(tv: Timeval, t: Timeval, now: Timeval)
    requires Normal(tv) && Micros(tv) == Remaining(t, now)
    ensures tv == UNSET <==> Micros(t) <= Micros(now)
  {
  }

  lemma NothingDueIfNoneAwaited(es: seq<Entry>, now: Timeval)
    requires NoneAwaited(es)
    ensures !SomethingDue(es, now)
  {
  }

  /** Waiting is over exactly if a pass has something to do. */
  lemma ExpiredIffDue(es: seq<Entry>, now: Timeval, r: int, tv: Timeval)
    requires AllNormal(es) && Normal(now) && NextTimeoutIs(es, now, r, tv)
    ensures r == 1 && tv == UNSET <==> SomethingDue(es, now)
  {
    if NoneAwaited(es) {
      NothingDueIfNoneAwaited(es, now);
    } else {
      var k := WaitIsForEarliest(es, now, r, tv);
      DueIfEarliestDue(es, now, k);
      ZeroTime(tv, es[k].timeout, now);
    }
  }

  lemma PassKeeps(es: seq<Entry>, now: Timeval, answers: seq<int>)
    requires |answers| == |es|
    ensures Sorted(es) ==> Sorted(Pass(es, now, answers))
    ensures AllNormal(es) ==> AllNormal(Pass(es, now, answers))
    ensures forall k | 0 <= k < |es| :: !Due(Pass(es, now, answers)[k], now)
  {
    var es' := Pass(es, now, answers);
    assert forall k | 0 <= k < |es| :: es'[k].timeout == es[k].timeout;
  }

  /** A pass leaves nothing due: right after it, no caller is told to come back
      at once, whatever the backend answered. */
  lemma PassLeavesNothingDue(es: seq<Entry>, now: Timeval, answers: seq<int>, r: int, tv: Timeval)
    requires |answers| == |es| && AllNormal(es) && Normal(now)
    requires NextTimeoutIs(Pass(es, now, answers), now, r, tv)
    ensures !(r == 1 && tv == UNSET)
  {
    var es' := Pass(es, now, answers);
    PassKeeps(es, now, answers);
    ExpiredIffDue(es', now, r, tv);
  }

  // ----- the deadline of a transfer -----

  class Transfer {
    const list: ListHead.Entry // its place in the flying list
    var timeout: Timeval
    var flags: Flags
    var milliseconds: nat // the timeout that the user asked for, 0 for none

    constructor (milliseconds: nat)
      ensures this.milliseconds == milliseconds && timeout == UNSET
      ensures flags == NO_FLAGS && fresh(list) && ListHead.Ring([list])
    {
      list := new ListHead.Entry();
      this.milliseconds := milliseconds;
      timeout := UNSET;
      flags := NO_FLAGS;
    }

    function Data(): Entry
      reads this
    {
      Entry(timeout, flags)
    }

    /** calculate_timeout(); reading the monotonic clock returns answer and, if
        that is not negative, the time sec and nsec */
    method CalculateTimeout(answer: int, sec: nat, nsec: nat) returns (r: int)
      requires nsec < 1000000000
      modifies `timeout
      ensures milliseconds != 0 && answer < 0 ==> r == answer && timeout == old(timeout)
      ensures milliseconds == 0 || answer >= 0
              ==> r == 0 && timeout == Deadline(old(timeout), milliseconds, Timeval(sec, nsec / 1000))
    {
      if milliseconds == 0 {
        return 0;
      }
      r := answer;
      if r < 0 {
        return;
      }
      var s, ns := sec + milliseconds / 1000, nsec + (milliseconds % 1000) * 1000000;
      ghost var total := 1000000000 * s + ns;
      while ns >= 1000000000
        invariant s >= 0 && 0 <= ns < 2000000000 && total == 1000000000 * s + ns
      {
        ns := ns - 1000000000;
        s := s + 1;
      }
      assert ns / 1000 < 1000000;
      timeout := Timeval(s, ns / 1000);
      r := 0;
    }

    /** libusb_cancel_transfer(), when the backend answers r to it */
    method Cancel(answer: int) returns (r: int)
      modifies `flags
      ensures r == if old(flags.inFlight && !flags.cancelling) then answer else NOT_FOUND
      ensures flags.cancelling <==> old(flags.cancelling || flags.inFlight)
      ensures flags.disappeared <==>
                old(flags.disappeared) || (answer == NO_DEVICE && old(flags.inFlight && !flags.cancelling))
      ensures flags == old(flags).(cancelling := flags.cancelling, disappeared := flags.disappeared)
      ensures (flags, r) == Cancelled(old(flags), answer)
    {
      if !flags.inFlight || flags.cancelling {
        return NOT_FOUND;
      }
      r := answer;
      if r < 0 {
        if r == NO_DEVICE {
          flags := flags.(disappeared := true);
        }
      }
      flags := flags.(cancelling := true);
    }

    /** handle_timeout() */
    method HandleTimeout(answer: int)
      modifies `flags
      ensures flags.timeoutHandled && !Awaited(Data())
      ensures flags.timedOut <==>
                old(flags.timedOut) || (answer == SUCCESS && old(flags.inFlight && !flags.cancelling))
      ensures flags.cancelling <==> old(flags.cancelling || flags.inFlight)
      ensures flags == old(flags).(timeoutHandled := true, timedOut := flags.timedOut,
                                   cancelling := flags.cancelling, disappeared := flags.disappeared)
      ensures Data() == Expired(old(Data()), answer)
    {
      flags := flags.(timeoutHandled := true);
      var r := Cancel(answer);
      if r == SUCCESS {
        flags := flags.(timedOut := true);
      }
    }
  }

  /** The deadline that calculate_timeout() leaves in a transfer. */
  function Deadline(timeout: Timeval, milliseconds: nat, now: Timeval): Timeval {
    if milliseconds == 0 then timeout
    else Timeval((Micros(now) + 1000 * milliseconds) / 1000000, (Micros(now) + 1000 * milliseconds) % 1000000)
  }

  /** A transfer is to have no deadline exactly if the user asked for none.  When
      a transfer is submitted again that is so unless the user has meanwhile set
      a timeout back to none: then the previous deadline stays. */
  lemma DeadlineAsRequested(timeout: Timeval, milliseconds: nat, now: Timeval)
    requires Normal(timeout) && Normal(now)
    ensures (IsSet(Deadline(timeout, milliseconds, now)) <==> milliseconds != 0)
            <==> (milliseconds != 0 || !IsSet(timeout))
  {
    if milliseconds != 0 {
      assert Micros(Deadline(timeout, milliseconds, now)) == Micros(now) + 1000 * milliseconds > 0;
    }
  }

  lemma StaleDeadline()
    ensures var first := Deadline(UNSET, 500, Timeval(10, 0));
            first == Timeval(10, 500000) && Deadline(first, 0, Timeval(20, 0)) == first
  {
  }

  // ----- the list -----

  /** Data() of every transfer */
  function Entries(items: seq<Transfer>): (es: seq<Entry>)
    reads items
    ensures |es| == |items| && forall k | 0 <= k < |es| :: es[k] == items[k].Data()
  {
    seq(|items|, k requires 0 <= k < |items| reads items => items[k].Data())
  }

  /** The list entries of the transfers */
  function Nodes(items: seq<Transfer>): (nodes: seq<ListHead.Entry>)
    ensures |nodes| == |items| && forall k | 0 <= k < |nodes| :: nodes[k] == items[k].list
  {
    seq(|items|, k requires 0 <= k < |items| => items[k].list)
  }

  lemma NotListed(items: seq<Transfer>, transfer: Transfer)
    requires transfer.list !in Nodes(items)
    ensures transfer !in items
  {
    forall k | 0 <= k < |items| ensures items[k] != transfer {
      assert Nodes(items)[k] in Nodes(items);
    }
  }

  lemma NodesInserted(items: seq<Transfer>, transfer: Transfer, p: nat)
    requires p <= |items|
    ensures Nodes(items[..p] + [transfer] + items[p..]) == Nodes(items)[..p] + [transfer.list] + Nodes(items)[p..]
  {
  }

  lemma NodesRemoved(items: seq<Transfer>, p: nat)
    requires p < |items|
    ensures Nodes(items[..p] + items[p + 1..]) == Nodes(items)[..p] + Nodes(items)[p + 1..]
  {
  }

  /** The list is in order: no transfer is on it twice, and the timeouts ascend. */
  ghost predicate InOrder(items: seq<Transfer>, es: seq<Entry>) {
    |es| == |items| && ListHead.Distinct(items) && Sorted(es) && AllNormal(es)
  }

  /** Insertion at the place after all entries that are not later keeps the order. */
  lemma InOrderInserted(items: seq<Transfer>, es: seq<Entry>, transfer: Transfer, e: Entry, p: nat)
    requires InOrder(items, es) && transfer !in items && Normal(e.timeout) && StablePlace(es, e.timeout, p)
    ensures InOrder(items[..p] + [transfer] + items[p..], es[..p] + [e] + es[p..])
  {
    StablePlaceKeepsSorted(es, e, p);
  }

  lemma InOrderRemoved(items: seq<Transfer>, es: seq<Entry>, p: nat)
    requires InOrder(items, es) && p < |items|
    ensures InOrder(items[..p] + items[p + 1..], es[..p] + es[p + 1..])
    ensures items[p] !in items[..p] + items[p + 1..]
  {
  }

  lemma InOrderPassed(items: seq<Transfer>, es: seq<Entry>, now: Timeval, answers: seq<int>)
    requires InOrder(items, es) && |answers| == |es|
    ensures InOrder(items, Pass(es, now, answers))
  {
    PassKeeps(es, now, answers);
  }

  /** The pass has dealt with the first k transfers. */
  ghost predicate PassedTo(now: seq<Entry>, es: seq<Entry>, target: seq<Entry>, k: nat) {
    && k <= |now| == |es| == |target|
    && (forall j | 0 <= j < k :: now[j] == target[j]) && forall j | k <= j < |now| :: now[j] == es[j]
  }

  lemma EntriesInserted(items: seq<Transfer>, transfer: Transfer, p: nat)
    requires p <= |items|
    ensures Entries(items[..p] + [transfer] + items[p..])
            == Entries(items)[..p] + [transfer.Data()] + Entries(items)[p..]
  {
  }

  /** flying holds the transfers in the order in which the ring behind head has
      their list entries. */
  class Context {
    const head: ListHead.Entry
    var flying: seq<Transfer>

    ghost function Ring(): seq<ListHead.Entry>
      reads `flying
    {
      [head] + Nodes(flying)
    }

    ghost predicate Linked()
      reads `flying, Ring()
    {
      ListHead.Ring(Ring())
    }

    ghost predicate Valid()
      reads this, flying, Ring()
    {
      InOrder(flying, Entries(flying)) && Linked()
    }

    constructor ()
      ensures Valid() && flying == []
    {
      head := new ListHead.Entry();
      flying := [];
      new;
      assert Ring() == [head];
    }

    /** The search for the first entry that is later */
    method FindPlace(timeout: Timeval) returns (p: nat)
      requires Valid() && IsSet(timeout)
      ensures StablePlace(Entries(flying), timeout, p)
    {
      ghost var es := Entries(flying);
      p := 0;
      while p < |flying| && IsSet(flying[p].timeout) && !Later(flying[p].timeout, timeout)
        invariant p <= |flying|
        invariant forall j | 0 <= j < p :: NotAfter(es[j].timeout, timeout)
      {
        p := p + 1;
      }
      PlaceFound(es, timeout, p);
    }

    /** The end of the list, unless there are transfers to compare a timeout with */
    method PlaceFor(timeout: Timeval) returns (p: nat)
      requires Valid()
      ensures StablePlace(Entries(flying), timeout, p)
    {
      p := |flying|;
      if flying != [] && IsSet(timeout) {
        p := FindPlace(timeout);
      }
    }

    /** The transfer gets place k of the ring. */
    method Insert(transfer: Transfer, k: nat)
      requires Linked() && k <= |flying| && transfer.list !in Ring()
      modifies `flying, Ring(), transfer.list
      ensures Linked() && flying == old(flying[..k]) + [transfer] + old(flying[k..])
    {
      NodesInserted(flying, transfer, k);
      ListHead.Link(transfer.list, head, Nodes(flying), k);
      flying := flying[..k] + [transfer] + flying[k..];
    }

    /** add_to_flying_list() */
    method Add(transfer: Transfer) returns (ghost p: nat)
      requires Valid() && transfer.list !in Ring() && Normal(transfer.timeout)
      modifies `flying, Ring(), transfer.list
      ensures Valid()
      ensures StablePlace(Entries(old(flying)), transfer.timeout, p)
      ensures flying == old(flying[..p]) + [transfer] + old(flying[p..])
    {
      var k := PlaceFor(transfer.timeout);
      p := k;
      NotListed(flying, transfer);
      ghost var items, es := flying, Entries(flying);
      InOrderInserted(items, es, transfer, transfer.Data(), k);
      Insert(transfer, k);
      assert Entries(items) == es;
      EntriesInserted(items, transfer, k);
    }

    /** remove_from_flying_list(): the links of the transfer give its place p */
    method Remove(transfer: Transfer, p: nat)
      requires Valid() && p < |flying| && flying[p] == transfer
      modifies `flying, Ring()
      ensures Valid()
      ensures flying == old(flying[..p]) + old(flying[p + 1..]) && transfer !in flying
    {
      ghost var items, es := flying, Entries(flying);
      ListHead.Unlink(transfer.list, head, Nodes(items), p);
      flying := flying[..p] + flying[p + 1..];
      assert Entries(flying) == es[..p] + es[p + 1..];
      InOrderRemoved(items, es, p);
      NodesRemoved(items, p);
    }

    /** handle_timeout() for the transfer at place k */
    method TimeOut(k: nat, answer: int)
      requires k < |flying| && ListHead.Distinct(flying) && Linked()
      modifies flying[k]
      ensures Entries(flying) == old(Entries(flying))[k := Expired(old(flying[k].Data()), answer)] && Linked()
    {
      flying[k].HandleTimeout(answer);
    }

    /** handle_timeouts_locked() */
    method HandleTimeouts(clock: Clock, answers: seq<int>) returns (r: int)
      requires Valid() && |answers| == |flying|
      modifies flying
      ensures flying == old(flying) && Valid()
      ensures clock.Failed? || flying == [] ==> Entries(flying) == old(Entries(flying))
      ensures clock.Failed? ==> r == if flying == [] then 0 else clock.error
      ensures clock.Time? ==> r == 0 && Entries(flying) == Pass(old(Entries(flying)), clock.now, answers)
    {
      if flying == [] {
        return 0;
      }
      if clock.Failed? {
        return clock.error;
      }
      ghost var es, target := Entries(flying), Pass(Entries(flying), clock.now, answers);
      r := 0;
      var k := 0;
      while k < |flying|
        invariant k <= |flying| && Linked() && PassedTo(Entries(flying), es, target, k)
      {
        var transfer := flying[k];
        if !IsSet(transfer.timeout) {
          NothingDueFrom(es, k, clock.now);
          break;
        }
        if transfer.flags.timeoutHandled || transfer.flags.osHandlesTimeout {
          k := k + 1;
          continue;
        }
        if Later(transfer.timeout, clock.now) {
          NothingDueFrom(es, k, clock.now);
          break;
        }
        TimeOut(k, answers[k]);
        k := k + 1;
      }
      assert Entries(flying) == target;
      InOrderPassed(flying, es, clock.now, answers);
    }

    /** libusb_get_next_timeout(); tv is the caller's variable before and after */
    method GetNextTimeout(clock: Clock, tv: Timeval) returns (r: int, tv': Timeval)
      requires Valid() && (clock.Time? ==> Normal(clock.now))
      ensures clock.Time? ==> NextTimeoutIs(Entries(flying), clock.now, r, tv')
      ensures clock.Failed? ==> r == 0
      ensures r == 0 ==> tv' == tv
    {
      if flying == [] {
        return 0, tv;
      }
      ghost var es := Entries(flying);
      var next := UNSET;
      var k := 0;
      while k < |flying|
        invariant k <= |flying| && next == UNSET
        invariant forall j | 0 <= j < k :: !Awaited(es[j])
      {
        var transfer := flying[k];
        if transfer.flags.timeoutHandled || transfer.flags.osHandlesTimeout {
          k := k + 1;
          continue;
        }
        if !IsSet(transfer.timeout) {
          break;
        }
        next := transfer.timeout;
        break;
      }
      FirstAwaited(es, k);
      if !IsSet(next) {
        return 0, tv;
      }
      if clock.Failed? {
        return 0, tv;
      }
      NextTimeoutFound(es, k, clock.now);
      if !Later(next, clock.now) {
        return 1, UNSET;
      }
      return 1, Minus(next, clock.now);
    }
  }

  function RemainingTime(t: Timeval, now: Timeval): (tv: Timeval)
    requires Normal(t) && Normal(now)
    ensures Normal(tv) && Micros(tv) == Remaining(t, now)
  {
    LaterIsMicros(t, now);
    if Later(t, now) then Minus(t, now) else UNSET
  }

  lemma NextTimeoutFound(es: seq<Entry>, k: nat, now: Timeval)
    requires AllNormal(es) && Normal(now) && Earliest(es, k)
    ensures NextTimeoutIs(es, now, 1, RemainingTime(es[k].timeout, now))
  {
    assert !NoneAwaited(es);
  }

  /** The first unhandled entry has the earliest awaited timeout, if any. */
  lemma FirstAwaited(es: seq<Entry>, k: nat)
    requires Sorted(es) && AllNormal(es) && k <= |es| && (forall j | 0 <= j < k :: !Awaited(es[j]))
    requires k < |es| ==> Awaited(es[k]) || !IsSet(es[k].timeout)
    ensures if k < |es| && Awaited(es[k]) then Earliest(es, k) else NoneAwaited(es)
  {
    forall j | k < j < |es| && Awaited(es[j]) ensures Awaited(es[k]) && Micros(es[k].timeout) <= Micros(es[j].timeout) {
      assert NotAfter(es[k].timeout, es[j].timeout);
      LaterIsMicros(es[k].timeout, es[j].timeout);
    }
  }
}
