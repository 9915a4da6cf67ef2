/** Nothing ever gets stuck: from every reachable state the threads can finish what
    they are doing, and one of them can then handle all that is pending. */
module EventProgress {
  import opened EventData
  import opened EventLoop
  import opened FiniteSets
  import opened Wrappers

  // ----- the way home of one thread -----

  /** How far a program point is from the end of its function; those of
      libusb_close() count from its return. */
  function PcRank(pc: Pc): nat {
    match pc
    case Idle => 0
    case Broadcast | WaitDone | CloseBroadcast => 1
    case Release | WaitReadClose | Woken | CloseRelease => 2
    case ClearActive | WantWaiters | Asleep | CloseClearActive => 3
    case Poll | Backend(_) | WaitSleep | Retire => 4
    case Refresh | HotplugCallbacks(_, _) | InnerBroadcast => 5
    case SetActive | Drain | DrainMore(_, _) | InnerRelease => 6
    case Complete(_) | LockEvents | TryLock | InnerClearActive => 7
    case TryReadClose | InnerSetActive => 8
    case WaitReadActive | InnerLock => 9
    case CloseSetActive => 10
    case CloseLock => 11
    case Announce => 12
  }

  function ThreadRank(th: Thread): nat {
    PcRank(th.pc) + if th.resume.Some? then PcRank(th.resume.value) else 0
  }

  /** A step of t towards the end, whatever the others do next. */
  ghost predicate Homeward(t: Tid, th: Thread, c: Shared, th': Thread, c': Shared) {
    && LocalStep(t, th, c, th', c')
    && ThreadRank(th') + 2 * c'.data.completedTransfers < ThreadRank(th) + 2 * c.data.completedTransfers
  }

  /** Nothing keeps t waiting: it can have the events lock, and the event waiters lock
      is its own or free. */
  predicate Unhindered(t: Tid, th: Thread, c: Shared) {
    CanLock(c, t) && (HoldsWaiters(th.pc) || c.waitersLock.None?)
  }

  lemma PcRankFalls(pc: Pc, c: Shared)
    requires (OwnDepth(pc) > 0 || Announced(pc) || pc.Announce?) && !AboutToBroadcast(pc) && !Draining(pc)
    ensures PcRank(Onward(pc, c)) < PcRank(pc)
  {
  }

  lemma OnwardLeadsHome(t: Tid, pc: Pc, c: Shared)
    requires (OwnDepth(pc) > 0 || Announced(pc) || pc.Announce?) && !AboutToBroadcast(pc)
    ensures PcRank(Onward(pc, c)) + 2 * Effect(t, pc, c).data.completedTransfers
            < PcRank(pc) + 2 * c.data.completedTransfers
  {
    if !Draining(pc) {
      OnlyDrainingCompletes(t, pc, c);
      PcRankFalls(pc, c);
    }
  }

  lemma DebtorGoesHome(t: Tid, th: Thread, c: Shared) returns (th': Thread, c': Shared)
    requires SharedOk(c) && ThreadOk(t, th, c) && Unhindered(t, th, c)
    requires Owes(th) && !AboutToBroadcast(th.pc) && (Announced(th.pc) ==> c.data.deviceClose > 0)
    ensures Homeward(t, th, c, th', c')
  {
    th', c' := th.(pc := Onward(th.pc, c)), Effect(t, th.pc, c);
    OnwardLeadsHome(t, th.pc, c);
    OnwardIsAStep(t, th, c);
  }

  lemma BroadcasterGoesHome(t: Tid, th: Thread, c: Shared) returns (th': Thread, c': Shared)
    requires SharedOk(c) && ThreadOk(t, th, c) && Unhindered(t, th, c) && AboutToBroadcast(th.pc)
    ensures Homeward(t, th, c, th', c')
  {
    c' := c;
    th' := if th.pc == InnerBroadcast then th.(pc := Retire)
    else if th.pc == Broadcast then th.(pc := Idle)
    else Thread(if th.resume.Some? then th.resume.value else Idle, None);
  }

  /** A waiter finds its transfer completed, or handles events itself, or sleeps. */
  function Retreat(pc: Pc, c: Shared, t: Tid): Pc {
    match pc
    case TryReadClose => if c.data.deviceClose > 0 then WantWaiters else TryLock
    case TryLock => if CanLock(c, t) then SetActive else WantWaiters
    case LockEvents => SetActive
    case WantWaiters => WaitReadClose
    case WaitReadClose | Woken => WaitDone
    case WaitReadActive => if c.handlerActive then WaitSleep else TryReadClose
    case WaitSleep => Asleep
    case Announce => CloseLock
    case _ => Idle
  }

  function Retreats(pc: Pc, c: Shared, t: Tid): Shared {
    match pc
    case TryLock => if CanLock(c, t) then Locked(c, t) else c
    case LockEvents => Locked(c, t)
    case WantWaiters | Woken => c.(waitersLock := Some(t))
    case WaitReadActive => if c.handlerActive then c else c.(waitersLock := None)
    case WaitSleep | WaitDone => c.(waitersLock := None)
    case Announce => c.(data := CloseAnnounce(c.data))
    case _ => c
  }

  lemma WaiterGoesHome(t: Tid, th: Thread, c: Shared) returns (th': Thread, c': Shared)
    requires SharedOk(c) && ThreadOk(t, th, c)
    requires th.pc != Idle && th.pc != Asleep && !Owes(th) && (HoldsWaiters(th.pc) || Unhindered(t, th, c))
    ensures Homeward(t, th, c, th', c')
  {
    th', c' := th.(pc := Retreat(th.pc, c, t)), Retreats(th.pc, c, t);
  }

  /** A thread that is neither at rest nor asleep, and is not kept waiting, has a
      step towards the end. */
  lemma GoesHome(t: Tid, th: Thread, c: Shared) returns (th': Thread, c': Shared)
    requires SharedOk(c) && ThreadOk(t, th, c) && (Announced(th.pc) ==> c.data.deviceClose > 0)
    requires th.pc != Idle && th.pc != Asleep && (HoldsWaiters(th.pc) || Unhindered(t, th, c))
    ensures Homeward(t, th, c, th', c')
  {
    if AboutToBroadcast(th.pc) {
      th', c' := BroadcasterGoesHome(t, th, c);
    } else if Owes(th) {
      th', c' := DebtorGoesHome(t, th, c);
    } else {
      th', c' := WaiterGoesHome(t, th, c);
    }
  }

  // ----- all threads -----

  ghost predicate AllIdle(s: State) {
    forall t :: t in s.threads ==> s.threads[t] == Thread(Idle, None)
  }

  lemma HolderIsAwake(t: Tid, th: Thread, c: Shared)
    requires ThreadOk(t, th, c)
    ensures c.waitersLock == Some(t) ==> HoldsWaiters(th.pc)
    ensures c.lock.Held? && c.lock.owner == t ==> th.pc != Idle && th.pc != Asleep
  {
  }

  lemma AtRest(t: Tid, th: Thread, c: Shared)
    requires ThreadOk(t, th, c)
    ensures th.pc == Idle ==> th.resume.None? && !Owes(th)
    ensures th.pc == Asleep ==> Waits(th.pc) && !Owes(th)
  {
  }

  /** If a thread is not at rest, then one is that is not asleep either. */
  lemma SomeoneIsAwake(s: State) returns (t: Tid)
    requires Inv(s) && !AllIdle(s)
    ensures t in s.threads && s.threads[t].pc != Idle && s.threads[t].pc != Asleep
  {
    t :| t in s.threads && s.threads[t] != Thread(Idle, None);
    AtRest(t, s.threads[t], s.ctx);
    if s.threads[t].pc == Asleep {
      t :| t in s.threads && Owes(s.threads[t]);
      AtRest(t, s.threads[t], s.ctx);
    }
  }

  /** A thread that is not kept waiting: the one with the event waiters lock, or else
      the one with the events lock, or else any that is not asleep. */
  lemma SomeoneIsUnhindered(s: State) returns (t: Tid)
    requires Inv(s) && !AllIdle(s)
    ensures t in s.threads && s.threads[t].pc != Idle && s.threads[t].pc != Asleep
    ensures HoldsWaiters(s.threads[t].pc) || Unhindered(t, s.threads[t], s.ctx)
  {
    t := SomeoneIsAwake(s);
    if s.ctx.waitersLock.Some? {
      t := s.ctx.waitersLock.value;
    } else if s.ctx.lock.Held? {
      t := s.ctx.lock.owner;
    }
    HolderIsAwake(t, s.threads[t], s.ctx);
  }

  /** The ranks of all threads with a number below n */
  function RankSum(s: State, n: nat): nat {
    if n == 0 then 0 else RankSum(s, n - 1) + if n - 1 in s.threads then ThreadRank(s.threads[n - 1]) else 0
  }

  lemma {:induction false} RankSumFalls(s: State, s': State, t: Tid, n: nat)
    requires s'.threads.Keys == s.threads.Keys && t in s.threads
    requires forall u | u in s.threads && u != t :: ThreadRank(s'.threads[u]) <= ThreadRank(s.threads[u])
    ensures t >= n ==> RankSum(s', n) <= RankSum(s, n)
    ensures t < n ==>
              RankSum(s', n) + ThreadRank(s.threads[t]) <= RankSum(s, n) + ThreadRank(s'.threads[t])
  {
    if n > 0 {
      RankSumFalls(s, s', t, n - 1);
    }
  }

  function Left(s: State, n: nat): nat { RankSum(s, n) + 2 * s.ctx.data.completedTransfers }

  ghost predicate Below(s: State, n: nat) { forall t :: t in s.threads ==> t < n }

  lemma OthersHear(pc: Pc, th: Thread)
    ensures ThreadRank(Hears(pc, th)) <= ThreadRank(th)
  {
  }

  lemma LeftFalls(s: State, t: Tid, th: Thread, c: Shared, n: nat)
    requires t in s.threads && t < n
    requires ThreadRank(th) + 2 * c.data.completedTransfers
             < ThreadRank(s.threads[t]) + 2 * s.ctx.data.completedTransfers
    ensures Left(After(s, t, th, c), n) < Left(s, n)
  {
    var s' := After(s, t, th, c);
    forall u | u in s.threads && u != t ensures ThreadRank(s'.threads[u]) <= ThreadRank(s.threads[u]) {
      OthersHear(s.threads[t].pc, s.threads[u]);
    }
    assert s'.threads.Keys == s.threads.Keys;
    RankSumFalls(s, s', t, n);
  }

  lemma AwakeAfter(s: State, t: Tid, th: Thread, c: Shared)
    requires Inv(s) && t in s.threads && s.threads[t].pc != Asleep && LocalStep(t, s.threads[t], s.ctx, th, c)
    ensures var s' := After(s, t, th, c); AwakeStep(s, s') && Inv(s') && s'.threads.Keys == s.threads.Keys
  {
    AfterIsAStep(s, t, th, c);
    StepInv(s, t, After(s, t, th, c));
  }

  lemma SomeoneGoesHome(s: State, n: nat) returns (s': State)
    requires Inv(s) && !AllIdle(s) && Below(s, n)
    ensures AwakeStep(s, s') && Inv(s') && s'.threads.Keys == s.threads.Keys && Left(s', n) < Left(s, n)
  {
    var t := SomeoneIsUnhindered(s);
    assert ThreadOk(t, s.threads[t], s.ctx);
    assert t in Closers(s) <==> Announced(s.threads[t].pc);
    var th', c' := GoesHome(t, s.threads[t], s.ctx);
    AwakeAfter(s, t, th', c');
    LeftFalls(s, t, th', c', n);
    s' := After(s, t, th', c');
  }

  ghost predicate Leads(path: seq<State>, s: State) {
    IsAwakePath(path) && path[0] == s
  }

  lemma OneStepMore(s: State, s': State, rest: seq<State>)
    requires AwakeStep(s, s') && Leads(rest, s')
    ensures Leads([s] + rest, s) && ([s] + rest)[|rest|] == rest[|rest| - 1]
  {
    var path := [s] + rest;
    forall i | 0 <= i < |path| - 1 ensures AwakeStep(path[i], path[i + 1]) {
      assert i == 0 || (path[i] == rest[i - 1] && path[i + 1] == rest[i]);
    }
  }

  lemma {:induction false} AllGoHome(s: State, n: nat) returns (path: seq<State>)
    requires Inv(s) && Below(s, n)
    ensures Leads(path, s)
    ensures var s' := path[|path| - 1]; Inv(s') && AllIdle(s') && s'.threads.Keys == s.threads.Keys
    decreases Left(s, n)
  {
    if AllIdle(s) {
      path := [s];
    } else {
      var s' := SomeoneGoesHome(s, n);
      var rest := AllGoHome(s', n);
      OneStepMore(s, s', rest);
      path := [s] + rest;
    }
  }

  // ----- one thread handles what is pending -----

  /** What a thread alone knows in libusb_handle_events() of what is still pending */
  predicate Knows(pc: Pc, d: EventData) {
    match pc
    case Idle | TryReadClose | TryLock | SetActive | Refresh => true
    case Poll | Drain => !d.pollfdsModified
    case Complete(special) => !d.pollfdsModified && (special || d.hotplugMsgs == 0)
    case DrainMore(failed, special) => !failed && !d.pollfdsModified && (special || d.hotplugMsgs == 0)
    case HotplugCallbacks(failed, special) =>
      !failed && !d.pollfdsModified && d.completedTransfers == 0 && (special || d.hotplugMsgs == 0)
    case ClearActive | Release | Broadcast => !Pending(d)
    case _ => false
  }

  /** All but t are at rest, and t handles events. */
  ghost predicate Solo(s: State, t: Tid) {
    && Inv(s) && t in s.threads && s.threads[t].resume.None? && Knows(s.threads[t].pc, s.ctx.data)
    && forall u :: u in s.threads && u != t ==> s.threads[u] == Thread(Idle, None)
  }

  /** poll() finds the pipe readable as long as something is pending. */
  function Forward(pc: Pc, c: Shared): Pc {
    match pc
    case Idle => TryReadClose
    case TryReadClose => TryLock
    case TryLock => SetActive
    case SetActive => Refresh
    case Poll => if Pending(c.data) then Drain else ClearActive
    case Broadcast => Idle
    case _ => Onward(pc, c)
  }

  function Work(t: Tid, pc: Pc, c: Shared): Shared {
    if pc == TryLock then Locked(c, t) else Effect(t, pc, c)
  }

  function WorkRank(pc: Pc, d: EventData): nat {
    10 * d.hotplugMsgs + 2 * d.completedTransfers
    + match pc
      case Idle => if Pending(d) then 20 else 0
      case TryReadClose => 16
      case TryLock => 15
      case SetActive => 14
      case Refresh => 13
      case Poll => 12
      case Drain => 11
      case Complete(special) => if special then 15 else 7
      case DrainMore(_, special) => if special then 14 else 6
      case HotplugCallbacks(_, special) => if special then 13 else 5
      case ClearActive => 4
      case Release => 3
      case _ => 2
  }

  lemma AloneAtWork(s: State, t: Tid)
    requires Solo(s, t)
    ensures s.ctx.data.deviceClose == 0 && s.ctx.waitersLock.None? && CanLock(s.ctx, t)
  {
    forall u | u in s.threads ensures s.ctx.waitersLock != Some(u)
      ensures s.ctx.lock.Held? && s.ctx.lock.owner == u ==> u == t
    {
      assert ThreadOk(u, s.threads[u], s.ctx);
    }
    assert Closers(s) == {};
  }

  lemma Works(t: Tid, th: Thread, c: Shared)
    requires SharedOk(c) && ThreadOk(t, th, c) && th.resume.None? && Knows(th.pc, c.data)
    requires c.data.deviceClose == 0 && c.waitersLock.None? && CanLock(c, t)
    requires th.pc == Idle ==> Pending(c.data)
    ensures LocalStep(t, th, c, th.(pc := Forward(th.pc, c)), Work(t, th.pc, c)) && th.pc != Asleep
    ensures var d := Work(t, th.pc, c).data;
            Knows(Forward(th.pc, c), d) && WorkRank(Forward(th.pc, c), d) < WorkRank(th.pc, c.data)
  {
  }

  lemma WorksOn(s: State, t: Tid) returns (s': State)
    requires Solo(s, t) && (s.threads[t].pc == Idle ==> Pending(s.ctx.data))
    ensures AwakeStep(s, s') && Solo(s', t) && s'.threads.Keys == s.threads.Keys
    ensures WorkRank(s'.threads[t].pc, s'.ctx.data) < WorkRank(s.threads[t].pc, s.ctx.data)
  {
    var th := s.threads[t];
    AloneAtWork(s, t);
    assert ThreadOk(t, th, s.ctx);
    Works(t, th, s.ctx);
    var th', c' := th.(pc := Forward(th.pc, s.ctx)), Work(t, th.pc, s.ctx);
    s' := After(s, t, th', c');
    AfterIsAStep(s, t, th', c');
    StepInv(s, t, s');
  }

  ghost predicate Quiet(s: State) { AllIdle(s) && !Pending(s.ctx.data) }

  lemma {:induction false} WorksToTheEnd(s: State, t: Tid) returns (path: seq<State>)
    requires Solo(s, t)
    ensures Leads(path, s) && Quiet(path[|path| - 1])
    decreases WorkRank(s.threads[t].pc, s.ctx.data)
  {
    if s.threads[t].pc == Idle && !Pending(s.ctx.data) {
      path := [s];
    } else {
      var s' := WorksOn(s, t);
      var rest := WorksToTheEnd(s', t);
      OneStepMore(s, s', rest);
      path := [s] + rest;
    }
  }

  lemma Joined(a: seq<State>, b: seq<State>, s: State)
    requires Leads(a, s) && Leads(b, a[|a| - 1])
    ensures Leads(a + b[1..], s) && (a + b[1..])[|a + b[1..]| - 1] == b[|b| - 1]
  {
    var path := a + b[1..];
    forall i | 0 <= i < |path| - 1 ensures AwakeStep(path[i], path[i + 1]) {
      if i >= |a| - 1 {
        assert path[i] == b[i + 1 - |a|] && path[i + 1] == b[i + 2 - |a|];
      }
    }
  }

  /** No reachable state is a dead end: the threads that are awake can run so that all
      come to rest, without a wait timing out, and any one of them can then handle
      everything that is pending. */
  lemma EverythingCanBeHandled(run: seq<State>, t: Tid) returns (path: seq<State>)
    requires IsRun(run) && t in run[|run| - 1].threads
    ensures Leads(path, run[|run| - 1]) && Quiet(path[|path| - 1])
  {
    var s := run[|run| - 1];
    Reached(run, |run| - 1);
    var n := AllBelow(s.threads.Keys);
    path := AllGoHome(s, n);
    var rest := WorksToTheEnd(path[|path| - 1], t);
    Joined(path, rest, s);
    path := path + rest[1..];
  }
}
