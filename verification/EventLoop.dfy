/** The events lock, the event waiters and the event pipe of one libusb context
    as a machine over any number of threads.  Every lock-protected block of the
    library is one step; between two steps any other thread may run. */
module EventLoop {
  import opened EventData
  import opened Wrappers

  type Tid = nat

  /** What a thread does next.  A thread is inside one of
      libusb_handle_events_timeout_completed(), libusb_lock_events() followed by
      handle_events() and libusb_unlock_events(), or libusb_close(). */
  datatype Pc =
    | Idle
      // libusb_try_lock_events(), libusb_lock_events()
    | TryReadClose
    | TryLock
    | LockEvents
    | SetActive
      // handle_events()
    | Refresh
    | Poll
    | Drain
    | Complete(special: bool)
    | DrainMore(failed: bool, special: bool)
    | HotplugCallbacks(failed: bool, special: bool)
    | Backend(special: bool)
      // libusb_unlock_events()
    | ClearActive
    | Release
    | Broadcast
      // libusb_lock_event_waiters(), libusb_wait_for_event()
    | WantWaiters
    | WaitReadClose
    | WaitReadActive
    | WaitSleep
    | Asleep
    | Woken
    | WaitDone
      // libusb_close() with the nested lock and unlock of do_close()
    | Announce
    | CloseLock
    | CloseSetActive
    | InnerLock
    | InnerSetActive
    | InnerClearActive
    | InnerRelease
    | InnerBroadcast
    | Retire
    | CloseClearActive
    | CloseRelease
    | CloseBroadcast

  /** resume is where a thread continues that called libusb_close() from a
      callback, that is, while it was handling events. */
  datatype Thread = Thread(pc: Pc, resume: Option<Pc>)

  /** The recursive mutex events_lock. */
  datatype Lock = Free | Held(owner: Tid, depth: nat)

  /** What the threads share. */
  datatype Shared = Shared(
    lock: Lock,
    handlerActive: bool,
    waitersLock: Option<Tid>,
    data: EventData)

  datatype State = State(threads: map<Tid, Thread>, ctx: Shared)

  // ----- steps -----

  predicate CanLock(c: Shared, t: Tid) {
    c.lock.Held? ==> c.lock.owner == t
  }

  function Locked(c: Shared, t: Tid): Shared {
    c.(lock := Held(t, if c.lock.Held? then c.lock.depth + 1 else 1))
  }

  function Unlocked(c: Shared): Shared {
    c.(lock := if c.lock.Held? && c.lock.depth > 1 then c.lock.(depth := c.lock.depth - 1) else Free)
  }

  /** One step of thread t, from local state th and shared state c to th' and c'. */
  predicate LocalStep(t: Tid, th: Thread, c: Shared, th': Thread, c': Shared) {
    if th.pc == CloseBroadcast then
      // back to the application or to the callback that closed the device
      && c.waitersLock.None? && c' == c
      && th' == Thread(if th.resume.Some? then th.resume.value else Idle, None)
    else if th'.resume == th.resume then
      || HandlerMoves(th.pc, c, th'.pc, c')
      || DrainMoves(th.pc, c, th'.pc, c')
      || LockMoves(t, th.pc, c, th'.pc, c')
      || WaiterMoves(t, th.pc, c, th'.pc, c')
      || CloserMoves(t, th.pc, c, th'.pc, c')
      || InnerMoves(t, th.pc, c, th'.pc, c')
    else
      // a callback calls libusb_close()
      CallbackPc(th.pc) && c' == c && th' == Thread(Announce, Some(th.pc))
  }

  /** handle_events() while it drains the event pipe */
  predicate DrainMoves(pc: Pc, c: Shared, pc': Pc, c': Shared) {
    match pc
    case Drain => Drains(c, TakeHotplug(c.data), false, c.data.hotplugMsgs > 0, pc', c')
    case DrainMore(failed, special) => Drains(c, c.data, failed, special, pc', c')
    case _ => false
  }

  /** The rest of handle_events() */
  predicate HandlerMoves(pc: Pc, c: Shared, pc': Pc, c': Shared) {
    match pc
    case Refresh =>
      || (c' == c.(data := RefreshPollfds(c.data)) && pc' == Poll)
      || (c.data.pollfdsModified && c' == c && pc' == ClearActive) // no memory for the poll set
    case Poll =>
      // the pipe is readable; only other descriptors are; timeout, signal or error
      c' == c && ((c.data.bytes > 0 && pc' == Drain) || pc' == Backend(false) || pc' == ClearActive)
    case Complete(special) => c' == c && (pc' == DrainMore(false, special) || pc' == DrainMore(true, special))
    case HotplugCallbacks(failed, special) =>
      && c' == c
      && (if failed then pc' == ClearActive
          else pc' == Backend(special) || pc' == if special then Poll else ClearActive)
    case Backend(special) => c' == c && (pc' == ClearActive || (special && pc' == Poll))
    case _ => false
  }

  /** libusb_try_lock_events(), libusb_lock_events() and libusb_unlock_events() */
  predicate LockMoves(t: Tid, pc: Pc, c: Shared, pc': Pc, c': Shared) {
    match pc
    case TryLock =>
      if CanLock(c, t) then c' == Locked(c, t) && pc' == SetActive else c' == c && pc' == WantWaiters
    case LockEvents => CanLock(c, t) && c' == Locked(c, t) && pc' == SetActive
    case SetActive =>
      // with *completed already set the thread gives the lock back at once
      c' == c.(handlerActive := true) && (pc' == Refresh || pc' == ClearActive)
    case ClearActive => c' == c.(handlerActive := false) && pc' == Release
    case Release => c' == Unlocked(c) && pc' == Broadcast
    case Broadcast => c.waitersLock.None? && c' == c && pc' == Idle
    case _ => false
  }

  /** The rest of libusb_handle_events_timeout_completed(): become a waiter. */
  predicate WaiterMoves(t: Tid, pc: Pc, c: Shared, pc': Pc, c': Shared) {
    match pc
    case Idle => c' == c && (pc' == TryReadClose || pc' == LockEvents || pc' == Announce)
    case TryReadClose => c' == c && pc' == if c.data.deviceClose > 0 then WantWaiters else TryLock
    case WantWaiters => c.waitersLock.None? && c' == c.(waitersLock := Some(t)) && pc' == WaitReadClose
    case WaitReadClose =>
      // *completed may have been set meanwhile
      c' == c && (pc' == WaitDone || pc' == if c.data.deviceClose > 0 then WaitSleep else WaitReadActive)
    case WaitReadActive =>
      if c.handlerActive then c' == c && pc' == WaitSleep
      else c' == c.(waitersLock := None) && pc' == TryReadClose
    case WaitSleep => c' == c.(waitersLock := None) && pc' == Asleep
    case Asleep => c' == c && pc' == Woken // the wait timed out
    case Woken => c.waitersLock.None? && c' == c.(waitersLock := Some(t)) && pc' == WaitDone
    case WaitDone => c' == c.(waitersLock := None) && pc' == Idle
    case _ => false
  }

  /** do_close() */
  predicate InnerMoves(t: Tid, pc: Pc, c: Shared, pc': Pc, c': Shared) {
    match pc
    case InnerLock => CanLock(c, t) && c' == Locked(c, t) && pc' == InnerSetActive
    case InnerSetActive => c' == c.(handlerActive := true) && pc' == InnerClearActive
    case InnerClearActive => c' == c.(handlerActive := false) && pc' == InnerRelease
    case InnerRelease => c' == Unlocked(c) && pc' == InnerBroadcast
    case InnerBroadcast => c.waitersLock.None? && c' == c && pc' == Retire
    case _ => false
  }

  /** libusb_close() */
  predicate CloserMoves(t: Tid, pc: Pc, c: Shared, pc': Pc, c': Shared) {
    match pc
    case Announce => c' == c.(data := CloseAnnounce(c.data)) && pc' == CloseLock
    case CloseLock => CanLock(c, t) && c' == Locked(c, t) && pc' == CloseSetActive
    case CloseSetActive => c' == c.(handlerActive := true) && pc' == InnerLock
    case Retire => c.data.deviceClose > 0 && c' == c.(data := CloseRetire(c.data)) && pc' == CloseClearActive
    case CloseClearActive => c' == c.(handlerActive := false) && pc' == CloseRelease
    case CloseRelease => c' == Unlocked(c) && pc' == CloseBroadcast
    case _ => false
  }

  predicate Drains(c: Shared, d: EventData, failed: bool, special: bool, pc': Pc, c': Shared) {
    && c' == c.(data := DrainTurn(d, failed))
    && pc' == if DrainContinues(d, failed) then Complete(special) else HotplugCallbacks(failed, special)
  }

  /** A broadcast wakes every thread that is asleep. */
  function Hears(pc: Pc, th: Thread): Thread {
    if AboutToBroadcast(pc) && th.pc == Asleep then th.(pc := Woken) else th
  }

  ghost predicate ThreadStep(s: State, t: Tid, s': State)
    requires t in s.threads
  {
    && s'.threads.Keys == s.threads.Keys
    && LocalStep(t, s.threads[t], s.ctx, s'.threads[t], s'.ctx)
    && forall u :: u in s.threads && u != t ==> s'.threads[u] == Hears(s.threads[t].pc, s.threads[u])
  }

  /** Events are produced by any thread at any time: descriptors come and go,
      devices are plugged in and out, the backend completes transfers. */
  predicate ProducerStep(s: State, s': State) {
    && s'.threads == s.threads
    && s'.ctx == s.ctx.(data := s'.ctx.data)
    && (|| s'.ctx.data == FdNotification(s.ctx.data)
        || s'.ctx.data == HotplugNotification(s.ctx.data)
        || s'.ctx.data == SignalTransferCompletion(s.ctx.data))
  }

  ghost predicate Next(s: State, s': State) {
    ProducerStep(s, s') || exists t :: t in s.threads && ThreadStep(s, t, s')
  }

  ghost predicate Init(s: State) {
    && (forall t :: t in s.threads ==> s.threads[t] == Thread(Idle, None))
    && s.ctx == Shared(Free, false, None, FreshData())
  }

  ghost predicate IsPath(run: seq<State>) {
    |run| > 0 && forall i :: 0 <= i < |run| - 1 ==> Next(run[i], run[i + 1])
  }

  ghost predicate IsRun(run: seq<State>) {
    IsPath(run) && Init(run[0])
  }

  // ----- what each program point holds -----

  /** How often the code at pc holds the events lock itself. */
  function OwnDepth(pc: Pc): nat {
    match pc
    case SetActive | Refresh | Poll | Drain | Complete(_) | DrainMore(_, _)
       | HotplugCallbacks(_, _) | Backend(_) | ClearActive | Release => 1
    case CloseSetActive | InnerLock | InnerBroadcast | Retire | CloseClearActive | CloseRelease => 1
    case InnerSetActive | InnerClearActive | InnerRelease => 2
    case _ => 0
  }

  function Depth(th: Thread): nat {
    OwnDepth(th.pc) + if th.resume.Some? then 1 else 0
  }

  /** Between device_close++ and device_close--. */
  predicate Announced(pc: Pc) {
    pc.CloseLock? || pc.CloseSetActive? || pc.InnerLock? || pc.InnerSetActive? || pc.InnerClearActive?
    || pc.InnerRelease? || pc.InnerBroadcast? || pc.Retire?
  }

  predicate ClosePc(pc: Pc) {
    Announced(pc) || pc.Announce? || pc.CloseClearActive? || pc.CloseRelease? || pc.CloseBroadcast?
  }

  predicate CallbackPc(pc: Pc) {
    pc.Complete? || pc.HotplugCallbacks? || pc.Backend?
  }

  predicate AboutToBroadcast(pc: Pc) {
    pc.Broadcast? || pc.InnerBroadcast? || pc.CloseBroadcast?
  }

  predicate HoldsWaiters(pc: Pc) {
    pc.WaitReadClose? || pc.WaitReadActive? || pc.WaitSleep? || pc.WaitDone?
  }

  /** A thread that must still broadcast: it holds the events lock, has released
      it but not broadcast yet, or has announced a close. */
  predicate Owes(th: Thread) {
    Depth(th) > 0 || AboutToBroadcast(th.pc) || Announced(th.pc)
  }

  predicate Waits(pc: Pc) {
    pc.WaitSleep? || pc.Asleep?
  }

  /** From the moment poll() reported the pipe readable until the drain loop has
      decided whether to read it. */
  predicate WindowPc(pc: Pc) {
    pc.Drain? || pc.Complete? || pc.DrainMore?
  }

  predicate InWindow(th: Thread) {
    WindowPc(th.pc) || (th.resume.Some? && WindowPc(th.resume.value))
  }

  /** Something is pending besides one announced close. */
  predicate PendingBesidesClose(d: EventData) {
    d.deviceClose > 1 || d.pollfdsModified || d.hotplugMsgs > 0 || d.completedTransfers > 0
  }

  // ----- the invariant -----

  predicate ThreadOk(t: Tid, th: Thread, c: Shared) {
    LocksOk(t, th, c) && PipeOk(th, c.data)
  }

  /** The locks a thread holds are those its program point says. */
  predicate LocksOk(t: Tid, th: Thread, c: Shared) {
    && (th.resume.Some? ==> ClosePc(th.pc) && CallbackPc(th.resume.value))
    && (Depth(th) > 0 <==> c.lock.Held? && c.lock.owner == t)
    && (Depth(th) > 0 ==> c.lock.depth == Depth(th))
    && (HoldsWaiters(th.pc) <==> c.waitersLock == Some(t))
    && ((th.pc.Release? || th.pc.InnerRelease? || th.pc.CloseRelease?) ==> !c.handlerActive)
  }

  /** A thread that may read the pipe will find a byte in it. */
  predicate PipeOk(th: Thread, d: EventData) {
    && (InWindow(th) ==> d.bytes >= 1)
    && (InWindow(th) && Announced(th.pc) ==> d.bytes >= 2 || PendingBesidesClose(d))
  }

  predicate SharedOk(c: Shared) {
    (c.handlerActive ==> c.lock.Held?) && Readable(c.data)
  }

  ghost function Closers(s: State): set<Tid> {
    set t | t in s.threads && Announced(s.threads[t].pc)
  }

  ghost predicate Inv(s: State) {
    && SharedOk(s.ctx)
    && (forall t :: t in s.threads ==> ThreadOk(t, s.threads[t], s.ctx))
    && (s.ctx.lock.Held? ==> s.ctx.lock.owner in s.threads)
    && (s.ctx.waitersLock.Some? ==> s.ctx.waitersLock.value in s.threads)
    && s.ctx.data.deviceClose == |Closers(s)|
    && ((exists t :: t in s.threads && Waits(s.threads[t].pc)) ==> exists u :: u in s.threads && Owes(s.threads[u]))
  }

  // ----- one step keeps the invariant -----

  /** What a step of thread t may do to the context under the eyes of the others. */
  predicate Guarantee(t: Tid, c: Shared, c': Shared) {
    && (c'.lock == c.lock || (CanLock(c, t) && CanLock(c', t)))
    && (c'.handlerActive == c.handlerActive || (c.lock.Held? && c.lock.owner == t))
    && (c'.waitersLock == c.waitersLock || (c.waitersLock == None && c'.waitersLock == Some(t))
        || (c.waitersLock == Some(t) && c'.waitersLock == None))
    && (c'.data == c.data || c'.data == CloseAnnounce(c.data) || (c.lock.Held? && c.lock.owner == t))
  }

  /** A thread stops owing only by a broadcast, and starts to wait only while
      some thread owes one. */
  predicate DebtOk(th: Thread, c: Shared, th': Thread) {
    && (Owes(th) && !Owes(th') ==> AboutToBroadcast(th.pc))
    && (AboutToBroadcast(th.pc) ==> c.waitersLock == None)
    && (Waits(th'.pc) && !Waits(th.pc) ==> c.data.deviceClose > 0 || c.lock.Held?)
    && (Waits(th'.pc) ==> !Owes(th))
  }

  predicate StepOk(t: Tid, th: Thread, c: Shared, th': Thread, c': Shared) {
    && ThreadOk(t, th', c') && SharedOk(c')
    && Guarantee(t, c, c')
    && DebtOk(th, c, th')
    && c'.data.deviceClose ==
       c.data.deviceClose + (if Announced(th'.pc) then 1 else 0) - (if Announced(th.pc) then 1 else 0)
  }

  lemma WaiterStateOk(t: Tid, th: Thread, c: Shared, th': Thread, c': Shared)
    requires SharedOk(c) && ThreadOk(t, th, c)
    requires th'.resume == th.resume && WaiterMoves(t, th.pc, c, th'.pc, c')
    ensures ThreadOk(t, th', c') && SharedOk(c')
  {
  }

  lemma WaiterStepOk(t: Tid, th: Thread, c: Shared, th': Thread, c': Shared)
    requires SharedOk(c) && ThreadOk(t, th, c)
    requires th'.resume == th.resume && WaiterMoves(t, th.pc, c, th'.pc, c')
    ensures StepOk(t, th, c, th', c')
  {
    WaiterStateOk(t, th, c, th', c');
  }

  lemma CloserStepOk(t: Tid, th: Thread, c: Shared, th': Thread, c': Shared)
    requires SharedOk(c) && ThreadOk(t, th, c)
    requires th'.resume == th.resume && CloserMoves(t, th.pc, c, th'.pc, c')
    ensures StepOk(t, th, c, th', c')
  {
  }

  lemma InnerStepOk(t: Tid, th: Thread, c: Shared, th': Thread, c': Shared)
    requires SharedOk(c) && ThreadOk(t, th, c)
    requires th'.resume == th.resume && InnerMoves(t, th.pc, c, th'.pc, c')
    ensures StepOk(t, th, c, th', c')
  {
  }

  lemma HandlerStepOk(t: Tid, th: Thread, c: Shared, th': Thread, c': Shared)
    requires SharedOk(c) && ThreadOk(t, th, c)
    requires th'.resume == th.resume && HandlerMoves(th.pc, c, th'.pc, c')
    ensures StepOk(t, th, c, th', c')
  {
  }

  lemma DrainStepOk(t: Tid, th: Thread, c: Shared, th': Thread, c': Shared)
    requires SharedOk(c) && ThreadOk(t, th, c)
    requires th'.resume == th.resume && DrainMoves(th.pc, c, th'.pc, c')
    ensures StepOk(t, th, c, th', c')
  {
  }

  lemma LockStepOk(t: Tid, th: Thread, c: Shared, th': Thread, c': Shared)
    requires SharedOk(c) && ThreadOk(t, th, c)
    requires th'.resume == th.resume && LockMoves(t, th.pc, c, th'.pc, c')
    ensures StepOk(t, th, c, th', c')
  {
  }

  lemma CloseReturns(t: Tid, th: Thread, c: Shared, th': Thread, c': Shared)
    requires SharedOk(c) && ThreadOk(t, th, c) && th.pc == CloseBroadcast && LocalStep(t, th, c, th', c')
    ensures StepOk(t, th, c, th', c')
  {
  }

  lemma CallbackCloses(t: Tid, th: Thread, c: Shared, th': Thread, c': Shared)
    requires SharedOk(c) && ThreadOk(t, th, c) && th.pc != CloseBroadcast && th'.resume != th.resume
    requires LocalStep(t, th, c, th', c')
    ensures StepOk(t, th, c, th', c')
  {
  }

  lemma LocalStepOk(t: Tid, th: Thread, c: Shared, th': Thread, c': Shared)
    requires SharedOk(c) && ThreadOk(t, th, c) && LocalStep(t, th, c, th', c')
    ensures StepOk(t, th, c, th', c')
  {
    if th.pc == CloseBroadcast {
      CloseReturns(t, th, c, th', c');
    } else if th'.resume != th.resume {
      CallbackCloses(t, th, c, th', c');
    } else if HandlerMoves(th.pc, c, th'.pc, c') {
      HandlerStepOk(t, th, c, th', c');
    } else if DrainMoves(th.pc, c, th'.pc, c') {
      DrainStepOk(t, th, c, th', c');
    } else if LockMoves(t, th.pc, c, th'.pc, c') {
      LockStepOk(t, th, c, th', c');
    } else if WaiterMoves(t, th.pc, c, th'.pc, c') {
      WaiterStepOk(t, th, c, th', c');
    } else if CloserMoves(t, th.pc, c, th'.pc, c') {
      CloserStepOk(t, th, c, th', c');
    } else {
      InnerStepOk(t, th, c, th', c');
    }
  }

  lemma OtherOk(t: Tid, c: Shared, c': Shared, u: Tid, pc: Pc, other: Thread)
    requires SharedOk(c) && Guarantee(t, c, c')
    requires u != t && ThreadOk(u, other, c)
    ensures ThreadOk(u, Hears(pc, other), c')
  {
  }

  lemma StepClosers(s: State, t: Tid, s': State)
    requires t in s.threads && s'.threads.Keys == s.threads.Keys
    requires forall u :: u in s.threads && u != t ==> Announced(s'.threads[u].pc) == Announced(s.threads[u].pc)
    ensures |Closers(s')| ==
            |Closers(s)| + (if Announced(s'.threads[t].pc) then 1 else 0)
            - (if Announced(s.threads[t].pc) then 1 else 0)
  {
    assert Closers(s') - {t} == Closers(s) - {t};
    assert |Closers(s')| == |Closers(s') - {t}| + if t in Closers(s') then 1 else 0;
    assert |Closers(s)| == |Closers(s) - {t}| + if t in Closers(s) then 1 else 0;
  }

  lemma SomeoneOwes(s: State)
    requires Inv(s) && (s.ctx.data.deviceClose > 0 || s.ctx.lock.Held?)
    ensures exists u :: u in s.threads && Owes(s.threads[u])
  {
    if s.ctx.data.deviceClose > 0 {
      assert Closers(s) != {};
      var u :| u in Closers(s);
      assert Owes(s.threads[u]);
    } else {
      assert ThreadOk(s.ctx.lock.owner, s.threads[s.ctx.lock.owner], s.ctx);
      assert Owes(s.threads[s.ctx.lock.owner]);
    }
  }

  lemma StepOwes(s: State, t: Tid, s': State, w: Tid)
    requires Inv(s) && t in s.threads && ThreadStep(s, t, s')
    requires w in s'.threads && Waits(s'.threads[w].pc)
    ensures exists u :: u in s'.threads && Owes(s'.threads[u])
  {
    LocalStepOk(t, s.threads[t], s.ctx, s'.threads[t], s'.ctx);
    assert ThreadOk(w, s.threads[w], s.ctx);
    if !Waits(s.threads[w].pc) {
      SomeoneOwes(s);
    }
    var u :| u in s.threads && Owes(s.threads[u]);
    assert Owes(s'.threads[u]);
  }

  lemma StepInv(s: State, t: Tid, s': State)
    requires Inv(s) && t in s.threads && ThreadStep(s, t, s')
    ensures Inv(s')
  {
    LocalStepOk(t, s.threads[t], s.ctx, s'.threads[t], s'.ctx);
    forall u | u in s'.threads ensures ThreadOk(u, s'.threads[u], s'.ctx) {
      if u != t {
        OtherOk(t, s.ctx, s'.ctx, u, s.threads[t].pc, s.threads[u]);
      }
    }
    StepClosers(s, t, s');
    if w :| w in s'.threads && Waits(s'.threads[w].pc) {
      StepOwes(s, t, s', w);
    }
  }

  lemma ProducerInv(s: State, s': State)
    requires Inv(s) && ProducerStep(s, s')
    ensures Inv(s')
  {
    assert Closers(s') == Closers(s);
    forall t | t in s'.threads ensures ThreadOk(t, s'.threads[t], s'.ctx) {
      assert ThreadOk(t, s.threads[t], s.ctx);
    }
  }

  lemma InitInv(s: State)
    requires Init(s)
    ensures Inv(s)
  {
    assert Closers(s) == {};
  }

  lemma {:induction false} PathInv(run: seq<State>, i: nat)
    requires IsPath(run) && Inv(run[0]) && i < |run|
    ensures Inv(run[i])
  {
    if i > 0 {
      PathInv(run, i - 1);
      var s, s' := run[i - 1], run[i];
      assert Next(s, s');
      if ProducerStep(s, s') {
        ProducerInv(s, s');
      } else {
        var t :| t in s.threads && ThreadStep(s, t, s');
        StepInv(s, t, s');
      }
    }
  }

  lemma Reached(run: seq<State>, i: nat)
    requires IsRun(run) && i < |run|
    ensures Inv(run[i])
  {
    InitInv(run[0]);
    PathInv(run, i);
  }

  // ----- from every reachable state all sleepers can be woken -----

  /** A step of a thread that is awake; no wait times out. */
  ghost predicate AwakeStep(s: State, s': State) {
    exists t :: t in s.threads && s.threads[t].pc != Asleep && ThreadStep(s, t, s')
  }

  ghost predicate IsAwakePath(path: seq<State>) {
    |path| > 0 && forall i :: 0 <= i < |path| - 1 ==> AwakeStep(path[i], path[i + 1])
  }

  ghost predicate AllAwake(s: State) {
    forall t :: t in s.threads ==> s.threads[t].pc != Asleep
  }

  function After(s: State, t: Tid, th: Thread, c: Shared): State
    requires t in s.threads
  {
    State(map u | u in s.threads :: if u == t then th else Hears(s.threads[t].pc, s.threads[u]), c)
  }

  lemma AfterIsAStep(s: State, t: Tid, th: Thread, c: Shared)
    requires t in s.threads && LocalStep(t, s.threads[t], s.ctx, th, c)
    ensures ThreadStep(s, t, After(s, t, th, c))
    ensures After(s, t, th, c).ctx == c && After(s, t, th, c).threads[t] == th
  {
    var s' := After(s, t, th, c);
    assert s'.threads.Keys == s.threads.Keys;
  }

  /** The shortest way from a program point to a broadcast. */
  function Rank(pc: Pc): nat {
    match pc
    case Announce => 9
    case CloseLock => 8
    case CloseSetActive | Complete(_) => 7
    case InnerLock | Drain | DrainMore(_, _) => 6
    case InnerSetActive | HotplugCallbacks(_, _) | Refresh => 5
    case InnerClearActive | Retire | SetActive | Poll | Backend(_) => 4
    case InnerRelease | CloseClearActive | ClearActive => 3
    case CloseRelease | Release => 2
    case _ => 1
  }

  function Onward(pc: Pc, c: Shared): Pc {
    match pc
    case Announce => CloseLock
    case CloseLock => CloseSetActive
    case CloseSetActive => InnerLock
    case InnerLock => InnerSetActive
    case InnerSetActive => InnerClearActive
    case InnerClearActive => InnerRelease
    case InnerRelease => InnerBroadcast
    case Retire => CloseClearActive
    case CloseClearActive => CloseRelease
    case CloseRelease => CloseBroadcast
    case Refresh => Poll
    case Complete(special) => DrainMore(false, special)
    case Drain =>
      if c.data.completedTransfers > 0 then Complete(c.data.hotplugMsgs > 0)
      else HotplugCallbacks(false, c.data.hotplugMsgs > 0)
    case DrainMore(failed, special) =>
      if DrainContinues(c.data, failed) then Complete(special) else HotplugCallbacks(failed, special)
    case HotplugCallbacks(failed, special) => if !failed && special then Poll else ClearActive
    case ClearActive => Release
    case Release => Broadcast
    case _ => ClearActive
  }

  function Effect(t: Tid, pc: Pc, c: Shared): Shared {
    match pc
    case Announce => c.(data := CloseAnnounce(c.data))
    case CloseLock | InnerLock => Locked(c, t)
    case SetActive | CloseSetActive | InnerSetActive => c.(handlerActive := true)
    case InnerClearActive | CloseClearActive | ClearActive => c.(handlerActive := false)
    case InnerRelease | CloseRelease | Release => Unlocked(c)
    case Retire => if c.data.deviceClose > 0 then c.(data := CloseRetire(c.data)) else c
    case Refresh => c.(data := RefreshPollfds(c.data))
    case Drain => c.(data := DrainTurn(TakeHotplug(c.data), false))
    case DrainMore(failed, special) => c.(data := DrainTurn(c.data, failed))
    case _ => c
  }

  /** A thread that owes a broadcast and can have the events lock has a step
      towards the broadcast. */
  lemma OnwardIsAStep(t: Tid, th: Thread, c: Shared)
    requires SharedOk(c) && ThreadOk(t, th, c)
    requires Owes(th) && !AboutToBroadcast(th.pc) && CanLock(c, t)
    requires Announced(th.pc) ==> c.data.deviceClose > 0
    ensures LocalStep(t, th, c, th.(pc := Onward(th.pc, c)), Effect(t, th.pc, c))
    ensures Owes(th.(pc := Onward(th.pc, c))) && CanLock(Effect(t, th.pc, c), t)
    ensures Effect(t, th.pc, c).waitersLock == c.waitersLock
  {
  }

  predicate Draining(pc: Pc) { pc.Drain? || pc.DrainMore? }

  lemma OnlyDrainingCompletes(t: Tid, pc: Pc, c: Shared)
    requires !Draining(pc)
    ensures Effect(t, pc, c).data.completedTransfers == c.data.completedTransfers
  {
  }

  lemma RankFalls(pc: Pc, c: Shared)
    requires !AboutToBroadcast(pc) && (OwnDepth(pc) > 0 || Announced(pc) || pc.Announce?) && !Draining(pc)
    ensures Rank(Onward(pc, c)) < Rank(pc)
  {
  }

  lemma OnwardIsCloser(t: Tid, pc: Pc, c: Shared)
    requires !AboutToBroadcast(pc) && (OwnDepth(pc) > 0 || Announced(pc) || pc.Announce?)
    ensures Rank(Onward(pc, c)) + 2 * Effect(t, pc, c).data.completedTransfers
            < Rank(pc) + 2 * c.data.completedTransfers
  {
    if !Draining(pc) {
      OnlyDrainingCompletes(t, pc, c);
      RankFalls(pc, c);
    }
  }

  function WaiterPcRank(pc: Pc): nat {
    match pc
    case WaitReadClose => 3
    case WaitReadActive => 2
    case _ => 1
  }

  function WaiterRank(s: State): nat {
    if s.ctx.waitersLock.Some? && s.ctx.waitersLock.value in s.threads then
      WaiterPcRank(s.threads[s.ctx.waitersLock.value].pc)
    else 0
  }

  lemma WaiterMovesOn(w: Tid, th: Thread, c: Shared) returns (pc': Pc, c': Shared)
    requires SharedOk(c) && ThreadOk(w, th, c) && c.waitersLock == Some(w)
    ensures LocalStep(w, th, c, th.(pc := pc'), c') && c' == c.(waitersLock := c'.waitersLock)
    ensures th.pc != Asleep && !AboutToBroadcast(th.pc) && !Owes(th)
    ensures c'.waitersLock == None || (c'.waitersLock == Some(w) && WaiterPcRank(pc') < WaiterPcRank(th.pc))
  {
    pc' := if th.pc.WaitReadClose? then (if c.data.deviceClose > 0 then WaitSleep else WaitReadActive)
    else if th.pc.WaitReadActive? then (if c.handlerActive then WaitSleep else TryReadClose)
    else if th.pc.WaitSleep? then Asleep else Idle;
    c' := if HoldsWaiters(pc') then c else c.(waitersLock := None);
  }

  /** The thread that holds the event waiters lock gives it up in a few steps. */
  lemma WaiterGivesUp(s: State, w: Tid) returns (s': State)
    requires Inv(s) && s.ctx.waitersLock == Some(w)
    ensures w in s.threads && s.threads[w].pc != Asleep && !Owes(s.threads[w]) && ThreadStep(s, w, s')
    ensures s'.ctx == s.ctx.(waitersLock := s'.ctx.waitersLock)
    ensures WaiterRank(s') < WaiterRank(s)
  {
    var th := s.threads[w];
    var pc', c' := WaiterMovesOn(w, th, s.ctx);
    s' := After(s, w, th.(pc := pc'), c');
    AfterIsAStep(s, w, th.(pc := pc'), c');
  }

  ghost predicate CanReachBroadcast(s: State, u: Tid) {
    && Inv(s) && u in s.threads && Owes(s.threads[u])
    && (AboutToBroadcast(s.threads[u].pc) || CanLock(s.ctx, u))
  }

  function Distance(s: State, u: Tid): nat
    requires u in s.threads
  {
    Rank(s.threads[u].pc) + 2 * s.ctx.data.completedTransfers + WaiterRank(s)
  }

  lemma Broadcasts(u: Tid, th: Thread, c: Shared) returns (th': Thread)
    requires ThreadOk(u, th, c) && AboutToBroadcast(th.pc) && c.waitersLock == None
    ensures LocalStep(u, th, c, th', c) && th'.pc != Asleep
  {
    th' := if th.pc.Broadcast? then th.(pc := Idle)
    else if th.pc.InnerBroadcast? then th.(pc := Retire)
    else Thread(if th.resume.Some? then th.resume.value else Idle, None);
  }

  lemma BroadcastWakes(s: State, u: Tid) returns (s': State)
    requires Inv(s) && u in s.threads && AboutToBroadcast(s.threads[u].pc) && s.ctx.waitersLock == None
    ensures ThreadStep(s, u, s') && AllAwake(s')
  {
    var th' := Broadcasts(u, s.threads[u], s.ctx);
    s' := After(s, u, th', s.ctx);
    AfterIsAStep(s, u, th', s.ctx);
  }

  /** The thread that holds the event waiters lock, or else u, moves closer to
      u's broadcast. */
  lemma Approach(s: State, u: Tid) returns (s': State)
    requires CanReachBroadcast(s, u)
    requires s.ctx.waitersLock.Some? || !AboutToBroadcast(s.threads[u].pc)
    ensures AwakeStep(s, s') && CanReachBroadcast(s', u) && Distance(s', u) < Distance(s, u)
  {
    if s.ctx.waitersLock.Some? {
      s' := WaiterGoes(s, u);
    } else {
      s' := ThreadGoesOn(s, u);
      StepInv(s, u, s');
    }
  }

  lemma WaiterGoes(s: State, u: Tid) returns (s': State)
    requires CanReachBroadcast(s, u) && s.ctx.waitersLock.Some?
    ensures AwakeStep(s, s') && CanReachBroadcast(s', u) && Distance(s', u) < Distance(s, u)
  {
    var w := s.ctx.waitersLock.value;
    assert ThreadOk(u, s.threads[u], s.ctx);
    s' := WaiterGivesUp(s, w);
    assert s'.threads[u] == s.threads[u];
    StepInv(s, w, s');
  }

  lemma ThreadGoesOn(s: State, u: Tid) returns (s': State)
    requires CanReachBroadcast(s, u) && s.ctx.waitersLock.None? && !AboutToBroadcast(s.threads[u].pc)
    ensures s.threads[u].pc != Asleep && ThreadStep(s, u, s')
    ensures u in s'.threads && Owes(s'.threads[u]) && (AboutToBroadcast(s'.threads[u].pc) || CanLock(s'.ctx, u))
    ensures Distance(s', u) < Distance(s, u)
  {
    var th := s.threads[u];
    var th', c' := th.(pc := Onward(th.pc, s.ctx)), Effect(u, th.pc, s.ctx);
    assert ThreadOk(u, th, s.ctx);
    assert u in Closers(s) <==> Announced(th.pc);
    OnwardIsAStep(u, th, s.ctx);
    OnwardIsCloser(u, th.pc, s.ctx);
    s' := After(s, u, th', c');
    AfterIsAStep(s, u, th', c');
  }

  /** A path on which nobody's wait times out and in the end everyone is awake. */
  ghost predicate Wakes(path: seq<State>, s: State) {
    IsAwakePath(path) && path[0] == s && AllAwake(path[|path| - 1])
  }

  lemma WakesAtOnce(s: State, s': State)
    requires AwakeStep(s, s') && AllAwake(s')
    ensures Wakes([s, s'], s)
  {
  }

  lemma WakesLater(s: State, s': State, rest: seq<State>)
    requires AwakeStep(s, s') && Wakes(rest, s')
    ensures Wakes([s] + rest, s)
  {
    var path := [s] + rest;
    forall i | 0 <= i < |path| - 1 ensures AwakeStep(path[i], path[i + 1]) {
      assert i == 0 || (path[i] == rest[i - 1] && path[i + 1] == rest[i]);
    }
  }

  /** Let thread u, and whoever holds the event waiters lock, run until u broadcasts. */
  lemma {:induction false} RunToBroadcast(s: State, u: Tid) returns (path: seq<State>)
    requires CanReachBroadcast(s, u)
    ensures Wakes(path, s)
    decreases Distance(s, u)
  {
    if s.ctx.waitersLock.None? && AboutToBroadcast(s.threads[u].pc) {
      var s' := BroadcastWakes(s, u);
      WakesAtOnce(s, s');
      path := [s, s'];
    } else {
      var s' := Approach(s, u);
      var rest := RunToBroadcast(s', u);
      WakesLater(s, s', rest);
      path := [s] + rest;
    }
  }

  /** Nobody sleeps for good: whatever happened before, the threads that are
      awake can run so that every sleeper wakes up without a timeout. */
  lemma SleepersCanBeWoken(run: seq<State>) returns (path: seq<State>)
    requires IsRun(run)
    ensures Wakes(path, run[|run| - 1])
  {
    var s := run[|run| - 1];
    Reached(run, |run| - 1);
    if AllAwake(s) {
      path := [s];
    } else {
      var t :| t in s.threads && s.threads[t].pc == Asleep;
      assert Waits(s.threads[t].pc);
      var u :| u in s.threads && Owes(s.threads[u]);
      if s.ctx.lock.Held? && !AboutToBroadcast(s.threads[u].pc) {
        u := s.ctx.lock.owner;
        assert ThreadOk(u, s.threads[u], s.ctx);
      }
      path := RunToBroadcast(s, u);
    }
  }

  // ----- what holds in every reachable state -----

  lemma WaitingIsNotOwing(t: Tid, th: Thread, c: Shared)
    requires ThreadOk(t, th, c) && Waits(th.pc)
    ensures !Owes(th)
  {
  }

  /** A thread asleep on the waiters condition, or about to sleep, implies that
      another thread still owes a broadcast. */
  lemma NoWaiterIsStranded(run: seq<State>, i: nat, t: Tid)
    requires IsRun(run) && i < |run| && t in run[i].threads && Waits(run[i].threads[t].pc)
    ensures exists u :: u in run[i].threads && u != t && Owes(run[i].threads[u])
  {
    Reached(run, i);
    var s := run[i];
    WaitingIsNotOwing(t, s.threads[t], s.ctx);
    var u :| u in s.threads && Owes(s.threads[u]);
  }

  /** Pending events keep a byte in the pipe, so poll() returns; and no read of
      the pipe ever blocks while event_data_lock is held. */
  lemma PipeIsReadableWhilePending(run: seq<State>, i: nat)
    requires IsRun(run) && i < |run|
    ensures Pending(run[i].ctx.data) ==> run[i].ctx.data.bytes >= 1
    ensures !run[i].ctx.data.readBlocked
  {
    Reached(run, i);
  }

  /** One thread at a time handles events or closes a device, and the
      event_handler_active flag is set only while some thread does. */
  lemma EventsLockExcludes(run: seq<State>, i: nat, t: Tid, u: Tid)
    requires IsRun(run) && i < |run| && t in run[i].threads && u in run[i].threads
    requires Depth(run[i].threads[t]) > 0 && Depth(run[i].threads[u]) > 0
    ensures t == u && run[i].ctx.lock == Held(t, Depth(run[i].threads[t]))
  {
    Reached(run, i);
    assert ThreadOk(t, run[i].threads[t], run[i].ctx) && ThreadOk(u, run[i].threads[u], run[i].ctx);
  }

  lemma ActiveImpliesHeld(run: seq<State>, i: nat)
    requires IsRun(run) && i < |run| && run[i].ctx.handlerActive
    ensures exists t :: t in run[i].threads && Depth(run[i].threads[t]) > 0
  {
    Reached(run, i);
    var t := run[i].ctx.lock.owner;
    assert ThreadOk(t, run[i].threads[t], run[i].ctx);
  }
}
