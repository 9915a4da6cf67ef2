/** Where the threads of EventLoop go: closing a device comes before handling events,
    and poll() is called again only after a hotplug message. */
module EventFlow {
  import opened EventData
  import opened EventLoop
  import opened Wrappers

  // ----- a close comes first -----

  /** The way of libusb_handle_events() for a thread that leaves event handling to
      others, from its first look at the closes to its return */
  function WayOut(pc: Pc): nat {
    match pc
    case TryReadClose => 1
    case WantWaiters => 2
    case WaitReadClose => 3
    case WaitSleep => 4
    case Asleep => 5
    case Woken => 6
    case WaitDone => 7
    case Idle => 8
    case _ => 0
  }

  lemma StepLeavesToCloser(t: Tid, th: Thread, c: Shared, th': Thread, c': Shared)
    requires LocalStep(t, th, c, th', c') && WayOut(th.pc) > 0 && th.pc != Idle && c.data.deviceClose > 0
    ensures WayOut(th.pc) < WayOut(th'.pc)
  {
  }

  /** In a step a thread moves itself, or hears a broadcast, or stays. */
  ghost predicate Moves(t: Tid, th: Thread, c: Shared, th': Thread, c': Shared) {
    LocalStep(t, th, c, th', c') || th' == th || (th.pc == Asleep && th' == th.(pc := Woken))
  }

  lemma OthersHear(s: State, u: Tid, s': State, t: Tid)
    requires u in s.threads && ThreadStep(s, u, s') && t in s.threads && t != u
    ensures t in s'.threads && s'.threads[t] == Hears(s.threads[u].pc, s.threads[t])
  {
  }

  lemma ThreadMoves(s: State, s': State, t: Tid)
    requires Next(s, s') && t in s.threads
    ensures t in s'.threads && Moves(t, s.threads[t], s.ctx, s'.threads[t], s'.ctx)
  {
    if !ProducerStep(s, s') {
      var u :| u in s.threads && ThreadStep(s, u, s');
      if u != t { OthersHear(s, u, s', t); }
    }
  }

  lemma LeavesToCloser(t: Tid, th: Thread, c: Shared, th': Thread, c': Shared)
    requires Moves(t, th, c, th', c') && WayOut(th.pc) > 0 && th.pc != Idle && c.data.deviceClose > 0
    ensures WayOut(th.pc) <= WayOut(th'.pc)
  {
    if LocalStep(t, th, c, th', c') { StepLeavesToCloser(t, th, c, th', c'); }
  }

  /** While a device is being closed a call of libusb_handle_events() that has yet to
      look for closes, or has seen one, never takes the events lock, and does not ask a
      second time either: it goes on to sleep and to return. */
  lemma {:induction false} ClosersGoFirst(run: seq<State>, i: nat, j: nat, t: Tid)
    requires IsPath(run) && i <= j < |run| && t in run[i].threads && WayOut(run[i].threads[t].pc) > 0
    requires forall k | i <= k < j :: run[k].ctx.data.deviceClose > 0
    requires forall k | i <= k < j :: t in run[k].threads ==> run[k].threads[t].pc != Idle
    ensures t in run[j].threads && WayOut(run[i].threads[t].pc) <= WayOut(run[j].threads[t].pc)
  {
    if i < j {
      var m := j - 1;
      ClosersGoFirst(run, i, m, t);
      ThreadMoves(run[m], run[j], t);
      LeavesToCloser(t, run[m].threads[t], run[m].ctx, run[j].threads[t], run[j].ctx);
    }
  }

  // ----- when poll() is called again -----

  /** Where a thread is in handle_events(), also while a callback closes a device */
  function Handling(th: Thread): Pc { if th.resume.Some? then th.resume.value else th.pc }

  function Point(s: State, t: Tid): Pc { if t in s.threads then Handling(s.threads[t]) else Idle }

  /** Since step d thread t has neither polled nor begun to drain the pipe. */
  ghost predicate NotSince(run: seq<State>, t: Tid, d: nat, i: nat)
    requires i < |run|
  {
    forall k :: d < k <= i ==> Point(run[k], t) != Poll && Point(run[k], t) != Drain
  }

  ghost predicate TookAt(run: seq<State>, t: Tid, d: nat, i: nat)
    requires i < |run|
  {
    d < i && Point(run[d], t) == Drain && run[d].ctx.data.hotplugMsgs > 0 && NotSince(run, t, d, i)
  }

  /** The last drain of thread t, since its last poll(), has taken a message. */
  ghost predicate HasTaken(run: seq<State>, t: Tid, i: nat)
    requires i < |run|
  {
    exists d: nat :: TookAt(run, t, d, i)
  }

  ghost predicate FailedAt(run: seq<State>, t: Tid, d: nat, i: nat)
    requires i < |run|
  {
    d <= i && Point(run[d], t).DrainMore? && Point(run[d], t).failed && NotSince(run, t, d, i)
  }

  /** Since its last poll() the completion of a transfer by thread t has failed. */
  ghost predicate HasFailed(run: seq<State>, t: Tid, i: nat)
    requires i < |run|
  {
    exists d: nat :: FailedAt(run, t, d, i)
  }

  predicate Fresh(pc: Pc) { pc == Poll || pc == Drain }

  lemma TakenStep(run: seq<State>, t: Tid, i: nat, m: nat)
    requires m + 1 == i < |run|
    ensures HasTaken(run, t, i)
            <==> !Fresh(Point(run[i], t))
                 && ((Point(run[m], t) == Drain && run[m].ctx.data.hotplugMsgs > 0) || HasTaken(run, t, m))
  {
    if HasTaken(run, t, i) {
      var d: nat :| TookAt(run, t, d, i);
      if d < m { assert TookAt(run, t, d, m); }
    }
    if !Fresh(Point(run[i], t)) {
      if Point(run[m], t) == Drain && run[m].ctx.data.hotplugMsgs > 0 {
        assert TookAt(run, t, m, i);
      } else if d: nat :| TookAt(run, t, d, m) {
        assert TookAt(run, t, d, i);
      }
    }
  }

  lemma FailedStep(run: seq<State>, t: Tid, i: nat, m: nat)
    requires m + 1 == i < |run|
    ensures HasFailed(run, t, i)
            <==> var pc := Point(run[i], t);
                 !Fresh(pc) && ((pc.DrainMore? && pc.failed) || HasFailed(run, t, m))
  {
    var pc := Point(run[i], t);
    if HasFailed(run, t, i) {
      var d: nat :| FailedAt(run, t, d, i);
      if d < i { assert FailedAt(run, t, d, m); }
    }
    if !Fresh(pc) {
      if pc.DrainMore? && pc.failed {
        assert FailedAt(run, t, i, i);
      } else if d: nat :| FailedAt(run, t, d, m) {
        assert FailedAt(run, t, d, i);
      }
    }
  }

  /** What the two flags of handle_events() say of the past */
  predicate FlagsTell(pc: Pc, taken: bool, failed: bool) {
    match pc
    case Complete(special) => special == taken && !failed
    case DrainMore(f, special) => special == taken && f == failed
    case HotplugCallbacks(f, special) => special == taken && f == failed
    case Backend(special) => special == taken && !failed
    case _ => Fresh(pc) ==> !taken && !failed
  }

  lemma StepTells(t: Tid, th: Thread, c: Shared, th': Thread, c': Shared, taken: bool, failed: bool)
    requires LocalStep(t, th, c, th', c') && LocksOk(t, th, c) && FlagsTell(Handling(th), taken, failed)
    ensures var pc, pc' := Handling(th), Handling(th');
            FlagsTell(pc', TakenNow(pc, c, pc', taken), FailedNow(pc', failed))
  {
  }

  predicate TakenNow(pc: Pc, c: Shared, pc': Pc, taken: bool) {
    !Fresh(pc') && ((pc == Drain && c.data.hotplugMsgs > 0) || taken)
  }

  predicate FailedNow(pc': Pc, failed: bool) {
    !Fresh(pc') && ((pc'.DrainMore? && pc'.failed) || failed)
  }

  lemma MoveTells(t: Tid, th: Thread, c: Shared, th': Thread, c': Shared, taken: bool, failed: bool)
    requires Moves(t, th, c, th', c') && LocksOk(t, th, c) && FlagsTell(Handling(th), taken, failed)
    ensures var pc, pc' := Handling(th), Handling(th');
            FlagsTell(pc', TakenNow(pc, c, pc', taken), FailedNow(pc', failed))
  {
    if LocalStep(t, th, c, th', c') {
      StepTells(t, th, c, th', c', taken, failed);
    }
  }

  lemma {:induction false} FlagsTellInRun(run: seq<State>, t: Tid, i: nat)
    requires IsRun(run) && i < |run| && t in run[i].threads
    ensures FlagsTell(Point(run[i], t), HasTaken(run, t, i), HasFailed(run, t, i))
  {
    if i > 0 {
      var m := i - 1;
      assert Next(run[m], run[i]);
      SameThreads(run[m], run[i]);
      FlagsTellInRun(run, t, m);
      Reached(run, m);
      ThreadMoves(run[m], run[i], t);
      assert ThreadOk(t, run[m].threads[t], run[m].ctx);
      MoveTells(t, run[m].threads[t], run[m].ctx, run[i].threads[t], run[i].ctx,
                HasTaken(run, t, m), HasFailed(run, t, m));
      TakenStep(run, t, i, m);
      FailedStep(run, t, i, m);
    }
  }

  lemma SameThreads(s: State, s': State)
    requires Next(s, s')
    ensures s'.threads.Keys == s.threads.Keys
  {
    if !ProducerStep(s, s') {
      var u :| u in s.threads && ThreadStep(s, u, s');
    }
  }

  /** Behind the callbacks poll() is called again exactly if the drain has taken a
      message and no completion has failed; or else the backend comes first, which
      is left out behind a failure; or a callback closes a device. */
  lemma PollsAgainIff(run: seq<State>, t: Tid, i: nat)
    requires IsRun(run) && i + 1 < |run| && t in run[i].threads && run[i].threads[t].pc.HotplugCallbacks?
    ensures t in run[i + 1].threads
    ensures var th, th' := run[i].threads[t], run[i + 1].threads[t];
            || th' == th || (th'.pc == Announce && th'.resume == Some(th.pc))
            || (th'.pc == Backend(HasTaken(run, t, i)) && !HasFailed(run, t, i))
            || th'.pc == if HasTaken(run, t, i) && !HasFailed(run, t, i) then Poll else ClearActive
  {
    var s, s' := run[i], run[i + 1];
    assert Next(s, s');
    FlagsTellInRun(run, t, i);
    ThreadMoves(s, s', t);
    Reached(run, i);
    assert ThreadOk(t, s.threads[t], s.ctx);
    BehindCallbacks(t, s.threads[t], s.ctx, s'.threads[t], s'.ctx);
  }

  lemma BehindCallbacks(t: Tid, th: Thread, c: Shared, th': Thread, c': Shared)
    requires Moves(t, th, c, th', c') && LocksOk(t, th, c) && th.pc.HotplugCallbacks?
    ensures th.resume == None
    ensures || th' == th || (th'.pc == Announce && th'.resume == Some(th.pc))
            || (th'.pc == Backend(th.pc.special) && !th.pc.failed)
            || th'.pc == if th.pc.special && !th.pc.failed then Poll else ClearActive
  {
  }

  // ----- what the surroundings decide -----

  /** Thread t can go to pc in one step. */
  ghost predicate CanGo(s: State, t: Tid, pc: Pc)
    requires t in s.threads
  {
    exists s' :: ThreadStep(s, t, s') && s'.threads[t].pc == pc
  }

  /** Here a thread goes on as the application, the allocator, poll(), the backend or
      the clock says. */
  predicate Asks(pc: Pc) {
    || pc == Idle || pc == SetActive || pc == Refresh || pc == Poll || pc.Complete? || pc.HotplugCallbacks?
    || pc.Backend? || pc == WaitReadClose || pc == Asleep
  }

  /** The answers: poll() finds the pipe readable only with a byte in it; memory is
      short only for a poll set that was modified; a callback may close a device. */
  predicate Answer(pc: Pc, d: EventData, pc': Pc) {
    match pc
    case Idle => pc' in {TryReadClose, LockEvents, Announce}
    case SetActive => pc' in {Refresh, ClearActive}
    case Refresh => pc' == Poll || (pc' == ClearActive && d.pollfdsModified)
    case Poll => pc' in {Backend(false), ClearActive} || (pc' == Drain && d.bytes > 0)
    case Complete(special) => pc' in {DrainMore(false, special), DrainMore(true, special), Announce}
    case HotplugCallbacks(true, _) => pc' in {ClearActive, Announce}
    case HotplugCallbacks(false, special) =>
      pc' in {Backend(special), Announce} || pc' == if special then Poll else ClearActive
    case Backend(special) => pc' in {ClearActive, Announce} || (special && pc' == Poll)
    case WaitReadClose => pc' == WaitDone || pc' == if d.deviceClose > 0 then WaitSleep else WaitReadActive
    case _ => pc' == Woken
  }

  function Answered(pc: Pc, c: Shared): Shared {
    match pc
    case SetActive => c.(handlerActive := true)
    case Refresh => c.(data := RefreshPollfds(c.data))
    case _ => c
  }

  lemma AnswerIsAStep(t: Tid, th: Thread, c: Shared, pc': Pc) returns (th': Thread, c': Shared)
    requires LocksOk(t, th, c) && Asks(th.pc) && Answer(th.pc, c.data, pc')
    ensures LocalStep(t, th, c, th', c') && th'.pc == pc'
  {
    th' := if pc' == Announce && CallbackPc(th.pc) then Thread(Announce, Some(th.pc)) else th.(pc := pc');
    c' := if th.pc == Refresh && pc' == ClearActive then c else Answered(th.pc, c);
  }

  lemma StepIsAnAnswer(t: Tid, th: Thread, c: Shared, th': Thread, c': Shared)
    requires LocksOk(t, th, c) && Asks(th.pc) && LocalStep(t, th, c, th', c')
    ensures Answer(th.pc, c.data, th'.pc)
  {
  }

  lemma AnswerCanCome(s: State, t: Tid, pc': Pc)
    requires t in s.threads && LocksOk(t, s.threads[t], s.ctx) && Asks(s.threads[t].pc)
    requires Answer(s.threads[t].pc, s.ctx.data, pc')
    ensures CanGo(s, t, pc')
  {
    var th', c' := AnswerIsAStep(t, s.threads[t], s.ctx, pc');
    AfterIsAStep(s, t, th', c');
  }

  lemma OnlyAnswersCome(s: State, t: Tid, pc': Pc)
    requires t in s.threads && LocksOk(t, s.threads[t], s.ctx) && Asks(s.threads[t].pc) && CanGo(s, t, pc')
    ensures Answer(s.threads[t].pc, s.ctx.data, pc')
  {
    var s' :| ThreadStep(s, t, s') && s'.threads[t].pc == pc';
    StepIsAnAnswer(t, s.threads[t], s.ctx, s'.threads[t], s'.ctx);
  }

  lemma LocksAsTheyShould(run: seq<State>, i: nat, t: Tid)
    requires IsRun(run) && i < |run| && t in run[i].threads
    ensures LocksOk(t, run[i].threads[t], run[i].ctx)
  {
    Reached(run, i);
    assert ThreadOk(t, run[i].threads[t], run[i].ctx);
  }

  /** Every one of these answers can come in every reachable state, and no other. */
  lemma CanGoIff(run: seq<State>, i: nat, t: Tid, pc': Pc)
    requires IsRun(run) && i < |run| && t in run[i].threads && Asks(run[i].threads[t].pc)
    ensures CanGo(run[i], t, pc') <==> Answer(run[i].threads[t].pc, run[i].ctx.data, pc')
  {
    LocksAsTheyShould(run, i, t);
    if Answer(run[i].threads[t].pc, run[i].ctx.data, pc') {
      AnswerCanCome(run[i], t, pc');
    } else if CanGo(run[i], t, pc') {
      OnlyAnswersCome(run[i], t, pc');
    }
  }
}
