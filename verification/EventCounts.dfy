/** What the event handling produces and consumes: every hotplug message and every
    completed transfer is taken once, and the pipe is written and read exactly
    when it has to be. */
module EventCounts {
  import opened EventData
  import opened EventLoop

  // ----- one step in numbers -----

  /** There is nothing for an event handler to do. */
  predicate Quiet(d: EventData) {
    d.deviceClose == 0 && !d.pollfdsModified && d.hotplugMsgs == 0 && d.completedTransfers == 0
  }

  function One(b: bool): nat { if b then 1 else 0 }

  /** A thread at pc takes a hotplug message, if there is one. */
  predicate TakesMessage(pc: Pc, d: EventData) {
    pc.Drain? && d.hotplugMsgs > 0
  }

  /** A thread at pc takes a completed transfer, unless the last one failed. */
  predicate TakesTransfer(pc: Pc, d: EventData) {
    (pc.Drain? || (pc.DrainMore? && !pc.failed)) && d.completedTransfers > 0
  }

  /** The step from pc ends a block that reads the pipe if all is quiet then. */
  predicate MayRead(pc: Pc, d: EventData, d': EventData) {
    || pc.Retire?
    || (pc.Refresh? && d.pollfdsModified && !d'.pollfdsModified)
    || ((pc.Drain? || pc.DrainMore?) && !TakesTransfer(pc, d))
  }

  /** One step of a thread at pc, in numbers. */
  ghost predicate InNumbers(pc: Pc, d: EventData, d': EventData) {
    && d'.hotplugMsgs == d.hotplugMsgs - One(TakesMessage(pc, d))
    && d'.completedTransfers == d.completedTransfers - One(TakesTransfer(pc, d))
    && d'.deviceClose == d.deviceClose + One(pc.Announce?) - One(pc.Retire?)
    && (d'.pollfdsModified != d.pollfdsModified ==> pc.Refresh? && !d'.pollfdsModified)
    && d'.bytes == d.bytes + One(pc.Announce? && Quiet(d)) - One(MayRead(pc, d, d') && Quiet(d'))
  }

  lemma LocalStepCounts(t: Tid, th: Thread, c: Shared, th': Thread, c': Shared)
    requires SharedOk(c) && ThreadOk(t, th, c) && LocalStep(t, th, c, th', c')
    ensures InNumbers(th.pc, c.data, c'.data)
  {
    if th.pc == CloseBroadcast || th'.resume != th.resume {
      assert c' == c;
    } else if DrainMoves(th.pc, c, th'.pc, c') {
      DrainCounts(th, c, th', c');
    } else if CloserMoves(t, th.pc, c, th'.pc, c') {
      CloserCounts(t, th, c, th', c');
    } else if HandlerMoves(th.pc, c, th'.pc, c') {
      HandlerCounts(th, c, th', c');
    } else {
      OthersCount(t, th, c, th', c');
    }
  }

  lemma CloserCounts(t: Tid, th: Thread, c: Shared, th': Thread, c': Shared)
    requires Readable(c.data) && CloserMoves(t, th.pc, c, th'.pc, c')
    ensures InNumbers(th.pc, c.data, c'.data)
  {
  }

  lemma HandlerCounts(th: Thread, c: Shared, th': Thread, c': Shared)
    requires Readable(c.data) && HandlerMoves(th.pc, c, th'.pc, c')
    ensures InNumbers(th.pc, c.data, c'.data)
  {
  }

  lemma OthersCount(t: Tid, th: Thread, c: Shared, th': Thread, c': Shared)
    requires || LockMoves(t, th.pc, c, th'.pc, c') || WaiterMoves(t, th.pc, c, th'.pc, c')
             || InnerMoves(t, th.pc, c, th'.pc, c')
    ensures InNumbers(th.pc, c.data, c'.data)
  {
  }

  /** Where the drain goes on: a transfer that was taken is completed next, and the
      thread keeps in mind whether it has taken a message. */
  lemma DrainCounts(th: Thread, c: Shared, th': Thread, c': Shared)
    requires Readable(c.data) && PipeOk(th, c.data) && DrainMoves(th.pc, c, th'.pc, c')
    ensures InNumbers(th.pc, c.data, c'.data)
    ensures if TakesTransfer(th.pc, c.data) then th'.pc.Complete? else th'.pc.HotplugCallbacks?
    ensures th'.pc.special <==> if th.pc.Drain? then c.data.hotplugMsgs > 0 else th.pc.special
  {
  }

  /** Every step of every thread, whatever the others have done before. */
  lemma StepCounts(run: seq<State>, i: nat, t: Tid)
    requires IsRun(run) && i + 1 < |run| && t in run[i].threads && ThreadStep(run[i], t, run[i + 1])
    ensures InNumbers(run[i].threads[t].pc, run[i].ctx.data, run[i + 1].ctx.data)
  {
    Reached(run, i);
    var s, s' := run[i], run[i + 1];
    LocalStepCounts(t, s.threads[t], s.ctx, s'.threads[t], s'.ctx);
  }

  // ----- whole runs -----

  /** Who makes a step: something happens outside, or a thread moves. */
  datatype Event = FdChange | Hotplug | Completion | By(thread: Tid)

  ghost predicate Does(s: State, e: Event, s': State) {
    match e
    case By(t) => t in s.threads && ThreadStep(s, t, s')
    case _ =>
      && s'.threads == s.threads && s'.ctx == s.ctx.(data := s'.ctx.data)
      && s'.ctx.data == match e
                        case Hotplug => HotplugNotification(s.ctx.data)
                        case Completion => SignalTransferCompletion(s.ctx.data)
                        case _ => FdNotification(s.ctx.data)
  }

  /** The first steps of the run are those of the log. */
  ghost predicate Logs(run: seq<State>, log: seq<Event>) {
    |log| < |run| && forall i :: 0 <= i < |log| ==> Does(run[i], log[i], run[i + 1])
  }

  ghost predicate IsLog(run: seq<State>, log: seq<Event>) {
    |run| == |log| + 1 && Init(run[0]) && Logs(run, log)
  }

  lemma EveryStepIsDone(s: State, s': State) returns (e: Event)
    requires Next(s, s')
    ensures Does(s, e, s')
  {
    if ProducerStep(s, s') {
      e := if s'.ctx.data == HotplugNotification(s.ctx.data) then Hotplug
      else if s'.ctx.data == SignalTransferCompletion(s.ctx.data) then Completion else FdChange;
    } else {
      var t :| t in s.threads && ThreadStep(s, t, s');
      e := By(t);
    }
  }

  lemma DoneIsAStep(s: State, e: Event, s': State)
    requires Does(s, e, s')
    ensures Next(s, s')
  {
    if !e.By? { assert ProducerStep(s, s'); }
  }

  lemma {:induction false} LogOf(run: seq<State>, n: nat) returns (log: seq<Event>)
    requires IsPath(run) && n < |run|
    ensures |log| == n && Logs(run, log)
  {
    log := [];
    if n > 0 {
      var before := LogOf(run, n - 1);
      assert Next(run[n - 1], run[n]);
      var e := EveryStepIsDone(run[n - 1], run[n]);
      log := before + [e];
    }
  }

  lemma EveryRunHasALog(run: seq<State>) returns (log: seq<Event>)
    requires IsRun(run)
    ensures IsLog(run, log)
  {
    log := LogOf(run, |run| - 1);
  }

  lemma LogIsOfARun(run: seq<State>, log: seq<Event>)
    requires IsLog(run, log)
    ensures IsRun(run)
  {
    forall i | 0 <= i < |run| - 1 ensures Next(run[i], run[i + 1]) {
      DoneIsAStep(run[i], log[i], run[i + 1]);
    }
  }

  /** How often e happened in the first n steps. */
  function Happened(log: seq<Event>, e: Event, n: nat): nat
    requires n <= |log|
  {
    if n == 0 then 0 else Happened(log, e, n - 1) + One(log[n - 1] == e)
  }

  predicate MessageTaken(s: State, e: Event) {
    e.By? && e.thread in s.threads && TakesMessage(s.threads[e.thread].pc, s.ctx.data)
  }

  predicate TransferTaken(s: State, e: Event) {
    e.By? && e.thread in s.threads && TakesTransfer(s.threads[e.thread].pc, s.ctx.data)
  }

  /** How many messages the threads have taken in the first n steps. */
  function MessagesTaken(run: seq<State>, log: seq<Event>, n: nat): nat
    requires n <= |log| < |run|
  {
    if n == 0 then 0 else MessagesTaken(run, log, n - 1) + One(MessageTaken(run[n - 1], log[n - 1]))
  }

  function TransfersTaken(run: seq<State>, log: seq<Event>, n: nat): nat
    requires n <= |log| < |run|
  {
    if n == 0 then 0 else TransfersTaken(run, log, n - 1) + One(TransferTaken(run[n - 1], log[n - 1]))
  }

  lemma EventCountsOne(run: seq<State>, log: seq<Event>, i: nat)
    requires IsLog(run, log) && i < |log|
    ensures run[i + 1].ctx.data.hotplugMsgs
            == run[i].ctx.data.hotplugMsgs + One(log[i] == Hotplug) - One(MessageTaken(run[i], log[i]))
    ensures run[i + 1].ctx.data.completedTransfers
            == run[i].ctx.data.completedTransfers + One(log[i] == Completion) - One(TransferTaken(run[i], log[i]))
  {
    LogIsOfARun(run, log);
    assert Does(run[i], log[i], run[i + 1]);
    if log[i].By? {
      StepCounts(run, i, log[i].thread);
    }
  }

  /** What came in is queued or has been taken. */
  predicate Balanced(produced: nat, queued: nat, taken: nat) {
    produced == queued + taken
  }

  lemma OneMoreStep(run: seq<State>, log: seq<Event>, n: nat, m: nat)
    requires 0 < n <= |log| < |run| && m == n - 1
    ensures Happened(log, Hotplug, n) == Happened(log, Hotplug, m) + One(log[m] == Hotplug)
    ensures Happened(log, Completion, n) == Happened(log, Completion, m) + One(log[m] == Completion)
    ensures MessagesTaken(run, log, n) == MessagesTaken(run, log, m) + One(MessageTaken(run[m], log[m]))
    ensures TransfersTaken(run, log, n) == TransfersTaken(run, log, m) + One(TransferTaken(run[m], log[m]))
  {
  }

  /** No message is lost and none is taken twice: those that came are those that a
      thread has taken, one at a time, and those that are still queued. */
  lemma {:induction false} MessagesAreConserved(run: seq<State>, log: seq<Event>, n: nat)
    requires IsLog(run, log) && n <= |log|
    ensures Balanced(Happened(log, Hotplug, n), run[n].ctx.data.hotplugMsgs, MessagesTaken(run, log, n))
  {
    if n > 0 {
      var m := n - 1;
      MessagesAreConserved(run, log, m);
      OneMoreStep(run, log, n, m);
      EventCountsOne(run, log, m);
    }
  }

  lemma {:induction false} TransfersAreConserved(run: seq<State>, log: seq<Event>, n: nat)
    requires IsLog(run, log) && n <= |log|
    ensures Balanced(Happened(log, Completion, n), run[n].ctx.data.completedTransfers, TransfersTaken(run, log, n))
  {
    if n > 0 {
      var m := n - 1;
      TransfersAreConserved(run, log, m);
      OneMoreStep(run, log, n, m);
      EventCountsOne(run, log, m);
    }
  }
}
