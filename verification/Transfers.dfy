/** The life cycle of USB transfers: submit, complete, cancel, time out and
    disconnect, interleaved in every possible way.  Each lock-protected block of
    the library is one step.  A transfer's own lock is held by one thread from
    the start of libusb_submit_transfer() to its end; completions and
    disconnects are reported by the one thread that holds the events lock.  A
    timeout pass sets flags without the lock of the flags: its load and its store
    are steps of their own, and every other step may come in between. */
module Transfers {
  import opened TransferFlags
  import opened Wrappers

  type Tid = nat
  type Transfer = nat
  type Handle = nat

  /** Where the holder of the transfer's lock is in libusb_submit_transfer().
      Submitted records what the backend answered. */
  datatype Stage =
    | Unlocked
    | Entered          // next: look at the flags
    | Marked           // next: add to the flying list
    | Listed           // next: take a device reference
    | Referenced       // next: call the backend
    | Submitted(ok: bool) // next: update the flags
    | UndoReference    // next: drop the device reference
    | UndoListing      // next: remove from the flying list
    | Leaving          // next: release the lock

  /** What a callback is told: the backend's own result, or why there is none. */
  datatype Status = StatusCompleted | StatusCancelled | StatusTimedOut | StatusNoDevice

  /** active: the backend owns the transfer and may complete it once.
      refs counts the device references held for this transfer.  accepted and
      callbacks count successful submits and callbacks, and asked how often the
      backend was asked to cancel.  status is what the last callback was told. */
  datatype TransferState = TransferState(
    handle: Handle, holder: Option<Tid>, stage: Stage, flags: Flags,
    active: bool, refs: int, accepted: nat, callbacks: nat, asked: nat,
    status: Option<Status>)

  /** Next step of usbi_handle_transfer_completion(). */
  datatype Phase = Unlist | MarkDone | Callback | DropReference

  /** The thread that holds the events lock.  Finishing runs a completion, on
      its own or on behalf of a disconnect; Rescanning wants flying_transfers_lock
      and Scanning walks the flying list with that lock held; Clearing is about
      to take back the transfer that the scan found in flight. */
  datatype Handler =
    | Ready
    | Finishing(transfer: Transfer, phase: Phase, disconnecting: Option<Handle>, status: Status)
    | Rescanning(handle: Handle)
    | Scanning(handle: Handle, rest: seq<Transfer>)
    | Clearing(handle: Handle, transfer: Transfer)

  /** A thread in handle_timeouts(), which holds flying_transfers_lock.  It walks
      the list; for a transfer that is due it has loaded the flags and stores
      them next with the mark of the timeout; it cancels the transfer; and after
      a successful cancellation it loads and stores the flags once more. */
  datatype Pass =
    | Walking(rest: seq<Transfer>)
    | Marking(transfer: Transfer, seen: Flags, rest: seq<Transfer>)
    | Cancelling(transfer: Transfer, rest: seq<Transfer>)
    | Succeeded(transfer: Transfer, rest: seq<Transfer>)
    | Stamping(transfer: Transfer, seen: Flags, rest: seq<Transfer>)

  /** flying is the flying list.  gone holds the handles whose disconnect was
      reported, done those whose disconnect has been dealt with. */
  datatype State = State(
    transfers: map<Transfer, TransferState>, flying: seq<Transfer>, handler: Handler, pass: Option<Pass>,
    gone: set<Handle>, done: set<Handle>)

  // ----- the flying list -----

  ghost predicate Distinct(list: seq<Transfer>) {
    forall x :: x in list ==> multiset(list)[x] == 1
  }

  predicate Inserted(list: seq<Transfer>, x: Transfer, list': seq<Transfer>) {
    exists k :: 0 <= k <= |list| && list' == list[..k] + [x] + list[k..]
  }

  function Without(list: seq<Transfer>, x: Transfer): seq<Transfer> {
    if list == [] then [] else if list[0] == x then list[1..] else [list[0]] + Without(list[1..], x)
  }

  lemma InsertedKeeps(list: seq<Transfer>, x: Transfer, list': seq<Transfer>)
    requires Distinct(list) && x !in list && Inserted(list, x, list')
    ensures Distinct(list') && forall y :: y in list' <==> y == x || y in list
  {
    InsertedCounts(list, x, list');
    OneMore(list, x, list');
  }

  lemma InsertedCounts(list: seq<Transfer>, x: Transfer, list': seq<Transfer>)
    requires Inserted(list, x, list')
    ensures multiset(list') == multiset(list) + multiset{x}
  {
    var k :| 0 <= k <= |list| && list' == list[..k] + [x] + list[k..];
    assert list == list[..k] + list[k..];
  }

  lemma OneMore(list: seq<Transfer>, x: Transfer, list': seq<Transfer>)
    requires Distinct(list) && x !in list && multiset(list') == multiset(list) + multiset{x}
    ensures Distinct(list') && forall y :: y in list' <==> y == x || y in list
  {
    assert forall y :: y in list' <==> y in multiset(list');
    forall y | y in list' ensures multiset(list')[y] == 1 {
      assert y in multiset(list');
      assert x !in multiset(list);
    }
  }

  lemma {:induction false} WithoutCounts(list: seq<Transfer>, x: Transfer)
    requires x in list
    ensures multiset(Without(list, x)) == multiset(list) - multiset{x}
  {
    assert list == [list[0]] + list[1..];
    if list[0] != x {
      WithoutCounts(list[1..], x);
    }
  }

  lemma WithoutKeeps(list: seq<Transfer>, x: Transfer)
    requires Distinct(list) && x in list
    ensures Distinct(Without(list, x)) && forall y :: y in Without(list, x) <==> y != x && y in list
  {
    WithoutCounts(list, x);
    assert forall y :: y in Without(list, x) <==> y in multiset(Without(list, x));
  }

  /** remove_from_flying_list() */
  predicate Unlists(s: State, x: Transfer, s': State) {
    s'.flying == Without(s.flying, x)
  }

  // ----- steps -----

  function Put(s: State, x: Transfer, ts: TransferState): State {
    s.(transfers := s.transfers[x := ts])
  }

  /** Is flying_transfers_lock free? */
  predicate FlyingLockFree(s: State) {
    !s.handler.Scanning? && s.pass.None?
  }

  /** libusb_submit_transfer() in thread t, as far as the transfer itself goes */
  predicate SubmitMoves(t: Tid, ts: TransferState, gone: bool, ts': TransferState) {
    && (ts.stage.Unlocked? || ts.holder == Some(t))
    && match ts.stage
       case Unlocked => ts.holder.None? && ts' == ts.(holder := Some(t), stage := Entered)
       case Entered =>
         if ts.flags.inFlight then ts' == ts.(stage := Leaving) // LIBUSB_ERROR_BUSY
         else
           || ts' == ts.(flags := NO_FLAGS.(submitting := true), stage := Marked)
           || ts' == ts.(flags := NO_FLAGS, stage := Leaving) // the clock cannot be read
       case Marked => ts' == ts.(stage := Listed)
       case Listed => ts' == ts.(refs := ts.refs + 1, stage := Referenced)
       case Referenced =>
         // once the device is gone the backend refuses
         || ts' == ts.(stage := Submitted(false))
         || (!gone && ts' == ts.(stage := Submitted(true), active := true))
       case Submitted(ok) =>
         var flags := ts.flags.(submitting := false);
         if !ok then ts' == ts.(flags := flags, stage := UndoReference)
         else if flags.disappeared then
           ts' == ts.(flags := flags, active := false, stage := UndoReference)
         else
           ts' == ts.(flags := if flags.completed then flags else flags.(inFlight := true),
                      accepted := ts.accepted + 1, stage := Leaving)
       case UndoReference => ts' == ts.(refs := ts.refs - 1, stage := UndoListing)
       case UndoListing => ts' == ts.(stage := Leaving)
       case Leaving => ts' == ts.(holder := None, stage := Unlocked)
  }

  /** libusb_submit_transfer() */
  predicate SubmitStep(s: State, t: Tid, x: Transfer, s': State)
    requires x in s.transfers
  {
    var ts := s.transfers[x];
    && x in s'.transfers
    && SubmitMoves(t, ts, ts.handle in s.gone, s'.transfers[x])
    && s' == Put(s, x, s'.transfers[x]).(flying := s'.flying)
    && match ts.stage
       case Marked => FlyingLockFree(s) && Inserted(s.flying, x, s'.flying)
       case UndoListing => FlyingLockFree(s) && Unlists(s, x, s')
       case _ => s'.flying == s.flying
  }

  function One(b: bool): nat { if b then 1 else 0 }

  /** A cancellation reaches the backend. */
  predicate Reaches(f: Flags) {
    f.inFlight && !f.cancelling
  }

  /** libusb_cancel_transfer(), when the backend answers r */
  function AfterCancel(ts: TransferState, r: int): TransferState {
    ts.(flags := Cancelled(ts.flags, r).0, asked := ts.asked + One(Reaches(ts.flags)))
  }

  predicate CancelStep(s: State, x: Transfer, r: int, s': State)
    requires x in s.transfers
  {
    s.transfers[x].holder.None? && s' == Put(s, x, AfterCancel(s.transfers[x], r))
  }

  /** handle_timeouts() takes the lock of the list. */
  predicate PassBeginStep(s: State, s': State) {
    FlyingLockFree(s) && s' == s.(pass := Some(Walking(s.flying)))
  }

  /** The pass is past the walk, with a transfer in hand. */
  predicate InHand(s: State) {
    s.pass.Some? && !s.pass.value.Walking? && s.pass.value.transfer in s.transfers
  }

  /** One turn of the walk: there is nothing to do, or the transfer is due and
      handle_timeout() loads its flags. */
  predicate PassTurnStep(s: State, due: bool, s': State) {
    && s.pass.Some? && s.pass.value.Walking? && s.pass.value.rest != []
    && var x, rest := s.pass.value.rest[0], s.pass.value.rest[1..];
       if due then
         && x in s.transfers && !s.transfers[x].flags.timeoutHandled && !s.transfers[x].flags.osHandlesTimeout
         && s' == s.(pass := Some(Marking(x, s.transfers[x].flags, rest)))
       else s' == s.(pass := Some(Walking(rest)))
  }

  /** The store of the flags that the turn has loaded, without any lock */
  predicate PassMarkStep(s: State, s': State) {
    && InHand(s) && s.pass.value.Marking?
    && var (x, seen, rest) := (s.pass.value.transfer, s.pass.value.seen, s.pass.value.rest);
       s' == Put(s, x, s.transfers[x].(flags := seen.(timeoutHandled := true))).(pass := Some(Cancelling(x, rest)))
  }

  /** The cancellation in handle_timeout(), which needs the lock of the transfer */
  predicate PassCancelStep(s: State, r: int, s': State) {
    && InHand(s) && s.pass.value.Cancelling?
    && var (x, rest) := (s.pass.value.transfer, s.pass.value.rest);
       var ts := s.transfers[x];
       && ts.holder.None?
       && s' == Put(s, x, AfterCancel(ts, r))
                .(pass := Some(if Cancelled(ts.flags, r).1 == SUCCESS then Succeeded(x, rest) else Walking(rest)))
  }

  /** After a successful cancellation handle_timeout() loads the flags again. */
  predicate PassLoadStep(s: State, s': State) {
    && InHand(s) && s.pass.value.Succeeded?
    && var (x, rest) := (s.pass.value.transfer, s.pass.value.rest);
       s' == s.(pass := Some(Stamping(x, s.transfers[x].flags, rest)))
  }

  predicate PassStampStep(s: State, s': State) {
    && InHand(s) && s.pass.value.Stamping?
    && var (x, seen, rest) := (s.pass.value.transfer, s.pass.value.seen, s.pass.value.rest);
       s' == Put(s, x, s.transfers[x].(flags := seen.(timedOut := true))).(pass := Some(Walking(rest)))
  }

  predicate PassEndStep(s: State, s': State) {
    s.pass.Some? && s.pass.value.Walking? && s' == s.(pass := None)
  }

  /** The backend reports a transfer: usbi_handle_transfer_cancellation() looks at the
      flags of one that was cancelled, any other result goes on as it is. */
  predicate CompleteStep(s: State, x: Transfer, cancelled: bool, s': State)
    requires x in s.transfers
  {
    var ts := s.transfers[x];
    var status := if !cancelled then StatusCompleted
                  else if ts.flags.timedOut then StatusTimedOut else StatusCancelled;
    && s.handler == Ready && ts.active && ts.handle !in s.gone
    && s' == Put(s, x, ts.(active := false)).(handler := Finishing(x, Unlist, None, status))
  }

  function CalledBack(ts: TransferState, status: Status): TransferState {
    ts.(callbacks := ts.callbacks + 1, status := Some(status))
  }

  function MarkedDone(ts: TransferState): TransferState {
    ts.(flags := ts.flags.(inFlight := false, completed := true))
  }

  /** usbi_handle_transfer_completion() */
  predicate FinishStep(s: State, s': State)
    requires s.handler.Finishing? && s.handler.transfer in s.transfers
  {
    var x := s.handler.transfer;
    var ts := s.transfers[x];
    match s.handler.phase
    case Unlist =>
      FlyingLockFree(s) && Unlists(s, x, s')
      && s' == s.(flying := s'.flying, handler := s.handler.(phase := MarkDone))
    case MarkDone =>
      s' == Put(s, x, MarkedDone(ts)).(handler := s.handler.(phase := Callback))
    case Callback =>
      s' == Put(s, x, CalledBack(ts, s.handler.status)).(handler := s.handler.(phase := DropReference))
    case DropReference =>
      s' == Put(s, x, ts.(refs := ts.refs - 1))
            .(handler := match s.handler.disconnecting
                         case None => Ready
                         case Some(h) => Rescanning(h))
  }

  predicate DisconnectStep(s: State, h: Handle, s': State) {
    s.handler == Ready && s' == s.(gone := s.gone + {h}, handler := Rescanning(h))
  }

  /** The loop of usbi_handle_disconnect() takes the lock of the list. */
  predicate RescanStep(s: State, s': State)
    requires s.handler.Rescanning?
  {
    FlyingLockFree(s) && s' == s.(handler := Scanning(s.handler.handle, s.flying))
  }

  function Disappeared(ts: TransferState): TransferState {
    ts.(flags := ts.flags.(disappeared := true))
  }

  /** One turn of the scan in usbi_handle_disconnect(). */
  predicate ScanStep(s: State, s': State)
    requires s.handler.Scanning?
  {
    var h, rest := s.handler.handle, s.handler.rest;
    if rest == [] then
      s' == s.(handler := Ready, done := s.done + {h})
    else if rest[0] in s.transfers && s.transfers[rest[0]].handle == h then
      var ts := s.transfers[rest[0]];
      if ts.flags.inFlight then s' == s.(handler := Clearing(h, rest[0]))
      else s' == Put(s, rest[0], Disappeared(ts)).(handler := Scanning(h, rest[1..]))
    else
      s' == s.(handler := Scanning(h, rest[1..]))
  }

  /** clear_transfer_priv() under the transfer's lock */
  predicate ClearStep(s: State, s': State)
    requires s.handler.Clearing? && s.handler.transfer in s.transfers
  {
    var x := s.handler.transfer;
    && s.transfers[x].holder.None?
    && s' == Put(s, x, s.transfers[x].(active := false))
             .(handler := Finishing(x, Unlist, Some(s.handler.handle), StatusNoDevice))
  }

  datatype Action =
    | Submit(t: Tid, x: Transfer)
    | Cancel(x: Transfer, r: int)
    | PassBegin
    | PassTurn(due: bool)
    | PassMark
    | PassCancel(r: int)
    | PassLoad
    | PassStamp
    | PassEnd
    | Complete(x: Transfer, cancelled: bool)
    | Finish
    | Disconnect(h: Handle)
    | Rescan
    | Scan
    | Clear

  predicate Step(s: State, a: Action, s': State) {
    match a
    case Submit(t, x) => x in s.transfers && SubmitStep(s, t, x, s')
    case Cancel(x, r) => x in s.transfers && CancelStep(s, x, r, s')
    case PassBegin => PassBeginStep(s, s')
    case PassTurn(due) => PassTurnStep(s, due, s')
    case PassMark => PassMarkStep(s, s')
    case PassCancel(r) => PassCancelStep(s, r, s')
    case PassLoad => PassLoadStep(s, s')
    case PassStamp => PassStampStep(s, s')
    case PassEnd => PassEndStep(s, s')
    case Complete(x, cancelled) => x in s.transfers && CompleteStep(s, x, cancelled, s')
    case Finish => s.handler.Finishing? && s.handler.transfer in s.transfers && FinishStep(s, s')
    case Disconnect(h) => DisconnectStep(s, h, s')
    case Rescan => s.handler.Rescanning? && RescanStep(s, s')
    case Scan => s.handler.Scanning? && ScanStep(s, s')
    case Clear => s.handler.Clearing? && s.handler.transfer in s.transfers && ClearStep(s, s')
  }

  ghost predicate Init(s: State) {
    && (forall x :: x in s.transfers ==>
          s.transfers[x] == TransferState(s.transfers[x].handle, None, Unlocked, NO_FLAGS, false, 0, 0, 0, 0, None))
    && s.flying == [] && s.handler == Ready && s.pass == None && s.gone == {} && s.done == {}
  }

  ghost predicate IsRun(run: seq<State>, actions: seq<Action>) {
    && |run| == |actions| + 1 && Init(run[0])
    && forall i :: 0 <= i < |actions| ==> Step(run[i], actions[i], run[i + 1])
  }

  // ----- what a store without the lock can lose -----

  /** The store of the timeout mark would not just set the mark: it would undo what
      another thread has written to the flags since the load. */
  predicate MarkLoses(s: State) {
    && InHand(s) && s.pass.value.Marking?
    && s.pass.value.seen.(timeoutHandled := true)
       != s.transfers[s.pass.value.transfer].flags.(timeoutHandled := true)
  }

  predicate StampLoses(s: State) {
    && InHand(s) && s.pass.value.Stamping?
    && s.pass.value.seen.(timedOut := true) != s.transfers[s.pass.value.transfer].flags.(timedOut := true)
  }

  predicate Careful(s: State, a: Action) {
    a.PassMark? ==> !MarkLoses(s)
  }

  /** None of the first i steps is a store of the timeout mark that loses something. */
  ghost predicate LosesNothing(run: seq<State>, actions: seq<Action>, i: nat)
    requires i <= |actions| < |run|
  {
    forall k :: 0 <= k < i ==> Careful(run[k], actions[k])
  }

  // ----- one transfer at a time -----

  /** Everything the invariant says of one transfer depends on this view. */
  datatype View = View(ts: TransferState, listed: bool, phase: Option<Phase>, gone: bool)

  function PhaseOf(handler: Handler, x: Transfer): Option<Phase> {
    if handler.Finishing? && handler.transfer == x then Some(handler.phase) else None
  }

  function ViewOf(s: State, x: Transfer): View
    requires x in s.transfers
  {
    View(s.transfers[x], x in s.flying, PhaseOf(s.handler, x), s.transfers[x].handle in s.gone)
  }

  /** The callback of an accepted submission is still to come. */
  predicate CallbackDue(v: View) {
    v.phase == Some(Unlist) || v.phase == Some(MarkDone) || v.phase == Some(Callback)
  }

  /** The completion has not reached the flags yet. */
  predicate Early(phase: Option<Phase>) {
    phase == Some(Unlist) || phase == Some(MarkDone)
  }

  predicate BeforeAnswer(stage: Stage) {
    stage.Marked? || stage.Listed? || stage.Referenced? || stage == Submitted(false)
  }

  predicate ViewOk(v: View) {
    var ts, flags, stage := v.ts, v.ts.flags, v.ts.stage;
    && (ts.holder.None? <==> stage.Unlocked?)
       // on the flying list
    && (v.listed <==> stage.Listed? || stage.Referenced? || stage == Submitted(false) || stage.UndoReference?
                      || stage.UndoListing? || ts.active || v.phase == Some(Unlist))
       // callbacks balance accepted submissions
    && ts.accepted + One(stage == Submitted(true)) == ts.callbacks + One(ts.active) + One(CallbackDue(v))
       // the backend is asked at most once for each of them
    && ts.asked + One(Reaches(flags)) <= ts.accepted
       // device references
    && ts.refs == One(stage.Referenced? || stage == Submitted(false) || stage.UndoReference?)
                  + One(ts.active) + One(v.phase.Some?)
       // who the flags say is responsible
    && (flags.inFlight ==> (stage.Unlocked? || stage.Entered? || stage.Leaving?) && (ts.active || Early(v.phase)))
    && (ts.active || Early(v.phase) ==> flags.inFlight || stage == Submitted(true))
    && !(ts.active && Early(v.phase))
    && (stage == Submitted(true) ==> (flags.completed <==> !ts.active && !Early(v.phase)))
    && (BeforeAnswer(stage) ==> !flags.completed)
    && (flags.disappeared && (BeforeAnswer(stage) || stage == Submitted(true)) ==> v.gone)
    && (flags.disappeared && stage == Submitted(true) ==> ts.active)
    && (stage.Marked? ==> !flags.disappeared)
    && (stage.Marked? || stage.Listed? || stage.Referenced? || stage.Submitted? ==> flags.submitting)
  }

  /** After the disconnect of its handle a transfer cannot become in flight. */
  predicate Grounded(ts: TransferState) {
    !ts.flags.inFlight && (ts.stage == Submitted(true) ==> ts.flags.disappeared || ts.flags.completed)
  }

  predicate HandlerOk(s: State)
    requires forall x :: x in s.flying ==> x in s.transfers
  {
    match s.handler
    case Ready => true
    case Finishing(x, phase, disconnecting, _) =>
      x in s.transfers
      && (disconnecting.Some? ==> s.transfers[x].handle == disconnecting.value && disconnecting.value in s.gone)
      && (s.transfers[x].handle in s.done ==> !Early(Some(phase)))
    case Rescanning(h) => h in s.gone
    case Scanning(h, rest) =>
      && h in s.gone
      && (forall x :: x in s.flying && s.transfers[x].handle == h && x !in rest ==> Grounded(s.transfers[x]))
      && (forall x :: x in rest ==> x in s.flying)
    case Clearing(h, x) =>
      && h in s.gone && h !in s.done
      && x in s.transfers && s.transfers[x].handle == h
      && s.transfers[x].active && s.transfers[x].flags.inFlight
  }

  ghost predicate ListOk(s: State) {
    (forall x :: x in s.flying ==> x in s.transfers) && Distinct(s.flying)
  }

  ghost predicate ViewsOk(s: State) {
    forall x :: x in s.transfers ==> ViewOk(ViewOf(s, x))
  }

  ghost predicate DoneOk(s: State) {
    && s.done <= s.gone
    && forall x :: x in s.transfers && s.transfers[x].handle in s.done ==> Grounded(s.transfers[x])
  }

  /** After a successful cancellation no thread changes the flags of the transfer
      before the pass has stored its second mark. */
  predicate Frozen(pass: Pass, f: Flags) {
    && (pass.Succeeded? || pass.Stamping? ==> f.inFlight && f.cancelling)
    && (pass.Stamping? ==> f == pass.seen)
  }

  /** The list does not change while a timeout pass walks it. */
  ghost predicate PassOk(s: State) {
    s.pass.Some? ==>
      && !s.handler.Scanning?
      && (forall x :: x in s.pass.value.rest ==> x in s.flying)
      && (!s.pass.value.Walking? ==>
            InHand(s) && s.pass.value.transfer in s.flying
            && Frozen(s.pass.value, s.transfers[s.pass.value.transfer].flags))
  }

  /** What the invariant says without the timeout pass */
  ghost predicate Core(s: State) {
    ListOk(s) && ViewsOk(s) && HandlerOk(s) && DoneOk(s)
  }

  ghost predicate Inv(s: State) {
    Core(s) && PassOk(s)
  }

  // ----- one step keeps the invariant -----

  predicate SubmitViews(t: Tid, v: View, v': View) {
    && SubmitMoves(t, v.ts, v.gone, v'.ts) && v'.phase == v.phase && v'.gone == v.gone
    && v'.listed == if v.ts.stage.Marked? then true else if v.ts.stage.UndoListing? then false else v.listed
  }

  lemma SubmitViewOk(t: Tid, v: View, v': View)
    requires ViewOk(v) && SubmitViews(t, v, v')
    ensures ViewOk(v')
  {
  }

  lemma SubmitListOk(t: Tid, v: View, v': View)
    requires ViewOk(v) && SubmitViews(t, v, v')
    ensures v.ts.stage.Marked? ==> !v.listed
    ensures v.ts.stage.UndoListing? ==> v.listed
    ensures v.gone && Grounded(v.ts) ==> Grounded(v'.ts)
    ensures v.ts.active && v.ts.flags.inFlight ==> v'.ts.active && v'.ts.flags.inFlight
    ensures v'.ts.handle == v.ts.handle
  {
  }

  lemma SubmitLists(s: State, t: Tid, x: Transfer, s': State)
    requires ListOk(s) && ViewsOk(s) && x in s.transfers && SubmitStep(s, t, x, s')
    ensures ListOk(s')
    ensures SubmitViews(t, ViewOf(s, x), ViewOf(s', x))
    ensures forall y :: y != x ==> (y in s'.flying <==> y in s.flying)
  {
    var v := ViewOf(s, x);
    assert ViewOk(v);
    if v.ts.stage.Marked? || v.ts.stage.UndoListing? {
      assert v.ts.stage.Marked? ==> x !in s.flying;
      if v.ts.stage.Marked? {
        InsertedKeeps(s.flying, x, s'.flying);
      } else {
        WithoutKeeps(s.flying, x);
      }
    }
  }

  lemma SubmitCore(s: State, t: Tid, x: Transfer, s': State)
    requires Core(s) && x in s.transfers && SubmitStep(s, t, x, s')
    ensures Core(s')
  {
    assert ViewOk(ViewOf(s, x));
    SubmitLists(s, t, x, s');
    SubmitListOk(t, ViewOf(s, x), ViewOf(s', x));
    SubmitViewOk(t, ViewOf(s, x), ViewOf(s', x));
    assert ViewsOk(s') by {
      forall y | y in s'.transfers ensures ViewOk(ViewOf(s', y)) {
        assert ViewOk(ViewOf(s, y));
        assert y != x ==> ViewOf(s', y) == ViewOf(s, y);
      }
    }
    assert HandlerOk(s') by { SubmitHandler(s, t, x, s'); }
  }

  lemma SubmitHandler(s: State, t: Tid, x: Transfer, s': State)
    requires Core(s) && x in s.transfers && SubmitStep(s, t, x, s') && ListOk(s')
    requires s.transfers[x].handle in s.gone && Grounded(s.transfers[x]) ==> Grounded(s'.transfers[x])
    requires s.transfers[x].active && s.transfers[x].flags.inFlight ==>
               s'.transfers[x].active && s'.transfers[x].flags.inFlight
    requires s'.transfers[x].handle == s.transfers[x].handle
    ensures HandlerOk(s')
  {
    if s.handler.Scanning? {
      assert s'.flying == s.flying;
    }
  }

  /** What a cancellation or a timeout leaves alone; it may mark a transfer as
      disappeared whose lock is free. */
  predicate OnlyMarked(ts: TransferState, ts': TransferState) {
    var f, f' := ts.flags, ts'.flags;
    && ts' == ts.(flags := f', asked := ts'.asked)
    && f'.inFlight == f.inFlight && f'.completed == f.completed && f'.submitting == f.submitting
    && (f'.disappeared != f.disappeared ==> f'.disappeared && ts.holder.None?)
    && ts'.asked + One(Reaches(f')) <= ts.asked + One(Reaches(f))
  }

  lemma MarkedViewOk(v: View, ts': TransferState)
    requires ViewOk(v) && OnlyMarked(v.ts, ts')
    ensures ViewOk(v.(ts := ts'))
    ensures Grounded(v.ts) ==> Grounded(ts')
  {
  }

  lemma MarkedViewsOk(s: State, x: Transfer, ts': TransferState, s': State)
    requires ViewsOk(s) && x in s.transfers && OnlyMarked(s.transfers[x], ts') && s' == Put(s, x, ts')
    ensures ViewsOk(s')
  {
    assert ViewOk(ViewOf(s, x));
    MarkedViewOk(ViewOf(s, x), ts');
    forall y | y in s'.transfers ensures ViewOk(ViewOf(s', y)) {
      assert ViewOk(ViewOf(s, y));
      assert ViewOf(s', y) == if y == x then ViewOf(s, x).(ts := ts') else ViewOf(s, y);
    }
  }

  lemma MarkedHandlerOk(s: State, x: Transfer, ts': TransferState, s': State)
    requires ListOk(s) && HandlerOk(s) && x in s.transfers && OnlyMarked(s.transfers[x], ts') && s' == Put(s, x, ts')
    requires Grounded(s.transfers[x]) ==> Grounded(ts')
    ensures ListOk(s') && HandlerOk(s')
  {
    if s.handler.Scanning? {
      forall y | y in s'.flying && s'.transfers[y].handle == s.handler.handle && y !in s.handler.rest
        ensures Grounded(s'.transfers[y])
      {
        assert Grounded(s.transfers[y]);
      }
    }
  }

  lemma MarkedCore(s: State, x: Transfer, ts': TransferState, s': State)
    requires Core(s) && x in s.transfers && OnlyMarked(s.transfers[x], ts') && s' == Put(s, x, ts')
    ensures Core(s')
  {
    assert ViewOk(ViewOf(s, x));
    MarkedViewOk(ViewOf(s, x), ts');
    MarkedViewsOk(s, x, ts', s');
    MarkedHandlerOk(s, x, ts', s');
  }

  lemma CancelCore(s: State, x: Transfer, r: int, s': State)
    requires Core(s) && x in s.transfers && CancelStep(s, x, r, s')
    ensures Core(s')
  {
    MarkedCore(s, x, AfterCancel(s.transfers[x], r), s');
  }

  /** Where the pass is does not matter to anything else. */
  lemma PassCore(s: State, pass: Option<Pass>, s': State)
    requires Core(s) && s' == s.(pass := pass)
    ensures Core(s')
  {
    forall y | y in s'.transfers ensures ViewOk(ViewOf(s', y)) {
      assert ViewOk(ViewOf(s, y));
      assert ViewOf(s', y) == ViewOf(s, y);
    }
  }

  predicate OfPass(a: Action) {
    a.PassBegin? || a.PassTurn? || a.PassMark? || a.PassCancel? || a.PassLoad? || a.PassStamp? || a.PassEnd?
  }

  /** A step of the pass that writes to its transfer */
  predicate Writes(a: Action) {
    a.PassMark? || a.PassCancel? || a.PassStamp?
  }

  lemma PassOnlyMarks(s: State, a: Action, s': State)
    requires PassOk(s) && Step(s, a, s') && Careful(s, a) && Writes(a)
    ensures InHand(s) && s.pass.value.transfer in s'.transfers
    ensures var x := s.pass.value.transfer;
            OnlyMarked(s.transfers[x], s'.transfers[x]) && s' == Put(s, x, s'.transfers[x]).(pass := s'.pass)
  {
    var x := s.pass.value.transfer;
    match a
    case PassMark =>
      assert s'.transfers[x].flags == s.transfers[x].flags.(timeoutHandled := true);
    case PassCancel(r) =>
    case PassStamp =>
      assert s'.transfers[x].flags == s.transfers[x].flags.(timedOut := true);
  }

  lemma PassStepCore(s: State, a: Action, s': State)
    requires Inv(s) && Step(s, a, s') && Careful(s, a) && OfPass(a)
    ensures Core(s')
  {
    var m := s;
    if Writes(a) {
      PassOnlyMarks(s, a, s');
      var x := s.pass.value.transfer;
      m := Put(s, x, s'.transfers[x]);
      MarkedCore(s, x, s'.transfers[x], m);
    }
    PassCore(m, s'.pass, s');
  }

  lemma PassStepOk(s: State, a: Action, s': State)
    requires PassOk(s) && (forall x :: x in s.flying ==> x in s.transfers) && Step(s, a, s') && OfPass(a)
    ensures PassOk(s')
  {
    if a.PassTurn? {
      var rest := s.pass.value.rest;
      assert rest == [rest[0]] + rest[1..];
    }
  }

  /** The flag update of a submit of x, or a cancellation of x that reaches the
      backend */
  predicate Touches(s: State, a: Action, x: Transfer) {
    && x in s.transfers
    && match a
       case Submit(_, y) => y == x && s.transfers[x].stage.Submitted?
       case Cancel(y, _) => y == x && Reaches(s.transfers[x].flags)
       case _ => false
  }

  /** Something was written to the flags f that the later value f' shows. */
  predicate Changed(f: Flags, f': Flags) {
    (f.submitting && !f'.submitting) || (!f.cancelling && f'.cancelling)
  }

  /** While the pass has a listed transfer in hand, the other threads change its
      flags in these two ways only. */
  lemma OthersTouch(s: State, a: Action, s': State, x: Transfer)
    requires x in s.transfers && ViewOk(ViewOf(s, x)) && x in s.flying && s.pass.Some? && !s.handler.Scanning?
    requires Step(s, a, s') && !OfPass(a)
    ensures x in s'.transfers
    ensures var f, f' := s.transfers[x].flags, s'.transfers[x].flags;
            if Touches(s, a, x) then
              Changed(f, f') && (f'.submitting ==> f.submitting) && (f.cancelling ==> f'.cancelling)
            else f' == f
  {
    if a.Submit? && a.x == x {
      SubmitTouches(a.t, ViewOf(s, x), s'.transfers[x]);
    }
  }

  lemma SubmitTouches(t: Tid, v: View, ts': TransferState)
    requires ViewOk(v) && SubmitMoves(t, v.ts, v.gone, ts') && v.listed
    ensures if v.ts.stage.Submitted? then
              v.ts.flags.submitting && !ts'.flags.submitting && ts'.flags.cancelling == v.ts.flags.cancelling
            else ts'.flags == v.ts.flags || v.ts.stage.Marked?
  {
  }

  /** The other threads leave the list, and what the pass has in hand, alone. */
  lemma OthersWait(s: State, a: Action, s': State)
    requires Step(s, a, s') && !OfPass(a) && s.pass.Some? && !s.handler.Scanning?
    ensures s'.pass == s.pass && s'.flying == s.flying && !s'.handler.Scanning?
  {
  }

  lemma OthersPassOk(s: State, a: Action, s': State)
    requires ViewsOk(s) && PassOk(s) && Step(s, a, s') && !OfPass(a)
    ensures PassOk(s')
  {
    if s.pass.Some? {
      OthersWait(s, a, s');
      if !s.pass.value.Walking? {
        var x := s.pass.value.transfer;
        assert ViewOk(ViewOf(s, x));
        OthersTouch(s, a, s', x);
      }
    }
  }

  /** The backend gives up the transfer, and its completion begins. */
  lemma CompleteView(v: View)
    requires ViewOk(v) && v.ts.active && v.phase.None? && (v.gone ==> v.ts.flags.inFlight)
    ensures ViewOk(v.(ts := v.ts.(active := false), phase := Some(Unlist)))
  {
  }

  lemma CompleteCore(s: State, x: Transfer, cancelled: bool, s': State)
    requires Core(s) && x in s.transfers && CompleteStep(s, x, cancelled, s')
    ensures Core(s')
  {
    var v := ViewOf(s, x);
    assert ViewOk(v);
    CompleteView(v);
    forall y | y in s'.transfers ensures ViewOk(ViewOf(s', y)) {
      assert ViewOk(ViewOf(s, y));
      assert ViewOf(s', y) == if y == x then v.(ts := s'.transfers[x], phase := Some(Unlist)) else ViewOf(s, y);
    }
  }

  lemma UnlistCore(s: State, s': State)
    requires Core(s) && s.handler.Finishing? && s.handler.phase == Unlist && FinishStep(s, s')
    ensures Core(s')
  {
    var x := s.handler.transfer;
    assert ViewOk(ViewOf(s, x));
    WithoutKeeps(s.flying, x);
    forall y | y in s'.transfers ensures ViewOk(ViewOf(s', y)) {
      assert ViewOk(ViewOf(s, y));
      assert y != x ==> ViewOf(s', y) == ViewOf(s, y);
    }
  }

  lemma MarkDoneView(v: View)
    requires ViewOk(v) && v.phase == Some(MarkDone)
    ensures ViewOk(v.(ts := MarkedDone(v.ts), phase := Some(Callback)))
    ensures Grounded(v.ts) ==> Grounded(MarkedDone(v.ts))
  {
  }

  lemma CallbackView(v: View, status: Status)
    requires ViewOk(v) && v.phase == Some(Callback)
    ensures ViewOk(v.(ts := CalledBack(v.ts, status), phase := Some(DropReference)))
  {
  }

  lemma DropReferenceView(v: View)
    requires ViewOk(v) && v.phase == Some(DropReference)
    ensures ViewOk(v.(ts := v.ts.(refs := v.ts.refs - 1), phase := None))
  {
  }

  /** The other steps of a completion change the view of its transfer alone. */
  lemma FinishViews(s: State, s': State, ts': TransferState, phase: Option<Phase>)
    requires ViewsOk(s) && s.handler.Finishing? && s.handler.transfer in s.transfers
    requires s'.transfers == s.transfers[s.handler.transfer := ts'] && s'.flying == s.flying && s'.gone == s.gone
    requires ts'.handle == s.transfers[s.handler.transfer].handle
    requires PhaseOf(s'.handler, s.handler.transfer) == phase
    requires s'.handler.Finishing? ==> s'.handler.transfer == s.handler.transfer
    requires ViewOk(ViewOf(s, s.handler.transfer).(ts := ts', phase := phase))
    ensures ViewsOk(s')
  {
    var x := s.handler.transfer;
    forall y | y in s'.transfers ensures ViewOk(ViewOf(s', y)) {
      assert ViewOk(ViewOf(s, y));
      assert ViewOf(s', y) == if y == x then ViewOf(s, x).(ts := ts', phase := phase) else ViewOf(s, y);
    }
  }

  lemma MarkDoneCore(s: State, s': State)
    requires Core(s) && s.handler.Finishing? && s.handler.phase == MarkDone && FinishStep(s, s')
    ensures Core(s')
  {
    var v := ViewOf(s, s.handler.transfer);
    assert ViewOk(v);
    MarkDoneView(v);
    FinishViews(s, s', MarkedDone(v.ts), Some(Callback));
  }

  lemma CallbackCore(s: State, s': State)
    requires Core(s) && s.handler.Finishing? && s.handler.phase == Callback && FinishStep(s, s')
    ensures Core(s')
  {
    var v := ViewOf(s, s.handler.transfer);
    assert ViewOk(v);
    CallbackView(v, s.handler.status);
    FinishViews(s, s', CalledBack(v.ts, s.handler.status), Some(DropReference));
  }

  lemma DropReferenceCore(s: State, s': State)
    requires Core(s) && s.handler.Finishing? && s.handler.phase == DropReference && FinishStep(s, s')
    ensures Core(s')
  {
    var v := ViewOf(s, s.handler.transfer);
    assert ViewOk(v);
    DropReferenceView(v);
    FinishViews(s, s', v.ts.(refs := v.ts.refs - 1), None);
  }

  lemma DisconnectCore(s: State, h: Handle, s': State)
    requires Core(s) && DisconnectStep(s, h, s')
    ensures Core(s')
  {
    forall y | y in s'.transfers ensures ViewOk(ViewOf(s', y)) {
      assert ViewOk(ViewOf(s, y));
    }
  }

  lemma RescanCore(s: State, s': State)
    requires Core(s) && s.handler.Rescanning? && RescanStep(s, s')
    ensures Core(s')
  {
    forall y | y in s'.transfers ensures ViewOk(ViewOf(s', y)) {
      assert ViewOk(ViewOf(s, y));
      assert ViewOf(s', y) == ViewOf(s, y);
    }
  }

  /** A transfer the scan marks, or finds off the list, cannot become in flight. */
  lemma ScannedIsGrounded(v: View)
    requires ViewOk(v) && v.phase.None? && !v.ts.flags.inFlight
    ensures v.listed ==> Grounded(Disappeared(v.ts))
    ensures !v.listed ==> Grounded(v.ts)
    ensures v.listed && v.gone ==> ViewOk(v.(ts := Disappeared(v.ts)))
  {
  }

  /** What is off the list at the end of a scan cannot become in flight either. */
  lemma ScanEndCore(s: State, s': State)
    requires Core(s) && s.handler.Scanning? && s.handler.rest == [] && ScanStep(s, s')
    ensures Core(s')
  {
    forall y | y in s.transfers ensures ViewOk(ViewOf(s', y)) {
      assert ViewOf(s', y) == ViewOf(s, y);
    }
    forall y | y in s.transfers && s.transfers[y].handle == s.handler.handle ensures Grounded(s.transfers[y]) {
      assert ViewOk(ViewOf(s, y));
      if y !in s.flying {
        ScannedIsGrounded(ViewOf(s, y));
      }
    }
  }

  /** The scan marks a transfer of the handle that is not in flight. */
  lemma ScanMarkViews(s: State, x: Transfer, s': State)
    requires ViewsOk(s) && x in s.transfers && ViewOk(ViewOf(s, x).(ts := Disappeared(s.transfers[x])))
    requires s'.transfers == s.transfers[x := Disappeared(s.transfers[x])] && s'.flying == s.flying
    requires s'.gone == s.gone && s.handler.Scanning? && s'.handler.Scanning?
    ensures ViewsOk(s')
  {
    forall y | y in s'.transfers ensures ViewOk(ViewOf(s', y)) {
      assert ViewOk(ViewOf(s, y));
      assert ViewOf(s', y) == if y == x then ViewOf(s, x).(ts := Disappeared(s.transfers[x])) else ViewOf(s, y);
    }
  }

  /** The scan leaves the transfers alone. */
  lemma ScanPassViews(s: State, s': State)
    requires ViewsOk(s) && s.handler.Scanning? && !s'.handler.Finishing? && s' == s.(handler := s'.handler)
    ensures ViewsOk(s')
  {
    forall y | y in s'.transfers ensures ViewOk(ViewOf(s', y)) {
      assert ViewOk(ViewOf(s, y));
      assert ViewOf(s', y) == ViewOf(s, y);
    }
  }

  lemma ScanMarkCore(s: State, s': State)
    requires Core(s) && s.handler.Scanning? && s.handler.rest != [] && ScanStep(s, s')
    ensures Core(s')
  {
    var x, rest := s.handler.rest[0], s.handler.rest;
    assert ViewOk(ViewOf(s, x));
    assert rest == [x] + rest[1..];
    if s.transfers[x].handle == s.handler.handle && !s.transfers[x].flags.inFlight {
      ScannedIsGrounded(ViewOf(s, x));
      ScanMarkViews(s, x, s');
    } else {
      ScanPassViews(s, s');
    }
  }

  lemma ClearCore(s: State, s': State)
    requires Core(s) && s.handler.Clearing? && s.handler.transfer in s.transfers && ClearStep(s, s')
    ensures Core(s')
  {
    var x := s.handler.transfer;
    var v := ViewOf(s, x);
    assert ViewOk(v);
    CompleteView(v);
    forall y | y in s'.transfers ensures ViewOk(ViewOf(s', y)) {
      assert ViewOk(ViewOf(s, y));
      assert ViewOf(s', y) == if y == x then v.(ts := s'.transfers[x], phase := Some(Unlist)) else ViewOf(s, y);
    }
  }

  lemma FinishCore(s: State, s': State)
    requires Core(s) && s.handler.Finishing? && s.handler.transfer in s.transfers && FinishStep(s, s')
    ensures Core(s')
  {
    match s.handler.phase
    case Unlist => UnlistCore(s, s');
    case MarkDone => MarkDoneCore(s, s');
    case Callback => CallbackCore(s, s');
    case DropReference => DropReferenceCore(s, s');
  }

  lemma OthersCore(s: State, a: Action, s': State)
    requires Core(s) && Step(s, a, s') && !OfPass(a)
    ensures Core(s')
  {
    match a
    case Submit(t, x) => SubmitCore(s, t, x, s');
    case Cancel(x, r) => CancelCore(s, x, r, s');
    case Complete(x, cancelled) => CompleteCore(s, x, cancelled, s');
    case Finish => FinishCore(s, s');
    case Disconnect(h) => DisconnectCore(s, h, s');
    case Rescan => RescanCore(s, s');
    case Scan => if s.handler.rest == [] { ScanEndCore(s, s'); } else { ScanMarkCore(s, s'); }
    case Clear => ClearCore(s, s');
    case _ =>
  }

  lemma StepInv(s: State, a: Action, s': State)
    requires Inv(s) && Step(s, a, s') && Careful(s, a)
    ensures Inv(s')
  {
    if OfPass(a) {
      PassStepCore(s, a, s');
      PassStepOk(s, a, s');
    } else {
      OthersCore(s, a, s');
      OthersPassOk(s, a, s');
    }
  }

  lemma {:induction false} RunInv(run: seq<State>, actions: seq<Action>, i: nat)
    requires IsRun(run, actions) && i < |run| && LosesNothing(run, actions, i)
    ensures Inv(run[i])
  {
    if i > 0 {
      RunInv(run, actions, i - 1);
      assert Careful(run[i - 1], actions[i - 1]);
      StepInv(run[i - 1], actions[i - 1], run[i]);
    }
  }

  // ----- what holds in every state of a run in which no store loses anything -----

  /** Every accepted submission is answered by one callback: it has been
      delivered, or the backend still owns the transfer, or the completion is on
      its way.  The submission whose answer is in is counted as accepted. */
  lemma AcceptedSubmissionsBalanceCallbacks(run: seq<State>, actions: seq<Action>, i: nat, x: Transfer)
    requires IsRun(run, actions) && i < |run| && LosesNothing(run, actions, i) && x in run[i].transfers
    ensures var v := ViewOf(run[i], x);
            v.ts.accepted + One(v.ts.stage == Submitted(true))
            == v.ts.callbacks + One(v.ts.active) + One(CallbackDue(v))
  {
    RunInv(run, actions, i);
    assert ViewOk(ViewOf(run[i], x));
  }

  /** A transfer nobody works on holds no device reference and is on no list,
      and all its accepted submissions have had their callback. */
  lemma SettledTransferHoldsNothing(run: seq<State>, actions: seq<Action>, i: nat, x: Transfer)
    requires IsRun(run, actions) && i < |run| && LosesNothing(run, actions, i) && x in run[i].transfers
    requires var v := ViewOf(run[i], x);
             (v.ts.stage.Unlocked? || v.ts.stage.Leaving?) && !v.ts.flags.inFlight && v.phase.None?
    ensures var ts := run[i].transfers[x];
            ts.refs == 0 && x !in run[i].flying && ts.accepted == ts.callbacks && !ts.active
  {
    RunInv(run, actions, i);
    assert ViewOk(ViewOf(run[i], x));
  }

  /** The backend is asked to cancel at most once for each accepted submission,
      by whichever threads; what can reach it now is the first for its submission. */
  lemma BackendAskedOnce(run: seq<State>, actions: seq<Action>, i: nat, x: Transfer)
    requires IsRun(run, actions) && i < |run| && LosesNothing(run, actions, i) && x in run[i].transfers
    ensures var ts := run[i].transfers[x];
            ts.asked <= ts.accepted && (Reaches(ts.flags) ==> ts.asked < ts.accepted)
  {
    RunInv(run, actions, i);
    assert ViewOk(ViewOf(run[i], x));
  }

  /** The second store without a lock, which follows a successful cancellation,
      cannot be the first to lose something. */
  lemma StampLosesNothing(run: seq<State>, actions: seq<Action>, i: nat)
    requires IsRun(run, actions) && i < |run| && LosesNothing(run, actions, i)
    ensures !StampLoses(run[i])
  {
    RunInv(run, actions, i);
  }

  /** Submissions are accepted, and unless one is a transfer does not get in flight. */
  predicate InFlightByAccept(ts: TransferState, ts': TransferState) {
    && ts'.accepted >= ts.accepted
    && (ts'.flags.inFlight && !ts.flags.inFlight ==> ts'.accepted > ts.accepted)
  }

  lemma SubmitAccepts(t: Tid, ts: TransferState, gone: bool, ts': TransferState)
    requires SubmitMoves(t, ts, gone, ts')
    ensures InFlightByAccept(ts, ts')
  {
  }

  lemma StepDoesNotAccept(s: State, a: Action, s': State, x: Transfer)
    requires Step(s, a, s') && x in s.transfers && !Writes(a) && !(a.Submit? && a.x == x)
    ensures x in s'.transfers && InFlightByAccept(s.transfers[x], s'.transfers[x])
  {
  }

  lemma StepAccepts(s: State, a: Action, s': State, x: Transfer)
    requires PassOk(s) && Step(s, a, s') && Careful(s, a) && x in s.transfers
    ensures x in s'.transfers && InFlightByAccept(s.transfers[x], s'.transfers[x])
  {
    if Writes(a) {
      PassOnlyMarks(s, a, s');
    } else if a.Submit? && a.x == x {
      SubmitAccepts(a.t, s.transfers[x], s.transfers[x].handle in s.gone, s'.transfers[x]);
    } else {
      StepDoesNotAccept(s, a, s', x);
    }
  }

  lemma {:induction false} RunAccepts(run: seq<State>, actions: seq<Action>, i: nat, j: nat, x: Transfer)
    requires IsRun(run, actions) && i <= j < |run| && LosesNothing(run, actions, j) && x in run[i].transfers
    ensures x in run[j].transfers && InFlightByAccept(run[i].transfers[x], run[j].transfers[x])
    decreases j
  {
    if i < j {
      var k := j - 1;
      RunAccepts(run, actions, i, k, x);
      RunStepAccepts(run, actions, k, j, x);
      AcceptsChain(run[i].transfers[x], run[k].transfers[x], run[j].transfers[x]);
    }
  }

  lemma RunStepAccepts(run: seq<State>, actions: seq<Action>, i: nat, j: nat, x: Transfer)
    requires IsRun(run, actions) && j == i + 1 < |run| && LosesNothing(run, actions, j) && x in run[i].transfers
    ensures x in run[j].transfers && InFlightByAccept(run[i].transfers[x], run[j].transfers[x])
  {
    RunInv(run, actions, i);
    StepAccepts(run[i], actions[i], run[j], x);
  }

  lemma AcceptsChain(a: TransferState, b: TransferState, c: TransferState)
    requires InFlightByAccept(a, b) && InFlightByAccept(b, c)
    ensures InFlightByAccept(a, c)
  {
  }

  /** On no list, not with the backend, and with no device reference but that of a
      completion that has yet to drop its own. */
  predicate Released(v: View) {
    !v.listed && !v.ts.active && v.ts.refs == One(v.phase.Some?)
  }

  /** A submit that finds the transfer not in flight and fails gives back its
      device reference and its list entry. */
  lemma FailedSubmitIsUndone(run: seq<State>, actions: seq<Action>, i: nat, j: nat, x: Transfer)
    requires IsRun(run, actions) && i < j < |run| && LosesNothing(run, actions, j)
    requires x in run[i].transfers && x in run[j].transfers
    requires run[i].transfers[x].stage.Entered? && !run[i].transfers[x].flags.inFlight
    requires run[j].transfers[x].stage.Leaving? && run[j].transfers[x].accepted == run[i].transfers[x].accepted
    ensures Released(ViewOf(run[i], x)) && Released(ViewOf(run[j], x))
  {
    RunInv(run, actions, i);
    RunInv(run, actions, j);
    RunAccepts(run, actions, i, j, x);
    assert ViewOk(ViewOf(run[i], x)) && ViewOk(ViewOf(run[j], x));
  }

  lemma FlyingListIsSound(run: seq<State>, actions: seq<Action>, i: nat)
    requires IsRun(run, actions) && i < |run| && LosesNothing(run, actions, i)
    ensures Distinct(run[i].flying)
    ensures forall x | x in run[i].transfers && run[i].transfers[x].flags.inFlight ::
              PhaseOf(run[i].handler, x) != Some(MarkDone) ==> x in run[i].flying
  {
    RunInv(run, actions, i);
    forall x | x in run[i].transfers && run[i].transfers[x].flags.inFlight
      ensures PhaseOf(run[i].handler, x) != Some(MarkDone) ==> x in run[i].flying
    {
      assert ViewOk(ViewOf(run[i], x));
    }
  }

  /** The step takes x off the flying list. */
  predicate Removes(s: State, a: Action, x: Transfer) {
    || (a.Submit? && a.x == x && x in s.transfers && s.transfers[x].stage.UndoListing?)
    || (a.Finish? && s.handler.Finishing? && s.handler.transfer == x && s.handler.phase.Unlist?)
  }

  /** What is taken off the list is on it, once, and nothing else leaves it. */
  lemma RemovedIsListed(run: seq<State>, actions: seq<Action>, i: nat, x: Transfer)
    requires IsRun(run, actions) && i < |actions| && LosesNothing(run, actions, i) && Removes(run[i], actions[i], x)
    ensures x in run[i].flying && x !in run[i + 1].flying
    ensures multiset(run[i + 1].flying) == multiset(run[i].flying) - multiset{x}
  {
    RunInv(run, actions, i);
    var s := run[i];
    assert Step(s, actions[i], run[i + 1]);
    assert ViewOk(ViewOf(s, x));
    RemovedOnce(s.flying, x);
  }

  lemma RemovedOnce(list: seq<Transfer>, x: Transfer)
    requires Distinct(list) && x in list
    ensures x !in Without(list, x) && multiset(Without(list, x)) == multiset(list) - multiset{x}
  {
    WithoutKeeps(list, x);
    WithoutCounts(list, x);
  }

  /** Only these steps take anything off the list, and only a submit adds to it. */
  lemma OthersKeepList(s: State, a: Action, s': State, x: Transfer)
    requires Step(s, a, s') && !Removes(s, a, x)
    ensures multiset(s'.flying)[x] >= multiset(s.flying)[x]
    ensures multiset(s'.flying)[x] > multiset(s.flying)[x] ==>
              a.Submit? && a.x == x && x in s.transfers && s.transfers[x].stage.Marked?
  {
    if a.Submit? && s.transfers[a.x].stage.Marked? {
      InsertedCounts(s.flying, a.x, s'.flying);
    } else if a.Submit? && s.transfers[a.x].stage.UndoListing? {
      WithoutOthers(s.flying, a.x, x);
    } else if a.Finish? && s.handler.phase.Unlist? {
      WithoutOthers(s.flying, s.handler.transfer, x);
    }
  }

  lemma {:induction false} WithoutOthers(list: seq<Transfer>, x: Transfer, y: Transfer)
    requires y != x
    ensures multiset(Without(list, x))[y] == multiset(list)[y]
  {
    if list != [] {
      assert list == [list[0]] + list[1..];
      WithoutOthers(list[1..], x, y);
    }
  }

  /** While a submit holds the lock of a transfer, no other thread asks the backend to
      cancel it, takes it back, or moves the submit on. */
  lemma LockKeepsOthersOut(s: State, a: Action, s': State, x: Transfer)
    requires Step(s, a, s') && x in s.transfers && s.transfers[x].holder.Some?
    ensures x in s'.transfers
    ensures a == Submit(s.transfers[x].holder.value, x)
            || (&& s'.transfers[x].holder == s.transfers[x].holder && s'.transfers[x].stage == s.transfers[x].stage
                && s'.transfers[x].asked == s.transfers[x].asked && !(a.Clear? && s.handler.transfer == x))
  {
  }

  /** Once usbi_handle_disconnect() has returned, no transfer of the handle is
      in flight, now or later; the backend owns one only until the submit that is
      just returning takes it back; and none waits for a callback. */
  lemma DisconnectLeavesNothingInFlight(run: seq<State>, actions: seq<Action>, i: nat, x: Transfer)
    requires IsRun(run, actions) && i < |run| && LosesNothing(run, actions, i)
    requires x in run[i].transfers && run[i].transfers[x].handle in run[i].done
    ensures var ts := run[i].transfers[x];
            && !ts.flags.inFlight
            && (ts.active ==> ts.stage == Submitted(true))
            && (ts.stage.Unlocked? && PhaseOf(run[i].handler, x).None? ==> ts.accepted == ts.callbacks && ts.refs == 0)
  {
    RunInv(run, actions, i);
    assert ViewOk(ViewOf(run[i], x));
  }

  // ----- the disconnect loop terminates -----

  ghost function Owned(s: State, h: Handle): set<Transfer> {
    set x | x in s.transfers && s.transfers[x].handle == h && s.transfers[x].active
  }

  predicate TakesBack(s: State, a: Action, h: Handle) {
    a.Clear? && s.handler.Clearing? && s.handler.handle == h
  }

  /** How many transfers usbi_handle_disconnect(h) takes back in the first n steps. */
  function TakenBack(run: seq<State>, actions: seq<Action>, h: Handle, from: nat, n: nat): nat
    requires from <= n <= |actions| < |run|
    decreases n - from
  {
    if from == n then 0
    else (if TakesBack(run[from], actions[from], h) then 1 else 0) + TakenBack(run, actions, h, from + 1, n)
  }

  lemma SubmitMovesOnly(t: Tid, ts: TransferState, gone: bool, ts': TransferState)
    requires SubmitMoves(t, ts, gone, ts')
    ensures ts'.handle == ts.handle
    ensures ts'.active && !ts.active ==> !gone
  {
  }

  /** Only a submit of the transfer moves it on. */
  lemma StepKeepsPlace(s: State, a: Action, s': State, x: Transfer)
    requires Step(s, a, s') && x in s.transfers && !(a.Submit? && a.x == x)
    ensures x in s'.transfers
    ensures var ts, ts' := s.transfers[x], s'.transfers[x];
            && ts'.handle == ts.handle && ts'.holder == ts.holder && ts'.stage == ts.stage
            && (ts'.active ==> ts.active)
  {
  }

  lemma StepKeepsKeys(s: State, a: Action, s': State)
    requires Step(s, a, s')
    ensures s'.transfers.Keys == s.transfers.Keys && s.gone <= s'.gone
  {
  }

  lemma TransferMovesOnly(s: State, a: Action, s': State, x: Transfer)
    requires Step(s, a, s') && x in s.transfers
    ensures x in s'.transfers && s'.transfers[x].handle == s.transfers[x].handle
    ensures s'.transfers[x].active && !s.transfers[x].active ==> s.transfers[x].handle !in s.gone
  {
    if a.Submit? && a.x == x {
      SubmitMovesOnly(a.t, s.transfers[x], s.transfers[x].handle in s.gone, s'.transfers[x]);
    } else {
      StepKeepsPlace(s, a, s', x);
    }
  }

  /** A transfer keeps its handle, and the backend gets it only by a submit. */
  lemma StepMovesOnly(s: State, a: Action, s': State)
    requires Step(s, a, s')
    ensures s'.transfers.Keys == s.transfers.Keys && s.gone <= s'.gone
    ensures forall x | x in s.transfers ::
              && s'.transfers[x].handle == s.transfers[x].handle
              && (s'.transfers[x].active && !s.transfers[x].active ==> s.transfers[x].handle !in s.gone)
  {
    StepKeepsKeys(s, a, s');
    forall x | x in s.transfers
      ensures x in s'.transfers && s'.transfers[x].handle == s.transfers[x].handle
      ensures s'.transfers[x].active && !s.transfers[x].active ==> s.transfers[x].handle !in s.gone
    {
      TransferMovesOnly(s, a, s', x);
    }
  }

  /** Nothing a thread does gives the backend another transfer of a device that
      is gone, not even a callback that resubmits. */
  lemma OwnedShrinks(s: State, a: Action, s': State, h: Handle)
    requires Inv(s) && Step(s, a, s') && h in s.gone
    ensures h in s'.gone && Owned(s', h) <= Owned(s, h)
    ensures TakesBack(s, a, h) ==> Owned(s', h) < Owned(s, h)
  {
    StepMovesOnly(s, a, s');
    if TakesBack(s, a, h) {
      assert s.handler.transfer in Owned(s, h) && s.handler.transfer !in Owned(s', h);
    }
  }

  lemma StrictSubsetIsSmaller<T>(a: set<T>, b: set<T>)
    requires a <= b
    ensures |a| <= |b|
    ensures a < b ==> |a| < |b|
  {
    assert b == a + (b - a);
    assert a < b ==> b - a != {};
  }

  /** The loop of usbi_handle_disconnect() runs at most once for each transfer
      of the handle that the backend owned when the device went away. */
  lemma {:induction false} DisconnectLoopTerminates(
    run: seq<State>, actions: seq<Action>, h: Handle, from: nat, n: nat)
    requires IsRun(run, actions) && from <= n <= |actions| && LosesNothing(run, actions, n) && h in run[from].gone
    ensures TakenBack(run, actions, h, from, n) + |Owned(run[n], h)| <= |Owned(run[from], h)|
    decreases n - from
  {
    if from < n {
      RunInv(run, actions, from);
      var s, s' := run[from], run[from + 1];
      OwnedShrinks(s, actions[from], s', h);
      StrictSubsetIsSmaller(Owned(s', h), Owned(s, h));
      DisconnectLoopTerminates(run, actions, h, from + 1, n);
    }
  }

  // ----- when a store loses something -----

  /** Step i loads the flags of a transfer that is due, and step j is the store
      that belongs to it. */
  ghost predicate Window(actions: seq<Action>, i: nat, j: nat) {
    && i < j < |actions| && actions[i] == PassTurn(true) && actions[j] == PassMark
    && forall k :: i < k < j ==> !OfPass(actions[k])
  }

  /** Another thread writes to the flags of the transfer that the pass has in hand:
      a submit of it makes its flag update, or a cancellation of it reaches the
      backend. */
  predicate Intrudes(s: State, a: Action) {
    InHand(s) && Touches(s, a, s.pass.value.transfer)
  }

  ghost predicate Disturbed(run: seq<State>, actions: seq<Action>, i: nat, j: nat)
    requires j <= |actions| < |run|
  {
    exists k :: i < k < j && Intrudes(run[k], actions[k])
  }

  lemma DisturbedNext(run: seq<State>, actions: seq<Action>, i: nat, j: nat)
    requires i < j < |actions| < |run|
    ensures Disturbed(run, actions, i, j + 1) <==> Disturbed(run, actions, i, j) || Intrudes(run[j], actions[j])
  {
  }

  /** How the flags of a transfer compare with what the pass has loaded */
  predicate SeenOrChanged(s: State, x: Transfer, seen: Flags, disturbed: bool) {
    && s.pass.Some? && s.pass.value.Marking? && s.pass.value.transfer == x && s.pass.value.seen == seen
    && x in s.transfers
    && if disturbed then Changed(seen, s.transfers[x].flags) else s.transfers[x].flags == seen
  }

  lemma SeenOrChangedStep(s: State, a: Action, s': State, x: Transfer, seen: Flags, disturbed: bool)
    requires Inv(s) && Step(s, a, s') && !OfPass(a) && SeenOrChanged(s, x, seen, disturbed)
    ensures SeenOrChanged(s', x, seen, disturbed || Intrudes(s, a))
  {
    assert ViewOk(ViewOf(s, x));
    OthersWait(s, a, s');
    OthersTouch(s, a, s', x);
  }

  lemma {:induction false} WindowFlags(
    run: seq<State>, actions: seq<Action>, i: nat, j: nat, k: nat, x: Transfer, seen: Flags)
    requires IsRun(run, actions) && Window(actions, i, j) && i < k <= j && LosesNothing(run, actions, j)
    requires SeenOrChanged(run[i + 1], x, seen, false)
    ensures SeenOrChanged(run[k], x, seen, Disturbed(run, actions, i, k))
  {
    var l := k - 1;
    if i < l {
      WindowFlags(run, actions, i, j, l, x, seen);
      RunInv(run, actions, l);
      SeenOrChangedStep(run[l], actions[l], run[k], x, seen, Disturbed(run, actions, i, l));
      DisturbedNext(run, actions, i, l);
    }
  }

  /** The first store to lose something is one between whose load and itself
      another thread has written to the flags, and each such store loses
      something. */
  lemma MarkLosesIff(run: seq<State>, actions: seq<Action>, i: nat, j: nat)
    requires IsRun(run, actions) && Window(actions, i, j) && LosesNothing(run, actions, j)
    ensures MarkLoses(run[j]) <==> Disturbed(run, actions, i, j)
  {
    assert Step(run[i], actions[i], run[i + 1]) && Step(run[j], actions[j], run[j + 1]);
    var pass := run[i + 1].pass.value;
    WindowFlags(run, actions, i, j, j, pass.transfer, pass.seen);
  }

  /** Every store has its load. */
  lemma {:induction false} LoadOf(run: seq<State>, actions: seq<Action>, j: nat, k: nat) returns (i: nat)
    requires IsRun(run, actions) && k <= j < |actions| && actions[j] == PassMark
    requires run[k].pass.Some? && run[k].pass.value.Marking? && forall m :: k <= m < j ==> !OfPass(actions[m])
    ensures Window(actions, i, j)
    decreases k
  {
    i := k - 1;
    IntoMarking(run[i], actions[i], run[k]);
    if OfPass(actions[i]) {
      assert Window(actions, i, j);
    } else {
      i := LoadOf(run, actions, j, i);
    }
  }

  lemma IntoMarking(s: State, a: Action, s': State)
    requires Step(s, a, s') && s'.pass.Some? && s'.pass.value.Marking?
    ensures if OfPass(a) then a == PassTurn(true) else s'.pass == s.pass
  {
    if !OfPass(a) {
      OthersKeepPass(s, a, s');
    }
  }

  lemma OthersKeepPass(s: State, a: Action, s': State)
    requires Step(s, a, s') && !OfPass(a)
    ensures s'.pass == s.pass
  {
  }

  /** A run loses nothing if and only if no other thread writes to the flags of a
      transfer between a load and the store that belongs to it. */
  lemma {:induction false} LosesNothingIff(run: seq<State>, actions: seq<Action>, n: nat)
    requires IsRun(run, actions) && n <= |actions|
    ensures LosesNothing(run, actions, n)
            <==> forall i: nat, j: nat | Window(actions, i, j) && j < n :: !Disturbed(run, actions, i, j)
  {
    if LosesNothing(run, actions, n) {
      forall i: nat, j: nat | Window(actions, i, j) && j < n ensures !Disturbed(run, actions, i, j) {
        assert Careful(run[j], actions[j]);
        MarkLosesIff(run, actions, i, j);
      }
    } else {
      var m := FirstLoss(run, actions, n);
      assert Step(run[m], actions[m], run[m + 1]);
      var i := LoadOf(run, actions, m, m);
      MarkLosesIff(run, actions, i, m);
    }
  }

  lemma {:induction false} FirstLoss(run: seq<State>, actions: seq<Action>, n: nat) returns (m: nat)
    requires n <= |actions| < |run| && !LosesNothing(run, actions, n)
    ensures m < n && LosesNothing(run, actions, m) && !Careful(run[m], actions[m])
  {
    m := n - 1;
    if !LosesNothing(run, actions, m) {
      m := FirstLoss(run, actions, m);
    }
  }

  // ----- a timeout pass can wait for ever -----

  /** What holds in every run: the holder of a transfer's lock is inside a submit,
      and what the pass has in hand is a transfer. */
  ghost predicate Basic(s: State) {
    && (forall x :: x in s.transfers ==> HolderOk(s.transfers[x]))
    && (s.pass.Some? && !s.pass.value.Walking? ==> InHand(s))
  }

  predicate HolderOk(ts: TransferState) {
    ts.holder.None? <==> ts.stage.Unlocked?
  }

  lemma HolderStep(s: State, a: Action, s': State, x: Transfer)
    requires x in s.transfers && HolderOk(s.transfers[x]) && Step(s, a, s')
    ensures x in s'.transfers && HolderOk(s'.transfers[x])
  {
    if a.Submit? && a.x == x {
      SubmitHolder(a.t, s.transfers[x], s.transfers[x].handle in s.gone, s'.transfers[x]);
    } else {
      StepKeepsPlace(s, a, s', x);
    }
  }

  lemma SubmitHolder(t: Tid, ts: TransferState, gone: bool, ts': TransferState)
    requires HolderOk(ts) && SubmitMoves(t, ts, gone, ts')
    ensures HolderOk(ts')
  {
  }

  lemma InHandStep(s: State, a: Action, s': State)
    requires s.pass.Some? && !s.pass.value.Walking? ==> InHand(s)
    requires Step(s, a, s') && s'.transfers.Keys == s.transfers.Keys
    ensures s'.pass.Some? && !s'.pass.value.Walking? ==> InHand(s')
  {
    assert s'.pass != s.pass ==> OfPass(a);
  }

  lemma BasicStep(s: State, a: Action, s': State)
    requires Basic(s) && Step(s, a, s')
    ensures Basic(s')
  {
    StepKeepsKeys(s, a, s');
    InHandStep(s, a, s');
    forall x | x in s'.transfers ensures HolderOk(s'.transfers[x]) {
      HolderStep(s, a, s', x);
    }
  }

  lemma {:induction false} RunBasic(run: seq<State>, actions: seq<Action>, i: nat)
    requires IsRun(run, actions) && i < |run|
    ensures Basic(run[i])
  {
    if i > 0 {
      RunBasic(run, actions, i - 1);
      BasicStep(run[i - 1], actions[i - 1], run[i]);
    }
  }

  ghost predicate IsPath(path: seq<State>, actions: seq<Action>) {
    |path| == |actions| + 1 && forall i :: 0 <= i < |actions| ==> Step(path[i], actions[i], path[i + 1])
  }

  /** A timeout pass, which holds the lock of the list, wants the lock of x. */
  predicate Waiting(s: State, x: Transfer) {
    s.pass.Some? && s.pass.value.Cancelling? && s.pass.value.transfer == x
  }

  /** libusb_submit_transfer(), which holds the lock of the transfer, cannot come to
      its end without the lock of the list. */
  predicate Doomed(ts: TransferState, gone: bool) {
    match ts.stage
    case Marked | UndoReference | UndoListing => true
    case Submitted(ok) => !ok || ts.flags.disappeared
    case Listed | Referenced => gone || ts.flags.disappeared
    case Unlocked | Entered | Leaving => false
  }

  predicate IsDoomed(s: State, x: Transfer) {
    x in s.transfers && Doomed(s.transfers[x], s.transfers[x].handle in s.gone)
  }

  lemma SubmitStaysDoomed(t: Tid, ts: TransferState, gone: bool, ts': TransferState)
    requires SubmitMoves(t, ts, gone, ts') && Doomed(ts, gone) && !ts.stage.Marked? && !ts.stage.UndoListing?
    ensures Doomed(ts', gone)
  {
  }

  lemma DoomedGoesOn(ts: TransferState, ts': TransferState, gone: bool, gone': bool)
    requires Doomed(ts, gone) && ts'.stage == ts.stage && (ts.flags.disappeared ==> ts'.flags.disappeared)
    requires gone ==> gone'
    ensures Doomed(ts', gone')
  {
  }

  /** No step of any thread changes that. */
  lemma DoomedStep(s: State, a: Action, s': State, x: Transfer)
    requires Basic(s) && Step(s, a, s') && Waiting(s, x) && IsDoomed(s, x)
    ensures Waiting(s', x) && IsDoomed(s', x)
  {
    StepMovesOnly(s, a, s');
    if a.Submit? && a.x == x {
      SubmitStaysDoomed(a.t, s.transfers[x], s.transfers[x].handle in s.gone, s'.transfers[x]);
    } else {
      DoomedStaysPut(s, a, s', x);
      DoomedGoesOn(s.transfers[x], s'.transfers[x], s.transfers[x].handle in s.gone, s'.transfers[x].handle in s'.gone);
    }
  }

  lemma DoomedStaysPut(s: State, a: Action, s': State, x: Transfer)
    requires x in s.transfers && s.transfers[x].holder.Some?
    requires Step(s, a, s') && Waiting(s, x) && !(a.Submit? && a.x == x)
    ensures Waiting(s', x) && x in s'.transfers && s'.transfers[x].stage == s.transfers[x].stage
    ensures s.transfers[x].flags.disappeared ==> s'.transfers[x].flags.disappeared
  {
    StepKeepsPlace(s, a, s', x);
    assert !OfPass(a);
    OthersKeepPass(s, a, s');
    if s.transfers[x].flags.disappeared {
      StaysDisappeared(s, a, s', x);
    }
  }

  lemma StaysDisappeared(s: State, a: Action, s': State, x: Transfer)
    requires x in s.transfers && x in s'.transfers && s.transfers[x].flags.disappeared
    requires Step(s, a, s') && !OfPass(a) && !(a.Submit? && a.x == x)
    ensures s'.transfers[x].flags.disappeared
  {
    match a
    case Submit(_, y) =>
    case Cancel(y, r) =>
    case Finish =>
    case Scan =>
    case _ =>
  }

  lemma {:induction false} DoomedPath(path: seq<State>, actions: seq<Action>, x: Transfer, i: nat)
    requires IsPath(path, actions) && Basic(path[0]) && Waiting(path[0], x) && IsDoomed(path[0], x) && i < |path|
    ensures Basic(path[i]) && Waiting(path[i], x) && IsDoomed(path[i], x)
  {
    if i > 0 {
      DoomedPath(path, actions, x, i - 1);
      BasicStep(path[i - 1], actions[i - 1], path[i]);
      DoomedStep(path[i - 1], actions[i - 1], path[i], x);
    }
  }

  // ----- and otherwise it need not -----

  function StepsLeft(stage: Stage): nat {
    match stage
    case Listed => 5
    case Referenced => 4
    case Submitted(_) | Entered => 3
    case Leaving => 2
    case _ => 1
  }

  /** The next step of a submit on its way out without the lock of the list */
  lemma WayOut(ts: TransferState, gone: bool) returns (t: Tid, ts': TransferState)
    requires !Doomed(ts, gone) && ts.holder.Some? && !ts.stage.Unlocked?
    ensures SubmitMoves(t, ts, gone, ts') && !ts.stage.Marked? && !ts.stage.UndoListing?
    ensures !Doomed(ts', gone) && StepsLeft(ts'.stage) < StepsLeft(ts.stage)
  {
    t := ts.holder.value;
    match ts.stage {
      case Entered => ts' := ts.(flags := if ts.flags.inFlight then ts.flags else NO_FLAGS, stage := Leaving);
      case Listed => ts' := ts.(refs := ts.refs + 1, stage := Referenced);
      case Referenced => ts' := ts.(stage := Submitted(true), active := true);
      case Submitted(ok) =>
        var flags := ts.flags.(submitting := false);
        ts' := ts.(flags := if flags.completed then flags else flags.(inFlight := true),
                   accepted := ts.accepted + 1, stage := Leaving);
      case Leaving => ts' := ts.(holder := None, stage := Unlocked);
    }
  }

  lemma WayOutStep(s: State, x: Transfer) returns (a: Action, s': State)
    requires Basic(s) && Waiting(s, x) && !IsDoomed(s, x) && x in s.transfers && !s.transfers[x].stage.Unlocked?
    ensures Step(s, a, s') && Waiting(s', x) && !IsDoomed(s', x) && x in s'.transfers
    ensures StepsLeft(s'.transfers[x].stage) < StepsLeft(s.transfers[x].stage)
  {
    var ts := s.transfers[x];
    var t, ts' := WayOut(ts, ts.handle in s.gone);
    a, s' := Submit(t, x), Put(s, x, ts');
    SubmitMovesOnly(t, ts, ts.handle in s.gone, ts');
  }

  lemma PathCons(s: State, a: Action, path: seq<State>, actions: seq<Action>)
    requires IsPath(path, actions) && Step(s, a, path[0])
    ensures IsPath([s] + path, [a] + actions)
  {
    var path', actions' := [s] + path, [a] + actions;
    forall i | 0 <= i < |actions'| ensures Step(path'[i], actions'[i], path'[i + 1]) {
      assert i == 0 || (path'[i] == path[i - 1] && actions'[i] == actions[i - 1]);
    }
  }

  lemma GoesOn(s: State, x: Transfer) returns (s': State)
    requires Waiting(s, x) && x in s.transfers && s.transfers[x].holder.None?
    ensures Step(s, PassCancel(NOT_FOUND), s') && !Waiting(s', x)
    ensures IsPath([s, s'], [PassCancel(NOT_FOUND)])
  {
    s' := Put(s, x, AfterCancel(s.transfers[x], NOT_FOUND)).(pass := Some(Walking(s.pass.value.rest)));
  }

  lemma {:induction false} Escape(s: State, x: Transfer) returns (path: seq<State>, actions: seq<Action>)
    requires Basic(s) && Waiting(s, x) && !IsDoomed(s, x)
    ensures IsPath(path, actions) && path[0] == s && !Waiting(path[|path| - 1], x)
    decreases if x in s.transfers then StepsLeft(s.transfers[x].stage) else 0
  {
    if s.transfers[x].stage.Unlocked? {
      var s' := GoesOn(s, x);
      path, actions := [s, s'], [PassCancel(NOT_FOUND)];
    } else {
      var a, s' := WayOutStep(s, x);
      BasicStep(s, a, s');
      path, actions := Escape(s', x);
      PathCons(s, a, path, actions);
      path, actions := [s] + path, [a] + actions;
    }
  }

  /** In every reachable state in which a timeout pass wants the lock of a transfer,
      it never gets it, whatever the threads do, exactly if a submit holds that lock
      and cannot end without the lock of the list, which the pass holds. */
  lemma PassStuckIff(run: seq<State>, actions: seq<Action>, i: nat, x: Transfer)
    requires IsRun(run, actions) && i < |run| && Waiting(run[i], x)
    ensures (forall path, acts | IsPath(path, acts) && path[0] == run[i] :: Waiting(path[|path| - 1], x))
            <==> IsDoomed(run[i], x)
  {
    RunBasic(run, actions, i);
    if IsDoomed(run[i], x) {
      forall path, acts | IsPath(path, acts) && path[0] == run[i] ensures Waiting(path[|path| - 1], x) {
        DoomedPath(path, acts, x, |path| - 1);
      }
    } else {
      var path, acts := Escape(run[i], x);
    }
  }

  // ----- runs into such states -----

  lemma Then(run: seq<State>, actions: seq<Action>, a: Action, s': State)
    returns (run': seq<State>, actions': seq<Action>)
    requires IsRun(run, actions) && Step(run[|run| - 1], a, s')
    ensures IsRun(run', actions') && run'[|run'| - 1] == s'
  {
    run', actions' := run + [s'], actions + [a];
    forall i | 0 <= i < |actions'| ensures Step(run'[i], actions'[i], run'[i + 1]) {
      assert i < |actions| ==> run'[i] == run[i] && run'[i + 1] == run[i + 1] && actions'[i] == actions[i];
    }
  }

  /** A context with one transfer */
  function Alone(x: Transfer, ts: TransferState, flying: seq<Transfer>, pass: Option<Pass>): State {
    State(map[x := ts], flying, Ready, pass, {}, {})
  }

  lemma PutAlone(x: Transfer, ts: TransferState, flying: seq<Transfer>, pass: Option<Pass>, ts': TransferState)
    ensures Put(Alone(x, ts, flying, pass), x, ts') == Alone(x, ts', flying, pass)
  {
    assert map[x := ts][x := ts'] == map[x := ts'];
  }

  /** The submit goes on, away from the list. */
  lemma SubmitOn(run: seq<State>, actions: seq<Action>, t: Tid, x: Transfer, ts: TransferState,
                 flying: seq<Transfer>, pass: Option<Pass>, ts': TransferState)
    returns (run': seq<State>, actions': seq<Action>)
    requires IsRun(run, actions) && run[|run| - 1] == Alone(x, ts, flying, pass)
    requires SubmitMoves(t, ts, false, ts') && !ts.stage.Marked? && !ts.stage.UndoListing?
    ensures IsRun(run', actions') && run'[|run'| - 1] == Alone(x, ts', flying, pass)
  {
    PutAlone(x, ts, flying, pass, ts');
    run', actions' := Then(run, actions, Submit(t, x), Alone(x, ts', flying, pass));
  }

  lemma InsertedFirst(list: seq<Transfer>, x: Transfer)
    ensures Inserted(list, x, [x] + list)
  {
    assert list[..0] + [x] + list[0..] == [x] + list;
  }

  /** The submit adds the transfer to the list. */
  lemma ListOn(run: seq<State>, actions: seq<Action>, t: Tid, x: Transfer, ts: TransferState, flying: seq<Transfer>)
    returns (run': seq<State>, actions': seq<Action>)
    requires IsRun(run, actions) && run[|run| - 1] == Alone(x, ts, flying, None)
    requires ts.holder == Some(t) && ts.stage.Marked?
    ensures IsRun(run', actions') && run'[|run'| - 1] == Alone(x, ts.(stage := Listed), [x] + flying, None)
  {
    PutAlone(x, ts, flying, None, ts.(stage := Listed));
    InsertedFirst(flying, x);
    run', actions' := Then(run, actions, Submit(t, x), Alone(x, ts.(stage := Listed), [x] + flying, None));
  }

  /** The transfer when thread t is about to call the backend */
  function AtBackend(t: Tid, h: Handle): TransferState {
    TransferState(h, Some(t), Referenced, NO_FLAGS.(submitting := true), false, 1, 0, 0, 0, None)
  }

  lemma FirstSubmit(t: Tid, x: Transfer, h: Handle) returns (run: seq<State>, actions: seq<Action>)
    ensures IsRun(run, actions) && run[|run| - 1] == Alone(x, AtBackend(t, h), [x], None)
  {
    var ts0 := TransferState(h, None, Unlocked, NO_FLAGS, false, 0, 0, 0, 0, None);
    run, actions := [Alone(x, ts0, [], None)], [];
    var ts1 := ts0.(holder := Some(t), stage := Entered);
    run, actions := SubmitOn(run, actions, t, x, ts0, [], None, ts1);
    var ts2 := ts1.(flags := NO_FLAGS.(submitting := true), stage := Marked);
    run, actions := SubmitOn(run, actions, t, x, ts1, [], None, ts2);
    run, actions := ListOn(run, actions, t, x, ts2, []);
    assert [x] + [] == [x];
    run, actions := SubmitOn(run, actions, t, x, ts2.(stage := Listed), [x], None, AtBackend(t, h));
  }

  /** A pass begins, finds the one listed transfer due and loads its flags. */
  lemma Load(run: seq<State>, actions: seq<Action>, x: Transfer, ts: TransferState)
    returns (run': seq<State>, actions': seq<Action>)
    requires IsRun(run, actions) && run[|run| - 1] == Alone(x, ts, [x], None)
    requires !ts.flags.timeoutHandled && !ts.flags.osHandlesTimeout
    ensures IsRun(run', actions') && run'[|run'| - 1] == Alone(x, ts, [x], Some(Marking(x, ts.flags, [])))
  {
    run', actions' := Then(run, actions, PassBegin, Alone(x, ts, [x], Some(Walking([x]))));
    assert [x][1..] == [];
    run', actions' := Then(run', actions', PassTurn(true), Alone(x, ts, [x], Some(Marking(x, ts.flags, []))));
  }

  lemma Store(run: seq<State>, actions: seq<Action>, x: Transfer, ts: TransferState, seen: Flags)
    returns (run': seq<State>, actions': seq<Action>)
    requires IsRun(run, actions) && run[|run| - 1] == Alone(x, ts, [x], Some(Marking(x, seen, [])))
    ensures IsRun(run', actions')
    ensures run'[|run'| - 1]
            == Alone(x, ts.(flags := seen.(timeoutHandled := true)), [x], Some(Cancelling(x, [])))
  {
    var ts' := ts.(flags := seen.(timeoutHandled := true));
    PutAlone(x, ts, [x], Some(Marking(x, seen, [])), ts');
    run', actions' := Then(run, actions, PassMark, Alone(x, ts', [x], Some(Cancelling(x, []))));
  }

  /** A submit that fails and a timeout pass that finds its transfer due can wait for
      each other's lock, even if nothing is lost. */
  lemma PassCanBeStuck(t: Tid, x: Transfer, h: Handle) returns (run: seq<State>, actions: seq<Action>)
    ensures IsRun(run, actions) && Waiting(run[|run| - 1], x) && IsDoomed(run[|run| - 1], x)
  {
    run, actions := FirstSubmit(t, x, h);
    var ts1 := AtBackend(t, h).(stage := Submitted(false));
    run, actions := SubmitOn(run, actions, t, x, AtBackend(t, h), [x], None, ts1);
    var ts2 := ts1.(flags := NO_FLAGS, stage := UndoReference);
    run, actions := SubmitOn(run, actions, t, x, ts1, [x], None, ts2);
    run, actions := Load(run, actions, x, ts2);
    run, actions := Store(run, actions, x, ts2, ts2.flags);
  }

  /** The transfer when the backend has accepted it and the submit has returned */
  function Flying(h: Handle, f: Flags): TransferState {
    TransferState(h, None, Unlocked, f, true, 1, 1, 0, 0, None)
  }

  /** The submit marks the transfer as in flight between a load and its store,
      which takes that mark back; the cancellation then finds nothing to do. */
  lemma LosesInFlight(t: Tid, x: Transfer, h: Handle) returns (run: seq<State>, actions: seq<Action>)
    ensures IsRun(run, actions)
    ensures run[|run| - 1]
            == Alone(x, Flying(h, NO_FLAGS.(submitting := true, timeoutHandled := true)), [x], None)
  {
    run, actions := FirstSubmit(t, x, h);
    var ts1 := AtBackend(t, h).(stage := Submitted(true), active := true);
    run, actions := SubmitOn(run, actions, t, x, AtBackend(t, h), [x], None, ts1);
    run, actions := Load(run, actions, x, ts1);
    var pass := Some(Marking(x, ts1.flags, []));
    var ts2 := ts1.(flags := NO_FLAGS.(inFlight := true), accepted := 1, stage := Leaving);
    run, actions := SubmitOn(run, actions, t, x, ts1, [x], pass, ts2);
    var ts3 := ts2.(holder := None, stage := Unlocked);
    run, actions := SubmitOn(run, actions, t, x, ts2, [x], pass, ts3);
    run, actions := Store(run, actions, x, ts3, ts1.flags);
    var ts := Flying(h, NO_FLAGS.(submitting := true, timeoutHandled := true));
    PutAlone(x, ts, [x], Some(Cancelling(x, [])), ts);
    run, actions := Then(run, actions, PassCancel(SUCCESS), Alone(x, ts, [x], Some(Walking([]))));
    run, actions := Then(run, actions, PassEnd, Alone(x, ts, [x], None));
  }

  /** The backend keeps a transfer of a device whose disconnect has been dealt
      with: nothing is in flight by its flags, and its callback never came. */
  lemma LostInFlight(t: Tid, x: Transfer, h: Handle) returns (run: seq<State>, actions: seq<Action>)
    ensures IsRun(run, actions)
    ensures var s := run[|run| - 1];
            && h in s.done && s.handler == Ready && x in s.transfers && s.transfers[x].handle == h
            && s.transfers[x].stage.Unlocked? && !s.transfers[x].flags.inFlight && s.transfers[x].active
            && s.transfers[x].accepted == 1 && s.transfers[x].callbacks == 0
  {
    run, actions := LosesInFlight(t, x, h);
    var s := run[|run| - 1];
    s := s.(gone := {h}, handler := Rescanning(h));
    run, actions := Then(run, actions, Disconnect(h), s);
    s := s.(handler := Scanning(h, [x]));
    run, actions := Then(run, actions, Rescan, s);
    var ts := s.transfers[x];
    assert [x][1..] == [];
    s := Put(s, x, ts.(flags := ts.flags.(disappeared := true))).(handler := Scanning(h, []));
    run, actions := Then(run, actions, Scan, s);
    s := s.(handler := Ready, done := {h});
    run, actions := Then(run, actions, Scan, s);
  }

  /** A second submit does not find the transfer busy and lists it once more. */
  lemma ListedTwice(t: Tid, x: Transfer, h: Handle) returns (run: seq<State>, actions: seq<Action>)
    ensures IsRun(run, actions) && run[|run| - 1].flying == [x, x]
  {
    run, actions := LosesInFlight(t, x, h);
    var ts := Flying(h, NO_FLAGS.(submitting := true, timeoutHandled := true));
    var ts1 := ts.(holder := Some(t), stage := Entered);
    run, actions := SubmitOn(run, actions, t, x, ts, [x], None, ts1);
    var ts2 := ts1.(flags := NO_FLAGS.(submitting := true), stage := Marked);
    run, actions := SubmitOn(run, actions, t, x, ts1, [x], None, ts2);
    run, actions := ListOn(run, actions, t, x, ts2, [x]);
    assert [x] + [x] == [x, x];
  }

  /** A cancellation between the load and the store is forgotten, and the pass asks
      the backend a second time. */
  lemma AskedTwice(t: Tid, x: Transfer, h: Handle) returns (run: seq<State>, actions: seq<Action>)
    ensures IsRun(run, actions) && x in run[|run| - 1].transfers
    ensures run[|run| - 1].transfers[x].accepted == 1 && run[|run| - 1].transfers[x].asked == 2
  {
    run, actions := FirstSubmit(t, x, h);
    var ts1 := AtBackend(t, h).(stage := Submitted(true), active := true);
    run, actions := SubmitOn(run, actions, t, x, AtBackend(t, h), [x], None, ts1);
    var f := NO_FLAGS.(inFlight := true);
    var ts2 := ts1.(flags := f, accepted := 1, stage := Leaving);
    run, actions := SubmitOn(run, actions, t, x, ts1, [x], None, ts2);
    run, actions := SubmitOn(run, actions, t, x, ts2, [x], None, Flying(h, f));
    run, actions := Load(run, actions, x, Flying(h, f));
    var pass := Some(Marking(x, f, []));
    var ts3 := AfterCancel(Flying(h, f), SUCCESS);
    PutAlone(x, Flying(h, f), [x], pass, ts3);
    run, actions := Then(run, actions, Cancel(x, SUCCESS), Alone(x, ts3, [x], pass));
    run, actions := Store(run, actions, x, ts3, f);
    var ts4 := ts3.(flags := f.(timeoutHandled := true));
    var ts5 := AfterCancel(ts4, SUCCESS);
    PutAlone(x, ts4, [x], Some(Cancelling(x, [])), ts5);
    run, actions := Then(run, actions, PassCancel(SUCCESS), Alone(x, ts5, [x], Some(Succeeded(x, []))));
  }
}
