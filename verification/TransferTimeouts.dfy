/** Which transfers are marked as timed out, and what their callbacks are told: a
    timeout pass that runs beside the event handling marks a transfer only after
    its cancellation has returned. */
module TransferTimeouts {
  import opened TransferFlags
  import opened Transfers
  import opened Wrappers

  // ----- what makes a transfer time out -----

  /** The cancellation by a timeout pass reaches the backend and returns 0. */
  predicate TimeoutCancels(s: State, a: Action, x: Transfer) {
    a == PassCancel(0) && Waiting(s, x) && x in s.transfers && Reaches(s.transfers[x].flags)
  }

  /** The pass stores its second mark. */
  predicate Stamps(s: State, a: Action, x: Transfer) {
    a.PassStamp? && InHand(s) && s.pass.value.transfer == x
  }

  /** A submit that does not find the transfer busy clears its flags. */
  predicate Resets(s: State, a: Action, x: Transfer) {
    a.Submit? && a.x == x && x in s.transfers && s.transfers[x].stage.Entered? && !s.transfers[x].flags.inFlight
  }

  /** No submit clears the flags of x from step i up to step j. */
  ghost predicate NoReset(run: seq<State>, actions: seq<Action>, x: Transfer, i: nat, j: nat)
    requires j <= |actions| < |run|
  {
    forall k :: i <= k < j ==> !Resets(run[k], actions[k], x)
  }

  /** Step c is the cancellation, and from there on the pass has done nothing but
      load the flags again. */
  ghost predicate CancelledAt(run: seq<State>, actions: seq<Action>, x: Transfer, c: nat, j: nat)
    requires j <= |actions| < |run|
  {
    && c < j && TimeoutCancels(run[c], actions[c], x)
    && forall k :: c < k < j && OfPass(actions[k]) ==> actions[k] == PassLoad
  }

  /** Since the flags of x were last cleared, step c of a timeout pass has cancelled it
      and step j has marked it. */
  ghost predicate TimedOutBy(run: seq<State>, actions: seq<Action>, x: Transfer, i: nat, c: nat, j: nat)
    requires i <= |actions| < |run|
  {
    c < j < i && CancelledAt(run, actions, x, c, j) && Stamps(run[j], actions[j], x) && NoReset(run, actions, x, c, i)
  }

  ghost predicate HasTimedOut(run: seq<State>, actions: seq<Action>, x: Transfer, i: nat)
    requires i <= |actions| < |run|
  {
    exists c: nat, j: nat :: TimedOutBy(run, actions, x, i, c, j)
  }

  // ----- one step -----

  /** The mark is set by the second store, cleared by a submit, and else stays. */
  lemma StepTimesOut(s: State, a: Action, s': State, x: Transfer)
    requires PassOk(s) && Step(s, a, s') && Careful(s, a) && x in s.transfers
    ensures x in s'.transfers
    ensures s'.transfers[x].flags.timedOut
            <==> Stamps(s, a, x) || (s.transfers[x].flags.timedOut && !Resets(s, a, x))
  {
    if OfPass(a) {
      PassTimesOut(s, a, s', x);
    } else {
      OthersTimeOut(s, a, s', x);
    }
  }

  lemma PassTimesOut(s: State, a: Action, s': State, x: Transfer)
    requires PassOk(s) && Step(s, a, s') && Careful(s, a) && OfPass(a) && x in s.transfers
    ensures x in s'.transfers
    ensures s'.transfers[x].flags.timedOut <==> Stamps(s, a, x) || s.transfers[x].flags.timedOut
  {
  }

  lemma OthersTimeOut(s: State, a: Action, s': State, x: Transfer)
    requires Step(s, a, s') && !OfPass(a) && x in s.transfers
    ensures x in s'.transfers
    ensures s'.transfers[x].flags.timedOut <==> s.transfers[x].flags.timedOut && !Resets(s, a, x)
  {
    if a.Submit? && a.x == x {
      SubmitMarks(a.t, s.transfers[x], s.transfers[x].handle in s.gone, s'.transfers[x]);
    }
  }

  /** A submit clears both marks or leaves both alone. */
  lemma SubmitMarks(t: Tid, ts: TransferState, gone: bool, ts': TransferState)
    requires SubmitMoves(t, ts, gone, ts')
    ensures var f, f' := ts.flags, ts'.flags;
            if ts.stage.Entered? && !f.inFlight then !f'.timedOut && !f'.timeoutHandled
            else f'.timedOut == f.timedOut && f'.timeoutHandled == f.timeoutHandled
  {
    match ts.stage
    case Entered =>
    case Submitted(ok) =>
      if ok && !ts.flags.disappeared { assert !ts'.flags.submitting; }
    case _ => assert ts'.flags == ts.flags;
  }

  // ----- the cancellation behind the mark -----

  /** The pass holds x after a cancellation that succeeded. */
  predicate AfterSuccess(s: State, x: Transfer) {
    InHand(s) && s.pass.value.transfer == x && (s.pass.value.Succeeded? || s.pass.value.Stamping?)
  }

  lemma IntoSuccess(s: State, a: Action, s': State, x: Transfer)
    requires Step(s, a, s') && OfPass(a) && AfterSuccess(s', x)
    ensures TimeoutCancels(s, a, x) || (a == PassLoad && AfterSuccess(s, x))
  {
  }

  lemma StaysAfterSuccess(s: State, a: Action, s': State, x: Transfer)
    requires Inv(s) && Step(s, a, s') && !OfPass(a) && AfterSuccess(s', x)
    ensures AfterSuccess(s, x) && !Resets(s, a, x)
  {
    OthersKeepPass(s, a, s');
    StepKeepsKeys(s, a, s');
  }

  lemma SuccessKept(run: seq<State>, actions: seq<Action>, x: Transfer, c: nat, k: nat, j: nat)
    requires k + 1 == j <= |actions| < |run| && CancelledAt(run, actions, x, c, k) && NoReset(run, actions, x, c, k)
    requires (OfPass(actions[k]) ==> actions[k] == PassLoad) && !Resets(run[k], actions[k], x)
    ensures CancelledAt(run, actions, x, c, j) && NoReset(run, actions, x, c, j)
  {
  }

  lemma SuccessHere(run: seq<State>, actions: seq<Action>, x: Transfer, c: nat, j: nat)
    requires c + 1 == j <= |actions| < |run| && TimeoutCancels(run[c], actions[c], x)
    ensures CancelledAt(run, actions, x, c, j) && NoReset(run, actions, x, c, j)
  {
  }

  lemma {:induction false} SuccessBehind(run: seq<State>, actions: seq<Action>, x: Transfer, j: nat)
    returns (c: nat)
    requires IsRun(run, actions) && j < |run| && LosesNothing(run, actions, j) && AfterSuccess(run[j], x)
    ensures CancelledAt(run, actions, x, c, j) && NoReset(run, actions, x, c, j)
  {
    var k := j - 1;
    c := k;
    RunInv(run, actions, k);
    if TimeoutCancels(run[k], actions[k], x) {
      SuccessHere(run, actions, x, c, j);
    } else {
      SuccessGoesOn(run[k], actions[k], run[j], x);
      c := SuccessBehind(run, actions, x, k);
      SuccessKept(run, actions, x, c, k, j);
    }
  }

  lemma SuccessGoesOn(s: State, a: Action, s': State, x: Transfer)
    requires Inv(s) && Step(s, a, s') && AfterSuccess(s', x) && !TimeoutCancels(s, a, x)
    ensures AfterSuccess(s, x) && (OfPass(a) ==> a == PassLoad) && !Resets(s, a, x)
  {
    if OfPass(a) {
      IntoSuccess(s, a, s', x);
    } else {
      StaysAfterSuccess(s, a, s', x);
    }
  }

  // ----- whole runs -----

  /** A transfer is marked as timed out if and only if, since a submit last cleared
      its flags, a timeout pass has cancelled it with success and then marked it.
      So the mark stays until the next submit that does not find it busy. */
  lemma {:induction false} TimedOutIff(run: seq<State>, actions: seq<Action>, i: nat, x: Transfer)
    requires IsRun(run, actions) && i < |run| && LosesNothing(run, actions, i) && x in run[i].transfers
    ensures run[i].transfers[x].flags.timedOut <==> HasTimedOut(run, actions, x, i)
  {
    if i > 0 {
      var m := i - 1;
      StepKeepsKeys(run[m], actions[m], run[i]);
      RunInv(run, actions, m);
      TimedOutIff(run, actions, m, x);
      StepTimesOut(run[m], actions[m], run[i], x);
      HistoryStep(run, actions, i, m, x);
    }
  }

  lemma HistoryStep(run: seq<State>, actions: seq<Action>, i: nat, m: nat, x: Transfer)
    requires IsRun(run, actions) && m + 1 == i < |run| && LosesNothing(run, actions, i)
    ensures HasTimedOut(run, actions, x, i)
            <==> Stamps(run[m], actions[m], x) || (HasTimedOut(run, actions, x, m) && !Resets(run[m], actions[m], x))
  {
    if Stamps(run[m], actions[m], x) {
      assert Step(run[m], actions[m], run[i]);
      var c := SuccessBehind(run, actions, x, m);
      assert TimedOutBy(run, actions, x, i, c, m);
    } else if HasTimedOut(run, actions, x, m) && !Resets(run[m], actions[m], x) {
      var c: nat, j: nat :| TimedOutBy(run, actions, x, m, c, j);
      assert TimedOutBy(run, actions, x, i, c, j);
    } else if HasTimedOut(run, actions, x, i) {
      var c: nat, j: nat :| TimedOutBy(run, actions, x, i, c, j);
      assert TimedOutBy(run, actions, x, m, c, j);
    }
  }

  // ----- every timeout is handled once -----

  predicate Marks(s: State, a: Action, x: Transfer) {
    a.PassMark? && InHand(s) && s.pass.value.transfer == x
  }

  /** Step j of a timeout pass has marked the timeout of x as handled, and since then
      no submit has cleared its flags. */
  ghost predicate HandledAt(run: seq<State>, actions: seq<Action>, x: Transfer, i: nat, j: nat)
    requires i <= |actions| < |run|
  {
    j < i && Marks(run[j], actions[j], x) && NoReset(run, actions, x, j, i)
  }

  lemma PassHandles(s: State, a: Action, s': State, x: Transfer)
    requires PassOk(s) && Step(s, a, s') && Careful(s, a) && OfPass(a) && x in s.transfers
    ensures x in s'.transfers
    ensures s'.transfers[x].flags.timeoutHandled <==> Marks(s, a, x) || s.transfers[x].flags.timeoutHandled
  {
  }

  lemma OthersHandle(s: State, a: Action, s': State, x: Transfer)
    requires Step(s, a, s') && !OfPass(a) && x in s.transfers
    ensures x in s'.transfers
    ensures s'.transfers[x].flags.timeoutHandled <==> s.transfers[x].flags.timeoutHandled && !Resets(s, a, x)
  {
    if a.Submit? && a.x == x {
      SubmitMarks(a.t, s.transfers[x], s.transfers[x].handle in s.gone, s'.transfers[x]);
    }
  }

  lemma StepHandles(s: State, a: Action, s': State, x: Transfer)
    requires PassOk(s) && Step(s, a, s') && Careful(s, a) && x in s.transfers
    ensures x in s'.transfers
    ensures s'.transfers[x].flags.timeoutHandled
            <==> Marks(s, a, x) || (s.transfers[x].flags.timeoutHandled && !Resets(s, a, x))
  {
    if OfPass(a) {
      PassHandles(s, a, s', x);
    } else {
      OthersHandle(s, a, s', x);
    }
  }

  lemma HandledStep(run: seq<State>, actions: seq<Action>, i: nat, m: nat, x: Transfer)
    requires m + 1 == i <= |actions| < |run|
    ensures (exists j: nat :: HandledAt(run, actions, x, i, j))
            <==> Marks(run[m], actions[m], x)
                 || ((exists j: nat :: HandledAt(run, actions, x, m, j)) && !Resets(run[m], actions[m], x))
  {
    if Marks(run[m], actions[m], x) {
      assert HandledAt(run, actions, x, i, m);
    } else if j: nat :| HandledAt(run, actions, x, i, j) {
      assert HandledAt(run, actions, x, m, j);
    } else if !Resets(run[m], actions[m], x) {
      if j: nat :| HandledAt(run, actions, x, m, j) {
        assert HandledAt(run, actions, x, i, j);
      }
    }
  }

  /** The timeout of a transfer counts as handled if and only if a pass has marked it
      since a submit last cleared the flags. */
  lemma {:induction false} HandledIff(run: seq<State>, actions: seq<Action>, i: nat, x: Transfer)
    requires IsRun(run, actions) && i < |run| && LosesNothing(run, actions, i) && x in run[i].transfers
    ensures run[i].transfers[x].flags.timeoutHandled <==> exists j: nat :: HandledAt(run, actions, x, i, j)
  {
    if i > 0 {
      var m := i - 1;
      StepKeepsKeys(run[m], actions[m], run[i]);
      RunInv(run, actions, m);
      HandledIff(run, actions, m, x);
      StepHandles(run[m], actions[m], run[i], x);
      HandledStep(run, actions, i, m, x);
    }
  }

  /** So for each time that a submit clears the flags, a pass handles the timeout at
      most once. */
  lemma HandledOnce(run: seq<State>, actions: seq<Action>, i: nat, j: nat, x: Transfer)
    requires IsRun(run, actions) && i < j < |actions| && LosesNothing(run, actions, j)
    requires Marks(run[i], actions[i], x) && Marks(run[j], actions[j], x)
    ensures !NoReset(run, actions, x, i, j)
  {
    assert Step(run[j], actions[j], run[j + 1]);
    var l := LoadOf(run, actions, j, j);
    LoadedBefore(run, actions, l, j);
    if NoReset(run, actions, x, i, j) {
      assert HandledAt(run, actions, x, l, i);
      HandledIff(run, actions, l, x);
      assert false;
    }
  }

  /** A pass loads the flags of a transfer only if its timeout has not been handled and
      is not left to the operating system. */
  lemma LoadedBefore(run: seq<State>, actions: seq<Action>, l: nat, j: nat)
    requires IsRun(run, actions) && Window(actions, l, j) && LosesNothing(run, actions, j) && InHand(run[j])
    ensures var x := run[j].pass.value.transfer;
            && x in run[l].transfers && !run[l].transfers[x].flags.timeoutHandled
            && !run[l].transfers[x].flags.osHandlesTimeout
  {
    assert Step(run[l], actions[l], run[l + 1]);
    var pass := run[l + 1].pass.value;
    WindowFlags(run, actions, l, j, j, pass.transfer, pass.seen);
  }

  // ----- what the callback is told -----

  /** Step k begins the completion of x that is under way in state i. */
  ghost predicate BeganAt(run: seq<State>, actions: seq<Action>, x: Transfer, k: nat, i: nat)
    requires i <= |actions| < |run|
  {
    && k < i && (actions[k] == Clear || (actions[k].Complete? && actions[k].x == x))
    && forall m :: k < m <= i ==> run[m].handler.Finishing? && run[m].handler.transfer == x
  }

  /** What the beginning of a completion says of the transfer */
  predicate Tells(s: State, a: Action, x: Transfer, status: Status) {
    && x in s.transfers
    && status == if a == Clear then StatusNoDevice
                 else if a == Complete(x, false) then StatusCompleted
                 else if s.transfers[x].flags.timedOut then StatusTimedOut
                 else StatusCancelled
  }

  /** A completion keeps its transfer and its status. */
  lemma StepFinishes(s: State, a: Action, s': State, x: Transfer, status: Status)
    requires Step(s, a, s') && s'.handler.Finishing? && s'.handler.transfer == x && s'.handler.status == status
    ensures || ((a == Clear || (a.Complete? && a.x == x)) && Tells(s, a, x, status))
            || (s.handler.Finishing? && s.handler.transfer == x && s.handler.status == status)
  {
  }

  lemma {:induction false} CompletionBegan(run: seq<State>, actions: seq<Action>, i: nat) returns (k: nat)
    requires IsRun(run, actions) && i < |run| && run[i].handler.Finishing?
    ensures BeganAt(run, actions, run[i].handler.transfer, k, i)
    ensures Tells(run[k], actions[k], run[i].handler.transfer, run[i].handler.status)
  {
    k := i - 1;
    var x, status := run[i].handler.transfer, run[i].handler.status;
    StepFinishes(run[k], actions[k], run[i], x, status);
    if !(actions[k] == Clear || (actions[k].Complete? && actions[k].x == x)) {
      k := CompletionBegan(run, actions, k);
    }
  }

  /** What a callback is told: the device is gone, if a disconnect takes the transfer
      back; the backend's result, if it was not cancelled; and else that it has
      timed out if and only if a timeout pass had cancelled and marked it when the
      completion began. */
  lemma CallbackIsTold(run: seq<State>, actions: seq<Action>, i: nat) returns (k: nat)
    requires IsRun(run, actions) && i < |actions| && LosesNothing(run, actions, i)
    requires actions[i] == Finish && run[i].handler.Finishing? && run[i].handler.phase == Callback
    ensures var x := run[i].handler.transfer;
            && BeganAt(run, actions, x, k, i) && x in run[i + 1].transfers
            && run[i + 1].transfers[x].callbacks == run[i].transfers[x].callbacks + 1
            && run[i + 1].transfers[x].status
               == Some(if actions[k] == Clear then StatusNoDevice
                       else if !actions[k].cancelled then StatusCompleted
                       else if HasTimedOut(run, actions, x, k) then StatusTimedOut
                       else StatusCancelled)
  {
    k := CompletionBegan(run, actions, i);
    var x := run[i].handler.transfer;
    assert Step(run[i], actions[i], run[i + 1]);
    TimedOutIff(run, actions, k, x);
  }

  // ----- a timeout that is reported as a cancellation -----

  /** The cancellation of a timeout has succeeded, and before the pass marks it
      another thread, which handles events, begins the completion. */
  lemma CompletedBeforeTheMark(t: Tid, x: Transfer, h: Handle) returns (run: seq<State>, actions: seq<Action>)
    ensures IsRun(run, actions)
    ensures run[|run| - 1]
            == Alone(x, Flying(h, NO_FLAGS.(inFlight := true, timeoutHandled := true, cancelling := true))
                        .(active := false, asked := 1), [x], Some(Succeeded(x, [])))
               .(handler := Finishing(x, Unlist, None, StatusCancelled))
  {
    run, actions := FirstSubmit(t, x, h);
    var ts1 := AtBackend(t, h).(stage := Submitted(true), active := true);
    run, actions := SubmitOn(run, actions, t, x, AtBackend(t, h), [x], None, ts1);
    var f := NO_FLAGS.(inFlight := true);
    var ts2 := ts1.(flags := f, accepted := 1, stage := Leaving);
    run, actions := SubmitOn(run, actions, t, x, ts1, [x], None, ts2);
    run, actions := SubmitOn(run, actions, t, x, ts2, [x], None, Flying(h, f));
    run, actions := Load(run, actions, x, Flying(h, f));
    run, actions := Store(run, actions, x, Flying(h, f), f);
    var ts3 := Flying(h, f.(timeoutHandled := true));
    var ts4 := AfterCancel(ts3, SUCCESS);
    PutAlone(x, ts3, [x], Some(Cancelling(x, [])), ts4);
    run, actions := Then(run, actions, PassCancel(SUCCESS), Alone(x, ts4, [x], Some(Succeeded(x, []))));
    var ts5 := ts4.(active := false);
    PutAlone(x, ts4, [x], Some(Succeeded(x, [])), ts5);
    run, actions := Then(run, actions, Complete(x, true),
                         Alone(x, ts5, [x], Some(Succeeded(x, [])))
                         .(handler := Finishing(x, Unlist, None, StatusCancelled)));
  }

  /** The callback is then told that the transfer was cancelled, although its timeout
      did it and its flags say so. */
  lemma TimeoutToldAsCancelled(t: Tid, x: Transfer, h: Handle) returns (run: seq<State>, actions: seq<Action>)
    ensures IsRun(run, actions) && x in run[|run| - 1].transfers
    ensures run[|run| - 1].transfers[x].status == Some(StatusCancelled)
    ensures run[|run| - 1].transfers[x].callbacks == 1 && run[|run| - 1].transfers[x].flags.timedOut
  {
    run, actions := CompletedBeforeTheMark(t, x, h);
    var s := run[|run| - 1];
    var f := s.transfers[x].flags;
    s := s.(pass := Some(Stamping(x, f, [])));
    run, actions := Then(run, actions, PassLoad, s);
    s := Put(s, x, s.transfers[x].(flags := f.(timedOut := true))).(pass := Some(Walking([])));
    run, actions := Then(run, actions, PassStamp, s);
    s := s.(pass := None);
    run, actions := Then(run, actions, PassEnd, s);
    assert Without([x], x) == [];
    s := s.(flying := [], handler := s.handler.(phase := MarkDone));
    run, actions := Then(run, actions, Finish, s);
    s := Put(s, x, MarkedDone(s.transfers[x])).(handler := s.handler.(phase := Callback));
    run, actions := Then(run, actions, Finish, s);
    s := Put(s, x, CalledBack(s.transfers[x], StatusCancelled)).(handler := s.handler.(phase := DropReference));
    run, actions := Then(run, actions, Finish, s);
  }
}
