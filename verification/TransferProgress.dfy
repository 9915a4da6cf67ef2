/** Every transfer can come to its end: whatever the threads have done, they can go
    on so that each accepted submission is answered. */
module TransferProgress {
  import opened FiniteSets
  import opened TransferFlags
  import opened Transfers
  import opened Wrappers

  // ----- submits -----

  /** How many steps a submit may still take */
  function StageRank(stage: Stage): nat {
    match stage
    case Unlocked => 0
    case Leaving => 1
    case UndoListing => 2
    case UndoReference => 3
    case Submitted(_) => 4
    case Referenced => 5
    case Listed => 6
    case Marked => 7
    case Entered => 8
  }

  /** The backend accepts the transfer unless its device is gone. */
  lemma SubmitGoesOn(ts: TransferState, gone: bool) returns (t: Tid, ts': TransferState)
    requires ts.holder.Some? && !ts.stage.Unlocked?
    ensures SubmitMoves(t, ts, gone, ts') && StageRank(ts'.stage) < StageRank(ts.stage)
  {
    t := ts.holder.value;
    match ts.stage {
      case Entered =>
        ts' := if ts.flags.inFlight then ts.(stage := Leaving)
               else ts.(flags := NO_FLAGS.(submitting := true), stage := Marked);
      case Marked => ts' := ts.(stage := Listed);
      case Listed => ts' := ts.(refs := ts.refs + 1, stage := Referenced);
      case Referenced =>
        ts' := if gone then ts.(stage := Submitted(false)) else ts.(stage := Submitted(true), active := true);
      case Submitted(ok) =>
        var flags := ts.flags.(submitting := false);
        ts' := if !ok then ts.(flags := flags, stage := UndoReference)
               else if flags.disappeared then ts.(flags := flags, active := false, stage := UndoReference)
               else ts.(flags := if flags.completed then flags else flags.(inFlight := true),
                        accepted := ts.accepted + 1, stage := Leaving);
      case UndoReference => ts' := ts.(refs := ts.refs - 1, stage := UndoListing);
      case UndoListing => ts' := ts.(stage := Leaving);
      case Leaving => ts' := ts.(holder := None, stage := Unlocked);
    }
  }

  /** The ranks of all transfers with a number below n */
  function StageSum(s: State, n: nat): nat {
    if n == 0 then 0
    else StageSum(s, n - 1) + if n - 1 in s.transfers then StageRank(s.transfers[n - 1].stage) else 0
  }

  lemma {:induction false} StageSumFalls(s: State, s': State, x: Transfer, n: nat)
    requires s'.transfers.Keys == s.transfers.Keys && x in s.transfers
    requires forall y | y in s.transfers && y != x :: s'.transfers[y].stage == s.transfers[y].stage
    requires StageRank(s'.transfers[x].stage) <= StageRank(s.transfers[x].stage)
    ensures StageSum(s', n) <= StageSum(s, n)
    ensures x < n && StageRank(s'.transfers[x].stage) < StageRank(s.transfers[x].stage) ==>
              StageSum(s', n) < StageSum(s, n)
  {
    if n > 0 {
      StageSumFalls(s, s', x, n - 1);
    }
  }

  lemma {:induction false} SameStageSum(s: State, s': State, n: nat)
    requires s'.transfers.Keys == s.transfers.Keys
    requires forall y | y in s.transfers :: s'.transfers[y].stage == s.transfers[y].stage
    ensures StageSum(s', n) == StageSum(s, n)
  {
    if n > 0 {
      SameStageSum(s, s', n - 1);
    }
  }

  // ----- what is left to do -----

  ghost function Actives(s: State): set<Transfer> {
    set x | x in s.transfers && s.transfers[x].active
  }

  function PhaseRank(phase: Phase): nat {
    match phase
    case Unlist => 4
    case MarkDone => 3
    case Callback => 2
    case DropReference => 1
  }

  /** What the thread with the events lock has left to do, and how long a timeout
      pass still walks */
  function HandlerRank(s: State): nat {
    match s.handler
    case Ready | Clearing(_, _) => 0
    case Finishing(_, phase, disconnecting, _) =>
      PhaseRank(phase) + if disconnecting.Some? then |s.flying| + 2 else 0
    case Rescanning(_) => |s.flying| + 2
    case Scanning(_, rest) => |rest| + 1
  }

  function PassRank(s: State): nat {
    if s.pass.Some? && s.pass.value.Walking? then |s.pass.value.rest| + 1 else 0
  }

  ghost predicate AllUnlocked(s: State) {
    forall x :: x in s.transfers ==> s.transfers[x].stage.Unlocked?
  }

  /** Nothing is left to do. */
  ghost predicate AtRest(s: State) {
    s.pass.None? && s.handler == Ready && AllUnlocked(s) && Actives(s) == {}
  }

  /** Everything has come to its end: each accepted submission has had its callback. */
  ghost predicate Settled(s: State) {
    && s.flying == []
    && forall x :: x in s.transfers ==>
         var ts := s.transfers[x];
         && ts.accepted == ts.callbacks && ts.refs == 0 && !ts.active && !ts.flags.inFlight && ts.holder.None?
  }

  lemma EmptyOrNot(list: seq<Transfer>)
    ensures list == [] || exists x :: x in list
  {
    if list != [] { assert list[0] in list; }
  }

  lemma RestIsSettled(s: State)
    requires Inv(s) && AtRest(s)
    ensures Settled(s)
  {
    forall x | x in s.transfers
      ensures var ts := s.transfers[x]; ts.accepted == ts.callbacks && ts.refs == 0 && !ts.active && !ts.flags.inFlight
      ensures x !in s.flying && s.transfers[x].holder.None?
    {
      assert ViewOk(ViewOf(s, x));
      assert x !in Actives(s);
    }
    EmptyOrNot(s.flying);
  }

  // ----- one step towards the end -----

  /** A step of some thread, not by a timeout pass with a transfer in hand, after which
      less is left to do */
  ghost predicate Falls(s: State, s': State, n: nat) {
    || StageSum(s', n) < StageSum(s, n)
    || (StageSum(s', n) == StageSum(s, n)
        && (Actives(s') < Actives(s)
            || (Actives(s') == Actives(s)
                && (HandlerRank(s') < HandlerRank(s)
                    || (HandlerRank(s') == HandlerRank(s) && PassRank(s') < PassRank(s))))))
  }

  lemma SameWork(s: State, s': State, n: nat)
    requires s'.transfers.Keys == s.transfers.Keys
    requires forall y | y in s.transfers ::
               s'.transfers[y].stage == s.transfers[y].stage && s'.transfers[y].active == s.transfers[y].active
    ensures StageSum(s', n) == StageSum(s, n) && Actives(s') == Actives(s)
  {
    SameStageSum(s, s', n);
  }

  /** No timeout pass has a transfer in hand. */
  predicate NoneInHand(s: State) { s.pass.None? || s.pass.value.Walking? }

  lemma PassWalksOn(s: State, n: nat) returns (a: Action, s': State)
    requires s.pass.Some? && s.pass.value.Walking?
    ensures Step(s, a, s') && !a.PassMark? && NoneInHand(s') && Falls(s, s', n)
  {
    if s.pass.value.rest == [] {
      a, s' := PassEnd, s.(pass := None);
    } else {
      a, s' := PassTurn(false), s.(pass := Some(Walking(s.pass.value.rest[1..])));
    }
    SameWork(s, s', n);
  }

  lemma ScanGoesOn(s: State, n: nat) returns (s': State)
    requires s.handler.Scanning? && NoneInHand(s)
    ensures Step(s, Scan, s') && NoneInHand(s') && Falls(s, s', n)
  {
    var h, rest := s.handler.handle, s.handler.rest;
    if rest == [] {
      s' := s.(handler := Ready, done := s.done + {h});
    } else if rest[0] in s.transfers && s.transfers[rest[0]].handle == h {
      var ts := s.transfers[rest[0]];
      s' := if ts.flags.inFlight then s.(handler := Clearing(h, rest[0]))
            else Put(s, rest[0], Disappeared(ts)).(handler := Scanning(h, rest[1..]));
    } else {
      s' := s.(handler := Scanning(h, rest[1..]));
    }
    SameWork(s, s', n);
  }

  lemma SubmitOnItsWay(s: State, x: Transfer, n: nat) returns (a: Action, s': State)
    requires x in s.transfers && x < n && s.transfers[x].holder.Some? && !s.transfers[x].stage.Unlocked?
    requires FlyingLockFree(s)
    ensures Step(s, a, s') && !a.PassMark? && NoneInHand(s') && Falls(s, s', n)
  {
    var ts := s.transfers[x];
    var t, ts' := SubmitGoesOn(ts, ts.handle in s.gone);
    a := Submit(t, x);
    var flying' := if ts.stage.Marked? then [x] + s.flying
                   else if ts.stage.UndoListing? then Without(s.flying, x) else s.flying;
    InsertedFirst(s.flying, x);
    s' := Put(s, x, ts').(flying := flying');
    StageSumFalls(s, s', x, n);
  }

  lemma WithoutIsNoLonger(list: seq<Transfer>, x: Transfer)
    ensures |Without(list, x)| <= |list|
  {
  }

  lemma UnlistGoesOn(s: State, n: nat) returns (s': State)
    requires s.handler.Finishing? && s.handler.phase == Unlist && s.handler.transfer in s.transfers && s.pass.None?
    ensures Step(s, Finish, s') && NoneInHand(s') && Falls(s, s', n)
  {
    WithoutIsNoLonger(s.flying, s.handler.transfer);
    s' := s.(flying := Without(s.flying, s.handler.transfer), handler := s.handler.(phase := MarkDone));
    SameWork(s, s', n);
  }

  lemma FinishGoesOn(s: State, n: nat) returns (s': State)
    requires s.handler.Finishing? && s.handler.phase != Unlist && s.handler.transfer in s.transfers && s.pass.None?
    ensures Step(s, Finish, s') && NoneInHand(s') && Falls(s, s', n)
  {
    var x := s.handler.transfer;
    var ts := s.transfers[x];
    match s.handler.phase {
      case MarkDone => s' := Put(s, x, MarkedDone(ts)).(handler := s.handler.(phase := Callback));
      case Callback =>
        s' := Put(s, x, CalledBack(ts, s.handler.status)).(handler := s.handler.(phase := DropReference));
      case DropReference =>
        s' := Put(s, x, ts.(refs := ts.refs - 1))
              .(handler := if s.handler.disconnecting.None? then Ready else Rescanning(s.handler.disconnecting.value));
    }
    SameWork(s, s', n);
  }

  lemma RescanGoesOn(s: State, n: nat) returns (s': State)
    requires s.handler.Rescanning? && s.pass.None?
    ensures Step(s, Rescan, s') && NoneInHand(s') && Falls(s, s', n)
  {
    s' := s.(handler := Scanning(s.handler.handle, s.flying));
    SameWork(s, s', n);
  }

  lemma ClearGoesOn(s: State, n: nat) returns (s': State)
    requires s.handler.Clearing? && s.handler.transfer in s.transfers && s.pass.None?
    requires s.transfers[s.handler.transfer].holder.None? && s.transfers[s.handler.transfer].active
    ensures Step(s, Clear, s') && NoneInHand(s') && Falls(s, s', n)
  {
    var x := s.handler.transfer;
    s' := Put(s, x, s.transfers[x].(active := false))
          .(handler := Finishing(x, Unlist, Some(s.handler.handle), StatusNoDevice));
    SameStageSum(s, s', n);
    assert Actives(s') == Actives(s) - {x} && x in Actives(s);
  }

  lemma BackendGoesOn(s: State, x: Transfer, n: nat) returns (s': State)
    requires s.handler == Ready && x in s.transfers && s.transfers[x].active && s.transfers[x].handle !in s.gone
    requires s.pass.None?
    ensures Step(s, Complete(x, false), s') && NoneInHand(s') && Falls(s, s', n)
  {
    s' := Put(s, x, s.transfers[x].(active := false)).(handler := Finishing(x, Unlist, None, StatusCompleted));
    SameStageSum(s, s', n);
    assert Actives(s') == Actives(s) - {x} && x in Actives(s);
  }

  // ----- every disconnect is dealt with or at hand -----

  predicate AtHand(handler: Handler, h: Handle) {
    match handler
    case Rescanning(h') => h' == h
    case Scanning(h', _) => h' == h
    case Clearing(h', _) => h' == h
    case Finishing(_, _, disconnecting, _) => disconnecting == Some(h)
    case Ready => false
  }

  ghost predicate GoneOk(s: State) {
    forall h :: h in s.gone ==> h in s.done || AtHand(s.handler, h)
  }

  lemma StepKeepsDone(s: State, a: Action, s': State, h: Handle)
    requires Step(s, a, s') && (h in s.gone ==> h in s.done || AtHand(s.handler, h))
    ensures h in s'.gone ==> h in s'.done || AtHand(s'.handler, h)
  {
  }

  lemma StepKeepsGone(s: State, a: Action, s': State)
    requires Step(s, a, s') && GoneOk(s)
    ensures GoneOk(s')
  {
    forall h | h in s'.gone ensures h in s'.done || AtHand(s'.handler, h) {
      StepKeepsDone(s, a, s', h);
    }
  }

  lemma {:induction false} RunGone(run: seq<State>, actions: seq<Action>, i: nat)
    requires IsRun(run, actions) && i < |run|
    ensures GoneOk(run[i])
  {
    if i > 0 {
      RunGone(run, actions, i - 1);
      StepKeepsGone(run[i - 1], actions[i - 1], run[i]);
    }
  }

  /** While the handler is ready, the backend owns no transfer of a device that is
      gone, once the submits have returned. */
  lemma ActiveIsNotGone(s: State, x: Transfer)
    requires Inv(s) && GoneOk(s) && s.handler == Ready
    requires x in s.transfers && s.transfers[x].active && s.transfers[x].stage.Unlocked?
    ensures s.transfers[x].handle !in s.gone
  {
    assert ViewOk(ViewOf(s, x));
  }

  // ----- all of them -----

  ghost predicate Below(s: State, n: nat) { forall x :: x in s.transfers ==> x < n }

  ghost predicate Sound(s: State, n: nat) {
    Inv(s) && GoneOk(s) && NoneInHand(s) && Below(s, n)
  }

  lemma HandlerGoesOn(s: State, n: nat) returns (a: Action, s': State)
    requires Sound(s, n) && s.pass.None? && s.handler != Ready && !s.handler.Scanning? && AllUnlocked(s)
    ensures Step(s, a, s') && !a.PassMark? && NoneInHand(s') && Falls(s, s', n)
  {
    match s.handler {
      case Finishing(_, phase, _, _) =>
        a := Finish;
        if phase == Unlist { s' := UnlistGoesOn(s, n); } else { s' := FinishGoesOn(s, n); }
      case Rescanning(_) => a := Rescan; s' := RescanGoesOn(s, n);
      case Clearing(_, x) =>
        assert ViewOk(ViewOf(s, x));
        a := Clear;
        s' := ClearGoesOn(s, n);
    }
  }

  lemma SomeoneGoesOn(s: State, n: nat) returns (a: Action, s': State)
    requires Sound(s, n) && !AtRest(s)
    ensures Step(s, a, s') && !a.PassMark? && NoneInHand(s') && Falls(s, s', n)
  {
    if s.pass.Some? {
      a, s' := PassWalksOn(s, n);
    } else if s.handler.Scanning? {
      a := Scan;
      s' := ScanGoesOn(s, n);
    } else if x :| x in s.transfers && !s.transfers[x].stage.Unlocked? {
      assert ViewOk(ViewOf(s, x));
      a, s' := SubmitOnItsWay(s, x, n);
    } else if s.handler == Ready {
      var x :| x in Actives(s);
      ActiveIsNotGone(s, x);
      a := Complete(x, false);
      s' := BackendGoesOn(s, x, n);
    } else {
      a, s' := HandlerGoesOn(s, n);
    }
  }

  lemma StaysSound(s: State, a: Action, s': State, n: nat)
    requires Sound(s, n) && Step(s, a, s') && !a.PassMark? && NoneInHand(s')
    ensures Sound(s', n)
  {
    StepInv(s, a, s');
    StepKeepsGone(s, a, s');
    StepKeepsKeys(s, a, s');
  }

  /** A continuation in which no timeout is handled. */
  ghost predicate GoesOnTo(s: State, path: seq<State>, actions: seq<Action>, s': State) {
    && IsPath(path, actions) && path[0] == s && path[|path| - 1] == s'
    && forall a :: a in actions ==> !a.PassMark?
  }

  lemma OneMoreStep(s: State, a: Action, s': State, path: seq<State>, actions: seq<Action>, end: State)
    requires Step(s, a, s') && !a.PassMark? && GoesOnTo(s', path, actions, end)
    ensures GoesOnTo(s, [s] + path, [a] + actions, end)
  {
    PathCons(s, a, path, actions);
  }

  lemma {:induction false} AllGoOn(s: State, n: nat) returns (path: seq<State>, actions: seq<Action>, end: State)
    requires Sound(s, n)
    ensures GoesOnTo(s, path, actions, end) && Inv(end) && AtRest(end)
    decreases StageSum(s, n), Actives(s), HandlerRank(s), PassRank(s)
  {
    if AtRest(s) {
      path, actions, end := [s], [], s;
    } else {
      var a, s' := SomeoneGoesOn(s, n);
      StaysSound(s, a, s', n);
      path, actions, end := AllGoOn(s', n);
      OneMoreStep(s, a, s', path, actions, end);
      path, actions := [s] + path, [a] + actions;
    }
  }

  /** From every state of a run in which no store has lost anything, unless a timeout
      pass has a transfer in hand, the threads can go on so that all functions
      return, every disconnect is dealt with and every accepted submission is
      answered by its callback: nothing waits for a lock or a device for ever. */
  lemma EverythingCanSettle(run: seq<State>, actions: seq<Action>, i: nat)
    returns (path: seq<State>, acts: seq<Action>, end: State)
    requires IsRun(run, actions) && i < |run| && LosesNothing(run, actions, i) && NoneInHand(run[i])
    ensures GoesOnTo(run[i], path, acts, end) && AtRest(end) && Settled(end)
  {
    RunInv(run, actions, i);
    RunGone(run, actions, i);
    var n := AllBelow(run[i].transfers.Keys);
    path, acts, end := AllGoOn(run[i], n);
    RestIsSettled(end);
  }

  // ----- what the surroundings decide -----

  /** Thread t can bring its submit of x to the given stage in one step. */
  ghost predicate CanReach(s: State, t: Tid, x: Transfer, stage: Stage) {
    exists s' :: Step(s, Submit(t, x), s') && x in s'.transfers && s'.transfers[x].stage == stage
  }

  /** The backend may refuse a transfer at any time, and may accept it exactly as long
      as its device is there; the clock may fail, and no submit is added to the list
      that finds the transfer busy. */
  lemma CanReachIff(s: State, t: Tid, x: Transfer, stage: Stage)
    requires x in s.transfers && s.transfers[x].holder == Some(t)
    requires s.transfers[x].stage.Entered? || s.transfers[x].stage.Referenced?
    ensures CanReach(s, t, x, stage)
            <==> if s.transfers[x].stage.Entered?
                 then stage == Leaving || (stage == Marked && !s.transfers[x].flags.inFlight)
                 else stage == Submitted(false) || (stage == Submitted(true) && s.transfers[x].handle !in s.gone)
  {
    var ts := s.transfers[x];
    var s' := Put(s, x, ts.(stage := stage, active := ts.active || stage == Submitted(true)));
    if ts.stage.Entered? && !ts.flags.inFlight {
      s' := Put(s, x, ts.(stage := stage, flags := NO_FLAGS.(submitting := stage == Marked)));
    }
    assert s'.transfers[x].stage == stage;
  }
}
