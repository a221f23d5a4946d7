/**
 The stop/init/run/fini handshake on `tsync`: any number of threads calling `stop`, and one
 thread taking the tunnel through sessions of init, run and fini. Every atomic operation,
 every use of the event descriptors and every read by the event task is one step, and the
 steps of all threads interleave freely.
 */
module TunnelSync {

  /** Where a thread stands inside `stop`. A thread spinning on WAIT counts as `Outside`.
      `session` is the session that was armed when the thread took WAIT. */
  datatype Stopper =
    | Outside
    | Took(armed: bool, session: nat)
    | Writing(session: nat)
    | Leaving(armed: bool, session: nat)

  datatype Event = Waiting | Read | Cleared

  /** Where the lifecycle thread stands. Every session is one init, at most one run and one
      fini: `Ready` is after a successful init, `Ran` after the run. */
  datatype Life =
    | Down
    | Opening
    | Opened
    | Ready
    | Running(event: Event)
    | Ran
    | Retrying
    | Closing

  datatype State = State(
    // tsync
    send: bool, sent: bool, wait: bool, stop: bool,
    // the event descriptors: open or not, and the bytes nobody has read
    open: bool, bytes: nat,
    life: Life,
    // how many times the descriptors were opened, and whether this session's event task has read
    session: nat, woken: bool,
    stoppers: map<nat, Stopper>)

  datatype Step =
    | BeginInit
    | OpenEvent
    | InitFails
    | Arm
    | RunCheck
    | EventReads(count: nat)
    | EventClears
    | RunReturns
    | BeginFini
    | FiniRetry
    | CloseEvent
    | TakeWait(t: nat)
    | MarkSent(t: nat)
    | Write(t: nat)
    | SetStop(t: nat)
    | DropWait(t: nat)

  const START := State(false, false, false, false, false, 0, Down, 0, false, map[])

  function At(s: State, t: nat): Stopper {
    if t in s.stoppers then s.stoppers[t] else Outside
  }

  predicate Enabled(s: State, step: Step) {
    match step
    case BeginInit => s.life == Down
    case OpenEvent => s.life == Opening
    case InitFails => s.life == Opening || s.life == Opened
    case Arm => s.life == Opened
    case RunCheck => s.life == Ready
    case EventReads(count) => s.life == Running(Waiting) && 1 <= count <= s.bytes && count <= 4
    case EventClears => s.life == Running(Read)
    case RunReturns => s.life == Running(Cleared)
    case BeginFini => s.life == Ready || s.life == Ran
    case FiniRetry => s.life == Retrying
    case CloseEvent => s.life == Closing
    case TakeWait(t) => At(s, t) == Outside
    case MarkSent(t) => At(s, t).Took? && At(s, t).armed
    case Write(t) => At(s, t).Writing?
    case SetStop(t) => At(s, t).Took? && !At(s, t).armed
    case DropWait(t) => At(s, t).Leaving?
  }

  function Move(s: State, t: nat, p: Stopper): State {
    s.(stoppers := s.stoppers[t := p])
  }

  function Do(s: State, step: Step): State
    requires Enabled(s, step)
  {
    match step
    case BeginInit => s.(life := Opening)
    case OpenEvent => s.(life := Opened, open := true, bytes := 0, session := s.session + 1, woken := false)
    case InitFails => s.(life := Retrying)
    case Arm => s.(life := Ready, send := true)
    case RunCheck => if s.stop then s.(life := Ran, stop := false) else s.(life := Running(Waiting))
    case EventReads(count) => s.(life := Running(Read), bytes := s.bytes - count, woken := true)
    case EventClears => s.(life := Running(Cleared), sent := false)
    case RunReturns => s.(life := Ran)
    case BeginFini => s.(life := Retrying)
    case FiniRetry => s.(life := if s.wait then Retrying else Closing, send := false, sent := false)
    case CloseEvent => s.(life := Down, open := false)
    case TakeWait(t) => if s.wait then s else Move(s, t, Took(s.send, s.session)).(wait := true)
    case MarkSent(t) =>
      var k := At(s, t).session;
      Move(s, t, if s.sent then Leaving(true, k) else Writing(k)).(sent := true)
    case Write(t) =>
      Move(s, t, Leaving(true, At(s, t).session)).(bytes := if s.open then s.bytes + 1 else s.bytes)
    case SetStop(t) => Move(s, t, Leaving(false, At(s, t).session)).(stop := true)
    case DropWait(t) => Move(s, t, Outside).(wait := false)
  }

  predicate Leads(s: State, step: Step, s': State) {
    Enabled(s, step) && s' == Do(s, step)
  }

  /** A run: the states passed through by the steps, from the start of the process. */
  ghost predicate IsRun(states: seq<State>, steps: seq<Step>) {
    && |states| == |steps| + 1 && states[0] == START
    && forall i :: 0 <= i < |steps| ==> Leads(states[i], steps[i], states[i + 1])
  }

  lemma StepAt(states: seq<State>, steps: seq<Step>, i: nat)
    requires IsRun(states, steps) && i < |steps|
    ensures Enabled(states[i], steps[i]) && states[i + 1] == Do(states[i], steps[i])
  {
    assert Leads(states[i], steps[i], states[i + 1]);
  }

  // ---------------------------------------------------------------- what every step keeps

  ghost predicate Inside(s: State, t: nat) {
    At(s, t) != Outside
  }

  datatype Holder = Nobody | Thread(t: nat)

  /** Between setting and clearing WAIT stands exactly `h`, and WAIT is set iff that is somebody. */
  ghost predicate HeldBy(s: State, h: Holder) {
    (s.wait <==> h.Thread?) && forall t :: Inside(s, t) <==> h == Thread(t)
  }

  /** Where the one thread inside `stop` stands. */
  function Stands(s: State, h: Holder): Stopper {
    if h.Thread? then At(s, h.t) else Outside
  }

  /** A session that `fini` has entered, or that is over, needs no waking any more. */
  predicate Ending(s: State, session: nat) {
    s.session != session || s.life == Retrying || s.life == Closing || s.life == Down || s.life == Opening
  }

  /** A stop that found session `session` armed has reached it: a byte is there to be read,
      or the event task has read one, or the session is ending anyway. */
  predicate Delivered(s: State, session: nat) {
    Ending(s, session) || s.bytes > 0 || s.woken
  }

  /** No session is armed: nothing has been sent, and nobody inside `stop` thinks otherwise. */
  predicate Disarmed(s: State, p: Stopper) {
    !s.send && !s.sent && !(p.Took? && p.armed) && !p.Writing?
  }

  /** What the bits and the lifecycle say of each other and of the thread inside `stop`. */
  predicate Agrees(s: State, p: Stopper) {
    && (match s.life
        case Down => Disarmed(s, p) && !s.open
        case Opening => Disarmed(s, p) && !s.open
        case Opened => Disarmed(s, p) && s.open && s.bytes == 0 && !s.woken
        case Ready => s.send && s.open && !s.woken
        case Ran => s.send && s.open
        case Running(event) => s.send && s.open && (event != Waiting <==> s.woken)
        case Retrying => s.send ==> s.open
        case Closing => Disarmed(s, p))
    && (match p
        case Outside => true
        case Took(armed, k) => armed ==> s.open && k == s.session
        case Writing(k) => s.open && k == s.session
        case Leaving(armed, k) => armed ==> k <= s.session && Delivered(s, k))
    && (s.sent && s.send && !p.Writing? ==> s.bytes > 0 || s.woken)
  }

  ghost predicate Inv(s: State, h: Holder) {
    HeldBy(s, h) && Agrees(s, Stands(s, h))
  }

  /** Who is inside `stop` after a step. */
  function NextHolder(s: State, h: Holder, step: Step): Holder {
    match step
    case TakeWait(t) => if s.wait then h else Thread(t)
    case DropWait(t) => Nobody
    case _ => h
  }

  predicate OfLifecycle(step: Step) {
    !step.TakeWait? && !step.MarkSent? && !step.Write? && !step.SetStop? && !step.DropWait?
  }

  /** What was delivered stays delivered, whatever happens next. */
  lemma DeliveredStays(s: State, p: Stopper, step: Step, session: nat)
    requires Agrees(s, p) && Enabled(s, step) && session <= s.session && Delivered(s, session)
    ensures session <= Do(s, step).session && Delivered(Do(s, step), session)
  {
    var s' := Do(s, step);
    if !OfLifecycle(step) {
      assert s'.life == s.life && s'.session == s.session && s'.woken == s.woken && s'.bytes >= s.bytes;
    } else {
      match step
      case RunCheck =>
      case OpenEvent =>
      case _ =>
    }
  }

  lemma HolderKept(s: State, h: Holder, step: Step)
    requires HeldBy(s, h) && Enabled(s, step)
    ensures HeldBy(Do(s, step), NextHolder(s, h, step))
  {
    var s' := Do(s, step);
    if OfLifecycle(step) {
      assert forall t :: At(s', t) == At(s, t);
    } else {
      assert forall t :: t != step.t ==> At(s', t) == At(s, t);
      assert Inside(s, step.t) || step.TakeWait?;
    }
  }

  lemma LifecycleAgrees(s: State, h: Holder, step: Step)
    requires Inv(s, h) && Enabled(s, step) && OfLifecycle(step)
    ensures Agrees(Do(s, step), Stands(s, h))
  {
    var p := Stands(s, h);
    if p.Leaving? && p.armed {
      DeliveredStays(s, p, step, p.session);
    }
    assert s.wait <==> p != Outside;
    hide HeldBy;
  }

  lemma StopperAgrees(s: State, h: Holder, step: Step)
    requires Inv(s, h) && Enabled(s, step) && !OfLifecycle(step)
    ensures Agrees(Do(s, step), Stands(Do(s, step), NextHolder(s, h, step)))
  {
    assert step.TakeWait? || h == Thread(step.t) by {
      assert Inside(s, step.t) || step.TakeWait?;
    }
    assert step.TakeWait? && s.wait ==> Do(s, step) == s;
    hide HeldBy;
  }

  lemma StepKeeps(s: State, h: Holder, step: Step)
    requires Inv(s, h) && Enabled(s, step)
    ensures Inv(Do(s, step), NextHolder(s, h, step))
  {
    HolderKept(s, h, step);
    if OfLifecycle(step) {
      LifecycleAgrees(s, h, step);
    } else {
      StopperAgrees(s, h, step);
    }
    hide HeldBy, Agrees, Delivered;
  }

  lemma {:induction false} RunKeeps(states: seq<State>, steps: seq<Step>, n: nat) returns (h: Holder)
    requires IsRun(states, steps) && n < |states|
    ensures Inv(states[n], h)
  {
    if n == 0 {
      h := Nobody;
    } else {
      h := RunKeeps(states, steps, n - 1);
      StepAt(states, steps, n - 1);
      StepKeeps(states[n - 1], h, steps[n - 1]);
      h := NextHolder(states[n - 1], h, steps[n - 1]);
    }
  }

  // ---------------------------------------------------------------- stop is safe

  /** In every interleaving: `stop` writes only while the descriptors it saw armed are open,
      and nobody else stands between setting and clearing WAIT. */
  lemma WriteIsSafe(states: seq<State>, steps: seq<Step>, n: nat, t: nat)
    requires IsRun(states, steps) && n < |states| && Enabled(states[n], Write(t))
    ensures states[n].open && At(states[n], t).session == states[n].session
    ensures states[n].life != Closing && states[n].life != Down && states[n].life != Opening
    ensures forall u :: u != t ==> At(states[n], u) == Outside
  {
    var h := RunKeeps(states, steps, n);
    assert Inside(states[n], t);
    forall u | u != t ensures At(states[n], u) == Outside {
      assert !Inside(states[n], u);
    }
  }

  /** Closing happens only while nobody can write. */
  lemma CloseIsSafe(states: seq<State>, steps: seq<Step>, n: nat, t: nat)
    requires IsRun(states, steps) && n < |states| && Enabled(states[n], CloseEvent)
    ensures !At(states[n], t).Writing? && !(At(states[n], t).Took? && At(states[n], t).armed)
  {
    var h := RunKeeps(states, steps, n);
    assert Inside(states[n], t) ==> h == Thread(t);
  }

  /** How many steps of its own separate a stopper from letting WAIT go. */
  function ToGo(p: Stopper): nat {
    match p
    case Outside => 0
    case Leaving(_, _) => 1
    case Writing(_) => 2
    case Took(_, _) => 3
  }

  function OwnStep(p: Stopper, t: nat): Step
    requires p != Outside
  {
    match p
    case Took(armed, _) => if armed then MarkSent(t) else SetStop(t)
    case Writing(_) => Write(t)
    case Leaving(_, _) => DropWait(t)
  }

  /** While WAIT is set its holder can always move, and is done after at most three steps:
      no spinning thread and no `fini` waits for ever. */
  lemma HolderMoves(states: seq<State>, steps: seq<Step>, n: nat) returns (t: nat)
    requires IsRun(states, steps) && n < |states| && states[n].wait
    ensures Inside(states[n], t) && Enabled(states[n], OwnStep(At(states[n], t), t))
    ensures ToGo(At(Do(states[n], OwnStep(At(states[n], t), t)), t)) < ToGo(At(states[n], t)) <= 3
    ensures !Inside(Do(states[n], OwnStep(At(states[n], t), t)), t) ==>
      !Do(states[n], OwnStep(At(states[n], t), t)).wait
  {
    var h := RunKeeps(states, steps, n);
    t := h.t;
    assert Inside(states[n], t);
  }

  // ---------------------------------------------------------------- no stop vanishes

  lemma {:induction false} DeliveredForGood(states: seq<State>, steps: seq<Step>, i: nat, n: nat, session: nat)
    requires IsRun(states, steps) && |states| == |steps| + 1 && i <= n < |states|
    requires session <= states[i].session && Delivered(states[i], session)
    ensures session <= states[n].session && Delivered(states[n], session)
    decreases n
  {
    hide Delivered, Agrees, HeldBy, Do, Enabled, IsRun;
    if i < n {
      DeliveredForGood(states, steps, i, n - 1, session);
      var h := RunKeeps(states, steps, n - 1);
      StepAt(states, steps, n - 1);
      DeliveredStays(states[n - 1], Stands(states[n - 1], h), steps[n - 1], session);
    }
  }

  /** A stop that found the session armed has reached it by the time it returns, for good. */
  lemma ArmedStopArrives(states: seq<State>, steps: seq<Step>, i: nat, n: nat, t: nat)
    requires IsRun(states, steps) && i < n < |states| && steps[i] == DropWait(t)
    requires At(states[i], t).Leaving? && At(states[i], t).armed
    ensures Delivered(states[n], At(states[i], t).session)
  {
    var h := RunKeeps(states, steps, i);
    StepAt(states, steps, i);
    assert Inside(states[i], t);
    DeliveredForGood(states, steps, i, n, At(states[i], t).session);
  }

  /** STOP, once set at step `j`, is there until a check in `run` consumes it. */
  ghost predicate KeptOrConsumed(states: seq<State>, steps: seq<Step>, j: nat, n: nat)
    requires |states| == |steps| + 1 && n < |states|
  {
    states[n].stop || exists m :: j < m < n && steps[m] == RunCheck && states[m].stop
  }

  lemma {:induction false} StopStays(states: seq<State>, steps: seq<Step>, j: nat, n: nat)
    requires IsRun(states, steps) && j < n < |states| && steps[j].SetStop?
    ensures KeptOrConsumed(states, steps, j, n)
    decreases n
  {
    var m := n - 1;
    StepAt(states, steps, m);
    if j < m {
      StopStays(states, steps, j, m);
    }
  }

  /** A stop that found nothing armed has set STOP before it returns. */
  lemma {:induction false} UnarmedStopSet(states: seq<State>, steps: seq<Step>, i: nat, t: nat) returns (j: nat)
    requires IsRun(states, steps) && i < |states|
    requires At(states[i], t).Leaving? && !At(states[i], t).armed
    ensures j < i && steps[j] == SetStop(t)
    decreases i
  {
    j := i - 1;
    StepAt(states, steps, j);
    if steps[j] != SetStop(t) {
      assert At(states[j], t) == At(states[i], t);
      j := UnarmedStopSet(states, steps, j, t);
    }
  }

  /** No stop vanishes: when `stop` returns, the session it found armed has been reached, or
      STOP has been set and stays until the next `run` consumes it. */
  lemma NoStopVanishes(states: seq<State>, steps: seq<Step>, i: nat, n: nat, t: nat)
    requires IsRun(states, steps) && i < n < |states| && steps[i] == DropWait(t)
    ensures At(states[i], t).Leaving?
    ensures At(states[i], t).armed ==> Delivered(states[n], At(states[i], t).session)
    ensures !At(states[i], t).armed ==>
      exists j :: 0 <= j < i && steps[j] == SetStop(t) && KeptOrConsumed(states, steps, j, n)
  {
    StepAt(states, steps, i);
    if At(states[i], t).armed {
      ArmedStopArrives(states, steps, i, n, t);
    } else {
      var j := UnarmedStopSet(states, steps, i, t);
      StopStays(states, steps, j, n);
    }
  }

  /** How many steps separate a running session from the end of its run. */
  function RunToGo(life: Life): nat {
    match life
    case Running(Waiting) => 3
    case Running(Read) => 2
    case Running(Cleared) => 1
    case _ => 0
  }

  /** The step of the run's own that comes next. */
  function RunStep(event: Event): Step {
    match event
    case Waiting => EventReads(1)
    case Read => EventClears
    case Cleared => RunReturns
  }

  /** A delivered wake-up lets the run go on to its end: its next step can always be taken and
      leaves fewer to go, of three at most, still woken; the last one ends it. No step of any
      thread takes it back. */
  lemma WokenRunEnds(states: seq<State>, steps: seq<Step>, n: nat, other: Step)
    requires IsRun(states, steps) && n < |states|
    requires states[n].life.Running? && Delivered(states[n], states[n].session)
    ensures var s := states[n]; var step := RunStep(s.life.event);
      && Enabled(s, step)
      && RunToGo(Do(s, step).life) == RunToGo(s.life) - 1 < 3
      && (if Do(s, step).life.Running? then Do(s, step).woken else Do(s, step).life == Ran)
    ensures Enabled(states[n], other) ==>
      RunToGo(Do(states[n], other).life) <= RunToGo(states[n].life) &&
      (Do(states[n], other).life.Running? ==> Delivered(Do(states[n], other), states[n].session))
  {
    var h := RunKeeps(states, steps, n);
    if Enabled(states[n], other) {
      DeliveredStays(states[n], Stands(states[n], h), other, states[n].session);
    }
    hide HeldBy;
  }

  // ---------------------------------------------------------------- a stop that comes late

  /** No check of STOP by a `run` among the steps from `i` up to `n`. */
  ghost predicate NoCheck(steps: seq<Step>, i: nat, n: nat)
    requires n <= |steps|
  {
    forall k :: i <= k < n ==> steps[k] != RunCheck
  }

  /** Thread `t` takes WAIT at step `i`, finds no session armed, and sets STOP at step `j`. */
  ghost predicate StopsUnarmed(states: seq<State>, steps: seq<Step>, i: nat, j: nat, t: nat)
    requires |states| == |steps| + 1
  {
    && i < j < |steps| && steps[i] == TakeWait(t) && !states[i].wait && !states[i].send
    && steps[j] == SetStop(t) && forall k :: i <= k < j ==> steps[k] != SetStop(t)
  }

  /** STOP stays while no run checks it. */
  lemma {:induction false} StopWaits(states: seq<State>, steps: seq<Step>, j: nat, n: nat)
    requires IsRun(states, steps) && |states| == |steps| + 1 && j <= n <= |steps|
    requires states[j].stop && NoCheck(steps, j, n)
    ensures states[n].stop
    decreases n
  {
    hide IsRun;
    if j < n {
      StopWaits(states, steps, j, n - 1);
      StepAt(states, steps, n - 1);
    }
  }

  lemma HoldingOn(s: State, h: Holder, step: Step, t: nat)
    requires Inv(s, h) && Enabled(s, step) && step != RunCheck && step != SetStop(t)
    requires At(s, t).Took? && !At(s, t).armed
    ensures At(Do(s, step), t) == At(s, t) && Do(s, step).stop == s.stop
  {
    assert Inside(s, t);
    assert !OfLifecycle(step) && step.t != t ==> !Inside(s, step.t);
    hide Agrees;
  }

  /** While an unarmed stopper holds WAIT and has not set STOP, nobody else does. */
  lemma {:induction false} StopHeldBack(states: seq<State>, steps: seq<Step>, i: nat, j: nat, t: nat, n: nat)
    requires IsRun(states, steps) && |states| == |steps| + 1 && StopsUnarmed(states, steps, i, j, t)
    requires i < n <= j && NoCheck(steps, i, n)
    ensures At(states[n], t).Took? && !At(states[n], t).armed && states[n].stop == states[i].stop
    decreases n
  {
    hide IsRun, Inv, NoCheck;
    StepAt(states, steps, n - 1);
    if n - 1 > i {
      assert NoCheck(steps, i, n - 1) && steps[n - 1] != RunCheck by {
        StillNoCheck(steps, i, n);
      }
      StopHeldBack(states, steps, i, j, t, n - 1);
      var h := RunKeeps(states, steps, n - 1);
      HoldingOn(states[n - 1], h, steps[n - 1], t);
    }
  }

  lemma StillNoCheck(steps: seq<Step>, i: nat, n: nat)
    requires i < n <= |steps| && NoCheck(steps, i, n)
    ensures NoCheck(steps, i, n - 1) && steps[n - 1] != RunCheck
  {
  }

  /** A stop that found nothing armed ends the next run at its check exactly if it set STOP
      before that check, or STOP was set before; otherwise the run goes on and waits. */
  lemma UnarmedStopInTime(states: seq<State>, steps: seq<Step>, i: nat, j: nat, t: nat, m: nat)
    requires IsRun(states, steps) && |states| == |steps| + 1 && StopsUnarmed(states, steps, i, j, t)
    requires i < m < |steps| && steps[m] == RunCheck && NoCheck(steps, i, m)
    ensures states[m + 1].life == Ran <==> j < m || states[i].stop
    ensures states[m + 1].life != Ran ==> states[m + 1].life == Running(Waiting)
  {
    hide IsRun;
    StepAt(states, steps, m);
    if j < m {
      StepAt(states, steps, j);
      StopWaits(states, steps, j + 1, m);
    } else {
      StopHeldBack(states, steps, i, j, t, m);
    }
  }

  /** And in any case the first run that checks STOP after it was set ends there. */
  lemma NextRunEnds(states: seq<State>, steps: seq<Step>, j: nat, m: nat)
    requires IsRun(states, steps) && |states| == |steps| + 1 && j < m < |steps|
    requires steps[j].SetStop? && steps[m] == RunCheck && NoCheck(steps, j, m)
    ensures states[m + 1].life == Ran && !states[m + 1].stop
  {
    hide IsRun;
    StepAt(states, steps, j);
    StepAt(states, steps, m);
    StopWaits(states, steps, j + 1, m);
  }

  /** The interleaving of one session with a stop by thread 0 that takes WAIT just too early. */
  function LateStep(i: nat): Step
    requires i < 7
  {
    [BeginInit, OpenEvent, TakeWait(0), Arm, RunCheck, SetStop(0), DropWait(0)][i]
  }

  function LateState(i: nat): State
    requires i < 8
  {
    if i == 0 then START
    else if i == 1 then START.(life := Opening)
    else
      var armable := START.(life := Opened, open := true, session := 1);
      if i == 2 then armable
      else
        var taken := armable.(wait := true, stoppers := map[0 := Took(false, 1)]);
        if i == 3 then taken
        else if i == 4 then taken.(life := Ready, send := true)
        else
          var running := taken.(life := Running(Waiting), send := true);
          if i == 5 then running
          else if i == 6 then running.(stop := true, stoppers := map[0 := Leaving(false, 1)])
          else running.(wait := false, stop := true, stoppers := map[0 := Outside])
  }

  lemma LateLeads(i: nat)
    requires i < 7
    ensures Leads(LateState(i), LateStep(i), LateState(i + 1))
  {
    assert forall p: Stopper, q: Stopper :: map[0 := p][0 := q] == map[0 := q];
  }

  /** A stop that took WAIT before the session was armed may miss it: the run goes on with
      nothing to wake it, and STOP waits for the next one. */
  lemma LateStop() returns (states: seq<State>, steps: seq<Step>)
    ensures IsRun(states, steps)
    ensures |steps| == 7 && |states| == 8 && StopsUnarmed(states, steps, 2, 5, 0) && steps[4] == RunCheck
    ensures !states[2].stop
    ensures var s := states[7]; s.life == Running(Waiting) && !Delivered(s, s.session) && s.stop
  {
    states := seq(8, i requires 0 <= i < 8 => LateState(i));
    steps := seq(7, i requires 0 <= i < 7 => LateStep(i));
    forall i | 0 <= i < 7 ensures Leads(states[i], steps[i], states[i + 1]) {
      LateLeads(i);
    }
  }
}
