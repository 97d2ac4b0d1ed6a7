/** The calls of SafeKcp at the grain of the mutex: every lock acquisition is one step, and any
    number of threads take steps in any order. A run is a script that says whose step comes next. */
module Interleaving {
  import opened Prelude
  import opened Session

  datatype Op =
    | ForceClose | Update | Input | Send | Recv | Flush | Close | Check | Updatable | WakeOne(slot: Slot) | WakeAll

  /** What the outside answers during one step: the clock, the C control block, the polling task. */
  datatype Obs = Obs(task: Task, now: U32, inner: U32, accepted: bool,
                     waitsnd: U32, window: U32, peeksize: int, done: Io<nat>)

  /** Where a thread stands between two lock acquisitions. */
  datatype Thread =
    | Idle
    | Entering(op: Op)                 // about to call closed()
    | Inside(op: Op)                   // about to take the lock of the call proper
    | Waking(op: Op, rest: seq<Slot>)  // about to take the slots in rest
    | Comparing                        // updatable, about to read last_update

  datatype Machine = Machine(session: State, threads: seq<Thread>)

  /** One scheduling decision; op is the call an idle thread starts. */
  datatype Choice = Choice(thread: nat, op: Op, obs: Obs)

  function Start(op: Op): Thread {
    match op
    case Input => Inside(op)
    case Check => Inside(op)
    case WakeOne(slot) => Waking(op, [slot])
    case WakeAll => Waking(op, WAKE_ORDER)
    case _ => Entering(op)
  }

  function StepInside(s: State, op: Op, o: Obs): (State, Thread) {
    match op
    case ForceClose => (s.Shut(), Waking(op, WAKE_ORDER))
    case Update => (s.UpdateLocked(o.now).0, Idle)
    case Input => (s.InputLocked(o.accepted, o.now), Waking(op, WAKE_ORDER))
    case Send => (s.SendLocked(o.task, o.waitsnd, o.window, o.done).0, Idle)
    case Recv => (s.RecvLocked(o.task, o.peeksize, o.now, o.done).0, Waking(op, [SendSlot]))
    case Flush => (s.FlushLocked(o.task, o.waitsnd).0, Idle)
    case Close => (s.CloseLocked(o.task, o.waitsnd, o.now).0, Idle)
    case Check => (s.Check(o.inner), Idle)
    case Updatable => (s.Check(o.inner), Comparing)
    case _ => (s, Idle)
  }

  function Step(s: State, thread: Thread, op: Op, o: Obs): (State, Thread) {
    match thread
    case Idle => (s, Start(op))
    case Entering(call) => (s, if s.IsClosed() then Idle else Inside(call))
    case Inside(call) => StepInside(s, call, o)
    case Waking(call, rest) =>
      if |rest| <= 1 then (if rest == [] then s else s.TryWake(rest[0]), Idle)
      else (s.TryWake(rest[0]), Waking(call, rest[1..]))
    case Comparing => (s, Idle)
  }

  function Next(m: Machine, c: Choice): Machine {
    if c.thread < |m.threads| then
      var (s, thread) := Step(m.session, m.threads[c.thread], c.op, c.obs);
      Machine(s, m.threads[c.thread := thread])
    else
      m
  }

  function Run(m: Machine, script: seq<Choice>): Machine
    decreases |script|
  {
    if script == [] then m else Run(Next(m, script[0]), script[1..])
  }

  // ---------------------------------------------------------------- A call run alone is the atomic call

  /** The effect of a whole call without interference. */
  function Atomic(s: State, op: Op, o: Obs): State {
    match op
    case ForceClose => s.ForceClose()
    case Update => s.Update(o.now).0
    case Input => s.PollInput(o.accepted, o.now)
    case Send => s.PollSend(o.task, o.waitsnd, o.window, o.done).0
    case Recv => s.PollRecv(o.task, o.peeksize, o.now, o.done).0
    case Flush => s.PollFlush(o.task, o.waitsnd).0
    case Close => s.PollClose(o.task, o.waitsnd, o.now).0
    case Check => s.Check(o.inner)
    case Updatable => s.Updatable(o.inner).0
    case WakeOne(slot) => s.TryWake(slot)
    case WakeAll => s.WakeAll()
  }

  /** The steps a thread still has to take at most. */
  function Distance(thread: Thread): nat {
    match thread
    case Idle => 0
    case Comparing => 1
    case Waking(_, rest) => 1 + |rest|
    case Inside(_) => 6
    case Entering(_) => 7
  }

  /** Run one thread alone until it is idle. */
  function Finish(s: State, thread: Thread, o: Obs): State
    decreases Distance(thread)
  {
    if thread == Idle then s else
      var (s', thread') := Step(s, thread, Check, o);
      Finish(s', thread', o)
  }

  lemma {:induction false} FinishWaking(s: State, op: Op, rest: seq<Slot>, o: Obs)
    requires rest != []
    ensures Finish(s, Waking(op, rest), o) == s.WakeSlots(rest)
    decreases |rest|
  {
    if |rest| > 1 {
      FinishWaking(s.TryWake(rest[0]), op, rest[1..], o);
    } else {
      assert rest[1..] == [];
      assert s.WakeSlots(rest) == s.TryWake(rest[0]).WakeSlots([]);
    }
  }

  /** Run without interference, the steps of a call add up to the atomic call. */
  lemma AloneIsAtomic(s: State, op: Op, o: Obs)
    ensures Finish(s, Start(op), o) == Atomic(s, op, o)
  {
    var s1 := StepInside(s, op, o).0;
    FinishWaking(s1, op, WAKE_ORDER, o);
    FinishWaking(s, op, WAKE_ORDER, o);
    FinishWaking(s1, op, [SendSlot], o);
    assert s1.WakeSlots([SendSlot]) == s1.TryWake(SendSlot).WakeSlots([]);
    assert Finish(s1, Comparing, o) == s1;
    assert Finish(s, Inside(op), o) == Finish(StepInside(s, op, o).0, StepInside(s, op, o).1, o);
    if op.WakeOne? {
      FinishWaking(s, op, [op.slot], o);
      assert s.WakeSlots([op.slot]) == s.TryWake(op.slot).WakeSlots([]);
    }
  }

  // ---------------------------------------------------------------- Lifecycle

  /** 0 open, 1 receive-closed, 2 closed. */
  function Phase(s: State): nat {
    if s.sendClosed then 2 else if s.recvClosed then 1 else 0
  }

  predicate Ordered(s: State) {
    s.sendClosed ==> s.recvClosed
  }

  lemma StepLifecycle(s: State, thread: Thread, op: Op, o: Obs)
    ensures var s' := Step(s, thread, op, o).0;
            && (Ordered(s) ==> Ordered(s'))
            && (s.sendClosed ==> s'.sendClosed)
            && (s.recvClosed ==> s'.recvClosed)
  {
  }

  /** Over every interleaving the flags only rise, closed() is send_closed, and the phase never goes back. */
  lemma {:induction false} Lifecycle(m: Machine, script: seq<Choice>)
    requires Ordered(m.session)
    ensures var s := Run(m, script).session;
            && Ordered(s)
            && (s.IsClosed() <==> s.sendClosed)
            && Phase(m.session) <= Phase(s)
            && (m.session.recvClosed ==> s.recvClosed)
    decreases |script|
  {
    if script != [] {
      var c := script[0];
      if c.thread < |m.threads| {
        StepLifecycle(m.session, m.threads[c.thread], c.op, c.obs);
      }
      Lifecycle(Next(m, c), script[1..]);
    }
  }

  // ---------------------------------------------------------------- After force_close

  /** In a closed session nobody can park on the send slot or the receive slot any more. */
  lemma StepKeepsEmpty(s: State, thread: Thread, op: Op, o: Obs, slot: Slot)
    requires s.IsClosed() && s.Waker(slot).None?
    requires slot in {SendSlot, RecvSlot} || !MayPark(thread)
    ensures var s' := Step(s, thread, op, o).0; s'.IsClosed() && s'.Waker(slot).None?
  {
  }

  /** The thread is past the closed() check of poll_flush or poll_close but has not taken the lock yet. */
  predicate MayPark(thread: Thread) {
    thread.Inside? && (thread.op.Flush? || thread.op.Close?)
  }

  ghost predicate InFlight(m: Machine) {
    exists t: nat :: t < |m.threads| && MayPark(m.threads[t])
  }

  predicate Shutting(thread: Thread) {
    thread.Waking? && thread.op.ForceClose?
  }

  /** A force_close that still has rest to do has emptied the other one of the two slots. */
  predicate Emptied(s: State, rest: seq<Slot>) {
    && s.IsClosed()
    && (SendSlot !in rest ==> s.sendWaker.None?)
    && (RecvSlot !in rest ==> s.recvWaker.None?)
  }

  ghost predicate Shutdowns(m: Machine) {
    forall t: nat :: t < |m.threads| && Shutting(m.threads[t]) ==> Emptied(m.session, m.threads[t].rest)
  }

  predicate AllIdle(m: Machine) {
    forall t: nat :: t < |m.threads| ==> m.threads[t] == Idle
  }

  lemma StepShutdowns(m: Machine, c: Choice)
    requires Shutdowns(m)
    ensures Shutdowns(Next(m, c))
  {
    if c.thread < |m.threads| {
      var thread := m.threads[c.thread];
      var m' := Next(m, c);
      forall t: nat | t < |m'.threads| && Shutting(m'.threads[t])
        ensures Emptied(m'.session, m'.threads[t].rest)
      {
        if t == c.thread {
          if Shutting(thread) {
            assert Emptied(m.session, thread.rest);
            assert forall slot :: slot in thread.rest ==> slot == thread.rest[0] || slot in thread.rest[1..];
          }
        } else {
          assert Shutting(m.threads[t]) && Emptied(m.session, m.threads[t].rest);
          StepLifecycle(m.session, thread, c.op, c.obs);
          if m.session.sendWaker.None? { StepKeepsEmpty(m.session, thread, c.op, c.obs, SendSlot); }
          if m.session.recvWaker.None? { StepKeepsEmpty(m.session, thread, c.op, c.obs, RecvSlot); }
        }
      }
    }
  }

  lemma {:induction false} RunShutdowns(m: Machine, script: seq<Choice>)
    requires Shutdowns(m)
    ensures Shutdowns(Run(m, script))
    decreases |script|
  {
    if script != [] {
      StepShutdowns(m, script[0]);
      RunShutdowns(Next(m, script[0]), script[1..]);
    }
  }

  lemma {:induction false} RunKeepsEmpty(m: Machine, script: seq<Choice>)
    requires m.session.IsClosed() && m.session.sendWaker.None? && m.session.recvWaker.None?
    ensures var s := Run(m, script).session; s.IsClosed() && s.sendWaker.None? && s.recvWaker.None?
    decreases |script|
  {
    if script != [] {
      var c := script[0];
      if c.thread < |m.threads| {
        StepKeepsEmpty(m.session, m.threads[c.thread], c.op, c.obs, SendSlot);
        StepKeepsEmpty(m.session, m.threads[c.thread], c.op, c.obs, RecvSlot);
      }
      RunKeepsEmpty(Next(m, c), script[1..]);
    }
  }

  /** Whatever the other threads do before, meanwhile and later: once a force_close that did not return
      early has taken its last step, no sender and no receiver is parked, and none ever parks again. */
  lemma ForceCloseFreesSendAndRecv(start: Machine, before: seq<Choice>, last: Choice, later: seq<Choice>)
    requires AllIdle(start)
    requires var m := Run(start, before);
             last.thread < |m.threads| && m.threads[last.thread] == Waking(ForceClose, [CloseSlot])
    ensures var s := Run(Next(Run(start, before), last), later).session;
            s.IsClosed() && s.sendWaker.None? && s.recvWaker.None?
  {
    RunShutdowns(start, before);
    var m := Run(start, before);
    assert Emptied(m.session, m.threads[last.thread].rest);
    RunKeepsEmpty(Next(m, last), later);
  }

  lemma StepKeepsSilent(m: Machine, c: Choice)
    requires m.session.IsClosed() && m.session.Silent() && !InFlight(m)
    ensures var m' := Next(m, c); m'.session.IsClosed() && m'.session.Silent() && !InFlight(m')
  {
  }

  /** In a closed session no thread gets past the closed() check. */
  lemma KeepsGrounded(m: Machine, c: Choice)
    requires m.session.IsClosed() && !InFlight(m)
    ensures !InFlight(Next(m, c))
  {
  }

  lemma {:induction false} RunKeepsSilent(m: Machine, script: seq<Choice>)
    requires m.session.IsClosed() && m.session.Silent() && !InFlight(m)
    ensures Run(m, script).session.Silent()
    decreases |script|
  {
    if script != [] {
      StepKeepsSilent(m, script[0]);
      RunKeepsSilent(Next(m, script[0]), script[1..]);
    }
  }

  /** Such a thread parks when the control block still has something to send, closed session or not. */
  lemma ParksInFlight(m: Machine, t: nat, o: Obs)
    requires t < |m.threads| && MayPark(m.threads[t]) && o.waitsnd > 0
    ensures !Next(m, Choice(t, Check, o)).session.Silent()
  {
  }

  ghost predicate SilentForEver(m: Machine) {
    forall script :: Run(m, script).session.Silent()
  }

  /** A closed session on which nobody is parked stays so over every interleaving exactly if no thread
      stands between the two locks of poll_flush or poll_close. */
  lemma SilentForEverIffNoneInFlight(m: Machine)
    requires m.session.IsClosed() && m.session.Silent()
    ensures SilentForEver(m) <==> !InFlight(m)
  {
    if InFlight(m) {
      var t: nat :| t < |m.threads| && MayPark(m.threads[t]);
      var c := Choice(t, Check, Obs(0, 0, 0, false, 1, 0, 0, BrokenPipe));
      ParksInFlight(m, t, c.obs);
      OneStep(m, c);
      assert !Run(m, [c]).session.Silent();
    } else {
      forall script
        ensures Run(m, script).session.Silent()
      {
        RunKeepsSilent(m, script);
      }
    }
  }

  lemma OneStep(m: Machine, c: Choice)
    ensures Run(m, [c]) == Next(m, c)
  {
  }

  /** What a force_close of thread t has achieved so far, given that nobody was in flight when it set the flags. */
  ghost predicate Settling(m: Machine, t: nat) {
    && t < |m.threads|
    && m.session.IsClosed()
    && !InFlight(m)
    && (if Shutting(m.threads[t])
        then forall slot: Slot :: slot !in m.threads[t].rest ==> m.session.Waker(slot).None?
        else m.session.Silent())
  }

  lemma StepSettling(m: Machine, t: nat, c: Choice)
    requires Settling(m, t)
    ensures Settling(Next(m, c), t)
  {
    if c.thread < |m.threads| {
      var thread := m.threads[c.thread];
      var m' := Next(m, c);
      KeepsGrounded(m, c);
      StepLifecycle(m.session, thread, c.op, c.obs);
      assert !MayPark(thread);
      if !Shutting(m.threads[t]) {
        StepKeepsSilent(m, c);
      } else {
        forall slot: Slot | slot !in m.threads[t].rest
          ensures m'.session.Waker(slot).None?
        {
          StepKeepsEmpty(m.session, thread, c.op, c.obs, slot);
        }
        if c.thread == t {
          var rest := thread.rest;
          assert forall slot :: slot in rest ==> slot == rest[0] || slot in rest[1..];
          assert |rest| <= 1 ==> forall slot: Slot :: slot in rest ==> slot == rest[0];
          assert rest != [] ==> m'.session.Waker(rest[0]).None?;
          if |rest| <= 1 {
            assert forall slot: Slot :: m'.session.Waker(slot).None?;
            assert m'.session.Waker(SendSlot).None? && m'.session.Waker(RecvSlot).None?
                && m'.session.Waker(FlushSlot).None? && m'.session.Waker(CloseSlot).None?;
          }
        }
      }
    }
  }

  lemma {:induction false} RunSettling(m: Machine, t: nat, script: seq<Choice>)
    requires Settling(m, t)
    ensures Settling(Run(m, script), t)
    decreases |script|
  {
    if script != [] {
      StepSettling(m, t, script[0]);
      RunSettling(Next(m, script[0]), t, script[1..]);
    }
  }

  /** If nobody is in flight when a force_close sets the flags, then in every later state either it is
      still waking or all four slots are empty. */
  lemma ForceCloseSilences(m: Machine, setter: Choice, later: seq<Choice>)
    requires setter.thread < |m.threads| && m.threads[setter.thread] == Inside(ForceClose) && !InFlight(m)
    ensures var m' := Run(Next(m, setter), later);
            && m'.session.IsClosed()
            && setter.thread < |m'.threads|
            && (Shutting(m'.threads[setter.thread]) || m'.session.Silent())
  {
    var m1 := Next(m, setter);
    forall u: nat | u < |m1.threads|
      ensures !MayPark(m1.threads[u])
    {
      assert !MayPark(m.threads[u]);
    }
    forall slot: Slot
      ensures slot in WAKE_ORDER
    {
      match slot
      case SendSlot => assert WAKE_ORDER[0] == slot;
      case RecvSlot => assert WAKE_ORDER[1] == slot;
      case FlushSlot => assert WAKE_ORDER[2] == slot;
      case CloseSlot => assert WAKE_ORDER[3] == slot;
    }
    assert Settling(m1, setter.thread);
    RunSettling(m1, setter.thread, later);
  }

  lemma {:induction false} RunConcat(m: Machine, a: seq<Choice>, b: seq<Choice>)
    ensures Run(m, a + b) == Run(Run(m, a), b)
    decreases |a|
  {
    if a == [] {
      assert a + b == b;
    } else {
      assert (a + b)[1..] == a[1..] + b;
      RunConcat(Next(m, a[0]), a[1..], b);
    }
  }

  function Repeat(c: Choice, n: nat): (r: seq<Choice>)
    ensures |r| == n
  {
    if n == 0 then [] else [c] + Repeat(c, n - 1)
  }

  /** A waking thread that runs alone takes the slots it still has to take. */
  lemma {:induction false} WakingRun(m: Machine, c: Choice, rest: seq<Slot>)
    requires c.thread < |m.threads| && m.threads[c.thread] == Waking(ForceClose, rest) && rest != []
    ensures Run(m, Repeat(c, |rest|)) == Machine(m.session.WakeSlots(rest), m.threads[c.thread := Idle])
    decreases |rest|
  {
    assert Repeat(c, |rest|)[1..] == Repeat(c, |rest| - 1);
    if |rest| > 1 {
      WakingRun(Next(m, c), c, rest[1..]);
    } else {
      assert rest[1..] == [];
      assert m.session.WakeSlots(rest) == m.session.TryWake(rest[0]).WakeSlots([]);
    }
  }

  /** The schedule that defeats force_close: thread 0 passes the closed() check of poll_flush, thread 1
      force-closes from start to end, and only then thread 0 takes its second lock. */
  function RaceScript(o: Obs): seq<Choice> {
    var a, b := Choice(0, Flush, o), Choice(1, ForceClose, o);
    Repeat(a, 2) + ((Repeat(b, 2) + (Repeat(b, 1) + Repeat(b, 4))) + Repeat(a, 1))
  }

  lemma RepeatRun(m: Machine, c: Choice, n: nat)
    ensures n == 0 ==> Run(m, Repeat(c, n)) == m
    ensures n > 0 ==> Run(m, Repeat(c, n)) == Run(Next(m, c), Repeat(c, n - 1))
  {
  }

  /** An idle thread gets past the closed() check of an open session in two steps. */
  lemma EnterRun(m: Machine, c: Choice)
    requires c.thread < |m.threads| && m.threads[c.thread] == Idle && Start(c.op).Entering? && !m.session.IsClosed()
    ensures Run(m, Repeat(c, 2)) == Machine(m.session, m.threads[c.thread := Inside(c.op)])
  {
    var m1 := Machine(m.session, m.threads[c.thread := Entering(c.op)]);
    var m2 := Machine(m.session, m.threads[c.thread := Inside(c.op)]);
    assert Next(m, c) == m1;
    assert Next(m1, c).threads == m2.threads;
    RepeatRun(m, c, 2);
    RepeatRun(m1, c, 1);
    RepeatRun(m2, c, 0);
  }

  lemma ShutRun(m: Machine, c: Choice)
    requires c.thread < |m.threads| && m.threads[c.thread] == Inside(ForceClose)
    ensures Run(m, Repeat(c, 1)) == Machine(m.session.Shut(), m.threads[c.thread := Waking(ForceClose, WAKE_ORDER)])
  {
  }

  lemma ShutAndWakeRun(m: Machine, c: Choice)
    requires c.thread < |m.threads| && m.threads[c.thread] == Inside(ForceClose) && !m.session.IsClosed()
    ensures Run(m, Repeat(c, 1) + Repeat(c, 4)) == Machine(m.session.ForceClose(), m.threads[c.thread := Idle])
  {
    var m3 := Machine(m.session.Shut(), m.threads[c.thread := Waking(ForceClose, WAKE_ORDER)]);
    RunConcat(m, Repeat(c, 1), Repeat(c, 4));
    ShutRun(m, c);
    WakingRun(m3, c, WAKE_ORDER);
    assert m3.threads[c.thread := Idle] == m.threads[c.thread := Idle];
  }

  /** A force_close that runs alone on an open session. */
  lemma ForceCloseRun(m: Machine, c: Choice)
    requires c.thread < |m.threads| && m.threads[c.thread] == Idle && c.op == ForceClose && !m.session.IsClosed()
    ensures Run(m, Repeat(c, 2) + (Repeat(c, 1) + Repeat(c, 4))) == Machine(m.session.ForceClose(), m.threads)
  {
    var m2 := Machine(m.session, m.threads[c.thread := Inside(ForceClose)]);
    RunConcat(m, Repeat(c, 2), Repeat(c, 1) + Repeat(c, 4));
    EnterRun(m, c);
    ShutAndWakeRun(m2, c);
    assert m2.threads[c.thread := Idle] == m.threads;
  }

  /** On every open session with unacknowledged data the race leaves a flusher parked on a closed
      session with all threads idle again. */
  lemma RaceStrandsFlusher(s: State, o: Obs)
    requires !s.IsClosed() && o.waitsnd > 0
    ensures Run(Machine(s, [Idle, Idle]), RaceScript(o))
            == Machine(s.ForceClose().Park(FlushSlot, Some(o.task)), [Idle, Idle])
    ensures s.ForceClose().IsClosed()
  {
    WakeAllUnfolds(s.Shut());
    var a, b := Choice(0, Flush, o), Choice(1, ForceClose, o);
    var force := Repeat(b, 2) + (Repeat(b, 1) + Repeat(b, 4));
    var m0 := Machine(s, [Idle, Idle]);
    var m2 := Machine(s, [Inside(Flush), Idle]);
    var m9 := Machine(s.ForceClose(), [Inside(Flush), Idle]);
    RunConcat(m0, Repeat(a, 2), force + Repeat(a, 1));
    EnterRun(m0, a);
    assert m0.threads[0 := Inside(Flush)] == m2.threads;
    RunConcat(m2, force, Repeat(a, 1));
    ForceCloseRun(m2, b);
    RepeatRun(m9, a, 1);
    RepeatRun(Next(m9, a), a, 0);
    assert Next(m9, a).threads == [Idle, Idle];
  }

  // ---------------------------------------------------------------- Wakers are not dropped

  /** The slot a call parks on, if it is one that can. */
  function ParkSlot(op: Op): Option<Slot> {
    match op
    case Send => Some(SendSlot)
    case Recv => Some(RecvSlot)
    case Flush => Some(FlushSlot)
    case Close => Some(CloseSlot)
    case _ => None
  }

  /** In this step nobody but task polls a call that can park on slot. */
  predicate OnlyTask(m: Machine, c: Choice, slot: Slot, task: Task) {
    c.thread < |m.threads| && m.threads[c.thread].Inside? && ParkSlot(m.threads[c.thread].op) == Some(slot)
    ==> c.obs.task == task
  }

  ghost predicate OnlyTaskRun(m: Machine, script: seq<Choice>, slot: Slot, task: Task)
    decreases |script|
  {
    script != [] ==> OnlyTask(m, script[0], slot, task) && OnlyTaskRun(Next(m, script[0]), script[1..], slot, task)
  }

  /** The task is parked on the slot, or was woken after the first n wakes. */
  predicate Remembered(s: State, slot: Slot, task: Task, n: nat) {
    s.Waker(slot) == Some(task) || (n <= |s.wakes| && task in s.wakes[n..])
  }

  /** At most one task was woken, and the slot was emptied, if at all, by waking what was in it. */
  predicate Faithful(s: State, s': State, slot: Slot) {
    && (s'.wakes == s.wakes || (|s'.wakes| == |s.wakes| + 1 && s'.wakes[..|s.wakes|] == s.wakes))
    && (s'.Waker(slot) != s.Waker(slot) ==>
          s'.Waker(slot).None? && s.Waker(slot).Some? && s'.wakes == s.wakes + [s.Waker(slot).value])
  }

  lemma TryWakeFaithful(s: State, woken: Slot, slot: Slot)
    ensures Faithful(s, s.TryWake(woken), slot)
  {
  }

  /** Closing flags do not matter to faithfulness. */
  lemma UpdateFaithful(s: State, now: U32, slot: Slot)
    ensures Faithful(s, s.UpdateLocked(now).0, slot)
  {
    var r := s.(recvClosed := true);
    if s.closeWaker.Some? && s.Overdue(now, s.closeDelay) {
      TryWakeFaithful(s.Shut(), CloseSlot, slot);
    } else if s.recvWaker.Some? && s.Overdue(now, s.recvTimeout) {
      TryWakeFaithful(r, RecvSlot, slot);
    } else if s.sendWaker.Some? && s.Overdue(now, s.sendTimeout) {
      TryWakeFaithful(r, SendSlot, slot);
    } else {
      TryWakeFaithful(r, FlushSlot, slot);
    }
  }

  lemma InsideFaithful(s: State, op: Op, o: Obs, slot: Slot)
    ensures var s' := StepInside(s, op, o).0;
            || Faithful(s, s', slot)
            || (ParkSlot(op) == Some(slot) && s'.Waker(slot) == Some(o.task) && s'.wakes == s.wakes)
  {
    if op == Update { UpdateFaithful(s, o.now, slot); }
  }

  lemma StepFaithful(s: State, thread: Thread, op: Op, o: Obs, slot: Slot)
    ensures var s' := Step(s, thread, op, o).0;
            || Faithful(s, s', slot)
            || (thread.Inside? && ParkSlot(thread.op) == Some(slot)
                && s'.Waker(slot) == Some(o.task) && s'.wakes == s.wakes)
  {
    match thread
    case Inside(call) => InsideFaithful(s, call, o, slot);
    case Waking(_, rest) => if rest != [] { TryWakeFaithful(s, rest[0], slot); }
    case _ =>
  }

  lemma StepRemembers(m: Machine, c: Choice, slot: Slot, task: Task, n: nat)
    requires n <= |m.session.wakes| && Remembered(m.session, slot, task, n) && OnlyTask(m, c, slot, task)
    ensures n <= |Next(m, c).session.wakes| && Remembered(Next(m, c).session, slot, task, n)
  {
    if c.thread < |m.threads| {
      var s, s' := m.session, Next(m, c).session;
      StepFaithful(s, m.threads[c.thread], c.op, c.obs, slot);
      if task in s.wakes[n..] {
        var i :| n <= i < |s.wakes| && s.wakes[i] == task;
        assert s'.wakes[..|s.wakes|][i] == task;
        assert s'.wakes[n..][i - n] == task;
      } else if s'.Waker(slot) != Some(task) {
        assert s'.wakes[n..][|s.wakes| - n] == task;
      }
    }
  }

  /** Over every interleaving in which a slot is polled by one task only, a parked task is never
      forgotten: it is still parked there, or it was woken. */
  lemma {:induction false} ParkedTaskIsNeverForgotten(m: Machine, script: seq<Choice>, slot: Slot, task: Task, n: nat)
    requires n <= |m.session.wakes| && Remembered(m.session, slot, task, n) && OnlyTaskRun(m, script, slot, task)
    ensures Remembered(Run(m, script).session, slot, task, n)
    decreases |script|
  {
    if script != [] {
      StepRemembers(m, script[0], slot, task, n);
      ParkedTaskIsNeverForgotten(Next(m, script[0]), script[1..], slot, task, n);
    }
  }

  // ---------------------------------------------------------------- Nobody waits without a reason

  /** What makes a call wait on the slot: a full window, no data, something unacknowledged, or that and a
      peer that has not been quiet long enough. */
  predicate MustWait(s: State, slot: Slot, o: Obs) {
    match slot
    case SendSlot => !s.sendClosed && o.waitsnd >= o.window
    case RecvSlot => !s.recvClosed && o.peeksize < 0
    case FlushSlot => o.waitsnd > 0
    case CloseSlot => o.waitsnd > 0 || o.now < s.lastSend || o.now - s.lastSend < s.closeDelay
  }

  /** In this step task polls a call that must wait on the slot. */
  predicate ParksHere(m: Machine, c: Choice, slot: Slot, task: Task) {
    && c.thread < |m.threads| && m.threads[c.thread].Inside? && ParkSlot(m.threads[c.thread].op) == Some(slot)
    && c.obs.task == task && MustWait(m.session, slot, c.obs)
  }

  /** A step puts a task into a slot exactly if it is the locked part of a call that must wait there; any
      other step leaves the slot as it is or empties it. */
  lemma StepParksIff(s: State, thread: Thread, op: Op, o: Obs, slot: Slot)
    ensures var s' := Step(s, thread, op, o).0;
            if thread.Inside? && ParkSlot(thread.op) == Some(slot) && MustWait(s, slot, o)
            then s'.Waker(slot) == Some(o.task)
            else s'.Waker(slot) in {s.Waker(slot), None}
  {
    if thread == Inside(Update) {
      TryWakeWakes(s.Shut(), CloseSlot);
      var r := s.(recvClosed := true);
      TryWakeWakes(r, RecvSlot);
      TryWakeWakes(r, SendSlot);
      TryWakeWakes(r, FlushSlot);
    } else if thread.Waking? && thread.rest != [] {
      TryWakeWakes(s, thread.rest[0]);
    }
  }

  lemma RunLast(m: Machine, script: seq<Choice>)
    requires script != []
    ensures Run(m, script) == Next(Run(m, script[..|script| - 1]), script[|script| - 1])
  {
    var front, last := script[..|script| - 1], script[|script| - 1];
    assert script == front + [last];
    RunConcat(m, front, [last]);
    OneStep(Run(m, front), last);
  }

  /** The task has been in the slot since step k, in which it was parked. */
  ghost predicate ParkedSince(m: Machine, script: seq<Choice>, slot: Slot, task: Task, k: nat) {
    && k < |script|
    && ParksHere(Run(m, script[..k]), script[k], slot, task)
    && forall j :: k < j <= |script| ==> Run(m, script[..j]).session.Waker(slot) == Some(task)
  }

  /** Over every interleaving, who is in a slot at the end was there at the start or was parked by a step
      that had to wait, and has been there since: a sender only by a full window, a receiver only by a lack
      of data, a flusher only by unacknowledged data. */
  lemma {:induction false} ParkedForAReason(m: Machine, script: seq<Choice>, slot: Slot, task: Task)
    requires Run(m, script).session.Waker(slot) == Some(task)
    ensures m.session.Waker(slot) == Some(task) || exists k: nat :: ParkedSince(m, script, slot, task, k)
    decreases |script|
  {
    if script != [] {
      var front, last := script[..|script| - 1], script[|script| - 1];
      var before := Run(m, front);
      RunLast(m, script);
      assert script[..|script|] == script;
      if ParksHere(before, last, slot, task) {
        assert ParkedSince(m, script, slot, task, |front|);
      } else {
        if last.thread < |before.threads| {
          StepParksIff(before.session, before.threads[last.thread], last.op, last.obs, slot);
        }
        ParkedForAReason(m, front, slot, task);
        if k: nat :| ParkedSince(m, front, slot, task, k) {
          StillParked(m, script, slot, task, k);
        }
      }
    }
  }

  lemma StillParked(m: Machine, script: seq<Choice>, slot: Slot, task: Task, k: nat)
    requires script != [] && ParkedSince(m, script[..|script| - 1], slot, task, k)
    requires Run(m, script).session.Waker(slot) == Some(task)
    ensures ParkedSince(m, script, slot, task, k)
  {
    var front := script[..|script| - 1];
    assert front[..k] == script[..k];
    forall j | k < j <= |script|
      ensures Run(m, script[..j]).session.Waker(slot) == Some(task)
    {
      if j == |script| {
        assert script[..j] == script;
      } else {
        assert front[..j] == script[..j];
      }
    }
  }

  // ---------------------------------------------------------------- update that closes

  /** The guard of update's close branch. */
  predicate ClosesQuietly(s: State, now: U32) {
    s.closeWaker.Some? && s.Overdue(now, s.closeDelay)
  }

  /** A failed update followed by the poller's force_close empties all four slots exactly if the guard of
      the close branch is false or nobody but the closer is parked: that branch sets both flags and
      wakes the closer alone, and force_close then returns early. */
  lemma FailedUpdateSilencesIff(s: State, now: U32)
    requires Ordered(s) && !s.IsClosed() && !s.Update(now).1.Updated?
    ensures var s' := s.Update(now).0.ForceClose();
            && s'.IsClosed()
            && (s'.Silent() <==> !ClosesQuietly(s, now)
                                 || (s.sendWaker.None? && s.recvWaker.None? && s.flushWaker.None?))
            && (ClosesQuietly(s, now) ==>
                  s'.sendWaker == s.sendWaker && s'.recvWaker == s.recvWaker && s'.flushWaker == s.flushWaker
                  && s'.closeWaker.None? && s'.wakes == s.wakes + [s.closeWaker.value])
  {
    var u := s.Update(now).0;
    if !ClosesQuietly(s, now) {
      assert !u.sendClosed;
      InputAndForceCloseWakeEveryone(u, false, 0);
    }
  }

  // ---------------------------------------------------------------- What a closed session answers

  /** The calls of a script one after the other, each run to its end. */
  function Calls(s: State, script: seq<(Op, Obs)>): State {
    if script == [] then s else
      var (op, o) := script[|script| - 1];
      Atomic(Calls(s, script[..|script| - 1]), op, o)
  }

  lemma AtomicKeepsClosed(s: State, op: Op, o: Obs)
    ensures s.recvClosed ==> Atomic(s, op, o).recvClosed
    ensures s.IsClosed() && s.Silent() ==> Atomic(s, op, o).IsClosed() && Atomic(s, op, o).Silent()
  {
    match op
    case ForceClose => WakingKeepsCore(s.Shut(), WAKE_ORDER);
    case Input =>
      var s1 := s.InputLocked(o.accepted, o.now);
      WakingKeepsCore(s1, WAKE_ORDER);
      WakeAllUnfolds(s1);
    case WakeAll =>
      WakingKeepsCore(s, WAKE_ORDER);
      WakeAllUnfolds(s);
    case _ =>
  }

  lemma {:induction false} CallsKeepClosed(s: State, script: seq<(Op, Obs)>)
    ensures s.recvClosed ==> Calls(s, script).recvClosed
    ensures s.IsClosed() && s.Silent() ==> Calls(s, script).IsClosed() && Calls(s, script).Silent()
  {
    if script != [] {
      var front := script[..|script| - 1];
      var (op, o) := script[|script| - 1];
      CallsKeepClosed(s, front);
      AtomicKeepsClosed(Calls(s, front), op, o);
    }
  }

  /** After a force_close that found the session open, and any calls since, nobody is parked, and every
      further poll is answered at once: BrokenPipe, but Ok to a close. */
  lemma ClosedForGood(s: State, script: seq<(Op, Obs)>, o: Obs)
    requires !s.IsClosed()
    ensures var s' := Calls(s.ForceClose(), script);
            && s'.IsClosed() && s'.Silent()
            && s'.PollSend(o.task, o.waitsnd, o.window, o.done).1 == Ready(BrokenPipe)
            && s'.PollRecv(o.task, o.peeksize, o.now, o.done).1 == Ready(BrokenPipe)
            && s'.PollFlush(o.task, o.waitsnd).1 == Ready(BrokenPipe)
            && s'.PollClose(o.task, o.waitsnd, o.now).1 == Ready(Ok(0))
  {
    InputAndForceCloseWakeEveryone(s, false, 0);
    CallsKeepClosed(s.ForceClose(), script);
  }

  /** The call takes what is in the slot of a closed session. */
  predicate WakesClosed(op: Op, slot: Slot) {
    op.Input? || op.WakeAll? || op == WakeOne(slot)
  }

  lemma ClosedSlotChanges(s: State, op: Op, o: Obs, slot: Slot)
    requires s.IsClosed()
    ensures var s' := Atomic(s, op, o);
            s'.IsClosed() && s'.Waker(slot) == if WakesClosed(op, slot) then None else s.Waker(slot)
  {
    match op
    case Input => WakeAllUnfolds(s.InputLocked(o.accepted, o.now));
    case WakeAll => WakeAllUnfolds(s);
    case _ =>
  }

  /** A task that is parked on a closed session stays parked exactly until somebody calls poll_input or
      wakes the slot: no other call frees it, and none parks anybody there again. */
  lemma {:induction false} StrandedUntilWoken(s: State, script: seq<(Op, Obs)>, slot: Slot)
    requires s.IsClosed()
    ensures Calls(s, script).IsClosed()
    ensures Calls(s, script).Waker(slot)
            == if exists i :: 0 <= i < |script| && WakesClosed(script[i].0, slot) then None else s.Waker(slot)
  {
    if script != [] {
      var front, last := script[..|script| - 1], script[|script| - 1];
      StrandedUntilWoken(s, front, slot);
      ClosedSlotChanges(Calls(s, front), last.0, last.1, slot);
      assert forall i :: 0 <= i < |front| ==> script[i] == front[i];
    }
  }

  /** A rejected packet ends the stream: from then on, whatever else is called, no receive waits or gets data. */
  lemma RejectedInputEndsStream(s: State, now: U32, script: seq<(Op, Obs)>, o: Obs)
    ensures var s' := Calls(s.PollInput(false, now), script);
            && s'.recvClosed
            && s'.PollRecv(o.task, o.peeksize, o.now, o.done).1 in {Ready(UnexpectedEof), Ready(BrokenPipe)}
  {
    InputClosesIffRejected(s, false, now);
    CallsKeepClosed(s.PollInput(false, now), script);
  }

  /** Once a receive has met the end of the stream no later one gets data or waits. */
  lemma EndOfStreamIsFinal(s: State, eof: Obs, script: seq<(Op, Obs)>, o: Obs)
    requires s.PollRecv(eof.task, eof.peeksize, eof.now, eof.done).1 == Ready(UnexpectedEof)
    requires eof.done != UnexpectedEof
    ensures Calls(s, script).PollRecv(o.task, o.peeksize, o.now, o.done).1 in {Ready(UnexpectedEof), Ready(BrokenPipe)}
  {
    CallsKeepClosed(s, script);
  }
}
