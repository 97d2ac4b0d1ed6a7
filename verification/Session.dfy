/** One KCP session: the state behind the mutex, one function for each critical section, and the
    calls that are built from them. Whatever the C control block answers is an argument. */
module Session {
  import opened Prelude

  datatype Slot = SendSlot | RecvSlot | FlushSlot | CloseSlot

  /** The order in which try_wake_all visits the slots, one lock acquisition each. */
  const WAKE_ORDER := [SendSlot, RecvSlot, FlushSlot, CloseSlot]

  datatype UpdateResult = Updated | Closed | ReadTimeout(elapsed: U32) | WriteTimeout(elapsed: U32)

  datatype State = State(
    lastSend: U32,
    lastRecv: U32,
    sendClosed: bool,
    recvClosed: bool,
    lastUpdate: U32,
    closeDelay: U32,
    recvTimeout: U32,
    sendTimeout: U32,
    nextUpdate: U32,
    closeFlag: U32,
    clsckInc: U32,
    recvWaker: Option<Task>,
    sendWaker: Option<Task>,
    closeWaker: Option<Task>,
    flushWaker: Option<Task>,
    wakes: seq<Task>)  // every wake() so far, oldest first
  {
    predicate IsClosed() {
      recvClosed && sendClosed
    }

    function Waker(slot: Slot): Option<Task> {
      match slot
      case SendSlot => sendWaker
      case RecvSlot => recvWaker
      case FlushSlot => flushWaker
      case CloseSlot => closeWaker
    }

    function Park(slot: Slot, waker: Option<Task>): State {
      match slot
      case SendSlot => this.(sendWaker := waker)
      case RecvSlot => this.(recvWaker := waker)
      case FlushSlot => this.(flushWaker := waker)
      case CloseSlot => this.(closeWaker := waker)
    }

    /** No task is parked on the session. */
    predicate Silent() {
      sendWaker.None? && recvWaker.None? && flushWaker.None? && closeWaker.None?
    }

    /** take() a slot and wake what was in it. */
    function TryWake(slot: Slot): State {
      match Waker(slot)
      case None => this
      case Some(task) => Park(slot, None).(wakes := wakes + [task])
    }

    function WakeSlots(slots: seq<Slot>): State
      decreases |slots|
    {
      if slots == [] then this else TryWake(slots[0]).WakeSlots(slots[1..])
    }

    function WakeAll(): State {
      WakeSlots(WAKE_ORDER)
    }

    function Shut(): State {
      this.(sendClosed := true, recvClosed := true)
    }

    /** The locked part of check; inner is what ikcp_check answered. */
    function Check(inner: U32): State {
      this.(nextUpdate := inner, clsckInc := if closeFlag == 1 then WrapAdd(clsckInc, 10) else clsckInc)
    }

    function NextCheck(): U32 {
      WrapAdd(nextUpdate, clsckInc)
    }

    /** Whether now reads later than the last accepted input by more than limit, as overflowing_sub sees it. */
    predicate Overdue(now: U32, limit: U32) {
      lastSend <= now && now - lastSend > limit
    }

    /** The locked part of update. */
    function UpdateLocked(now: U32): (State, UpdateResult) {
      if closeWaker.Some? && Overdue(now, closeDelay) then
        (Shut().TryWake(CloseSlot), Closed)
      else if recvWaker.Some? && Overdue(now, recvTimeout) then
        (this.(recvClosed := true).TryWake(RecvSlot), ReadTimeout(now - lastSend))
      else if sendWaker.Some? && Overdue(now, sendTimeout) then
        (this.(recvClosed := true).TryWake(SendSlot), WriteTimeout(now - lastSend))
      else if flushWaker.Some? && Overdue(now, sendTimeout) then
        (this.(recvClosed := true).TryWake(FlushSlot), WriteTimeout(now - lastSend))
      else
        (this, Updated)
    }

    /** The locked part of poll_input; accepted says whether ikcp_input took the packet. */
    function InputLocked(accepted: bool, now: U32): State {
      if accepted then this.(clsckInc := 0, lastUpdate := 0, lastSend := now) else this.(recvClosed := true)
    }

    /** The locked part of poll_send; sent is what ikcp_send would answer. */
    function SendLocked(task: Task, waitsnd: U32, window: U32, sent: Io<nat>): (State, Poll<Io<nat>>) {
      if sendClosed then (this, Ready(BrokenPipe))
      else if waitsnd >= window then (Park(SendSlot, Some(task)), Pending)
      else (this, Ready(sent))
    }

    /** The first locked part of poll_recv; got is what ikcp_recv would answer. */
    function RecvLocked(task: Task, peeksize: int, now: U32, got: Io<nat>): (State, Poll<Io<nat>>) {
      if recvClosed then (this, Ready(UnexpectedEof))
      else if peeksize < 0 then (Park(RecvSlot, Some(task)), Pending)
      else (this.(lastRecv := now), Ready(got))
    }

    /** The locked part of poll_flush: the flags are not looked at again. */
    function FlushLocked(task: Task, waitsnd: U32): (State, Poll<Io<nat>>) {
      if waitsnd > 0 then (Park(FlushSlot, Some(task)), Pending) else (this, Ready(Ok(0)))
    }

    /** The locked part of poll_close: the flags are not looked at again. */
    function CloseLocked(task: Task, waitsnd: U32, now: U32): (State, Poll<Io<nat>>) {
      if waitsnd > 0 || now < lastSend || now - lastSend < closeDelay then
        (Park(CloseSlot, Some(task)).(closeFlag := 1), Pending)
      else
        (this, Ready(Ok(0)))
    }

    // The calls, each run without interference.

    function ForceClose(): State {
      if IsClosed() then this else Shut().WakeAll()
    }

    function Updatable(inner: U32): (State, bool) {
      if IsClosed() then (this, true) else (Check(inner), lastUpdate <= Check(inner).NextCheck())
    }

    function Update(now: U32): (State, UpdateResult) {
      if IsClosed() then (this, Closed) else UpdateLocked(now)
    }

    function PollInput(accepted: bool, now: U32): State {
      InputLocked(accepted, now).WakeAll()
    }

    function PollSend(task: Task, waitsnd: U32, window: U32, sent: Io<nat>): (State, Poll<Io<nat>>) {
      if IsClosed() then (this, Ready(BrokenPipe)) else SendLocked(task, waitsnd, window, sent)
    }

    function PollRecv(task: Task, peeksize: int, now: U32, got: Io<nat>): (State, Poll<Io<nat>>) {
      if IsClosed() then (this, Ready(BrokenPipe)) else
        var (s, poll) := RecvLocked(task, peeksize, now, got);
        (s.TryWake(SendSlot), poll)
    }

    function PollFlush(task: Task, waitsnd: U32): (State, Poll<Io<nat>>) {
      if IsClosed() then (this, Ready(BrokenPipe)) else FlushLocked(task, waitsnd)
    }

    function PollClose(task: Task, waitsnd: U32, now: U32): (State, Poll<Io<nat>>) {
      if IsClosed() then (this, Ready(Ok(0))) else CloseLocked(task, waitsnd, now)
    }
  }

  /** The session that SafeKcp::wrap builds. */
  function Fresh(now: U32, timeout: U32, closeDelay: U32): State {
    State(now, now, false, false, now, closeDelay, timeout, timeout, now, 0, 0, None, None, None, None, [])
  }

  /** The session object that tasks share; every method is one call run to its end. */
  class SafeKcp {
    var lastSend: U32
    var lastRecv: U32
    var sendClosed: bool
    var recvClosed: bool
    var lastUpdate: U32
    var closeDelay: U32
    var recvTimeout: U32
    var sendTimeout: U32
    var nextUpdate: U32
    var closeFlag: U32
    var clsckInc: U32
    var recvWaker: Option<Task>
    var sendWaker: Option<Task>
    var closeWaker: Option<Task>
    var flushWaker: Option<Task>
    var wakes: seq<Task>

    function Snapshot(): State
      reads this
    {
      State(lastSend, lastRecv, sendClosed, recvClosed, lastUpdate, closeDelay, recvTimeout, sendTimeout,
            nextUpdate, closeFlag, clsckInc, recvWaker, sendWaker, closeWaker, flushWaker, wakes)
    }

    constructor Wrap(now: U32, timeout: U32, delay: U32)
      ensures Snapshot() == Fresh(now, timeout, delay)
    {
      lastSend, lastRecv, lastUpdate, nextUpdate := now, now, now, now;
      sendClosed, recvClosed := false, false;
      closeDelay, recvTimeout, sendTimeout := delay, timeout, timeout;
      closeFlag, clsckInc := 0, 0;
      recvWaker, sendWaker, closeWaker, flushWaker := None, None, None, None;
      wakes := [];
    }

    method TryWakeSend()
      modifies this
      ensures Snapshot() == old(Snapshot()).TryWake(SendSlot)
    {
      if sendWaker.Some? {
        wakes := wakes + [sendWaker.value];
        sendWaker := None;
      }
    }

    method TryWakeRecv()
      modifies this
      ensures Snapshot() == old(Snapshot()).TryWake(RecvSlot)
    {
      if recvWaker.Some? {
        wakes := wakes + [recvWaker.value];
        recvWaker := None;
      }
    }

    method TryWakeFlush()
      modifies this
      ensures Snapshot() == old(Snapshot()).TryWake(FlushSlot)
    {
      if flushWaker.Some? {
        wakes := wakes + [flushWaker.value];
        flushWaker := None;
      }
    }

    method TryWakeClose()
      modifies this
      ensures Snapshot() == old(Snapshot()).TryWake(CloseSlot)
    {
      if closeWaker.Some? {
        wakes := wakes + [closeWaker.value];
        closeWaker := None;
      }
    }

    method TryWakeAll()
      modifies this
      ensures Snapshot() == old(Snapshot()).WakeAll()
    {
      WakeAllUnfolds(Snapshot());
      TryWakeSend();
      TryWakeRecv();
      TryWakeFlush();
      TryWakeClose();
    }

    method Check(inner: U32) returns (next: U32)
      modifies this
      ensures Snapshot() == old(Snapshot()).Check(inner)
      ensures next == Snapshot().NextCheck()
    {
      nextUpdate := inner;
      if closeFlag == 1 {
        clsckInc := WrapAdd(clsckInc, 10);
      }
      next := WrapAdd(nextUpdate, clsckInc);
    }

    method Updatable(inner: U32) returns (r: bool)
      modifies this
      ensures (Snapshot(), r) == old(Snapshot()).Updatable(inner)
    {
      if recvClosed && sendClosed {
        r := true;
      } else {
        var next := Check(inner);
        r := lastUpdate <= next;
      }
    }

    method ForceClose()
      modifies this
      ensures Snapshot() == old(Snapshot()).ForceClose()
    {
      if recvClosed && sendClosed {
        return;
      }
      sendClosed := true;
      recvClosed := true;
      TryWakeAll();
    }

    method Update(now: U32) returns (r: UpdateResult)
      modifies this
      ensures (Snapshot(), r) == old(Snapshot()).Update(now)
    {
      if recvClosed && sendClosed {
        return Closed;
      }
      var diff, overflow := WrapSub(now, lastSend), now < lastSend;
      if !overflow {
        if closeWaker.Some? && diff > closeDelay {
          recvClosed := true;
          sendClosed := true;
          TryWakeClose();
          return Closed;
        }
        if recvWaker.Some? && diff > recvTimeout {
          recvClosed := true;
          TryWakeRecv();
          return ReadTimeout(diff);
        }
        if sendWaker.Some? && diff > sendTimeout {
          recvClosed := true;
          TryWakeSend();
          return WriteTimeout(diff);
        }
        if flushWaker.Some? && diff > sendTimeout {
          recvClosed := true;
          TryWakeFlush();
          return WriteTimeout(diff);
        }
      }
      r := Updated;
    }

    method PollInput(accepted: bool, now: U32)
      modifies this
      ensures Snapshot() == old(Snapshot()).PollInput(accepted, now)
    {
      if accepted {
        clsckInc := 0;
        lastUpdate := 0;
        lastSend := now;
      } else {
        recvClosed := true;
      }
      TryWakeAll();
    }

    method PollSend(task: Task, waitsnd: U32, window: U32, sent: Io<nat>) returns (poll: Poll<Io<nat>>)
      modifies this
      ensures (Snapshot(), poll) == old(Snapshot()).PollSend(task, waitsnd, window, sent)
    {
      if recvClosed && sendClosed {
        return Ready(BrokenPipe);
      }
      if sendClosed {
        poll := Ready(BrokenPipe);
      } else if waitsnd >= window {
        sendWaker := Some(task);
        poll := Pending;
      } else {
        poll := Ready(sent);
      }
    }

    method PollRecv(task: Task, peeksize: int, now: U32, got: Io<nat>) returns (poll: Poll<Io<nat>>)
      modifies this
      ensures (Snapshot(), poll) == old(Snapshot()).PollRecv(task, peeksize, now, got)
    {
      if recvClosed && sendClosed {
        return Ready(BrokenPipe);
      }
      if recvClosed {
        poll := Ready(UnexpectedEof);
      } else if peeksize < 0 {
        recvWaker := Some(task);
        poll := Pending;
      } else {
        lastRecv := now;
        poll := Ready(got);
      }
      TryWakeSend();
    }

    method PollFlush(task: Task, waitsnd: U32) returns (poll: Poll<Io<nat>>)
      modifies this
      ensures (Snapshot(), poll) == old(Snapshot()).PollFlush(task, waitsnd)
    {
      if recvClosed && sendClosed {
        return Ready(BrokenPipe);
      }
      if waitsnd > 0 {
        flushWaker := Some(task);
        poll := Pending;
      } else {
        poll := Ready(Ok(0));
      }
    }

    method PollClose(task: Task, waitsnd: U32, now: U32) returns (poll: Poll<Io<nat>>)
      modifies this
      ensures (Snapshot(), poll) == old(Snapshot()).PollClose(task, waitsnd, now)
    {
      if recvClosed && sendClosed {
        return Ready(Ok(0));
      }
      var diff, overflow := WrapSub(now, lastSend), now < lastSend;
      if waitsnd > 0 || overflow || diff < closeDelay {
        closeFlag := 1;
        closeWaker := Some(task);
        poll := Pending;
      } else {
        poll := Ready(Ok(0));
      }
    }
  }

  /** try_wake_all is its four slots taken one after the other. */
  lemma WakeAllUnfolds(s: State)
    ensures s.WakeAll() == s.TryWake(SendSlot).TryWake(RecvSlot).TryWake(FlushSlot).TryWake(CloseSlot)
  {
  }

  /** The session without its parked tasks and past wakes. */
  function Core(s: State): State {
    s.(recvWaker := None, sendWaker := None, closeWaker := None, flushWaker := None, wakes := [])
  }

  /** Waking touches nothing but the slots and the wakes. */
  lemma {:induction false} WakingKeepsCore(s: State, slots: seq<Slot>)
    ensures Core(s.WakeSlots(slots)) == Core(s)
    decreases |slots|
  {
    if slots != [] {
      WakingKeepsCore(s.TryWake(slots[0]), slots[1..]);
    }
  }

  /** update touches nothing but the flags, the slots and the wakes, and keeps the flags' order. */
  lemma UpdateKeepsCore(s: State, now: U32)
    ensures var s' := s.UpdateLocked(now).0;
            && Core(s') == Core(s).(sendClosed := s'.sendClosed, recvClosed := s'.recvClosed)
            && (s'.sendClosed ==> s'.recvClosed || s.sendClosed)
            && (s.recvClosed ==> s'.recvClosed)
  {
    var r := s.(recvClosed := true);
    TryWakeKeepsCore(s.Shut(), CloseSlot);
    TryWakeKeepsCore(r, RecvSlot);
    TryWakeKeepsCore(r, SendSlot);
    TryWakeKeepsCore(r, FlushSlot);
  }

  lemma TryWakeKeepsCore(s: State, slot: Slot)
    ensures Core(s.TryWake(slot)) == Core(s)
  {
  }

  function Occupant(waker: Option<Task>): seq<Task> {
    if waker.Some? then [waker.value] else []
  }

  /** The parked tasks in the order in which try_wake_all comes to them. */
  function Parked(s: State): seq<Task> {
    Occupant(s.sendWaker) + Occupant(s.recvWaker) + Occupant(s.flushWaker) + Occupant(s.closeWaker)
  }

  lemma TryWakeWakes(s: State, slot: Slot)
    ensures var s' := s.TryWake(slot);
            && s'.wakes == s.wakes + Occupant(s.Waker(slot))
            && forall other: Slot :: s'.Waker(other) == if other == slot then None else s.Waker(other)
  {
  }

  /** try_wake_all wakes every parked task once, leaves nobody parked, and changes nothing else. */
  lemma WakeAllWakesEveryone(s: State)
    ensures s.WakeAll().Silent() && s.WakeAll().wakes == s.wakes + Parked(s) && Core(s.WakeAll()) == Core(s)
  {
    WakeAllUnfolds(s);
    WakingKeepsCore(s, WAKE_ORDER);
    var s1 := s.TryWake(SendSlot);
    var s2 := s1.TryWake(RecvSlot);
    var s3 := s2.TryWake(FlushSlot);
    TryWakeWakes(s, SendSlot);
    TryWakeWakes(s1, RecvSlot);
    TryWakeWakes(s2, FlushSlot);
    TryWakeWakes(s3, CloseSlot);
    FourWakes(s, s1, s2, s3, s3.TryWake(CloseSlot));
  }

  lemma FourWakes(s: State, s1: State, s2: State, s3: State, s4: State)
    requires s1.wakes == s.wakes + Occupant(s.sendWaker)
    requires s2.wakes == s1.wakes + Occupant(s.recvWaker)
    requires s3.wakes == s2.wakes + Occupant(s.flushWaker)
    requires s4.wakes == s3.wakes + Occupant(s.closeWaker)
    ensures s4.wakes == s.wakes + Parked(s)
  {
  }

  /** An input, accepted or not, wakes everyone; so does a force_close, if it finds the session open. */
  lemma InputAndForceCloseWakeEveryone(s: State, accepted: bool, now: U32)
    ensures var i := s.PollInput(accepted, now); i.Silent() && i.wakes == s.wakes + Parked(s)
    ensures var f := s.ForceClose();
            f.IsClosed() && if s.IsClosed() then f == s else f.Silent() && f.wakes == s.wakes + Parked(s)
  {
    WakeAllWakesEveryone(s.InputLocked(accepted, now));
    WakeAllWakesEveryone(s.Shut());
  }

  /** A receive on an open session leaves no sender parked: the one that was has been woken. */
  lemma RecvWakesSender(s: State, task: Task, peeksize: int, now: U32, got: Io<nat>)
    requires !s.IsClosed()
    ensures var s' := s.PollRecv(task, peeksize, now, got).0;
            s'.sendWaker.None? && s'.wakes == s.wakes + Occupant(s.sendWaker)
  {
  }

  // ---------------------------------------------------------------- What a call answers, and when it waits

  /** A session that was just made: it is open and nobody waits; no packet ever came, so all its clocks are
      the reading of its creation and no update fails at that time; a send or a receive goes by the library. */
  lemma FreshIsOpen(now: U32, timeout: U32, closeDelay: U32, task: Task, waitsnd: U32, window: U32, sent: Io<nat>)
    ensures var s := Fresh(now, timeout, closeDelay);
            && !s.sendClosed && !s.recvClosed && s.Silent() && s.wakes == []
            && s.lastSend == s.lastRecv == s.lastUpdate == s.nextUpdate == now
            && s.closeFlag == s.clsckInc == 0
            && s.closeDelay == closeDelay && s.recvTimeout == s.sendTimeout == timeout
            && s.Update(now) == (s, Updated)
            && (waitsnd < window ==> s.PollSend(task, waitsnd, window, sent) == (s, Ready(sent)))
  {
  }

  /** The session but for who is parked on the slot. */
  function Except(s: State, slot: Slot): State {
    s.Park(slot, None)
  }

  /** A send waits exactly if the window is full, as long as sending is not closed; then its task is in the
      send slot. Otherwise the library's answer is passed on. In either case nothing else changes. */
  lemma SendWaitsIffFull(s: State, task: Task, waitsnd: U32, window: U32, sent: Io<nat>)
    ensures var (s', poll) := s.PollSend(task, waitsnd, window, sent);
            && (poll.Pending? <==> !s.sendClosed && waitsnd >= window)
            && (poll.Pending? ==> s'.sendWaker == Some(task) && Except(s', SendSlot) == Except(s, SendSlot))
            && (poll.Ready? ==> poll.value == (if s.sendClosed then BrokenPipe else sent) && s' == s)
  {
  }

  /** On an open session a receive waits exactly if receiving is not closed and there is no data; then its
      task is in the receive slot. With data it is the library's answer, and with receiving closed the end
      of the stream; the slot stays as it was. Only the sender is woken. */
  lemma RecvWaitsIffNoData(s: State, task: Task, peeksize: int, now: U32, got: Io<nat>)
    requires !s.IsClosed()
    ensures var (s', poll) := s.PollRecv(task, peeksize, now, got);
            && (poll.Pending? <==> !s.recvClosed && peeksize < 0)
            && (poll.Ready? ==> poll.value == if s.recvClosed then UnexpectedEof else got)
            && (got != UnexpectedEof ==> (poll == Ready(UnexpectedEof) <==> s.recvClosed))
            && s'.recvWaker == (if poll.Pending? then Some(task) else s.recvWaker)
            && s'.lastRecv == (if poll.Ready? && !s.recvClosed then now else s.lastRecv)
            && s'.flushWaker == s.flushWaker && s'.closeWaker == s.closeWaker
            && Core(s') == Core(s).(lastRecv := s'.lastRecv)
  {
  }

  /** On an open session a flush waits exactly if something is unacknowledged, whatever the flags say. */
  lemma FlushWaitsIffUnsent(s: State, task: Task, waitsnd: U32)
    requires !s.IsClosed()
    ensures var (s', poll) := s.PollFlush(task, waitsnd);
            && (poll.Pending? <==> waitsnd > 0)
            && (poll.Pending? ==> s'.flushWaker == Some(task) && Except(s', FlushSlot) == Except(s, FlushSlot))
            && (poll.Ready? ==> poll == Ready(Ok(0)) && s' == s)
  {
  }

  /** What an input changes besides waking everyone: a rejected packet closes receiving, and nothing else;
      an accepted one resets the back-off and both clocks, and closes nothing. */
  lemma InputClosesIffRejected(s: State, accepted: bool, now: U32)
    ensures var s' := s.PollInput(accepted, now);
            && (s'.recvClosed <==> s.recvClosed || !accepted)
            && s'.sendClosed == s.sendClosed
            && Core(s') == if accepted then Core(s).(clsckInc := 0, lastUpdate := 0, lastSend := now)
                           else Core(s).(recvClosed := true)
  {
    WakingKeepsCore(s.InputLocked(accepted, now), WAKE_ORDER);
  }

  /** Which slot an update takes when it fails with this result. */
  function TimedOutSlot(s: State, result: UpdateResult): Slot
    requires !result.Updated?
  {
    match result
    case Closed => CloseSlot
    case ReadTimeout(_) => RecvSlot
    case WriteTimeout(_) => if s.sendWaker.Some? then SendSlot else FlushSlot
  }

  /** An update of an open session that fails wakes exactly one task, the one it fails because of: the
      closer, the receiver, or the sender before the flusher. It closes receiving, and sending as well only
      for the closer. An update that succeeds changes nothing. */
  lemma UpdateWakesOne(s: State, now: U32)
    requires !s.IsClosed()
    ensures var (s', result) := s.Update(now);
            if result.Updated? then s' == s else
              var slot := TimedOutSlot(s, result);
              && s.Waker(slot).Some? && s'.wakes == s.wakes + [s.Waker(slot).value]
              && (forall other: Slot :: s'.Waker(other) == if other == slot then None else s.Waker(other))
              && s'.recvClosed && s'.sendClosed == (s.sendClosed || result.Closed?)
              && (result.ReadTimeout? || result.WriteTimeout? ==> result.elapsed == WrapSub(now, s.lastSend))
  {
    UpdateKeepsCore(s, now);
    TryWakeWakes(s.Shut(), CloseSlot);
    var r := s.(recvClosed := true);
    TryWakeWakes(r, RecvSlot);
    TryWakeWakes(r, SendSlot);
    TryWakeWakes(r, FlushSlot);
  }

  /** A session is closed after one force_close, and a second one does nothing. */
  lemma ForceCloseOnce(s: State)
    ensures s.ForceClose().IsClosed() && s.ForceClose().ForceClose() == s.ForceClose()
  {
  }
}
