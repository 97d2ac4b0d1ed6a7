/** Timeouts against true time. The clocks of a session are 32-bit readings that wrap every 49.7
    days; true time is a nat. */
module Timeouts {
  import opened Prelude
  import opened Session
  import opened Interleaving
  import opened Poller
  import opened Turns

  const NO_OBS := Obs(0, 0, 0, true, 0, 0, -1, BrokenPipe)

  /** One atomic call at a true time. */
  datatype Event = Event(time: nat, op: Op, obs: Obs)

  /** A session, the true time of its creation or last accepted input, the latest true time so far, and
      whether it ever accepted an input. */
  datatype Timed = Timed(session: State, quietSince: nat, clock: nat, heard: bool)

  function Create(time: nat, timeout: U32, closeDelay: U32): Timed {
    Timed(Fresh(Reading(time), timeout, closeDelay), time, time, false)
  }

  /** What a call sees. Every call reads the clock itself, except that update is handed a reading, which
      the poller took earlier, perhaps before other calls. */
  function Seen(e: Event): Obs {
    if e.op == Update then e.obs else e.obs.(now := Reading(e.time))
  }

  function Apply(w: Timed, e: Event): Timed {
    Timed(Atomic(w.session, e.op, Seen(e)),
          if e.op == Input && e.obs.accepted then e.time else w.quietSince,
          e.time,
          w.heard || (e.op == Input && e.obs.accepted))
  }

  function History(w: Timed, events: seq<Event>): Timed
    decreases |events|
  {
    if events == [] then w else History(Apply(w, events[0]), events[1..])
  }

  /** True time never goes back. */
  predicate Monotone(from: nat, events: seq<Event>)
    decreases |events|
  {
    events != [] ==> from <= events[0].time && Monotone(events[0].time, events[1..])
  }

  /** What every reachable session keeps: the configuration, the reading of the last accepted input,
      and a last_update that is the creation reading until the first input and 0 ever after. */
  predicate Dated(w: Timed, created: U32, timeout: U32, closeDelay: U32) {
    && w.quietSince <= w.clock
    && w.session.lastSend == Reading(w.quietSince)
    && w.session.closeDelay == closeDelay
    && w.session.recvTimeout == timeout
    && w.session.sendTimeout == timeout
    && w.session.lastUpdate == (if w.heard then 0 else created)
    && Ordered(w.session)
  }

  lemma ApplyDated(w: Timed, e: Event, created: U32, timeout: U32, closeDelay: U32)
    requires Dated(w, created, timeout, closeDelay) && w.clock <= e.time
    ensures Dated(Apply(w, e), created, timeout, closeDelay)
  {
    var s, now := w.session, Seen(e).now;
    match e.op
    case ForceClose => WakingKeepsCore(s.Shut(), WAKE_ORDER);
    case Input => WakingKeepsCore(s.InputLocked(e.obs.accepted, now), WAKE_ORDER);
    case WakeAll => WakingKeepsCore(s, WAKE_ORDER);
    case Update => UpdateKeepsCore(s, now);
    case _ =>
  }

  lemma {:induction false} HistoryDated(w: Timed, events: seq<Event>, created: U32, timeout: U32, closeDelay: U32)
    requires Dated(w, created, timeout, closeDelay) && Monotone(w.clock, events)
    ensures Dated(History(w, events), created, timeout, closeDelay)
    decreases |events|
  {
    if events != [] {
      ApplyDated(w, events[0], created, timeout, closeDelay);
      HistoryDated(Apply(w, events[0]), events[1..], created, timeout, closeDelay);
    }
  }

  /** Exactly when the wrapped comparison fires: the reading has not fallen behind the last input's
      reading, and the elapsed time modulo the period exceeds the limit. */
  lemma OverdueExactly(s: State, quietSince: nat, time: nat, limit: U32)
    requires s.lastSend == Reading(quietSince) && quietSince <= time
    ensures s.Overdue(Reading(time), limit)
            <==> Reading(quietSince) <= Reading(time) && (time - quietSince) % TWO_TO_THE_32 > limit
    ensures s.Overdue(Reading(time), limit) ==> time - quietSince > limit
    ensures Reading(quietSince) <= Reading(time) ==>
              Reading(time) - Reading(quietSince) == (time - quietSince) % TWO_TO_THE_32
  {
  }

  /** Whatever calls came before, across any number of clock wraps: exactly when an update of an open
      session reports a timeout, and exactly when poll_close succeeds. It needs a parked task, a clock
      reading that has not fallen behind, and a quiet time that exceeds the limit modulo the period. */
  lemma TimeoutsExactly(created: nat, timeout: U32, closeDelay: U32, events: seq<Event>, time: nat,
                        task: Task, waitsnd: U32)
    requires Monotone(created, events) && History(Create(created, timeout, closeDelay), events).clock <= time
    ensures var w := History(Create(created, timeout, closeDelay), events);
            var (s, quiet, result) := (w.session, time - w.quietSince, w.session.Update(Reading(time)).1);
            var ahead := Reading(w.quietSince) <= Reading(time);
            var late := quiet % TWO_TO_THE_32;
            !s.IsClosed() ==>
              && (result.Closed? <==> ahead && s.closeWaker.Some? && late > closeDelay)
              && (result.ReadTimeout? <==> ahead && s.recvWaker.Some? && late > timeout && !result.Closed?)
              && (result.WriteTimeout? <==> ahead && (s.sendWaker.Some? || s.flushWaker.Some?) && late > timeout
                                            && !result.Closed? && !result.ReadTimeout?)
              && (result.ReadTimeout? || result.WriteTimeout? ==> result.elapsed == late)
              && (s.PollClose(task, waitsnd, Reading(time)).1.Ready? <==> ahead && waitsnd == 0 && late >= closeDelay)
  {
    var start := Create(created, timeout, closeDelay);
    var w := History(start, events);
    HistoryDated(start, events, Reading(created), timeout, closeDelay);
    OverdueExactly(w.session, w.quietSince, time, closeDelay);
    OverdueExactly(w.session, w.quietSince, time, timeout);
  }

  /** So no timeout is ever early: update fails only if truly more than the limit has passed since the
      creation or the last accepted input, and poll_close succeeds only with nothing left to send after
      a true quiet time of close_delay. */
  lemma NoEarlyTimeout(created: nat, timeout: U32, closeDelay: U32, events: seq<Event>, time: nat,
                       task: Task, waitsnd: U32)
    requires Monotone(created, events) && History(Create(created, timeout, closeDelay), events).clock <= time
    ensures var w := History(Create(created, timeout, closeDelay), events);
            var quiet := time - w.quietSince;
            !w.session.IsClosed() ==>
              && (match w.session.Update(Reading(time)).1
                  case Updated => true
                  case Closed => quiet > closeDelay
                  case ReadTimeout(_) => quiet > timeout
                  case WriteTimeout(_) => quiet > timeout)
              && (w.session.PollClose(task, waitsnd, Reading(time)).1.Ready? ==> waitsnd == 0 && quiet >= closeDelay)
  {
    TimeoutsExactly(created, timeout, closeDelay, events, time, task, waitsnd);
    var start := Create(created, timeout, closeDelay);
    HistoryDated(start, events, Reading(created), timeout, closeDelay);
    var quiet := time - History(start, events).quietSince;
    assert quiet % TWO_TO_THE_32 <= quiet;
  }

  /** The poller reads the clock before it takes the lock. When an input is accepted in between, the
      stale reading makes the session overdue exactly if the clock wrapped between the two, closely
      enough that what is left of the period exceeds the limit. */
  lemma StaleReading(s: State, quietSince: nat, read: nat, limit: U32)
    requires s.lastSend == Reading(quietSince) && read < quietSince < read + TWO_TO_THE_32
    ensures s.Overdue(Reading(read), limit)
            <==> read / TWO_TO_THE_32 < quietSince / TWO_TO_THE_32 && quietSince - read + limit < TWO_TO_THE_32
  {
  }

  /** A reading taken at the true time read, perhaps before the last input, makes the session overdue. */
  predicate Late(quietSince: nat, read: nat, limit: U32) {
    if quietSince <= read then Reading(quietSince) <= Reading(read) && (read - quietSince) % TWO_TO_THE_32 > limit
    else read / TWO_TO_THE_32 < quietSince / TWO_TO_THE_32 && quietSince - read + limit < TWO_TO_THE_32
  }

  /** An update with such a reading fails exactly if a parked task's limit is exceeded in this sense. */
  lemma UpdateFailsIffLate(w: Timed, read: nat, created: U32, timeout: U32, closeDelay: U32)
    requires Dated(w, created, timeout, closeDelay) && !w.session.IsClosed() && w.clock < read + TWO_TO_THE_32
    ensures var s := w.session;
            !s.Update(Reading(read)).1.Updated? <==>
              || (s.closeWaker.Some? && Late(w.quietSince, read, closeDelay))
              || ((s.recvWaker.Some? || s.sendWaker.Some? || s.flushWaker.Some?) && Late(w.quietSince, read, timeout))
  {
    if w.quietSince <= read {
      OverdueExactly(w.session, w.quietSince, read, closeDelay);
      OverdueExactly(w.session, w.quietSince, read, timeout);
    } else {
      StaleReading(w.session, w.quietSince, read, closeDelay);
      StaleReading(w.session, w.quietSince, read, timeout);
    }
  }

  /** The calls of a history, without the times that they no longer need. */
  function Untimed(events: seq<Event>): Script {
    if events == [] then [] else
      var e := events[0];
      [(e.op, Seen(e))] + Untimed(events[1..])
  }

  lemma {:induction false} CallsFromFront(s: State, call: (Op, Obs), script: Script)
    ensures Calls(s, [call] + script) == Calls(Atomic(s, call.0, call.1), script)
  {
    var all := [call] + script;
    if script == [] {
      assert all[..0] == [] && all == [call];
    } else {
      CallsFromFront(s, call, script[..|script| - 1]);
      assert all[..|all| - 1] == [call] + script[..|script| - 1];
    }
  }

  lemma {:induction false} HistoryIsCalls(w: Timed, events: seq<Event>)
    ensures History(w, events).session == Calls(w.session, Untimed(events))
    decreases |events|
  {
    if events != [] {
      HistoryIsCalls(Apply(w, events[0]), events[1..]);
      CallsFromFront(w.session, Untimed(events)[0], Untimed(events[1..]));
    }
  }

  /** A session, and the true time, at which the poller calls update in a turn on w that read the clock at
      read: what others did before and after the poller's updatable, which comes at the time checked. */
  function AtUpdate(w: Timed, first: seq<Event>, checked: nat, inner: U32, second: seq<Event>): Timed {
    History(Apply(History(w, first), Event(checked, Updatable, NO_OBS.(inner := inner))), second)
  }

  lemma AtUpdateIs(w: Timed, first: seq<Event>, checked: nat, t: Answers, second: seq<Event>,
                   third: Script, last: Script)
    ensures AtUpdate(w, first, checked, t.first, second).session
            == BeforeUpdate(w.session, t, Gaps(Untimed(first), Untimed(second), third, last))
  {
    HistoryIsCalls(w, first);
    HistoryIsCalls(Apply(History(w, first), Event(checked, Updatable, NO_OBS.(inner := t.first))), second);
  }

  lemma AtUpdateDated(w: Timed, first: seq<Event>, checked: nat, inner: U32, second: seq<Event>,
                      created: U32, timeout: U32, closeDelay: U32)
    requires Dated(w, created, timeout, closeDelay) && Monotone(w.clock, first)
    requires History(w, first).clock <= checked && Monotone(checked, second)
    ensures Dated(AtUpdate(w, first, checked, inner, second), created, timeout, closeDelay)
  {
    HistoryDated(w, first, created, timeout, closeDelay);
    var e := Event(checked, Updatable, NO_OBS.(inner := inner));
    ApplyDated(History(w, first), e, created, timeout, closeDelay);
    HistoryDated(Apply(History(w, first), e), second, created, timeout, closeDelay);
  }

  lemma MonotoneEarlier(clock: nat, later: nat, events: seq<Event>)
    requires Monotone(later, events) && clock <= later
    ensures Monotone(clock, events)
  {
  }

  /** After any history, and whatever falls into its turn, the poller drops a session that it found open
      only if another task has closed it meanwhile, or a task is waiting whose limit the peer's true
      silence exceeds; where an input fell into the turn the clock must also have wrapped within it. */
  lemma PollerDropsOnlyQuietSessions(created: nat, timeout: U32, closeDelay: U32, events: seq<Event>, read: nat,
                                     t: Answers, first: seq<Event>, checked: nat, second: seq<Event>,
                                     third: Script, last: Script)
    requires Monotone(created, events) && t.now == Reading(read)
    requires var w := History(Create(created, timeout, closeDelay), events);
             && w.clock <= read && Monotone(read, first) && History(w, first).clock <= checked
             && read <= checked && Monotone(checked, second)
             && AtUpdate(w, first, checked, t.first, second).clock < read + TWO_TO_THE_32
    ensures var w := History(Create(created, timeout, closeDelay), events);
            var u := AtUpdate(w, first, checked, t.first, second);
            var gaps := Gaps(Untimed(first), Untimed(second), third, last);
            !w.session.IsClosed() && !VisitAmidst(w.session, t, gaps).kept ==>
              || u.session.IsClosed()
              || (u.session.closeWaker.Some? && Late(u.quietSince, read, closeDelay))
              || (!u.session.Silent() && Late(u.quietSince, read, timeout))
  {
    var start := Create(created, timeout, closeDelay);
    var w := History(start, events);
    var u := AtUpdate(w, first, checked, t.first, second);
    var gaps := Gaps(Untimed(first), Untimed(second), third, last);
    HistoryDated(start, events, Reading(created), timeout, closeDelay);
    MonotoneEarlier(w.clock, read, first);
    AtUpdateDated(w, first, checked, t.first, second, Reading(created), timeout, closeDelay);
    AtUpdateIs(w, first, checked, t, second, third, last);
    TurnConserves(w.session, t, gaps);
    if !u.session.IsClosed() {
      UpdateFailsIffLate(u, read, Reading(created), timeout, closeDelay);
    }
  }

  /** Being late with no input after the reading means that the true silence exceeds the limit. */
  lemma LateMeansSilent(quietSince: nat, read: nat, limit: U32)
    requires Late(quietSince, read, limit)
    ensures quietSince <= read ==> read - quietSince > limit
    ensures quietSince > read ==> read / TWO_TO_THE_32 < quietSince / TWO_TO_THE_32
  {
    if quietSince <= read {
      assert (read - quietSince) % TWO_TO_THE_32 <= read - quietSince;
    }
  }

  /** After any history, as long as the clock has not wrapped since the session was created, and the next
      check does not lie beyond the wrap either, a pass updates it if it is open. */
  lemma OpenSessionsAreUpdated(created: nat, timeout: U32, closeDelay: U32, events: seq<Event>, time: nat, t: Answers)
    requires Monotone(created, events) && History(Create(created, timeout, closeDelay), events).clock <= time
    requires created / TWO_TO_THE_32 == time / TWO_TO_THE_32 && t.now == Reading(time) <= t.first
    requires t.first + History(Create(created, timeout, closeDelay), events).session.clsckInc + 10 < TWO_TO_THE_32
    ensures !PassedOver(History(Create(created, timeout, closeDelay), events).session, t)
  {
    var start := Create(created, timeout, closeDelay);
    HistoryDated(start, events, Reading(created), timeout, closeDelay);
    HistoryAdvances(start, events);
    assert Reading(created) <= Reading(time);
    NotPassedOver(History(start, events).session, t, Reading(created));
  }

  /** Across any number of clock wraps only a session that has never had an input is passed over, and it
      is exactly while its next check reads less than its creation. */
  lemma OnlyUnheardArePassedOver(created: nat, timeout: U32, closeDelay: U32, events: seq<Event>, t: Answers)
    requires Monotone(created, events)
    ensures var w := History(Create(created, timeout, closeDelay), events);
            !w.session.IsClosed() ==>
              (PassedOver(w.session, t) <==> !w.heard && w.session.Check(t.first).NextCheck() < Reading(created))
  {
    HistoryDated(Create(created, timeout, closeDelay), events, Reading(created), timeout, closeDelay);
  }

  lemma {:induction false} HistoryAdvances(w: Timed, events: seq<Event>)
    requires Monotone(w.clock, events)
    ensures w.clock <= History(w, events).clock
    decreases |events|
  {
    if events != [] {
      HistoryAdvances(Apply(w, events[0]), events[1..]);
    }
  }

  /** The session in the middle and at the end of the poller's turn, as calls made one after the other. */
  lemma TurnBegins(s: State, t: Answers, o: Obs)
    requires !s.IsClosed() && o.now == t.now
    ensures Atomic(s, Updatable, o.(inner := t.first)) == s.Check(t.first)
    ensures !s.Check(t.first).IsClosed()
    ensures Atomic(s.Check(t.first), Update, o) == s.Check(t.first).Update(t.now).0
  {
  }

  /** A turn of the poller is made of calls of the session with the same clock reading, so what holds
      over all calls holds over turns. */
  lemma VisitIsCalls(s: State, t: Answers, o: Obs)
    requires !s.IsClosed() && o.now == t.now
    ensures var begun := Atomic(s, Updatable, o.(inner := t.first));
            var updated := Atomic(begun, Update, o);
            Visit(s, t).state ==
              if PassedOver(s, t) then begun.Check(t.second)
              else if Visit(s, t).kept then updated.WakeAll().Check(t.second)
              else updated.ForceClose()
  {
    TurnBegins(s, t, o);
  }

  /** It happens: a session created 100 ms before a wrap has an input and a new receiver right after the
      wrap, and is then updated with the reading the poller took 1 ms before the wrap. */
  lemma StaleReadingAcrossWrap()
    ensures var wrap := TWO_TO_THE_32;
            var events := [Event(wrap, Input, NO_OBS), Event(wrap, Recv, NO_OBS.(task := 1))];
            && Monotone(wrap - 100, events)
            && History(Create(wrap - 100, 1500, 10000), events).session.Update(Reading(wrap - 1)).1
               == ReadTimeout(TWO_TO_THE_32 - 1)
  {
    var wrap := TWO_TO_THE_32;
    var a, b := Event(wrap, Input, NO_OBS), Event(wrap, Recv, NO_OBS.(task := 1));
    TwoEvents(Create(wrap - 100, 1500, 10000), a, b);
    WakeAllUnfolds(Fresh(wrap - 100, 1500, 10000).InputLocked(true, 0));
  }

  lemma TwoEvents(w: Timed, a: Event, b: Event)
    ensures History(w, [a, b]) == Apply(Apply(w, a), b)
    ensures Monotone(w.clock, [a, b]) <==> w.clock <= a.time <= b.time
  {
    assert [a, b][1..] == [b];
    var w1 := Apply(w, a);
    assert History(w1, [b]) == History(Apply(w1, b), [b][1..]) == Apply(w1, b);
    assert Monotone(a.time, [b]) <==> a.time <= b.time && Monotone(b.time, [b][1..]);
  }

  /** A receiver and a closer park on a new session. */
  const BOTH_WAIT := [Event(0, Recv, NO_OBS.(task := 1)), Event(0, Close, NO_OBS.(task := 2))]

  function BothWaiting(): State {
    History(Create(0, 1500, 10000), BOTH_WAIT).session
  }

  lemma BothWaitingClose()
    ensures Monotone(0, BOTH_WAIT)
    ensures ClosesQuietly(BothWaiting(), 20000)
    ensures var s' := BothWaiting().Update(20000).0.ForceClose(); s'.IsClosed() && s'.recvWaker == Some(1)
  {
    TwoEvents(Create(0, 1500, 10000), Event(0, Recv, NO_OBS.(task := 1)), Event(0, Close, NO_OBS.(task := 2)));
  }

  /** The stranding of FailedUpdateSilencesIff is reachable: after 20 seconds of silence the poller's
      update and force_close leave the receiver parked on a closed session, where it stays through any
      further calls exactly until one of them is a poll_input or wakes receivers. */
  lemma ClosingStrandsReceiver(script: Script)
    ensures var s' := BothWaiting().Update(20000).0.ForceClose();
            && Monotone(0, BOTH_WAIT) && ClosesQuietly(BothWaiting(), 20000) && s'.IsClosed() && s'.recvWaker == Some(1)
            && (Calls(s', script).recvWaker == Some(1)
                <==> forall i :: 0 <= i < |script| ==> !WakesClosed(script[i].0, RecvSlot))
  {
    BothWaitingClose();
    StrandedUntilWoken(BothWaiting().Update(20000).0.ForceClose(), script, RecvSlot);
  }
}
