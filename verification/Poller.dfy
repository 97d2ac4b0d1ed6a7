/** The task that drives all sessions with one timer: poll_update, the pass over the session vector,
    and poller_main, the loop around it. */
module Poller {
  import opened Prelude
  import opened Session
  import opened RetainMut

  /** The answers one session's turn in a pass gets: the clock, and ikcp_check twice. */
  datatype Answers = Answers(now: U32, first: U32, second: U32)

  type Visited = Turned<State, U32>

  /** What the retain_mut closure does to one session. */
  function Visit(s: State, t: Answers): Visited {
    if s.IsClosed() then Turned(s, false, 0)
    else
      var (s1, updatable) := s.Updatable(t.first);
      var (s2, failed) :=
        if !updatable then (s1, false)
        else
          var (u, result) := s1.Update(t.now);
          if result.Updated? then (u.WakeAll(), false) else (u.ForceClose(), true);
      if failed then Turned(s2, false, 0)
      else Turned(s2.Check(t.second), true, WrapSub(s2.Check(t.second).NextCheck(), t.now))
  }

  /** nex_chk after one more retained session: 0 stands for unset. */
  function NextDelay(delay: U32, value: U32): U32 {
    if delay == 0 then value else if value < delay then value else delay
  }

  function Delay(values: seq<U32>): U32 {
    if values == [] then 0 else NextDelay(Delay(values[..|values| - 1]), values[|values| - 1])
  }

  /** The closure of the pass. */
  function Visiting(turns: nat -> Answers): (nat, State) -> Visited {
    (i: nat, s: State) => Visit(s, turns(i))
  }

  // ---------------------------------------------------------------- One visit

  /** A visit never reopens a session; it drops one only when it is closed, and then it is closed. */
  lemma VisitDropsOnlyClosed(s: State, t: Answers)
    ensures var v := Visit(s, t);
            && (!v.kept ==> v.state.IsClosed())
            && (v.kept ==> !s.IsClosed())
            && (s.IsClosed() ==> v.state == s)
  {
  }

  /** The session is live but its turn passes over it: last_update lies ahead of the wrapped next check. */
  predicate PassedOver(s: State, t: Answers) {
    !s.IsClosed() && s.Check(t.first).NextCheck() < s.lastUpdate
  }

  /** A retained session leaves its turn with all four slots empty and everyone who was parked woken,
      unless it was passed over: then exactly the tasks that were parked are parked still. */
  lemma VisitSilences(s: State, t: Answers)
    ensures var v := Visit(s, t);
            v.kept ==>
              if PassedOver(s, t)
              then v.state == s.Check(t.first).Check(t.second)
              else v.state.Silent() && v.state.wakes == s.wakes + Parked(s)
  {
    WakeAllWakesEveryone(s.Check(t.first));
  }

  /** While the clock has not wrapped since the creation, no live session is passed over. */
  lemma NotPassedOver(s: State, t: Answers, created: U32)
    requires s.lastUpdate == created || s.lastUpdate == 0
    requires created <= t.now <= t.first && t.first + s.clsckInc + 10 < TWO_TO_THE_32
    ensures !PassedOver(s, t)
  {
  }

  /** After a wrap one is: created at the last reading of the period, visited five milliseconds later. */
  lemma PassedOverAfterWrap()
    ensures PassedOver(Fresh(TWO_TO_THE_32 - 1, 1500, 10000), Answers(4, 4, 4))
  {
  }

  // ---------------------------------------------------------------- One pass

  /** A pass keeps a subsequence of the vector in order, closes whatever it drops, reopens nothing. */
  lemma PassConserves<Id>(ids: seq<Id>, store: map<Id, State>, turns: nat -> Answers)
    requires forall id :: id in ids ==> id in store
    ensures var p := Retain(ids, store, Visiting(turns), |ids|);
            && Subsequence(p.kept, ids)
            && (forall id :: id in ids && id !in p.kept ==> p.store[id].IsClosed())
            && (forall id :: id in store && store[id].IsClosed() ==> p.store[id].IsClosed())
  {
    forall i: nat, s: State
      ensures var v := Visiting(turns)(i, s);
              (v.kept || v.state.IsClosed()) && (s.IsClosed() ==> v.state.IsClosed())
    {
      VisitDropsOnlyClosed(s, turns(i));
    }
    RetainOrder(ids, store, Visiting(turns), |ids|);
    assert ids[..|ids|] == ids;
    forall id | id in store
      ensures var p := Retain(ids, store, Visiting(turns), |ids|);
              ((id in ids && id !in p.kept) || store[id].IsClosed()) ==> p.store[id].IsClosed()
    {
      DroppedAreDone(ids, store, Visiting(turns), |ids|, (s: State) => s.IsClosed(), id);
    }
  }

  lemma SilentVisit(s: State, t: Answers)
    requires s.Silent()
    ensures Visit(s, t).state.Silent()
  {
  }

  /** A session that is retained at its turn i and was not passed over ends the whole pass with nobody
      parked, even if the vector names it again. */
  lemma PassSilences<Id>(ids: seq<Id>, store: map<Id, State>, turns: nat -> Answers, i: nat)
    requires i < |ids| && forall id :: id in ids ==> id in store
    requires var s := Retain(ids, store, Visiting(turns), i).store[ids[i]];
             Visit(s, turns(i)).kept && !PassedOver(s, turns(i))
    ensures Retain(ids, store, Visiting(turns), |ids|).store[ids[i]].Silent()
  {
    VisitSilences(Retain(ids, store, Visiting(turns), i).store[ids[i]], turns(i));
    forall j: nat, s: State | s.Silent()
      ensures Visiting(turns)(j, s).state.Silent()
    {
      SilentVisit(s, turns(j));
    }
    StaysGood(ids, store, Visiting(turns), i + 1, |ids|, ids[i], (s: State) => s.Silent());
  }

  // ---------------------------------------------------------------- The delay of a pass

  /** Where the retained values after the last zero begin. */
  function AfterLastZero(values: seq<U32>): (z: nat)
    ensures z <= |values|
    ensures z > 0 ==> values[z - 1] == 0
    ensures forall i :: z <= i < |values| ==> values[i] != 0
  {
    if values == [] then 0
    else if values[|values| - 1] == 0 then |values|
    else AfterLastZero(values[..|values| - 1])
  }

  /** The delay is the least value after the last zero, and 0 if there is none. */
  lemma {:induction false} DelayIsMinAfterLastZero(values: seq<U32>)
    ensures var z := AfterLastZero(values);
            if z == |values| then Delay(values) == 0
            else Delay(values) in values[z..] && forall i :: z <= i < |values| ==> Delay(values) <= values[i]
    ensures values != [] ==> Delay(values) <= values[|values| - 1]
  {
    if values != [] {
      var front, last := values[..|values| - 1], values[|values| - 1];
      DelayIsMinAfterLastZero(front);
      var z := AfterLastZero(values);
      if last != 0 {
        assert z == AfterLastZero(front);
        assert values[z..][|values| - 1 - z] == last;
        if z < |front| {
          assert values[z..] == front[z..] + [last];
        }
      }
    }
  }

  /** The delay is the least of all values exactly if none is 0 or the last one is: a session due at
      once is forgotten when a later one is not. */
  lemma DelayIsMinIff(values: seq<U32>)
    requires values != []
    ensures (Delay(values) in values && forall i :: 0 <= i < |values| ==> Delay(values) <= values[i])
            <==> (0 !in values || values[|values| - 1] == 0)
  {
  }

  // ---------------------------------------------------------------- The imperative poller

  ghost function Snapshots(kcps: set<SafeKcp>): map<SafeKcp, State>
    reads kcps
  {
    map kcp | kcp in kcps :: kcp.Snapshot()
  }

  function Members(kcps: seq<SafeKcp>): set<SafeKcp> {
    set kcp | kcp in kcps
  }

  /** The objects are in the states that store says. */
  ghost predicate InStates(kcps: set<SafeKcp>, store: map<SafeKcp, State>)
    reads kcps
  {
    store.Keys == kcps && forall kcp :: kcp in kcps ==> kcp.Snapshot() == store[kcp]
  }

  ghost predicate AllClosed(kcps: set<SafeKcp>)
    reads kcps
  {
    forall kcp :: kcp in kcps ==> kcp.Snapshot().IsClosed()
  }

  /** What other tasks do to the sessions meanwhile, if they share them: anything but reopen one. */
  method Interference(ghost kcps: set<SafeKcp>, ghost closed: set<SafeKcp>, shared: bool)
    requires closed <= kcps && AllClosed(closed)
    modifies kcps
    ensures AllClosed(closed)
    ensures !shared ==> forall kcp :: kcp in kcps ==> kcp.Snapshot() == old(kcp.Snapshot())
  {
  }

  /** The update of a turn: all tasks are woken after it, or the session is closed because it failed. */
  method UpdateOrClose(kcp: SafeKcp, ghost kcps: set<SafeKcp>, ghost closed: set<SafeKcp>, now: U32, shared: bool)
    returns (ok: bool)
    requires kcp in kcps && closed <= kcps && AllClosed(closed)
    modifies kcps
    ensures AllClosed(if ok then closed else closed + {kcp})
    ensures !shared ==>
              var (u, result) := old(kcp.Snapshot()).Update(now);
              ok == result.Updated? && kcp.Snapshot() == if ok then u.WakeAll() else u.ForceClose()
    ensures !shared ==> forall other :: other in kcps && other != kcp ==> other.Snapshot() == old(other.Snapshot())
  {
    UpdateKeepsCore(kcp.Snapshot(), now);
    var result := kcp.Update(now);
    Interference(kcps, closed, shared);
    ok := result.Updated?;
    if ok {
      WakingKeepsCore(kcp.Snapshot(), WAKE_ORDER);
      kcp.TryWakeAll();
    } else {
      ForceCloseOnce(kcp.Snapshot());
      kcp.ForceClose();
    }
  }

  /** The closure of the pass. If shared, other tasks use the sessions between its calls; then it still
      drops a session only closed, and reopens none. If not, it is exactly a turn of the pass. */
  method VisitSession(kcp: SafeKcp, ghost kcps: set<SafeKcp>, ghost closed: set<SafeKcp>,
                      i: nat, turns: nat -> Answers, shared: bool)
    returns (kept: bool, value: U32)
    requires kcp in kcps && closed <= kcps && AllClosed(closed)
    modifies kcps
    ensures AllClosed(if kept then closed else closed + {kcp})
    ensures !shared ==> Turned(kcp.Snapshot(), kept, value) == Visiting(turns)(i, old(kcp.Snapshot()))
    ensures !shared ==> forall other :: other in kcps && other != kcp ==> other.Snapshot() == old(other.Snapshot())
  {
    var t := turns(i);
    if kcp.recvClosed && kcp.sendClosed {
      return false, 0;
    }
    Interference(kcps, closed, shared);
    var updatable := kcp.Updatable(t.first);
    Interference(kcps, closed, shared);
    if updatable {
      var ok := UpdateOrClose(kcp, kcps, closed, t.now, shared);
      if !ok {
        return false, 0;
      }
      Interference(kcps, closed, shared);
    }
    var next := kcp.Check(t.second);
    return true, WrapSub(next, t.now);
  }

  lemma DelayUnfolds(values: seq<U32>, value: U32)
    ensures Delay(values + [value]) == NextDelay(Delay(values), value)
  {
  }

  lemma SubsequenceAllMembers(a: seq<SafeKcp>, b: seq<SafeKcp>)
    requires Subsequence(a, b)
    ensures Members(a) <= Members(b)
  {
  }

  /** The turn of one session among those of the vector. */
  method VisitAmong(ghost kcps: set<SafeKcp>, ghost closed: set<SafeKcp>, ghost store: map<SafeKcp, State>,
                    kcp: SafeKcp, i: nat, turns: nat -> Answers, shared: bool)
    returns (kept: bool, value: U32)
    requires kcp in kcps && closed <= kcps && AllClosed(closed) && (!shared ==> InStates(kcps, store))
    modifies kcps
    ensures AllClosed(if kept then closed else closed + {kcp})
    ensures !shared ==>
              var v := Visiting(turns)(i, store[kcp]);
              kept == v.kept && value == v.value && InStates(kcps, store[kcp := v.state])
  {
    kept, value := VisitSession(kcp, kcps, closed, i, turns, shared);
  }

  /** Each of the first i sessions was kept, in order, or is known to be closed. */
  predicate Accounted(sessions: seq<SafeKcp>, kept: seq<SafeKcp>, closed: set<SafeKcp>, i: nat)
    requires i <= |sessions|
  {
    Subsequence(kept, sessions[..i]) && forall j :: 0 <= j < i ==> sessions[j] in kept || sessions[j] in closed
  }

  lemma AccountNext(sessions: seq<SafeKcp>, kept: seq<SafeKcp>, closed: set<SafeKcp>, i: nat)
    requires i < |sessions| && Accounted(sessions, kept, closed, i)
    ensures Accounted(sessions, kept + [sessions[i]], closed, i + 1)
    ensures Accounted(sessions, kept, closed + {sessions[i]}, i + 1)
  {
    SubsequenceExtends(kept, sessions[..i], sessions[i]);
    assert sessions[..i + 1] == sessions[..i] + [sessions[i]];
    assert (kept + [sessions[i]])[|kept|] == sessions[i];
  }

  /** The loop of the pass, begun with the sessions in the states before and those in was closed. */
  method VisitAll(sessions: seq<SafeKcp>, turns: nat -> Answers, shared: bool, ghost kcps: set<SafeKcp>,
                  ghost was: set<SafeKcp>, ghost before: map<SafeKcp, State>)
    returns (kept: seq<SafeKcp>, delay: U32, ghost closed: set<SafeKcp>)
    requires kcps == Members(sessions) && was <= kcps && AllClosed(was) && InStates(kcps, before)
    modifies kcps
    ensures Accounted(sessions, kept, closed, |sessions|) && was <= closed <= kcps && AllClosed(closed)
    ensures !shared ==>
              var p := Retain(sessions, before, Visiting(turns), |sessions|);
              kept == p.kept && delay == Delay(p.values) && InStates(kcps, p.store)
  {
    ghost var store := before;
    ghost var values: seq<U32> := [];
    kept, delay, closed := [], 0, was;
    for i := 0 to |sessions|
      invariant was <= closed <= kcps && AllClosed(closed)
      invariant Accounted(sessions, kept, closed, i) && delay == Delay(values)
      invariant !shared ==> InStates(kcps, store)
      invariant !shared ==> Pass(store, kept, values) == Retain(sessions, before, Visiting(turns), i)
    {
      var kcp := sessions[i];
      assert kcp in kcps;
      AccountNext(sessions, kept, closed, i);
      var keep, value := VisitAmong(kcps, closed, store, kcp, i, turns, shared);
      if !shared {
        store := store[kcp := Visiting(turns)(i, store[kcp]).state];
      }
      if keep {
        DelayUnfolds(values, value);
        delay, kept, values := NextDelay(delay, value), kept + [kcp], values + [value];
      } else {
        closed := closed + {kcp};
      }
    }
  }

  /** poll_update: the pass over the vector, and the delay until the next one. Even if other tasks use
      the sessions between any two calls of the pass (shared), it keeps a subsequence in order, closes
      whatever it drops and reopens nothing; if they do not, it is exactly the pass. */
  method PollUpdate(sessions: seq<SafeKcp>, turns: nat -> Answers, shared: bool)
    returns (kept: seq<SafeKcp>, delay: U32)
    modifies Members(sessions)
    ensures Subsequence(kept, sessions) && Members(kept) <= Members(sessions)
    ensures forall kcp :: kcp in Members(sessions) && (kcp !in kept || old(kcp.Snapshot()).IsClosed()) ==>
              kcp.Snapshot().IsClosed()
    ensures !shared ==>
              var p := Retain(sessions, old(Snapshots(Members(sessions))), Visiting(turns), |sessions|);
              kept == p.kept && delay == Delay(p.values) && InStates(Members(sessions), p.store)
  {
    ghost var all := Members(sessions);
    ghost var closed := set kcp | kcp in all && kcp.Snapshot().IsClosed();
    kept, delay, closed := VisitAll(sessions, turns, shared, all, closed, Snapshots(all));
    assert sessions[..|sessions|] == sessions;
    SubsequenceAllMembers(kept, sessions);
  }

  /** What the queue of new sessions answers to one poll. */
  datatype Arrival = QueueClosed | NoArrival | Arrived(kcp: SafeKcp)

  /** One poll of the poller's future: the queue, the true time, whether an expired timer fires now, and
      whether other tasks use the sessions during the poll. */
  datatype PollerPoll = PollerPoll(arrival: Arrival, time: nat, fires: bool, shared: bool, turns: nat -> Answers)

  datatype Tick = Tick(time: nat, delay: U32)

  function Arrivals(script: seq<PollerPoll>): set<SafeKcp> {
    set i | 0 <= i < |script| && script[i].arrival.Arrived? :: script[i].arrival.kcp
  }

  /** The end of poller_main: every session of the vector is force-closed, whatever other tasks do. */
  method ForceCloseAll(sessions: seq<SafeKcp>, shared: bool)
    modifies Members(sessions)
    ensures forall kcp :: kcp in sessions ==> kcp.Snapshot().IsClosed()
  {
    for i := 0 to |sessions|
      invariant forall j :: 0 <= j < i ==> sessions[j].Snapshot().IsClosed()
    {
      assert forall j :: 0 <= j < |sessions| ==> sessions[j] in Members(sessions);
      Interference(Members(sessions), set j | 0 <= j < i :: sessions[j], shared);
      ForceCloseOnce(sessions[i].Snapshot());
      sessions[i].ForceClose();
    }
  }

  function Due(tick: Tick): nat {
    tick.time + tick.delay
  }

  /** What poller_main holds between two polls, with the sessions it ever received and its passes. */
  datatype PollerFuture = PollerFuture(sessions: seq<SafeKcp>, sleep: Option<nat>, finished: bool,
                                       received: seq<SafeKcp>, ticks: seq<Tick>)
  {
    /** Every session ever received is in the vector or closed; after the end all are closed. */
    ghost predicate Conserved()
      reads Members(received)
    {
      && Members(sessions) <= Members(received)
      && forall kcp :: kcp in Members(received) ==>
           (kcp in sessions && !finished) || kcp.Snapshot().IsClosed()
    }

    /** Every pass begins no earlier than its predecessor plus the delay that returned. */
    predicate Spaced() {
      forall i :: 0 < i < |ticks| ==> Due(ticks[i - 1]) <= ticks[i].time
    }

    /** A running timer is set to the end of the last pass's delay; without one that time has come. */
    predicate Timed(clock: nat) {
      && Spaced()
      && (sleep.Some? ==> ticks != [] && sleep.value == Due(ticks[|ticks| - 1]))
      && (sleep.None? && ticks != [] ==> Due(ticks[|ticks| - 1]) <= clock)
    }
  }

  function ArrivalOf(p: PollerPoll): set<SafeKcp> {
    if p.arrival.Arrived? then {p.arrival.kcp} else {}
  }

  function Slept(f: PollerFuture, kept: seq<SafeKcp>, time: nat, delay: U32): PollerFuture {
    f.(sessions := kept, ticks := f.ticks + [Tick(time, delay)], sleep := Some(time + delay))
  }

  lemma SleepIsTimed(f: PollerFuture, kept: seq<SafeKcp>, time: nat, delay: U32)
    requires f.Timed(time) && f.sleep.None?
    ensures Slept(f, kept, time, delay).Timed(time)
  {
  }

  /** The poll in which a pass is due. */
  method PassOnce(f: PollerFuture, p: PollerPoll) returns (f': PollerFuture, delay: U32)
    requires f.Conserved() && f.Timed(p.time) && !f.finished && f.sleep.None?
    modifies Members(f.sessions)
    ensures f'.Conserved() && f'.Timed(p.time)
    ensures f' == Slept(f, f'.sessions, p.time, delay)
    ensures Subsequence(f'.sessions, f.sessions)
    ensures !p.shared ==>
              var pass := Retain(f.sessions, old(Snapshots(Members(f.sessions))), Visiting(p.turns), |f.sessions|);
              f'.sessions == pass.kept && delay == Delay(pass.values) && InStates(Members(f.sessions), pass.store)
  {
    var kept;
    kept, delay := PollUpdate(f.sessions, p.turns, p.shared);
    assert Members(kept) <= Members(f.received);
    f' := Slept(f, kept, p.time, delay);
    SleepIsTimed(f, kept, p.time, delay);
  }

  /** One poll of poller_main: the queue of new sessions first, then the timer or a pass. */
  method PollOnce(f: PollerFuture, p: PollerPoll, ghost clock: nat) returns (f': PollerFuture)
    requires f.Conserved() && f.Timed(clock) && !f.finished && clock <= p.time
    modifies Members(f.sessions)
    ensures f'.Conserved() && f'.Timed(p.time)
    ensures f'.finished == p.arrival.QueueClosed? && Members(f'.received) == Members(f.received) + ArrivalOf(p)
    ensures p.arrival.Arrived? ==>
              f' == f.(sessions := f.sessions + [p.arrival.kcp], received := f.received + [p.arrival.kcp])
    ensures !p.arrival.Arrived? ==> f'.received == f.received
    ensures var before := old(Snapshots(Members(f.sessions)));
            p.arrival.NoArrival? && f.sleep.None? && f.sessions != [] ==>
              && Subsequence(f'.sessions, f.sessions)
              && (!p.shared ==> f'.sessions == Retain(f.sessions, before, Visiting(p.turns), |f.sessions|).kept)
              && |f'.ticks| == |f.ticks| + 1 && f'.ticks[|f.ticks|].time == p.time
    ensures p.arrival.NoArrival? && (f.sleep.Some? || f.sessions == []) ==>
              f' == f.(sleep := if p.fires && f.sleep.Some? && f.sleep.value <= p.time then None else f.sleep)
  {
    f' := f;
    match p.arrival {
      case QueueClosed =>
        ForceCloseAll(f.sessions, p.shared);
        f' := f.(finished := true);
      case Arrived(kcp) =>
        f' := f.(sessions := f.sessions + [kcp], received := f.received + [kcp]);
        assert Members(f'.sessions) == Members(f.sessions) + {kcp};
        assert Members(f'.received) == Members(f.received) + {kcp};
      case NoArrival =>
        if f.sleep.None? {
          if f.sessions != [] {
            var delay;
            f', delay := PassOnce(f, p);
          }
        } else if p.fires && f.sleep.value <= p.time {
          f' := f.(sleep := None);
        }
    }
  }

  /** Whatever other tasks do between two polls, the poller's books stay right. */
  method BetweenPolls(f: PollerFuture)
    requires f.Conserved()
    modifies Members(f.received)
    ensures f.Conserved()
  {
    ghost var all := Members(f.received);
    Interference(all, set kcp | kcp in all && kcp.Snapshot().IsClosed(), true);
  }

  /** Other tasks, and then one poll. */
  method NextPoll(f: PollerFuture, p: PollerPoll, ghost clock: nat) returns (f': PollerFuture)
    requires f.Conserved() && f.Timed(clock) && !f.finished && clock <= p.time
    modifies Members(f.received)
    ensures f'.Conserved() && f'.Timed(p.time)
    ensures f'.finished == p.arrival.QueueClosed? && Members(f'.received) == Members(f.received) + ArrivalOf(p)
    ensures f'.received == if p.arrival.Arrived? then f.received + [p.arrival.kcp] else f.received
  {
    BetweenPolls(f);
    f' := PollOnce(f, p, clock);
  }

  /** poller_main, polled as the script says while other tasks use the sessions; timers never fire
      early, but may fire late. As long as the queue is open every session that arrived is in the
      vector or closed; once it is closed the loop ends and every session that arrived is closed. */
  method PollerMain(script: seq<PollerPoll>) returns (f: PollerFuture)
    requires forall i, j :: 0 <= i < j < |script| ==> script[i].time <= script[j].time
    modifies Arrivals(script)
    ensures f.Conserved() && f.Spaced()
    ensures f.finished <==> exists i :: 0 <= i < |script| && script[i].arrival.QueueClosed?
    ensures f.finished ==> forall kcp :: kcp in Members(f.received) ==> kcp.Snapshot().IsClosed()
    ensures !f.finished ==> Members(f.received) == Arrivals(script)
  {
    f := PollerFuture([], None, false, [], []);
    var i := 0;
    ghost var clock: nat := 0;
    while i < |script| && !f.finished
      invariant i <= |script|
      invariant Members(f.received) == Arrivals(script[..i])
      invariant f.Conserved()
      invariant f.Timed(clock) && (i < |script| ==> clock <= script[i].time)
      invariant f.finished ==> i > 0 && script[i - 1].arrival.QueueClosed?
      invariant forall j :: 0 <= j < i && script[j].arrival.QueueClosed? ==> f.finished
      decreases |script| - i
    {
      ArrivalsUnfold(script, i);
      f := NextPoll(f, script[i], clock);
      clock := script[i].time;
      i := i + 1;
    }
    assert script[..|script|] == script;
  }

  lemma ArrivalsUnfold(script: seq<PollerPoll>, i: nat)
    requires i < |script|
    ensures Arrivals(script[..i + 1])
            == Arrivals(script[..i]) + ArrivalOf(script[i])
    ensures Arrivals(script[..i + 1]) <= Arrivals(script)
  {
  }
}
