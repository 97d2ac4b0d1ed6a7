/** The poller together with the queue through which sessions are registered with it: register sends a
    session, poller_main receives it, stop closes the queue. */
module Registration {
  import opened Prelude
  import opened Session
  import opened BoundedQueue
  import opened Poller

  /** One poll of a register future, a stop, or one poll of the poller, some time after the one before it. */
  datatype Step =
    | Register(kcp: SafeKcp, task: Task)
    | Stop
    | Poll(task: Task, wait: nat, fires: bool, shared: bool, turns: nat -> Answers)

  function Sessions(script: seq<Step>): set<SafeKcp> {
    set i | 0 <= i < |script| && script[i].Register? :: script[i].kcp
  }

  predicate Distinct(kcps: seq<SafeKcp>) {
    forall i, j :: 0 <= i < j < |kcps| ==> kcps[i] != kcps[j]
  }

  /** What the poller makes of the queue's answer. */
  function ArrivalIn(answer: Prelude.Poll<Io<SafeKcp>>): Arrival {
    match answer
    case Pending => NoArrival
    case Ready(Ok(kcp)) => Arrived(kcp)
    case Ready(_) => QueueClosed
  }

  /** The sessions that come with the answer. */
  function Came(a: Arrival): seq<SafeKcp> {
    if a.Arrived? then [a.kcp] else []
  }

  lemma Concatenated(a: seq<SafeKcp>, b: seq<SafeKcp>)
    ensures Members(a + b) == Members(a) + Members(b)
    ensures Distinct(a + b) ==> Members(a) !! Members(b)
  {
    if kcp :| kcp in Members(a) && kcp in Members(b) {
      var i :| 0 <= i < |a| && a[i] == kcp;
      var j :| 0 <= j < |b| && b[j] == kcp;
      assert (a + b)[i] == (a + b)[|a| + j];
    }
  }

  /** The poller's poll of the queue: an arrival is the front, and closed is answered only when it is. */
  method Receive(queue: QueueImpl<SafeKcp>, task: Task) returns (a: Arrival)
    modifies queue
    ensures old(queue.queue) == Came(a) + queue.queue && queue.closed == old(queue.closed)
    ensures a.QueueClosed? <==> queue.closed
  {
    var answer := queue.PollRead(task);
    a := ArrivalIn(answer);
  }

  /** The poller, the sessions whose register returned Ok, and the true time of the last poll. */
  datatype Registry = Registry(poller: PollerFuture, registered: seq<SafeKcp>, clock: nat)
  {
    /** Every registered session is queued or went to the poller, once. */
    ghost predicate Booked(queued: seq<SafeKcp>) {
      registered == poller.received + queued && Distinct(registered)
    }

    ghost predicate Valid(queue: QueueImpl<SafeKcp>)
      reads queue, Members(poller.received)
    {
      Booked(queue.queue) && poller.Conserved() && poller.Timed(clock) && (poller.finished ==> queue.closed)
    }
  }

  /** One poll of register's future. A session is moved into it, so it is registered once at most. */
  method RegisterOnce(queue: QueueImpl<SafeKcp>, r: Registry, kcp: SafeKcp, task: Task) returns (r': Registry)
    requires r.Valid(queue) && kcp !in r.registered
    modifies queue
    ensures r'.Valid(queue)
    ensures r' == if !old(queue.closed) && !old(queue.Snapshot()).Filled()
                  then r.(registered := r.registered + [kcp]) else r
  {
    var poll, left := queue.PollSend(task, Some(kcp));
    r' := if left.None? then r.(registered := r.registered + [kcp]) else r;
  }

  method StopOnce(queue: QueueImpl<SafeKcp>, r: Registry)
    requires r.Valid(queue)
    modifies queue
    ensures r.Valid(queue) && queue.closed
  {
    queue.Close();
  }

  /** What other tasks do to the registered sessions, queued ones included. */
  method UsedByOthers(queue: QueueImpl<SafeKcp>, r: Registry, others: bool)
    requires r.Valid(queue)
    modifies Members(r.registered)
    ensures r.Valid(queue)
    ensures !others ==> forall kcp :: kcp in Members(r.registered) ==> kcp.Snapshot() == old(kcp.Snapshot())
  {
    ghost var all := Members(r.registered);
    ghost var closed := set kcp | kcp in all && kcp.Snapshot().IsClosed();
    Interference(all, closed, others);
  }

  /** What comes out of the queue goes to the poller. */
  lemma StaysBooked(r: Registry, f: PollerFuture, time: nat, a: Arrival, queued: seq<SafeKcp>)
    requires r.Booked(Came(a) + queued)
    requires f.received == if a.Arrived? then r.poller.received + [a.kcp] else r.poller.received
    ensures Registry(f, r.registered, time).Booked(queued) && Members(r.poller.received) <= Members(f.received)
  {
    assert f.received == r.poller.received + Came(a);
    Concatenated(r.poller.received, Came(a));
  }

  /** One poll of the poller's future, which polls the queue first. */
  method PollOnceMore(queue: QueueImpl<SafeKcp>, r: Registry, p: Step) returns (r': Registry)
    requires r.Valid(queue) && p.Poll? && !r.poller.finished
    modifies queue, Members(r.poller.received)
    ensures r'.Valid(queue) && r'.registered == r.registered
    ensures Members(r.poller.received) <= Members(r'.poller.received)
  {
    var a := Receive(queue, p.task);
    var time := r.clock + p.wait;
    var f := NextPoll(r.poller, PollerPoll(a, time, p.fires, p.shared, p.turns), r.clock);
    r' := Registry(f, r.registered, time);
    StaysBooked(r, f, time, a, queue.queue);
  }

  lemma WhereTheyAre(queue: QueueImpl<SafeKcp>, r: Registry)
    requires r.Valid(queue)
    ensures Members(r.registered) == Members(r.poller.received) + Members(queue.queue)
    ensures Members(r.poller.received) !! Members(queue.queue)
    ensures r.poller.finished ==> (AllClosed(Members(r.registered)) <==> AllClosed(Members(queue.queue)))
  {
    Concatenated(r.poller.received, queue.queue);
  }

  /** One step of the script, on sessions among kcps. */
  method StepOnce(queue: QueueImpl<SafeKcp>, r: Registry, step: Step, others: bool, ghost kcps: set<SafeKcp>)
    returns (r': Registry)
    requires r.Valid(queue) && Members(r.registered) <= kcps && (step.Register? ==> step.kcp in kcps)
    modifies queue, kcps
    ensures r'.Valid(queue) && Members(r'.registered) <= kcps
    ensures Members(r.poller.received) <= Members(r'.poller.received)
    ensures !others ==>
              forall kcp :: kcp in kcps - Members(r'.poller.received) ==> kcp.Snapshot() == old(kcp.Snapshot())
  {
    WhereTheyAre(queue, r);
    UsedByOthers(queue, r, others);
    r' := r;
    match step {
      case Register(kcp, task) =>
        if kcp !in r.registered {
          r' := RegisterOnce(queue, r, kcp, task);
        }
      case Stop => StopOnce(queue, r);
      case Poll(_, _, _, _, _) =>
        if !r.poller.finished {
          r' := PollOnceMore(queue, r, step);
        }
    }
  }

  /** register, stop and the poller in the order of the script, while other tasks use the sessions that the
      poller received and, if others, the queued ones too. What was registered and is not queued is in the
      vector or closed. When the poller is over, everything that was registered is closed exactly if
      everything that the closed queue still holds is; and what it holds nobody has touched, so unless
      others closed it, exactly if it holds nothing. */
  method RunPoller(size: nat, script: seq<Step>, others: bool) returns (queue: QueueImpl<SafeKcp>, r: Registry)
    modifies Sessions(script)
    ensures r.Valid(queue) && Members(r.registered) <= Sessions(script)
    ensures forall kcp :: kcp in Members(r.registered) ==>
              || kcp in queue.queue
              || (kcp in r.poller.sessions && !r.poller.finished)
              || kcp.Snapshot().IsClosed()
    ensures r.poller.finished ==>
              queue.closed && (AllClosed(Members(r.registered)) <==> AllClosed(Members(queue.queue)))
    ensures !others ==>
              forall kcp :: kcp in Sessions(script) - Members(r.poller.received) ==>
                kcp.Snapshot() == old(kcp.Snapshot())
    ensures r.poller.finished && !others && (forall kcp :: kcp in Sessions(script) ==> !old(kcp.Snapshot()).IsClosed())
            ==> (AllClosed(Members(r.registered)) <==> queue.queue == [])
  {
    ghost var kcps := Sessions(script);
    queue := new QueueImpl(size);
    r := Registry(PollerFuture([], None, false, [], []), [], 0);
    for i := 0 to |script|
      invariant fresh(queue) && r.Valid(queue) && Members(r.registered) <= kcps
      invariant !others ==>
                  forall kcp :: kcp in kcps - Members(r.poller.received) ==> kcp.Snapshot() == old(kcp.Snapshot())
    {
      assert script[i].Register? ==> script[i].kcp in kcps;
      r := StepOnce(queue, r, script[i], others, kcps);
    }
    WhereTheyAre(queue, r);
    if queue.queue != [] {
      assert queue.queue[0] in Members(queue.queue);
    }
  }

  /** A session is lost if stop comes between its register, which succeeds, and the poller's next poll. */
  lemma StopLosesRegistered(kcp: SafeKcp, task: Task)
    ensures var (q, sent, left) := New<SafeKcp>(10).PollSend(task, Some(kcp));
            var (q', answer) := q.Close().PollRead(task);
            sent == Ready(Ok(())) && ArrivalIn(answer) == QueueClosed && q'.items == [kcp]
  {
  }
}
