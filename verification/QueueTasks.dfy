/** One sender task and one receiver task on a queue, interleaved in any order with block_send and
    close calls of others. A run is the list of what happens. */
module QueueTasks {
  import opened Prelude
  import opened BoundedQueue

  const SENDER: Task := 0
  const RECEIVER: Task := 1

  /** A task that was returned Pending is Parked until one of its wakers is woken. */
  datatype Status = Running | Parked | Woken

  /** A queued item, and whether it came through poll_send rather than block_send. */
  datatype Entry<T> = Entry(item: T, awaited: bool)

  /** A send future that is over, and whether it returned Ok rather than failed or was dropped. */
  datatype Future<T> = Future(item: T, ok: bool)

  datatype System<T> = System(
    q: Queue<Entry<T>>,
    sender: Status,
    held: Option<T>,           // the item in the current send future
    receiver: Status,
    pushed: seq<Entry<T>>,     // everything ever put into the queue
    received: seq<Entry<T>>,   // everything ever returned to the receiver
    offered: seq<T>,           // the items of all send futures
    resolved: seq<Future<T>>)  // the send futures that are over

  datatype Event<T> = StartSend(item: T) | PollSender | DropSender | PollReceiver | DropReceiver | Block(item: T) | Shut

  function Start<T>(size: nat): System<T> {
    System(New(size), Running, None, Running, [], [], [], [])
  }

  /** The status of a task after the queue went from q to q'. */
  function Notice<T>(status: Status, task: Task, q: Queue<T>, q': Queue<T>): Status {
    if status == Parked && |q.wakes| <= |q'.wakes| && task in q'.wakes[|q.wakes|..] then Woken else status
  }

  function SenderPolled<T>(s: System<T>): System<T>
    requires s.held.Some?
  {
    var entry := Entry(s.held.value, true);
    var (q, poll, left) := s.q.PollSend(SENDER, Some(entry));
    var s' := s.(q := q, receiver := Notice(s.receiver, RECEIVER, s.q, q));
    if poll.Pending? then s'.(sender := Parked)
    else s'.(sender := Running, held := None, resolved := s.resolved + [Future(s.held.value, left.None?)],
             pushed := if left.None? then s.pushed + [entry] else s.pushed)
  }

  function ReceiverPolled<T>(s: System<T>): System<T> {
    var (q, poll) := s.q.PollRead(RECEIVER);
    var s' := s.(q := q, sender := Notice(s.sender, SENDER, s.q, q));
    if poll.Pending? then s'.(receiver := Parked)
    else if poll.value.Ok? then s'.(receiver := Running, received := s.received + [poll.value.value])
    else s'.(receiver := Running)
  }

  function Others<T>(s: System<T>, q: Queue<Entry<T>>): System<T> {
    s.(q := q, sender := Notice(s.sender, SENDER, s.q, q), receiver := Notice(s.receiver, RECEIVER, s.q, q))
  }

  function Blocked<T>(s: System<T>, item: T): System<T> {
    var (q, r) := s.q.BlockSend(Entry(item, false));
    Others(s, q).(pushed := if r.Ok? then s.pushed + [Entry(item, false)] else s.pushed)
  }

  function Next<T>(s: System<T>, e: Event<T>): System<T> {
    match e
    case StartSend(item) =>
      if s.held.Some? then s else s.(held := Some(item), sender := Running, offered := s.offered + [item])
    case PollSender => if s.held.Some? then SenderPolled(s) else s
    case DropSender =>
      if s.held.Some? then s.(held := None, sender := Running, resolved := s.resolved + [Future(s.held.value, false)])
      else s
    case PollReceiver => ReceiverPolled(s)
    case DropReceiver => s.(receiver := Running)
    case Block(item) => Blocked(s, item)
    case Shut => Others(s, s.q.Close())
  }

  function Run<T>(s: System<T>, events: seq<Event<T>>): System<T>
    decreases |events|
  {
    if events == [] then s else Run(Next(s, events[0]), events[1..])
  }

  /** The items that came through poll_send, in order. */
  function Awaited<T>(entries: seq<Entry<T>>): seq<T> {
    if entries == [] then [] else
      var last := entries[|entries| - 1];
      Awaited(entries[..|entries| - 1]) + if last.awaited then [last.item] else []
  }

  /** The items of the futures that returned Ok, in order. */
  function Accepted<T>(futures: seq<Future<T>>): seq<T> {
    if futures == [] then [] else
      var last := futures[|futures| - 1];
      Accepted(futures[..|futures| - 1]) + if last.ok then [last.item] else []
  }

  function Items<T>(futures: seq<Future<T>>, held: Option<T>): seq<T> {
    seq(|futures|, i requires 0 <= i < |futures| => futures[i].item) + if held.Some? then [held.value] else []
  }

  lemma AwaitedPush<T>(entries: seq<Entry<T>>, e: Entry<T>)
    ensures Awaited(entries + [e]) == Awaited(entries) + if e.awaited then [e.item] else []
  {
  }

  lemma AcceptedPush<T>(futures: seq<Future<T>>, f: Future<T>)
    ensures Accepted(futures + [f]) == Accepted(futures) + if f.ok then [f.item] else []
  {
  }

  /** Whoever is parked has its waker in its slot and could not go on if it were polled now. */
  predicate NobodyForgotten<T>(s: System<T>) {
    && s.q.recvWaker in {None, Some(RECEIVER)}
    && s.q.sendWaker in {None, Some(SENDER)}
    && (s.receiver == Parked ==> s.q.recvWaker.Some? && s.q.items == [] && !s.q.closed)
    && (s.sender == Parked ==> s.q.sendWaker.Some? && s.q.Filled() && !s.q.closed && s.held.Some?)
  }

  /** Received and queued is what was pushed; only the front of the queue can have come through poll_send. */
  ghost predicate Flowing<T>(s: System<T>) {
    && s.pushed == s.received + s.q.items
    && (forall i :: 0 <= i < |s.q.items| && s.q.items[i].awaited ==> i == 0 < s.q.max)
    && s.q.max <= 1
  }

  /** Each future's item went in once if the future returned Ok, and not at all otherwise. */
  ghost predicate Settled<T>(s: System<T>) {
    && Awaited(s.pushed) == Accepted(s.resolved)
    && s.offered == Items(s.resolved, s.held)
  }

  /** Taking a waker out of its slot is noticed by its task, also when the other slot is taken as well. */
  lemma WakesAreNoticed(wakes: seq<Task>, a: Task, b: Task)
    ensures a in (wakes + [a])[|wakes|..]
    ensures a in (wakes + [a] + [b])[|wakes|..] && b in (wakes + [a] + [b])[|wakes|..]
  {
    assert (wakes + [a])[|wakes|] == a;
    assert (wakes + [a])[|wakes|..][0] == a;
    assert (wakes + [a] + [b])[|wakes|..] == [a, b];
  }

  lemma NextForgetsNobody<T>(s: System<T>, e: Event<T>)
    requires NobodyForgotten(s)
    ensures NobodyForgotten(Next(s, e)) && Next(s, e).q.max == s.q.max
  {
    WakesAreNoticed(s.q.wakes, SENDER, RECEIVER);
    WakesAreNoticed(s.q.wakes, RECEIVER, SENDER);
  }

  lemma NextFlows<T>(s: System<T>, e: Event<T>)
    requires Flowing(s)
    ensures Flowing(Next(s, e))
  {
    if e == PollReceiver && s.q.items != [] && !s.q.closed {
      assert s.pushed == (s.received + [s.q.items[0]]) + s.q.items[1..];
    }
  }

  /** What a step appends to the logs: at most one entry each, and an awaited one only with its future. */
  ghost predicate Logged<T>(s: System<T>, s': System<T>) {
    || (s'.pushed == s.pushed && s'.resolved == s.resolved && s'.offered == s.offered && s'.held == s.held)
    || (s'.pushed == s.pushed && s'.resolved == s.resolved && s.held.None? && s'.held.Some?
        && s'.offered == s.offered + [s'.held.value])
    || (s'.resolved == s.resolved && s'.offered == s.offered && s'.held == s.held
        && |s'.pushed| == |s.pushed| + 1
        && s'.pushed == s.pushed + [s'.pushed[|s.pushed|]] && !s'.pushed[|s.pushed|].awaited)
    || (s.held.Some? && s'.held.None? && s'.offered == s.offered
        && s'.pushed == s.pushed && s'.resolved == s.resolved + [Future(s.held.value, false)])
    || (s.held.Some? && s'.held.None? && s'.offered == s.offered && s.q.max > 0
        && s'.pushed == s.pushed + [Entry(s.held.value, true)]
        && s'.resolved == s.resolved + [Future(s.held.value, true)])
  }

  lemma NextLogs<T>(s: System<T>, e: Event<T>)
    ensures Logged(s, Next(s, e)) && Next(s, e).q.max == s.q.max
  {
  }

  lemma LogsSettle<T>(s: System<T>, s': System<T>)
    requires Settled(s) && Logged(s, s')
    ensures Settled(s')
    ensures s.q.max == 0 ==> Accepted(s'.resolved) == Accepted(s.resolved)
  {
    if s'.resolved != s.resolved {
      AcceptedPush(s.resolved, s'.resolved[|s.resolved|]);
    }
    if s'.pushed != s.pushed {
      AwaitedPush(s.pushed, s'.pushed[|s.pushed|]);
    }
  }

  lemma {:induction false} RunKeeps<T>(s: System<T>, events: seq<Event<T>>)
    requires NobodyForgotten(s) && Flowing(s) && Settled(s)
    ensures var s' := Run(s, events); NobodyForgotten(s') && Flowing(s') && Settled(s') && s'.q.max == s.q.max
    decreases |events|
  {
    if events != [] {
      NextForgetsNobody(s, events[0]);
      NextFlows(s, events[0]);
      NextLogs(s, events[0]);
      LogsSettle(s, Next(s, events[0]));
      RunKeeps(Next(s, events[0]), events[1..]);
    }
  }

  /** In every reachable state a parked receiver faces an empty open queue and a parked sender a full
      open one, a poll of either would return Pending again, and with a capacity of 1 at most one of
      them is parked. */
  lemma NoLostWakeup<T>(size: nat, events: seq<Event<T>>)
    ensures var s := Run(Start<T>(size), events);
            && (s.receiver == Parked ==>
                  && s.q.items == [] && !s.q.closed && s.q.recvWaker == Some(RECEIVER)
                  && s.q.PollRead(RECEIVER).1.Pending?)
            && (s.sender == Parked ==>
                  && s.q.Filled() && !s.q.closed && s.q.sendWaker == Some(SENDER) && s.held.Some?
                  && s.q.PollSend(SENDER, Some(Entry(s.held.value, true))).1.Pending?)
            && (size >= 1 ==> !(s.receiver == Parked && s.sender == Parked))
  {
    RunKeeps(Start<T>(size), events);
  }

  /** In every run what was received, followed by what is queued, is what was pushed; every send future's
      item is pushed once if the future returns Ok and never otherwise, in the order of the sends; and of
      what is queued only the front, and nothing at all for a size of 0, can have come through poll_send. */
  lemma QueueHistory<T>(size: nat, events: seq<Event<T>>)
    ensures var s := Run(Start<T>(size), events);
            && s.pushed == s.received + s.q.items
            && Awaited(s.pushed) == Accepted(s.resolved)
            && s.offered == Items(s.resolved, s.held)
            && (forall i :: 0 <= i < |s.q.items| && s.q.items[i].awaited ==> i == 0 < size)
  {
    RunKeeps(Start<T>(size), events);
  }

  /** The items that came through block_send, in order. */
  function Unawaited<T>(entries: seq<Entry<T>>): seq<T> {
    if entries == [] then [] else
      var last := entries[|entries| - 1];
      Unawaited(entries[..|entries| - 1]) + if last.awaited then [] else [last.item]
  }

  /** The items of all block_sends before the first close, as the events say. */
  function BlockedBeforeShut<T>(events: seq<Event<T>>): seq<T> {
    if events == [] || events[0].Shut? then []
    else if events[0].Block? then [events[0].item] + BlockedBeforeShut(events[1..])
    else BlockedBeforeShut(events[1..])
  }

  lemma UnawaitedPush<T>(entries: seq<Entry<T>>, e: Entry<T>)
    ensures Unawaited(entries + [e]) == Unawaited(entries) + if e.awaited then [] else [e.item]
  {
  }

  /** What one event pushes through block_send on an open queue. */
  lemma NextBlocks<T>(s: System<T>, e: Event<T>)
    requires !s.q.closed
    ensures var s' := Next(s, e);
            && (s'.q.closed <==> e.Shut?)
            && Unawaited(s'.pushed) == if e.Block? then Unawaited(s.pushed) + [e.item] else Unawaited(s.pushed)
  {
    match e
    case Block(item) =>
      BlockSendIffOpen(s.q, Entry(item, false));
      UnawaitedPush(s.pushed, Entry(item, false));
    case PollSender => if s.held.Some? { UnawaitedPush(s.pushed, Entry(s.held.value, true)); }
    case _ =>
  }

  /** In every run, however full the queue is, what block_send was given before the queue was closed is
      pushed, every item once and in order, and nothing of what it was given afterwards. */
  lemma {:induction false} BlockSendNeverDrops<T>(s: System<T>, events: seq<Event<T>>)
    ensures Unawaited(Run(s, events).pushed)
            == if s.q.closed then Unawaited(s.pushed) else Unawaited(s.pushed) + BlockedBeforeShut(events)
    decreases |events|
  {
    if s.q.closed {
      NothingAfterClose(s, events);
    } else if events != [] {
      var s', rest := Next(s, events[0]), BlockedBeforeShut(events[1..]);
      NextBlocks(s, events[0]);
      BlockSendNeverDrops(s', events[1..]);
      if events[0].Block? {
        assert (Unawaited(s.pushed) + [events[0].item]) + rest == Unawaited(s.pushed) + ([events[0].item] + rest);
      }
    }
  }

  /** Once closed, always closed; nothing is pushed or received any more. */
  lemma {:induction false} NothingAfterClose<T>(s: System<T>, events: seq<Event<T>>)
    requires s.q.closed
    ensures var s' := Run(s, events);
            s'.q.closed && s'.received == s.received && s'.pushed == s.pushed && s'.q.items == s.q.items
    decreases |events|
  {
    if events != [] {
      NothingAfterClose(Next(s, events[0]), events[1..]);
    }
  }

  /** One step of a poll_send: pushed exactly if it returned Ok, else the item is still held. */
  lemma PushedIffOk<T>(q: Queue<T>, task: Task, item: T)
    ensures var (q', poll, left) := q.PollSend(task, Some(item));
            && (poll == Ready(Ok(())) <==> left.None?)
            && (left.None? ==> q'.items == q.items + [item] && !q.closed && |q.items| < q.max)
            && (left.Some? ==> left == Some(item) && q'.items == q.items)
            && (poll.Pending? <==> !q.closed && q.Filled())
  {
  }

  lemma {:induction false} RunOfSizeZero<T>(s: System<T>, events: seq<Event<T>>)
    requires s.q.max == 0 && Settled(s)
    ensures Accepted(Run(s, events).resolved) == Accepted(s.resolved)
    decreases |events|
  {
    if events != [] {
      NextLogs(s, events[0]);
      LogsSettle(s, Next(s, events[0]));
      RunOfSizeZero(Next(s, events[0]), events[1..]);
    }
  }

  /** Both tasks can come to be parked at once exactly if the queue was made with size 0; no send ever
      succeeds on such a queue. */
  lemma BothParkedIffSizeZero<T>(size: nat, item: T)
    ensures (exists events: seq<Event<T>> ::
               Run(Start<T>(size), events).sender == Parked && Run(Start<T>(size), events).receiver == Parked)
            <==> size == 0
    ensures size == 0 ==> forall events: seq<Event<T>> :: Accepted(Run(Start<T>(size), events).resolved) == []
  {
    if size == 0 {
      var start := Start<T>(0);
      var events := [StartSend(item), PollSender, PollReceiver];
      var s1 := Next(start, StartSend(item));
      var s2 := Next(s1, PollSender);
      assert events[1..] == [PollSender, PollReceiver];
      assert events[1..][1..] == [PollReceiver];
      assert Run(s2, [PollReceiver]) == Next(s2, PollReceiver);
      assert Run(s1, [PollSender, PollReceiver]) == Run(s2, [PollReceiver]);
      assert Run(start, events) == Run(s1, [PollSender, PollReceiver]);
      forall events: seq<Event<T>>
        ensures Accepted(Run(start, events).resolved) == []
      {
        RunOfSizeZero(start, events);
      }
    } else {
      forall events: seq<Event<T>>
        ensures !(Run(Start<T>(size), events).sender == Parked && Run(Start<T>(size), events).receiver == Parked)
      {
        NoLostWakeup(size, events);
      }
    }
  }
}
