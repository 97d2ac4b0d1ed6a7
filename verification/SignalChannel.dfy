/** The signal channel on top of the queue, the biased select, and the two control loops that it pauses,
    resumes and stops. */
module SignalChannel {
  import opened Prelude
  import opened BoundedQueue

  datatype SigResult<+T> = Got(value: T) | SignalReadClosed | SignalSendClosed | SignalFailed

  datatype Signal<T> = Signal(que: Queue<T>, readClosed: bool, sendClosed: bool)
  {
    function CloseRead(): Signal<T> {
      Signal(que.Close(), true, sendClosed)
    }

    function CloseWrite(): Signal<T> {
      Signal(que.Close(), readClosed, true)
    }

    function PollSend(task: Task, data: Option<T>): (Signal<T>, Poll<SigResult<()>>, Option<T>)
      requires !readClosed && !que.closed && !que.Filled() ==> data.Some?
    {
      if readClosed then (this, Ready(SignalReadClosed), data)
      else
        var (q, poll, left) := que.PollSend(task, data);
        match poll
        case Pending => (this.(que := q), Pending, left)
        case Ready(Ok(u)) => (this.(que := q), Ready(Got(u)), left)
        case Ready(Interrupted) => (Signal(q, true, sendClosed), Ready(SignalReadClosed), left)
        case Ready(_) => (this.(que := q), Ready(SignalFailed), left)
    }

    function PollRecv(task: Task): (Signal<T>, Poll<SigResult<T>>) {
      if sendClosed then (this, Ready(SignalSendClosed))
      else
        var (q, poll) := que.PollRead(task);
        match poll
        case Pending => (this.(que := q), Pending)
        case Ready(Ok(t)) => (this.(que := q), Ready(Got(t)))
        case Ready(Interrupted) => (Signal(q, readClosed, true), Ready(SignalReadClosed))
        case Ready(_) => (this.(que := q), Ready(SignalFailed))
    }
  }

  /** What a send answers: Got exactly if the signal entered the channel, Pending exactly if the channel is
      open and full; a channel that either side has closed is reported as closed by the reader. A signal
      that did not enter is still the sender's. */
  lemma SendAnswers<T>(s: Signal<T>, task: Task, t: T)
    ensures var (s', poll, left) := s.PollSend(task, Some(t));
            && (poll == Ready(Got(())) <==> left.None?)
            && (left.None? <==> !s.readClosed && !s.que.closed && !s.que.Filled())
            && s'.que.items == (if left.None? then s.que.items + [t] else s.que.items)
            && (left.Some? ==> left == Some(t))
            && (poll.Pending? <==> !s.readClosed && !s.que.closed && s.que.Filled())
            && (poll == Ready(SignalReadClosed) <==> s.readClosed || s.que.closed)
            && s'.readClosed == (s.readClosed || s.que.closed) && s'.sendClosed == s.sendClosed
  {
  }

  /** What a receive answers: the front signal, or Pending exactly if the channel is open and empty. A channel
      closed by its writer is reported so; one closed by its reader is reported as that once, and as closed
      by its writer from then on. */
  lemma RecvAnswers<T>(s: Signal<T>, task: Task)
    ensures var (s', poll) := s.PollRecv(task);
            && (poll.Ready? && poll.value.Got? <==> !s.sendClosed && !s.que.closed && s.que.items != [])
            && (poll.Ready? && poll.value.Got? ==> s.que.items == [poll.value.value] + s'.que.items)
            && (poll.Pending? <==> !s.sendClosed && !s.que.closed && s.que.items == [])
            && (poll == Ready(SignalSendClosed) <==> s.sendClosed)
            && (poll == Ready(SignalReadClosed) <==> !s.sendClosed && s.que.closed)
            && s'.sendClosed == (s.sendClosed || s.que.closed) && s'.readClosed == s.readClosed
  {
  }

  /** Whichever side closes, the other one is told at its next poll, and who closed it: the two ends of the
      same close differ only in what the receiver hears first. */
  lemma CloseIsTold<T>(s: Signal<T>, task: Task, t: T)
    requires !s.que.closed && !s.readClosed && !s.sendClosed
    ensures var r := s.CloseRead();
            && r.PollSend(task, Some(t)).1 == Ready(SignalReadClosed)
            && r.PollRecv(task).1 == Ready(SignalReadClosed)
            && r.PollRecv(task).0.PollRecv(task).1 == Ready(SignalSendClosed)
    ensures var w := s.CloseWrite();
            && w.PollSend(task, Some(t)).1 == Ready(SignalReadClosed)
            && w.PollRecv(task).1 == Ready(SignalSendClosed)
    ensures s.CloseRead().readClosed && !s.CloseRead().sendClosed && !s.CloseWrite().readClosed
    ensures s.CloseRead().que.items == s.CloseWrite().que.items == s.que.items
  {
  }

  class SignalImpl<T> {
    const que: QueueImpl<T>
    var readClosed: bool
    var sendClosed: bool

    function Snapshot(): Signal<T>
      reads this, que
    {
      Signal(que.Snapshot(), readClosed, sendClosed)
    }

    constructor (size: nat)
      ensures Snapshot() == Signal(New(size), false, false) && fresh(que)
    {
      que := new QueueImpl<T>(size);
      readClosed, sendClosed := false, false;
    }

    method CloseWrite()
      modifies this, que
      ensures Snapshot() == old(Snapshot()).CloseWrite()
    {
      sendClosed := true;
      que.Close();
    }

    method CloseRead()
      modifies this, que
      ensures Snapshot() == old(Snapshot()).CloseRead()
    {
      readClosed := true;
      que.Close();
    }

    method PollSend(task: Task, data: Option<T>) returns (poll: Poll<SigResult<()>>, left: Option<T>)
      requires !readClosed && !que.closed && !que.Snapshot().Filled() ==> data.Some?
      modifies this, que
      ensures (Snapshot(), poll, left) == old(Snapshot()).PollSend(task, data)
    {
      left := data;
      if readClosed {
        return Ready(SignalReadClosed), left;
      }
      var sent;
      sent, left := que.PollSend(task, data);
      match sent {
        case Pending => poll := Pending;
        case Ready(Ok(u)) => poll := Ready(Got(u));
        case Ready(Interrupted) =>
          readClosed := true;
          poll := Ready(SignalReadClosed);
        case Ready(_) => poll := Ready(SignalFailed);
      }
    }

    method PollRecv(task: Task) returns (poll: Poll<SigResult<T>>)
      modifies this, que
      ensures (Snapshot(), poll) == old(Snapshot()).PollRecv(task)
    {
      if sendClosed {
        return Ready(SignalSendClosed);
      }
      var read := que.PollRead(task);
      match read {
        case Pending => poll := Pending;
        case Ready(Ok(t)) => poll := Ready(Got(t));
        case Ready(Interrupted) =>
          sendClosed := true;
          poll := Ready(SignalReadClosed);
        case Ready(_) => poll := Ready(SignalFailed);
      }
    }
  }

  /** KcpReadSig and KcpUpdateSig; Quit of the one is Stop of the other. */
  datatype Control = Pause | Resume | Stop

  /** What the data source answers: a packet or an ignored result keeps the loop going, the poller's
      result or an i/o error ends it. */
  datatype Data = Goes | Ends

  datatype Sig = DataReady(data: Data) | SignalReady(sig: SigResult<Control>)

  /** What a control loop holds between two polls. */
  datatype LoopState = LoopState(paused: bool, done: bool)
  {
    function Handle(sig: Sig): LoopState {
      match sig
      case DataReady(data) => this.(done := data.Ends?)
      case SignalReady(Got(Pause)) => this.(paused := true)
      case SignalReady(Got(Resume)) => this.(paused := false)
      case SignalReady(_) => this.(done := true)
    }
  }

  /** Anyone::poll on the loop's two futures: the data source first, the signal only if that is pending. */
  function Select(sig: Signal<Control>, paused: bool, data: Poll<Data>, task: Task): (Signal<Control>, Poll<Sig>) {
    if !paused && data.Ready? then (sig, Ready(DataReady(data.value)))
    else
      var (s, poll) := sig.PollRecv(task);
      (s, if poll.Pending? then Pending else Ready(SignalReady(poll.value)))
  }

  class ControlLoop {
    const signal: SignalImpl<Control>
    var paused: bool
    var done: bool

    constructor (signal: SignalImpl<Control>)
      ensures this.signal == signal && paused && !done
    {
      this.signal := signal;
      paused, done := true, false;
    }

    function Snapshot(): LoopState
      reads this
    {
      LoopState(paused, done)
    }

    /** The loop over the futures; the first one that is ready wins, and later ones are not polled. */
    method SelectFirst(data: Poll<Data>, task: Task) returns (r: Poll<Sig>)
      modifies signal, signal.que
      ensures (signal.Snapshot(), r) == Select(old(signal.Snapshot()), paused, data, task)
      ensures r.Ready? && r.value.DataReady? ==> signal.Snapshot() == old(signal.Snapshot())
    {
      r := Pending;
      var i := 0;
      while i < 2
        invariant 0 <= i <= 2 && r == Pending
        invariant i <= 1 ==> signal.Snapshot() == old(signal.Snapshot())
        invariant i >= 1 ==> paused || data.Pending?
        invariant i == 2 ==> (signal.Snapshot(), r) == Select(old(signal.Snapshot()), paused, data, task)
      {
        if i == 0 {
          if !paused && data.Ready? {
            return Ready(DataReady(data.value));
          }
        } else {
          var poll := signal.PollRecv(task);
          if poll.Ready? {
            return Ready(SignalReady(poll.value));
          }
        }
        i := i + 1;
      }
    }

    /** One poll of the loop's task. */
    method Poll(data: Poll<Data>, task: Task)
      requires !done
      modifies this, signal, signal.que
      ensures var (s, r) := Select(old(signal.Snapshot()), old(paused), data, task);
              && signal.Snapshot() == s
              && Snapshot() == if r.Ready? then old(Snapshot()).Handle(r.value) else old(Snapshot())
    {
      var r := SelectFirst(data, task);
      match r {
        case Pending =>
        case Ready(DataReady(d)) => done := d.Ends?;
        case Ready(SignalReady(Got(Pause))) => paused := true;
        case Ready(SignalReady(Got(Resume))) => paused := false;
        case Ready(SignalReady(_)) => done := true;
      }
    }
  }

  // ---------------------------------------------------------------- Runs of a control loop

  datatype System = System(
    sig: Signal<Control>,
    loop: LoopState,
    sent: seq<Control>,        // the signals that entered the channel
    delivered: seq<Control>,   // those the loop got
    consulted: seq<nat>,       // how many had been delivered each time the data source was polled
    taken: seq<Data>,          // the answers of the data source while the delivered signals left it running
    metClosed: bool)           // the loop polled a closed channel

  datatype Event = PollLoop(data: Poll<Data>) | SendSignal(control: Control, task: Task) | ReaderCloses | WriterCloses

  const LOOP: Task := 0

  function Start(size: nat): System {
    System(Signal(New(size), false, false), LoopState(true, false), [], [], [], [], false)
  }

  function LoopPolled(s: System, data: Poll<Data>): System {
    var (sig, r) := Select(s.sig, s.loop.paused, data, LOOP);
    var answered := !PausedAfter(s.delivered) && data.Ready?;
    var s' := s.(sig := sig, consulted := if s.loop.paused then s.consulted else s.consulted + [|s.delivered|],
                 taken := if answered then s.taken + [data.value] else s.taken,
                 metClosed := s.metClosed || (!answered && s.sig.que.closed));
    if r.Pending? then s'
    else s'.(loop := s.loop.Handle(r.value),
             delivered := if r.value.SignalReady? && r.value.sig.Got? then s.delivered + [r.value.sig.value]
                          else s.delivered)
  }

  function Next(s: System, e: Event): System {
    match e
    case PollLoop(data) => if s.loop.done then s else LoopPolled(s, data)
    case SendSignal(control, task) =>
      var (sig, poll, left) := s.sig.PollSend(task, Some(control));
      s.(sig := sig, sent := if left.None? then s.sent + [control] else s.sent)
    case ReaderCloses => s.(sig := s.sig.CloseRead())
    case WriterCloses => s.(sig := s.sig.CloseWrite())
  }

  function Run(s: System, events: seq<Event>): System
    decreases |events|
  {
    if events == [] then s else Run(Next(s, events[0]), events[1..])
  }

  /** The pause flag after a history of signals: paused at first, then what the last Pause or Resume says. */
  function PausedAfter(delivered: seq<Control>): bool {
    if delivered == [] then true else
      match delivered[|delivered| - 1]
      case Pause => true
      case Resume => false
      case Stop => PausedAfter(delivered[..|delivered| - 1])
  }

  predicate Controlled(s: System) {
    && s.sent == s.delivered + s.sig.que.items
    && s.loop.paused == PausedAfter(s.delivered)
    && (forall i :: 0 <= i < |s.delivered| && s.delivered[i] == Stop ==> i == |s.delivered| - 1 && s.loop.done)
    && (forall n :: n in s.consulted ==> n <= |s.delivered| && !PausedAfter(s.delivered[..n]))
  }

  /** The three ways for a loop to end: a Stop, a closed channel, and an answer of the data source that ends it. */
  predicate Over(s: System) {
    Stop in s.delivered || s.metClosed || Ends in s.taken
  }

  lemma DeliveryControls(s: System, control: Control, s': System)
    requires Controlled(s) && !s.loop.done
    requires s'.sent == s.sent && s'.delivered == s.delivered + [control]
    requires s.sig.que.items == [control] + s'.sig.que.items
    requires s'.loop == s.loop.Handle(SignalReady(Got(control)))
    requires s'.consulted == s.consulted || (s'.consulted == s.consulted + [|s.delivered|] && !s.loop.paused)
    ensures Controlled(s')
  {
    assert s'.delivered[..|s.delivered|] == s.delivered;
    forall n | n in s'.consulted
      ensures n <= |s'.delivered| && !PausedAfter(s'.delivered[..n])
    {
      assert s'.delivered[..n] == s.delivered[..n];
      assert s.delivered[..|s.delivered|] == s.delivered;
    }
  }

  lemma NextControls(s: System, e: Event)
    requires Controlled(s)
    ensures Controlled(Next(s, e))
  {
    var s' := Next(s, e);
    assert s.delivered[..|s.delivered|] == s.delivered;
    if s'.delivered != s.delivered {
      DeliveryControls(s, s.sig.que.items[0], s');
    }
  }

  /** In every run the signals the loop got are a prefix of those sent, in order, with the rest still
      queued; the pause flag is the fold of that prefix; nothing is delivered after a Stop, which ends
      the loop; and the data source was polled only when the signals got so far left the loop unpaused. */
  lemma {:induction false} ControlLoopFollowsSignals(s: System, events: seq<Event>)
    requires Controlled(s)
    ensures var s' := Run(s, events);
            && Controlled(s')
            && s'.delivered <= s'.sent
            && s'.sent[|s'.delivered|..] == s'.sig.que.items
            && (Stop in s'.delivered ==> s'.loop.done)
    decreases |events|
  {
    if events != [] {
      NextControls(s, events[0]);
      ControlLoopFollowsSignals(Next(s, events[0]), events[1..]);
    }
  }

  /** A loop is done exactly if it is over, and a writer that has closed has closed the queue. */
  predicate Ended(s: System) {
    (s.loop.done <==> Over(s)) && (s.sig.sendClosed ==> s.sig.que.closed)
  }

  lemma StartIsControlled(size: nat)
    ensures Controlled(Start(size)) && Ended(Start(size))
  {
  }

  lemma PollEnds(s: System, data: Poll<Data>)
    requires Controlled(s) && Ended(s) && !s.loop.done
    ensures Ended(LoopPolled(s, data))
  {
    var s' := LoopPolled(s, data);
    if s'.delivered != s.delivered {
      assert s'.delivered == s.delivered + [s.sig.que.items[0]];
    }
  }

  /** In every run the loop is done exactly if a Stop was delivered, or a poll found the channel closed, or
      the data source gave an answer that ends it while the delivered signals had left it running. */
  lemma LoopEndsIff(size: nat, events: seq<Event>)
    ensures var s := Run(Start(size), events); s.loop.done <==> Over(s)
  {
    StartIsControlled(size);
    RunEnds(Start(size), events);
  }

  lemma {:induction false} RunEnds(s: System, events: seq<Event>)
    requires Controlled(s) && Ended(s)
    ensures Ended(Run(s, events))
    decreases |events|
  {
    if events != [] {
      NextControls(s, events[0]);
      if events[0].PollLoop? && !s.loop.done { PollEnds(s, events[0].data); }
      RunEnds(Next(s, events[0]), events[1..]);
    }
  }

  lemma ClosedMovesNothing(s: System, e: Event)
    requires s.sig.que.closed
    ensures var s' := Next(s, e);
            s'.sig.que.closed && s'.sent == s.sent && s'.delivered == s.delivered && s'.sig.que.items == s.sig.que.items
  {
  }

  /** Once either side has closed, nothing is sent or delivered any more, and the next poll of the signal
      alone ends the loop; so every signal sent is delivered exactly if none was queued at the close. */
  lemma {:induction false} ClosedChannelIsDead(s: System, events: seq<Event>, data: Poll<Data>)
    requires s.sig.que.closed && Controlled(s)
    ensures var s' := Run(s, events);
            && s'.sig.que.closed && s'.sent == s.sent && s'.delivered == s.delivered
            && (s'.delivered == s'.sent <==> s.sig.que.items == [])
            && (s'.loop.paused || data.Pending? ==> Next(s', PollLoop(data)).loop.done)
    decreases |events|
  {
    if events != [] {
      NextControls(s, events[0]);
      ClosedMovesNothing(s, events[0]);
      ClosedChannelIsDead(Next(s, events[0]), events[1..], data);
    }
  }
}
