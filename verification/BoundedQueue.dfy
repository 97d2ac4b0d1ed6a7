/** The bounded queue with one waker slot for the receiver and one for the sender. */
module BoundedQueue {
  import opened Prelude

  datatype Queue<T> = Queue(max: nat, items: seq<T>, closed: bool,
                            recvWaker: Option<Task>, sendWaker: Option<Task>, wakes: seq<Task>)
  {
    predicate Filled() {
      |items| >= max
    }

    function WakeRecv(): Queue<T> {
      if recvWaker.Some? then this.(recvWaker := None, wakes := wakes + [recvWaker.value]) else this
    }

    function WakeSend(): Queue<T> {
      if sendWaker.Some? then this.(sendWaker := None, wakes := wakes + [sendWaker.value]) else this
    }

    function Close(): Queue<T> {
      this.(closed := true).WakeRecv().WakeSend()
    }

    function PollRead(task: Task): (Queue<T>, Poll<Io<T>>) {
      if closed then (this, Ready(Interrupted))
      else if items == [] then (this.(recvWaker := Some(task)), Pending)
      else (this.(items := items[1..]).WakeSend(), Ready(Ok(items[0])))
    }

    /** The sender's data is taken, and its absence a panic, only when it is pushed. */
    function PollSend(task: Task, data: Option<T>): (Queue<T>, Poll<Io<()>>, Option<T>)
      requires !closed && !Filled() ==> data.Some?
    {
      if closed then (this, Ready(Interrupted), data)
      else if Filled() then (this.(sendWaker := Some(task)), Pending, data)
      else (this.(items := items + [data.value]).WakeRecv(), Ready(Ok(())), None)
    }

    function BlockSend(t: T): (Queue<T>, Io<()>) {
      if closed then (WakeSend(), Interrupted)
      else (this.(items := items + [t]).WakeRecv(), Ok(()))
    }
  }

  /** Queue::new: a size above 1 is cut down to 1. */
  function New<T>(size: nat): Queue<T> {
    Queue(if size < 1 then size else 1, [], false, None, None, [])
  }

  /** block_send looks at closed alone: on an open queue, full or not, the item goes in behind the others
      and a parked receiver is woken; on a closed one nothing goes in and a parked sender is woken. */
  lemma BlockSendIffOpen<T>(q: Queue<T>, t: T)
    ensures var (q', r) := q.BlockSend(t);
            && (r == Ok(()) <==> !q.closed) && (r == Interrupted <==> q.closed)
            && q'.items == (if q.closed then q.items else q.items + [t])
            && q'.closed == q.closed && q'.max == q.max
            && q'.recvWaker == (if q.closed then q.recvWaker else None)
            && q'.sendWaker == (if q.closed then None else q.sendWaker)
            && q'.wakes == q.wakes + Occupant(if q.closed then q.sendWaker else q.recvWaker)
  {
  }

  function Occupant(waker: Option<Task>): seq<Task> {
    if waker.Some? then [waker.value] else []
  }

  class QueueImpl<T> {
    const max: nat
    var queue: seq<T>
    var closed: bool
    var recvWaker: Option<Task>
    var sendWaker: Option<Task>
    var wakes: seq<Task>

    function Snapshot(): Queue<T>
      reads this
    {
      Queue(max, queue, closed, recvWaker, sendWaker, wakes)
    }

    constructor (size: nat)
      ensures Snapshot() == New(size)
    {
      max := if size < 1 then size else 1;
      queue, closed, recvWaker, sendWaker, wakes := [], false, None, None, [];
    }

    method WakeRecv()
      modifies this
      ensures Snapshot() == old(Snapshot()).WakeRecv()
    {
      if recvWaker.Some? {
        wakes := wakes + [recvWaker.value];
        recvWaker := None;
      }
    }

    method WakeSend()
      modifies this
      ensures Snapshot() == old(Snapshot()).WakeSend()
    {
      if sendWaker.Some? {
        wakes := wakes + [sendWaker.value];
        sendWaker := None;
      }
    }

    method Close()
      modifies this
      ensures Snapshot() == old(Snapshot()).Close()
    {
      closed := true;
      WakeRecv();
      WakeSend();
    }

    method PollRead(task: Task) returns (poll: Poll<Io<T>>)
      modifies this
      ensures (Snapshot(), poll) == old(Snapshot()).PollRead(task)
    {
      if closed {
        return Ready(Interrupted);
      }
      if queue == [] {
        recvWaker := Some(task);
        return Pending;
      }
      var data := queue[0];
      queue := queue[1..];
      WakeSend();
      poll := Ready(Ok(data));
    }

    method PollSend(task: Task, data: Option<T>) returns (poll: Poll<Io<()>>, left: Option<T>)
      requires !closed && !Snapshot().Filled() ==> data.Some?
      modifies this
      ensures (Snapshot(), poll, left) == old(Snapshot()).PollSend(task, data)
    {
      left := data;
      if closed {
        return Ready(Interrupted), left;
      }
      if |queue| >= max {
        sendWaker := Some(task);
        poll := Pending;
      } else {
        queue := queue + [data.value];
        left := None;
        WakeRecv();
        poll := Ready(Ok(()));
      }
    }

    method BlockSend(t: T) returns (r: Io<()>)
      modifies this
      ensures (Snapshot(), r) == old(Snapshot()).BlockSend(t)
    {
      if closed {
        WakeSend();
        r := Interrupted;
      } else {
        queue := queue + [t];
        WakeRecv();
        r := Ok(());
      }
    }
  }
}
