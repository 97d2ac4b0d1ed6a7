/** The closer task: it turns close requests into pending futures, polls them all whenever no request is
    waiting, and then removes the key of the last one that completed. Keys are conversations on the
    client and (id, conversation) pairs on the server. */
module Closer {
  import opened Prelude
  import opened Session
  import opened SessionTable
  import P = Poller

  /** Those of the first n elements whose flag is want, in order. */
  function Select<T>(xs: seq<T>, flags: seq<bool>, want: bool, n: nat): seq<T>
    requires n <= |xs| && n <= |flags|
  {
    if n == 0 then []
    else if flags[n - 1] == want then Select(xs, flags, want, n - 1) + [xs[n - 1]]
    else Select(xs, flags, want, n - 1)
  }

  /** All elements whose flag is want. */
  function Chosen<T>(xs: seq<T>, flags: seq<bool>, want: bool): seq<T>
    requires |xs| == |flags|
  {
    Select(xs, flags, want, |xs|)
  }

  /** The last of the first n elements whose flag is set. */
  function Latest<T>(xs: seq<T>, flags: seq<bool>, n: nat): Option<T>
    requires n <= |xs| && n <= |flags|
  {
    if n == 0 then None else if flags[n - 1] then Some(xs[n - 1]) else Latest(xs, flags, n - 1)
  }

  lemma {:induction false} LatestIsLast<T>(xs: seq<T>, flags: seq<bool>, n: nat)
    requires n <= |xs| == |flags|
    ensures var done := Select(xs, flags, true, n);
            Latest(xs, flags, n) == if done == [] then None else Some(done[|done| - 1])
  {
    if n > 0 { LatestIsLast(xs, flags, n - 1); }
  }

  /** How often want is among the first n flags. */
  function Count(flags: seq<bool>, want: bool, n: nat): nat
    requires n <= |flags|
  {
    if n == 0 then 0 else Count(flags, want, n - 1) + if flags[n - 1] == want then 1 else 0
  }

  /** What is selected is each element whose flag is want, once and in order, and nothing else. */
  lemma {:induction false} SelectKeepsOrder<T>(xs: seq<T>, flags: seq<bool>, want: bool, n: nat, i: nat)
    requires n <= |xs| && n <= |flags|
    ensures var chosen := Select(xs, flags, want, n);
            && |chosen| == Count(flags, want, n)
            && (i < n && flags[i] == want ==>
                  Count(flags, want, i) < |chosen| && chosen[Count(flags, want, i)] == xs[i])
  {
    if n > 0 { SelectKeepsOrder(xs, flags, want, n - 1, i); }
  }

  lemma {:induction false} SelectIgnoresRest<T>(xs: seq<T>, flags: seq<bool>, flag: bool, want: bool, n: nat)
    requires n <= |xs| && n <= |flags|
    ensures Select(xs, flags + [flag], want, n) == Select(xs, flags, want, n)
    ensures Latest(xs, flags + [flag], n) == Latest(xs, flags, n)
  {
    if n > 0 { SelectIgnoresRest(xs, flags, flag, want, n - 1); }
  }

  lemma OneIsChosen<T>(xs: seq<T>, flags: seq<bool>)
    requires |xs| == |flags| == 1 && flags[0]
    ensures Chosen(xs, flags, true) == xs && Chosen(xs, flags, false) == [] && Latest(xs, flags, 1) == Some(xs[0])
  {
    assert Select(xs, flags, true, 0) == [] && Select(xs, flags, false, 0) == [];
  }

  // ---------------------------------------------------------------- The task

  /** A close that was asked for: the key it came with, and the session the key stood for then. */
  datatype Request<K, S> = Request(key: K, session: S)

  /** What one poll_close is told: unacknowledged segments and the clock. */
  datatype CloseAnswers = CloseAnswers(waitsnd: U32, now: U32)

  /** poll_close would be Ready. */
  predicate Closable(s: State, t: CloseAnswers) {
    s.IsClosed() || (t.waitsnd == 0 && s.lastSend <= t.now && t.now - s.lastSend >= s.closeDelay)
  }

  /** What poll_close looks at does not differ. */
  predicate SameToClose(s: State, s': State) {
    s'.IsClosed() == s.IsClosed() && s'.lastSend == s.lastSend && s'.closeDelay == s.closeDelay
  }

  lemma PollCloseIs(s: State, task: Task, t: CloseAnswers)
    ensures var (s', poll) := s.PollClose(task, t.waitsnd, t.now);
            && (poll.Ready? <==> Closable(s, t))
            && SameToClose(s, s')
            && (poll.Pending? ==> s'.closeFlag == 1 && s'.closeWaker == Some(task))
            && (poll.Ready? ==> s' == s)
  {
  }

  function Kcps<K>(requests: seq<Request<K, SafeKcp>>): set<SafeKcp> {
    set i | 0 <= i < |requests| :: requests[i].session
  }

  ghost function Flags<K>(requests: seq<Request<K, SafeKcp>>, turns: nat -> CloseAnswers): (flags: seq<bool>)
    reads Kcps(requests)
    ensures |flags| == |requests|
    ensures forall i :: 0 <= i < |requests| ==> flags[i] == Closable(requests[i].session.Snapshot(), turns(i))
  {
    seq(|requests|, i requires 0 <= i < |requests| reads Kcps(requests) =>
      Closable(requests[i].session.Snapshot(), turns(i)))
  }

  /** The session is closing, and will wake the task when it can be closed. */
  predicate Marked(kcp: SafeKcp, task: Task)
    reads kcp
  {
    kcp.closeFlag == 1 && kcp.closeWaker == Some(task)
  }

  ghost predicate AllMarked(kcps: set<SafeKcp>, task: Task)
    reads kcps
  {
    forall kcp :: kcp in kcps ==> Marked(kcp, task)
  }

  /** No session has changed in what poll_close looks at. */
  ghost predicate AllSameToClose(before: map<SafeKcp, State>)
    reads before.Keys
  {
    forall kcp :: kcp in before ==> SameToClose(before[kcp], kcp.Snapshot())
  }

  /** In a pass that began with the sessions in the states before, of which those in closed were closed: the
      sessions in marked have been polled and were not ready. If shared, other tasks use the sessions. */
  ghost predicate InPass(before: map<SafeKcp, State>, closed: set<SafeKcp>, marked: set<SafeKcp>, task: Task,
                         shared: bool)
    reads before.Keys
  {
    && closed <= before.Keys && marked <= before.Keys && P.AllClosed(closed)
    && (!shared ==> AllSameToClose(before) && AllMarked(marked, task))
  }

  /** An answer that poll_close may give: Ready on a session that is closed already, and what the pass
      began with decides if nobody else uses the sessions. */
  predicate Answerable(s: State, t: CloseAnswers, isClosed: bool, shared: bool, isReady: bool) {
    (isClosed ==> isReady) && (!shared ==> isReady == Closable(s, t))
  }

  /** One poll of a pending future in a pass. */
  method PollFuture(kcp: SafeKcp, task: Task, t: CloseAnswers, shared: bool,
                    ghost before: map<SafeKcp, State>, ghost closed: set<SafeKcp>, ghost marked: set<SafeKcp>)
    returns (ready: bool)
    requires kcp in before && InPass(before, closed, marked, task, shared)
    modifies before.Keys
    ensures InPass(before, closed, if ready then marked else marked + {kcp}, task, shared)
    ensures Answerable(before[kcp], t, kcp in closed, shared, ready)
  {
    P.Interference(before.Keys, closed, shared);
    PollCloseIs(kcp.Snapshot(), task, t);
    var poll := kcp.PollClose(task, t.waitsnd, t.now);
    ready := poll.Ready?;
  }

  /** What a pass has made of the first n requests, given the answers of poll_close, of which those on
      sessions in closed are Ready and, if nobody else uses the sessions, all are as in flags. */
  predicate Passes<K(==)>(futures: seq<Request<K, SafeKcp>>, closed: set<SafeKcp>, flags: seq<bool>, shared: bool,
                          ready: seq<bool>, left: seq<Request<K, SafeKcp>>, last: Option<Request<K, SafeKcp>>)
  {
    && |ready| <= |futures| == |flags|
    && left == Select(futures, ready, false, |ready|) && last == Latest(futures, ready, |ready|)
    && (forall i :: 0 <= i < |ready| && futures[i].session in closed ==> ready[i])
    && (!shared ==> ready == flags[..|ready|])
  }

  lemma PassesNext<K>(futures: seq<Request<K, SafeKcp>>, closed: set<SafeKcp>, flags: seq<bool>, shared: bool,
                      ready: seq<bool>, left: seq<Request<K, SafeKcp>>, last: Option<Request<K, SafeKcp>>, flag: bool)
    requires Passes(futures, closed, flags, shared, ready, left, last) && |ready| < |futures|
    requires futures[|ready|].session in closed ==> flag
    requires !shared ==> flag == flags[|ready|]
    ensures var r := futures[|ready|];
            Passes(futures, closed, flags, shared, ready + [flag], if flag then left else left + [r],
                   if flag then Some(r) else last)
  {
    SelectIgnoresRest(futures, ready, flag, false, |ready|);
    assert flags[..|ready| + 1] == flags[..|ready|] + [flags[|ready|]];
  }

  /** The retain_mut loop, in a pass that began with the sessions in the states before. */
  method PollAll<K>(futures: seq<Request<K, SafeKcp>>, task: Task, turns: nat -> CloseAnswers, shared: bool,
                    ghost before: map<SafeKcp, State>, ghost closed: set<SafeKcp>, ghost flags: seq<bool>)
    returns (left: seq<Request<K, SafeKcp>>, last: Option<Request<K, SafeKcp>>, ghost ready: seq<bool>)
    requires before.Keys == Kcps(futures) && InPass(before, closed, {}, task, shared) && |flags| == |futures|
    requires forall i :: 0 <= i < |futures| ==> flags[i] == Closable(before[futures[i].session], turns(i))
    modifies Kcps(futures)
    ensures |ready| == |futures| && Passes(futures, closed, flags, shared, ready, left, last)
    ensures InPass(before, closed, Kcps(left), task, shared)
  {
    left, last, ready := [], None, [];
    for n := 0 to |futures|
      invariant |ready| == n && Passes(futures, closed, flags, shared, ready, left, last)
      invariant InPass(before, closed, Kcps(left), task, shared)
    {
      var r := futures[n];
      assert r.session in Kcps(futures) && flags[n] == Closable(before[r.session], turns(n));
      var isReady := PollFuture(r.session, task, turns(n), shared, before, closed, Kcps(left));
      KcpsAppend(left, r);
      PassesNext(futures, closed, flags, shared, ready, left, last, isReady);
      left, last := if isReady then left else left + [r], if isReady then Some(r) else last;
      ready := ready + [isReady];
    }
  }

  lemma KcpsAppend<K>(requests: seq<Request<K, SafeKcp>>, r: Request<K, SafeKcp>)
    ensures Kcps(requests + [r]) == Kcps(requests) + {r.session}
  {
    var all := requests + [r];
    forall kcp | kcp in Kcps(requests) + {r.session}
      ensures kcp in Kcps(all)
    {
      if kcp == r.session {
        assert all[|requests|].session == kcp;
      } else {
        var i :| 0 <= i < |requests| && requests[i].session == kcp;
        assert all[i].session == kcp;
      }
    }
  }

  /** The pass over the pending futures: exactly those whose poll_close is Ready leave, and the last of
      them is returned. A session that is closed is Ready even if other tasks use the sessions between the
      polls (shared). If they do not, Ready are those that are closed or have nothing left to send and
      have been quiet for close_delay; all others are marked as closing and will wake the task. */
  method RetainPending<K>(futures: seq<Request<K, SafeKcp>>, task: Task, turns: nat -> CloseAnswers, shared: bool)
    returns (left: seq<Request<K, SafeKcp>>, last: Option<Request<K, SafeKcp>>, ghost ready: seq<bool>)
    modifies Kcps(futures)
    ensures |ready| == |futures|
    ensures left == Chosen(futures, ready, false) && last == Latest(futures, ready, |futures|)
    ensures forall i :: 0 <= i < |futures| && old(futures[i].session.Snapshot()).IsClosed() ==> ready[i]
    ensures !shared ==> ready == old(Flags(futures, turns))
    ensures !shared ==> forall kcp :: kcp in Kcps(futures) ==> SameToClose(old(kcp.Snapshot()), kcp.Snapshot())
    ensures !shared ==> forall kcp :: kcp in Kcps(left) ==> Marked(kcp, task)
  {
    ghost var all := Kcps(futures);
    ghost var before := P.Snapshots(all);
    ghost var closed := set kcp | kcp in all && before[kcp].IsClosed();
    assert forall i :: 0 <= i < |futures| ==> futures[i].session in all;
    ghost var flags := Flags(futures, turns);
    left, last, ready := PollAll(futures, task, turns, shared, before, closed, flags);
    assert flags[..|flags|] == flags;
  }

  // ---------------------------------------------------------------- Accounts

  /** The session table and the closer's list, with the books over the whole run. */
  datatype Account<!K(==), !S(==)> = Account(
    table: map<K, S>,
    used: set<S>,                    // sessions ever opened
    pending: seq<Request<K, S>>,
    submitted: seq<K>,
    found: seq<Request<K, S>>,       // submitted, with what the table held at that time
    completed: seq<Request<K, S>>,   // reported Ready by poll_close
    removed: seq<Request<K, S>>,     // whose key was handed to remove_kcp
    taken: seq<Option<S>>,           // what remove_kcp found under that key, and closed
    due: Option<Request<K, S>>)      // the last that completed in a pass, not yet removed

  /** Submitted, Passed and Cleaned are steps of the closer; the others come from other tasks. */
  datatype Event<K, S> =
    Submitted(key: K) | Passed(ready: seq<bool>) | Cleaned | Opened(key: K, session: S) | Gone(key: K)

  /** What the table holds under key. */
  function Held<K(==), S>(table: map<K, S>, key: K): Option<S> {
    if key in table then Some(table[key]) else None
  }

  function Remove<K(==), S(==)>(a: Account<K, S>, r: Request<K, S>): Account<K, S> {
    a.(removed := a.removed + [r], taken := a.taken + [Held(a.table, r.key)], table := a.table - {r.key})
  }

  /** The closer makes this pass: what the last one left to clean is done, and there is an answer for each future. */
  predicate IsPass<K(==), S>(a: Account<K, S>, e: Event<K, S>) {
    e.Passed? && a.due.None? && |e.ready| == |a.pending|
  }

  /** One event. Steps of the closer that are not its next one, and Opened with a session that is not new,
      are none. */
  function Next<K(==), S(==)>(a: Account<K, S>, e: Event<K, S>): Account<K, S> {
    match e
    case Submitted(key) =>
      var b := a.(submitted := a.submitted + [key]);
      if a.due.Some? then a else if key !in a.table then b else
        var r := Request(key, a.table[key]);
        b.(pending := a.pending + [r], found := a.found + [r])
    case Passed(ready) =>
      if !IsPass(a, e) then a else
        a.(pending := Chosen(a.pending, ready, false), completed := a.completed + Chosen(a.pending, ready, true),
           due := Latest(a.pending, ready, |a.pending|))
    case Cleaned => if a.due.None? then a else Remove(a.(due := None), a.due.value)
    case Opened(key, session) =>
      if session in a.used then a else a.(table := a.table[key := session], used := a.used + {session})
    case Gone(key) => a.(table := a.table - {key})
  }

  function Run<K(==), S(==)>(a: Account<K, S>, events: seq<Event<K, S>>): Account<K, S>
    decreases |events|
  {
    if events == [] then a else Run(Next(a, events[0]), events[1..])
  }

  // ---------------------------------------------------------------- A turn of the loop

  /** The event of a turn: a request that is waiting, or a pass in which poll_close answers as told. */
  function TurnEvent<K, S>(request: Option<K>, ready: seq<bool>): Event<K, S> {
    if request.Some? then Submitted(request.value) else Passed(ready)
  }

  /** The poll of the closer's loop: a request that is waiting becomes a future if its key is in the table;
      if none is waiting the futures are polled, and the last that completed is to be removed. */
  method PollRequests<K(==)>(table: SessionTable<K>, futures: seq<Request<K, SafeKcp>>, request: Option<K>, task: Task,
                             turns: nat -> CloseAnswers, shared: bool, ghost a: Account<K, SafeKcp>)
    returns (left: seq<Request<K, SafeKcp>>, due: Option<Request<K, SafeKcp>>, ghost ready: seq<bool>)
    requires a.table == table.sessions && a.pending == futures && a.due.None?
    modifies Kcps(futures)
    ensures var b := Next(a, TurnEvent(request, ready)); left == b.pending && due == b.due && table.sessions == b.table
    ensures |ready| == if request.None? then |futures| else 0
    ensures forall i :: 0 <= i < |ready| && old(futures[i].session.Snapshot()).IsClosed() ==> ready[i]
    ensures request.None? && !shared ==> ready == old(Flags(futures, turns))
  {
    match request {
      case Some(key) =>
        left := if key in table.sessions then futures + [Request(key, table.sessions[key])] else futures;
        due, ready := None, [];
      case None =>
        left, due, ready := RetainPending(futures, task, turns, shared);
    }
  }

  /** What follows the poll once the closer goes on; by then other tasks may have changed the table. */
  method CleanUp<K(==)>(table: SessionTable<K>, due: Option<Request<K, SafeKcp>>, ghost a: Account<K, SafeKcp>)
    requires a.table == table.sessions && a.due == due
    modifies table, table.sessions.Values
    ensures table.sessions == Next(a, Cleaned).table
    ensures due.Some? && Held(old(table.sessions), due.value.key).Some? ==>
              var kcp := old(table.sessions)[due.value.key]; kcp.Snapshot() == old(kcp.Snapshot()).ForceClose()
  {
    if due.Some? {
      table.RemoveKcp(due.value.key);
    }
  }

  // ---------------------------------------------------------------- Accounts over whole runs

  function Keys<K, S>(requests: seq<Request<K, S>>): seq<K> {
    seq(|requests|, i requires 0 <= i < |requests| => requests[i].key)
  }

  /** What was handed to remove_kcp, and what will be next. */
  function Handed<K, S>(a: Account<K, S>): seq<Request<K, S>> {
    if a.due.Some? then a.removed + [a.due.value] else a.removed
  }

  ghost predicate Balanced<K, S>(a: Account<K, S>) {
    && multiset(a.found) == multiset(a.pending) + multiset(a.completed)
    && multiset(Keys(a.found)) <= multiset(a.submitted)
    && multiset(Handed(a)) <= multiset(a.completed)
    && |a.taken| == |a.removed|
  }

  lemma {:induction false} SelectSplits<T>(xs: seq<T>, flags: seq<bool>, n: nat)
    requires n <= |xs| == |flags|
    ensures multiset(xs[..n]) == multiset(Select(xs, flags, false, n)) + multiset(Select(xs, flags, true, n))
  {
    if n > 0 {
      SelectSplits(xs, flags, n - 1);
      SelectTakes(xs, flags, false, n);
      SelectTakes(xs, flags, true, n);
      AddToEither(multiset(Select(xs, flags, false, n - 1)), multiset(Select(xs, flags, true, n - 1)), xs[n - 1]);
      PrefixTakes(xs, n);
    }
  }

  lemma AddToEither<T>(a: multiset<T>, b: multiset<T>, x: T)
    ensures (a + b) + multiset{x} == (a + multiset{x}) + b == a + (b + multiset{x})
  {
  }

  lemma PrefixTakes<T>(xs: seq<T>, n: nat)
    requires 0 < n <= |xs|
    ensures multiset(xs[..n]) == multiset(xs[..n - 1]) + multiset{xs[n - 1]}
  {
    assert xs[..n] == xs[..n - 1] + [xs[n - 1]];
  }

  lemma SelectTakes<T>(xs: seq<T>, flags: seq<bool>, want: bool, n: nat)
    requires 0 < n <= |xs| == |flags|
    ensures var before := multiset(Select(xs, flags, want, n - 1));
            multiset(Select(xs, flags, want, n))
            == if flags[n - 1] == want then before + multiset{xs[n - 1]} else before
  {
  }

  lemma Concatenated<T>(a: seq<T>, b: seq<T>)
    ensures multiset(a + b) == multiset(a) + multiset(b)
    ensures b != [] ==> multiset(a + [b[|b| - 1]]) <= multiset(a + b)
  {
  }

  lemma PassKeepsFound<K, S>(a: Account<K, S>, ready: seq<bool>)
    requires IsPass(a, Passed(ready)) && multiset(a.found) == multiset(a.pending) + multiset(a.completed)
    ensures var b := Next(a, Passed(ready)); multiset(b.found) == multiset(b.pending) + multiset(b.completed)
  {
    SelectSplits(a.pending, ready, |a.pending|);
    assert a.pending[..|a.pending|] == a.pending;
    Concatenated(a.completed, Chosen(a.pending, ready, true));
  }

  lemma PassHandsOn<K, S>(a: Account<K, S>, ready: seq<bool>)
    requires IsPass(a, Passed(ready)) && multiset(Handed(a)) <= multiset(a.completed)
    ensures var b := Next(a, Passed(ready)); multiset(Handed(b)) <= multiset(b.completed)
  {
    LatestIsLast(a.pending, ready, |a.pending|);
    var done := Chosen(a.pending, ready, true);
    Concatenated(a.completed, done);
    Concatenated(a.removed, done);
  }

  lemma SubmitBalances<K, S>(a: Account<K, S>, key: K)
    requires Balanced(a) && a.due.None?
    ensures Balanced(Next(a, Submitted(key)))
  {
    Concatenated(a.submitted, [key]);
    if key in a.table {
      var r := Request(key, a.table[key]);
      Concatenated(a.found, [r]);
      Concatenated(a.pending, [r]);
      KeysAppend(a.found, r);
    }
  }

  lemma KeysAppend<K, S>(requests: seq<Request<K, S>>, r: Request<K, S>)
    ensures Keys(requests + [r]) == Keys(requests) + [r.key]
    ensures multiset(Keys(requests + [r])) == multiset(Keys(requests)) + multiset{r.key}
  {
    assert Keys(requests + [r]) == Keys(requests) + [r.key];
  }

  lemma NextBalances<K, S>(a: Account<K, S>, e: Event<K, S>)
    requires Balanced(a)
    ensures Balanced(Next(a, e))
  {
    match e
    case Passed(ready) => if IsPass(a, e) { PassKeepsFound(a, ready); PassHandsOn(a, ready); }
    case Submitted(key) => if a.due.None? { SubmitBalances(a, key); }
    case _ =>
  }

  /** In every run the requests found are exactly those pending and those completed, every completed one
      was submitted, and only completed ones are removed. */
  lemma {:induction false} CloserBalances<K, S>(a: Account<K, S>, events: seq<Event<K, S>>)
    requires Balanced(a)
    ensures Balanced(Run(a, events))
    decreases |events|
  {
    if events != [] {
      NextBalances(a, events[0]);
      CloserBalances(Next(a, events[0]), events[1..]);
    }
  }

  /** No pass completes two requests. */
  ghost predicate OneAtATime<K, S>(a: Account<K, S>, events: seq<Event<K, S>>)
    decreases |events|
  {
    events != [] ==>
      && (IsPass(a, events[0]) ==> |Chosen(a.pending, events[0].ready, true)| <= 1)
      && OneAtATime(Next(a, events[0]), events[1..])
  }

  lemma {:induction false} LagGrows<K, S>(a: Account<K, S>, events: seq<Event<K, S>>)
    ensures |Run(a, events).completed| - |Handed(Run(a, events))| >= |a.completed| - |Handed(a)|
    ensures !OneAtATime(a, events) ==>
              |Run(a, events).completed| - |Handed(Run(a, events))| > |a.completed| - |Handed(a)|
    decreases |events|
  {
    if events != [] {
      if IsPass(a, events[0]) {
        LatestIsLast(a.pending, events[0].ready, |a.pending|);
      }
      LagGrows(Next(a, events[0]), events[1..]);
    }
  }

  /** What completes is removed, one for one, exactly in the runs in which no pass completes two
      requests: of those that complete together only the last is removed. */
  lemma {:induction false} RemovedIffOneAtATime<K, S>(a: Account<K, S>, events: seq<Event<K, S>>)
    requires Handed(a) == a.completed
    ensures Handed(Run(a, events)) == Run(a, events).completed <==> OneAtATime(a, events)
    decreases |events|
  {
    if !OneAtATime(a, events) {
      LagGrows(a, events);
    } else if events != [] {
      if IsPass(a, events[0]) {
        LatestIsLast(a.pending, events[0].ready, |a.pending|);
      }
      RemovedIffOneAtATime(Next(a, events[0]), events[1..]);
    }
  }

  // ---------------------------------------------------------------- Whose session is removed

  /** What was ever opened contains what the table holds. */
  predicate Grounded<K(==), S(==)>(a: Account<K, S>) {
    forall key :: key in a.table ==> a.table[key] in a.used
  }

  /** The event removes what the table holds under key, or replaces it. */
  predicate Disturbs<K(==), S(==)>(a: Account<K, S>, e: Event<K, S>, key: K) {
    match e
    case Submitted(_) => false
    case Passed(_) => false
    case Cleaned => a.due.Some? && a.due.value.key == key
    case Opened(k, session) => k == key && session !in a.used
    case Gone(k) => k == key
  }

  predicate LeavesKey<K(==), S(==)>(a: Account<K, S>, events: seq<Event<K, S>>, key: K)
    decreases |events|
  {
    events != [] ==> !Disturbs(a, events[0], key) && LeavesKey(Next(a, events[0]), events[1..], key)
  }

  lemma NextHolds<K, S>(a: Account<K, S>, e: Event<K, S>, key: K, session: S)
    requires Grounded(a) && session in a.used
    ensures var b := Next(a, e);
            && Grounded(b) && session in b.used
            && (Held(b.table, key) == Some(session) <==> Held(a.table, key) == Some(session) && !Disturbs(a, e, key))
  {
  }

  /** A key stands for the session it stood for exactly as long as no event has removed or replaced it:
      what is opened is always new, so a session that has lost its key never gets it back. */
  lemma {:induction false} RunHolds<K, S>(a: Account<K, S>, events: seq<Event<K, S>>, key: K, session: S)
    requires Grounded(a) && session in a.used
    ensures Grounded(Run(a, events))
    ensures Held(Run(a, events).table, key) == Some(session) <==>
            Held(a.table, key) == Some(session) && LeavesKey(a, events, key)
    decreases |events|
  {
    if events != [] {
      NextHolds(a, events[0], key, session);
      RunHolds(Next(a, events[0]), events[1..], key, session);
    }
  }

  /** A close was submitted and found its session, anything happened, and its key is now removed because it
      completed. The session that is closed is the one whose poll_close was Ready exactly if no event
      since, between the pass and the removal included, removed or replaced what the key stood for;
      otherwise it is another session, or none if the key is absent. */
  lemma RemovesItsOwnIff<K, S>(a: Account<K, S>, key: K, events: seq<Event<K, S>>)
    requires Grounded(a) && key in a.table
    requires Run(Next(a, Submitted(key)), events).due == Some(Request(key, a.table[key]))
    ensures var b := Run(Next(a, Submitted(key)), events);
            var taken := Next(b, Cleaned).taken;
            && taken == b.taken + [Held(b.table, key)]
            && (taken[|taken| - 1] == Some(a.table[key]) <==> LeavesKey(Next(a, Submitted(key)), events, key))
  {
    NextHolds(a, Submitted(key), key, a.table[key]);
    RunHolds(Next(a, Submitted(key)), events, key, a.table[key]);
  }

  /** It does happen: the session of a pending close is removed, its key goes to a new session, and the
      old close completes; or it completes first, and both happen before the closer goes on. The new
      session is closed, and nobody ever asked for that. */
  lemma StaleCloseTakesNewSession<K, S>(key: K, first: S, second: S)
    requires first != second
    ensures var a := Next(Account(map[key := first], {first}, [], [], [], [], [], [], None), Submitted(key));
            var late := Next(Next(Next(a, Gone(key)), Opened(key, second)), Passed([true]));
            var early := Next(Next(Next(a, Passed([true])), Gone(key)), Opened(key, second));
            var b := Next(late, Cleaned);
            && late == early
            && b.submitted == [key]
            && b.found == b.completed == b.removed == [Request(key, first)]
            && b.taken == [Some(second)] && b.table == map[]
  {
    var r := Request(key, first);
    var a := Account(map[key := first], {first}, [r], [key], [r], [], [], [], None);
    assert Next(Account(map[key := first], {first}, [], [], [], [], [], [], None), Submitted(key)) == a;
    OneIsChosen(a.pending, [true]);
    var moved := a.(table := map[key := second], used := {first, second});
    assert Next(a, Gone(key)) == a.(table := map[]);
    assert Next(a.(table := map[]), Opened(key, second)) == moved;
    var passed := a.(pending := [], completed := [r], due := Some(r));
    assert Next(a, Passed([true])) == passed;
    assert Next(passed, Gone(key)) == passed.(table := map[]);
    assert Next(moved, Passed([true])) == Next(passed.(table := map[]), Opened(key, second));
  }
}
