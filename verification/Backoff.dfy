/** Closing slowly: once poll_close has set close_flag, every check adds 10 ms, until the peer is heard
    from again; a pass checks twice, so each asks for 20 ms more than the one before. */
module Backoff {
  import opened Prelude
  import opened Session
  import opened Interleaving
  import opened Poller
  import opened Turns

  // ---------------------------------------------------------------- Lock by lock

  /** How many checks have found close_flag set since the last accepted input, after one more step; k
      is the number before it. */
  function CheckedAfter(s: State, thread: Thread, o: Obs, k: nat): nat {
    if !thread.Inside? then k
    else if AcceptsInput(thread.op, o) then 0
    else if (thread.op.Check? || thread.op.Updatable?) && s.closeFlag == 1 then k + 1
    else k
  }

  function ChecksInRun(m: Machine, script: seq<Choice>, k: nat): nat
    decreases |script|
  {
    if script == [] then k else
      var c := script[0];
      ChecksInRun(Next(m, c), script[1..],
                  if c.thread < |m.threads| then CheckedAfter(m.session, m.threads[c.thread], c.obs, k) else k)
  }

  lemma AddWraps(n: nat, inc: U32, d: U32)
    requires inc == n % TWO_TO_THE_32
    ensures WrapAdd(inc, d) == (n + d) % TWO_TO_THE_32
  {
  }

  lemma AddTen(k: nat, inc: U32)
    requires inc == 10 * k % TWO_TO_THE_32
    ensures WrapAdd(inc, 10) == 10 * (k + 1) % TWO_TO_THE_32
  {
    AddWraps(10 * k, inc, 10);
  }

  lemma StepAdds(s: State, thread: Thread, op: Op, o: Obs)
    ensures var inc := Step(s, thread, op, o).0.clsckInc;
            if thread.Inside? && AcceptsInput(thread.op, o) then inc == 0
            else if thread.Inside? && (thread.op.Check? || thread.op.Updatable?) && s.closeFlag == 1
            then inc == WrapAdd(s.clsckInc, 10)
            else inc == s.clsckInc
  {
    match thread
    case Inside(Update) => UpdateKeepsCore(s, o.now);
    case Waking(_, rest) => if rest != [] { TryWakeKeepsCore(s, rest[0]); }
    case _ =>
  }

  lemma StepCounts(s: State, thread: Thread, op: Op, o: Obs, k: nat)
    requires s.clsckInc == 10 * k % TWO_TO_THE_32
    ensures Step(s, thread, op, o).0.clsckInc == 10 * CheckedAfter(s, thread, o, k) % TWO_TO_THE_32
  {
    StepAdds(s, thread, op, o);
    AddTen(k, s.clsckInc);
  }

  /** Over every interleaving of every number of threads, clsck_inc is 10 for each check that found
      close_flag set since the last accepted input (as a u32). */
  lemma {:induction false} BackoffCountsChecks(m: Machine, script: seq<Choice>, k: nat)
    requires m.session.clsckInc == 10 * k % TWO_TO_THE_32
    ensures Run(m, script).session.clsckInc == 10 * ChecksInRun(m, script, k) % TWO_TO_THE_32
    decreases |script|
  {
    if script != [] {
      var c := script[0];
      var k' := if c.thread < |m.threads| then CheckedAfter(m.session, m.threads[c.thread], c.obs, k) else k;
      if c.thread < |m.threads| {
        StepCounts(m.session, m.threads[c.thread], c.op, c.obs, k);
      }
      BackoffCountsChecks(Next(m, c), script[1..], k');
    }
  }

  // ---------------------------------------------------------------- Call by call

  /** The calls of check, and of updatable on the open session, that found close_flag set since the last
      accepted input. */
  function Checks(s: State, script: Script): nat {
    if script == [] then 0 else
      var front := script[..|script| - 1];
      var (op, o) := script[|script| - 1];
      CheckedCall(Calls(s, front), op, o, Checks(s, front))
  }

  function CheckedCall(before: State, op: Op, o: Obs, k: nat): nat {
    if AcceptsInput(op, o) then 0
    else if (op.Check? || (op.Updatable? && !before.IsClosed())) && before.closeFlag == 1 then k + 1
    else k
  }

  lemma CallCounts(before: State, op: Op, o: Obs, k: nat)
    requires before.clsckInc == 10 * k % TWO_TO_THE_32
    ensures Atomic(before, op, o).clsckInc == 10 * CheckedCall(before, op, o, k) % TWO_TO_THE_32
  {
    AddTen(k, before.clsckInc);
    if !op.Check? && !op.Updatable? {
      CallKeeps(before, op, o);
    }
  }

  /** In every script of calls, of the poller and of others in any order, clsck_inc is 10 for each of them. */
  lemma {:induction false} BackoffCountsCalls(s: State, script: Script)
    requires s.clsckInc == 0
    ensures Calls(s, script).clsckInc == 10 * Checks(s, script) % TWO_TO_THE_32
  {
    if script != [] {
      var front := script[..|script| - 1];
      var (op, o) := script[|script| - 1];
      BackoffCountsCalls(s, front);
      CallCounts(Calls(s, front), op, o, Checks(s, front));
    }
  }

  // ---------------------------------------------------------------- Pass by pass

  /** The poller's turn on the session, with what falls into it, or a call of some other task. */
  datatype Event = Visited(turn: Answers, gaps: Gaps) | Called(op: Op, obs: Obs)

  predicate FromOutside(e: Event) {
    match e
    case Visited(_, gaps) => GapsFromOthers(gaps)
    case Called(op, _) => !op.Check? && !op.Updatable?
  }

  function Apply(s: State, e: Event): State {
    match e
    case Visited(turn, gaps) => VisitAmidst(s, turn, gaps).state
    case Called(op, obs) => Atomic(s, op, obs)
  }

  function After(s: State, events: seq<Event>): State {
    if events == [] then s else Apply(After(s, events[..|events| - 1]), events[|events| - 1])
  }

  /** What happened since the session began to close: since close_flag was set or, if that is later, since
      the last accepted input. passes counts the retained turns whose first check came after that; half
      says that the beginning fell between the two checks of a retained turn. */
  datatype Tally = Tally(passes: nat, half: bool)

  const NO_PASSES := Tally(0, false)

  function TallyAfter(before: State, e: Event, k: Tally): Tally {
    match e
    case Called(op, obs) => if AcceptsInput(op, obs) then NO_PASSES else k
    case Visited(turn, gaps) =>
      if !VisitAmidst(before, turn, gaps).kept then k
      else if NoInputBetween(before, turn, gaps) && FirstFlag(before, gaps) == 1 then
        if NoInput(gaps.first) then k.(passes := k.passes + 1) else Tally(1, false)
      else Tally(0, LastFlag(before, turn, gaps) == 1)
  }

  function TallyOf(s: State, events: seq<Event>): Tally {
    if events == [] then NO_PASSES else
      var front, last := events[..|events| - 1], events[|events| - 1];
      TallyAfter(After(s, front), last, TallyOf(s, front))
  }

  function Worth(k: Tally): nat {
    20 * k.passes + if k.half then 10 else 0
  }

  predicate Tallied(s: State, k: Tally) {
    && s.closeFlag <= 1
    && s.clsckInc == Worth(k) % TWO_TO_THE_32
    && (s.closeFlag == 0 ==> k == NO_PASSES)
  }

  lemma AddTwenty(k: Tally, inc: U32)
    requires inc == Worth(k) % TWO_TO_THE_32
    ensures WrapAdd(WrapAdd(inc, 10), 10) == Worth(k.(passes := k.passes + 1)) % TWO_TO_THE_32
  {
    AddWraps(Worth(k), inc, 10);
    AddWraps(Worth(k) + 10, WrapAdd(inc, 10), 10);
  }

  /** What a turn that retains the session does to the tally and to clsck_inc. */
  lemma TurnCounts(before: State, turn: Answers, gaps: Gaps, k: Tally)
    requires GapsFromOthers(gaps) && Tallied(before, k) && VisitAmidst(before, turn, gaps).kept
    ensures Tallied(VisitAmidst(before, turn, gaps).state, TallyAfter(before, Visited(turn, gaps), k))
  {
    TurnAdds(before, turn, gaps);
    if NoInputBetween(before, turn, gaps) && FirstFlag(before, gaps) == 1 {
      AddTwenty(if NoInput(gaps.first) then k else NO_PASSES, if NoInput(gaps.first) then before.clsckInc else 0);
    } else {
      assert FirstFlag(before, gaps) == 0 ==> k == NO_PASSES && before.clsckInc == 0;
      assert VisitAmidst(before, turn, gaps).state.clsckInc == Added(LastFlag(before, turn, gaps));
    }
  }

  /** What an event does to the tally and to clsck_inc. */
  lemma EventCounts(before: State, e: Event, k: Tally)
    requires FromOutside(e) && (!before.IsClosed() ==> Tallied(before, k))
    ensures var after := Apply(before, e);
            !after.IsClosed() ==> !before.IsClosed() && Tallied(after, TallyAfter(before, e, k))
  {
    match e
    case Called(op, obs) => CallKeeps(before, op, obs);
    case Visited(turn, gaps) =>
      TurnConserves(before, turn, gaps);
      if !Apply(before, e).IsClosed() {
        TurnCounts(before, turn, gaps, k);
      }
  }

  lemma {:induction false} RunCounts(s: State, events: seq<Event>)
    requires s.clsckInc == 0 && s.closeFlag <= 1 && forall e :: e in events ==> FromOutside(e)
    ensures !After(s, events).IsClosed() ==> Tallied(After(s, events), TallyOf(s, events))
  {
    if events != [] {
      var front, last := events[..|events| - 1], events[|events| - 1];
      RunCounts(s, front);
      EventCounts(After(s, front), last, TallyOf(s, front));
    }
  }

  lemma HalfShows(k: Tally)
    ensures Worth(k) % TWO_TO_THE_32 == 20 * k.passes % TWO_TO_THE_32 <==> !k.half
  {
    var n := 20 * k.passes;
    assert (n + 10) % TWO_TO_THE_32 != n % TWO_TO_THE_32;
  }

  /** In every run, whatever falls into the poller's turns, as long as the session is open: clsck_inc is 20
      for each pass since the session began to close (as a u32), and 10 more exactly if that beginning
      fell between the two checks of a turn. */
  lemma BackoffCountsPasses(s: State, events: seq<Event>)
    requires s.clsckInc == 0 && s.closeFlag <= 1 && forall e :: e in events ==> FromOutside(e)
    ensures var s', k := After(s, events), TallyOf(s, events);
            !s'.IsClosed() ==>
              && s'.closeFlag <= 1
              && s'.clsckInc == Worth(k) % TWO_TO_THE_32
              && (s'.clsckInc == 20 * k.passes % TWO_TO_THE_32 <==> !k.half)
  {
    RunCounts(s, events);
    HalfShows(TallyOf(s, events));
  }

  /** Where a poll_close sets close_flag inside a turn, before its last check, the turn adds 10 only. */
  lemma CloseInsideTurnAddsTen()
    ensures var s := Fresh(1000, 1500, 10000);
            var close := (Close, Obs(0, 1000, 1000, false, 1, 0, 0, BrokenPipe));
            var v := VisitAmidst(s, Answers(1000, 1000, 1000), Gaps([], [], [close], []));
            v.kept && !v.state.IsClosed() && v.state.closeFlag == 1 && v.state.clsckInc == 10
  {
    var s := Fresh(1000, 1500, 10000);
    var o := Obs(0, 1000, 1000, false, 1, 0, 0, BrokenPipe);
    assert Calls(s, [(Close, o)]) == Atomic(Calls(s, []), Close, o) by {
      assert [(Close, o)][..0] == [];
    }
    WakeAllUnfolds(Atomic(s, Close, o));
  }

  // ---------------------------------------------------------------- How far apart the passes lie

  /** A pass over a vector that holds one session, at a true time, with what falls into it, and the calls
      of others until the next. */
  datatype Round = Round(time: nat, turn: Answers, gaps: Gaps, calls: Script)

  predicate Silent(round: Round) {
    && GapsFromOthers(round.gaps) && FromOthers(round.calls) && NoInput(round.calls)
    && NoInput(round.gaps.first) && NoInput(round.gaps.second) && NoInput(round.gaps.third) && NoInput(round.gaps.last)
  }

  function VisitOf(s: State, round: Round): Visited {
    VisitAmidst(s, round.turn, round.gaps)
  }

  function AfterRounds(s: State, rounds: seq<Round>, k: nat): State
    requires k <= |rounds|
  {
    if k == 0 then s
    else Calls(VisitOf(AfterRounds(s, rounds, k - 1), rounds[k - 1]).state, rounds[k - 1].calls)
  }

  /** The delay that poll_update returns for round k. */
  function RoundDelay(s: State, rounds: seq<Round>, k: nat): U32
    requires k < |rounds|
  {
    Delay([VisitOf(AfterRounds(s, rounds, k), rounds[k]).value])
  }

  /** The peer is silent, every pass retains the session, ikcp_check answers within interval of now,
      and the timer of a pass does not fire before its delay is over. */
  predicate Retaining(s: State, rounds: seq<Round>, interval: nat) {
    && (forall k :: 0 <= k < |rounds| ==>
          && VisitOf(AfterRounds(s, rounds, k), rounds[k]).kept
          && WrapSub(rounds[k].turn.second, rounds[k].turn.now) <= interval
          && Silent(rounds[k]))
    && (forall k :: 0 < k < |rounds| ==> rounds[k - 1].time + RoundDelay(s, rounds, k - 1) <= rounds[k].time)
  }

  /** One round of a closing session: clsck_inc grows by 20, and the delay is at least the new clsck_inc. */
  lemma RoundAdds(s: State, round: Round, interval: nat, inc: nat)
    requires s.closeFlag == 1 && s.clsckInc == inc && inc + 20 + interval < TWO_TO_THE_32
    requires VisitOf(s, round).kept && WrapSub(round.turn.second, round.turn.now) <= interval && Silent(round)
    ensures var s' := Calls(VisitOf(s, round).state, round.calls); s'.closeFlag == 1 && s'.clsckInc == inc + 20
    ensures inc + 20 <= Delay([VisitOf(s, round).value])
  {
    TurnAdds(s, round.turn, round.gaps);
    CallsKeep(VisitOf(s, round).state, round.calls);
    var value := VisitOf(s, round).value;
    assert value == WrapSub(round.turn.second, round.turn.now) + inc + 20;
    assert [value][..0] == [];
  }

  /** What Retaining says of one round. */
  lemma RoundRetains(s: State, rounds: seq<Round>, interval: nat, k: nat)
    requires Retaining(s, rounds, interval) && k < |rounds|
    ensures VisitOf(AfterRounds(s, rounds, k), rounds[k]).kept && Silent(rounds[k])
    ensures WrapSub(rounds[k].turn.second, rounds[k].turn.now) <= interval
    ensures k > 0 ==> rounds[k - 1].time + RoundDelay(s, rounds, k - 1) <= rounds[k].time
  {
  }

  lemma Triangle(k: nat)
    requires k > 0
    ensures 10 * (k - 1) * k + 20 * k == 10 * k * (k + 1)
  {
  }

  /** A closing session is visited ever more rarely: its pass k + 1 comes at least 10 k (k + 1) ms after
      its first one, as long as the growing delay fits in a u32. */
  lemma {:induction false} PassesSpreadOut(s: State, rounds: seq<Round>, interval: nat, k: nat)
    requires s.closeFlag == 1 && s.clsckInc == 0 && Retaining(s, rounds, interval)
    requires k < |rounds| && 20 * k + interval < TWO_TO_THE_32
    ensures var s' := AfterRounds(s, rounds, k); s'.closeFlag == 1 && s'.clsckInc == 20 * k
    ensures rounds[0].time + 10 * k * (k + 1) <= rounds[k].time
  {
    if k > 0 {
      PassesSpreadOut(s, rounds, interval, k - 1);
      RoundRetains(s, rounds, interval, k - 1);
      RoundRetains(s, rounds, interval, k);
      RoundAdds(AfterRounds(s, rounds, k - 1), rounds[k - 1], interval, 20 * (k - 1));
      Triangle(k);
    }
  }
}
