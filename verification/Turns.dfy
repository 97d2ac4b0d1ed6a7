/** The poller's turn on one session while other tasks call the session between the poller's own calls:
    the closure takes the lock anew for closed, updatable, update, the wakes and check. */
module Turns {
  import opened Prelude
  import opened Session
  import opened RetainMut
  import opened Interleaving
  import opened Poller

  type Script = seq<(Op, Obs)>

  /** What other tasks do before updatable, before update, before the wakes, and before the last check. */
  datatype Gaps = Gaps(first: Script, second: Script, third: Script, last: Script)

  const NO_GAPS := Gaps([], [], [], [])

  function FinalCheck(s: State, t: Answers): Visited {
    Turned(s.Check(t.second), true, WrapSub(s.Check(t.second).NextCheck(), t.now))
  }

  /** The session when the poller calls update, after closed() found it open and updatable said yes. */
  function BeforeUpdate(s: State, t: Answers, g: Gaps): State {
    Calls(Calls(s, g.first).Updatable(t.first).0, g.second)
  }

  /** Visit with the calls of others in between. */
  function VisitAmidst(s: State, t: Answers, g: Gaps): Visited {
    if s.IsClosed() then Turned(s, false, 0)
    else
      var (begun, updatable) := Calls(s, g.first).Updatable(t.first);
      if !updatable then FinalCheck(Calls(begun, g.last), t)
      else
        var (updated, result) := BeforeUpdate(s, t, g).Update(t.now);
        var s' := Calls(updated, g.third);
        if result.Updated? then FinalCheck(Calls(s'.WakeAll(), g.last), t) else Turned(s'.ForceClose(), false, 0)
  }

  /** A turn into which nothing falls is the closure run alone. */
  lemma AloneIsVisit(s: State, t: Answers)
    ensures VisitAmidst(s, t, NO_GAPS) == Visit(s, t)
  {
  }

  /** Whatever falls into it, a turn never reopens a session, drops one only closed, and drops one that
      it found open exactly if updatable said yes and update failed. */
  lemma TurnConserves(s: State, t: Answers, g: Gaps)
    ensures var v := VisitAmidst(s, t, g);
            && (s.IsClosed() || !v.kept ==> v.state.IsClosed())
            && (!s.IsClosed() ==>
                  (!v.kept <==>
                     Calls(s, g.first).Updatable(t.first).1 && !BeforeUpdate(s, t, g).Update(t.now).1.Updated?))
  {
    ForceCloseOnce(Calls(BeforeUpdate(s, t, g).Update(t.now).0, g.third));
  }

  /** The turn of a session that it finds open as one script: the poller's calls, up to the one that ends the
      turn, with those of the others in their places. */
  function TurnScript(s: State, t: Answers, g: Gaps, o: Obs): Script {
    var begun := g.first + [(Updatable, o.(inner := t.first))];
    var updated := begun + g.second + [(Update, o.(now := t.now))] + g.third;
    var check := [(Check, o.(inner := t.second))];
    if !Calls(s, g.first).Updatable(t.first).1 then begun + g.last + check
    else if BeforeUpdate(s, t, g).Update(t.now).1.Updated? then updated + [(WakeAll, o)] + g.last + check
    else updated + [(ForceClose, o)]
  }

  lemma {:induction false} CallsConcat(s: State, a: Script, b: Script)
    ensures Calls(s, a + b) == Calls(Calls(s, a), b)
  {
    if b == [] {
      assert a + b == a;
    } else {
      assert (a + b)[..|a + b| - 1] == a + b[..|b| - 1];
      CallsConcat(s, a, b[..|b| - 1]);
    }
  }

  lemma CallsThen(s: State, a: Script, b: Script, op: Op, o: Obs)
    ensures Calls(s, a + b + [(op, o)]) == Atomic(Calls(Calls(s, a), b), op, o)
  {
    CallsConcat(s, a, b);
    assert (a + b + [(op, o)])[..|a + b|] == a + b;
  }

  lemma PassedOverIsScript(s: State, t: Answers, g: Gaps, o: Obs)
    requires !s.IsClosed() && !Calls(s, g.first).Updatable(t.first).1
    ensures VisitAmidst(s, t, g).state == Calls(s, TurnScript(s, t, g, o))
  {
    CallsThen(s, [], g.first, Updatable, o.(inner := t.first));
    assert [] + g.first == g.first;
    CallsThen(s, g.first + [(Updatable, o.(inner := t.first))], g.last, Check, o.(inner := t.second));
  }

  lemma UpdateInScript(s: State, t: Answers, g: Gaps, o: Obs, updated: Script)
    requires updated == g.first + [(Updatable, o.(inner := t.first))] + g.second + [(Update, o.(now := t.now))]
    ensures Calls(s, updated) == BeforeUpdate(s, t, g).Update(t.now).0
  {
    CallsThen(s, [], g.first, Updatable, o.(inner := t.first));
    assert [] + g.first == g.first;
    CallsThen(s, g.first + [(Updatable, o.(inner := t.first))], g.second, Update, o.(now := t.now));
  }

  lemma WakesAndCheckInScript(s: State, t: Answers, g: Gaps, o: Obs, updated: Script)
    ensures Calls(s, updated + g.third + [(WakeAll, o)] + g.last + [(Check, o.(inner := t.second))])
            == Calls(Calls(Calls(s, updated), g.third).WakeAll(), g.last).Check(t.second)
  {
    CallsThen(s, updated, g.third, WakeAll, o);
    CallsThen(s, updated + g.third + [(WakeAll, o)], g.last, Check, o.(inner := t.second));
  }

  /** So whatever holds over all scripts of calls holds over turns with the calls of others in them. */
  lemma TurnIsScript(s: State, t: Answers, g: Gaps, o: Obs)
    requires !s.IsClosed()
    ensures VisitAmidst(s, t, g).state == Calls(s, TurnScript(s, t, g, o))
  {
    var updated := g.first + [(Updatable, o.(inner := t.first))] + g.second + [(Update, o.(now := t.now))];
    UpdateInScript(s, t, g, o, updated);
    if !Calls(s, g.first).Updatable(t.first).1 {
      PassedOverIsScript(s, t, g, o);
    } else if BeforeUpdate(s, t, g).Update(t.now).1.Updated? {
      WakesAndCheckInScript(s, t, g, o, updated);
    } else {
      CallsThen(s, updated, g.third, ForceClose, o);
    }
  }

  /** A session that is closed by the time of the poller's updatable, or of its update, is dropped in the
      same turn. */
  lemma ClosedMeanwhileIsDropped(s: State, t: Answers, g: Gaps)
    requires || Calls(s, g.first).IsClosed()
             || (Calls(s, g.first).Updatable(t.first).1 && BeforeUpdate(s, t, g).IsClosed())
    ensures !VisitAmidst(s, t, g).kept
  {
    if Calls(s, g.first).IsClosed() {
      ClosedStaysClosed(Calls(s, g.first), g.second);
    }
  }

  lemma ClosedStaysClosed(s: State, script: Script)
    requires s.IsClosed()
    ensures Calls(s, script).IsClosed()
  {
    StrandedUntilWoken(s, script, SendSlot);
  }

  // ---------------------------------------------------------------- The back-off of an interrupted turn

  /** Only the poller calls check and updatable. */
  predicate FromOthers(script: Script) {
    forall i :: 0 <= i < |script| ==> !script[i].0.Check? && !script[i].0.Updatable?
  }

  predicate AcceptsInput(op: Op, o: Obs) {
    op.Input? && o.accepted
  }

  predicate NoInput(script: Script) {
    forall i :: 0 <= i < |script| ==> !AcceptsInput(script[i].0, script[i].1)
  }

  lemma CallKeeps(s: State, op: Op, o: Obs)
    requires !op.Check? && !op.Updatable?
    ensures var s' := Atomic(s, op, o);
            && (s.IsClosed() ==> s'.IsClosed())
            && s'.clsckInc == (if AcceptsInput(op, o) then 0 else s.clsckInc)
            && (s'.closeFlag == s.closeFlag || (op.Close? && s'.closeFlag == 1))
  {
    match op
    case ForceClose => WakingKeepsCore(s.Shut(), WAKE_ORDER);
    case Input => WakingKeepsCore(s.InputLocked(o.accepted, o.now), WAKE_ORDER);
    case WakeAll => WakingKeepsCore(s, WAKE_ORDER);
    case _ =>
  }

  lemma InputIsLastOrBefore(script: Script)
    requires script != []
    ensures var front, last := script[..|script| - 1], script[|script| - 1];
            NoInput(script) <==> NoInput(front) && !AcceptsInput(last.0, last.1)
  {
    var front, last := script[..|script| - 1], script[|script| - 1];
    if NoInput(front) && !AcceptsInput(last.0, last.1) {
      assert forall i :: 0 <= i < |front| ==> script[i] == front[i];
    }
  }

  /** Calls of others never add to the back-off; an accepted input among them clears it. */
  lemma {:induction false} CallsKeep(s: State, script: Script)
    requires FromOthers(script)
    ensures var s' := Calls(s, script);
            && (s.IsClosed() ==> s'.IsClosed())
            && s'.clsckInc == (if NoInput(script) then s.clsckInc else 0)
            && s'.closeFlag in {s.closeFlag, 1}
  {
    if script != [] {
      var front, last := script[..|script| - 1], script[|script| - 1];
      CallsKeep(s, front);
      CallKeeps(Calls(s, front), last.0, last.1);
      InputIsLastOrBefore(script);
    }
  }

  predicate GapsFromOthers(g: Gaps) {
    FromOthers(g.first) && FromOthers(g.second) && FromOthers(g.third) && FromOthers(g.last)
  }

  lemma UpdateAndWakesKeep(s: State, now: U32)
    ensures var u := s.Update(now).0;
            && u.clsckInc == s.clsckInc && u.closeFlag == s.closeFlag
            && (s.IsClosed() ==> u.IsClosed() && s.Update(now).1.Closed?)
    ensures var a := s.WakeAll();
            a.clsckInc == s.clsckInc && a.closeFlag == s.closeFlag && a.IsClosed() == s.IsClosed()
  {
    UpdateKeepsCore(s, now);
    WakingKeepsCore(s, WAKE_ORDER);
  }

  /** The session just before the last check of a retained turn. */
  function BeforeCheck(s: State, t: Answers, g: Gaps): State {
    var (begun, updatable) := Calls(s, g.first).Updatable(t.first);
    if updatable then Calls(Calls(BeforeUpdate(s, t, g).Update(t.now).0, g.third).WakeAll(), g.last)
    else Calls(begun, g.last)
  }

  /** No accepted input falls between the two checks of the turn. */
  predicate NoInputBetween(s: State, t: Answers, g: Gaps) {
    NoInput(g.last) && (Calls(s, g.first).Updatable(t.first).1 ==> NoInput(g.second) && NoInput(g.third))
  }

  lemma MiddleKeeps(s: State, t: Answers, g: Gaps)
    requires GapsFromOthers(g) && VisitAmidst(s, t, g).kept
    ensures var begun, b := Calls(s, g.first).Updatable(t.first).0, BeforeCheck(s, t, g);
            && VisitAmidst(s, t, g) == FinalCheck(b, t)
            && begun == Calls(s, g.first).Check(t.first)
            && b.closeFlag in {begun.closeFlag, 1}
            && b.clsckInc == (if NoInputBetween(s, t, g) then begun.clsckInc else 0)
  {
    var s1 := Calls(s, g.first);
    var (begun, updatable) := s1.Updatable(t.first);
    CallsKeep(s, g.first);
    if updatable {
      var before := BeforeUpdate(s, t, g);
      CallsKeep(begun, g.second);
      UpdateAndWakesKeep(before, t.now);
      CallsKeep(before.Update(t.now).0, g.third);
      var s' := Calls(before.Update(t.now).0, g.third);
      UpdateAndWakesKeep(s', t.now);
      CallsKeep(s'.WakeAll(), g.last);
    } else {
      CallsKeep(begun, g.last);
    }
  }

  /** close_flag as the first check of the turn finds it, and as the last one does. */
  function FirstFlag(s: State, g: Gaps): U32 {
    Calls(s, g.first).closeFlag
  }

  function LastFlag(s: State, t: Answers, g: Gaps): U32 {
    BeforeCheck(s, t, g).closeFlag
  }

  /** What a check adds that finds this close_flag. */
  function Added(flag: U32): U32 {
    if flag == 1 then 10 else 0
  }

  /** Exactly what a retained turn adds, whatever calls of others fall into it: 10 for each of its checks
      that finds close_flag set, where an accepted input takes back what came before it. The value is the
      distance from the poller's reading to the next check. */
  lemma TurnAdds(s: State, t: Answers, g: Gaps)
    requires GapsFromOthers(g) && VisitAmidst(s, t, g).kept
    ensures var v := VisitAmidst(s, t, g);
            var begun := WrapAdd(if NoInput(g.first) then s.clsckInc else 0, Added(FirstFlag(s, g)));
            && FirstFlag(s, g) in {s.closeFlag, 1} && LastFlag(s, t, g) in {FirstFlag(s, g), 1}
            && v.state.closeFlag == LastFlag(s, t, g)
            && v.state.clsckInc == WrapAdd(if NoInputBetween(s, t, g) then begun else 0, Added(LastFlag(s, t, g)))
            && v.value == WrapSub(WrapAdd(t.second, v.state.clsckInc), t.now)
  {
    CallsKeep(s, g.first);
    MiddleKeeps(s, t, g);
  }

  /** So, without an accepted input in it, a turn adds nothing or 20 exactly if both checks find the same
      close_flag; otherwise a poll_close came between them, and it adds 10. */
  lemma TurnAddsTwentyIff(s: State, t: Answers, g: Gaps)
    requires GapsFromOthers(g) && VisitAmidst(s, t, g).kept && s.closeFlag <= 1
    requires NoInput(g.first) && NoInputBetween(s, t, g)
    ensures var added := WrapSub(VisitAmidst(s, t, g).state.clsckInc, s.clsckInc);
            && (added == 20 <==> FirstFlag(s, g) == 1)
            && (added == 10 <==> FirstFlag(s, g) == 0 && LastFlag(s, t, g) == 1)
            && (added == 0 <==> LastFlag(s, t, g) == 0)
            && (added in {0, 20} <==> FirstFlag(s, g) == LastFlag(s, t, g))
  {
    TurnAdds(s, t, g);
  }
}
