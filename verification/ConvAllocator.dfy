/** The client's conversation numbers: a cyclic search over 1 .. 2^32 - 1 from a shared cursor, the opens
    that allocate first and insert later, and the client, which does these steps on its session table. */
module ConvAllocator {
  import opened Prelude
  import opened Session
  import opened SessionTable

  /** How many conversation numbers there are. */
  const CONVS := TWO_TO_THE_32 - 1

  type Conv = c: U32 | c != 0 witness 1

  /** The conversation n places after c on the cycle 1 .. 2^32 - 1. */
  function Ahead(c: Conv, n: nat): Conv {
    1 + (c - 1 + n) % CONVS
  }

  lemma AheadOne(c: Conv, n: nat)
    ensures Ahead(c, 0) == c
    ensures Ahead(c, n + 1) == (if Ahead(c, n) == TWO_TO_THE_32 - 1 then 1 else Ahead(c, n) + 1)
  {
  }

  /** Every conversation lies on the cycle, at exactly one distance below CONVS. */
  lemma AheadReaches(c: Conv, d: Conv, n: nat)
    requires n < CONVS
    ensures Ahead(c, n) == d <==> n == (if c <= d then d - c else d - c + CONVS)
  {
  }

  /** One step along the cycle comes back to where it started exactly after all CONVS of them. */
  lemma StepAhead(c: Conv, n: nat)
    requires n < CONVS
    ensures var d := if Ahead(c, n) + 1 >= TWO_TO_THE_32 then 1 else WrapAdd(Ahead(c, n), 1);
            d == Ahead(c, n + 1) && (d == c <==> n + 1 == CONVS)
  {
    AheadOne(c, n);
    if n + 1 < CONVS { AheadReaches(c, c, n + 1); }
  }

  /** The first conversation at distance n or more that is not taken, if one is left on the cycle. */
  function Search(taken: set<U32>, from: Conv, n: nat): Option<Conv>
    requires n <= CONVS
    decreases CONVS - n
  {
    if n == CONVS then None
    else if Ahead(from, n) !in taken then Some(Ahead(from, n))
    else Search(taken, from, n + 1)
  }

  /** What the search finds: the nearest free conversation, and nothing exactly if none is free. */
  lemma {:induction false} SearchFindsNearest(taken: set<U32>, from: Conv, n: nat, d: Conv)
    requires n <= CONVS
    ensures var r := Search(taken, from, n);
            && (r.Some? ==> r.value !in taken)
            && (forall m :: n <= m < CONVS && Ahead(from, m) == d && d !in taken ==>
                  r.Some? && exists k :: n <= k <= m && r.value == Ahead(from, k))
    decreases CONVS - n
  {
    if n < CONVS && Ahead(from, n) in taken {
      SearchFindsNearest(taken, from, n + 1, d);
    }
  }

  lemma SearchFailsIffFull(taken: set<U32>, from: Conv)
    ensures Search(taken, from, 0).None? <==> forall d: Conv :: d in taken
  {
    forall d: Conv | d !in taken
      ensures Search(taken, from, 0).Some?
    {
      var m := if from <= d then d - from else d - from + CONVS;
      AheadReaches(from, d, m);
      SearchFindsNearest(taken, from, 0, d);
    }
    SearchFindsNearest(taken, from, 0, from);
  }

  // ---------------------------------------------------------------- Opens

  /** An open between its allocate and its insert; since is how many inserts had happened when it allocated. */
  datatype Opening = Opening(conv: Conv, since: nat)

  datatype Opens = Opens(
    cursor: Conv,
    live: set<U32>,
    openings: seq<Opening>,
    inserts: nat,
    overwrites: nat)   // inserts that replaced a live session

  /** Dropped is an open that fails or is cancelled before it inserts. */
  datatype Event = Allocated | Inserted(i: nat) | Dropped(i: nat) | Removed(conv: U32)

  const NO_OPENS := Opens(1, {}, [], 0, 0)

  function Next(s: Opens, e: Event): Opens {
    match e
    case Allocated =>
      var r := Search(s.live, s.cursor, 0);
      if r.None? then s else s.(cursor := r.value, openings := s.openings + [Opening(r.value, s.inserts)])
    case Inserted(i) =>
      if i >= |s.openings| then s else
        var conv := s.openings[i].conv;
        s.(live := s.live + {conv}, openings := s.openings[..i] + s.openings[i + 1..], inserts := s.inserts + 1,
           overwrites := if conv in s.live then s.overwrites + 1 else s.overwrites)
    case Dropped(i) =>
      if i >= |s.openings| then s else s.(openings := s.openings[..i] + s.openings[i + 1..])
    case Removed(conv) => s.(live := s.live - {conv})
  }

  function Run(s: Opens, events: seq<Event>): Opens
    decreases |events|
  {
    if events == [] then s else Run(Next(s, events[0]), events[1..])
  }

  /** An open that allocated after the last insert holds the cursor, and the cursor is free. */
  predicate Reserved(s: Opens) {
    && 0 !in s.live
    && forall o :: o in s.openings ==>
         o.since <= s.inserts && (o.since == s.inserts ==> o.conv == s.cursor && o.conv !in s.live)
  }

  lemma NextReserves(s: Opens, e: Event)
    requires Reserved(s)
    ensures Reserved(Next(s, e))
  {
    match e
    case Allocated =>
      SearchFindsNearest(s.live, s.cursor, 0, s.cursor);
      AheadOne(s.cursor, 0);
    case _ =>
  }

  lemma {:induction false} RunReserves(s: Opens, events: seq<Event>)
    requires Reserved(s)
    ensures Reserved(Run(s, events))
    decreases |events|
  {
    if events != [] {
      NextReserves(s, events[0]);
      RunReserves(Next(s, events[0]), events[1..]);
    }
  }

  // ---------------------------------------------------------------- The client

  /** The allocator, with the session table it searches. The ghost field follows the opens that are
      between their allocate and their insert. */
  class Client {
    var conv: U32
    const table: SessionTable<U32>
    ghost var opens: Opens

    ghost predicate Valid()
      reads this, table
    {
      opens.cursor == conv && opens.live == table.sessions.Keys && Reserved(opens)
    }

    constructor ()
      ensures Valid() && opens == NO_OPENS && fresh(table)
    {
      conv, opens := 1, NO_OPENS;
      table := new SessionTable();
    }

    /** The cursor goes to the nearest free conversation, which is the answer; None stands for
        NoMoreConv, and is answered exactly if no conversation is free. */
    method Allocate() returns (r: Option<U32>)
      requires Valid()
      modifies this
      ensures Valid() && opens == Next(old(opens), Allocated)
      ensures r == Search(table.sessions.Keys, old(conv), 0)
      ensures r.Some? ==> r.value == conv && conv !in table.sessions
      ensures r.None? ==> conv == old(conv)
      ensures r.None? <==> forall c: Conv :: c in table.sessions
    {
      var lastConv := conv;
      ghost var n := 0;
      AheadOne(lastConv, 0);
      SearchFailsIffFull(table.sessions.Keys, lastConv);
      NextReserves(opens, Allocated);
      while conv in table.sessions
        invariant n < CONVS && conv == Ahead(lastConv, n) && opens == old(opens)
        invariant Search(table.sessions.Keys, lastConv, 0) == Search(table.sessions.Keys, lastConv, n)
        decreases CONVS - n
      {
        var nextConv, overflow := WrapAdd(conv, 1), conv + 1 >= TWO_TO_THE_32;
        conv := if overflow then 1 else nextConv;
        StepAhead(lastConv, n);
        n := n + 1;
        if conv == lastConv {
          return None;
        }
      }
      opens := Next(opens, Allocated);
      r := Some(conv);
    }

    /** The insert of an open that allocated: it replaces a live session exactly if that counts as an
        overwrite, and it cannot if no other open has inserted since it allocated. */
    method Manage(conv: U32, kcp: SafeKcp, ghost i: nat)
      requires Valid() && i < |opens.openings| && opens.openings[i].conv == conv
      modifies this, table
      ensures Valid() && opens == Next(old(opens), Inserted(i))
      ensures table.sessions == old(table.sessions)[conv := kcp]
      ensures conv in old(table.sessions) <==> opens.overwrites > old(opens).overwrites
      ensures old(opens.openings[i]).since == old(opens).inserts ==> conv !in old(table.sessions)
    {
      NextReserves(opens, Inserted(i));
      assert opens.openings[i] in opens.openings;
      table.sessions := table.sessions[conv := kcp];
      opens := Next(opens, Inserted(i));
    }

    /** An open that nobody gets in between: the new session has a conversation of its own. */
    method Open(kcp: SafeKcp) returns (r: Option<U32>)
      requires Valid()
      modifies this, table
      ensures Valid() && opens.overwrites == old(opens).overwrites && opens.openings == old(opens).openings
      ensures r.None? <==> forall c: Conv :: c in old(table.sessions)
      ensures table.sessions == if r.Some? then old(table.sessions)[r.value := kcp] else old(table.sessions)
      ensures r.Some? ==> r.value != 0 && r.value !in old(table.sessions)
    {
      r := Allocate();
      if r.Some? {
        Manage(r.value, kcp, |opens.openings| - 1);
      }
    }

    /** deallocate, for an open that fails or is cancelled: it gives nothing back, as nothing was taken. */
    method Deallocate(ghost i: nat)
      requires Valid() && i < |opens.openings|
      modifies this`opens
      ensures Valid() && opens == Next(old(opens), Dropped(i))
    {
      NextReserves(opens, Dropped(i));
      opens := Next(opens, Dropped(i));
    }

    /** remove_kcp */
    method RemoveKcp(conv: U32)
      requires Valid()
      modifies this, table, if conv in table.sessions then {table.sessions[conv]} else {}
      ensures Valid() && opens == Next(old(opens), Removed(conv))
      ensures table.sessions == old(table.sessions) - {conv}
      ensures conv in old(table.sessions) ==>
                var kcp := old(table.sessions)[conv]; kcp.Snapshot() == old(kcp.Snapshot()).ForceClose()
    {
      NextReserves(opens, Removed(conv));
      table.RemoveKcp(conv);
      opens := Next(opens, Removed(conv));
    }
  }

  // ---------------------------------------------------------------- When opens overwrite

  /** Overlap decides, in every run of opens and removals: an open that inserts before any other open has
      inserted since it allocated never overwrites, but all opens that allocated since the last insert
      hold the same conversation, so the second one of them to insert overwrites the first. */
  lemma OverlappingOpensCollide(events: seq<Event>, i: nat, j: nat)
    requires var s := Run(NO_OPENS, events);
             i < j < |s.openings| && s.openings[i].since == s.openings[j].since == s.inserts
    ensures var s := Run(NO_OPENS, events);
            && s.openings[i].conv == s.openings[j].conv
            && Next(s, Inserted(j)).overwrites == s.overwrites
            && Next(Next(s, Inserted(j)), Inserted(i)).overwrites == s.overwrites + 1
  {
    RunReserves(NO_OPENS, events);
    var s := Run(NO_OPENS, events);
    assert s.openings[i] in s.openings && s.openings[j] in s.openings;
    assert Next(s, Inserted(j)).openings[i] == s.openings[i];
  }

  /** Every open inserts, or is dropped, before the next one allocates. */
  predicate Serial(s: Opens, events: seq<Event>)
    decreases |events|
  {
    events != [] ==> (events[0] == Allocated ==> s.openings == []) && Serial(Next(s, events[0]), events[1..])
  }

  lemma {:induction false} SerialFrom(s: Opens, events: seq<Event>)
    requires Reserved(s) && Serial(s, events)
    requires |s.openings| <= 1 && forall o :: o in s.openings ==> o.since == s.inserts
    ensures Run(s, events).overwrites == s.overwrites && Reserved(Run(s, events))
    decreases |events|
  {
    if events != [] {
      NextReserves(s, events[0]);
      if events[0].Inserted? && events[0].i < |s.openings| {
        assert s.openings[events[0].i] in s.openings;
      }
      SerialFrom(Next(s, events[0]), events[1..]);
    }
  }

  /** In every run in which each open is over before the next one allocates, with removals anywhere in
      between, no live session is ever overwritten and no live conversation is 0. */
  lemma SerialOpensNeverOverwrite(events: seq<Event>)
    requires Serial(NO_OPENS, events)
    ensures var s := Run(NO_OPENS, events); s.overwrites == 0 && 0 !in s.live
  {
    SerialFrom(NO_OPENS, events);
  }

  /** No removal takes a conversation that an open has allocated and not yet inserted. */
  predicate SparesOpenings(s: Opens, events: seq<Event>)
    decreases |events|
  {
    events != [] ==>
      && (events[0].Removed? ==> forall o :: o in s.openings ==> o.conv != events[0].conv)
      && SparesOpenings(Next(s, events[0]), events[1..])
  }

  /** Every open that inserts does so before any other has inserted since it allocated. */
  predicate Timely(s: Opens, events: seq<Event>)
    decreases |events|
  {
    events != [] ==>
      && (events[0].Inserted? && events[0].i < |s.openings| ==> s.openings[events[0].i].since == s.inserts)
      && Timely(Next(s, events[0]), events[1..])
  }

  /** An open that allocated before the last insert holds a live conversation. */
  predicate Overtaken(s: Opens) {
    forall o :: o in s.openings && o.since < s.inserts ==> o.conv in s.live
  }

  /** One event that spares the openings: an insert overwrites exactly if it is not timely, and until then
      whoever was overtaken holds a live conversation. */
  lemma NextOvertakes(s: Opens, e: Event)
    requires Reserved(s) && Overtaken(s) && (e.Removed? ==> forall o :: o in s.openings ==> o.conv != e.conv)
    ensures var s' := Next(s, e);
            if e.Inserted? && e.i < |s.openings| && s.openings[e.i].since != s.inserts
            then s'.overwrites == s.overwrites + 1
            else s'.overwrites == s.overwrites && Overtaken(s')
  {
    if e.Inserted? && e.i < |s.openings| {
      assert s.openings[e.i] in s.openings;
    }
  }

  lemma {:induction false} OverwritesStay(s: Opens, events: seq<Event>)
    ensures s.overwrites <= Run(s, events).overwrites
    decreases |events|
  {
    if events != [] { OverwritesStay(Next(s, events[0]), events[1..]); }
  }

  lemma {:induction false} TimelyFrom(s: Opens, events: seq<Event>)
    requires Reserved(s) && Overtaken(s) && SparesOpenings(s, events)
    ensures Run(s, events).overwrites == s.overwrites <==> Timely(s, events)
    decreases |events|
  {
    if events != [] {
      var e, s' := events[0], Next(s, events[0]);
      NextReserves(s, e);
      NextOvertakes(s, e);
      if s'.overwrites == s.overwrites {
        TimelyFrom(s', events[1..]);
      } else {
        OverwritesStay(s', events[1..]);
      }
    }
  }

  /** In every run that removes no conversation from under an open, whether its opens complete or not, no
      live session is overwritten exactly if no open inserts after another has since it allocated. */
  lemma NeverOverwritesIffTimely(events: seq<Event>)
    requires SparesOpenings(NO_OPENS, events)
    ensures Run(NO_OPENS, events).overwrites == 0 <==> Timely(NO_OPENS, events)
  {
    TimelyFrom(NO_OPENS, events);
  }

  lemma Unfolds(s: Opens, e: Event, rest: seq<Event>)
    ensures Run(s, [e] + rest) == Run(Next(s, e), rest)
    ensures Serial(s, [e] + rest) ==> (e == Allocated ==> s.openings == []) && Serial(Next(s, e), rest)
    ensures Timely(s, [e] + rest) ==>
              && (e.Inserted? && e.i < |s.openings| ==> s.openings[e.i].since == s.inserts)
              && Timely(Next(s, e), rest)
    ensures SparesOpenings(s, [e] + rest) ==>
              (e.Removed? ==> forall o :: o in s.openings ==> o.conv != e.conv) && SparesOpenings(Next(s, e), rest)
  {
    assert ([e] + rest)[0] == e && ([e] + rest)[1..] == rest;
  }

  const OPENING := Opening(1, 0)

  lemma TwoAllocate()
    ensures Next(NO_OPENS, Allocated) == Opens(1, {}, [OPENING], 0, 0)
    ensures Next(Opens(1, {}, [OPENING], 0, 0), Allocated) == Opens(1, {}, [OPENING, OPENING], 0, 0)
  {
    AheadOne(1, 0);
  }

  /** A removal of the conversation that an overtaken open still holds takes the victim away first: its
      insert comes too late and nothing is overwritten. */
  lemma RemovalAvertsOverwrite()
    ensures var events := [Allocated] + ([Allocated] + ([Inserted(0)] + ([Removed(1)] + [Inserted(0)])));
            && !SparesOpenings(NO_OPENS, events) && !Serial(NO_OPENS, events) && !Timely(NO_OPENS, events)
            && Run(NO_OPENS, events) == Opens(1, {1}, [], 2, 0)
  {
    var rest := [Inserted(0)] + ([Removed(1)] + [Inserted(0)]);
    var s1, s2 := Opens(1, {}, [OPENING], 0, 0), Opens(1, {}, [OPENING, OPENING], 0, 0);
    TwoAllocate();
    RemovalBetweenInserts(s2);
    Unfolds(NO_OPENS, Allocated, [Allocated] + rest);
    Unfolds(s1, Allocated, rest);
  }

  lemma RemovalBetweenInserts(s: Opens)
    requires s == Opens(1, {}, [OPENING, OPENING], 0, 0)
    ensures var events := [Inserted(0)] + ([Removed(1)] + [Inserted(0)]);
            && !SparesOpenings(s, events) && !Timely(s, events)
            && Run(s, events) == Opens(1, {1}, [], 2, 0)
  {
    var s1, s2 := Opens(1, {1}, [OPENING], 1, 0), Opens(1, {}, [OPENING], 1, 0);
    assert Next(s, Inserted(0)) == s1 && Next(s1, Removed(1)) == s2;
    assert s1.openings[0] in s1.openings;
    Unfolds(s, Inserted(0), [Removed(1)] + [Inserted(0)]);
    Unfolds(s1, Removed(1), [Inserted(0)]);
    assert Next(s2, Inserted(0)) == Opens(1, {1}, [], 2, 0);
    Unfolds(s2, Inserted(0), []);
    assert [Inserted(0)] + [] == [Inserted(0)];
  }
}
