/** The server's two-level session table, the flat table it stands for, and the reader that fills it. */
module ServerTable {
  import opened Prelude
  import opened Session

  /** The hash of a socket address. */
  type Id = nat

  datatype Key = Key(id: Id, conv: U32)

  type Inner<T> = map<U32, T>
  type Nested<T> = map<Id, Inner<T>>

  /** entry(id).or_default() */
  function Entry<T>(s: Nested<T>, id: Id): Nested<T> {
    if id in s then s else s[id := map[]]
  }

  function InnerOf<T>(s: Nested<T>, id: Id): Inner<T> {
    if id in s then s[id] else map[]
  }

  function Insert<T>(s: Nested<T>, key: Key, t: T): Nested<T> {
    var inner: Inner<T> := InnerOf(s, key.id)[key.conv := t];
    s[key.id := inner]
  }

  function Remove<T>(s: Nested<T>, key: Key): Nested<T> {
    var inner: Inner<T> := InnerOf(s, key.id) - {key.conv};
    s[key.id := inner]
  }

  /** The session under a key, in the nested table and in a flat one. */
  function At<T>(s: Nested<T>, key: Key): Option<T> {
    var inner := InnerOf(s, key.id);
    if key.conv in inner then Some(inner[key.conv]) else None
  }

  function Get<T>(flat: map<Key, T>, key: Key): Option<T> {
    if key in flat then Some(flat[key]) else None
  }

  // ---------------------------------------------------------------- Refinement

  datatype Operation<T> = Manage(key: Key, t: T) | RemoveOne(key: Key) | Lookup(key: Key) | CloseAll

  /** The new table, and the session that the operation returns or takes out. */
  function NestedStep<T>(s: Nested<T>, op: Operation<T>): (Nested<T>, Option<T>) {
    match op
    case Manage(key, t) => (Insert(s, key, t), None)
    case RemoveOne(key) => (Remove(s, key), At(s, key))
    case Lookup(key) => (Entry(s, key.id), At(s, key))
    case CloseAll => (map[], None)
  }

  function FlatStep<T>(flat: map<Key, T>, op: Operation<T>): (map<Key, T>, Option<T>) {
    match op
    case Manage(key, t) => (flat[key := t], None)
    case RemoveOne(key) => (flat - {key}, Get(flat, key))
    case Lookup(key) => (flat, Get(flat, key))
    case CloseAll => (map[], None)
  }

  ghost predicate Represents<T>(s: Nested<T>, flat: map<Key, T>) {
    forall key :: At(s, key) == Get(flat, key)
  }

  lemma StepRefines<T>(s: Nested<T>, flat: map<Key, T>, op: Operation<T>)
    requires Represents(s, flat)
    ensures NestedStep(s, op).1 == FlatStep(flat, op).1
    ensures Represents(NestedStep(s, op).0, FlatStep(flat, op).0)
  {
    var s', flat' := NestedStep(s, op).0, FlatStep(flat, op).0;
    forall key
      ensures At(s', key) == Get(flat', key)
    {
      assert At(s, key) == Get(flat, key);
    }
  }

  function NestedRun<T>(s: Nested<T>, ops: seq<Operation<T>>): (Nested<T>, seq<Option<T>>)
    decreases |ops|
  {
    if ops == [] then (s, []) else
      var (s1, answer) := NestedStep(s, ops[0]);
      var (s2, answers) := NestedRun(s1, ops[1..]);
      (s2, [answer] + answers)
  }

  function FlatRun<T>(flat: map<Key, T>, ops: seq<Operation<T>>): (map<Key, T>, seq<Option<T>>)
    decreases |ops|
  {
    if ops == [] then (flat, []) else
      var (f1, answer) := FlatStep(flat, ops[0]);
      var (f2, answers) := FlatRun(f1, ops[1..]);
      (f2, [answer] + answers)
  }

  /** The outer keys after a run: every id that any operation has named since the last CloseAll. */
  function IdsNamed<T>(ids: set<Id>, ops: seq<Operation<T>>): set<Id>
    decreases |ops|
  {
    if ops == [] then ids
    else IdsNamed(if ops[0].CloseAll? then {} else ids + {ops[0].key.id}, ops[1..])
  }

  /** No sequence of operations can tell the nested table from the flat one; but the nested one keeps an
      outer key for every id ever looked up, inserted or removed, until everything is closed. */
  lemma {:induction false} NestedRefinesFlat<T>(s: Nested<T>, flat: map<Key, T>, ops: seq<Operation<T>>)
    requires Represents(s, flat)
    ensures NestedRun(s, ops).1 == FlatRun(flat, ops).1
    ensures Represents(NestedRun(s, ops).0, FlatRun(flat, ops).0)
    ensures NestedRun(s, ops).0.Keys == IdsNamed(s.Keys, ops)
    decreases |ops|
  {
    if ops != [] {
      StepRefines(s, flat, ops[0]);
      var s' := NestedStep(s, ops[0]).0;
      assert s'.Keys == if ops[0].CloseAll? then {} else s.Keys + {ops[0].key.id};
      NestedRefinesFlat(s', FlatStep(flat, ops[0]).0, ops[1..]);
    }
  }

  // ---------------------------------------------------------------- The manager

  class KcpManager {
    var sessions: Nested<SafeKcp>

    constructor ()
      ensures sessions == map[]
    {
      sessions := map[];
    }

    method OrDefault(id: Id)
      modifies this
      ensures sessions == Entry(old(sessions), id)
    {
      if id !in sessions {
        sessions := sessions[id := map[]];
      }
    }

    method Manage(id: Id, conv: U32, kcp: SafeKcp)
      modifies this
      ensures sessions == NestedStep(old(sessions), Operation.Manage(Key(id, conv), kcp)).0
    {
      OrDefault(id);
      var inner: Inner<SafeKcp> := sessions[id][conv := kcp];
      sessions := sessions[id := inner];
    }

    /** A lookup may leave an empty inner map behind. */
    method Lookup(id: Id, conv: U32) returns (kcp: Option<SafeKcp>)
      modifies this
      ensures (sessions, kcp) == NestedStep(old(sessions), Operation.Lookup(Key(id, conv)))
    {
      OrDefault(id);
      kcp := if conv in sessions[id] then Some(sessions[id][conv]) else None;
    }

    /** Takes the session out, if there is one, and closes it; the outer key stays. */
    method RemoveSession(id: Id, conv: U32) returns (removed: Option<SafeKcp>)
      modifies this, match At(sessions, Key(id, conv)) case None => {} case Some(kcp) => {kcp}
      ensures (sessions, removed) == NestedStep(old(sessions), RemoveOne(Key(id, conv)))
      ensures removed.Some? ==>
                removed.value.Snapshot() == old(At(sessions, Key(id, conv)).value.Snapshot()).ForceClose()
    {
      OrDefault(id);
      removed := None;
      if conv in sessions[id] {
        removed := Some(sessions[id][conv]);
      }
      var inner: Inner<SafeKcp> := sessions[id] - {conv};
      sessions := sessions[id := inner];
      assert sessions == Remove(old(sessions), Key(id, conv));
      if removed.Some? {
        removed.value.ForceClose();
      }
    }

    /** Closes every session and empties the table. */
    method CloseAllSession()
      modifies this, Stored(sessions)
      ensures sessions == map[]
      ensures forall kcp :: kcp in Stored(old(sessions)) ==> kcp.Snapshot() == old(kcp.Snapshot()).ForceClose()
    {
      ghost var all := Stored(sessions);
      ghost var done: set<SafeKcp> := {};
      var ids := sessions.Keys;
      while ids != {}
        invariant unchanged(this) && ids <= sessions.Keys && done <= all
        invariant forall id :: id in sessions && id !in ids ==> sessions[id].Values <= done
        invariant forall kcp :: kcp in done ==> kcp.Snapshot() == old(kcp.Snapshot()).ForceClose()
        invariant forall kcp :: kcp in all - done ==> kcp.Snapshot() == old(kcp.Snapshot())
        decreases ids
      {
        var id :| id in ids;
        CloseInner(sessions[id]);
        forall kcp | kcp in sessions[id].Values
          ensures kcp.Snapshot() == old(kcp.Snapshot()).ForceClose()
        {
          ForceCloseOnce(old(kcp.Snapshot()));
        }
        done := done + sessions[id].Values;
        ids := ids - {id};
      }
      sessions := map[];
    }
  }

  /** The inner loop of close_all_session. */
  method CloseInner(sessions: Inner<SafeKcp>)
    modifies sessions.Values
    ensures forall kcp :: kcp in sessions.Values ==> kcp.Snapshot() == old(kcp.Snapshot()).ForceClose()
  {
    var convs := sessions.Keys;
    ghost var done: set<SafeKcp> := {};
    while convs != {}
      invariant convs <= sessions.Keys && done <= sessions.Values
      invariant forall conv :: conv in sessions && conv !in convs ==> sessions[conv] in done
      invariant forall kcp :: kcp in done ==> kcp.Snapshot() == old(kcp.Snapshot()).ForceClose()
      invariant forall kcp :: kcp in sessions.Values - done ==> kcp.Snapshot() == old(kcp.Snapshot())
      decreases convs
    {
      var conv :| conv in convs;
      var kcp := sessions[conv];
      ForceCloseOnce(old(kcp.Snapshot()));
      kcp.ForceClose();
      done := done + {kcp};
      convs := convs - {conv};
    }
  }

  /** The sessions of the table. */
  ghost function Stored(s: Nested<SafeKcp>): (r: set<SafeKcp>)
    ensures forall id :: id in s ==> s[id].Values <= r
  {
    set id, conv | id in s && conv in s[id] :: s[id][conv]
  }

  // ---------------------------------------------------------------- The reader

  /** The reader task together with whatever else changes the table: it looks a packet's key up and, if
      that is absent, makes a session, which it inserts only after it has waited to register it. A session
      that rejects its packet is closed, found or made. */
  datatype Reader<T> = Reader(table: Nested<T>, making: Option<(Key, T)>, closed: seq<T>, overwrites: nat)

  datatype Event<T> =
    | Packet(key: Key, made: T, accepted: bool)
    | Registered
    | Removed(key: Key)
    | Cleared

  function Next<T>(r: Reader<T>, e: Event<T>): Reader<T> {
    match e
    case Packet(key, made, accepted) =>
      if r.making.Some? then r
      else
        var (table, found) := NestedStep(r.table, Operation.Lookup(key));
        var session := if found.Some? then found.value else made;
        if !accepted then r.(table := table, closed := r.closed + [session])
        else if found.Some? then r.(table := table)
        else r.(table := table, making := Some((key, made)))
    case Registered =>
      if r.making.None? then r
      else
        var (key, made) := r.making.value;
        r.(table := Insert(r.table, key, made), making := None,
           overwrites := if At(r.table, key).Some? then r.overwrites + 1 else r.overwrites)
    case Removed(key) => r.(table := Remove(r.table, key))
    case Cleared => r.(table := map[])
  }

  function Run<T>(r: Reader<T>, events: seq<Event<T>>): Reader<T> {
    if events == [] then r else Next(Run(r, events[..|events| - 1]), events[|events| - 1])
  }

  function NewReader<T>(): Reader<T> {
    Reader(map[], None, [], 0)
  }

  predicate KeyIsFree<T>(r: Reader<T>) {
    r.making.Some? ==> At(r.table, r.making.value.0).None?
  }

  /** The single reader never overwrites a session, whatever is removed while it waits. */
  lemma {:induction false} ReaderNeverOverwrites<T>(r: Reader<T>, events: seq<Event<T>>)
    requires KeyIsFree(r)
    ensures Run(r, events).overwrites == r.overwrites && KeyIsFree(Run(r, events))
  {
    if events != [] {
      ReaderNeverOverwrites(r, events[..|events| - 1]);
    }
  }

  // What the events alone say, for a reader that starts with an empty table.

  /** The session that waits to be registered: that of the first accepted packet, since the last one was
      registered, whose key stood for no session. */
  function MakingBy<T>(events: seq<Event<T>>): Option<(Key, T)> {
    if events == [] then None else
      var front := events[..|events| - 1];
      match events[|events| - 1]
      case Packet(key, made, accepted) =>
        if MakingBy(front).None? && accepted && StoredBy(front, key).None? then Some((key, made)) else MakingBy(front)
      case Registered => None
      case _ => MakingBy(front)
  }

  /** The session that key stands for: the last that was registered under it and not taken away since. */
  function StoredBy<T>(events: seq<Event<T>>, key: Key): Option<T> {
    if events == [] then None else
      var front := events[..|events| - 1];
      match events[|events| - 1]
      case Registered =>
        var making := MakingBy(front);
        if making.Some? && making.value.0 == key then Some(making.value.1) else StoredBy(front, key)
      case Removed(k) => if k == key then None else StoredBy(front, key)
      case Cleared => None
      case Packet(_, _, _) => StoredBy(front, key)
  }

  /** The sessions that rejected a packet, as often as they did. */
  function RejectedBy<T>(events: seq<Event<T>>): seq<T> {
    if events == [] then [] else
      var front := events[..|events| - 1];
      match events[|events| - 1]
      case Packet(key, made, accepted) =>
        if accepted || MakingBy(front).Some? then RejectedBy(front)
        else
          var found := StoredBy(front, key);
          RejectedBy(front) + [if found.Some? then found.value else made]
      case _ => RejectedBy(front)
  }

  lemma InsertStores<T>(s: Nested<T>, key: Key, t: T, other: Key)
    ensures At(Insert(s, key, t), other) == if other == key then Some(t) else At(s, other)
  {
  }

  lemma RemoveStores<T>(s: Nested<T>, key: Key, other: Key)
    ensures At(Remove(s, key), other) == if other == key then None else At(s, other)
  {
  }

  /** In every run the reader's table holds under every key exactly what the events say, the session being
      made is the one they say, and exactly the sessions that rejected a packet were closed. */
  lemma {:induction false} ReaderStores<T>(events: seq<Event<T>>)
    ensures var r := Run(NewReader<T>(), events);
            && (forall key :: At(r.table, key) == StoredBy(events, key))
            && r.making == MakingBy(events)
            && r.closed == RejectedBy(events)
  {
    if events != [] {
      var front, last := events[..|events| - 1], events[|events| - 1];
      var r, r' := Run(NewReader<T>(), front), Run(NewReader<T>(), events);
      ReaderStores(front);
      forall key
        ensures At(r'.table, key) == StoredBy(events, key)
      {
        if r.making.Some? { InsertStores(r.table, r.making.value.0, r.making.value.1, key); }
        if last.Removed? { RemoveStores(r.table, last.key, key); }
      }
    }
  }

  /** Event i registered this session under this key, and no later event took it away. */
  ghost predicate RegisteredAt<T>(events: seq<Event<T>>, i: nat, key: Key, t: T) {
    && i < |events| && events[i].Registered? && MakingBy(events[..i]) == Some((key, t))
    && forall j :: i < j < |events| ==> !events[j].Cleared? && events[j] != Removed(key)
  }

  /** In every run a key stands for a session exactly if one of the registrations stored it there and
      nothing has taken it away since; no other registration can have replaced it. */
  lemma {:induction false} StoredIffRegistered<T>(events: seq<Event<T>>, key: Key, t: T)
    ensures StoredBy(events, key) == Some(t) <==> exists i: nat :: RegisteredAt(events, i, key, t)
  {
    if events != [] {
      var n := |events| - 1;
      var front, last := events[..n], events[n];
      StoredIffRegistered(front, key, t);
      assert forall i: nat :: i < n ==> front[i] == events[i] && front[..i] == events[..i];
      if StoredBy(events, key) == Some(t) {
        if last.Registered? && MakingBy(front) == Some((key, t)) {
          assert RegisteredAt(events, n, key, t);
        } else {
          var i: nat :| RegisteredAt(front, i, key, t);
          assert RegisteredAt(events, i, key, t);
        }
      }
      if i: nat :| RegisteredAt(events, i, key, t) {
        if i < n {
          assert RegisteredAt(front, i, key, t);
          MakingIsFree(front);
        }
      }
    }
  }

  /** The key of the session being made stands for none. */
  lemma MakingIsFree<T>(events: seq<Event<T>>)
    ensures var making := MakingBy(events); making.Some? ==> StoredBy(events, making.value.0).None?
  {
    ReaderStores(events);
    ReaderNeverOverwrites(NewReader<T>(), events);
  }
}
