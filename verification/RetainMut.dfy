/** Vec::retain_mut over a vector of shared objects: a closure may change the state of each element's
    object and says whether the element stays. The vector may name an object twice. */
module RetainMut {

  /** What the closure did to one element. */
  datatype Turned<S, V> = Turned(state: S, kept: bool, value: V)

  datatype Pass<!Id(==), S, V> = Pass(store: map<Id, S>, kept: seq<Id>, values: seq<V>)

  /** The pass over the first n elements; values collects what the closure said of the retained ones. */
  function Retain<Id(==), S, V>(ids: seq<Id>, store: map<Id, S>, closure: (nat, S) -> Turned<S, V>, n: nat)
    : (p: Pass<Id, S, V>)
    requires n <= |ids| && forall id :: id in ids ==> id in store
    ensures p.store.Keys == store.Keys && |p.values| == |p.kept|
  {
    if n == 0 then Pass(store, [], []) else
      var p := Retain(ids, store, closure, n - 1);
      var id := ids[n - 1];
      var t := closure(n - 1, p.store[id]);
      if t.kept then Pass(p.store[id := t.state], p.kept + [id], p.values + [t.value])
      else p.(store := p.store[id := t.state])
  }

  predicate Subsequence<T(==)>(a: seq<T>, b: seq<T>)
    decreases |b|
  {
    a == [] || (b != [] && (Subsequence(a, b[..|b| - 1])
                            || (a[|a| - 1] == b[|b| - 1] && Subsequence(a[..|a| - 1], b[..|b| - 1]))))
  }

  lemma SubsequenceExtends<T>(a: seq<T>, b: seq<T>, x: T)
    requires Subsequence(a, b)
    ensures Subsequence(a, b + [x]) && Subsequence(a + [x], b + [x])
  {
  }

  /** The retained elements are a subsequence in order. */
  lemma {:induction false} RetainOrder<Id, S, V>(ids: seq<Id>, store: map<Id, S>,
                                                 closure: (nat, S) -> Turned<S, V>, n: nat)
    requires n <= |ids| && forall id :: id in ids ==> id in store
    ensures Subsequence(Retain(ids, store, closure, n).kept, ids[..n])
  {
    if n > 0 {
      RetainOrder(ids, store, closure, n - 1);
      SubsequenceExtends(Retain(ids, store, closure, n - 1).kept, ids[..n - 1], ids[n - 1]);
      assert ids[..n] == ids[..n - 1] + [ids[n - 1]];
    }
  }

  /** If the closure drops only objects that reach done, and done is never left, then done objects stay
      done, and whatever is dropped is done. */
  lemma {:induction false} DroppedAreDone<Id, S(!new), V>(
    ids: seq<Id>, store: map<Id, S>, closure: (nat, S) -> Turned<S, V>, n: nat, done: S -> bool, id: Id)
    requires n <= |ids| && (forall id :: id in ids ==> id in store) && id in store
    requires forall i: nat, s ::
               (closure(i, s).kept || done(closure(i, s).state)) && (done(s) ==> done(closure(i, s).state))
    ensures var p := Retain(ids, store, closure, n);
            && (id in ids[..n] && id !in p.kept ==> done(p.store[id]))
            && (done(store[id]) ==> done(p.store[id]))
  {
    if n > 0 {
      DroppedAreDone(ids, store, closure, n - 1, done, id);
      assert ids[..n] == ids[..n - 1] + [ids[n - 1]];
    }
  }

  /** What is good after the first i elements, and stays good under the closure, is good at the end. */
  lemma {:induction false} StaysGood<Id, S(!new), V>(
    ids: seq<Id>, store: map<Id, S>, closure: (nat, S) -> Turned<S, V>, i: nat, n: nat, id: Id, good: S -> bool)
    requires i <= n <= |ids| && (forall id :: id in ids ==> id in store) && id in store
    requires forall j: nat, s :: good(s) ==> good(closure(j, s).state)
    requires good(Retain(ids, store, closure, i).store[id])
    ensures good(Retain(ids, store, closure, n).store[id])
    decreases n
  {
    if i < n {
      StaysGood(ids, store, closure, i, n - 1, id, good);
    }
  }
}
