/**
 * A bounded queue with one entry for each key: pushing a key drops its old entry, appends the new
 * one, and drops entries from the front while there are too many.
 */
module RecencyQueue {
  import opened Wrappers

  const CAPACITY: nat := 16

  datatype Entry<+K, +V> = Entry(key: K, value: V)

  type Queue<K, V> = seq<Entry<K, V>>

  function Without<K(==), V>(q: Queue<K, V>, key: K): Queue<K, V> {
    if q == [] then []
    else
      var rest := Without(q[..|q| - 1], key);
      if q[|q| - 1].key == key then rest else rest + [q[|q| - 1]]
  }

  function Last<T>(s: seq<T>, n: nat): seq<T> {
    if |s| <= n then s else s[|s| - n..]
  }

  function Push<K(==), V>(q: Queue<K, V>, key: K, value: V): Queue<K, V> {
    Last(Without(q, key) + [Entry(key, value)], CAPACITY)
  }

  function Find<K(==), V>(q: Queue<K, V>, key: K): Option<V> {
    if q == [] then None
    else if q[0].key == key then Some(q[0].value)
    else Find(q[1..], key)
  }

  ghost predicate Distinct<K, V>(q: Queue<K, V>) {
    forall i, j :: 0 <= i < j < |q| ==> q[i].key != q[j].key
  }

  // ---------------------------------------------------------------- lookups

  lemma {:induction false} FindLocates<K, V>(q: Queue<K, V>, key: K)
    ensures Find(q, key).Some? ==> exists i :: 0 <= i < |q| && q[i] == Entry(key, Find(q, key).value)
    ensures Find(q, key).None? ==> forall i :: 0 <= i < |q| ==> q[i].key != key
  {
    if q != [] && q[0].key != key {
      FindLocates(q[1..], key);
      if Find(q, key).Some? {
        var i :| 0 <= i < |q[1..]| && q[1..][i] == Entry(key, Find(q, key).value);
        assert q[i + 1] == q[1..][i];
      } else {
        forall i | 0 <= i < |q| ensures q[i].key != key {
          if i > 0 { assert q[i] == q[1..][i - 1]; }
        }
      }
    } else if q != [] {
      assert q[0] == Entry(key, Find(q, key).value);
    }
  }

  lemma FindIs<K, V>(q: Queue<K, V>, i: nat)
    requires Distinct(q) && i < |q|
    ensures Find(q, q[i].key) == Some(q[i].value)
  {
    FindLocates(q, q[i].key);
  }

  // ---------------------------------------------------------------- removal

  lemma {:induction false} WithoutRemoves<K, V>(q: Queue<K, V>, key: K)
    ensures |Without(q, key)| <= |q|
    ensures forall i :: 0 <= i < |Without(q, key)| ==> Without(q, key)[i] in q && Without(q, key)[i].key != key
    ensures forall e :: e in q && e.key != key ==> e in Without(q, key)
    ensures Distinct(q) ==> Distinct(Without(q, key))
  {
    if q != [] {
      WithoutRemoves(q[..|q| - 1], key);
    }
  }

  lemma {:induction false} WithoutAbsent<K, V>(q: Queue<K, V>, key: K)
    requires forall i :: 0 <= i < |q| ==> q[i].key != key
    ensures Without(q, key) == q
  {
    if q != [] {
      WithoutAbsent(q[..|q| - 1], key);
    }
  }

  lemma {:induction false} WithoutConcat<K, V>(q: Queue<K, V>, r: Queue<K, V>, key: K)
    ensures Without(q + r, key) == Without(q, key) + Without(r, key)
  {
    if r == [] {
      assert q + r == q;
    } else {
      assert (q + r)[..|q + r| - 1] == q + r[..|r| - 1];
      WithoutConcat(q, r[..|r| - 1], key);
    }
  }

  lemma {:induction false} WithoutLosesAtMostOne<K, V>(q: Queue<K, V>, key: K)
    requires Distinct(q)
    ensures |Without(q, key)| >= |q| - 1
  {
    if q != [] {
      if q[|q| - 1].key == key {
        WithoutAbsent(q[..|q| - 1], key);
      } else {
        WithoutLosesAtMostOne(q[..|q| - 1], key);
      }
    }
  }

  // ---------------------------------------------------------------- pushing

  lemma SnocIsDistinct<K, V>(q: Queue<K, V>, e: Entry<K, V>)
    requires Distinct(q) && forall i :: 0 <= i < |q| ==> q[i].key != e.key
    ensures Distinct(q + [e])
  {
  }

  lemma LastIs<K, V>(q: Queue<K, V>, n: nat, last: Queue<K, V>)
    requires Distinct(q) && last == Last(q, n)
    ensures Distinct(last) && |last| == (if |q| > n then n else |q|)
    ensures forall i :: 0 <= i < |last| ==> last[i] == q[|q| - |last| + i]
  {
  }

  lemma PushShape<K, V>(q: Queue<K, V>, key: K, value: V, next: Queue<K, V>)
    requires Distinct(q) && next == Push(q, key, value)
    ensures Distinct(next) && 0 < |next| <= CAPACITY && next[|next| - 1] == Entry(key, value)
    ensures forall i :: 0 <= i < |next| ==> next[i] == Entry(key, value) || (next[i] in q && next[i].key != key)
  {
    WithoutRemoves(q, key);
    SnocIsDistinct(Without(q, key), Entry(key, value));
    LastIs(Without(q, key) + [Entry(key, value)], CAPACITY, next);
  }

  /** The pushed value is found; any other key keeps its value or has been dropped. */
  lemma PushFinds<K, V>(q: Queue<K, V>, key: K, value: V, other: K)
    requires Distinct(q)
    ensures Find(Push(q, key, value), key) == Some(value)
    ensures other != key ==> Find(Push(q, key, value), other) in {None, Find(q, other)}
  {
    var next := Push(q, key, value);
    PushShape(q, key, value, next);
    FindIs(next, |next| - 1);
    if other != key && Find(next, other).Some? {
      FindLocates(next, other);
      var i :| 0 <= i < |next| && next[i] == Entry(other, Find(next, other).value);
      var j :| 0 <= j < |q| && q[j] == next[i];
      FindIs(q, j);
    }
  }

  // ---------------------------------------------------------------- what the queue holds

  /** All pushes of a history, each key at its latest push, never dropped for lack of room. */
  function Recent<K(==), V>(pushes: seq<Entry<K, V>>): Queue<K, V> {
    if pushes == [] then []
    else Without(Recent(pushes[..|pushes| - 1]), pushes[|pushes| - 1].key) + [pushes[|pushes| - 1]]
  }

  function PushAll<K(==), V>(pushes: seq<Entry<K, V>>): Queue<K, V> {
    if pushes == [] then []
    else Push(PushAll(pushes[..|pushes| - 1]), pushes[|pushes| - 1].key, pushes[|pushes| - 1].value)
  }

  lemma {:induction false} RecentIsDistinct<K, V>(pushes: seq<Entry<K, V>>)
    ensures Distinct(Recent(pushes))
  {
    if pushes != [] {
      RecentIsDistinct(pushes[..|pushes| - 1]);
      WithoutRemoves(Recent(pushes[..|pushes| - 1]), pushes[|pushes| - 1].key);
    }
  }

  /** Dropping from the front before or after removing a key leaves the same last entries. */
  lemma LastOfWithout<K, V>(q: Queue<K, V>, key: K)
    requires Distinct(q)
    ensures Last(Without(q, key), CAPACITY - 1) == Last(Without(Last(q, CAPACITY), key), CAPACITY - 1)
  {
    if |q| > CAPACITY {
      var front, back := q[..|q| - CAPACITY], Last(q, CAPACITY);
      assert q == front + back;
      WithoutConcat(front, back, key);
      WithoutLosesAtMostOne(back, key);
      assert |Without(back, key)| >= CAPACITY - 1;
    }
  }

  /** The queue holds exactly the 16 most recently pushed keys, each with its latest value. */
  lemma {:induction false} QueueHoldsMostRecent<K, V>(pushes: seq<Entry<K, V>>)
    ensures PushAll(pushes) == Last(Recent(pushes), 16)
  {
    if pushes != [] {
      var before, e := pushes[..|pushes| - 1], pushes[|pushes| - 1];
      QueueHoldsMostRecent(before);
      RecentIsDistinct(before);
      LastOfWithout(Recent(before), e.key);
      LastOfSnoc(Without(Recent(before), e.key), e);
      LastOfSnoc(Without(Last(Recent(before), CAPACITY), e.key), e);
      assert Entry(e.key, e.value) == e;
    }
  }

  lemma LastOfSnoc<T>(s: seq<T>, x: T)
    ensures Last(s + [x], CAPACITY) == Last(s, CAPACITY - 1) + [x]
  {
  }

  // ---------------------------------------------------------------- the loops

  /** Keeps the entries of every other key, in order. */
  method Retain<K(==), V>(q: Queue<K, V>, key: K) returns (kept: Queue<K, V>)
    ensures kept == Without(q, key)
  {
    kept := [];
    var i := 0;
    while i < |q|
      invariant i <= |q| && kept == Without(q[..i], key)
    {
      assert q[..i + 1][..i] == q[..i];
      if q[i].key != key {
        kept := kept + [q[i]];
      }
      i := i + 1;
    }
    assert q[..i] == q;
  }

  /** Drops entries from the front while there are more than the capacity. */
  method DropOldest<K, V>(q: Queue<K, V>) returns (kept: Queue<K, V>)
    ensures kept == Last(q, CAPACITY)
  {
    kept := q;
    while |kept| > CAPACITY
      invariant |kept| <= |q| && kept == q[|q| - |kept|..]
      invariant |q| > CAPACITY ==> |kept| >= CAPACITY
      invariant |q| <= CAPACITY ==> kept == q
    {
      kept := kept[1..];
    }
  }

  method PushBack<K(==), V>(q: Queue<K, V>, key: K, value: V) returns (next: Queue<K, V>)
    ensures next == Push(q, key, value)
  {
    next := Retain(q, key);
    next := DropOldest(next + [Entry(key, value)]);
  }
}
