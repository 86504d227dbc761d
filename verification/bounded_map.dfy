/**
 * The correlation maps `openAskMessages` and `openPostMessages`: insertion-ordered
 * maps from a request's message id to a reference to its pending result, capped at
 * MAX_ENTRIES. Putting a new key into a full map evicts the eldest key (by
 * insertion, not by access); the router decides what happens to the evicted result.
 */
module BoundedMaps {
  import opened Wrappers
  import opened Messages

  /** MAX_ENTRIES: the most entries a correlation map keeps. */
  const MaxEntries: nat := 5000

  /** A reference to a result slot. The router owns the slots; a map only refers to them. */
  type Handle = nat

  predicate Distinct(s: seq<MessageId>) {
    forall i, j | 0 <= i < j < |s| :: s[i] != s[j]
  }

  lemma DistinctSuffix(s: seq<MessageId>, n: nat)
    requires Distinct(s) && n <= |s|
    ensures Distinct(s[n..])
  {
    forall i, j | 0 <= i < j < |s[n..]|
      ensures s[n..][i] != s[n..][j]
    {
      assert s[n..][i] == s[n + i] && s[n..][j] == s[n + j];
    }
  }

  lemma DistinctCons(x: MessageId, s: seq<MessageId>)
    requires Distinct(s) && x !in s
    ensures Distinct([x] + s)
  {
    forall i, j | 0 <= i < j < |[x] + s|
      ensures ([x] + s)[i] != ([x] + s)[j]
    {
      assert ([x] + s)[j] == s[j - 1];
      if i > 0 {
        assert ([x] + s)[i] == s[i - 1];
      }
    }
  }

  /** The insertion order with `k` taken out and every other key left where it was. */
  function Without(order: seq<MessageId>, k: MessageId): (r: seq<MessageId>)
    ensures forall x :: x in r <==> x in order && x != k
    ensures Distinct(order) ==> Distinct(r)
    ensures k !in order ==> r == order
    ensures |r| <= |order|
  {
    if order == [] then []
    else if order[0] == k then Without(order[1..], k)
    else
      var rest := Without(order[1..], k);
      if Distinct(order) then
        DistinctSuffix(order, 1);
        DistinctCons(order[0], rest);
        [order[0]] + rest
      else [order[0]] + rest
  }

  /** In a duplicate-free order the eldest key does not come back later. */
  lemma HeadNotInTail(s: seq<MessageId>)
    requires Distinct(s) && s != []
    ensures s[0] !in s[1..]
  {
    forall i | 0 <= i < |s[1..]| ensures s[1..][i] != s[0] {
      assert s[1..][i] == s[i + 1];
    }
  }

  /** Taking a key out of a concatenation takes it out of each part. */
  lemma {:induction false} WithoutAppend(a: seq<MessageId>, b: seq<MessageId>, k: MessageId)
    ensures Without(a + b, k) == Without(a, k) + Without(b, k)
    decreases |a|
  {
    if a == [] {
      assert a + b == b;
    } else {
      assert (a + b)[0] == a[0];
      assert (a + b)[1..] == a[1..] + b;
      WithoutAppend(a[1..], b, k);
    }
  }

  /** A key that occurs once, between `before` and `after`, comes out leaving `before + after`. */
  lemma SpliceOut(before: seq<MessageId>, k: MessageId, after: seq<MessageId>)
    requires k !in before && k !in after
    ensures Without(before + [k] + after, k) == before + after
  {
    assert before + [k] + after == before + ([k] + after);
    WithoutAppend(before, [k] + after, k);
    WithoutAppend([k], after, k);
    assert Without([k], k) == [];
  }

  /**
   * Taking a key out of a duplicate-free order splices it out where it stood:
   * every other key keeps its place relative to the rest.
   */
  lemma WithoutSplice(order: seq<MessageId>, i: nat)
    requires Distinct(order) && i < |order|
    ensures Without(order, order[i]) == order[..i] + order[i + 1..]
  {
    var k, before, after := order[i], order[..i], order[i + 1..];
    assert k !in before by {
      forall j | 0 <= j < |before| ensures before[j] != k {
        assert before[j] == order[j];
      }
    }
    assert k !in after by {
      forall j | 0 <= j < |after| ensures after[j] != k {
        assert after[j] == order[i + 1 + j];
      }
    }
    assert order == before + [k] + after;
    SpliceOut(before, k, after);
  }

  /** The key that putting `k` evicts: the eldest one, when `k` is new and the map is full. */
  function Evicted(order: seq<MessageId>, k: MessageId): (r: Option<MessageId>)
    requires |order| <= MaxEntries
    ensures r.Some? <==> k !in order && |order| == MaxEntries
    ensures r.Some? ==> r.value == order[0] && r.value != k
  {
    if k !in order && |order| == MaxEntries then Some(order[0]) else None
  }

  /**
   * The insertion order after putting `k`: a key already present keeps its place;
   * a new key goes last, and when that takes the map past MaxEntries the eldest
   * key leaves and nothing else moves.
   */
  function InsertOrder(order: seq<MessageId>, k: MessageId): (r: seq<MessageId>)
    requires Distinct(order) && |order| <= MaxEntries
    ensures Distinct(r) && |r| <= MaxEntries
    ensures forall x :: x in r <==> x == k || (x in order && Some(x) != Evicted(order, k))
    ensures |r| == if k in order || Evicted(order, k).Some? then |order| else |order| + 1
    ensures k in order ==> r == order
    ensures k !in order ==> r[|r| - 1] == k
    ensures k !in order ==>
      r == (if Evicted(order, k).Some? then Without(order, order[0]) else order) + [k]
  {
    if k in order then order
    else if |order| < MaxEntries then order + [k]
    else
      HeadNotInTail(order);
      DistinctSuffix(order, 1);
      order[1..] + [k]
  }

  /** The insertion order after putting each of `ids`, in turn, into a map ordered as `order`. */
  function InsertAll(order: seq<MessageId>, ids: seq<MessageId>): (r: seq<MessageId>)
    requires Distinct(order) && |order| <= MaxEntries
    ensures Distinct(r) && |r| <= MaxEntries
    decreases |ids|
  {
    if ids == [] then order else InsertAll(InsertOrder(order, ids[0]), ids[1..])
  }

  /** The last `n` elements of `s`, or all of `s` when it is shorter. */
  function Newest(s: seq<MessageId>, n: nat): (r: seq<MessageId>)
    ensures |r| == if |s| <= n then |s| else n
  {
    if |s| <= n then s else s[|s| - n..]
  }

  /**
   * Putting distinct new keys one after another keeps exactly the MaxEntries most
   * recently inserted ones, in insertion order.
   */
  lemma {:induction false} InsertAllKeepsNewest(order: seq<MessageId>, ids: seq<MessageId>)
    requires Distinct(order) && Distinct(order + ids) && |order| <= MaxEntries
    ensures InsertAll(order, ids) == Newest(order + ids, MaxEntries)
    decreases |ids|
  {
    if ids == [] {
      assert order + ids == order;
    } else {
      var s := order + ids;
      var k := ids[0];
      assert k == s[|order|];
      assert k !in order by {
        forall i | 0 <= i < |order| ensures order[i] != k {
          assert order[i] == s[i];
        }
      }
      var next := InsertOrder(order, k);
      if |order| < MaxEntries {
        assert next + ids[1..] == s;
      } else {
        assert next + ids[1..] == s[1..];
        DistinctSuffix(s, 1);
        assert Newest(s[1..], MaxEntries) == Newest(s, MaxEntries);
      }
      InsertAllKeepsNewest(next, ids[1..]);
    }
  }

  /** Putting distinct keys into an empty map keeps the MaxEntries newest. */
  lemma InsertAllFromEmpty(ids: seq<MessageId>)
    requires Distinct(ids)
    ensures InsertAll([], ids) == Newest(ids, MaxEntries)
  {
    assert [] + ids == ids;
    InsertAllKeepsNewest([], ids);
  }

  /** Dropping the last key of a duplicate-free sequence leaves it duplicate-free and without that key. */
  lemma DistinctButLast(ids: seq<MessageId>)
    requires Distinct(ids) && ids != []
    ensures Distinct(ids[..|ids| - 1]) && ids[|ids| - 1] !in ids[..|ids| - 1]
  {
    var prefix := ids[..|ids| - 1];
    forall i, j | 0 <= i < j < |prefix| ensures prefix[i] != prefix[j] {
      assert prefix[i] == ids[i] && prefix[j] == ids[j];
    }
    forall i | 0 <= i < |prefix| ensures prefix[i] != ids[|ids| - 1] {
      assert prefix[i] == ids[i];
    }
  }

  /**
   * Putting MaxEntries + 1 distinct keys into an empty map evicts exactly one key,
   * the first one put, and keeps the rest in the order they were put.
   */
  lemma OverflowEvictsFirst(ids: seq<MessageId>)
    requires Distinct(ids) && |ids| == MaxEntries + 1
    ensures Distinct(ids[..|ids| - 1])
    ensures Evicted(InsertAll([], ids[..|ids| - 1]), ids[|ids| - 1]) == Some(ids[0])
    ensures InsertAll([], ids) == ids[1..]
  {
    InsertAllFromEmpty(ids);
    DistinctButLast(ids);
    var prefix := ids[..|ids| - 1];
    InsertAllFromEmpty(prefix);
    assert InsertAll([], prefix) == prefix;
  }

  /** One correlation map (a size-capped `LinkedHashMap` in the source). */
  class BoundedMap {
    /** The keys, eldest first. */
    var order: seq<MessageId>
    var entries: map<MessageId, Handle>

    ghost predicate Valid()
      reads this
    {
      && Distinct(order)
      && |order| <= MaxEntries
      && (forall k :: k in entries <==> k in order)
    }

    /** The entry a put of `k` evicts: the eldest, when `k` is new and the map is full. */
    ghost function EvictedBy(k: MessageId): (r: Option<(MessageId, Handle)>)
      reads this
      requires Valid()
      ensures r.Some? ==> r.value.0 in entries && r.value.1 == entries[r.value.0]
    {
      var victim := Evicted(order, k);
      if victim.Some? then Some((victim.value, entries[victim.value])) else None
    }

    constructor ()
      ensures Valid() && order == [] && entries == map[]
    {
      order := [];
      entries := map[];
    }

    /** `get`: the reference stored under `k`, if any. */
    method Get(k: MessageId) returns (h: Option<Handle>)
      ensures h.Some? <==> k in entries
      ensures h.Some? ==> h.value == entries[k]
    {
      h := if k in entries then Some(entries[k]) else None;
    }

    /**
     * `put` followed by `removeEldestEntry`: stores `h` under `k` and, when `k` is
     * new and the map was full, drops the eldest entry and hands it back so that
     * the caller can fail its result.
     */
    method Put(k: MessageId, h: Handle) returns (evicted: Option<(MessageId, Handle)>)
      requires Valid()
      modifies this
      ensures Valid()
      ensures order == InsertOrder(old(order), k)
      ensures evicted == old(EvictedBy(k))
      ensures entries == (if evicted.Some? then old(entries) - {evicted.value.0} else old(entries))[k := h]
    {
      var victim := Evicted(order, k);
      if victim.Some? {
        evicted := Some((victim.value, entries[victim.value]));
        entries := entries - {victim.value};
      } else {
        evicted := None;
      }
      order := InsertOrder(order, k);
      entries := entries[k := h];
    }

    /** `remove`: drops the entry under `k`, if there is one; the other keys keep their order. */
    method Remove(k: MessageId)
      requires Valid()
      modifies this
      ensures Valid()
      ensures order == Without(old(order), k)
      ensures forall i | 0 <= i < |old(order)| && old(order)[i] == k :: order == old(order)[..i] + old(order)[i + 1..]
      ensures entries == old(entries) - {k}
    {
      forall i | 0 <= i < |order| && order[i] == k
        ensures Without(order, k) == order[..i] + order[i + 1..]
      {
        WithoutSplice(order, i);
      }
      order := Without(order, k);
      entries := entries - {k};
    }
  }
}
