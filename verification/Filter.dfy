/** The change filter (internal/ingest/filter.go). */
module Filter {
  import opened Instants
  import opened Options
  import opened Observations

  /** The fields of an observation that a query can distinguish. */
  datatype Value = Value(delayS: Option<int>, stopTimeRel: int, tripRel: int, matched: bool)

  function ValueOf(o: Observation): Value {
    Value(o.observedDelayS, o.stopTimeRel, o.tripRel, o.matched)
  }

  function Abs(v: int): nat { if v < 0 then -v else v }

  /** A status, the match or whether there is a delay differs, or the delays by over minDelta. */
  predicate Changed(prev: Value, now: Value, minDelta: int) {
    if prev.stopTimeRel != now.stopTimeRel || prev.tripRel != now.tripRel || prev.matched != now.matched then true
    else if prev.delayS.Some? != now.delayS.Some? then true
    else if now.delayS.None? then false
    else Abs(now.delayS.value - prev.delayS.value) > minDelta
  }

  /** What is remembered of a key: its last-written value, and when that was recorded. */
  datatype Entry = Entry(value: Value, serviceDate: Date, order: nat)

  // The map of entries, whatever its keys are.

  /** recorded lists the keys in the order their values were recorded, repeats and forgotten ones
      included: entry number n was the n-th. */
  ghost predicate WellOrdered<K>(entries: map<K, Entry>, recorded: seq<K>) {
    forall k | k in entries :: 1 <= entries[k].order <= |recorded| && recorded[entries[k].order - 1] == k
  }

  lemma {:induction false} Without<K>(entries: map<K, Entry>, gone: set<K>)
    requires gone <= entries.Keys
    ensures |entries - gone| == |entries| - |gone|
  {
    assert (entries - gone).Keys == entries.Keys - gone;
  }

  lemma {:induction false} StaysWellOrdered<K>(entries: map<K, Entry>, recorded: seq<K>, gone: set<K>)
    requires WellOrdered(entries, recorded)
    ensures WellOrdered(entries - gone, recorded)
  {}

  lemma {:induction false} Removed<K>(entries: map<K, Entry>, recorded: seq<K>, k: K)
    requires WellOrdered(entries, recorded)
    ensures WellOrdered(entries - {k}, recorded) && |entries - {k}| <= |entries|
  {
    Without(entries, entries.Keys * {k});
    assert entries - {k} == entries - entries.Keys * {k};
  }

  lemma {:induction false} With<K>(entries: map<K, Entry>, k: K, e: Entry)
    ensures |entries[k := e]| == |entries| + if k in entries then 0 else 1
  {
    assert entries[k := e].Keys == entries.Keys + {k};
  }

  predicate IsOldest<K(!new)>(entries: map<K, Entry>, k: K) {
    k in entries && forall j | j in entries && j != k :: entries[k].order < entries[j].order
  }

  lemma {:induction false} OldestExists<K(!new)>(entries: map<K, Entry>, recorded: seq<K>)
    requires WellOrdered(entries, recorded) && entries != map[]
    ensures exists k :: IsOldest(entries, k)
    decreases |entries|
  {
    var k :| k in entries;
    if entries - {k} == map[] {
      assert forall j | j in entries :: j == k || j in entries - {k};
      assert IsOldest(entries, k);
    } else {
      Without(entries, {k});
      OldestExists(entries - {k}, recorded);
      var m :| IsOldest(entries - {k}, m);
      assert forall j | j in entries :: j == k || j in entries - {k};
      assert entries[k].order != entries[m].order;
      assert IsOldest(entries, if entries[k].order < entries[m].order then k else m);
    }
  }

  /** A list of all the keys, in the order their values were recorded. */
  ghost predicate ListsOldestFirst<K(!new)>(entries: map<K, Entry>, all: seq<K>) {
    if all == [] then entries == map[]
    else IsOldest(entries, all[0]) && ListsOldestFirst(entries - {all[0]}, all[1..])
  }

  /** Sorts the keys by the order their values were recorded in. */
  method OldestFirst<K(==, !new)>(entries: map<K, Entry>, ghost recorded: seq<K>) returns (all: seq<K>)
    requires WellOrdered(entries, recorded)
    ensures ListsOldestFirst(entries, all) && |all| == |entries|
    decreases |entries|
  {
    if entries == map[] {
      return [];
    }
    OldestExists(entries, recorded);
    var k :| k in entries.Keys && IsOldest(entries, k);
    Without(entries, {k});
    var rest := OldestFirst(entries - {k}, recorded);
    all := [k] + rest;
  }

  /** What an eviction takes: one key in ten, but one at least, and each older than all that stay. */
  ghost predicate AreOldest<K(!new)>(entries: map<K, Entry>, gone: set<K>) {
    && gone <= entries.Keys
    && |gone| == Max(|entries| / 10, 1)
    && forall a, b | a in gone && b in entries.Keys - gone :: entries[a].order < entries[b].order
  }

  function Max(a: int, b: int): int { if a < b then b else a }

  /** How much that is: nine in ten keys or more stay, and as few as that allows. */
  lemma {:induction false} TenthGoes<K(!new)>(entries: map<K, Entry>, gone: set<K>)
    requires AreOldest(entries, gone)
    ensures if |entries| < 20 then |gone| == 1 else 9 * |entries| <= 10 * |entries - gone| < 9 * |entries| + 10
  {
    Without(entries, gone);
  }

  /** Eviction is determined: no other set of keys would do. */
  lemma {:induction false} OldestAreUnique<K(!new)>(entries: map<K, Entry>, gone: set<K>, other: set<K>)
    requires AreOldest(entries, gone) && AreOldest(entries, other)
    ensures gone == other
  {
    if k :| k in gone && k !in other {
      if j :| j in other && j !in gone {
        assert false;
      }
    }
    SameSize(gone, other);
  }

  lemma {:induction false} SameSize<K>(a: set<K>, b: set<K>)
    requires (a <= b || b <= a) && |a| == |b|
    ensures a == b
  {
    if a * b == {} {
      assert a == {} || b == {};
    } else {
      var x :| x in a * b;
      SameSize(a - {x}, b - {x});
      assert a == a - {x} + {x} && b == b - {x} + {x};
    }
  }

  /** The eviction loop, which takes keys one by one from the oldest on. */
  method RemoveOldest<K(==, !new)>(entries: map<K, Entry>, ghost recorded: seq<K>) returns (kept: map<K, Entry>, n: nat)
    requires WellOrdered(entries, recorded) && entries != map[]
    ensures AreOldest(entries, entries.Keys - kept.Keys) && n == |entries.Keys - kept.Keys|
    ensures kept == entries - (entries.Keys - kept.Keys)
  {
    var all := OldestFirst(entries, recorded);
    n := Max(|all| / 10, 1);
    ghost var gone := {};
    kept := entries;
    for i := 0 to n
      invariant ListsOldestFirst(kept, all[i..])
      invariant gone <= entries.Keys && |gone| == i && kept == entries - gone
      invariant forall a, b | a in gone && b in kept :: entries[a].order < entries[b].order
    {
      var k := all[i];
      assert all[i..][0] == k && all[i..][1..] == all[i + 1..];
      kept := kept - {k};
      gone := gone + {k};
    }
    GoneAre(entries, gone);
  }

  lemma {:induction false} GoneAre<K>(entries: map<K, Entry>, gone: set<K>)
    requires gone <= entries.Keys
    ensures entries.Keys - (entries - gone).Keys == gone
  {}

  ghost function ExpiredAmong<K>(entries: map<K, Entry>, keys: set<K>, cutoff: Date): set<K>
    requires keys <= entries.Keys
  {
    set k | k in keys && entries[k].serviceDate < cutoff
  }

  /** The expiry loop, which visits the keys in any order. */
  method Expire<K(==)>(entries: map<K, Entry>, cutoff: Date) returns (kept: map<K, Entry>, n: nat)
    ensures kept == entries - ExpiredAmong(entries, entries.Keys, cutoff)
    ensures n == |ExpiredAmong(entries, entries.Keys, cutoff)|
  {
    kept, n := entries, 0;
    var rest := entries.Keys;
    while rest != {}
      invariant rest <= entries.Keys
      invariant kept == entries - ExpiredAmong(entries, entries.Keys - rest, cutoff)
      invariant n == |ExpiredAmong(entries, entries.Keys - rest, cutoff)|
      decreases rest
    {
      var k :| k in rest;
      ghost var before := ExpiredAmong(entries, entries.Keys - rest, cutoff);
      rest := rest - {k};
      if entries[k].serviceDate < cutoff {
        assert ExpiredAmong(entries, entries.Keys - rest, cutoff) == before + {k};
        kept := kept - {k};
        n := n + 1;
      } else {
        assert ExpiredAmong(entries, entries.Keys - rest, cutoff) == before;
      }
    }
    assert entries.Keys - rest == entries.Keys;
  }

  class Filter {
    const minDelta: int
    const maxEntries: nat
    var entries: map<Key, Entry>
    var order: nat  // how many values have been recorded
    var suppressed: nat
    var admitted: nat
    var evicted: nat
    ghost var recorded: seq<Key>

    ghost predicate Valid()
      reads this
    {
      1 <= maxEntries && |entries| <= maxEntries && order == |recorded| && WellOrdered(entries, recorded)
    }

    constructor (minDelta: int, maxEntries: nat)
      requires 1 <= maxEntries
      ensures Valid() && this.minDelta == minDelta && this.maxEntries == maxEntries
      ensures entries == map[] && suppressed == admitted == evicted == 0
    {
      this.minDelta, this.maxEntries := minDelta, maxEntries;
      entries, order, suppressed, admitted, evicted, recorded := map[], 0, 0, 0, 0, [];
    }

    /** Decides on an observation; a yes is remembered, under a number of its own. Only the yes to a
        key unknown to a full map forgets others, the keys gone. */
    method Admit(o: Observation) returns (written: bool, ghost gone: set<Key>)
      requires Valid()
      modifies this
      ensures Valid()
      ensures written == Passes(old(entries), o, minDelta)
      ensures gone == {} || AreOldest(old(entries), gone)
      ensures gone != {} <==> written && o.Key() !in old(entries) && |old(entries)| == maxEntries
      ensures entries == if written then (old(entries) - gone)[o.Key() := Entry(ValueOf(o), o.serviceDate, order)]
                         else old(entries)
      ensures if written
              then order == old(order) + 1 && suppressed == old(suppressed) && admitted == old(admitted) + 1
              else order == old(order) && suppressed == old(suppressed) + 1 && admitted == old(admitted)
      ensures evicted == old(evicted) + |gone|
    {
      gone := {};
      written := Passes(entries, o, minDelta);
      if !written {
        suppressed := suppressed + 1;
        return;
      }
      if o.Key() !in entries && |entries| >= maxEntries {
        gone := EvictOldest();
      }
      Record(o.Key(), ValueOf(o), o.serviceDate);
    }

    method Record(k: Key, v: Value, serviceDate: Date)
      requires Valid() && (k in entries || |entries| < maxEntries)
      modifies this`entries, this`order, this`admitted, this`recorded
      ensures Valid() && entries == old(entries)[k := Entry(v, serviceDate, order)]
      ensures order == old(order) + 1 && admitted == old(admitted) + 1
    {
      order := order + 1;
      recorded := recorded + [k];
      With(entries, k, Entry(v, serviceDate, order));
      entries := entries[k := Entry(v, serviceDate, order)];
      admitted := admitted + 1;
    }

    /** Makes room in a full map. */
    method EvictOldest() returns (ghost gone: set<Key>)
      requires Valid() && entries != map[]
      modifies this`entries, this`evicted
      ensures Valid() && |entries| < maxEntries && AreOldest(old(entries), gone) && entries == old(entries) - gone
      ensures evicted == old(evicted) + |gone|
    {
      var kept, n := RemoveOldest(entries, recorded);
      gone := entries.Keys - kept.Keys;
      StaysWellOrdered(entries, recorded, gone);
      Without(entries, gone);
      entries, evicted := kept, evicted + n;
    }

    /** Expiry, which counts as eviction. */
    method ExpireBefore(cutoff: Date) returns (n: nat)
      requires Valid()
      modifies this`entries, this`evicted
      ensures Valid()
      ensures entries == old(entries) - ExpiredAmong(old(entries), old(entries).Keys, cutoff)
      ensures forall k | k in old(entries) :: k in entries <==> cutoff <= old(entries)[k].serviceDate
      ensures n == |old(entries)| - |entries| && evicted == old(evicted) + n
    {
      Without(entries, ExpiredAmong(entries, entries.Keys, cutoff));
      entries, n := Expire(entries, cutoff);
      evicted := evicted + n;
    }

    /** Undoes what Admit remembered of the key, though not its count. */
    method Forget(k: Key)
      requires Valid()
      modifies this`entries
      ensures Valid() && entries == old(entries) - {k}
    {
      Removed(entries, recorded, k);
      entries := entries - {k};
    }
  }

  /** Whether the filter lets an observation through. */
  predicate Passes(entries: map<Key, Entry>, o: Observation, minDelta: int) {
    o.Key() in entries ==> Changed(entries[o.Key()].value, ValueOf(o), minDelta)
  }
}
