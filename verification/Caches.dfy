/** The in-process caches with a size bound and a time to live: embeddings
    (memory/embeddings.py) and security searches (knowledge/caching.py). */
module Caches {
  import opened Prelude

  type Time = int

  // An ordered dictionary, the least recently used entry first.
  datatype Entry<K, V> = Entry(key: K, ts: Time, value: V)

  // ----- recency -----

  /** The sequence without a key. */
  function Drop<K(==)>(keys: seq<K>, key: K): seq<K> {
    if keys == [] then [] else
    var before, last := Drop(keys[..|keys| - 1], key), keys[|keys| - 1];
    if last == key then before else before + [last]
  }

  /** The last `m` elements, or all when there are fewer. */
  function Last<K>(keys: seq<K>, m: nat): seq<K> {
    if |keys| <= m then keys else keys[|keys| - m..]
  }

  /** The keys of the first `n` calls, each once, ordered by their last use. */
  function Uses<K(==)>(calls: seq<K>, n: nat): seq<K>
    requires n <= |calls|
  {
    if n == 0 then [] else Drop(Uses(calls, n - 1), calls[n - 1]) + [calls[n - 1]]
  }

  predicate Distinct<K(==)>(keys: seq<K>) {
    forall i, j :: 0 <= i < j < |keys| ==> keys[i] != keys[j]
  }

  lemma {:induction false} DropMembers<K>(keys: seq<K>, key: K, x: K)
    ensures x in Drop(keys, key) <==> x in keys && x != key
  {
    if keys != [] {
      DropMembers(keys[..|keys| - 1], key, x);
      assert keys == keys[..|keys| - 1] + [keys[|keys| - 1]];
    }
  }

  lemma {:induction false} DropIsDistinct<K>(keys: seq<K>, key: K)
    requires Distinct(keys)
    ensures Distinct(Drop(keys, key))
  {
    if keys != [] {
      var before, last := keys[..|keys| - 1], keys[|keys| - 1];
      DropIsDistinct(before, key);
      DropMembers(before, key, last);
    }
  }

  lemma {:induction false} DropAbsent<K>(keys: seq<K>, key: K)
    requires key !in keys
    ensures Drop(keys, key) == keys
  {
    if keys != [] {
      DropAbsent(keys[..|keys| - 1], key);
      assert keys == keys[..|keys| - 1] + [keys[|keys| - 1]];
    }
  }

  lemma {:induction false} DropPresent<K>(keys: seq<K>, key: K)
    requires Distinct(keys) && key in keys
    ensures |Drop(keys, key)| == |keys| - 1
  {
    var before, last := keys[..|keys| - 1], keys[|keys| - 1];
    if last == key { DropAbsent(before, key); } else { DropPresent(before, key); }
  }

  lemma {:induction false} DropConcat<K>(a: seq<K>, b: seq<K>, key: K)
    ensures Drop(a + b, key) == Drop(a, key) + Drop(b, key)
  {
    if b == [] {
      assert a + b == a;
    } else {
      var n := |b| - 1;
      assert (a + b)[..|a| + n] == a + b[..n];
      DropConcat(a, b[..n], key);
    }
  }

  lemma LastOfLonger<K>(a: seq<K>, b: seq<K>, m: nat)
    requires |b| >= m
    ensures Last(a + b, m) == Last(b, m)
  {}

  /** Forgetting all but the last `m` uses before a use or after it comes to the same. */
  lemma LastUsesCompose<K>(uses: seq<K>, key: K, m: nat)
    requires Distinct(uses) && m > 0
    ensures Last(Drop(Last(uses, m), key) + [key], m) == Last(Drop(uses, key) + [key], m)
  {
    if |uses| > m {
      var old', new' := uses[..|uses| - m], Last(uses, m);
      assert uses == old' + new';
      DropConcat(old', new', key);
      if key in new' { DropPresent(new', key); } else { DropAbsent(new', key); }
      assert Drop(uses, key) + [key] == Drop(old', key) + (Drop(new', key) + [key]);
      LastOfLonger(Drop(old', key), Drop(new', key) + [key], m);
    }
  }

  lemma {:induction false} UsesAreDistinct<K>(calls: seq<K>, n: nat)
    requires n <= |calls|
    ensures Distinct(Uses(calls, n))
  {
    if n > 0 {
      UsesAreDistinct(calls, n - 1);
      DropIsDistinct(Uses(calls, n - 1), calls[n - 1]);
      DropMembers(Uses(calls, n - 1), calls[n - 1], calls[n - 1]);
    }
  }

  lemma {:induction false} UsesAreCalls<K>(calls: seq<K>, n: nat, x: K)
    requires n <= |calls|
    ensures x in Uses(calls, n) <==> x in calls[..n]
  {
    if n > 0 {
      UsesAreCalls(calls, n - 1, x);
      DropMembers(Uses(calls, n - 1), calls[n - 1], x);
      assert calls[..n] == calls[..n - 1] + [calls[n - 1]];
    }
  }

  /** When a key was last used among the first `n` calls. */
  function LastUse<K(==)>(calls: seq<K>, n: nat, key: K): int
    requires n <= |calls|
  {
    if n == 0 then -1 else if calls[n - 1] == key then n - 1 else LastUse(calls, n - 1, key)
  }

  lemma {:induction false} LastUseBefore<K>(calls: seq<K>, n: nat, key: K)
    requires n <= |calls|
    ensures LastUse(calls, n, key) < n
  {
    if n > 0 { LastUseBefore(calls, n - 1, key); }
  }

  predicate ByLastUse<K(==)>(calls: seq<K>, n: nat, keys: seq<K>)
    requires n <= |calls|
  {
    forall i, j :: 0 <= i < j < |keys| ==> LastUse(calls, n, keys[i]) < LastUse(calls, n, keys[j])
  }

  lemma {:induction false} DropKeepsOrder<K>(calls: seq<K>, n: nat, keys: seq<K>, key: K)
    requires n <= |calls| && ByLastUse(calls, n, keys)
    ensures ByLastUse(calls, n, Drop(keys, key))
    decreases keys
  {
    if keys != [] {
      var before, last := keys[..|keys| - 1], keys[|keys| - 1];
      DropKeepsOrder(calls, n, before, key);
      forall i | 0 <= i < |Drop(before, key)| ensures LastUse(calls, n, Drop(before, key)[i]) < LastUse(calls, n, last) {
        DropMembers(before, key, Drop(before, key)[i]);
      }
    }
  }

  /** The order of uses is the order of last calls. */
  lemma {:induction false} UsesAreByLastUse<K>(calls: seq<K>, n: nat)
    requires n <= |calls|
    ensures ByLastUse(calls, n, Uses(calls, n))
  {
    if n > 0 {
      var key := calls[n - 1];
      var dropped := Drop(Uses(calls, n - 1), key);
      UsesAreByLastUse(calls, n - 1);
      DropKeepsOrder(calls, n - 1, Uses(calls, n - 1), key);
      forall i | 0 <= i < |dropped| ensures LastUse(calls, n, dropped[i]) == LastUse(calls, n - 1, dropped[i]) < n - 1 {
        DropMembers(Uses(calls, n - 1), key, dropped[i]);
        LastUseBefore(calls, n - 1, dropped[i]);
      }
    }
  }

  // ----- ordered entries -----

  function Keys<K, V>(entries: seq<Entry<K, V>>): seq<K> {
    seq(|entries|, i requires 0 <= i < |entries| => entries[i].key)
  }

  function IndexOf<K(==), V>(entries: seq<Entry<K, V>>, key: K): (r: int)
    ensures -1 <= r < |entries| && (r >= 0 ==> entries[r].key == key)
    ensures r == -1 ==> forall i :: 0 <= i < |entries| ==> entries[i].key != key
  {
    if entries == [] then -1
    else if entries[|entries| - 1].key == key then |entries| - 1 else IndexOf(entries[..|entries| - 1], key)
  }

  /** `pop(key, None)`. */
  function Without<K(==), V>(entries: seq<Entry<K, V>>, key: K): seq<Entry<K, V>> {
    if entries == [] then [] else
    var before, last := Without(entries[..|entries| - 1], key), entries[|entries| - 1];
    if last.key == key then before else before + [last]
  }

  lemma {:induction false} WithoutKeys<K, V>(entries: seq<Entry<K, V>>, key: K)
    ensures Keys(Without(entries, key)) == Drop(Keys(entries), key)
    ensures forall e :: e in Without(entries, key) ==> e in entries
  {
    if entries != [] {
      var before := entries[..|entries| - 1];
      WithoutKeys(before, key);
      assert Keys(entries)[..|entries| - 1] == Keys(before);
      assert Keys(Without(before, key) + [entries[|entries| - 1]]) == Keys(Without(before, key)) + [entries[|entries| - 1].key];
    }
  }

  /** The cache after a key was used: the entry goes to the end, the oldest go if too many. */
  function Used<K(==), V>(entries: seq<Entry<K, V>>, e: Entry<K, V>, maxSize: nat): seq<Entry<K, V>> {
    Last(Without(entries, e.key) + [e], maxSize)
  }

  lemma LastKeys<K, V>(entries: seq<Entry<K, V>>, m: nat)
    ensures Keys(Last(entries, m)) == Last(Keys(entries), m)
  {}

  lemma UsedKeys<K, V>(entries: seq<Entry<K, V>>, e: Entry<K, V>, maxSize: nat)
    ensures Keys(Used(entries, e, maxSize)) == Last(Drop(Keys(entries), e.key) + [e.key], maxSize)
    ensures forall x :: x in Used(entries, e, maxSize) ==> x in entries || x == e
  {
    WithoutKeys(entries, e.key);
    var all := Without(entries, e.key) + [e];
    LastKeys(all, maxSize);
    assert Keys(all) == Keys(Without(entries, e.key)) + [e.key];
  }

  lemma {:induction false} WithoutAbsent<K, V>(entries: seq<Entry<K, V>>, key: K)
    requires forall i :: 0 <= i < |entries| ==> entries[i].key != key
    ensures Without(entries, key) == entries
  {
    if entries != [] { WithoutAbsent(entries[..|entries| - 1], key); }
  }

  lemma {:induction false} WithoutTwice<K, V>(entries: seq<Entry<K, V>>, key: K)
    ensures Without(Without(entries, key), key) == Without(entries, key)
  {
    if entries != [] {
      var before, last := entries[..|entries| - 1], entries[|entries| - 1];
      WithoutTwice(before, key);
      if last.key != key { assert Without(entries, key)[..|Without(entries, key)| - 1] == Without(before, key); }
    }
  }

  /** An ordered dictionary of timed values. */
  class OrderedCache<K(==), V(0)> {
    const maxSize: nat
    const ttl: nat
    var entries: seq<Entry<K, V>>

    constructor (maxSize: int, ttl: int)
      ensures this.maxSize == Max(1, maxSize) && this.ttl == Max(0, ttl) && entries == []
    {
      this.maxSize, this.ttl, entries := Max(1, maxSize), Max(0, ttl), [];
    }

    /** The entry, moved to the end; an expired one is removed. */
    method Get(key: K, now: Time) returns (r: Option<Entry<K, V>>)
      modifies this
      ensures var i := IndexOf(old(entries), key);
        if ttl == 0 || i == -1 then r == None && entries == old(entries)
        else if now - old(entries)[i].ts > ttl then r == None && entries == Without(old(entries), key)
        else r == Some(old(entries)[i]) && entries == Without(old(entries), key) + [old(entries)[i]]
    {
      if ttl == 0 { return None; }
      var i := IndexOf(entries, key);
      if i == -1 { return None; }
      var e := entries[i];
      if now - e.ts > ttl {
        entries := Without(entries, key);
        return None;
      }
      entries := Without(entries, key) + [e];
      r := Some(e);
    }

    /** Stores at the end, then drops from the front until the size fits. */
    method Put(e: Entry<K, V>)
      modifies this
      ensures entries == if ttl == 0 then old(entries) else Used(old(entries), e, maxSize)
    {
      if ttl == 0 { return; }
      entries := Without(entries, e.key) + [e];
      ghost var all := entries;
      while |entries| > maxSize
        invariant |entries| <= |all| && entries == all[|all| - |entries|..] && (|entries| >= maxSize || entries == all)
      {
        entries := entries[1..];
      }
    }
  }

  /** Never more entries than allowed, one a key, each with the provider's answer. */
  ghost predicate Sound<K, V>(entries: seq<Entry<K, V>>, maxSize: nat, provider: K -> V) {
    |entries| <= maxSize && Distinct(Keys(entries)) && forall e :: e in entries ==> e.value == provider(e.key)
  }

  /** Exactly the keys used last are kept, in the order of their last use. */
  ghost predicate KeepsRecent<K, V>(entries: seq<Entry<K, V>>, maxSize: nat, calls: seq<K>) {
    Keys(entries) == Last(Uses(calls, |calls|), maxSize)
  }

  lemma WithoutIsSound<K, V>(entries: seq<Entry<K, V>>, maxSize: nat, provider: K -> V, key: K)
    requires Sound(entries, maxSize, provider)
    ensures Sound(Without(entries, key), maxSize, provider)
  {
    WithoutKeys(entries, key);
    DropIsDistinct(Keys(entries), key);
    if key in Keys(entries) { DropPresent(Keys(entries), key); } else { DropAbsent(Keys(entries), key); }
    assert |Keys(Without(entries, key))| == |Without(entries, key)| && |Keys(entries)| == |entries|;
  }

  lemma UsedIsSound<K, V>(entries: seq<Entry<K, V>>, maxSize: nat, provider: K -> V, e: Entry<K, V>)
    requires Sound(entries, maxSize, provider) && e.value == provider(e.key)
    ensures Sound(Used(entries, e, maxSize), maxSize, provider)
  {
    UsedKeys(entries, e, maxSize);
    DropIsDistinct(Keys(entries), e.key);
    DropMembers(Keys(entries), e.key, e.key);
  }

  lemma UseOnRecent<K, V>(entries: seq<Entry<K, V>>, maxSize: nat, calls: seq<K>, e: Entry<K, V>)
    requires maxSize > 0 && KeepsRecent(entries, maxSize, calls)
    ensures KeepsRecent(Used(entries, e, maxSize), maxSize, calls + [e.key])
  {
    UsedKeys(entries, e, maxSize);
    UsesAreDistinct(calls, |calls|);
    LastUsesCompose(Uses(calls, |calls|), e.key, maxSize);
    UsesPrefix(calls, e.key, |calls|);
  }

  lemma {:induction false} UsesPrefix<K>(calls: seq<K>, key: K, n: nat)
    requires n <= |calls|
    ensures Uses(calls + [key], n) == Uses(calls, n)
  {
    if n > 0 { UsesPrefix(calls, key, n - 1); }
  }

  /** Moving a found entry to the end is using it. */
  lemma FoundFits<K, V>(entries: seq<Entry<K, V>>, maxSize: nat, i: nat)
    requires Distinct(Keys(entries)) && |entries| <= maxSize && i < |entries|
    ensures Without(entries, entries[i].key) + [entries[i]] == Used(entries, entries[i], maxSize)
  {
    WithoutKeys(entries, entries[i].key);
    assert Keys(entries)[i] == entries[i].key;
    DropPresent(Keys(entries), entries[i].key);
    assert |Keys(Without(entries, entries[i].key))| == |Without(entries, entries[i].key)| && |Keys(entries)| == |entries|;
  }

  // ----- any sequence of calls -----

  datatype Settings<!K, V> = Settings(maxSize: nat, ttl: nat, provider: K -> V)

  /** A request: when it looked into the cache, when the provider had answered, and whether the
      provider raises if it is asked. */
  datatype Call<K> = Call(key: K, asked: Time, answered: Time, raises: bool)

  /** The entry that answers the call. */
  function Hit<K(==), V>(entries: seq<Entry<K, V>>, ttl: nat, c: Call<K>): Option<Entry<K, V>> {
    var i := IndexOf(entries, c.key);
    if ttl == 0 || i == -1 || c.asked - entries[i].ts > ttl then None else Some(entries[i])
  }

  predicate Fails<K(==), V>(entries: seq<Entry<K, V>>, ttl: nat, c: Call<K>) {
    c.raises && Hit(entries, ttl, c).None?
  }

  /** A call that succeeds uses its key; one that fails only takes away the expired entry. */
  function Served<K(==), V>(entries: seq<Entry<K, V>>, st: Settings<K, V>, c: Call<K>): seq<Entry<K, V>> {
    var hit := Hit(entries, st.ttl, c);
    if st.ttl == 0 then entries
    else if hit.Some? then Used(entries, hit.value, st.maxSize)
    else if c.raises then Without(entries, c.key)
    else Used(entries, Entry(c.key, c.answered, st.provider(c.key)), st.maxSize)
  }

  /** The cache after the first `n` calls. */
  function After<K(==), V>(calls: seq<Call<K>>, st: Settings<K, V>, n: nat): seq<Entry<K, V>>
    requires n <= |calls|
  {
    if n == 0 then [] else Served(After(calls, st, n - 1), st, calls[n - 1])
  }

  /** The keys of the calls that succeeded. */
  function Successes<K(==), V>(calls: seq<Call<K>>, st: Settings<K, V>, n: nat): seq<K>
    requires n <= |calls|
  {
    if n == 0 then []
    else if Fails(After(calls, st, n - 1), st.ttl, calls[n - 1]) then Successes(calls, st, n - 1)
    else Successes(calls, st, n - 1) + [calls[n - 1].key]
  }

  lemma ServedIsSound<K, V>(entries: seq<Entry<K, V>>, st: Settings<K, V>, c: Call<K>)
    requires Sound(entries, st.maxSize, st.provider)
    ensures Sound(Served(entries, st, c), st.maxSize, st.provider)
    ensures Hit(entries, st.ttl, c).Some? ==> Hit(entries, st.ttl, c).value.value == st.provider(c.key)
  {
    var hit := Hit(entries, st.ttl, c);
    if hit.Some? { UsedIsSound(entries, st.maxSize, st.provider, hit.value); }
    WithoutIsSound(entries, st.maxSize, st.provider, c.key);
    UsedIsSound(entries, st.maxSize, st.provider, Entry(c.key, c.answered, st.provider(c.key)));
  }

  /** After any calls the size bound holds, and what the cache answers is what the provider would. */
  lemma {:induction false} RunIsSound<K, V>(calls: seq<Call<K>>, st: Settings<K, V>, n: nat)
    requires n <= |calls|
    ensures Sound(After(calls, st, n), st.maxSize, st.provider)
    ensures n < |calls| && Hit(After(calls, st, n), st.ttl, calls[n]).Some? ==>
      Hit(After(calls, st, n), st.ttl, calls[n]).value.value == st.provider(calls[n].key)
  {
    if n > 0 {
      RunIsSound(calls, st, n - 1);
      ServedIsSound(After(calls, st, n - 1), st, calls[n - 1]);
    }
    if n < |calls| { ServedIsSound(After(calls, st, n), st, calls[n]); }
  }

  lemma ServedKeys<K, V>(entries: seq<Entry<K, V>>, st: Settings<K, V>, c: Call<K>)
    ensures st.ttl > 0 && Fails(entries, st.ttl, c) ==> Keys(Served(entries, st, c)) == Drop(Keys(entries), c.key)
    ensures st.ttl > 0 && !Fails(entries, st.ttl, c) ==>
      Keys(Served(entries, st, c)) == Last(Drop(Keys(entries), c.key) + [c.key], st.maxSize)
  {
    var hit := Hit(entries, st.ttl, c);
    if hit.Some? { UsedKeys(entries, hit.value, st.maxSize); }
    WithoutKeys(entries, c.key);
    UsedKeys(entries, Entry(c.key, c.answered, st.provider(c.key)), st.maxSize);
  }

  // ----- order and eviction -----

  predicate Within<K(==)>(keys: seq<K>, uses: seq<K>) {
    forall i :: 0 <= i < |keys| ==> keys[i] in uses
  }

  /** The keys were all used, and stand in the order of their last use. */
  predicate InOrder<K(==)>(uses: seq<K>, keys: seq<K>) {
    ByLastUse(uses, |uses|, keys) && Within(keys, uses)
  }

  lemma {:induction false} LastUsePrefix<K>(uses: seq<K>, key: K, n: nat, x: K)
    requires n <= |uses|
    ensures LastUse(uses + [key], n, x) == LastUse(uses, n, x)
  {
    if n > 0 { LastUsePrefix(uses, key, n - 1, x); }
  }

  lemma {:induction false} DropInOrder<K>(uses: seq<K>, keys: seq<K>, key: K)
    requires InOrder(uses, keys)
    ensures InOrder(uses, Drop(keys, key))
  {
    var dropped := Drop(keys, key);
    DropKeepsOrder(uses, |uses|, keys, key);
    forall i | 0 <= i < |dropped| ensures dropped[i] in uses { DropMembers(keys, key, dropped[i]); }
  }

  /** Using a key keeps the order. */
  lemma {:induction false} UseInOrder<K>(uses: seq<K>, keys: seq<K>, key: K)
    requires InOrder(uses, keys)
    ensures InOrder(uses + [key], Drop(keys, key) + [key])
  {
    var dropped, uses', n := Drop(keys, key), uses + [key], |uses|;
    DropInOrder(uses, keys, key);
    forall i | 0 <= i < |dropped| ensures LastUse(uses', n + 1, dropped[i]) == LastUse(uses, n, dropped[i]) < n {
      DropMembers(keys, key, dropped[i]);
      LastUsePrefix(uses, key, n, dropped[i]);
      LastUseBefore(uses, n, dropped[i]);
    }
  }

  lemma LastInOrder<K>(uses: seq<K>, keys: seq<K>, m: nat)
    requires InOrder(uses, keys)
    ensures InOrder(uses, Last(keys, m))
  {}

  /** After any calls, failed ones among them, the keys stand in the order of their last
      successful use: the next to be dropped is the least recently used one. */
  lemma {:induction false} RunIsInOrder<K, V>(calls: seq<Call<K>>, st: Settings<K, V>, n: nat)
    requires n <= |calls|
    ensures InOrder(Successes(calls, st, n), Keys(After(calls, st, n)))
  {
    if n > 0 {
      RunIsInOrder(calls, st, n - 1);
      var entries, uses, c := After(calls, st, n - 1), Successes(calls, st, n - 1), calls[n - 1];
      ServedKeys(entries, st, c);
      if st.ttl == 0 {
        NothingWithoutTtl(calls, st, n);
      } else if Fails(entries, st.ttl, c) {
        DropInOrder(uses, Keys(entries), c.key);
      } else {
        UseInOrder(uses, Keys(entries), c.key);
        LastInOrder(uses + [c.key], Drop(Keys(entries), c.key) + [c.key], st.maxSize);
      }
    }
  }

  lemma {:induction false} NothingWithoutTtl<K, V>(calls: seq<Call<K>>, st: Settings<K, V>, n: nat)
    requires n <= |calls| && st.ttl == 0
    ensures After(calls, st, n) == []
  {
    if n > 0 { NothingWithoutTtl(calls, st, n - 1); }
  }

  /** The call at `n` fails and takes away the expired entry of its key. */
  predicate Forgets<K(==), V>(calls: seq<Call<K>>, st: Settings<K, V>, n: nat)
    requires n < |calls|
  {
    Fails(After(calls, st, n), st.ttl, calls[n]) && calls[n].key in Keys(After(calls, st, n))
  }

  /** The cache is full of keys used later than this one. */
  predicate Crowded<K(==)>(keys: seq<K>, maxSize: nat, uses: seq<K>, x: K) {
    |keys| == maxSize && forall i :: 0 <= i < |keys| ==> LastUse(uses, |uses|, x) < LastUse(uses, |uses|, keys[i])
  }

  lemma {:induction false} CutOffIsCrowded<K>(uses: seq<K>, keys: seq<K>, m: nat, x: K)
    requires InOrder(uses, keys) && x in keys && x !in Last(keys, m)
    ensures Crowded(Last(keys, m), m, uses, x)
  {
    var i :| 0 <= i < |keys| && keys[i] == x;
    var first := |keys| - m;
    assert forall j :: 0 <= j < |Last(keys, m)| ==> Last(keys, m)[j] in Last(keys, m);
    forall j | 0 <= j < m ensures LastUse(uses, |uses|, x) < LastUse(uses, |uses|, Last(keys, m)[j]) {
      assert Last(keys, m)[j] == keys[first + j];
    }
  }

  /** In any sequence of calls a key leaves the cache for one of two reasons: it had expired
      when a call for it failed, or the cache is full of keys that were all used after it. */
  lemma {:induction false} LeavesOnlyWhen<K, V>(calls: seq<Call<K>>, st: Settings<K, V>, n: nat, x: K)
    requires n < |calls| && st.maxSize > 0
    requires x in Keys(After(calls, st, n)) && x !in Keys(After(calls, st, n + 1))
    ensures (Forgets(calls, st, n) && calls[n].key == x)
      || (!Fails(After(calls, st, n), st.ttl, calls[n])
          && Crowded(Keys(After(calls, st, n + 1)), st.maxSize, Successes(calls, st, n + 1), x))
  {
    var entries, uses, c := After(calls, st, n), Successes(calls, st, n), calls[n];
    ServedKeys(entries, st, c);
    RunIsInOrder(calls, st, n);
    DropMembers(Keys(entries), c.key, x);
    if st.ttl > 0 && !Fails(entries, st.ttl, c) {
      var all := Drop(Keys(entries), c.key) + [c.key];
      assert Last(all, st.maxSize)[|Last(all, st.maxSize)| - 1] == c.key;
      UseInOrder(uses, Keys(entries), c.key);
      assert x in all;
      CutOffIsCrowded(uses + [c.key], all, st.maxSize, x);
    }
  }

  ghost predicate Recent<K, V>(calls: seq<Call<K>>, st: Settings<K, V>, n: nat)
    requires n <= |calls|
  {
    KeepsRecent(After(calls, st, n), st.maxSize, Successes(calls, st, n))
  }

  lemma {:induction false} NothingForgotten<K, V>(calls: seq<Call<K>>, st: Settings<K, V>, n: nat)
    requires n <= |calls| && st.maxSize > 0 && st.ttl > 0 && forall m :: 0 <= m < n ==> !Forgets(calls, st, m)
    ensures Recent(calls, st, n)
  {
    if n > 0 {
      NothingForgotten(calls, st, n - 1);
      KeepsRecentStep(calls, st, n - 1);
    }
  }

  /** After every call the cache holds exactly the keys last used with success, in that order,
      if and only if no failed call took an expired entry away. */
  lemma {:induction false} KeepsRecentIff<K, V>(calls: seq<Call<K>>, st: Settings<K, V>, n: nat)
    requires n <= |calls| && st.maxSize > 0 && st.ttl > 0
    ensures (forall m :: 0 <= m <= n ==> Recent(calls, st, m)) <==> forall m :: 0 <= m < n ==> !Forgets(calls, st, m)
  {
    if m :| 0 <= m < n && Forgets(calls, st, m) {
      if Recent(calls, st, m) { KeepsRecentStep(calls, st, m); }
    } else {
      forall m | 0 <= m <= n ensures Recent(calls, st, m) { NothingForgotten(calls, st, m); }
    }
  }

  lemma {:induction false} KeepsRecentStep<K, V>(calls: seq<Call<K>>, st: Settings<K, V>, n: nat)
    requires n < |calls| && st.maxSize > 0 && st.ttl > 0
    requires Recent(calls, st, n)
    ensures Recent(calls, st, n + 1) <==> !Forgets(calls, st, n)
  {
    var entries, uses, c := After(calls, st, n), Successes(calls, st, n), calls[n];
    ServedKeys(entries, st, c);
    if Fails(entries, st.ttl, c) {
      if c.key in Keys(entries) { DropMembers(Keys(entries), c.key, c.key); } else { DropAbsent(Keys(entries), c.key); }
    } else {
      var e := Entry(c.key, c.answered, st.provider(c.key));
      UsedKeys(entries, e, st.maxSize);
      UseOnRecent(entries, st.maxSize, uses, e);
    }
  }

  /** Both caches of the embedding provider, served alike. */
  class CachedEmbeddingProvider<Dense(0), Sparse(0)> {
    const denseCache: OrderedCache<string, Dense>
    const sparseCache: OrderedCache<string, Sparse>
    const dense: string -> Dense
    const sparse: string -> Sparse

    constructor (dense: string -> Dense, sparse: string -> Sparse, maxSize: int, ttl: int)
      ensures fresh(denseCache) && fresh(sparseCache) && this.dense == dense && this.sparse == sparse
      ensures denseCache.entries == [] && sparseCache.entries == []
      ensures denseCache.maxSize == sparseCache.maxSize == Max(1, maxSize) && denseCache.ttl == sparseCache.ttl == Max(0, ttl)
    {
      this.dense, this.sparse := dense, sparse;
      denseCache := new OrderedCache(maxSize, ttl);
      sparseCache := new OrderedCache(maxSize, ttl);
    }

    /** Looks into the cache, else asks the provider and stores its answer. */
    method Serve<V(0)>(cache: OrderedCache<string, V>, provider: string -> V, c: Call<string>) returns (r: Option<V>)
      requires Sound(cache.entries, cache.maxSize, provider)
      modifies cache
      ensures Sound(cache.entries, cache.maxSize, provider)
      ensures cache.entries == Served(old(cache.entries), Settings(cache.maxSize, cache.ttl, provider), c)
      ensures r == if Fails(old(cache.entries), cache.ttl, c) then None else Some(provider(c.key))
    {
      ghost var before := cache.entries;
      ServedIsSound(before, Settings(cache.maxSize, cache.ttl, provider), c);
      var cached := cache.Get(c.key, c.asked);
      if cached.Some? {
        FoundFits(before, cache.maxSize, IndexOf(before, c.key));
        return Some(cached.value.value);
      }
      if IndexOf(before, c.key) == -1 { WithoutAbsent(before, c.key); }
      if c.raises { return None; }
      var value := provider(c.key);
      WithoutTwice(before, c.key);
      cache.Put(Entry(c.key, c.answered, value));
      r := Some(value);
    }

    method EmbedDense(c: Call<string>) returns (r: Option<Dense>)
      requires Sound(denseCache.entries, denseCache.maxSize, dense)
      modifies denseCache
      ensures Sound(denseCache.entries, denseCache.maxSize, dense)
      ensures denseCache.entries == Served(old(denseCache.entries), Settings(denseCache.maxSize, denseCache.ttl, dense), c)
      ensures r == if Fails(old(denseCache.entries), denseCache.ttl, c) then None else Some(dense(c.key))
    {
      r := Serve(denseCache, dense, c);
    }

    method EmbedSparse(c: Call<string>) returns (r: Option<Sparse>)
      requires Sound(sparseCache.entries, sparseCache.maxSize, sparse)
      modifies sparseCache
      ensures Sound(sparseCache.entries, sparseCache.maxSize, sparse)
      ensures sparseCache.entries == Served(old(sparseCache.entries), Settings(sparseCache.maxSize, sparseCache.ttl, sparse), c)
      ensures r == if Fails(old(sparseCache.entries), sparseCache.ttl, c) then None else Some(sparse(c.key))
    {
      r := Serve(sparseCache, sparse, c);
    }
  }

  /** What the index answered, and when it was asked. */
  datatype Fetch<K, V> = Fetch(key: K, asked: Time, answer: V)

  /** Every cached answer is one the index gave to that request when the entry says. */
  ghost predicate FromIndex<K, V>(entries: seq<Entry<K, V>>, maxSize: nat, fetches: set<Fetch<K, V>>) {
    && |entries| <= maxSize && Distinct(Keys(entries))
    && forall e :: e in entries ==> Fetch(e.key, e.ts, e.value) in fetches
  }

  lemma UsedFromIndex<K, V>(entries: seq<Entry<K, V>>, maxSize: nat, fetches: set<Fetch<K, V>>, e: Entry<K, V>)
    requires FromIndex(entries, maxSize, fetches) && Fetch(e.key, e.ts, e.value) in fetches
    ensures FromIndex(Used(entries, e, maxSize), maxSize, fetches)
  {
    UsedKeys(entries, e, maxSize);
    DropIsDistinct(Keys(entries), e.key);
    DropMembers(Keys(entries), e.key, e.key);
  }

  /** The search cache. The index may answer the same request differently over time. */
  class CachedSecurityIndex<K(==), V(0)> {
    const cache: OrderedCache<K, V>
    ghost var fetches: set<Fetch<K, V>>

    constructor (maxSize: int, ttl: int)
      ensures fresh(cache) && cache.maxSize == Max(1, maxSize) && cache.ttl == Max(0, ttl)
      ensures Valid() && cache.entries == [] && fetches == {}
    {
      cache := new OrderedCache(maxSize, ttl);
      fetches := {};
    }

    ghost predicate Valid()
      reads this, cache
    {
      FromIndex(cache.entries, cache.maxSize, fetches)
    }

    /** `answer` is what the index would say now, `None` if it would raise. An answer is never
        older than the time to live, and using one makes it the last to be dropped. */
    method Search(key: K, useCache: bool, now: Time, answer: Option<V>) returns (r: Option<V>)
      requires Valid()
      modifies this, cache
      ensures Valid() && old(fetches) <= fetches
      ensures r.Some? ==> exists f :: f in fetches && f.key == key && f.answer == r.value && now - f.asked <= cache.ttl
      ensures fetches == old(fetches) || (answer.Some? && fetches == old(fetches) + {Fetch(key, now, answer.value)})
      ensures r.None? ==> answer.None? && cache.entries == old(cache.entries)
      ensures r.Some? && useCache && cache.ttl > 0 ==>
        exists e: Entry<K, V> :: e.key == key && cache.entries == Used(old(cache.entries), e, cache.maxSize)
    {
      if !useCache || cache.ttl == 0 {
        if answer.Some? {
          fetches := fetches + {Fetch(key, now, answer.value)};
          assert Fetch(key, now, answer.value) in fetches;
        }
        return answer;
      }
      var i := IndexOf(cache.entries, key);
      if i >= 0 && now - cache.entries[i].ts <= cache.ttl {
        var e := cache.entries[i];
        UsedFromIndex(cache.entries, cache.maxSize, fetches, e);
        FoundFits(cache.entries, cache.maxSize, i);
        assert Fetch(e.key, e.ts, e.value) in fetches;
        cache.entries := Without(cache.entries, key) + [e];
        return Some(e.value);
      }
      if answer.None? { return None; }
      fetches := fetches + {Fetch(key, now, answer.value)};
      var e := Entry(key, now, answer.value);
      UsedFromIndex(cache.entries, cache.maxSize, fetches, e);
      assert Fetch(key, now, answer.value) in fetches;
      cache.Put(e);
      r := answer;
    }
  }
}
