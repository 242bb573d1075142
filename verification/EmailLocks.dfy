/** Per-email locks: a table that evicts entries while tasks hold or queue for
    the locks in it, kept safe by counting references. */
module EmailLockTable {
  import opened Text

  const ENTRY_TTL_SECONDS := 900.0
  const MAX_ENTRIES := 1024

  // A lock object is identified by the number it was created with.
  datatype Entry = Entry(lock: nat, touched: real)

  type Locks = map<string, Entry>
  type Refs = map<string, nat>

  function RefsOf(refs: Refs, key: string): nat {
    if key in refs then refs[key] else 0
  }

  predicate Expired(e: Entry, now: real) {
    now - e.touched > ENTRY_TTL_SECONDS
  }

  function ExpiredKeys(locks: Locks, pinned: set<string>, now: real): set<string> {
    set k | k in locks && Expired(locks[k], now) && k !in pinned
  }

  /** Keys to evict beyond the cap: unpinned, the least recently touched, just
      enough of them to meet the cap, or all of them. */
  ghost predicate Evicts(locks: Locks, pinned: set<string>, gone: set<string>) {
    && gone <= locks.Keys - pinned
    && (forall k, kept :: k in gone && kept in locks && kept !in gone && kept !in pinned
          ==> locks[k].touched <= locks[kept].touched)
    && (|Minus(locks, gone)| <= MAX_ENTRIES || Minus(locks, gone).Keys <= pinned)
    && (gone != {} ==> |Minus(locks, gone)| >= MAX_ENTRIES)
  }

  function Minus(locks: Locks, keys: set<string>): Locks {
    locks - keys
  }

  /** What pruning does: every expired entry nobody references goes, and then
      the least recently touched ones, no more than the cap demands. */
  ghost predicate Pruned(locks: Locks, pinned: set<string>, now: real, gone: set<string>, locks': Locks) {
    var live := Minus(locks, ExpiredKeys(locks, pinned, now));
    && Evicts(live, pinned, gone)
    && locks' == Minus(live, gone)
  }

  /** Pruning never touches a referenced entry, leaves nothing expired that is
      not referenced, drops what has not expired only to meet the cap, the least
      recently touched first, and exceeds the cap only when all that is left is
      referenced. */
  lemma PrunedMeans(locks: Locks, pinned: set<string>, now: real, gone: set<string>, locks': Locks)
    requires Pruned(locks, pinned, now, gone, locks')
    ensures forall k :: k in locks' ==> k in locks && locks'[k] == locks[k]
    ensures forall k :: k in locks && k in pinned ==> k in locks'
    ensures forall k :: k in locks' && now - locks'[k].touched > 900.0 ==> k in pinned
    ensures forall k :: k in locks && k !in locks' ==> now - locks[k].touched > 900.0 || |locks'| >= 1024
    ensures forall k, kept :: k in locks && k !in locks' && now - locks[k].touched <= 900.0 ==>
              (kept in locks' && kept !in pinned ==> locks[k].touched <= locks[kept].touched)
    ensures |locks'| <= 1024 || locks'.Keys <= pinned
  {
  }

  /** The visited keys that were evicted. */
  function Unreferenced(keys: seq<string>, pinned: set<string>): set<string> {
    set k | k in keys && k !in pinned
  }

  /** What visiting the keys in order leaves, while the cap is exceeded. */
  function Left(table: Locks, pinned: set<string>, keys: seq<string>): Locks {
    Minus(table, Unreferenced(keys, pinned))
  }

  ghost predicate SortedBy(keys: seq<string>, locks: Locks) {
    && (forall k <- keys :: k in locks)
    && (forall i, j :: 0 <= i < j < |keys| ==> keys[i] != keys[j] && locks[keys[i]].touched <= locks[keys[j]].touched)
  }

  lemma VisitedAreOlder(locks: Locks, pinned: set<string>, keys: seq<string>, i: nat, k: string, left: string)
    requires i <= |keys| && SortedBy(keys, locks) && k in locks && left in locks && left in keys
    requires k in Unreferenced(keys[..i], pinned) && left !in Unreferenced(keys[..i], pinned) && left !in pinned
    ensures locks[k].touched <= locks[left].touched
  {
  }

  lemma AllVisited(locks: Locks, pinned: set<string>, keys: seq<string>)
    requires forall k :: k in locks <==> k in keys
    ensures Left(locks, pinned, keys).Keys <= pinned
  {
  }

  lemma EvictionDone(locks: Locks, pinned: set<string>, keys: seq<string>, i: nat)
    requires i <= |keys| && SortedBy(keys, locks) && forall k :: k in locks <==> k in keys
    requires var kept := Left(locks, pinned, keys[..i]);
             |kept| >= MAX_ENTRIES && (i == |keys| || |kept| <= MAX_ENTRIES)
    ensures Evicts(locks, pinned, Unreferenced(keys[..i], pinned))
  {
    var gone := Unreferenced(keys[..i], pinned);
    assert keys[..|keys|] == keys;
    forall k, left | k in gone && left in locks && left !in gone && left !in pinned
      ensures locks[k].touched <= locks[left].touched
    {
      VisitedAreOlder(locks, pinned, keys, i, k, left);
    }
    AllVisited(locks, pinned, keys);
  }

  method OldestOf(locks: Locks, keys: set<string>) returns (oldest: string)
    requires keys != {} && keys <= locks.Keys
    ensures oldest in keys && forall k :: k in keys ==> locks[oldest].touched <= locks[k].touched
  {
    oldest :| oldest in keys;
    var rest := keys - {oldest};
    while rest != {}
      invariant oldest in keys && rest <= keys
      invariant forall k :: k in keys - rest ==> locks[oldest].touched <= locks[k].touched
      decreases rest
    {
      var k :| k in rest;
      if locks[k].touched < locks[oldest].touched { oldest := k; }
      rest := rest - {k};
    }
  }

  method SortedKeys(locks: Locks) returns (keys: seq<string>)
    ensures SortedBy(keys, locks) && (forall k :: k in locks <==> k in keys)
  {
    keys := [];
    var rest := locks.Keys;
    while rest != {}
      invariant rest <= locks.Keys && SortedBy(keys, locks)
      invariant forall k :: k in locks ==> (k in rest <==> k !in keys)
      invariant forall i, k :: 0 <= i < |keys| && k in rest ==> locks[keys[i]].touched <= locks[k].touched
      decreases rest
    {
      var k := OldestOf(locks, rest);
      keys := keys + [k];
      rest := rest - {k};
    }
  }

  lemma Uncounted(refs: Refs, keys: set<string>)
    requires Counts(refs) && forall k :: k in keys ==> RefsOf(refs, k) == 0
    ensures refs - keys == refs && keys !! refs.Keys
  {
  }

  lemma UnreferencedNext(pinned: set<string>, keys: seq<string>, i: nat)
    requires i < |keys|
    ensures Unreferenced(keys[..i + 1], pinned) ==
            Unreferenced(keys[..i], pinned) + if keys[i] in pinned then {} else {keys[i]}
  {
    assert keys[..i + 1] == keys[..i] + [keys[i]];
  }

  lemma MinusOne(table: Locks, gone: set<string>, key: string)
    ensures Minus(table, gone + {key}) == Minus(Minus(table, gone), {key})
    ensures |Minus(table, gone + {key})| >= |Minus(table, gone)| - 1
  {
    assert Minus(table, gone + {key}).Keys == Minus(table, gone).Keys - {key};
    SetMinusOne(Minus(table, gone).Keys, key);
    assert forall m: Locks :: |m| == |m.Keys|;
  }

  lemma SetMinusOne(s: set<string>, key: string)
    ensures |s - {key}| >= |s| - 1
  {
  }

  lemma LeftNext(table: Locks, pinned: set<string>, keys: seq<string>, i: nat)
    requires i < |keys|
    ensures Left(table, pinned, keys[..i + 1]) ==
            if keys[i] in pinned then Left(table, pinned, keys[..i]) else Minus(Left(table, pinned, keys[..i]), {keys[i]})
    ensures |Left(table, pinned, keys[..i + 1])| >= |Left(table, pinned, keys[..i])| - 1
  {
    UnreferencedNext(pinned, keys, i);
    MinusOne(table, Unreferenced(keys[..i], pinned), keys[i]);
  }

  lemma LeftFirst(table: Locks, pinned: set<string>, keys: seq<string>)
    ensures Left(table, pinned, keys[..0]) == table
  {
  }

  method DropUncounted(table: Locks, refs: Refs, key: string) returns (kept: Locks, counts: Refs)
    requires Counts(refs)
    ensures kept == (if key in refs then table else Minus(table, {key})) && counts == refs
  {
    kept, counts := table, refs;
    if RefsOf(refs, key) == 0 {
      Uncounted(refs, {key});
      kept, counts := Minus(table, {key}), refs - {key};
    }
  }

  method DropExpired(table: Locks, refs: Refs, now: real) returns (kept: Locks, counts: Refs)
    requires Counts(refs)
    ensures kept == Minus(table, ExpiredKeys(table, refs.Keys, now)) && counts == refs
  {
    var expired := set k | k in table && Expired(table[k], now) && RefsOf(refs, k) == 0;
    Uncounted(refs, expired);
    assert expired == ExpiredKeys(table, refs.Keys, now);
    kept, counts := Minus(table, expired), refs - expired;
  }

  lemma EvictsNothing(locks: Locks, pinned: set<string>)
    requires |locks| <= MAX_ENTRIES
    ensures Minus(locks, {}) == locks && Evicts(locks, pinned, {})
  {
  }

  /** The capped eviction's loop: in the given order, skipping referenced keys
      and dropping the count of each key it evicts. */
  method DropInOrder(table: Locks, refs: Refs, keys: seq<string>)
    returns (kept: Locks, counts: Refs, visited: nat)
    requires |table| > MAX_ENTRIES && Counts(refs)
    ensures visited <= |keys| && kept == Left(table, refs.Keys, keys[..visited])
    ensures |kept| >= MAX_ENTRIES && (visited == |keys| || |kept| <= MAX_ENTRIES)
    ensures counts == refs
  {
    kept, counts, visited := table, refs, 0;
    LeftFirst(table, refs.Keys, keys);
    while visited < |keys| && |kept| > MAX_ENTRIES
      invariant visited <= |keys| && |kept| >= MAX_ENTRIES
      invariant kept == Left(table, refs.Keys, keys[..visited])
      invariant counts == refs
      decreases |keys| - visited
    {
      LeftNext(table, refs.Keys, keys, visited);
      kept, counts := DropUncounted(kept, counts, keys[visited]);
      visited := visited + 1;
    }
  }

  /** What is left of the table and, with positive counts, of the counts: an
      evicted key has no count to drop. */
  method PrunedTable(table: Locks, refs: Refs, now: real)
    returns (kept: Locks, counts: Refs, ghost gone: set<string>)
    requires Counts(refs)
    ensures Pruned(table, refs.Keys, now, gone, kept) && counts == refs
  {
    kept, counts := DropExpired(table, refs, now);
    if |kept| <= MAX_ENTRIES {
      gone := {};
      EvictsNothing(kept, refs.Keys);
    } else {
      var live, visited := kept, 0;
      var keys := SortedKeys(live);
      kept, counts, visited := DropInOrder(live, counts, keys);
      EvictionDone(live, refs.Keys, keys, visited);
      gone := Unreferenced(keys[..visited], refs.Keys);
    }
  }

  class EmailLocks {
    var locks: Locks
    var refs: Refs
    var created: nat   // lock objects created so far

    ghost predicate Valid()
      reads this
    {
      Counts(refs)
    }

    constructor ()
      ensures Valid() && locks == map[] && refs == map[] && created == 0
    {
      locks, refs, created := map[], map[], 0;
    }

    /** A key is spared when its count is not zero, and the count of a key that
        is not spared goes with it. Since counts are positive, the spared keys
        are the counted ones and no count changes. */
    method Prune(now: real) returns (ghost gone: set<string>)
      requires Valid()
      modifies this`locks, this`refs
      ensures Valid() && refs == old(refs)
      ensures Pruned(old(locks), refs.Keys, now, gone, locks)
    {
      locks, refs, gone := PrunedTable(locks, refs, now);
    }

    /** The synchronous start of acquire: nothing else runs before the lock
        object is fetched and the reference counted. */
    method Enter(email: string, now: real) returns (lock: nat, ghost gone: set<string>, ghost pruned: Locks)
      requires Valid()
      modifies this
      ensures Valid() && Pruned(old(locks), old(refs).Keys, now, gone, pruned)
      ensures lock == LockFor(pruned, NormalEmail(email), old(created))
      ensures locks == Touched(pruned, NormalEmail(email), lock, now)
      ensures refs == Referenced(old(refs), NormalEmail(email))
      ensures created == NextCreated(pruned, NormalEmail(email), old(created))
    {
      gone := Prune(now);
      pruned := locks;
      lock := Register(NormalEmail(email), now);
    }

    method Register(key: string, now: real) returns (lock: nat)
      requires Valid()
      modifies this
      ensures Valid()
      ensures lock == LockFor(old(locks), key, old(created))
      ensures locks == Touched(old(locks), key, lock, now)
      ensures refs == Referenced(old(refs), key)
      ensures created == NextCreated(old(locks), key, old(created))
    {
      if key in locks {
        lock := locks[key].lock;
      } else {
        lock := created;
        created := created + 1;
      }
      locks := Touched(locks, key, lock, now);
      refs := Referenced(refs, key);
    }

    /** The finally block. */
    method Leave(email: string)
      requires Valid()
      modifies this`refs
      ensures Valid() && refs == Released(old(refs), NormalEmail(email))
    {
      var key := NormalEmail(email);
      var counted: int := if key in refs then refs[key] else 1;
      var remaining := counted - 1;
      if remaining > 0 {
        refs := refs[key := remaining];
      } else {
        refs := refs - {key};
      }
    }
  }

  /** Reference counts are positive. */
  ghost predicate Counts(refs: Refs) {
    forall k :: k in refs ==> refs[k] > 0
  }

  /** Entering takes the pruned table's lock for the key, or a new one. */
  function LockFor(locks: Locks, key: string, next: nat): nat {
    if key in locks then locks[key].lock else next
  }

  function NextCreated(locks: Locks, key: string, next: nat): nat {
    if key in locks then next else next + 1
  }

  function Touched(locks: Locks, key: string, lock: nat, now: real): Locks {
    locks[key := Entry(lock, now)]
  }

  function Referenced(refs: Refs, key: string): Refs {
    refs[key := RefsOf(refs, key) + 1]
  }

  function Released(refs: Refs, key: string): Refs {
    if RefsOf(refs, key) > 1 then refs[key := RefsOf(refs, key) - 1] else refs - {key}
  }
}
