/** The login throttle: a table in last-seen order, pruned by age and by size. */
module LoginThrottles {
  import opened Wrappers

  const MAX_SAFE_EXPONENT: nat := 64

  type Key = (string, string)

  datatype Config = Config(threshold: int, baseDelay: real, maxDelay: real, entryTtl: real, maxEntries: int)

  datatype Entry = Entry(key: Key, failures: nat, blockedUntil: real, lastSeen: real)

  /** `base` times two to the `e`. */
  function Backoff(base: real, e: nat): real {
    if e == 0 then base else 2.0 * Backoff(base, e - 1)
  }

  function Min(a: real, b: real): real {
    if a <= b then a else b
  }

  function Exponent(over: nat): nat {
    if over <= MAX_SAFE_EXPONENT then over else MAX_SAFE_EXPONENT
  }

  /** How long the given number of failures blocks for, exponent capped. */
  function Delay(cfg: Config, failures: nat): real
    requires failures >= cfg.threshold
  {
    Min(cfg.maxDelay, Backoff(cfg.baseDelay, Exponent(failures - cfg.threshold)))
  }

  // ---- The table, as a value ----

  predicate Distinct(t: seq<Entry>) {
    forall i, j :: 0 <= i < j < |t| ==> t[i].key != t[j].key
  }

  function Find(t: seq<Entry>, key: Key): (e: Option<Entry>) {
    if t == [] then None else if t[0].key == key then Some(t[0]) else Find(t[1..], key)
  }

  function Without(t: seq<Entry>, key: Key): seq<Entry> {
    if t == [] then [] else if t[0].key == key then Without(t[1..], key) else [t[0]] + Without(t[1..], key)
  }

  function DropExpired(t: seq<Entry>, cutoff: real): seq<Entry> {
    if t != [] && t[0].lastSeen < cutoff then DropExpired(t[1..], cutoff) else t
  }

  /** One pass, oldest first, over the entries that are not blocked at `now`. */
  function EvictPass(t: seq<Entry>, excess: int, now: real): seq<Entry> {
    if t == [] || excess <= 0 then t
    else if t[0].blockedUntil > now then [t[0]] + EvictPass(t[1..], excess, now)
    else EvictPass(t[1..], excess - 1, now)
  }

  function Pruned(t: seq<Entry>, cfg: Config, now: real): seq<Entry> {
    var fresher := DropExpired(t, now - cfg.entryTtl);
    EvictPass(fresher, |fresher| - cfg.maxEntries, now)
  }

  function Failed(e: Option<Entry>, cfg: Config, key: Key, now: real): Entry {
    var failures := if e.Some? then e.value.failures + 1 else 1;
    var blockedUntil := if e.Some? then e.value.blockedUntil else 0.0;
    Entry(key, failures, if failures >= cfg.threshold then now + Delay(cfg, failures) else blockedUntil, now)
  }

  function AfterFailure(t: seq<Entry>, cfg: Config, key: Key, now: real): seq<Entry> {
    Pruned(Without(t, key) + [Failed(Find(t, key), cfg, key, now)], cfg, now)
  }

  function AfterBlockedAttempt(t: seq<Entry>, key: Key, clock: real): seq<Entry> {
    match Find(t, key)
    case None => t
    case Some(e) => Without(t, key) + [e.(lastSeen := clock)]
  }

  function BlockedFor(t: seq<Entry>, key: Key, clock: real): real {
    match Find(t, key)
    case None => 0.0
    case Some(e) => if e.blockedUntil - clock > 0.0 then e.blockedUntil - clock else 0.0
  }

  // ---- Facts about the table ----

  lemma {:induction false} WithoutMeans(t: seq<Entry>, key: Key)
    ensures forall e :: e in Without(t, key) <==> e in t && e.key != key
  {
    if t != [] {
      WithoutMeans(t[1..], key);
      assert t == [t[0]] + t[1..];
    }
  }

  lemma {:induction false} WithoutDistinct(t: seq<Entry>, key: Key)
    requires Distinct(t)
    ensures Distinct(Without(t, key))
  {
    if t != [] {
      WithoutDistinct(t[1..], key);
      WithoutMeans(t[1..], key);
      if t[0].key != key {
        forall j | 0 < j < |Without(t, key)| ensures Without(t, key)[j].key != t[0].key {
          assert Without(t, key)[j] in t[1..];
        }
      }
    }
  }

  lemma {:induction false} WithoutAbsent(t: seq<Entry>, key: Key)
    requires forall e :: e in t ==> e.key != key
    ensures Without(t, key) == t
  {
    if t != [] {
      WithoutAbsent(t[1..], key);
    }
  }

  lemma {:induction false} WithoutSplit(a: seq<Entry>, b: seq<Entry>, key: Key)
    ensures Without(a + b, key) == Without(a, key) + Without(b, key)
  {
    if a == [] {
      assert a + b == b;
    } else {
      assert (a + b)[1..] == a[1..] + b;
      WithoutSplit(a[1..], b, key);
    }
  }

  /** Deleting the entry at `i` of a table without duplicates. */
  lemma WithoutAt(kept: seq<Entry>, rest: seq<Entry>)
    requires rest != [] && Distinct(kept + rest)
    ensures Without(kept + rest, rest[0].key) == kept + rest[1..]
  {
    var t, key := kept + rest, rest[0].key;
    forall e | e in kept ensures e.key != key {
      var i :| 0 <= i < |kept| && kept[i] == e;
      assert t[i] == e && t[|kept|] == rest[0];
    }
    forall e | e in rest[1..] ensures e.key != key {
      var i :| 0 <= i < |rest| - 1 && rest[1..][i] == e;
      assert t[|kept|] == rest[0] && t[|kept| + 1 + i] == e;
    }
    WithoutSplit(kept, rest, key);
    WithoutAbsent(kept, key);
    WithoutAbsent(rest[1..], key);
  }

  /** What the pass does with the next entry of its snapshot. */
  lemma EvictNext(kept: seq<Entry>, rest: seq<Entry>, excess: int, now: real)
    requires rest != [] && excess > 0 && Distinct(kept + rest)
    ensures rest[0].blockedUntil > now ==>
              && kept + rest == kept + [rest[0]] + rest[1..]
              && kept + EvictPass(rest, excess, now) == kept + [rest[0]] + EvictPass(rest[1..], excess, now)
    ensures rest[0].blockedUntil <= now ==>
              && Without(kept + rest, rest[0].key) == kept + rest[1..]
              && Distinct(kept + rest[1..])
              && EvictPass(rest, excess, now) == EvictPass(rest[1..], excess - 1, now)
  {
    if rest[0].blockedUntil > now {
      assert rest == [rest[0]] + rest[1..];
    } else {
      WithoutAt(kept, rest);
      WithoutDistinct(kept + rest, rest[0].key);
    }
  }

  lemma TouchedDistinct(t: seq<Entry>, e: Entry)
    requires Distinct(t)
    ensures Distinct(Without(t, e.key) + [e])
  {
    WithoutMeans(t, e.key);
    WithoutDistinct(t, e.key);
    var w := Without(t, e.key);
    assert forall i :: 0 <= i < |w| ==> w[i] in w;
  }

  lemma {:induction false} FindMeans(t: seq<Entry>, key: Key)
    requires Distinct(t)
    ensures forall e :: e in t && e.key == key <==> Find(t, key) == Some(e)
  {
    if t != [] {
      FindMeans(t[1..], key);
      assert t == [t[0]] + t[1..];
    }
  }

  lemma {:induction false} DropKeeps(t: seq<Entry>, cutoff: real)
    ensures forall e :: e in DropExpired(t, cutoff) ==> e in t
    ensures forall e :: e in t && e.lastSeen >= cutoff ==> e in DropExpired(t, cutoff)
    ensures Distinct(t) ==> Distinct(DropExpired(t, cutoff))
  {
    if t != [] {
      DropKeeps(t[1..], cutoff);
      assert t == [t[0]] + t[1..];
    }
  }

  lemma {:induction false} EvictKeeps(t: seq<Entry>, excess: int, now: real)
    ensures forall e :: e in EvictPass(t, excess, now) ==> e in t
    ensures forall e :: e in t && e.blockedUntil > now ==> e in EvictPass(t, excess, now)
    ensures Distinct(t) ==> Distinct(EvictPass(t, excess, now))
  {
    if t != [] && excess > 0 {
      var rest := if t[0].blockedUntil > now then excess else excess - 1;
      EvictKeeps(t[1..], rest, now);
      assert t == [t[0]] + t[1..];
      if Distinct(t) && t[0].blockedUntil > now {
        var r := EvictPass(t, excess, now);
        forall j | 0 < j < |r| ensures r[j].key != t[0].key {
          assert r[j] in t[1..];
        }
      }
    }
  }

  /** The pass stops at the cap unless everything left is blocked. */
  lemma {:induction false} EvictReachesCap(t: seq<Entry>, excess: int, now: real)
    ensures |EvictPass(t, excess, now)| <= |t|
    ensures excess > 0 && |EvictPass(t, excess, now)| > |t| - excess ==>
              forall e :: e in EvictPass(t, excess, now) ==> e.blockedUntil > now
    ensures excess >= 0 ==> |EvictPass(t, excess, now)| >= |t| - excess
  {
    if t != [] && excess > 0 {
      EvictReachesCap(t[1..], if t[0].blockedUntil > now then excess else excess - 1, now);
    }
  }

  class LoginThrottle {
    const cfg: Config
    var state: seq<Entry>

    ghost predicate Valid()
      reads this
    {
      Distinct(state) && cfg.maxDelay <= cfg.entryTtl
    }

    constructor (cfg: Config)
      requires cfg.maxDelay <= cfg.entryTtl
      ensures Valid() && this.cfg == cfg && state == []
    {
      this.cfg := cfg;
      state := [];
    }

    /** The guarded construction: a longer block than lifetime is refused. */
    static method Create(cfg: Config) returns (throttle: LoginThrottle?)
      ensures (throttle == null) <==> cfg.maxDelay > cfg.entryTtl
      ensures throttle != null ==> fresh(throttle) && throttle.Valid() && throttle.cfg == cfg && throttle.state == []
    {
      if cfg.maxDelay > cfg.entryTtl { return null; }
      throttle := new LoginThrottle(cfg);
    }

    method Prune(now: real)
      requires Valid()
      modifies this`state
      ensures Valid() && state == Pruned(old(state), cfg, now)
    {
      var cutoff := now - cfg.entryTtl;
      while state != []
        invariant Valid() && DropExpired(state, cutoff) == DropExpired(old(state), cutoff)
        decreases |state|
      {
        if state[0].lastSeen >= cutoff { break; }
        state := state[1..];
      }
      EvictToCap(now);
    }

    method EvictToCap(now: real)
      requires Valid()
      modifies this`state
      ensures Valid() && state == EvictPass(old(state), |old(state)| - cfg.maxEntries, now)
    {
      var excess := |state| - cfg.maxEntries;
      if excess <= 0 { return; }
      var removed := 0;
      var snapshot := state;
      ghost var kept: seq<Entry> := [];
      ghost var target := EvictPass(state, excess, now);
      while snapshot != []
        invariant 0 <= removed <= excess && Valid()
        invariant state == kept + snapshot
        invariant target == kept + EvictPass(snapshot, excess - removed, now)
        decreases |snapshot|
      {
        if removed >= excess { break; }
        EvictNext(kept, snapshot, excess - removed, now);
        if snapshot[0].blockedUntil > now {
          kept := kept + [snapshot[0]];
        } else {
          state := Without(state, snapshot[0].key);
          removed := removed + 1;
        }
        snapshot := snapshot[1..];
      }
    }

    method RecordFailure(key: Key, now: real)
      requires Valid()
      modifies this`state
      ensures Valid() && state == AfterFailure(old(state), cfg, key, now)
    {
      var found := Find(state, key);
      var entry := if found.Some? then found.value else Entry(key, 0, 0.0, 0.0);
      entry := entry.(key := key, failures := entry.failures + 1, lastSeen := now);
      if entry.failures >= cfg.threshold {
        var exponent := Exponent(entry.failures - cfg.threshold);
        entry := entry.(blockedUntil := now + Min(cfg.maxDelay, Backoff(cfg.baseDelay, exponent)));
      }
      assert entry == Failed(found, cfg, key, now);
      TouchedDistinct(state, entry);
      state := Without(state, key) + [entry];
      Prune(now);
    }

    method BlockedSeconds(key: Key, clock: real) returns (seconds: real)
      requires Valid()
      ensures forall e :: e in state && e.key == key ==>
                seconds == if e.blockedUntil > clock then e.blockedUntil - clock else 0.0
      ensures (forall e :: e in state ==> e.key != key) ==> seconds == 0.0
      ensures seconds == BlockedFor(state, key, clock)
    {
      FindMeans(state, key);
      var entry := Find(state, key);
      if entry.None? { return 0.0; }
      seconds := entry.value.blockedUntil - clock;
      if seconds < 0.0 { seconds := 0.0; }
    }

    method RecordSuccess(key: Key)
      requires Valid()
      modifies this`state
      ensures Valid() && state == Without(old(state), key)
    {
      WithoutDistinct(state, key);
      state := Without(state, key);
    }

    method RecordBlockedAttempt(key: Key, clock: real)
      requires Valid()
      modifies this`state
      ensures Valid() && state == AfterBlockedAttempt(old(state), key, clock)
    {
      var entry := Find(state, key);
      if entry.None? { return; }
      FindMeans(state, key);
      TouchedDistinct(state, entry.value.(lastSeen := clock));
      state := Without(state, key) + [entry.value.(lastSeen := clock)];
    }
  }
}

/** Threads over one throttle; a failure reads the clock before it locks. */
module LoginThrottleProofs {
  import opened Wrappers
  import opened LoginThrottles

  datatype Reading = Reading(key: Key, now: real)
  // `stamps` remembers the reading of each key's last recorded failure.
  datatype System = System(table: seq<Entry>, clock: real, pending: map<int, Reading>, stamps: map<Key, real>)

  datatype Step =
    | Tick(to: real)
    | ReadClock(thread: int, key: Key)
    | LockedFailure(thread: int)
    | Success(key: Key)
    | BlockedAttempt(key: Key)

  const INITIAL := System([], 0.0, map[], map[])

  predicate Enabled(s: System, step: Step) {
    match step
    case Tick(to) => to >= s.clock
    case ReadClock(thread, _) => thread !in s.pending
    case LockedFailure(thread) => thread in s.pending
    case _ => true
  }

  function Next(s: System, cfg: Config, step: Step): System
    requires Enabled(s, step)
  {
    match step
    case Tick(to) => s.(clock := to)
    case ReadClock(thread, key) => s.(pending := s.pending[thread := Reading(key, s.clock)])
    case LockedFailure(thread) =>
      var r := s.pending[thread];
      s.(table := AfterFailure(s.table, cfg, r.key, r.now), pending := s.pending - {thread},
         stamps := s.stamps[r.key := r.now])
    case Success(key) => s.(table := Without(s.table, key))
    case BlockedAttempt(key) => s.(table := AfterBlockedAttempt(s.table, key, s.clock))
  }

  function RunFrom(s: System, cfg: Config, steps: seq<Step>): Option<System> {
    if steps == [] then Some(s)
    else
      match RunFrom(s, cfg, steps[..|steps| - 1])
      case None => None
      case Some(m) =>
        if Enabled(m, steps[|steps| - 1]) then Some(Next(m, cfg, steps[|steps| - 1])) else None
  }

  // ---- The invariant that carries block survival ----

  /** A block never outlasts the entry's last sighting by more than the
      longest delay, and an entry below the threshold has no block. */
  predicate EntryRight(e: Entry, cfg: Config, clock: real) {
    && e.failures >= 1 && e.lastSeen <= clock
    && (e.failures < cfg.threshold ==> e.blockedUntil == 0.0)
    && (e.failures >= cfg.threshold ==>
          e.blockedUntil <= e.lastSeen + cfg.maxDelay && e.blockedUntil <= clock + Delay(cfg, e.failures))
  }

  predicate TableRight(t: seq<Entry>, cfg: Config, clock: real) {
    Distinct(t) && forall e :: e in t ==> EntryRight(e, cfg, clock)
  }

  predicate Inv(s: System, cfg: Config) {
    && s.clock >= 0.0 && TableRight(s.table, cfg, s.clock)
    && (forall p :: p in s.pending ==> 0.0 <= s.pending[p].now <= s.clock)
  }

  lemma PrunedKeeps(t: seq<Entry>, cfg: Config, now: real)
    ensures forall e :: e in Pruned(t, cfg, now) ==> e in t
    ensures forall e :: e in t && e.lastSeen >= now - cfg.entryTtl && e.blockedUntil > now ==>
              e in Pruned(t, cfg, now)
    ensures Distinct(t) ==> Distinct(Pruned(t, cfg, now))
  {
    var u := DropExpired(t, now - cfg.entryTtl);
    DropKeeps(t, now - cfg.entryTtl);
    EvictKeeps(u, |u| - cfg.maxEntries, now);
  }

  lemma FailureKeeps(t: seq<Entry>, cfg: Config, key: Key, now: real, clock: real)
    requires TableRight(t, cfg, clock) && now <= clock
    ensures TableRight(AfterFailure(t, cfg, key, now), cfg, clock)
  {
    FindMeans(t, key);
    WithoutMeans(t, key);
    WithoutDistinct(t, key);
    var failed := Failed(Find(t, key), cfg, key, now);
    assert EntryRight(failed, cfg, clock);
    PrunedKeeps(Without(t, key) + [failed], cfg, now);
  }

  lemma BlockedAttemptKeeps(t: seq<Entry>, cfg: Config, key: Key, clock: real)
    requires TableRight(t, cfg, clock)
    ensures TableRight(AfterBlockedAttempt(t, key, clock), cfg, clock)
  {
    FindMeans(t, key);
    WithoutMeans(t, key);
    WithoutDistinct(t, key);
  }

  lemma StepKeeps(s: System, cfg: Config, step: Step)
    requires Inv(s, cfg) && Enabled(s, step)
    ensures Inv(Next(s, cfg, step), cfg)
  {
    match step
    case LockedFailure(thread) =>
      FailureKeeps(s.table, cfg, s.pending[thread].key, s.pending[thread].now, s.clock);
    case Success(key) =>
      WithoutMeans(s.table, key);
      WithoutDistinct(s.table, key);
    case BlockedAttempt(key) => BlockedAttemptKeeps(s.table, cfg, key, s.clock);
    case _ =>
  }

  lemma {:induction false} RunKeeps(s: System, cfg: Config, steps: seq<Step>)
    requires Inv(s, cfg) && RunFrom(s, cfg, steps).Some?
    ensures Inv(RunFrom(s, cfg, steps).value, cfg)
  {
    if steps != [] {
      RunKeeps(s, cfg, steps[..|steps| - 1]);
      StepKeeps(RunFrom(s, cfg, steps[..|steps| - 1]).value, cfg, steps[|steps| - 1]);
    }
  }

  // ---- Block survival ----

  /** The only steps that may change a key's failures or block. */
  predicate Touches(s: System, step: Step, key: Key)
    requires Enabled(s, step)
  {
    || (step.LockedFailure? && s.pending[step.thread].key == key)
    || step == Success(key)
  }

  predicate NeverTouched(s: System, cfg: Config, steps: seq<Step>, key: Key)
    requires RunFrom(s, cfg, steps).Some?
  {
    steps == [] ||
    (&& NeverTouched(s, cfg, steps[..|steps| - 1], key)
     && !Touches(RunFrom(s, cfg, steps[..|steps| - 1]).value, steps[|steps| - 1], key))
  }

  /** The entry is in the table, up to a refreshed last sighting. */
  predicate Holds(t: seq<Entry>, e: Entry) {
    exists f :: f in t && f == e.(lastSeen := f.lastSeen) && f.lastSeen >= e.lastSeen
  }

  lemma FailureSparesBlocked(t: seq<Entry>, cfg: Config, key: Key, now: real, clock: real, e: Entry)
    requires TableRight(t, cfg, clock) && cfg.maxDelay <= cfg.entryTtl && 0.0 <= now <= clock
    requires e in t && e.key != key && e.blockedUntil > clock
    ensures e in AfterFailure(t, cfg, key, now)
  {
    WithoutMeans(t, key);
    assert EntryRight(e, cfg, clock);
    var u := Without(t, key) + [Failed(Find(t, key), cfg, key, now)];
    assert e in u;
    PrunedKeeps(u, cfg, now);
  }

  lemma StepSparesBlocked(s: System, cfg: Config, step: Step, e: Entry)
    requires Inv(s, cfg) && cfg.maxDelay <= cfg.entryTtl && Enabled(s, step)
    requires e in s.table && e.blockedUntil > s.clock && !Touches(s, step, e.key)
    ensures step != BlockedAttempt(e.key) ==> e in Next(s, cfg, step).table
    ensures step == BlockedAttempt(e.key) ==> e.(lastSeen := s.clock) in Next(s, cfg, step).table
  {
    match step
    case LockedFailure(thread) =>
      FailureSparesBlocked(s.table, cfg, s.pending[thread].key, s.pending[thread].now, s.clock, e);
    case Success(key) => WithoutMeans(s.table, key);
    case BlockedAttempt(key) =>
      FindMeans(s.table, key);
      WithoutMeans(s.table, key);
      FindMeans(s.table, e.key);
    case _ =>
  }

  lemma {:induction false} ClockNeverFalls(s: System, cfg: Config, steps: seq<Step>)
    requires RunFrom(s, cfg, steps).Some?
    ensures RunFrom(s, cfg, steps).value.clock >= s.clock
  {
    if steps != [] {
      ClockNeverFalls(s, cfg, steps[..|steps| - 1]);
    }
  }

  /** While a key is blocked, nothing any thread does with other keys, however
      stale the clock it read, removes or alters the key's entry; attempts on
      the blocked key itself only refresh when it was last seen. */
  lemma {:induction false} BlockSurvival(cfg: Config, before: seq<Step>, after: seq<Step>, e: Entry)
    requires cfg.maxDelay <= cfg.entryTtl
    requires RunFrom(INITIAL, cfg, before).Some?
    requires RunFrom(RunFrom(INITIAL, cfg, before).value, cfg, after).Some?
    requires e in RunFrom(INITIAL, cfg, before).value.table
    requires NeverTouched(RunFrom(INITIAL, cfg, before).value, cfg, after, e.key)
    requires e.blockedUntil > RunFrom(RunFrom(INITIAL, cfg, before).value, cfg, after).value.clock
    ensures Holds(RunFrom(RunFrom(INITIAL, cfg, before).value, cfg, after).value.table, e)
    ensures BlockedAttempt(e.key) !in after ==>
              e in RunFrom(RunFrom(INITIAL, cfg, before).value, cfg, after).value.table
    decreases |after|
  {
    var s := RunFrom(INITIAL, cfg, before).value;
    RunKeeps(INITIAL, cfg, before);
    assert EntryRight(e, cfg, s.clock);
    if after == [] {
      assert e == e.(lastSeen := e.lastSeen);
    } else {
      var front, step := after[..|after| - 1], after[|after| - 1];
      var m := RunFrom(s, cfg, front).value;
      BlockSurvival(cfg, before, front, e);
      RunKeeps(s, cfg, front);
      var f :| f in m.table && f == e.(lastSeen := f.lastSeen) && f.lastSeen >= e.lastSeen;
      StepSparesBlocked(m, cfg, step, f);
      if BlockedAttempt(e.key) !in front && step != BlockedAttempt(e.key) {
        StepSparesBlocked(m, cfg, step, e);
      }
      var f' := if step == BlockedAttempt(e.key) then f.(lastSeen := m.clock) else f;
      assert EntryRight(f, cfg, m.clock);
      assert f' in Next(m, cfg, step).table && f' == e.(lastSeen := f'.lastSeen) && f'.lastSeen >= e.lastSeen;
    }
  }

  /** Why construction refuses a delay longer than the lifetime: with one, a
      failure of another key can sweep out a live block. */
  lemma GuardIsNecessary(cfg: Config, a: Key, b: Key, t: real)
    requires a != b && cfg.threshold <= 1 && cfg.maxEntries >= 2
    requires 0.0 <= cfg.entryTtl < t < cfg.maxDelay <= cfg.baseDelay
    ensures var first := [ReadClock(0, a), LockedFailure(0), Tick(t)];
            var all := first + [ReadClock(1, b), LockedFailure(1)];
            && RunFrom(INITIAL, cfg, first).Some? && RunFrom(INITIAL, cfg, all).Some?
            && BlockedFor(RunFrom(INITIAL, cfg, first).value.table, a, t) > 0.0
            && RunFrom(INITIAL, cfg, all).value.clock == t
            && Find(RunFrom(INITIAL, cfg, all).value.table, a) == None
  {
    var s1 := Next(INITIAL, cfg, ReadClock(0, a));
    var s2 := Next(s1, cfg, LockedFailure(0));
    var s3 := Next(s2, cfg, Tick(t));
    var s4 := Next(s3, cfg, ReadClock(1, b));
    var s5 := Next(s4, cfg, LockedFailure(1));
    BlockIsAtLeastMax(cfg);
    var e := Failed(None, cfg, a, 0.0);
    assert [] + [e] == [e];
    assert s2.table == [e];
    var f := Failed(None, cfg, b, t);
    assert Without([e], b) == [e] by { assert [e][1..] == []; }
    assert Find([e], b) == None by { assert [e][1..] == []; }
    assert [e] + [f] == [e, f] && [e, f][1..] == [f];
    assert DropExpired([e, f], t - cfg.entryTtl) == DropExpired([f], t - cfg.entryTtl) == [f];
    assert s5.table == [f];
    assert Find([f], a) == None by { assert [f][1..] == []; }
    RunOfFive(cfg, ReadClock(0, a), LockedFailure(0), Tick(t), ReadClock(1, b), LockedFailure(1));
  }

  lemma BlockIsAtLeastMax(cfg: Config)
    requires cfg.threshold <= 1 && 0.0 < cfg.maxDelay <= cfg.baseDelay
    ensures Delay(cfg, 1) == cfg.maxDelay
  {
    BackoffMonotone(cfg.baseDelay, 0, Exponent(1 - cfg.threshold));
  }

  function StepOn(s: Option<System>, cfg: Config, step: Step): Option<System> {
    match s
    case None => None
    case Some(m) => if Enabled(m, step) then Some(Next(m, cfg, step)) else None
  }

  lemma RunSnoc(s: System, cfg: Config, steps: seq<Step>, step: Step)
    ensures RunFrom(s, cfg, steps + [step]) == StepOn(RunFrom(s, cfg, steps), cfg, step)
  {
    assert (steps + [step])[..|steps|] == steps;
  }

  lemma RunOfFive(cfg: Config, a: Step, b: Step, c: Step, d: Step, e: Step)
    ensures RunFrom(INITIAL, cfg, [a, b, c]) ==
            StepOn(StepOn(StepOn(Some(INITIAL), cfg, a), cfg, b), cfg, c)
    ensures RunFrom(INITIAL, cfg, [a, b, c] + [d, e]) ==
            StepOn(StepOn(RunFrom(INITIAL, cfg, [a, b, c]), cfg, d), cfg, e)
  {
    RunSnoc(INITIAL, cfg, [], a);
    RunSnoc(INITIAL, cfg, [a], b);
    RunSnoc(INITIAL, cfg, [a, b], c);
    RunSnoc(INITIAL, cfg, [a, b, c], d);
    RunSnoc(INITIAL, cfg, [a, b, c, d], e);
    assert [] + [a] == [a] && [a] + [b] == [a, b] && [a, b] + [c] == [a, b, c];
    assert [a, b, c] + [d] == [a, b, c, d] && [a, b, c, d] + [e] == [a, b, c] + [d, e];
  }

  // ---- One failure ----

  predicate IsPrior(t: seq<Entry>, key: Key, prior: Option<Entry>) {
    match prior
    case None => forall e :: e in t ==> e.key != key
    case Some(e) => e in t && e.key == key
  }

  /** What a recorded failure leaves: other keys' entries as they were, and the
      key's with one failure more, seen at the reading, and blocked from it for
      the delay once there are as many as the threshold. */
  lemma FailureWrites(t: seq<Entry>, cfg: Config, key: Key, now: real, prior: Option<Entry>, e: Entry)
    requires Distinct(t) && IsPrior(t, key, prior)
    ensures var n := if prior.Some? then prior.value.failures + 1 else 1;
            var own := Entry(key, n, if n >= cfg.threshold then now + Delay(cfg, n)
                                     else if prior.Some? then prior.value.blockedUntil else 0.0, now);
            && (e in AfterFailure(t, cfg, key, now) ==> if e.key == key then e == own else e in t)
            && (own.blockedUntil > now && cfg.entryTtl >= 0.0 ==> own in AfterFailure(t, cfg, key, now))
            && (e in t && e.key != key && e.blockedUntil > now && e.lastSeen >= now - cfg.entryTtl ==>
                  e in AfterFailure(t, cfg, key, now))
  {
    FindMeans(t, key);
    WithoutMeans(t, key);
    var failed := Failed(Find(t, key), cfg, key, now);
    assert Find(t, key) == prior;
    PrunedKeeps(Without(t, key) + [failed], cfg, now);
    assert failed in Without(t, key) + [failed];
  }

  /** What each step makes of the table. */
  predicate Wrote(s: System, cfg: Config, step: Step, e: Entry)
    requires Enabled(s, step)
  {
    var t' := Next(s, cfg, step).table;
    match step
    case Success(key) => e in t' <==> e in s.table && e.key != key
    case BlockedAttempt(key) =>
      e in t' <==> (e in s.table && e.key != key)
                   || (e.key == key && e.lastSeen == s.clock && exists f :: f in s.table && e == f.(lastSeen := s.clock))
    case LockedFailure(thread) => e in t' && e.key != s.pending[thread].key ==> e in s.table
    case Tick(_) => t' == s.table
    case ReadClock(_, _) => t' == s.table
  }

  lemma StepWrites(s: System, cfg: Config, step: Step, e: Entry)
    requires Inv(s, cfg) && Enabled(s, step)
    ensures Wrote(s, cfg, step, e)
  {
    match step
    case Success(key) => WithoutMeans(s.table, key);
    case BlockedAttempt(key) =>
      WithoutMeans(s.table, key);
      FindMeans(s.table, key);
    case LockedFailure(thread) =>
      var Reading(key, now) := s.pending[thread];
      FindMeans(s.table, key);
      FailureWrites(s.table, cfg, key, now, Find(s.table, key), e);
    case _ =>
  }

  // ---- The backoff ----

  /** The first block lasts the base delay and each further failure doubles it,
      up to the longest delay and for at most 64 doublings. */
  lemma DelayDoubles(cfg: Config, f: nat)
    requires f >= cfg.threshold && cfg.baseDelay >= 0.0 && cfg.maxDelay >= 0.0
    ensures f == cfg.threshold ==> Delay(cfg, f) == if cfg.baseDelay < cfg.maxDelay then cfg.baseDelay else cfg.maxDelay
    ensures f - cfg.threshold < 64 ==>
              Delay(cfg, f + 1) == if 2.0 * Delay(cfg, f) < cfg.maxDelay then 2.0 * Delay(cfg, f) else cfg.maxDelay
    ensures f - cfg.threshold >= 64 ==> Delay(cfg, f + 1) == Delay(cfg, f)
  {
    BackoffMonotone(cfg.baseDelay, Exponent(f - cfg.threshold), Exponent(f + 1 - cfg.threshold));
  }

  lemma {:induction false} BackoffMonotone(base: real, a: nat, b: nat)
    requires a <= b
    ensures base >= 0.0 ==> 0.0 <= Backoff(base, a) <= Backoff(base, b)
    ensures base > 0.0 ==> 0.0 < Backoff(base, a)
    ensures base <= 0.0 ==> Backoff(base, b) <= Backoff(base, a) <= 0.0
    ensures base < 0.0 && a < b ==> Backoff(base, b) < Backoff(base, a)
    ensures base < 0.0 ==> Backoff(base, a) < 0.0
  {
    if a > 0 {
      BackoffMonotone(base, a - 1, a - 1);
    }
    if a < b {
      BackoffMonotone(base, a, b - 1);
    }
  }

  /** The delay the documentation describes, with no cap on the exponent. */
  function PlainDelay(cfg: Config, failures: nat): real
    requires failures >= cfg.threshold
  {
    Min(cfg.maxDelay, Backoff(cfg.baseDelay, failures - cfg.threshold))
  }

  lemma {:induction false} BackoffSinks(base: real, n: nat)
    requires base < 0.0
    ensures Backoff(base, n) <= base * n as real
  {
    if n == 1 {
      assert Backoff(base, 1) == 2.0 * Backoff(base, 0);
    } else if n > 1 {
      BackoffSinks(base, n - 1);
      assert base * n as real >= base * (2.0 * (n - 1) as real) by {
        assert base * (2.0 * (n - 1) as real - n as real) <= 0.0;
      }
    }
  }

  lemma NegativeReach(base: real, floor: real) returns (n: nat)
    requires base < 0.0
    ensures n > MAX_SAFE_EXPONENT && Backoff(base, n) < floor
  {
    var q := floor / base;
    n := if q < 65.0 then 65 else q.Floor + 1;
    BackoffSinks(base, n);
    assert base * n as real < base * q by { assert base * (n as real - q) < 0.0; }
  }

  lemma CapShows(cfg: Config) returns (failures: nat)
    requires cfg.baseDelay < 0.0
             || (0.0 < cfg.baseDelay && Backoff(cfg.baseDelay, MAX_SAFE_EXPONENT) < cfg.maxDelay)
    ensures failures >= cfg.threshold && Delay(cfg, failures) != PlainDelay(cfg, failures)
  {
    var start := if cfg.threshold >= 0 then cfg.threshold else 0;
    var base := cfg.baseDelay;
    if base > 0.0 {
      failures := start + 65;
      BackoffMonotone(base, MAX_SAFE_EXPONENT, failures - cfg.threshold - 1);
    } else {
      var n := NegativeReach(base, Min(cfg.maxDelay, Backoff(base, MAX_SAFE_EXPONENT)));
      failures := start + n;
      BackoffMonotone(base, n, failures - cfg.threshold);
    }
  }

  /** Capping the exponent changes no delay exactly when the base is zero or
      the largest power already reaches the longest delay. */
  lemma ExponentCapIsInvisible(cfg: Config)
    ensures (forall f: nat :: f >= cfg.threshold ==> Delay(cfg, f) == PlainDelay(cfg, f))
       <==> cfg.baseDelay == 0.0
            || (cfg.baseDelay > 0.0 && Backoff(cfg.baseDelay, MAX_SAFE_EXPONENT) >= cfg.maxDelay)
  {
    var base := cfg.baseDelay;
    if base == 0.0 || (base > 0.0 && Backoff(base, MAX_SAFE_EXPONENT) >= cfg.maxDelay) {
      forall f: nat | f >= cfg.threshold ensures Delay(cfg, f) == PlainDelay(cfg, f) {
        var over := f - cfg.threshold;
        BackoffMonotone(base, Exponent(over), over);
      }
    } else {
      var f := CapShows(cfg);
      assert Delay(cfg, f) != PlainDelay(cfg, f);
    }
  }

  /** More failures never mean a shorter block. */
  lemma DelayMonotone(cfg: Config, f: nat, g: nat)
    requires cfg.threshold <= f <= g && cfg.baseDelay >= 0.0
    ensures Delay(cfg, f) <= Delay(cfg, g)
  {
    BackoffMonotone(cfg.baseDelay, Exponent(f - cfg.threshold), Exponent(g - cfg.threshold));
  }

  // ---- Blocks and stale failures ----

  /** A block runs from the reading of the failure that set it. */
  predicate Stamped(s: System, cfg: Config) {
    forall e :: e in s.table && e.failures >= cfg.threshold ==>
      e.key in s.stamps && e.blockedUntil == s.stamps[e.key] + Delay(cfg, e.failures)
  }

  lemma StepStamps(s: System, cfg: Config, step: Step)
    requires Stamped(s, cfg) && Distinct(s.table) && Enabled(s, step)
    ensures Stamped(Next(s, cfg, step), cfg)
  {
    match step
    case LockedFailure(thread) =>
      var key := s.pending[thread].key;
      WithoutMeans(s.table, key);
      PrunedKeeps(Without(s.table, key) + [Failed(Find(s.table, key), cfg, key, s.pending[thread].now)],
                  cfg, s.pending[thread].now);
    case Success(key) => WithoutMeans(s.table, key);
    case BlockedAttempt(key) =>
      WithoutMeans(s.table, key);
      FindMeans(s.table, key);
    case _ =>
  }

  lemma {:induction false} RunStamps(cfg: Config, steps: seq<Step>)
    requires RunFrom(INITIAL, cfg, steps).Some?
    ensures Stamped(RunFrom(INITIAL, cfg, steps).value, cfg)
  {
    if steps != [] {
      RunStamps(cfg, steps[..|steps| - 1]);
      RunKeeps(INITIAL, cfg, steps[..|steps| - 1]);
      StepStamps(RunFrom(INITIAL, cfg, steps[..|steps| - 1]).value, cfg, steps[|steps| - 1]);
    }
  }

  /** In every reachable state a failure shortens its key's block exactly when
      its reading is older than the reading that set the block by more than the
      delay grows; so one read no earlier never does. */
  lemma FailureShortens(cfg: Config, steps: seq<Step>, thread: int, e: Entry)
    requires RunFrom(INITIAL, cfg, steps).Some?
    requires var s := RunFrom(INITIAL, cfg, steps).value;
             && thread in s.pending && s.pending[thread].key == e.key
             && e in s.table && e.failures >= cfg.threshold
    ensures var s := RunFrom(INITIAL, cfg, steps).value;
            var now := s.pending[thread].now;
            var failed := Failed(Find(s.table, e.key), cfg, e.key, now);
            && e.key in s.stamps
            && (failed.blockedUntil < e.blockedUntil <==>
                  s.stamps[e.key] - now > Delay(cfg, e.failures + 1) - Delay(cfg, e.failures))
            && (cfg.baseDelay >= 0.0 && now >= s.stamps[e.key] ==> failed.blockedUntil >= e.blockedUntil)
  {
    var s := RunFrom(INITIAL, cfg, steps).value;
    RunKeeps(INITIAL, cfg, steps);
    RunStamps(cfg, steps);
    FindMeans(s.table, e.key);
    if cfg.baseDelay >= 0.0 {
      DelayMonotone(cfg, e.failures, e.failures + 1);
    }
  }

  /** Two threads fail on one key, the second with a reading t older. */
  lemma StaleRun(cfg: Config, a: Key, t: real)
    requires cfg.threshold <= 1 && cfg.maxEntries >= 1 && cfg.entryTtl >= 0.0 && t >= 0.0
    ensures var blocking := [ReadClock(0, a), Tick(t), ReadClock(1, a)] + [LockedFailure(1)];
            var all := [ReadClock(0, a), Tick(t), ReadClock(1, a)] + [LockedFailure(1), LockedFailure(0)];
            && RunFrom(INITIAL, cfg, blocking).Some? && RunFrom(INITIAL, cfg, all).Some?
            && var before, after := RunFrom(INITIAL, cfg, blocking).value, RunFrom(INITIAL, cfg, all).value;
               && before.clock == after.clock == t
               && before.table == [Entry(a, 1, t + Delay(cfg, 1), t)]
               && after.table == [Entry(a, 2, Delay(cfg, 2), 0.0)]
  {
    var s1 := Next(INITIAL, cfg, ReadClock(0, a));
    var s3 := Next(Next(s1, cfg, Tick(t)), cfg, ReadClock(1, a));
    var s4 := Next(s3, cfg, LockedFailure(1));
    var s5 := Next(s4, cfg, LockedFailure(0));
    var f := Failed(None, cfg, a, t);
    var g := Failed(Some(f), cfg, a, 0.0);
    assert [] + [f] == [f] && [] + [g] == [g];
    assert s4.table == [f];
    assert Without([f], a) == [] by { assert [f][1..] == []; }
    assert s5.table == [g];
    RunOfFive(cfg, ReadClock(0, a), Tick(t), ReadClock(1, a), LockedFailure(1), LockedFailure(0));
    RunSnoc(INITIAL, cfg, [ReadClock(0, a), Tick(t), ReadClock(1, a)], LockedFailure(1));
  }

  /** And it happens, as soon as the second reading is older by more than the
      delay grows: the key's block ends sooner, and a live one is shorter. */
  lemma StaleFailureShortensBlock(cfg: Config, a: Key, t: real)
    requires cfg.threshold <= 1 && cfg.maxEntries >= 1 && cfg.entryTtl >= 0.0 && t >= 0.0
    ensures var blocking := [ReadClock(0, a), Tick(t), ReadClock(1, a)] + [LockedFailure(1)];
            var all := [ReadClock(0, a), Tick(t), ReadClock(1, a)] + [LockedFailure(1), LockedFailure(0)];
            && RunFrom(INITIAL, cfg, blocking).Some? && RunFrom(INITIAL, cfg, all).Some?
            && var before, after := RunFrom(INITIAL, cfg, blocking).value, RunFrom(INITIAL, cfg, all).value;
               && before.clock == after.clock == t && |before.table| == |after.table| == 1
               && before.table[0].key == after.table[0].key == a
               && (after.table[0].blockedUntil < before.table[0].blockedUntil <==>
                     t > Delay(cfg, 2) - Delay(cfg, 1))
               && (t > Delay(cfg, 2) - Delay(cfg, 1) && Delay(cfg, 1) > 0.0 ==>
                     BlockedFor(after.table, a, t) < BlockedFor(before.table, a, t))
  {
    StaleRun(cfg, a, t);
  }
}
