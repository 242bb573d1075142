/** When the throttle's table stays in last-seen order, and what follows for the
    sweep and the cap: the clock is read before the lock, so it may not. */
module LoginThrottleOrder {
  import opened Wrappers
  import opened LoginThrottles
  import opened LoginThrottleProofs

  predicate Sorted(t: seq<Entry>) {
    forall i, j :: 0 <= i < j < |t| ==> t[i].lastSeen <= t[j].lastSeen
  }

  lemma {:induction false} WithoutSorted(t: seq<Entry>, key: Key)
    requires Sorted(t)
    ensures Sorted(Without(t, key))
  {
    if t != [] {
      WithoutSorted(t[1..], key);
      WithoutMeans(t[1..], key);
      if t[0].key != key {
        forall j | 0 < j < |Without(t, key)| ensures t[0].lastSeen <= Without(t, key)[j].lastSeen {
          assert Without(t, key)[j] in t[1..];
        }
      }
    }
  }

  lemma {:induction false} EvictSorted(t: seq<Entry>, excess: int, now: real)
    requires Sorted(t)
    ensures Sorted(EvictPass(t, excess, now))
  {
    if t != [] && excess > 0 {
      var rest := if t[0].blockedUntil > now then excess else excess - 1;
      EvictSorted(t[1..], rest, now);
      EvictKeeps(t[1..], rest, now);
      if t[0].blockedUntil > now {
        var r := EvictPass(t, excess, now);
        forall j | 0 < j < |r| ensures t[0].lastSeen <= r[j].lastSeen {
          assert r[j] in t[1..];
        }
      }
    }
  }

  lemma {:induction false} DropSorted(t: seq<Entry>, cutoff: real)
    requires Sorted(t)
    ensures Sorted(DropExpired(t, cutoff))
    ensures forall e :: e in DropExpired(t, cutoff) ==> e.lastSeen >= cutoff
  {
    if t != [] && t[0].lastSeen < cutoff {
      DropSorted(t[1..], cutoff);
    }
  }

  function CountBlocked(t: seq<Entry>, now: real): (n: nat)
    ensures n <= |t|
    ensures (forall e :: e in t ==> e.blockedUntil > now) ==> n == |t|
  {
    if t == [] then 0
    else
      assert t[0] in t && forall e :: e in t[1..] ==> e in t;
      CountBlocked(t[1..], now) + if t[0].blockedUntil > now then 1 else 0
  }

  lemma TouchedSorted(t: seq<Entry>, e: Entry)
    requires Sorted(t) && forall f :: f in t ==> f.lastSeen <= e.lastSeen
    ensures Sorted(Without(t, e.key) + [e])
  {
    WithoutMeans(t, e.key);
    WithoutSorted(t, e.key);
    var w := Without(t, e.key);
    assert forall i :: 0 <= i < |w| ==> w[i] in w;
  }

  // ---- One failure, exactly ----

  /** The other keys' entries that the sweep leaves. */
  function Standing(t: seq<Entry>, cfg: Config, key: Key, now: real): seq<Entry> {
    DropExpired(Without(t, key), now - cfg.entryTtl)
  }

  predicate NoneLate(t: seq<Entry>, now: real) {
    forall e :: e in t ==> e.lastSeen <= now
  }

  predicate NoLateBlock(t: seq<Entry>, now: real) {
    forall e :: e in t && e.lastSeen > now ==> e.blockedUntil <= now
  }

  function Unblocked(t: seq<Entry>, now: real): nat {
    if t == [] then 0 else Unblocked(t[1..], now) + if t[0].blockedUntil > now then 0 else 1
  }

  /** What a caller could check before recording: no other standing entry was
      seen after the reading; or the eviction that is due takes every such
      entry; or it takes the failing key's own. */
  predicate KeepsOrder(t: seq<Entry>, cfg: Config, key: Key, now: real) {
    var others := Standing(t, cfg, key, now);
    var excess := |others| + 1 - cfg.maxEntries;
    || NoneLate(others, now)
    || (Unblocked(others, now) <= excess && NoLateBlock(others, now))
    || (Unblocked(others, now) < excess && Failed(Find(t, key), cfg, key, now).blockedUntil <= now)
  }

  lemma {:induction false} DropSnoc(t: seq<Entry>, e: Entry, cutoff: real)
    ensures DropExpired(t + [e], cutoff) ==
            if DropExpired(t, cutoff) == [] then DropExpired([e], cutoff) else DropExpired(t, cutoff) + [e]
  {
    if t == [] {
      assert t + [e] == [e];
    } else {
      assert (t + [e])[1..] == t[1..] + [e];
      DropSnoc(t[1..], e, cutoff);
    }
  }

  lemma {:induction false} EvictSnoc(t: seq<Entry>, e: Entry, excess: int, now: real)
    ensures EvictPass(t + [e], excess, now) ==
            EvictPass(t, excess, now) + EvictPass([e], excess - Unblocked(t, now), now)
  {
    if t == [] {
      assert t + [e] == [e];
    } else {
      assert (t + [e])[1..] == t[1..] + [e];
      EvictSnoc(t[1..], e, if t[0].blockedUntil > now then excess else excess - 1, now);
    }
  }

  lemma EvictOne(e: Entry, excess: int, now: real)
    ensures EvictPass([e], excess, now) == if excess > 0 && e.blockedUntil <= now then [] else [e]
  {
    assert [e][1..] == [];
  }

  lemma {:induction false} SomeUnblocked(t: seq<Entry>, now: real) returns (e: Entry)
    requires Unblocked(t, now) > 0
    ensures e in t && e.blockedUntil <= now
  {
    if t[0].blockedUntil <= now {
      e := t[0];
    } else {
      e := SomeUnblocked(t[1..], now);
    }
  }

  lemma TailSorted(t: seq<Entry>)
    requires t != [] && Sorted(t)
    ensures Sorted(t[1..])
  {
  }

  /** When fewer are evicted than could be, the latest of those survive. */
  lemma {:induction false} LateSurvives(t: seq<Entry>, excess: int, now: real, e: Entry)
    requires Sorted(t) && Unblocked(t, now) > excess
    requires e in t && e.blockedUntil <= now < e.lastSeen
    ensures !NoneLate(EvictPass(t, excess, now), now)
    decreases |t|
  {
    if excess > 0 {
      assert t == [t[0]] + t[1..];
      TailSorted(t);
      if t[0].blockedUntil > now {
        LateSurvives(t[1..], excess, now, e);
      } else if e in t[1..] {
        LateSurvives(t[1..], excess - 1, now, e);
      } else {
        var g := SomeUnblocked(t[1..], now);
        LateSurvives(t[1..], excess - 1, now, g);
      }
    }
  }

  /** Evicting every entry that is not blocked leaves only blocked ones. */
  lemma {:induction false} EvictAll(t: seq<Entry>, excess: int, now: real)
    requires Unblocked(t, now) <= excess
    ensures forall e :: e in EvictPass(t, excess, now) ==> e.blockedUntil > now
  {
    if t != [] {
      if excess > 0 {
        EvictAll(t[1..], if t[0].blockedUntil > now then excess else excess - 1, now);
      } else {
        EvictAll(t[1..], excess, now);
        assert EvictPass(t[1..], excess, now) == t[1..] && t == [t[0]] + t[1..];
      }
    }
  }

  lemma LateAfterEviction(t: seq<Entry>, excess: int, now: real)
    requires Sorted(t)
    ensures NoneLate(EvictPass(t, excess, now), now) <==>
              NoneLate(t, now) || (Unblocked(t, now) <= excess && NoLateBlock(t, now))
  {
    var left := EvictPass(t, excess, now);
    EvictKeeps(t, excess, now);
    if NoneLate(left, now) && !NoneLate(t, now) {
      var e :| e in t && e.lastSeen > now;
      assert e.blockedUntil <= now;
      if Unblocked(t, now) > excess {
        LateSurvives(t, excess, now, e);
      }
    }
    if Unblocked(t, now) <= excess {
      EvictAll(t, excess, now);
    }
  }

  lemma SnocSorted(t: seq<Entry>, e: Entry)
    requires Sorted(t)
    ensures Sorted(t + [e]) <==> NoneLate(t, e.lastSeen)
  {
    var u := t + [e];
    assert u[|t|] == e;
    if NoneLate(t, e.lastSeen) {
      assert forall i :: 0 <= i < |t| ==> u[i] == t[i] && t[i] in t;
    }
    if Sorted(u) {
      forall f | f in t ensures f.lastSeen <= e.lastSeen {
        var i :| 0 <= i < |t| && t[i] == f;
        assert u[i] == f;
      }
    }
  }

  /** A recorded failure leaves what the eviction spares of the others, and
      then of the failing key's own entry. */
  lemma FailureShape(t: seq<Entry>, cfg: Config, key: Key, now: real)
    ensures var others := Standing(t, cfg, key, now);
            var excess := |others| + 1 - cfg.maxEntries;
            if others == [] then |AfterFailure(t, cfg, key, now)| <= 1
            else AfterFailure(t, cfg, key, now) ==
                 EvictPass(others, excess, now)
                 + EvictPass([Failed(Find(t, key), cfg, key, now)], excess - Unblocked(others, now), now)
  {
    var failed := Failed(Find(t, key), cfg, key, now);
    var others := Standing(t, cfg, key, now);
    DropSnoc(Without(t, key), failed, now - cfg.entryTtl);
    if others == [] {
      var v := DropExpired([failed], now - cfg.entryTtl);
      EvictReachesCap(v, |v| - cfg.maxEntries, now);
    } else {
      EvictSnoc(others, failed, |others| + 1 - cfg.maxEntries, now);
    }
  }

  lemma OwnEvicted(left: seq<Entry>, failed: Entry, excess: int, now: real)
    requires Sorted(left) && excess > 0 && failed.blockedUntil <= now
    ensures Sorted(left + EvictPass([failed], excess, now))
  {
    EvictOne(failed, excess, now);
    assert left + EvictPass([failed], excess, now) == left;
  }

  lemma OwnStays(left: seq<Entry>, failed: Entry, excess: int, now: real)
    requires Sorted(left) && (excess <= 0 || failed.blockedUntil > now)
    ensures Sorted(left + EvictPass([failed], excess, now)) <==> NoneLate(left, failed.lastSeen)
  {
    EvictOne(failed, excess, now);
    SnocSorted(left, failed);
  }

  /** A recorded failure leaves a sorted table sorted exactly when the check
      above passes. */
  lemma FailureKeepsOrder(t: seq<Entry>, cfg: Config, key: Key, now: real)
    requires Sorted(t)
    ensures Sorted(AfterFailure(t, cfg, key, now)) <==> KeepsOrder(t, cfg, key, now)
  {
    var others := Standing(t, cfg, key, now);
    WithoutSorted(t, key);
    DropSorted(Without(t, key), now - cfg.entryTtl);
    var failed, excess := Failed(Find(t, key), cfg, key, now), |others| + 1 - cfg.maxEntries;
    var left := EvictPass(others, excess, now);
    FailureShape(t, cfg, key, now);
    EvictSorted(others, excess, now);
    if Unblocked(others, now) < excess && failed.blockedUntil <= now {
      OwnEvicted(left, failed, excess - Unblocked(others, now), now);
    } else {
      LateAfterEviction(others, excess, now);
      OwnStays(left, failed, excess - Unblocked(others, now), now);
    }
  }

  lemma StandingMeans(t: seq<Entry>, cfg: Config, key: Key, now: real, e: Entry)
    ensures e in Standing(t, cfg, key, now) ==> e in t && e.key != key
    ensures e in t && e.key != key && e.lastSeen >= now - cfg.entryTtl ==> e in Standing(t, cfg, key, now)
  {
    WithoutMeans(t, key);
    DropKeeps(Without(t, key), now - cfg.entryTtl);
  }

  /** With a lifetime and no eviction due: exactly when no other key was seen
      after the reading. */
  lemma FailureKeepsOrderPlainly(t: seq<Entry>, cfg: Config, key: Key, now: real)
    requires Sorted(t) && cfg.entryTtl >= 0.0 && |Standing(t, cfg, key, now)| < cfg.maxEntries
    ensures Sorted(AfterFailure(t, cfg, key, now)) <==> forall e :: e in t && e.key != key ==> e.lastSeen <= now
  {
    var others := Standing(t, cfg, key, now);
    FailureKeepsOrder(t, cfg, key, now);
    if Unblocked(others, now) == 0 {
      EvictAll(others, 0, now);
    }
    forall e ensures e in others && e.lastSeen > now <==> e in t && e.key != key && e.lastSeen > now {
      StandingMeans(t, cfg, key, now, e);
    }
  }

  // ---- Runs ----

  predicate SortedThroughout(cfg: Config, steps: seq<Step>)
    requires RunFrom(INITIAL, cfg, steps).Some?
  {
    && Sorted(RunFrom(INITIAL, cfg, steps).value.table)
    && (steps == [] || SortedThroughout(cfg, steps[..|steps| - 1]))
  }

  /** Every recorded failure passed the check on the table it found. */
  predicate EveryFailureFits(cfg: Config, steps: seq<Step>)
    requires RunFrom(INITIAL, cfg, steps).Some?
  {
    steps == [] ||
    (var m := RunFrom(INITIAL, cfg, steps[..|steps| - 1]).value;
     var step := steps[|steps| - 1];
     && EveryFailureFits(cfg, steps[..|steps| - 1])
     && (step.LockedFailure? ==> KeepsOrder(m.table, cfg, m.pending[step.thread].key, m.pending[step.thread].now)))
  }

  lemma StepOrder(s: System, cfg: Config, step: Step)
    requires Inv(s, cfg) && Enabled(s, step) && Sorted(s.table)
    ensures Sorted(Next(s, cfg, step).table) <==>
              (step.LockedFailure? ==>
                 KeepsOrder(s.table, cfg, s.pending[step.thread].key, s.pending[step.thread].now))
  {
    assert forall e :: e in s.table ==> EntryRight(e, cfg, s.clock);
    match step
    case LockedFailure(thread) =>
      FailureKeepsOrder(s.table, cfg, s.pending[thread].key, s.pending[thread].now);
    case Success(key) => WithoutSorted(s.table, key);
    case BlockedAttempt(key) =>
      FindMeans(s.table, key);
      if Find(s.table, key).Some? {
        TouchedSorted(s.table, Find(s.table, key).value.(lastSeen := s.clock));
      }
    case _ =>
  }

  /** Over every run the table is in last-seen order throughout exactly when
      every recorded failure passed the check: nothing else disorders it. */
  lemma {:induction false} OrderIsTheFailures(cfg: Config, steps: seq<Step>)
    requires RunFrom(INITIAL, cfg, steps).Some?
    ensures SortedThroughout(cfg, steps) <==> EveryFailureFits(cfg, steps)
  {
    if steps != [] {
      var front := steps[..|steps| - 1];
      OrderIsTheFailures(cfg, front);
      RunKeeps(INITIAL, cfg, front);
      if SortedThroughout(cfg, front) {
        StepOrder(RunFrom(INITIAL, cfg, front).value, cfg, steps[|steps| - 1]);
      }
    }
  }

  /** Every locked failure uses a reading that is still the time. */
  predicate Atomic(s: System, cfg: Config, steps: seq<Step>)
    requires RunFrom(s, cfg, steps).Some?
  {
    steps == [] ||
    (var m := RunFrom(s, cfg, steps[..|steps| - 1]).value;
     var step := steps[|steps| - 1];
     && Atomic(s, cfg, steps[..|steps| - 1])
     && (step.LockedFailure? ==> m.pending[step.thread].now == m.clock))
  }

  lemma FreshReadingFits(t: seq<Entry>, cfg: Config, key: Key, now: real)
    requires NoneLate(t, now)
    ensures KeepsOrder(t, cfg, key, now)
  {
    forall e | e in Standing(t, cfg, key, now) ensures e.lastSeen <= now {
      StandingMeans(t, cfg, key, now, e);
    }
  }

  /** With clock and lock as one step every failure passes. */
  lemma {:induction false} AtomicFailuresFit(cfg: Config, steps: seq<Step>)
    requires RunFrom(INITIAL, cfg, steps).Some? && Atomic(INITIAL, cfg, steps)
    ensures EveryFailureFits(cfg, steps) && SortedThroughout(cfg, steps)
  {
    if steps != [] {
      var front, step := steps[..|steps| - 1], steps[|steps| - 1];
      var m := RunFrom(INITIAL, cfg, front).value;
      AtomicFailuresFit(cfg, front);
      RunKeeps(INITIAL, cfg, front);
      assert forall e :: e in m.table ==> EntryRight(e, cfg, m.clock);
      if step.LockedFailure? {
        FreshReadingFits(m.table, cfg, m.pending[step.thread].key, m.clock);
      }
    }
    OrderIsTheFailures(cfg, steps);
  }

  // ---- Bounds ----

  /** Whatever the table and however old the reading, a recorded failure leaves
      more than the cap only when everything left is blocked at the reading. */
  lemma SizeBound(t: seq<Entry>, cfg: Config, key: Key, now: real)
    ensures var r := AfterFailure(t, cfg, key, now);
            |r| <= cfg.maxEntries || |r| == CountBlocked(r, now)
  {
    var v := DropExpired(Without(t, key) + [Failed(Find(t, key), cfg, key, now)], now - cfg.entryTtl);
    EvictReachesCap(v, |v| - cfg.maxEntries, now);
  }

  predicate NoneOlder(t: seq<Entry>, cutoff: real) {
    forall e :: e in t ==> e.lastSeen >= cutoff
  }

  /** Everything older is among the first `excess` entries that are not blocked. */
  predicate OlderGo(t: seq<Entry>, excess: int, cutoff: real, now: real) {
    forall i :: 0 <= i < |t| && t[i].lastSeen < cutoff ==>
      t[i].blockedUntil <= now && Unblocked(t[..i], now) < excess
  }

  lemma OlderGoNext(t: seq<Entry>, excess: int, cutoff: real, now: real)
    requires t != [] && excess > 0
    ensures OlderGo(t, excess, cutoff, now) <==>
              && (t[0].lastSeen < cutoff ==> t[0].blockedUntil <= now)
              && OlderGo(t[1..], if t[0].blockedUntil > now then excess else excess - 1, cutoff, now)
  {
    var left := if t[0].blockedUntil > now then excess else excess - 1;
    forall i | 0 <= i < |t| - 1
      ensures Unblocked(t[1..][..i], now) < left <==> Unblocked(t[..i + 1], now) < excess
    {
      assert t[..i + 1][1..] == t[1..][..i];
    }
    if OlderGo(t, excess, cutoff, now) {
      forall i | 0 <= i < |t| - 1 && t[1..][i].lastSeen < cutoff
        ensures t[1..][i].blockedUntil <= now && Unblocked(t[1..][..i], now) < left
      {
        assert t[i + 1] == t[1..][i];
      }
    }
    if OlderGo(t[1..], left, cutoff, now) {
      forall i | 0 < i < |t| && t[i].lastSeen < cutoff
        ensures t[i].blockedUntil <= now && Unblocked(t[..i], now) < excess
      {
        assert t[1..][i - 1] == t[i] && Unblocked(t[1..][..i - 1], now) < left;
      }
    }
  }

  lemma {:induction false} OlderAfterEviction(t: seq<Entry>, excess: int, cutoff: real, now: real)
    ensures NoneOlder(EvictPass(t, excess, now), cutoff) <==> OlderGo(t, excess, cutoff, now)
  {
    if t == [] {
    } else if excess <= 0 {
      assert NoneOlder(t, cutoff) <==> forall i :: 0 <= i < |t| ==> t[i].lastSeen >= cutoff;
    } else {
      var left := if t[0].blockedUntil > now then excess else excess - 1;
      OlderAfterEviction(t[1..], left, cutoff, now);
      OlderGoNext(t, excess, cutoff, now);
      if t[0].blockedUntil > now {
        var r := EvictPass(t[1..], left, now);
        assert EvictPass(t, excess, now) == [t[0]] + r;
        assert NoneOlder([t[0]] + r, cutoff) <==> t[0].lastSeen >= cutoff && NoneOlder(r, cutoff) by {
          NoneOlderCons(t[0], r, cutoff);
        }
      }
    }
  }

  lemma NoneOlderCons(e: Entry, t: seq<Entry>, cutoff: real)
    ensures NoneOlder([e] + t, cutoff) <==> e.lastSeen >= cutoff && NoneOlder(t, cutoff)
  {
    assert e in [e] + t;
    assert forall f :: f in t ==> f in [e] + t;
  }

  /** Whatever the table and however old the reading: a recorded failure leaves
      nothing older than the lifetime exactly when every older entry that the
      sweep leaves is one the eviction takes; with no eviction due, exactly when
      the sweep leaves none. */
  lemma FailureExpires(t: seq<Entry>, cfg: Config, key: Key, now: real)
    requires cfg.entryTtl >= 0.0
    ensures var others := Standing(t, cfg, key, now);
            var excess := |others| + 1 - cfg.maxEntries;
            var cutoff := now - cfg.entryTtl;
            && (NoneOlder(AfterFailure(t, cfg, key, now), cutoff) <==> OlderGo(others, excess, cutoff, now))
            && (|others| < cfg.maxEntries ==>
                  (NoneOlder(AfterFailure(t, cfg, key, now), cutoff) <==> NoneOlder(others, cutoff)))
  {
    var failed := Failed(Find(t, key), cfg, key, now);
    var others := Standing(t, cfg, key, now);
    var excess, cutoff := |others| + 1 - cfg.maxEntries, now - cfg.entryTtl;
    FailureShape(t, cfg, key, now);
    OlderAfterEviction(others, excess, cutoff, now);
    if others == [] {
      DropSnoc(Without(t, key), failed, cutoff);
      PrunedKeeps(Without(t, key) + [failed], cfg, now);
      assert DropExpired([failed], cutoff) == [failed];
      EvictKeeps([failed], 1 - cfg.maxEntries, now);
    } else {
      EvictOne(failed, excess - Unblocked(others, now), now);
    }
  }

  /** In order, the sweep leaves nothing older. */
  lemma SweptInOrder(t: seq<Entry>, cfg: Config, key: Key, now: real)
    requires Sorted(t)
    ensures OlderGo(Standing(t, cfg, key, now), |Standing(t, cfg, key, now)| + 1 - cfg.maxEntries, now - cfg.entryTtl, now)
  {
    WithoutSorted(t, key);
    DropSorted(Without(t, key), now - cfg.entryTtl);
  }

  /** In every run, relative to its own reading: a recorded failure leaves the
      table within the cap or all blocked, however stale the reading, and nothing
      older than the lifetime exactly when the eviction takes what the sweep left
      of that; which it does while the failures before it kept the order. */
  lemma ThrottleBounds(cfg: Config, steps: seq<Step>, thread: int)
    requires RunFrom(INITIAL, cfg, steps).Some? && thread in RunFrom(INITIAL, cfg, steps).value.pending
    ensures var s := RunFrom(INITIAL, cfg, steps).value;
            var now := s.pending[thread].now;
            var r := Next(s, cfg, LockedFailure(thread)).table;
            && (|r| <= cfg.maxEntries || |r| == CountBlocked(r, now))
            && (forall e :: e in r ==> e.lastSeen <= s.clock)
            && (cfg.entryTtl >= 0.0 ==>
                  var others := Standing(s.table, cfg, s.pending[thread].key, now);
                  var cutoff := now - cfg.entryTtl;
                  && (NoneOlder(r, cutoff) <==> OlderGo(others, |others| + 1 - cfg.maxEntries, cutoff, now))
                  && (EveryFailureFits(cfg, steps) ==> NoneOlder(r, cutoff)))
  {
    var s := RunFrom(INITIAL, cfg, steps).value;
    var Reading(key, now) := s.pending[thread];
    SizeBound(s.table, cfg, key, now);
    RunKeeps(INITIAL, cfg, steps);
    StepKeeps(s, cfg, LockedFailure(thread));
    assert forall e :: e in Next(s, cfg, LockedFailure(thread)).table ==> EntryRight(e, cfg, s.clock);
    if cfg.entryTtl >= 0.0 {
      FailureExpires(s.table, cfg, key, now);
      if EveryFailureFits(cfg, steps) {
        OrderIsTheFailures(cfg, steps);
        SweptInOrder(s.table, cfg, key, now);
      }
    }
  }

  /** With the read outside the lock, as the code has it, two threads are
      enough to fail the check. */
  lemma StaleReadingBreaksOrder(cfg: Config, a: Key, b: Key)
    requires a != b && cfg.maxEntries >= 2 && cfg.entryTtl >= 1.0
    ensures var steps := [ReadClock(0, a), Tick(1.0), ReadClock(1, b)] + [LockedFailure(1), LockedFailure(0)];
            && RunFrom(INITIAL, cfg, steps).Some?
            && !Sorted(RunFrom(INITIAL, cfg, steps).value.table)
  {
    var s1 := Next(INITIAL, cfg, ReadClock(0, a));
    var s3 := Next(Next(s1, cfg, Tick(1.0)), cfg, ReadClock(1, b));
    var s4 := Next(s3, cfg, LockedFailure(1));
    var s5 := Next(s4, cfg, LockedFailure(0));
    var f := Failed(None, cfg, b, 1.0);
    var e := Failed(None, cfg, a, 0.0);
    assert [] + [f] == [f];
    assert s4.table == [f];
    assert Without([f], a) == [f] && Find([f], a) == None by { assert [f][1..] == []; }
    assert [f] + [e] == [f, e];
    assert EvictPass([f, e], 2 - cfg.maxEntries, 0.0) == [f, e];
    assert s5.table == [f, e];
    assert s5.table[0].lastSeen == 1.0 && s5.table[1].lastSeen == 0.0;
    RunOfFive(cfg, ReadClock(0, a), Tick(1.0), ReadClock(1, b), LockedFailure(1), LockedFailure(0));
  }
}
