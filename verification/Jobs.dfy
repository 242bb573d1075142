/** Check jobs: capacity with eviction, and streams that replay and wait. */
module Jobs {
  import opened Wrappers

  const MAX_JOBS: nat := 100
  const MAX_JOBS_PER_OWNER: nat := 10

  // ---- The store of jobs, oldest first ----

  datatype Job = Job(id: int, owner: int, done: bool)

  datatype CreateResult = Created(store: seq<Job>) | Refused(store: seq<Job>)

  predicate Evictable(job: Job, only: Option<int>) {
    job.done && (only.None? || job.owner == only.value)
  }

  /** The oldest finished job, of one owner or of any; the length if none. */
  function OldestDone(s: seq<Job>, only: Option<int>): (i: nat)
    ensures i <= |s|
    ensures i < |s| ==> Evictable(s[i], only)
    ensures forall j :: 0 <= j < i ==> !Evictable(s[j], only)
  {
    if s == [] || Evictable(s[0], only) then 0 else OldestDone(s[1..], only) + 1
  }

  function CountOwned(s: seq<Job>, owner: int): (n: nat)
    ensures n <= |s|
  {
    if s == [] then 0 else CountOwned(s[..|s| - 1], owner) + if s[|s| - 1].owner == owner then 1 else 0
  }

  function Minus(s: seq<Job>, i: nat): seq<Job>
    requires i < |s|
  {
    s[..i] + s[i + 1..]
  }

  function DropLast(s: seq<Job>): seq<Job>
    requires s != []
  {
    s[..|s| - 1]
  }

  function TrimOwner(s: seq<Job>, owner: int): (r: CreateResult)
    requires s != []
    ensures r.Created? ==> r.store != []
    decreases |s|
  {
    if CountOwned(s, owner) <= MAX_JOBS_PER_OWNER then Created(s)
    else
      var i := OldestDone(s, Some(owner));
      if i == |s| then Refused(DropLast(s)) else TrimOwner(Minus(s, i), owner)
  }

  function TrimAll(s: seq<Job>): CreateResult
    requires s != []
    decreases |s|
  {
    if |s| <= MAX_JOBS then Created(s)
    else
      var i := OldestDone(s, None);
      if i == |s| then Refused(DropLast(s)) else TrimAll(Minus(s, i))
  }

  function Create(s: seq<Job>, id: int, owner: int): CreateResult {
    match TrimOwner(s + [Job(id, owner, false)], owner)
    case Refused(t) => Refused(t)
    case Created(t) => TrimAll(t)
  }

  function Position(s: seq<Job>, id: int): (i: nat)
    ensures i <= |s|
    ensures i < |s| ==> s[i].id == id
    ensures forall j :: 0 <= j < i ==> s[j].id != id
  {
    if s == [] || s[0].id == id then 0 else Position(s[1..], id) + 1
  }

  function Discard(s: seq<Job>, id: int): seq<Job> {
    var i := Position(s, id);
    if i < |s| then Minus(s, i) else s
  }

  // ---- One job and the streams over it ----

  datatype Event = Event(name: string, data: string)
  datatype Status = Running | Done

  // Where a stream's generator is suspended: at a yield, at the yield of the
  // final event, or waiting for the shared event.
  datatype Frame = Yielded | YieldedDone | Asleep(woken: bool) | Ended | Abandoned
  datatype Stream = Stream(index: nat, frame: Frame)

  datatype JobState = JobState(status: Status, events: seq<Event>, flag: bool, streams: seq<Stream>)

  function Woken(s: Stream): Stream {
    if s.frame.Asleep? then s.(frame := Asleep(true)) else s
  }

  function AllWoken(streams: seq<Stream>): (r: seq<Stream>)
    ensures |r| == |streams| && forall k :: 0 <= k < |r| ==> r[k] == Woken(streams[k])
  {
    seq(|streams|, k requires 0 <= k < |streams| => Woken(streams[k]))
  }

  function Emit(j: JobState, e: Event): JobState {
    j.(events := j.events + [e], flag := true, streams := AllWoken(j.streams))
  }

  function Finish(j: JobState): JobState {
    Emit(j.(status := Done), Event("done", "done"))
  }

  predicate CanRun(s: Stream) {
    s.frame.Yielded? || s.frame.YieldedDone? || s.frame == Asleep(true)
  }

  /** From one suspension to the next, and the event yielded on the way. */
  function Resume(j: JobState, k: nat): (JobState, Option<Event>)
    requires k < |j.streams| && CanRun(j.streams[k])
  {
    var s := j.streams[k];
    if s.frame.YieldedDone? then (j.(streams := j.streams[k := s.(frame := Ended)]), None)
    else if s.index < |j.events| then
      var e := j.events[s.index];
      var frame := if e.name == "done" then YieldedDone else Yielded;
      (j.(streams := j.streams[k := Stream(s.index + 1, frame)]), Some(e))
    else (j.(flag := false, streams := j.streams[k := s.(frame := Asleep(false))]), None)
  }

  class CheckJob {
    const id: int
    const owner: int
    var status: Status
    var events: seq<Event>
    var newEvent: bool
    var streams: seq<Stream>

    ghost function State(): JobState
      reads this
    {
      JobState(status, events, newEvent, streams)
    }

    constructor (id: int, owner: int)
      ensures this.id == id && this.owner == owner
      ensures State() == JobState(Running, [], false, [])
    {
      this.id, this.owner := id, owner;
      status, events, newEvent, streams := Running, [], false, [];
    }

    method EmitEvent(e: Event)
      modifies this
      ensures State() == Emit(old(State()), e)
    {
      events := events + [e];
      newEvent := true;
      var k := 0;
      while k < |streams|
        invariant 0 <= k <= |streams| == |old(streams)|
        invariant State() == Emit(old(State()), e).(streams := streams)
        invariant forall i :: 0 <= i < |streams| ==>
                    streams[i] == if i < k then Woken(old(streams)[i]) else old(streams)[i]
      {
        streams := streams[k := Woken(streams[k])];
        k := k + 1;
      }
      assert streams == AllWoken(old(streams));
    }

    method FinishJob()
      modifies this
      ensures State() == Finish(old(State()))
    {
      status := Done;
      EmitEvent(Event("done", "done"));
    }

    method OpenStream() returns (k: nat)
      modifies this
      ensures k == |old(streams)|
      ensures State() == old(State()).(streams := old(streams) + [Stream(0, Yielded)])
    {
      k := |streams|;
      streams := streams + [Stream(0, Yielded)];
    }

    method ResumeStream(k: nat) returns (yielded: Option<Event>)
      requires k < |streams| && CanRun(streams[k])
      modifies this
      ensures State() == Resume(old(State()), k).0 && yielded == Resume(old(State()), k).1
    {
      var s := streams[k];
      yielded := None;
      if s.frame.YieldedDone? {
        streams := streams[k := s.(frame := Ended)];
        return;
      }
      if s.index < |events| {
        yielded := Some(events[s.index]);
        var frame := if events[s.index].name == "done" then YieldedDone else Yielded;
        streams := streams[k := Stream(s.index + 1, frame)];
        return;
      }
      // Clear, check again and wait run without giving way.
      newEvent := false;
      streams := streams[k := s.(frame := Asleep(false))];
    }
  }

  lemma OldestDoneIs(s: seq<Job>, only: Option<int>, i: nat)
    requires i <= |s| && (forall j :: 0 <= j < i ==> !Evictable(s[j], only))
    requires i < |s| ==> Evictable(s[i], only)
    ensures OldestDone(s, only) == i
  {
  }

  class JobManager {
    var jobs: seq<Job>

    constructor ()
      ensures jobs == []
    {
      jobs := [];
    }

    static method FindOldestDone(s: seq<Job>, only: Option<int>) returns (i: nat)
      ensures i == OldestDone(s, only)
    {
      i := 0;
      while i < |s|
        invariant i <= |s| && forall j :: 0 <= j < i ==> !Evictable(s[j], only)
      {
        if s[i].done && (only.None? || s[i].owner == only.value) { break; }
        i := i + 1;
      }
      OldestDoneIs(s, only, i);
    }

    static method CountOf(s: seq<Job>, owner: int) returns (n: nat)
      ensures n == CountOwned(s, owner)
    {
      n := 0;
      var i := 0;
      while i < |s|
        invariant 0 <= i <= |s| && n == CountOwned(s[..i], owner)
      {
        assert s[..i + 1][..i] == s[..i];
        if s[i].owner == owner { n := n + 1; }
        i := i + 1;
      }
      assert s[..i] == s;
    }

    /** The creator's own finished jobs make room first. */
    method TrimOwned(owner: int) returns (ok: bool)
      requires jobs != []
      modifies this
      ensures TrimOwner(old(jobs), owner) == if ok then Created(jobs) else Refused(jobs)
    {
      var owned := CountOf(jobs, owner);
      while owned > MAX_JOBS_PER_OWNER
        invariant jobs != [] && owned == CountOwned(jobs, owner)
        invariant TrimOwner(jobs, owner) == TrimOwner(old(jobs), owner)
        decreases |jobs|
      {
        var i := FindOldestDone(jobs, Some(owner));
        if i == |jobs| {
          jobs := DropLast(jobs);
          return false;
        }
        jobs := Minus(jobs, i);
        owned := CountOf(jobs, owner);
      }
      ok := true;
    }

    /** Then anyone's oldest finished job. */
    method TrimTotal() returns (ok: bool)
      requires jobs != []
      modifies this
      ensures TrimAll(old(jobs)) == if ok then Created(jobs) else Refused(jobs)
    {
      while |jobs| > MAX_JOBS
        invariant jobs != [] && TrimAll(jobs) == TrimAll(old(jobs))
        decreases |jobs|
      {
        var i := FindOldestDone(jobs, None);
        if i == |jobs| {
          jobs := DropLast(jobs);
          return false;
        }
        jobs := Minus(jobs, i);
      }
      ok := true;
    }

    /** Adds a job, evicting what the limits demand, or is refused. */
    method CreateJob(id: int, owner: int) returns (created: bool)
      modifies this
      ensures Create(old(jobs), id, owner) == if created then Created(jobs) else Refused(jobs)
    {
      jobs := jobs + [Job(id, owner, false)];
      created := TrimOwned(owner);
      if created {
        created := TrimTotal();
      }
    }

    /** A foreign job answers exactly like a missing one. */
    method Get(id: int, owner: int) returns (job: Option<Job>)
      ensures job == var i := Position(jobs, id);
                     if i < |jobs| && jobs[i].owner == owner then Some(jobs[i]) else None
    {
      var i := IndexOf(id);
      job := if i < |jobs| && jobs[i].owner == owner then Some(jobs[i]) else None;
    }

    method DiscardJob(id: int)
      modifies this
      ensures jobs == Discard(old(jobs), id)
    {
      var i := IndexOf(id);
      if i < |jobs| {
        jobs := Minus(jobs, i);
      }
    }

    method IndexOf(id: int) returns (i: nat)
      ensures i == Position(jobs, id)
    {
      i := 0;
      while i < |jobs| && jobs[i].id != id
        invariant i <= |jobs| && forall j :: 0 <= j < i ==> jobs[j].id != id
      {
        i := i + 1;
      }
    }
  }

}

/** Every reachable store, and every interleaving of streams with emissions. */
module JobProofs {
  import opened Wrappers
  import opened Jobs

  // ---- Capacity ----

  datatype StoreStep = CreateStep(id: int, owner: int) | FinishStep(index: nat) | DiscardStep(id: int)

  predicate StoreEnabled(s: seq<Job>, step: StoreStep) {
    match step
    case CreateStep(id, _) => forall j :: j in s ==> j.id != id
    case FinishStep(index) => index < |s|
    case DiscardStep(_) => true
  }

  function StoreNext(s: seq<Job>, step: StoreStep): seq<Job>
    requires StoreEnabled(s, step)
  {
    match step
    case CreateStep(id, owner) => Create(s, id, owner).store
    case FinishStep(index) => s[index := s[index].(done := true)]
    case DiscardStep(id) => Discard(s, id)
  }

  function StoreAfter(steps: seq<StoreStep>): Option<seq<Job>> {
    if steps == [] then Some([])
    else
      match StoreAfter(steps[..|steps| - 1])
      case None => None
      case Some(s) =>
        if StoreEnabled(s, steps[|steps| - 1]) then Some(StoreNext(s, steps[|steps| - 1])) else None
  }

  ghost predicate WithinLimits(s: seq<Job>) {
    |s| <= 100 && forall owner :: CountOwned(s, owner) <= 10
  }

  predicate DistinctIds(s: seq<Job>) {
    forall i, j :: 0 <= i < j < |s| ==> s[i].id != s[j].id
  }

  lemma {:induction false} CountSplit(a: seq<Job>, b: seq<Job>, owner: int)
    ensures CountOwned(a + b, owner) == CountOwned(a, owner) + CountOwned(b, owner)
  {
    if b == [] {
      assert a + b == a;
    } else {
      assert (a + b)[..|a + b| - 1] == a + b[..|b| - 1];
      CountSplit(a, b[..|b| - 1], owner);
    }
  }

  lemma CountMinus(s: seq<Job>, i: nat, owner: int)
    requires i < |s|
    ensures CountOwned(Minus(s, i), owner) == CountOwned(s, owner) - if s[i].owner == owner then 1 else 0
  {
    assert s == s[..i] + ([s[i]] + s[i + 1..]);
    CountSplit(s[..i], [s[i]] + s[i + 1..], owner);
    CountSplit([s[i]], s[i + 1..], owner);
    CountSplit(s[..i], s[i + 1..], owner);
    assert CountOwned([s[i]], owner) == if s[i].owner == owner then 1 else 0 by {
      assert [s[i]][..0] == [];
    }
  }

  lemma CountSnoc(s: seq<Job>, job: Job, owner: int)
    ensures CountOwned(s + [job], owner) == CountOwned(s, owner) + if job.owner == owner then 1 else 0
  {
    assert (s + [job])[..|s|] == s;
  }

  /** Finishing a job changes no count. */
  lemma {:induction false} CountSameOwners(s: seq<Job>, t: seq<Job>, owner: int)
    requires |s| == |t| && forall i :: 0 <= i < |s| ==> s[i].owner == t[i].owner
    ensures CountOwned(s, owner) == CountOwned(t, owner)
  {
    if s != [] {
      CountSameOwners(s[..|s| - 1], t[..|t| - 1], owner);
    }
  }

  /** Whose jobs may be evicted: the creator's at their own limit, else anyone's. */
  function Scope(s: seq<Job>, owner: int): Option<int> {
    if CountOwned(s, owner) == MAX_JOBS_PER_OWNER then Some(owner) else None
  }

  predicate Full(s: seq<Job>, owner: int) {
    CountOwned(s, owner) == MAX_JOBS_PER_OWNER || |s| == MAX_JOBS
  }

  lemma OldestDoneSnoc(s: seq<Job>, job: Job, only: Option<int>)
    requires !job.done
    ensures OldestDone(s + [job], only) == if OldestDone(s, only) < |s| then OldestDone(s, only) else |s| + 1
  {
    var v := OldestDone(s, only);
    OldestDoneIs(s + [job], only, if v < |s| then v else |s| + 1);
  }

  /** What one overfull trimming of `s + [job]` comes to. */
  function OneOut(s: seq<Job>, job: Job, only: Option<int>): CreateResult {
    var v := OldestDone(s, only);
    if v < |s| then Created(Minus(s, v) + [job]) else Refused(s)
  }

  lemma MinusSnoc(s: seq<Job>, job: Job, v: nat)
    ensures DropLast(s + [job]) == s
    ensures v < |s| ==> Minus(s + [job], v) == Minus(s, v) + [job]
  {
  }

  lemma TrimOwnerOnce(s: seq<Job>, job: Job)
    requires CountOwned(s, job.owner) <= MAX_JOBS_PER_OWNER && !job.done
    ensures TrimOwner(s + [job], job.owner) ==
            if CountOwned(s, job.owner) < MAX_JOBS_PER_OWNER then Created(s + [job]) else OneOut(s, job, Some(job.owner))
  {
    var t, v := s + [job], OldestDone(s, Some(job.owner));
    CountSnoc(s, job, job.owner);
    OldestDoneSnoc(s, job, Some(job.owner));
    MinusSnoc(s, job, v);
    if v < |s| {
      assert t[v] == s[v];
      CountMinus(t, v, job.owner);
      assert CountOwned(t, job.owner) > MAX_JOBS_PER_OWNER ==>
             TrimOwner(Minus(t, v), job.owner) == Created(Minus(t, v));
    }
  }

  lemma TrimAllOnce(s: seq<Job>, job: Job)
    requires |s| <= MAX_JOBS && !job.done
    ensures TrimAll(s + [job]) == if |s| < MAX_JOBS then Created(s + [job]) else OneOut(s, job, None)
  {
    var t, v := s + [job], OldestDone(s, None);
    OldestDoneSnoc(s, job, None);
    MinusSnoc(s, job, v);
    if v < |s| && |s| == MAX_JOBS {
      assert TrimAll(Minus(t, v)) == Created(Minus(t, v));
    }
  }

  /** What creating a job does to a store within its limits: it is added; when
      full, the oldest finished job in scope makes room; when there is none,
      the request is refused and the store is exactly as it was. */
  lemma CreateMeans(s: seq<Job>, id: int, owner: int)
    requires WithinLimits(s)
    ensures Create(s, id, owner) ==
            if Full(s, owner) then OneOut(s, Job(id, owner, false), Scope(s, owner))
            else Created(s + [Job(id, owner, false)])
  {
    var job := Job(id, owner, false);
    assert CountOwned(s, owner) <= MAX_JOBS_PER_OWNER;
    TrimOwnerOnce(s, job);
    TrimAllOnce(s, job);
  }

  lemma CreateKeepsLimits(s: seq<Job>, id: int, owner: int)
    requires WithinLimits(s)
    ensures WithinLimits(Create(s, id, owner).store)
  {
    CreateMeans(s, id, owner);
    var job := Job(id, owner, false);
    var v := OldestDone(s, Scope(s, owner));
    forall o ensures CountOwned(Create(s, id, owner).store, o) <= MAX_JOBS_PER_OWNER {
      assert CountOwned(s, o) <= MAX_JOBS_PER_OWNER && CountOwned(s, owner) <= MAX_JOBS_PER_OWNER;
      CountSnoc(s, job, o);
      if v < |s| {
        CountMinus(s, v, o);
        CountMinus(s, v, owner);
        CountSnoc(Minus(s, v), job, o);
      }
    }
  }

  /** Every reachable store holds at most ten jobs an owner and a hundred. */
  lemma {:induction false} JobCapacity(steps: seq<StoreStep>)
    requires StoreAfter(steps).Some?
    ensures WithinLimits(StoreAfter(steps).value)
  {
    if steps != [] {
      JobCapacity(steps[..|steps| - 1]);
      var s := StoreAfter(steps[..|steps| - 1]).value;
      match steps[|steps| - 1]
      case CreateStep(id, owner) => CreateKeepsLimits(s, id, owner);
      case FinishStep(index) =>
        var t := s[index := s[index].(done := true)];
        forall o ensures CountOwned(t, o) <= MAX_JOBS_PER_OWNER {
          CountSameOwners(s, t, o);
        }
      case DiscardStep(id) =>
        var i := Position(s, id);
        if i < |s| {
          forall o ensures CountOwned(Minus(s, i), o) <= MAX_JOBS_PER_OWNER {
            CountMinus(s, i, o);
          }
        }
    }
  }

  /** So over every run: a creation evicts at most one job, a finished one and
      the oldest in scope, and a refusal changes nothing. */
  lemma CreateEvictsAtMostOne(steps: seq<StoreStep>, id: int, owner: int)
    requires StoreAfter(steps).Some?
    ensures var s := StoreAfter(steps).value;
            var r := Create(s, id, owner);
            && (r.Refused? ==> Full(s, owner) && r.store == s && forall j :: j in s ==> !InScope(s, j, owner))
            && (r.Created? ==>
                  || (!Full(s, owner) && r.store == s + [Job(id, owner, false)])
                  || (Full(s, owner) && exists v :: Replaces(s, r.store, v, id, owner)))
  {
    JobCapacity(steps);
    CreateMeans(StoreAfter(steps).value, id, owner);
    var s := StoreAfter(steps).value;
    forall j: Job ensures InScope(s, j, owner) <==> Evictable(j, Scope(s, owner)) {
    }
    var v := OldestDone(s, Scope(s, owner));
    if Full(s, owner) && v < |s| {
      assert Replaces(s, Create(s, id, owner).store, v, id, owner);
    }
  }

  /** The new job in for the first one in scope. */
  predicate Replaces(s: seq<Job>, s': seq<Job>, v: nat, id: int, owner: int) {
    && v < |s| && InScope(s, s[v], owner) && (forall j :: 0 <= j < v ==> !InScope(s, s[j], owner))
    && s' == s[..v] + s[v + 1..] + [Job(id, owner, false)]
  }

  /** A finished job, of the creator when that is who has too many. */
  predicate InScope(s: seq<Job>, j: Job, owner: int) {
    j.done && (CountOwned(s, owner) == 10 ==> j.owner == owner)
  }

  lemma CreateKeepsIds(s: seq<Job>, id: int, owner: int)
    requires WithinLimits(s) && DistinctIds(s) && forall j :: j in s ==> j.id != id
    ensures DistinctIds(Create(s, id, owner).store)
  {
    CreateMeans(s, id, owner);
    var v, job := OldestDone(s, Scope(s, owner)), Job(id, owner, false);
    if v < |s| {
      MinusKeepsIds(s, v);
      SnocKeepsIds(Minus(s, v), job);
    }
    SnocKeepsIds(s, job);
  }

  lemma SnocKeepsIds(s: seq<Job>, job: Job)
    requires DistinctIds(s) && forall j :: j in s ==> j.id != job.id
    ensures DistinctIds(s + [job])
  {
    assert forall i :: 0 <= i < |s| ==> s[i] in s;
  }

  lemma MinusKeepsIds(s: seq<Job>, v: nat)
    requires DistinctIds(s) && v < |s|
    ensures DistinctIds(Minus(s, v))
    ensures forall j :: j in Minus(s, v) ==> j in s && j.id != s[v].id
  {
    forall j | j in Minus(s, v) ensures j in s && j.id != s[v].id {
      var i :| 0 <= i < |s| - 1 && Minus(s, v)[i] == j;
      assert j == if i < v then s[i] else s[i + 1];
    }
  }

  lemma {:induction false} IdsAreDistinct(steps: seq<StoreStep>)
    requires StoreAfter(steps).Some?
    ensures DistinctIds(StoreAfter(steps).value)
  {
    if steps != [] {
      IdsAreDistinct(steps[..|steps| - 1]);
      JobCapacity(steps[..|steps| - 1]);
      var s := StoreAfter(steps[..|steps| - 1]).value;
      match steps[|steps| - 1]
      case CreateStep(id, owner) => CreateKeepsIds(s, id, owner);
      case FinishStep(_) =>
      case DiscardStep(id) => if Position(s, id) < |s| { MinusKeepsIds(s, Position(s, id)); }
    }
  }

  lemma PositionIs(s: seq<Job>, v: nat)
    requires DistinctIds(s) && v < |s|
    ensures Position(s, s[v].id) == v
  {
    var i := Position(s, s[v].id);
    assert i <= v;
  }

  lemma NoPosition(s: seq<Job>, id: int)
    requires Position(s, id) < |s|
    ensures exists j :: j in s && j.id == id
  {
    assert s[Position(s, id)] in s;
  }

  /** Over every run discarding takes the job with that id and no other, and
      leaves the rest in order. */
  lemma DiscardTakesOne(steps: seq<StoreStep>, v: nat, id: int)
    requires StoreAfter(steps).Some?
    ensures var s := StoreAfter(steps).value;
            && (v < |s| && s[v].id == id ==>
                  && Discard(s, id) == s[..v] + s[v + 1..] && forall j :: j in Discard(s, id) ==> j.id != id)
            && ((forall j :: j in s ==> j.id != id) ==> Discard(s, id) == s)
  {
    IdsAreDistinct(steps);
    var s := StoreAfter(steps).value;
    if v < |s| && s[v].id == id {
      PositionIs(s, v);
      MinusKeepsIds(s, v);
    }
    if Position(s, id) < |s| {
      NoPosition(s, id);
    }
  }

  // ---- Streams ----

  /** A job, and what each stream over it has yielded so far. */
  datatype System = System(job: JobState, yielded: seq<seq<Event>>)

  datatype Step =
    | EmitStep(event: Event)
    | FinishJobStep
    | OpenStep
    | ResumeStep(k: nat)
    | AbandonStep(k: nat)

  const INITIAL := System(JobState(Running, [], false, []), [])

  predicate Enabled(s: System, step: Step) {
    match step
    case ResumeStep(k) => k < |s.job.streams| && k < |s.yielded| && CanRun(s.job.streams[k])
    case AbandonStep(k) => k < |s.job.streams|
    case _ => true
  }

  function Next(s: System, step: Step): System
    requires Enabled(s, step)
  {
    match step
    case EmitStep(e) => s.(job := Emit(s.job, e))
    case FinishJobStep => s.(job := Finish(s.job))
    case OpenStep =>
      System(s.job.(streams := s.job.streams + [Stream(0, Yielded)]), s.yielded + [[]])
    case ResumeStep(k) =>
      var (job, out) := Resume(s.job, k);
      System(job, if out.Some? then s.yielded[k := s.yielded[k] + [out.value]] else s.yielded)
    case AbandonStep(k) =>
      s.(job := s.job.(streams := s.job.streams[k := s.job.streams[k].(frame := Abandoned)]))
  }

  function After(steps: seq<Step>): Option<System> {
    if steps == [] then Some(INITIAL)
    else
      match After(steps[..|steps| - 1])
      case None => None
      case Some(s) => if Enabled(s, steps[|steps| - 1]) then Some(Next(s, steps[|steps| - 1])) else None
  }

  /** The events of a run, from what happened alone. */
  function Emitted(steps: seq<Step>): seq<Event> {
    if steps == [] then []
    else
      Emitted(steps[..|steps| - 1]) +
      match steps[|steps| - 1]
      case EmitStep(e) => [e]
      case FinishJobStep => [Event("done", "done")]
      case _ => []
  }

  /** The job's history is what was emitted, and its status says whether it
      was finished. */
  lemma {:induction false} HistoryIsEmitted(steps: seq<Step>)
    requires After(steps).Some?
    ensures After(steps).value.job.events == Emitted(steps)
    ensures After(steps).value.job.status == Done <==> FinishJobStep in steps
  {
    if steps != [] {
      HistoryIsEmitted(steps[..|steps| - 1]);
      assert steps == steps[..|steps| - 1] + [steps[|steps| - 1]];
    }
  }

  predicate NoDone(events: seq<Event>) {
    forall i :: 0 <= i < |events| ==> events[i].name != "done"
  }

  predicate StreamRight(events: seq<Event>, s: Stream, yielded: seq<Event>) {
    && s.index <= |events| && yielded == events[..s.index]
    && (s.frame.Yielded? || s.frame.Asleep? ==> NoDone(yielded))
    && (s.frame == Asleep(false) ==> s.index == |events|)
    && (s.frame.YieldedDone? || s.frame.Ended? ==>
          && s.index > 0 && events[s.index - 1].name == "done" && NoDone(yielded[..s.index - 1]))
    && (s.frame.Abandoned? ==> s.index == 0 || NoDone(yielded[..s.index - 1]))
  }

  predicate Inv(s: System) {
    && |s.yielded| == |s.job.streams|
    && (s.job.status == Done ==> !NoDone(s.job.events))
    && (forall k :: 0 <= k < |s.yielded| ==> StreamRight(s.job.events, s.job.streams[k], s.yielded[k]))
  }

  lemma EmitKeeps(s: System, e: Event)
    requires Inv(s)
    ensures Inv(s.(job := Emit(s.job, e)))
  {
    var j := Emit(s.job, e);
    forall k | 0 <= k < |s.yielded| ensures StreamRight(j.events, j.streams[k], s.yielded[k]) {
      assert StreamRight(s.job.events, s.job.streams[k], s.yielded[k]);
      assert j.events[..s.job.streams[k].index] == s.job.events[..s.job.streams[k].index];
    }
    if !NoDone(s.job.events) {
      var i :| 0 <= i < |s.job.events| && s.job.events[i].name == "done";
      assert j.events[i] == s.job.events[i];
    }
  }

  lemma ResumeKeeps(s: System, k: nat)
    requires Inv(s) && Enabled(s, ResumeStep(k))
    ensures Inv(Next(s, ResumeStep(k)))
  {
    var s' := Next(s, ResumeStep(k));
    assert StreamRight(s.job.events, s.job.streams[k], s.yielded[k]);
    var i := s.job.streams[k].index;
    if i < |s.job.events| {
      assert s.job.events[..i + 1] == s.job.events[..i] + [s.job.events[i]];
      assert s.job.events[..i + 1][..i] == s.job.events[..i];
    }
    forall n | 0 <= n < |s'.yielded| ensures StreamRight(s'.job.events, s'.job.streams[n], s'.yielded[n]) {
      assert StreamRight(s.job.events, s.job.streams[n], s.yielded[n]);
    }
  }

  lemma StepKeeps(s: System, step: Step)
    requires Inv(s) && Enabled(s, step)
    ensures Inv(Next(s, step))
  {
    match step
    case EmitStep(e) => EmitKeeps(s, e);
    case FinishJobStep =>
      var e := Event("done", "done");
      EmitKeeps(s, e);
      assert Emit(s.job, e).events[|s.job.events|] == e;
    case ResumeStep(k) => ResumeKeeps(s, k);
    case AbandonStep(k) => assert StreamRight(s.job.events, s.job.streams[k], s.yielded[k]);
    case OpenStep =>
  }

  lemma {:induction false} RunKeeps(steps: seq<Step>)
    requires After(steps).Some?
    ensures Inv(After(steps).value)
  {
    if steps != [] {
      RunKeeps(steps[..|steps| - 1]);
      StepKeeps(After(steps[..|steps| - 1]).value, steps[|steps| - 1]);
    }
  }

  /** Whatever the interleaving, each stream has yielded exactly the first of
      the events that were emitted, and none sleeps un-woken with any unread. */
  lemma StreamReplay(steps: seq<Step>, k: nat)
    requires After(steps).Some? && k < |After(steps).value.yielded|
    ensures var s, emitted := After(steps).value, Emitted(steps);
            && k < |s.job.streams| && s.job.streams[k].index <= |emitted|
            && s.yielded[k] == emitted[..s.job.streams[k].index]
            && (s.job.streams[k].frame == Asleep(false) ==> s.yielded[k] == emitted)
  {
    RunKeeps(steps);
    HistoryIsEmitted(steps);
    var s := After(steps).value;
    assert StreamRight(s.job.events, s.job.streams[k], s.yielded[k]);
  }

  predicate FirstDoneAt(events: seq<Event>, d: nat) {
    d < |events| && events[d].name == "done" && NoDone(events[..d])
  }

  predicate Unabandoned(s: System, k: nat) {
    k < |s.job.streams| && !s.job.streams[k].frame.Abandoned?
  }

  /** How many more resumptions a stream needs once the job is done. */
  function Remaining(s: Stream, d: nat): int {
    d + 1 - s.index + if s.frame.Ended? then 0 else 1
  }

  lemma NeverPastDone(events: seq<Event>, s: Stream, yielded: seq<Event>, d: nat)
    requires StreamRight(events, s, yielded) && !s.frame.Abandoned? && FirstDoneAt(events, d)
    ensures s.index <= d + 1
    ensures s.frame.YieldedDone? || s.frame.Ended? <==> s.index == d + 1
    ensures s.frame != Asleep(false)
  {
    var read := if s.frame.YieldedDone? || s.frame.Ended? then s.index - 1 else s.index;
    assert NoDone(yielded[..read]);
    assert forall i :: 0 <= i < read ==> events[i] == yielded[..read][i];
    assert forall i :: 0 <= i < d ==> events[i] == events[..d][i];
  }

  /** After the first `done` that was emitted, a stream never passes it, has ended exactly when
      it has yielded everything up to it and returned, and until then it can
      run: no stream is left asleep. */
  lemma DoneStopsEveryStream(steps: seq<Step>, k: nat, d: nat)
    requires After(steps).Some? && k < |After(steps).value.yielded|
    requires FirstDoneAt(Emitted(steps), d)
    requires Unabandoned(After(steps).value, k)
    ensures var s := After(steps).value;
            var stream := s.job.streams[k];
            && 0 <= Remaining(stream, d) && stream.index <= d + 1
            && (stream.frame.Ended? <==> Remaining(stream, d) == 0)
            && (stream.frame.Ended? ==> s.yielded[k] == Emitted(steps)[..d + 1])
            && (!stream.frame.Ended? ==> Enabled(s, ResumeStep(k)))
  {
    RunKeeps(steps);
    HistoryIsEmitted(steps);
    var s := After(steps).value;
    assert StreamRight(s.job.events, s.job.streams[k], s.yielded[k]);
    NeverPastDone(s.job.events, s.job.streams[k], s.yielded[k], d);
  }

  /** Each resumption of a stream then brings its end one step nearer, and
      nothing else that happens pushes it away. */
  lemma DoneIsReached(steps: seq<Step>, step: Step, k: nat, d: nat)
    requires After(steps).Some? && Enabled(After(steps).value, step)
    requires k < |After(steps).value.yielded| && FirstDoneAt(Emitted(steps), d)
    requires Unabandoned(After(steps).value, k) && step != AbandonStep(k)
    ensures var s, s' := After(steps).value, Next(After(steps).value, step);
            && k < |s'.job.streams| && FirstDoneAt(s'.job.events, d)
            && Remaining(s'.job.streams[k], d)
               == Remaining(s.job.streams[k], d) - if step == ResumeStep(k) then 1 else 0
  {
    RunKeeps(steps);
    HistoryIsEmitted(steps);
    var s := After(steps).value;
    assert StreamRight(s.job.events, s.job.streams[k], s.yielded[k]);
    NeverPastDone(s.job.events, s.job.streams[k], s.yielded[k], d);
    assert Next(s, step).job.events[..d] == s.job.events[..d];
  }
}
