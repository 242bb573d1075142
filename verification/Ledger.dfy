/** Calendar-aligned UTC windows. Moments are microseconds since 1970-01-01;
    the ledger stores whole seconds. */
module Calendar {
  datatype Window = Hour | Day | Week | Month

  function Seconds(moment: nat): nat {
    moment / 1000000
  }

  function DayOf(seconds: nat): nat {
    seconds / 86400
  }

  /** 1970-01-01 was a Thursday; Monday is 0. */
  function Weekday(day: nat): nat {
    (day + 3) % 7
  }

  predicate LeapYear(year: nat) {
    year % 4 == 0 && (year % 100 != 0 || year % 400 == 0)
  }

  /** Months are counted from January 1970. */
  function DaysIn(month: nat): nat {
    var m := month % 12;
    if m == 1 then (if LeapYear(1970 + month / 12) then 29 else 28)
    else if m == 3 || m == 5 || m == 8 || m == 10 then 30
    else 31
  }

  function FirstDay(month: nat): nat {
    if month == 0 then 0 else FirstDay(month - 1) + DaysIn(month - 1)
  }

  function MonthFrom(day: nat, month: nat): (m: nat)
    requires FirstDay(month) <= day
    ensures FirstDay(m) <= day < FirstDay(m + 1)
    decreases day - FirstDay(month)
  {
    if day < FirstDay(month + 1) then month else MonthFrom(day, month + 1)
  }

  /** The window of a given kind that contains a second begins here. */
  function WindowStart(seconds: nat, w: Window): nat {
    var day := DayOf(seconds);
    match w
    case Hour => seconds - seconds % 3600
    case Day => day * 86400
    case Week => WeekStart(day) * 86400
    case Month => FirstDay(MonthFrom(day, 0)) * 86400
  }

  // The Monday of the first week falls before 1970; the epoch stands in for it.
  function WeekStart(day: nat): nat {
    if day < Weekday(day) then 0 else day - Weekday(day)
  }

  lemma {:induction false} FirstDayMonotone(m1: nat, m2: nat)
    requires m1 < m2
    ensures FirstDay(m1) < FirstDay(m2)
  {
    if m1 + 1 < m2 {
      FirstDayMonotone(m1, m2 - 1);
    }
  }

  lemma MonthUnique(day: nat, m: nat)
    requires FirstDay(m) <= day < FirstDay(m + 1)
    ensures MonthFrom(day, 0) == m
  {
    var found := MonthFrom(day, 0);
    if found < m {
      if found + 1 < m { FirstDayMonotone(found + 1, m); }
    } else if m < found {
      if m + 1 < found { FirstDayMonotone(m + 1, found); }
    }
  }

  /** Hours and days begin at whole hours and midnights, weeks on Mondays (day 4
      was one) and months on their first day, and each window has its length. */
  lemma WindowsAreAligned(seconds: nat, w: Window)
    ensures var start := WindowStart(seconds, w);
            match w
            case Hour => start % 3600 == 0 && start <= seconds < start + 3600
            case Day => start % 86400 == 0 && start <= seconds < start + 86400
            case Week =>
              DayOf(seconds) >= 4 ==> exists monday: nat :: monday % 7 == 4 && Spans(start, seconds, monday, monday + 7)
            case Month => exists month: nat :: Spans(start, seconds, FirstDay(month), FirstDay(month + 1))
  {
    var day := DayOf(seconds);
    DayBounds(seconds);
    match w
    case Hour =>
    case Day =>
    case Week =>
      if day >= 4 {
        WeekBeginsOnMonday(day);
        DaysSpan(seconds, WeekStart(day), WeekStart(day) + 7);
      }
    case Month =>
      var month := MonthFrom(day, 0);
      DaysSpan(seconds, FirstDay(month), FirstDay(month + 1));
  }

  /** The window begins with its first day and the second is in it. */
  predicate Spans(start: nat, seconds: nat, first: nat, next: nat) {
    start == first * 86400 && start <= seconds < next * 86400
  }

  lemma DaysSpan(seconds: nat, first: nat, next: nat)
    requires first <= DayOf(seconds) < next
    ensures Spans(first * 86400, seconds, first, next)
  {
    DayBounds(seconds);
  }

  lemma WeekBeginsOnMonday(day: nat)
    requires day >= 4
    ensures WeekStart(day) % 7 == 4 && WeekStart(day) <= day < WeekStart(day) + 7
  {
    var w := (day + 3) / 7;
    assert day + 3 == w * 7 + Weekday(day) && WeekStart(day) == (w - 1) * 7 + 4;
  }

  /** Days of a common year before each month, and in all of them. */
  const BEFORE_MONTH: seq<nat> := [0, 31, 59, 90, 120, 151, 181, 212, 243, 273, 304, 334, 365]

  /** Months and years are as long as the Gregorian calendar has them. */
  lemma {:induction false} MonthsAreGregorian(n: nat, m: nat)
    requires m <= 12
    ensures var year := 1970 + n;
            FirstDay(12 * n + m) == FirstDay(12 * n) + BEFORE_MONTH[m]
              + if m >= 2 && year % 4 == 0 && (year % 100 != 0 || year % 400 == 0) then 1 else 0
  {
    if m > 0 {
      MonthsAreGregorian(n, m - 1);
      MonthPlace(n, m - 1);
    }
  }

  lemma MonthPlace(n: nat, m: nat)
    requires m < 12
    ensures (12 * n + m) % 12 == m && (12 * n + m) / 12 == n
  {
  }

  lemma DayBounds(seconds: nat)
    ensures DayOf(seconds) * 86400 <= seconds < DayOf(seconds) * 86400 + 86400
  {
  }

  /** A second lies in its own window, and an earlier second reaches the start
      of the current window exactly when it lies in the same window. */
  lemma SameWindow(earlier: nat, now: nat, w: Window)
    requires earlier <= now
    ensures WindowStart(now, w) <= now
    ensures earlier >= WindowStart(now, w) <==> WindowStart(earlier, w) == WindowStart(now, w)
  {
    DayBounds(earlier);
    DayBounds(now);
    var d1, d2 := DayOf(earlier), DayOf(now);
    assert d1 <= d2;
    match w
    case Hour => HourWindows(earlier, now);
    case Day =>
    case Week => WeekWindows(d1, d2);
    case Month => MonthWindows(d1, d2);
  }

  lemma HourWindows(earlier: nat, now: nat)
    requires earlier <= now
    ensures earlier >= now - now % 3600 <==> earlier - earlier % 3600 == now - now % 3600
  {
    var h1, h2 := earlier / 3600, now / 3600;
    assert earlier == h1 * 3600 + earlier % 3600 && now == h2 * 3600 + now % 3600;
  }

  lemma WeekWindows(d1: nat, d2: nat)
    requires d1 <= d2
    ensures WeekStart(d2) <= d2
    ensures d1 >= WeekStart(d2) <==> WeekStart(d1) == WeekStart(d2)
  {
    var w1, w2 := (d1 + 3) / 7, (d2 + 3) / 7;
    assert d1 + 3 == w1 * 7 + Weekday(d1) && d2 + 3 == w2 * 7 + Weekday(d2);
  }

  lemma MonthWindows(d1: nat, d2: nat)
    requires d1 <= d2
    ensures d1 >= FirstDay(MonthFrom(d2, 0)) <==> FirstDay(MonthFrom(d1, 0)) == FirstDay(MonthFrom(d2, 0))
  {
    var m2 := MonthFrom(d2, 0);
    if d1 >= FirstDay(m2) {
      MonthUnique(d1, m2);
    }
  }
}

/** The LLM usage ledger: reservation, settlement and sweeps over its rows. */
module Ledger {
  import opened Wrappers
  import opened Credits
  import opened Calendar

  datatype Status = Started | Completed | Failed | Cancelled | Abandoned
  datatype Outcome = RunCompleted | RunFailed | RunCancelled

  // A row's id is its position; rows are never deleted.
  datatype Row = Row(
    userId: int, day: nat, createdAt: nat, status: Status,
    provider: string, model: string, source: string, textChars: nat,
    inputTokens: Option<int>, outputTokens: Option<int>,
    failStage: Option<string>, credits: Option<nat>)

  datatype TierLimits = TierLimits(
    concurrentRuns: nat, perHour: Option<nat>, perDay: Option<nat>, perWeek: Option<nat>, perMonth: Option<nat>)
  datatype ServerLimits = ServerLimits(maxConcurrentRuns: nat, runMaxAge: nat)

  datatype Request = Request(userId: int, provider: string, model: string, source: string, textChars: nat)

  datatype Decision =
    | Admitted(id: nat)
    | QuotaExhausted(window: Window)
    | ConcurrencyRejected(serverWide: bool)

  function StatusOf(o: Outcome): Status {
    match o case RunCompleted => Completed case RunFailed => Failed case RunCancelled => Cancelled
  }

  function CreditWindows(l: TierLimits): seq<(Window, nat)> {
    (if l.perHour.Some? then [(Hour, l.perHour.value)] else [])
    + (if l.perDay.Some? then [(Day, l.perDay.value)] else [])
    + (if l.perWeek.Some? then [(Week, l.perWeek.value)] else [])
    + (if l.perMonth.Some? then [(Month, l.perMonth.value)] else [])
  }

  // ---- Sums over the ledger ----

  function Total(rows: seq<Row>, measure: Row -> nat): nat {
    if rows == [] then 0 else Total(rows[..|rows| - 1], measure) + measure(rows[|rows| - 1])
  }

  /** Where the rows of a kind stand. */
  function Places(rows: seq<Row>, kind: Row -> bool): set<nat> {
    set i: nat | i < |rows| && kind(rows[i])
  }

  lemma PlacesNext(rows: seq<Row>, kind: Row -> bool)
    requires rows != []
    ensures var n := |rows| - 1;
            Places(rows, kind) == Places(rows[..n], kind) + if kind(rows[n]) then {n} else {}
  {
  }

  lemma {:induction false} TotalCounts(rows: seq<Row>, measure: Row -> nat, kind: Row -> bool)
    requires forall row :: measure(row) == if kind(row) then 1 else 0
    ensures Total(rows, measure) == |Places(rows, kind)|
  {
    if rows != [] {
      TotalCounts(rows[..|rows| - 1], measure, kind);
      PlacesNext(rows, kind);
    }
  }

  function CreditOf(row: Row): nat {
    if row.credits.Some? then row.credits.value else 0
  }

  /** How the reservation and credits_used select a window's rows. */
  predicate InWindow(row: Row, now: nat, w: Window) {
    if w.Day? then row.day == DayOf(now) else row.createdAt >= WindowStart(now, w)
  }

  function SpendMeasure(userId: int, now: nat, w: Window): Row -> nat {
    (row: Row) => if row.userId == userId && InWindow(row, now, w) then CreditOf(row) else 0
  }

  function Spent(rows: seq<Row>, userId: int, moment: nat, w: Window): nat {
    Total(rows, SpendMeasure(userId, Seconds(moment), w))
  }

  function UserFlight(userId: int): Row -> nat {
    (row: Row) => if row.status.Started? && row.userId == userId then 1 else 0
  }

  function ServerFlight(): Row -> nat {
    (row: Row) => if row.status.Started? then 1 else 0
  }

  // ---- The operations ----

  function SweepRow(row: Row, cutoff: int): Row {
    if row.status.Started? && row.createdAt < cutoff then row.(status := Abandoned) else row
  }

  function Sweep(rows: seq<Row>, cutoff: int): seq<Row> {
    seq(|rows|, i requires 0 <= i < |rows| => SweepRow(rows[i], cutoff))
  }

  function AbandonRow(row: Row): Row {
    if row.status.Started? then row.(status := Abandoned) else row
  }

  function AbandonAll(rows: seq<Row>): seq<Row> {
    seq(|rows|, i requires 0 <= i < |rows| => AbandonRow(rows[i]))
  }

  function Estimate(row: Row, c: Pricing): nat
    requires ValidPricing(c)
  {
    EstimateCost(row.source, row.provider, row.model, row.textChars, c)
  }

  function NewRow(r: Request, moment: nat, c: Pricing): Row
    requires ValidPricing(c)
  {
    Row(r.userId, DayOf(Seconds(moment)), Seconds(moment), Started, r.provider, r.model, r.source, r.textChars,
        None, None, None, Some(EstimateCost(r.source, r.provider, r.model, r.textChars, c)))
  }

  function Cutoff(moment: nat, server: ServerLimits): int {
    Seconds(moment) - server.runMaxAge
  }

  /** The rows as the reservation's counts see them: swept, with the new row. */
  function Inserted(rows: seq<Row>, r: Request, server: ServerLimits, moment: nat, c: Pricing): seq<Row>
    requires ValidPricing(c)
  {
    Sweep(rows, Cutoff(moment, server)) + [NewRow(r, moment, c)]
  }

  function FirstExhausted(rows: seq<Row>, userId: int, moment: nat, windows: seq<(Window, nat)>): Option<Window> {
    if windows == [] then None
    else if Spent(rows, userId, moment, windows[0].0) > windows[0].1 then Some(windows[0].0)
    else FirstExhausted(rows, userId, moment, windows[1..])
  }

  function Decide(all: seq<Row>, userId: int, limits: TierLimits, server: ServerLimits, moment: nat): Decision
    requires all != []
  {
    var exhausted := FirstExhausted(all, userId, moment, CreditWindows(limits));
    if exhausted.Some? then QuotaExhausted(exhausted.value)
    else if Total(all, UserFlight(userId)) > limits.concurrentRuns then ConcurrencyRejected(false)
    else if Total(all, ServerFlight()) > server.maxConcurrentRuns then ConcurrencyRejected(true)
    else Admitted(|all| - 1)
  }

  function Reserve(rows: seq<Row>, r: Request, limits: TierLimits, server: ServerLimits, moment: nat, c: Pricing)
    : (seq<Row>, Decision)
    requires ValidPricing(c)
  {
    var all := Inserted(rows, r, server, moment, c);
    var decision := Decide(all, r.userId, limits, server, moment);
    (if decision.Admitted? then all else rows, decision)
  }

  function SettledCredits(row: Row, o: Outcome, input: Option<int>, output: Option<int>, c: Pricing): Option<nat>
    requires ValidPricing(c)
  {
    if input.None? && output.None? then (if o.RunFailed? then Some(0) else row.credits)
    else if o.RunCancelled? then row.credits
    else
      Some(RunCost(row.source, row.provider, row.model,
                   if input.Some? then input.value else 0,
                   if output.Some? then output.value else 0, c))
  }

  datatype Settlement = Settlement(
    id: nat, outcome: Outcome, inputTokens: Option<int>, outputTokens: Option<int>,
    failStage: Option<string>, credits: Option<nat>)

  const FAIL_STAGES := {"request", "provider", "response"}

  predicate Open(rows: seq<Row>, id: nat) {
    id < |rows| && rows[id].status.Started?
  }

  function SettleRow(row: Row, p: Settlement): Row {
    row.(status := StatusOf(p.outcome), inputTokens := p.inputTokens, outputTokens := p.outputTokens,
         failStage := p.failStage, credits := p.credits)
  }

  /** finish_run's conditional write. */
  function WriteSettlement(rows: seq<Row>, p: Settlement): seq<Row> {
    if Open(rows, p.id) then rows[p.id := SettleRow(rows[p.id], p)] else rows
  }

  /** finish_run's read, with the credits it settles. */
  function ReadSettlement(rows: seq<Row>, id: nat, o: Outcome, input: Option<int>, output: Option<int>,
                          failStage: Option<string>, c: Pricing): Option<Settlement>
    requires ValidPricing(c)
  {
    if !Open(rows, id) then None
    else Some(Settlement(id, o, input, output, if o.RunFailed? then failStage else None,
                         SettledCredits(rows[id], o, input, output, c)))
  }

  class UsageStore {
    var rows: seq<Row>
    const creditCost: Pricing

    ghost predicate Valid() {
      ValidPricing(creditCost)
    }

    constructor (creditCost: Pricing)
      requires ValidPricing(creditCost)
      ensures Valid() && rows == [] && this.creditCost == creditCost
    {
      this.creditCost := creditCost;
      rows := [];
    }

    /** The transaction: sweep, insert, then checks that count the new row;
        committed only when all of them pass. */
    method ReserveLlmRun(r: Request, limits: TierLimits, server: ServerLimits, moment: nat)
      returns (decision: Decision)
      requires Valid()
      modifies this`rows
      ensures var outcome := Reserve(old(rows), r, limits, server, moment, creditCost);
              rows == outcome.0 && decision == outcome.1
    {
      var begun := rows;
      SweepStarted(Cutoff(moment, server));
      rows := rows + [NewRow(r, moment, creditCost)];
      var windows := CreditWindows(limits);
      for k := 0 to |windows|
        invariant rows == Inserted(begun, r, server, moment, creditCost)
        invariant FirstExhausted(rows, r.userId, moment, windows)
               == FirstExhausted(rows, r.userId, moment, windows[k..])
      {
        var (window, budget) := windows[k];
        var spent := SumSpent(r.userId, moment, window);
        if spent > budget {
          rows := begun;
          return QuotaExhausted(window);
        }
        assert windows[k..][1..] == windows[k + 1..];
      }
      var userInFlight := Count(UserFlight(r.userId));
      if userInFlight > limits.concurrentRuns {
        rows := begun;
        return ConcurrencyRejected(false);
      }
      var serverInFlight := Count(ServerFlight());
      if serverInFlight > server.maxConcurrentRuns {
        rows := begun;
        return ConcurrencyRejected(true);
      }
      decision := Admitted(|rows| - 1);
    }

    method SweepStarted(cutoff: int)
      modifies this`rows
      ensures rows == Sweep(old(rows), cutoff)
    {
      for i := 0 to |rows|
        invariant |rows| == |old(rows)|
        invariant forall k :: 0 <= k < i ==> rows[k] == SweepRow(old(rows)[k], cutoff)
        invariant forall k :: i <= k < |rows| ==> rows[k] == old(rows)[k]
      {
        if rows[i].status.Started? && rows[i].createdAt < cutoff {
          rows := rows[i := rows[i].(status := Abandoned)];
        }
      }
    }

    method Count(measure: Row -> nat) returns (n: nat)
      ensures n == Total(rows, measure)
    {
      n := 0;
      for i := 0 to |rows|
        invariant n == Total(rows[..i], measure)
      {
        n := n + measure(rows[i]);
        assert rows[..i + 1][..i] == rows[..i];
      }
      assert rows[..|rows|] == rows;
    }

    method SumSpent(userId: int, moment: nat, w: Window) returns (spent: nat)
      ensures spent == Spent(rows, userId, moment, w)
    {
      spent := Count(SpendMeasure(userId, Seconds(moment), w));
    }

    /** /me's figures: the same sums the reservation checks. */
    method CreditsUsed(userId: int, windows: seq<Window>, moment: nat) returns (used: map<Window, nat>)
      ensures used.Keys == set w | w in windows
      ensures forall w :: w in windows ==> used[w] == Spent(rows, userId, moment, w)
    {
      used := map[];
      for k := 0 to |windows|
        invariant used.Keys == set w | w in windows[..k]
        invariant forall w :: w in windows[..k] ==> used[w] == Spent(rows, userId, moment, w)
      {
        var spent := SumSpent(userId, moment, windows[k]);
        used := used[windows[k] := spent];
        assert windows[..k + 1] == windows[..k] + [windows[k]];
      }
      assert windows[..|windows|] == windows;
    }

    /** The read half of finish_run; an unknown fail stage is refused first. */
    method ReadForSettlement(id: nat, o: Outcome, input: Option<int>, output: Option<int>, failStage: Option<string>)
      returns (valid: bool, p: Option<Settlement>)
      requires Valid()
      ensures valid == !(o.RunFailed? && failStage.Some? && failStage.value !in {"request", "provider", "response"})
      ensures p == if valid then ReadSettlement(rows, id, o, input, output, failStage, creditCost) else None
    {
      var stage := if o.RunFailed? then failStage else None;
      if stage.Some? && stage.value !in FAIL_STAGES { return false, None; }
      if id >= |rows| || !rows[id].status.Started? { return true, None; }
      var credits := SettledCredits(rows[id], o, input, output, creditCost);
      return true, Some(Settlement(id, o, input, output, stage, credits));
    }

    /** The write half: conditional on the row still being started. */
    method WriteTerminal(p: Settlement) returns (written: bool)
      modifies this`rows
      ensures rows == WriteSettlement(old(rows), p) && written == Open(old(rows), p.id)
    {
      written := p.id < |rows| && rows[p.id].status.Started?;
      if written {
        rows := rows[p.id := SettleRow(rows[p.id], p)];
      }
    }

    method SweepAllStarted() returns (swept: nat)
      modifies this`rows
      ensures rows == AbandonAll(old(rows)) && swept == Total(old(rows), ServerFlight())
    {
      swept := Count(ServerFlight());
      for i := 0 to |rows|
        invariant |rows| == |old(rows)|
        invariant forall k :: 0 <= k < i ==> rows[k] == AbandonRow(old(rows)[k])
        invariant forall k :: i <= k < |rows| ==> rows[k] == old(rows)[k]
      {
        if rows[i].status.Started? {
          rows := rows[i := rows[i].(status := Abandoned)];
        }
      }
    }
  }
}
