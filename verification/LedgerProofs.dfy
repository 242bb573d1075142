/** Runs of the ledger: reservations, settlements whose read and write other
    steps may separate, and startup sweeps, under fixed limits. A reservation
    reads its moment before it takes the write lock, so moments come in any
    order. */
module LedgerProofs {
  import opened Wrappers
  import opened Credits
  import opened Calendar
  import opened Ledger

  datatype Config = Config(limits: int -> TierLimits, server: ServerLimits, pricing: Pricing)

  datatype State = State(rows: seq<Row>, pending: map<int, Settlement>)

  const EMPTY := State([], map[])

  datatype Step =
    | ReserveRun(request: Request, moment: nat)
    | ReadRun(task: int, id: nat, outcome: Outcome, input: Option<int>, output: Option<int>, stage: Option<string>)
    | WriteRun(task: int)
    | StartupSweep

  predicate Enabled(s: State, step: Step) {
    match step
    case ReserveRun(_, _) => true
    case ReadRun(task, _, _, _, _, _) => task !in s.pending
    case WriteRun(task) => task in s.pending
    case StartupSweep => true
  }

  /** An unknown fail stage is refused before anything is read. */
  predicate KnownStage(o: Outcome, stage: Option<string>) {
    o.RunFailed? && stage.Some? ==> stage.value in {"request", "provider", "response"}
  }

  function Next(cfg: Config, s: State, step: Step): State
    requires ValidPricing(cfg.pricing) && Enabled(s, step)
  {
    match step
    case ReserveRun(r, moment) =>
      s.(rows := Reserve(s.rows, r, cfg.limits(r.userId), cfg.server, moment, cfg.pricing).0)
    case ReadRun(task, id, o, input, output, stage) =>
      var p := ReadSettlement(s.rows, id, o, input, output, stage, cfg.pricing);
      if KnownStage(o, stage) && p.Some? then s.(pending := s.pending[task := p.value]) else s
    case WriteRun(task) =>
      s.(rows := WriteSettlement(s.rows, s.pending[task]), pending := s.pending - {task})
    case StartupSweep => s.(rows := AbandonAll(s.rows))
  }

  function RunFrom(cfg: Config, s: State, steps: seq<Step>): Option<State>
    requires ValidPricing(cfg.pricing)
  {
    if steps == [] then Some(s)
    else
      match RunFrom(cfg, s, steps[..|steps| - 1])
      case None => None
      case Some(s') =>
        if Enabled(s', steps[|steps| - 1]) then Some(Next(cfg, s', steps[|steps| - 1])) else None
  }

  // ---- What is promised ----

  /** What a configured budget is, and the order in which they are checked. */
  function BudgetOf(l: TierLimits, w: Window): Option<nat> {
    match w
    case Hour => l.perHour
    case Day => l.perDay
    case Week => l.perWeek
    case Month => l.perMonth
  }

  function WindowRank(w: Window): nat {
    match w case Hour => 0 case Day => 1 case Week => 2 case Month => 3
  }

  /** A row's credits, whatever its status. */
  function Charged(row: Row): nat {
    match row.credits case Some(n) => n case None => 0
  }

  predicate InInstance(row: Row, userId: int, w: Window, start: nat) {
    row.userId == userId && WindowStart(row.createdAt, w) == start
  }

  /** A user's credits in the calendar window of kind w that begins at start. */
  function InstanceCredits(userId: int, w: Window, start: nat): Row -> nat {
    (row: Row) => if InInstance(row, userId, w, start) then Charged(row) else 0
  }

  /** How far settlement exceeded the admission estimate. */
  function Overrun(row: Row, c: Pricing): nat
    requires ValidPricing(c)
  {
    if Charged(row) > Estimate(row, c) then Charged(row) - Estimate(row, c) else 0
  }

  function InstanceOverrun(userId: int, w: Window, start: nat, c: Pricing): Row -> nat
    requires ValidPricing(c)
  {
    (row: Row) => if InInstance(row, userId, w, start) then Overrun(row, c) else 0
  }

  ghost predicate WithinBudget(cfg: Config, rows: seq<Row>, userId: int, w: Window, budget: nat, start: nat)
    requires ValidPricing(cfg.pricing)
  {
    Total(rows, InstanceCredits(userId, w, start))
    <= budget + Total(rows, InstanceOverrun(userId, w, start, cfg.pricing))
  }

  ghost predicate Budgets(cfg: Config, rows: seq<Row>)
    requires ValidPricing(cfg.pricing)
  {
    forall u, w, start: nat :: BudgetOf(cfg.limits(u), w).Some? ==>
      WithinBudget(cfg, rows, u, w, BudgetOf(cfg.limits(u), w).value, start)
  }

  ghost predicate Caps(cfg: Config, rows: seq<Row>) {
    && (forall u :: Total(rows, UserFlight(u)) <= cfg.limits(u).concurrentRuns)
    && Total(rows, ServerFlight()) <= cfg.server.maxConcurrentRuns
  }

  predicate RowRight(row: Row, c: Pricing)
    requires ValidPricing(c)
  {
    row.day == DayOf(row.createdAt) && RowSettled(row, c)
  }

  function Tokens(count: Option<int>): int {
    if count.Some? then count.value else 0
  }

  /** What a row of each status is charged: the admission estimate while it runs
      and for good when it is abandoned or cancelled, or completes without token
      counts; nothing when it fails without any; else the price of its tokens. */
  predicate RowSettled(row: Row, c: Pricing)
    requires ValidPricing(c)
  {
    var estimate := EstimateCost(row.source, row.provider, row.model, row.textChars, c);
    var price := RunCost(row.source, row.provider, row.model, Tokens(row.inputTokens), Tokens(row.outputTokens), c);
    var counted := row.inputTokens.Some? || row.outputTokens.Some?;
    && (row.failStage.Some? ==> row.status == Failed && row.failStage.value in {"request", "provider", "response"})
    && match row.status
       case Started => !counted && row.credits == Some(estimate)
       case Abandoned => !counted && row.credits == Some(estimate)
       case Cancelled => row.credits == Some(estimate)
       case Completed => row.credits == Some(if counted then price else estimate)
       case Failed => row.credits == Some(if counted then price else 0)
  }

  ghost predicate RowsRight(rows: seq<Row>, c: Pricing)
    requires ValidPricing(c)
  {
    forall i :: 0 <= i < |rows| ==> RowRight(rows[i], c)
  }

  /** A settlement already read is still the one its row would get now. */
  predicate SettlementRight(rows: seq<Row>, p: Settlement, c: Pricing)
    requires ValidPricing(c)
  {
    && (p.failStage.Some? ==> p.outcome.RunFailed? && p.failStage.value in {"request", "provider", "response"})
    && (Open(rows, p.id) ==> p.credits == SettledCredits(rows[p.id], p.outcome, p.inputTokens, p.outputTokens, c))
  }

  ghost predicate Inv(cfg: Config, s: State) {
    && ValidPricing(cfg.pricing)
    && RowsRight(s.rows, cfg.pricing)
    && (forall t :: t in s.pending ==> s.pending[t].id < |s.rows| && SettlementRight(s.rows, s.pending[t], cfg.pricing))
    && Caps(cfg, s.rows)
    && Budgets(cfg, s.rows)
  }

  // ---- Sums ----

  lemma {:induction false} TotalCompare(rows: seq<Row>, rows': seq<Row>, f: Row -> nat, g: Row -> nat)
    requires |rows| == |rows'|
    requires forall i :: 0 <= i < |rows| ==> f(rows[i]) <= g(rows'[i])
    ensures Total(rows, f) <= Total(rows', g)
  {
    if rows != [] {
      var n := |rows| - 1;
      assert forall i :: 0 <= i < n ==> rows[..n][i] == rows[i] && rows'[..n][i] == rows'[i];
      TotalCompare(rows[..n], rows'[..n], f, g);
    }
  }

  lemma TotalSame(rows: seq<Row>, rows': seq<Row>, f: Row -> nat, g: Row -> nat)
    requires |rows| == |rows'|
    requires forall i :: 0 <= i < |rows| ==> f(rows[i]) == g(rows'[i])
    ensures Total(rows, f) == Total(rows', g)
  {
    TotalCompare(rows, rows', f, g);
    TotalCompare(rows', rows, g, f);
  }

  lemma {:induction false} TotalUpdate(rows: seq<Row>, i: nat, row: Row, f: Row -> nat)
    requires i < |rows|
    ensures Total(rows[i := row], f) + f(rows[i]) == Total(rows, f) + f(row)
  {
    var n := |rows| - 1;
    if i < n {
      TotalUpdate(rows[..n], i, row, f);
      assert rows[i := row][..n] == rows[..n][i := row];
    } else {
      assert rows[i := row][..n] == rows[..n];
    }
  }

  // ---- Admission ----

  lemma {:induction false} FirstExhaustedMeans(rows: seq<Row>, userId: int, moment: nat, windows: seq<(Window, nat)>)
    ensures FirstExhausted(rows, userId, moment, windows).None? <==>
              forall k :: 0 <= k < |windows| ==> Spent(rows, userId, moment, windows[k].0) <= windows[k].1
    ensures FirstExhausted(rows, userId, moment, windows).Some? ==>
              exists k ::
                && 0 <= k < |windows| && windows[k].0 == FirstExhausted(rows, userId, moment, windows).value
                && Spent(rows, userId, moment, windows[k].0) > windows[k].1
                && forall j :: 0 <= j < k ==> Spent(rows, userId, moment, windows[j].0) <= windows[j].1
  {
    if windows != [] && Spent(rows, userId, moment, windows[0].0) <= windows[0].1 {
      var rest := windows[1..];
      FirstExhaustedMeans(rows, userId, moment, rest);
      assert forall j :: 0 < j < |windows| ==> windows[j] == rest[j - 1];
      if FirstExhausted(rows, userId, moment, rest).Some? {
        var k :|
          && 0 <= k < |rest| && rest[k].0 == FirstExhausted(rows, userId, moment, rest).value
          && Spent(rows, userId, moment, rest[k].0) > rest[k].1
          && forall j :: 0 <= j < k ==> Spent(rows, userId, moment, rest[j].0) <= rest[j].1;
        assert windows[k + 1] == rest[k];
      }
    }
  }

  lemma WindowsAreBudgets(l: TierLimits)
    ensures var ws := CreditWindows(l);
            && (forall k :: 0 <= k < |ws| ==> BudgetOf(l, ws[k].0) == Some(ws[k].1))
            && (forall w :: BudgetOf(l, w).Some? ==> exists k :: 0 <= k < |ws| && ws[k].0 == w)
            && (forall j, k :: 0 <= j < k < |ws| ==> WindowRank(ws[j].0) < WindowRank(ws[k].0))
  {
    var ws := CreditWindows(l);
    var h, d, w := if l.perHour.Some? then 1 else 0, if l.perDay.Some? then 1 else 0, if l.perWeek.Some? then 1 else 0;
    assert l.perHour.Some? ==> ws[0].0 == Hour;
    assert l.perDay.Some? ==> ws[h].0 == Day;
    assert l.perWeek.Some? ==> ws[h + d].0 == Week;
    assert l.perMonth.Some? ==> ws[h + d + w].0 == Month;
  }

  predicate WithinAll(rows: seq<Row>, userId: int, l: TierLimits, moment: nat) {
    forall w :: BudgetOf(l, w).Some? ==> Spent(rows, userId, moment, w) <= BudgetOf(l, w).value
  }

  /** The first configured window, hour to month, whose budget is exceeded. */
  predicate FirstOver(rows: seq<Row>, userId: int, l: TierLimits, moment: nat, over: Window) {
    && BudgetOf(l, over).Some? && Spent(rows, userId, moment, over) > BudgetOf(l, over).value
    && forall w :: WindowRank(w) < WindowRank(over) && BudgetOf(l, w).Some? ==>
         Spent(rows, userId, moment, w) <= BudgetOf(l, w).value
  }

  lemma FirstExhaustedIs(rows: seq<Row>, userId: int, l: TierLimits, moment: nat)
    ensures var first := FirstExhausted(rows, userId, moment, CreditWindows(l));
            && (first.None? <==> WithinAll(rows, userId, l, moment))
            && (first.Some? ==> FirstOver(rows, userId, l, moment, first.value))
  {
    var ws := CreditWindows(l);
    WindowsAreBudgets(l);
    FirstExhaustedMeans(rows, userId, moment, ws);
    var first := FirstExhausted(rows, userId, moment, ws);
    if first.None? {
      forall w | BudgetOf(l, w).Some? ensures Spent(rows, userId, moment, w) <= BudgetOf(l, w).value {
        var k :| 0 <= k < |ws| && ws[k].0 == w;
      }
    } else {
      var k :| 0 <= k < |ws| && ws[k].0 == first.value && Spent(rows, userId, moment, ws[k].0) > ws[k].1
               && forall j :: 0 <= j < k ==> Spent(rows, userId, moment, ws[j].0) <= ws[j].1;
      forall w | WindowRank(w) < WindowRank(first.value) && BudgetOf(l, w).Some?
        ensures Spent(rows, userId, moment, w) <= BudgetOf(l, w).value
      {
        var j :| 0 <= j < |ws| && ws[j].0 == w;
        assert j < k;
      }
    }
  }

  /** The started rows of a user, or of everyone. */
  function Running(rows: seq<Row>, userId: Option<int>): set<nat> {
    Places(rows, StartedBy(userId))
  }

  function StartedBy(userId: Option<int>): Row -> bool {
    (row: Row) => row.status == Started && (userId == None || Some(row.userId) == userId)
  }

  lemma FlightIsRunning(rows: seq<Row>, userId: int)
    ensures Total(rows, UserFlight(userId)) == |Running(rows, Some(userId))|
    ensures Total(rows, ServerFlight()) == |Running(rows, None)|
  {
    TotalCounts(rows, UserFlight(userId), StartedBy(Some(userId)));
    TotalCounts(rows, ServerFlight(), StartedBy(None));
  }

  /** The ledger that a reservation's checks see: runs older than the longest
      age abandoned, and the new run after them, charged its estimate. */
  ghost predicate Prepared(rows: seq<Row>, all: seq<Row>, r: Request, server: ServerLimits, moment: nat, c: Pricing)
    requires ValidPricing(c)
  {
    && |all| == |rows| + 1
    && (forall i :: 0 <= i < |rows| ==>
          all[i] == if rows[i].status == Started && rows[i].createdAt < moment / 1000000 - server.runMaxAge
                    then rows[i].(status := Abandoned) else rows[i])
    && var row := all[|rows|];
       && row.userId == r.userId && row.createdAt == moment / 1000000 && row.day == row.createdAt / 86400
       && row.status == Started && row.provider == r.provider && row.model == r.model
       && row.source == r.source && row.textChars == r.textChars
       && row.inputTokens == None && row.outputTokens == None && row.failStage == None
       && row.credits == Some(EstimateCost(r.source, r.provider, r.model, r.textChars, c))
  }

  lemma InsertedIsPrepared(rows: seq<Row>, all: seq<Row>, r: Request, server: ServerLimits, moment: nat, c: Pricing)
    requires ValidPricing(c)
    ensures Prepared(rows, all, r, server, moment, c) <==> all == Inserted(rows, r, server, moment, c)
  {
    var inserted := Inserted(rows, r, server, moment, c);
    if Prepared(rows, all, r, server, moment, c) {
      forall i | 0 <= i < |all| ensures all[i] == inserted[i] {
        if i < |rows| {
          assert inserted[i] == SweepRow(rows[i], Cutoff(moment, server));
        }
      }
    }
  }

  /** A run is admitted exactly when, with its own estimate counted and stale
      runs abandoned, every configured budget is kept and both caps hold. A
      refusal names the first budget that is not, or the cap, and leaves the
      ledger as it was. */
  lemma ReserveDecides(rows: seq<Row>, all: seq<Row>, r: Request, limits: TierLimits, server: ServerLimits,
                       moment: nat, c: Pricing)
    requires ValidPricing(c) && Prepared(rows, all, r, server, moment, c)
    ensures var (rows', d) := Reserve(rows, r, limits, server, moment, c);
            && (d.Admitted? <==>
                  && WithinAll(all, r.userId, limits, moment)
                  && |Running(all, Some(r.userId))| <= limits.concurrentRuns
                  && |Running(all, None)| <= server.maxConcurrentRuns)
            && (d.Admitted? ==> rows' == all && d.id == |rows|)
            && (!d.Admitted? ==> rows' == rows)
            && (d.QuotaExhausted? ==> FirstOver(all, r.userId, limits, moment, d.window))
            && (d.ConcurrencyRejected? ==> WithinAll(all, r.userId, limits, moment))
            && (d.ConcurrencyRejected? && !d.serverWide ==> |Running(all, Some(r.userId))| > limits.concurrentRuns)
            && (d.ConcurrencyRejected? && d.serverWide ==>
                  && |Running(all, Some(r.userId))| <= limits.concurrentRuns
                  && |Running(all, None)| > server.maxConcurrentRuns)
  {
    InsertedIsPrepared(rows, all, r, server, moment, c);
    FirstExhaustedIs(all, r.userId, limits, moment);
    FlightIsRunning(all, r.userId);
  }

  /** A user's credits in rows of later calendar windows, which a reservation
      whose moment is behind theirs counts too; the day is matched exactly. */
  function LaterCredits(userId: int, w: Window, start: nat): Row -> nat {
    (row: Row) =>
      if row.userId == userId && !w.Day? && WindowStart(row.createdAt, w) > start then Charged(row) else 0
  }

  lemma WindowIsNowOrLater(row: Row, now: nat, w: Window)
    requires row.day == DayOf(row.createdAt)
    ensures InWindow(row, now, w) <==>
              WindowStart(row.createdAt, w) == WindowStart(now, w)
              || (!w.Day? && WindowStart(row.createdAt, w) > WindowStart(now, w))
  {
    if row.createdAt <= now {
      SameWindow(row.createdAt, now, w);
      SameWindow(row.createdAt, row.createdAt, w);
    } else {
      SameWindow(now, row.createdAt, w);
      SameWindow(now, now, w);
    }
  }

  lemma {:induction false} TotalAdds(rows: seq<Row>, f: Row -> nat, g: Row -> nat, h: Row -> nat)
    requires forall i :: 0 <= i < |rows| ==> h(rows[i]) == f(rows[i]) + g(rows[i])
    ensures Total(rows, h) == Total(rows, f) + Total(rows, g)
  {
    if rows != [] {
      assert forall i :: 0 <= i < |rows| - 1 ==> rows[..|rows| - 1][i] == rows[i];
      TotalAdds(rows[..|rows| - 1], f, g, h);
    }
  }

  /** The sum a reservation compares is its calendar window's sum and that of
      the later windows: never less than the window's, whatever its moment. */
  lemma SpentIsInstance(rows: seq<Row>, userId: int, moment: nat, w: Window, c: Pricing)
    requires ValidPricing(c) && RowsRight(rows, c)
    ensures var start := WindowStart(Seconds(moment), w);
            Spent(rows, userId, moment, w)
            == Total(rows, InstanceCredits(userId, w, start)) + Total(rows, LaterCredits(userId, w, start))
  {
    var f := SpendMeasure(userId, Seconds(moment), w);
    var g := InstanceCredits(userId, w, WindowStart(Seconds(moment), w));
    var later := LaterCredits(userId, w, WindowStart(Seconds(moment), w));
    forall i | 0 <= i < |rows| ensures f(rows[i]) == g(rows[i]) + later(rows[i]) {
      assert RowRight(rows[i], c);
      WindowIsNowOrLater(rows[i], Seconds(moment), w);
    }
    TotalAdds(rows, g, later, f);
  }

  // ---- Steps ----

  /** Abandoning rows moves no credits and frees slots only. */
  ghost predicate OnlyAbandons(rows: seq<Row>, rows': seq<Row>) {
    && |rows'| == |rows|
    && forall i :: 0 <= i < |rows| ==>
         rows'[i] == rows[i] || (rows[i].status.Started? && rows'[i] == rows[i].(status := Abandoned))
  }

  lemma AbandonKeepsTotals(rows: seq<Row>, rows': seq<Row>, u: int, w: Window, start: nat, c: Pricing)
    requires ValidPricing(c) && OnlyAbandons(rows, rows')
    ensures Total(rows', InstanceCredits(u, w, start)) == Total(rows, InstanceCredits(u, w, start))
    ensures Total(rows', InstanceOverrun(u, w, start, c)) == Total(rows, InstanceOverrun(u, w, start, c))
    ensures Total(rows', UserFlight(u)) <= Total(rows, UserFlight(u))
    ensures Total(rows', ServerFlight()) <= Total(rows, ServerFlight())
  {
    TotalSame(rows', rows, InstanceCredits(u, w, start), InstanceCredits(u, w, start));
    TotalSame(rows', rows, InstanceOverrun(u, w, start, c), InstanceOverrun(u, w, start, c));
    TotalCompare(rows', rows, UserFlight(u), UserFlight(u));
    TotalCompare(rows', rows, ServerFlight(), ServerFlight());
  }

  lemma SweepsOnlyAbandon(rows: seq<Row>, cutoff: int)
    ensures OnlyAbandons(rows, Sweep(rows, cutoff)) && OnlyAbandons(rows, AbandonAll(rows))
  {
  }

  lemma KeepsSweep(cfg: Config, s: State)
    requires Inv(cfg, s)
    ensures Inv(cfg, s.(rows := AbandonAll(s.rows)))
  {
    var rows' := AbandonAll(s.rows);
    SweepsOnlyAbandon(s.rows, 0);
    forall u ensures Total(rows', UserFlight(u)) <= cfg.limits(u).concurrentRuns {
      AbandonKeepsTotals(s.rows, rows', u, Hour, 0, cfg.pricing);
    }
    AbandonKeepsTotals(s.rows, rows', 0, Hour, 0, cfg.pricing);
    forall u, w, start: nat | BudgetOf(cfg.limits(u), w).Some?
      ensures WithinBudget(cfg, rows', u, w, BudgetOf(cfg.limits(u), w).value, start) {
      var budget := BudgetOf(cfg.limits(u), w).value;
      assert WithinBudget(cfg, s.rows, u, w, budget, start);
      AbandonKeepsTotals(s.rows, rows', u, w, start, cfg.pricing);
    }
    forall i | 0 <= i < |rows'| ensures RowRight(rows'[i], cfg.pricing) {
      assert RowRight(s.rows[i], cfg.pricing);
    }
  }

  lemma KeepsWriteCaps(cfg: Config, rows: seq<Row>, p: Settlement)
    requires ValidPricing(cfg.pricing) && Caps(cfg, rows) && Open(rows, p.id)
    ensures Caps(cfg, WriteSettlement(rows, p))
  {
    var rows' := WriteSettlement(rows, p);
    forall u ensures Total(rows', UserFlight(u)) <= cfg.limits(u).concurrentRuns {
      TotalUpdate(rows, p.id, SettleRow(rows[p.id], p), UserFlight(u));
    }
    TotalUpdate(rows, p.id, SettleRow(rows[p.id], p), ServerFlight());
  }

  lemma KeepsWriteBudgets(cfg: Config, rows: seq<Row>, p: Settlement)
    requires ValidPricing(cfg.pricing) && Budgets(cfg, rows) && Open(rows, p.id)
    requires rows[p.id].credits == Some(Estimate(rows[p.id], cfg.pricing))
    ensures Budgets(cfg, WriteSettlement(rows, p))
  {
    var rows' := WriteSettlement(rows, p);
    var row := SettleRow(rows[p.id], p);
    forall u, w, start: nat | BudgetOf(cfg.limits(u), w).Some?
      ensures WithinBudget(cfg, rows', u, w, BudgetOf(cfg.limits(u), w).value, start) {
      var budget := BudgetOf(cfg.limits(u), w).value;
      assert WithinBudget(cfg, rows, u, w, budget, start);
      TotalUpdate(rows, p.id, row, InstanceCredits(u, w, start));
      TotalUpdate(rows, p.id, row, InstanceOverrun(u, w, start, cfg.pricing));
      assert Estimate(row, cfg.pricing) == Estimate(rows[p.id], cfg.pricing);
    }
  }

  lemma KeepsWrite(cfg: Config, s: State, task: int)
    requires Inv(cfg, s) && task in s.pending
    ensures Inv(cfg, s.(rows := WriteSettlement(s.rows, s.pending[task]), pending := s.pending - {task}))
  {
    var p := s.pending[task];
    var rows' := WriteSettlement(s.rows, p);
    if Open(s.rows, p.id) {
      assert RowRight(s.rows[p.id], cfg.pricing);
      KeepsWriteCaps(cfg, s.rows, p);
      KeepsWriteBudgets(cfg, s.rows, p);
      forall i | 0 <= i < |rows'| ensures RowRight(rows'[i], cfg.pricing) {
        assert RowRight(s.rows[i], cfg.pricing);
      }
      forall t | t in s.pending && t != task ensures SettlementRight(rows', s.pending[t], cfg.pricing) {
        assert SettlementRight(s.rows, s.pending[t], cfg.pricing);
      }
    }
  }

  lemma Admits(rows: seq<Row>, r: Request, limits: TierLimits, server: ServerLimits, moment: nat, c: Pricing)
    requires ValidPricing(c) && Reserve(rows, r, limits, server, moment, c).1.Admitted?
    ensures var all := Inserted(rows, r, server, moment, c);
            && Reserve(rows, r, limits, server, moment, c).0 == all
            && WithinAll(all, r.userId, limits, moment)
            && Total(all, UserFlight(r.userId)) <= limits.concurrentRuns
            && Total(all, ServerFlight()) <= server.maxConcurrentRuns
  {
    FirstExhaustedIs(Inserted(rows, r, server, moment, c), r.userId, limits, moment);
  }

  lemma KeepsReserveBudgets(cfg: Config, s: State, r: Request, moment: nat)
    requires Inv(cfg, s)
    requires Reserve(s.rows, r, cfg.limits(r.userId), cfg.server, moment, cfg.pricing).1.Admitted?
    requires RowsRight(Inserted(s.rows, r, cfg.server, moment, cfg.pricing), cfg.pricing)
    ensures Budgets(cfg, Inserted(s.rows, r, cfg.server, moment, cfg.pricing))
  {
    var swept := Sweep(s.rows, Cutoff(moment, cfg.server));
    var row := NewRow(r, moment, cfg.pricing);
    var all := swept + [row];
    SweepsOnlyAbandon(s.rows, Cutoff(moment, cfg.server));
    Admits(s.rows, r, cfg.limits(r.userId), cfg.server, moment, cfg.pricing);
    forall u, w, start: nat | BudgetOf(cfg.limits(u), w).Some?
      ensures WithinBudget(cfg, all, u, w, BudgetOf(cfg.limits(u), w).value, start) {
      var budget := BudgetOf(cfg.limits(u), w).value;
      if u == r.userId && start == WindowStart(Seconds(moment), w) {
        SpentIsInstance(all, u, moment, w, cfg.pricing);
      } else {
        assert WithinBudget(cfg, s.rows, u, w, budget, start);
        AbandonKeepsTotals(s.rows, swept, u, w, start, cfg.pricing);
      }
    }
  }

  lemma KeepsReserveCaps(cfg: Config, s: State, r: Request, moment: nat)
    requires Inv(cfg, s)
    requires Reserve(s.rows, r, cfg.limits(r.userId), cfg.server, moment, cfg.pricing).1.Admitted?
    ensures Caps(cfg, Inserted(s.rows, r, cfg.server, moment, cfg.pricing))
  {
    var swept := Sweep(s.rows, Cutoff(moment, cfg.server));
    var row := NewRow(r, moment, cfg.pricing);
    SweepsOnlyAbandon(s.rows, Cutoff(moment, cfg.server));
    Admits(s.rows, r, cfg.limits(r.userId), cfg.server, moment, cfg.pricing);
    forall u ensures Total(swept + [row], UserFlight(u)) <= cfg.limits(u).concurrentRuns {
      AbandonKeepsTotals(s.rows, swept, u, Hour, 0, cfg.pricing);
    }
  }

  lemma InsertedRowsRight(cfg: Config, s: State, r: Request, moment: nat)
    requires Inv(cfg, s)
    ensures RowsRight(Inserted(s.rows, r, cfg.server, moment, cfg.pricing), cfg.pricing)
  {
    var all := Inserted(s.rows, r, cfg.server, moment, cfg.pricing);
    forall i | 0 <= i < |all| ensures RowRight(all[i], cfg.pricing) {
      if i < |s.rows| {
        assert RowRight(s.rows[i], cfg.pricing);
      }
    }
  }

  lemma KeepsReserve(cfg: Config, s: State, r: Request, moment: nat)
    requires Inv(cfg, s)
    ensures Inv(cfg, Next(cfg, s, ReserveRun(r, moment)))
  {
    var s' := Next(cfg, s, ReserveRun(r, moment));
    var d := Reserve(s.rows, r, cfg.limits(r.userId), cfg.server, moment, cfg.pricing).1;
    if d.Admitted? {
      InsertedRowsRight(cfg, s, r, moment);
      KeepsReserveBudgets(cfg, s, r, moment);
      KeepsReserveCaps(cfg, s, r, moment);
      forall t | t in s.pending ensures SettlementRight(s'.rows, s.pending[t], cfg.pricing) {
        assert SettlementRight(s.rows, s.pending[t], cfg.pricing);
      }
    } else {
      forall i | 0 <= i < |s.rows| ensures RowRight(s.rows[i], cfg.pricing) {
        assert RowRight(s.rows[i], cfg.pricing);
      }
    }
  }

  lemma StepKeeps(cfg: Config, s: State, step: Step)
    requires Inv(cfg, s) && Enabled(s, step)
    ensures Inv(cfg, Next(cfg, s, step))
  {
    match step
    case ReserveRun(r, moment) => KeepsReserve(cfg, s, r, moment);
    case ReadRun(_, _, _, _, _, _) =>
    case WriteRun(task) => KeepsWrite(cfg, s, task);
    case StartupSweep => KeepsSweep(cfg, s);
  }

  lemma EmptyLedger(cfg: Config)
    requires ValidPricing(cfg.pricing)
    ensures Inv(cfg, EMPTY)
  {
    forall u, w, start: nat | BudgetOf(cfg.limits(u), w).Some?
      ensures WithinBudget(cfg, [], u, w, BudgetOf(cfg.limits(u), w).value, start) {
    }
  }

  lemma {:induction false} RunFromKeeps(cfg: Config, s: State, steps: seq<Step>)
    requires Inv(cfg, s) && RunFrom(cfg, s, steps).Some?
    ensures Inv(cfg, RunFrom(cfg, s, steps).value)
  {
    if steps != [] {
      RunFromKeeps(cfg, s, steps[..|steps| - 1]);
      StepKeeps(cfg, RunFrom(cfg, s, steps[..|steps| - 1]).value, steps[|steps| - 1]);
    }
  }

  lemma RunKeeps(cfg: Config, steps: seq<Step>)
    requires ValidPricing(cfg.pricing) && RunFrom(cfg, EMPTY, steps).Some?
    ensures Inv(cfg, RunFrom(cfg, EMPTY, steps).value)
  {
    EmptyLedger(cfg);
    RunFromKeeps(cfg, EMPTY, steps);
  }

  // ---- Theorems ----

  /** Over every run the started rows stay within both caps. */
  lemma LedgerCaps(cfg: Config, steps: seq<Step>, userId: int)
    requires ValidPricing(cfg.pricing) && RunFrom(cfg, EMPTY, steps).Some?
    ensures var rows := RunFrom(cfg, EMPTY, steps).value.rows;
            && |Running(rows, Some(userId))| <= cfg.limits(userId).concurrentRuns
            && |Running(rows, None)| <= cfg.server.maxConcurrentRuns
  {
    RunKeeps(cfg, steps);
    FlightIsRunning(RunFrom(cfg, EMPTY, steps).value.rows, userId);
  }

  /** Over every run, in every calendar window of a kind with a budget, a user's
      credits exceed it by no more than settlements exceeded their estimates. */
  lemma BudgetBound(cfg: Config, steps: seq<Step>, userId: int, w: Window, start: nat)
    requires ValidPricing(cfg.pricing) && RunFrom(cfg, EMPTY, steps).Some?
    requires BudgetOf(cfg.limits(userId), w).Some?
    ensures var rows := RunFrom(cfg, EMPTY, steps).value.rows;
            Total(rows, InstanceCredits(userId, w, start))
            <= BudgetOf(cfg.limits(userId), w).value + Total(rows, InstanceOverrun(userId, w, start, cfg.pricing))
  {
    RunKeeps(cfg, steps);
    assert WithinBudget(cfg, RunFrom(cfg, EMPTY, steps).value.rows, userId, w, BudgetOf(cfg.limits(userId), w).value, start);
  }

  /** Over every run each row is charged what its own columns say. */
  lemma RowsAreSettled(cfg: Config, steps: seq<Step>, i: nat)
    requires ValidPricing(cfg.pricing) && RunFrom(cfg, EMPTY, steps).Some?
    requires i < |RunFrom(cfg, EMPTY, steps).value.rows|
    ensures RowSettled(RunFrom(cfg, EMPTY, steps).value.rows[i], cfg.pricing)
  {
    RunKeeps(cfg, steps);
    assert RowRight(RunFrom(cfg, EMPTY, steps).value.rows[i], cfg.pricing);
  }

  lemma {:induction false} PendingStays(cfg: Config, s: State, steps: seq<Step>, task: int)
    requires ValidPricing(cfg.pricing) && RunFrom(cfg, s, steps).Some?
    requires task in s.pending && WriteRun(task) !in steps
    ensures var s' := RunFrom(cfg, s, steps).value; task in s'.pending && s'.pending[task] == s.pending[task]
  {
    if steps != [] {
      assert steps == steps[..|steps| - 1] + [steps[|steps| - 1]];
      PendingStays(cfg, s, steps[..|steps| - 1], task);
    }
  }

  /** The row a finished run leaves: its outcome and what the provider reported,
      charged accordingly, and everything else as it was. */
  predicate Finishes(row: Row, row': Row, o: Outcome, input: Option<int>, output: Option<int>, stage: Option<string>,
                     c: Pricing)
    requires ValidPricing(c)
  {
    && row' == row.(status := row'.status, inputTokens := input, outputTokens := output,
                    failStage := if o == RunFailed then stage else None, credits := row'.credits)
    && row'.status == (match o case RunCompleted => Completed case RunFailed => Failed case RunCancelled => Cancelled)
    && RowSettled(row', c)
  }

  /** A run that is read and, whatever happens in between, written later, ends
      as one finished at once would; unless it was swept in between, and then
      the write changes nothing. */
  lemma SplitFinishIsAtomic(cfg: Config, before: seq<Step>, between: seq<Step>, task: int, id: nat, o: Outcome,
                            input: Option<int>, output: Option<int>, stage: Option<string>)
    requires ValidPricing(cfg.pricing) && RunFrom(cfg, EMPTY, before).Some?
    requires var s := RunFrom(cfg, EMPTY, before).value;
             task !in s.pending && id < |s.rows| && s.rows[id].status == Started
    requires KnownStage(o, stage) && WriteRun(task) !in between
    requires var read := Next(cfg, RunFrom(cfg, EMPTY, before).value, ReadRun(task, id, o, input, output, stage));
             RunFrom(cfg, read, between).Some?
    ensures var read := Next(cfg, RunFrom(cfg, EMPTY, before).value, ReadRun(task, id, o, input, output, stage));
            var m := RunFrom(cfg, read, between).value;
            && Enabled(m, WriteRun(task))
            && var rows' := Next(cfg, m, WriteRun(task)).rows;
            && |rows'| == |m.rows| && id < |rows'|
            && (forall i :: 0 <= i < |rows'| && i != id ==> rows'[i] == m.rows[i])
            && (m.rows[id].status != Started ==> rows'[id] == m.rows[id])
            && (m.rows[id].status == Started ==>
                  Finishes(m.rows[id], rows'[id], o, input, output, stage, cfg.pricing))
  {
    var s := RunFrom(cfg, EMPTY, before).value;
    var read := Next(cfg, s, ReadRun(task, id, o, input, output, stage));
    RunKeeps(cfg, before);
    StepKeeps(cfg, s, ReadRun(task, id, o, input, output, stage));
    RunFromKeeps(cfg, read, between);
    PendingStays(cfg, read, between, task);
    var m := RunFrom(cfg, read, between).value;
    WriteFinishes(cfg, m, task);
  }

  lemma WriteFinishes(cfg: Config, s: State, task: int)
    requires Inv(cfg, s) && task in s.pending
    ensures var p, rows' := s.pending[task], Next(cfg, s, WriteRun(task)).rows;
            && |rows'| == |s.rows| && p.id < |rows'|
            && (forall i :: 0 <= i < |rows'| && i != p.id ==> rows'[i] == s.rows[i])
            && (s.rows[p.id].status != Started ==> rows'[p.id] == s.rows[p.id])
            && (s.rows[p.id].status == Started && (!p.outcome.RunFailed? ==> p.failStage.None?) ==>
                  Finishes(s.rows[p.id], rows'[p.id], p.outcome, p.inputTokens, p.outputTokens, p.failStage, cfg.pricing))
  {
    var p := s.pending[task];
    assert p.id < |s.rows|;
    StepKeeps(cfg, s, WriteRun(task));
    assert RowRight(Next(cfg, s, WriteRun(task)).rows[p.id], cfg.pricing);
  }

  /** The startup sweep abandons every started row and touches no other. */
  lemma StartupAbandons(cfg: Config, s: State)
    requires ValidPricing(cfg.pricing)
    ensures var rows' := Next(cfg, s, StartupSweep).rows;
            && |rows'| == |s.rows|
            && forall i :: 0 <= i < |rows'| ==>
                 rows'[i] == if s.rows[i].status == Started then s.rows[i].(status := Abandoned) else s.rows[i]
  {
  }

  /** A terminal row never changes again. */
  lemma StepKeepsTerminal(cfg: Config, s: State, step: Step, id: nat)
    requires ValidPricing(cfg.pricing) && Enabled(s, step) && id < |s.rows| && !s.rows[id].status.Started?
    ensures var rows' := Next(cfg, s, step).rows; id < |rows'| && rows'[id] == s.rows[id]
  {
  }

  lemma {:induction false} TerminalForever(cfg: Config, s: State, steps: seq<Step>, id: nat)
    requires ValidPricing(cfg.pricing) && id < |s.rows| && !s.rows[id].status.Started?
    requires RunFrom(cfg, s, steps).Some?
    ensures var rows' := RunFrom(cfg, s, steps).value.rows; id < |rows'| && rows'[id] == s.rows[id]
  {
    if steps != [] {
      var init := steps[..|steps| - 1];
      TerminalForever(cfg, s, init, id);
      StepKeepsTerminal(cfg, RunFrom(cfg, s, init).value, steps[|steps| - 1], id);
    }
  }

  // ---- What keeps a run within its estimate ----

  /** The provider reported more than the admission estimate foresaw. */
  predicate MoreThanForeseen(textChars: nat, input: Option<int>, output: Option<int>) {
    Tokens(input) > EstimatedInput(textChars) || Tokens(output) > EstimatedInput(textChars) / 4
  }

  /** A settlement always has a credit count. It exceeds the estimate only for
      a run that was not cancelled and whose provider reported more tokens than
      were foreseen; when tokens are priced, the price is exact to a credit. */
  lemma SettledCreditsMean(row: Row, o: Outcome, input: Option<int>, output: Option<int>, c: Pricing)
    requires ValidPricing(c) && row.credits == Some(Estimate(row, c))
    ensures var credits := SettledCredits(row, o, input, output, c);
            var exact := ExactCost(row.source, row.provider, row.model, Tokens(input), Tokens(output), c);
            && credits.Some?
            && (credits.value > Estimate(row, c) ==> !o.RunCancelled? && MoreThanForeseen(row.textChars, input, output))
            && ((input.Some? || output.Some?) && !o.RunCancelled? ==>
                  exact - 0.5 / NANO <= credits.value as real < exact + 1.0 + 0.5 / NANO)
  {
    var foreseen := EstimatedInput(row.textChars);
    RunCostBounds(row.source, row.provider, row.model, Tokens(input), Tokens(output), c);
    if !MoreThanForeseen(row.textChars, input, output) {
      RunCostMonotone(row.source, row.provider, row.model, Tokens(input), Tokens(output), foreseen, foreseen / 4, c);
    }
  }

  /** Only rows whose provider reported more than was foreseen overrun. */
  predicate OverrunsForeseen(row: Row, c: Pricing)
    requires ValidPricing(c)
  {
    Overrun(row, c) > 0 ==> MoreThanForeseen(row.textChars, row.inputTokens, row.outputTokens)
  }

  lemma StepOverruns(cfg: Config, s: State, step: Step, i: nat)
    requires Inv(cfg, s) && Enabled(s, step) && i < |Next(cfg, s, step).rows|
    requires forall k :: 0 <= k < |s.rows| ==> OverrunsForeseen(s.rows[k], cfg.pricing)
    ensures OverrunsForeseen(Next(cfg, s, step).rows[i], cfg.pricing)
  {
    if i < |s.rows| {
      assert OverrunsForeseen(s.rows[i], cfg.pricing) && RowRight(s.rows[i], cfg.pricing);
    }
    if step.WriteRun? {
      var p := s.pending[step.task];
      assert SettlementRight(s.rows, p, cfg.pricing);
      if Open(s.rows, p.id) && i == p.id {
        SettledCreditsMean(s.rows[i], p.outcome, p.inputTokens, p.outputTokens, cfg.pricing);
      }
    }
  }

  lemma {:induction false} RunOverruns(cfg: Config, steps: seq<Step>, i: nat)
    requires ValidPricing(cfg.pricing) && RunFrom(cfg, EMPTY, steps).Some?
    requires i < |RunFrom(cfg, EMPTY, steps).value.rows|
    ensures OverrunsForeseen(RunFrom(cfg, EMPTY, steps).value.rows[i], cfg.pricing)
  {
    if steps != [] {
      var front := steps[..|steps| - 1];
      var s := RunFrom(cfg, EMPTY, front).value;
      RunKeeps(cfg, front);
      forall k | 0 <= k < |s.rows| ensures OverrunsForeseen(s.rows[k], cfg.pricing) {
        RunOverruns(cfg, front, k);
      }
      StepOverruns(cfg, s, steps[|steps| - 1], i);
    }
  }

  lemma {:induction false} TotalZero(rows: seq<Row>, f: Row -> nat)
    requires forall i :: 0 <= i < |rows| ==> f(rows[i]) == 0
    ensures Total(rows, f) == 0
  {
    if rows != [] {
      assert forall i :: 0 <= i < |rows| - 1 ==> rows[..|rows| - 1][i] == rows[i];
      TotalZero(rows[..|rows| - 1], f);
    }
  }

  /** So over every run a user's budget is kept outright in each calendar window
      in which no provider reported more than was foreseen. */
  lemma BudgetKept(cfg: Config, steps: seq<Step>, userId: int, w: Window, start: nat)
    requires ValidPricing(cfg.pricing) && RunFrom(cfg, EMPTY, steps).Some?
    requires BudgetOf(cfg.limits(userId), w).Some?
    requires var rows := RunFrom(cfg, EMPTY, steps).value.rows;
             forall i :: 0 <= i < |rows| && InInstance(rows[i], userId, w, start) ==>
               !MoreThanForeseen(rows[i].textChars, rows[i].inputTokens, rows[i].outputTokens)
    ensures Total(RunFrom(cfg, EMPTY, steps).value.rows, InstanceCredits(userId, w, start))
         <= BudgetOf(cfg.limits(userId), w).value
  {
    var rows := RunFrom(cfg, EMPTY, steps).value.rows;
    var over := InstanceOverrun(userId, w, start, cfg.pricing);
    BudgetBound(cfg, steps, userId, w, start);
    forall i | 0 <= i < |rows| ensures over(rows[i]) == 0 {
      RunOverruns(cfg, steps, i);
    }
    TotalZero(rows, over);
  }
}
