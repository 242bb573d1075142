/** The two aggregations over the ledger: the zero-filled series per day and
    the totals per user. */
module Activity {
  import opened Wrappers
  import opened Ledger

  datatype Range = Range(start: nat, days: nat)

  type Measure = Row -> int

  predicate Settled(row: Row, r: Range) {
    !row.status.Started? && r.start <= row.day < r.start + r.days
  }

  function Sum(rows: seq<Row>, f: Measure): int {
    if rows == [] then 0 else Sum(rows[..|rows| - 1], f) + f(rows[|rows| - 1])
  }

  function SeqSum(xs: seq<int>): int {
    if xs == [] then 0 else SeqSum(xs[..|xs| - 1]) + xs[|xs| - 1]
  }

  // ---- What is counted ----

  function RunsOf(source: string): Measure {
    (row: Row) => if row.status.Completed? && row.source == source then 1 else 0
  }

  function FailedRuns(): Measure {
    (row: Row) => if row.status.Failed? || row.status.Cancelled? || row.status.Abandoned? then 1 else 0
  }

  function AnyRun(): Measure {
    (row: Row) => 1
  }

  function InputTokens(): Measure {
    (row: Row) => if row.inputTokens.Some? then row.inputTokens.value else 0
  }

  function OutputTokens(): Measure {
    (row: Row) => if row.outputTokens.Some? then row.outputTokens.value else 0
  }

  function CreditsSpent(): Measure {
    (row: Row) => CreditOf(row)
  }

  const KNOWN_SOURCES := {"check", "suggestion", "name"}

  predicate UnknownCompleted(row: Row, r: Range) {
    Settled(row, r) && row.status.Completed? && row.source !in KNOWN_SOURCES
  }

  // ---- Restrictions of a measure ----

  function Within(r: Range, f: Measure): Measure {
    (row: Row) => if Settled(row, r) then f(row) else 0
  }

  function OnDay(day: nat, f: Measure): Measure {
    (row: Row) => if row.day == day then f(row) else 0
  }

  function OfUser(userId: int, f: Measure): Measure {
    (row: Row) => if row.userId == userId then f(row) else 0
  }

  function ForUser(userId: Option<int>, f: Measure): Measure {
    if userId.Some? then OfUser(userId.value, f) else f
  }

  // ---- The queries ----

  datatype Series = Series(
    check: seq<int>, suggestion: seq<int>, name: seq<int>, failed: seq<int>,
    inputTokens: seq<int>, outputTokens: seq<int>, credits: seq<int>)

  function Column(rows: seq<Row>, r: Range, f: Measure): seq<int> {
    seq(r.days, i requires 0 <= i < r.days => Sum(rows, OnDay(r.start + i, Within(r, f))))
  }

  function ActivitySeries(rows: seq<Row>, userId: Option<int>, r: Range): Series {
    Series(Column(rows, r, ForUser(userId, RunsOf("check"))),
           Column(rows, r, ForUser(userId, RunsOf("suggestion"))),
           Column(rows, r, ForUser(userId, RunsOf("name"))),
           Column(rows, r, ForUser(userId, FailedRuns())),
           Column(rows, r, ForUser(userId, InputTokens())),
           Column(rows, r, ForUser(userId, OutputTokens())),
           Column(rows, r, ForUser(userId, CreditsSpent())))
  }

  datatype UserTotals = UserTotals(userId: int, runs: int, inputTokens: int, outputTokens: int, credits: int)

  /** The users of the range's settled rows, each once. */
  function Users(rows: seq<Row>, r: Range): seq<int> {
    if rows == [] then []
    else
      var users := Users(rows[..|rows| - 1], r);
      var row := rows[|rows| - 1];
      if Settled(row, r) && row.userId !in users then users + [row.userId] else users
  }

  function TotalsOf(rows: seq<Row>, r: Range, userId: int): UserTotals {
    UserTotals(userId,
               Sum(rows, OfUser(userId, Within(r, AnyRun()))),
               Sum(rows, OfUser(userId, Within(r, InputTokens()))),
               Sum(rows, OfUser(userId, Within(r, OutputTokens()))),
               Sum(rows, OfUser(userId, Within(r, CreditsSpent()))))
  }

  function ActivityUserTotals(rows: seq<Row>, r: Range): seq<UserTotals> {
    var users := Users(rows, r);
    seq(|users|, i requires 0 <= i < |users| => TotalsOf(rows, r, users[i]))
  }

  function PerUser(rows: seq<Row>, users: seq<int>, f: Measure): seq<int> {
    seq(|users|, i requires 0 <= i < |users| => Sum(rows, OfUser(users[i], f)))
  }

  // ---- Sums ----

  lemma {:induction false} SumCongruent(rows: seq<Row>, f: Measure, g: Measure)
    requires forall i :: 0 <= i < |rows| ==> f(rows[i]) == g(rows[i])
    ensures Sum(rows, f) == Sum(rows, g)
  {
    if rows != [] {
      assert forall i :: 0 <= i < |rows| - 1 ==> rows[..|rows| - 1][i] == rows[i];
      SumCongruent(rows[..|rows| - 1], f, g);
    }
  }

  lemma {:induction false} SumAdds(rows: seq<Row>, f: Measure, g: Measure, h: Measure)
    requires forall i :: 0 <= i < |rows| ==> h(rows[i]) == f(rows[i]) + g(rows[i])
    ensures Sum(rows, h) == Sum(rows, f) + Sum(rows, g)
  {
    if rows != [] {
      assert forall i :: 0 <= i < |rows| - 1 ==> rows[..|rows| - 1][i] == rows[i];
      SumAdds(rows[..|rows| - 1], f, g, h);
    }
  }

  lemma {:induction false} SumOfFour(rows: seq<Row>, a: Measure, b: Measure, c: Measure, d: Measure, all: Measure)
    requires forall i :: 0 <= i < |rows| ==> all(rows[i]) == a(rows[i]) + b(rows[i]) + c(rows[i]) + d(rows[i])
    ensures Sum(rows, all) == Sum(rows, a) + Sum(rows, b) + Sum(rows, c) + Sum(rows, d)
  {
    if rows != [] {
      assert forall i :: 0 <= i < |rows| - 1 ==> rows[..|rows| - 1][i] == rows[i];
      SumOfFour(rows[..|rows| - 1], a, b, c, d, all);
    }
  }

  /** A pointwise smaller measure sums to less unless it is nowhere smaller. */
  lemma {:induction false} SumBelow(rows: seq<Row>, f: Measure, g: Measure)
    requires forall i :: 0 <= i < |rows| ==> f(rows[i]) <= g(rows[i])
    ensures Sum(rows, f) <= Sum(rows, g)
    ensures Sum(rows, f) == Sum(rows, g) <==> forall i :: 0 <= i < |rows| ==> f(rows[i]) == g(rows[i])
  {
    if rows != [] {
      var n := |rows| - 1;
      assert forall i :: 0 <= i < n ==> rows[..n][i] == rows[i];
      SumBelow(rows[..n], f, g);
      if Sum(rows, f) == Sum(rows, g) {
        forall i | 0 <= i < |rows| ensures f(rows[i]) == g(rows[i]) {
          if i < n { assert rows[..n][i] == rows[i]; }
        }
      }
    }
  }

  /** The days of a range, one column each, add up to the range. */
  lemma {:induction false} DaysAddUp(rows: seq<Row>, r: Range, f: Measure, n: nat)
    requires n <= r.days
    ensures SeqSum(Column(rows, r, f)[..n])
         == Sum(rows, (row: Row) => if row.day < r.start + n then Within(r, f)(row) else 0)
  {
    var upTo := (row: Row) => if row.day < r.start + n then Within(r, f)(row) else 0;
    if n == 0 {
      forall row: Row ensures upTo(row) == 0 {
        if row.day < r.start + n {
          assert !Settled(row, r);
          assert Within(r, f)(row) == 0;
        }
      }
      SumZero(rows, upTo);
    } else {
      var before := (row: Row) => if row.day < r.start + (n - 1) then Within(r, f)(row) else 0;
      DaysAddUp(rows, r, f, n - 1);
      assert Column(rows, r, f)[..n][..n - 1] == Column(rows, r, f)[..n - 1];
      SumAdds(rows, before, OnDay(r.start + (n - 1), Within(r, f)), upTo);
    }
  }

  lemma {:induction false} SumZero(rows: seq<Row>, f: Measure)
    requires forall row :: f(row) == 0
    ensures Sum(rows, f) == 0
  {
    if rows != [] {
      SumZero(rows[..|rows| - 1], f);
    }
  }

  lemma ColumnAddsUp(rows: seq<Row>, r: Range, f: Measure)
    ensures SeqSum(Column(rows, r, f)) == Sum(rows, Within(r, f))
  {
    DaysAddUp(rows, r, f, r.days);
    assert Column(rows, r, f)[..r.days] == Column(rows, r, f);
    SumCongruent(rows, (row: Row) => if row.day < r.start + r.days then Within(r, f)(row) else 0, Within(r, f));
  }

  // ---- What a cell and a line say ----

  /** The runs that a day's cell and a user's line are about. */
  function OfDay(userId: Option<int>, day: nat): Row -> bool {
    (row: Row) => row.status != Started && row.day == day && (userId == None || userId == Some(row.userId))
  }

  function OfRange(userId: int, r: Range): Row -> bool {
    (row: Row) => row.status != Started && r.start <= row.day < r.start + r.days && row.userId == userId
  }

  function SumOf(rows: seq<Row>, kind: Row -> bool, amount: Row -> Option<int>): int {
    if rows == [] then 0
    else
      var row := rows[|rows| - 1];
      SumOf(rows[..|rows| - 1], kind, amount)
      + if kind(row) && amount(row).Some? then amount(row).value else 0
  }

  lemma {:induction false} SumIsSumOf(rows: seq<Row>, f: Measure, kind: Row -> bool, amount: Row -> Option<int>)
    requires forall row :: f(row) == if kind(row) && amount(row).Some? then amount(row).value else 0
    ensures Sum(rows, f) == SumOf(rows, kind, amount)
  {
    if rows != [] {
      SumIsSumOf(rows[..|rows| - 1], f, kind, amount);
    }
  }

  lemma {:induction false} SumIsCount(rows: seq<Row>, f: Measure, kind: Row -> bool)
    requires forall row :: f(row) == if kind(row) then 1 else 0
    ensures Sum(rows, f) == |Places(rows, kind)|
  {
    if rows != [] {
      SumIsCount(rows[..|rows| - 1], f, kind);
      PlacesNext(rows, kind);
    }
  }

  function CompletedOn(userId: Option<int>, day: nat, source: string): Row -> bool {
    (row: Row) => OfDay(userId, day)(row) && row.status == Completed && row.source == source
  }

  function FailedOn(userId: Option<int>, day: nat): Row -> bool {
    (row: Row) => OfDay(userId, day)(row) && row.status in {Failed, Cancelled, Abandoned}
  }

  function Input(): Row -> Option<int> {
    (row: Row) => row.inputTokens
  }

  function Output(): Row -> Option<int> {
    (row: Row) => row.outputTokens
  }

  function Credit(): Row -> Option<int> {
    (row: Row) => match row.credits case Some(n) => Some(n) case None => None
  }

  lemma DayOnly(r: Range, userId: Option<int>, k: nat, f: Measure, row: Row)
    requires k < r.days
    ensures OnDay(r.start + k, Within(r, ForUser(userId, f)))(row) == if OfDay(userId, r.start + k)(row) then f(row) else 0
  {
    if userId.Some? {
      assert ForUser(userId, f)(row) == if row.userId == userId.value then f(row) else 0;
    }
  }

  lemma RunCell(rows: seq<Row>, userId: Option<int>, r: Range, k: nat, source: string)
    requires k < r.days
    ensures Column(rows, r, ForUser(userId, RunsOf(source)))[k] == |Places(rows, CompletedOn(userId, r.start + k, source))|
  {
    var f, kind := OnDay(r.start + k, Within(r, ForUser(userId, RunsOf(source)))), CompletedOn(userId, r.start + k, source);
    forall row: Row ensures f(row) == if kind(row) then 1 else 0 {
      DayOnly(r, userId, k, RunsOf(source), row);
    }
    SumIsCount(rows, f, kind);
  }

  lemma FailedCell(rows: seq<Row>, userId: Option<int>, r: Range, k: nat)
    requires k < r.days
    ensures Column(rows, r, ForUser(userId, FailedRuns()))[k] == |Places(rows, FailedOn(userId, r.start + k))|
  {
    var f, kind := OnDay(r.start + k, Within(r, ForUser(userId, FailedRuns()))), FailedOn(userId, r.start + k);
    forall row: Row ensures f(row) == if kind(row) then 1 else 0 {
      DayOnly(r, userId, k, FailedRuns(), row);
    }
    SumIsCount(rows, f, kind);
  }

  lemma AmountCell(rows: seq<Row>, userId: Option<int>, r: Range, k: nat, f: Measure, amount: Row -> Option<int>)
    requires k < r.days && forall row :: f(row) == if amount(row).Some? then amount(row).value else 0
    ensures Column(rows, r, ForUser(userId, f))[k] == SumOf(rows, OfDay(userId, r.start + k), amount)
  {
    var g, kind := OnDay(r.start + k, Within(r, ForUser(userId, f))), OfDay(userId, r.start + k);
    forall row: Row ensures g(row) == if kind(row) && amount(row).Some? then amount(row).value else 0 {
      DayOnly(r, userId, k, f, row);
    }
    SumIsSumOf(rows, g, kind, amount);
  }

  /** Each cell of a day counts or adds up that day's settled rows, of the user
      or of everyone, in its own column. */
  lemma CellsMean(rows: seq<Row>, userId: Option<int>, r: Range, k: nat)
    requires k < r.days
    ensures var s, day := ActivitySeries(rows, userId, r), r.start + k;
            && |s.check| == |s.suggestion| == |s.name| == |s.failed| == r.days
            && |s.inputTokens| == |s.outputTokens| == |s.credits| == r.days
            && s.check[k] == |Places(rows, CompletedOn(userId, day, "check"))|
            && s.suggestion[k] == |Places(rows, CompletedOn(userId, day, "suggestion"))|
            && s.name[k] == |Places(rows, CompletedOn(userId, day, "name"))|
            && s.failed[k] == |Places(rows, FailedOn(userId, day))|
            && s.inputTokens[k] == SumOf(rows, OfDay(userId, day), Input())
            && s.outputTokens[k] == SumOf(rows, OfDay(userId, day), Output())
            && s.credits[k] == SumOf(rows, OfDay(userId, day), Credit())
  {
    RunCell(rows, userId, r, k, "check");
    RunCell(rows, userId, r, k, "suggestion");
    RunCell(rows, userId, r, k, "name");
    FailedCell(rows, userId, r, k);
    AmountCell(rows, userId, r, k, InputTokens(), Input());
    AmountCell(rows, userId, r, k, OutputTokens(), Output());
    AmountCell(rows, userId, r, k, CreditsSpent(), Credit());
  }

  /** And a user's line counts and adds up the user's settled rows of the range. */
  lemma LineMeans(rows: seq<Row>, r: Range, i: nat)
    requires i < |ActivityUserTotals(rows, r)|
    ensures var t := ActivityUserTotals(rows, r)[i];
            && t.runs == |Places(rows, OfRange(t.userId, r))|
            && t.inputTokens == SumOf(rows, OfRange(t.userId, r), Input())
            && t.outputTokens == SumOf(rows, OfRange(t.userId, r), Output())
            && t.credits == SumOf(rows, OfRange(t.userId, r), Credit())
  {
    var u := Users(rows, r)[i];
    var any, kind := OfUser(u, Within(r, AnyRun())), OfRange(u, r);
    forall row: Row ensures any(row) == if kind(row) then 1 else 0 {
      assert Within(r, AnyRun())(row) == if Settled(row, r) then AnyRun()(row) else 0;
    }
    SumIsCount(rows, any, kind);
    SumIsSumOf(rows, OfUser(u, Within(r, InputTokens())), OfRange(u, r), Input());
    SumIsSumOf(rows, OfUser(u, Within(r, OutputTokens())), OfRange(u, r), Output());
    SumIsSumOf(rows, OfUser(u, Within(r, CreditsSpent())), OfRange(u, r), Credit());
  }

  // ---- Users ----

  ghost predicate Distinct(xs: seq<int>) {
    forall i, j :: 0 <= i < j < |xs| ==> xs[i] != xs[j]
  }

  lemma {:induction false} UsersCover(rows: seq<Row>, r: Range)
    ensures Distinct(Users(rows, r))
    ensures forall i :: 0 <= i < |rows| && Settled(rows[i], r) ==> rows[i].userId in Users(rows, r)
    ensures forall u :: u in Users(rows, r) ==> exists i :: 0 <= i < |rows| && Settled(rows[i], r) && rows[i].userId == u
  {
    if rows != [] {
      var n := |rows| - 1;
      UsersCover(rows[..n], r);
      assert forall i :: 0 <= i < n ==> rows[..n][i] == rows[i];
      forall u | u in Users(rows, r)
        ensures exists i :: 0 <= i < |rows| && Settled(rows[i], r) && rows[i].userId == u {
        if u in Users(rows[..n], r) {
          var i :| 0 <= i < n && Settled(rows[..n][i], r) && rows[..n][i].userId == u;
          assert rows[i] == rows[..n][i];
        } else {
          assert rows[n].userId == u;
        }
      }
    }
  }

  /** One row contributes to exactly one of distinct users. */
  lemma {:induction false} OneShare(users: seq<int>, userId: int, x: int)
    requires Distinct(users)
    ensures SeqSum(seq(|users|, i requires 0 <= i < |users| => if users[i] == userId then x else 0))
         == if userId in users then x else 0
  {
    if users != [] {
      var n := |users| - 1;
      var init := users[..n];
      OneShare(init, userId, x);
      var shares := seq(|users|, i requires 0 <= i < |users| => if users[i] == userId then x else 0);
      assert shares[..n] == seq(|init|, i requires 0 <= i < |init| => if init[i] == userId then x else 0);
      if users[n] == userId {
        assert userId !in init;
      } else {
        assert userId in users ==> userId in init;
      }
    }
  }

  lemma {:induction false} SeqSumAdds(xs: seq<int>, ys: seq<int>, zs: seq<int>)
    requires |xs| == |ys| == |zs| && forall i :: 0 <= i < |xs| ==> zs[i] == xs[i] + ys[i]
    ensures SeqSum(zs) == SeqSum(xs) + SeqSum(ys)
  {
    if xs != [] {
      var n := |xs| - 1;
      SeqSumAdds(xs[..n], ys[..n], zs[..n]);
    }
  }

  /** Distinct users that cover the counted rows share them out exactly. */
  lemma {:induction false} UsersAddUp(rows: seq<Row>, users: seq<int>, f: Measure)
    requires Distinct(users)
    requires forall i :: 0 <= i < |rows| && f(rows[i]) != 0 ==> rows[i].userId in users
    ensures SeqSum(PerUser(rows, users, f)) == Sum(rows, f)
  {
    if rows == [] {
      OneShare(users, 0, 0);
      assert PerUser(rows, users, f) == seq(|users|, i requires 0 <= i < |users| => if users[i] == 0 then 0 else 0);
    } else {
      var n := |rows| - 1;
      var row := rows[n];
      assert forall i :: 0 <= i < n ==> rows[..n][i] == rows[i];
      UsersAddUp(rows[..n], users, f);
      OneShare(users, row.userId, f(row));
      SeqSumAdds(PerUser(rows[..n], users, f),
                 seq(|users|, i requires 0 <= i < |users| => if users[i] == row.userId then f(row) else 0),
                 PerUser(rows, users, f));
    }
  }

  lemma UserColumnAddsUp(rows: seq<Row>, r: Range, f: Measure)
    ensures SeqSum(PerUser(rows, Users(rows, r), Within(r, f))) == Sum(rows, Within(r, f))
  {
    UsersCover(rows, r);
    UsersAddUp(rows, Users(rows, r), Within(r, f));
  }

  // ---- Theorems ----

  function AllRuns(s: Series): int {
    SeqSum(s.check) + SeqSum(s.suggestion) + SeqSum(s.name) + SeqSum(s.failed)
  }

  function RunsColumn(ts: seq<UserTotals>): seq<int> {
    seq(|ts|, i requires 0 <= i < |ts| => ts[i].runs)
  }

  function InputColumn(ts: seq<UserTotals>): seq<int> {
    seq(|ts|, i requires 0 <= i < |ts| => ts[i].inputTokens)
  }

  function OutputColumn(ts: seq<UserTotals>): seq<int> {
    seq(|ts|, i requires 0 <= i < |ts| => ts[i].outputTokens)
  }

  function CreditsColumn(ts: seq<UserTotals>): seq<int> {
    seq(|ts|, i requires 0 <= i < |ts| => ts[i].credits)
  }

  /** Summed over days or over users, tokens and credits are the same. */
  lemma TokensAndCreditsAgree(rows: seq<Row>, r: Range)
    ensures var s, ts := ActivitySeries(rows, None, r), ActivityUserTotals(rows, r);
            && SeqSum(s.inputTokens) == SeqSum(InputColumn(ts))
            && SeqSum(s.outputTokens) == SeqSum(OutputColumn(ts))
            && SeqSum(s.credits) == SeqSum(CreditsColumn(ts))
  {
    var ts, users := ActivityUserTotals(rows, r), Users(rows, r);
    ColumnAddsUp(rows, r, InputTokens());
    ColumnAddsUp(rows, r, OutputTokens());
    ColumnAddsUp(rows, r, CreditsSpent());
    UserColumnAddsUp(rows, r, InputTokens());
    UserColumnAddsUp(rows, r, OutputTokens());
    UserColumnAddsUp(rows, r, CreditsSpent());
    assert InputColumn(ts) == PerUser(rows, users, Within(r, InputTokens()));
    assert OutputColumn(ts) == PerUser(rows, users, Within(r, OutputTokens()));
    assert CreditsColumn(ts) == PerUser(rows, users, Within(r, CreditsSpent()));
  }

  function Categorised(): Measure {
    (row: Row) => if row.status.Started? || (row.status.Completed? && row.source !in KNOWN_SOURCES) then 0 else 1
  }

  /** The four categories together count the settled rows of known sources. */
  lemma CategoriesAddUp(rows: seq<Row>, r: Range)
    ensures AllRuns(ActivitySeries(rows, None, r)) == Sum(rows, Within(r, Categorised()))
  {
    ColumnAddsUp(rows, r, RunsOf("check"));
    ColumnAddsUp(rows, r, RunsOf("suggestion"));
    ColumnAddsUp(rows, r, RunsOf("name"));
    ColumnAddsUp(rows, r, FailedRuns());
    SumOfFour(rows, Within(r, RunsOf("check")), Within(r, RunsOf("suggestion")), Within(r, RunsOf("name")),
              Within(r, FailedRuns()), Within(r, Categorised()));
  }

  /** Run counts never exceed the per-user count, and agree exactly when every
      completed row of the range has one of the three known sources. */
  lemma RunCountsAgree(rows: seq<Row>, r: Range)
    ensures var s, ts := ActivitySeries(rows, None, r), ActivityUserTotals(rows, r);
            && AllRuns(s) <= SeqSum(RunsColumn(ts))
            && (AllRuns(s) == SeqSum(RunsColumn(ts)) <==>
                  forall i :: 0 <= i < |rows| ==> !UnknownCompleted(rows[i], r))
  {
    var ts, users := ActivityUserTotals(rows, r), Users(rows, r);
    CategoriesAddUp(rows, r);
    UserColumnAddsUp(rows, r, AnyRun());
    assert RunsColumn(ts) == PerUser(rows, users, Within(r, AnyRun()));
    var f, g := Within(r, Categorised()), Within(r, AnyRun());
    SumBelow(rows, f, g);
    assert forall i :: 0 <= i < |rows| ==> (f(rows[i]) == g(rows[i]) <==> !UnknownCompleted(rows[i], r));
  }

  /** The only line of a table for a user, if the table has one. */
  predicate OnlyLine(ts: seq<UserTotals>, i: int, userId: int) {
    && 0 <= i < |ts| && ts[i].userId == userId
    && forall j :: 0 <= j < |ts| && ts[j].userId == userId ==> j == i
  }

  lemma OwnColumn(rows: seq<Row>, r: Range, userId: int, f: Measure)
    ensures SeqSum(Column(rows, r, OfUser(userId, f))) == Sum(rows, OfUser(userId, Within(r, f)))
  {
    ColumnAddsUp(rows, r, OfUser(userId, f));
    SumCongruent(rows, Within(r, OfUser(userId, f)), OfUser(userId, Within(r, f)));
  }

  lemma OneCategory(row: Row, r: Range, userId: int)
    ensures OfUser(userId, Within(r, Categorised()))(row) ==
            OfUser(userId, Within(r, RunsOf("check")))(row) + OfUser(userId, Within(r, RunsOf("suggestion")))(row)
            + OfUser(userId, Within(r, RunsOf("name")))(row) + OfUser(userId, Within(r, FailedRuns()))(row)
  {
  }

  lemma OwnCategoriesAddUp(rows: seq<Row>, r: Range, userId: int)
    ensures AllRuns(ActivitySeries(rows, Some(userId), r)) == Sum(rows, OfUser(userId, Within(r, Categorised())))
  {
    OwnColumn(rows, r, userId, RunsOf("check"));
    OwnColumn(rows, r, userId, RunsOf("suggestion"));
    OwnColumn(rows, r, userId, RunsOf("name"));
    OwnColumn(rows, r, userId, FailedRuns());
    forall i | 0 <= i < |rows| { OneCategory(rows[i], r, userId); }
    SumOfFour(rows, OfUser(userId, Within(r, RunsOf("check"))), OfUser(userId, Within(r, RunsOf("suggestion"))),
              OfUser(userId, Within(r, RunsOf("name"))), OfUser(userId, Within(r, FailedRuns())),
              OfUser(userId, Within(r, Categorised())));
  }

  /** A user's own run categories count the settled rows of known sources, so
      they never exceed the user's count and equal it exactly when no completed
      row of the user has an unknown source. */
  lemma OwnRuns(rows: seq<Row>, r: Range, userId: int)
    ensures var own := AllRuns(ActivitySeries(rows, Some(userId), r));
            var runs := Sum(rows, OfUser(userId, Within(r, AnyRun())));
            && own <= runs
            && (own == runs <==>
                  forall i :: 0 <= i < |rows| && rows[i].userId == userId ==> !UnknownCompleted(rows[i], r))
  {
    OwnCategoriesAddUp(rows, r, userId);
    var known, all := OfUser(userId, Within(r, Categorised())), OfUser(userId, Within(r, AnyRun()));
    forall i | 0 <= i < |rows|
      ensures known(rows[i]) <= all(rows[i])
      ensures known(rows[i]) == all(rows[i]) <==> (rows[i].userId == userId ==> !UnknownCompleted(rows[i], r))
    {
    }
    SumBelow(rows, known, all);
  }

  lemma LineOfUser(rows: seq<Row>, r: Range, userId: int)
    requires userId in Users(rows, r)
    ensures exists i ::
              OnlyLine(ActivityUserTotals(rows, r), i, userId)
              && ActivityUserTotals(rows, r)[i] == TotalsOf(rows, r, userId)
  {
    UsersCover(rows, r);
    var users := Users(rows, r);
    var i :| 0 <= i < |users| && users[i] == userId;
    var ts := ActivityUserTotals(rows, r);
    assert ts[i] == TotalsOf(rows, r, users[i]);
    forall j | 0 <= j < |ts| && ts[j].userId == userId ensures j == i {
      assert ts[j] == TotalsOf(rows, r, users[j]);
    }
    assert OnlyLine(ts, i, userId);
  }

  /** A user's own series adds up to the one line the table has for that user,
      in runs exactly when no completed row of the user has an unknown source;
      a user without a line has a series of nothing. */
  lemma OwnSeriesMatchesTable(rows: seq<Row>, r: Range, userId: int)
    ensures var s, ts := ActivitySeries(rows, Some(userId), r), ActivityUserTotals(rows, r);
            && (userId in Users(rows, r) ==> exists i ::
                  && OnlyLine(ts, i, userId)
                  && SeqSum(s.inputTokens) == ts[i].inputTokens && SeqSum(s.outputTokens) == ts[i].outputTokens
                  && SeqSum(s.credits) == ts[i].credits && AllRuns(s) <= ts[i].runs
                  && (AllRuns(s) == ts[i].runs <==>
                        forall k :: 0 <= k < |rows| && rows[k].userId == userId ==> !UnknownCompleted(rows[k], r)))
            && (userId !in Users(rows, r) ==>
                  && (forall i :: 0 <= i < |ts| ==> ts[i].userId != userId)
                  && SeqSum(s.inputTokens) == SeqSum(s.outputTokens) == SeqSum(s.credits) == 0)
  {
    OwnColumn(rows, r, userId, InputTokens());
    OwnColumn(rows, r, userId, OutputTokens());
    OwnColumn(rows, r, userId, CreditsSpent());
    OwnRuns(rows, r, userId);
    if userId in Users(rows, r) {
      LineOfUser(rows, r, userId);
    } else {
      UsersCover(rows, r);
      NothingOf(rows, r, userId, InputTokens());
      NothingOf(rows, r, userId, OutputTokens());
      NothingOf(rows, r, userId, CreditsSpent());
    }
  }

  lemma NothingOf(rows: seq<Row>, r: Range, userId: int, f: Measure)
    requires userId !in Users(rows, r)
    ensures Sum(rows, OfUser(userId, Within(r, f))) == 0
  {
    UsersCover(rows, r);
    var nothing := (row: Row) => 0;
    SumCongruent(rows, OfUser(userId, Within(r, f)), nothing);
    SumZero(rows, nothing);
  }
}
