/** The analytics endpoint: four totals for the signed-in user and a
    seven-slot weekly trend, Sunday first, built from the per-day rows of a
    grouped query. */
module Analytics {

  import opened Js
  import opened Http
  import VerifyToken

  /** The aggregate row: `total_emails`, `generated_count`, `refined_count`,
      `sent_count`, as the driver hands them over (a SUM over no rows is NULL). */
  datatype Totals = Totals(totalEmails: Scalar, generatedCount: Scalar, refinedCount: Scalar, sentCount: Scalar)

  /** The record used when the aggregate query returns no row. */
  const ZeroTotals: Totals := Totals(Num(0), Num(0), Num(0), Num(0))

  /** `analyticsRows[0] || { ...zeros }`: a row object is always truthy. */
  function TotalsOf(rows: seq<Totals>): Totals {
    if rows == [] then ZeroTotals else rows[0]
  }

  /** One row of the grouped trend query: the `%a` day label and its count. */
  datatype TrendRow = TrendRow(day: string, count: Scalar)

  /** One entry of the `trend` array. */
  datatype TrendEntry = TrendEntry(day: string, count: Scalar)

  const WeekdayOrder: seq<string> := ["Sun", "Mon", "Tue", "Wed", "Thu", "Fri", "Sat"]

  /** The object `trendMap` after the first `|rows|` assignments of the
      `forEach`: each row writes its count under its label. */
  function TrendMapOf(rows: seq<TrendRow>): map<string, Scalar>
    decreases |rows|
  {
    if rows == [] then map[]
    else TrendMapOf(rows[..|rows| - 1])[rows[|rows| - 1].day := rows[|rows| - 1].count]
  }

  /** `trendRows.forEach(row => { trendMap[row.day] = row.count; })`. */
  method BuildTrendMap(rows: seq<TrendRow>) returns (trendMap: map<string, Scalar>)
    ensures trendMap == TrendMapOf(rows)
  {
    trendMap := map[];
    var i := 0;
    while i < |rows|
      invariant 0 <= i <= |rows|
      invariant trendMap == TrendMapOf(rows[..i])
    {
      assert rows[..i + 1][..i] == rows[..i];
      trendMap := trendMap[rows[i].day := rows[i].count];
      i := i + 1;
    }
    assert rows[..|rows|] == rows;
  }

  /** Row `j` is the last row carrying label `day`. */
  predicate LastWith(rows: seq<TrendRow>, day: string, j: int) {
    && 0 <= j < |rows|
    && rows[j].day == day
    && forall k :: j < k < |rows| ==> rows[k].day != day
  }

  /** The map's keys are exactly the labels of the rows. */
  lemma {:induction false} TrendMapKeys(rows: seq<TrendRow>, day: string)
    ensures day in TrendMapOf(rows) <==> exists j :: 0 <= j < |rows| && rows[j].day == day
    decreases |rows|
  {
    if rows != [] {
      var init := rows[..|rows| - 1];
      TrendMapKeys(init, day);
      if day in TrendMapOf(init) {
        var j :| 0 <= j < |init| && init[j].day == day;
        assert rows[j].day == day;
      }
      if exists j :: 0 <= j < |rows| && rows[j].day == day {
        var j :| 0 <= j < |rows| && rows[j].day == day;
        if j < |rows| - 1 {
          assert init[j].day == day;
        }
      }
    }
  }

  /** When several rows share a label, the last one's count is kept. */
  lemma {:induction false} LastRowWins(rows: seq<TrendRow>, day: string, j: int)
    requires LastWith(rows, day, j)
    ensures day in TrendMapOf(rows) && TrendMapOf(rows)[day] == rows[j].count
    decreases |rows|
  {
    if j < |rows| - 1 {
      var init := rows[..|rows| - 1];
      assert LastWith(init, day, j);
      LastRowWins(init, day, j);
    }
  }

  /** `weekdayOrder.map(day => ({ day, count: trendMap[day] || 0 }))`. */
  function Trend(trendMap: map<string, Scalar>): (trend: seq<TrendEntry>)
    ensures |trend| == 7
    ensures forall i :: 0 <= i < 7 ==> trend[i].day == WeekdayOrder[i]
    ensures forall i :: 0 <= i < 7 ==>
      trend[i].count == (if WeekdayOrder[i] in trendMap && Truthy(trendMap[WeekdayOrder[i]])
                         then trendMap[WeekdayOrder[i]] else Num(0))
  {
    seq(7, i requires 0 <= i < 7 =>
      var day := WeekdayOrder[i];
      TrendEntry(day, if day in trendMap && Truthy(trendMap[day]) then trendMap[day] else Num(0)))
  }

  /** Each slot's count is the last row with that label when its count is
      truthy, and 0 when no row carries the label or its count is falsy. */
  lemma TrendCounts(rows: seq<TrendRow>, i: int)
    requires 0 <= i < 7
    ensures var c := Trend(TrendMapOf(rows))[i].count;
      && (forall j :: LastWith(rows, WeekdayOrder[i], j) ==>
            c == (if Truthy(rows[j].count) then rows[j].count else Num(0)))
      && ((forall j :: 0 <= j < |rows| ==> rows[j].day != WeekdayOrder[i]) ==> c == Num(0))
  {
    TrendMapKeys(rows, WeekdayOrder[i]);
    forall j | LastWith(rows, WeekdayOrder[i], j)
      ensures Trend(TrendMapOf(rows))[i].count == (if Truthy(rows[j].count) then rows[j].count else Num(0))
    {
      LastRowWins(rows, WeekdayOrder[i], j);
    }
  }

  /** A row whose label is not one of the seven day names leaves the trend
      as it was. */
  lemma OtherLabelsIgnored(rows: seq<TrendRow>, row: TrendRow)
    requires row.day !in WeekdayOrder
    ensures Trend(TrendMapOf(rows + [row])) == Trend(TrendMapOf(rows))
  {
    var extended := rows + [row];
    assert extended[..|extended| - 1] == rows;
    var a, b := Trend(TrendMapOf(extended)), Trend(TrendMapOf(rows));
    forall i | 0 <= i < 7 ensures a[i] == b[i] {
      assert WeekdayOrder[i] != row.day;
    }
  }

  /** The response body `{ ...analytics, trend }`. */
  datatype Report = Report(totals: Totals, trend: seq<TrendEntry>)

  /** The two queries, in the order they may run. */
  datatype Query = TotalsQuery(userId: int) | TrendQuery(userId: int)

  /** The user id the handler proceeds with: the gate passed and `req.user.id`
      is truthy. */
  function Admitted(httpMethod: string, authorization: Option<string>, verify: VerifyToken.Verifier): Option<int> {
    if httpMethod != "GET" then None else VerifyToken.AdmittedUser(authorization, verify)
  }

  /** The handler, with `jwt.verify` and the two queries as oracles (None
      when a query throws); `queries` lists the queries it ran. */
  method Handle(httpMethod: string, authorization: Option<string>, verify: VerifyToken.Verifier,
                totalsQuery: int -> Option<seq<Totals>>, trendQuery: int -> Option<seq<TrendRow>>)
    returns (reply: Reply<Report>, queries: seq<Query>)
    ensures httpMethod != "GET" ==> reply == Error(405, "Method not allowed") && queries == []
    ensures httpMethod == "GET" && VerifyToken.Gate(authorization, verify).Rejected? ==>
      reply == Error(401, VerifyToken.Gate(authorization, verify).error) && queries == []
    ensures (&& httpMethod == "GET" && VerifyToken.Gate(authorization, verify).Passed?
             && Admitted(httpMethod, authorization, verify).None?) ==>
      reply == Error(401, "User ID not found in token") && queries == []
    ensures queries != [] <==> Admitted(httpMethod, authorization, verify).Some?
    ensures Admitted(httpMethod, authorization, verify).Some? ==>
      var uid := Admitted(httpMethod, authorization, verify).value;
      && queries[0] == TotalsQuery(uid)
      && (totalsQuery(uid).None? ==> reply == Error(500, "Failed to fetch analytics") && |queries| == 1)
      && (totalsQuery(uid).Some? ==> queries == [TotalsQuery(uid), TrendQuery(uid)])
      && (totalsQuery(uid).Some? && trendQuery(uid).None? ==> reply == Error(500, "Failed to fetch analytics"))
      && (totalsQuery(uid).Some? && trendQuery(uid).Some? ==>
            && reply.Ok? && reply.body.trend == Trend(TrendMapOf(trendQuery(uid).value))
            && (totalsQuery(uid).value == [] ==> reply.body.totals == Totals(Num(0), Num(0), Num(0), Num(0)))
            && (totalsQuery(uid).value != [] ==> reply.body.totals == totalsQuery(uid).value[0]))
  {
    queries := [];
    if httpMethod != "GET" {
      return Error(405, "Method not allowed"), queries;
    }
    var gate := VerifyToken.Gate(authorization, verify);
    if gate.Rejected? {
      return Error(401, gate.error), queries;
    }
    var userId := gate.user.id;
    if userId.None? || userId.value == 0 {
      return Error(401, "User ID not found in token"), queries;
    }
    queries := queries + [TotalsQuery(userId.value)];
    var analyticsRows := totalsQuery(userId.value);
    if analyticsRows.None? {
      return Error(500, "Failed to fetch analytics"), queries;
    }
    var analytics := TotalsOf(analyticsRows.value);
    queries := queries + [TrendQuery(userId.value)];
    var trendRows := trendQuery(userId.value);
    if trendRows.None? {
      return Error(500, "Failed to fetch analytics"), queries;
    }
    var trendMap := BuildTrendMap(trendRows.value);
    reply := Ok(Report(analytics, Trend(trendMap)));
  }
}
