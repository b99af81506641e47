/** The charts component (src/components/dashboard-charts.tsx): the paid
    and billed revenue of each of eight weeks, and the status histogram.
    Both are empty when there is no invoice. The week bounds come from
    calendar code and are parameters here. */
module DashboardCharts {
  import opened Schema
  import opened DashboardRows

  /** `Array.from({ length: 8 })`: the number of weekly buckets. */
  const WeekCount: nat := 8

  /** One bar of the weekly chart. */
  datatype WeekPoint = WeekPoint(paid: real, total: real)

  /** The revenue of the rows issued in the bucket that are not drafts. */
  function Billed(rows: seq<Row>, b: Bucket): real {
    if rows == [] then 0.0
    else
      var r := rows[|rows| - 1];
      Billed(rows[..|rows| - 1], b) + (if r.status != Draft && InBucket(r, b) then r.total else 0.0)
  }

  /** The `forEach` of one week: every non-draft invoice issued in
      `[start, end)` adds its total to `totalRevenue`, and a paid one to
      `paidRevenue` as well. */
  method WeekTotals(rows: seq<Row>, b: Bucket) returns (paid: real, total: real)
    ensures paid == PaidRevenue(rows, b) && total == Billed(rows, b)
  {
    paid, total := 0.0, 0.0;
    var k := 0;
    while k < |rows|
      invariant 0 <= k <= |rows|
      invariant paid == PaidRevenue(rows[..k], b) && total == Billed(rows[..k], b)
    {
      var r := rows[k];
      if b.start <= r.issueDate && r.issueDate < b.end {
        if r.status != Draft {
          total := total + r.total;
          if r.status == Paid {
            paid := paid + r.total;
          }
        }
      }
      assert rows[..k + 1][..k] == rows[..k];
      k := k + 1;
    }
    assert rows[..k] == rows;
  }

  /** `weeklyRevenueData`: nothing without invoices; otherwise one point
      per week, in the order the weeks are given. */
  method WeeklyRevenue(rows: seq<Row>, weeks: seq<Bucket>) returns (data: seq<WeekPoint>)
    requires |weeks| == WeekCount
    ensures rows == [] ==> data == []
    ensures rows != [] ==> |data| == WeekCount
    ensures rows != [] ==> forall i :: 0 <= i < |data| ==>
              data[i] == WeekPoint(PaidRevenue(rows, weeks[i]), Billed(rows, weeks[i]))
  {
    if |rows| == 0 {
      return [];
    }
    data := [];
    var i := 0;
    while i < |weeks|
      invariant 0 <= i <= |weeks| && |data| == i
      invariant forall j :: 0 <= j < i ==> data[j] == WeekPoint(PaidRevenue(rows, weeks[j]), Billed(rows, weeks[j]))
    {
      var paid, total := WeekTotals(rows, weeks[i]);
      data := data + [WeekPoint(paid, total)];
      i := i + 1;
    }
  }

  /** Every paid invoice is billed too, so with non-negative totals a
      week's paid revenue never exceeds its billed revenue. */
  lemma {:induction false} PaidWithinBilled(rows: seq<Row>, b: Bucket)
    requires forall k :: 0 <= k < |rows| ==> rows[k].total >= 0.0
    ensures 0.0 <= PaidRevenue(rows, b) <= Billed(rows, b)
    decreases |rows|
  {
    if rows != [] {
      PaidWithinBilled(rows[..|rows| - 1], b);
    }
  }

  /** What one more invoice adds to a week: nothing if it is a draft or
      issued outside `[start, end)`; otherwise its total to the billed
      revenue, and to the paid revenue too when it is paid. */
  lemma BilledOfOneMore(rows: seq<Row>, r: Row, b: Bucket)
    ensures Billed(rows + [r], b)
            == Billed(rows, b) + (if r.status != Draft && b.start <= r.issueDate < b.end then r.total else 0.0)
    ensures r.status == Draft ==> Billed(rows + [r], b) == Billed(rows, b)
                                  && PaidRevenue(rows + [r], b) == PaidRevenue(rows, b)
  {
    assert (rows + [r])[..|rows|] == rows;
    PaidRevenueOfOneMore(rows, r, b);
  }

  /** The component's `statusData`: nothing without invoices; otherwise the
      same histogram as the dashboard page, counting every invoice once. */
  method ChartStatusData(rows: seq<Row>) returns (data: seq<Slice>)
    ensures data == StatusData(CountsOf(rows))
    ensures SliceTotal(data) == |rows|
  {
    if |rows| == 0 {
      NoRowsNoSlices();
      return [];
    }
    var counts := CountStatuses(rows);
    assert counts == CountsOf(rows) by {
      assert counts.Get(Draft) == CountOf(rows, Draft) && counts.Get(Sent) == CountOf(rows, Sent);
      assert counts.Get(Paid) == CountOf(rows, Paid) && counts.Get(Overdue) == CountOf(rows, Overdue);
    }
    CountsCoverAll(rows);
    data := StatusData(counts);
  }
}
