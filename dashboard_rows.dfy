/** The invoice list the dashboard components fold over: each row is an
    invoice of `getByUser` with its client joined in. Shared by the
    dashboard page (src/app/dashboard/page.tsx) and the dashboard charts
    (src/components/dashboard-charts.tsx): the status histogram and the paid
    revenue of a half-open time bucket. */
module DashboardRows {
  import opened Wrappers
  import opened Schema

  /** The fields of the joined client the dashboard reads. */
  datatype ClientInfo = ClientInfo(name: string, email: Option<string>, contactPerson: Option<string>)

  /** One invoice as the dashboard receives it; the client is absent when it
      was deleted, and `clientId` is optional in the components' own type. */
  datatype Row = Row(id: Id, invoiceNumber: string, issueDate: int, dueDate: int, status: Status,
                     total: real, clientId: Option<Id>, client: Option<ClientInfo>)

  /** The length `slice(0, n)` keeps. */
  function Min(a: nat, b: nat): nat {
    if a < b then a else b
  }

  /** A time bucket `[start, end)` in milliseconds since the epoch. */
  datatype Bucket = Bucket(start: int, end: int)

  predicate InBucket(r: Row, b: Bucket) {
    b.start <= r.issueDate < b.end
  }

  /** The per-status tallies of the `counts` record. */
  datatype StatusCounts = StatusCounts(draft: nat, sent: nat, paid: nat, overdue: nat) {
    function Get(s: Status): nat {
      match s
      case Draft => draft
      case Sent => sent
      case Paid => paid
      case Overdue => overdue
    }

    /** `counts[status] += 1`. */
    function Bump(s: Status): (c: StatusCounts)
      ensures c.Get(s) == Get(s) + 1
      ensures forall t :: t != s ==> c.Get(t) == Get(t)
    {
      match s
      case Draft => this.(draft := draft + 1)
      case Sent => this.(sent := sent + 1)
      case Paid => this.(paid := paid + 1)
      case Overdue => this.(overdue := overdue + 1)
    }

    function Sum(): nat {
      draft + sent + paid + overdue
    }
  }

  /** The number of rows with status `s`. */
  function CountOf(rows: seq<Row>, s: Status): nat {
    if rows == [] then 0
    else CountOf(rows[..|rows| - 1], s) + (if rows[|rows| - 1].status == s then 1 else 0)
  }

  function CountsOf(rows: seq<Row>): StatusCounts {
    StatusCounts(CountOf(rows, Draft), CountOf(rows, Sent), CountOf(rows, Paid), CountOf(rows, Overdue))
  }

  /** The `forEach` that fills the `counts` record, one row at a time. */
  method CountStatuses(rows: seq<Row>) returns (counts: StatusCounts)
    ensures forall s :: counts.Get(s) == CountOf(rows, s)
  {
    counts := StatusCounts(0, 0, 0, 0);
    var k := 0;
    while k < |rows|
      invariant 0 <= k <= |rows|
      invariant forall s :: counts.Get(s) == CountOf(rows[..k], s)
    {
      assert rows[..k + 1][..k] == rows[..k];
      counts := counts.Bump(rows[k].status);
      k := k + 1;
    }
    assert rows[..k] == rows;
  }

  /** Every row has one of the four statuses, so the tallies add up to the
      number of rows. */
  lemma {:induction false} CountsCoverAll(rows: seq<Row>)
    ensures CountsOf(rows).Sum() == |rows|
    decreases |rows|
  {
    if rows != [] {
      CountsCoverAll(rows[..|rows| - 1]);
    }
  }

  /** `Object.keys(counts)`: the statuses in the order the record lists them. */
  const StatusOrder: seq<Status> := [Draft, Sent, Paid, Overdue]

  /** A status's position in `StatusOrder`. */
  function Rank(s: Status): (n: nat)
    ensures n < |StatusOrder| && StatusOrder[n] == s
  {
    match s
    case Draft => 0
    case Sent => 1
    case Paid => 2
    case Overdue => 3
  }

  /** `STATUS_LABELS`. */
  function Label(s: Status): string {
    match s
    case Draft => "Draft"
    case Sent => "Sent"
    case Paid => "Paid"
    case Overdue => "Overdue"
  }

  /** One entry of the status chart; the colour is presentation only. */
  datatype Slice = Slice(status: Status, title: string, count: nat)

  /** The `.map(...)` over the statuses, before zero entries are dropped. */
  function AllSlices(counts: StatusCounts): seq<Slice> {
    [Slice(Draft, Label(Draft), counts.draft), Slice(Sent, Label(Sent), counts.sent),
     Slice(Paid, Label(Paid), counts.paid), Slice(Overdue, Label(Overdue), counts.overdue)]
  }

  function SliceTotal(slices: seq<Slice>): nat {
    if slices == [] then 0 else slices[0].count + SliceTotal(slices[1..])
  }

  predicate RankOrdered(slices: seq<Slice>) {
    forall i, j :: 0 <= i < j < |slices| ==> Rank(slices[i].status) < Rank(slices[j].status)
  }

  /** `.filter((item) => item.count > 0)`. */
  function NonEmpty(slices: seq<Slice>): seq<Slice> {
    if slices == [] then []
    else (if slices[0].count > 0 then [slices[0]] else []) + NonEmpty(slices[1..])
  }

  /** The filter keeps exactly the non-zero entries. */
  lemma {:induction false} NonEmptyMembers(slices: seq<Slice>)
    ensures forall x :: x in NonEmpty(slices) <==> x in slices && x.count > 0
    decreases |slices|
  {
    if slices != [] {
      NonEmptyMembers(slices[1..]);
      assert slices == [slices[0]] + slices[1..];
    }
  }

  /** The entries dropped are zero, so the total is unchanged. */
  lemma {:induction false} NonEmptyTotal(slices: seq<Slice>)
    ensures SliceTotal(NonEmpty(slices)) == SliceTotal(slices)
    decreases |slices|
  {
    if slices != [] {
      var rest := slices[1..];
      NonEmptyTotal(rest);
      if slices[0].count > 0 {
        var r := [slices[0]] + NonEmpty(rest);
        assert r[1..] == NonEmpty(rest);
      } else {
        assert [] + NonEmpty(rest) == NonEmpty(rest);
      }
    }
  }

  predicate RanksAbove(slices: seq<Slice>, n: int) {
    forall i :: 0 <= i < |slices| ==> Rank(slices[i].status) > n
  }

  lemma NonEmptyAbove(slices: seq<Slice>, n: int)
    requires RanksAbove(slices, n)
    ensures RanksAbove(NonEmpty(slices), n)
  {
    NonEmptyMembers(slices);
    forall i | 0 <= i < |NonEmpty(slices)| ensures Rank(NonEmpty(slices)[i].status) > n {
      assert NonEmpty(slices)[i] in slices;
    }
  }

  /** The filter keeps the entries in their order. */
  lemma {:induction false} NonEmptyOrdered(slices: seq<Slice>)
    requires RankOrdered(slices)
    ensures RankOrdered(NonEmpty(slices))
    decreases |slices|
  {
    if slices != [] {
      var rest := slices[1..];
      var n := Rank(slices[0].status);
      OrderedTail(slices);
      NonEmptyOrdered(rest);
      NonEmptyAbove(rest, n);
      if slices[0].count > 0 {
        OrderedCons(slices[0], NonEmpty(rest));
      } else {
        assert [] + NonEmpty(rest) == NonEmpty(rest);
      }
    }
  }

  /** The entries after the first are ordered and rank above it. */
  lemma OrderedTail(slices: seq<Slice>)
    requires slices != [] && RankOrdered(slices)
    ensures RankOrdered(slices[1..]) && RanksAbove(slices[1..], Rank(slices[0].status))
  {
    var rest := slices[1..];
    forall i | 0 <= i < |rest| ensures rest[i] == slices[i + 1] {
    }
  }

  /** An entry ranked below every entry of an ordered list can go in front. */
  lemma OrderedCons(x: Slice, tail: seq<Slice>)
    requires RankOrdered(tail) && RanksAbove(tail, Rank(x.status))
    ensures RankOrdered([x] + tail)
  {
    var r := [x] + tail;
    forall i, j | 0 <= i < j < |r| ensures Rank(r[i].status) < Rank(r[j].status) {
      assert r[j] == tail[j - 1];
      if i > 0 {
        assert r[i] == tail[i - 1];
      }
    }
  }

  /** `statusData`: the statuses in the fixed order draft, sent, paid,
      overdue, each with its label and count, leaving out those with no
      invoice; the counts add up to all the tallies. */
  function StatusData(counts: StatusCounts): (r: seq<Slice>)
    ensures RankOrdered(r)
    ensures forall i :: 0 <= i < |r| ==>
              r[i].count > 0 && r[i].count == counts.Get(r[i].status) && r[i].title == Label(r[i].status)
    ensures forall s :: counts.Get(s) > 0 <==> exists i :: 0 <= i < |r| && r[i].status == s
    ensures SliceTotal(r) == counts.Sum()
  {
    var all := AllSlices(counts);
    AllSlicesFacts(counts);
    NonEmptyMembers(all);
    NonEmptyTotal(all);
    NonEmptyOrdered(all);
    var r := NonEmpty(all);
    forall s | counts.Get(s) > 0 ensures exists i :: 0 <= i < |r| && r[i].status == s {
      assert all[Rank(s)] in r;
    }
    forall i | 0 <= i < |r|
      ensures r[i].count > 0 && r[i].count == counts.Get(r[i].status) && r[i].title == Label(r[i].status)
    {
      assert r[i] in all;
    }
    r
  }

  lemma AllSlicesFacts(counts: StatusCounts)
    ensures var all := AllSlices(counts);
      RankOrdered(all) && SliceTotal(all) == counts.Sum()
      && (forall s :: all[Rank(s)] == Slice(s, Label(s), counts.Get(s)))
      && (forall x :: x in all ==> x.count == counts.Get(x.status) && x.title == Label(x.status))
  {
    var all := AllSlices(counts);
    var tail := [Slice(Overdue, Label(Overdue), counts.overdue)];
    assert tail[1..] == [];
    assert SliceTotal(tail) == counts.overdue;
    assert all[1..][1..] == [Slice(Paid, Label(Paid), counts.paid)] + tail;
    assert all[1..][1..][1..] == tail;
    assert SliceTotal(all[1..][1..]) == counts.paid + counts.overdue;
    assert SliceTotal(all[1..]) == counts.sent + counts.paid + counts.overdue;
  }

  /** Nothing to count gives an empty chart. */
  lemma NoRowsNoSlices()
    ensures StatusData(CountsOf([])) == []
  {
    assert CountsOf([]) == StatusCounts(0, 0, 0, 0);
  }

  /** The revenue of the `paid` rows issued in the bucket: the `reduce` of
      `monthlyRevenueData` and the `paidRevenue` of the weekly buckets. */
  function PaidRevenue(rows: seq<Row>, b: Bucket): real {
    if rows == [] then 0.0
    else
      var r := rows[|rows| - 1];
      PaidRevenue(rows[..|rows| - 1], b) + (if r.status == Paid && InBucket(r, b) then r.total else 0.0)
  }

  /** The totals of all paid rows, whenever issued. */
  function AllPaid(rows: seq<Row>): real {
    if rows == [] then 0.0
    else AllPaid(rows[..|rows| - 1]) + (if rows[|rows| - 1].status == Paid then rows[|rows| - 1].total else 0.0)
  }

  /** Adjacent buckets share their boundary without double counting: the
      revenue of `[a, c)` is that of `[a, b)` plus that of `[b, c)`. */
  lemma {:induction false} PaidRevenueSplit(rows: seq<Row>, a: int, b: int, c: int)
    requires a <= b <= c
    ensures PaidRevenue(rows, Bucket(a, c)) == PaidRevenue(rows, Bucket(a, b)) + PaidRevenue(rows, Bucket(b, c))
    decreases |rows|
  {
    if rows != [] {
      PaidRevenueSplit(rows[..|rows| - 1], a, b, c);
    }
  }

  /** With non-negative totals a bucket's revenue lies between zero and the
      revenue of all paid invoices. */
  lemma {:induction false} PaidRevenueBounded(rows: seq<Row>, b: Bucket)
    requires forall k :: 0 <= k < |rows| ==> rows[k].total >= 0.0
    ensures 0.0 <= PaidRevenue(rows, b) <= AllPaid(rows)
    decreases |rows|
  {
    if rows != [] {
      PaidRevenueBounded(rows[..|rows| - 1], b);
    }
  }

  /** One more row adds its total exactly when it is paid and issued in the
      bucket: a row issued at the bucket's end falls in the next one. */
  lemma PaidRevenueOfOneMore(rows: seq<Row>, r: Row, b: Bucket)
    ensures PaidRevenue(rows + [r], b)
            == PaidRevenue(rows, b) + (if r.status == Paid && b.start <= r.issueDate < b.end then r.total else 0.0)
  {
    assert (rows + [r])[..|rows|] == rows;
  }
}
