/** `getStats` (convex/invoices.ts): a user's invoices folded into the
    dashboard's summary figures. */
module InvoiceStats {
  import opened Schema

  datatype Stats = Stats(totalEarnings: real, totalOutstanding: real, totalInvoices: nat,
                         paidInvoices: nat, activeClients: nat)

  predicate Outstanding(s: Status) {
    s == Sent || s == Overdue
  }

  /** The sum of the totals of the paid invoices. */
  function Earnings(invoices: seq<Invoice>): real {
    if invoices == [] then 0.0
    else Earnings(invoices[..|invoices| - 1])
         + (if invoices[|invoices| - 1].status == Paid then invoices[|invoices| - 1].total else 0.0)
  }

  /** The sum of the totals of the sent and overdue invoices. */
  function OutstandingTotal(invoices: seq<Invoice>): real {
    if invoices == [] then 0.0
    else OutstandingTotal(invoices[..|invoices| - 1])
         + (if Outstanding(invoices[|invoices| - 1].status) then invoices[|invoices| - 1].total else 0.0)
  }

  /** The number of paid invoices. */
  function PaidCount(invoices: seq<Invoice>): nat {
    if invoices == [] then 0
    else PaidCount(invoices[..|invoices| - 1]) + (if invoices[|invoices| - 1].status == Paid then 1 else 0)
  }

  /** The figures for a user with these invoices and this many clients. */
  function StatsOf(invoices: seq<Invoice>, clientCount: nat): Stats {
    Stats(Earnings(invoices), OutstandingTotal(invoices), |invoices|, PaidCount(invoices), clientCount)
  }

  /** No more invoices are paid than there are. */
  lemma {:induction false} PaidAtMostAll(invoices: seq<Invoice>)
    ensures StatsOf(invoices, 0).paidInvoices <= StatsOf(invoices, 0).totalInvoices
    decreases |invoices|
  {
    if invoices != [] {
      PaidAtMostAll(invoices[..|invoices| - 1]);
    }
  }

  /** One more invoice adds its total to the earnings if it is paid, to the
      outstanding sum if it is sent or overdue, and to neither if it is a
      draft; it always counts toward the number of invoices. */
  lemma {:induction false} StatsOfOneMore(invoices: seq<Invoice>, inv: Invoice, clientCount: nat)
    ensures var before, after := StatsOf(invoices, clientCount), StatsOf(invoices + [inv], clientCount);
      after.totalInvoices == before.totalInvoices + 1
      && after.totalEarnings == before.totalEarnings + (if inv.status == Paid then inv.total else 0.0)
      && after.totalOutstanding == before.totalOutstanding + (if Outstanding(inv.status) then inv.total else 0.0)
      && after.paidInvoices == before.paidInvoices + (if inv.status == Paid then 1 else 0)
      && after.activeClients == clientCount
  {
    assert (invoices + [inv])[..|invoices|] == invoices;
  }

  /** A draft moves no money figure. */
  lemma DraftsCountOnly(invoices: seq<Invoice>, inv: Invoice, clientCount: nat)
    requires inv.status == Draft
    ensures var before, after := StatsOf(invoices, clientCount), StatsOf(invoices + [inv], clientCount);
      after == before.(totalInvoices := before.totalInvoices + 1)
  {
    StatsOfOneMore(invoices, inv, clientCount);
  }

  /** With non-negative totals, earnings plus outstanding never exceed the
      sum of all totals. */
  lemma {:induction false} MoneyWithinTotals(invoices: seq<Invoice>)
    requires forall k :: 0 <= k < |invoices| ==> invoices[k].total >= 0.0
    ensures 0.0 <= Earnings(invoices) && 0.0 <= OutstandingTotal(invoices)
    ensures Earnings(invoices) + OutstandingTotal(invoices) <= AllTotals(invoices)
    decreases |invoices|
  {
    if invoices != [] {
      MoneyWithinTotals(invoices[..|invoices| - 1]);
    }
  }

  function AllTotals(invoices: seq<Invoice>): real {
    if invoices == [] then 0.0 else AllTotals(invoices[..|invoices| - 1]) + invoices[|invoices| - 1].total
  }
}
