/** The recent-invoices table (src/components/recent-invoices-table.tsx):
    the caller's invoice array is sorted in place, newest issue date first,
    and the first five become table rows. */
module RecentInvoices {
  import opened Wrappers
  import opened Schema
  import opened Sorting
  import opened DashboardRows

  /** `slice(0, 5)`. */
  const Shown: nat := 5

  /** One row of the table. */
  datatype TableRow = TableRow(id: Id, invoiceNumber: string, status: Status, total: real,
                               issueDate: int, dueDate: int, clientId: Option<Id>,
                               clientName: string, clientEmail: Option<string>,
                               clientContact: Option<string>)

  /** The order of `sort((a, b) => b.issueDate - a.issueDate)`: later issue
      dates first, ties kept in their order. */
  function NewestFirst(r: Row): real {
    -(r.issueDate as real)
  }

  /** The `map` from an invoice to a table row; a missing client shows as
      "Unknown client". */
  function ToTableRow(r: Row): (t: TableRow)
    ensures t.id == r.id && t.issueDate == r.issueDate && t.total == r.total && t.status == r.status
    ensures r.client.None? ==> t.clientName == "Unknown client" && t.clientEmail.None? && t.clientContact.None?
    ensures r.client.Some? ==> t.clientName == r.client.value.name
  {
    TableRow(r.id, r.invoiceNumber, r.status, r.total, r.issueDate, r.dueDate, r.clientId,
             if r.client.Some? then r.client.value.name else "Unknown client",
             if r.client.Some? then r.client.value.email else None,
             if r.client.Some? then r.client.value.contactPerson else None)
  }

  /** The table rows for invoices already in display order. */
  function FirstRows(sorted: seq<Row>): (rows: seq<TableRow>)
    ensures |rows| == Min(Shown, |sorted|)
    ensures forall i :: 0 <= i < |rows| ==> rows[i] == ToTableRow(sorted[i])
  {
    var n := Min(Shown, |sorted|);
    seq(n, i requires 0 <= i < n => ToTableRow(sorted[i]))
  }

  /** The table for a list of invoices. */
  function Recent(invoices: seq<Row>): seq<TableRow> {
    FirstRows(SortBy(invoices, NewestFirst))
  }

  /** `recentInvoices`: sorts the caller's array in place and returns the
      rows of its first five invoices. */
  method RecentInvoicesTable(invoices: array<Row>) returns (rows: seq<TableRow>)
    modifies invoices
    ensures invoices[..] == SortBy(old(invoices[..]), NewestFirst)
    ensures multiset(invoices[..]) == multiset(old(invoices[..]))
    ensures rows == Recent(old(invoices[..]))
  {
    SortInPlace(invoices, NewestFirst);
    SortByPermutes(old(invoices[..]), NewestFirst);
    rows := FirstRows(invoices[..]);
  }

  /** The table shows at most five invoices, each one from the list. */
  lemma RecentFromList(invoices: seq<Row>)
    ensures var rows := Recent(invoices);
      |rows| == Min(Shown, |invoices|)
      && forall i :: 0 <= i < |rows| ==> exists r :: r in invoices && rows[i] == ToTableRow(r)
  {
    var sorted := SortBy(invoices, NewestFirst);
    SortByPermutes(invoices, NewestFirst);
    var rows := Recent(invoices);
    assert |sorted| == |invoices|;
    assert rows == FirstRows(sorted);
    assert |rows| == Min(Shown, |invoices|);
    forall i | 0 <= i < |rows| ensures exists r :: r in invoices && rows[i] == ToTableRow(r) {
      assert sorted[i] in multiset(invoices);
      assert sorted[i] in invoices && rows[i] == ToTableRow(sorted[i]);
    }
  }

  /** The table is newest first. */
  lemma RecentNewestFirst(invoices: seq<Row>)
    ensures var rows := Recent(invoices);
      forall i, j :: 0 <= i < j < |rows| ==> rows[i].issueDate >= rows[j].issueDate
  {
    var sorted := SortBy(invoices, NewestFirst);
    SortBySorted(invoices, NewestFirst);
    var rows := Recent(invoices);
    forall i, j | 0 <= i < j < |rows| ensures rows[i].issueDate >= rows[j].issueDate {
      assert NewestFirst(sorted[i]) <= NewestFirst(sorted[j]);
    }
  }

  /** No invoice left out of the table was issued later than one shown. */
  lemma RecentLeavesOutOlder(invoices: seq<Row>, r: Row, i: nat)
    requires r in invoices && i < |Recent(invoices)|
    requires forall j :: 0 <= j < |Recent(invoices)| ==> Recent(invoices)[j] != ToTableRow(r)
    ensures r.issueDate <= Recent(invoices)[i].issueDate
  {
    var sorted := SortBy(invoices, NewestFirst);
    SortByPermutes(invoices, NewestFirst);
    SortBySorted(invoices, NewestFirst);
    var rows := Recent(invoices);
    assert r in multiset(sorted);
    var k :| 0 <= k < |sorted| && sorted[k] == r;
    assert forall j :: 0 <= j < |rows| ==> rows[j] == ToTableRow(sorted[j]);
    assert k >= |rows|;
    assert NewestFirst(sorted[i]) <= NewestFirst(sorted[k]);
  }
}
