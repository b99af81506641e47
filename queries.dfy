/** The read side of the backend: `invoices.get`, `invoices.getStats`,
    `settings.get`, `settings.getNextInvoiceNumber` and
    `users.getCurrentUser`, each a function of the tables it reads. */
module Queries {
  import opened Wrappers
  import opened Schema
  import opened Tables
  import opened Sorting
  import opened Integrity
  import opened InvoiceStats
  import InvoiceNumbers

  /** What `get` returns for an invoice. */
  datatype InvoiceDetail = InvoiceDetail(invoice: Invoice, client: Option<Client>,
                                         lineItems: seq<LineItem>, claims: seq<Claim>)

  /** What the settings query returns: the stored row, or the defaults. */
  datatype SettingsView =
    | Stored(row: Settings)
    | Defaults(userId: Id, invoicePrefix: string, invoiceNumberStart: int, dueDateDays: int, taxRate: real)

  const DefaultDueDateDays: int := 14
  const DefaultTaxRate: real := 0.0

  /** An index query followed by a sort: exactly the rows with the key, each
      once, in ascending order. */
  lemma SortedChildren<T>(rows: seq<T>, parent: T -> Id, id: Id, key: T -> real)
    ensures var r := SortBy(Children(rows, parent, id), key);
      (forall x :: x in r <==> x in rows && parent(x) == id)
      && multiset(r) == multiset(Children(rows, parent, id))
      && SortedBy(r, key)
  {
    var c := Children(rows, parent, id);
    ChildrenSpec(rows, parent, id);
    SortByPermutes(c, key);
    SortBySorted(c, key);
    var r := SortBy(c, key);
    forall x ensures x in r <==> x in c {
      assert x in r <==> x in multiset(r);
      assert x in c <==> x in multiset(c);
    }
  }

  /** `get`: the invoice with its client and its rows, each list sorted by
      `order`; nothing for an unknown id. */
  function Detail(invoices: seq<Invoice>, clients: seq<Client>, lineItems: seq<LineItem>, claims: seq<Claim>,
                  invoiceId: Id): (r: Option<InvoiceDetail>)
    ensures r.None? <==> invoiceId !in InvoiceIds(invoices)
    ensures r.Some? ==> r.value.invoice in invoices && r.value.invoice.id == invoiceId
    ensures r.Some? ==> forall x :: x in r.value.lineItems <==> x in lineItems && x.invoiceId == invoiceId
    ensures r.Some? ==> forall x :: x in r.value.claims <==> x in claims && x.invoiceId == invoiceId
    ensures r.Some? ==> multiset(r.value.lineItems) == multiset(Children(lineItems, LineParent, invoiceId))
    ensures r.Some? ==> multiset(r.value.claims) == multiset(Children(claims, ClaimParent, invoiceId))
    ensures r.Some? ==> SortedBy(r.value.lineItems, LineOrder) && SortedBy(r.value.claims, ClaimOrder)
  {
    match Find(invoices, InvoiceKey, invoiceId)
    case None => None
    case Some(k) =>
      var inv := invoices[k];
      SortedChildren(lineItems, LineParent, invoiceId, LineOrder);
      SortedChildren(claims, ClaimParent, invoiceId, ClaimOrder);
      Some(InvoiceDetail(inv, Lookup(clients, ClientKey, inv.clientId),
                         SortBy(Children(lineItems, LineParent, invoiceId), LineOrder),
                         SortBy(Children(claims, ClaimParent, invoiceId), ClaimOrder)))
  }

  /** What `get` returns for the invoice at position `k`. */
  lemma {:induction false} DetailAt(invoices: seq<Invoice>, clients: seq<Client>, lines: seq<LineItem>,
                                    claims: seq<Claim>, k: nat)
    requires k < |invoices| && Find(invoices, InvoiceKey, invoices[k].id) == Some(k)
    ensures var id := invoices[k].id;
      Detail(invoices, clients, lines, claims, id)
      == Some(InvoiceDetail(invoices[k], Lookup(clients, ClientKey, invoices[k].clientId),
                            SortBy(Children(lines, LineParent, id), LineOrder),
                            SortBy(Children(claims, ClaimParent, id), ClaimOrder)))
  {
  }

  /** `getStats`: the figures over the user's invoices and clients. */
  function StatsFor(invoices: seq<Invoice>, clients: seq<Client>, userId: Id): (s: Stats)
    ensures s.totalInvoices == |Children(invoices, InvoiceOwner, userId)|
    ensures s.activeClients == |Children(clients, ClientOwner, userId)|
  {
    StatsOf(Children(invoices, InvoiceOwner, userId), |Children(clients, ClientOwner, userId)|)
  }

  /** A new invoice shows up in its owner's figures, as one more invoice
      whose total moves the earnings or the outstanding sum by its status,
      and leaves every other user's figures as they were. */
  lemma {:induction false} StatsAfterInsert(invoices: seq<Invoice>, clients: seq<Client>, inv: Invoice, userId: Id)
    ensures var before, after := StatsFor(invoices, clients, userId), StatsFor(invoices + [inv], clients, userId);
      if inv.userId == userId then
        after.totalInvoices == before.totalInvoices + 1
        && after.totalEarnings == before.totalEarnings + (if inv.status == Paid then inv.total else 0.0)
        && after.totalOutstanding == before.totalOutstanding + (if Outstanding(inv.status) then inv.total else 0.0)
        && after.paidInvoices == before.paidInvoices + (if inv.status == Paid then 1 else 0)
        && after.activeClients == before.activeClients
      else after == before
  {
    ChildrenAppend(invoices, [inv], InvoiceOwner, userId);
    var mine := Children(invoices, InvoiceOwner, userId);
    var count := |Children(clients, ClientOwner, userId)|;
    if inv.userId == userId {
      assert Children([inv], InvoiceOwner, userId) == [inv];
      StatsOfOneMore(mine, inv, count);
    } else {
      assert Children([inv], InvoiceOwner, userId) == [];
      assert mine + [] == mine;
    }
  }

  /** `settings.get`: the user's row, or the defaults when there is none. */
  function SettingsFor(settings: seq<Settings>, userId: Id): (v: SettingsView)
    ensures v.Stored? <==> exists x :: x in settings && x.userId == userId
    ensures v.Stored? ==> v.row in settings && v.row.userId == userId
    ensures v.Defaults? ==>
              v.userId == userId && v.invoicePrefix == InvoiceNumbers.DefaultPrefix
              && v.invoiceNumberStart == InvoiceNumbers.DefaultStart
              && v.dueDateDays == DefaultDueDateDays && v.taxRate == DefaultTaxRate
  {
    match Lookup(settings, SettingsOwner, userId)
    case None =>
      Defaults(userId, InvoiceNumbers.DefaultPrefix, InvoiceNumbers.DefaultStart, DefaultDueDateDays, DefaultTaxRate)
    case Some(row) => Stored(row)
  }

  /** `settings?.invoicePrefix ?? "INV"`: a missing row or a missing field
      falls back to the default. */
  function PrefixFor(settings: seq<Settings>, userId: Id): string {
    match Lookup(settings, SettingsOwner, userId)
    case None => InvoiceNumbers.DefaultPrefix
    case Some(row) => row.invoicePrefix.GetOr(InvoiceNumbers.DefaultPrefix)
  }

  /** `settings?.invoiceNumberStart ?? 1`. */
  function StartFor(settings: seq<Settings>, userId: Id): int {
    match Lookup(settings, SettingsOwner, userId)
    case None => InvoiceNumbers.DefaultStart
    case Some(row) => row.invoiceNumberStart.GetOr(InvoiceNumbers.DefaultStart)
  }

  /** The number of the user's most recently created invoice:
      `order("desc").take(1)` on the `by_user` index. */
  function LatestNumber(invoices: seq<Invoice>, userId: Id): Option<string> {
    if invoices == [] then None
    else if invoices[|invoices| - 1].userId == userId then Some(invoices[|invoices| - 1].invoiceNumber)
    else LatestNumber(invoices[..|invoices| - 1], userId)
  }

  /** No number exactly when the user has no invoice. */
  lemma {:induction false} LatestNoneIff(invoices: seq<Invoice>, userId: Id)
    ensures LatestNumber(invoices, userId).None? <==> forall k :: 0 <= k < |invoices| ==> invoices[k].userId != userId
    decreases |invoices|
  {
    if invoices != [] && invoices[|invoices| - 1].userId != userId {
      var front := invoices[..|invoices| - 1];
      LatestNoneIff(front, userId);
      assert forall k :: 0 <= k < |front| ==> front[k] == invoices[k];
    }
  }

  /** Otherwise the number is that of the user's invoice that comes last in
      insertion order. */
  lemma {:induction false} LatestSomeIsLast(invoices: seq<Invoice>, userId: Id)
    requires LatestNumber(invoices, userId).Some?
    ensures exists k :: 0 <= k < |invoices| && invoices[k].userId == userId
                        && invoices[k].invoiceNumber == LatestNumber(invoices, userId).value
                        && forall j :: k < j < |invoices| ==> invoices[j].userId != userId
    decreases |invoices|
  {
    var n := |invoices| - 1;
    if invoices[n].userId != userId {
      var front := invoices[..n];
      LatestSomeIsLast(front, userId);
      var k :| 0 <= k < |front| && front[k].userId == userId
               && front[k].invoiceNumber == LatestNumber(front, userId).value
               && forall j :: k < j < |front| ==> front[j].userId != userId;
      assert invoices[k] == front[k];
      assert forall j :: k < j < n ==> invoices[j] == front[j];
    } else {
      assert invoices[n].invoiceNumber == LatestNumber(invoices, userId).value;
    }
  }

  /** `getNextInvoiceNumber`. */
  function NextNumberFor(settings: seq<Settings>, invoices: seq<Invoice>, userId: Id): (r: string)
    ensures |r| >= |PrefixFor(settings, userId)| + 1 + InvoiceNumbers.Width
    ensures r[..|PrefixFor(settings, userId)| + 1] == PrefixFor(settings, userId) + "-"
  {
    InvoiceNumbers.NextInvoiceNumber(PrefixFor(settings, userId), StartFor(settings, userId),
                                     LatestNumber(invoices, userId))
  }

  /** A user without invoices is offered the start number. */
  lemma {:induction false} FirstNumberForUser(settings: seq<Settings>, invoices: seq<Invoice>, userId: Id)
    requires forall x :: x in invoices ==> x.userId != userId
    ensures NextNumberFor(settings, invoices, userId)
            == InvoiceNumbers.Format(PrefixFor(settings, userId), StartFor(settings, userId))
  {
    LatestNoneIff(invoices, userId);
  }

  /** A new user, with no settings row and no invoice, is offered "INV-0001". */
  lemma {:induction false} NewUserGetsFirstNumber(settings: seq<Settings>, invoices: seq<Invoice>, userId: Id)
    requires forall x :: x in settings ==> x.userId != userId
    requires forall x :: x in invoices ==> x.userId != userId
    ensures NextNumberFor(settings, invoices, userId) == "INV-0001"
  {
    LatestNoneIff(invoices, userId);
    InvoiceNumbers.DefaultFirstNumber();
  }

  /** The allocator reads the newest invoice only: once an invoice numbered
      by the allocator is created, the next suggestion follows it, whatever
      came before and whatever prefix it was issued under. */
  lemma {:induction false} NextNumberAfterInsert(settings: seq<Settings>, invoices: seq<Invoice>, inv: Invoice,
                                                 issuedPrefix: string, n: nat)
    requires inv.invoiceNumber == InvoiceNumbers.Format(issuedPrefix, n)
    ensures NextNumberFor(settings, invoices + [inv], inv.userId)
            == InvoiceNumbers.Format(PrefixFor(settings, inv.userId), n + 1)
  {
    assert LatestNumber(invoices + [inv], inv.userId) == Some(inv.invoiceNumber);
    InvoiceNumbers.NextAfterIssued(PrefixFor(settings, inv.userId), issuedPrefix, StartFor(settings, inv.userId), n);
  }

  /** An invoice of another user does not move this user's suggestion. */
  lemma {:induction false} NextNumberIgnoresOthers(settings: seq<Settings>, invoices: seq<Invoice>, inv: Invoice,
                                                   userId: Id)
    requires inv.userId != userId
    ensures NextNumberFor(settings, invoices + [inv], userId) == NextNumberFor(settings, invoices, userId)
  {
    assert (invoices + [inv])[..|invoices|] == invoices;
  }

  /** `getCurrentUser`: the user with this Clerk id, if any. */
  function CurrentUser(users: seq<User>, clerkId: string): (r: Option<User>)
    ensures r.Some? ==> r.value in users && r.value.clerkId == clerkId
    ensures r.None? <==> forall x :: x in users ==> x.clerkId != clerkId
  {
    Lookup(users, ClerkKey, clerkId)
  }
}
