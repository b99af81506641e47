/** What the invoice mutations of convex/invoices.ts keep true of the
    invoices, lineItems and claims tables together: invoice ids are unique,
    every child row points at an existing invoice, every line's total is its
    quantity times its unit price, and every invoice's stored subtotal is the
    sum of its lines and claims, with its total the subtotal plus the tax. */
module Integrity {
  import opened Schema
  import opened Tables
  import opened Totals
  import opened Sorting

  function InvoiceIds(invoices: seq<Invoice>): set<Id> {
    set k | 0 <= k < |invoices| :: invoices[k].id
  }

  predicate UniqueIds(invoices: seq<Invoice>) {
    forall i, j :: 0 <= i < j < |invoices| ==> invoices[i].id != invoices[j].id
  }

  /** The figures stored on `inv` agree with its rows. */
  predicate Balanced(inv: Invoice, lines: seq<LineItem>, claims: seq<Claim>) {
    inv.subtotal == LineSum(Children(lines, LineParent, inv.id)) + ClaimSum(Children(claims, ClaimParent, inv.id))
    && inv.total == inv.subtotal + inv.tax
  }

  predicate LinesPriced(lines: seq<LineItem>) {
    forall k :: 0 <= k < |lines| ==> lines[k].total == lines[k].quantity * lines[k].unitPrice
  }

  predicate LinesOwned(lines: seq<LineItem>, ids: set<Id>) {
    forall k :: 0 <= k < |lines| ==> lines[k].invoiceId in ids
  }

  predicate ClaimsOwned(claims: seq<Claim>, ids: set<Id>) {
    forall k :: 0 <= k < |claims| ==> claims[k].invoiceId in ids
  }

  predicate Consistent(invoices: seq<Invoice>, lines: seq<LineItem>, claims: seq<Claim>) {
    UniqueIds(invoices)
    && LinesOwned(lines, InvoiceIds(invoices)) && ClaimsOwned(claims, InvoiceIds(invoices))
    && LinesPriced(lines)
    && forall i :: 0 <= i < |invoices| ==> Balanced(invoices[i], lines, claims)
  }

  /** The rows `create` and `update` insert for the priced lines, with
      consecutive ids from `firstId`. */
  function LineRows(invoiceId: Id, firstId: Id, priced: seq<PricedLine>): (rows: seq<LineItem>)
    ensures |rows| == |priced|
  {
    seq(|priced|, k requires 0 <= k < |priced| =>
      LineItem(firstId + k, invoiceId, priced[k].description, priced[k].quantity,
               priced[k].unitPrice, priced[k].total, priced[k].order))
  }

  /** The rows inserted for the numbered claims, with consecutive ids. */
  function ClaimRows(invoiceId: Id, firstId: Id, numbered: seq<NumberedClaim>): (rows: seq<Claim>)
    ensures |rows| == |numbered|
  {
    seq(|numbered|, k requires 0 <= k < |numbered| =>
      Claim(firstId + k, invoiceId, numbered[k].description, numbered[k].amount, numbered[k].date,
            numbered[k].order, numbered[k].imageStorageId))
  }

  /** Rows built from priced lines keep their totals, so they sum to the
      value of the requested lines. */
  lemma {:induction false} LineRowsSum(invoiceId: Id, firstId: Id, items: seq<LineInput>, priced: seq<PricedLine>)
    requires |priced| == |items|
    requires forall k :: 0 <= k < |items| ==> priced[k].total == items[k].quantity * items[k].unitPrice
    ensures LineSum(LineRows(invoiceId, firstId, priced)) == LinesValue(items)
    decreases |items|
  {
    if items != [] {
      var n := |items| - 1;
      LineRowsSum(invoiceId, firstId, items[..n], priced[..n]);
      assert LineRows(invoiceId, firstId, priced)[..n] == LineRows(invoiceId, firstId, priced[..n]);
    }
  }

  lemma {:induction false} ClaimRowsSum(invoiceId: Id, firstId: Id, claims: seq<ClaimInput>, numbered: seq<NumberedClaim>)
    requires |numbered| == |claims|
    requires forall k :: 0 <= k < |claims| ==> numbered[k].amount == claims[k].amount
    ensures ClaimSum(ClaimRows(invoiceId, firstId, numbered)) == ClaimsValue(claims)
    decreases |claims|
  {
    if claims != [] {
      var n := |claims| - 1;
      ClaimRowsSum(invoiceId, firstId, claims[..n], numbered[..n]);
      assert ClaimRows(invoiceId, firstId, numbered)[..n] == ClaimRows(invoiceId, firstId, numbered[..n]);
    }
  }

  /** Rows numbered by position are already in `order`, so sorting them by
      `order` gives them back unchanged. */
  lemma {:induction false} LinesInOrder(rows: seq<LineItem>)
    requires forall k :: 0 <= k < |rows| ==> rows[k].order == k
    ensures SortBy(rows, LineOrder) == rows
  {
    SortByOfSorted(rows, LineOrder);
  }

  lemma {:induction false} ClaimsInOrder(rows: seq<Claim>)
    requires forall k :: 0 <= k < |rows| ==> rows[k].order == k
    ensures SortBy(rows, ClaimOrder) == rows
  {
    SortByOfSorted(rows, ClaimOrder);
  }

  lemma BalancedUnchanged(inv: Invoice, lines: seq<LineItem>, claims: seq<Claim>,
                          lines1: seq<LineItem>, claims1: seq<Claim>)
    requires Balanced(inv, lines, claims)
    requires Children(lines1, LineParent, inv.id) == Children(lines, LineParent, inv.id)
    requires Children(claims1, ClaimParent, inv.id) == Children(claims, ClaimParent, inv.id)
    ensures Balanced(inv, lines1, claims1)
  {
  }

  lemma OwnedIdsBelow(invoices: seq<Invoice>, lines: seq<LineItem>, claims: seq<Claim>, id: Id)
    requires Consistent(invoices, lines, claims) && id !in InvoiceIds(invoices)
    ensures Children(lines, LineParent, id) == [] && Children(claims, ClaimParent, id) == []
  {
    ChildrenOfAbsent(lines, LineParent, id);
    ChildrenOfAbsent(claims, ClaimParent, id);
  }

  lemma {:induction false} IdsAfterAppend(invoices: seq<Invoice>, inv: Invoice)
    requires UniqueIds(invoices) && inv.id !in InvoiceIds(invoices)
    ensures InvoiceIds(invoices + [inv]) == InvoiceIds(invoices) + {inv.id}
    ensures UniqueIds(invoices + [inv])
  {
    var invoices1 := invoices + [inv];
    forall x | x in InvoiceIds(invoices) ensures x in InvoiceIds(invoices1) {
      var k :| 0 <= k < |invoices| && invoices[k].id == x;
      assert invoices1[k].id == x;
    }
    assert invoices1[|invoices|].id == inv.id;
  }

  lemma {:induction false} OwnedAfterAppend(lines: seq<LineItem>, claims: seq<Claim>, ids: set<Id>,
                                            newLines: seq<LineItem>, newClaims: seq<Claim>, id: Id)
    requires LinesOwned(lines, ids) && ClaimsOwned(claims, ids) && id in ids
    requires LinesPriced(lines) && LinesPriced(newLines)
    requires forall k :: 0 <= k < |newLines| ==> newLines[k].invoiceId == id
    requires forall k :: 0 <= k < |newClaims| ==> newClaims[k].invoiceId == id
    ensures LinesOwned(lines + newLines, ids) && ClaimsOwned(claims + newClaims, ids)
    ensures LinesPriced(lines + newLines)
  {
    var lines1, claims1 := lines + newLines, claims + newClaims;
    forall k | 0 <= k < |lines1|
      ensures lines1[k].invoiceId in ids && lines1[k].total == lines1[k].quantity * lines1[k].unitPrice
    {
      if k >= |lines| { assert lines1[k] == newLines[k - |lines|]; }
    }
    forall k | 0 <= k < |claims1| ensures claims1[k].invoiceId in ids {
      if k >= |claims| { assert claims1[k] == newClaims[k - |claims|]; }
    }
  }

  lemma {:induction false} BalancedAfterAppend(x: Invoice, lines: seq<LineItem>, claims: seq<Claim>,
                                               newLines: seq<LineItem>, newClaims: seq<Claim>, id: Id)
    requires Balanced(x, lines, claims) && x.id != id
    requires forall k :: 0 <= k < |newLines| ==> newLines[k].invoiceId == id
    requires forall k :: 0 <= k < |newClaims| ==> newClaims[k].invoiceId == id
    ensures Balanced(x, lines + newLines, claims + newClaims)
  {
    ChildrenAppend(lines, newLines, LineParent, x.id);
    ChildrenAppend(claims, newClaims, ClaimParent, x.id);
    ChildrenOfAbsent(newLines, LineParent, x.id);
    ChildrenOfAbsent(newClaims, ClaimParent, x.id);
    assert Children(lines, LineParent, x.id) + [] == Children(lines, LineParent, x.id);
    assert Children(claims, ClaimParent, x.id) + [] == Children(claims, ClaimParent, x.id);
  }

  lemma {:induction false} NewInvoiceBalanced(inv: Invoice, lines: seq<LineItem>, claims: seq<Claim>,
                                              newLines: seq<LineItem>, newClaims: seq<Claim>)
    requires Children(lines, LineParent, inv.id) == [] && Children(claims, ClaimParent, inv.id) == []
    requires forall k :: 0 <= k < |newLines| ==> newLines[k].invoiceId == inv.id
    requires forall k :: 0 <= k < |newClaims| ==> newClaims[k].invoiceId == inv.id
    requires inv.subtotal == LineSum(newLines) + ClaimSum(newClaims) && inv.total == inv.subtotal + inv.tax
    ensures Balanced(inv, lines + newLines, claims + newClaims)
  {
    ChildrenAppend(lines, newLines, LineParent, inv.id);
    ChildrenAppend(claims, newClaims, ClaimParent, inv.id);
    ChildrenOfAll(newLines, LineParent, inv.id);
    ChildrenOfAll(newClaims, ClaimParent, inv.id);
    assert [] + newLines == newLines && [] + newClaims == newClaims;
  }

  /** `create` keeps the tables consistent: a new invoice whose id is fresh,
      with rows that point at it and figures that add them up. */
  lemma {:induction false} ConsistentAfterCreate(invoices: seq<Invoice>, lines: seq<LineItem>, claims: seq<Claim>,
                                                 inv: Invoice, newLines: seq<LineItem>, newClaims: seq<Claim>)
    requires Consistent(invoices, lines, claims)
    requires inv.id !in InvoiceIds(invoices)
    requires forall k :: 0 <= k < |newLines| ==> newLines[k].invoiceId == inv.id
    requires forall k :: 0 <= k < |newClaims| ==> newClaims[k].invoiceId == inv.id
    requires LinesPriced(newLines)
    requires inv.subtotal == LineSum(newLines) + ClaimSum(newClaims) && inv.total == inv.subtotal + inv.tax
    ensures Consistent(invoices + [inv], lines + newLines, claims + newClaims)
  {
    var invoices1, lines1, claims1 := invoices + [inv], lines + newLines, claims + newClaims;
    IdsAfterAppend(invoices, inv);
    var ids1 := InvoiceIds(invoices1);
    assert LinesOwned(lines, ids1) && ClaimsOwned(claims, ids1);
    OwnedAfterAppend(lines, claims, ids1, newLines, newClaims, inv.id);
    forall i | 0 <= i < |invoices1| ensures Balanced(invoices1[i], lines1, claims1) {
      if i < |invoices| {
        assert invoices1[i] == invoices[i] && invoices[i].id in InvoiceIds(invoices);
        BalancedAfterAppend(invoices[i], lines, claims, newLines, newClaims, inv.id);
      } else {
        OwnedIdsBelow(invoices, lines, claims, inv.id);
        NewInvoiceBalanced(inv, lines, claims, newLines, newClaims);
      }
    }
  }

  lemma {:induction false} OwnedAfterReplace(lines: seq<LineItem>, claims: seq<Claim>, ids: set<Id>,
                                             newLines: seq<LineItem>, newClaims: seq<Claim>, id: Id)
    requires LinesOwned(lines, ids) && ClaimsOwned(claims, ids) && id in ids
    requires LinesPriced(lines) && LinesPriced(newLines)
    requires forall k :: 0 <= k < |newLines| ==> newLines[k].invoiceId == id
    requires forall k :: 0 <= k < |newClaims| ==> newClaims[k].invoiceId == id
    ensures LinesOwned(Without(lines, LineParent, id) + newLines, ids)
    ensures ClaimsOwned(Without(claims, ClaimParent, id) + newClaims, ids)
    ensures LinesPriced(Without(lines, LineParent, id) + newLines)
  {
    var kept, keptClaims := Without(lines, LineParent, id), Without(claims, ClaimParent, id);
    WithoutSpec(lines, LineParent, id);
    WithoutSpec(claims, ClaimParent, id);
    forall k | 0 <= k < |kept|
      ensures kept[k].invoiceId in ids && kept[k].total == kept[k].quantity * kept[k].unitPrice
    {
      assert kept[k] in lines;
    }
    forall k | 0 <= k < |keptClaims| ensures keptClaims[k].invoiceId in ids {
      assert keptClaims[k] in claims;
    }
    OwnedAfterAppend(kept, keptClaims, ids, newLines, newClaims, id);
  }

  lemma {:induction false} IdsAfterReplace(invoices: seq<Invoice>, i: nat, inv: Invoice)
    requires i < |invoices| && inv.id == invoices[i].id
    ensures InvoiceIds(invoices[i := inv]) == InvoiceIds(invoices)
    ensures UniqueIds(invoices) ==> UniqueIds(invoices[i := inv])
  {
    var invoices1 := invoices[i := inv];
    forall x | x in InvoiceIds(invoices) ensures x in InvoiceIds(invoices1) {
      var k :| 0 <= k < |invoices| && invoices[k].id == x;
      assert invoices1[k].id == x;
    }
    forall x | x in InvoiceIds(invoices1) ensures x in InvoiceIds(invoices) {
      var k :| 0 <= k < |invoices1| && invoices1[k].id == x;
      assert invoices[k].id == x;
    }
  }

  /** `update` keeps the tables consistent: the invoice keeps its id, its old
      rows are all deleted and the new ones point at it and add up to its
      new figures. */
  lemma {:induction false} ConsistentAfterUpdate(invoices: seq<Invoice>, lines: seq<LineItem>, claims: seq<Claim>,
                                                 i: nat, inv: Invoice, newLines: seq<LineItem>, newClaims: seq<Claim>)
    requires Consistent(invoices, lines, claims)
    requires i < |invoices| && inv.id == invoices[i].id
    requires forall k :: 0 <= k < |newLines| ==> newLines[k].invoiceId == inv.id
    requires forall k :: 0 <= k < |newClaims| ==> newClaims[k].invoiceId == inv.id
    requires LinesPriced(newLines)
    requires inv.subtotal == LineSum(newLines) + ClaimSum(newClaims) && inv.total == inv.subtotal + inv.tax
    ensures Consistent(invoices[i := inv], Without(lines, LineParent, inv.id) + newLines,
                       Without(claims, ClaimParent, inv.id) + newClaims)
  {
    var id := inv.id;
    var invoices1 := invoices[i := inv];
    var kept, keptClaims := Without(lines, LineParent, id), Without(claims, ClaimParent, id);
    IdsAfterReplace(invoices, i, inv);
    assert id in InvoiceIds(invoices);
    OwnedAfterReplace(lines, claims, InvoiceIds(invoices), newLines, newClaims, id);
    forall j | 0 <= j < |invoices1| ensures Balanced(invoices1[j], kept + newLines, keptClaims + newClaims) {
      if j != i {
        var x := invoices[j];
        assert x.id != id;
        ChildrenAfterDelete(lines, LineParent, id, x.id);
        ChildrenAfterDelete(claims, ClaimParent, id, x.id);
        BalancedUnchanged(x, lines, claims, kept, keptClaims);
        BalancedAfterAppend(x, kept, keptClaims, newLines, newClaims, id);
      } else {
        ChildrenAfterDelete(lines, LineParent, id, id);
        ChildrenAfterDelete(claims, ClaimParent, id, id);
        NewInvoiceBalanced(inv, kept, keptClaims, newLines, newClaims);
      }
    }
  }

  lemma {:induction false} WithoutKeepsUnique(invoices: seq<Invoice>, id: Id)
    requires UniqueIds(invoices)
    ensures UniqueIds(Without(invoices, InvoiceKey, id))
    ensures InvoiceIds(Without(invoices, InvoiceKey, id)) == InvoiceIds(invoices) - {id}
    decreases |invoices|
  {
    var r := Without(invoices, InvoiceKey, id);
    WithoutSpec(invoices, InvoiceKey, id);
    if invoices != [] {
      var init := invoices[..|invoices| - 1];
      var last := invoices[|invoices| - 1];
      assert UniqueIds(init);
      WithoutKeepsUnique(init, id);
      WithoutSpec(init, InvoiceKey, id);
      if last.id != id {
        var ri := Without(init, InvoiceKey, id);
        assert r == ri + [last];
        forall a | 0 <= a < |ri| ensures ri[a].id != last.id {
          assert ri[a] in init;
          var k :| 0 <= k < |init| && init[k] == ri[a];
          assert invoices[k] == init[k];
        }
      }
    }
    forall x | x in InvoiceIds(invoices) - {id} ensures x in InvoiceIds(r) {
      var k :| 0 <= k < |invoices| && invoices[k].id == x;
      assert invoices[k] in r;
    }
    forall x | x in InvoiceIds(r) ensures x in InvoiceIds(invoices) - {id} {
      var k :| 0 <= k < |r| && r[k].id == x;
      assert r[k] in invoices;
    }
  }

  lemma {:induction false} OwnedAfterDelete(lines: seq<LineItem>, claims: seq<Claim>, ids: set<Id>, id: Id)
    requires LinesOwned(lines, ids) && ClaimsOwned(claims, ids) && LinesPriced(lines)
    ensures LinesOwned(Without(lines, LineParent, id), ids - {id})
    ensures ClaimsOwned(Without(claims, ClaimParent, id), ids - {id})
    ensures LinesPriced(Without(lines, LineParent, id))
  {
    var kept, keptClaims := Without(lines, LineParent, id), Without(claims, ClaimParent, id);
    WithoutSpec(lines, LineParent, id);
    WithoutSpec(claims, ClaimParent, id);
    forall k | 0 <= k < |kept|
      ensures kept[k].invoiceId in ids - {id} && kept[k].total == kept[k].quantity * kept[k].unitPrice
    {
      assert kept[k] in lines;
    }
    forall k | 0 <= k < |keptClaims| ensures keptClaims[k].invoiceId in ids - {id} {
      assert keptClaims[k] in claims;
    }
  }

  /** `deleteInvoiceWithRelations` keeps the tables consistent: with the
      invoice go exactly its rows, so no row is left pointing at nothing. */
  lemma {:induction false} ConsistentAfterDelete(invoices: seq<Invoice>, lines: seq<LineItem>, claims: seq<Claim>, id: Id)
    requires Consistent(invoices, lines, claims)
    ensures Consistent(Without(invoices, InvoiceKey, id), Without(lines, LineParent, id),
                       Without(claims, ClaimParent, id))
  {
    var invoices1 := Without(invoices, InvoiceKey, id);
    var kept, keptClaims := Without(lines, LineParent, id), Without(claims, ClaimParent, id);
    WithoutKeepsUnique(invoices, id);
    OwnedAfterDelete(lines, claims, InvoiceIds(invoices), id);
    forall j | 0 <= j < |invoices1| ensures Balanced(invoices1[j], kept, keptClaims) {
      var x := invoices1[j];
      WithoutSpec(invoices, InvoiceKey, id);
      assert x in invoices && x.id != id;
      ChildrenAfterDelete(lines, LineParent, id, x.id);
      ChildrenAfterDelete(claims, ClaimParent, id, x.id);
    }
  }

  /** Two invoice tables that agree on every row's id and figures. */
  predicate SameFigures(a: seq<Invoice>, b: seq<Invoice>) {
    |a| == |b|
    && forall k :: 0 <= k < |a| ==>
         a[k].id == b[k].id && a[k].subtotal == b[k].subtotal && a[k].tax == b[k].tax && a[k].total == b[k].total
  }

  /** A patch that leaves ids and figures alone keeps the tables consistent. */
  lemma {:induction false} ConsistentAfterPatch(invoices: seq<Invoice>, lines: seq<LineItem>, claims: seq<Claim>,
                                                invoices1: seq<Invoice>)
    requires Consistent(invoices, lines, claims) && SameFigures(invoices, invoices1)
    ensures Consistent(invoices1, lines, claims)
  {
    forall x | x in InvoiceIds(invoices) ensures x in InvoiceIds(invoices1) {
      var k :| 0 <= k < |invoices| && invoices[k].id == x;
      assert invoices1[k].id == x;
    }
    forall k | 0 <= k < |invoices1| ensures Balanced(invoices1[k], lines, claims) {
      assert Balanced(invoices[k], lines, claims);
    }
  }
}
