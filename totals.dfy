/** The arithmetic `create` and `update` (convex/invoices.ts) share: each
    line is priced and numbered, each claim numbered, and the invoice's
    subtotal, tax and total are derived from them. No rounding is applied. */
module Totals {
  import opened Wrappers

  /** A line as the caller sends it. */
  datatype LineInput = LineInput(description: string, quantity: real, unitPrice: real)
  /** A claim as the caller sends it. */
  datatype ClaimInput = ClaimInput(description: string, amount: real, date: int,
                                   imageStorageId: Option<string>)

  /** A line with its total and its position, ready to be stored. */
  datatype PricedLine = PricedLine(description: string, quantity: real, unitPrice: real,
                                   total: real, order: int)
  /** A claim with its position, ready to be stored. */
  datatype NumberedClaim = NumberedClaim(description: string, amount: real, date: int,
                                         order: int, imageStorageId: Option<string>)

  /** The invoice figures stored beside the rows. */
  datatype Amounts = Amounts(subtotal: real, tax: real, total: real)

  /** The sum of `quantity * unitPrice` over the requested lines. */
  function LinesValue(items: seq<LineInput>): real {
    if items == [] then 0.0
    else LinesValue(items[..|items| - 1]) + items[|items| - 1].quantity * items[|items| - 1].unitPrice
  }

  /** The sum of the requested claim amounts. */
  function ClaimsValue(claims: seq<ClaimInput>): real {
    if claims == [] then 0.0 else ClaimsValue(claims[..|claims| - 1]) + claims[|claims| - 1].amount
  }

  /** The requested lines, priced and numbered by position. */
  function Priced(items: seq<LineInput>): (priced: seq<PricedLine>)
    ensures |priced| == |items|
  {
    seq(|items|, k requires 0 <= k < |items| =>
      PricedLine(items[k].description, items[k].quantity, items[k].unitPrice,
                 items[k].quantity * items[k].unitPrice, k))
  }

  /** The requested claims, numbered by position. */
  function Numbered(claims: seq<ClaimInput>): (numbered: seq<NumberedClaim>)
    ensures |numbered| == |claims|
  {
    seq(|claims|, k requires 0 <= k < |claims| =>
      NumberedClaim(claims[k].description, claims[k].amount, claims[k].date, k, claims[k].imageStorageId))
  }

  /** The `lineItems.map` with `subtotal += total`: every line gets
      `total = quantity * unitPrice` and its position as `order`, and the
      running sum ends at the value of all lines. */
  method PriceLines(items: seq<LineInput>) returns (priced: seq<PricedLine>, subtotal: real)
    ensures |priced| == |items|
    ensures forall k :: 0 <= k < |items| ==>
              priced[k] == PricedLine(items[k].description, items[k].quantity, items[k].unitPrice,
                                      items[k].quantity * items[k].unitPrice, k)
    ensures priced == Priced(items)
    ensures subtotal == LinesValue(items)
  {
    priced := [];
    subtotal := 0.0;
    var index := 0;
    while index < |items|
      invariant 0 <= index <= |items|
      invariant |priced| == index
      invariant forall k :: 0 <= k < index ==>
                  priced[k] == PricedLine(items[k].description, items[k].quantity, items[k].unitPrice,
                                          items[k].quantity * items[k].unitPrice, k)
      invariant subtotal == LinesValue(items[..index])
    {
      var item := items[index];
      var total := item.quantity * item.unitPrice;
      subtotal := subtotal + total;
      priced := priced + [PricedLine(item.description, item.quantity, item.unitPrice, total, index)];
      assert items[..index + 1][..index] == items[..index];
      index := index + 1;
    }
    assert items[..index] == items;
    assert forall k :: 0 <= k < |items| ==> priced[k] == Priced(items)[k];
  }

  /** The `claims.map` with `claimsTotal += amount`: every claim gets its
      position as `order`, and the running sum ends at the claims' value. */
  method NumberClaims(claims: seq<ClaimInput>) returns (numbered: seq<NumberedClaim>, claimsTotal: real)
    ensures |numbered| == |claims|
    ensures forall k :: 0 <= k < |claims| ==>
              numbered[k] == NumberedClaim(claims[k].description, claims[k].amount, claims[k].date,
                                           k, claims[k].imageStorageId)
    ensures numbered == Numbered(claims)
    ensures claimsTotal == ClaimsValue(claims)
  {
    numbered := [];
    claimsTotal := 0.0;
    var index := 0;
    while index < |claims|
      invariant 0 <= index <= |claims|
      invariant |numbered| == index
      invariant forall k :: 0 <= k < index ==>
                  numbered[k] == NumberedClaim(claims[k].description, claims[k].amount, claims[k].date,
                                               k, claims[k].imageStorageId)
      invariant claimsTotal == ClaimsValue(claims[..index])
    {
      var claim := claims[index];
      claimsTotal := claimsTotal + claim.amount;
      numbered := numbered + [NumberedClaim(claim.description, claim.amount, claim.date, index,
                                            claim.imageStorageId)];
      assert claims[..index + 1][..index] == claims[..index];
      index := index + 1;
    }
    assert claims[..index] == claims;
    assert forall k :: 0 <= k < |claims| ==> numbered[k] == Numbered(claims)[k];
  }

  /** `taxRate ?? 0`. */
  function TaxRate(taxRate: Option<real>): real {
    taxRate.GetOr(0.0)
  }

  /** Subtotal, tax and total from the line and claim sums and the rate. */
  function ComputeAmounts(lineSubtotal: real, claimsTotal: real, taxRate: Option<real>): Amounts {
    var subtotal := lineSubtotal + claimsTotal;
    var tax := subtotal * TaxRate(taxRate);
    Amounts(subtotal, tax, subtotal + tax)
  }

  /** Without a rate no tax is charged and the total is the subtotal; with
      one, the total is the subtotal scaled by one plus the rate. */
  lemma AmountsMeaning(lineSubtotal: real, claimsTotal: real, taxRate: Option<real>)
    ensures var a := ComputeAmounts(lineSubtotal, claimsTotal, taxRate);
      a.subtotal == lineSubtotal + claimsTotal
      && a.total == a.subtotal + a.tax
      && (taxRate.None? ==> a.tax == 0.0 && a.total == a.subtotal)
      && (taxRate.Some? ==> a.total == a.subtotal * (1.0 + taxRate.value))
  {
  }

  /** Non-negative sums and rate never give a total below the subtotal. */
  lemma TotalCoversSubtotal(lineSubtotal: real, claimsTotal: real, taxRate: Option<real>)
    requires lineSubtotal >= 0.0 && claimsTotal >= 0.0 && TaxRate(taxRate) >= 0.0
    ensures var a := ComputeAmounts(lineSubtotal, claimsTotal, taxRate);
      0.0 <= a.tax && a.subtotal <= a.total
  {
    ProductNonNegative(lineSubtotal + claimsTotal, TaxRate(taxRate));
  }

  lemma ProductNonNegative(x: real, y: real)
    requires x >= 0.0 && y >= 0.0
    ensures x * y >= 0.0
  {
  }

  /** The value of a list of lines adds up over a split of the list. */
  lemma {:induction false} LinesValueAppend(a: seq<LineInput>, b: seq<LineInput>)
    ensures LinesValue(a + b) == LinesValue(a) + LinesValue(b)
    decreases |b|
  {
    if b != [] {
      LinesValueAppend(a, b[..|b| - 1]);
      assert (a + b)[..|a + b| - 1] == a + b[..|b| - 1];
    } else {
      assert a + b == a;
    }
  }
}
