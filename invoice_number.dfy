/** The invoice-number suggestion of `getNextInvoiceNumber`
    (convex/settings.ts): the user's prefix, a dash and a number padded with
    zeros to four characters. The number is one more than the number found
    at the end of the user's most recently created invoice, or the
    configured start number when there is no invoice or nothing to read. */
module InvoiceNumbers {
  import opened Wrappers
  import opened JsStrings

  const DefaultPrefix: string := "INV"
  const DefaultStart: int := 1
  /** The width `padStart` pads the number to. */
  const Width: nat := 4

  /** `${prefix}-${String(n).padStart(4, "0")}` */
  function Format(prefix: string, n: int): (r: string)
    ensures |r| >= |prefix| + 1 + Width
    ensures r[..|prefix| + 1] == prefix + "-"
  {
    prefix + "-" + PadStart(IntToString(n), Width, '0')
  }

  /** The text the allocator reads a number from: the piece after the last
      dash, where an empty piece stands for "0". */
  function LastNumberText(invoiceNumber: string): (t: string)
    ensures t != [] && '-' !in t
  {
    var last := LastSegment(invoiceNumber, '-');
    if last == [] then "0" else last
  }

  /** The suggested next invoice number, given the prefix and start number
      in force and the number of the latest invoice, if there is one. */
  function NextInvoiceNumber(prefix: string, start: int, latest: Option<string>): (r: string)
    ensures |r| >= |prefix| + 1 + Width
    ensures r[..|prefix| + 1] == prefix + "-"
  {
    Format(prefix, NextNumber(start, latest))
  }

  /** The number the suggestion carries: the start number without a latest
      invoice or when its last piece is not a number, else one more than
      that number. */
  function NextNumber(start: int, latest: Option<string>): int {
    match latest
    case None => start
    case Some(number) =>
      match ParseInt(LastNumberText(number))
      case None => start
      case Some(last) => last + 1
  }

  /** With no invoice yet the start number is used. */
  lemma {:induction false} FirstInvoiceUsesStart(prefix: string, start: int)
    ensures NextInvoiceNumber(prefix, start, None) == Format(prefix, start)
  {
  }

  /** A user with no settings and no invoices is offered "INV-0001". */
  lemma DefaultFirstNumber()
    ensures NextInvoiceNumber(DefaultPrefix, DefaultStart, None) == "INV-0001"
  {
    FirstNumberOne(DefaultPrefix);
  }

  /** With no invoice and start number 1, "<prefix>-0001" is offered. */
  lemma FirstNumberOne(prefix: string)
    ensures NextInvoiceNumber(prefix, 1, None) == prefix + "-0001"
  {
    FirstInvoiceUsesStart(prefix, 1);
    FormatDigitText(prefix, 1, '1');
  }

  /** If the last piece of the latest number starts with digits, their
      value plus one is suggested, whatever text follows them. */
  lemma {:induction false} ReadsLeadingDigits(prefix: string, start: int, latest: string, ds: string, rest: string)
    requires LastSegment(latest, '-') == ds + rest
    requires ds != [] && AllDigits(ds)
    requires rest == [] || !IsDigit(rest[0])
    ensures NextInvoiceNumber(prefix, start, Some(latest)) == Format(prefix, DigitsValue(ds) + 1)
  {
    var t := LastNumberText(latest);
    assert t == ds + rest;
    ParseIntDigitPrefix(ds, rest);
    assert NextNumber(start, Some(latest)) == DigitsValue(ds) + 1;
  }

  /** A number the allocator produced, under any prefix, is followed by the
      next one: suggestions that are accepted come out consecutive. */
  lemma {:induction false} NextAfterIssued(prefix: string, earlier: string, start: int, n: nat)
    ensures NextInvoiceNumber(prefix, start, Some(Format(earlier, n))) == Format(prefix, n + 1)
  {
    LastNumberOfFormatted(earlier, n);
    ParseIntOfPadded(n, Width);
    NextNumberReads(prefix, start, Format(earlier, n), n);
  }

  /** The allocator reads a number it formatted back as its padded digits. */
  lemma LastNumberOfFormatted(earlier: string, n: nat)
    ensures LastNumberText(Format(earlier, n)) == PadStart(NatToString(n), Width, '0')
  {
    var digits := PadStart(NatToString(n), Width, '0');
    PaddedIsDigits(n);
    assert IntToString(n) == NatToString(n);
    assert Format(earlier, n) == earlier + ['-'] + digits;
    LastSegmentAfterSeparator(earlier, '-', digits);
  }

  /** A last piece that parses to v gives v + 1. */
  lemma NextNumberReads(prefix: string, start: int, latest: string, v: int)
    requires ParseInt(LastNumberText(latest)) == Some(v)
    ensures NextInvoiceNumber(prefix, start, Some(latest)) == Format(prefix, v + 1)
  {
  }

  lemma PaddedIsDigits(n: nat)
    ensures var digits := PadStart(NatToString(n), Width, '0');
      AllDigits(digits) && '-' !in digits
  {
    var ds := NatToString(n);
    var digits := PadStart(ds, Width, '0');
    var k := |digits| - |ds|;
    forall i | 0 <= i < |digits| ensures IsDigit(digits[i]) {
      if i >= k {
        assert digits[i] == digits[k..][i - k] == ds[i - k];
      }
    }
  }

  /** The worked example: "INV-0007" is followed by "INV-0008", under any
      prefix and start number. */
  lemma IncrementExample(prefix: string, start: int)
    ensures NextInvoiceNumber(prefix, start, Some(prefix + "-0007")) == prefix + "-0008"
  {
    FormatDigitText(prefix, 7, '7');
    FormatDigitText(prefix, 8, '8');
    NextAfterIssued(prefix, prefix, start, 7);
  }

  /** A one-digit number gets three zeros in front. */
  lemma FormatDigitText(prefix: string, d: nat, c: char)
    requires d < 10 && c == DigitChar(d)
    ensures Format(prefix, d) == prefix + ['-', '0', '0', '0', c]
  {
    assert IntToString(d) == [c];
    assert Repeat('0', 3) == "000";
    assert prefix + "-" + ("000" + [c]) == prefix + ['-', '0', '0', '0', c];
  }

  /** A last piece that is not a number restarts from the start number. */
  lemma {:induction false} NonNumericRestarts(prefix: string, start: int, latest: string)
    requires ParseInt(LastNumberText(latest)) == None
    ensures NextInvoiceNumber(prefix, start, Some(latest)) == Format(prefix, start)
  {
  }

  /** The worked example: after "INV-ABC" the start number is offered
      again, under any prefix. */
  lemma NonNumericExample(prefix: string, start: int)
    ensures NextInvoiceNumber(prefix, start, Some(prefix + "-ABC")) == Format(prefix, start)
  {
    assert prefix + "-ABC" == prefix + ['-'] + "ABC";
    LastSegmentAfterSeparator(prefix, '-', "ABC");
    ParseIntNonNumeric("ABC");
  }

  /** A number ending in a dash reads as "0", so "<prefix>-0001" follows,
      whatever the start number is. */
  lemma {:induction false} TrailingDashGivesOne(prefix: string, start: int, latest: string)
    requires latest != [] && latest[|latest| - 1] == '-'
    ensures NextInvoiceNumber(prefix, start, Some(latest)) == prefix + "-0001"
  {
    var x := latest[..|latest| - 1];
    assert latest == x + ['-'] + [];
    LastSegmentAfterSeparator(x, '-', []);
    ZeroParses();
    NextNumberReads(prefix, start, latest, 0);
    FormatDigitText(prefix, 1, '1');
  }

  /** `parseInt("0", 10)` is 0. */
  lemma ZeroParses()
    ensures ParseInt("0") == Some(0)
  {
    ParseIntDigitPrefix("0", []);
    assert "0" + [] == "0";
  }

  /** Padding never cuts: a number of four or more digits appears whole. */
  lemma {:induction false} WideNumbersAreKept(prefix: string, n: nat)
    requires |NatToString(n)| >= Width
    ensures Format(prefix, n) == prefix + "-" + NatToString(n)
  {
  }

  /** The worked example: 12345 is written out in full. */
  lemma WideNumberExample(prefix: string)
    ensures Format(prefix, 12345) == prefix + "-12345"
  {
    assert NatToString(12345) == "12345" by {
      assert NatToString(1) == "1";
      assert NatToString(12) == "12";
      assert NatToString(123) == "123";
      assert NatToString(1234) == "1234";
    }
  }
}
