/** `formatAddressParts` (src/lib/utils.ts): a client's address, given as up
    to four optional fields, laid out as at most three lines — the street;
    the building and the unit; the postal code — joined by newlines, or
    nothing at all when every field is missing or blank. */
module Address {
  import opened Wrappers
  import opened JsStrings

  /** `field?.trim()`, with a missing field read as empty (both are falsy). */
  function Trimmed(field: Option<string>): (t: string)
    ensures IsTrimmed(t)
    ensures t == [] <==> Blank(field)
  {
    if field.Some? then Trim(field.value) else []
  }

  /** A field that is missing, or holds nothing but white space. */
  predicate Blank(field: Option<string>) {
    field.None? || AllSpace(field.value)
  }

  /** The pieces of the building/unit line: the trimmed building if it is
      not empty, then "Unit " and the trimmed unit if that is not empty. */
  function Segments(b: string, u: string): (segs: seq<string>)
    ensures |segs| == (if b == [] then 0 else 1) + (if u == [] then 0 else 1)
  {
    (if b != [] then [b] else []) + (if u != [] then ["Unit " + u] else [])
  }

  /** The building and the unit on one line, `segments.join(", ")`. */
  function BuildingUnitLine(b: string, u: string): (line: string)
    requires IsTrimmed(b) && IsTrimmed(u)
    requires b != [] || u != []
    ensures line != [] && IsTrimmed(line)
    ensures b != [] && u != [] ==> line == b + ", Unit " + u
    ensures b != [] && u == [] ==> line == b
    ensures b == [] && u != [] ==> line == "Unit " + u
  {
    var segs := Segments(b, u);
    if u != [] then
      ConcatTrimmed("Unit ", u);
      if b != [] then
        assert segs == [b, "Unit " + u];
        ConcatTrimmed(b + ", ", "Unit " + u);
        assert Join(segs, ", ") == b + ", " + ("Unit " + u);
        Join(segs, ", ")
      else
        assert segs == ["Unit " + u];
        Join(segs, ", ")
    else
      assert segs == [b];
      Join(segs, ", ")
  }

  /** The lines of the address from the trimmed fields, in the order street,
      building/unit, postal code, each one present only when it has
      something to show. */
  function Lines(s: string, b: string, u: string, p: string): (lines: seq<string>)
    requires IsTrimmed(s) && IsTrimmed(b) && IsTrimmed(u) && IsTrimmed(p)
    ensures |lines| == Present(s) + (if b == [] && u == [] then 0 else 1) + Present(p)
    ensures s != [] ==> lines[0] == s
    ensures b != [] || u != [] ==> lines[Present(s)] == BuildingUnitLine(b, u)
    ensures p != [] ==> lines[|lines| - 1] == "Postal Code " + p
    ensures AllGoodLines(lines)
  {
    var first := if s == [] then [] else [s];
    var middle := if b == [] && u == [] then [] else [BuildingUnitLine(b, u)];
    var last := if p == [] then [] else [PostalLine(p)];
    GoodLinesConcat(first, middle);
    GoodLinesConcat(first + middle, last);
    assert middle != [] ==> (first + middle + last)[|first|] == middle[0];
    first + middle + last
  }

  function Present(t: string): nat {
    if t == [] then 0 else 1
  }

  /** The lines of the address built from the four optional fields. */
  function AddressLines(street: Option<string>, building: Option<string>, unit: Option<string>,
                        postal: Option<string>): (lines: seq<string>)
    ensures |lines| == 0 <==> Blank(street) && Blank(building) && Blank(unit) && Blank(postal)
    ensures |lines| <= 3 && AllGoodLines(lines)
  {
    Lines(Trimmed(street), Trimmed(building), Trimmed(unit), Trimmed(postal))
  }

  /** Every line has something on it and no white space at either end. */
  predicate AllGoodLines(lines: seq<string>) {
    forall i :: 0 <= i < |lines| ==> lines[i] != [] && IsTrimmed(lines[i])
  }

  lemma GoodLinesConcat(a: seq<string>, b: seq<string>)
    requires AllGoodLines(a) && AllGoodLines(b)
    ensures AllGoodLines(a + b)
  {
    forall i | 0 <= i < |a + b| ensures (a + b)[i] != [] && IsTrimmed((a + b)[i]) {
      if i >= |a| {
        assert (a + b)[i] == b[i - |a|];
      }
    }
  }

  /** "Postal Code " and the trimmed postal code. */
  function PostalLine(p: string): (line: string)
    requires p != [] && IsTrimmed(p)
    ensures line == "Postal Code " + p && IsTrimmed(line) && line != []
  {
    ConcatTrimmed("Postal Code ", p);
    "Postal Code " + p
  }

  /** `formatAddressParts`: the lines joined by "\n", or undefined when
      there is no line. */
  function FormatAddress(street: Option<string>, building: Option<string>, unit: Option<string>,
                         postal: Option<string>): (text: Option<string>)
    ensures text.None? <==> Blank(street) && Blank(building) && Blank(unit) && Blank(postal)
  {
    var lines := AddressLines(street, building, unit, postal);
    if |lines| > 0 then Some(Join(lines, "\n")) else None
  }

  predicate NoNewline(field: Option<string>) {
    field.None? || '\n' !in field.value
  }

  /** When no field holds a line break, the formatted text splits back into
      exactly the lines: at most three, street first, postal code last. */
  lemma {:induction false} FormattedLinesSplitBack(street: Option<string>, building: Option<string>,
                                                   unit: Option<string>, postal: Option<string>)
    requires NoNewline(street) && NoNewline(building) && NoNewline(unit) && NoNewline(postal)
    requires !(Blank(street) && Blank(building) && Blank(unit) && Blank(postal))
    ensures Split(FormatAddress(street, building, unit, postal).value, '\n')
            == AddressLines(street, building, unit, postal)
  {
    var lines := AddressLines(street, building, unit, postal);
    TrimmedHasNoNewline(street);
    TrimmedHasNoNewline(building);
    TrimmedHasNoNewline(unit);
    TrimmedHasNoNewline(postal);
    LinesHaveNoNewline(Trimmed(street), Trimmed(building), Trimmed(unit), Trimmed(postal));
    JoinThenSplit(lines, '\n');
  }

  lemma LinesHaveNoNewline(s: string, b: string, u: string, p: string)
    requires IsTrimmed(s) && IsTrimmed(b) && IsTrimmed(u) && IsTrimmed(p)
    requires '\n' !in s && '\n' !in b && '\n' !in u && '\n' !in p
    ensures forall i :: 0 <= i < |Lines(s, b, u, p)| ==> '\n' !in Lines(s, b, u, p)[i]
  {
    var lines := Lines(s, b, u, p);
    forall i | 0 <= i < |lines| ensures '\n' !in lines[i] {
      assert '\n' !in ", Unit " && '\n' !in "Unit " && '\n' !in "Postal Code ";
    }
  }

  lemma TrimmedHasNoNewline(field: Option<string>)
    requires NoNewline(field)
    ensures '\n' !in Trimmed(field)
  {
    if field.Some? {
      TrimAddsNothing(field.value, '\n');
    }
  }
}
