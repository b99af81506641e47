/** The JavaScript string primitives the application relies on, over
    `seq<char>`: `trim`, `split` on one character, `join`, `padStart`,
    `String(n)` for an integer and `parseInt(s, 10)`. */
module JsStrings {
  import opened Wrappers

  /** The WhiteSpace and LineTerminator code points of ECMAScript: what
      `trim` removes and what `parseInt` skips before a number. */
  predicate IsSpace(c: char) {
    || c == '\t' || c == '\n' || c == '\U{B}' || c == '\U{C}' || c == '\r' || c == ' '
    || c == '\U{A0}' || c == '\U{1680}' || '\U{2000}' <= c <= '\U{200A}'
    || c == '\U{2028}' || c == '\U{2029}' || c == '\U{202F}' || c == '\U{205F}'
    || c == '\U{3000}' || c == '\U{FEFF}'
  }

  /** Neither end of `s` is white space. */
  predicate IsTrimmed(s: string) {
    s == [] || (!IsSpace(s[0]) && !IsSpace(s[|s| - 1]))
  }

  predicate AllSpace(s: string) {
    forall i :: 0 <= i < |s| ==> IsSpace(s[i])
  }

  /** `s.trimStart()`: the suffix left after the leading white space. */
  function TrimStart(s: string): (r: string)
    ensures |r| <= |s| && r == s[|s| - |r|..]
    ensures r == [] || !IsSpace(r[0])
  {
    if s == [] || !IsSpace(s[0]) then s else TrimStart(s[1..])
  }

  /** What `trimStart` drops is white space. */
  lemma {:induction false} TrimStartDropsSpace(s: string)
    ensures AllSpace(s[..|s| - |TrimStart(s)|])
  {
    if s != [] && IsSpace(s[0]) {
      var rest := s[1..];
      TrimStartDropsSpace(rest);
      var k := |s| - |TrimStart(s)|;
      assert k == 1 + (|rest| - |TrimStart(rest)|);
      forall i | 0 <= i < k ensures IsSpace(s[..k][i]) {
        if i > 0 {
          assert s[..k][i] == rest[..k - 1][i - 1];
        }
      }
    }
  }

  /** `s.trimEnd()`: the prefix left before the trailing white space. */
  function TrimEnd(s: string): (r: string)
    ensures |r| <= |s| && r == s[..|r|]
    ensures r == [] || !IsSpace(r[|r| - 1])
  {
    if s == [] || !IsSpace(s[|s| - 1]) then s else TrimEnd(s[..|s| - 1])
  }

  /** What `trimEnd` drops is white space. */
  lemma {:induction false} TrimEndDropsSpace(s: string)
    ensures AllSpace(s[|TrimEnd(s)|..])
  {
    if s != [] && IsSpace(s[|s| - 1]) {
      var init := s[..|s| - 1];
      TrimEndDropsSpace(init);
      var k := |TrimEnd(s)|;
      assert k == |TrimEnd(init)|;
      forall i | 0 <= i < |s| - k ensures IsSpace(s[k..][i]) {
        if k + i < |s| - 1 {
          assert s[k..][i] == init[k..][i];
        }
      }
    }
  }

  /** `s.trim()`: `s` without white space at either end; it is empty
      exactly when `s` holds nothing but white space. */
  function Trim(s: string): (r: string)
    ensures IsTrimmed(r) && |r| <= |s|
    ensures r == [] <==> AllSpace(s)
  {
    var t := TrimStart(s);
    var r := TrimEnd(t);
    EmptyTrimIsAllSpace(s, t, r);
    r
  }

  lemma EmptyTrimIsAllSpace(s: string, t: string, r: string)
    requires t == TrimStart(s) && r == TrimEnd(t)
    ensures r == [] <==> AllSpace(s)
  {
    if r == [] {
      TrimStartDropsSpace(s);
      TrimEndDropsSpace(t);
      assert t == [] by {
        assert t[|r|..] == t;
      }
      assert s[..|s| - |t|] == s;
    }
  }

  /** Trimming adds no character. */
  lemma TrimAddsNothing(s: string, c: char)
    requires c !in s
    ensures c !in Trim(s)
  {
  }

  /** Text that starts and ends with something other than white space is trimmed. */
  lemma ConcatTrimmed(x: string, y: string)
    requires x != [] && !IsSpace(x[0])
    requires y != [] && !IsSpace(y[|y| - 1])
    ensures IsTrimmed(x + y)
  {
    assert (x + y)[0] == x[0] && (x + y)[|x + y| - 1] == y[|y| - 1];
  }

  /** Trimming a string that is already trimmed changes nothing. */
  lemma TrimmedIsFixed(s: string)
    requires IsTrimmed(s)
    ensures Trim(s) == s
  {
  }

  /** `s.split(sep)` for a one-character separator: the pieces between the
      separators, in order; the empty string splits into one empty piece. */
  function Split(s: string, sep: char): (parts: seq<string>)
    ensures |parts| >= 1
    ensures forall i :: 0 <= i < |parts| ==> sep !in parts[i]
  {
    if s == [] then [[]]
    else
      var rest := Split(s[1..], sep);
      if s[0] == sep then [[]] + rest else [[s[0]] + rest[0]] + rest[1..]
  }

  /** `parts.join(sep)`. */
  function Join(parts: seq<string>, sep: string): string {
    if |parts| == 0 then []
    else if |parts| == 1 then parts[0]
    else parts[0] + sep + Join(parts[1..], sep)
  }

  /** The piece after the last separator: `parts[parts.length - 1]` of a split. */
  function LastSegment(s: string, sep: char): string {
    var parts := Split(s, sep);
    parts[|parts| - 1]
  }

  lemma {:induction false} SplitWithoutSeparator(s: string, sep: char)
    requires sep !in s
    ensures Split(s, sep) == [s]
  {
    if s != [] {
      assert sep !in s[1..] by {
        forall i | 0 <= i < |s| - 1 ensures s[1..][i] != sep { assert s[1..][i] == s[i + 1]; }
      }
      SplitWithoutSeparator(s[1..], sep);
      assert [s[0]] + s[1..] == s;
    }
  }

  /** Splitting distributes over a separator occurrence. */
  lemma {:induction false} SplitAtSeparator(x: string, sep: char, y: string)
    ensures Split(x + [sep] + y, sep) == Split(x, sep) + Split(y, sep)
  {
    var s := x + [sep] + y;
    if x == [] {
      assert s[0] == sep && s[1..] == y;
    } else {
      assert s[0] == x[0] && s[1..] == x[1..] + [sep] + y;
      SplitAtSeparator(x[1..], sep, y);
    }
  }

  /** Joining the pieces of a split gives back the string. */
  lemma {:induction false} SplitThenJoin(s: string, sep: char)
    ensures Join(Split(s, sep), [sep]) == s
  {
    if s != [] {
      var rest := Split(s[1..], sep);
      SplitThenJoin(s[1..], sep);
      if s[0] == sep {
        assert Split(s, sep) == [[]] + rest;
        assert ([[]] + rest)[1..] == rest;
      } else if |rest| == 1 {
        assert Split(s, sep) == [[s[0]] + rest[0]];
      } else {
        var parts := [[s[0]] + rest[0]] + rest[1..];
        assert Split(s, sep) == parts;
        assert parts[1..] == rest[1..];
        assert Join(rest, [sep]) == rest[0] + [sep] + Join(rest[1..], [sep]);
      }
    }
  }

  /** Splitting a join of separator-free pieces gives back the pieces. */
  lemma {:induction false} JoinThenSplit(parts: seq<string>, sep: char)
    requires |parts| >= 1
    requires forall i :: 0 <= i < |parts| ==> sep !in parts[i]
    ensures Split(Join(parts, [sep]), sep) == parts
  {
    SplitWithoutSeparator(parts[0], sep);
    if |parts| > 1 {
      JoinThenSplit(parts[1..], sep);
      SplitAtSeparator(parts[0], sep, Join(parts[1..], [sep]));
      assert parts == [parts[0]] + parts[1..];
    }
  }

  /** The last piece is exactly the text after the last separator. */
  lemma LastSegmentAfterSeparator(x: string, sep: char, y: string)
    requires sep !in y
    ensures LastSegment(x + [sep] + y, sep) == y
  {
    SplitAtSeparator(x, sep, y);
    SplitWithoutSeparator(y, sep);
  }

  function Repeat(c: char, n: nat): (r: string)
    ensures |r| == n && forall i :: 0 <= i < n ==> r[i] == c
  {
    if n == 0 then [] else [c] + Repeat(c, n - 1)
  }

  /** `s.padStart(width, fill)`: fill characters in front up to `width`;
      a string already that long is returned whole, never cut. */
  function PadStart(s: string, width: nat, fill: char): (r: string)
    ensures |r| == if |s| < width then width else |s|
    ensures r[|r| - |s|..] == s
    ensures forall i :: 0 <= i < |r| - |s| ==> r[i] == fill
  {
    if |s| < width then Repeat(fill, width - |s|) + s else s
  }

  predicate IsDigit(c: char) {
    '0' <= c <= '9'
  }

  predicate AllDigits(s: string) {
    forall i :: 0 <= i < |s| ==> IsDigit(s[i])
  }

  function DigitValue(c: char): nat
    requires IsDigit(c)
  {
    c as int - '0' as int
  }

  function DigitChar(d: nat): (c: char)
    requires d < 10
    ensures IsDigit(c) && DigitValue(c) == d
  {
    ('0' as int + d) as char
  }

  /** The number a string of decimal digits denotes. */
  function DigitsValue(ds: string): nat
    requires AllDigits(ds)
  {
    if ds == [] then 0 else 10 * DigitsValue(ds[..|ds| - 1]) + DigitValue(ds[|ds| - 1])
  }

  /** `String(n)` for a natural number: its decimal digits, with no
      leading zero except for zero itself. */
  function NatToString(n: nat): (r: string)
    ensures |r| >= 1 && AllDigits(r)
    ensures r[0] == '0' ==> n == 0
  {
    if n < 10 then [DigitChar(n)] else NatToString(n / 10) + [DigitChar(n % 10)]
  }

  /** The digits of `String(n)` denote `n`. */
  lemma {:induction false} NatToStringValue(n: nat)
    ensures DigitsValue(NatToString(n)) == n
  {
    if n >= 10 {
      NatToStringValue(n / 10);
      var r := NatToString(n);
      assert r[..|r| - 1] == NatToString(n / 10);
    }
  }

  /** `String(i)` for an integer: a minus sign in front of a negative one. */
  function IntToString(i: int): string {
    if i < 0 then "-" + NatToString(-i) else NatToString(i)
  }

  /** The longest run of decimal digits at the front of `s`. */
  function LeadingDigits(s: string): (ds: string)
    ensures |ds| <= |s| && ds == s[..|ds|] && AllDigits(ds)
    ensures |ds| == |s| || !IsDigit(s[|ds|])
  {
    if s == [] || !IsDigit(s[0]) then [] else [s[0]] + LeadingDigits(s[1..])
  }

  /** `parseInt(s, 10)`, with None for NaN: white space is skipped, one
      optional sign is read, then the longest run of decimal digits; the
      text after the run is ignored, and no digit at all gives NaN. */
  function ParseInt(s: string): Option<int> {
    var t := TrimStart(s);
    var unsigned := if t != [] && (t[0] == '+' || t[0] == '-') then t[1..] else t;
    var ds := LeadingDigits(unsigned);
    if ds == [] then None
    else
      var magnitude: int := DigitsValue(ds);
      Some(if t[0] == '-' then -magnitude else magnitude)
  }

  lemma LeadingDigitsOfDigits(ds: string)
    requires AllDigits(ds)
    ensures LeadingDigits(ds) == ds
  {
    LeadingDigitsOfPrefix(ds, []);
    assert ds + [] == ds;
  }

  lemma {:induction false} LeadingDigitsOfPrefix(ds: string, rest: string)
    requires AllDigits(ds)
    requires rest == [] || !IsDigit(rest[0])
    ensures LeadingDigits(ds + rest) == ds
  {
    if ds == [] {
      assert ds + rest == rest;
    } else {
      LeadingDigitsOfPrefix(ds[1..], rest);
      assert (ds + rest)[1..] == ds[1..] + rest;
    }
  }

  /** A digit is neither white space nor a sign. */
  lemma DigitIsPlain(c: char)
    requires IsDigit(c)
    ensures !IsSpace(c) && c != '+' && c != '-'
  {
  }

  /** Text that starts with neither white space nor a sign is read from
      its first character: its leading digits, or NaN when there are none. */
  lemma ParseIntUnsigned(s: string)
    requires s != [] && !IsSpace(s[0]) && s[0] != '+' && s[0] != '-'
    ensures ParseInt(s) == if LeadingDigits(s) == [] then None else Some(DigitsValue(LeadingDigits(s)))
  {
    assert TrimStart(s) == s;
  }

  /** `parseInt` reads a leading run of digits and ignores what follows. */
  lemma ParseIntDigitPrefix(ds: string, rest: string)
    requires ds != [] && AllDigits(ds)
    requires rest == [] || !IsDigit(rest[0])
    ensures ParseInt(ds + rest) == Some(DigitsValue(ds))
  {
    var s := ds + rest;
    assert s[0] == ds[0];
    DigitIsPlain(ds[0]);
    ParseIntUnsigned(s);
    LeadingDigitsOfPrefix(ds, rest);
  }

  /** A string that starts with neither white space, a sign nor a digit is NaN. */
  lemma ParseIntNonNumeric(s: string)
    requires s != [] && !IsSpace(s[0]) && !IsDigit(s[0]) && s[0] != '+' && s[0] != '-'
    ensures ParseInt(s) == None
  {
    ParseIntUnsigned(s);
  }

  /** Zeros in front do not change the value of a digit string. */
  lemma {:induction false} LeadingZerosValue(zeros: string, ds: string)
    requires forall i :: 0 <= i < |zeros| ==> zeros[i] == '0'
    requires AllDigits(ds)
    ensures AllDigits(zeros + ds) && DigitsValue(zeros + ds) == DigitsValue(ds)
  {
    var s := zeros + ds;
    if ds == [] {
      assert s == zeros;
      if zeros != [] {
        LeadingZerosValue(zeros[..|zeros| - 1], []);
        assert zeros[..|zeros| - 1] + [] == s[..|s| - 1];
      }
    } else {
      LeadingZerosValue(zeros, ds[..|ds| - 1]);
      assert s[..|s| - 1] == zeros + ds[..|ds| - 1];
    }
  }

  /** `parseInt(String(i))` gives `i` back. */
  lemma ParseIntOfIntToString(i: int)
    ensures ParseInt(IntToString(i)) == Some(i)
  {
    var n := if i < 0 then -i else i;
    var ds := NatToString(n);
    NatToStringValue(n);
    LeadingDigitsOfDigits(ds);
    DigitIsPlain(ds[0]);
    if i < 0 {
      var s := "-" + ds;
      assert s[0] == '-' && !IsSpace(s[0]);
      assert TrimStart(s) == s;
      assert s[1..] == ds;
    } else {
      ParseIntUnsigned(ds);
    }
  }

  /** A natural number zero-padded to any width parses back to itself. */
  lemma ParseIntOfPadded(n: nat, width: nat)
    ensures ParseInt(PadStart(NatToString(n), width, '0')) == Some(n)
  {
    var ds := NatToString(n);
    NatToStringValue(n);
    var zeros := if |ds| < width then Repeat('0', width - |ds|) else [];
    var p := zeros + ds;
    assert PadStart(ds, width, '0') == p by {
      if |ds| >= width {
        assert [] + ds == ds;
      }
    }
    LeadingZerosValue(zeros, ds);
    DigitIsPlain(p[0]);
    ParseIntUnsigned(p);
    LeadingDigitsOfDigits(p);
  }
}
