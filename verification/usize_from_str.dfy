/** `<usize as FromStr>::from_str`, the decimal reading both index-variable
    types apply to the text after `$`. It is part of Rust's standard
    library, not of this crate; it is modelled on a 64-bit target. */
module UsizeFromStr {
  import opened Wrappers

  /** `usize::MAX` on a 64-bit target. */
  const UsizeMax: nat := 0xFFFF_FFFF_FFFF_FFFF

  /** `IntErrorKind`, restricted to the kinds an unsigned parse reports. */
  datatype IntErrorKind = Empty | InvalidDigit | PosOverflow

  predicate IsDigit(c: char)
  {
    '0' <= c <= '9'
  }

  function DigitValue(c: char): (d: nat)
    requires IsDigit(c)
    ensures d < 10
  {
    c as int - '0' as int
  }

  function DigitChar(d: nat): (c: char)
    requires d < 10
    ensures IsDigit(c) && DigitValue(c) == d
  {
    ('0' as int + d) as char
  }

  predicate AllDigits(s: string)
  {
    forall i :: 0 <= i < |s| ==> IsDigit(s[i])
  }

  /** The number a string of decimal digits denotes, most significant
      digit first. */
  function Value(s: string): nat
    requires AllDigits(s)
  {
    if |s| == 0 then 0 else Value(s[..|s| - 1]) * 10 + DigitValue(s[|s| - 1])
  }

  /** One step of the scan: append digit `c` to the value read so far,
      with the overflow check of `checked_mul` and `checked_add`. */
  function Step(acc: nat, c: char): (r: Result<nat, IntErrorKind>)
  {
    if !IsDigit(c) then Err(InvalidDigit)
    else if acc * 10 + DigitValue(c) > UsizeMax then Err(PosOverflow)
    else Ok(acc * 10 + DigitValue(c))
  }

  /** The digit loop of `from_str_radix`: left to right, stopping at the
      first character that is not a digit or at the first overflow,
      whichever comes first. */
  function Scan(digits: string, acc: nat): Result<nat, IntErrorKind>
    decreases |digits|
  {
    if |digits| == 0 then Ok(acc)
    else
      match Step(acc, digits[0])
      case Err(e) => Err(e)
      case Ok(next) => Scan(digits[1..], next)
  }

  /** Scanning one more character is one more `Step` on what the shorter
      scan read. */
  lemma {:induction false} ScanSnoc(s: string, c: char, acc: nat)
    ensures Scan(s + [c], acc)
         == match Scan(s, acc) case Err(e) => Err(e) case Ok(v) => Step(v, c)
    decreases |s|
  {
    if |s| == 0 {
      assert s + [c] == [c];
      assert ([c])[1..] == [];
    } else {
      assert (s + [c])[0] == s[0];
      assert (s + [c])[1..] == s[1..] + [c];
      match Step(acc, s[0])
      case Err(e) =>
      case Ok(next) => ScanSnoc(s[1..], c, next);
    }
  }

  /** The scan from zero succeeds exactly on strings of digits whose value
      fits in `usize`, and then reads that value. */
  lemma {:induction false} ScanReadsValue(s: string)
    ensures Scan(s, 0).Ok? <==> AllDigits(s) && Value(s) <= UsizeMax
    ensures Scan(s, 0).Ok? ==> Scan(s, 0).value == Value(s)
    decreases |s|
  {
    if |s| > 0 {
      var p, c := s[..|s| - 1], s[|s| - 1];
      assert s == p + [c];
      ScanSnoc(p, c, 0);
      ScanReadsValue(p);
      assert AllDigits(s) <==> AllDigits(p) && IsDigit(c) by {
        if AllDigits(p) && IsDigit(c) {
          forall i | 0 <= i < |s| ensures IsDigit(s[i]) {
            if i < |p| { assert s[i] == p[i]; }
          }
        }
        if AllDigits(s) {
          forall i | 0 <= i < |p| ensures IsDigit(p[i]) {
            assert p[i] == s[i];
          }
        }
      }
    }
  }

  /** `from_str` for `usize`: an empty string is `Empty`; an optional
      leading `+` is skipped, and a `+` alone is `InvalidDigit`; the rest
      is scanned. */
  function ParseUsize(s: string): (r: Result<nat, IntErrorKind>)
    ensures r == Err(Empty) <==> |s| == 0
    ensures r.Ok? <==> |s| > 0 && |Unsigned(s)| > 0 && AllDigits(Unsigned(s)) && Value(Unsigned(s)) <= UsizeMax
    ensures r.Ok? ==> r.value == Value(Unsigned(s)) && r.value <= UsizeMax
  {
    if |s| == 0 then Err(Empty)
    else if |Unsigned(s)| == 0 then Err(InvalidDigit)
    else
      ScanReadsValue(Unsigned(s));
      ScanNeverEmpty(Unsigned(s), 0);
      Scan(Unsigned(s), 0)
  }

  /** The digits after an optional leading `+`. */
  function Unsigned(s: string): string
  {
    if |s| > 0 && s[0] == '+' then s[1..] else s
  }

  /** Only an empty input is `Empty`: the scan never reports it. */
  lemma {:induction false} ScanNeverEmpty(s: string, acc: nat)
    ensures Scan(s, acc) != Err(Empty)
    decreases |s|
  {
    if |s| > 0 {
      match Step(acc, s[0])
      case Err(e) =>
      case Ok(next) => ScanNeverEmpty(s[1..], next);
    }
  }

  /** `n.to_string()`: the shortest decimal rendering of `n`. */
  function Decimal(n: nat): (s: string)
    ensures |s| > 0 && AllDigits(s)
    ensures s[0] != '+'
  {
    if n < 10 then [DigitChar(n)] else Decimal(n / 10) + [DigitChar(n % 10)]
  }

  /** The rendering denotes the number it renders. */
  lemma {:induction false} DecimalValue(n: nat)
    ensures Value(Decimal(n)) == n
  {
    var s := Decimal(n);
    if n < 10 {
      assert s[..|s| - 1] == [];
    } else {
      assert s[..|s| - 1] == Decimal(n / 10);
      DecimalValue(n / 10);
    }
  }

  /** Every `usize` is read back from its rendering. */
  lemma DecimalRoundTrip(n: nat)
    requires n <= UsizeMax
    ensures ParseUsize(Decimal(n)) == Ok(n)
  {
    DecimalValue(n);
  }
}
