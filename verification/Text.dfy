/** Options, and the string routines of the standard libraries that the modelled code calls. */
module Text {
  datatype Option<+T> = None | Some(value: T)

  /** Moves the brackets of a concatenation. */
  lemma Regroup<T>(a: seq<T>, b: seq<T>, c: seq<T>)
    ensures a + (b + c) == (a + b) + c && a + [] == a
  {
  }

  lemma SubsetSize<T>(a: set<T>, b: set<T>)
    requires a <= b
    ensures |a| <= |b|
    ensures |a| == |b| ==> a == b
  {
    assert b == a + (b - a);
  }

  predicate StartsWith(s: string, prefix: string) {
    prefix <= s
  }

  /** Unicode `White_Space`, the set that `str::trim` strips. */
  predicate IsSpace(c: char) {
    || '\t' <= c <= '\r'
    || c in {' ', '\U{85}', '\U{a0}', '\U{1680}', '\U{2028}', '\U{2029}', '\U{202f}', '\U{205f}', '\U{3000}'}
    || '\U{2000}' <= c <= '\U{200a}'
  }

  /** The 25 code points with that property, one by one. */
  const SPACES: set<int> := {
    0x9, 0xa, 0xb, 0xc, 0xd, 0x20, 0x85, 0xa0, 0x1680,
    0x2000, 0x2001, 0x2002, 0x2003, 0x2004, 0x2005, 0x2006, 0x2007, 0x2008, 0x2009, 0x200a,
    0x2028, 0x2029, 0x202f, 0x205f, 0x3000}

  lemma SpaceIff(c: char)
    ensures IsSpace(c) <==> c as int in SPACES
  {
  }

  function TrimStart(s: string): string {
    if s != "" && IsSpace(s[0]) then TrimStart(s[1..]) else s
  }

  function TrimEnd(s: string): string {
    if s != "" && IsSpace(s[|s| - 1]) then TrimEnd(s[..|s| - 1]) else s
  }

  function Trim(s: string): string {
    TrimEnd(TrimStart(s))
  }

  /** No whitespace at either end: exactly the texts that `Trim` leaves alone. */
  predicate Trimmed(s: string) {
    s != "" ==> !IsSpace(s[0]) && !IsSpace(s[|s| - 1])
  }

  lemma {:induction false} TrimEndFixes(s: string)
    ensures TrimEnd(s) <= s
    ensures TrimEnd(s) != "" ==> !IsSpace(TrimEnd(s)[|TrimEnd(s)| - 1])
  {
    if s != "" && IsSpace(s[|s| - 1]) {
      TrimEndFixes(s[..|s| - 1]);
    }
  }

  lemma {:induction false} TrimStartFixes(s: string)
    ensures TrimStart(s) != "" ==> !IsSpace(TrimStart(s)[0])
  {
    if s != "" && IsSpace(s[0]) {
      TrimStartFixes(s[1..]);
    }
  }

  lemma TrimIsTrimmed(s: string)
    ensures Trimmed(Trim(s))
    ensures Trimmed(s) ==> Trim(s) == s
  {
    TrimStartFixes(s);
    TrimEndFixes(TrimStart(s));
  }

  predicate AllSpace(s: string) {
    forall i :: 0 <= i < |s| ==> IsSpace(s[i])
  }

  lemma {:induction false} TrimStartPadded(left: string, s: string)
    requires AllSpace(left) && (s == "" || !IsSpace(s[0]))
    ensures TrimStart(left + s) == s
  {
    if left == "" {
      assert left + s == s;
    } else {
      assert (left + s)[0] == left[0] && (left + s)[1..] == left[1..] + s;
      TrimStartPadded(left[1..], s);
    }
  }

  lemma {:induction false} TrimEndPadded(s: string, right: string)
    requires AllSpace(right) && (s == "" || !IsSpace(s[|s| - 1]))
    ensures TrimEnd(s + right) == s
  {
    if right == "" {
      assert s + right == s;
    } else {
      var init := right[..|right| - 1];
      assert (s + right)[..|s + right| - 1] == s + init;
      TrimEndPadded(s, init);
    }
  }

  /** Trimming takes away exactly the whitespace around a text. */
  lemma TrimPadded(left: string, core: string, right: string)
    requires AllSpace(left) && AllSpace(right) && Trimmed(core)
    ensures Trim(left + core + right) == core
  {
    if core == "" {
      assert left + core + right == (left + right) + "";
      TrimStartPadded(left + right, "");
    } else {
      assert left + core + right == left + (core + right);
      TrimStartPadded(left, core + right);
      TrimEndPadded(core, right);
    }
  }

  predicate IsDigit(c: char) {
    '0' <= c <= '9'
  }

  predicate AllDigits(s: string) {
    forall i :: 0 <= i < |s| ==> IsDigit(s[i])
  }

  function DigitsValue(s: string): nat
    requires AllDigits(s)
  {
    if s == "" then 0 else 10 * DigitsValue(s[..|s| - 1]) + (s[|s| - 1] - '0') as nat
  }

  /** `str::parse::<u16>`: an optional plus sign, then at least one digit, value at most 65535. */
  function ParseU16(s: string): Option<nat> {
    var digits := if s != "" && s[0] == '+' then s[1..] else s;
    if digits != "" && AllDigits(digits) && DigitsValue(digits) <= 65535 then Some(DigitsValue(digits)) else None
  }

  /** `Display` for an unsigned integer. */
  function Decimal(n: nat): (s: string)
    ensures s != ""
  {
    var last := ('0' as int + n % 10) as char;
    if n < 10 then [last] else Decimal(n / 10) + [last]
  }

  lemma {:induction false} DecimalDigits(n: nat)
    ensures AllDigits(Decimal(n)) && DigitsValue(Decimal(n)) == n
  {
    var s := Decimal(n);
    var last := ('0' as int + n % 10) as char;
    if n >= 10 {
      DecimalDigits(n / 10);
      assert s[..|s| - 1] == Decimal(n / 10);
    } else {
      assert s[..|s| - 1] == "";
    }
    assert s[|s| - 1] == last;
  }

  /** Printing a port and parsing it back returns the port. */
  lemma PortRoundTrip(n: nat)
    ensures n <= 65535 ==> ParseU16(Decimal(n)) == Some(n)
    ensures n > 65535 ==> ParseU16(Decimal(n)) == None
    ensures !StartsWith(Decimal(n), "--")
  {
    DecimalDigits(n);
    assert IsDigit(Decimal(n)[0]);
    assert "--"[0] == '-';
  }

  /** A number written with zeros in front. */
  function Padded(zeros: nat, n: nat): string {
    seq(zeros, _ => '0') + Decimal(n)
  }

  lemma {:induction false} ZerosCountNothing(zeros: nat, digits: string)
    requires AllDigits(digits)
    ensures AllDigits(seq(zeros, _ => '0') + digits)
    ensures DigitsValue(seq(zeros, _ => '0') + digits) == DigitsValue(digits)
  {
    var s := seq(zeros, _ => '0') + digits;
    if digits == "" {
      assert s == seq(zeros, _ => '0');
      ZerosAreZero(zeros);
    } else {
      assert s[..|s| - 1] == seq(zeros, _ => '0') + digits[..|digits| - 1];
      ZerosCountNothing(zeros, digits[..|digits| - 1]);
    }
  }

  lemma {:induction false} ZerosAreZero(zeros: nat)
    ensures AllDigits(seq(zeros, _ => '0')) && DigitsValue(seq(zeros, _ => '0')) == 0
  {
    if zeros == 0 {
    } else {
      assert seq(zeros, _ => '0')[..zeros - 1] == seq(zeros - 1, _ => '0');
      ZerosAreZero(zeros - 1);
    }
  }

  /** Digits are a number with zeros in front. */
  lemma {:induction false} DigitsArePadded(digits: string) returns (zeros: nat)
    requires digits != "" && AllDigits(digits)
    ensures digits == Padded(zeros, DigitsValue(digits))
  {
    var init, n := digits[..|digits| - 1], DigitsValue(digits);
    var last := digits[|digits| - 1];
    if init == "" {
      zeros := 0;
      assert digits == [last];
    } else {
      zeros := DigitsArePadded(init);
      if DigitsValue(init) == 0 {
        assert Decimal(0) == "0";
        zeros := zeros + 1;
        assert init == seq(zeros, _ => '0');
        assert n == (last - '0') as nat && Decimal(n) == [last];
      } else {
        assert n / 10 == DigitsValue(init) && n % 10 == (last - '0') as nat;
        assert Decimal(n) == Decimal(n / 10) + [last];
      }
      assert digits == init + [last];
    }
  }

  /** A number below 65536, with zeros or a plus sign in front or not. */
  ghost predicate WritesPort(text: string, n: nat) {
    n < 65536 && exists zeros: nat :: text in {Padded(zeros, n), "+" + Padded(zeros, n)}
  }

  /** Parsing reads exactly such a number. */
  lemma ParsedIff(text: string, n: nat)
    ensures ParseU16(text) == Some(n) <==> WritesPort(text, n)
  {
    if ParseU16(text) == Some(n) {
      var digits := if text != "" && text[0] == '+' then text[1..] else text;
      var zeros := DigitsArePadded(digits);
      assert text == digits || text == "+" + digits;
    }
    if WritesPort(text, n) {
      var zeros: nat :| text in {Padded(zeros, n), "+" + Padded(zeros, n)};
      DecimalDigits(n);
      ZerosCountNothing(zeros, Decimal(n));
      var digits := Padded(zeros, n);
      assert digits[0] != '+';
      assert ("+" + digits)[1..] == digits;
    }
  }
}
