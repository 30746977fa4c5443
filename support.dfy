/** Small helpers shared by every module: optional values and results, and the
    character and string predicates the Ruby code takes from its core library and
    from the `iron-extensions` gem (`blank?`, `starts_with?`, `ends_with?`, `strip`).
    They are given simple, stated semantics here. */
module Support {

  datatype Option<+T> = None | Some(value: T)

  datatype Result<+T, +E> = Ok(value: T) | Err(error: E)

  /** The exceptions the modelled code raises: `raise "message"` gives a
      `RuntimeError`; a call that no method and no `method_missing` accepts gives a
      `NoMethodError`. */
  datatype RubyError = RuntimeError(message: string) | NoMethodError(name: string)

  /** The characters Ruby's `strip` removes and `blank?` ignores: NUL, tab, line
      feed, vertical tab, form feed, carriage return and space. */
  predicate IsSpace(c: char) {
    c == ' ' || c == '\t' || c == '\n' || c == '\r' || c == '\U{0B}' || c == '\U{0C}' || c == '\0'
  }

  /** `blank?` on a string: empty or made of white space only. */
  predicate Blank(s: string) {
    forall i :: 0 <= i < |s| ==> IsSpace(s[i])
  }

  /** `blank?` on a value that may be nil: nil is blank. */
  predicate BlankOpt(s: Option<string>) {
    s.None? || Blank(s.value)
  }

  predicate StartsWith(s: string, prefix: string) {
    |prefix| <= |s| && s[..|prefix|] == prefix
  }

  predicate EndsWith(s: string, suffix: string) {
    |suffix| <= |s| && s[|s| - |suffix|..] == suffix
  }

  predicate IsLower(c: char) { 'a' <= c <= 'z' }
  predicate IsUpper(c: char) { 'A' <= c <= 'Z' }
  predicate IsLetter(c: char) { IsLower(c) || IsUpper(c) }
  predicate IsDigit(c: char) { '0' <= c <= '9' }

  /** The length of the longest prefix whose characters all pass `p`. */
  function RunLength(s: string, p: char -> bool): (n: nat)
    ensures n <= |s|
    ensures forall i :: 0 <= i < n ==> p(s[i])
    ensures n < |s| ==> !p(s[n])
  {
    if s == [] || !p(s[0]) then 0 else 1 + RunLength(s[1..], p)
  }

  /** A run followed by a character that ends it has the run's length. */
  lemma {:induction false} RunLengthOf(a: string, b: string, p: char -> bool)
    requires forall i :: 0 <= i < |a| ==> p(a[i])
    requires b == [] || !p(b[0])
    ensures RunLength(a + b, p) == |a|
  {
    if a == [] {
      assert a + b == b;
    } else {
      assert (a + b)[0] == a[0];
      assert (a + b)[1..] == a[1..] + b;
      RunLengthOf(a[1..], b, p);
    }
  }

  /** `'  ' * depth`: two spaces per level. */
  function Indent(depth: nat): (r: string)
    ensures |r| == 2 * depth
    ensures forall i :: 0 <= i < |r| ==> r[i] == ' '
  {
    if depth == 0 then "" else "  " + Indent(depth - 1)
  }

  /** Ruby's `strip`: drops white space from both ends. */
  function Strip(s: string): (r: string)
    ensures |r| <= |s|
    ensures r != [] ==> !IsSpace(r[0]) && !IsSpace(r[|r| - 1])
    decreases |s|
  {
    if s == [] then s
    else if IsSpace(s[0]) then Strip(s[1..])
    else if IsSpace(s[|s| - 1]) then Strip(s[..|s| - 1])
    else s
  }

  /** `strip` removes exactly a blank prefix and a blank suffix: what it returns is a
      slice of the input with only white space on either side of it, and it is empty
      exactly when the input is blank. */
  lemma StripTrims(s: string)
    ensures exists i, j :: 0 <= i <= j <= |s| && Strip(s) == s[i..j] && Blank(s[..i]) && Blank(s[j..])
    ensures Strip(s) == [] <==> Blank(s)
  {
    var i, j := StripBounds(s);
    if Strip(s) == [] {
      BlankAround(s, i, j);
    } else {
      assert s[i] == Strip(s)[0];
    }
  }

  /** Where the slice `strip` keeps begins and ends. */
  lemma {:induction false} StripBounds(s: string) returns (i: nat, j: nat)
    ensures i <= j <= |s| && Strip(s) == s[i..j] && Blank(s[..i]) && Blank(s[j..])
    decreases |s|
  {
    if s == [] {
      i, j := 0, 0;
    } else if IsSpace(s[0]) {
      var i', j' := StripBounds(s[1..]);
      StripFront(s, i', j');
      i, j := i' + 1, j' + 1;
    } else if IsSpace(s[|s| - 1]) {
      i, j := StripBounds(s[..|s| - 1]);
      StripBack(s, i, j);
    } else {
      i, j := 0, |s|;
      assert s[..0] == [] && s[|s|..] == [];
    }
  }

  /** A white-space character in front moves the slice one place on. */
  lemma StripFront(s: string, i: nat, j: nat)
    requires s != [] && IsSpace(s[0])
    requires i <= j <= |s| - 1
    requires Strip(s[1..]) == s[1..][i..j] && Blank(s[1..][..i]) && Blank(s[1..][j..])
    ensures Strip(s) == s[i + 1..j + 1] && Blank(s[..i + 1]) && Blank(s[j + 1..])
  {
    var t := s[1..];
    assert t[i..j] == s[i + 1..j + 1] && t[j..] == s[j + 1..];
    BlankFront(s, i);
  }

  /** A white-space character at the end joins the blank suffix. */
  lemma StripBack(s: string, i: nat, j: nat)
    requires s != [] && !IsSpace(s[0]) && IsSpace(s[|s| - 1])
    requires i <= j <= |s| - 1
    requires Strip(s[..|s| - 1]) == s[..|s| - 1][i..j] && Blank(s[..|s| - 1][..i]) && Blank(s[..|s| - 1][j..])
    ensures Strip(s) == s[i..j] && Blank(s[..i]) && Blank(s[j..])
  {
    var t := s[..|s| - 1];
    assert t[i..j] == s[i..j] && t[..i] == s[..i];
    BlankBack(s, j);
  }

  /** Blank on both sides of an empty slice: blank throughout. */
  lemma BlankAround(s: string, i: nat, j: nat)
    requires i == j <= |s| && Blank(s[..i]) && Blank(s[j..])
    ensures Blank(s)
  {
    forall k | 0 <= k < |s|
      ensures IsSpace(s[k])
    {
      if k < i { assert s[k] == s[..i][k]; } else { assert s[k] == s[j..][k - j]; }
    }
  }

  lemma BlankFront(s: string, i: nat)
    requires i < |s| && IsSpace(s[0]) && Blank(s[1..][..i])
    ensures Blank(s[..i + 1])
  {
    var p := s[..i + 1];
    forall k | 0 <= k < |p|
      ensures IsSpace(p[k])
    {
      if k > 0 { assert p[k] == s[1..][..i][k - 1]; }
    }
  }

  lemma BlankBack(s: string, j: nat)
    requires j < |s| && IsSpace(s[|s| - 1]) && Blank(s[..|s| - 1][j..])
    ensures Blank(s[j..])
  {
    forall k | 0 <= k < |s[j..]|
      ensures IsSpace(s[j..][k])
    {
      if j + k < |s| - 1 { assert s[j..][k] == s[..|s| - 1][j..][k]; }
    }
  }

  /** The decimal digits of a natural number, as Ruby's `Integer#to_s`. */
  function NatToString(n: nat): (r: string)
    ensures |r| >= 1
    ensures forall i :: 0 <= i < |r| ==> IsDigit(r[i])
  {
    if n < 10 then [DigitChar(n)] else NatToString(n / 10) + [DigitChar(n % 10)]
  }

  function DigitChar(d: nat): (c: char)
    requires d < 10
    ensures IsDigit(c)
  {
    ['0', '1', '2', '3', '4', '5', '6', '7', '8', '9'][d]
  }

  function DigitValue(c: char): (d: nat)
    requires IsDigit(c)
    ensures d < 10
  {
    c as int - '0' as int
  }

  /** The value of a string of decimal digits, as Ruby's `String#to_i` reads it. */
  function DecimalValue(s: string): (n: nat)
    requires forall i :: 0 <= i < |s| ==> IsDigit(s[i])
  {
    if s == [] then 0 else DecimalValue(s[..|s| - 1]) * 10 + DigitValue(s[|s| - 1])
  }

  lemma {:induction false} DecimalRoundTrip(n: nat)
    ensures DecimalValue(NatToString(n)) == n
  {
    if n >= 10 {
      DecimalRoundTrip(n / 10);
      var s := NatToString(n);
      assert s[..|s| - 1] == NatToString(n / 10);
    }
  }
}
