/**
 * The text headerx.c writes around an extracted block: the include guard, the
 * `#line` directive of `print_line_directive`, and the closing `#endif`.
 */
module HeaderFormat {

  predicate IsDigit(c: char)
  {
    '0' <= c <= '9'
  }

  /** `printf("%d", n)` for a non-negative `n`: decimal, no leading zeros. */
  function Decimal(n: nat): (r: string)
    ensures r != [] && forall i :: 0 <= i < |r| ==> IsDigit(r[i])
    ensures |r| > 1 ==> r[0] != '0'
  {
    if n < 10 then ['0' + n as char] else Decimal(n / 10) + ['0' + (n % 10) as char]
  }

  function DigitValue(c: char): nat
    requires IsDigit(c)
  {
    c as int - '0' as int
  }

  /** The value a string of decimal digits denotes. */
  function DecimalValue(s: string): nat
    requires forall i :: 0 <= i < |s| ==> IsDigit(s[i])
  {
    if s == [] then 0 else 10 * DecimalValue(s[..|s| - 1]) + DigitValue(s[|s| - 1])
  }

  /** The number written is the number read back. */
  lemma {:induction false} DecimalRoundTrip(n: nat)
    ensures DecimalValue(Decimal(n)) == n
  {
    if n >= 10 {
      var d := Decimal(n);
      assert d[..|d| - 1] == Decimal(n / 10);
      DecimalRoundTrip(n / 10);
    }
  }

  /** `print_line_directive(fp, line, filename)`. */
  function LineDirective(line: nat, filename: string): string
  {
    "#line " + Decimal(line) + " \"" + filename + "\"\n"
  }

  /** The three lines written when a block opens, for guard tag `tag`. */
  function Opening(tag: string, line: nat, filename: string): string
  {
    "#ifndef " + tag + "\n" + "#define " + tag + "\n" + LineDirective(line, filename)
  }

  const Closing: string := "#endif\n"

  /**
   * The directive is unambiguous: the line number ends at the first blank and
   * the filename fills the quotes, so both are recovered from the text.
   */
  lemma LineDirectiveInjective(n1: nat, f1: string, n2: nat, f2: string)
    requires LineDirective(n1, f1) == LineDirective(n2, f2)
    ensures n1 == n2 && f1 == f2
  {
    var d1, d2 := Decimal(n1), Decimal(n2);
    var s := LineDirective(n1, f1);
    DirectiveLayout(n1, f1);
    DirectiveLayout(n2, f2);
    assert !IsDigit(s[6 + |d1|]) && !IsDigit(s[6 + |d2|]);
    assert d1 == s[6..6 + |d1|] == d2;
    DecimalRoundTrip(n1);
    DecimalRoundTrip(n2);
  }

  /** Where the number and the filename sit in a directive. */
  lemma DirectiveLayout(n: nat, f: string)
    ensures var s, d := LineDirective(n, f), Decimal(n);
      |s| == |d| + |f| + 10 && s[6..6 + |d|] == d && s[6 + |d|] == ' ' && s[8 + |d|..8 + |d| + |f|] == f
      && forall i :: 6 <= i < 6 + |d| ==> IsDigit(s[i])
  {
    var s, d := LineDirective(n, f), Decimal(n);
    assert s == "#line " + d + (" \"" + f + "\"\n");
    forall i | 6 <= i < 6 + |d| ensures IsDigit(s[i]) {
      assert s[i] == d[i - 6];
    }
  }
}
