/** The "Key N" labels that the shortcut editor writes into the first column
    of every key item (QString("Key %1").arg(n)). */
module KeyLabels {

  predicate IsDigits(s: string) {
    forall i :: 0 <= i < |s| ==> '0' <= s[i] <= '9'
  }

  function DigitChar(d: nat): (c: char)
    requires d < 10
    ensures '0' <= c <= '9' && c as int - '0' as int == d
  {
    ('0' as int + d) as char
  }

  /** Decimal text of n, most significant digit first, as %1 renders an int. */
  function Decimal(n: nat): (s: string)
    ensures |s| >= 1 && IsDigits(s)
    ensures n < 10 <==> |s| == 1
  {
    if n < 10 then [DigitChar(n)] else Decimal(n / 10) + [DigitChar(n % 10)]
  }

  /** Reads a string of decimal digits back as a number. */
  function ParseDecimal(s: string): nat
    requires IsDigits(s)
  {
    if s == [] then 0 else 10 * ParseDecimal(s[..|s| - 1]) + (s[|s| - 1] as int - '0' as int)
  }

  /** Decimal loses nothing: its text reads back as the same number. */
  lemma {:induction false} ParseDecimalOfDecimal(n: nat)
    ensures ParseDecimal(Decimal(n)) == n
  {
    if n >= 10 {
      var s := Decimal(n);
      assert s[..|s| - 1] == Decimal(n / 10);
      ParseDecimalOfDecimal(n / 10);
    }
  }

  function KeyLabel(n: nat): string {
    "Key " + Decimal(n)
  }

  /** Distinct ordinals give distinct labels, so a label names one position. */
  lemma KeyLabelInjective(a: nat, b: nat)
    requires KeyLabel(a) == KeyLabel(b)
    ensures a == b
  {
    assert KeyLabel(a)[4..] == Decimal(a);
    assert KeyLabel(b)[4..] == Decimal(b);
    ParseDecimalOfDecimal(a);
    ParseDecimalOfDecimal(b);
  }
}
