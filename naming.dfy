/** Names of the source variables: "S" followed by the source's ordinal
    formatted with at least three digits, as C#'s "D3" format does. */
module Naming {

  function DigitChar(d: nat): char
    requires d < 10
  {
    ('0' as int + d) as char
  }

  /** The decimal digits of n, most significant first, without padding. */
  function Decimal(n: nat): string
    decreases n
  {
    if n < 10 then [DigitChar(n)] else Decimal(n / 10) + [DigitChar(n % 10)]
  }

  /** The decimal form of n is made of digits, with at most three of them
      exactly when n is below one thousand. */
  lemma {:induction false} DecimalShape(n: nat)
    ensures 1 <= |Decimal(n)| && forall i :: 0 <= i < |Decimal(n)| ==> '0' <= Decimal(n)[i] <= '9'
    ensures n < 10 <==> |Decimal(n)| == 1
    ensures n < 100 <==> |Decimal(n)| <= 2
    ensures n < 1000 <==> |Decimal(n)| <= 3
    decreases n
  {
    if n >= 10 {
      DecimalShape(n / 10);
    }
  }

  /** s, left-padded with zeros to at least `width` characters. */
  function PadZeros(s: string, width: nat): (r: string)
    ensures |r| == if |s| >= width then |s| else width
    ensures r[|r| - |s|..] == s
    ensures forall i :: 0 <= i < |r| - |s| ==> r[i] == '0'
  {
    if |s| >= width then s else seq(width - |s|, _ => '0') + s
  }

  /** The name of the n-th source: `S` and at least three decimal digits,
      exactly three below one thousand. */
  function SourceName(n: nat): (r: string)
    ensures 4 <= |r| && r[0] == 'S' && forall i :: 1 <= i < |r| ==> '0' <= r[i] <= '9'
    ensures n < 1000 <==> |r| == 4
  {
    DecimalShape(n);
    "S" + PadZeros(Decimal(n), 3)
  }

  /** String order by character codes, character by character. The
      translator sorts names with the default string comparer, which orders
      strings made of `S` and the digits 0-9 the same way. */
  predicate LexLess(a: string, b: string)
    decreases |a|
  {
    if a == [] then b != []
    else b != [] && (a[0] < b[0] || (a[0] == b[0] && LexLess(a[1..], b[1..])))
  }

  /** Below one thousand a name is "S" and exactly three digits. */
  lemma SourceNameDigits(n: nat)
    requires n < 1000
    ensures SourceName(n) == ['S', DigitChar(n / 100), DigitChar(n / 10 % 10), DigitChar(n % 10)]
  {
    PaddedDigits(n);
  }

  /** Below one thousand, the padded decimal form is the three digits. */
  lemma PaddedDigits(n: nat)
    requires n < 1000
    ensures PadZeros(Decimal(n), 3) == [DigitChar(n / 100), DigitChar(n / 10 % 10), DigitChar(n % 10)]
  {
    if n < 10 {
      PaddedOneDigit(n);
    } else if n < 100 {
      PaddedTwoDigits(n);
    } else {
      PaddedThreeDigits(n);
    }
  }

  lemma PaddedOneDigit(n: nat)
    requires n < 10
    ensures PadZeros(Decimal(n), 3) == [DigitChar(n / 100), DigitChar(n / 10 % 10), DigitChar(n % 10)]
  {
    assert n / 100 == 0 && n / 10 == 0 && n % 10 == n;
    assert Decimal(n) == [DigitChar(n)];
    assert seq(2, _ => '0') == [DigitChar(0), DigitChar(0)];
  }

  lemma PaddedTwoDigits(n: nat)
    requires 10 <= n < 100
    ensures PadZeros(Decimal(n), 3) == [DigitChar(n / 100), DigitChar(n / 10 % 10), DigitChar(n % 10)]
  {
    assert n / 100 == 0 && n / 10 < 10 && n / 10 % 10 == n / 10;
    assert Decimal(n) == [DigitChar(n / 10), DigitChar(n % 10)];
    assert seq(1, _ => '0') == [DigitChar(0)];
  }

  lemma PaddedThreeDigits(n: nat)
    requires 100 <= n < 1000
    ensures PadZeros(Decimal(n), 3) == [DigitChar(n / 100), DigitChar(n / 10 % 10), DigitChar(n % 10)]
  {
    var q := n / 10;
    assert 10 <= q < 100 && q / 10 == n / 100 && q % 10 == n / 10 % 10;
    assert Decimal(q) == [DigitChar(q / 10), DigitChar(q % 10)];
    assert Decimal(n) == Decimal(q) + [DigitChar(n % 10)];
  }

  lemma DigitCharOrder(a: nat, b: nat)
    requires a < 10 && b < 10
    ensures DigitChar(a) < DigitChar(b) <==> a < b
    ensures DigitChar(a) == DigitChar(b) <==> a == b
  {
  }

  /** Names with three digits compare like the digit triples. */
  lemma LexLessOfDigits(a1: nat, a2: nat, a3: nat, b1: nat, b2: nat, b3: nat)
    requires a1 < 10 && a2 < 10 && a3 < 10 && b1 < 10 && b2 < 10 && b3 < 10
    ensures LexLess(['S', DigitChar(a1), DigitChar(a2), DigitChar(a3)],
                    ['S', DigitChar(b1), DigitChar(b2), DigitChar(b3)])
            <==> a1 * 100 + a2 * 10 + a3 < b1 * 100 + b2 * 10 + b3
  {
    DigitCharOrder(a1, b1);
    DigitCharOrder(a2, b2);
    DigitCharOrder(a3, b3);
    var s := ['S', DigitChar(a1), DigitChar(a2), DigitChar(a3)];
    var t := ['S', DigitChar(b1), DigitChar(b2), DigitChar(b3)];
    assert s[1..] == [DigitChar(a1), DigitChar(a2), DigitChar(a3)];
    assert t[1..] == [DigitChar(b1), DigitChar(b2), DigitChar(b3)];
    assert s[1..][1..] == [DigitChar(a2), DigitChar(a3)];
    assert t[1..][1..] == [DigitChar(b2), DigitChar(b3)];
    assert s[1..][1..][1..] == [DigitChar(a3)];
    assert t[1..][1..][1..] == [DigitChar(b3)];
    assert s[1..][1..][1..][1..] == [] && t[1..][1..][1..][1..] == [];
    var e: string := [];
    assert !LexLess(e, e);
    var l3 := LexLess(s[1..][1..][1..], t[1..][1..][1..]);
    assert l3 == (DigitChar(a3) < DigitChar(b3) || (DigitChar(a3) == DigitChar(b3) && LexLess(e, e)));
    assert l3 == (a3 < b3);
    var l2 := LexLess(s[1..][1..], t[1..][1..]);
    assert l2 == (a2 < b2 || (a2 == b2 && a3 < b3));
    var l1 := LexLess(s[1..], t[1..]);
    assert l1 == (a1 < b1 || (a1 == b1 && (a2 < b2 || (a2 == b2 && a3 < b3))));
    assert LexLess(s, t) == l1;
  }

  lemma DigitsOf(n: nat)
    requires n < 1000
    ensures n == n / 100 * 100 + n / 10 % 10 * 10 + n % 10
    ensures n / 100 < 10
  {
  }

  /** While there are at most 999 sources, names are distinct and sorting
      them as strings gives the order in which they were numbered. */
  lemma SourceNamesOrdered(i: nat, j: nat)
    requires 1 <= i <= 999 && 1 <= j <= 999
    ensures LexLess(SourceName(i), SourceName(j)) <==> i < j
    ensures SourceName(i) == SourceName(j) <==> i == j
  {
    SourceNameDigits(i);
    SourceNameDigits(j);
    DigitsOf(i);
    DigitsOf(j);
    LexLessOfDigits(i / 100, i / 10 % 10, i % 10, j / 100, j / 10 % 10, j % 10);
    DigitCharOrder(i / 100, j / 100);
    DigitCharOrder(i / 10 % 10, j / 10 % 10);
    DigitCharOrder(i % 10, j % 10);
  }

  /** The name of the thousandth source. */
  lemma NameOfOneThousand()
    ensures SourceName(1000) == ['S', '1', '0', '0', '0']
  {
    var d := Decimal(1000);
    DecimalOfOneThousand();
    assert |d| == 4;
    assert PadZeros(d, 3) == d;
    assert SourceName(1000) == "S" + d;
  }

  lemma DecimalOfOneThousand()
    ensures Decimal(1000) == ['1', '0', '0', '0']
  {
    assert Decimal(1) == ['1'];
    assert Decimal(10) == ['1', '0'] by {
      assert 10 / 10 == 1 && 10 % 10 == 0;
    }
    assert Decimal(100) == ['1', '0', '0'] by {
      assert 100 / 10 == 10 && 100 % 10 == 0;
    }
    assert Decimal(1000) == ['1', '0', '0', '0'] by {
      assert 1000 / 10 == 100 && 1000 % 10 == 0;
    }
  }

  /** "S1000" sorts before "S101": the first difference is at the fourth
      character, '0' against '1'. */
  lemma ThousandBeforeHundredOne()
    ensures LexLess(['S', '1', '0', '0', '0'], ['S', '1', '0', '1'])
  {
    var a: string, b: string := ['S', '1', '0', '0', '0'], ['S', '1', '0', '1'];
    assert a[1..][1..][1..] == ['0', '0'] && b[1..][1..][1..] == ['1'];
    assert LexLess(a[1..][1..][1..], b[1..][1..][1..]);
    assert a[1..][1..] == ['0', '0', '0'] && b[1..][1..] == ['0', '1'];
    assert a[1..] == ['1', '0', '0', '0'] && b[1..] == ['1', '0', '1'];
  }

  /** From the thousandth source on the order breaks: "S1000" sorts before "S101". */
  lemma NameOrderBreaksAtOneThousand()
    ensures LexLess(SourceName(1000), SourceName(101))
  {
    NameOfOneThousand();
    NameOfHundredOne();
    ThousandBeforeHundredOne();
  }

  /** The name of the hundred-and-first source. */
  lemma NameOfHundredOne()
    ensures SourceName(101) == ['S', '1', '0', '1']
  {
    var d := Decimal(101);
    DecimalOfHundredOne();
    assert |d| == 3;
    assert PadZeros(d, 3) == d;
    assert SourceName(101) == "S" + d;
  }

  lemma DecimalOfHundredOne()
    ensures Decimal(101) == ['1', '0', '1']
  {
    assert Decimal(1) == ['1'];
    assert Decimal(10) == ['1', '0'] by {
      assert 10 / 10 == 1 && 10 % 10 == 0;
    }
    assert 101 / 10 == 10 && 101 % 10 == 1;
  }
}
