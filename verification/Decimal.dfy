// Decimal numbers: what printf writes, and what _wtoi reads.
module Decimal {

  predicate IsDigit(c: char) { '0' <= c <= '9' }

  predicate AllDigits(s: string) {
    forall i :: 0 <= i < |s| ==> IsDigit(s[i])
  }

  function Digits(n: nat): string {
    if n < 10 then [('0' as int + n) as char] else Digits(n / 10) + Digits(n % 10)
  }

  function DigitValue(c: char): nat {
    if IsDigit(c) then c as int - '0' as int else 0
  }

  function Value(digits: string): nat {
    if digits == "" then 0 else Value(digits[..|digits| - 1]) * 10 + DigitValue(digits[|digits| - 1])
  }

  const INT_MAX := 0x7FFF_FFFF

  // _wtoi on digits: it stays at the greatest int when it overflows.
  function Wtoi(digits: string): nat {
    if Value(digits) <= INT_MAX then Value(digits) else INT_MAX
  }

  lemma ValueOfSnoc(s: string, c: char)
    ensures Value(s + [c]) == Value(s) * 10 + DigitValue(c)
  {
    assert (s + [c])[..|s|] == s;
  }

  lemma OneDigit(n: nat)
    requires n < 10
    ensures Value(Digits(n)) == n
  {
    assert Digits(n)[..0] == "";
  }

  // Reading what was printed; a printed number has no leading zero.
  lemma {:induction false} ValueOfDigits(n: nat)
    ensures Value(Digits(n)) == n
    ensures Digits(n) != "" && AllDigits(Digits(n)) && (n > 0 ==> Digits(n)[0] != '0')
  {
    if n < 10 {
      OneDigit(n);
    } else {
      ValueOfDigits(n / 10);
      OneDigit(n % 10);
      ValueOfSnoc(Digits(n / 10), Digits(n % 10)[0]);
    }
  }

  function LeadingZeros(k: nat): string { seq(k, _ => '0') }

  lemma {:induction false} ValueBehindZeros(k: nat, s: string)
    ensures Value(LeadingZeros(k) + s) == Value(s)
    decreases k + |s|
  {
    var zeros := LeadingZeros(k);
    if s != "" {
      var front := s[..|s| - 1];
      assert (zeros + s)[..|zeros + s| - 1] == zeros + front;
      ValueBehindZeros(k, front);
    } else if k > 0 {
      var fewer := LeadingZeros(k - 1);
      assert zeros + s == fewer + "0" && fewer + "" == fewer;
      ValueOfSnoc(fewer, '0');
      ValueBehindZeros(k - 1, "");
    }
  }

  lemma DigitsOfDigit(c: char)
    requires IsDigit(c)
    ensures Digits(DigitValue(c)) == [c]
  {
  }

  lemma DigitsSnoc(n: nat, c: char)
    requires n > 0 && IsDigit(c)
    ensures Digits(n * 10 + DigitValue(c)) == Digits(n) + [c]
  {
    DigitsOfDigit(c);
  }

  // Every run of digits is the printing of a number behind zeros.
  lemma {:induction false} RunIsPrinted(s: string) returns (k: nat, n: nat)
    requires s != "" && AllDigits(s)
    ensures s == LeadingZeros(k) + Digits(n)
  {
    var front, c := s[..|s| - 1], s[|s| - 1];
    assert s == front + [c];
    DigitsOfDigit(c);
    if front == "" {
      k, n := 0, DigitValue(c);
    } else {
      k, n := RunIsPrinted(front);
      if n == 0 {
        k, n := k + 1, DigitValue(c);
      } else {
        DigitsSnoc(n, c);
        n := n * 10 + DigitValue(c);
      }
    }
  }

  // _wtoi reads the number that was printed, whatever zeros stand in front of it, up to the
  // greatest int.
  lemma WtoiReads(k: nat, n: nat)
    ensures Wtoi(LeadingZeros(k) + Digits(n)) == if n <= INT_MAX then n else INT_MAX
  {
    ValueBehindZeros(k, Digits(n));
    ValueOfDigits(n);
  }

  // Ten to the k.
  function Power(k: nat): nat { if k == 0 then 1 else 10 * Power(k - 1) }

  lemma {:induction false} PowerGrows(j: nat, k: nat)
    requires j <= k
    ensures Power(j) <= Power(k)
    decreases k - j
  {
    if j < k {
      PowerGrows(j + 1, k);
    }
  }

  lemma {:induction false} ManyDigits(s: string, k: nat)
    requires AllDigits(s) && s != "" && s[0] != '0' && k < |s|
    ensures Value(s[..k + 1]) >= Power(k)
  {
    if k > 0 {
      ManyDigits(s, k - 1);
      assert s[..k + 1][..k] == s[..k];
    } else {
      assert s[..1][..0] == "";
    }
  }

  // More than ten digits are always too many.
  lemma LongRunsOverflow(s: string)
    requires AllDigits(s) && |s| > 10 && s[0] != '0'
    ensures Wtoi(s) == INT_MAX
  {
    ManyDigits(s, |s| - 1);
    assert s[..|s|] == s;
    PowerGrows(10, |s| - 1);
    assert Power(5) == 100000;
    assert Power(10) == 10_000_000_000;
  }

  lemma DigitsOf4096()
    ensures Digits(4096) == "4096" && Digits(4097) == "4097"
  {
    DigitsSnoc(4, '0');
    DigitsSnoc(40, '9');
    DigitsSnoc(409, '6');
    DigitsSnoc(409, '7');
  }

  lemma WtoiInstance()
    ensures Wtoi("4096") == 4096 && Wtoi("007") == 7
  {
    DigitsOf4096();
    WtoiReads(0, 4096);
    WtoiReads(2, 7);
    assert LeadingZeros(0) + "4096" == "4096" && LeadingZeros(2) + Digits(7) == "007";
  }
}
