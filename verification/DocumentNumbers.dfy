/** The printed form of a document number, such as INV-2026-0001, and how it reads back. */
module DocumentNumbers {
  function Digit(d: nat): char
    requires d < 10
  {
    "0123456789"[d]
  }

  function Digits(n: nat): (s: string)
    ensures s != []
  {
    if n < 10 then [Digit(n)] else Digits(n / 10) + [Digit(n % 10)]
  }

  /** Zero padding to a minimum width, as `:04d` does; longer numbers are printed in full. */
  function Padded(s: string, width: nat): string
    decreases width - |s|
  {
    if |s| >= width then s else Padded("0" + s, width)
  }

  function Render(prefix: string, year: nat, n: nat): string {
    prefix + "-" + Digits(year) + "-" + Padded(Digits(n), 4)
  }

  function DigitValue(c: char): nat {
    if '0' <= c <= '9' then (c - '0') as nat else 0
  }

  function Value(s: string): nat {
    if s == [] then 0 else Value(s[..|s| - 1]) * 10 + DigitValue(s[|s| - 1])
  }

  /** Position of the last dash, or the length when there is none. */
  function LastDash(s: string): (i: nat)
    ensures i <= |s|
  {
    if s == [] then 0
    else if s[|s| - 1] == '-' then |s| - 1
    else
      var i := LastDash(s[..|s| - 1]);
      if i == |s| - 1 then |s| else i
  }

  /** Year and sequence number: the two parts after the last two dashes. */
  function Parse(s: string): (nat, nat) {
    var i := LastDash(s);
    if i == |s| then (0, Value(s))
    else
      var j := LastDash(s[..i]);
      (Value(if j == i then s[..i] else s[j + 1..i]), Value(s[i + 1..]))
  }

  predicate NoDash(s: string) {
    '-' !in s
  }

  lemma {:induction false} DigitsReadBack(n: nat)
    ensures Value(Digits(n)) == n && NoDash(Digits(n))
  {
    assert forall d: nat | d < 10 :: Digit(d) == '0' + d as char;
    if n < 10 {
      assert Value([]) == 0;
    } else {
      DigitsReadBack(n / 10);
      assert Digits(n)[..|Digits(n)| - 1] == Digits(n / 10);
    }
  }

  lemma {:induction false} LeadingZero(s: string)
    ensures Value("0" + s) == Value(s)
  {
    if s == [] {
      assert ("0" + s)[..0] == [];
    } else {
      LeadingZero(s[..|s| - 1]);
      assert ("0" + s)[..|s|] == "0" + s[..|s| - 1];
    }
  }

  lemma {:induction false} PaddedReadsBack(s: string, width: nat)
    requires NoDash(s)
    ensures Value(Padded(s, width)) == Value(s) && NoDash(Padded(s, width))
    decreases width - |s|
  {
    if |s| < width {
      LeadingZero(s);
      PaddedReadsBack("0" + s, width);
    }
  }

  lemma {:induction false} LastDashBefore(a: string, b: string)
    requires NoDash(b)
    ensures LastDash(a + "-" + b) == |a|
  {
    var s := a + "-" + b;
    if b == [] {
      assert s[|s| - 1] == '-';
    } else {
      var c := b[..|b| - 1];
      assert s[..|s| - 1] == a + "-" + c;
      assert s[|s| - 1] == b[|b| - 1] && b[|b| - 1] in b;
      LastDashBefore(a, c);
    }
  }

  /** Every printed number parses back to its year and sequence number, whatever the prefix and
      however far the number has outgrown its four digits. */
  lemma RoundTrip(prefix: string, year: nat, n: nat)
    ensures Parse(Render(prefix, year, n)) == (year, n)
  {
    var y, d := Digits(year), Padded(Digits(n), 4);
    DigitsReadBack(year);
    DigitsReadBack(n);
    PaddedReadsBack(Digits(n), 4);
    var head, s := prefix + "-" + y, Render(prefix, year, n);
    LastDashBefore(head, d);
    LastDashBefore(prefix, y);
    assert s == head + "-" + d;
    assert s[..|head|] == head && s[|head| + 1..] == d;
    assert head[|prefix| + 1..] == y && s[|prefix| + 1..|head|] == y;
  }

  /** So two printed numbers with one prefix are the same only for the same year and number. */
  lemma RenderIsInjective(prefix: string, year: nat, n: nat, year': nat, n': nat)
    requires Render(prefix, year, n) == Render(prefix, year', n')
    ensures year == year' && n == n'
  {
    RoundTrip(prefix, year, n);
    RoundTrip(prefix, year', n');
  }

  lemma {:induction false} PadLength(s: string, width: nat)
    ensures |Padded(s, width)| == if |s| < width then width else |s|
    ensures |s| >= width ==> Padded(s, width) == s
    decreases width - |s|
  {
    if |s| < width {
      PadLength("0" + s, width);
    }
  }

  /** The printed form: prefix, year and number joined by dashes, the number in four digits or as many more
      as it needs. */
  lemma {:induction false} Printed(prefix: string, year: nat, n: nat)
    ensures var s := Render(prefix, year, n);
            var head := prefix + "-" + Digits(year) + "-";
            head <= s && |s| == |head| + if |Digits(n)| < 4 then 4 else |Digits(n)|
  {
    PadLength(Digits(n), 4);
  }

  lemma SmallDigits()
    ensures Digits(7) == "7" && Digits(2026) == "2026"
  {
    assert Digits(2) == "2";
    assert Digits(20) == "20";
    assert Digits(202) == "202";
  }

  /** Invoice 7 of 2026. */
  lemma PrintedSeven()
    ensures Render("INV", 2026, 7) == "INV-2026-0007"
  {
    SmallDigits();
    assert "0" + "7" == "07" && "0" + "07" == "007" && "0" + "007" == "0007";
    assert Padded("007", 4) == Padded("0007", 4);
    assert Padded("07", 4) == Padded("007", 4);
    assert "INV" + "-" + "2026" + "-" + "0007" == "INV-2026-0007";
  }
}
