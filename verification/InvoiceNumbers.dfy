// Invoice numbers: INV-<year>-<sequence>, the sequence padded with zeros to at least four digits.
module InvoiceNumbers {
  import opened Prelude

  function Digit(d: nat): char
    requires d < 10
  {
    ('0' as int + d) as char
  }

  predicate IsDigit(c: char) {
    '0' <= c <= '9'
  }

  predicate AllDigits(s: string) {
    forall i | 0 <= i < |s| :: IsDigit(s[i])
  }

  function Digits(n: nat): string {
    if n < 10 then [Digit(n)] else Digits(n / 10) + [Digit(n % 10)]
  }

  function Zeros(k: nat): string {
    seq(k, i => '0')
  }

  function Pad4(s: string): string {
    if |s| < 4 then Zeros(4 - |s|) + s else s
  }

  function Join(year: string, number: string): string {
    "INV-" + year + "-" + number
  }

  function Print(year: nat, n: nat): string {
    Join(Digits(year), Pad4(Digits(n)))
  }

  // ---------- Reading them back ----------

  function Value(s: string): nat
    requires AllDigits(s)
  {
    if s == "" then 0 else Value(s[..|s| - 1]) * 10 + (s[|s| - 1] as int - '0' as int)
  }

  // No superfluous leading zero.
  predicate Plain(s: string) {
    AllDigits(s) && |s| >= 1 && (|s| == 1 || s[0] != '0')
  }

  predicate Padded(s: string) {
    AllDigits(s) && |s| >= 4 && (|s| == 4 || s[0] != '0')
  }

  // The first dash at or after position i, or the end.
  function Dash(s: string, i: nat): (k: nat)
    requires i <= |s|
    ensures i <= k <= |s| && (k < |s| ==> s[k] == '-') && forall j | i <= j < k :: s[j] != '-'
    decreases |s| - i
  {
    if i == |s| || s[i] == '-' then i else Dash(s, i + 1)
  }

  function Parse(s: string): Option<(nat, nat)> {
    if |s| < 4 || s[..4] != "INV-" then None
    else
      var k := Dash(s, 4);
      if k == |s| then None
      else if Plain(s[4..k]) && Padded(s[k + 1..]) then Some((Value(s[4..k]), Value(s[k + 1..])))
      else None
  }

  // ---------- Digits and values ----------

  lemma {:induction false} DigitsRoundTrip(n: nat)
    ensures Plain(Digits(n)) && Value(Digits(n)) == n && (n > 0 ==> Digits(n)[0] != '0')
  {
    if n >= 10 {
      DigitsRoundTrip(n / 10);
      assert Digits(n)[..|Digits(n)| - 1] == Digits(n / 10);
    }
  }

  lemma {:induction false} SameValue(s: string, t: string)
    requires AllDigits(s) && AllDigits(t) && |s| == |t| && Value(s) == Value(t)
    ensures s == t
  {
    if s != "" {
      var n := |s| - 1;
      SameValue(s[..n], t[..n]);
      assert s == s[..n] + [s[n]] && t == t[..n] + [t[n]];
    }
  }

  lemma {:induction false} LeadingZeros(k: nat, s: string)
    requires AllDigits(s)
    ensures AllDigits(Zeros(k) + s) && Value(Zeros(k) + s) == Value(s)
  {
    if s == "" {
      assert Zeros(k) + s == Zeros(k);
      ZerosValue(k);
    } else {
      var n := |s| - 1;
      LeadingZeros(k, s[..n]);
      assert (Zeros(k) + s)[..k + n] == Zeros(k) + s[..n];
    }
  }

  lemma {:induction false} ZerosValue(k: nat)
    ensures Value(Zeros(k)) == 0
  {
    if k > 0 {
      ZerosValue(k - 1);
      assert Zeros(k)[..k - 1] == Zeros(k - 1);
    }
  }

  // A number of plain digits without a leading zero needs at least that many digits.
  lemma {:induction false} PlainRoundTrip(s: string)
    requires Plain(s)
    ensures Digits(Value(s)) == s
  {
    var n := |s| - 1;
    assert s == s[..n] + [s[n]];
    if n == 0 {
      assert Value(s[..0]) == 0;
    } else {
      PlainRoundTrip(s[..n]);
      PositiveValue(s[..n]);
    }
  }

  lemma {:induction false} PositiveValue(s: string)
    requires AllDigits(s) && s != "" && s[0] != '0'
    ensures Value(s) > 0
  {
    if |s| > 1 {
      PositiveValue(s[..|s| - 1]);
    } else {
      assert s[..0] == "";
    }
  }

  lemma FewDigits(n: nat)
    requires n < 10_000
    ensures |Digits(n)| <= 4
  {
    assert |Digits(n / 10 / 10 / 10)| == 1;
    assert |Digits(n / 10 / 10)| <= 2;
    assert |Digits(n / 10)| <= 3;
  }

  lemma ValueOfFour(s: string)
    requires AllDigits(s) && |s| == 4
    ensures Value(s) < 10_000
  {
    assert s[..3][..2] == s[..2] && s[..2][..1] == s[..1] && s[..1][..0] == "";
    assert Value(s[..1]) < 10;
    assert Value(s[..2]) < 100;
    assert Value(s[..3]) < 1000;
  }

  lemma PaddedRoundTrip(s: string)
    requires Padded(s)
    ensures Pad4(Digits(Value(s))) == s
  {
    if s[0] != '0' {
      PlainRoundTrip(s);
    } else {
      var t := Digits(Value(s));
      DigitsRoundTrip(Value(s));
      ValueOfFour(s);
      FewDigits(Value(s));
      LeadingZeros(4 - |t|, t);
      assert Pad4(t) == Zeros(4 - |t|) + t;
      SameValue(Pad4(t), s);
    }
  }

  // ---------- Printing and parsing undo each other ----------

  lemma JoinSplits(y: string, t: string)
    requires AllDigits(y)
    ensures var s, k := Join(y, t), 4 + |y|;
            Dash(s, 4) == k < |s| && s[..4] == "INV-" && s[4..k] == y && s[k + 1..] == t
  {
    var s, k := Join(y, t), 4 + |y|;
    assert forall j | 4 <= j < k :: s[j] == y[j - 4];
    assert s[k] == '-';
  }

  lemma PartsJoin(s: string, k: nat)
    requires 4 <= k < |s| && s[..4] == "INV-" && s[k] == '-'
    ensures Join(s[4..k], s[k + 1..]) == s
  {
    assert s == s[..4] + s[4..k] + [s[k]] + s[k + 1..];
  }

  lemma ParsePrint(year: nat, n: nat)
    ensures Parse(Print(year, n)) == Some((year, n))
  {
    var t := Digits(n);
    DigitsRoundTrip(year);
    DigitsRoundTrip(n);
    if |t| < 4 {
      LeadingZeros(4 - |t|, t);
    }
    JoinSplits(Digits(year), Pad4(t));
  }

  lemma PrintParse(s: string)
    requires Parse(s).Some?
    ensures Print(Parse(s).value.0, Parse(s).value.1) == s
  {
    var k := Dash(s, 4);
    PlainRoundTrip(s[4..k]);
    PaddedRoundTrip(s[k + 1..]);
    PartsJoin(s, k);
  }
}
