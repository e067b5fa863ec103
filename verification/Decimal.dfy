/** A value that may be absent. */
module Optional {
  datatype Option<+T> = None | Some(value: T)
}

/** Decimal numerals as the Go and Swift libraries print and parse them. */
module Decimal {
  import opened Optional

  const MAX_INT64 := 0x7fff_ffff_ffff_ffff

  function Digit(n: nat): (c: char)
    requires n < 10
    ensures IsDigit(c) && (c - '0') as nat == n
  {
    '0' + n as char
  }

  predicate IsDigit(c: char) { '0' <= c <= '9' }

  predicate AllDigits(s: string) { forall i :: 0 <= i < |s| ==> IsDigit(s[i]) }

  /** No leading zero, except in "0" itself. */
  predicate Plain(s: string) {
    s != "" && AllDigits(s) && (|s| == 1 || s[0] != '0')
  }

  function Itoa(n: nat): (s: string)
    ensures s != "" && (|s| == 1 <==> n < 10)
  {
    if n < 10 then [Digit(n)] else Itoa(n / 10) + [Digit(n % 10)]
  }

  function Digits(s: string, acc: nat): Option<nat> {
    if s == "" then Some(acc)
    else if IsDigit(s[0]) then Digits(s[1..], acc * 10 + (s[0] - '0') as nat)
    else None
  }

  /** strconv.Atoi and Swift's Int(_:): an optional sign, decimal digits, and the 64-bit range. */
  function Atoi(s: string): Option<int> {
    var negative := s != "" && s[0] == '-';
    var body := if s != "" && (s[0] == '-' || s[0] == '+') then s[1..] else s;
    if body == "" then None
    else match Digits(body, 0)
         case None => None
         case Some(n) =>
           var value := if negative then 0 - n as int else n as int;
           if -MAX_INT64 - 1 <= value <= MAX_INT64 then Some(value) else None
  }

  lemma {:induction false} ItoaInjective(a: nat, b: nat)
    requires Itoa(a) == Itoa(b)
    ensures a == b
  {
    DigitsOfItoa(a);
    DigitsOfItoa(b);
  }

  lemma {:induction false} DigitsSnoc(s: string, d: char, acc: nat)
    requires IsDigit(d)
    ensures Digits(s + [d], acc) ==
            match Digits(s, acc) { case None => None case Some(n) => Some(n * 10 + (d - '0') as nat) }
  {
    var longer := s + [d];
    if s == "" {
      assert longer[1..] == "";
    } else {
      assert longer[1..] == s[1..] + [d];
      if IsDigit(s[0]) { DigitsSnoc(s[1..], d, acc * 10 + (s[0] - '0') as nat); }
    }
  }

  /** Printing is plain and parsing undoes it. */
  lemma {:induction false} DigitsOfItoa(n: nat)
    ensures Plain(Itoa(n)) && Digits(Itoa(n), 0) == Some(n)
    ensures n > 0 ==> Itoa(n)[0] != '0'
  {
    if n < 10 {
      assert Itoa(n)[1..] == "";
    } else {
      DigitsOfItoa(n / 10);
      DigitsSnoc(Itoa(n / 10), Digit(n % 10), 0);
      assert Itoa(n)[0] == Itoa(n / 10)[0];
    }
  }

  /** Printing undoes the parsing of a plain numeral. */
  lemma {:induction false} ItoaOfDigits(s: string)
    requires Plain(s)
    ensures Digits(s, 0).Some? && Itoa(Digits(s, 0).value) == s
  {
    var shorter, d := s[..|s| - 1], s[|s| - 1];
    assert s == shorter + [d];
    DigitsSnoc(shorter, d, 0);
    if |s| == 1 {
      assert shorter == "";
    } else {
      ItoaOfDigits(shorter);
      var n := Digits(shorter, 0).value;
      assert n > 0;
      assert (n * 10 + (d - '0') as nat) / 10 == n;
    }
  }

  function Pow10(k: nat): (p: nat)
    ensures p > 0
  {
    if k == 0 then 1 else 10 * Pow10(k - 1)
  }

  lemma {:induction false} ItoaLength(n: nat, k: nat)
    requires k > 0
    ensures |Itoa(n)| <= k <==> n < Pow10(k)
  {
    if n >= 10 && k > 1 {
      ItoaLength(n / 10, k - 1);
    } else if n < 10 && k > 1 {
      assert Pow10(k) == 10 * Pow10(k - 1);
    } else {
      assert Pow10(1) == 10 * Pow10(0);
    }
  }
}
