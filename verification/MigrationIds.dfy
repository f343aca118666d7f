/** Migration IDs: what strconv.ParseInt accepts, and how string order relates to numeric order. */
module MigrationIds {
  import opened Options
  import opened Ordering

  const ID_LENGTH := 14

  predicate IsDigit(c: char) { '0' <= c <= '9' }

  predicate AllDigits(s: string) {
    forall i :: 0 <= i < |s| ==> IsDigit(s[i])
  }

  function Digit(c: char): int { c as int - '0' as int }

  /** The number a digit string denotes, most significant digit first. */
  function Value(s: string): int {
    if s == [] then 0 else 10 * Value(s[..|s| - 1]) + Digit(s[|s| - 1])
  }

  /** strconv.ParseInt(s, 10, 64): an optional sign, then at least one digit, in the int64 range. */
  function ParseInt(s: string): Option<int> {
    if s == [] then None
    else
      var body := if s[0] == '+' || s[0] == '-' then s[1..] else s;
      if body == [] || !AllDigits(body) then None
      else
        var v := if s[0] == '-' then -Value(body) else Value(body);
        if -0x8000_0000_0000_0000 <= v < 0x8000_0000_0000_0000 then Some(v) else None
  }

  function Pow10(n: nat): nat { if n == 0 then 1 else 10 * Pow10(n - 1) }

  lemma {:induction false} ValueBound(s: string)
    requires AllDigits(s)
    ensures 0 <= Value(s) < Pow10(|s|)
  {
    if s != [] { ValueBound(s[..|s| - 1]); }
  }

  /** No 14-character numeral leaves the int64 range: only the syntax can make it fail. */
  lemma ParsesFourteen(s: string)
    requires |s| == 14
    ensures ParseInt(s).Some? <==>
            AllDigits(s) || ((s[0] == '+' || s[0] == '-') && AllDigits(s[1..]))
  {
    assert Pow10(14) == 100_000_000_000_000 by {
      assert Pow10(5) == 100_000;
      assert Pow10(9) == 10 * Pow10(8) == 100 * Pow10(7) == 1000 * Pow10(6) == 10_000 * Pow10(5);
      assert Pow10(14) == 10 * Pow10(13) == 100 * Pow10(12) == 1000 * Pow10(11) == 10_000 * Pow10(10);
    }
    var signed := s[0] == '+' || s[0] == '-';
    var body := if signed then s[1..] else s;
    if AllDigits(body) {
      ValueBound(body);
      assert Pow10(14) == 10 * Pow10(13);
    }
    if signed { assert !IsDigit(s[0]); }
  }

  lemma {:induction false} StrLessLast(a: string, b: string)
    requires |a| == |b| > 0
    ensures var a', b' := a[..|a| - 1], b[..|b| - 1];
            StrLess(a, b) <==> StrLess(a', b') || (a' == b' && a[|a| - 1] < b[|b| - 1])
  {
    var n := |a| - 1;
    if n > 0 {
      StrLessLast(a[1..], b[1..]);
      assert a[1..][..n - 1] == a[..n][1..] && b[1..][..n - 1] == b[..n][1..];
      assert a[..n] == [a[0]] + a[..n][1..] && b[..n] == [b[0]] + b[..n][1..];
    } else {
      assert a[1..] == [] && b[1..] == [];
      assert a[..0] == b[..0];
    }
  }

  /** On digit strings of one length, the string order is the numeric order. */
  lemma {:induction false} StringOrderIsNumeric(a: string, b: string)
    requires |a| == |b| && AllDigits(a) && AllDigits(b)
    ensures StrLess(a, b) <==> Value(a) < Value(b)
    ensures a == b <==> Value(a) == Value(b)
  {
    if a != [] {
      var a', b' := a[..|a| - 1], b[..|b| - 1];
      StringOrderIsNumeric(a', b');
      StrLessLast(a, b);
      assert a == a' + [a[|a| - 1]] && b == b' + [b[|b| - 1]];
    }
  }

  // ----- IDs with a sign parse too

  /** What ValidateMigrationOrder asks of a single ID. */
  predicate ValidId(s: string) {
    |s| == ID_LENGTH && ParseInt(s).Some?
  }

  /** The number of an ID that parses. */
  function Number(s: string): int {
    match ParseInt(s) case Some(v) => v case None => 0
  }

  predicate Signed(s: string, sign: char) {
    s != "" && s[0] == sign
  }

  /** The IDs that pass: 14 digits, or a sign and 13 digits. */
  lemma ValidIdIff(s: string)
    ensures ValidId(s) <==>
            |s| == 14 && forall i :: 0 <= i < 14 ==> '0' <= s[i] <= '9' || (i == 0 && (s[0] == '+' || s[0] == '-'))
  {
    if |s| == 14 {
      ParsesFourteen(s);
      assert AllDigits(s[1..]) <==> forall i :: 1 <= i < 14 ==> IsDigit(s[i]) by {
        assert forall i :: 1 <= i < 14 ==> s[i] == s[1..][i - 1];
      }
    }
  }

  lemma SignedValue(s: string)
    requires ValidId(s)
    ensures if Signed(s, '+') then AllDigits(s[1..]) && Number(s) == Value(s[1..])
            else if Signed(s, '-') then AllDigits(s[1..]) && Number(s) == -Value(s[1..])
            else AllDigits(s) && Number(s) == Value(s)
  {
  }

  lemma {:induction false} LeadingZero(s: string)
    requires AllDigits(s)
    ensures AllDigits(['0'] + s) && Value(['0'] + s) == Value(s)
  {
    var z := ['0'] + s;
    if s == [] {
      assert z[..0] == [];
    } else {
      LeadingZero(s[..|s| - 1]);
      assert z[..|s|] == ['0'] + s[..|s| - 1];
    }
  }

  predicate AllZero(s: string) {
    forall i :: 0 <= i < |s| ==> s[i] == '0'
  }

  lemma {:induction false} ZeroIff(s: string)
    requires AllDigits(s)
    ensures Value(s) == 0 <==> AllZero(s)
  {
    if s != [] {
      var n := |s| - 1;
      ZeroIff(s[..n]);
      ValueBound(s[..n]);
      assert AllZero(s) <==> AllZero(s[..n]) && s[n] == '0';
    }
  }

  /** Two IDs with a minus sign are always the wrong way round. */
  lemma MinusReversed(a: string, b: string)
    requires ValidId(a) && ValidId(b) && Signed(a, '-') && Signed(b, '-')
    ensures StrLess(a, b) <==> Number(a) > Number(b)
  {
    SignedValue(a);
    SignedValue(b);
    StringOrderIsNumeric(a[1..], b[1..]);
  }

  /** An ID with a plus sign comes before every unsigned one; its number is smaller if its digits are. */
  lemma PlusFirst(a: string, b: string)
    requires ValidId(a) && ValidId(b) && Signed(a, '+') && AllDigits(b)
    ensures StrLess(a, b)
    ensures Number(a) < Number(b) <==> StrLess(['0'] + a[1..], b)
  {
    SignedValue(a);
    SignedValue(b);
    assert IsDigit(b[0]);
    LeadingZero(a[1..]);
    StringOrderIsNumeric(['0'] + a[1..], b);
  }

  /** An ID with a minus sign comes before every unsigned one, rightly so unless both are zero. */
  lemma MinusFirst(a: string, b: string)
    requires ValidId(a) && ValidId(b) && Signed(a, '-') && AllDigits(b)
    ensures StrLess(a, b)
    ensures Number(a) < Number(b) <==> !AllZero(a[1..]) || !AllZero(b)
  {
    SignedValue(a);
    SignedValue(b);
    ValueBound(a[1..]);
    ValueBound(b);
    ZeroIff(a[1..]);
    ZeroIff(b);
    assert IsDigit(b[0]);
  }

  /** What two IDs have to look like for their numbers to be in the order of their strings. */
  predicate OrderFits(a: string, b: string) {
    if Signed(a, '+') then Signed(b, '+') || (AllDigits(b) && StrLess(['0'] + a[1..], b))
    else if Signed(a, '-') then AllDigits(b) && (!AllZero(a[1..]) || !AllZero(b))
    else true
  }

  /**
   When the order by string is the order by number, over all IDs that pass validation: two unsigned or two
   plus IDs are in order, two minus IDs never are, nor is a plus before a minus; a plus ID is in order
   before an unsigned one of larger digits, a minus ID before an unsigned one unless both are zero.
   */
  lemma StringOrderFitsIff(a: string, b: string)
    requires ValidId(a) && ValidId(b) && StrLess(a, b)
    ensures Number(a) < Number(b) <==> OrderFits(a, b)
  {
    SignedValue(a);
    SignedValue(b);
    if Signed(a, '+') && Signed(b, '+') {
      StringOrderIsNumeric(a[1..], b[1..]);
    } else if Signed(a, '+') && Signed(b, '-') {
      ValueBound(a[1..]);
      ValueBound(b[1..]);
      assert !IsDigit(b[0]);
    } else if Signed(a, '+') {
      PlusFirst(a, b);
    } else if Signed(a, '-') && Signed(b, '-') {
      MinusReversed(a, b);
      assert !IsDigit(b[0]);
    } else if Signed(a, '-') {
      assert b[0] != '+';
      MinusFirst(a, b);
    } else {
      assert IsDigit(a[0]);
      StringOrderIsNumeric(a, b);
    }
  }
}
