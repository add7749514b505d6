/** The overlay label `"<gender>, <age>y (<emotion>)"` of components/WebcamFeed.tsx,
    with the decimal rendering of an integer age, and a parser that reads the
    three parts back. */
module Label {
  import opened Wrappers

  predicate IsDigit(c: char) {
    '0' <= c <= '9'
  }

  function DigitChar(d: nat): (c: char)
    requires d < 10
    ensures IsDigit(c)
  {
    ('0' as int + d) as char
  }

  function DigitValue(c: char): (d: nat)
    requires IsDigit(c)
    ensures d < 10 && DigitChar(d) == c
  {
    c as int - '0' as int
  }

  predicate AllDigits(s: string) {
    forall i :: 0 <= i < |s| ==> IsDigit(s[i])
  }

  /** Decimal digits of `n`, without leading zeros. */
  function NatToString(n: nat): (s: string)
    ensures |s| > 0 && AllDigits(s)
    ensures s[0] == '0' ==> n == 0 && |s| == 1
    decreases n
  {
    if n < 10 then [DigitChar(n)] else NatToString(n / 10) + [DigitChar(n % 10)]
  }

  /** The number a string of decimal digits denotes. */
  function DigitsValue(s: string): nat
    requires AllDigits(s)
  {
    if s == [] then 0 else 10 * DigitsValue(s[..|s| - 1]) + DigitValue(s[|s| - 1])
  }

  lemma {:induction false} NatToStringValue(n: nat)
    ensures DigitsValue(NatToString(n)) == n
    decreases n
  {
    if n >= 10 {
      NatToStringValue(n / 10);
      var s := NatToString(n);
      assert s[..|s| - 1] == NatToString(n / 10);
    }
  }

  /** How a template literal renders an integer: an optional minus sign, then digits. */
  function IntToString(i: int): string {
    if i < 0 then "-" + NatToString(-i) else NatToString(i)
  }

  /** Length of the run of digits that starts `s`. */
  function DigitRun(s: string): (k: nat)
    ensures k <= |s| && AllDigits(s[..k])
    ensures k < |s| ==> !IsDigit(s[k])
  {
    if s == [] || !IsDigit(s[0]) then 0 else 1 + DigitRun(s[1..])
  }

  lemma {:induction false} DigitRunPrefix(d: string, rest: string)
    requires AllDigits(d)
    requires rest == [] || !IsDigit(rest[0])
    ensures DigitRun(d + rest) == |d|
  {
    if d != [] {
      assert (d + rest)[1..] == d[1..] + rest;
      DigitRunPrefix(d[1..], rest);
    }
  }

  /** Reads an integer at the start of `s`: its value and the length it occupies. */
  function ParseInt(s: string): Option<(int, nat)> {
    if |s| > 0 && s[0] == '-' then
      var k := DigitRun(s[1..]);
      if k == 0 then None
      else
        var v: int := DigitsValue(s[1..][..k]);
        Some((-v, 1 + k))
    else
      var k := DigitRun(s);
      if k == 0 then None else Some((DigitsValue(s[..k]), k))
  }

  /** Reading back a rendered integer gives the integer and its length. */
  lemma ParseIntToString(i: int, rest: string)
    requires rest == [] || !IsDigit(rest[0])
    ensures ParseInt(IntToString(i) + rest) == Some((i, |IntToString(i)|))
  {
    var n: nat := if i < 0 then -i else i;
    var d := NatToString(n);
    NatToStringValue(n);
    DigitRunPrefix(d, rest);
    if i < 0 {
      var s := "-" + d + rest;
      assert s[1..] == d + rest;
      assert s[1..][..|d|] == d;
    } else {
      assert (d + rest)[..|d|] == d;
    }
  }

  /** The text drawn above a face box. */
  function Label(gender: string, age: int, emotion: string): string {
    gender + ", " + IntToString(age) + "y (" + emotion + ")"
  }

  datatype LabelParts = LabelParts(gender: string, age: int, emotion: string)

  /** Position of the first `c` in `s`, or |s| when there is none. */
  function IndexOf(s: string, c: char): (k: nat)
    ensures k <= |s| && (k < |s| ==> s[k] == c)
    ensures forall i :: 0 <= i < k ==> s[i] != c
  {
    if s == [] then 0 else if s[0] == c then 0 else 1 + IndexOf(s[1..], c)
  }

  lemma IndexOfAfter(a: string, b: string, c: char)
    requires c !in a && |b| > 0 && b[0] == c
    ensures IndexOf(a + b, c) == |a|
  {
    var k := IndexOf(a + b, c);
    assert (a + b)[|a|] == c;
    assert forall i :: 0 <= i < |a| ==> (a + b)[i] == a[i] && a[i] in a;
  }

  /** Splits a label into gender, age and emotion; None when it is not of that form. */
  function ParseLabel(s: string): Option<LabelParts> {
    var g := IndexOf(s, ',');
    if g + 2 > |s| || s[g..g + 2] != ", " then None
    else
      var rest := s[g + 2..];
      match ParseInt(rest)
      case None => None
      case Some((age, n)) =>
        if n > |rest| then None
        else
          var tail := rest[n..];
          if |tail| < 4 || tail[..3] != "y (" || tail[|tail| - 1] != ')' then None
          else Some(LabelParts(s[..g], age, tail[3..|tail| - 1]))
  }

  /** A label determines the gender, age and emotion it was built from, given a
      gender without a comma (the detector reports "male" or "female"). */
  lemma LabelRoundTrip(gender: string, age: int, emotion: string)
    requires ',' !in gender
    ensures ParseLabel(Label(gender, age, emotion)) == Some(LabelParts(gender, age, emotion))
  {
    var num := IntToString(age);
    var tail := "y (" + emotion + ")";
    var rest := num + tail;
    var s := Label(gender, age, emotion);
    assert s == gender + (", " + rest);
    IndexOfAfter(gender, ", " + rest, ',');
    assert s[|gender|..|gender| + 2] == ", ";
    assert s[|gender| + 2..] == rest;
    assert s[..|gender|] == gender;
    ParseIntToString(age, tail);
    assert rest[|num|..] == tail;
    assert tail[..3] == "y (";
    assert tail[3..|tail| - 1] == emotion;
  }
}
