/**
  Placeholders in SQL text: `buildTemplate` (index.js) prints `$1`, `$2`, ... between the parts of
  a tagged template, and `count_placeholders` (prepared.rs) finds the highest number again.
 */
module Placeholders {

  const U32 := 0x1_0000_0000

  predicate IsDigit(c: char) {
    '0' <= c <= '9'
  }

  function DigitValue(c: char): nat
    requires IsDigit(c)
  {
    c as int - '0' as int
  }

  function Max(a: nat, b: nat): nat {
    if a >= b then a else b
  }

  /** The digits at the front of `s` read as a 32-bit number that starts out as `n`; it wraps. */
  function Leading(s: string, n: nat): nat
  {
    if s == "" || !IsDigit(s[0]) then n else Leading(s[1..], (n * 10 + DigitValue(s[0])) % U32)
  }

  /** The highest placeholder: over all `$`, the number that follows, or 0. */
  function Highest(s: string): nat
  {
    if s == "" then 0
    else Max(if s[0] == '$' then Leading(s[1..], 0) else 0, Highest(s[1..]))
  }

  /** `count_placeholders`. */
  method CountPlaceholders(sql: string) returns (max: nat)
    ensures max == Highest(sql)
  {
    max := 0;
    var i := 0;
    assert sql[0..] == sql;
    while i < |sql|
      invariant i <= |sql|
      invariant Highest(sql) == Max(max, Highest(sql[i..]))
    {
      assert sql[i..][1..] == sql[i + 1..];
      if sql[i] == '$' {
        var j: nat, n: nat := i + 1, 0;
        while j < |sql| && IsDigit(sql[j])
          invariant i + 1 <= j <= |sql|
          invariant Leading(sql[i + 1..], 0) == Leading(sql[j..], n)
          invariant Highest(sql[i + 1..]) == Highest(sql[j..])
          invariant j == i + 1 ==> n == 0
        {
          assert sql[j..][1..] == sql[j + 1..];
          n := (n * 10 + DigitValue(sql[j])) % U32;
          j := j + 1;
        }
        if j > i + 1 && n > max {
          max := n;
        }
        i := j;
      } else {
        i := i + 1;
      }
    }
  }

  /** `Highest` is the maximum over all `$` positions of the number that follows. */
  lemma {:induction false} HighestIsMaximum(s: string)
    ensures forall i :: 0 <= i < |s| && s[i] == '$' ==> Leading(s[i + 1..], 0) <= Highest(s)
    ensures Highest(s) == 0 || exists i :: 0 <= i < |s| && s[i] == '$' && Leading(s[i + 1..], 0) == Highest(s)
  {
    if s != "" {
      HighestIsMaximum(s[1..]);
      assert forall i :: 0 < i < |s| ==> s[1..][i - 1] == s[i] && s[1..][i..] == s[i + 1..];
      if Highest(s[1..]) > 0 {
        var k :| 0 <= k < |s[1..]| && s[1..][k] == '$' && Leading(s[1..][k + 1..], 0) == Highest(s[1..]);
        assert s[k + 1] == '$' && s[1..][k + 1..] == s[k + 2..];
      }
      forall i | 0 <= i < |s| && s[i] == '$' ensures Leading(s[i + 1..], 0) <= Highest(s) {
        if i > 0 { assert s[1..][i - 1] == '$' && s[1..][i..] == s[i + 1..]; }
      }
    }
  }

  /** The exact value of the digits at the front of `s`, without wrapping. */
  function LeadingValue(s: string, n: nat): nat
  {
    if s == "" || !IsDigit(s[0]) then n else LeadingValue(s[1..], n * 10 + DigitValue(s[0]))
  }

  /** Numbers that fit 32 bits are read exactly; larger ones wrap. */
  lemma {:induction false} LeadingWraps(s: string, n: nat)
    ensures Leading(s, n % 4_294_967_296) == LeadingValue(s, n) % 4_294_967_296
    decreases |s|
  {
    if s != "" && IsDigit(s[0]) {
      var d := DigitValue(s[0]);
      WrapStep(n, d);
      LeadingWraps(s[1..], n * 10 + d);
    }
  }

  lemma WrapStep(n: nat, d: nat)
    ensures ((n % U32) * 10 + d) % U32 == (n * 10 + d) % U32
  {
    var q := n / U32;
    assert n * 10 + d == (n % U32) * 10 + d + U32 * (q * 10);
  }

  // ---------------------------------------------------------------------------
  // The template printer
  // ---------------------------------------------------------------------------

  function Digit(d: nat): char
    requires d < 10
  {
    '0' + d as char
  }

  /** A number as JavaScript prints it. */
  function Decimal(n: nat): string
  {
    if n < 10 then [Digit(n)] else Decimal(n / 10) + [Digit(n % 10)]
  }

  /** The first `n` values with the text around them. */
  function Template(strings: seq<string>, n: nat): string
    requires n < |strings|
  {
    if n == 0 then strings[0] else Template(strings, n - 1) + "$" + Decimal(n) + strings[n]
  }

  /** `buildTemplate`; a tagged template has one more string than values. */
  method BuildTemplate<T>(strings: seq<string>, values: seq<T>) returns (sql: string)
    requires |strings| == |values| + 1
    ensures sql == Template(strings, |values|)
  {
    sql := strings[0];
    for i := 0 to |values|
      invariant sql == Template(strings, i)
    {
      sql := sql + "$" + Decimal(i + 1) + strings[i + 1];
    }
  }

  // ---------------------------------------------------------------------------
  // Printing then counting
  // ---------------------------------------------------------------------------

  predicate StartsWithDigit(s: string) {
    s != "" && IsDigit(s[0])
  }

  lemma OneMoreDigit(n: nat, rest: string)
    requires n < U32
    ensures Leading([Digit(n % 10)] + rest, n / 10) == Leading(rest, n)
  {
    var last := [Digit(n % 10)] + rest;
    assert last[1..] == rest && IsDigit(last[0]) && DigitValue(last[0]) == n % 10;
    assert (n / 10 * 10 + n % 10) % U32 == n;
  }

  lemma {:induction false} DecimalReads(n: nat, rest: string)
    requires n < U32
    ensures Leading(Decimal(n) + rest, 0) == Leading(rest, n)
    decreases n
  {
    if n < 10 {
      assert (Decimal(n) + rest)[1..] == rest;
    } else {
      var last := [Digit(n % 10)] + rest;
      assert Decimal(n) + rest == Decimal(n / 10) + last;
      DecimalReads(n / 10, last);
      OneMoreDigit(n, rest);
    }
  }

  lemma {:induction false} LeadingStopsAt(a: string, b: string, n: nat)
    requires !StartsWithDigit(b)
    ensures Leading(a + b, n) == Leading(a, n)
    decreases |a|
  {
    if a == "" {
      assert a + b == b;
    } else if IsDigit(a[0]) {
      assert (a + b)[1..] == a[1..] + b;
      LeadingStopsAt(a[1..], b, (n * 10 + DigitValue(a[0])) % U32);
    }
  }

  lemma {:induction false} HighestOfBoth(a: string, b: string)
    requires !StartsWithDigit(b)
    ensures Highest(a + b) == Max(Highest(a), Highest(b))
    decreases |a|
  {
    if a == "" {
      assert a + b == b;
    } else {
      assert (a + b)[1..] == a[1..] + b;
      HighestOfBoth(a[1..], b);
      LeadingStopsAt(a[1..], b, 0);
    }
  }

  lemma {:induction false} NoDollarNoPlaceholder(s: string)
    requires '$' !in s
    ensures Highest(s) == 0
  {
    if s != "" { NoDollarNoPlaceholder(s[1..]); }
  }

  lemma {:induction false} DecimalHasNoDollar(n: nat)
    ensures '$' !in Decimal(n)
    decreases n
  {
    if n >= 10 { DecimalHasNoDollar(n / 10); }
  }

  /** The text between the `$` signs. */
  function SplitAtDollars(s: string): (parts: seq<string>)
    ensures parts != []
  {
    if s == "" then [""]
    else
      var rest := SplitAtDollars(s[1..]);
      if s[0] == '$' then [""] + rest else [[s[0]] + rest[0]] + rest[1..]
  }

  lemma {:induction false} NoDollarNoSplit(s: string)
    requires '$' !in s
    ensures SplitAtDollars(s) == [s]
  {
    if s != "" {
      NoDollarNoSplit(s[1..]);
      assert [s[0]] + s[1..] == s;
    }
  }

  lemma {:induction false} SplitsLast(a: string, b: string)
    requires '$' !in b
    ensures SplitAtDollars(a + "$" + b) == SplitAtDollars(a) + [b]
    decreases |a|
  {
    if a == "" {
      NoDollarNoSplit(b);
      assert a + "$" + b == "$" + b && ("$" + b)[1..] == b;
      assert [""] + [b] == SplitAtDollars(a) + [b];
    } else {
      SplitsLast(a[1..], b);
      assert (a + "$" + b)[1..] == a[1..] + "$" + b;
    }
  }

  /**
    Nothing is lost in a printed template: split at its `$` signs it is the first part, and then
    each value's number followed by the part after that value.
   */
  lemma {:induction false} TemplateSplits(strings: seq<string>, n: nat)
    requires n < |strings|
    requires forall i :: 0 <= i <= n ==> '$' !in strings[i]
    ensures var parts := SplitAtDollars(Template(strings, n));
            && |parts| == n + 1 && parts[0] == strings[0]
            && forall i :: 0 < i <= n ==> parts[i] == Decimal(i) + strings[i]
    decreases n
  {
    if n == 0 {
      NoDollarNoSplit(strings[0]);
    } else {
      TemplateSplits(strings, n - 1);
      LastPart(strings, n);
    }
  }

  lemma LastPart(strings: seq<string>, n: nat)
    requires 0 < n < |strings| && '$' !in strings[n]
    ensures SplitAtDollars(Template(strings, n)) == SplitAtDollars(Template(strings, n - 1)) + [Decimal(n) + strings[n]]
  {
    DecimalHasNoDollar(n);
    var piece := Decimal(n) + strings[n];
    assert Template(strings, n) == Template(strings, n - 1) + "$" + piece;
    SplitsLast(Template(strings, n - 1), piece);
  }

  /** So templates with as many values print alike only if their parts are the same. */
  lemma TemplatesAreInjective(a: seq<string>, b: seq<string>, n: nat)
    requires |a| == |b| == n + 1
    requires forall i :: 0 <= i <= n ==> '$' !in a[i] && '$' !in b[i]
    requires Template(a, n) == Template(b, n)
    ensures a == b
  {
    TemplateSplits(a, n);
    TemplateSplits(b, n);
    forall i | 0 < i <= n ensures a[i] == b[i] {
      assert (Decimal(i) + a[i])[|Decimal(i)|..] == a[i];
      assert (Decimal(i) + b[i])[|Decimal(i)|..] == b[i];
    }
  }

  /** The number read where value `i` is printed: `i`, extended by digits that follow it. */
  function NumberAt(strings: seq<string>, i: nat): nat
    requires i < |strings|
  {
    LeadingValue(strings[i], i)
  }

  lemma {:induction false} DigitsOnlyAdd(s: string, n: nat)
    ensures LeadingValue(s, n) >= n
    ensures StartsWithDigit(s) && n > 0 ==> LeadingValue(s, n) > n
    decreases |s|
  {
    if s != "" && IsDigit(s[0]) { DigitsOnlyAdd(s[1..], n * 10 + DigitValue(s[0])); }
  }

  lemma {:induction false} LeadingExact(s: string, n: nat)
    requires LeadingValue(s, n) < U32
    ensures n < U32 && Leading(s, n) == LeadingValue(s, n)
    decreases |s|
  {
    DigitsOnlyAdd(s, n);
    if s != "" && IsDigit(s[0]) {
      var m := n * 10 + DigitValue(s[0]);
      LeadingExact(s[1..], m);
      assert m % U32 == m;
    }
  }

  /** One printed value contributes its own number and the digits that follow. */
  lemma ValueCounts(n: nat, text: string)
    requires 0 < n && '$' !in text && LeadingValue(text, n) < U32
    ensures Highest("$" + Decimal(n) + text) == LeadingValue(text, n)
  {
    var value := Decimal(n) + text;
    assert "$" + Decimal(n) + text == "$" + value;
    assert ("$" + value)[1..] == value;
    LeadingExact(text, n);
    DecimalReads(n, text);
    DecimalHasNoDollar(n);
    NoDollarNoPlaceholder(value);
  }

  lemma OneMoreValue(strings: seq<string>, n: nat)
    requires 0 < n < |strings| && '$' !in strings[n] && NumberAt(strings, n) < U32
    ensures Highest(Template(strings, n)) == Max(Highest(Template(strings, n - 1)), NumberAt(strings, n))
    ensures NumberAt(strings, n) >= n
  {
    var value := "$" + Decimal(n) + strings[n];
    assert Template(strings, n) == Template(strings, n - 1) + value;
    HighestOfBoth(Template(strings, n - 1), value);
    ValueCounts(n, strings[n]);
    DigitsOnlyAdd(strings[n], n);
  }

  /** The count is the largest number read at a value. */
  lemma {:induction false} CountIsLargestNumber(strings: seq<string>, n: nat)
    requires n < |strings|
    requires forall i :: 0 <= i <= n ==> '$' !in strings[i]
    requires forall i :: 0 < i <= n ==> NumberAt(strings, i) < U32
    ensures forall i :: 0 < i <= n ==> NumberAt(strings, i) <= Highest(Template(strings, n))
    ensures if n == 0 then Highest(Template(strings, n)) == 0
            else exists i :: 0 < i <= n && NumberAt(strings, i) == Highest(Template(strings, n))
    decreases n
  {
    if n == 0 {
      NoDollarNoPlaceholder(strings[0]);
    } else {
      CountIsLargestNumber(strings, n - 1);
      assert NumberAt(strings, n) < U32;
      OneMoreValue(strings, n);
    }
  }

  /**
    Printing then counting gives the number of values exactly if no digits after a value extend
    its number beyond that count. The parts hold no `$`, and the numbers fit 32 bits.
   */
  lemma PrintThenCountIff(strings: seq<string>, n: nat)
    requires n < |strings|
    requires forall i :: 0 <= i <= n ==> '$' !in strings[i]
    requires forall i :: 0 < i <= n ==> NumberAt(strings, i) < U32
    ensures Highest(Template(strings, n)) == n <==> forall i :: 0 < i <= n ==> NumberAt(strings, i) <= n
  {
    CountIsLargestNumber(strings, n);
    DigitsOnlyAdd(strings[n], n);
    assert NumberAt(strings, n) >= n;
  }

  /** In particular if no part after a value starts with a digit. */
  lemma PrintThenCount(strings: seq<string>, n: nat)
    requires n < |strings| && n < U32
    requires forall i :: 0 <= i <= n ==> '$' !in strings[i]
    requires forall i :: 0 < i <= n ==> !StartsWithDigit(strings[i])
    ensures Highest(Template(strings, n)) == n
  {
    assert forall i :: 0 < i <= n ==> NumberAt(strings, i) == i;
    PrintThenCountIff(strings, n);
  }

  /** The smallest example: one value followed by "0" counts as ten. */
  lemma DigitAfterValueMiscounts()
    ensures Template(["", "0"], 1) == "$10" && Highest(Template(["", "0"], 1)) == 10
  {
    var strings := ["", "0"];
    assert Template(strings, 0) == "" && Decimal(1) == "1";
    assert Template(strings, 1) == "" + "$" + "1" + "0" == "$10";
    assert "$10"[1..] == "10" && "10"[1..] == "0" && "0"[1..] == "";
    assert Leading("0", 1) == 10 && Leading("10", 0) == 10;
    NoDollarNoPlaceholder("10");
  }
}
