/**
 * The jackpot amount: read from the scraped text by keeping its digits and
 * parsing them as a decimal integer, and rendered back as "$" followed by
 * the value with comma thousands separators.
 */
module Jackpot {
  import opened Wrappers
  import opened PyText

  /** The digit characters of `s`, in order; empty exactly when `s` has none. */
  function DigitsOf(s: string): (d: string)
    ensures AllDigits(d) && |d| <= |s|
    ensures d == [] <==> forall i :: 0 <= i < |s| ==> !IsDigit(s[i])
  {
    if s == [] then []
    else (if IsDigit(s[0]) then [s[0]] else []) + DigitsOf(s[1..])
  }

  function DigitValue(c: char): nat
    requires IsDigit(c)
  {
    c as int - '0' as int
  }

  function DigitChar(k: nat): (c: char)
    requires k < 10
    ensures IsDigit(c) && DigitValue(c) == k
  {
    ('0' as int + k) as char
  }

  /** The value of a string of decimal digits, most significant first; leading zeros allowed. */
  function DecimalValue(d: string): nat
    requires AllDigits(d)
  {
    if d == [] then 0 else 10 * DecimalValue(d[..|d| - 1]) + DigitValue(d[|d| - 1])
  }

  /** The canonical decimal representation of `n`: digits only, no leading zero unless `n` is 0. */
  function Decimal(n: nat): (d: string)
    ensures 1 <= |d| && AllDigits(d)
    ensures DecimalValue(d) == n
    ensures d[0] == '0' ==> n == 0 && d == "0"
  {
    if n < 10 then [DigitChar(n)]
    else
      var d := Decimal(n / 10) + [DigitChar(n % 10)];
      assert d[..|d| - 1] == Decimal(n / 10);
      d
  }

  /** `k` zero characters. */
  function Zeros(k: nat): (z: string)
    ensures |z| == k && AllDigits(z)
  {
    if k == 0 then [] else Zeros(k - 1) + ['0']
  }

  /** The failure of the source's integer parse when the text holds no digit. */
  datatype NormaliseError = NoDigits

  /**
   * The jackpot value of a scraped text: its digits parsed as one decimal
   * integer. A text without a digit is an error, not zero.
   */
  function Normalise(raw: string): (r: Result<nat, NormaliseError>)
    ensures r.Err? <==> forall i :: 0 <= i < |raw| ==> !IsDigit(raw[i])
  {
    var d := DigitsOf(raw);
    if d == [] then Err(NoDigits) else Ok(DecimalValue(d))
  }

  lemma {:induction false} DigitsOfConcat(a: string, b: string)
    ensures DigitsOf(a + b) == DigitsOf(a) + DigitsOf(b)
  {
    if a == [] {
      assert a + b == b;
    } else {
      var head: string := if IsDigit(a[0]) then [a[0]] else [];
      assert (a + b)[0] == a[0];
      assert (a + b)[1..] == a[1..] + b;
      DigitsOfConcat(a[1..], b);
      assert DigitsOf(a + b) == head + (DigitsOf(a[1..]) + DigitsOf(b));
      assert DigitsOf(a) == head + DigitsOf(a[1..]);
    }
  }

  lemma {:induction false} DigitsOfDigits(d: string)
    requires AllDigits(d)
    ensures DigitsOf(d) == d
  {
    if d != [] {
      DigitsOfDigits(d[1..]);
    }
  }

  /** Deleting a character that is not a digit never changes the normalised value. */
  lemma NormaliseIgnoresNonDigit(a: string, c: char, b: string)
    requires !IsDigit(c)
    ensures Normalise(a + [c] + b) == Normalise(a + b)
  {
    assert DigitsOf([c]) == [];
    DigitsOfConcat(a + [c], b);
    DigitsOfConcat(a, [c]);
    DigitsOfConcat(a, b);
    assert DigitsOf(a + [c]) == DigitsOf(a);
  }

  /** A prefix without digits does not change the normalised value. */
  lemma NormaliseSkipsNoDigits(a: string, b: string)
    requires DigitsOf(a) == []
    ensures Normalise(a + b) == Normalise(b)
  {
    DigitsOfConcat(a, b);
    assert DigitsOf(a) + DigitsOf(b) == DigitsOf(b);
  }

  /** Leading zeros do not change the value of a digit string. */
  lemma {:induction false} DecimalValueZeros(z: nat, d: string)
    requires AllDigits(d)
    ensures DecimalValue(Zeros(z) + d) == DecimalValue(d)
  {
    if d == [] {
      assert Zeros(z) + d == Zeros(z);
      if z > 0 {
        assert Zeros(z)[..z - 1] == Zeros(z - 1);
        DecimalValueZeros(z - 1, []);
        assert Zeros(z - 1) + [] == Zeros(z - 1);
      }
    } else {
      var w := Zeros(z) + d;
      assert w[..|w| - 1] == Zeros(z) + d[..|d| - 1];
      DecimalValueZeros(z, d[..|d| - 1]);
    }
  }

  /** A digit string that starts with a non-zero digit has a value of at least 1. */
  lemma {:induction false} DecimalValuePositive(d: string)
    requires AllDigits(d) && |d| >= 1 && d[0] != '0'
    ensures DecimalValue(d) >= 1
  {
    if |d| > 1 {
      DecimalValuePositive(d[..|d| - 1]);
    }
  }

  /** A canonical digit string is the decimal representation of its own value. */
  lemma {:induction false} DecimalOfValue(d: string)
    requires AllDigits(d) && |d| >= 1 && (d[0] != '0' || |d| == 1)
    ensures Decimal(DecimalValue(d)) == d
  {
    var n := DecimalValue(d);
    if |d| > 1 {
      var p := d[..|d| - 1];
      DecimalValuePositive(p);
      assert n / 10 == DecimalValue(p) && n % 10 == DigitValue(d[|d| - 1]);
      DecimalOfValue(p);
      assert d == p + [d[|d| - 1]];
    }
  }

  /** Number of leading zeros of `d`, keeping at least its last character. */
  function LeadingZeros(d: string): (k: nat)
    ensures k < |d| || (d == [] && k == 0)
  {
    if |d| >= 2 && d[0] == '0' then 1 + LeadingZeros(d[1..]) else 0
  }

  /** Every non-empty digit string is some zeros followed by the decimal representation of its value. */
  lemma {:induction false} CanonicalSplit(d: string)
    requires AllDigits(d) && |d| >= 1
    ensures var k := LeadingZeros(d);
      d == Zeros(k) + Decimal(DecimalValue(d))
  {
    var k := LeadingZeros(d);
    if k == 0 {
      DecimalOfValue(d);
    } else {
      CanonicalSplit(d[1..]);
      assert d == ['0'] + d[1..];
      ZerosCons(k - 1);
      DecimalValueZeros(1, d[1..]);
      assert Zeros(1) == ['0'];
    }
  }

  lemma {:induction false} ZerosCons(k: nat)
    ensures Zeros(k + 1) == ['0'] + Zeros(k)
  {
    if k > 0 {
      ZerosCons(k - 1);
    }
  }

  /**
   * The normalised value is `n` exactly when the digits of the text, in
   * order, spell `n` after some leading zeros.
   */
  lemma NormaliseSpells(s: string, n: nat)
    ensures Normalise(s) == Ok(n) <==> exists z :: DigitsOf(s) == Zeros(z) + Decimal(n)
  {
    var d := DigitsOf(s);
    if Normalise(s) == Ok(n) {
      CanonicalSplit(d);
      var k := LeadingZeros(d);
      assert d == Zeros(k) + Decimal(n);
    }
    if z :| d == Zeros(z) + Decimal(n) {
      DecimalValueZeros(z, Decimal(n));
    }
  }

  /** The concatenation of a sequence of strings. */
  function Concat(ss: seq<string>): string {
    if ss == [] then [] else ss[0] + Concat(ss[1..])
  }

  /** Consecutive three-character pieces of `s`. */
  function Triples(s: string): (ts: seq<string>)
    requires |s| % 3 == 0
    ensures forall i :: 0 <= i < |ts| ==> |ts[i]| == 3
    ensures Concat(ts) == s
  {
    if s == [] then []
    else
      var ts := [s[..3]] + Triples(s[3..]);
      assert ts[1..] == Triples(s[3..]);
      ts
  }

  /**
   * The thousands groups of a digit string, counted from the right: the
   * first group holds one to three characters, every later one exactly three.
   */
  function Groups(d: string): (gs: seq<string>)
    requires |d| >= 1
    ensures |gs| >= 1 && 1 <= |gs[0]| <= 3
    ensures forall i :: 1 <= i < |gs| ==> |gs[i]| == 3
    ensures Concat(gs) == d
  {
    var k := (|d| - 1) % 3 + 1;
    var gs := [d[..k]] + Triples(d[k..]);
    assert gs[1..] == Triples(d[k..]);
    assert d == d[..k] + d[k..];
    gs
  }

  /** The rendered jackpot: "$" and the value with comma thousands separators. */
  function Render(n: nat): (r: string)
    ensures |r| >= 2 && r[0] == '$'
  {
    "$" + Join(Groups(Decimal(n)), ',')
  }

  lemma {:induction false} ConcatDigits(ss: seq<string>, i: nat)
    requires AllDigits(Concat(ss)) && i < |ss|
    ensures AllDigits(ss[i])
  {
    assert Concat(ss) == ss[0] + Concat(ss[1..]);
    if i > 0 {
      forall k | 0 <= k < |Concat(ss[1..])| ensures IsDigit(Concat(ss[1..])[k]) {
        assert Concat(ss[1..])[k] == Concat(ss)[|ss[0]| + k];
      }
      ConcatDigits(ss[1..], i - 1);
    } else {
      assert forall k :: 0 <= k < |ss[0]| ==> ss[0][k] == Concat(ss)[k];
    }
  }

  lemma {:induction false} DigitsOfJoin(parts: seq<string>, sep: char)
    requires |parts| >= 1 && !IsDigit(sep)
    requires forall i :: 0 <= i < |parts| ==> AllDigits(parts[i])
    ensures DigitsOf(Join(parts, sep)) == Concat(parts)
  {
    DigitsOfDigits(parts[0]);
    if |parts| == 1 {
      assert Concat(parts[1..]) == [];
      assert parts[0] + [] == parts[0];
    } else {
      DigitsOfJoin(parts[1..], sep);
      DigitsOfConcat(parts[0] + [sep], Join(parts[1..], sep));
      DigitsOfConcat(parts[0], [sep]);
    }
  }

  /**
   * The rendered jackpot is well formed: after the "$", splitting on commas
   * gives digit groups of which the first has one to three digits and every
   * later one exactly three, which together spell the decimal value, with no
   * leading zero unless the value is 0.
   */
  lemma RenderShape(n: nat)
    ensures var gs := Split(Render(n)[1..], ',');
      && 1 <= |gs[0]| <= 3
      && (forall i :: 1 <= i < |gs| ==> |gs[i]| == 3)
      && (forall i :: 0 <= i < |gs| ==> AllDigits(gs[i]))
      && Concat(gs) == Decimal(n)
      && (gs[0][0] == '0' ==> n == 0 && Render(n) == "$0")
  {
    var d := Decimal(n);
    var parts := Groups(d);
    forall i | 0 <= i < |parts| ensures AllDigits(parts[i]) && ',' !in parts[i] {
      ConcatDigits(parts, i);
    }
    assert Render(n)[1..] == Join(parts, ',');
    SplitJoin(parts, ',');
    assert parts[0][0] == d[0];
    if d[0] == '0' {
      assert d[..1] == "0" && d[1..] == [];
      assert parts == ["0"];
    }
  }

  /** Normalising the rendered jackpot gives back the value. */
  lemma RenderRoundTrip(n: nat)
    ensures Normalise(Render(n)) == Ok(n)
  {
    var parts := Groups(Decimal(n));
    forall i | 0 <= i < |parts| ensures AllDigits(parts[i]) {
      ConcatDigits(parts, i);
    }
    DigitsOfJoin(parts, ',');
    DigitsOfConcat("$", Join(parts, ','));
    assert DigitsOf(Render(n)) == Decimal(n);
  }

  lemma {:induction false} DigitsOfTrimStart(s: string)
    ensures DigitsOf(TrimStart(s)) == DigitsOf(s)
  {
    if s != [] && IsSpace(s[0]) {
      DigitsOfTrimStart(s[1..]);
    }
  }

  lemma {:induction false} DigitsOfTrimEnd(s: string)
    ensures DigitsOf(TrimEnd(s)) == DigitsOf(s)
  {
    if s != [] && IsSpace(s[|s| - 1]) {
      var p := s[..|s| - 1];
      DigitsOfTrimEnd(p);
      assert s == p + [s[|s| - 1]];
      DigitsOfConcat(p, [s[|s| - 1]]);
      assert DigitsOf([s[|s| - 1]]) == [];
    }
  }

  /** Whitespace is not a digit, so stripping the scraped text keeps every digit. */
  lemma DigitsOfStrip(s: string)
    ensures DigitsOf(Strip(s)) == DigitsOf(s)
  {
    DigitsOfTrimStart(s);
    DigitsOfTrimEnd(TrimStart(s));
  }
}
