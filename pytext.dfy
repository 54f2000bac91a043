/**
 * The few Python `str` operations the handler relies on: `isdigit` (ASCII
 * digits only), `isspace`, `strip` and `split` on a one-character separator.
 */
module PyText {

  /** `c.isdigit()`, restricted to the ASCII digits '0'..'9'. */
  predicate IsDigit(c: char) {
    '0' <= c <= '9'
  }

  predicate AllDigits(s: string) {
    forall i :: 0 <= i < |s| ==> IsDigit(s[i])
  }

  /**
   * `c.isspace()`: the characters Python treats as whitespace, i.e. the
   * separators of categories Zs, Zl and Zp and the characters of
   * bidirectional class WS, B or S.
   */
  predicate IsSpace(c: char) {
    c == ' ' || '\t' <= c <= '\r' || '\U{1C}' <= c <= '\U{1F}'
    || c == '\U{85}' || c == '\U{A0}' || c == '\U{1680}'
    || '\U{2000}' <= c <= '\U{200A}' || c == '\U{2028}' || c == '\U{2029}'
    || c == '\U{202F}' || c == '\U{205F}' || c == '\U{3000}'
  }

  /** Neither the first nor the last character is whitespace. */
  predicate IsStripped(s: string) {
    s == [] || (!IsSpace(s[0]) && !IsSpace(s[|s| - 1]))
  }

  /** `s.lstrip()`: the suffix left after dropping leading whitespace. */
  function TrimStart(s: string): (r: string)
    ensures |r| <= |s| && r == s[|s| - |r|..]
    ensures forall i :: 0 <= i < |s| - |r| ==> IsSpace(s[i])
    ensures r == [] || !IsSpace(r[0])
  {
    if s != [] && IsSpace(s[0]) then TrimStart(s[1..]) else s
  }

  /** `s.rstrip()`: the prefix left after dropping trailing whitespace. */
  function TrimEnd(s: string): (r: string)
    ensures |r| <= |s| && r == s[..|r|]
    ensures forall i :: |r| <= i < |s| ==> IsSpace(s[i])
    ensures r == [] || !IsSpace(r[|r| - 1])
  {
    if s != [] && IsSpace(s[|s| - 1]) then TrimEnd(s[..|s| - 1]) else s
  }

  /**
   * `s.strip()`: the infix s[i..j] that remains once the whitespace before i
   * and after j is removed; it neither starts nor ends with whitespace.
   */
  function Strip(s: string): (r: string)
    ensures IsStripped(r)
    ensures exists i, j :: 0 <= i <= j <= |s| && r == s[i..j]
              && (forall k :: 0 <= k < i ==> IsSpace(s[k]))
              && (forall k :: j <= k < |s| ==> IsSpace(s[k]))
  {
    var t := TrimStart(s);
    var r := TrimEnd(t);
    assert r == s[|s| - |t|..|s| - |t| + |r|];
    r
  }

  /** Stripping a string that is already stripped changes nothing. */
  lemma StripStripped(s: string)
    requires IsStripped(s)
    ensures Strip(s) == s
  {
  }

  /** Leading whitespace before a non-space start is exactly what TrimStart drops. */
  lemma {:induction false} TrimStartPadded(pre: string, x: string)
    requires forall k :: 0 <= k < |pre| ==> IsSpace(pre[k])
    requires x == [] || !IsSpace(x[0])
    ensures TrimStart(pre + x) == x
  {
    if pre != [] {
      assert (pre + x)[1..] == pre[1..] + x;
      TrimStartPadded(pre[1..], x);
    }
  }

  /** Trailing whitespace after a non-space end is exactly what TrimEnd drops. */
  lemma {:induction false} TrimEndPadded(x: string, post: string)
    requires forall k :: 0 <= k < |post| ==> IsSpace(post[k])
    requires x == [] || !IsSpace(x[|x| - 1])
    ensures TrimEnd(x + post) == x
  {
    if post != [] {
      assert (x + post)[..|x + post| - 1] == x + post[..|post| - 1];
      TrimEndPadded(x, post[..|post| - 1]);
    }
  }

  /** Strip removes exactly the whitespace padding around a stripped core. */
  lemma StripPadded(pre: string, s: string, post: string)
    requires forall k :: 0 <= k < |pre| ==> IsSpace(pre[k])
    requires forall k :: 0 <= k < |post| ==> IsSpace(post[k])
    requires IsStripped(s)
    ensures Strip(pre + s + post) == s
  {
    assert pre + s + post == pre + (s + post);
    if s == [] {
      assert forall k :: 0 <= k < |pre + post| ==> IsSpace((pre + post)[k]);
      assert pre + s + post == (pre + post) + [];
      TrimStartPadded(pre + post, []);
    } else {
      TrimStartPadded(pre, s + post);
      TrimEndPadded(s, post);
    }
  }

  /** Number of occurrences of `c` in `s`. */
  function Count(s: string, c: char): nat {
    if s == [] then 0 else (if s[0] == c then 1 else 0) + Count(s[1..], c)
  }

  /**
   * `s.split(sep)`: the pieces between the occurrences of `sep`, in order;
   * there is one more piece than there are separators, and none holds one.
   */
  function Split(s: string, sep: char): (parts: seq<string>)
    ensures |parts| == Count(s, sep) + 1
    ensures forall i :: 0 <= i < |parts| ==> sep !in parts[i]
  {
    if s == [] then [""]
    else
      var rest := Split(s[1..], sep);
      if s[0] == sep then [""] + rest
      else [[s[0]] + rest[0]] + rest[1..]
  }

  /** `sep.join(parts)`, the inverse of `Split`. */
  function Join(parts: seq<string>, sep: char): string
    requires |parts| >= 1
  {
    if |parts| == 1 then parts[0] else parts[0] + [sep] + Join(parts[1..], sep)
  }

  /** Joining the pieces of a split gives back the original string. */
  lemma {:induction false} JoinSplit(s: string, sep: char)
    ensures Join(Split(s, sep), sep) == s
  {
    if s != [] {
      var rest := Split(s[1..], sep);
      JoinSplit(s[1..], sep);
      if s[0] == sep {
        assert ([""] + rest)[1..] == rest;
      } else {
        var parts := [[s[0]] + rest[0]] + rest[1..];
        if |rest| > 1 {
          assert parts[1..] == rest[1..];
        }
      }
    }
  }

  /** A string free of `sep` splits into itself alone. */
  lemma {:induction false} SplitNoSeparator(a: string, sep: char)
    requires sep !in a
    ensures Split(a, sep) == [a]
  {
    if a != [] {
      assert a[0] in a;
      assert [a[0]] + a[1..] == a;
      SplitNoSeparator(a[1..], sep);
    }
  }

  /** A leading piece free of `sep`, followed by `sep`, splits off as one piece. */
  lemma {:induction false} SplitPrefix(a: string, sep: char, t: string)
    requires sep !in a
    ensures Split(a + [sep] + t, sep) == [a] + Split(t, sep)
  {
    var s := a + [sep] + t;
    if a == [] {
      assert s[1..] == t;
    } else {
      assert s[1..] == a[1..] + [sep] + t;
      assert a[0] in a && s[0] == a[0];
      assert [a[0]] + a[1..] == a;
      SplitPrefix(a[1..], sep, t);
    }
  }

  /** Splitting a join of separator-free pieces gives back the pieces. */
  lemma {:induction false} SplitJoin(parts: seq<string>, sep: char)
    requires |parts| >= 1
    requires forall i :: 0 <= i < |parts| ==> sep !in parts[i]
    ensures Split(Join(parts, sep), sep) == parts
  {
    if |parts| == 1 {
      SplitNoSeparator(parts[0], sep);
    } else {
      SplitJoin(parts[1..], sep);
      SplitPrefix(parts[0], sep, Join(parts[1..], sep));
    }
  }

  /** The first piece of `c + tail` is `c` when `tail` is empty or starts with `sep`. */
  lemma SplitHead(c: string, sep: char, tail: string)
    requires sep !in c
    requires tail == [] || tail[0] == sep
    ensures Split(c + tail, sep)[0] == c
  {
    if tail == [] {
      assert c + tail == c;
      SplitNoSeparator(c, sep);
    } else {
      assert c + tail == c + [sep] + tail[1..];
      SplitPrefix(c, sep, tail[1..]);
    }
  }

  lemma {:induction false} CountConcat(a: string, b: string, c: char)
    ensures Count(a + b, c) == Count(a, c) + Count(b, c)
  {
    if a == [] {
      assert a + b == b;
    } else {
      assert (a + b)[1..] == a[1..] + b;
      CountConcat(a[1..], b, c);
    }
  }

  lemma {:induction false} CountTrimStart(s: string, c: char)
    requires !IsSpace(c)
    ensures Count(TrimStart(s), c) == Count(s, c)
  {
    if s != [] && IsSpace(s[0]) {
      CountTrimStart(s[1..], c);
    }
  }

  lemma {:induction false} CountTrimEnd(s: string, c: char)
    requires !IsSpace(c)
    ensures Count(TrimEnd(s), c) == Count(s, c)
  {
    if s != [] && IsSpace(s[|s| - 1]) {
      var p := s[..|s| - 1];
      CountTrimEnd(p, c);
      assert s == p + [s[|s| - 1]];
      CountConcat(p, [s[|s| - 1]], c);
    }
  }

  /** Stripping never removes a character that is not whitespace. */
  lemma CountStrip(s: string, c: char)
    requires !IsSpace(c)
    ensures Count(Strip(s), c) == Count(s, c)
  {
    CountTrimStart(s, c);
    CountTrimEnd(TrimStart(s), c);
  }

  /** A character that is neither the separator nor in any piece is not in their join. */
  lemma {:induction false} JoinExcludes(parts: seq<string>, sep: char, c: char)
    requires |parts| >= 1 && c != sep
    requires forall i :: 0 <= i < |parts| ==> c !in parts[i]
    ensures c !in Join(parts, sep)
  {
    if |parts| > 1 {
      JoinExcludes(parts[1..], sep, c);
    }
  }

  /** The first three pieces of a join, and what follows them. */
  lemma JoinThree(parts: seq<string>, sep: char)
    requires |parts| >= 3
    ensures Join(parts, sep) == parts[0] + [sep] + (parts[1] + [sep] + (parts[2]
              + (if |parts| == 3 then [] else [sep] + Join(parts[3..], sep))))
  {
    var tail: string := if |parts| == 3 then [] else [sep] + Join(parts[3..], sep);
    assert parts[1..][1..] == parts[2..];
    assert Join(parts[2..], sep) == parts[2] + tail by {
      if |parts| == 3 {
        assert parts[2..] == [parts[2]];
      } else {
        assert parts[2..][1..] == parts[3..];
      }
    }
    assert Join(parts[1..], sep) == parts[1] + [sep] + Join(parts[2..], sep);
  }
}
