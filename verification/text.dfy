/** String operations the routes rely on, written the way the JavaScript
    built-ins behave (`endsWith`, `includes`, `slice`, `Array#join`,
    `Number#toString` on integers), together with independent reference
    definitions and the lemmas connecting the two. `StartsWith` and `Split`
    are not used by the routes: they serve to state the shape of the
    generated names and to read a report back for its round trip. */
module Text {

  predicate StartsWith(s: string, p: string) {
    |p| <= |s| && s[..|p|] == p
  }

  predicate EndsWith(s: string, p: string) {
    |p| <= |s| && s[|s| - |p|..] == p
  }

  /** `s.includes(sub)`, as a left-to-right scan. */
  predicate Contains(s: string, sub: string)
    decreases |s|
  {
    StartsWith(s, sub) || (|s| > 0 && Contains(s[1..], sub))
  }

  /** Reference meaning of `s.includes("..")`: two adjacent dots somewhere. */
  ghost predicate HasDotDot(s: string) {
    exists i :: 0 <= i && i + 1 < |s| && s[i] == '.' && s[i + 1] == '.'
  }

  lemma {:induction false} ContainsDotDot(s: string)
    ensures Contains(s, "..") <==> HasDotDot(s)
    decreases |s|
  {
    if |s| == 0 {
    } else {
      ContainsDotDot(s[1..]);
      var here := |s| >= 2 && s[0] == '.' && s[1] == '.';
      assert StartsWith(s, "..") <==> here by {
        if here {
          assert s[..2] == "..";
        }
        if StartsWith(s, "..") {
          assert s[..2][0] == '.' && s[..2][1] == '.';
        }
      }
      if HasDotDot(s[1..]) {
        var i :| 0 <= i && i + 1 < |s[1..]| && s[1..][i] == '.' && s[1..][i + 1] == '.';
        assert s[i + 1] == '.' && s[i + 2] == '.';
      }
      if here {
        assert s[0] == '.' && s[0 + 1] == '.';
      }
      if HasDotDot(s) {
        var i :| 0 <= i && i + 1 < |s| && s[i] == '.' && s[i + 1] == '.';
        if i > 0 {
          assert s[1..][i - 1] == '.' && s[1..][i] == '.';
        }
      }
    }
  }

  /** Where a pair of adjacent dots in a concatenation can come from. */
  lemma DotDotAppend(a: string, b: string)
    ensures HasDotDot(a + b) <==>
      HasDotDot(a) || HasDotDot(b) || (|a| > 0 && |b| > 0 && a[|a| - 1] == '.' && b[0] == '.')
  {
    var ab := a + b;
    if HasDotDot(ab) {
      var i :| 0 <= i && i + 1 < |ab| && ab[i] == '.' && ab[i + 1] == '.';
      if i + 1 < |a| {
        assert a[i] == '.' && a[i + 1] == '.';
      } else if i >= |a| {
        assert b[i - |a|] == '.' && b[i - |a| + 1] == '.';
      }
    }
    if HasDotDot(a) {
      var i :| 0 <= i && i + 1 < |a| && a[i] == '.' && a[i + 1] == '.';
      assert ab[i] == '.' && ab[i + 1] == '.';
    }
    if HasDotDot(b) {
      var i :| 0 <= i && i + 1 < |b| && b[i] == '.' && b[i + 1] == '.';
      assert ab[|a| + i] == '.' && ab[|a| + i + 1] == '.';
    }
    if |a| > 0 && |b| > 0 && a[|a| - 1] == '.' && b[0] == '.' {
      assert ab[|a| - 1] == '.' && ab[|a|] == '.';
    }
  }

  /** `s.slice(0, n)` for a non-negative `n`: at most the first `n` characters. */
  function Prefix(s: string, n: nat): (r: string)
    ensures |r| == if |s| < n then |s| else n
    ensures StartsWith(s, r)
  {
    if |s| < n then s else s[..n]
  }

  predicate IsDigit(c: char) {
    '0' <= c <= '9'
  }

  predicate AllDigits(s: string) {
    forall i :: 0 <= i < |s| ==> IsDigit(s[i])
  }

  function DigitChar(d: nat): (c: char)
    requires d < 10
    ensures IsDigit(c)
    ensures c as int - '0' as int == d
  {
    (d + '0' as int) as char
  }

  function DigitValue(c: char): (d: nat)
    requires IsDigit(c)
    ensures d < 10
  {
    c as int - '0' as int
  }

  /** Decimal rendering of a non-negative integer, as JavaScript's
      `String(n)` prints an integer below 10^21: digits only, no sign and
      no leading zero. */
  function NatToString(n: nat): (s: string)
    ensures 1 <= |s|
    ensures AllDigits(s)
    ensures s[0] == '0' <==> n == 0
    ensures n == 0 ==> s == "0"
    decreases n
  {
    if n < 10 then [DigitChar(n)] else NatToString(n / 10) + [DigitChar(n % 10)]
  }

  /** Reads a string of decimal digits back as a number. */
  function ParseNat(s: string): nat
    requires AllDigits(s)
    decreases |s|
  {
    if |s| == 0 then 0 else ParseNat(s[..|s| - 1]) * 10 + DigitValue(s[|s| - 1])
  }

  lemma {:induction false} ParseNatToString(n: nat)
    ensures ParseNat(NatToString(n)) == n
    decreases n
  {
    if n >= 10 {
      var s := NatToString(n);
      assert s[..|s| - 1] == NatToString(n / 10);
      ParseNatToString(n / 10);
    }
  }

  /** Distinct numbers render as distinct strings. */
  lemma NatToStringInjective(a: nat, b: nat)
    requires NatToString(a) == NatToString(b)
    ensures a == b
  {
    ParseNatToString(a);
    ParseNatToString(b);
  }

  /** `parts.join(sep)` for a one-character separator. */
  function Join(parts: seq<string>, sep: char): (r: string)
    ensures |parts| == 0 ==> r == ""
    ensures |parts| > 0 ==> StartsWith(r, parts[0])
    ensures |parts| > 0 ==> EndsWith(r, parts[|parts| - 1])
    decreases |parts|
  {
    if |parts| == 0 then ""
    else if |parts| == 1 then parts[0]
    else parts[0] + [sep] + Join(parts[1..], sep)
  }

  lemma JoinCons(head: string, rest: seq<string>, sep: char)
    requires |rest| >= 1
    ensures Join([head] + rest, sep) == head + [sep] + Join(rest, sep)
  {
    assert ([head] + rest)[1..] == rest;
  }

  /** `s.split(sep)` for a one-character separator: the pieces between
      separators, always at least one. */
  function Split(s: string, sep: char): (r: seq<string>)
    ensures |r| >= 1
    decreases |s|
  {
    if |s| == 0 then [""]
    else
      var rest := Split(s[1..], sep);
      if s[0] == sep then [""] + rest else [[s[0]] + rest[0]] + rest[1..]
  }

  /** A separator-free head joins the first piece of what follows it. */
  lemma {:induction false} SplitAppend(a: string, b: string, sep: char)
    requires sep !in a
    ensures Split(a + b, sep) == [a + Split(b, sep)[0]] + Split(b, sep)[1..]
    decreases |a|
  {
    if |a| > 0 {
      assert (a + b)[0] == a[0];
      assert (a + b)[1..] == a[1..] + b;
      SplitAppend(a[1..], b, sep);
      assert [a[0]] + (a[1..] + Split(b, sep)[0]) == a + Split(b, sep)[0];
    } else {
      assert a + b == b;
      assert a + Split(b, sep)[0] == Split(b, sep)[0];
      assert Split(b, sep) == [Split(b, sep)[0]] + Split(b, sep)[1..];
    }
  }

  lemma SplitNoSeparator(a: string, sep: char)
    requires sep !in a
    ensures Split(a, sep) == [a]
  {
    SplitAppend(a, "", sep);
    assert a + "" == a;
  }

  /** Splitting undoes joining when no part contains the separator. */
  lemma {:induction false} SplitJoin(parts: seq<string>, sep: char)
    requires |parts| >= 1
    requires forall i :: 0 <= i < |parts| ==> sep !in parts[i]
    ensures Split(Join(parts, sep), sep) == parts
    decreases |parts|
  {
    if |parts| == 1 {
      SplitNoSeparator(parts[0], sep);
    } else {
      var tail := Join(parts[1..], sep);
      assert Join(parts, sep) == parts[0] + ([sep] + tail);
      SplitJoin(parts[1..], sep);
      var t := [sep] + tail;
      assert t[0] == sep && t[1..] == tail;
      assert Split(t, sep) == [""] + parts[1..];
      SplitAppend(parts[0], t, sep);
      assert parts[0] + "" == parts[0];
      assert parts == [parts[0]] + parts[1..];
    }
  }
}
