/** The string operations the application relies on: JavaScript's `trim`,
    `toLowerCase` (on ASCII letters), `includes`, `join` and `split`. */
module Strings {

  /** JavaScript's WhiteSpace and LineTerminator code points, the set that
      `String.prototype.trim` and `parseInt` skip. */
  predicate IsSpace(c: char)
  {
    || c == ' ' || c == '\t' || c == '\n' || c == '\r'
    || c == '\U{000B}' || c == '\U{000C}' || c == '\U{00A0}' || c == '\U{FEFF}'
    || c == '\U{1680}' || ('\U{2000}' <= c <= '\U{200A}')
    || c == '\U{2028}' || c == '\U{2029}' || c == '\U{202F}' || c == '\U{205F}'
    || c == '\U{3000}'
  }

  /** Number of whitespace characters at the front of `s`. */
  function LeadingSpaces(s: string): (n: nat)
    ensures n <= |s|
    ensures forall i :: 0 <= i < n ==> IsSpace(s[i])
    ensures n < |s| ==> !IsSpace(s[n])
  {
    if |s| > 0 && IsSpace(s[0]) then 1 + LeadingSpaces(s[1..]) else 0
  }

  /** Number of whitespace characters at the back of `s`. */
  function TrailingSpaces(s: string): (n: nat)
    ensures n <= |s|
    ensures forall i :: |s| - n <= i < |s| ==> IsSpace(s[i])
    ensures n < |s| ==> !IsSpace(s[|s| - 1 - n])
  {
    if |s| > 0 && IsSpace(s[|s| - 1]) then 1 + TrailingSpaces(s[..|s| - 1]) else 0
  }

  /** `s.trimStart()` */
  function TrimStart(s: string): string
  {
    s[LeadingSpaces(s)..]
  }

  /** `s.trim()`: the whitespace at both ends removed. */
  function Trim(s: string): (r: string)
    ensures |r| <= |s|
    ensures r == [] || (!IsSpace(r[0]) && !IsSpace(r[|r| - 1]))
    ensures forall c :: c in r ==> c in s
    ensures r == [] <==> forall i :: 0 <= i < |s| ==> IsSpace(s[i])
  {
    var t := TrimStart(s);
    var r := t[..|t| - TrailingSpaces(t)];
    assert forall c :: c in r ==> c in t;
    r
  }

  /** A string with no whitespace at either end is its own trim. */
  lemma TrimOfTrimmed(s: string)
    requires s == [] || (!IsSpace(s[0]) && !IsSpace(s[|s| - 1]))
    ensures Trim(s) == s
  {
  }

  /** `trim` is idempotent. */
  lemma TrimIdempotent(s: string)
    ensures Trim(Trim(s)) == Trim(s)
  {
    TrimOfTrimmed(Trim(s));
  }

  /** `toLowerCase` on one character; only ASCII letters are mapped. */
  function LowerChar(c: char): char
  {
    if 'A' <= c <= 'Z' then (c as int + 32) as char else c
  }

  /** `s.toLowerCase()`, restricted to ASCII case mapping. */
  function ToLower(s: string): (r: string)
    ensures |r| == |s|
    ensures forall i :: 0 <= i < |s| ==> r[i] == LowerChar(s[i])
  {
    seq(|s|, i requires 0 <= i < |s| => LowerChar(s[i]))
  }

  /** `s.includes(sub)`: `sub` occurs in `s` as a contiguous piece. */
  predicate Contains(s: string, sub: string)
    decreases |s|
  {
    sub <= s || (|s| > 0 && Contains(s[1..], sub))
  }

  /** `xs.join(sep)` */
  function Join(xs: seq<string>, sep: string): string
  {
    if |xs| == 0 then ""
    else if |xs| == 1 then xs[0]
    else xs[0] + sep + Join(xs[1..], sep)
  }

  /** `s.split(d)` for a one-character separator: the pieces between
      separators, always at least one (possibly empty) piece. */
  function Split(s: string, d: char): (r: seq<string>)
    ensures |r| >= 1
    ensures forall i :: 0 <= i < |r| ==> d !in r[i]
  {
    if |s| == 0 then [""]
    else
      var rest := Split(s[1..], d);
      if s[0] == d then [""] + rest
      else [[s[0]] + rest[0]] + rest[1..]
  }

  /** Splitting and re-joining with the same separator restores the string. */
  lemma {:induction false} JoinSplit(s: string, d: char)
    ensures Join(Split(s, d), [d]) == s
  {
    if |s| > 0 {
      JoinSplit(s[1..], d);
      var rest := Split(s[1..], d);
      if s[0] != d {
        if |rest| > 1 {
          assert Join(rest, [d]) == rest[0] + [d] + Join(rest[1..], [d]);
        }
      }
    }
  }

  /** A string without the separator is one piece. */
  lemma {:induction false} SplitNoSep(s: string, d: char)
    requires d !in s
    ensures Split(s, d) == [s]
  {
    if |s| > 0 {
      assert d !in s[1..] by {
        assert forall c :: c in s[1..] ==> c in s;
      }
      SplitNoSep(s[1..], d);
      assert [s[0]] + s[1..] == s;
    }
  }

  /** Splitting text that has a separator between two parts splits each part:
      the last piece of the first part and the first piece of the second
      are not merged. */
  lemma {:induction false} SplitAppend(a: string, b: string, d: char)
    ensures Split(a + [d] + b, d) == Split(a, d) + Split(b, d)
  {
    if |a| == 0 {
      assert a + [d] + b == [d] + b;
      assert ([d] + b)[1..] == b;
    } else {
      var s := a + [d] + b;
      assert s[1..] == a[1..] + [d] + b;
      SplitAppend(a[1..], b, d);
      assert s[0] == a[0];
    }
  }

  /** Joining pieces that do not contain the separator and splitting again
      restores the pieces. */
  lemma {:induction false} SplitJoin(xs: seq<string>, d: char)
    requires |xs| >= 1
    requires forall i :: 0 <= i < |xs| ==> d !in xs[i]
    ensures Split(Join(xs, [d]), d) == xs
    decreases |xs|, |xs[0]|
  {
    if |xs[0]| == 0 {
      if |xs| > 1 {
        SplitJoin(xs[1..], d);
        assert Join(xs, [d]) == [d] + Join(xs[1..], [d]);
      }
    } else {
      var ys := [xs[0][1..]] + xs[1..];
      assert ys[1..] == xs[1..];
      SplitJoin(ys, d);
      assert Join(xs, [d]) == [xs[0][0]] + Join(ys, [d]) by {
        if |xs| > 1 {
          assert Join(ys, [d]) == ys[0] + [d] + Join(ys[1..], [d]);
        }
      }
      var s := Join(xs, [d]);
      assert s[1..] == Join(ys, [d]);
      assert s[0] == xs[0][0] && s[0] != d;
      assert [xs[0][0]] + xs[0][1..] == xs[0];
    }
  }
}
