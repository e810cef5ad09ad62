/** The string operations of Python's `str` that the core relies on:
    `split` on one character, `strip`, `join`, the `in` substring test, and
    `os.path.basename`, together with `str()` of a non-negative integer. */
module Text {
  import Seqs

  /** The characters `str.isspace()` accepts (and `str.strip()` removes). */
  predicate IsSpace(c: char)
  {
    || c == ' ' || ('\t' <= c <= '\r') || ('\U{1C}' <= c <= '\U{1F}')
    || c == '\U{85}' || c == '\U{A0}' || c == '\U{1680}'
    || ('\U{2000}' <= c <= '\U{200A}') || c == '\U{2028}' || c == '\U{2029}'
    || c == '\U{202F}' || c == '\U{205F}' || c == '\U{3000}'
  }

  /** Neither begins nor ends with whitespace: what `strip` leaves unchanged. */
  predicate Stripped(s: string)
  {
    s == [] || (!IsSpace(s[0]) && !IsSpace(s[|s| - 1]))
  }

  predicate AllSpace(s: string)
  {
    forall i :: 0 <= i < |s| ==> IsSpace(s[i])
  }

  function TrimStart(s: string): (r: string)
    ensures |r| <= |s| && r == s[|s| - |r|..]
    ensures AllSpace(s[..|s| - |r|])
    ensures r == [] || !IsSpace(r[0])
  {
    if s != [] && IsSpace(s[0]) then
      var r := TrimStart(s[1..]);
      Seqs.DropFirst(s, |r|);
      r
    else s
  }

  function TrimEnd(s: string): (r: string)
    ensures |r| <= |s| && r == s[..|r|]
    ensures AllSpace(s[|r|..])
    ensures r == [] || !IsSpace(r[|r| - 1])
  {
    if s != [] && IsSpace(s[|s| - 1]) then
      var r := TrimEnd(s[..|s| - 1]);
      Seqs.DropLast(s, |r|);
      r
    else s
  }

  /** `s.strip()` */
  function Strip(s: string): (r: string)
    ensures Stripped(r)
  {
    TrimEnd(TrimStart(s))
  }

  /** `strip` only removes characters. */
  lemma StripWithin(s: string, c: char)
    requires c in Strip(s)
    ensures c in s
  {
    var t := TrimStart(s);
    var r := TrimEnd(t);
    var i :| 0 <= i < |r| && r[i] == c;
    assert t[i] == c;
    assert s[|s| - |t| + i] == c;
  }

  /** `strip` removes exactly the surrounding whitespace. */
  lemma {:induction false} StripPadded(pre: string, x: string, post: string)
    requires AllSpace(pre) && AllSpace(post) && Stripped(x)
    ensures Strip(pre + x + post) == x
  {
    if x == [] {
      assert pre + x + post == (pre + post) + [];
      AllSpaceJoin(pre, post);
      TrimStartPadded(pre + post, []);
    } else {
      assert pre + x + post == pre + (x + post);
      TrimStartPadded(pre, x + post);
      TrimEndPadded(x, post);
    }
  }

  lemma {:induction false} AllSpaceJoin(a: string, b: string)
    requires AllSpace(a) && AllSpace(b)
    ensures AllSpace(a + b)
  {
    assert forall i :: 0 <= i < |a + b| ==> (a + b)[i] == if i < |a| then a[i] else b[i - |a|];
  }

  lemma {:induction false} TrimStartPadded(pre: string, rest: string)
    requires AllSpace(pre) && (rest == [] || !IsSpace(rest[0]))
    ensures TrimStart(pre + rest) == rest
    decreases |pre|
  {
    if pre != [] {
      assert (pre + rest)[1..] == pre[1..] + rest;
      TrimStartPadded(pre[1..], rest);
    }
  }

  lemma {:induction false} TrimEndPadded(x: string, post: string)
    requires AllSpace(post) && (x == [] || !IsSpace(x[|x| - 1]))
    ensures TrimEnd(x + post) == x
    decreases |post|
  {
    if post != [] {
      var p := post[..|post| - 1];
      assert (x + post)[..|x + post| - 1] == x + p;
      TrimEndPadded(x, p);
    } else {
      assert x + post == x;
    }
  }

  /** `s.split(sep)` for a one-character separator: the pieces between
      separators, so there is always at least one piece. */
  function Split(s: string, sep: char): (r: seq<string>)
    ensures |r| >= 1
  {
    if s == [] then [[]]
    else
      var rest := Split(s[1..], sep);
      if s[0] == sep then [[]] + rest else [[s[0]] + rest[0]] + rest[1..]
  }

  /** `sep.join(xs)` */
  function Join(xs: seq<string>, sep: string): string
  {
    if xs == [] then []
    else if |xs| == 1 then xs[0]
    else xs[0] + sep + Join(xs[1..], sep)
  }

  /** Splitting and re-joining gives back the string. */
  lemma {:induction false} JoinSplit(s: string, sep: char)
    ensures Join(Split(s, sep), [sep]) == s
  {
    if s != [] {
      var rest := Split(s[1..], sep);
      var r := Split(s, sep);
      JoinSplit(s[1..], sep);
      Seqs.HeadTail(s, sep);
      if s[0] == sep {
        assert r[1..] == rest;
        assert Join(r, [sep]) == [] + [sep] + Join(rest, [sep]);
      } else {
        assert r[0] == [s[0]] + rest[0];
        assert r[1..] == rest[1..];
        if |rest| > 1 {
          var tail := Join(rest[1..], [sep]);
          assert Join(rest, [sep]) == rest[0] + [sep] + tail;
          assert Join(r, [sep]) == r[0] + [sep] + tail;
          Seqs.Assoc([s[0]], rest[0], [sep]);
          Seqs.Assoc([s[0]], rest[0] + [sep], tail);
        }
      }
    }
  }

  /** No piece of a split holds the separator. */
  lemma {:induction false} SplitPieces(s: string, sep: char)
    ensures forall i :: 0 <= i < |Split(s, sep)| ==> sep !in Split(s, sep)[i]
  {
    if s != [] {
      SplitPieces(s[1..], sep);
      var rest := Split(s[1..], sep);
      var r := Split(s, sep);
      forall i | 0 <= i < |r| ensures sep !in r[i] {
        if s[0] == sep {
          if i > 0 {
            assert r[i] == rest[i - 1];
          }
        } else if i == 0 {
          assert r[0] == [s[0]] + rest[0];
        } else {
          assert r[i] == rest[i];
        }
      }
    }
  }

  /** Joining pieces free of the separator and splitting again gives back
      the pieces. */
  lemma {:induction false} SplitJoin(xs: seq<string>, sep: char)
    requires |xs| >= 1 && forall i :: 0 <= i < |xs| ==> sep !in xs[i]
    ensures Split(Join(xs, [sep]), sep) == xs
    decreases |xs|
  {
    if |xs| == 1 {
      SplitFree(xs[0], [], sep);
      assert xs[0] + [] == xs[0];
    } else {
      SplitJoin(xs[1..], sep);
      SplitAfter(xs[0], Join(xs[1..], [sep]), sep);
      assert xs == [xs[0]] + xs[1..];
    }
  }

  /** Splitting `a + sep + b` when `a` has no separator. */
  lemma {:induction false} SplitAfter(a: string, b: string, sep: char)
    requires sep !in a
    ensures Split(a + [sep] + b, sep) == [a] + Split(b, sep)
    decreases |a|
  {
    if a == [] {
      assert a + [sep] + b == [sep] + b;
      assert ([sep] + b)[1..] == b;
    } else {
      assert (a + [sep] + b)[1..] == a[1..] + [sep] + b;
      SplitAfter(a[1..], b, sep);
      assert a == [a[0]] + a[1..];
    }
  }

  /** Splitting `a + b` when `a` has no separator glues `a` onto the first piece. */
  lemma {:induction false} SplitFree(a: string, b: string, sep: char)
    requires sep !in a
    ensures Split(a + b, sep) == [a + Split(b, sep)[0]] + Split(b, sep)[1..]
    decreases |a|
  {
    if a == [] {
      var sb := Split(b, sep);
      assert a + b == b && a + sb[0] == sb[0];
      assert sb == [sb[0]] + sb[1..];
    } else {
      assert (a + b)[1..] == a[1..] + b;
      assert (a + b)[0] == a[0] != sep;
      SplitFree(a[1..], b, sep);
      var sb := Split(b, sep);
      assert [a[0]] + (a[1..] + sb[0]) == a + sb[0];
    }
  }

  /** `t in s` for strings: `t` occurs as a contiguous substring of `s`. */
  predicate Contains(s: string, t: string)
    decreases |s|
  {
    t <= s || (s != [] && Contains(s[1..], t))
  }

  /** `os.path.basename(p)`: what follows the last '/'. */
  function BaseName(p: string): (r: string)
    ensures '/' !in r && |r| <= |p| && p[|p| - |r|..] == r
    ensures |r| < |p| ==> p[|p| - |r| - 1] == '/'
  {
    if p == [] || p[|p| - 1] == '/' then []
    else BaseName(p[..|p| - 1]) + [p[|p| - 1]]
  }

  /** `str(n)` for a non-negative integer: its decimal digits. */
  function NatToString(n: nat): (r: string)
    ensures |r| >= 1 && forall i :: 0 <= i < |r| ==> '0' <= r[i] <= '9'
    ensures |r| > 1 ==> r[0] != '0'
  {
    if n < 10 then [DigitChar(n)]
    else NatToString(n / 10) + [DigitChar(n % 10)]
  }

  function DigitChar(d: nat): (c: char)
    requires d < 10
    ensures '0' <= c <= '9'
  {
    ['0', '1', '2', '3', '4', '5', '6', '7', '8', '9'][d]
  }

  /** The number a string of decimal digits stands for, most significant
      digit first. */
  function DigitsValue(s: string): nat
    requires forall i :: 0 <= i < |s| ==> '0' <= s[i] <= '9'
  {
    if s == [] then 0
    else 10 * DigitsValue(s[..|s| - 1]) + (s[|s| - 1] as int - '0' as int)
  }

  lemma DigitCharValue(d: nat)
    requires d < 10
    ensures DigitChar(d) as int - '0' as int == d
  {
  }

  /** `str(n)` writes the digits of `n` itself. */
  lemma {:induction false} NatToStringValue(n: nat)
    ensures DigitsValue(NatToString(n)) == n
  {
    var r := NatToString(n);
    if n < 10 {
      DigitCharValue(n);
      assert r[..0] == [];
    } else {
      NatToStringValue(n / 10);
      DigitCharValue(n % 10);
      assert r[..|r| - 1] == NatToString(n / 10);
    }
  }
}
