/** The pieces of Python's string library that the modelled code relies on:
    `''.join`, `in`, `str.split(sep)[0]` / `[1]`, `str.replace`, `str.strip`
    and `str(int)`. */
module Text {

  /** `''.join(ps)`. */
  function Concat(ps: seq<string>): string
  {
    if ps == [] then "" else ps[0] + Concat(ps[1..])
  }

  lemma {:induction false} ConcatAppend(a: seq<string>, b: seq<string>)
    ensures Concat(a + b) == Concat(a) + Concat(b)
  {
    if a == [] {
      assert a + b == b;
    } else {
      assert (a + b)[1..] == a[1..] + b;
      ConcatAppend(a[1..], b);
    }
  }

  lemma ConcatSnoc(texts: seq<string>, x: string)
    ensures Concat(texts + [x]) == Concat(texts) + x
  {
    ConcatAppend(texts, [x]);
    assert Concat([x]) == x + Concat([]);
  }

  /** `sep.join(ps)`. */
  function JoinWith(ps: seq<string>, sep: string): string
  {
    if ps == [] then "" else if |ps| == 1 then ps[0] else ps[0] + sep + JoinWith(ps[1..], sep)
  }

  predicate IsPrefix(p: string, s: string)
  {
    |p| <= |s| && s[..|p|] == p
  }

  lemma PrefixTrans(p: string, u: string, v: string)
    requires IsPrefix(u, v)
    ensures IsPrefix(p, u) ==> IsPrefix(p, v)
  {
    if IsPrefix(p, u) {
      assert v[..|p|] == v[..|u|][..|p|];
    }
  }

  predicate EndsWith(s: string, suffix: string)
  {
    |suffix| <= |s| && s[|s| - |suffix|..] == suffix
  }

  /** Python's substring test `t in s`. */
  predicate Contains(s: string, t: string)
    decreases |s|
  {
    IsPrefix(t, s) || (s != [] && Contains(s[1..], t))
  }

  lemma {:induction false} ContainsIff(s: string, t: string)
    ensures Contains(s, t) <==> exists i :: 0 <= i <= |s| && IsPrefix(t, s[i..])
    decreases |s|
  {
    if s == [] {
      assert IsPrefix(t, s) ==> IsPrefix(t, s[0..]);
    } else {
      assert s[0..] == s;
      ContainsIff(s[1..], t);
      if Contains(s[1..], t) {
        var i :| 0 <= i <= |s[1..]| && IsPrefix(t, s[1..][i..]);
        assert s[1..][i..] == s[i + 1..];
      }
      forall i | 1 <= i <= |s| && IsPrefix(t, s[i..])
        ensures Contains(s[1..], t)
      {
        assert s[1..][i - 1..] == s[i..];
      }
    }
  }

  /** A string contains every string that occurs in it at a known position. */
  lemma {:induction false} ContainsInfix(p: string, t: string, q: string)
    ensures Contains(p + t + q, t)
    decreases |p|
  {
    if p == [] {
      assert p + t + q == t + q;
      assert (t + q)[..|t|] == t;
    } else {
      assert (p + t + q)[1..] == p[1..] + t + q;
      ContainsInfix(p[1..], t, q);
    }
  }

  /** A text contains whatever either of its parts contains. */
  lemma {:induction false} ContainsConcat(a: string, b: string, t: string)
    ensures Contains(a, t) ==> Contains(a + b, t)
    ensures Contains(b, t) ==> Contains(a + b, t)
    decreases |a|
  {
    if a != [] {
      assert (a + b)[1..] == a[1..] + b;
      ContainsConcat(a[1..], b, t);
      if IsPrefix(t, a) {
        assert (a + b)[..|t|] == a[..|t|];
      }
    } else {
      assert a + b == b;
    }
  }

  lemma ContainsSelf(t: string)
    ensures Contains(t, t)
  {
    assert t[..|t|] == t;
  }

  /** `''.join(ps)` starts with its first part. */
  lemma ConcatHead(ps: seq<string>)
    requires ps != []
    ensures IsPrefix(ps[0], Concat(ps))
  {
    assert (ps[0] + Concat(ps[1..]))[..|ps[0]|] == ps[0];
  }

  /** The index of the first occurrence of `t` in `s` (Python `s.find(t)`). */
  function Find(s: string, t: string): (i: nat)
    requires Contains(s, t)
    ensures i + |t| <= |s| && s[i..i + |t|] == t && IsPrefix(t, s[i..])
    ensures forall k :: 0 <= k < i ==> !IsPrefix(t, s[k..])
    decreases |s|
  {
    if IsPrefix(t, s) then 0
    else
      var j := Find(s[1..], t);
      assert forall k :: 1 <= k <= |s| ==> s[k..] == s[1..][k - 1..];
      1 + j
  }

  /** `s.split(sep)[0]`: the text before the first occurrence of `sep`. */
  function Before(s: string, sep: string): (r: string)
    requires sep != []
    ensures IsPrefix(r, s) && !Contains(r, sep)
    ensures r == s || IsPrefix(sep, s[|r|..])
    ensures r == s <==> !Contains(s, sep)
  {
    if Contains(s, sep) then
      var i := Find(s, sep);
      var r := s[..i];
      assert !Contains(r, sep) by {
        ContainsIff(r, sep);
        forall k | 0 <= k <= |r| ensures !IsPrefix(sep, r[k..]) {
          if k < i {
            PrefixTrans(sep, r[k..], s[k..]);
          }
        }
      }
      r
    else s
  }

  /** The text after the first occurrence of `sep`. */
  function After(s: string, sep: string): (r: string)
    requires sep != [] && Contains(s, sep)
    ensures s == Before(s, sep) + sep + r
  {
    var i := Find(s, sep);
    assert s == s[..i] + s[i..i + |sep|] + s[i + |sep|..];
    s[i + |sep|..]
  }

  /** `s.replace(old, new)`: every non-overlapping occurrence of `old`, scanning
      from the left, is replaced by `new`. */
  function Replace(s: string, pat: string, rep: string): (r: string)
    requires pat != []
    ensures !Contains(s, pat) ==> r == s
    decreases |s|
  {
    if |s| < |pat| then s
    else if IsPrefix(pat, s) then rep + Replace(s[|pat|..], pat, rep)
    else [s[0]] + Replace(s[1..], pat, rep)
  }

  /** The characters for which Python's `str.isspace` holds. */
  predicate IsSpace(c: char)
  {
    c == ' ' || ('\U{0009}' <= c <= '\U{000D}') || ('\U{001C}' <= c <= '\U{001F}') ||
    c == '\U{0085}' || c == '\U{00A0}' || c == '\U{1680}' || ('\U{2000}' <= c <= '\U{200A}') ||
    c == '\U{2028}' || c == '\U{2029}' || c == '\U{202F}' || c == '\U{205F}' || c == '\U{3000}'
  }

  predicate AllSpace(s: string)
  {
    forall i :: 0 <= i < |s| ==> IsSpace(s[i])
  }

  lemma AllSpaceConcat(a: string, b: string)
    requires AllSpace(a) && AllSpace(b)
    ensures AllSpace(a + b)
  {
  }

  function StripLeft(s: string): (r: string)
    ensures |r| <= |s| && r == s[|s| - |r|..] && AllSpace(s[..|s| - |r|])
    ensures r == [] || !IsSpace(r[0])
  {
    if s != [] && IsSpace(s[0]) then
      var t := s[1..];
      var r := StripLeft(t);
      assert t[|t| - |r|..] == s[|s| - |r|..];
      assert s[..|s| - |r|] == [s[0]] + t[..|t| - |r|];
      AllSpaceConcat([s[0]], t[..|t| - |r|]);
      r
    else s
  }

  function StripRight(s: string): (r: string)
    ensures |r| <= |s| && r == s[..|r|] && AllSpace(s[|r|..])
    ensures r == [] || !IsSpace(r[|r| - 1])
    decreases |s|
  {
    if s != [] && IsSpace(s[|s| - 1]) then
      var t := s[..|s| - 1];
      var r := StripRight(t);
      assert t[..|r|] == s[..|r|];
      assert s[|r|..] == t[|r|..] + [s[|s| - 1]];
      AllSpaceConcat(t[|r|..], [s[|s| - 1]]);
      r
    else s
  }

  /** `s.strip()`: `s` without its leading and trailing whitespace. */
  function Strip(s: string): (r: string)
    ensures |r| <= |s|
    ensures r == [] || (!IsSpace(r[0]) && !IsSpace(r[|r| - 1]))
  {
    StripRight(StripLeft(s))
  }

  /** The number of leading whitespace characters of `s`. */
  function Leading(s: string): nat
  {
    |s| - |StripLeft(s)|
  }

  /** `s.strip()` is the infix of `s` left when the whitespace around it is
      cut off. */
  lemma StripSpec(s: string)
    ensures Leading(s) + |Strip(s)| <= |s|
    ensures s[Leading(s)..Leading(s) + |Strip(s)|] == Strip(s)
    ensures AllSpace(s[..Leading(s)]) && AllSpace(s[Leading(s) + |Strip(s)|..])
  {
    var l := StripLeft(s);
    var r := StripRight(l);
    SliceOfSuffix(s, Leading(s), |r|);
  }

  lemma SliceOfSuffix(s: string, i: nat, j: nat)
    requires i + j <= |s|
    ensures s[i..][..j] == s[i..i + j] && s[i..][j..] == s[i + j..]
  {
  }

  function DigitChar(d: nat): char
    requires d < 10
  {
    "0123456789"[d]
  }

  /** `str(n)` for a natural number. */
  function NatToString(n: nat): string
  {
    if n < 10 then [DigitChar(n)] else NatToString(n / 10) + [DigitChar(n % 10)]
  }

  /** `str(n)` for an integer. */
  function IntToString(n: int): string
  {
    if n < 0 then "-" + NatToString(-n) else NatToString(n)
  }
}
