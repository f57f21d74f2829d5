/** Python string operations used by the status-line parser: slicing with
    clamped bounds (`s[:n]`, `s[n:]`) and `str.strip()` with no argument. */
module Text {

  /** The characters Python's `str.isspace()` accepts in the ASCII range:
      tab, line feed, vertical tab, form feed, carriage return, the four
      information separators 0x1C..0x1F, and the space. */
  predicate IsSpace(c: char)
  {
    c == ' ' || (9 <= c as int <= 13) || (28 <= c as int <= 31)
  }

  predicate AllSpace(s: string)
  {
    forall k :: 0 <= k < |s| ==> IsSpace(s[k])
  }

  /** Neither end of `s` is whitespace (vacuously true of the empty string). */
  predicate Unpadded(s: string)
  {
    s == [] || (!IsSpace(s[0]) && !IsSpace(s[|s| - 1]))
  }

  /** Python's `s[:n]` for `n >= 0`: the first `n` characters, or all of `s`
      when it is shorter. */
  function Prefix(s: string, n: nat): (r: string)
    ensures r <= s
    ensures |r| == if |s| < n then |s| else n
  {
    if |s| < n then s else s[..n]
  }

  /** Python's `s[n:]` for `n >= 0`: everything from index `n` on, or the
      empty string when `s` is shorter than `n`. */
  function Suffix(s: string, n: nat): (r: string)
    ensures |r| == if |s| < n then 0 else |s| - n
    ensures forall k :: 0 <= k < |r| ==> r[k] == s[n + k]
  {
    if |s| < n then "" else s[n..]
  }

  /** Python's `s.lstrip()`: drops leading whitespace, up to the first
      character that is not whitespace. */
  function TrimLeft(s: string): (r: string)
    ensures |r| <= |s|
    ensures r == [] || !IsSpace(r[0])
    decreases |s|
  {
    if |s| > 0 && IsSpace(s[0]) then TrimLeft(s[1..]) else s
  }

  /** Python's `s.rstrip()`: drops trailing whitespace, back to the last
      character that is not whitespace. */
  function TrimRight(s: string): (r: string)
    ensures |r| <= |s|
    ensures r <= s
    ensures r == [] || !IsSpace(r[|r| - 1])
    decreases |s|
  {
    if |s| > 0 && IsSpace(s[|s| - 1]) then TrimRight(s[..|s| - 1]) else s
  }

  /** Python's `s.strip()`: `lstrip` followed by `rstrip`. */
  function Strip(s: string): (r: string)
    ensures |r| <= |s|
    ensures Unpadded(r)
  {
    TrimRight(TrimLeft(s))
  }

  /** What `lstrip` drops is whitespace. */
  lemma {:induction false} TrimLeftSplit(s: string) returns (a: string)
    ensures AllSpace(a) && s == a + TrimLeft(s)
    decreases |s|
  {
    if |s| > 0 && IsSpace(s[0]) {
      var rest := TrimLeftSplit(s[1..]);
      a := [s[0]] + rest;
      assert s == [s[0]] + s[1..];
    } else {
      a := [];
    }
  }

  /** What `rstrip` drops is whitespace. */
  lemma {:induction false} TrimRightSplit(s: string) returns (b: string)
    ensures AllSpace(b) && s == TrimRight(s) + b
    decreases |s|
  {
    if |s| > 0 && IsSpace(s[|s| - 1]) {
      var rest := TrimRightSplit(s[..|s| - 1]);
      b := rest + [s[|s| - 1]];
      assert s == s[..|s| - 1] + [s[|s| - 1]];
    } else {
      b := [];
    }
  }

  /** What `strip` keeps: `s` is whitespace, then `Strip(s)`, then
      whitespace. */
  lemma StripSplit(s: string) returns (a: string, b: string)
    ensures AllSpace(a) && AllSpace(b) && s == a + Strip(s) + b
  {
    a := TrimLeftSplit(s);
    b := TrimRightSplit(TrimLeft(s));
  }

  /** `lstrip` removes a whitespace prefix and stops at the first non-space. */
  lemma {:induction false} TrimLeftUnique(a: string, t: string)
    requires AllSpace(a) && (t == [] || !IsSpace(t[0]))
    ensures TrimLeft(a + t) == t
    decreases |a|
  {
    if a == [] {
      assert a + t == t;
    } else {
      assert (a + t)[0] == a[0];
      assert (a + t)[1..] == a[1..] + t;
      TrimLeftUnique(a[1..], t);
    }
  }

  /** `rstrip` removes a whitespace suffix and stops at the last non-space. */
  lemma {:induction false} TrimRightUnique(t: string, b: string)
    requires AllSpace(b) && (t == [] || !IsSpace(t[|t| - 1]))
    ensures TrimRight(t + b) == t
    decreases |b|
  {
    if b == [] {
      assert t + b == t;
    } else {
      assert (t + b)[|t + b| - 1] == b[|b| - 1];
      assert (t + b)[..|t + b| - 1] == t + b[..|b| - 1];
      TrimRightUnique(t, b[..|b| - 1]);
    }
  }

  /** The decomposition in Strip's contract is unique: whenever `s` is
      whitespace, then `m`, then whitespace, with `m` unpadded, `Strip(s)`
      is exactly `m`. */
  lemma StripUnique(a: string, m: string, b: string)
    requires AllSpace(a) && AllSpace(b) && Unpadded(m)
    ensures Strip(a + m + b) == m
  {
    if m == [] {
      assert a + m + b == (a + b) + [];
      TrimLeftUnique(a + b, []);
    } else {
      assert a + m + b == a + (m + b);
      TrimLeftUnique(a, m + b);
      TrimRightUnique(m, b);
    }
  }

  /** Stripping an unpadded string changes nothing. */
  lemma StripUnpadded(s: string)
    requires Unpadded(s)
    ensures Strip(s) == s
  {
    StripUnique([], s, []);
    assert [] + s + [] == s;
  }

  /** `str.strip()` is idempotent. */
  lemma StripIdempotent(s: string)
    ensures Strip(Strip(s)) == Strip(s)
  {
    StripUnpadded(Strip(s));
  }
}
