/**
  The few Python string operations the application relies on, stated on
  `seq<char>`: the whitespace class of `str.isspace`, `str.strip`,
  `str.upper` on ASCII letters, `str.startswith`/`str.endswith` and the
  argument-less `str.split`.
 */
module Text {

  /** Python's whitespace characters (those for which `str.isspace` holds),
      which both `str.strip()` and `str.split()` use by default. */
  predicate IsSpace(c: char) {
    var n := c as int;
    n == 0x20 || 0x09 <= n <= 0x0D || 0x1C <= n <= 0x1F || n == 0x85 || n == 0xA0
    || n == 0x1680 || 0x2000 <= n <= 0x200A || n == 0x2028 || n == 0x2029
    || n == 0x202F || n == 0x205F || n == 0x3000
  }

  predicate IsAngle(c: char) {
    c == '<' || c == '>'
  }

  /** Length of the longest prefix of `s` made of characters satisfying
      `drop`. */
  function LeadingCount(s: string, drop: char -> bool): (n: nat)
    ensures n <= |s|
    ensures forall k :: 0 <= k < n ==> drop(s[k])
    ensures n == |s| || !drop(s[n])
    decreases |s|
  {
    if s != [] && drop(s[0]) then 1 + LeadingCount(s[1..], drop) else 0
  }

  /** `s.strip(chars)`: removes the longest prefix and the longest suffix
      made of characters satisfying `drop`. The result is the slice of `s`
      that starts and ends with a kept character, everything cut off on
      either side being a dropped one. */
  function StripWhere(s: string, drop: char -> bool): (r: string)
    ensures LeadingCount(s, drop) + |r| <= |s|
    ensures r == s[LeadingCount(s, drop)..LeadingCount(s, drop) + |r|]
    ensures r == [] || (!drop(r[0]) && !drop(r[|r| - 1]))
    ensures forall k :: LeadingCount(s, drop) + |r| <= k < |s| ==> drop(s[k])
  {
    TrimRight(s[LeadingCount(s, drop)..], drop)
  }

  /** Stripping a string none of whose characters is dropped leaves it as
      it is. */
  lemma StripNothing(s: string, drop: char -> bool)
    requires forall k :: 0 <= k < |s| ==> !drop(s[k])
    ensures StripWhere(s, drop) == s
  {
    assert LeadingCount(s, drop) == 0;
    assert s[0..] == s;
  }

  function TrimRight(s: string, drop: char -> bool): (r: string)
    ensures |r| <= |s| && r == s[..|r|]
    ensures r == [] || !drop(r[|r| - 1])
    ensures forall k :: |r| <= k < |s| ==> drop(s[k])
    decreases |s|
  {
    if s != [] && drop(s[|s| - 1]) then TrimRight(s[..|s| - 1], drop) else s
  }

  /** `s.strip()` with no argument. */
  function Strip(s: string): string {
    StripWhere(s, IsSpace)
  }

  /** `str.upper()` restricted to ASCII: `a`..`z` become `A`..`Z`, every
      other character is kept. */
  function UpperChar(c: char): char {
    if 'a' <= c <= 'z' then (c as int - 32) as char else c
  }

  function Upper(s: string): (r: string)
    ensures |r| == |s|
  {
    seq(|s|, i requires 0 <= i < |s| => UpperChar(s[i]))
  }

  /** Upper-casing twice is upper-casing once. */
  lemma UpperIdempotent(s: string)
    ensures Upper(Upper(s)) == Upper(s)
  {
    forall i | 0 <= i < |s| ensures Upper(Upper(s))[i] == Upper(s)[i] {
      assert Upper(s)[i] == UpperChar(s[i]);
    }
  }

  predicate StartsWith(s: string, prefix: string) {
    |prefix| <= |s| && s[..|prefix|] == prefix
  }

  predicate EndsWith(s: string, suffix: string) {
    |suffix| <= |s| && s[|s| - |suffix|..] == suffix
  }

  /** Length of the run of non-whitespace characters that begins `s`. */
  function TokenLength(s: string): (n: nat)
    requires s != [] && !IsSpace(s[0])
    ensures 1 <= n <= |s|
    ensures forall k :: 0 <= k < n ==> !IsSpace(s[k])
    ensures n == |s| || IsSpace(s[n])
    decreases |s|
  {
    if |s| == 1 || IsSpace(s[1]) then 1 else 1 + TokenLength(s[1..])
  }

  predicate IsToken(w: string) {
    w != [] && forall k :: 0 <= k < |w| ==> !IsSpace(w[k])
  }

  /** `s.split()`: the maximal runs of non-whitespace characters, in order. */
  function Split(s: string): (parts: seq<string>)
    ensures forall k :: 0 <= k < |parts| ==> IsToken(parts[k])
    decreases |s|
  {
    if s == [] then []
    else if IsSpace(s[0]) then Split(s[1..])
    else
      var n := TokenLength(s);
      [s[..n]] + Split(s[n..])
  }

  /** A leading whitespace character contributes nothing to the split. */
  lemma SplitSkipsSpace(c: char, rest: string)
    requires IsSpace(c)
    ensures Split([c] + rest) == Split(rest)
  {
    assert ([c] + rest)[1..] == rest;
  }

  /** A token followed by whitespace (or by nothing) is the first part. */
  lemma SplitTakesToken(w: string, rest: string)
    requires IsToken(w)
    requires rest == [] || IsSpace(rest[0])
    ensures Split(w + rest) == [w] + Split(rest)
  {
    var s := w + rest;
    assert s[0] == w[0];
    TokenLengthOfToken(w, rest);
    assert s[..|w|] == w && s[|w|..] == rest;
  }

  /** A single token splits into itself. */
  lemma SplitOfToken(w: string)
    requires IsToken(w)
    ensures Split(w) == [w]
  {
    SplitTakesToken(w, []);
    assert w + [] == w;
  }

  lemma {:induction false} TokenLengthOfToken(w: string, rest: string)
    requires IsToken(w)
    requires rest == [] || IsSpace(rest[0])
    ensures (w + rest)[0] == w[0] && TokenLength(w + rest) == |w|
    decreases |w|
  {
    var s := w + rest;
    if |w| > 1 {
      assert s[1..] == w[1..] + rest;
      assert IsToken(w[1..]) by {
        forall k | 0 <= k < |w| - 1 ensures !IsSpace(w[1..][k]) {
          assert w[1..][k] == w[k + 1];
        }
      }
      TokenLengthOfToken(w[1..], rest);
    }
  }

  /** `sep.join(parts)`. */
  function Join(parts: seq<string>, sep: string): (r: string)
    ensures parts == [] ==> r == []
    ensures |parts| == 1 ==> r == parts[0]
    decreases |parts|
  {
    if parts == [] then []
    else if |parts| == 1 then parts[0]
    else parts[0] + sep + Join(parts[1..], sep)
  }

  /** Python's `a <= b` on strings: lexicographic order on code points,
      a proper prefix coming first. */
  predicate LexLe(a: string, b: string)
    decreases |a|
  {
    a == [] || (b != [] && (a[0] < b[0] || (a[0] == b[0] && LexLe(a[1..], b[1..]))))
  }

  lemma {:induction false} LexLeReflexive(a: string)
    ensures LexLe(a, a)
    decreases |a|
  {
    if a != [] {
      LexLeReflexive(a[1..]);
    }
  }

  lemma {:induction false} LexLeTotal(a: string, b: string)
    ensures LexLe(a, b) || LexLe(b, a)
    decreases |a|
  {
    if a != [] && b != [] && a[0] == b[0] {
      LexLeTotal(a[1..], b[1..]);
    }
  }

  lemma {:induction false} LexLeAntisymmetric(a: string, b: string)
    requires LexLe(a, b) && LexLe(b, a)
    ensures a == b
    decreases |a|
  {
    if a != [] {
      LexLeAntisymmetric(a[1..], b[1..]);
      assert a == [a[0]] + a[1..] && b == [b[0]] + b[1..];
    }
  }

  lemma {:induction false} LexLeTransitive(a: string, b: string, c: string)
    requires LexLe(a, b) && LexLe(b, c)
    ensures LexLe(a, c)
    decreases |a|
  {
    if a != [] && a[0] == b[0] && b[0] == c[0] {
      LexLeTransitive(a[1..], b[1..], c[1..]);
    }
  }

  /** Splitting at whitespace: a string ending in whitespace splits
      independently of what follows it. */
  lemma {:induction false} SplitAppend(h: string, t: string)
    requires h == [] || IsSpace(h[|h| - 1])
    ensures Split(h + t) == Split(h) + Split(t)
    decreases |h|
  {
    if h == [] {
      assert h + t == t;
    } else if IsSpace(h[0]) {
      assert (h + t)[1..] == h[1..] + t;
      SplitAppend(h[1..], t);
    } else {
      var n := TokenLength(h);
      assert n < |h|;
      var w, rest := h[..n], h[n..];
      assert IsToken(w) by {
        forall k | 0 <= k < |w| ensures !IsSpace(w[k]) {
          assert w[k] == h[k];
        }
      }
      assert h == w + rest;
      var u := rest + t;
      assert rest[0] == h[n] && u[0] == rest[0] && rest[|rest| - 1] == h[|h| - 1];
      calc {
        Split(h + t);
      == { assert h + t == w + u; }
        Split(w + u);
      == { SplitTakesToken(w, u); }
        [w] + Split(u);
      == { SplitAppend(rest, t); }
        [w] + (Split(rest) + Split(t));
      ==
        ([w] + Split(rest)) + Split(t);
      == { SplitTakesToken(w, rest); }
        Split(h) + Split(t);
      }
    }
  }

}
