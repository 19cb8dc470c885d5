/** Python string behaviour the answering flow relies on: `str.strip()`,
    `str.split(sep)` and `sep.join(parts)`, the ordering `sorted` uses on
    strings, and `sorted(set(xs))`. */
module Text {

  // ---------------------------------------------------------------------
  // Whitespace and strip()
  // ---------------------------------------------------------------------

  /** Python's `str.isspace()` on one character: the ASCII separators and
      the Unicode characters of category Zs or bidirectional class B/S/WS. */
  predicate IsSpace(c: char) {
    var n := c as int;
    n == 0x20 || 0x09 <= n <= 0x0D || 0x1C <= n <= 0x1F || n == 0x85 || n == 0xA0 ||
    n == 0x1680 || 0x2000 <= n <= 0x200A || n == 0x2028 || n == 0x2029 ||
    n == 0x202F || n == 0x205F || n == 0x3000
  }

  predicate AllSpace(s: string) {
    forall i :: 0 <= i < |s| ==> IsSpace(s[i])
  }

  /** Neither starts nor ends with whitespace. */
  predicate Trimmed(s: string) {
    s == [] || (!IsSpace(s[0]) && !IsSpace(s[|s| - 1]))
  }

  /** Length of the run of whitespace that starts `s`. */
  function LeadingSpace(s: string): (n: nat)
    ensures n <= |s|
    ensures AllSpace(s[..n])
    ensures n == |s| || !IsSpace(s[n])
  {
    if s != [] && IsSpace(s[0]) then 1 + LeadingSpace(s[1..]) else 0
  }

  /** Length of the run of whitespace that ends `s`. */
  function TrailingSpace(s: string): (n: nat)
    ensures n <= |s|
    ensures AllSpace(s[|s| - n..])
    ensures n == |s| || !IsSpace(s[|s| - 1 - n])
  {
    if s != [] && IsSpace(s[|s| - 1]) then 1 + TrailingSpace(s[..|s| - 1]) else 0
  }

  /** `s.strip()`: `s` with its leading and trailing whitespace removed. */
  function Strip(s: string): (r: string)
    ensures Trimmed(r)
    ensures |r| <= |s| - LeadingSpace(s)
    ensures r == s[LeadingSpace(s)..LeadingSpace(s) + |r|]
    ensures AllSpace(s[..LeadingSpace(s)]) && AllSpace(s[LeadingSpace(s) + |r|..])
  {
    var t := s[LeadingSpace(s)..];
    t[..|t| - TrailingSpace(t)]
  }

  /** Strip removes exactly the whitespace padding around a trimmed text:
      whatever spaces surround `t`, stripping gives back `t`. */
  lemma {:induction false} StripPadded(pre: string, t: string, post: string)
    requires AllSpace(pre) && AllSpace(post) && Trimmed(t)
    ensures Strip(pre + t + post) == t
  {
    var s := pre + t + post;
    if t == [] {
      assert s == pre + post;
      assert AllSpace(s);
      LeadingOfAllSpace(s);
    } else {
      var u := t + post;
      assert s == pre + u;
      LeadingOfPadded(pre, u);
      assert s[LeadingSpace(s)..] == u;
      TrailingOfPadded(t, post);
      assert u[..|u| - TrailingSpace(u)] == t;
    }
  }

  lemma {:induction false} LeadingOfAllSpace(s: string)
    requires AllSpace(s)
    ensures LeadingSpace(s) == |s|
  {
    if s != [] {
      assert AllSpace(s[1..]);
      LeadingOfAllSpace(s[1..]);
    }
  }

  lemma {:induction false} LeadingOfPadded(pre: string, u: string)
    requires AllSpace(pre) && u != [] && !IsSpace(u[0])
    ensures LeadingSpace(pre + u) == |pre|
  {
    if pre != [] {
      assert (pre + u)[1..] == pre[1..] + u;
      LeadingOfPadded(pre[1..], u);
    }
  }

  lemma {:induction false} TrailingOfPadded(u: string, post: string)
    requires AllSpace(post) && u != [] && !IsSpace(u[|u| - 1])
    ensures TrailingSpace(u + post) == |post|
  {
    if post != [] {
      var s := u + post;
      assert s[..|s| - 1] == u + post[..|post| - 1];
      TrailingOfPadded(u, post[..|post| - 1]);
    }
  }

  /** Stripping twice is stripping once. */
  lemma StripIdempotent(s: string)
    ensures Strip(Strip(s)) == Strip(s)
  {
    var r := Strip(s);
    StripPadded([], r, []);
    assert [] + r + [] == r;
  }

  // ---------------------------------------------------------------------
  // split() and join()
  // ---------------------------------------------------------------------

  /** `sep.join(parts)`. */
  function Join(parts: seq<string>, sep: string): string {
    if parts == [] then []
    else if |parts| == 1 then parts[0]
    else parts[0] + sep + Join(parts[1..], sep)
  }

  lemma {:induction false} JoinSnoc(parts: seq<string>, p: string, sep: string)
    requires parts != []
    ensures Join(parts + [p], sep) == Join(parts, sep) + sep + p
  {
    if |parts| > 1 {
      assert (parts + [p])[1..] == parts[1..] + [p];
      JoinSnoc(parts[1..], p, sep);
    } else {
      assert (parts + [p])[1..] == [p];
    }
  }

  /** `s.split(c)` with a one-character separator: the pieces between the
      occurrences of `c`, empty pieces included; never an empty list. */
  function Split(s: string, c: char): (r: seq<string>)
    ensures |r| >= 1
    ensures forall i :: 0 <= i < |r| ==> c !in r[i]
  {
    if s == [] then [[]]
    else
      var init := Split(s[..|s| - 1], c);
      var x := s[|s| - 1];
      if x == c then init + [[]]
      else init[..|init| - 1] + [init[|init| - 1] + [x]]
  }

  /** Extending the last piece extends the joined string. */
  lemma {:induction false} JoinExtendLast(parts: seq<string>, x: char, sep: string)
    requires parts != []
    ensures Join(parts[..|parts| - 1] + [parts[|parts| - 1] + [x]], sep) == Join(parts, sep) + [x]
  {
    var front, last := parts[..|parts| - 1], parts[|parts| - 1];
    if front == [] {
      assert front + [last + [x]] == [last + [x]];
    } else {
      assert parts == front + [last];
      JoinSnoc(front, last, sep);
      JoinSnoc(front, last + [x], sep);
    }
  }

  /** Joining the pieces of a split with the separator gives back the string. */
  lemma {:induction false} JoinSplit(s: string, c: char)
    ensures Join(Split(s, c), [c]) == s
  {
    if s != [] {
      var prefix, x := s[..|s| - 1], s[|s| - 1];
      var init := Split(prefix, c);
      JoinSplit(prefix, c);
      assert s == prefix + [x];
      if x == c {
        assert Split(s, c) == init + [[]];
        JoinSnoc(init, [], [c]);
      } else {
        assert Split(s, c) == init[..|init| - 1] + [init[|init| - 1] + [x]];
        JoinExtendLast(init, x, [c]);
      }
    }
  }

  /** A string without the separator splits into itself alone. */
  lemma {:induction false} SplitWithoutSeparator(s: string, c: char)
    requires c !in s
    ensures Split(s, c) == [s]
  {
    if s != [] {
      assert c !in s[..|s| - 1];
      SplitWithoutSeparator(s[..|s| - 1], c);
      assert s[..|s| - 1] + [s[|s| - 1]] == s;
    }
  }

  /** `s.split('/')[-1]`: what follows the last '/' of a path. */
  function LastSegment(s: string): (r: string)
    ensures '/' !in r
  {
    var parts := Split(s, '/');
    parts[|parts| - 1]
  }

  /** The last segment is the longest '/'-free suffix: a suffix of the
      name, preceded by a '/' unless it is the whole name. */
  lemma {:induction false} LastSegmentIsSuffix(s: string)
    ensures |LastSegment(s)| <= |s|
    ensures LastSegment(s) == s[|s| - |LastSegment(s)|..]
    ensures |LastSegment(s)| < |s| ==> s[|s| - |LastSegment(s)| - 1] == '/'
  {
    if s != [] {
      var prefix, x := s[..|s| - 1], s[|s| - 1];
      var p := Split(prefix, '/');
      assert s == prefix + [x];
      if x == '/' {
        assert Split(s, '/') == p + [[]];
      } else {
        LastSegmentIsSuffix(prefix);
        var last := p[|p| - 1];
        assert LastSegment(prefix) == last;
        assert Split(s, '/') == p[..|p| - 1] + [last + [x]];
        assert LastSegment(s) == last + [x];
        assert s[|s| - |last| - 1..] == prefix[|prefix| - |last|..] + [x];
      }
    }
  }

  /** A name with no '/' is its own last segment. */
  lemma LastSegmentOfPlainName(s: string)
    requires '/' !in s
    ensures LastSegment(s) == s
  {
    SplitWithoutSeparator(s, '/');
  }

  // ---------------------------------------------------------------------
  // Python's ordering on str, and sorted(set(xs))
  // ---------------------------------------------------------------------

  /** `a < b` on Python strings: lexicographic by code point, a proper
      prefix coming first. */
  predicate Below(a: string, b: string)
    decreases |a|
  {
    b != [] && (a == [] || a[0] < b[0] || (a[0] == b[0] && Below(a[1..], b[1..])))
  }

  lemma {:induction false} BelowIrreflexive(a: string)
    ensures !Below(a, a)
  {
    if a != [] {
      BelowIrreflexive(a[1..]);
    }
  }

  lemma {:induction false} BelowTransitive(a: string, b: string, c: string)
    requires Below(a, b) && Below(b, c)
    ensures Below(a, c)
    decreases |a|
  {
    if a != [] && a[0] == b[0] && b[0] == c[0] {
      BelowTransitive(a[1..], b[1..], c[1..]);
    }
  }

  /** Two different strings are ordered one way, and only one way. */
  lemma {:induction false} BelowTotal(a: string, b: string)
    ensures a != b ==> (Below(a, b) || Below(b, a))
    ensures !(Below(a, b) && Below(b, a))
    decreases |a|
  {
    if a != [] && b != [] && a[0] == b[0] {
      BelowTotal(a[1..], b[1..]);
      if a != b {
        assert a == [a[0]] + a[1..] && b == [b[0]] + b[1..];
      }
    }
  }

  /** Strictly ascending, hence free of duplicates. */
  predicate Increasing(s: seq<string>) {
    forall i, j :: 0 <= i < j < |s| ==> Below(s[i], s[j])
  }

  /** Adds `x` to an ascending list unless it is already there. */
  function Insert(x: string, s: seq<string>): (r: seq<string>)
    requires Increasing(s)
    ensures Increasing(r)
    ensures forall y :: y in r <==> y == x || y in s
  {
    if s == [] then [x]
    else if x == s[0] then s
    else if Below(x, s[0]) then
      (forall j | 0 < j < |s| ensures Below(x, s[j]) { BelowTransitive(x, s[0], s[j]); }
       [x] + s)
    else
      var tail := Insert(x, s[1..]);
      BelowTotal(x, s[0]);
      assert forall y :: y in tail ==> Below(s[0], y);
      [s[0]] + tail
  }

  /** `sorted(set(xs))`: the distinct elements of `xs` in ascending order. */
  function SortedDistinct(xs: seq<string>): (r: seq<string>)
    ensures Increasing(r)
    ensures forall y :: y in r <==> y in xs
  {
    if xs == [] then [] else Insert(xs[0], SortedDistinct(xs[1..]))
  }

  /** An ascending list holds no value twice. */
  lemma IncreasingDistinct(s: seq<string>)
    requires Increasing(s)
    ensures forall i, j :: 0 <= i < j < |s| ==> s[i] != s[j]
  {
    forall i, j | 0 <= i < j < |s| ensures s[i] != s[j] {
      BelowIrreflexive(s[i]);
    }
  }

  /** The values of a list, as a set. */
  function Elements(s: seq<string>): set<string> {
    if s == [] then {} else {s[0]} + Elements(s[1..])
  }

  lemma {:induction false} ElementsOf(s: seq<string>)
    ensures forall y :: y in Elements(s) <==> y in s
  {
    if s != [] {
      ElementsOf(s[1..]);
      assert s == [s[0]] + s[1..];
    }
  }

  /** An ascending list is determined by its elements, so `sorted(set(xs))`
      is the one ascending listing of the values in `xs`. */
  lemma {:induction false} IncreasingUnique(a: seq<string>, b: seq<string>)
    requires Increasing(a) && Increasing(b)
    requires forall y :: y in a <==> y in b
    ensures a == b
  {
    if a == [] || b == [] {
      ElementsOf(a);
      ElementsOf(b);
      assert Elements(a) == Elements(b);
    } else {
      assert a[0] in b && b[0] in a;
      BelowTotal(a[0], b[0]);
      assert a[0] == b[0];
      forall y ensures y in a[1..] <==> y in b[1..] {
        if y in a[1..] { BelowIrreflexive(a[0]); assert y in b; }
        if y in b[1..] { BelowIrreflexive(b[0]); assert y in a; }
      }
      IncreasingUnique(a[1..], b[1..]);
      assert a == [a[0]] + a[1..] && b == [b[0]] + b[1..];
    }
  }

  /** `sorted(set(xs))` depends only on which values occur in `xs`. */
  lemma SortedDistinctOfSameValues(xs: seq<string>, ys: seq<string>)
    requires forall y :: y in xs <==> y in ys
    ensures SortedDistinct(xs) == SortedDistinct(ys)
  {
    IncreasingUnique(SortedDistinct(xs), SortedDistinct(ys));
  }
}
