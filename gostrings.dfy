/**
 * The few functions of Go's `strings` package that the tunnel code calls,
 * restricted to ASCII: `Split` and `Join` with a one-character separator,
 * `TrimSpace` over ASCII white space and `EqualFold` over ASCII letters.
 */
module GoStrings {

  /** Go's `strings.Join(xs, string(sep))`. */
  function Join(xs: seq<string>, sep: char): string
  {
    if |xs| == 0 then ""
    else if |xs| == 1 then xs[0]
    else xs[0] + [sep] + Join(xs[1..], sep)
  }

  /**
   * Go's `strings.Split(s, string(sep))`: the pieces of `s` between the
   * occurrences of `sep`. There is always at least one piece (`Split("", c)`
   * is `[""]`) and no piece contains `sep`.
   */
  function Split(s: string, sep: char): (r: seq<string>)
    ensures |r| >= 1
    ensures forall k :: 0 <= k < |r| ==> sep !in r[k]
    decreases |s|
  {
    if s == [] then [""]
    else
      var rest := Split(s[1..], sep);
      if s[0] == sep then [""] + rest
      else [[s[0]] + rest[0]] + rest[1..]
  }

  /** Joining the pieces back with the separator gives the string again. */
  lemma {:induction false} JoinSplit(s: string, sep: char)
    ensures Join(Split(s, sep), sep) == s
    decreases |s|
  {
    if s != [] {
      var rest := Split(s[1..], sep);
      JoinSplit(s[1..], sep);
      assert s == [s[0]] + s[1..];
      if s[0] != sep {
        var r := [[s[0]] + rest[0]] + rest[1..];
        assert r[1..] == rest[1..];
      }
    }
  }

  /** A string without the separator is a single piece. */
  lemma {:induction false} SplitWithoutSep(s: string, sep: char)
    requires sep !in s
    ensures Split(s, sep) == [s]
    decreases |s|
  {
    if s != [] {
      assert sep !in s[1..] by {
        forall k | 0 <= k < |s[1..]| ensures s[1..][k] != sep { assert s[1..][k] == s[k + 1]; }
      }
      SplitWithoutSep(s[1..], sep);
      assert [s[0]] + s[1..] == s;
    }
  }

  /** Splitting at one occurrence of the separator concatenates the pieces of both sides. */
  lemma {:induction false} SplitAround(a: string, b: string, sep: char)
    ensures Split(a + [sep] + b, sep) == Split(a, sep) + Split(b, sep)
    decreases |a|
  {
    var s := a + [sep] + b;
    if a == [] {
      assert s[1..] == b;
    } else {
      assert s[1..] == a[1..] + [sep] + b;
      SplitAround(a[1..], b, sep);
    }
  }

  /** Splitting undoes joining, when no piece contains the separator. */
  lemma {:induction false} SplitJoin(xs: seq<string>, sep: char)
    requires |xs| >= 1
    requires forall k :: 0 <= k < |xs| ==> sep !in xs[k]
    ensures Split(Join(xs, sep), sep) == xs
    decreases |xs|
  {
    SplitWithoutSep(xs[0], sep);
    if |xs| > 1 {
      SplitJoin(xs[1..], sep);
      SplitAround(xs[0], Join(xs[1..], sep), sep);
      assert [xs[0]] + xs[1..] == xs;
    }
  }

  /** The ASCII white space that Go's `strings.TrimSpace` removes. */
  predicate IsSpace(c: char)
  {
    c == ' ' || c == '\t' || c == '\n' || c == '\U{000B}' || c == '\U{000C}' || c == '\r'
  }

  /** Every character of `s` is white space. */
  predicate AllSpace(s: string)
  {
    forall k :: 0 <= k < |s| ==> IsSpace(s[k])
  }

  /** `s` without its leading white space: a suffix of `s` that does not start with white space. */
  function TrimLeft(s: string): (r: string)
    ensures |r| <= |s|
    ensures r == [] || !IsSpace(r[0])
    ensures forall k :: 0 <= k < |s| - |r| ==> IsSpace(s[k])
    decreases |s|
  {
    if s == [] || !IsSpace(s[0]) then s
    else
      var r := TrimLeft(s[1..]);
      assert forall k :: 1 <= k < |s| ==> s[k] == s[1..][k - 1];
      r
  }

  /** `s` without its trailing white space: a prefix of `s` that does not end with white space. */
  function TrimRight(s: string): (r: string)
    ensures |r| <= |s|
    ensures r == [] || !IsSpace(r[|r| - 1])
    ensures forall k :: |r| <= k < |s| ==> IsSpace(s[k])
    decreases |s|
  {
    if s == [] || !IsSpace(s[|s| - 1]) then s
    else
      var r := TrimRight(s[..|s| - 1]);
      assert forall k :: 0 <= k < |s| - 1 ==> s[k] == s[..|s| - 1][k];
      r
  }

  /** What `TrimLeft` keeps is the end of `s`. */
  lemma {:induction false} TrimLeftIsSuffix(s: string)
    ensures TrimLeft(s) == s[|s| - |TrimLeft(s)|..]
    decreases |s|
  {
    if s != [] && IsSpace(s[0]) {
      TrimLeftIsSuffix(s[1..]);
      assert s[1..][|s[1..]| - |TrimLeft(s[1..])|..] == s[|s| - |TrimLeft(s)|..];
    }
  }

  /** What `TrimRight` keeps is the start of `s`. */
  lemma {:induction false} TrimRightIsPrefix(s: string)
    ensures TrimRight(s) == s[..|TrimRight(s)|]
    decreases |s|
  {
    if s != [] && IsSpace(s[|s| - 1]) {
      TrimRightIsPrefix(s[..|s| - 1]);
      assert s[..|s| - 1][..|TrimRight(s)|] == s[..|TrimRight(s)|];
    }
  }

  /**
   * Go's `strings.TrimSpace` over ASCII: `s` with its leading and trailing
   * white space removed. The result neither starts nor ends with white
   * space; `TrimSpacePadded` shows that exactly the padding is removed.
   */
  function TrimSpace(s: string): (r: string)
    ensures |r| <= |s|
    ensures r == [] || (!IsSpace(r[0]) && !IsSpace(r[|r| - 1]))
  {
    var l := TrimLeft(s);
    var r := TrimRight(l);
    TrimRightIsPrefix(l);
    assert r != [] ==> r[0] == l[0];
    r
  }

  /** Leading white space is skipped character by character. */
  lemma {:induction false} TrimLeftSkips(pre: string, x: string)
    requires AllSpace(pre)
    ensures TrimLeft(pre + x) == TrimLeft(x)
    decreases |pre|
  {
    if pre != [] {
      assert (pre + x)[0] == pre[0] && IsSpace(pre[0]);
      assert (pre + x)[1..] == pre[1..] + x;
      assert AllSpace(pre[1..]) by {
        forall k | 0 <= k < |pre[1..]| ensures IsSpace(pre[1..][k]) { assert pre[1..][k] == pre[k + 1]; }
      }
      TrimLeftSkips(pre[1..], x);
    } else {
      assert pre + x == x;
    }
  }

  /** Trailing white space is cut character by character. */
  lemma {:induction false} TrimRightSkips(x: string, post: string)
    requires AllSpace(post)
    ensures TrimRight(x + post) == TrimRight(x)
    decreases |post|
  {
    if post != [] {
      var s := x + post;
      var post' := post[..|post| - 1];
      assert s[..|s| - 1] == x + post';
      assert s[|s| - 1] == post[|post| - 1] && IsSpace(post[|post| - 1]);
      assert AllSpace(post') by {
        forall k | 0 <= k < |post'| ensures IsSpace(post'[k]) { assert post'[k] == post[k]; }
      }
      TrimRightSkips(x, post');
    } else {
      assert x + post == x;
    }
  }

  /** What `TrimLeft` removes is white space. */
  lemma LeadingSpace(s: string)
    ensures AllSpace(s[..|s| - |TrimLeft(s)|])
  {
    var h := s[..|s| - |TrimLeft(s)|];
    forall k | 0 <= k < |h| ensures IsSpace(h[k]) {
      assert h[k] == s[k];
    }
  }

  /** What `TrimRight` removes is white space. */
  lemma TrailingSpace(l: string)
    ensures AllSpace(l[|TrimRight(l)|..])
  {
    var t := l[|TrimRight(l)|..];
    forall k | 0 <= k < |t| ensures IsSpace(t[k]) {
      assert t[k] == l[|TrimRight(l)| + k];
    }
  }

  /** The trimmed string sits in `s` right after the leading white space. */
  lemma TrimSpaceIsSlice(s: string)
    ensures var r := TrimSpace(s); var i := |s| - |TrimLeft(s)|;
      i + |r| <= |s| && s[i..i + |r|] == r
  {
    TrimSpaceUnfold(s);
    TrimLeftIsSuffix(s);
    TrimRightIsPrefix(TrimLeft(s));
    assert TrimSpace(s) == TrimLeft(s)[..|TrimSpace(s)|];
    InnerSlice(s, TrimLeft(s), TrimSpace(s));
  }

  /**
   * Trimming removes only white space: what precedes the trimmed string in
   * `s` and what follows it are white space.
   */
  lemma TrimSpaceRemovesOnlySpace(s: string)
    ensures var r := TrimSpace(s); var i := |s| - |TrimLeft(s)|;
      i + |r| <= |s| && AllSpace(s[..i]) && AllSpace(s[i + |r|..])
  {
    var l := TrimLeft(s);
    TrimSpaceUnfold(s);
    TrimLeftIsSuffix(s);
    TrimRightIsPrefix(l);
    LeadingSpace(s);
    TrailingSpace(l);
    InnerSlice(s, l, TrimRight(l));
  }

  /** `TrimSpace` trims the left, then the right. */
  lemma TrimSpaceUnfold(s: string)
    ensures TrimSpace(s) == TrimRight(TrimLeft(s))
  {
  }

  /** A prefix `r` of a suffix `l` of `s` is a slice of `s`, and the rest of `l` is the rest of `s`. */
  lemma InnerSlice(s: string, l: string, r: string)
    requires |l| <= |s| && l == s[|s| - |l|..]
    requires |r| <= |l| && r == l[..|r|]
    ensures var i := |s| - |l|; s[i..i + |r|] == r && s[i + |r|..] == l[|r|..]
  {
  }

  /** Trimming a string padded with white space gives back the unpadded string. */
  lemma TrimSpacePadded(pre: string, r: string, post: string)
    requires AllSpace(pre) && AllSpace(post)
    requires r == [] || (!IsSpace(r[0]) && !IsSpace(r[|r| - 1]))
    ensures TrimSpace(pre + r + post) == r
  {
    assert pre + r + post == pre + (r + post);
    TrimLeftSkips(pre, r + post);
    if r == [] {
      assert r + post == post + [];
      TrimLeftSkips(post, []);
    } else {
      assert (r + post)[0] == r[0];
      TrimRightSkips(r, post);
    }
  }

  /** ASCII lower-casing, the only case folding this model performs. */
  function ToLower(c: char): (d: char)
  {
    if 'A' <= c <= 'Z' then (c as int + 32) as char else c
  }

  /**
   * Go's `strings.EqualFold` over ASCII: the strings have the same length and
   * agree at every position up to letter case.
   */
  predicate EqualFold(a: string, b: string)
    decreases |a|
  {
    |a| == |b| && (a == [] || (ToLower(a[0]) == ToLower(b[0]) && EqualFold(a[1..], b[1..])))
  }

  /** Every string equals itself up to case. */
  lemma {:induction false} EqualFoldReflexive(a: string)
    ensures EqualFold(a, a)
    decreases |a|
  {
    if a != [] {
      EqualFoldReflexive(a[1..]);
    }
  }

  /** `EqualFold` is position-by-position comparison after lower-casing. */
  lemma {:induction false} EqualFoldPointwise(a: string, b: string)
    ensures EqualFold(a, b) <==> |a| == |b| && forall k :: 0 <= k < |a| ==> ToLower(a[k]) == ToLower(b[k])
    decreases |a|
  {
    if |a| == |b| && a != [] {
      EqualFoldPointwise(a[1..], b[1..]);
      assert forall k :: 1 <= k < |a| ==> a[k] == a[1..][k - 1] && b[k] == b[1..][k - 1];
    }
  }
}
