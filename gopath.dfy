/**
 * Go's `path.Clean` and the two-argument form of `path.Join`, following the
 * rules the standard library documents for `Clean`: repeated slashes become
 * one, `.` elements go, each `..` removes the element before it, a `..` at
 * the start of a rooted path goes, and an empty result is `.`.
 * The general lemmas about the proxy rely only on the three properties
 * `Clean` states: the result is non-empty, holds no two slashes in a row,
 * and is rooted exactly when the input is (the last two go beyond the
 * repeated-slash rule alone). The worked path examples evaluate these
 * definitions.
 */
module GoPath {
  import opened GoStrings

  /** No two consecutive characters of `s` are both slashes. */
  predicate NoRepeatedSlash(s: string)
  {
    forall k :: 0 <= k < |s| - 1 ==> !(s[k] == '/' && s[k + 1] == '/')
  }

  /** An element that `Clean` keeps: not empty and without a slash. */
  predicate IsElement(e: string)
  {
    e != "" && '/' !in e
  }

  /** Every entry of `xs` is a kept element. */
  predicate AllElements(xs: seq<string>)
  {
    forall k :: 0 <= k < |xs| ==> IsElement(xs[k])
  }

  /**
   * The element-by-element pass of `Clean`: `out` holds the elements kept so
   * far, `elems` those still to read. The result has no empty and no `.`
   * element, and a rooted path keeps no `..`.
   */
  function Reduce(elems: seq<string>, rooted: bool, out: seq<string>): (r: seq<string>)
    requires forall k :: 0 <= k < |elems| ==> '/' !in elems[k]
    requires AllElements(out)
    requires forall k :: 0 <= k < |out| ==> out[k] != "." && (rooted ==> out[k] != "..")
    ensures AllElements(r)
    ensures forall k :: 0 <= k < |r| ==> r[k] != "." && (rooted ==> r[k] != "..")
    decreases |elems|
  {
    if elems == [] then out
    else
      var e := elems[0];
      if e == "" || e == "." then Reduce(elems[1..], rooted, out)
      else if e == ".." then
        if |out| > 0 && out[|out| - 1] != ".." then Reduce(elems[1..], rooted, out[..|out| - 1])
        else if rooted then Reduce(elems[1..], rooted, out)
        else Reduce(elems[1..], rooted, out + [".."])
      else Reduce(elems[1..], rooted, out + [e])
  }

  /** Gluing two strings without repeated slashes creates none unless both sides meet in a slash. */
  lemma NoRepeatedSlashConcat(a: string, b: string)
    requires NoRepeatedSlash(a) && NoRepeatedSlash(b)
    requires a == [] || b == [] || a[|a| - 1] != '/' || b[0] != '/'
    ensures NoRepeatedSlash(a + b)
  {
    var s := a + b;
    forall k | 0 <= k < |s| - 1 ensures !(s[k] == '/' && s[k + 1] == '/') {
      if k + 1 < |a| {
        assert s[k] == a[k] && s[k + 1] == a[k + 1];
      } else if k >= |a| {
        assert s[k] == b[k - |a|] && s[k + 1] == b[k + 1 - |a|];
      } else {
        assert s[k] == a[|a| - 1] && s[k + 1] == b[0];
      }
    }
  }

  /** Kept elements joined with slashes: no repeated slash, and no slash at either end. */
  lemma {:induction false} JoinElements(xs: seq<string>)
    requires AllElements(xs)
    ensures var s := Join(xs, '/');
      && NoRepeatedSlash(s)
      && (xs == [] <==> s == [])
      && (s != [] ==> s[0] != '/' && s[|s| - 1] != '/')
    decreases |xs|
  {
    if |xs| == 1 {
      assert xs[0][0] != '/' && xs[0][|xs[0]| - 1] != '/';
    } else if |xs| > 1 {
      var x := xs[0];
      var t := Join(xs[1..], '/');
      JoinElements(xs[1..]);
      assert x[0] != '/' && x[|x| - 1] != '/';
      NoRepeatedSlashConcat(x, "/");
      NoRepeatedSlashConcat(x + "/", t);
      assert Join(xs, '/') == (x + "/") + t;
      assert (x + "/" + t)[0] == x[0];
    }
  }

  /**
   * Go's `path.Clean`: never empty, never two slashes in a row, and rooted
   * exactly when the input is.
   */
  function Clean(p: string): (r: string)
    ensures r != [] && NoRepeatedSlash(r)
    ensures (r[0] == '/') <==> (p != [] && p[0] == '/')
  {
    if p == [] then "."
    else
      var rooted := p[0] == '/';
      var elems := Reduce(Split(p, '/'), rooted, []);
      var body := Join(elems, '/');
      JoinElements(elems);
      if rooted then
        NoRepeatedSlashConcat("/", body);
        "/" + body
      else if body == [] then "."
      else body
  }

  /** Go's `path.Join(a, b)`: the non-empty arguments joined by a slash, then cleaned. */
  function JoinPath(a: string, b: string): (r: string)
    ensures NoRepeatedSlash(r)
    ensures r == [] <==> a == [] && b == []
  {
    if a == [] && b == [] then ""
    else if a == [] then Clean(b)
    else Clean(a + "/" + b)
  }
}
