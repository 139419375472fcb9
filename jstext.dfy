/**
 * The few pieces of JavaScript string behaviour the handlers rely on: how an
 * absent value is rendered inside a template literal, truthiness of a string,
 * `Array.prototype.join`, and `String.prototype.toLowerCase`.
 */
module JsText {
  import opened Wrappers

  /** `${v}` in a template literal: an absent (undefined) value renders as "undefined". */
  function Template(v: Option<string>): (r: string)
    ensures v.Some? ==> r == v.value
    ensures v.None? ==> r == "undefined"
  {
    v.GetOr("undefined")
  }

  /** A string value is truthy when it is present and not empty. */
  predicate Truthy(v: Option<string>) {
    v.Some? && v.value != ""
  }

  /** The total length of the strings in `xs`. */
  function TotalLength(xs: seq<string>): nat {
    if xs == [] then 0 else |xs[0]| + TotalLength(xs[1..])
  }

  /**
   * `xs.join(sep)`: the elements in order with `sep` between neighbours; ""
   * for no elements. It starts with the first element, and it is as long as
   * the elements together plus one separator less than there are elements.
   */
  function Join(xs: seq<string>, sep: string): (r: string)
    ensures xs == [] ==> r == ""
    ensures xs != [] ==> |r| == TotalLength(xs) + (|xs| - 1) * |sep|
    ensures xs != [] ==> |r| >= |xs[0]| && r[..|xs[0]|] == xs[0]
  {
    if xs == [] then ""
    else if |xs| == 1 then xs[0]
    else xs[0] + sep + Join(xs[1..], sep)
  }

  /**
   * Joining is the same whether the pieces are gathered from the front or
   * pushed one by one onto the back: the last piece follows the join of the
   * others and one separator.
   */
  lemma {:induction false} JoinSnoc(xs: seq<string>, sep: string)
    requires |xs| >= 2
    ensures Join(xs, sep) == Join(xs[..|xs| - 1], sep) + sep + xs[|xs| - 1]
    decreases |xs|
  {
    if |xs| == 2 {
      assert xs[..1] == [xs[0]] && xs[1..] == [xs[1]];
    } else {
      JoinSnoc(xs[1..], sep);
      assert xs[1..][..|xs| - 2] == xs[..|xs| - 1][1..];
    }
  }

  /**
   * Splitting at every occurrence of the character `c` (what `s.split(c)` does,
   * and how an OAuth server reads a space-separated scope list). Always at
   * least one piece.
   */
  function Split(s: string, c: char): (r: seq<string>)
    ensures |r| >= 1
    decreases |s|
  {
    if s == [] then [[]]
    else
      var rest := Split(s[1..], c);
      if s[0] == c then [[]] + rest else [[s[0]] + rest[0]] + rest[1..]
  }

  /** A piece free of `c` is glued onto the first piece of what follows it. */
  lemma {:induction false} SplitFreePrefix(a: string, t: string, c: char)
    requires c !in a
    ensures Split(a + t, c) == [a + Split(t, c)[0]] + Split(t, c)[1..]
  {
    if a != [] {
      assert (a + t)[1..] == a[1..] + t;
      SplitFreePrefix(a[1..], t, c);
      assert [a[0]] + (a[1..] + Split(t, c)[0]) == a + Split(t, c)[0];
    } else {
      var r := Split(t, c);
      assert a + t == t && a + r[0] == r[0];
      assert r == [r[0]] + r[1..];
    }
  }

  /** Splitting a join at its separator character gives the elements back. */
  lemma {:induction false} SplitJoin(xs: seq<string>, c: char)
    requires |xs| >= 1
    requires forall i | 0 <= i < |xs| :: c !in xs[i]
    ensures Split(Join(xs, [c]), c) == xs
  {
    if |xs| == 1 {
      SplitFreePrefix(xs[0], [], c);
      assert xs[0] + [] == xs[0];
    } else {
      var tail := Join(xs[1..], [c]);
      SplitJoin(xs[1..], c);
      assert xs[0] + [c] + tail == xs[0] + ([c] + tail);
      SplitFreePrefix(xs[0], [c] + tail, c);
      assert ([c] + tail)[1..] == tail;
      assert xs[0] + [] == xs[0];
      assert [xs[0]] + xs[1..] == xs;
    }
  }

  /** What follows the last occurrence of `c` in `s` (all of `s` when `c` does not occur). */
  function AfterLast(s: string, c: char): string
    decreases |s|
  {
    if s == [] || s[|s| - 1] == c then [] else AfterLast(s[..|s| - 1], c) + [s[|s| - 1]]
  }

  /** After `a + c + v`, with `c` not in `v`, the text after the last `c` is `v`. */
  lemma {:induction false} AfterLastOf(a: string, c: char, v: string)
    requires c !in v
    ensures AfterLast(a + [c] + v, c) == v
  {
    var s := a + [c] + v;
    if v != [] {
      assert s[..|s| - 1] == a + [c] + v[..|v| - 1];
      AfterLastOf(a, c, v[..|v| - 1]);
      assert v[..|v| - 1] + [v[|v| - 1]] == v;
    }
  }

  /** A string that ends in `t + [c] + v`, with `c` not in `v`, has `v` after its last `c`. */
  lemma AfterLastOfSuffix(u: string, t: string, c: char, v: string)
    requires c !in v
    requires |u| >= |t + [c] + v| && u[|u| - |t + [c] + v|..] == t + [c] + v
    ensures AfterLast(u, c) == v
  {
    var a := u[..|u| - |v| - 1];
    assert u[|u| - |v| - 1] == c && u[|u| - |v|..] == v;
    assert u == a + [c] + v;
    AfterLastOf(a, c, v);
  }

  /** `toLowerCase` on one character (ASCII letters only). */
  function LowerChar(ch: char): (r: char)
    ensures 'A' <= ch <= 'Z' ==> r as int == ch as int + 32
    ensures !('A' <= ch <= 'Z') ==> r == ch
  {
    if 'A' <= ch <= 'Z' then (ch as int + 32) as char else ch
  }

  /** `s.toLowerCase()`, one character at a time. */
  function Lower(s: string): (r: string)
    ensures |r| == |s|
    ensures forall i | 0 <= i < |s| :: r[i] == LowerChar(s[i])
  {
    if s == [] then [] else [LowerChar(s[0])] + Lower(s[1..])
  }
}
