/** The few `java.lang.String` operations the core relies on, over `seq<char>`. */
module Text {
  import opened Wrappers

  /** `Character.toLowerCase` restricted to ASCII letters. */
  function ToLowerChar(c: char): (r: char)
    ensures 'A' <= c <= 'Z' ==> r as int == c as int + 32
    ensures !('A' <= c <= 'Z') ==> r == c
  {
    if 'A' <= c <= 'Z' then (c as int + 32) as char else c
  }

  /** `String.toLowerCase` (ASCII letters only). */
  function ToLower(s: string): (r: string)
    ensures |r| == |s|
    ensures forall i :: 0 <= i < |s| ==> r[i] == ToLowerChar(s[i])
  {
    if s == [] then [] else [ToLowerChar(s[0])] + ToLower(s[1..])
  }

  /** `a.equalsIgnoreCase(b)` for non-null `a` and `b` (ASCII letters only). */
  predicate EqualsIgnoreCase(a: string, b: string) {
    ToLower(a) == ToLower(b)
  }

  /** `a.equalsIgnoreCase(b)` where `b` may be null: never equal to null. */
  predicate EqualsIgnoreCaseOpt(a: string, b: Option<string>) {
    b.Some? && EqualsIgnoreCase(a, b.value)
  }

  /** DataNucleus `StringUtils.isWhitespace`: null, or nothing left after `trim()`. */
  predicate IsWhitespace(s: Option<string>) {
    s.None? || forall i :: 0 <= i < |s.value| ==> s.value[i] <= ' '
  }

  /** `s.indexOf(sub) >= 0`. */
  predicate Contains(s: string, sub: string) {
    (|sub| <= |s| && s[..|sub|] == sub) || (s != [] && Contains(s[1..], sub))
  }

  /** `s.indexOf(c, from)`: the first position at or after `from` holding `c`, or -1. */
  function IndexOf(s: string, c: char, from: nat): (r: int)
    requires from <= |s|
    ensures r == -1 || (from <= r < |s| && s[r] == c)
    ensures r == -1 ==> forall k :: from <= k < |s| ==> s[k] != c
    ensures r != -1 ==> forall k :: from <= k < r ==> s[k] != c
    decreases |s| - from
  {
    if from == |s| then -1
    else if s[from] == c then from
    else IndexOf(s, c, from + 1)
  }

  /** The number of occurrences of `c` in `s`. */
  function Count(s: string, c: char): nat {
    if s == [] then 0 else (if s[0] == c then 1 else 0) + Count(s[1..], c)
  }

  /** The strings of `xs` one after the other. */
  function Concat(xs: seq<string>): string {
    if xs == [] then "" else Concat(xs[..|xs| - 1]) + xs[|xs| - 1]
  }

  /** Every string of `xs` preceded by `sep`, one after the other. */
  function PrefixEach(sep: string, xs: seq<string>): string {
    if xs == [] then "" else PrefixEach(sep, xs[..|xs| - 1]) + (sep + xs[|xs| - 1])
  }

  /** The strings of `xs` separated by `sep`. */
  function Join(sep: string, xs: seq<string>): string {
    if xs == [] then ""
    else if |xs| == 1 then xs[0]
    else Join(sep, xs[..|xs| - 1]) + (sep + xs[|xs| - 1])
  }

  /** Prefixing distributes over appending lists. */
  lemma {:induction false} PrefixEachAppend(sep: string, xs: seq<string>, ys: seq<string>)
    ensures PrefixEach(sep, xs + ys) == PrefixEach(sep, xs) + PrefixEach(sep, ys)
    decreases |ys|
  {
    if ys == [] {
      assert xs + ys == xs;
    } else {
      var zs := xs + ys;
      assert zs[..|zs| - 1] == xs + ys[..|ys| - 1];
      PrefixEachAppend(sep, xs, ys[..|ys| - 1]);
      AppendAssoc(PrefixEach(sep, xs), PrefixEach(sep, ys[..|ys| - 1]), sep + ys[|ys| - 1]);
    }
  }

  /** One prefixed string. */
  lemma PrefixEachOne(sep: string, d: string)
    ensures PrefixEach(sep, [d]) == sep + d
  {
    assert [d][..0] == [];
  }

  /** An empty prefix leaves plain concatenation. */
  lemma {:induction false} PrefixEachEmpty(xs: seq<string>)
    ensures PrefixEach("", xs) == Concat(xs)
  {
    if xs != [] {
      PrefixEachEmpty(xs[..|xs| - 1]);
      assert "" + xs[|xs| - 1] == xs[|xs| - 1];
    }
  }

  /** Joining after a non-empty list adds the separator before each new element. */
  lemma {:induction false} JoinAppend(sep: string, xs: seq<string>, ys: seq<string>)
    requires xs != []
    ensures Join(sep, xs + ys) == Join(sep, xs) + PrefixEach(sep, ys)
    decreases |ys|
  {
    if ys == [] {
      assert xs + ys == xs;
    } else {
      var zs := xs + ys;
      assert zs[..|zs| - 1] == xs + ys[..|ys| - 1];
      JoinAppend(sep, xs, ys[..|ys| - 1]);
      AppendAssoc(Join(sep, xs), PrefixEach(sep, ys[..|ys| - 1]), sep + ys[|ys| - 1]);
    }
  }

  /** Concatenation is associative. */
  lemma AppendAssoc<T>(a: seq<T>, b: seq<T>, c: seq<T>)
    ensures a + (b + c) == (a + b) + c
  {
  }
}
