/** The part of Go's `strings` package that the parsers and the URL builder
    use, over strings of characters. White space is the ASCII white space
    that `strings.TrimSpace` removes. */
module GoStrings {

  /** The characters `strings.TrimSpace` removes, restricted to ASCII. */
  predicate IsSpace(c: char) {
    c == ' ' || c == '\t' || c == '\n' || c == '\r' || c == '\U{000B}' || c == '\U{000C}'
  }

  predicate All(s: string, f: char -> bool) {
    forall i :: 0 <= i < |s| ==> f(s[i])
  }

  /** Neither end of `s` satisfies `f`. */
  predicate NoEdge(s: string, f: char -> bool) {
    s == [] || (!f(s[0]) && !f(s[|s| - 1]))
  }

  // ---------------------------------------------------------------- prefixes

  predicate HasPrefix(s: string, prefix: string) {
    |prefix| <= |s| && s[..|prefix|] == prefix
  }

  /** strings.TrimPrefix: removes one leading `prefix` if present. */
  function TrimPrefix(s: string, prefix: string): (r: string)
    ensures HasPrefix(s, prefix) ==> prefix + r == s
    ensures !HasPrefix(s, prefix) ==> r == s
  {
    if HasPrefix(s, prefix) then s[|prefix|..] else s
  }

  lemma TrimPrefixOfConcat(prefix: string, x: string)
    ensures TrimPrefix(prefix + x, prefix) == x
  {
    assert (prefix + x)[..|prefix|] == prefix;
  }

  // ---------------------------------------------------------------- searching

  /** strings.IndexByte: the first position of `c`, or -1. */
  function IndexByte(s: string, c: char): (i: int)
    ensures -1 <= i < |s|
    ensures i == -1 <==> c !in s
    ensures 0 <= i ==> s[i] == c && c !in s[..i]
  {
    if |s| == 0 then -1
    else if s[0] == c then 0
    else
      var j := IndexByte(s[1..], c);
      assert s[1..][..if j < 0 then 0 else j] == s[1..1 + if j < 0 then 0 else j];
      if j < 0 then -1 else j + 1
  }

  predicate OccursAt(s: string, sub: string, k: int) {
    0 <= k && k + |sub| <= |s| && s[k..k + |sub|] == sub
  }

  /** strings.Index: the first position where `sub` occurs, or -1. */
  function Index(s: string, sub: string): (i: int)
    ensures i == -1 || 0 <= i <= |s| - |sub|
    ensures i == -1 <==> forall k :: 0 <= k <= |s| - |sub| ==> !OccursAt(s, sub, k)
    ensures 0 <= i ==> OccursAt(s, sub, i) && forall k :: 0 <= k < i ==> !OccursAt(s, sub, k)
  {
    IndexFrom(s, sub, 0)
  }

  function IndexFrom(s: string, sub: string, from: nat): (i: int)
    requires from <= |s| + 1
    requires forall k :: 0 <= k < from ==> !OccursAt(s, sub, k)
    ensures i == -1 || 0 <= i <= |s| - |sub|
    ensures i == -1 <==> forall k :: 0 <= k <= |s| - |sub| ==> !OccursAt(s, sub, k)
    ensures 0 <= i ==> from <= i && OccursAt(s, sub, i) && forall k :: 0 <= k < i ==> !OccursAt(s, sub, k)
    decreases |s| + 1 - from
  {
    if from + |sub| > |s| then
      assert forall k :: 0 <= k <= |s| - |sub| ==> !OccursAt(s, sub, k) by {
        forall k | 0 <= k <= |s| - |sub| ensures !OccursAt(s, sub, k) {
          assert k < from;
        }
      }
      -1
    else if s[from..from + |sub|] == sub then
      assert OccursAt(s, sub, from);
      from
    else IndexFrom(s, sub, from + 1)
  }

  lemma IndexOfPrefix(sub: string, rest: string)
    ensures Index(sub + rest, sub) == 0
  {
    assert OccursAt(sub + rest, sub, 0);
  }

  // ---------------------------------------------------------------- splitting

  /** The inverse of Split: the parts with `sep` between them. */
  function Join(parts: seq<string>, sep: char): string
    requires |parts| >= 1
  {
    if |parts| == 1 then parts[0] else parts[0] + [sep] + Join(parts[1..], sep)
  }

  /** strings.Split with a one-character separator: never empty, the parts
      hold no separator and joining them gives the input back. */
  function Split(s: string, sep: char): (parts: seq<string>)
    ensures |parts| >= 1
    ensures forall k :: 0 <= k < |parts| ==> sep !in parts[k]
    ensures Join(parts, sep) == s
    decreases |s|
  {
    var i := IndexByte(s, sep);
    if i < 0 then [s]
    else
      var tail := Split(s[i + 1..], sep);
      var parts := [s[..i]] + tail;
      assert parts[1..] == tail;
      assert s == s[..i] + [sep] + s[i + 1..];
      parts
  }

  /** Splitting a join of separator-free parts gives the parts back. */
  lemma {:induction false} SplitJoin(parts: seq<string>, sep: char)
    requires |parts| >= 1
    requires forall k :: 0 <= k < |parts| ==> sep !in parts[k]
    ensures Split(Join(parts, sep), sep) == parts
    decreases |parts|
  {
    if |parts| > 1 {
      var rest := parts[1..];
      var tail := Join(rest, sep);
      SplitJoin(rest, sep);
      SplitAtFirst(parts[0], sep, tail);
      calc {
        Split(Join(parts, sep), sep);
        Split(parts[0] + [sep] + tail, sep);
        [parts[0]] + Split(tail, sep);
        [parts[0]] + rest;
        parts;
      }
    }
  }

  /** The first part of `a`, the separator and `b` is `a` when `a` holds
      no separator. */
  lemma SplitAtFirst(a: string, sep: char, b: string)
    requires sep !in a
    ensures Split(a + [sep] + b, sep) == [a] + Split(b, sep)
  {
    var s := a + [sep] + b;
    IndexByteOfConcat(a, sep, b);
    assert s[..|a|] == a;
    assert s[|a| + 1..] == b;
  }

  /** strings.SplitN(s, sep, 2) with a one-character separator: the whole
      string when `sep` is absent, otherwise the parts around its first
      occurrence. */
  function SplitN2(s: string, sep: char): (parts: seq<string>)
    ensures |parts| == 1 <==> sep !in s
    ensures |parts| == 1 || |parts| == 2
    ensures |parts| == 1 ==> parts[0] == s
    ensures |parts| == 2 ==> sep !in parts[0] && parts[0] + [sep] + parts[1] == s
    ensures |parts| == 2 ==> parts[0] == s[..|parts[0]|] && parts[1] == s[|parts[0]| + 1..]
  {
    var i := IndexByte(s, sep);
    if i < 0 then [s]
    else
      assert s == s[..i] + [sep] + s[i + 1..];
      [s[..i], s[i + 1..]]
  }

  /** The text before the first `sep`, which is the first part of both
      Split and SplitN. */
  function Before(s: string, sep: char): (r: string)
    ensures sep !in r && HasPrefix(s, r)
    ensures |r| == |s| || s[|r|] == sep
    ensures r == Split(s, sep)[0]
  {
    var i := IndexByte(s, sep);
    if i < 0 then s else s[..i]
  }

  /** The first `c` of `a + [c] + b` is the one after `a` when `a` has none. */
  lemma {:induction false} IndexByteOfConcat(a: string, c: char, b: string)
    requires c !in a
    ensures IndexByte(a + [c] + b, c) == |a|
    decreases |a|
  {
    if |a| > 0 {
      assert (a + [c] + b)[1..] == a[1..] + [c] + b;
      IndexByteOfConcat(a[1..], c, b);
    }
  }

  lemma SplitN2OfConcat(a: string, c: char, b: string)
    requires c !in a
    ensures SplitN2(a + [c] + b, c) == [a, b]
  {
    var s := a + [c] + b;
    IndexByteOfConcat(a, c, b);
    assert s[..|a|] == a;
    assert s[|a| + 1..] == b;
  }

  /** The text before the first `sep` is recovered from any separator-free
      head followed by nothing or by `sep` and anything. */
  lemma BeforeOfConcat(r: string, sep: char, rest: string)
    requires sep !in r
    requires rest == [] || rest[0] == sep
    ensures Before(r + rest, sep) == r
  {
    if rest == [] {
      assert r + rest == r;
    } else {
      assert rest == [sep] + rest[1..];
      assert r + rest == r + [sep] + rest[1..];
      IndexByteOfConcat(r, sep, rest[1..]);
      assert (r + rest)[..|r|] == r;
    }
  }

  /** A prefix of `y` gives a prefix of `x + y`, followed by the same character. */
  lemma HasPrefixAfter(x: string, y: string, p: string)
    requires HasPrefix(y, p)
    ensures HasPrefix(x + y, x + p)
    ensures |p| < |y| ==> (x + y)[|x| + |p|] == y[|p|]
  {
    assert (x + y)[..|x| + |p|] == x + y[..|p|];
  }

  /** A slice holds no character its string does not hold. */
  lemma NotInSlice(s: string, i: int, j: int, c: char)
    requires 0 <= i <= j <= |s| && c !in s
    ensures c !in s[i..j]
  {
    forall k | 0 <= k < j - i ensures s[i..j][k] != c {
      assert s[i..j][k] == s[i + k];
    }
  }

  // ---------------------------------------------------------------- removing

  /** strings.ReplaceAll(s, c, ""): every `c` removed, nothing else. */
  function RemoveAll(s: string, c: char): (r: string)
    ensures c !in r
    ensures |r| <= |s|
    ensures c !in s ==> r == s
    ensures |s| == 1 ==> r == (if s[0] == c then [] else s)
  {
    if |s| == 0 then ""
    else if s[0] == c then RemoveAll(s[1..], c)
    else [s[0]] + RemoveAll(s[1..], c)
  }

  lemma {:induction false} RemoveAllConcat(a: string, b: string, c: char)
    ensures RemoveAll(a + b, c) == RemoveAll(a, c) + RemoveAll(b, c)
    decreases |a|
  {
    if |a| > 0 {
      assert (a + b)[1..] == a[1..] + b;
      RemoveAllConcat(a[1..], b, c);
    } else {
      assert a + b == b;
    }
  }

  /** Removing `c` from "a, c, x, b" leaves "a, x, b" when only that one
      `c` occurs. */
  lemma RemoveAllBetween(a: string, c: char, x: char, b: string)
    requires c !in a && c !in b && x != c
    ensures RemoveAll(a + [c, x] + b, c) == a + [x] + b
  {
    var xb := [x] + b;
    var cxb := [c] + xb;
    assert xb[0] == x && xb[1..] == b;
    assert RemoveAll(xb, c) == [x] + b;
    assert cxb[0] == c && cxb[1..] == xb;
    assert RemoveAll(cxb, c) == xb;
    assert a + [c, x] + b == a + cxb;
    RemoveAllConcat(a, cxb, c);
  }

  // ---------------------------------------------------------------- trimming

  /** The first index at or after `from` whose character `f` rejects, or
      |s| when `f` accepts every character from `from` on. */
  function SkipFrom(s: string, f: char -> bool, from: nat): (i: nat)
    requires from <= |s|
    ensures from <= i <= |s|
    ensures forall k :: from <= k < i ==> f(s[k])
    ensures i < |s| ==> !f(s[i])
    decreases |s| - from
  {
    if from < |s| && f(s[from]) then SkipFrom(s, f, from + 1) else from
  }

  /** The least index `j` at or before `upto` such that `f` accepts every
      character from `j` up to `upto`. */
  function BackFrom(s: string, f: char -> bool, upto: nat): (j: nat)
    requires upto <= |s|
    ensures j <= upto
    ensures forall k :: j <= k < upto ==> f(s[k])
    ensures 0 < j ==> !f(s[j - 1])
    decreases upto
  {
    if 0 < upto && f(s[upto - 1]) then BackFrom(s, f, upto - 1) else upto
  }

  /** strings.TrimLeftFunc: the text from the first character `f` rejects. */
  function TrimLeftFunc(s: string, f: char -> bool): (r: string)
    ensures |r| <= |s| && r == s[|s| - |r|..]
    ensures forall k :: 0 <= k < |s| - |r| ==> f(s[k])
    ensures r == [] || !f(r[0])
  {
    s[SkipFrom(s, f, 0)..]
  }

  /** strings.TrimRightFunc: the text up to the last character `f` rejects. */
  function TrimRightFunc(s: string, f: char -> bool): (r: string)
    ensures |r| <= |s| && r == s[..|r|]
    ensures forall k :: |r| <= k < |s| ==> f(s[k])
    ensures r == [] || !f(r[|r| - 1])
  {
    s[..BackFrom(s, f, |s|)]
  }

  /** strings.TrimFunc: removes every leading and trailing character that
      satisfies `f`. */
  function TrimFunc(s: string, f: char -> bool): (r: string)
    ensures NoEdge(r, f)
    ensures |r| <= |s|
  {
    TrimRightFunc(TrimLeftFunc(s, f), f)
  }

  /** The result of TrimFunc is the slice of the input that starts where
      the left trim stopped. */
  lemma TrimFuncIsSlice(s: string, f: char -> bool)
    ensures var i := SkipFrom(s, f, 0); var r := TrimFunc(s, f);
            i + |r| <= |s| && s[i..i + |r|] == r
  {
    var i := SkipFrom(s, f, 0);
    var left := TrimLeftFunc(s, f);
    assert left == s[i..];
    var r := TrimRightFunc(left, f);
    assert s[i..i + |r|] == left[..|r|];
  }

  /** What TrimFunc cuts off on either side of that slice is a run of
      characters `f` accepts. */
  lemma TrimFuncCutsEdges(s: string, f: char -> bool)
    ensures var i := SkipFrom(s, f, 0); forall k :: 0 <= k < i ==> f(s[k])
    ensures var i := SkipFrom(s, f, 0); var r := TrimFunc(s, f);
            i + |r| <= |s| && forall k :: i + |r| <= k < |s| ==> f(s[k])
  {
    var i := SkipFrom(s, f, 0);
    var left := TrimLeftFunc(s, f);
    assert left == s[i..];
    var r := TrimRightFunc(left, f);
    forall k | i + |r| <= k < |s| ensures f(s[k]) {
      assert s[k] == left[k - i];
    }
  }

  /** Trimming removes exactly the edges: a middle with no trimmable edge
      comes back unchanged, whatever trimmable text surrounds it. */
  lemma TrimFuncOfPadded(pre: string, mid: string, post: string, f: char -> bool)
    requires All(pre, f) && All(post, f) && NoEdge(mid, f)
    ensures TrimFunc(pre + mid + post, f) == mid
  {
    if mid == [] {
      TrimFuncOfBlank(pre, post, f);
      assert pre + mid + post == pre + post;
    } else {
      var rest := mid + post;
      assert pre + mid + post == pre + rest;
      assert rest[0] == mid[0];
      TrimLeftOfPadded(pre, rest, f);
      assert mid[|mid| - 1] == rest[|mid| - 1];
      TrimRightOfPadded(mid, post, f);
    }
  }

  /** A text made only of trimmable characters trims to nothing. */
  lemma TrimFuncOfBlank(pre: string, post: string, f: char -> bool)
    requires All(pre, f) && All(post, f)
    ensures TrimFunc(pre + post, f) == []
  {
    var s := pre + post;
    forall k | 0 <= k < |s| ensures f(s[k]) {
      if k < |pre| {
        assert s[k] == pre[k];
      } else {
        assert s[k] == post[k - |pre|];
      }
    }
    assert SkipFrom(s, f, 0) == |s|;
  }

  /** SkipFrom is the only index with its two properties. */
  lemma SkipFromIs(s: string, f: char -> bool, from: nat, i: nat)
    requires from <= i <= |s|
    requires forall k :: from <= k < i ==> f(s[k])
    requires i < |s| ==> !f(s[i])
    ensures SkipFrom(s, f, from) == i
  {
  }

  /** BackFrom is the only index with its two properties. */
  lemma BackFromIs(s: string, f: char -> bool, upto: nat, j: nat)
    requires j <= upto <= |s|
    requires forall k :: j <= k < upto ==> f(s[k])
    requires 0 < j ==> !f(s[j - 1])
    ensures BackFrom(s, f, upto) == j
  {
  }

  /** Trimmable characters in front of a text that starts with a kept one
      are exactly what TrimLeftFunc removes. */
  lemma TrimLeftOfPadded(pre: string, rest: string, f: char -> bool)
    requires All(pre, f) && (rest == [] || !f(rest[0]))
    ensures TrimLeftFunc(pre + rest, f) == rest
  {
    var s := pre + rest;
    forall k | 0 <= k < |pre| ensures f(s[k]) {
      assert s[k] == pre[k];
    }
    if rest != [] {
      assert s[|pre|] == rest[0];
    }
    SkipFromIs(s, f, 0, |pre|);
    assert s[|pre|..] == rest;
  }

  /** Trimmable characters after a text that ends with a kept one are
      exactly what TrimRightFunc removes. */
  lemma TrimRightOfPadded(rest: string, post: string, f: char -> bool)
    requires All(post, f) && (rest == [] || !f(rest[|rest| - 1]))
    ensures TrimRightFunc(rest + post, f) == rest
  {
    var s := rest + post;
    forall k | |rest| <= k < |s| ensures f(s[k]) {
      assert s[k] == post[k - |rest|];
    }
    if rest != [] {
      assert s[|rest| - 1] == rest[|rest| - 1];
    }
    BackFromIs(s, f, |s|, |rest|);
    assert s[..|rest|] == rest;
  }

  /** strings.TrimSpace. */
  function TrimSpace(s: string): (r: string)
    ensures NoEdge(r, IsSpace)
    ensures |r| <= |s|
  {
    TrimFunc(s, IsSpace)
  }

  lemma NotInTrimSpace(s: string, c: char)
    requires c !in s
    ensures c !in TrimSpace(s)
  {
    var r := TrimSpace(s);
    TrimFuncIsSlice(s, IsSpace);
    var i := SkipFrom(s, IsSpace, 0);
    NotInSlice(s, i, i + |r|, c);
  }

  lemma NotInTrimPrefix(s: string, prefix: string, c: char)
    requires c !in s
    ensures c !in TrimPrefix(s, prefix)
  {
    if HasPrefix(s, prefix) {
      NotInSlice(s, |prefix|, |s|, c);
    }
  }

  lemma TrimSpaceOfTrimmed(s: string)
    requires NoEdge(s, IsSpace)
    ensures TrimSpace(s) == s
  {
    TrimFuncOfPadded([], s, [], IsSpace);
    assert [] + s + [] == s;
  }

  lemma TrimSpaceOfPadded(s: string, pad: string)
    requires NoEdge(s, IsSpace) && All(pad, IsSpace)
    ensures TrimSpace(s + pad) == s
  {
    TrimFuncOfPadded([], s, pad, IsSpace);
    assert [] + s + pad == s + pad;
  }

  lemma TrimSpaceIdempotent(s: string)
    ensures TrimSpace(TrimSpace(s)) == TrimSpace(s)
  {
    TrimSpaceOfTrimmed(TrimSpace(s));
  }

  predicate IsSlash(c: char) { c == '/' }

  /** strings.Trim(s, "/"). */
  function TrimSlashes(s: string): (r: string)
    ensures NoEdge(r, IsSlash)
    ensures |r| <= |s|
  {
    TrimFunc(s, IsSlash)
  }
}
