/** The argument canonicalisation inside `_make_cache_key`: keep the truthy
    `str` and `int` arguments (positional, then keyword values), write each
    as text without its `-` characters, sort the texts, join them with `,`
    and put `:` in front. The digest of that string is the memoize key's
    last part; the digest itself (md5) is a parameter of the model. */
module CacheKey {
  import opened Values

  /** `x.__class__ in {str, int} and x`: a `bool` is not an `int` here. */
  predicate Eligible(v: Value) {
    (v.Str? && v.s != "") || (v.Int? && v.i != 0)
  }

  function DigitChar(d: nat): char
    requires d < 10
  {
    "0123456789"[d]
  }

  /** The decimal digits of `n`, as `str(n)` writes them. */
  function Digits(n: nat): (r: string)
    ensures r != []
    ensures forall i :: 0 <= i < |r| ==> '0' <= r[i] <= '9'
  {
    if n < 10 then [DigitChar(n)] else Digits(n / 10) + [DigitChar(n % 10)]
  }

  /** `str(i)` for an int. */
  function IntStr(i: int): string {
    if i < 0 then "-" + Digits(-i) else Digits(i)
  }

  /** `s.replace("-", "")` */
  function StripDash(s: string): (r: string)
    ensures forall i :: 0 <= i < |r| ==> r[i] != '-'
    ensures |r| <= |s|
  {
    if s == [] then [] else (if s[0] == '-' then [] else [s[0]]) + StripDash(s[1..])
  }

  /** Stripping works character by character: it distributes over
      concatenation. */
  lemma {:induction false} StripDashConcat(a: string, b: string)
    ensures StripDash(a + b) == StripDash(a) + StripDash(b)
    decreases |a|
  {
    if a == [] {
      assert a + b == b;
    } else {
      assert (a + b)[0] == a[0] && (a + b)[1..] == a[1..] + b;
      StripDashConcat(a[1..], b);
    }
  }

  /** A string without a dash comes back unchanged. */
  lemma {:induction false} StripDashNoDash(s: string)
    requires forall i :: 0 <= i < |s| ==> s[i] != '-'
    ensures StripDash(s) == s
    decreases |s|
  {
    if s != [] {
      assert forall i :: 0 <= i < |s[1..]| ==> s[1..][i] == s[i + 1];
      StripDashNoDash(s[1..]);
    }
  }

  /** `str(x).replace("-", "")` */
  function Render(v: Value): string
    requires v.Str? || v.Int?
  {
    if v.Str? then StripDash(v.s) else StripDash(IntStr(v.i))
  }

  /** The rendered eligible arguments, in argument order. */
  function Rendered(xs: seq<Value>): seq<string> {
    if xs == [] then []
    else (if Eligible(xs[0]) then [Render(xs[0])] else []) + Rendered(xs[1..])
  }

  /** `kwargs.values()`, keyword arguments kept in call order. */
  function KwValues(kwargs: seq<(string, Value)>): (r: seq<Value>)
    ensures |r| == |kwargs| && forall i :: 0 <= i < |r| ==> r[i] == kwargs[i].1
  {
    if kwargs == [] then [] else [kwargs[0].1] + KwValues(kwargs[1..])
  }

  // ---------------------------------------------------------------------
  // Python's ordering of str: code point by code point, a prefix first

  predicate Le(a: string, b: string) {
    a == [] || (b != [] && (a[0] < b[0] || (a[0] == b[0] && Le(a[1..], b[1..]))))
  }

  lemma {:induction false} LeTotal(a: string, b: string)
    ensures Le(a, b) || Le(b, a)
  {
    if a != [] && b != [] && a[0] == b[0] {
      LeTotal(a[1..], b[1..]);
    }
  }

  lemma {:induction false} LeAntisymmetric(a: string, b: string)
    requires Le(a, b) && Le(b, a)
    ensures a == b
  {
    if a != [] && b != [] {
      LeAntisymmetric(a[1..], b[1..]);
      assert a == [a[0]] + a[1..] && b == [b[0]] + b[1..];
    }
  }

  lemma {:induction false} LeTransitive(a: string, b: string, c: string)
    requires Le(a, b) && Le(b, c)
    ensures Le(a, c)
  {
    if a != [] && b != [] && c != [] && a[0] == b[0] == c[0] {
      LeTransitive(a[1..], b[1..], c[1..]);
    }
  }

  predicate Sorted(xs: seq<string>) {
    forall i, j :: 0 <= i < j < |xs| ==> Le(xs[i], xs[j])
  }

  function Insert(x: string, xs: seq<string>): (r: seq<string>)
    requires Sorted(xs)
    ensures Sorted(r)
    ensures multiset(r) == multiset(xs) + multiset{x}
  {
    if xs == [] then [x]
    else if Le(x, xs[0]) then
      assert forall j :: 0 <= j < |xs| ==> Le(xs[0], xs[j]) by {
        forall j | 0 < j < |xs| ensures Le(xs[0], xs[j]) { }
        LeReflexive(xs[0]);
      }
      InsertFront(x, xs);
      [x] + xs
    else
      LeTotal(x, xs[0]);
      var tail := Insert(x, xs[1..]);
      assert xs == [xs[0]] + xs[1..];
      InsertBehind(xs[0], tail, x, xs[1..]);
      [xs[0]] + tail
  }

  lemma {:induction false} LeReflexive(a: string)
    ensures Le(a, a)
  {
    if a != [] {
      LeReflexive(a[1..]);
    }
  }

  lemma InsertFront(x: string, xs: seq<string>)
    requires Sorted(xs) && xs != [] && Le(x, xs[0])
    ensures Sorted([x] + xs)
  {
    forall i, j | 0 <= i < j < |[x] + xs| ensures Le(([x] + xs)[i], ([x] + xs)[j]) {
      if i == 0 {
        if j > 1 {
          LeTransitive(x, xs[0], xs[j - 1]);
        }
      }
    }
  }

  lemma InsertBehind(h: string, tail: seq<string>, x: string, xs: seq<string>)
    requires Sorted([h] + xs) && Sorted(tail) && Le(h, x)
    requires multiset(tail) == multiset(xs) + multiset{x}
    ensures Sorted([h] + tail)
  {
    forall j | 0 <= j < |tail| ensures Le(h, tail[j]) {
      assert tail[j] in multiset(tail);
      if tail[j] != x {
        assert tail[j] in multiset(xs);
        var k :| 0 <= k < |xs| && xs[k] == tail[j];
        assert ([h] + xs)[0] == h && ([h] + xs)[k + 1] == xs[k];
      }
    }
  }

  /** `sorted(...)` on strings: sorted, and a permutation of its input. */
  function Sort(xs: seq<string>): (r: seq<string>)
    ensures Sorted(r)
    ensures multiset(r) == multiset(xs)
  {
    if xs == [] then []
    else
      assert xs == [xs[0]] + xs[1..];
      Insert(xs[0], Sort(xs[1..]))
  }

  /** The head of a sorted sequence is below every element. */
  lemma HeadIsLeast(a: seq<string>, x: string)
    requires Sorted(a) && x in multiset(a)
    ensures a != [] && Le(a[0], x)
  {
    var i :| 0 <= i < |a| && a[i] == x;
    if i == 0 { LeReflexive(x); }
  }

  lemma SortedTail(a: seq<string>)
    requires Sorted(a) && a != []
    ensures Sorted(a[1..])
  {
    forall i, j | 0 <= i < j < |a[1..]| ensures Le(a[1..][i], a[1..][j]) {
      assert a[1..][i] == a[i + 1] && a[1..][j] == a[j + 1];
    }
  }

  /** Two non-empty sorted sequences with the same elements start alike,
      and their tails have the same elements. */
  lemma SameHeads(a: seq<string>, b: seq<string>)
    requires Sorted(a) && Sorted(b) && multiset(a) == multiset(b) && a != []
    ensures b != [] && a[0] == b[0] && multiset(a[1..]) == multiset(b[1..])
  {
    assert a[0] in multiset(a) && a[0] in multiset(b);
    HeadIsLeast(b, a[0]);
    assert b[0] in multiset(b);
    HeadIsLeast(a, b[0]);
    LeAntisymmetric(a[0], b[0]);
    TailMultiset(a);
    TailMultiset(b);
  }

  /** The tail holds the elements of the sequence less its head. */
  lemma TailMultiset(a: seq<string>)
    requires a != []
    ensures multiset(a[1..]) == multiset(a) - multiset{a[0]}
  {
    assert a == [a[0]] + a[1..];
  }

  /** Two sorted sequences with the same elements are the same sequence. */
  lemma {:induction false} SortedUnique(a: seq<string>, b: seq<string>)
    requires Sorted(a) && Sorted(b) && multiset(a) == multiset(b)
    ensures a == b
  {
    if a == [] {
      assert |b| == |multiset(b)| == 0;
    } else {
      SameHeads(a, b);
      SortedTail(a);
      SortedTail(b);
      SortedUnique(a[1..], b[1..]);
      assert a == [a[0]] + a[1..] && b == [b[0]] + b[1..];
    }
  }

  /** `",".join(parts)` */
  function Join(parts: seq<string>): string {
    if parts == [] then ""
    else if |parts| == 1 then parts[0]
    else parts[0] + "," + Join(parts[1..])
  }

  /** The string `_make_cache_key` hands to the digest. */
  function Canon(args: seq<Value>, kwargs: seq<(string, Value)>): string {
    ":" + Join(Sort(Rendered(args + KwValues(kwargs))))
  }

  /** `_make_cache_key(*args, **kwargs)`, for a given digest function. */
  function MakeCacheKey(digest: string -> string, args: seq<Value>, kwargs: seq<(string, Value)>): string {
    digest(Canon(args, kwargs))
  }

  // ---------------------------------------------------------------------
  // What the canonical string depends on

  lemma {:induction false} RenderedConcat(a: seq<Value>, b: seq<Value>)
    ensures Rendered(a + b) == Rendered(a) + Rendered(b)
  {
    if a == [] {
      assert a + b == b;
    } else {
      assert (a + b)[0] == a[0] && (a + b)[1..] == a[1..] + b;
      RenderedConcat(a[1..], b);
    }
  }

  /** Reordering the arguments reorders their rendered forms. */
  lemma {:induction false} RenderedPermutation(a: seq<Value>, b: seq<Value>)
    requires multiset(a) == multiset(b)
    ensures multiset(Rendered(a)) == multiset(Rendered(b))
  {
    if a == [] {
      assert |b| == |multiset(b)| == 0;
    } else {
      var x := a[0];
      assert x in multiset(b);
      var j :| 0 <= j < |b| && b[j] == x;
      var b' := b[..j] + b[j + 1..];
      assert b == b[..j] + [x] + b[j + 1..];
      assert a == [x] + a[1..];
      assert multiset(b') == multiset(b) - multiset{x};
      assert multiset(a[1..]) == multiset(a) - multiset{x};
      RenderedPermutation(a[1..], b');
      RenderedMiddle(b[..j], x, b[j + 1..]);
      RenderedConcat([x], a[1..]);
    }
  }

  /** Moving one argument to the front moves its rendering, if any, with it. */
  lemma RenderedMiddle(l: seq<Value>, x: Value, r: seq<Value>)
    ensures multiset(Rendered(l + [x] + r)) == multiset(Rendered([x])) + multiset(Rendered(l + r))
  {
    RenderedConcat(l + [x], r);
    RenderedConcat(l, [x]);
    RenderedConcat(l, r);
  }

  /** The canonical string does not depend on the order of the arguments,
      nor on which of them were passed by keyword. */
  lemma CanonPermutation(args1: seq<Value>, kwargs1: seq<(string, Value)>,
                         args2: seq<Value>, kwargs2: seq<(string, Value)>)
    requires multiset(args1 + KwValues(kwargs1)) == multiset(args2 + KwValues(kwargs2))
    ensures Canon(args1, kwargs1) == Canon(args2, kwargs2)
  {
    RenderedPermutation(args1 + KwValues(kwargs1), args2 + KwValues(kwargs2));
    SortedUnique(Sort(Rendered(args1 + KwValues(kwargs1))), Sort(Rendered(args2 + KwValues(kwargs2))));
  }

  /** Keyword names play no part: renaming a keyword argument changes
      nothing, and a keyword argument counts as one more positional one. */
  lemma CanonIgnoresNames(args: seq<Value>, kwargs: seq<(string, Value)>, name1: string, name2: string, v: Value)
    ensures Canon(args, kwargs + [(name1, v)]) == Canon(args, kwargs + [(name2, v)])
    ensures Canon(args, kwargs + [(name1, v)]) == Canon(args + [v], kwargs)
  {
    var kv, k1, k2 := KwValues(kwargs), kwargs + [(name1, v)], kwargs + [(name2, v)];
    assert KwValues(k1) == kv + [v] == KwValues(k2);
    assert multiset(args + (kv + [v])) == multiset(args) + multiset(kv) + multiset{v} == multiset(args + [v] + kv);
    CanonPermutation(args, k1, args + [v], kwargs);
    CanonPermutation(args, k1, args, k2);
  }

  /** An argument that is not a truthy `str` or `int` (None, a bool, 0, "",
      a list, ...) does not change the canonical string. */
  lemma CanonIgnoresIneligible(args: seq<Value>, kwargs: seq<(string, Value)>, v: Value)
    requires !Eligible(v)
    ensures Canon(args + [v], kwargs) == Canon(args, kwargs)
  {
    var kv := KwValues(kwargs);
    assert args + [v] + kv == args + ([v] + kv);
    assert ([v] + kv)[0] == v && ([v] + kv)[1..] == kv;
    assert Rendered([v] + kv) == Rendered(kv);
    RenderedConcat(args, [v] + kv);
    RenderedConcat(args, kv);
    assert Rendered(args + [v] + kv) == Rendered(args + kv);
  }

  lemma {:induction false} StripDigits(s: string)
    requires forall i :: 0 <= i < |s| ==> '0' <= s[i] <= '9'
    ensures StripDash(s) == s
  {
    if s != [] {
      StripDigits(s[1..]);
    }
  }

  /** `str(n).replace("-", "")` is the digits of |n|. */
  lemma RenderInt(n: int)
    ensures Render(Int(n)) == Digits(if n < 0 then -n else n)
  {
    var d := Digits(if n < 0 then -n else n);
    StripDigits(d);
    if n < 0 {
      assert ("-" + d)[1..] == d;
    }
  }

  /** Since `-` is stripped, `-n` and `n` give the same canonical string. */
  lemma RenderedSign(rest: seq<Value>, n: int)
    ensures Rendered([Int(-n)] + rest) == Rendered([Int(n)] + rest)
  {
    RenderInt(n);
    RenderInt(-n);
    assert ([Int(-n)] + rest)[0] == Int(-n) && ([Int(-n)] + rest)[1..] == rest;
    assert ([Int(n)] + rest)[0] == Int(n) && ([Int(n)] + rest)[1..] == rest;
  }

  lemma CanonSignInsensitive(args: seq<Value>, kwargs: seq<(string, Value)>, n: int)
    ensures Canon(args + [Int(-n)], kwargs) == Canon(args + [Int(n)], kwargs)
  {
    var kv := KwValues(kwargs);
    assert args + [Int(-n)] + kv == args + ([Int(-n)] + kv);
    assert args + [Int(n)] + kv == args + ([Int(n)] + kv);
    RenderedConcat(args, [Int(-n)] + kv);
    RenderedConcat(args, [Int(n)] + kv);
    RenderedSign(kv, n);
    assert Rendered(args + [Int(-n)] + kv) == Rendered(args + [Int(n)] + kv);
  }
}
