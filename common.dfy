/** Option and Result: absent values and error returns shared by every module. */
module Wrappers {

  datatype Option<T> = None | Some(value: T)

  datatype Result<T, E> = Ok(value: T) | Err(error: E)
}

/** Sequence operations mirroring the JavaScript array methods and Python list
    idioms the program uses (find, filter, flatMap, map-with-condition,
    filter-by-index, Array.from(new Set(...))). */
module Seqs {
  import opened Wrappers

  /** JavaScript `findIndex`: the first index whose element satisfies `p`. */
  function FindIndex<T>(xs: seq<T>, p: T -> bool): (r: Option<nat>)
    ensures r.Some? ==> r.value < |xs| && p(xs[r.value])
    ensures r.Some? ==> forall j :: 0 <= j < r.value ==> !p(xs[j])
    ensures r.None? ==> forall j :: 0 <= j < |xs| ==> !p(xs[j])
  {
    if |xs| == 0 then None
    else if p(xs[0]) then Some(0)
    else match FindIndex(xs[1..], p)
      case None => None
      case Some(k) => Some(k + 1)
  }

  /** JavaScript `find`: the first element satisfying `p`, if any. */
  function Find<T>(xs: seq<T>, p: T -> bool): (r: Option<T>)
    ensures r.None? <==> forall j :: 0 <= j < |xs| ==> !p(xs[j])
    ensures r.Some? ==> exists j :: 0 <= j < |xs| && xs[j] == r.value && p(xs[j]) &&
                                    forall k :: 0 <= k < j ==> !p(xs[k])
  {
    match FindIndex(xs, p)
    case None => None
    case Some(k) => Some(xs[k])
  }

  /** JavaScript `filter` / a Python list comprehension with a condition. */
  function Filter<T(!new)>(xs: seq<T>, p: T -> bool): (r: seq<T>)
    ensures |r| <= |xs|
    ensures forall x :: x in r ==> x in xs && p(x)
    ensures forall i :: 0 <= i < |xs| && p(xs[i]) ==> xs[i] in r
    ensures forall i :: 0 <= i < |r| ==> p(r[i])
  {
    if |xs| == 0 then []
    else Filter(xs[..|xs| - 1], p) + (if p(xs[|xs| - 1]) then [xs[|xs| - 1]] else [])
  }

  /** Filtering keeps every element of a sequence that passes `p`, in order: the
      filter of a concatenation is the concatenation of the filters. */
  lemma {:induction false} FilterAppend<T(!new)>(xs: seq<T>, ys: seq<T>, p: T -> bool)
    ensures Filter(xs + ys, p) == Filter(xs, p) + Filter(ys, p)
    decreases |ys|
  {
    if |ys| == 0 {
      assert xs + ys == xs;
    } else {
      var ys' := ys[..|ys| - 1];
      assert (xs + ys)[..|xs + ys| - 1] == xs + ys';
      FilterAppend(xs, ys', p);
    }
  }

  /** Filtering one element keeps it exactly when it passes. */
  lemma FilterOne<T(!new)>(x: T, p: T -> bool)
    ensures Filter([x], p) == if p(x) then [x] else []
  {
    assert [x][..0] == [];
  }

  /** Filtering by a condition every element meets changes nothing. */
  lemma {:induction false} FilterAll<T(!new)>(xs: seq<T>, p: T -> bool)
    requires forall i :: 0 <= i < |xs| ==> p(xs[i])
    ensures Filter(xs, p) == xs
    decreases |xs|
  {
    if |xs| > 0 {
      var tail := xs[1..];
      assert forall i :: 0 <= i < |tail| ==> tail[i] == xs[i + 1];
      FilterAll(tail, p);
      FilterOne(xs[0], p);
      FilterAppend([xs[0]], tail, p);
      assert [xs[0]] + tail == xs;
    }
  }

  /** Filtering a sequence without repetitions gives one without repetitions. */
  lemma {:induction false} FilterNoDuplicates<T(!new)>(xs: seq<T>, p: T -> bool)
    requires NoDuplicates(xs)
    ensures NoDuplicates(Filter(xs, p))
    decreases |xs|
  {
    if |xs| > 0 {
      var init := xs[..|xs| - 1];
      assert NoDuplicates(init) by {
        forall i, j | 0 <= i < j < |init| ensures init[i] != init[j] {
          assert init[i] == xs[i] && init[j] == xs[j];
        }
      }
      FilterNoDuplicates(init, p);
      if p(xs[|xs| - 1]) {
        var r := Filter(init, p);
        assert xs[|xs| - 1] !in init;
        assert xs[|xs| - 1] !in r;
      }
    }
  }

  /** JavaScript `flatMap`: the concatenation of `f` over the elements, in order. */
  function FlatMap<A, B(!new)>(xs: seq<A>, f: A -> seq<B>): (r: seq<B>)
    ensures forall y :: y in r <==> exists i :: 0 <= i < |xs| && y in f(xs[i])
  {
    if |xs| == 0 then []
    else
      var r := FlatMap(xs[..|xs| - 1], f) + f(xs[|xs| - 1]);
      assert forall i :: 0 <= i < |xs| - 1 ==> xs[..|xs| - 1][i] == xs[i];
      r
  }

  /** JavaScript `map`. */
  function Map<A, B>(xs: seq<A>, f: A -> B): (r: seq<B>)
    ensures |r| == |xs|
    ensures forall i :: 0 <= i < |xs| ==> r[i] == f(xs[i])
  {
    seq(|xs|, i requires 0 <= i < |xs| => f(xs[i]))
  }

  /** Appending keeps the first `n` elements, and a property every element
      from `n` on has, when the new element has it too. */
  lemma TailAppend<T>(xs: seq<T>, n: int, x: T, p: T -> bool)
    requires 0 <= n <= |xs| && (forall i :: n <= i < |xs| ==> p(xs[i])) && p(x)
    ensures (xs + [x])[..n] == xs[..n]
    ensures forall i :: n <= i < |xs| + 1 ==> p((xs + [x])[i])
  {
    forall i | n <= i < |xs| + 1 ensures p((xs + [x])[i]) {
      if i < |xs| {
        assert (xs + [x])[i] == xs[i];
      }
    }
  }

  /** A prefix one element longer adds that element's block at the end. */
  lemma FlatMapSnoc<A, B(!new)>(xs: seq<A>, f: A -> seq<B>, i: int)
    requires 0 <= i < |xs|
    ensures FlatMap(xs[..i + 1], f) == FlatMap(xs[..i], f) + f(xs[i])
  {
    assert xs[..i + 1][..i] == xs[..i];
  }

  /** FlatMap depends only on the values `f` takes on the elements. */
  lemma {:induction false} FlatMapCongruence<A, B(!new)>(xs: seq<A>, f: A -> seq<B>, g: A -> seq<B>)
    requires forall i :: 0 <= i < |xs| ==> f(xs[i]) == g(xs[i])
    ensures FlatMap(xs, f) == FlatMap(xs, g)
    decreases |xs|
  {
    if |xs| > 0 {
      FlatMapCongruence(xs[..|xs| - 1], f, g);
    }
  }

  /** Mapping over a flattened sequence is flattening the mapped blocks: `g`
      names the mapped block of each element. */
  lemma {:induction false} MapOfFlatMap<A, B(!new), C(!new)>(
    xs: seq<A>, f: A -> seq<B>, h: B -> C, g: A -> seq<C>)
    requires forall i :: 0 <= i < |xs| ==> g(xs[i]) == Map(f(xs[i]), h)
    ensures Map(FlatMap(xs, f), h) == FlatMap(xs, g)
    decreases |xs|
  {
    if |xs| > 0 {
      var init := xs[..|xs| - 1];
      MapOfFlatMap(init, f, h, g);
      var a, b := FlatMap(init, f), f(xs[|xs| - 1]);
      assert Map(a + b, h) == Map(a, h) + Map(b, h);
    }
  }

  /** Element `k` of the flattening is element `k % n` of block `k / n`. */
  ghost predicate InBlock<A, B(!new)>(xs: seq<A>, f: A -> seq<B>, n: nat, k: int) {
    n > 0 && 0 <= k / n < |xs| && k % n < |f(xs[k / n])| && 0 <= k < |FlatMap(xs, f)| &&
    FlatMap(xs, f)[k] == f(xs[k / n])[k % n]
  }

  /** When every block has length `n`, element `k` of the flattening is element
      `k % n` of block `k / n`. */
  lemma {:induction false} FlatMapBlocks<A, B(!new)>(xs: seq<A>, f: A -> seq<B>, n: nat)
    requires forall i :: 0 <= i < |xs| ==> |f(xs[i])| == n
    ensures |FlatMap(xs, f)| == |xs| * n
    ensures forall k :: 0 <= k < |xs| * n ==> InBlock(xs, f, n, k)
    decreases |xs|
  {
    if |xs| > 0 {
      var m := |xs| - 1;
      var init := xs[..m];
      FlatMapBlocks(init, f, n);
      var a, b := FlatMap(init, f), f(xs[m]);
      assert FlatMap(xs, f) == a + b;
      MulSucc(m, n);
      forall k | 0 <= k < |xs| * n
        ensures InBlock(xs, f, n, k)
      {
        BlockAt(a, b, m, n, k);
        if k < m * n {
          assert InBlock(init, f, n, k);
          assert init[k / n] == xs[k / n];
        }
      }
    }
  }

  /** Indexing a sequence of `m` blocks of length `n` followed by one more block. */
  lemma BlockAt<B>(a: seq<B>, b: seq<B>, m: nat, n: nat, k: int)
    requires |a| == m * n && |b| == n && 0 <= k < m * n + n
    ensures k < m * n ==> (a + b)[k] == a[k] && k / n < m
    ensures k >= m * n ==> (a + b)[k] == b[k % n] && k / n == m && n > 0 && 0 <= k % n < n
  {
    if k < m * n {
      DivBound(k, m, n);
    } else {
      DivBlock(k, m, n);
    }
  }

  lemma MulSucc(m: nat, n: nat)
    ensures (m + 1) * n == m * n + n
  {
  }

  lemma DivBound(k: nat, m: nat, n: nat)
    requires k < m * n
    ensures n > 0 && k / n < m
  {
  }

  lemma DivBlock(k: nat, m: nat, n: nat)
    requires m * n <= k < m * n + n
    ensures k / n == m && k % n == k - m * n
  {
    var q, r := k / n, k % n;
    assert k == q * n + r && 0 <= r < n;
    if q > m {
      MulAtLeast(q - m, n);
    } else if q < m {
      MulAtLeast(m - q, n);
    }
  }

  lemma MulAtLeast(a: int, n: nat)
    requires a >= 1
    ensures a * n >= n
  {
    assert a * n == (a - 1) * n + n;
  }

  /** `xs.find(e => key(e) === x)`: the first element whose key is `x`. */
  function FindBy<T, K(==)>(xs: seq<T>, key: T -> K, x: K): (r: Option<T>)
    ensures r.None? <==> forall j :: 0 <= j < |xs| ==> key(xs[j]) != x
    ensures r.Some? ==> key(r.value) == x && r.value in xs
  {
    if |xs| == 0 then None
    else if key(xs[0]) == x then Some(xs[0])
    else
      var r := FindBy(xs[1..], key, x);
      assert forall j :: 1 <= j < |xs| ==> xs[j] == xs[1..][j - 1];
      r
  }

  /** No two elements share a key. */
  ghost predicate DistinctKeys<T, K>(xs: seq<T>, key: T -> K) {
    forall i, j :: 0 <= i < j < |xs| ==> key(xs[i]) != key(xs[j])
  }

  /** With distinct keys, looking an element's key up finds that element. */
  lemma {:induction false} FindByUnique<T, K>(xs: seq<T>, key: T -> K, i: int)
    requires 0 <= i < |xs| && DistinctKeys(xs, key)
    ensures FindBy(xs, key, key(xs[i])) == Some(xs[i])
  {
    if i > 0 {
      assert key(xs[0]) != key(xs[i]);
      assert DistinctKeys(xs[1..], key) by {
        forall a, b | 0 <= a < b < |xs| - 1 ensures key(xs[1..][a]) != key(xs[1..][b]) {
          assert key(xs[a + 1]) != key(xs[b + 1]);
        }
      }
      FindByUnique(xs[1..], key, i - 1);
    }
  }

  /** `xs.map(e => key(e) === x ? f(e) : e)`. */
  function UpdateBy<T, K(==)>(xs: seq<T>, key: T -> K, x: K, f: T -> T): (r: seq<T>)
    ensures |r| == |xs|
    ensures forall i :: 0 <= i < |xs| ==> r[i] == (if key(xs[i]) == x then f(xs[i]) else xs[i])
  {
    seq(|xs|, i requires 0 <= i < |xs| => if key(xs[i]) == x then f(xs[i]) else xs[i])
  }

  /** Some element has key `x` (a lookup by primary key or a `.first()` query
      that finds a row). */
  predicate HasKey<T, K(==)>(xs: seq<T>, key: T -> K, x: K) {
    exists i :: 0 <= i < |xs| && key(xs[i]) == x
  }

  /** Appending an element keeps every key present and adds its own. */
  lemma HasKeyAppend<T, K>(xs: seq<T>, key: T -> K, y: T)
    ensures forall x :: HasKey(xs, key, x) ==> HasKey(xs + [y], key, x)
    ensures HasKey(xs + [y], key, key(y))
  {
    forall x | HasKey(xs, key, x) ensures HasKey(xs + [y], key, x) {
      var i :| 0 <= i < |xs| && key(xs[i]) == x;
      assert (xs + [y])[i] == xs[i];
    }
    assert (xs + [y])[|xs|] == y;
  }

  /** Dropping elements keeps the remaining keys distinct. */
  lemma {:induction false} FilterKeepsDistinctKeys<T(!new), K>(xs: seq<T>, key: T -> K, p: T -> bool)
    requires DistinctKeys(xs, key)
    ensures DistinctKeys(Filter(xs, p), key)
    decreases |xs|
  {
    if |xs| > 0 {
      var init, last := xs[..|xs| - 1], xs[|xs| - 1];
      assert DistinctKeys(init, key) by {
        forall i, j | 0 <= i < j < |init| ensures key(init[i]) != key(init[j]) {
          assert init[i] == xs[i] && init[j] == xs[j];
        }
      }
      FilterKeepsDistinctKeys(init, key, p);
      var r := Filter(init, p);
      forall i | 0 <= i < |r| ensures key(r[i]) != key(last) {
        assert r[i] in init;
      }
    }
  }

  /** JavaScript `xs.filter((_, i) => i !== index)`. */
  function RemoveAt<T>(xs: seq<T>, index: int): (r: seq<T>)
    ensures 0 <= index < |xs| ==> r == xs[..index] + xs[index + 1..]
    ensures !(0 <= index < |xs|) ==> r == xs
  {
    if |xs| == 0 then []
    else
      var init := xs[..|xs| - 1];
      var r := RemoveAt(init, index) + (if |xs| - 1 != index then [xs[|xs| - 1]] else []);
      assert 0 <= index < |xs| - 1 ==> init[..index] == xs[..index] && init[index + 1..] + [xs[|xs| - 1]] == xs[index + 1..];
      assert !(0 <= index < |xs| - 1) ==> init + [xs[|xs| - 1]] == xs;
      r
  }

  ghost predicate NoDuplicates<T>(xs: seq<T>) {
    forall i, j :: 0 <= i < j < |xs| ==> xs[i] != xs[j]
  }

  /** Position of the first occurrence of `x`. */
  function FirstIndex<T(==)>(xs: seq<T>, x: T): (k: nat)
    requires x in xs
    ensures k < |xs| && xs[k] == x && x !in xs[..k]
  {
    if xs[0] == x then 0 else 1 + FirstIndex(xs[1..], x)
  }

  lemma {:induction false} FirstIndexAppend<T>(xs: seq<T>, y: T, x: T)
    requires x in xs
    ensures FirstIndex(xs + [y], x) == FirstIndex(xs, x)
  {
    if xs[0] != x {
      assert (xs + [y])[1..] == xs[1..] + [y];
      FirstIndexAppend(xs[1..], y, x);
    }
  }

  /** JavaScript `Array.from(new Set(xs))` over values: each distinct element once,
      in the order of its first occurrence. */
  function Dedupe<T(==,!new)>(xs: seq<T>): (r: seq<T>)
    ensures forall x :: x in r <==> x in xs
    ensures NoDuplicates(r)
    ensures forall i, j :: 0 <= i < j < |r| ==> FirstIndex(xs, r[i]) < FirstIndex(xs, r[j])
  {
    if |xs| == 0 then []
    else
      var init := xs[..|xs| - 1];
      var last := xs[|xs| - 1];
      var r := Dedupe(init);
      assert xs == init + [last];
      FirstIndexesAppend(init, last, r);
      if last in r then r
      else
        FirstIndexNew(init, last);
        r + [last]
  }

  lemma FirstIndexesAppend<T>(xs: seq<T>, y: T, r: seq<T>)
    requires forall x :: x in r ==> x in xs
    ensures forall x :: x in r ==> FirstIndex(xs + [y], x) == FirstIndex(xs, x)
  {
    forall x | x in r ensures FirstIndex(xs + [y], x) == FirstIndex(xs, x) {
      FirstIndexAppend(xs, y, x);
    }
  }

  lemma FirstIndexNew<T>(xs: seq<T>, y: T)
    requires y !in xs
    ensures FirstIndex(xs + [y], y) == |xs|
  {
  }

  /** JavaScript `indexOf`: the first position of `x`, or -1. */
  function IndexOf<T(==)>(xs: seq<T>, x: T): (k: int)
    ensures x in xs ==> 0 <= k < |xs| && xs[k] == x && x !in xs[..k]
    ensures x !in xs ==> k == -1
  {
    if x in xs then FirstIndex(xs, x) else -1
  }
}

/** Identifier allocation used throughout the program: `Math.max(...ids) + 1`, or 1
    for an empty list. */
module Ids {
  import opened Seqs

  function MaxOf(xs: seq<int>): (m: int)
    requires |xs| > 0
    ensures m in xs
    ensures forall x :: x in xs ==> x <= m
  {
    if |xs| == 1 then xs[0]
    else
      var m := MaxOf(xs[1..]);
      assert forall x :: x in xs ==> x == xs[0] || x in xs[1..];
      if xs[0] >= m then xs[0] else m
  }

  /** `ids.length > 0 ? Math.max(...ids) + 1 : 1`: one more than the largest id,
      hence different from every id already present. */
  function NextId(ids: seq<int>): (r: int)
    ensures |ids| == 0 ==> r == 1
    ensures |ids| > 0 ==> r - 1 in ids
    ensures forall x :: x in ids ==> x < r
  {
    if |ids| == 0 then 1 else MaxOf(ids) + 1
  }

  /** The id allocated for a new element of `xs` exceeds every element's id. */
  lemma NextKeyAbove<T>(xs: seq<T>, key: T -> int)
    ensures forall j :: 0 <= j < |xs| ==> key(xs[j]) < NextId(Map(xs, key))
  {
    forall j | 0 <= j < |xs| ensures key(xs[j]) < NextId(Map(xs, key)) {
      assert Map(xs, key)[j] == key(xs[j]);
      assert key(xs[j]) in Map(xs, key);
    }
  }

  /** Appending an element under the allocated id keeps the keys distinct. */
  lemma AppendNextKeepsDistinct<T>(xs: seq<T>, key: T -> int, x: T)
    requires DistinctKeys(xs, key) && key(x) == NextId(Map(xs, key))
    ensures DistinctKeys(xs + [x], key)
  {
    NextKeyAbove(xs, key);
    var ys := xs + [x];
    forall i, j | 0 <= i < j < |ys| ensures key(ys[i]) != key(ys[j]) {
      if j < |xs| {
        assert ys[i] == xs[i] && ys[j] == xs[j];
      } else {
        assert ys[i] == xs[i] && ys[j] == x;
      }
    }
  }
}

/** String helpers: substring search (`includes`) and JavaScript's `trim`. Case
    folding (`toLowerCase`) is not modelled here: callers receive it as a function. */
module Text {

  /** `needle` occurs in `hay` starting at position `i`. */
  ghost predicate OccursAt(hay: string, needle: string, i: int) {
    0 <= i <= |hay| - |needle| && hay[i..i + |needle|] == needle
  }

  /** JavaScript `hay.includes(needle)`. */
  function Includes(hay: string, needle: string): (b: bool)
    ensures b <==> exists i :: OccursAt(hay, needle, i)
    decreases |hay|
  {
    if needle <= hay then
      assert OccursAt(hay, needle, 0);
      true
    else if |hay| == 0 then false
    else
      var b := Includes(hay[1..], needle);
      IncludesStep(hay, needle);
      b
  }

  lemma IncludesStep(hay: string, needle: string)
    requires |hay| > 0 && !(needle <= hay)
    ensures (exists i :: OccursAt(hay, needle, i)) <==> (exists i :: OccursAt(hay[1..], needle, i))
  {
    if i :| OccursAt(hay[1..], needle, i) {
      assert hay[i + 1..i + 1 + |needle|] == hay[1..][i..i + |needle|];
      assert OccursAt(hay, needle, i + 1);
    }
    if i :| OccursAt(hay, needle, i) {
      assert i != 0;
      assert hay[1..][i - 1..i - 1 + |needle|] == hay[i..i + |needle|];
      assert OccursAt(hay[1..], needle, i - 1);
    }
  }

  /** The characters JavaScript's `trim` removes: WhiteSpace and LineTerminator
      code points of ECMAScript. */
  predicate IsWhitespace(c: char) {
    ('\t' <= c <= '\r') || c == ' ' || c == '\U{00A0}' || c == '\U{1680}' ||
    ('\U{2000}' <= c <= '\U{200A}') || c == '\U{2028}' || c == '\U{2029}' ||
    c == '\U{202F}' || c == '\U{205F}' || c == '\U{3000}' || c == '\U{FEFF}'
  }

  function TrimStart(s: string): (r: string)
    ensures |r| <= |s| && r == s[|s| - |r|..]
    ensures forall i :: 0 <= i < |s| - |r| ==> IsWhitespace(s[i])
    ensures |r| > 0 ==> !IsWhitespace(r[0])
  {
    if |s| > 0 && IsWhitespace(s[0]) then TrimStart(s[1..]) else s
  }

  function TrimEnd(s: string): (r: string)
    ensures |r| <= |s| && r == s[..|r|]
    ensures forall i :: |r| <= i < |s| ==> IsWhitespace(s[i])
    ensures |r| > 0 ==> !IsWhitespace(r[|r| - 1])
  {
    if |s| > 0 && IsWhitespace(s[|s| - 1]) then TrimEnd(s[..|s| - 1]) else s
  }

  /** `r` is the part of `s` starting at `i`, and everything of `s` around it is
      whitespace. */
  ghost predicate CutFrom(s: string, r: string, i: int) {
    0 <= i <= |s| - |r| && r == s[i..i + |r|] &&
    (forall k :: 0 <= k < i ==> IsWhitespace(s[k])) &&
    (forall k :: i + |r| <= k < |s| ==> IsWhitespace(s[k]))
  }

  /** JavaScript `trim`: `s` without its leading and trailing whitespace. */
  function Trim(s: string): (r: string)
    ensures exists i :: CutFrom(s, r, i)
    ensures |r| > 0 ==> !IsWhitespace(r[0]) && !IsWhitespace(r[|r| - 1])
  {
    var a := TrimStart(s);
    var r := TrimEnd(a);
    CutOfTrims(s, a, r);
    r
  }

  /** Text made only of whitespace trims to the empty string. */
  lemma TrimBlank(s: string)
    requires forall i :: 0 <= i < |s| ==> IsWhitespace(s[i])
    ensures Trim(s) == ""
  {
    var r := Trim(s);
    var i :| CutFrom(s, r, i);
    CutOfBlank(s, r, i);
  }

  lemma CutOfBlank(s: string, r: string, i: int)
    requires CutFrom(s, r, i) && forall k :: 0 <= k < |s| ==> IsWhitespace(s[k])
    ensures forall k :: 0 <= k < |r| ==> IsWhitespace(r[k])
  {
    forall k | 0 <= k < |r| ensures IsWhitespace(r[k]) {
      assert r[k] == s[i + k];
    }
  }

  /** Whitespace cut from the front and then from the back leaves a cut. */
  lemma CutOfTrims(s: string, a: string, r: string)
    requires |a| <= |s| && a == s[|s| - |a|..] && forall i :: 0 <= i < |s| - |a| ==> IsWhitespace(s[i])
    requires |r| <= |a| && r == a[..|r|] && forall i :: |r| <= i < |a| ==> IsWhitespace(a[i])
    ensures CutFrom(s, r, |s| - |a|)
  {
    var i := |s| - |a|;
    assert r == s[i..i + |r|];
    forall k | i + |r| <= k < |s| ensures IsWhitespace(s[k]) {
      assert s[k] == a[k - i];
    }
  }
}
