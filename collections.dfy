/** Sequence utilities shared by the extractors and the senders: an Option type,
    duplicate-freedom, first occurrences, and the order-preserving de-duplication
    that Python's `list(dict.fromkeys(xs))` performs. */
module Collections {

  datatype Option<T> = None | Some(value: T)

  /** No element occurs twice. */
  predicate NoDup<T(==)>(xs: seq<T>) {
    forall i, j :: 0 <= i < j < |xs| ==> xs[i] != xs[j]
  }

  /** The index of the first occurrence of `x` in `xs`. */
  function FirstIndex<T(==)>(xs: seq<T>, x: T): (i: nat)
    requires x in xs
    ensures i < |xs| && xs[i] == x && x !in xs[..i]
  {
    if xs[0] == x then 0
    else
      var j := FirstIndex(xs[1..], x);
      assert xs[..j + 1] == [xs[0]] + xs[1..][..j];
      j + 1
  }

  lemma FirstIndexUnique<T>(xs: seq<T>, x: T, i: nat)
    requires i < |xs| && xs[i] == x && x !in xs[..i]
    ensures FirstIndex(xs, x) == i
  {
  }

  /** Every element of `r` occurs in `xs`, and `r` lists them in the order of their
      first occurrences in `xs`. */
  predicate InFirstOccurrenceOrder<T(==)>(r: seq<T>, xs: seq<T>) {
    (forall x :: x in r ==> x in xs) &&
    forall i, j :: 0 <= i < j < |r| ==> FirstIndex(xs, r[i]) < FirstIndex(xs, r[j])
  }

  lemma FirstIndexSnoc<T>(xs: seq<T>, y: T, x: T)
    requires x in xs
    ensures FirstIndex(xs + [y], x) == FirstIndex(xs, x)
  {
    var i := FirstIndex(xs, x);
    assert (xs + [y])[..i] == xs[..i];
    FirstIndexUnique(xs + [y], x, i);
  }

  lemma DedupStep<T(!new)>(xs: seq<T>, y: T, d: seq<T>, r: seq<T>)
    requires NoDup(d) && (forall x :: x in d <==> x in xs) && InFirstOccurrenceOrder(d, xs)
    requires r == if y in d then d else d + [y]
    ensures NoDup(r) && (forall x :: x in r <==> x in xs + [y]) && InFirstOccurrenceOrder(r, xs + [y])
  {
    var ys := xs + [y];
    forall x | x in d ensures FirstIndex(ys, x) == FirstIndex(xs, x) {
      FirstIndexSnoc(xs, y, x);
    }
    if y !in d {
      DedupStepNew(xs, y, d);
    }
  }

  /** A new last element joins the de-duplicated list at its end. */
  lemma DedupStepNew<T(!new)>(xs: seq<T>, y: T, d: seq<T>)
    requires NoDup(d) && (forall x :: x in d <==> x in xs) && InFirstOccurrenceOrder(d, xs) && y !in d
    requires forall x :: x in d ==> FirstIndex(xs + [y], x) == FirstIndex(xs, x)
    ensures NoDup(d + [y]) && InFirstOccurrenceOrder(d + [y], xs + [y])
  {
    var ys := xs + [y];
    var r := d + [y];
    assert ys[..|xs|] == xs;
    FirstIndexUnique(ys, y, |xs|);
    forall i, j | 0 <= i < j < |r| ensures FirstIndex(ys, r[i]) < FirstIndex(ys, r[j]) {
      assert r[i] == d[i] && d[i] in d;
      if j < |d| {
        assert r[j] == d[j] && d[j] in d;
      }
    }
  }

  /** `list(dict.fromkeys(xs))`: the distinct elements of `xs`, each once, in the
      order in which they first occur. */
  function Dedup<T(==,!new)>(xs: seq<T>): (r: seq<T>)
    ensures NoDup(r)
    ensures forall x :: x in r <==> x in xs
    ensures InFirstOccurrenceOrder(r, xs)
    decreases |xs|
  {
    if xs == [] then []
    else
      var init := xs[..|xs| - 1];
      var y := xs[|xs| - 1];
      var d := Dedup(init);
      var r := if y in d then d else d + [y];
      DedupStep(init, y, d, r);
      assert init + [y] == xs;
      r
  }

  /** De-duplicating a list that has no repeats gives it back unchanged. */
  lemma {:induction false} DedupOfNoDup<T(!new)>(xs: seq<T>)
    requires NoDup(xs)
    ensures Dedup(xs) == xs
    decreases |xs|
  {
    if xs != [] {
      var init := xs[..|xs| - 1];
      assert NoDup(init);
      DedupOfNoDup(init);
      assert xs[|xs| - 1] !in init;
    }
  }

  /** The three properties of Dedup determine its result: any list without repeats
      that has the same elements as `xs`, in first-occurrence order, is Dedup(xs). */
  lemma {:induction false} DedupUnique<T(!new)>(xs: seq<T>, r: seq<T>)
    requires NoDup(r) && (forall x :: x in r <==> x in xs) && InFirstOccurrenceOrder(r, xs)
    ensures r == Dedup(xs)
    decreases |xs|
  {
    var d := Dedup(xs);
    if r != [] {
      HeadsAgree(r, d, xs);
      var rest := Without(xs, r[0]);
      SuffixOrder(r, xs, rest);
      SuffixOrder(d, xs, rest);
      DedupUnique(rest, r[1..]);
      DedupUnique(rest, d[1..]);
      SameHeadAndTail(r, d);
    }
  }

  lemma SameHeadAndTail<T>(r: seq<T>, d: seq<T>)
    requires r != [] && d != [] && r[0] == d[0] && r[1..] == d[1..]
    ensures r == d
  {
    assert r == [r[0]] + r[1..] && d == [d[0]] + d[1..];
  }

  /** Two lists without repeats, each with the elements of `xs` in first-occurrence
      order, start with the same element. */
  lemma HeadsAgree<T>(r: seq<T>, d: seq<T>, xs: seq<T>)
    requires r != [] && (forall x :: x in r <==> x in xs) && InFirstOccurrenceOrder(r, xs)
    requires (forall x :: x in d <==> x in xs) && InFirstOccurrenceOrder(d, xs)
    ensures d != [] && r[0] == d[0]
  {
    assert r[0] in d;
    HeadComesFirst(r, xs, d[0]);
    HeadComesFirst(d, xs, r[0]);
    assert xs[FirstIndex(xs, r[0])] == r[0] && xs[FirstIndex(xs, d[0])] == d[0];
  }

  /** In a list in first-occurrence order, the head is the element that occurs first. */
  lemma HeadComesFirst<T>(r: seq<T>, xs: seq<T>, x: T)
    requires r != [] && (forall y :: y in r <==> y in xs) && InFirstOccurrenceOrder(r, xs)
    requires x in xs
    ensures FirstIndex(xs, r[0]) <= FirstIndex(xs, x)
  {
    var a :| 0 <= a < |r| && r[a] == x;
    assert a > 0 ==> FirstIndex(xs, r[0]) < FirstIndex(xs, r[a]);
  }

  /** `xs` with every occurrence of `y` removed. */
  function Without<T(==,!new)>(xs: seq<T>, y: T): (r: seq<T>)
    ensures forall x :: x in r <==> x in xs && x != y
    ensures |r| <= |xs| && (y in xs ==> |r| < |xs|)
    decreases |xs|
  {
    if xs == [] then []
    else if xs[|xs| - 1] == y then Without(xs[..|xs| - 1], y)
    else Without(xs[..|xs| - 1], y) + [xs[|xs| - 1]]
  }

  lemma {:induction false} WithoutOrder<T(!new)>(xs: seq<T>, y: T, a: T, b: T)
    requires a in xs && b in xs && a != y && b != y
    requires FirstIndex(xs, a) < FirstIndex(xs, b)
    ensures FirstIndex(Without(xs, y), a) < FirstIndex(Without(xs, y), b)
    decreases |xs|
  {
    var init := xs[..|xs| - 1];
    var last := xs[|xs| - 1];
    assert xs == init + [last];
    if b in init {
      assert a in init by {
        FirstIndexSnoc(init, last, b);
        assert xs[FirstIndex(xs, a)] == a;
        assert FirstIndex(xs, a) < |init|;
        assert init[FirstIndex(xs, a)] == a;
      }
      FirstIndexSnoc(init, last, a);
      FirstIndexSnoc(init, last, b);
      WithoutOrder(init, y, a, b);
      if last != y {
        FirstIndexSnoc(Without(init, y), last, a);
        FirstIndexSnoc(Without(init, y), last, b);
      }
    } else {
      assert b == last && last != y;
      var w := Without(init, y);
      assert a in init by {
        assert xs[FirstIndex(xs, a)] == a;
        assert FirstIndex(xs, a) < |init| by {
          assert xs[..|init|] == init;
          FirstIndexUnique(xs, b, |init|);
        }
        assert init[FirstIndex(xs, a)] == a;
      }
      assert a in w;
      FirstIndexSnoc(w, last, a);
      assert (w + [last])[..|w|] == w;
      FirstIndexUnique(w + [last], b, |w|);
    }
  }

  lemma SuffixOrder<T(!new)>(r: seq<T>, xs: seq<T>, rest: seq<T>)
    requires r != [] && NoDup(r) && (forall x :: x in r <==> x in xs) && InFirstOccurrenceOrder(r, xs)
    requires rest == Without(xs, r[0])
    ensures NoDup(r[1..]) && (forall x :: x in r[1..] <==> x in rest) && InFirstOccurrenceOrder(r[1..], rest)
  {
    var t := r[1..];
    forall x ensures x in t <==> x in rest {
      if x in t {
        var k :| 0 <= k < |t| && t[k] == x;
        assert r[k + 1] == x && r[0] != x;
      }
      if x in rest {
        assert x in r && x != r[0];
        var k :| 0 <= k < |r| && r[k] == x;
        assert t[k - 1] == x;
      }
    }
    forall i, j | 0 <= i < j < |t| ensures FirstIndex(rest, t[i]) < FirstIndex(rest, t[j]) {
      assert t[i] == r[i + 1] && t[j] == r[j + 1];
      assert r[0] != t[i] && r[0] != t[j];
      WithoutOrder(xs, r[0], t[i], t[j]);
    }
  }

  /** The elements of `xs` for which `keep` holds, in their original order (a list
      comprehension with a condition). */
  function Filter<T(!new)>(xs: seq<T>, keep: T -> bool): (r: seq<T>)
    ensures |r| <= |xs|
    ensures forall x :: x in r <==> x in xs && keep(x)
    ensures NoDup(xs) ==> NoDup(r)
    decreases |xs|
  {
    if xs == [] then []
    else
      var init := Filter(xs[..|xs| - 1], keep);
      var y := xs[|xs| - 1];
      assert xs == xs[..|xs| - 1] + [y];
      assert NoDup(xs) ==> NoDup(xs[..|xs| - 1]) && y !in xs[..|xs| - 1];
      if keep(y) then init + [y] else init
  }

  /** `Filter` keeps exactly the positions of `xs` whose element passes, in increasing
      order: entry `i` of the result is `xs[idx[i]]`. */
  lemma {:induction false} FilterPositions<T(!new)>(xs: seq<T>, keep: T -> bool) returns (idx: seq<nat>)
    ensures |idx| == |Filter(xs, keep)|
    ensures forall i :: 0 <= i < |idx| ==> idx[i] < |xs| && xs[idx[i]] == Filter(xs, keep)[i]
    ensures forall i, j :: 0 <= i < j < |idx| ==> idx[i] < idx[j]
    ensures forall k :: 0 <= k < |xs| ==> (keep(xs[k]) <==> k in idx)
    decreases |xs|
  {
    if xs == [] {
      idx := [];
    } else {
      var init := xs[..|xs| - 1];
      var y := xs[|xs| - 1];
      var pre := FilterPositions(init, keep);
      assert xs == init + [y];
      assert Filter(xs, keep) == Filter(init, keep) + (if keep(y) then [y] else []);
      idx := PositionsSnoc(init, y, keep, Filter(init, keep), pre);
    }
  }

  /** One step of `FilterPositions`: the positions of `init` extend to `init + [y]`. */
  lemma PositionsSnoc<T>(init: seq<T>, y: T, keep: T -> bool, f0: seq<T>, pre: seq<nat>) returns (idx: seq<nat>)
    requires |pre| == |f0|
    requires forall i :: 0 <= i < |pre| ==> pre[i] < |init| && init[pre[i]] == f0[i]
    requires forall i, j :: 0 <= i < j < |pre| ==> pre[i] < pre[j]
    requires forall k :: 0 <= k < |init| ==> (keep(init[k]) <==> k in pre)
    ensures var (xs, f) := (init + [y], f0 + (if keep(y) then [y] else []));
      && |idx| == |f|
      && (forall i :: 0 <= i < |idx| ==> idx[i] < |xs| && xs[idx[i]] == f[i])
      && (forall i, j :: 0 <= i < j < |idx| ==> idx[i] < idx[j])
      && (forall k :: 0 <= k < |xs| ==> (keep(xs[k]) <==> k in idx))
  {
    var xs := init + [y];
    idx := if keep(y) then pre + [|init|] else pre;
    forall k | 0 <= k < |xs| ensures keep(xs[k]) <==> k in idx {
      if k < |init| {
        assert xs[k] == init[k];
        assert k in idx <==> k in pre;
      } else {
        assert |init| !in pre;
      }
    }
  }

  /** Filtering distributes over concatenation: each part is filtered in place. */
  lemma {:induction false} FilterAppend<T(!new)>(xs: seq<T>, ys: seq<T>, keep: T -> bool)
    ensures Filter(xs + ys, keep) == Filter(xs, keep) + Filter(ys, keep)
    decreases |ys|
  {
    if ys == [] {
      assert xs + ys == xs;
    } else {
      var init := ys[..|ys| - 1];
      var y := ys[|ys| - 1];
      assert (xs + ys)[..|xs + ys| - 1] == xs + init;
      assert (xs + ys)[|xs + ys| - 1] == y;
      FilterAppend(xs, init, keep);
      var tail := if keep(y) then [y] else [];
      assert Filter(xs + ys, keep) == Filter(xs + init, keep) + tail;
      assert Filter(ys, keep) == Filter(init, keep) + tail;
    }
  }

  /** The elements `Filter` keeps, in the order `xs` lists them: a list in
      first-occurrence order of `zs` stays so after filtering. */
  lemma {:induction false} FilterKeepsOrder<T(!new)>(xs: seq<T>, zs: seq<T>, keep: T -> bool)
    requires InFirstOccurrenceOrder(xs, zs)
    ensures InFirstOccurrenceOrder(Filter(xs, keep), zs)
    decreases |xs|
  {
    if xs != [] {
      var init := xs[..|xs| - 1];
      var y := xs[|xs| - 1];
      assert InFirstOccurrenceOrder(init, zs) by {
        forall i, j | 0 <= i < j < |init| ensures FirstIndex(zs, init[i]) < FirstIndex(zs, init[j]) {
          assert init[i] == xs[i] && init[j] == xs[j];
        }
      }
      FilterKeepsOrder(init, zs, keep);
      var f := Filter(init, keep);
      if keep(y) {
        forall i | 0 <= i < |f| ensures FirstIndex(zs, f[i]) < FirstIndex(zs, y) {
          assert f[i] in f;
          var a :| 0 <= a < |init| && init[a] == f[i];
          assert xs[a] == f[i];
        }
        assert Filter(xs, keep) == f + [y];
        SnocOrder(f, y, zs);
      }
    }
  }

  /** Appending an element that first occurs after every element of `f` keeps the
      first-occurrence order. */
  lemma SnocOrder<T>(f: seq<T>, y: T, zs: seq<T>)
    requires InFirstOccurrenceOrder(f, zs) && y in zs
    requires forall i :: 0 <= i < |f| ==> FirstIndex(zs, f[i]) < FirstIndex(zs, y)
    ensures InFirstOccurrenceOrder(f + [y], zs)
  {
    var r := f + [y];
    forall i, j | 0 <= i < j < |r| ensures FirstIndex(zs, r[i]) < FirstIndex(zs, r[j]) {
      assert r[i] == f[i];
      if j < |f| {
        assert r[j] == f[j];
      }
    }
  }

  /** Concatenation of a list of lists. */
  function Flatten<T>(xss: seq<seq<T>>): seq<T>
    decreases |xss|
  {
    if xss == [] then [] else Flatten(xss[..|xss| - 1]) + xss[|xss| - 1]
  }

  lemma FlattenSnoc<T>(xss: seq<seq<T>>, xs: seq<T>)
    ensures Flatten(xss + [xs]) == Flatten(xss) + xs
  {
    assert (xss + [xs])[..|xss|] == xss;
  }

  /** Appends `x` unless it is already present (`if x not in xs: xs.append(x)`). */
  function AddNew<T(==)>(xs: seq<T>, x: T): (r: seq<T>)
    ensures x in r
    ensures x in xs ==> r == xs
    ensures x !in xs ==> r == xs + [x]
  {
    if x in xs then xs else xs + [x]
  }

  /** What was appended to `a` to reach `c` was appended either before or after the
      intermediate `b`. */
  /** Every element of a list without its last one, and that last one, is in it. */
  lemma InitIn<T>(xs: seq<T>)
    requires xs != []
    ensures xs[|xs| - 1] in xs && forall x :: x in xs[..|xs| - 1] ==> x in xs
  {
  }

  lemma AppendedSplit<T>(a: seq<T>, b: seq<T>, c: seq<T>, x: T)
    requires a <= b <= c && x in c[|a|..]
    ensures x in b[|a|..] || x in c[|b|..]
  {
    var t :| 0 <= t < |c| - |a| && c[|a|..][t] == x;
    if |a| + t < |b| {
      assert b[|a|..][t] == x;
    } else {
      assert c[|b|..][|a| + t - |b|] == x;
    }
  }

  function Min(a: int, b: int): (m: int)
    ensures m <= a && m <= b && (m == a || m == b)
  {
    if a <= b then a else b
  }

  /** Adding to a list that extends `a` keeps it extending `a`; what it contains
      beyond `a` is what was there before, or the new element if it was absent. */
  lemma AddNewExtends<T>(a: seq<T>, b: seq<T>, x: T)
    requires a <= b
    ensures a <= AddNew(b, x)
    ensures x !in b ==> x !in a
    ensures forall y :: y in AddNew(b, x)[|a|..] ==> y in b[|a|..] || (y == x && x !in b)
  {
    if x !in b {
      forall y | y in AddNew(b, x)[|a|..] ensures y in b[|a|..] || y == x {
        AppendedSplit(a, b, b + [x], y);
      }
    }
  }

  function Max(a: int, b: int): (m: int)
    ensures m >= a && m >= b && (m == a || m == b)
  {
    if a >= b then a else b
  }
}
