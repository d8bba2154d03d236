/**
 * `Array.prototype.sort` with a comparator. Since ECMAScript 2019 the sort
 * must be stable, so for a consistent comparator its result is the unique
 * stable ordering; `Sort` below is that ordering, written as insertion sort,
 * and `InsertionSort` computes it in place on an array.
 */
module StableSort {

  /**
   * Inserts `x` into `sorted` after every element that does not compare
   * greater than `x`, scanning from the back as an in-place insertion does.
   */
  function Insert<T>(sorted: seq<T>, x: T, cmp: (T, T) -> int): (r: seq<T>)
    ensures |r| == |sorted| + 1
    decreases |sorted|
  {
    if |sorted| == 0 || cmp(sorted[|sorted| - 1], x) <= 0 then sorted + [x]
    else
      var init := sorted[..|sorted| - 1];
      Insert(init, x, cmp) + [sorted[|sorted| - 1]]
  }

  /** Insertion adds exactly `x` to the elements. */
  lemma {:induction false} InsertPerm<T>(sorted: seq<T>, x: T, cmp: (T, T) -> int)
    ensures multiset(Insert(sorted, x, cmp)) == multiset(sorted) + multiset{x}
    decreases |sorted|
  {
    if |sorted| > 0 && cmp(sorted[|sorted| - 1], x) > 0 {
      var init := sorted[..|sorted| - 1];
      LastSplit(sorted);
      InsertPerm(init, x, cmp);
    }
  }

  lemma LastSplit<T>(s: seq<T>)
    requires |s| > 0
    ensures s == s[..|s| - 1] + [s[|s| - 1]]
  {
  }

  /** The order `a.sort(cmp)` leaves a copy of `s` in. */
  function Sort<T>(s: seq<T>, cmp: (T, T) -> int): (r: seq<T>)
    ensures |r| == |s|
    ensures multiset(r) == multiset(s)
    decreases |s|
  {
    if |s| == 0 then []
    else
      LastSplit(s);
      InsertPerm(Sort(s[..|s| - 1], cmp), s[|s| - 1], cmp);
      Insert(Sort(s[..|s| - 1], cmp), s[|s| - 1], cmp)
  }

  /**
   * `cmp` is consistent on `dom`: a positive answer for (a, b) means a
   * negative one for (b, a), and "not greater" is transitive.
   */
  ghost predicate ConsistentOn<T(!new)>(cmp: (T, T) -> int, dom: T -> bool)
  {
    && (forall a, b :: dom(a) && dom(b) && cmp(a, b) > 0 ==> cmp(b, a) < 0)
    && (forall a, b, c :: dom(a) && dom(b) && dom(c) && cmp(a, b) <= 0 && cmp(b, c) <= 0 ==> cmp(a, c) <= 0)
  }

  ghost predicate Within<T>(s: seq<T>, dom: T -> bool)
  {
    forall x :: x in s ==> dom(x)
  }

  /** No element compares greater than a later one. */
  ghost predicate Sorted<T>(s: seq<T>, cmp: (T, T) -> int)
  {
    forall i, j :: 0 <= i < j < |s| ==> cmp(s[i], s[j]) <= 0
  }

  /** Appending an element that no element compares greater than keeps the order. */
  lemma AppendSorted<T>(t: seq<T>, x: T, cmp: (T, T) -> int)
    requires Sorted(t, cmp)
    requires forall i :: 0 <= i < |t| ==> cmp(t[i], x) <= 0
    ensures Sorted(t + [x], cmp)
  {
    var r := t + [x];
    forall i, j | 0 <= i < j < |r| ensures cmp(r[i], r[j]) <= 0 {
      if j < |t| { assert r[i] == t[i] && r[j] == t[j]; } else { assert r[i] == t[i]; }
    }
  }

  /** Every element of an ordered sequence compares not greater than one that its last element does not exceed. */
  lemma BelowLast<T(!new)>(t: seq<T>, x: T, cmp: (T, T) -> int, dom: T -> bool)
    requires ConsistentOn(cmp, dom) && Within(t, dom) && dom(x)
    requires Sorted(t, cmp) && |t| > 0 && cmp(t[|t| - 1], x) <= 0
    ensures forall i :: 0 <= i < |t| ==> cmp(t[i], x) <= 0
  {
    forall i | 0 <= i < |t| ensures cmp(t[i], x) <= 0 {
      if i < |t| - 1 {
        assert cmp(t[i], t[|t| - 1]) <= 0;
        assert dom(t[i]) && dom(t[|t| - 1]);
      }
    }
  }

  /** Every element of `Insert(init, x)` compares not greater than `last`, given `x` and all of `init` do not. */
  lemma InsertBelow<T>(init: seq<T>, x: T, last: T, cmp: (T, T) -> int)
    requires forall i :: 0 <= i < |init| ==> cmp(init[i], last) <= 0
    requires cmp(x, last) <= 0
    ensures forall i :: 0 <= i < |Insert(init, x, cmp)| ==> cmp(Insert(init, x, cmp)[i], last) <= 0
  {
    var ins := Insert(init, x, cmp);
    InsertPerm(init, x, cmp);
    forall i | 0 <= i < |ins| ensures cmp(ins[i], last) <= 0 {
      assert ins[i] in multiset(ins);
      if ins[i] != x {
        assert ins[i] in multiset(init);
        var k :| 0 <= k < |init| && init[k] == ins[i];
      }
    }
  }

  lemma {:induction false} InsertSorted<T(!new)>(t: seq<T>, x: T, cmp: (T, T) -> int, dom: T -> bool)
    requires ConsistentOn(cmp, dom) && Within(t, dom) && dom(x)
    requires Sorted(t, cmp)
    ensures Sorted(Insert(t, x, cmp), cmp)
    decreases |t|
  {
    if |t| == 0 || cmp(t[|t| - 1], x) <= 0 {
      if |t| > 0 {
        BelowLast(t, x, cmp, dom);
      }
      AppendSorted(t, x, cmp);
    } else {
      var init := t[..|t| - 1];
      var last := t[|t| - 1];
      assert Within(init, dom) by {
        forall y | y in init ensures dom(y) { assert y in t; }
      }
      assert Sorted(init, cmp) by {
        forall i, j | 0 <= i < j < |init| ensures cmp(init[i], init[j]) <= 0 {
          assert init[i] == t[i] && init[j] == t[j];
        }
      }
      InsertSorted(init, x, cmp, dom);
      assert cmp(x, last) <= 0;
      assert forall i :: 0 <= i < |init| ==> cmp(init[i], last) <= 0 by {
        forall i | 0 <= i < |init| ensures cmp(init[i], last) <= 0 {
          assert init[i] == t[i];
        }
      }
      InsertBelow(init, x, last, cmp);
      AppendSorted(Insert(init, x, cmp), last, cmp);
    }
  }

  /** For a consistent comparator the result is ordered by it. */
  lemma {:induction false} SortSorted<T(!new)>(s: seq<T>, cmp: (T, T) -> int, dom: T -> bool)
    requires ConsistentOn(cmp, dom) && Within(s, dom)
    ensures Sorted(Sort(s, cmp), cmp)
    decreases |s|
  {
    if |s| > 0 {
      var init := s[..|s| - 1];
      assert forall x :: x in init ==> x in s;
      SortSorted(init, cmp, dom);
      var sorted := Sort(init, cmp);
      assert forall x :: x in sorted ==> x in multiset(init);
      InsertSorted(sorted, s[|s| - 1], cmp, dom);
    }
  }

  /** An already ordered sequence is left exactly as it is. */
  lemma {:induction false} SortOfSorted<T>(s: seq<T>, cmp: (T, T) -> int)
    requires Sorted(s, cmp)
    ensures Sort(s, cmp) == s
    decreases |s|
  {
    if |s| > 0 {
      var init := s[..|s| - 1];
      var last := s[|s| - 1];
      assert Sorted(init, cmp) by {
        forall i, j | 0 <= i < j < |init| ensures cmp(init[i], init[j]) <= 0 {
          assert init[i] == s[i] && init[j] == s[j];
        }
      }
      SortOfSorted(init, cmp);
      LastSplit(s);
      if |init| > 0 {
        assert init[|init| - 1] == s[|s| - 2];
        assert cmp(s[|s| - 2], s[|s| - 1]) <= 0;
      }
    }
  }

  /** Sorting a second time with the same comparator changes nothing. */
  lemma SortIdempotent<T(!new)>(s: seq<T>, cmp: (T, T) -> int, dom: T -> bool)
    requires ConsistentOn(cmp, dom) && Within(s, dom)
    ensures Sort(Sort(s, cmp), cmp) == Sort(s, cmp)
  {
    SortSorted(s, cmp, dom);
    SortOfSorted(Sort(s, cmp), cmp);
  }

  /** `cmp` ranks `a` and `p` alike: neither compares greater than the other. */
  ghost predicate Alike<T>(a: T, p: T, cmp: (T, T) -> int)
  {
    cmp(a, p) <= 0 && cmp(p, a) <= 0
  }

  /** `[a]` when `a` ranks alike with `p`, and nothing otherwise. */
  ghost function AlikeOne<T>(a: T, p: T, cmp: (T, T) -> int): seq<T>
  {
    if Alike(a, p, cmp) then [a] else []
  }

  /** The elements of `s` that rank alike with `p`, in the order they have in `s`. */
  ghost function AlikeIn<T>(s: seq<T>, p: T, cmp: (T, T) -> int): seq<T>
    decreases |s|
  {
    if |s| == 0 then [] else AlikeIn(s[..|s| - 1], p, cmp) + AlikeOne(s[|s| - 1], p, cmp)
  }

  lemma AlikeInSnoc<T>(a: seq<T>, x: T, p: T, cmp: (T, T) -> int)
    ensures AlikeIn(a + [x], p, cmp) == AlikeIn(a, p, cmp) + AlikeOne(x, p, cmp)
  {
    assert (a + [x])[..|a|] == a;
  }

  /** Two elements of which the first compares greater cannot both rank alike with `p`. */
  lemma NotBothAlike<T(!new)>(a: T, x: T, p: T, cmp: (T, T) -> int, dom: T -> bool)
    requires ConsistentOn(cmp, dom) && dom(a) && dom(x) && dom(p)
    requires cmp(a, x) > 0
    ensures AlikeOne(x, p, cmp) + AlikeOne(a, p, cmp) == AlikeOne(a, p, cmp) + AlikeOne(x, p, cmp)
  {
    if Alike(a, p, cmp) && Alike(x, p, cmp) {
      assert false;
    }
  }

  /**
   * Inserting `x` adds it to the elements alike with `p` after all of
   * them: `x` only passes elements that compare greater than it, and for a
   * consistent comparator those cannot rank alike with `p` when `x` does.
   */
  lemma {:induction false} InsertAlike<T(!new)>(t: seq<T>, x: T, p: T, cmp: (T, T) -> int, dom: T -> bool)
    requires ConsistentOn(cmp, dom) && Within(t, dom) && dom(x) && dom(p)
    ensures AlikeIn(Insert(t, x, cmp), p, cmp) == AlikeIn(t, p, cmp) + AlikeOne(x, p, cmp)
    decreases |t|
  {
    if |t| == 0 || cmp(t[|t| - 1], x) <= 0 {
      AlikeInSnoc(t, x, p, cmp);
    } else {
      var init := t[..|t| - 1];
      var last := t[|t| - 1];
      assert Within(init, dom) by {
        assert forall y :: y in init ==> y in t;
      }
      assert dom(last) by {
        assert last in t;
      }
      InsertAlike(init, x, p, cmp, dom);
      AlikeInSnoc(Insert(init, x, cmp), last, p, cmp);
      NotBothAlike(last, x, p, cmp, dom);
      LastSplit(t);
      AlikeInSnoc(init, last, p, cmp);
    }
  }

  /**
   * Stability: for a consistent comparator the elements that rank alike
   * with any `p` keep their relative order.
   */
  lemma {:induction false} SortStable<T(!new)>(s: seq<T>, p: T, cmp: (T, T) -> int, dom: T -> bool)
    requires ConsistentOn(cmp, dom) && Within(s, dom) && dom(p)
    ensures AlikeIn(Sort(s, cmp), p, cmp) == AlikeIn(s, p, cmp)
    decreases |s|
  {
    if |s| > 0 {
      var init := s[..|s| - 1];
      var last := s[|s| - 1];
      assert forall y :: y in init ==> y in s;
      SortStable(init, p, cmp, dom);
      var sorted := Sort(init, cmp);
      assert forall y :: y in sorted ==> y in multiset(init);
      InsertAlike(sorted, last, p, cmp, dom);
    }
  }

  /** One shift of the insertion loop: `x` passes the element before position `j`. */
  lemma InsertShift<T>(A: seq<T>, i: nat, j: nat, x: T, cmp: (T, T) -> int)
    requires 0 < j <= i <= |A| && cmp(A[j - 1], x) > 0
    ensures Insert(A[..j], x, cmp) + A[j..i] == Insert(A[..j - 1], x, cmp) + A[j - 1..i]
  {
    assert A[..j][..j - 1] == A[..j - 1];
    assert A[j - 1..i] == [A[j - 1]] + A[j..i];
  }

  /** Where the insertion loop stops, `x` goes right after the prefix. */
  lemma InsertStop<T>(done: seq<T>, j: nat, x: T, cmp: (T, T) -> int)
    requires j <= |done| && (j == 0 || cmp(done[j - 1], x) <= 0)
    ensures Insert(done[..j], x, cmp) == done[..j] + [x]
  {
  }

  /**
   * Moves `a[i]` left past every element of the ordered prefix `a[..i]`
   * that compares greater than it.
   */
  method InsertAt<T>(a: array<T>, i: nat, cmp: (T, T) -> int)
    requires i < a.Length
    modifies a
    ensures a[..i + 1] == Insert(old(a[..i]), old(a[i]), cmp)
    ensures a[i + 1..] == old(a[i + 1..])
  {
    ghost var A := a[..];
    var x := a[i];
    var j := i;
    while j > 0 && cmp(a[j - 1], x) > 0
      invariant 0 <= j <= i
      invariant forall k :: 0 <= k < j ==> a[k] == A[k]
      invariant forall k :: j < k <= i ==> a[k] == A[k - 1]
      invariant forall k :: i < k < a.Length ==> a[k] == A[k]
      invariant Insert(A[..i], x, cmp) == Insert(A[..j], x, cmp) + A[j..i]
    {
      InsertShift(A, i, j, x, cmp);
      a[j] := a[j - 1];
      j := j - 1;
    }
    a[j] := x;
    InsertStop(A, j, x, cmp);
    ghost var s := a[..];
    Reassemble(A, s, i, j);
    assert s[..i + 1] == Insert(A[..i], x, cmp);
  }

  /** The array contents after the insertion, as sequences. */
  lemma Reassemble<T>(A: seq<T>, s: seq<T>, i: nat, j: nat)
    requires j <= i < |A| == |s|
    requires forall k :: 0 <= k < j ==> s[k] == A[k]
    requires forall k :: j < k <= i ==> s[k] == A[k - 1]
    requires forall k :: i < k < |s| ==> s[k] == A[k]
    ensures s[..i + 1] == A[..j] + [s[j]] + A[j..i]
    ensures s[i + 1..] == A[i + 1..]
  {
    var t := A[..j] + [s[j]] + A[j..i];
    assert |t| == i + 1;
    forall k | 0 <= k <= i ensures s[k] == t[k] {
      if k < j { assert t[k] == A[k]; } else if k > j { assert t[k] == A[k - 1]; }
    }
  }

  /** Sorts `a` in place, as `a.sort(cmp)` does. */
  method InsertionSort<T>(a: array<T>, cmp: (T, T) -> int)
    modifies a
    ensures a[..] == Sort(old(a[..]), cmp)
  {
    ghost var input := a[..];
    var i := 0;
    while i < a.Length
      invariant 0 <= i <= a.Length
      invariant a[..i] == Sort(input[..i], cmp)
      invariant a[i..] == input[i..]
    {
      ghost var before := a[..];
      StepFacts(input, before, i);
      InsertAt(a, i, cmp);
      SortStep(input, i, cmp);
      i := i + 1;
    }
    assert input[..a.Length] == input;
  }

  /** The prefix sort grows by one insertion per element. */
  lemma SortStep<T>(s: seq<T>, i: nat, cmp: (T, T) -> int)
    requires i < |s|
    ensures Sort(s[..i + 1], cmp) == Insert(Sort(s[..i], cmp), s[i], cmp)
  {
    assert s[..i + 1][..i] == s[..i];
  }

  /** Before step `i`, the untouched suffix still starts with the input's `i`-th element. */
  lemma StepFacts<T>(input: seq<T>, before: seq<T>, i: nat)
    requires i < |before| == |input| && before[i..] == input[i..]
    ensures before[i] == input[i] && before[i + 1..] == input[i + 1..]
  {
    assert before[i] == before[i..][0];
    assert before[i + 1..] == before[i..][1..];
  }
}
