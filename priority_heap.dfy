/**
 * The array heap behind java.util.concurrent.PriorityBlockingQueue, which
 * model/Intersection and the prototype's Street use as their waiting
 * queues. The queue keeps its elements in an array read as a binary tree
 * (the parent of slot i is slot (i - 1) / 2); offer puts the new element in
 * the first free slot and sifts it up, poll takes slot 0, moves the last
 * element into the hole and sifts it down. Both sift loops compare with
 * the element's compareTo, given here as the function cmp.
 *
 * Which element poll returns depends on cmp being a valid comparator (the
 * Comparable contract: antisymmetric in sign and transitive). Under a
 * valid comparator the array stays a heap and poll returns a least element;
 * whatever cmp is, offer and poll only permute the queued elements.
 */
module PriorityHeap {

  function Parent(i: nat): nat
    requires i > 0
  {
    (i - 1) / 2
  }

  /** The Comparable contract: sgn(cmp(x, y)) == -sgn(cmp(y, x)), and "at most" is transitive. */
  ghost predicate ValidComparator<T(!new)>(cmp: (T, T) -> int)
  {
    (forall x: T, y: T :: cmp(x, y) < 0 <==> cmp(y, x) > 0)
    && (forall x: T, y: T, z: T :: cmp(x, y) <= 0 && cmp(y, z) <= 0 ==> cmp(x, z) <= 0)
  }

  /** Every element is at least its parent. */
  ghost predicate IsHeap<T>(a: seq<T>, cmp: (T, T) -> int)
  {
    forall i {:trigger cmp(a[Parent(i)], a[i])} | 0 < i < |a| :: cmp(a[Parent(i)], a[i]) <= 0
  }

  /**
   * siftUpComparable: slot k is the hole where key would go; parents
   * greater than key move down into the hole until key fits.
   */
  function SiftUp<T>(a: seq<T>, k: nat, key: T, cmp: (T, T) -> int): (r: seq<T>)
    requires k < |a|
    ensures |r| == |a|
    ensures multiset(r) == multiset(a[k := key])
    decreases k
  {
    if k == 0 then a[0 := key]
    else
      var p := Parent(k);
      if cmp(key, a[p]) >= 0 then a[k := key]
      else
        var a' := a[k := a[p]];
        assert multiset(a'[p := key]) == multiset(a[k := key]);
        SiftUp(a', p, key, cmp)
  }

  /**
   * siftDownComparable over the whole sequence: slot k is the hole where
   * key would go; the lesser child (the left one on a tie) moves up into
   * the hole while it is less than key.
   */
  function SiftDown<T>(a: seq<T>, k: nat, key: T, cmp: (T, T) -> int): (r: seq<T>)
    requires k < |a|
    ensures |r| == |a|
    ensures multiset(r) == multiset(a[k := key])
    decreases |a| - k
  {
    var child := 2 * k + 1;
    if child >= |a| then a[k := key]
    else
      var c := LesserChild(a, k, cmp);
      if cmp(key, a[c]) <= 0 then a[k := key]
      else
        var a' := a[k := a[c]];
        assert multiset(a'[c := key]) == multiset(a[k := key]);
        SiftDown(a', c, key, cmp)
  }

  /** offer: the element joins the queue; nothing else enters or leaves. */
  function Offer<T>(a: seq<T>, x: T, cmp: (T, T) -> int): (r: seq<T>)
    ensures |r| == |a| + 1
    ensures multiset(r) == multiset(a) + multiset{x}
  {
    assert (a + [x])[|a| := x] == a + [x];
    SiftUp(a + [x], |a|, x, cmp)
  }

  /** poll on a non-empty queue: the element in slot 0, and the queue without it. */
  function Poll<T>(a: seq<T>, cmp: (T, T) -> int): (r: (T, seq<T>))
    requires |a| > 0
    ensures r.0 == a[0]
    ensures |r.1| == |a| - 1
    ensures multiset(r.1) + multiset{r.0} == multiset(a)
  {
    var n := |a| - 1;
    if n == 0 then (a[0], [])
    else
      assert a == [a[0]] + a[1..n] + [a[n]];
      assert a[..n][0 := a[n]] == [a[n]] + a[1..n];
      (a[0], SiftDown(a[..n], 0, a[n], cmp))
  }

  // ---------------------------------------------------------------------
  // The heap invariant under a valid comparator
  // ---------------------------------------------------------------------

  /** What holds while key waits to be placed in the hole at k on the way up. */
  ghost predicate SiftUpReady<T>(a: seq<T>, k: nat, key: T, cmp: (T, T) -> int)
    requires k < |a|
  {
    (forall i | 0 < i < |a| && i != k :: cmp(a[Parent(i)], a[i]) <= 0)
    && (forall i | 0 < i < |a| && Parent(i) == k :: cmp(key, a[i]) <= 0)
    && (k > 0 ==> forall i | 0 < i < |a| && Parent(i) == k :: cmp(a[Parent(k)], a[i]) <= 0)
  }

  /** One step up, away from the new hole: every other slot still sits below its parent. */
  lemma SiftUpStepElsewhere<T>(a: seq<T>, k: nat, key: T, cmp: (T, T) -> int)
    requires 0 < k < |a| && SiftUpReady(a, k, key, cmp)
    requires cmp(a[Parent(k)], a[Parent(k)]) <= 0
    ensures var a' := a[k := a[Parent(k)]];
      forall i | 0 < i < |a'| && i != Parent(k) :: cmp(a'[Parent(i)], a'[i]) <= 0
  {
  }

  /**
   * One step up: the parent moves down into the hole, and the hole is now
   * at the parent's slot. What the comparator's laws contribute is given:
   * the parent is at most itself, and key and the grandparent are at most
   * the hole's sibling.
   */
  lemma SiftUpStep<T>(a: seq<T>, k: nat, key: T, cmp: (T, T) -> int)
    requires 0 < k < |a| && SiftUpReady(a, k, key, cmp)
    requires cmp(key, a[Parent(k)]) < 0 && cmp(a[Parent(k)], a[Parent(k)]) <= 0
    requires forall i | 0 < i < |a| && i != k && Parent(i) == Parent(k) ::
      cmp(key, a[i]) <= 0 && (Parent(k) > 0 ==> cmp(a[Parent(Parent(k))], a[i]) <= 0)
    ensures SiftUpReady(a[k := a[Parent(k)]], Parent(k), key, cmp)
  {
    var p := Parent(k);
    var a' := a[k := a[p]];
    SiftUpStepElsewhere(a, k, key, cmp);
    if p > 0 {
      assert cmp(a[Parent(p)], a[p]) <= 0;
    }
  }

  lemma {:induction false} SiftUpKeepsHeap<T(!new)>(a: seq<T>, k: nat, key: T, cmp: (T, T) -> int)
    requires ValidComparator(cmp) && k < |a| && SiftUpReady(a, k, key, cmp)
    ensures IsHeap(SiftUp(a, k, key, cmp), cmp)
    decreases k
  {
    if k > 0 && cmp(key, a[Parent(k)]) < 0 {
      var p := Parent(k);
      assert cmp(a[p], a[p]) <= 0;
      forall i | 0 < i < |a| && i != k && Parent(i) == p
        ensures cmp(key, a[i]) <= 0 && (p > 0 ==> cmp(a[Parent(p)], a[i]) <= 0)
      {
        assert cmp(a[p], a[i]) <= 0;
        if p > 0 {
          assert cmp(a[Parent(p)], a[p]) <= 0;
        }
      }
      SiftUpStep(a, k, key, cmp);
      SiftUpKeepsHeap(a[k := a[p]], p, key, cmp);
    }
  }

  /** What holds while key waits to be placed in the hole at k on the way down. */
  ghost predicate SiftDownReady<T>(a: seq<T>, k: nat, key: T, cmp: (T, T) -> int)
    requires k < |a|
  {
    (forall i | 0 < i < |a| && Parent(i) != k :: cmp(a[Parent(i)], a[i]) <= 0)
    && (k > 0 ==> cmp(a[Parent(k)], key) <= 0)
    && (k > 0 ==> forall i | 0 < i < |a| && Parent(i) == k :: cmp(a[Parent(k)], a[i]) <= 0)
  }

  /** The child siftDown picks (the right one only when the left is greater) is at most its sibling. */
  function LesserChild<T>(a: seq<T>, k: nat, cmp: (T, T) -> int): (c: nat)
    requires 2 * k + 1 < |a|
    ensures c == 2 * k + 1 || (c == 2 * k + 2 && c < |a|)
  {
    var child := 2 * k + 1;
    if child + 1 < |a| && cmp(a[child], a[child + 1]) > 0 then child + 1 else child
  }

  lemma LesserChildIsLeast<T(!new)>(a: seq<T>, k: nat, cmp: (T, T) -> int)
    requires ValidComparator(cmp) && 2 * k + 1 < |a|
    ensures forall i | 0 < i < |a| && Parent(i) == k :: cmp(a[LesserChild(a, k, cmp)], a[i]) <= 0
  {
    var c := LesserChild(a, k, cmp);
    forall i | 0 < i < |a| && Parent(i) == k
      ensures cmp(a[c], a[i]) <= 0
    {
      assert i == 2 * k + 1 || i == 2 * k + 2;
      assert cmp(a[i], a[i]) <= 0;
    }
  }

  /** Moving the lesser child up into the hole keeps the sift-down condition, one level lower. */
  lemma SiftDownStep<T(!new)>(a: seq<T>, k: nat, key: T, cmp: (T, T) -> int)
    requires ValidComparator(cmp) && 2 * k + 1 < |a| && SiftDownReady(a, k, key, cmp)
    requires cmp(key, a[LesserChild(a, k, cmp)]) > 0
    ensures SiftDownReady(a[k := a[LesserChild(a, k, cmp)]], LesserChild(a, k, cmp), key, cmp)
  {
    var c := LesserChild(a, k, cmp);
    var a' := a[k := a[c]];
    LesserChildIsLeast(a, k, cmp);
    assert Parent(c) == k;
    forall i | 0 < i < |a'| && Parent(i) != c
      ensures cmp(a'[Parent(i)], a'[i]) <= 0
    {
      if Parent(i) == k {
        assert cmp(a[c], a[i]) <= 0;
      } else if i == k {
        assert cmp(a[Parent(k)], a[c]) <= 0;
      }
    }
    assert cmp(a'[Parent(c)], key) <= 0;
  }

  /** Placing key in the hole when it is at most the lesser child (or there is none) completes a heap. */
  lemma SiftDownStop<T(!new)>(a: seq<T>, k: nat, key: T, cmp: (T, T) -> int)
    requires ValidComparator(cmp) && k < |a| && SiftDownReady(a, k, key, cmp)
    requires 2 * k + 1 < |a| ==> cmp(key, a[LesserChild(a, k, cmp)]) <= 0
    ensures IsHeap(a[k := key], cmp)
  {
    if 2 * k + 1 < |a| {
      LesserChildIsLeast(a, k, cmp);
      var c := LesserChild(a, k, cmp);
      forall i | 0 < i < |a| && Parent(i) == k
        ensures cmp(key, a[i]) <= 0
      {
        assert cmp(a[c], a[i]) <= 0;
      }
    }
    var r := a[k := key];
    forall i | 0 < i < |r|
      ensures cmp(r[Parent(i)], r[i]) <= 0
    {
      if Parent(i) != k && i != k {
        assert r[Parent(i)] == a[Parent(i)] && r[i] == a[i];
      }
    }
  }

  lemma {:induction false} SiftDownKeepsHeap<T(!new)>(a: seq<T>, k: nat, key: T, cmp: (T, T) -> int)
    requires ValidComparator(cmp) && k < |a| && SiftDownReady(a, k, key, cmp)
    ensures IsHeap(SiftDown(a, k, key, cmp), cmp)
    decreases |a| - k
  {
    if 2 * k + 1 < |a| && cmp(key, a[LesserChild(a, k, cmp)]) > 0 {
      SiftDownStep(a, k, key, cmp);
      SiftDownKeepsHeap(a[k := a[LesserChild(a, k, cmp)]], LesserChild(a, k, cmp), key, cmp);
    } else {
      SiftDownStop(a, k, key, cmp);
    }
  }

  /** offer keeps the array a heap. */
  lemma OfferKeepsHeap<T(!new)>(a: seq<T>, x: T, cmp: (T, T) -> int)
    requires ValidComparator(cmp) && IsHeap(a, cmp)
    ensures IsHeap(Offer(a, x, cmp), cmp)
  {
    var b := a + [x];
    forall i | 0 < i < |b| && i != |a|
      ensures cmp(b[Parent(i)], b[i]) <= 0
    {
      assert b[i] == a[i] && b[Parent(i)] == a[Parent(i)];
    }
    SiftUpKeepsHeap(b, |a|, x, cmp);
  }

  /** poll keeps the array a heap. */
  lemma PollKeepsHeap<T(!new)>(a: seq<T>, cmp: (T, T) -> int)
    requires ValidComparator(cmp) && IsHeap(a, cmp) && |a| > 0
    ensures IsHeap(Poll(a, cmp).1, cmp)
  {
    var n := |a| - 1;
    if n > 0 {
      SiftDownKeepsHeap(a[..n], 0, a[n], cmp);
    }
  }

  /** In a heap the element in slot 0 is at most every element. */
  lemma {:induction false} HeapRootIsLeast<T(!new)>(a: seq<T>, i: nat, cmp: (T, T) -> int)
    requires ValidComparator(cmp) && IsHeap(a, cmp) && i < |a|
    ensures cmp(a[0], a[i]) <= 0
  {
    if i == 0 {
      assert cmp(a[0], a[0]) <= 0;
    } else {
      HeapRootIsLeast(a, Parent(i), cmp);
    }
  }

  /** poll on a heap returns an element that is at most every queued element. */
  lemma PollReturnsLeast<T(!new)>(a: seq<T>, y: T, cmp: (T, T) -> int)
    requires ValidComparator(cmp) && IsHeap(a, cmp) && y in a
    ensures cmp(Poll(a, cmp).0, y) <= 0
  {
    var i :| 0 <= i < |a| && a[i] == y;
    HeapRootIsLeast(a, i, cmp);
  }
}
