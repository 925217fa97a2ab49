/** The bottom-up mergesort `STAILQ_SORT` of common/_elftc.h. */
module ListSort {

  type Cmp<!T> = (T, T) -> int

  predicate Le<T>(cmp: Cmp<T>, a: T, b: T) { cmp(a, b) <= 0 }

  ghost predicate TotalPreorder<T(!new)>(cmp: Cmp<T>) {
    && (forall a, b :: Le(cmp, a, b) || Le(cmp, b, a))
    && (forall a, b, c :: Le(cmp, a, b) && Le(cmp, b, c) ==> Le(cmp, a, c))
  }

  ghost predicate Sorted<T>(cmp: Cmp<T>, s: seq<T>) {
    forall i, j :: 0 <= i < j < |s| ==> Le(cmp, s[i], s[j])
  }

  /** The elements the order does not tell from `x`, in list order. */
  function Equals<T>(cmp: Cmp<T>, s: seq<T>, x: T): seq<T> {
    if s == [] then []
    else (if Le(cmp, s[0], x) && Le(cmp, x, s[0]) then [s[0]] else []) + Equals(cmp, s[1..], x)
  }

  /** A rearrangement that keeps equal elements in order. */
  ghost predicate StablePermutation<T(!new)>(cmp: Cmp<T>, s: seq<T>, r: seq<T>) {
    multiset(r) == multiset(s) && forall x :: Equals(cmp, r, x) == Equals(cmp, s, x)
  }

  // ---------- merging two runs ----------

  function Merge<T>(cmp: Cmp<T>, a: seq<T>, b: seq<T>): (r: seq<T>)
    ensures |r| == |a| + |b|
    decreases |a| + |b|
  {
    if a == [] then b
    else if b == [] then a
    else if Le(cmp, a[0], b[0]) then [a[0]] + Merge(cmp, a[1..], b)
    else [b[0]] + Merge(cmp, a, b[1..])
  }

  /** One step of the merge: the second run's head goes first only when it is strictly smaller. */
  lemma MergeStep<T>(cmp: Cmp<T>, a: seq<T>, b: seq<T>)
    ensures a == [] ==> Merge(cmp, a, b) == b
    ensures b == [] ==> Merge(cmp, a, b) == a
    ensures a != [] && b != [] ==>
              Merge(cmp, a, b) == (if Le(cmp, a[0], b[0]) then [a[0]] + Merge(cmp, a[1..], b)
                                   else [b[0]] + Merge(cmp, a, b[1..]))
  {
  }

  lemma MultisetCons<T>(x: T, s: seq<T>)
    ensures multiset([x] + s) == multiset{x} + multiset(s)
  {
  }

  lemma HeadAndTail<T>(s: seq<T>)
    requires s != []
    ensures multiset(s) == multiset{s[0]} + multiset(s[1..])
  {
    assert s == [s[0]] + s[1..];
  }

  lemma {:induction false} MergeMultiset<T>(cmp: Cmp<T>, a: seq<T>, b: seq<T>)
    ensures multiset(Merge(cmp, a, b)) == multiset(a) + multiset(b)
    decreases |a| + |b|
  {
    hide Merge, Le;
    MergeStep(cmp, a, b);
    if a != [] && b != [] {
      if Le(cmp, a[0], b[0]) {
        MergeMultiset(cmp, a[1..], b);
        MultisetCons(a[0], Merge(cmp, a[1..], b));
        HeadAndTail(a);
      } else {
        MergeMultiset(cmp, a, b[1..]);
        MultisetCons(b[0], Merge(cmp, a, b[1..]));
        HeadAndTail(b);
      }
    }
  }

  lemma SortedTail<T(!new)>(cmp: Cmp<T>, s: seq<T>)
    requires Sorted(cmp, s) && s != []
    ensures Sorted(cmp, s[1..]) && forall i :: 0 < i < |s| ==> Le(cmp, s[0], s[i])
  {
  }

  lemma SortedCons<T(!new)>(cmp: Cmp<T>, x: T, s: seq<T>)
    requires Sorted(cmp, s) && forall y :: y in s ==> Le(cmp, x, y)
    ensures Sorted(cmp, [x] + s)
  {
  }

  lemma InMerge<T>(cmp: Cmp<T>, a: seq<T>, b: seq<T>)
    ensures forall y :: y in Merge(cmp, a, b) <==> y in a || y in b
  {
    MergeMultiset(cmp, a, b);
    forall y
      ensures y in Merge(cmp, a, b) <==> y in a || y in b
    {
      assert y in Merge(cmp, a, b) <==> y in multiset(Merge(cmp, a, b));
    }
  }

  lemma {:induction false} MergeSorted<T(!new)>(cmp: Cmp<T>, a: seq<T>, b: seq<T>)
    requires TotalPreorder(cmp) && Sorted(cmp, a) && Sorted(cmp, b)
    ensures Sorted(cmp, Merge(cmp, a, b))
    decreases |a| + |b|
  {
    hide Sorted;
    if a != [] && b != [] {
      SortedTail(cmp, a);
      SortedTail(cmp, b);
      if Le(cmp, a[0], b[0]) {
        MergeSorted(cmp, a[1..], b);
        InMerge(cmp, a[1..], b);
        SortedCons(cmp, a[0], Merge(cmp, a[1..], b));
      } else {
        MergeSorted(cmp, a, b[1..]);
        InMerge(cmp, a, b[1..]);
        SortedCons(cmp, b[0], Merge(cmp, a, b[1..]));
      }
    }
  }

  function Pick<T>(cmp: Cmp<T>, y: T, x: T): seq<T> {
    if Le(cmp, y, x) && Le(cmp, x, y) then [y] else []
  }

  lemma EqualsCons<T>(cmp: Cmp<T>, y: T, s: seq<T>, x: T)
    ensures Equals(cmp, [y] + s, x) == Pick(cmp, y, x) + Equals(cmp, s, x)
  {
    assert ([y] + s)[1..] == s;
  }

  lemma EqualsNone<T>(cmp: Cmp<T>, s: seq<T>, x: T)
    ensures Equals(cmp, [], x) + Equals(cmp, s, x) == Equals(cmp, s, x) == Equals(cmp, s, x) + Equals(cmp, [], x)
  {
    hide Le;
    assert Equals(cmp, [], x) == [];
    hide Equals;
  }

  lemma Regroup<T>(a: seq<T>, b: seq<T>, c: seq<T>)
    ensures a + (b + c) == (a + b) + c
  {
  }

  lemma {:induction false} EqualsApp<T>(cmp: Cmp<T>, a: seq<T>, b: seq<T>, x: T)
    ensures Equals(cmp, a + b, x) == Equals(cmp, a, x) + Equals(cmp, b, x)
  {
    hide Equals, Pick, Le;
    if a == [] {
      assert a + b == b;
      EqualsNone(cmp, b, x);
    } else {
      var y, rest := a[0], a[1..];
      EqualsApp(cmp, rest, b, x);
      assert a == [y] + rest && a + b == [y] + (rest + b);
      EqualsCons(cmp, y, rest, x);
      EqualsCons(cmp, y, rest + b, x);
      Regroup(Pick(cmp, y, x), Equals(cmp, rest, x), Equals(cmp, b, x));
    }
  }

  lemma {:induction false} NoEquals<T>(cmp: Cmp<T>, s: seq<T>, x: T)
    requires forall y :: y in s ==> !Le(cmp, y, x)
    ensures Equals(cmp, s, x) == []
  {
    if s != [] {
      NoEquals(cmp, s[1..], x);
    }
  }

  lemma EqualsHead<T>(cmp: Cmp<T>, s: seq<T>, x: T)
    requires s != []
    ensures Equals(cmp, s, x) == Pick(cmp, s[0], x) + Equals(cmp, s[1..], x)
  {
  }

  /** Equal elements of the first run come before those of the second. */
  lemma {:induction false} MergeStable<T(!new)>(cmp: Cmp<T>, a: seq<T>, b: seq<T>, x: T)
    requires TotalPreorder(cmp) && Sorted(cmp, a) && Sorted(cmp, b)
    ensures Equals(cmp, Merge(cmp, a, b), x) == Equals(cmp, a, x) + Equals(cmp, b, x)
    decreases |a| + |b|
  {
    hide Sorted, Merge, Pick, Le, TotalPreorder, Equals;
    MergeStep(cmp, a, b);
    if a == [] {
      EqualsNone(cmp, b, x);
    } else if b == [] {
      EqualsNone(cmp, a, x);
    } else {
      SortedTail(cmp, a);
      SortedTail(cmp, b);
      if Le(cmp, a[0], b[0]) {
        var y, rest := a[0], a[1..];
        MergeStable(cmp, rest, b, x);
        EqualsHead(cmp, a, x);
        EqualsCons(cmp, y, Merge(cmp, rest, b), x);
        Regroup(Pick(cmp, y, x), Equals(cmp, rest, x), Equals(cmp, b, x));
      } else {
        var y, rest := b[0], b[1..];
        MergeStable(cmp, a, rest, x);
        EqualsHead(cmp, b, x);
        EqualsCons(cmp, y, Merge(cmp, a, rest), x);
        PickFirst(cmp, a, y, x);
        var p, e, f := Pick(cmp, y, x), Equals(cmp, a, x), Equals(cmp, rest, x);
        Regroup(p, e, f);
        Regroup(e, p, f);
      }
    }
  }

  /** Nothing in a sorted run above `y` equals what `y` equals. */
  lemma PickFirst<T(!new)>(cmp: Cmp<T>, a: seq<T>, y: T, x: T)
    requires TotalPreorder(cmp) && a != [] && !Le(cmp, a[0], y) && forall i :: 0 < i < |a| ==> Le(cmp, a[0], a[i])
    ensures Pick(cmp, y, x) + Equals(cmp, a, x) == Equals(cmp, a, x) + Pick(cmp, y, x)
  {
    hide Equals;
    if Le(cmp, y, x) && Le(cmp, x, y) {
      forall z | z in a
        ensures !Le(cmp, z, x)
      {
        var i :| 0 <= i < |a| && a[i] == z;
        assert Le(cmp, a[0], z);
        assert Le(cmp, z, x) ==> Le(cmp, z, y);
      }
      NoEquals(cmp, a, x);
    }
  }

  // ---------- blocks ----------

  /** Every block of `n` elements, and the shorter one at the end, is sorted. */
  ghost predicate Blocked<T>(cmp: Cmp<T>, s: seq<T>, n: nat)
    requires n > 0
    decreases |s|
  {
    if |s| <= n then Sorted(cmp, s) else Sorted(cmp, s[..n]) && Blocked(cmp, s[n..], n)
  }

  /** Only whole blocks. */
  ghost predicate WholeBlocks<T>(cmp: Cmp<T>, s: seq<T>, n: nat)
    requires n > 0
    decreases |s|
  {
    s == [] || (|s| >= n && Sorted(cmp, s[..n]) && WholeBlocks(cmp, s[n..], n))
  }

  lemma {:induction false} AddBlock<T>(cmp: Cmp<T>, s: seq<T>, n: nat, x: seq<T>)
    requires n > 0 && WholeBlocks(cmp, s, n) && Sorted(cmp, x) && 0 < |x| <= n
    ensures Blocked(cmp, s + x, n) && (|x| == n ==> WholeBlocks(cmp, s + x, n))
    decreases |s|
  {
    hide Sorted;
    if s == [] {
      assert s + x == x;
      assert |x| == n ==> x[..n] == x && x[n..] == [];
    } else {
      AddBlock(cmp, s[n..], n, x);
      assert (s + x)[..n] == s[..n] && (s + x)[n..] == s[n..] + x;
    }
  }

  lemma {:induction false} SingletonBlocks<T>(cmp: Cmp<T>, s: seq<T>)
    ensures Blocked(cmp, s, 1)
  {
    if |s| > 1 {
      SingletonBlocks(cmp, s[1..]);
    }
  }

  lemma BlockedRest<T>(cmp: Cmp<T>, s: seq<T>, n: nat, k: nat)
    requires n > 0 && Blocked(cmp, s, n) && k == (if |s| < n then |s| else n)
    ensures Sorted(cmp, s[..k]) && Blocked(cmp, s[k..], n)
  {
    if |s| <= n {
      assert s[..k] == s && s[k..] == [];
    }
  }

  // ---------- the sort ----------

  /** The inner `while`: the run `la` and the next at most `qsz` elements of `head` go to `lb` in order. */
  method MergeRuns<T>(cmp: Cmp<T>, first: seq<T>, list: seq<T>, sz: nat, done: seq<T>)
    returns (head: seq<T>, lb: seq<T>)
    ensures var k := if |list| < sz then |list| else sz;
            head == list[k..] && lb == done + Merge(cmp, first, list[..k])
  {
    hide Merge;
    var la, qsz := first, sz;
    head, lb := list, done;
    ghost var k := if |list| < sz then |list| else sz;
    ghost var run, rest := list[..k], list[k..];
    while |la| > 0 || (qsz > 0 && head != [])
      invariant head == run + rest && |run| <= qsz && (|run| < qsz ==> rest == [])
      invariant lb + Merge(cmp, la, run) == done + Merge(cmp, first, list[..k])
      decreases |la| + |head|
    {
      HeadOfRun(head, run, rest);
      if |la| == 0 {
        TakeSecond(cmp, lb, la, run);
        lb, head, qsz, run := lb + [head[0]], head[1..], qsz - 1, run[1..];
      } else if qsz == 0 || head == [] {
        TakeFirst(cmp, lb, la, run);
        lb, la := lb + [la[0]], la[1..];
      } else if cmp(la[0], head[0]) <= 0 {
        TakeFirst(cmp, lb, la, run);
        lb, la := lb + [la[0]], la[1..];
      } else {
        TakeSecond(cmp, lb, la, run);
        lb, head, qsz, run := lb + [head[0]], head[1..], qsz - 1, run[1..];
      }
    }
    MergeStep(cmp, la, run);
  }

  lemma TakeFirst<T>(cmp: Cmp<T>, lb: seq<T>, a: seq<T>, b: seq<T>)
    requires a != [] && (b == [] || Le(cmp, a[0], b[0]))
    ensures (lb + [a[0]]) + Merge(cmp, a[1..], b) == lb + Merge(cmp, a, b)
  {
    MergeStep(cmp, a, b);
    MergeStep(cmp, a[1..], b);
  }

  lemma TakeSecond<T>(cmp: Cmp<T>, lb: seq<T>, a: seq<T>, b: seq<T>)
    requires b != [] && (a == [] || !Le(cmp, a[0], b[0]))
    ensures (lb + [b[0]]) + Merge(cmp, a, b[1..]) == lb + Merge(cmp, a, b)
  {
    MergeStep(cmp, a, b);
    MergeStep(cmp, a, b[1..]);
  }

  lemma HeadOfRun<T>(head: seq<T>, run: seq<T>, rest: seq<T>)
    requires head == run + rest
    ensures run != [] ==> head != [] && head[0] == run[0] && head[1..] == run[1..] + rest
  {
  }

  lemma StableMerge<T(!new)>(cmp: Cmp<T>, done: seq<T>, a: seq<T>, b: seq<T>, rest: seq<T>)
    requires TotalPreorder(cmp) && Sorted(cmp, a) && Sorted(cmp, b)
    ensures StablePermutation(cmp, done + a + b + rest, done + Merge(cmp, a, b) + rest)
  {
    hide Sorted, Merge, Equals;
    MergeMultiset(cmp, a, b);
    forall x
      ensures Equals(cmp, done + Merge(cmp, a, b) + rest, x) == Equals(cmp, done + a + b + rest, x)
    {
      MergeStable(cmp, a, b, x);
      EqualsApp(cmp, done + Merge(cmp, a, b), rest, x);
      EqualsApp(cmp, done, Merge(cmp, a, b), x);
      EqualsApp(cmp, done + a + b, rest, x);
      EqualsApp(cmp, done + a, b, x);
      EqualsApp(cmp, done, a, x);
    }
  }

  lemma StableTrans<T(!new)>(cmp: Cmp<T>, a: seq<T>, b: seq<T>, c: seq<T>)
    requires StablePermutation(cmp, a, b) && StablePermutation(cmp, b, c)
    ensures StablePermutation(cmp, a, c)
  {
  }

  lemma StableRefl<T(!new)>(cmp: Cmp<T>, a: seq<T>)
    ensures StablePermutation(cmp, a, a)
  {
  }

  /** Moving up to `sz` elements off the head of a list: the inner `for`. */
  method TakeRun<T>(list: seq<T>, sz: nat) returns (la: seq<T>, head: seq<T>)
    ensures var k := if |list| < sz then |list| else sz; la == list[..k] && head == list[k..]
  {
    la, head := [], list;
    var i: nat := 0;
    while i < sz && head != []
      invariant i <= sz && i <= |list| && la == list[..i] && head == list[i..]
    {
      la, head, i := la + [head[0]], head[1..], i + 1;
    }
  }

  /** What a pass over blocks of `sz` has done so far. */
  ghost predicate PassOk<T(!new)>(cmp: Cmp<T>, list: seq<T>, sz: nat, head: seq<T>, lb: seq<T>, nmerges: nat)
    requires sz > 0
  {
    && StablePermutation(cmp, list, lb + head) && Blocked(cmp, head, sz)
    && Blocked(cmp, lb, 2 * sz) && (head != [] ==> WholeBlocks(cmp, lb, 2 * sz))
    && (nmerges == 0 ==> lb == []) && (nmerges == 1 ==> |lb| <= 2 * sz)
    && (nmerges > 0 && head != [] ==> |lb| >= 2 * sz) && (nmerges > 1 ==> |lb| > 2 * sz)
  }

  lemma PassStep<T(!new)>(cmp: Cmp<T>, list: seq<T>, sz: nat, head: seq<T>, lb: seq<T>, nmerges: nat)
    requires sz > 0 && TotalPreorder(cmp) && PassOk(cmp, list, sz, head, lb, nmerges) && head != []
    ensures var k := if |head| < sz then |head| else sz;
            var m := if |head| - k < sz then |head| - k else sz;
            PassOk(cmp, list, sz, head[k + m..], lb + Merge(cmp, head[..k], head[k..][..m]), nmerges + 1)
  {
    hide Sorted, Merge, StablePermutation, Blocked, WholeBlocks, TotalPreorder;
    var k := if |head| < sz then |head| else sz;
    var m := if |head| - k < sz then |head| - k else sz;
    var a, b, rest := head[..k], head[k..][..m], head[k + m..];
    BlockedRest(cmp, head, sz, k);
    BlockedRest(cmp, head[k..], sz, m);
    assert head[k..][m..] == rest;
    MergeSorted(cmp, a, b);
    AddBlock(cmp, lb, 2 * sz, Merge(cmp, a, b));
    StableMerge(cmp, lb, a, b, rest);
    assert lb + a + b + rest == lb + head;
    StableTrans(cmp, list, lb + head, lb + Merge(cmp, a, b) + rest);
  }

  /** One pass: adjacent blocks of `sz` merged into blocks of `2 * sz`. */
  method Pass<T(!new)>(cmp: Cmp<T>, list: seq<T>, sz: nat) returns (lb: seq<T>, nmerges: nat)
    requires sz > 0 && TotalPreorder(cmp) && Blocked(cmp, list, sz)
    ensures StablePermutation(cmp, list, lb) && Blocked(cmp, lb, 2 * sz)
    ensures nmerges <= 1 ==> Sorted(cmp, lb)
    ensures nmerges > 1 ==> |list| > 2 * sz
  {
    hide Sorted, Merge, StablePermutation, TotalPreorder, WholeBlocks;
    nmerges, lb := 0, [];
    var head := list;
    StableRefl(cmp, list);
    assert [] + list == list;
    WholeNothing(cmp, 2 * sz);
    while head != []
      invariant PassOk(cmp, list, sz, head, lb, nmerges)
      decreases |head|
    {
      ghost var was, done := head, lb;
      nmerges := nmerges + 1;
      var la;
      la, head := TakeRun(head, sz);
      PassStep(cmp, list, sz, was, done, nmerges - 1);
      head, lb := MergeRuns(cmp, la, head, sz, lb);
      Advance(was, sz);
    }
    assert lb + [] == lb;
    SameLength(cmp, list, lb);
  }

  lemma WholeNothing<T>(cmp: Cmp<T>, n: nat)
    requires n > 0
    ensures WholeBlocks<T>(cmp, [], n) && Blocked<T>(cmp, [], n)
  {
  }

  lemma Advance<T>(head: seq<T>, sz: nat)
    ensures var k := if |head| < sz then |head| else sz;
            var m := if |head| - k < sz then |head| - k else sz;
            head[k..][m..] == head[k + m..]
  {
  }

  lemma SameLength<T(!new)>(cmp: Cmp<T>, a: seq<T>, b: seq<T>)
    requires StablePermutation(cmp, a, b)
    ensures |a| == |b|
  {
    assert |multiset(a)| == |a| && |multiset(b)| == |b|;
  }

  /** `STAILQ_SORT`: passes over blocks of 1, 2, 4, ... until one merge covers the list. */
  method Sort<T(!new)>(cmp: Cmp<T>, list: seq<T>) returns (head: seq<T>)
    requires TotalPreorder(cmp)
    ensures Sorted(cmp, head) && StablePermutation(cmp, list, head)
  {
    hide Sorted, StablePermutation, TotalPreorder;
    head := list;
    SingletonBlocks(cmp, list);
    StableRefl(cmp, list);
    var sz, nmerges: nat := 1, 2;
    while nmerges > 1
      invariant sz > 0 && Blocked(cmp, head, sz) && StablePermutation(cmp, list, head)
      invariant nmerges <= 1 ==> Sorted(cmp, head)
      decreases nmerges > 1, if |list| > sz then |list| - sz else 0
    {
      ghost var before := head;
      SameLength(cmp, list, before);
      head, nmerges := Pass(cmp, head, sz);
      StableTrans(cmp, list, before, head);
      sz := sz * 2;
    }
  }
}
