/** The hash table of common/uthash.h: bucket chains and an application-order list threaded through
    the same handles. The hash function is left uninterpreted. */
module HashTable {
  import opened Bytes
  import opened LinkedLists

  const HASH_INITIAL_NUM_BUCKETS := 32
  const HASH_INITIAL_NUM_BUCKETS_LOG2 := 5
  const HASH_BKT_CAPACITY_THRESH := 10

  // ---------- bit operations ----------

  function BitAnd(a: nat, b: nat): (r: nat)
    ensures r <= b
  {
    if b == 0 then 0 else 2 * BitAnd(a / 2, b / 2) + (if a % 2 == 1 && b % 2 == 1 then 1 else 0)
  }

  function Shr(x: nat, k: nat): nat {
    if k == 0 then x else Shr(x / 2, k - 1)
  }

  function Pow2(k: nat): (p: nat)
    ensures p > 0
  {
    if k == 0 then 1 else 2 * Pow2(k - 1)
  }

  /** `HASH_TO_BKT`. */
  function ToBkt(hashv: nat, n: nat): (b: nat)
    requires n > 0
    ensures b < n
  {
    BitAnd(hashv, n - 1)
  }

  lemma Doubled(s: nat, p: nat)
    ensures s * (2 * p) == 2 * (s * p)
  {
  }

  lemma MaskStep(x: nat, p: nat)
    requires p > 0
    ensures BitAnd(x, 2 * p - 1) == 2 * BitAnd(x / 2, p - 1) + x % 2
  {
    assert (2 * p - 1) / 2 == p - 1 && (2 * p - 1) % 2 == 1;
  }

  /** Shifting and masking split a number into quotient and remainder by a power of two. */
  lemma {:induction false} ShiftAndMask(x: nat, k: nat)
    ensures Shr(x, k) * Pow2(k) + BitAnd(x, Pow2(k) - 1) == x && BitAnd(x, Pow2(k) - 1) < Pow2(k)
  {
    hide BitAnd;
    if k == 0 {
      assert BitAnd(x, 0) <= 0;
    } else {
      ShiftAndMask(x / 2, k - 1);
      Doubled(Shr(x / 2, k - 1), Pow2(k - 1));
      MaskStep(x, Pow2(k - 1));
    }
  }

  lemma RemainderIs(q: nat, p: nat, r: nat)
    requires r < p
    ensures (q * p + r) % p == r
  {
    var x := q * p + r;
    var d, m := x / p, x % p;
    assert x == d * p + m;
    assert (q - d) * p == q * p - d * p == m - r;
    SmallMultiple(q - d, p);
  }

  lemma SmallMultiple(k: int, p: nat)
    ensures k > 0 ==> k * p >= p
    ensures k < 0 ==> k * p <= -(p as int)
  {
  }

  /** With a power of two of buckets the bucket of a hash is its remainder. */
  lemma BucketIsRemainder(hashv: nat, k: nat)
    ensures ToBkt(hashv, Pow2(k)) == hashv % Pow2(k)
  {
    hide BitAnd, Shr;
    ShiftAndMask(hashv, k);
    RemainderIs(Shr(hashv, k), Pow2(k), ToBkt(hashv, Pow2(k)));
  }

  // ---------- buckets ----------

  datatype Bucket = Bucket(head: Ptr, count: nat, mult: nat)

  const EMPTY := Bucket(None, 0, 0)

  /** The chains of the buckets hold exactly the handles `ids`, each in the bucket of its hash. */
  ghost predicate Indexed(hashv: map<Id, nat>, ids: set<Id>, hn: map<Id, Ptr>, hp: map<Id, Ptr>,
                          buckets: seq<Bucket>, chains: seq<seq<Id>>) {
    && 0 < |buckets| == |chains| && ids <= hashv.Keys
    && (forall b :: 0 <= b < |buckets| ==> ChainOk(hn, hp, buckets[b], chains[b]))
    && (forall b, id :: 0 <= b < |buckets| && id in chains[b] ==> id in ids && ToBkt(hashv[id], |buckets|) == b)
    && (forall id :: id in ids ==> id in chains[ToBkt(hashv[id], |buckets|)])
  }

  ghost predicate ChainOk(hn: map<Id, Ptr>, hp: map<Id, Ptr>, bucket: Bucket, chain: seq<Id>) {
    Linked(hn, hp, bucket.head, chain) && bucket.count == |chain|
  }

  function SumCounts(buckets: seq<Bucket>): nat {
    if buckets == [] then 0 else SumCounts(buckets[..|buckets| - 1]) + buckets[|buckets| - 1].count
  }

  function Over(count: nat, ideal: nat): nat { if count > ideal then count - ideal else 0 }

  /** Items beyond the ideal chain length, over all buckets. */
  function Excess(buckets: seq<Bucket>, ideal: nat): nat {
    if buckets == [] then 0
    else Excess(buckets[..|buckets| - 1], ideal) + Over(buckets[|buckets| - 1].count, ideal)
  }

  lemma {:induction false} CountUpdate(buckets: seq<Bucket>, b: nat, bucket: Bucket, ideal: nat)
    requires b < |buckets|
    ensures SumCounts(buckets[b := bucket]) == SumCounts(buckets) - buckets[b].count + bucket.count
    ensures Excess(buckets[b := bucket], ideal) ==
            Excess(buckets, ideal) - Over(buckets[b].count, ideal) + Over(bucket.count, ideal)
  {
    var n := |buckets| - 1;
    var buckets' := buckets[b := bucket];
    if b < n {
      CountUpdate(buckets[..n], b, bucket, ideal);
      assert buckets'[..n] == buckets[..n][b := bucket];
    } else {
      assert buckets'[..n] == buckets[..n];
    }
  }

  lemma Apart(hashv: map<Id, nat>, ids: set<Id>, hn: map<Id, Ptr>, hp: map<Id, Ptr>,
              buckets: seq<Bucket>, chains: seq<seq<Id>>, b: nat, c: nat)
    requires Indexed(hashv, ids, hn, hp, buckets, chains) && b < |buckets| && c < |buckets| && b != c
    ensures forall x :: x in chains[b] ==> x !in chains[c]
  {
    hide ToBkt, ChainOk;
    forall x | x in chains[b]
      ensures x !in chains[c]
    {
      assert ToBkt(hashv[x], |buckets|) == b;
    }
  }

  /** A handle pushed on the front of its chain. */
  lemma InsertKeepsIndexed(hashv: map<Id, nat>, ids: set<Id>, hn: map<Id, Ptr>, hp: map<Id, Ptr>,
                           buckets: seq<Bucket>, chains: seq<seq<Id>>, id: Id, bucket: Bucket)
    requires Indexed(hashv, ids, hn, hp, buckets, chains) && id in hashv && id !in ids
    requires var b := ToBkt(hashv[id], |buckets|); bucket.head == Some(id) && bucket.count == buckets[b].count + 1
    ensures var b := ToBkt(hashv[id], |buckets|);
            Indexed(hashv, ids + {id}, hn[id := buckets[b].head], PushPrev(hp, buckets[b].head, id),
                    buckets[b := bucket], chains[b := [id] + chains[b]])
  {
    hide ToBkt, Distinct;
    var n, b := |buckets|, ToBkt(hashv[id], |buckets|);
    var hn', hp' := hn[id := buckets[b].head], PushPrev(hp, buckets[b].head, id);
    var buckets', chains' := buckets[b := bucket], chains[b := [id] + chains[b]];
    forall c | 0 <= c < n
      ensures ChainOk(hn', hp', buckets'[c], chains'[c])
    {
      assert ChainOk(hn, hp, buckets[c], chains[c]) && ChainOk(hn, hp, buckets[b], chains[b]);
      if c == b {
        PushFront(hn, hp, buckets[b].head, chains[b], id);
      } else {
        Apart(hashv, ids, hn, hp, buckets, chains, b, c);
        assert buckets[b].head.Some? ==> buckets[b].head.value in chains[b];
        Frame(hn, hp, hn', hp', buckets[c].head, chains[c]);
      }
    }
  }

  /** A handle taken out of its chain. */
  lemma RemoveKeepsIndexed(hashv: map<Id, nat>, ids: set<Id>, hn: map<Id, Ptr>, hp: map<Id, Ptr>,
                           buckets: seq<Bucket>, chains: seq<seq<Id>>, id: Id, k: nat, bucket: Bucket)
    requires Indexed(hashv, ids, hn, hp, buckets, chains) && id in ids
    requires var b := ToBkt(hashv[id], |buckets|);
             && k < |chains[b]| && chains[b][k] == id && id in hn && id in hp
             && bucket.head == (if buckets[b].head == Some(id) then hn[id] else buckets[b].head)
             && bucket.count + 1 == buckets[b].count
    ensures var b := ToBkt(hashv[id], |buckets|);
            Indexed(hashv, ids - {id}, UnlinkNext(hn, hp[id], hn[id]), UnlinkPrev(hp, hp[id], hn[id]),
                    buckets[b := bucket], chains[b := Without(chains[b], k)])
  {
    hide ToBkt;
    var n, b := |buckets|, ToBkt(hashv[id], |buckets|);
    var hn', hp' := UnlinkNext(hn, hp[id], hn[id]), UnlinkPrev(hp, hp[id], hn[id]);
    var buckets', chains' := buckets[b := bucket], chains[b := Without(chains[b], k)];
    assert ChainOk(hn, hp, buckets[b], chains[b]);
    Unlink(hn, hp, buckets[b].head, chains[b], k);
    assert forall i :: 0 <= i < |chains[b]| && i != k ==> chains[b][i] != id;
    assert buckets[b].head == Some(id) <==> k == 0;
    forall c | 0 <= c < n
      ensures ChainOk(hn', hp', buckets'[c], chains'[c])
    {
      assert ChainOk(hn, hp, buckets[c], chains[c]);
      if c != b {
        Apart(hashv, ids, hn, hp, buckets, chains, b, c);
        assert hp[id] == PrevOf(chains[b], k) && hn[id] == NextOf(chains[b], k);
        Frame(hn, hp, hn', hp', buckets[c].head, chains[c]);
      }
    }
    assert id !in Without(chains[b], k);
    forall x | x in chains[b] && x != id
      ensures x in Without(chains[b], k)
    {
      var i :| 0 <= i < |chains[b]| && chains[b][i] == x;
      assert Without(chains[b], k)[if i < k then i else i - 1] == x;
    }
  }

  /** Where a stored handle is on its chain. */
  lemma Place(hashv: map<Id, nat>, ids: set<Id>, hn: map<Id, Ptr>, hp: map<Id, Ptr>,
              buckets: seq<Bucket>, chains: seq<seq<Id>>, id: Id) returns (k: nat)
    requires Indexed(hashv, ids, hn, hp, buckets, chains) && id in ids
    ensures 0 < |buckets| == |chains| && id in hashv && id in hn && id in hp
    ensures var b := ToBkt(hashv[id], |buckets|);
            k < |chains[b]| && chains[b][k] == id && buckets[b].count > 0
  {
    hide ToBkt, Distinct;
    var b := ToBkt(hashv[id], |buckets|);
    k :| 0 <= k < |chains[b]| && chains[b][k] == id;
    assert ChainOk(hn, hp, buckets[b], chains[b]);
    assert NextAt(hn, chains[b], k) && PrevAt(hp, chains[b], k);
  }

  // ---------- bucket expansion ----------

  /** Handles of old chain `b` from `thh` on, and of the chains after it, that are still to be moved. */
  ghost predicate Pending(hashv: map<Id, nat>, hn: map<Id, Ptr>, old0: seq<Bucket>, chains0: seq<seq<Id>>,
                          ids: set<Id>, moved: set<Id>, b: nat, thh: Ptr, rest: seq<Id>)
  {
    && 0 < |old0| == |chains0| && b <= |old0| && ids <= hashv.Keys && moved <= ids
    && Forward(hn, thh, rest) && Distinct(rest)
    && (forall x :: x in rest ==> x in ids && x !in moved && b < |old0| && ToBkt(hashv[x], |old0|) == b)
    && (forall c :: b < c < |old0| ==> Forward(hn, old0[c].head, chains0[c]) && Distinct(chains0[c]))
    && (forall c, x :: b < c < |old0| && x in chains0[c] ==> x in ids && x !in moved && ToBkt(hashv[x], |old0|) == c)
    && (forall x :: x in ids && x !in moved ==>
          var c := ToBkt(hashv[x], |old0|); c >= b && (c == b ==> x in rest) && (c > b ==> x in chains0[c]))
  }

  /** Relinking one handle leaves the chains it is not on as they were. */
  lemma ForwardFrame(hn: map<Id, Ptr>, h: Ptr, s: seq<Id>, id: Id, p: Ptr)
    requires Forward(hn, h, s) && id !in s
    ensures Forward(hn[id := p], h, s)
  {
    var hn' := hn[id := p];
    forall i | 0 <= i < |s|
      ensures NextAt(hn', s, i)
    {
      assert NextAt(hn, s, i);
    }
  }

  lemma ForwardTail(hn: map<Id, Ptr>, h: Ptr, s: seq<Id>)
    requires Forward(hn, h, s) && s != []
    ensures h == Some(s[0]) && s[0] in hn && Forward(hn, hn[s[0]], s[1..])
  {
    assert NextAt(hn, s, 0);
    var t := s[1..];
    forall i | 0 <= i < |t|
      ensures NextAt(hn, t, i)
    {
      assert NextAt(hn, s, i + 1);
    }
  }

  lemma PendingStep(hashv: map<Id, nat>, hn: map<Id, Ptr>, old0: seq<Bucket>, chains0: seq<seq<Id>>,
                    ids: set<Id>, moved: set<Id>, b: nat, thh: Ptr, rest: seq<Id>, p: Ptr)
    requires Pending(hashv, hn, old0, chains0, ids, moved, b, thh, rest) && rest != []
    ensures thh == Some(rest[0]) && rest[0] in hn && rest[0] in ids && rest[0] !in moved
    ensures Pending(hashv, hn[rest[0] := p], old0, chains0, ids, moved + {rest[0]}, b, hn[rest[0]], rest[1..])
  {
    hide ToBkt;
    var id := rest[0];
    ForwardTail(hn, thh, rest);
    assert id !in rest[1..] && ToBkt(hashv[id], |old0|) == b;
    ForwardFrame(hn, hn[id], rest[1..], id, p);
    forall c | b < c < |old0|
      ensures Forward(hn[id := p], old0[c].head, chains0[c])
    {
      assert id !in chains0[c];
      ForwardFrame(hn, old0[c].head, chains0[c], id, p);
    }
    forall x | x in ids && x !in moved + {id} && ToBkt(hashv[x], |old0|) == b
      ensures x in rest[1..]
    {
      assert x in rest;
    }
  }

  lemma PendingNext(hashv: map<Id, nat>, hn: map<Id, Ptr>, old0: seq<Bucket>, chains0: seq<seq<Id>>,
                    ids: set<Id>, moved: set<Id>, b: nat)
    requires Pending(hashv, hn, old0, chains0, ids, moved, b, None, []) && b < |old0|
    ensures b + 1 < |old0| ==>
              Pending(hashv, hn, old0, chains0, ids, moved, b + 1, old0[b + 1].head, chains0[b + 1])
    ensures b + 1 == |old0| ==> moved == ids
  {
    hide ToBkt, Forward, Distinct;
    if b + 1 == |old0| {
      assert forall x :: x in ids ==> x in moved;
    }
  }

  /** `expand_mult` of a bucket that got `count` items during an expansion. */
  function MultFor(count: nat, ideal: nat): nat {
    if count == 0 then 0
    else
      var m := MultFor(count - 1, ideal);
      if count > ideal && count > m * ideal then m + 1 else m
  }

  ghost predicate Mults(buckets: seq<Bucket>, ideal: nat) {
    forall b :: 0 <= b < |buckets| ==> buckets[b].mult == MultFor(buckets[b].count, ideal)
  }

  lemma MultsUpdate(buckets: seq<Bucket>, b: nat, bucket: Bucket, ideal: nat)
    requires Mults(buckets, ideal) && b < |buckets| && bucket.count == buckets[b].count + 1
    requires bucket.mult == (if bucket.count > ideal && bucket.count > buckets[b].mult * ideal
                             then buckets[b].mult + 1 else buckets[b].mult)
    ensures Mults(buckets[b := bucket], ideal)
  {
  }

  /** `HASH_EXPAND_BUCKETS`: walk every old chain and push each handle on its new one. */
  method Expand(hashv: map<Id, nat>, hn0: map<Id, Ptr>, hp0: map<Id, Ptr>, old0: seq<Bucket>, numItems: nat, log2: nat,
                ghost ids: set<Id>, ghost chains0: seq<seq<Id>>)
    returns (hn: map<Id, Ptr>, hp: map<Id, Ptr>, buckets: seq<Bucket>, ideal: nat, nonideal: nat,
             ghost chains: seq<seq<Id>>)
    requires Indexed(hashv, ids, hn0, hp0, old0, chains0)
    ensures |buckets| == 2 * |old0| && Indexed(hashv, ids, hn, hp, buckets, chains)
    ensures ideal == Shr(numItems, log2 + 1) + (if BitAnd(numItems, 2 * |old0| - 1) != 0 then 1 else 0)
    ensures nonideal == Excess(buckets, ideal) && SumCounts(buckets) == |ids| && Mults(buckets, ideal)
  {
    hide ToBkt, ChainOk, Indexed, BitAnd, Excess, SumCounts, Shr, Mults;
    var n := |old0|;
    NonEmpty(hashv, ids, hn0, hp0, old0, chains0);
    hn, hp, buckets := hn0, hp0, EmptyBuckets(2 * n);
    ideal := Shr(numItems, log2 + 1) + (if BitAnd(numItems, 2 * n - 1) != 0 then 1 else 0);
    nonideal := 0;
    chains := EmptyChains(2 * n);
    ghost var moved: set<Id> := {};
    ExpandStart(hashv, hn0, hp0, old0, ids, chains0, ideal);
    for b := 0 to n
      invariant |buckets| == 2 * n && Indexed(hashv, moved, hn, hp, buckets, chains)
      invariant nonideal == Excess(buckets, ideal) && SumCounts(buckets) == |moved| && Mults(buckets, ideal)
      invariant b < n ==> Pending(hashv, hn, old0, chains0, ids, moved, b, old0[b].head, chains0[b])
      invariant b == n ==> moved == ids
    {
      var thh := old0[b].head;
      ghost var rest := chains0[b];
      while thh != None
        invariant |buckets| == 2 * n && Indexed(hashv, moved, hn, hp, buckets, chains)
        invariant nonideal == Excess(buckets, ideal) && SumCounts(buckets) == |moved| && Mults(buckets, ideal)
        invariant Pending(hashv, hn, old0, chains0, ids, moved, b, thh, rest)
        decreases |rest|
      {
        hn, hp, buckets, nonideal, chains, thh, rest, moved :=
          MoveOne(hashv, hn, hp, buckets, ideal, nonideal, chains, thh, rest, moved, old0, chains0, ids, b);
      }
      assert rest == [];
      PendingNext(hashv, hn, old0, chains0, ids, moved, b);
    }
  }

  lemma ExpandStart(hashv: map<Id, nat>, hn: map<Id, Ptr>, hp: map<Id, Ptr>, old0: seq<Bucket>,
                    ids: set<Id>, chains0: seq<seq<Id>>, ideal: nat)
    requires Indexed(hashv, ids, hn, hp, old0, chains0)
    ensures |old0| > 0
    ensures var n := |old0|;
            Indexed(hashv, {}, hn, hp, EmptyBuckets(2 * n), EmptyChains(2 * n))
    ensures Pending(hashv, hn, old0, chains0, ids, {}, 0, old0[0].head, chains0[0])
    ensures Excess(EmptyBuckets(2 * |old0|), ideal) == 0 && SumCounts(EmptyBuckets(2 * |old0|)) == 0
    ensures Mults(EmptyBuckets(2 * |old0|), ideal)
  {
    hide ToBkt;
    assert forall c :: 0 <= c < |old0| ==> ChainOk(hn, hp, old0[c], chains0[c]);
    EmptyCounts(EmptyBuckets(2 * |old0|), ideal);
  }

  lemma {:induction false} EmptyCounts(buckets: seq<Bucket>, ideal: nat)
    requires forall b :: 0 <= b < |buckets| ==> buckets[b] == EMPTY
    ensures Excess(buckets, ideal) == 0 && SumCounts(buckets) == 0
  {
    if buckets != [] {
      EmptyCounts(buckets[..|buckets| - 1], ideal);
    }
  }

  /** The body of the inner loop. */
  method MoveOne(hashv: map<Id, nat>, hn0: map<Id, Ptr>, hp0: map<Id, Ptr>, buckets0: seq<Bucket>, ideal: nat,
                 nonideal0: nat, ghost newChains0: seq<seq<Id>>, thh: Ptr, ghost rest0: seq<Id>, ghost moved0: set<Id>,
                 ghost old0: seq<Bucket>, ghost chains0: seq<seq<Id>>, ghost ids: set<Id>, ghost b: nat)
    returns (hn: map<Id, Ptr>, hp: map<Id, Ptr>, buckets: seq<Bucket>, nonideal: nat, ghost chains: seq<seq<Id>>,
             nxt: Ptr, ghost rest: seq<Id>, ghost moved: set<Id>)
    requires thh.Some? && Indexed(hashv, moved0, hn0, hp0, buckets0, newChains0)
    requires nonideal0 == Excess(buckets0, ideal) && SumCounts(buckets0) == |moved0| && Mults(buckets0, ideal)
    requires Pending(hashv, hn0, old0, chains0, ids, moved0, b, thh, rest0)
    ensures |buckets| == |buckets0| && Indexed(hashv, moved, hn, hp, buckets, chains)
    ensures nonideal == Excess(buckets, ideal) && SumCounts(buckets) == |moved| && Mults(buckets, ideal)
    ensures Pending(hashv, hn, old0, chains0, ids, moved, b, nxt, rest) && |rest| == |rest0| - 1
  {
    hide ToBkt, Excess, SumCounts, Indexed, Distinct, Mults;
    var id := thh.value;
    assert rest0 != [];
    NonEmpty(hashv, moved0, hn0, hp0, buckets0, newChains0);
    PendingStep(hashv, hn0, old0, chains0, ids, moved0, b, thh, rest0,
                buckets0[ToBkt(hashv[id], |buckets0|)].head);
    nxt := hn0[id];
    var bkt := ToBkt(hashv[id], |buckets0|);
    var count, mult := buckets0[bkt].count + 1, buckets0[bkt].mult;
    nonideal := nonideal0;
    if count > ideal {
      nonideal := nonideal + 1;
      if count > mult * ideal {
        mult := mult + 1;
      }
    }
    hp := PushPrev(hp0, buckets0[bkt].head, id);
    hn := hn0[id := buckets0[bkt].head];
    buckets := buckets0[bkt := Bucket(Some(id), count, mult)];
    chains := newChains0[bkt := [id] + newChains0[bkt]];
    moved, rest := moved0 + {id}, rest0[1..];
    CountUpdate(buckets0, bkt, Bucket(Some(id), count, mult), ideal);
    MultsUpdate(buckets0, bkt, Bucket(Some(id), count, mult), ideal);
    InsertKeepsIndexed(hashv, moved0, hn0, hp0, buckets0, newChains0, id, Bucket(Some(id), count, mult));
  }

  lemma NonEmpty(hashv: map<Id, nat>, ids: set<Id>, hn: map<Id, Ptr>, hp: map<Id, Ptr>,
                 buckets: seq<Bucket>, chains: seq<seq<Id>>)
    requires Indexed(hashv, ids, hn, hp, buckets, chains)
    ensures 0 < |buckets| == |chains|
  {
  }

  /** `ideal` is `items / n` rounded up. */
  ghost predicate IsCeiling(ideal: nat, items: nat, n: nat) {
    (ideal as int - 1) * n < items <= ideal * n
  }

  /** The shift-and-mask formula for the ideal chain length rounds up as its comment promises. */
  lemma IdealIsCeiling(numItems: nat, log2: nat, n: nat)
    requires n == Pow2(log2)
    ensures 2 * n == Pow2(log2 + 1)
    ensures IsCeiling(Shr(numItems, log2 + 1) + (if BitAnd(numItems, 2 * n - 1) != 0 then 1 else 0), numItems, 2 * n)
  {
    hide BitAnd, Shr;
    ShiftAndMask(numItems, log2 + 1);
    Neighbours(Shr(numItems, log2 + 1), 2 * n);
  }

  lemma Neighbours(s: int, p: int)
    ensures (s + 1) * p == s * p + p && (s - 1) * p == s * p - p
  {
  }

  // ---------- the table ----------

  ghost function Ids(order: seq<Id>): set<Id> {
    set id | id in order
  }

  ghost predicate Keyed<K>(h: K -> nat, key: map<Id, K>, hashv: map<Id, nat>, order: seq<Id>) {
    && (forall id :: id in order ==> id in key && id in hashv && hashv[id] == h(key[id]))
    && (forall x, y :: x in order && y in order && x != y ==> key[x] != key[y])
  }

  lemma {:induction false} DistinctCount(order: seq<Id>)
    requires Distinct(order)
    ensures |Ids(order)| == |order|
  {
    if order != [] {
      var n := |order| - 1;
      DistinctCount(order[..n]);
      assert Ids(order) == Ids(order[..n]) + {order[n]};
      assert order[n] !in order[..n];
    }
  }

  class Table<K(==)> {
    const h: K -> nat
    var key: map<Id, K>
    var hashv: map<Id, nat>
    var next: map<Id, Ptr>
    var prev: map<Id, Ptr>
    var hhNext: map<Id, Ptr>
    var hhPrev: map<Id, Ptr>
    var head: Ptr
    var tail: Id
    var buckets: seq<Bucket>
    var numBuckets: nat
    var log2: nat
    var numItems: nat
    var ideal: nat
    var nonideal: nat
    var ineff: nat
    var noexpand: bool
    ghost var order: seq<Id>
    ghost var chains: seq<seq<Id>>

    /** The bucket array, as HASH_FSCK checks it: chains, counts and their sum. */
    ghost predicate BucketsOk()
      reads `order, `hashv, `hhNext, `hhPrev, `buckets, `chains, `numItems, `numBuckets, `log2
    {
      && Indexed(hashv, Ids(order), hhNext, hhPrev, buckets, chains)
      && numItems == |order| == SumCounts(buckets)
      && numBuckets == |buckets| == Pow2(log2)
    }

    /** The application-order list. */
    ghost predicate ListOk()
      reads `order, `next, `prev, `head, `tail
    {
      order != [] && Linked(next, prev, head, order) && tail == order[|order| - 1]
    }

    ghost predicate Valid()
      reads this
    {
      && Keyed(h, key, hashv, order)
      && (head.None? <==> order == [])
      && (head.Some? ==> ListOk() && BucketsOk())
    }

    /** `id` is on the list and counted, but not in a bucket yet. */
    ghost predicate HalfAdded(id: Id)
      reads `order, `hashv, `hhNext, `hhPrev, `buckets, `chains, `numItems, `numBuckets, `log2
    {
      && order != [] && id == order[|order| - 1] && id !in order[..|order| - 1] && Distinct(order)
      && Indexed(hashv, Ids(order[..|order| - 1]), hhNext, hhPrev, buckets, chains)
      && SumCounts(buckets) == |order| - 1 && numItems == |order|
      && numBuckets == |buckets| == Pow2(log2)
    }

    constructor (h: K -> nat)
      ensures Valid() && order == [] && this.h == h
    {
      this.h := h;
      key, hashv, next, prev, hhNext, hhPrev := map[], map[], map[], map[], map[], map[];
      head, tail, buckets, numBuckets, log2, numItems := None, 0, [], 0, 0, 0;
      ideal, nonideal, ineff, noexpand := 0, 0, 0, false;
      order, chains := [], [];
    }

    /** `HASH_FIND_IN_BKT` on the bucket of the key's hash. */
    method Find(k: K) returns (r: Ptr)
      requires Valid()
      ensures r.Some? ==> r.value in order && key[r.value] == k
      ensures r.None? ==> forall id :: id in order ==> key[id] != k
    {
      hide ToBkt, Distinct, SumCounts, Pow2;
      if head.None? {
        return None;
      }
      var b := ToBkt(h(k), numBuckets);
      assert ChainOk(hhNext, hhPrev, buckets[b], chains[b]);
      ghost var rest := chains[b];
      r := buckets[b].head;
      while r.Some?
        invariant Forward(hhNext, r, rest)
        invariant forall id :: id in rest ==> id in chains[b]
        invariant forall id :: id in chains[b] && id !in rest ==> key[id] != k
        decreases |rest|
      {
        assert rest[0] in chains[b];
        if hashv[r.value] == h(k) && key[r.value] == k {
          return;
        }
        ForwardTail(hhNext, r, rest);
        r := hhNext[r.value];
        rest := rest[1..];
      }
    }

    /** The bucket half of an addition: `HASH_ADD_TO_BKT`, expanding when the chain gets long. */
    method AddToBucket(id: Id)
      requires HalfAdded(id) && id in hashv
      modifies `hhNext, `hhPrev, `buckets, `chains, `numBuckets, `log2, `ideal, `nonideal, `ineff, `noexpand
      ensures BucketsOk()
      ensures |old(buckets)| > 0
      ensures var b := ToBkt(hashv[id], |old(buckets)|);
              var count, mult := old(buckets)[b].count + 1, old(buckets)[b].mult;
              if count >= (mult + 1) * 10 && !old(noexpand)
              then
                && numBuckets == 2 * old(numBuckets) && IsCeiling(ideal, numItems, numBuckets) && Mults(buckets, ideal)
                && ineff == (if nonideal > numItems / 2 then old(ineff) + 1 else 0) && noexpand == (ineff > 1)
              else
                && buckets == old(buckets)[b := Bucket(Some(id), count, mult)]
                && numBuckets == old(numBuckets) && ineff == old(ineff) && noexpand == old(noexpand)
    {
      hide ToBkt, SumCounts, Indexed, Pow2, Distinct, IsCeiling, Mults;
      ghost var ids := Ids(order[..|order| - 1]);
      NonEmpty(hashv, ids, hhNext, hhPrev, buckets, chains);
      assert order[..|order| - 1] + [id] == order;
      IdsOf(order[..|order| - 1], id);
      var b := ToBkt(hashv[id], numBuckets);
      var bucket := Bucket(Some(id), buckets[b].count + 1, buckets[b].mult);
      InsertKeepsIndexed(hashv, ids, hhNext, hhPrev, buckets, chains, id, bucket);
      CountUpdate(buckets, b, bucket, 0);
      hhNext, hhPrev := hhNext[id := buckets[b].head], PushPrev(hhPrev, buckets[b].head, id);
      chains := chains[b := [id] + chains[b]];
      buckets := buckets[b := bucket];
      if bucket.count >= (bucket.mult + 1) * HASH_BKT_CAPACITY_THRESH && !noexpand {
        ExpandBuckets();
      }
    }

    /** `HASH_EXPAND_BUCKETS` on the table itself. */
    method ExpandBuckets()
      requires BucketsOk() && Distinct(order)
      modifies `hhNext, `hhPrev, `buckets, `chains, `numBuckets, `log2, `ideal, `nonideal, `ineff, `noexpand
      ensures BucketsOk() && numBuckets == 2 * old(numBuckets)
      ensures IsCeiling(ideal, numItems, numBuckets)
      ensures nonideal == Excess(buckets, ideal) && Mults(buckets, ideal)
      ensures ineff == if nonideal > numItems / 2 then old(ineff) + 1 else 0
      ensures noexpand == (old(noexpand) || ineff > 1)
    {
      hide ToBkt, SumCounts, Indexed, Excess, Pow2, Shr, BitAnd, Ids, Distinct, IsCeiling, Mults;
      DistinctCount(order);
      IdealIsCeiling(numItems, log2, numBuckets);
      hhNext, hhPrev, buckets, ideal, nonideal, chains :=
        Expand(hashv, hhNext, hhPrev, buckets, numItems, log2, Ids(order), chains);
      numBuckets, log2 := numBuckets * 2, log2 + 1;
      ineff := if nonideal > numItems / 2 then ineff + 1 else 0;
      if ineff > 1 {
        noexpand := true;
      }
    }

    /** `HASH_ADD_KEYPTR_BYHASHVALUE`: a fresh handle under a key not yet present. */
    method Add(id: Id, k: K)
      requires Valid() && id !in order && forall x :: x in order ==> key[x] != k
      modifies this
      ensures Valid() && order == old(order) + [id] && key == old(key)[id := k]
    {
      hide Keyed, BucketsOk, ListOk, HalfAdded;
      SetKey(id, k);
      LinkHandle(id);
      AddToBucket(id);
    }

    /** The key and hash value of a handle that is not in the table yet. */
    method SetKey(id: Id, k: K)
      requires Keyed(h, key, hashv, order) && id !in order && forall x :: x in order ==> key[x] != k
      requires head.Some? ==> BucketsOk()
      modifies `key, `hashv
      ensures key == old(key)[id := k] && id in hashv && Keyed(h, key, hashv, order + [id])
      ensures head.Some? ==> BucketsOk()
    {
      hide ToBkt, SumCounts, Pow2, Indexed, Keyed, Ids;
      KeyedAdds(h, key, hashv, order, id, k);
      if head.Some? {
        SameHashes(hashv, hashv[id := h(k)], Ids(order), hhNext, hhPrev, buckets, chains);
      }
      key, hashv := key[id := k], hashv[id := h(k)];
    }

    /** The application-order half of an addition; the first handle makes the table. */
    method LinkHandle(id: Id)
      requires id !in order && (head.None? <==> order == [])
      requires head.Some? ==> ListOk() && BucketsOk()
      modifies `head, `tail, `next, `prev, `order, `numItems, `numBuckets, `log2, `ideal, `nonideal, `ineff, `noexpand,
               `buckets, `chains
      ensures order == old(order) + [id] && head.Some? && ListOk() && HalfAdded(id)
    {
      hide ToBkt, SumCounts, Pow2, Indexed, Linked, Ids;
      ghost var before := order;
      if head.None? {
        next, prev := next[id := None], prev[id := None];
        MakeTable(id);
        Singleton(next, prev, id);
        assert order + [id] == [id];
      } else {
        PushBack(next, prev, head, order, id);
        next, prev := next[id := None][tail := Some(id)], prev[id := Some(tail)];
        tail := id;
      }
      order := order + [id];
      numItems := numItems + 1;
      assert order[..|before|] == before;
      LinkedDistinct(next, prev, head, order);
    }

    /** `id` is off the list but still counted and in its bucket. */
    ghost predicate HalfDeleted(id: Id)
      reads `order, `hashv, `hhNext, `hhPrev, `buckets, `chains, `numItems, `numBuckets, `log2
    {
      && id !in order
      && Indexed(hashv, Ids(order) + {id}, hhNext, hhPrev, buckets, chains)
      && numItems == |order| + 1 == SumCounts(buckets)
      && numBuckets == |buckets| == Pow2(log2)
    }

    /** `HASH_DELETE_HH`; taking the last handle frees the table. */
    method Delete(id: Id)
      requires Valid() && id in order
      modifies this
      ensures Valid() && key == old(key)
      ensures exists k :: 0 <= k < |old(order)| && old(order)[k] == id && order == Without(old(order), k)
    {
      hide Keyed, BucketsOk, ListOk, HalfDeleted;
      ghost var before := order;
      ghost var k := UnlinkHandle(id);
      KeyedRemoves(h, key, hashv, before, k);
      if head.Some? {
        DeleteFromBucket(id);
      }
    }

    /** The application-order half of a deletion. */
    method UnlinkHandle(id: Id) returns (ghost k: nat)
      requires ListOk() && BucketsOk() && head.Some? && id in order
      modifies `head, `tail, `next, `prev, `order
      ensures k < |old(order)| && old(order)[k] == id && order == Without(old(order), k)
      ensures head.None? <==> order == []
      ensures head.Some? ==> ListOk() && HalfDeleted(id)
    {
      hide ToBkt, SumCounts, Pow2, Indexed, NextAt, PrevAt, Ids;
      k :| 0 <= k < |order| && order[k] == id;
      Unlink(next, prev, head, order, k);
      var before, after := prev[id], next[id];
      ghost var order' := Without(order, k);
      WithoutIds(order, k);
      Ends(next, prev, head, order, k);
      if before.None? && after.None? {
        head := None;
      } else {
        if id == tail {
          tail := before.value;
        }
        if before.None? {
          head := after;
        }
        next, prev := UnlinkNext(next, before, after), UnlinkPrev(prev, before, after);
      }
      order := order';
    }

    /** The bucket half of a deletion: `HASH_DEL_IN_BKT`. */
    method DeleteFromBucket(id: Id)
      requires HalfDeleted(id)
      modifies `hhNext, `hhPrev, `buckets, `chains, `numItems
      ensures BucketsOk()
    {
      hide ToBkt, SumCounts, Pow2, Ids, Distinct, Indexed, UnlinkNext, UnlinkPrev;
      ghost var ids := Ids(order) + {id};
      ghost var k := Place(hashv, ids, hhNext, hhPrev, buckets, chains, id);
      var b := ToBkt(hashv[id], numBuckets);
      var first := if buckets[b].head == Some(id) then hhNext[id] else buckets[b].head;
      var bucket := Bucket(first, buckets[b].count - 1, buckets[b].mult);
      RemoveKeepsIndexed(hashv, ids, hhNext, hhPrev, buckets, chains, id, k, bucket);
      CountUpdate(buckets, b, bucket, 0);
      NotListed(order, id);
      hhNext, hhPrev := UnlinkNext(hhNext, hhPrev[id], hhNext[id]), UnlinkPrev(hhPrev, hhPrev[id], hhNext[id]);
      chains := chains[b := Without(chains[b], k)];
      buckets := buckets[b := bucket];
      numItems := numItems - 1;
    }

    /** `HASH_MAKE_TABLE`. */
    method MakeTable(id: Id)
      modifies `head, `tail, `numItems, `numBuckets, `log2, `ideal, `nonideal, `ineff, `noexpand, `buckets, `chains
      ensures head == Some(id) && tail == id && numItems == 0
      ensures numBuckets == |buckets| == Pow2(log2) && SumCounts(buckets) == 0
      ensures Indexed(hashv, {}, hhNext, hhPrev, buckets, chains)
    {
      hide ToBkt, Pow2, ChainOk, Indexed, SumCounts, Excess, EmptyBuckets, EmptyChains;
      head, tail, numItems := Some(id), id, 0;
      numBuckets, log2 := HASH_INITIAL_NUM_BUCKETS, HASH_INITIAL_NUM_BUCKETS_LOG2;
      ideal, nonideal, ineff, noexpand := 0, 0, 0, false;
      NewBuckets(hashv, hhNext, hhPrev);
      buckets, chains := EmptyBuckets(HASH_INITIAL_NUM_BUCKETS), EmptyChains(HASH_INITIAL_NUM_BUCKETS);
    }
  }

  function EmptyBuckets(n: nat): (bs: seq<Bucket>)
    ensures |bs| == n
  {
    seq(n, _ => EMPTY)
  }

  ghost function EmptyChains(n: nat): seq<seq<Id>> { seq(n, _ => []) }

  lemma NewBuckets(hashv: map<Id, nat>, hn: map<Id, Ptr>, hp: map<Id, Ptr>)
    ensures Pow2(HASH_INITIAL_NUM_BUCKETS_LOG2) == HASH_INITIAL_NUM_BUCKETS
    ensures SumCounts(EmptyBuckets(HASH_INITIAL_NUM_BUCKETS)) == 0
    ensures Indexed(hashv, {}, hn, hp, EmptyBuckets(HASH_INITIAL_NUM_BUCKETS), EmptyChains(HASH_INITIAL_NUM_BUCKETS))
  {
    hide Indexed;
    EmptyCounts(EmptyBuckets(HASH_INITIAL_NUM_BUCKETS), 0);
    ThirtyTwo();
    EmptyIndexed(hashv, hn, hp, HASH_INITIAL_NUM_BUCKETS);
  }

  lemma EmptyIndexed(hashv: map<Id, nat>, hn: map<Id, Ptr>, hp: map<Id, Ptr>, n: nat)
    requires n > 0
    ensures Indexed(hashv, {}, hn, hp, EmptyBuckets(n), EmptyChains(n))
  {
    hide ToBkt;
  }

  lemma KeyedAdds<K>(h: K -> nat, key: map<Id, K>, hashv: map<Id, nat>, order: seq<Id>, id: Id, k: K)
    requires Keyed(h, key, hashv, order) && id !in order && forall x :: x in order ==> key[x] != k
    ensures Keyed(h, key[id := k], hashv[id := h(k)], order + [id])
    ensures Ids(order) <= hashv.Keys && forall x :: x in Ids(order) ==> hashv[id := h(k)][x] == hashv[x]
  {
  }

  lemma KeyedRemoves<K>(h: K -> nat, key: map<Id, K>, hashv: map<Id, nat>, order: seq<Id>, k: nat)
    requires Keyed(h, key, hashv, order) && k < |order|
    ensures Keyed(h, key, hashv, Without(order, k))
  {
  }

  lemma WithoutIds(order: seq<Id>, k: nat)
    requires Distinct(order) && k < |order|
    ensures order[k] !in Without(order, k) && Ids(Without(order, k)) + {order[k]} == Ids(order)
  {
    var rest := Without(order, k);
    forall x | x in order && x != order[k]
      ensures x in rest
    {
      var i :| 0 <= i < |order| && order[i] == x;
      assert rest[if i < k then i else i - 1] == x;
    }
  }

  lemma NotListed(order: seq<Id>, id: Id)
    requires id !in order
    ensures Ids(order) + {id} - {id} == Ids(order)
  {
  }

  /** A handle without neighbours is the only one; one without a successor is the last. */
  lemma Ends(nx: map<Id, Ptr>, pv: map<Id, Ptr>, h: Ptr, s: seq<Id>, k: nat)
    requires Linked(nx, pv, h, s) && k < |s|
    ensures s[k] in nx && s[k] in pv
    ensures pv[s[k]].None? <==> k == 0
    ensures nx[s[k]].None? <==> k == |s| - 1
    ensures s[|s| - 1] == s[k] <==> k == |s| - 1
    ensures pv[s[k]].Some? ==> pv[s[k]].value == s[k - 1]
    ensures |Without(s, k)| == |s| - 1
  {
    assert NextAt(nx, s, k) && PrevAt(pv, s, k);
  }

  lemma Singleton(nx: map<Id, Ptr>, pv: map<Id, Ptr>, id: Id)
    requires id in nx && id in pv && nx[id] == None && pv[id] == None
    ensures Linked(nx, pv, Some(id), [id]) && Ids([]) == {}
  {
  }

  lemma LinkedDistinct(nx: map<Id, Ptr>, pv: map<Id, Ptr>, p: Ptr, s: seq<Id>)
    requires Linked(nx, pv, p, s)
    ensures Distinct(s)
  {
  }

  lemma IdsOf(order: seq<Id>, id: Id)
    requires id !in order
    ensures Ids(order + [id]) == Ids(order) + {id} && id !in Ids(order)
  {
  }

  lemma ThirtyTwo()
    ensures Pow2(HASH_INITIAL_NUM_BUCKETS_LOG2) == HASH_INITIAL_NUM_BUCKETS
  {
    assert Pow2(2) == 4;
    assert Pow2(4) == 16;
  }

  /** Hash values of handles outside the table do not matter. */
  lemma SameHashes(hashv: map<Id, nat>, hashv': map<Id, nat>, ids: set<Id>, hn: map<Id, Ptr>, hp: map<Id, Ptr>,
                   buckets: seq<Bucket>, chains: seq<seq<Id>>)
    requires Indexed(hashv, ids, hn, hp, buckets, chains) && ids <= hashv'.Keys
    requires forall id :: id in ids ==> hashv'[id] == hashv[id]
    ensures Indexed(hashv', ids, hn, hp, buckets, chains)
  {
    hide ToBkt, ChainOk;
  }

  /** Every item is on the chain of the bucket that is its hash modulo the number of buckets, a power of two, and
      on no other; and a chain is linked from its bucket and as long as that counts. */
  lemma ItemInItsBucket<K>(t: Table<K>, id: Id, b: nat)
    requires t.Valid() && id in t.order && b < |t.buckets|
    ensures id in t.key && id in t.hashv && t.hashv[id] == t.h(t.key[id])
    ensures |t.chains| == |t.buckets| > 0 && (id in t.chains[b] <==> b == t.hashv[id] % |t.buckets|)
    ensures Linked(t.hhNext, t.hhPrev, t.buckets[b].head, t.chains[b]) && t.buckets[b].count == |t.chains[b]|
    ensures |t.buckets| == Pow2(t.log2)
  {
    hide BitAnd, ToBkt, SumCounts, Pow2;
    BucketIsRemainder(t.hashv[id], t.log2);
    assert ChainOk(t.hhNext, t.hhPrev, t.buckets[b], t.chains[b]);
  }
}
