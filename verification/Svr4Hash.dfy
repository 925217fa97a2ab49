/** The SVR4 `.hash` section: its construction in ld/ld_hash.c and the walks of elfdump over it. */
module Svr4Hash {
  import opened Bytes

  const HASH_BUCKETS: seq<nat> := [1, 3, 17, 37, 67, 97, 131, 197, 263, 521, 1031, 2053, 4099, 8209,
                                   16411, 32771, 65537, 131101, 262147]

  /** Dynamic symbols 1, 2, ... in index order; some have no name. */
  type Symbols = seq<Option<Name>>

  type Hash = Name -> nat

  /** The bucket of dynamic symbol `i`, if it has a name. */
  predicate InBucket(h: Hash, syms: Symbols, nb: nat, i: nat, b: nat)
    requires nb > 0
  {
    1 <= i <= |syms| && syms[i - 1].Some? && h(syms[i - 1].value) % nb == b
  }

  /** The symbols up to index `m` that belong in bucket `b`, the latest first. */
  function Members(h: Hash, syms: Symbols, nb: nat, b: nat, m: nat): (r: seq<nat>)
    requires nb > 0 && m <= |syms|
    ensures forall k :: 0 <= k < |r| ==> 1 <= r[k] <= m && InBucket(h, syms, nb, r[k], b)
    ensures forall k, l :: 0 <= k < l < |r| ==> r[k] > r[l]
  {
    if m == 0 then []
    else if InBucket(h, syms, nb, m, b) then [m] + Members(h, syms, nb, b, m - 1)
    else Members(h, syms, nb, b, m - 1)
  }

  lemma {:induction false} MembersComplete(h: Hash, syms: Symbols, nb: nat, b: nat, m: nat, i: nat)
    requires nb > 0 && 1 <= i <= m <= |syms| && InBucket(h, syms, nb, i, b)
    ensures i in Members(h, syms, nb, b, m)
  {
    if i < m {
      MembersComplete(h, syms, nb, b, m - 1, i);
    }
  }

  // ---------- the section ----------

  /** Number of buckets, number of chains, the buckets, the chains. */
  predicate Shape(buf: seq<nat>) {
    && |buf| >= 2 && buf[0] > 0 && buf[1] > 0 && |buf| == buf[0] + buf[1] + 2
  }

  function Bucket(buf: seq<nat>, b: nat): nat
    requires Shape(buf) && b < buf[0]
  {
    buf[2 + b]
  }

  function Chain(buf: seq<nat>, i: nat): nat
    requires Shape(buf) && i < buf[1]
  {
    buf[2 + buf[0] + i]
  }

  /** Chain indices strictly decrease, so that every walk ends. */
  predicate Decreasing(buf: seq<nat>)
    requires Shape(buf)
  {
    forall i :: 1 <= i < buf[1] ==> Chain(buf, i) < i
  }

  /** The symbols met from index `j` on: `for (j = ...; j > 0 && j < nchain; j = chain[j])`. */
  function Walk(buf: seq<nat>, j: nat): seq<nat>
    requires Shape(buf) && Decreasing(buf)
    decreases j
  {
    if 0 < j < buf[1] then [j] + Walk(buf, Chain(buf, j)) else []
  }

  /** Entries from index `j` on do not matter to a walk that starts below it. */
  lemma {:induction false} WalkFrame(buf: seq<nat>, buf': seq<nat>, j: nat, m: nat)
    requires Shape(buf) && Decreasing(buf) && Shape(buf') && Decreasing(buf') && j < m
    requires buf[0] == buf'[0] && buf[1] == buf'[1]
    requires forall i :: 1 <= i < m && i < buf[1] ==> Chain(buf', i) == Chain(buf, i)
    ensures Walk(buf', j) == Walk(buf, j)
    decreases j
  {
    if 0 < j < buf[1] {
      WalkFrame(buf, buf', Chain(buf, j), m);
    }
  }

  /** The section after the first `m` symbols. */
  ghost predicate Built(h: Hash, syms: Symbols, nb: nat, buf: seq<nat>, m: nat) {
    && nb > 0 && m <= |syms| && Shape(buf) && buf[0] == nb && buf[1] == |syms| + 1 && Decreasing(buf)
    && (forall b :: 0 <= b < nb ==> Bucket(buf, b) <= m && Walk(buf, Bucket(buf, b)) == Members(h, syms, nb, b, m))
    && (forall i :: m < i <= |syms| ==> Chain(buf, i) == 0)
  }

  lemma NamedStep(h: Hash, syms: Symbols, nb: nat, buf: seq<nat>, m: nat, buf': seq<nat>)
    requires Built(h, syms, nb, buf, m) && m < |syms| && syms[m].Some?
    requires var j := h(syms[m].value) % nb;
             buf' == buf[2 + nb + (m + 1) := Bucket(buf, j)][2 + j := m + 1]
    ensures Built(h, syms, nb, buf', m + 1)
  {
    hide Walk, Members;
    var j := h(syms[m].value) % nb;
    assert InBucket(h, syms, nb, m + 1, j);
    assert forall b :: 0 <= b < nb ==> Bucket(buf', b) == if b == j then m + 1 else Bucket(buf, b);
    assert forall i :: 1 <= i <= |syms| ==> Chain(buf', i) == if i == m + 1 then Bucket(buf, j) else Chain(buf, i);
    forall b | 0 <= b < nb
      ensures Walk(buf', Bucket(buf', b)) == Members(h, syms, nb, b, m + 1)
    {
      WalkFrame(buf, buf', Bucket(buf, b), m + 1);
      MembersStep(h, syms, nb, b, m);
      if b == j {
        WalkStep(buf', m + 1);
      }
    }
  }

  lemma WalkStep(buf: seq<nat>, j: nat)
    requires Shape(buf) && Decreasing(buf) && 0 < j < buf[1]
    ensures Walk(buf, j) == [j] + Walk(buf, Chain(buf, j))
  {
  }

  lemma MembersStep(h: Hash, syms: Symbols, nb: nat, b: nat, m: nat)
    requires nb > 0 && m < |syms|
    ensures Members(h, syms, nb, b, m + 1)
            == if InBucket(h, syms, nb, m + 1, b) then [m + 1] + Members(h, syms, nb, b, m)
                else Members(h, syms, nb, b, m)
  {
  }

  lemma UnnamedStep(h: Hash, syms: Symbols, nb: nat, buf: seq<nat>, m: nat)
    requires Built(h, syms, nb, buf, m) && m < |syms| && syms[m].None?
    ensures Built(h, syms, nb, buf, m + 1)
  {
    hide Walk;
    forall b | 0 <= b < nb
      ensures Walk(buf, Bucket(buf, b)) == Members(h, syms, nb, b, m + 1)
    {
      assert !InBucket(h, syms, nb, m + 1, b);
    }
  }

  /** The largest size in the table that is not above the number of symbols. */
  method BucketCount(nchains: nat) returns (nb: nat)
    requires nchains > 0
    ensures nb in HASH_BUCKETS && 0 < nb <= nchains
    ensures forall k :: 0 <= k < |HASH_BUCKETS| && HASH_BUCKETS[k] <= nchains ==> HASH_BUCKETS[k] <= nb
  {
    TableIncreases();
    hide HASH_BUCKETS;
    nb := 0;
    var i: nat := 1;
    while i < |HASH_BUCKETS|
      invariant 1 <= i <= |HASH_BUCKETS| && nb == 0 && HASH_BUCKETS[i - 1] <= nchains
    {
      if nchains < HASH_BUCKETS[i] {
        nb := HASH_BUCKETS[i - 1];
        break;
      }
      i := i + 1;
    }
    if nb == 0 {
      nb := HASH_BUCKETS[i - 1];
    }
  }

  lemma TableIncreases()
    ensures |HASH_BUCKETS| > 0 && HASH_BUCKETS[0] == 1
    ensures forall i, j :: 0 <= i < j < |HASH_BUCKETS| ==> HASH_BUCKETS[i] < HASH_BUCKETS[j]
  {
    assert forall i :: 0 <= i < |HASH_BUCKETS| - 1 ==> HASH_BUCKETS[i] < HASH_BUCKETS[i + 1];
    Increasing(HASH_BUCKETS);
  }

  lemma {:induction false} Increasing(s: seq<nat>)
    requires forall i :: 0 <= i < |s| - 1 ==> s[i] < s[i + 1]
    ensures forall i, j :: 0 <= i < j < |s| ==> s[i] < s[j]
  {
    if |s| > 1 {
      var n := |s| - 1;
      Increasing(s[..n]);
      assert s[n - 1] < s[n];
      forall i | 0 <= i < n
        ensures s[i] < s[n]
      {
        assert i < n - 1 ==> s[..n][i] < s[..n][n - 1];
      }
    }
  }

  /** `ld_hash_create_svr4_hash_section`. */
  method CreateHash(h: Hash, syms: Symbols) returns (buf: array<nat>)
    ensures fresh(buf) && buf.Length > 0 && buf[0] in HASH_BUCKETS && Built(h, syms, buf[0], buf[..], |syms|)
  {
    hide Walk, Members, HASH_BUCKETS;
    var nchains := |syms| + 1;
    var nb := BucketCount(nchains);
    buf := new nat[nb + nchains + 2](_ => 0);
    buf[0], buf[1] := nb, nchains;
    Empty(h, syms, nb, buf[..]);
    for m := 0 to |syms|
      invariant buf.Length == nb + nchains + 2 && buf[0] == nb && Built(h, syms, nb, buf[..], m)
    {
      if syms[m].None? {
        UnnamedStep(h, syms, nb, buf[..], m);
      } else {
        ghost var was: seq<nat> := buf[..];
        var j := h(syms[m].value) % nb;
        buf[2 + nb + (m + 1)] := buf[2 + j];
        buf[2 + j] := m + 1;
        assert buf[..] == was[2 + nb + (m + 1) := Bucket(was, j)][2 + j := m + 1];
        NamedStep(h, syms, nb, was, m, buf[..]);
      }
    }
  }

  lemma Empty(h: Hash, syms: Symbols, nb: nat, buf: seq<nat>)
    requires nb > 0 && |buf| == nb + |syms| + 3 && buf[0] == nb && buf[1] == |syms| + 1
    requires forall i :: 2 <= i < |buf| ==> buf[i] == 0
    ensures Built(h, syms, nb, buf, 0)
  {
  }

  // ---------- looking symbols up ----------

  /** Every named symbol is met on the walk from the bucket of its name, and nothing else is. */
  lemma NamedSymbolReachable(h: Hash, syms: Symbols, nb: nat, buf: seq<nat>, b: nat, i: nat)
    requires Built(h, syms, nb, buf, |syms|) && b < nb
    ensures i in Walk(buf, Bucket(buf, b)) <==> InBucket(h, syms, nb, i, b)
    ensures forall k, l :: 0 <= k < l < |Walk(buf, Bucket(buf, b))| ==>
              Walk(buf, Bucket(buf, b))[k] > Walk(buf, Bucket(buf, b))[l]
  {
    if InBucket(h, syms, nb, i, b) {
      MembersComplete(h, syms, nb, b, |syms|, i);
    }
  }

  // ---------- the histogram of elfdump ----------

  function Sum(s: seq<nat>): nat {
    if s == [] then 0 else Sum(s[..|s| - 1]) + s[|s| - 1]
  }

  /** Sum over all lengths of (buckets of that length) times the length. */
  function Weighted(c: seq<nat>): nat {
    if c == [] then 0 else Weighted(c[..|c| - 1]) + c[|c| - 1] * (|c| - 1)
  }

  lemma {:induction false} WeightedUpdate(c: seq<nat>, l: nat)
    requires l < |c|
    ensures Weighted(c[l := c[l] + 1]) == Weighted(c) + l
  {
    var n := |c| - 1;
    var c' := c[l := c[l] + 1];
    if l < n {
      WeightedUpdate(c[..n], l);
      assert c'[..n] == c[..n][l := c[l] + 1];
    } else {
      assert c'[..n] == c[..n];
      assert (c[n] + 1) * n == c[n] * n + n;
    }
  }

  lemma SumSnoc(s: seq<nat>, x: nat)
    ensures Sum(s + [x]) == Sum(s) + x && Sum([]) == 0
  {
    assert (s + [x])[..|s|] == s;
  }

  lemma {:induction false} WeightedZero(c: seq<nat>)
    requires forall i :: 0 <= i < |c| ==> c[i] == 0
    ensures Weighted(c) == 0
  {
    if c != [] {
      WeightedZero(c[..|c| - 1]);
    }
  }

  /** Chain lengths of the first `n` buckets. */
  function Lengths(buf: seq<nat>, n: nat): (r: seq<nat>)
    requires Shape(buf) && Decreasing(buf) && n <= buf[0]
    ensures |r| == n && forall b :: 0 <= b < n ==> r[b] == |Walk(buf, Bucket(buf, b))|
  {
    seq(n, b requires 0 <= b < n => |Walk(buf, Bucket(buf, b))|)
  }

  lemma LengthsSnoc(buf: seq<nat>, n: nat)
    requires Shape(buf) && Decreasing(buf) && n < buf[0]
    ensures Sum(Lengths(buf, n + 1)) == Sum(Lengths(buf, n)) + |Walk(buf, Bucket(buf, n))|
  {
    hide Walk;
    assert Lengths(buf, n + 1)[..n] == Lengths(buf, n);
  }

  /** One chain walked: how many symbols it holds. */
  method ChainLength(buf: seq<nat>, b: nat) returns (len: nat)
    requires Shape(buf) && Decreasing(buf) && b < buf[0]
    ensures len == |Walk(buf, Bucket(buf, b))|
  {
    len := 0;
    var j := Bucket(buf, b);
    while j > 0 && j < buf[1]
      invariant len + |Walk(buf, j)| == |Walk(buf, Bucket(buf, b))|
      decreases j
    {
      len := len + 1;
      j := Chain(buf, j);
    }
  }

  /** The length of every chain, and the greatest. */
  method ChainLengths(buf: seq<nat>) returns (bl: array<nat>, maxl: nat)
    requires Shape(buf) && Decreasing(buf)
    ensures fresh(bl) && bl[..] == Lengths(buf, buf[0])
    ensures (forall k :: 0 <= k < bl.Length ==> bl[k] <= maxl) && (maxl == 0 || maxl in bl[..])
  {
    hide Walk, Bucket, Chain, Decreasing;
    bl, maxl := new nat[buf[0]](_ => 0), 0;
    for i := 0 to buf[0]
      invariant bl.Length == buf[0] && bl[..i] == Lengths(buf, i)
      invariant (forall k :: 0 <= k < i ==> bl[k] <= maxl) && (maxl == 0 || maxl in bl[..i])
    {
      bl[i] := ChainLength(buf, i);
      if bl[i] > maxl {
        maxl := bl[i];
      }
      assert bl[..i + 1] == bl[..i] + [bl[i]] == Lengths(buf, i + 1);
    }
    assert bl[..buf[0]] == bl[..];
  }

  /** `c` says how often each number below its length is in `s`. */
  ghost predicate Tallies(c: seq<nat>, s: seq<nat>) {
    forall n :: 0 <= n < |c| ==> c[n] == multiset(s)[n]
  }

  lemma TallyOne(c: seq<nat>, s: seq<nat>, x: nat)
    requires Tallies(c, s) && x < |c|
    ensures Tallies(c[x := c[x] + 1], s + [x])
  {
  }

  lemma TallyNone(c: seq<nat>)
    requires forall n :: 0 <= n < |c| ==> c[n] == 0
    ensures Tallies(c, [])
  {
  }

  /** How many chains have each length. */
  method CountLengths(bl: array<nat>, maxl: nat) returns (c: array<nat>)
    requires forall k :: 0 <= k < bl.Length ==> bl[k] <= maxl
    ensures fresh(c) && c.Length == maxl + 1 && Weighted(c[..]) == Sum(bl[..])
    ensures Tallies(c[..], bl[..])
  {
    hide Tallies, Weighted, Sum;
    c := new nat[maxl + 1](_ => 0);
    WeightedZero(c[..]);
    TallyNone(c[..]);
    SumSnoc([], 0);
    assert bl[..0] == [];
    for i := 0 to bl.Length
      invariant c.Length == maxl + 1 && Weighted(c[..]) == Sum(bl[..i])
      invariant Tallies(c[..], bl[..i])
    {
      ghost var was: seq<nat> := c[..];
      WeightedUpdate(was, bl[i]);
      TallyOne(was, bl[..i], bl[i]);
      SumSnoc(bl[..i], bl[i]);
      assert bl[..i + 1] == bl[..i] + [bl[i]] && bl[..i + 1][..i] == bl[..i];
      c[bl[i]] := c[bl[i]] + 1;
      assert c[..] == was[bl[i] := was[bl[i]] + 1];
    }
    assert bl[..bl.Length] == bl[..];
  }

  /** `elf_print_svr4_hash`: the symbols counted length by length. */
  method Histogram(buf: seq<nat>) returns (c: array<nat>, total: nat)
    requires Shape(buf) && Decreasing(buf)
    ensures fresh(c) && total == Sum(Lengths(buf, buf[0]))
    ensures var lengths := Lengths(buf, buf[0]);
            && c.Length > 0 && (forall n :: n in lengths ==> n < c.Length) && (c.Length == 1 || c.Length - 1 in lengths)
            && Tallies(c[..], lengths)
  {
    hide Walk, Bucket, Chain, Decreasing, Lengths, Tallies, Sum;
    var bl, maxl := ChainLengths(buf);
    c := CountLengths(bl, maxl);
    total := 0;
    assert c[..0] == [];
    for i := 0 to maxl + 1
      invariant total == Weighted(c[..i])
    {
      assert c[..i + 1][..i] == c[..i];
      total := total + c[i] * i;
    }
    assert c[..maxl + 1] == c[..];
  }

  lemma EmptySum(buf: seq<nat>)
    requires Shape(buf) && Decreasing(buf)
    ensures Sum(Lengths(buf, 0)) == 0
  {
  }

  // ---------- the total is the number of named symbols ----------

  function Named(syms: Symbols): nat {
    if syms == [] then 0 else Named(syms[..|syms| - 1]) + (if syms[|syms| - 1].Some? then 1 else 0)
  }

  /** Members of the first `n` buckets. */
  function Spread(h: Hash, syms: Symbols, nb: nat, m: nat, n: nat): nat
    requires nb > 0 && m <= |syms|
  {
    if n == 0 then 0 else Spread(h, syms, nb, m, n - 1) + |Members(h, syms, nb, n - 1, m)|
  }

  lemma {:induction false} SpreadStep(h: Hash, syms: Symbols, nb: nat, m: nat, n: nat)
    requires nb > 0 && m < |syms|
    ensures Spread(h, syms, nb, m + 1, n) == Spread(h, syms, nb, m, n)
            + (if syms[m].Some? && h(syms[m].value) % nb < n then 1 else 0)
  {
    hide Members;
    if n > 0 {
      SpreadStep(h, syms, nb, m, n - 1);
      MembersStep(h, syms, nb, n - 1, m);
    }
  }

  lemma {:induction false} SpreadIsNamed(h: Hash, syms: Symbols, nb: nat, m: nat)
    requires nb > 0 && m <= |syms|
    ensures Spread(h, syms, nb, m, nb) == Named(syms[..m])
  {
    if m == 0 {
      SpreadNothing(h, syms, nb, nb);
    } else {
      SpreadIsNamed(h, syms, nb, m - 1);
      SpreadStep(h, syms, nb, m - 1, nb);
      assert syms[..m][..m - 1] == syms[..m - 1];
    }
  }

  lemma {:induction false} SpreadNothing(h: Hash, syms: Symbols, nb: nat, n: nat)
    requires nb > 0
    ensures Spread(h, syms, nb, 0, n) == 0
  {
    if n > 0 {
      SpreadNothing(h, syms, nb, n - 1);
    }
  }

  lemma {:induction false} LengthsAreSpread(h: Hash, syms: Symbols, nb: nat, buf: seq<nat>, n: nat)
    requires Built(h, syms, nb, buf, |syms|) && n <= nb
    ensures Sum(Lengths(buf, n)) == Spread(h, syms, nb, |syms|, n)
  {
    hide Members, Walk;
    if n == 0 {
      EmptySum(buf);
    } else {
      LengthsAreSpread(h, syms, nb, buf, n - 1);
      LengthsSnoc(buf, n - 1);
    }
  }

  /** For a section ld made, the total elfdump prints is the number of named dynamic symbols. */
  lemma HistogramTotal(h: Hash, syms: Symbols, nb: nat, buf: seq<nat>)
    requires Built(h, syms, nb, buf, |syms|)
    ensures Sum(Lengths(buf, nb)) == Named(syms)
  {
    LengthsAreSpread(h, syms, nb, buf, nb);
    SpreadIsNamed(h, syms, nb, |syms|);
    assert syms[..|syms|] == syms;
  }
}
