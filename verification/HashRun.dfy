/** Whole runs of the hash table against its specification: a list of (handle, key) entries in the
    order they were added, with at most one entry for a key. */
module HashRun {
  import opened Bytes
  import opened LinkedLists
  import opened HashTable

  type Listing<!K> = seq<(Id, K)>

  datatype Op<K> = Put(id: Id, key: K) | Get(key: K) | Take(key: K)

  /** Position of the entry with key `k`, or the length of the list. */
  function Where<K(==)>(l: Listing<K>, k: K): (i: nat)
    ensures i <= |l|
    ensures i < |l| ==> l[i].1 == k
    ensures forall j :: 0 <= j < i ==> l[j].1 != k
  {
    if l == [] || l[0].1 == k then 0 else 1 + Where(l[1..], k)
  }

  function Lookup<K(==)>(l: Listing<K>, k: K): Ptr {
    var i := Where(l, k);
    if i < |l| then Some(l[i].0) else None
  }

  /** What one operation answers and leaves: adding needs a free key, taking removes just that entry. */
  function Step<K(==)>(l: Listing<K>, op: Op<K>): (Listing<K>, Ptr) {
    var r := Lookup(l, op.key);
    match op
    case Put(id, k) => (if r.None? then l + [(id, k)] else l, r)
    case Get(k) => (l, r)
    case Take(k) => (if r.None? then l else l[..Where(l, k)] + l[Where(l, k) + 1..], r)
  }

  function Run<K(==)>(l: Listing<K>, ops: seq<Op<K>>): (Listing<K>, seq<Ptr>) {
    if ops == [] then (l, [])
    else
      var (m, answers) := Run(l, ops[..|ops| - 1]);
      var (m', r) := Step(m, ops[|ops| - 1]);
      (m', answers + [r])
  }

  /** A handle is put into the table only while it is not in it. */
  predicate Fresh<K(==)>(l: Listing<K>, op: Op<K>) {
    op.Put? ==> forall i :: 0 <= i < |l| ==> l[i].0 != op.id
  }

  predicate Legal<K(==)>(l: Listing<K>, ops: seq<Op<K>>) {
    forall i :: 0 <= i < |ops| ==> Fresh(Run(l, ops[..i]).0, ops[i])
  }

  ghost function Entries<K>(order: seq<Id>, key: map<Id, K>): (l: Listing<K>)
    requires forall id :: id in order ==> id in key
    ensures |l| == |order|
  {
    seq(|order|, i requires 0 <= i < |order| => (order[i], key[order[i]]))
  }

  ghost function Abs<K>(t: Table<K>): Listing<K>
    requires t.Valid()
    reads t
  {
    Entries(t.order, t.key)
  }

  lemma WhereIs<K>(l: Listing<K>, k: K, i: nat)
    requires i < |l| && l[i].1 == k && forall j :: 0 <= j < i ==> l[j].1 != k
    ensures Where(l, k) == i
  {
  }

  lemma Found<K>(order: seq<Id>, key: map<Id, K>, k: K, i: nat)
    requires forall id :: id in order ==> id in key
    requires forall x, y :: x in order && y in order && x != y ==> key[x] != key[y]
    requires Distinct(order) && i < |order| && key[order[i]] == k
    ensures Where(Entries(order, key), k) == i
  {
    var l := Entries(order, key);
    forall j | 0 <= j < i
      ensures l[j].1 != k
    {
      assert order[j] != order[i];
    }
    WhereIs(l, k, i);
  }

  lemma DistinctOrder<K>(t: Table<K>)
    requires t.Valid()
    ensures Distinct(t.order) && Keyed(t.h, t.key, t.hashv, t.order)
  {
  }

  /** `HASH_FIND` answers as the list does. */
  method FindEntry<K(==)>(t: Table<K>, k: K) returns (r: Ptr)
    requires t.Valid()
    ensures r == Lookup(Abs(t), k)
    ensures r.Some? ==> r.value in t.order && t.key[r.value] == k
    ensures r.None? ==> forall id :: id in t.order ==> t.key[id] != k
  {
    DistinctOrder(t);
    hide Table.Valid, Distinct;
    r := t.Find(k);
    if r.Some? {
      ghost var i :| 0 <= i < |t.order| && t.order[i] == r.value;
      Found(t.order, t.key, k, i);
    } else {
      ghost var l := Entries(t.order, t.key);
      assert forall j :: 0 <= j < |l| ==> l[j].1 == t.key[t.order[j]] && t.order[j] in t.order;
    }
  }

  lemma EntryAdded<K>(order: seq<Id>, key: map<Id, K>, id: Id, k: K)
    requires (forall x :: x in order ==> x in key) && id !in order
    ensures forall x :: x in order + [id] ==> x in key[id := k]
    ensures Entries(order + [id], key[id := k]) == Entries(order, key) + [(id, k)]
  {
    var key' := key[id := k];
    assert forall i :: 0 <= i < |order| ==> order[i] in order && key'[order[i]] == key[order[i]];
  }

  lemma EntryTaken<K>(order: seq<Id>, key: map<Id, K>, k: K, i: nat)
    requires forall x :: x in order ==> x in key
    requires forall x, y :: x in order && y in order && x != y ==> key[x] != key[y]
    requires Distinct(order) && i < |order| && key[order[i]] == k
    ensures forall x :: x in Without(order, i) ==> x in key
    ensures Entries(Without(order, i), key) == Step(Entries(order, key), Take(k)).0
  {
    Found(order, key, k, i);
    var l := Entries(order, key);
    assert Entries(Without(order, i), key) == l[..i] + l[i + 1..];
  }

  lemma FreshHandle<K>(t: Table<K>, op: Op<K>)
    requires t.Valid() && op.Put? && Fresh(Abs(t), op)
    ensures op.id !in t.order
  {
    var l := Abs(t);
    forall i | 0 <= i < |t.order|
      ensures t.order[i] != op.id
    {
      assert l[i].0 != op.id;
    }
  }

  /** One operation on the table is one step of the list. */
  method Apply<K(==)>(t: Table<K>, op: Op<K>) returns (r: Ptr)
    requires t.Valid() && Fresh(Abs(t), op)
    modifies t
    ensures t.Valid() && (Abs(t), r) == Step(old(Abs(t)), op)
  {
    hide Table.Valid, Distinct, Entries, Lookup, Where, Keyed, Without;
    DistinctOrder(t);
    r := FindEntry(t, op.key);
    match op {
      case Get(_) =>
      case Put(id, k) =>
        if r.None? {
          FreshHandle(t, op);
          KeyedKeys(t);
          EntryAdded(t.order, t.key, id, k);
          t.Add(id, k);
        }
      case Take(k) =>
        if r.Some? {
          TakeEntry(t, k, r.value);
        }
    }
  }

  lemma KeyedKeys<K>(t: Table<K>)
    requires t.Valid()
    ensures forall x :: x in t.order ==> x in t.key
    ensures forall x, y :: x in t.order && y in t.order && x != y ==> t.key[x] != t.key[y]
  {
  }

  method TakeEntry<K(==)>(t: Table<K>, k: K, id: Id)
    requires t.Valid() && id in t.order && t.key[id] == k
    modifies t
    ensures t.Valid() && Abs(t) == Step(old(Abs(t)), Take(k)).0
  {
    hide Table.Valid, Distinct, Entries, Step, Keyed, Without;
    DistinctOrder(t);
    KeyedKeys(t);
    ghost var order, key := t.order, t.key;
    t.Delete(id);
    ghost var i :| 0 <= i < |order| && order[i] == id && t.order == Without(order, i);
    EntryTaken(order, key, k, i);
  }

  /** Over any run the table answers every operation, and ends, as the list of entries does. */
  method ApplyAll<K(==)>(t: Table<K>, ops: seq<Op<K>>) returns (answers: seq<Ptr>)
    requires t.Valid() && Legal(Abs(t), ops)
    modifies t
    ensures t.Valid() && (Abs(t), answers) == Run(old(Abs(t)), ops)
  {
    hide Table.Valid;
    answers := [];
    for i := 0 to |ops|
      invariant t.Valid() && (Abs(t), answers) == Run(old(Abs(t)), ops[..i])
    {
      assert ops[..i + 1][..i] == ops[..i];
      var r := Apply(t, ops[i]);
      answers := answers + [r];
    }
    assert ops[..|ops|] == ops;
  }

  ghost predicate OneEach<K>(l: Listing<K>) {
    && (forall i, j :: 0 <= i < j < |l| ==> l[i].1 != l[j].1)
    && (forall i, j :: 0 <= i < j < |l| ==> l[i].0 != l[j].0)
  }

  lemma StepKeepsOneEach<K>(l: Listing<K>, op: Op<K>)
    requires OneEach(l) && Fresh(l, op)
    ensures OneEach(Step(l, op).0)
  {
    var m := Step(l, op).0;
    if op.Take? && Lookup(l, op.key).Some? {
      var w := Where(l, op.key);
      assert forall i :: 0 <= i < |m| ==> m[i] == l[if i < w then i else i + 1];
    } else if op.Put? && Lookup(l, op.key).None? {
      assert forall i :: 0 <= i < |l| ==> m[i] == l[i] && l[i].1 != op.key;
    }
  }

  /** No run ever lists a key or a handle twice. */
  lemma {:induction false} KeysStayUnique<K>(l: Listing<K>, ops: seq<Op<K>>)
    requires OneEach(l) && Legal(l, ops)
    ensures OneEach(Run(l, ops).0)
  {
    hide OneEach, Fresh, Step;
    if ops != [] {
      var n := |ops| - 1;
      assert forall i :: 0 <= i < n ==> ops[..n][..i] == ops[..i];
      KeysStayUnique(l, ops[..n]);
      assert Fresh(Run(l, ops[..n]).0, ops[n]);
      StepKeepsOneEach(Run(l, ops[..n]).0, ops[n]);
    }
  }
}
