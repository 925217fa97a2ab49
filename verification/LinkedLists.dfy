/** Doubly linked lists threaded through handles, as in common/uthash.h: pointers are handle numbers,
    a pointer field is a map from handles to pointers. */
module LinkedLists {
  import opened Bytes

  type Id = nat
  type Ptr = Option<Id>

  ghost predicate Distinct(s: seq<Id>) {
    forall i, j :: 0 <= i < j < |s| ==> s[i] != s[j]
  }

  function NextOf(s: seq<Id>, i: nat): Ptr { if i + 1 < |s| then Some(s[i + 1]) else None }
  function PrevOf(s: seq<Id>, i: nat): Ptr { if 0 < i <= |s| then Some(s[i - 1]) else None }

  ghost predicate NextAt(nx: map<Id, Ptr>, s: seq<Id>, i: nat)
    requires i < |s|
  {
    s[i] in nx && nx[s[i]] == NextOf(s, i)
  }

  ghost predicate PrevAt(pv: map<Id, Ptr>, s: seq<Id>, i: nat)
    requires i < |s|
  {
    s[i] in pv && pv[s[i]] == PrevOf(s, i)
  }

  /** Following `nx` from `h` visits `s` and stops. */
  ghost predicate Forward(nx: map<Id, Ptr>, h: Ptr, s: seq<Id>) {
    && h == (if s == [] then None else Some(s[0]))
    && forall i :: 0 <= i < |s| ==> NextAt(nx, s, i)
  }

  ghost predicate Backward(pv: map<Id, Ptr>, s: seq<Id>) {
    forall i :: 0 <= i < |s| ==> PrevAt(pv, s, i)
  }

  ghost predicate Linked(nx: map<Id, Ptr>, pv: map<Id, Ptr>, h: Ptr, s: seq<Id>) {
    Forward(nx, h, s) && Backward(pv, s) && Distinct(s)
  }

  /** The pointers of a list do not care about handles outside it. */
  lemma Frame(nx: map<Id, Ptr>, pv: map<Id, Ptr>, nx': map<Id, Ptr>, pv': map<Id, Ptr>, h: Ptr, s: seq<Id>)
    requires Linked(nx, pv, h, s)
    requires forall x :: x in s && x in nx ==> x in nx' && nx'[x] == nx[x]
    requires forall x :: x in s && x in pv ==> x in pv' && pv'[x] == pv[x]
    ensures Linked(nx', pv', h, s)
  {
    forall i | 0 <= i < |s|
      ensures NextAt(nx', s, i) && PrevAt(pv', s, i)
    {
      assert NextAt(nx, s, i) && PrevAt(pv, s, i);
    }
  }

  /** Making `id` the new head. */
  function PushPrev(pv: map<Id, Ptr>, h: Ptr, id: Id): map<Id, Ptr> {
    if h.Some? then pv[id := None][h.value := Some(id)] else pv[id := None]
  }

  lemma PushFront(nx: map<Id, Ptr>, pv: map<Id, Ptr>, h: Ptr, s: seq<Id>, id: Id)
    requires Linked(nx, pv, h, s) && id !in s
    ensures Linked(nx[id := h], PushPrev(pv, h, id), Some(id), [id] + s)
  {
    var nx', pv', s' := nx[id := h], PushPrev(pv, h, id), [id] + s;
    forall i | 0 <= i < |s'|
      ensures NextAt(nx', s', i) && PrevAt(pv', s', i)
    {
      if i > 0 {
        assert NextAt(nx, s, i - 1) && PrevAt(pv, s, i - 1);
      }
    }
  }

  /** Adding `id` behind the last element. */
  lemma PushBack(nx: map<Id, Ptr>, pv: map<Id, Ptr>, h: Ptr, s: seq<Id>, id: Id)
    requires Linked(nx, pv, h, s) && id !in s && s != []
    ensures var tail := s[|s| - 1];
            Linked(nx[id := None][tail := Some(id)], pv[id := Some(tail)], h, s + [id])
  {
    var tail := s[|s| - 1];
    var nx', pv', s' := nx[id := None][tail := Some(id)], pv[id := Some(tail)], s + [id];
    forall i | 0 <= i < |s'|
      ensures NextAt(nx', s', i) && PrevAt(pv', s', i)
    {
      if i < |s| {
        assert NextAt(nx, s, i) && PrevAt(pv, s, i);
      }
    }
  }

  function Without(s: seq<Id>, k: nat): seq<Id>
    requires k < |s|
  {
    s[..k] + s[k + 1..]
  }

  function UnlinkNext(nx: map<Id, Ptr>, before: Ptr, after: Ptr): map<Id, Ptr> {
    if before.Some? then nx[before.value := after] else nx
  }

  function UnlinkPrev(pv: map<Id, Ptr>, before: Ptr, after: Ptr): map<Id, Ptr> {
    if after.Some? then pv[after.value := before] else pv
  }

  /** Taking element `k` out: its neighbours are joined, and the head moves when it was first. */
  lemma Unlink(nx: map<Id, Ptr>, pv: map<Id, Ptr>, h: Ptr, s: seq<Id>, k: nat)
    requires Linked(nx, pv, h, s) && k < |s|
    ensures s[k] in pv && s[k] in nx
    ensures var before, after := pv[s[k]], nx[s[k]];
            && before == PrevOf(s, k) && after == NextOf(s, k)
            && Linked(UnlinkNext(nx, before, after), UnlinkPrev(pv, before, after),
                      if k == 0 then after else h, Without(s, k))
  {
    assert NextAt(nx, s, k) && PrevAt(pv, s, k);
    var before, after := pv[s[k]], nx[s[k]];
    var nx', pv', s' := UnlinkNext(nx, before, after), UnlinkPrev(pv, before, after), Without(s, k);
    forall i | 0 <= i < |s'|
      ensures NextAt(nx', s', i) && PrevAt(pv', s', i)
    {
      var m := if i < k then i else i + 1;
      assert NextAt(nx, s, m) && PrevAt(pv, s, m) && s'[i] == s[m];
    }
  }
}
