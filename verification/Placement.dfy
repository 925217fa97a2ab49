/** Where input sections end up, in terms of the script's rules and the input section lists: what the layout
    pass of ld/ld_layout.c does to a whole run of sections. */
module Placement {
  import opened Bytes
  import opened WildcardCache

  // ---------- which rule takes a section ----------

  /** A rule takes a section when one of its wildcards matches the name and, unless the linker made the
      section itself, the file does: an archive pattern counts for archive members only. */
  ghost predicate Applies(fn: Fnmatch, s: InSec, r: Rule) {
    && (exists i :: 0 <= i < |r.secs| && fn(r.secs[i], s.name))
    && (s.input.name.Some? ==>
          && (r.ar.Some? && s.input.archive.Some? ==> fn(r.ar.value, s.input.archive.value))
          && fn(r.file, s.input.name.value)
          && forall i :: 0 <= i < |r.exclude| ==> !fn(r.exclude[i], s.input.name.value))
  }

  lemma FitsMeans(fn: Fnmatch, s: InSec, m: Match)
    ensures Fits(fn, s, m) <==> Applies(fn, s, m.rule)
  {
  }

  /** Element `b` of output section number `a` has a rule that takes `s`. */
  ghost predicate AppliesAt(fn: Fnmatch, os: map<Id, OutSec>, oslist: seq<Id>, s: InSec, a: nat, b: nat) {
    && a < |oslist| && oslist[a] in os && b < |os[oslist[a]].elems|
    && os[oslist[a]].elems[b].InputList? && os[oslist[a]].elems[b].rule.Some?
    && Applies(fn, s, os[oslist[a]].elems[b].rule.value)
  }

  /** And no earlier one does. */
  ghost predicate FirstAt(fn: Fnmatch, os: map<Id, OutSec>, oslist: seq<Id>, s: InSec, a: nat, b: nat) {
    && AppliesAt(fn, os, oslist, s, a, b)
    && forall c, d :: AppliesAt(fn, os, oslist, s, c, d) ==> a < c || (a == c && b <= d)
  }

  ghost predicate TakesElem(fn: Fnmatch, s: InSec, e: Element) {
    e.InputList? && e.rule.Some? && Applies(fn, s, e.rule.value)
  }

  /** The search within one output section. */
  lemma {:induction false} FitInSection(fn: Fnmatch, s: InSec, o: Id, elems: seq<Element>) returns (b: nat)
    ensures var r := FirstFit(fn, s, RulesOf(o, elems));
            if r.Some?
            then b < |elems| && TakesElem(fn, s, elems[b]) && r.value.os == o && r.value.list == elems[b].list
                 && forall d :: 0 <= d < b ==> !TakesElem(fn, s, elems[d])
            else forall d :: 0 <= d < |elems| ==> !TakesElem(fn, s, elems[d])
  {
    hide Applies, Fits;
    if elems == [] {
      b := 0;
    } else {
      var n := |elems| - 1;
      var front, e := elems[..n], elems[n];
      b := FitInSection(fn, s, o, front);
      assert forall d :: 0 <= d < n ==> elems[d] == front[d];
      var more := if e.InputList? && e.rule.Some? then [Match(o, e.list, e.rule.value)] else [];
      FirstFitApp(fn, s, RulesOf(o, front), more);
      if FirstFit(fn, s, RulesOf(o, front)).None? {
        b := n;
        if more != [] {
          FitsMeans(fn, s, more[0]);
          FirstFitOne(fn, s, more[0]);
        }
      }
    }
  }

  lemma FirstFitOne(fn: Fnmatch, s: InSec, m: Match)
    ensures FirstFit(fn, s, [m]) == if Fits(fn, s, m) then Some(m) else None
  {
    hide Fits;
    assert [m][..0] == [];
  }

  /** The plain search finds the first element with a rule that takes the section. */
  lemma {:induction false} FitFound(fn: Fnmatch, s: InSec, os: map<Id, OutSec>, oslist: seq<Id>)
    returns (a: nat, b: nat)
    requires forall i :: 0 <= i < |oslist| ==> oslist[i] in os
    ensures var r := FirstFit(fn, s, Rules(os, oslist));
            if r.Some?
            then FirstAt(fn, os, oslist, s, a, b)
                 && r.value.os == oslist[a] && r.value.list == os[oslist[a]].elems[b].list
            else forall c, d :: !AppliesAt(fn, os, oslist, s, c, d)
  {
    hide Applies, Fits, RulesOf;
    a, b := 0, 0;
    if oslist != [] {
      var n := |oslist| - 1;
      var front := oslist[..n];
      a, b := FitFound(fn, s, os, front);
      var elems := os[oslist[n]].elems;
      FirstFitApp(fn, s, Rules(os, front), RulesOf(oslist[n], elems));
      assert Rules(os, oslist) == Rules(os, front) + RulesOf(oslist[n], elems);
      hide Rules;
      LastSection(fn, s, os, oslist, front, n);
      if FirstFit(fn, s, Rules(os, front)).None? {
        a := n;
        b := FitInSection(fn, s, oslist[n], elems);
      }
      hide FirstFit, AppliesAt, TakesElem;
    }
  }

  lemma LastSection(fn: Fnmatch, s: InSec, os: map<Id, OutSec>, oslist: seq<Id>, front: seq<Id>, n: nat)
    requires |oslist| == n + 1 && front == oslist[..n] && forall i :: 0 <= i < |oslist| ==> oslist[i] in os
    ensures forall c: nat, d: nat :: AppliesAt(fn, os, oslist, s, c, d) <==>
              AppliesAt(fn, os, front, s, c, d)
              || (c == n && d < |os[oslist[n]].elems| && TakesElem(fn, s, os[oslist[n]].elems[d]))
    ensures forall c: nat, d: nat :: AppliesAt(fn, os, front, s, c, d) ==> c < n
  {
    hide Applies;
  }

  // ---------- where a section belongs ----------

  /** Section tables and groups that were dropped never take part. */
  predicate Ignored(s: InSec) {
    s.isNull || s.discard || s.name == ".shstrtab" || s.name == ".symtab" || s.name == ".strtab"
  }

  /** Relocation sections of the input are not part of the layout. */
  predicate StaticRel(s: InSec) { s.isRel && !s.isDynrel }

  /** The first rule that takes it fills `list` of output section `o`. */
  ghost predicate FirstRule(fn: Fnmatch, start: Output, s: InSec, o: Id, list: Id) {
    exists a: nat, b: nat :: FirstAt(fn, start.os, start.oslist, s, a, b) && start.oslist[a] == o
                             && start.os[o].elems[b].list == list
  }

  /** The first rule that takes it belongs to /DISCARD/. */
  ghost predicate Discards(fn: Fnmatch, start: Output, s: InSec) {
    !Ignored(s) && exists o, l :: FirstRule(fn, start, s, o, l) && o in start.os && start.os[o].name == "/DISCARD/"
  }

  ghost predicate Ruled(fn: Fnmatch, start: Output, s: InSec) {
    exists a: nat, b: nat :: AppliesAt(fn, start.os, start.oslist, s, a, b)
  }

  /** No rule takes it, and garbage collection does not drop it. */
  ghost predicate IsOrphan(fn: Fnmatch, gc: bool, start: Output, s: InSec) {
    !Ignored(s) && !StaticRel(s) && !Ruled(fn, start, s) && !(gc && ALLOC in s.flags && !s.refed)
  }

  /** Output section `o` begins with input list `list`. */
  ghost predicate BeginsWith(out: Output, o: Id, list: Id) {
    o in out.os && out.os[o].elems != [] && out.os[o].elems[0].InputList? && out.os[o].elems[0].list == list
  }

  /** Section `s` belongs in `list`: that of the first rule that takes it, but for /DISCARD/; an orphan in the
      first list of the output section of its name. */
  ghost predicate Belongs(fn: Fnmatch, gc: bool, start: Output, out: Output, s: InSec, list: Id) {
    || (!Ignored(s) && !StaticRel(s)
        && exists o :: FirstRule(fn, start, s, o, list) && o in start.os && start.os[o].name != "/DISCARD/")
    || (&& IsOrphan(fn, gc, start, s) && s.name in out.byName && BeginsWith(out, out.byName[s.name], list)
        && out.os[out.byName[s.name]].name == s.name)
  }

  /** The ids of those that belong in `list`, in the order of the input. */
  ghost function Arrived(fn: Fnmatch, gc: bool, start: Output, out: Output, ss: seq<InSec>, list: Id): seq<Id> {
    if ss == [] then []
    else
      var s := ss[|ss| - 1];
      Arrived(fn, gc, start, out, ss[..|ss| - 1], list) + if Belongs(fn, gc, start, out, s, list) then [s.id] else []
  }

  // ---------- what the layout starts from, and keeps ----------

  /** Names are those of the sections, and new numbers are new. */
  ghost predicate Tidy(out: Output) {
    && Valid(out) && !out.failed
    && (forall n :: n in out.byName ==> out.os[out.byName[n]].name == n)
    && (forall l :: l in out.lists ==> l < out.next)
  }

  /** Nothing is taken back: names, elements and lists stay. */
  ghost predicate Grew(out: Output, out': Output) {
    && (forall o :: o in out.os ==>
          o in out'.os && out'.os[o].name == out.os[o].name && out'.os[o].elems == out.os[o].elems)
    && (forall n :: n in out.byName ==> n in out'.byName && out'.byName[n] == out.byName[n])
    && out.lists.Keys <= out'.lists.Keys
  }

  lemma GrewTwice(a: Output, b: Output, c: Output)
    requires Grew(a, b) && Grew(b, c)
    ensures Grew(a, c)
  {
  }

  function Held(out: Output, list: Id): seq<Id> { if list in out.lists then out.lists[list] else [] }

  /** One section is added at the end of at most one list. */
  ghost predicate AddedTo(out: Output, out': Output, s: InSec, list: Option<Id>) {
    && (list.Some? ==> list.value in out'.lists)
    && forall l :: l in out'.lists ==> out'.lists[l] == Held(out, l) + if list == Some(l) then [s.id] else []
  }

  lemma InsertAdds(out: Output, o: Id, list: Id, s: InSec)
    requires Tidy(out) && o in out.os && list in out.lists && !StaticRel(s)
    ensures var out' := Insert(out, o, list, s);
            Tidy(out') && Grew(out, out') && AddedTo(out, out', s, Some(list)) && out'.discarded == out.discarded
            && out'.byName == out.byName
  {
    InsertKeeps(out, o, list, s);
    hide Rules, Valid;
  }

  lemma NewSectionIs(out: Output, s: InSec)
    requires Valid(out)
    ensures var out', o, list := NewOutSec(out, s), out.next, out.next + 1;
            && out'.os == out.os[o := OutSec(s.name, s.flags * {ALLOC}, [InputList(None, list)])]
            && out'.byName == out.byName[s.name := o] && out'.lists == out.lists[list := []]
             && out'.next == out.next + 2
            && out'.discarded == out.discarded && out'.failed == out.failed
  {
    hide OrphanPosition, Valid;
  }

  lemma NewSectionAdds(out: Output, s: InSec)
    requires Tidy(out) && s.name !in out.byName
    ensures var out' := NewOutSec(out, s);
            && Tidy(out') && Grew(out, out') && out'.discarded == out.discarded
            && out.next in out'.os && out.next + 1 in out'.lists && out'.lists[out.next + 1] == []
            && (forall l :: l in out.lists ==> l in out'.lists && out'.lists[l] == out.lists[l])
            && (forall l :: l in out'.lists ==> l in out.lists || l == out.next + 1)
            && s.name in out'.byName && out'.byName[s.name] == out.next
            && BeginsWith(out', out.next, out.next + 1)
  {
    hide NewOutSec, Rules;
    NewOutSecKeeps(out, s);
    NewSectionIs(out, s);
    assert forall o :: o in out.os ==> o < out.next;
    hide Valid;
  }

  /** The output section made for an orphan gets it as its first section. */
  lemma NewOrphanAdds(out: Output, s: InSec)
    requires Tidy(out) && s.name !in out.byName && !StaticRel(s)
    ensures var mid := NewOutSec(out, s);
            && out.next in mid.os && out.next + 1 in mid.lists
            && var out' := Insert(mid, out.next, out.next + 1, s);
               && Tidy(out') && Grew(out, out') && AddedTo(out, out', s, Some(out.next + 1))
               && out'.discarded == out.discarded
               && s.name in out'.byName && BeginsWith(out', out'.byName[s.name], out.next + 1)
  {
    hide Insert, NewOutSec;
    NewSectionAdds(out, s);
    var mid := NewOutSec(out, s);
    InsertAdds(mid, out.next, out.next + 1, s);
    var out' := Insert(mid, out.next, out.next + 1, s);
    GrewTwice(out, mid, out');
    hide Tidy;
    assert mid.lists[out.next + 1] == [];
  }

  /** A section placed when no rule takes it. */
  lemma OrphanAdds(gc: bool, out: Output, s: InSec) returns (list: Option<Id>)
    requires Tidy(out) && Valid(out) && !Orphan(gc, out, s).failed && !Ignored(s)
    ensures var out' := Orphan(gc, out, s);
            && Tidy(out') && Grew(out, out') && AddedTo(out, out', s, list) && out'.discarded == out.discarded
            && (list.None? <==> StaticRel(s) || (gc && ALLOC in s.flags && !s.refed))
            && (list.Some? ==> s.name in out'.byName && BeginsWith(out', out'.byName[s.name], list.value))
  {
    hide Insert, NewOutSec;
    list := None;
    if !NotLaidOut(gc, s) {
      if s.name in out.byName {
        list := OldOrphanAdds(out, s);
      } else {
        NewOrphanAdds(out, s);
        list := Some(out.next + 1);
      }
    }
    hide Tidy, Valid, BeginsWith;
  }

  lemma OldOrphanAdds(out: Output, s: InSec) returns (list: Option<Id>)
    requires Tidy(out) && s.name in out.byName && !StaticRel(s)
    requires out.os[out.byName[s.name]].elems != [] && out.os[out.byName[s.name]].elems[0].InputList?
    ensures list.Some? && list.value == out.os[out.byName[s.name]].elems[0].list && list.value in out.lists
    ensures var out' := Insert(out, out.byName[s.name], list.value, s);
            && Tidy(out') && Grew(out, out') && AddedTo(out, out', s, list) && out'.discarded == out.discarded
            && s.name in out'.byName && BeginsWith(out', out'.byName[s.name], list.value)
  {
    hide Insert;
    var o := out.byName[s.name];
    assert ListsOk(out, out.os[o].elems);
    list := Some(out.os[o].elems[0].list);
    InsertAdds(out, o, list.value, s);
  }

  // ---------- one section ----------

  /** An orphan's output section is there by now. */
  ghost predicate Settled(fn: Fnmatch, gc: bool, start: Output, out: Output, s: InSec) {
    IsOrphan(fn, gc, start, s) ==>
      s.name in out.byName && exists list :: BeginsWith(out, out.byName[s.name], list)
  }

  lemma FirstRuleIsOne(fn: Fnmatch, start: Output, s: InSec, o: Id, l: Id, o': Id, l': Id)
    requires FirstRule(fn, start, s, o, l) && FirstRule(fn, start, s, o', l')
    ensures o' == o && l' == l && o in start.os && Ruled(fn, start, s)
  {
    hide Applies;
    var a: nat, b: nat :| FirstAt(fn, start.os, start.oslist, s, a, b) && start.oslist[a] == o
                && start.os[o].elems[b].list == l;
    var c: nat, d: nat :| FirstAt(fn, start.os, start.oslist, s, c, d) && start.oslist[c] == o'
                && start.os[o'].elems[d].list == l';
    assert AppliesAt(fn, start.os, start.oslist, s, a, b) && AppliesAt(fn, start.os, start.oslist, s, c, d);
    hide AppliesAt;
    assert a == c && b == d;
  }

  lemma RulesDecide(fn: Fnmatch, start: Output, s: InSec)
    requires Valid(start)
    ensures var r := FirstFit(fn, s, Rules(start.os, start.oslist));
            && (r.Some? <==> Ruled(fn, start, s))
            && (r.Some? ==> FirstRule(fn, start, s, r.value.os, r.value.list))
  {
    hide Rules, FirstFit, Applies;
    var a, b := FitFound(fn, s, start.os, start.oslist);
    if FirstFit(fn, s, Rules(start.os, start.oslist)).Some? {
      assert AppliesAt(fn, start.os, start.oslist, s, a, b);
    }
  }

  /** The state after one more section. */
  ghost predicate Stepped(fn: Fnmatch, gc: bool, start: Output, out: Output, out': Output, s: InSec) {
    && Tidy(out') && Grew(out, out') && Settled(fn, gc, start, out', s)
    && (forall l :: l in out'.lists ==>
          out'.lists[l] == Held(out, l) + if Belongs(fn, gc, start, out', s, l) then [s.id] else [])
    && out'.discarded == out.discarded + if Discards(fn, start, s) then {s.id} else {}
  }

  lemma DiscardAdds(out: Output, s: InSec)
    requires Tidy(out)
    ensures var out' := out.(discarded := out.discarded + {s.id});
            Tidy(out') && Grew(out, out') && AddedTo(out, out', s, None)
  {
  }

  lemma RuledStep(fn: Fnmatch, gc: bool, start: Output, out: Output, s: InSec, m: Match)
    requires Tidy(start) && Tidy(out) && Grew(start, out) && !Ignored(s)
    requires FirstRule(fn, start, s, m.os, m.list) && m.os in start.os && m.list in out.lists
    ensures Stepped(fn, gc, start, out, PlaceAt(out, m, s), s)
  {
    hide Insert, FirstRule, Ruled;
    if start.os[m.os].name != "/DISCARD/" && !StaticRel(s) {
      InsertAdds(out, m.os, m.list, s);
    } else if start.os[m.os].name == "/DISCARD/" {
      DiscardAdds(out, s);
    } else {
      StaticStays(out, m.os, m.list, s);
    }
    hide Tidy, Valid;
    RuledBelongs(fn, gc, start, PlaceAt(out, m, s), s, m.os, m.list);
    hide Belongs, Discards, IsOrphan;
  }

  lemma StaticStays(out: Output, o: Id, list: Id, s: InSec)
    requires o in out.os && list in out.lists && StaticRel(s)
    ensures Insert(out, o, list, s) == out && Grew(out, out) && AddedTo(out, out, s, None)
  {
  }

  lemma RuledBelongs(fn: Fnmatch, gc: bool, start: Output, out: Output, s: InSec, o: Id, list: Id)
    requires !Ignored(s) && FirstRule(fn, start, s, o, list) && o in start.os
    ensures forall l: Id :: Belongs(fn, gc, start, out, s, l)
                            <==> start.os[o].name != "/DISCARD/" && l == list && !StaticRel(s)
    ensures Discards(fn, start, s) <==> start.os[o].name == "/DISCARD/"
    ensures !IsOrphan(fn, gc, start, s)
  {
    hide FirstRule, Ruled;
    forall o', l | FirstRule(fn, start, s, o', l)
      ensures o' == o && l == list
    {
      FirstRuleIsOne(fn, start, s, o, list, o', l);
    }
    FirstRuleIsOne(fn, start, s, o, list, o, list);
  }

  lemma FirstRuleRules(fn: Fnmatch, start: Output, s: InSec)
    ensures forall o, l :: FirstRule(fn, start, s, o, l) ==> Ruled(fn, start, s)
  {
    hide Applies;
    forall o, l | FirstRule(fn, start, s, o, l)
      ensures Ruled(fn, start, s)
    {
      var a: nat, b: nat :| FirstAt(fn, start.os, start.oslist, s, a, b) && start.oslist[a] == o
                  && start.os[o].elems[b].list == l;
      assert AppliesAt(fn, start.os, start.oslist, s, a, b);
    }
  }

  lemma OrphanStep(fn: Fnmatch, gc: bool, start: Output, out: Output, s: InSec)
    requires Tidy(start) && Tidy(out) && Valid(out) && Grew(start, out) && !Ignored(s) && !Ruled(fn, start, s)
    requires !Orphan(gc, out, s).failed
    ensures Stepped(fn, gc, start, out, Orphan(gc, out, s), s)
  {
    hide Orphan, FirstRule, Ruled;
    FirstRuleRules(fn, start, s);
    var list := OrphanAdds(gc, out, s);
    var out' := Orphan(gc, out, s);
    NamesKept(out', s);
    hide Tidy, Valid, Grew;
    assert forall l: Id :: Belongs(fn, gc, start, out', s, l) <==> list == Some(l);
  }

  lemma NamesKept(out: Output, s: InSec)
    requires Tidy(out)
    ensures s.name in out.byName ==> out.byName[s.name] in out.os && out.os[out.byName[s.name]].name == s.name
  {
  }

  lemma IgnoredStep(fn: Fnmatch, gc: bool, start: Output, out: Output, s: InSec)
    requires Tidy(out) && Ignored(s)
    ensures Stepped(fn, gc, start, out, out, s)
  {
    hide FirstRule, Ruled, BeginsWith;
  }

  /** One section, whatever takes it. */
  lemma OneStep(fn: Fnmatch, gc: bool, start: Output, out: Output, s: InSec)
    requires Tidy(start) && Valid(start) && Tidy(out) && Valid(out) && Grew(start, out)
    requires Rules(out.os, out.oslist) == Rules(start.os, start.oslist) && !Plain(fn, gc, out, s).failed
    ensures Stepped(fn, gc, start, out, Plain(fn, gc, out, s), s)
  {
    hide Rules, FirstFit, Orphan, PlaceAt, Grew, FirstRule, Ruled, Stepped, Tidy;
    if Ignored(s) {
      IgnoredStep(fn, gc, start, out, s);
      NotFailed(out);
    } else {
      NotFailed(out);
      RulesDecide(fn, start, s);
      var r := FirstFit(fn, s, Rules(start.os, start.oslist));
      if r.Some? {
        RulesKnown(out, out.oslist, r.value);
        RulesKnown(start, start.oslist, r.value);
        RuledStep(fn, gc, start, out, s, r.value);
      } else {
        OrphanStep(fn, gc, start, out, s);
      }
    }
  }

  lemma NotFailed(out: Output)
    requires Tidy(out)
    ensures !out.failed
  {
  }

  // ---------- a whole run ----------

  /** Where a settled section belongs no longer changes. */
  lemma SettledStays(fn: Fnmatch, gc: bool, start: Output, out: Output, out': Output, s: InSec)
    requires Tidy(out) && Grew(out, out') && Settled(fn, gc, start, out, s)
    ensures Settled(fn, gc, start, out', s)
    ensures forall l: Id :: Belongs(fn, gc, start, out', s, l) <==> Belongs(fn, gc, start, out, s, l)
  {
    hide FirstRule, Ruled, IsOrphan;
    if IsOrphan(fn, gc, start, s) {
      var o := out.byName[s.name];
      assert o in out.os && out'.byName[s.name] == o && o in out'.os;
      assert out'.os[o].elems == out.os[o].elems && out'.os[o].name == out.os[o].name;
      assert forall l: Id :: BeginsWith(out', o, l) <==> BeginsWith(out, o, l);
    }
  }

  ghost predicate AllSettled(fn: Fnmatch, gc: bool, start: Output, out: Output, ss: seq<InSec>) {
    forall i :: 0 <= i < |ss| ==> Settled(fn, gc, start, out, ss[i])
  }

  lemma {:induction false} ArrivedStays(fn: Fnmatch, gc: bool, start: Output, out: Output, out': Output,
                                       ss: seq<InSec>, l: Id)
    requires Tidy(out) && Grew(out, out') && AllSettled(fn, gc, start, out, ss)
    ensures AllSettled(fn, gc, start, out', ss)
    ensures Arrived(fn, gc, start, out', ss, l) == Arrived(fn, gc, start, out, ss, l)
  {
    hide Tidy, Grew, Settled, Belongs;
    if ss != [] {
      var n := |ss| - 1;
      assert forall i :: 0 <= i < n ==> ss[..n][i] == ss[i];
      ArrivedStays(fn, gc, start, out, out', ss[..n], l);
      assert forall i :: 0 <= i < n ==> ss[i] == ss[..n][i];
      SettledStays(fn, gc, start, out, out', ss[n]);
    }
  }

  /** Nothing belongs in a list that is not there. */
  lemma {:induction false} ArrivedNowhere(fn: Fnmatch, gc: bool, start: Output, out: Output, ss: seq<InSec>, l: Id)
    requires Tidy(start) && Tidy(out) && Grew(start, out) && l !in out.lists
    ensures Arrived(fn, gc, start, out, ss, l) == []
  {
    hide Tidy, Grew, Belongs;
    if ss != [] {
      ArrivedNowhere(fn, gc, start, out, ss[..|ss| - 1], l);
      BelongsKnown(fn, gc, start, out, ss[|ss| - 1], l);
    }
  }

  lemma BelongsKnown(fn: Fnmatch, gc: bool, start: Output, out: Output, s: InSec, l: Id)
    requires Tidy(start) && Tidy(out) && Grew(start, out)
    ensures Belongs(fn, gc, start, out, s, l) ==> l in out.lists
  {
    hide IsOrphan, Applies;
    if o :| FirstRule(fn, start, s, o, l) {
      var a: nat, b: nat :| FirstAt(fn, start.os, start.oslist, s, a, b) && start.oslist[a] == o
                  && start.os[o].elems[b].list == l;
      assert AppliesAt(fn, start.os, start.oslist, s, a, b);
      assert ListsOk(start, start.os[o].elems);
    }
    if s.name in out.byName && BeginsWith(out, out.byName[s.name], l) {
      assert ListsOk(out, out.os[out.byName[s.name]].elems);
    }
  }

  ghost function DiscardedOf(fn: Fnmatch, start: Output, ss: seq<InSec>): set<Id> {
    set i | 0 <= i < |ss| && Discards(fn, start, ss[i]) :: ss[i].id
  }

  /** After any run of sections, every input section list holds what it held and then the ids of exactly the
      sections that belong in it, in the order of the input; exactly the sections whose first rule belongs to
      /DISCARD/ are discarded; and every orphan has an output section of its name. */
  lemma {:induction false} ListsAfter(fn: Fnmatch, gc: bool, start: Output, ss: seq<InSec>)
    requires Tidy(start) && Valid(start) && !PlainAll(fn, gc, start, ss).failed
    ensures var out := PlainAll(fn, gc, start, ss);
            && Tidy(out) && Grew(start, out) && AllSettled(fn, gc, start, out, ss)
            && (forall l :: l in out.lists ==> out.lists[l] == Held(start, l) + Arrived(fn, gc, start, out, ss, l))
            && out.discarded == start.discarded + DiscardedOf(fn, start, ss)
  {
    hide Tidy, Grew, Settled, Belongs, Rules, Plain, Stepped, Discards;
    if ss == [] {
      StartStays(start);
    } else {
      var n := |ss| - 1;
      var front, s := ss[..n], ss[n];
      var mid, out := PlainAll(fn, gc, start, front), PlainAll(fn, gc, start, ss);
      if mid.failed {
        FailedStays(fn, gc, mid, s);
      }
      ListsAfter(fn, gc, start, front);
      RulesNeverMove(fn, gc, start, front);
      OneStep(fn, gc, start, mid, s);
      LastStep(fn, gc, start, mid, out, ss, front, s);
    }
  }

  lemma StartStays(start: Output)
    requires Tidy(start)
    ensures Grew(start, start)
  {
  }

  lemma LastStep(fn: Fnmatch, gc: bool, start: Output, mid: Output, out: Output, ss: seq<InSec>,
                 front: seq<InSec>, s: InSec)
    requires ss == front + [s] && Tidy(start) && Tidy(mid) && Grew(start, mid) && AllSettled(fn, gc, start, mid, front)
    requires forall l :: l in mid.lists ==> mid.lists[l] == Held(start, l) + Arrived(fn, gc, start, mid, front, l)
    requires mid.discarded == start.discarded + DiscardedOf(fn, start, front)
    requires Stepped(fn, gc, start, mid, out, s)
    ensures Tidy(out) && Grew(start, out) && AllSettled(fn, gc, start, out, ss)
    ensures forall l :: l in out.lists ==> out.lists[l] == Held(start, l) + Arrived(fn, gc, start, out, ss, l)
    ensures out.discarded == start.discarded + DiscardedOf(fn, start, ss)
  {
    hide Settled, Belongs, Discards, DiscardedOf, Tidy, Arrived, Held;
    GrewTwice(start, mid, out);
    forall l | l in out.lists
      ensures out.lists[l] == Held(start, l) + Arrived(fn, gc, start, out, ss, l)
    {
      OneList(fn, gc, start, mid, out, ss, front, s, l);
    }
    hide Grew;
    ArrivedStays(fn, gc, start, mid, out, front, 0);
    DiscardedSnoc(fn, start, front, s);
  }

  lemma OneList(fn: Fnmatch, gc: bool, start: Output, mid: Output, out: Output, ss: seq<InSec>,
                front: seq<InSec>, s: InSec, l: Id)
    requires ss == front + [s] && Tidy(start) && Tidy(mid) && Grew(start, mid) && AllSettled(fn, gc, start, mid, front)
    requires l in mid.lists ==> mid.lists[l] == Held(start, l) + Arrived(fn, gc, start, mid, front, l)
    requires Grew(mid, out) && l in out.lists
    requires out.lists[l] == Held(mid, l) + if Belongs(fn, gc, start, out, s, l) then [s.id] else []
    ensures out.lists[l] == Held(start, l) + Arrived(fn, gc, start, out, ss, l)
  {
    hide Settled, Belongs, Tidy, AllSettled;
    ArrivedStays(fn, gc, start, mid, out, front, l);
    ArrivedSnoc(fn, gc, start, out, front, s, l);
    hide Arrived;
    if l !in mid.lists {
      ArrivedNowhere(fn, gc, start, mid, front, l);
      assert l !in start.lists;
    }
  }

  lemma ArrivedSnoc(fn: Fnmatch, gc: bool, start: Output, out: Output, front: seq<InSec>, s: InSec, l: Id)
    ensures Arrived(fn, gc, start, out, front + [s], l)
            == Arrived(fn, gc, start, out, front, l) + if Belongs(fn, gc, start, out, s, l) then [s.id] else []
  {
    hide Belongs;
    assert (front + [s])[..|front|] == front;
  }

  lemma DiscardedSnoc(fn: Fnmatch, start: Output, front: seq<InSec>, s: InSec)
    ensures DiscardedOf(fn, start, front + [s])
            == DiscardedOf(fn, start, front) + if Discards(fn, start, s) then {s.id} else {}
  {
    hide Discards;
    var ss := front + [s];
    assert ss[|front|] == s && forall i :: 0 <= i < |front| ==> ss[i] == front[i];
    forall x | x in DiscardedOf(fn, start, front)
      ensures x in DiscardedOf(fn, start, ss)
    {
      var i :| 0 <= i < |front| && Discards(fn, start, front[i]) && front[i].id == x;
      assert ss[i] == front[i];
    }
  }

  // ---------- one section of a run ----------

  lemma {:induction false} ArrivedAt(fn: Fnmatch, gc: bool, start: Output, out: Output, ss: seq<InSec>, k: nat, l: Id)
    requires k < |ss| && Belongs(fn, gc, start, out, ss[k], l)
    ensures var p := |Arrived(fn, gc, start, out, ss[..k], l)|;
            p < |Arrived(fn, gc, start, out, ss, l)| && Arrived(fn, gc, start, out, ss, l)[p] == ss[k].id
  {
    hide Belongs;
    var n := |ss| - 1;
    if k < n {
      ArrivedAt(fn, gc, start, out, ss[..n], k, l);
      assert ss[..n][..k] == ss[..k];
    }
  }

  lemma {:induction false} ArrivedFrom(fn: Fnmatch, gc: bool, start: Output, out: Output, ss: seq<InSec>, p: nat, l: Id)
    returns (k: nat)
    requires p < |Arrived(fn, gc, start, out, ss, l)|
    ensures k < |ss| && Belongs(fn, gc, start, out, ss[k], l) && Arrived(fn, gc, start, out, ss, l)[p] == ss[k].id
    ensures p == |Arrived(fn, gc, start, out, ss[..k], l)|
  {
    hide Belongs;
    var n := |ss| - 1;
    if p < |Arrived(fn, gc, start, out, ss[..n], l)| {
      k := ArrivedFrom(fn, gc, start, out, ss[..n], p, l);
      assert ss[..n][..k] == ss[..k];
    } else {
      k := n;
    }
  }

  lemma BelongsOnce(fn: Fnmatch, gc: bool, start: Output, out: Output, s: InSec, l: Id, l': Id)
    requires Belongs(fn, gc, start, out, s, l) && Belongs(fn, gc, start, out, s, l')
    ensures l' == l && !Discards(fn, start, s)
  {
    hide FirstRule, Ruled;
    FirstRuleRules(fn, start, s);
    forall o, x, o', x' | FirstRule(fn, start, s, o, x) && FirstRule(fn, start, s, o', x')
      ensures o == o' && x == x'
    {
      FirstRuleIsOne(fn, start, s, o, x, o', x');
    }
  }

  /** The sections of a run are different ones, and new to the output. */
  ghost predicate Separate(start: Output, ss: seq<InSec>) {
    && (forall i, j :: 0 <= i < j < |ss| ==> ss[i].id != ss[j].id)
    && (forall i :: 0 <= i < |ss| ==> ss[i].id !in start.discarded)
    && (forall i, l :: 0 <= i < |ss| && l in start.lists ==> ss[i].id !in start.lists[l])
  }

  /** Position `p` of list `l` holds section `id`. */
  ghost predicate At(out: Output, l: Id, p: nat, id: Id) {
    l in out.lists && p < |out.lists[l]| && out.lists[l][p] == id
  }

  /** What holds section `k` after the run: the list it belongs in, once, behind what was there and what came
      before it, and no other list; if it is discarded, none. */
  lemma FoundWhereItBelongs(fn: Fnmatch, gc: bool, start: Output, ss: seq<InSec>, k: nat, l: Id, p: nat)
    requires Tidy(start) && Valid(start) && !PlainAll(fn, gc, start, ss).failed && Separate(start, ss) && k < |ss|
    ensures var out := PlainAll(fn, gc, start, ss);
            At(out, l, p, ss[k].id)
            <==> l in out.lists && Belongs(fn, gc, start, out, ss[k], l)
                 && p == |Held(start, l)| + |Arrived(fn, gc, start, out, ss[..k], l)|
  {
    hide Tidy, Grew, Belongs, Rules, Plain, Arrived, AllSettled;
    var out := PlainAll(fn, gc, start, ss);
    ListsAfter(fn, gc, start, ss);
    if l in out.lists {
      var h, all := Held(start, l), Arrived(fn, gc, start, out, ss, l);
      if Belongs(fn, gc, start, out, ss[k], l) {
        ArrivedAt(fn, gc, start, out, ss, k, l);
      }
      if |h| <= p < |h| + |all| && all[p - |h|] == ss[k].id {
        var j := ArrivedFrom(fn, gc, start, out, ss, p - |h|, l);
        assert j == k;
      }
    }
  }

  /** A section taken by a rule or left as an orphan is discarded or has a list. */
  lemma SomewhereOrDiscarded(fn: Fnmatch, gc: bool, start: Output, ss: seq<InSec>, k: nat)
    requires Tidy(start) && Valid(start) && !PlainAll(fn, gc, start, ss).failed && k < |ss|
    requires !Ignored(ss[k]) && !StaticRel(ss[k])
    ensures var out, s := PlainAll(fn, gc, start, ss), ss[k];
            && (Ruled(fn, start, s) || !(gc && ALLOC in s.flags && !s.refed) ==>
                  Discards(fn, start, s) || exists l :: l in out.lists && Belongs(fn, gc, start, out, s, l))
            && (Discards(fn, start, s) ==> s.id in out.discarded)
  {
    hide Tidy, Grew, Rules, Plain, Arrived, FirstRule, FirstFit, Ruled, BeginsWith;
    var out, s := PlainAll(fn, gc, start, ss), ss[k];
    ListsAfter(fn, gc, start, ss);
    RulesDecide(fn, start, s);
    var r := FirstFit(fn, s, Rules(start.os, start.oslist));
    if r.Some? {
      RulesKnown(start, start.oslist, r.value);
      if start.os[r.value.os].name != "/DISCARD/" {
        assert Belongs(fn, gc, start, out, s, r.value.list);
        BelongsKnown(fn, gc, start, out, s, r.value.list);
      }
    } else if IsOrphan(fn, gc, start, s) {
      assert Settled(fn, gc, start, out, s);
      var l :| BeginsWith(out, out.byName[s.name], l);
      NamesKept(out, s);
      assert Belongs(fn, gc, start, out, s, l);
      BelongsKnown(fn, gc, start, out, s, l);
    }
  }

  // ---------- where a new output section stands ----------

  predicate SameLoad(out: Output, flags: set<Flag>, i: nat)
    requires Valid(out) && i < |out.oslist|
  {
    ALLOC in out.os[out.oslist[i]].flags <==> ALLOC in flags
  }

  predicate SameFlags(out: Output, flags: set<Flag>, i: nat)
    requires Valid(out) && i < |out.oslist|
  {
    out.os[out.oslist[i]].flags == flags
  }

  /** Place `p` is behind the first group of sections with just these flags, provided that stands in the first
      stretch of sections that are loaded, or not loaded, as they say; else behind that whole stretch; and last
      when there is none. */
  ghost predicate Stands(out: Output, flags: set<Flag>, p: nat)
    requires Valid(out)
  {
    var n := |out.oslist|;
    && p <= n && (p < n ==> p > 0 && SameLoad(out, flags, p - 1))
    && (p < n && !SameFlags(out, flags, p - 1) ==> !SameLoad(out, flags, p))
    && (p < n && SameFlags(out, flags, p - 1) ==> !SameFlags(out, flags, p))
    && (forall i :: 0 <= i && i + 1 < p && SameFlags(out, flags, i) ==> SameFlags(out, flags, i + 1))
    && (forall i :: 0 <= i && i + 1 < p && SameLoad(out, flags, i) ==> SameLoad(out, flags, i + 1))
  }

  lemma OrphanStands(out: Output, flags: set<Flag>)
    requires Valid(out)
    ensures Stands(out, flags, OrphanPosition(out, flags, 0))
  {
    StandsFrom(out, flags, 0);
    var p := OrphanPosition(out, flags, 0);
    forall i | 0 <= i && i + 1 < p
      ensures SameFlags(out, flags, i) ==> SameFlags(out, flags, i + 1)
      ensures SameLoad(out, flags, i) ==> SameLoad(out, flags, i + 1)
    {
      assert !StopsAt(out, flags, i);
    }
  }

  /** The list changes at `p` in what counts for these flags. */
  ghost predicate Edge(out: Output, flags: set<Flag>, p: nat)
    requires Valid(out) && 0 < p < |out.oslist|
  {
    && SameLoad(out, flags, p - 1)
    && (if SameFlags(out, flags, p - 1) then !SameFlags(out, flags, p) else !SameLoad(out, flags, p))
  }

  lemma NoEdgeBefore(out: Output, flags: set<Flag>, p: nat, q: nat)
    requires Valid(out) && Stands(out, flags, q) && 0 < p < q && p < |out.oslist|
    ensures !Edge(out, flags, p)
  {
    hide SameFlags, SameLoad, Valid;
    if SameLoad(out, flags, p - 1) {
      assert SameLoad(out, flags, p - 1 + 1);
    }
    if SameFlags(out, flags, p - 1) {
      assert SameFlags(out, flags, p - 1 + 1);
    }
  }

  /** No other place does. */
  lemma StandsOnce(out: Output, flags: set<Flag>, p: nat, q: nat)
    requires Valid(out) && Stands(out, flags, p) && Stands(out, flags, q)
    ensures p == q
  {
    hide SameFlags, SameLoad, Valid;
    var first, last := if p < q then p else q, if p < q then q else p;
    if first < |out.oslist| {
      assert Edge(out, flags, first);
      if 0 < first < last {
        NoEdgeBefore(out, flags, first, last);
      }
    }
  }

  /** The output section made for an orphan: its place, its name, and the flags that count. */
  lemma NewSectionStands(gc: bool, out: Output, s: InSec) returns (p: nat)
    requires Tidy(out) && Valid(out) && s.name !in out.byName && !Ignored(s) && !StaticRel(s)
    requires !(gc && ALLOC in s.flags && !s.refed)
    ensures var out' := Orphan(gc, out, s);
            && Stands(out, s.flags, p) && p <= |out.oslist|
            && out'.oslist == out.oslist[..p] + [out.next] + out.oslist[p..]
            && out.next in out'.os && out'.os[out.next].name == s.name
            && out'.os[out.next].flags
               == set f | f in s.flags && (f == ALLOC || f == EXECINSTR || f == WRITE || f == TLS)
  {
    p := OrphanPosition(out, s.flags, 0);
    OrphanStands(out, s.flags);
    NewSectionAdds(out, s);
    hide Stands, OrphanPosition, Tidy, Valid;
  }

  lemma {:induction false} StandsFrom(out: Output, flags: set<Flag>, i: nat)
    requires Valid(out) && i <= |out.oslist|
    ensures var p, n := OrphanPosition(out, flags, i), |out.oslist|;
            && (p < n ==> p > i && StopsAt(out, flags, p - 1))
            && forall j :: i <= j && j + 1 < p ==> !StopsAt(out, flags, j)
    decreases |out.oslist| - i
  {
    hide StopsAt;
    if i < |out.oslist| && !StopsAt(out, flags, i) {
      StandsFrom(out, flags, i + 1);
    }
  }

  /** A section put into an output section adds its code, data and TLS flags to it, and changes no other. */
  lemma FlagsJoin(out: Output, o: Id, list: Id, s: InSec, x: Id)
    requires o in out.os && list in out.lists && x in out.os
    ensures var out' := Insert(out, o, list, s);
            && x in out'.os
            && out'.os[x].flags == if x == o && !StaticRel(s)
                                   then out.os[x].flags
                                        + set f | f in s.flags && (f == EXECINSTR || f == WRITE || f == TLS)
                                   else out.os[x].flags
  {
  }
}
