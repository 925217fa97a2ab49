/** Placing input sections with the wildcard-match cache of ld/ld_layout.c, against the plain search for
    the first match in script order. */
module WildcardCache {
  import opened Bytes

  type Id = nat

  datatype Flag = ALLOC | WRITE | EXECINSTR | TLS | OTHER(code: nat)

  /** An input section description of the script: name wildcards and file constraints. */
  datatype Rule = Rule(id: Id, secs: seq<string>, file: string, ar: Option<string>, exclude: seq<string>)

  /** An element of an output section; lists made for orphans have no rule. */
  datatype Element = InputList(rule: Option<Rule>, list: Id) | Other

  datatype OutSec = OutSec(name: string, flags: set<Flag>, elems: seq<Element>)

  /** The linker output: output sections in order, found by name, and the input section lists. */
  datatype Output = Output(oslist: seq<Id>, os: map<Id, OutSec>, byName: map<string, Id>,
                           lists: map<Id, seq<Id>>, next: Id, discarded: set<Id>, failed: bool)

  /** The file a section comes from; internal sections come from none. */
  datatype Input = Input(name: Option<string>, archive: Option<string>)

  datatype InSec = InSec(id: Id, name: string, input: Input, isNull: bool, discard: bool, isRel: bool,
                         isDynrel: bool, flags: set<Flag>, refed: bool)

  /** A cached match: `wm_os`, `wm_islist` and `wm_ldoi`. */
  datatype Match = Match(os: Id, list: Id, rule: Rule)

  type Fnmatch = (string, string) -> bool

  // ---------- matching ----------

  predicate AnyMatch(fn: Fnmatch, pats: seq<string>, s: string) {
    exists i :: 0 <= i < |pats| && fn(pats[i], s)
  }

  /** `_check_filename_constraint`. */
  predicate FileOk(fn: Fnmatch, li: Input, r: Rule) {
    || li.name.None?
    || (&& !(r.ar.Some? && li.archive.Some? && !fn(r.ar.value, li.archive.value))
        && fn(r.file, li.name.value)
        && !AnyMatch(fn, r.exclude, li.name.value))
  }

  predicate NameOk(fn: Fnmatch, name: string, m: Match) { AnyMatch(fn, m.rule.secs, name) }

  predicate Fits(fn: Fnmatch, s: InSec, m: Match) { NameOk(fn, s.name, m) && FileOk(fn, s.input, m.rule) }

  /** The rules of one output section, in order. */
  function RulesOf(o: Id, elems: seq<Element>): seq<Match> {
    if elems == [] then []
    else
      var e := elems[|elems| - 1];
      RulesOf(o, elems[..|elems| - 1]) + (if e.InputList? && e.rule.Some? then [Match(o, e.list, e.rule.value)] else [])
  }

  /** All rules, in script order. */
  function Rules(os: map<Id, OutSec>, oslist: seq<Id>): seq<Match>
    requires forall i :: 0 <= i < |oslist| ==> oslist[i] in os
  {
    if oslist == [] then []
    else Rules(os, oslist[..|oslist| - 1]) + RulesOf(oslist[|oslist| - 1], os[oslist[|oslist| - 1]].elems)
  }

  function NameMatches(fn: Fnmatch, name: string, ms: seq<Match>): seq<Match> {
    if ms == [] then []
    else NameMatches(fn, name, ms[..|ms| - 1]) + (if NameOk(fn, name, ms[|ms| - 1]) then [ms[|ms| - 1]] else [])
  }

  function FirstFit(fn: Fnmatch, s: InSec, ms: seq<Match>): (r: Option<Match>)
    ensures r.Some? ==> Fits(fn, s, r.value) && r.value in ms
    ensures r.None? ==> forall i :: 0 <= i < |ms| ==> !Fits(fn, s, ms[i])
  {
    if ms == [] then None
    else
      var r := FirstFit(fn, s, ms[..|ms| - 1]);
      if r.None? && Fits(fn, s, ms[|ms| - 1]) then Some(ms[|ms| - 1]) else r
  }

  /** It is the first one: everything before it fails the wildcards or the file constraints. */
  lemma {:induction false} FirstFitIsFirst(fn: Fnmatch, s: InSec, ms: seq<Match>) returns (i: nat)
    requires FirstFit(fn, s, ms).Some?
    ensures i < |ms| && FirstFit(fn, s, ms) == Some(ms[i]) && Fits(fn, s, ms[i])
    ensures forall j :: 0 <= j < i ==> !Fits(fn, s, ms[j])
  {
    var n := |ms| - 1;
    if FirstFit(fn, s, ms[..n]).Some? {
      i := FirstFitIsFirst(fn, s, ms[..n]);
    } else {
      assert forall j :: 0 <= j < n ==> ms[..n][j] == ms[j];
      i := n;
    }
  }

  lemma {:induction false} NameMatchesApp(fn: Fnmatch, name: string, a: seq<Match>, b: seq<Match>)
    ensures NameMatches(fn, name, a + b) == NameMatches(fn, name, a) + NameMatches(fn, name, b)
  {
    if b == [] {
      assert a + b == a;
    } else {
      NameMatchesApp(fn, name, a, b[..|b| - 1]);
      assert (a + b)[..|a + b| - 1] == a + b[..|b| - 1];
    }
  }

  lemma {:induction false} FirstFitApp(fn: Fnmatch, s: InSec, a: seq<Match>, b: seq<Match>)
    ensures FirstFit(fn, s, a + b) == if FirstFit(fn, s, a).Some? then FirstFit(fn, s, a) else FirstFit(fn, s, b)
  {
    if b == [] {
      assert a + b == a;
    } else {
      FirstFitApp(fn, s, a, b[..|b| - 1]);
      assert (a + b)[..|a + b| - 1] == a + b[..|b| - 1];
    }
  }

  /** Looking only at the rules whose wildcards match the name finds the same one. */
  lemma {:induction false} FirstFitOfNames(fn: Fnmatch, s: InSec, ms: seq<Match>)
    ensures FirstFit(fn, s, NameMatches(fn, s.name, ms)) == FirstFit(fn, s, ms)
  {
    if ms != [] {
      var n := |ms| - 1;
      var tail := if NameOk(fn, s.name, ms[n]) then [ms[n]] else [];
      FirstFitOfNames(fn, s, ms[..n]);
      FirstFitApp(fn, s, NameMatches(fn, s.name, ms[..n]), tail);
      if tail != [] {
        assert tail[..0] == [];
      }
    }
  }

  /** A fit in any prefix of the name-matching rules is the first fit of the script. */
  lemma CachedFitIsFirst(fn: Fnmatch, s: InSec, ms: seq<Match>, chain: seq<Match>)
    requires chain <= NameMatches(fn, s.name, ms) && FirstFit(fn, s, chain).Some?
    ensures FirstFit(fn, s, chain) == FirstFit(fn, s, ms)
  {
    hide FirstFit, NameMatches;
    var all := NameMatches(fn, s.name, ms);
    assert all == chain + all[|chain|..];
    FirstFitApp(fn, s, chain, all[|chain|..]);
    FirstFitOfNames(fn, s, ms);
  }

  // ---------- well-formed outputs ----------

  /** Output sections are listed once and named once, and their input lists exist. */
  predicate Valid(out: Output) {
    && (forall i :: 0 <= i < |out.oslist| ==> out.oslist[i] in out.os)
    && (forall n :: n in out.byName ==> out.byName[n] in out.os)
    && (forall o :: o in out.os ==> o < out.next && ListsOk(out, out.os[o].elems))
  }

  predicate ListsOk(out: Output, elems: seq<Element>) {
    forall j :: 0 <= j < |elems| && elems[j].InputList? ==> elems[j].list in out.lists
  }

  lemma {:induction false} RulesOfKnown(out: Output, o: Id, elems: seq<Element>, m: Match)
    requires ListsOk(out, elems) && m in RulesOf(o, elems)
    ensures m.os == o && m.list in out.lists
  {
    var n := |elems| - 1;
    if m in RulesOf(o, elems[..n]) {
      RulesOfKnown(out, o, elems[..n], m);
    } else {
      assert elems[n].InputList?;
    }
  }

  lemma {:induction false} RulesKnown(out: Output, oslist: seq<Id>, m: Match)
    requires Valid(out) && (forall i :: 0 <= i < |oslist| ==> oslist[i] in out.os) && m in Rules(out.os, oslist)
    ensures m.os in out.os && m.list in out.lists
  {
    var n := |oslist| - 1;
    if m in Rules(out.os, oslist[..n]) {
      RulesKnown(out, oslist[..n], m);
    } else {
      RulesOfKnown(out, oslist[n], out.os[oslist[n]].elems, m);
    }
  }

  lemma {:induction false} RulesFrame(os: map<Id, OutSec>, os': map<Id, OutSec>, oslist: seq<Id>)
    requires forall i :: 0 <= i < |oslist| ==>
               oslist[i] in os && oslist[i] in os' && os'[oslist[i]].elems == os[oslist[i]].elems
    ensures Rules(os', oslist) == Rules(os, oslist)
  {
    if oslist != [] {
      RulesFrame(os, os', oslist[..|oslist| - 1]);
    }
  }

  lemma RulesNone(os: map<Id, OutSec>)
    ensures Rules(os, []) == []
  {
  }

  lemma RulesSnoc(os: map<Id, OutSec>, a: seq<Id>, x: Id)
    requires x in os && forall i :: 0 <= i < |a| ==> a[i] in os
    ensures forall i :: 0 <= i < |a + [x]| ==> (a + [x])[i] in os
    ensures Rules(os, a + [x]) == Rules(os, a) + RulesOf(x, os[x].elems)
  {
    hide RulesOf;
    assert (a + [x])[..|a|] == a;
  }

  lemma {:induction false} RulesApp(os: map<Id, OutSec>, a: seq<Id>, b: seq<Id>)
    requires (forall i :: 0 <= i < |a| ==> a[i] in os) && (forall i :: 0 <= i < |b| ==> b[i] in os)
    ensures forall i :: 0 <= i < |a + b| ==> (a + b)[i] in os
    ensures Rules(os, a + b) == Rules(os, a) + Rules(os, b)
  {
    hide Rules, RulesOf;
    if b == [] {
      assert a + b == a;
      assert Rules(os, b) == [] by {
        RulesNone(os);
      }
    } else {
      var front, x := b[..|b| - 1], b[|b| - 1];
      RulesApp(os, a, front);
      assert front + [x] == b && (a + front) + [x] == a + b;
      RulesSnoc(os, front, x);
      RulesSnoc(os, a + front, x);
    }
  }

  // ---------- the plain search ----------

  /** `_insert_input_to_output`; relocation sections are handled elsewhere. */
  function Insert(out: Output, o: Id, list: Id, s: InSec): Output
    requires o in out.os && list in out.lists
  {
    if s.isRel && !s.isDynrel then out
    else
      var flags := out.os[o].flags + (s.flags * {EXECINSTR, WRITE, TLS});
      out.(os := out.os[o := out.os[o].(flags := flags)], lists := out.lists[list := out.lists[list] + [s.id]])
  }

  function PlaceAt(out: Output, m: Match, s: InSec): Output
    requires m.os in out.os && m.list in out.lists
  {
    if out.os[m.os].name == "/DISCARD/" then out.(discarded := out.discarded + {s.id})
    else Insert(out, m.os, m.list, s)
  }

  /** Whether the loop of `ld_layout_insert_output_section` stops at output section `i`. */
  predicate StopsAt(out: Output, flags: set<Flag>, i: nat)
    requires Valid(out) && i < |out.oslist|
  {
    var here := out.os[out.oslist[i]].flags;
    && (ALLOC in here <==> ALLOC in flags)
    && (if i + 1 == |out.oslist| then here == flags
        else
          var there := out.os[out.oslist[i + 1]].flags;
          (here == flags && there != flags) || !(ALLOC in there <==> ALLOC in flags))
  }

  /** The section after which an orphan goes, from `i` on; the end of the list when none stops. */
  function OrphanPosition(out: Output, flags: set<Flag>, i: nat): (p: nat)
    requires Valid(out) && i <= |out.oslist|
    ensures i <= p <= |out.oslist|
    decreases |out.oslist| - i
  {
    if i == |out.oslist| then i
    else if StopsAt(out, flags, i) then i + 1
    else OrphanPosition(out, flags, i + 1)
  }

  /** A new output section with one list and no rule. */
  function NewOutSec(out: Output, s: InSec): Output
    requires Valid(out)
  {
    var p, o, list := OrphanPosition(out, s.flags, 0), out.next, out.next + 1;
    out.(oslist := out.oslist[..p] + [o] + out.oslist[p..],
         os := out.os[o := OutSec(s.name, s.flags * {ALLOC}, [InputList(None, list)])],
         byName := out.byName[s.name := o], lists := out.lists[list := []], next := out.next + 2)
  }

  predicate NotLaidOut(gc: bool, s: InSec) {
    || s.discard || s.name in {".shstrtab", ".symtab", ".strtab"} || (s.isRel && !s.isDynrel)
    || (gc && ALLOC in s.flags && !s.refed)
  }

  /** `_layout_orphan_section`; an output section of that name must begin with an input list. */
  function Orphan(gc: bool, out: Output, s: InSec): Output
    requires Valid(out)
  {
    if NotLaidOut(gc, s) then out
    else if s.name in out.byName then
      var o := out.byName[s.name];
      var elems := out.os[o].elems;
      assert ListsOk(out, elems);
      if elems != [] && elems[0].InputList? then Insert(out, o, elems[0].list, s) else out.(failed := true)
    else
      var out' := NewOutSec(out, s);
      Insert(out', out.next, out.next + 1, s)
  }

  predicate Skipped(s: InSec) { s.isNull || s.discard || s.name in {".shstrtab", ".symtab", ".strtab"} }

  /** One section placed by plain search. */
  function Plain(fn: Fnmatch, gc: bool, out: Output, s: InSec): Output
    requires Valid(out)
  {
    if out.failed || Skipped(s) then out
    else
      var r := FirstFit(fn, s, Rules(out.os, out.oslist));
      if r.Some? then
        RulesKnown(out, out.oslist, r.value);
        PlaceAt(out, r.value, s)
      else Orphan(gc, out, s)
  }

  function PlainAll(fn: Fnmatch, gc: bool, out: Output, ss: seq<InSec>): (out': Output)
    requires Valid(out)
    ensures Valid(out')
  {
    if ss == [] then out
    else
      PlainKeeps(fn, gc, PlainAll(fn, gc, out, ss[..|ss| - 1]), ss[|ss| - 1]);
      Plain(fn, gc, PlainAll(fn, gc, out, ss[..|ss| - 1]), ss[|ss| - 1])
  }

  // ---------- no placement moves a rule ----------

  lemma InsertKeeps(out: Output, o: Id, list: Id, s: InSec)
    requires Valid(out) && o in out.os && list in out.lists
    ensures var out' := Insert(out, o, list, s);
            Valid(out') && out'.oslist == out.oslist && Rules(out'.os, out'.oslist) == Rules(out.os, out.oslist)
  {
    hide Rules;
    var out' := Insert(out, o, list, s);
    forall x | x in out'.os
      ensures x < out'.next && ListsOk(out', out'.os[x].elems)
    {
      assert ListsOk(out, out.os[x].elems);
    }
    RulesFrame(out.os, out'.os, out.oslist);
  }

  /** An orphan's new output section goes between the others and has no rule. */
  lemma NewOutSecKeeps(out: Output, s: InSec)
    requires Valid(out)
    ensures var out' := NewOutSec(out, s);
            && Valid(out') && out.next in out'.os && out.next + 1 in out'.lists
            && Rules(out'.os, out'.oslist) == Rules(out.os, out.oslist)
  {
    hide Rules, OrphanPosition;
    var out' := NewOutSec(out, s);
    var p, o := OrphanPosition(out, s.flags, 0), out.next;
    forall x | x in out'.os
      ensures x < out'.next && ListsOk(out', out'.os[x].elems)
    {
      if x != o {
        assert ListsOk(out, out.os[x].elems);
      }
    }
    RulesFrame(out.os, out'.os, out.oslist);
    assert out.oslist == out.oslist[..p] + out.oslist[p..];
    RulesApp(out'.os, out.oslist[..p], out.oslist[p..]);
    RulesApp(out'.os, out.oslist[..p], [o]);
    RulesApp(out'.os, out.oslist[..p] + [o], out.oslist[p..]);
    NoRule(out'.os, o);
  }

  lemma NoRule(os: map<Id, OutSec>, o: Id)
    requires o in os && |os[o].elems| == 1 && os[o].elems[0].InputList? && os[o].elems[0].rule.None?
    ensures Rules(os, [o]) == []
  {
    var elems := os[o].elems;
    assert elems[..|elems| - 1] == [] && RulesOf(o, []) == [];
    assert RulesOf(o, elems) == [];
    assert [o][..|[o]| - 1] == [] && Rules(os, []) == [];
  }

  lemma OrphanKeeps(gc: bool, out: Output, s: InSec)
    requires Valid(out)
    ensures var out' := Orphan(gc, out, s);
            Valid(out') && Rules(out'.os, out'.oslist) == Rules(out.os, out.oslist)
  {
    hide Rules, Insert, NewOutSec, NotLaidOut;
    if s.name in out.byName {
      var elems := out.os[out.byName[s.name]].elems;
      assert ListsOk(out, elems);
      if elems != [] && elems[0].InputList? {
        InsertKeeps(out, out.byName[s.name], elems[0].list, s);
      }
    } else {
      NewOutSecKeeps(out, s);
      InsertKeeps(NewOutSec(out, s), out.next, out.next + 1, s);
    }
  }

  lemma FailedStays(fn: Fnmatch, gc: bool, out: Output, s: InSec)
    requires Valid(out) && out.failed
    ensures Plain(fn, gc, out, s) == out
  {
  }

  lemma PlainKeeps(fn: Fnmatch, gc: bool, out: Output, s: InSec)
    requires Valid(out)
    ensures var out' := Plain(fn, gc, out, s);
            Valid(out') && Rules(out'.os, out'.oslist) == Rules(out.os, out.oslist)
  {
    hide Rules, Insert, Orphan, FirstFit;
    var r := FirstFit(fn, s, Rules(out.os, out.oslist));
    if r.Some? {
      RulesKnown(out, out.oslist, r.value);
      InsertKeeps(out, r.value.os, r.value.list, s);
    } else {
      OrphanKeeps(gc, out, s);
    }
  }

  /** However many orphans come in between, the rules stay in script order. */
  lemma {:induction false} RulesNeverMove(fn: Fnmatch, gc: bool, out: Output, ss: seq<InSec>)
    requires Valid(out)
    ensures var out' := PlainAll(fn, gc, out, ss); Rules(out'.os, out'.oslist) == Rules(out.os, out.oslist)
  {
    if ss != [] {
      RulesNeverMove(fn, gc, out, ss[..|ss| - 1]);
      PlainKeeps(fn, gc, PlainAll(fn, gc, out, ss[..|ss| - 1]), ss[|ss| - 1]);
    }
  }

  // ---------- the cache ----------

  ghost predicate DistinctRules(ms: seq<Match>) {
    forall i, j :: 0 <= i < j < |ms| ==> ms[i].rule.id != ms[j].rule.id
  }

  predicate HasRule(chain: seq<Match>, id: Id) {
    exists i :: 0 <= i < |chain| && chain[i].rule.id == id
  }

  function Recorded(chain: seq<Match>, m: Match): seq<Match> {
    if HasRule(chain, m.rule.id) then chain else chain + [m]
  }

  /** The chain holds the name-matching rules from the first one on, at least those in `seen`. */
  ghost predicate Covers(fn: Fnmatch, name: string, all: seq<Match>, seen: seq<Match>, chain: seq<Match>) {
    NameMatches(fn, name, seen) <= chain <= NameMatches(fn, name, all)
  }

  lemma {:induction false} NameMatchesDistinct(fn: Fnmatch, name: string, ms: seq<Match>)
    requires DistinctRules(ms)
    ensures DistinctRules(NameMatches(fn, name, ms))
    ensures forall m :: m in NameMatches(fn, name, ms) ==> m in ms
  {
    if ms != [] {
      var n := |ms| - 1;
      NameMatchesDistinct(fn, name, ms[..n]);
      forall m | m in NameMatches(fn, name, ms[..n])
        ensures m.rule.id != ms[n].rule.id
      {
        var i :| 0 <= i < n && ms[i] == m;
      }
      assert forall i :: 0 <= i < |NameMatches(fn, name, ms[..n])| ==>
          NameMatches(fn, name, ms[..n])[i] in NameMatches(fn, name, ms[..n]);
    }
  }

  lemma NameMatchesPrefix(fn: Fnmatch, name: string, a: seq<Match>, all: seq<Match>)
    requires a <= all
    ensures NameMatches(fn, name, a) <= NameMatches(fn, name, all)
  {
    assert all == a + all[|a|..];
    NameMatchesApp(fn, name, a, all[|a|..]);
  }

  /** Recording the rules of a search from the start, in order, only ever extends the chain. */
  lemma RecordKeepsPrefix(fn: Fnmatch, name: string, all: seq<Match>, seen: seq<Match>, m: Match, chain: seq<Match>)
    requires DistinctRules(all) && seen + [m] <= all && Covers(fn, name, all, seen, chain)
    ensures Covers(fn, name, all, seen + [m], if NameOk(fn, name, m) then Recorded(chain, m) else chain)
  {
    hide NameMatches;
    var names, done := NameMatches(fn, name, all), NameMatches(fn, name, seen);
    NameMatchesApp(fn, name, seen, [m]);
    NameMatchesOne(fn, name, m);
    NameMatchesPrefix(fn, name, seen + [m], all);
    NameMatchesDistinct(fn, name, all);
    if NameOk(fn, name, m) {
      assert names[|done|] == m;
      if |chain| > |done| {
        assert chain[|done|] == m;
      } else {
        assert chain == done;
        assert forall i :: 0 <= i < |chain| ==> chain[i] == names[i];
      }
    }
  }

  lemma NameMatchesOne(fn: Fnmatch, name: string, m: Match)
    ensures NameMatches(fn, name, [m]) == if NameOk(fn, name, m) then [m] else []
  {
    assert [m][..|[m]| - 1] == [] && NameMatches(fn, name, []) == [];
  }

  function ChainFor(wm: map<string, seq<Match>>, name: string): seq<Match> {
    if name in wm then wm[name] else []
  }

  ghost predicate CacheOk(fn: Fnmatch, wm: map<string, seq<Match>>, all: seq<Match>) {
    && DistinctRules(all)
    && forall n :: n in wm ==> wm[n] <= NameMatches(fn, n, all)
  }

  class Layout {
    const fn: Fnmatch
    const gc: bool
    var out: Output
    var wm: map<string, seq<Match>>

    ghost predicate Ok()
      reads this
    {
      Valid(out) && CacheOk(fn, wm, Rules(out.os, out.oslist))
    }

    constructor (fn: Fnmatch, gc: bool, out: Output)
      requires Valid(out) && DistinctRules(Rules(out.os, out.oslist))
      ensures Ok() && this.out == out && this.fn == fn && this.gc == gc
    {
      this.fn, this.gc, this.out := fn, gc, out;
      wm := map[];
    }

    /** The chain walk at the top of `_layout_input_sections`. */
    method SearchCache(s: InSec) returns (r: Option<Match>)
      requires Ok()
      ensures r.Some? ==> r == FirstFit(fn, s, Rules(out.os, out.oslist))
    {
      hide Rules, NameMatches;
      r := None;
      if s.name !in wm {
        return;
      }
      var chain := wm[s.name];
      for i := 0 to |chain|
        invariant FirstFit(fn, s, chain[..i]).None?
      {
        assert chain[..i + 1][..i] == chain[..i];
        assert NameOk(fn, s.name, chain[i]) by {
          ChainMatches(fn, s.name, Rules(out.os, out.oslist), chain, i);
        }
        if FileOk(fn, s.input, chain[i].rule) {
          assert chain == chain[..i + 1] + chain[i + 1..];
          FirstFitApp(fn, s, chain[..i + 1], chain[i + 1..]);
          CachedFitIsFirst(fn, s, Rules(out.os, out.oslist), chain);
          return Some(chain[i]);
        }
      }
    }

    /** `_record_wildcard_match`: a new chain, or a new rule at the end of an old one. */
    method RecordMatch(name: string, m: Match)
      modifies `wm
      ensures wm.Keys == old(wm.Keys) + {name} && wm[name] == Recorded(ChainFor(old(wm), name), m)
      ensures forall n :: n in old(wm) && n != name ==> wm[n] == old(wm[n])
    {
      if name !in wm {
        wm := wm[name := [m]];
        return;
      }
      var chain := wm[name];
      for i := 0 to |chain|
        invariant wm == old(wm) && forall k :: 0 <= k < i ==> chain[k].rule.id != m.rule.id
      {
        if chain[i].rule.id == m.rule.id {
          assert HasRule(chain, m.rule.id);
          return;
        }
      }
      wm := wm[name := chain + [m]];
    }

    /** Where an orphan's output section goes: the loop of `ld_layout_insert_output_section`. */
    method FindPosition(flags: set<Flag>) returns (p: nat)
      requires Valid(out)
      ensures p == OrphanPosition(out, flags, 0)
    {
      p := 0;
      while p < |out.oslist|
        invariant p <= |out.oslist| && OrphanPosition(out, flags, 0) == OrphanPosition(out, flags, p)
      {
        if StopsAt(out, flags, p) {
          return p + 1;
        }
        p := p + 1;
      }
    }

    /** `_layout_orphan_section`. */
    method LayoutOrphan(s: InSec)
      requires Ok()
      modifies `out
      ensures Ok() && out == Orphan(gc, old(out), s) && Rules(out.os, out.oslist) == old(Rules(out.os, out.oslist))
    {
      hide Rules, CacheOk, OrphanPosition, Insert;
      ghost var was := out;
      OrphanKeeps(gc, out, s);
      if NotLaidOut(gc, s) {
        return;
      }
      if s.name in out.byName {
        var o := out.byName[s.name];
        var elems := out.os[o].elems;
        assert ListsOk(out, elems);
        if elems != [] && elems[0].InputList? {
          out := Insert(out, o, elems[0].list, s);
        } else {
          out := out.(failed := true);
        }
        return;
      }
      var p := FindPosition(s.flags);
      var o, list := out.next, out.next + 1;
      out := out.(oslist := out.oslist[..p] + [o] + out.oslist[p..],
                  os := out.os[o := OutSec(s.name, s.flags * {ALLOC}, [InputList(None, list)])],
                  byName := out.byName[s.name := o], lists := out.lists[list := []], next := out.next + 2);
      assert out == NewOutSec(was, s);
      out := Insert(out, o, list, s);
    }

    /** One section of `_layout_input_sections`. */
    method LayoutSection(s: InSec)
      requires Ok() && !out.failed
      modifies this
      ensures Ok() && out == Plain(fn, gc, old(out), s)
    {
      hide Rules, CacheOk, Orphan, PlaceAt, FirstFit;
      ghost var was := out;
      if Skipped(s) {
        return;
      }
      PlainKeeps(fn, gc, out, s);
      var r := SearchCache(s);
      if r.None? {
        r := FullSearch(s);
      }
      if r.Some? {
        RulesKnown(out, out.oslist, r.value);
        out := PlaceAt(out, r.value, s);
      } else {
        LayoutOrphan(s);
      }
      assert out == Plain(fn, gc, was, s);
    }

    lemma OkIsValid()
      requires Ok()
      ensures Valid(out)
    {
    }

    /** The sections of all input objects, until the orphan assertion fails. */
    method LayoutAll(ss: seq<InSec>)
      requires Ok()
      modifies this
      ensures Ok() && out == PlainAll(fn, gc, old(out), ss)
    {
      hide Rules, CacheOk, Plain, Layout.Ok;
      OkIsValid();
      for i := 0 to |ss|
        invariant Ok() && Valid(old(out)) && out == PlainAll(fn, gc, old(out), ss[..i])
      {
        assert ss[..i + 1][..i] == ss[..i];
        if out.failed {
          FailedStays(fn, gc, out, ss[i]);
        } else {
          LayoutSection(ss[i]);
        }
      }
      assert ss[..|ss|] == ss;
    }

    /** The full search, recording every rule whose wildcards match on the way. */
    method FullSearch(s: InSec) returns (r: Option<Match>)
      requires Ok()
      modifies `wm
      ensures Ok() && r == FirstFit(fn, s, Rules(out.os, out.oslist))
    {
      hide NameMatches, RulesOf, CacheOk, FirstFit, Recorded;
      ghost var all := Rules(out.os, out.oslist);
      NothingSeen(fn, s, all, wm);
      for i := 0 to |out.oslist|
        invariant CacheOk(fn, wm, all) && Covers(fn, s.name, all, Rules(out.os, out.oslist[..i]), ChainFor(wm, s.name))
        invariant FirstFit(fn, s, Rules(out.os, out.oslist[..i])).None?
      {
        r := SearchSection(s, i);
        if r.Some? {
          return;
        }
      }
      assert out.oslist[..|out.oslist|] == out.oslist;
      return None;
    }

    /** The inner loop, over the elements of output section `i`. */
    method SearchSection(s: InSec, i: nat) returns (r: Option<Match>)
      requires Valid(out) && i < |out.oslist| && CacheOk(fn, wm, Rules(out.os, out.oslist))
      requires Covers(fn, s.name, Rules(out.os, out.oslist), Rules(out.os, out.oslist[..i]), ChainFor(wm, s.name))
      requires FirstFit(fn, s, Rules(out.os, out.oslist[..i])).None?
      modifies `wm
      ensures CacheOk(fn, wm, Rules(out.os, out.oslist))
      ensures r.Some? ==> r == FirstFit(fn, s, Rules(out.os, out.oslist))
      ensures r.None? ==> FirstFit(fn, s, Rules(out.os, out.oslist[..i + 1])).None?
      ensures r.None? ==>
        Covers(fn, s.name, Rules(out.os, out.oslist), Rules(out.os, out.oslist[..i + 1]), ChainFor(wm, s.name))
    {
      hide NameMatches, CacheOk, FirstFit, Rules, RulesOf, Recorded, Covers;
      var o := out.oslist[i];
      var elems := out.os[o].elems;
      ghost var all, before := Rules(out.os, out.oslist), Rules(out.os, out.oslist[..i]);
      SectionRules(out, i);
      assert elems[..0] == [] && before + [] == before;
      for j := 0 to |elems|
        invariant CacheOk(fn, wm, all) && Covers(fn, s.name, all, before + RulesOf(o, elems[..j]), ChainFor(wm, s.name))
        invariant FirstFit(fn, s, before + RulesOf(o, elems[..j])).None?
      {
        ElementRule(o, elems, j, before, all);
        if elems[j].InputList? && elems[j].rule.Some? {
          var m := Match(o, elems[j].list, elems[j].rule.value);
          r := Visit(s, m, before + RulesOf(o, elems[..j]));
          if r.Some? {
            return;
          }
        }
      }
      assert elems[..|elems|] == elems;
      return None;
    }

    /** One rule met by the search, `seen` being the rules before it. */
    method Visit(s: InSec, m: Match, ghost seen: seq<Match>) returns (r: Option<Match>)
      requires Valid(out) && CacheOk(fn, wm, Rules(out.os, out.oslist))
      requires seen + [m] <= Rules(out.os, out.oslist) && FirstFit(fn, s, seen).None?
      requires Covers(fn, s.name, Rules(out.os, out.oslist), seen, ChainFor(wm, s.name))
      modifies `wm
      ensures CacheOk(fn, wm, Rules(out.os, out.oslist))
      ensures r.Some? ==> r == FirstFit(fn, s, Rules(out.os, out.oslist))
      ensures r.None? ==> FirstFit(fn, s, seen + [m]).None?
      ensures r.None? ==> Covers(fn, s.name, Rules(out.os, out.oslist), seen + [m], ChainFor(wm, s.name))
    {
      hide NameMatches, Rules, RulesOf, Recorded, FirstFit, AnyMatch, FileOk;
      ghost var all := Rules(out.os, out.oslist);
      assert all == (seen + [m]) + all[|seen| + 1..];
      FirstFitApp(fn, s, seen + [m], all[|seen| + 1..]);
      FirstFitApp(fn, s, seen, [m]);
      FirstFitOne(fn, s, m);
      RecordKeepsPrefix(fn, s.name, all, seen, m, ChainFor(wm, s.name));
      r := None;
      if AnyMatch(fn, m.rule.secs, s.name) {
        RecordMatch(s.name, m);
        if FileOk(fn, s.input, m.rule) {
          r := Some(m);
        }
      }
    }
  }

  lemma FirstFitOne(fn: Fnmatch, s: InSec, m: Match)
    ensures FirstFit(fn, s, [m]) == if Fits(fn, s, m) then Some(m) else None
  {
    assert [m][..|[m]| - 1] == [] && FirstFit(fn, s, []) == None;
  }

  lemma NothingSeen(fn: Fnmatch, s: InSec, all: seq<Match>, wm: map<string, seq<Match>>)
    requires CacheOk(fn, wm, all)
    ensures Covers(fn, s.name, all, [], ChainFor(wm, s.name)) && FirstFit(fn, s, []).None?
  {
  }

  /** A chain holds only rules whose wildcards match its name. */
  lemma ChainMatches(fn: Fnmatch, name: string, all: seq<Match>, chain: seq<Match>, i: nat)
    requires chain <= NameMatches(fn, name, all) && i < |chain|
    ensures NameOk(fn, name, chain[i])
  {
    AllMatch(fn, name, all);
    assert chain[i] == NameMatches(fn, name, all)[i];
  }

  lemma {:induction false} AllMatch(fn: Fnmatch, name: string, ms: seq<Match>)
    ensures forall m :: m in NameMatches(fn, name, ms) ==> NameOk(fn, name, m)
  {
    if ms != [] {
      AllMatch(fn, name, ms[..|ms| - 1]);
    }
  }

  lemma SectionRules(out: Output, i: nat)
    requires Valid(out) && i < |out.oslist|
    ensures var o := out.oslist[i];
            && o in out.os && RulesOf(o, []) == []
            && Rules(out.os, out.oslist[..i + 1]) == Rules(out.os, out.oslist[..i]) + RulesOf(o, out.os[o].elems)
            && Rules(out.os, out.oslist[..i + 1]) <= Rules(out.os, out.oslist)
  {
    assert out.oslist[..i + 1][..i] == out.oslist[..i];
    assert out.oslist == out.oslist[..i + 1] + out.oslist[i + 1..];
    RulesApp(out.os, out.oslist[..i + 1], out.oslist[i + 1..]);
  }

  lemma ElementRule(o: Id, elems: seq<Element>, j: nat, before: seq<Match>, all: seq<Match>)
    requires j < |elems| && before + RulesOf(o, elems) <= all
    ensures var e := elems[j];
            var here := if e.InputList? && e.rule.Some? then [Match(o, e.list, e.rule.value)] else [];
            && before + RulesOf(o, elems[..j + 1]) == before + RulesOf(o, elems[..j]) + here
            && (here == [] ==> before + RulesOf(o, elems[..j + 1]) == before + RulesOf(o, elems[..j]))
            && before + RulesOf(o, elems[..j]) + here <= all
  {
    RulesOfStep(o, elems, j);
    hide RulesOf;
    assert elems == elems[..j + 1] + elems[j + 1..];
    RulesOfApp(o, elems[..j + 1], elems[j + 1..]);
  }

  lemma RulesOfStep(o: Id, elems: seq<Element>, j: nat)
    requires j < |elems|
    ensures var e := elems[j];
            RulesOf(o, elems[..j + 1])
            == RulesOf(o, elems[..j]) + (if e.InputList? && e.rule.Some? then [Match(o, e.list, e.rule.value)] else [])
  {
    assert elems[..j + 1][..j] == elems[..j];
  }

  lemma {:induction false} RulesOfApp(o: Id, a: seq<Element>, b: seq<Element>)
    ensures RulesOf(o, a + b) == RulesOf(o, a) + RulesOf(o, b)
  {
    if b == [] {
      assert a + b == a;
    } else {
      RulesOfApp(o, a, b[..|b| - 1]);
      assert (a + b)[..|a + b| - 1] == a + b[..|b| - 1];
    }
  }
}
