/** The section index table of rts/CheckUnload.c: which address belongs to which object code.
    The table is generic in the handle `OC` of an object code; it only stores and forgets it. */
module SectionTable {
  import opened Options
  import opened Sequences

  /** One section of an object file. `other` stands for SECTIONKIND_OTHER, which is never indexed. */
  datatype Section = Section(start: nat, size: nat, other: bool)

  /** An OCSectionIndex: a half-open address range and its owner, None once the owner is unloaded. */
  datatype Entry<+OC> = Entry(start: nat, end: nat, oc: Option<OC>) {
    predicate Covers(addr: nat) { start <= addr < end }
  }

  // ----- What a table means -----

  predicate Apart<OC>(a: Entry<OC>, b: Entry<OC>) {
    a.end <= b.start || b.end <= a.start
  }

  ghost predicate Proper<OC>(es: seq<Entry<OC>>) {
    && (forall i | 0 <= i < |es| :: es[i].start < es[i].end)
    && (forall i, j | 0 <= i < j < |es| :: Apart(es[i], es[j]))
  }

  ghost predicate ByStart<OC>(es: seq<Entry<OC>>) {
    forall i, j | 0 <= i < j < |es| :: es[i].start <= es[j].start
  }

  ghost predicate NoneRemoved<OC>(es: seq<Entry<OC>>) {
    forall i | 0 <= i < |es| :: es[i].oc.Some?
  }

  /** The entries whose owner has not been unloaded, in table order. */
  function Live<OC>(es: seq<Entry<OC>>): seq<Entry<OC>> {
    if es == [] then []
    else
      var last := es[|es| - 1];
      Live(es[..|es| - 1]) + if last.oc.Some? then [last] else []
  }

  /** The entries a static object contributes: one for each section that is not SECTIONKIND_OTHER. */
  function EntriesOf<OC>(oc: OC, sections: seq<Section>): seq<Entry<OC>> {
    if sections == [] then []
    else
      var s := sections[|sections| - 1];
      EntriesOf(oc, sections[..|sections| - 1])
      + if s.other then [] else [Entry(s.start, s.start + s.size, Some(oc))]
  }

  /** Does some indexed section start inside the entry? */
  ghost predicate Hit<OC>(e: Entry<OC>, sections: seq<Section>) {
    exists k :: 0 <= k < |sections| && !sections[k].other && e.Covers(sections[k].start)
  }

  /** The table after the owner of one section has been forgotten. */
  ghost function ForgetOne<OC>(es: seq<Entry<OC>>, s: Section): seq<Entry<OC>> {
    if s.other then es
    else seq(|es|, i requires 0 <= i < |es| => if es[i].Covers(s.start) then es[i].(oc := None) else es[i])
  }

  ghost function Forget<OC>(es: seq<Entry<OC>>, sections: seq<Section>): (r: seq<Entry<OC>>)
    ensures |r| == |es|
  {
    if sections == [] then es
    else ForgetOne(Forget(es, sections[..|sections| - 1]), sections[|sections| - 1])
  }

  /** Forgetting the owner of `sections` clears exactly the entries that a section of it starts in. */
  lemma {:induction false} ForgetAt<OC>(es: seq<Entry<OC>>, sections: seq<Section>, k: nat)
    requires k < |es|
    ensures Forget(es, sections)[k] == if Hit(es[k], sections) then es[k].(oc := None) else es[k]
  {
    if sections != [] {
      var i := |sections| - 1;
      assert sections[..i + 1] == sections;
      ForgetAt(es, sections[..i], k);
      HitSnoc(es[k], sections, i);
    }
  }

  lemma HitSnoc<OC>(e: Entry<OC>, sections: seq<Section>, i: nat)
    requires i < |sections|
    ensures Hit(e, sections[..i + 1]) <==>
            Hit(e, sections[..i]) || (!sections[i].other && e.Covers(sections[i].start))
  {
    var a, b := sections[..i], sections[..i + 1];
    assert forall m | 0 <= m < i :: a[m] == b[m];
    assert b[i] == sections[i];
  }

  lemma LiveElement<OC>(es: seq<Entry<OC>>, e: Entry<OC>)
    ensures e in Live(es) <==> e in es && e.oc.Some?
  {
    if es != [] {
      LiveElement(es[..|es| - 1], e);
      assert es == es[..|es| - 1] + [es[|es| - 1]];
    }
  }

  ghost predicate Indexed(s: seq<Section>, k: int, start: nat, end: nat) {
    0 <= k < |s| && !s[k].other && start == s[k].start && end == s[k].start + s[k].size
  }

  /** An entry is contributed exactly when it describes some indexed section. */
  lemma {:induction false} EntriesOfElement<OC>(oc: OC, sections: seq<Section>, e: Entry<OC>)
    ensures e in EntriesOf(oc, sections) <==>
            e.oc == Some(oc) && exists k :: Indexed(sections, k, e.start, e.end)
  {
    if sections != [] {
      var last := |sections| - 1;
      var init := sections[..last];
      EntriesOfElement(oc, init, e);
      IndexedLast(sections, e.start, e.end);
      assert e in EntriesOf(oc, sections) <==>
               e in EntriesOf(oc, init) || (e.oc == Some(oc) && Indexed(sections, last, e.start, e.end));
    }
  }

  lemma IndexedLast(sections: seq<Section>, start: nat, end: nat)
    requires sections != []
    ensures var last := |sections| - 1;
            (exists k :: Indexed(sections, k, start, end)) <==>
            (exists k :: Indexed(sections[..last], k, start, end)) || Indexed(sections, last, start, end)
  {
    var last := |sections| - 1;
    assert forall k | 0 <= k < last :: Indexed(sections[..last], k, start, end) <==> Indexed(sections, k, start, end);
  }

  /** Ranges are nonempty, and those that still have an owner are apart. */
  ghost predicate LiveApart<OC>(es: seq<Entry<OC>>) {
    && (forall i | 0 <= i < |es| :: es[i].start < es[i].end)
    && (forall i, j | 0 <= i < j < |es| && es[i].oc.Some? && es[j].oc.Some? :: Apart(es[i], es[j]))
  }

  /** Compaction keeps ranges nonempty and pairwise apart, and drops nothing that still has an owner. */
  lemma {:induction false} LiveProper<OC>(es: seq<Entry<OC>>)
    requires LiveApart(es)
    ensures Proper(Live(es)) && NoneRemoved(Live(es))
  {
    if es != [] {
      var init := es[..|es| - 1];
      assert forall i | 0 <= i < |init| :: init[i] == es[i];
      LiveProper(init);
      var l := Live(init);
      forall i | 0 <= i < |l| && es[|es| - 1].oc.Some?
        ensures Apart(l[i], es[|es| - 1])
      {
        LiveElement(init, l[i]);
        var k :| 0 <= k < |init| && init[k] == l[i];
        assert es[k] == l[i];
      }
    }
  }

  // ----- The effect of qsort with cmpSectionIndex -----

  function InsertByStart<OC>(e: Entry<OC>, es: seq<Entry<OC>>): seq<Entry<OC>> {
    if es == [] || e.start <= es[0].start then [e] + es else [es[0]] + InsertByStart(e, es[1..])
  }

  function SortByStart<OC>(es: seq<Entry<OC>>): seq<Entry<OC>> {
    if es == [] then [] else InsertByStart(es[0], SortByStart(es[1..]))
  }

  lemma {:induction false} InsertByStartPermutes<OC>(e: Entry<OC>, es: seq<Entry<OC>>)
    ensures multiset(InsertByStart(e, es)) == multiset(es) + multiset{e}
    decreases |es|
  {
    if !(es == [] || e.start <= es[0].start) {
      InsertByStartPermutes(e, es[1..]);
      assert es == [es[0]] + es[1..];
    }
  }

  lemma {:induction false} SortByStartPermutes<OC>(es: seq<Entry<OC>>)
    ensures multiset(SortByStart(es)) == multiset(es)
    decreases |es|
  {
    if es != [] {
      SortByStartPermutes(es[1..]);
      InsertByStartPermutes(es[0], SortByStart(es[1..]));
      assert es == [es[0]] + es[1..];
    }
  }

  lemma SameElement<T>(a: seq<T>, b: seq<T>, x: T)
    requires multiset(a) == multiset(b)
    ensures x in a <==> x in b
  {
    assert x in a <==> x in multiset(a);
  }

  lemma SameLength<T>(a: seq<T>, b: seq<T>)
    requires multiset(a) == multiset(b)
    ensures |a| == |b|
  {
    assert |multiset(a)| == |multiset(b)|;
  }

  lemma {:induction false} InsertByStartOrders<OC>(e: Entry<OC>, es: seq<Entry<OC>>)
    requires ByStart(es)
    ensures ByStart(InsertByStart(e, es))
    decreases |es|
  {
    if !(es == [] || e.start <= es[0].start) {
      InsertByStartOrders(e, es[1..]);
      InsertByStartAfter(e, es[1..], es[0].start);
      ConsOrders(es[0], InsertByStart(e, es[1..]));
    }
  }

  lemma InsertByStartAfter<OC>(e: Entry<OC>, es: seq<Entry<OC>>, start: nat)
    requires start <= e.start && forall j | 0 <= j < |es| :: start <= es[j].start
    ensures forall j | 0 <= j < |InsertByStart(e, es)| :: start <= InsertByStart(e, es)[j].start
  {
    hide InsertByStart;
    var t := InsertByStart(e, es);
    InsertByStartPermutes(e, es);
    forall j | 0 <= j < |t| ensures start <= t[j].start {
      SameElement(t, es + [e], t[j]);
    }
  }

  lemma ConsOrders<OC>(e: Entry<OC>, es: seq<Entry<OC>>)
    requires ByStart(es) && forall k | 0 <= k < |es| :: e.start <= es[k].start
    ensures ByStart([e] + es)
  {
    var r := [e] + es;
    assert forall i | 0 < i < |r| :: r[i] == es[i - 1];
  }

  lemma ConsProper<OC>(e: Entry<OC>, es: seq<Entry<OC>>)
    requires Proper(es) && e.start < e.end && forall k | 0 <= k < |es| :: Apart(e, es[k])
    ensures Proper([e] + es)
  {
    var r := [e] + es;
    assert forall i | 0 < i < |r| :: r[i] == es[i - 1];
  }

  lemma {:induction false} InsertByStartProper<OC>(e: Entry<OC>, es: seq<Entry<OC>>)
    requires Proper(es) && e.start < e.end && forall k | 0 <= k < |es| :: Apart(e, es[k])
    ensures Proper(InsertByStart(e, es))
    decreases |es|
  {
    if es == [] || e.start <= es[0].start {
      ConsProper(e, es);
    } else {
      var t := InsertByStart(e, es[1..]);
      assert Proper(es[1..]);
      InsertByStartProper(e, es[1..]);
      InsertByStartPermutes(e, es[1..]);
      forall j | 0 <= j < |t| ensures Apart(es[0], t[j]) {
        SameElement(t, es[1..] + [e], t[j]);
      }
      ConsProper(es[0], t);
    }
  }

  /** Sorting permutes the table, orders it by start address and keeps the ranges apart. */
  lemma {:induction false} SortByStartSorts<OC>(es: seq<Entry<OC>>)
    requires Proper(es)
    ensures ByStart(SortByStart(es)) && Proper(SortByStart(es))
    decreases |es|
  {
    if es != [] {
      var t := SortByStart(es[1..]);
      SortByStartSorts(es[1..]);
      SortByStartPermutes(es[1..]);
      forall k | 0 <= k < |t| ensures Apart(es[0], t[k]) {
        SameElement(t, es[1..], t[k]);
      }
      InsertByStartOrders(es[0], t);
      InsertByStartProper(es[0], t);
    }
  }

  // ----- Capacities -----

  /** 1 << ceil(log2(n)): the least power of two that is at least n, found from the exponent k on. */
  function RoundUp(n: nat, k: nat): (r: nat)
    requires k == 0 || Pow2(k - 1) < n
    ensures n <= r && (r == 1 || r < 2 * n)
    ensures exists j: nat :: k <= j && r == Pow2(j)
    decreases n - Pow2(k)
  {
    if n <= Pow2(k) then
      Pow2(k)
    else
      assert Pow2(k) < n && Pow2(k + 1 - 1) == Pow2(k);
      RoundUp(n, k + 1)
  }

  // ----- The table itself -----

  class OCSectionIndices<OC(==)> {
    var indices: array<Entry<OC>>
    var nSections: nat
    var sorted: bool
    var unloaded: bool

    /** Structural invariant: the flags mean what findSectionIdx and removeRemovedOCSections rely on. */
    ghost predicate Valid()
      reads this, indices
    {
      && nSections <= indices.Length
      && (sorted ==> ByStart(Entries()) && Proper(Entries()))
      && (!unloaded ==> NoneRemoved(Entries()))
    }

    ghost function Entries(): seq<Entry<OC>>
      requires nSections <= indices.Length
      reads this, indices
    {
      indices[..nSections]
    }

    constructor ()
      ensures Valid() && Entries() == [] && sorted && fresh(indices)
    {
      indices := new Entry<OC>[1024](_ => Entry(0, 0, None));
      nSections, sorted, unloaded := 0, true, false;
    }

    method Reserve(len: nat)
      requires Valid()
      modifies this`indices
      ensures Valid() && Entries() == old(Entries())
      ensures indices == old(indices) || fresh(indices)
      ensures nSections + len <= indices.Length
    {
      if indices.Length - nSections >= len {
        return;
      }
      ghost var es := Entries();
      var newCapacity := RoundUp(nSections + len, 0);
      var newIndices := new Entry<OC>[newCapacity](_ => Entry(0, 0, None));
      var i := 0;
      while i < nSections
        invariant 0 <= i <= nSections <= newIndices.Length && nSections <= indices.Length
        invariant fresh(newIndices) && Entries() == es
        invariant newIndices[..i] == es[..i]
      {
        newIndices[i] := indices[i];
        i := i + 1;
      }
      indices := newIndices;
      assert Entries() == es;
    }

    /** insertOCSectionIndices for a static object: append its indexed sections, order is lost. */
    method Insert(oc: OC, sections: seq<Section>)
      requires Valid()
      modifies this, indices
      ensures Valid() && Entries() == old(Entries()) + EntriesOf(oc, sections)
      ensures !sorted && unloaded == old(unloaded)
      ensures indices == old(indices) || fresh(indices)
    {
      sorted := false;
      Reserve(|sections|);
      var si := nSections;
      ghost var before := Entries();
      var i := 0;
      while i < |sections|
        invariant 0 <= i <= |sections| && si <= nSections + i
        invariant nSections == old(nSections) && nSections + |sections| <= indices.Length
        invariant nSections <= si && indices[..si] == before + EntriesOf(oc, sections[..i])
        invariant !sorted && unloaded == old(unloaded)
        invariant indices == old(indices) || fresh(indices)
      {
        assert sections[..i + 1][..i] == sections[..i];
        if !sections[i].other {
          indices[si] := Entry(sections[i].start, sections[i].start + sections[i].size, Some(oc));
          si := si + 1;
        }
        i := i + 1;
      }
      assert sections[..i] == sections;
      nSections := si;
      forall k | 0 <= k < |EntriesOf(oc, sections)| ensures EntriesOf(oc, sections)[k].oc.Some? {
        EntriesOfElement(oc, sections, EntriesOf(oc, sections)[k]);
      }
    }

    /** findSectionIdx: the binary search finds the only entry that covers the address, or -1 if none does. */
    method FindSectionIdx(addr: nat) returns (idx: int)
      requires Valid() && sorted
      ensures -1 <= idx < nSections
      ensures idx >= 0 ==> indices[idx].Covers(addr)
      ensures forall k | 0 <= k < nSections && k != idx :: !indices[k].Covers(addr)
    {
      ghost var es := Entries();
      assert forall k | 0 <= k < nSections :: indices[k] == es[k];
      if nSections <= 0 {
        return -1;
      }
      if addr < indices[0].start {
        return -1;
      }
      var left, right := 0, nSections;
      while left + 1 < right
        invariant 0 <= left < right <= nSections
        invariant es[left].start <= addr
        invariant right < nSections ==> addr < es[right].start
      {
        var mid := (left + right) / 2;
        if indices[mid].start <= addr {
          left := mid;
        } else {
          right := mid;
        }
      }
      if addr < indices[left].end {
        return left;
      }
      return -1;
    }

    /** findOC */
    method FindOC(addr: nat) returns (oc: Option<OC>)
      requires Valid() && sorted
      ensures oc.Some? ==> exists e :: e in Entries() && e.Covers(addr) && e.oc == oc
      ensures oc.None? ==> forall e | e in Entries() && e.Covers(addr) :: e.oc.None?
    {
      var idx := FindSectionIdx(addr);
      assert forall k | 0 <= k < nSections :: indices[k] == Entries()[k];
      if idx == -1 {
        return None;
      }
      assert indices[idx] in Entries();
      return indices[idx].oc;
    }

    /** removeOCSectionIndices: the entries of the object lose their owner, everything else stays. */
    method Remove(sections: seq<Section>)
      requires Valid() && sorted
      modifies this`unloaded, indices
      ensures Valid() && Entries() == Forget(old(Entries()), sections)
    {
      unloaded := true;
      ghost var es := Entries();
      var i := 0;
      while i < |sections|
        invariant 0 <= i <= |sections| && unloaded
        invariant Valid() && Entries() == Forget(es, sections[..i])
      {
        assert sections[..i + 1][..i] == sections[..i];
        if !sections[i].other {
          ghost var before := Entries();
          var idx := FindSectionIdx(sections[i].start);
          if idx != -1 {
            indices[idx] := indices[idx].(oc := None);
          }
          assert Entries() == ForgetOne(before, sections[i]);
          ForgetOneKeeps(before, sections[i]);
        }
        i := i + 1;
      }
      assert sections[..i] == sections;
    }

    /** removeRemovedOCSections: squeeze out the entries without an owner, in place and in order.
        The C code leaves the `unloaded` flag set; so does this. */
    method RemoveRemoved()
      requires Valid() && LiveApart(Entries())
      modifies this`nSections, this`unloaded, indices
      ensures Valid() && Entries() == Live(old(Entries()))
      ensures Proper(Entries()) && NoneRemoved(Entries())
    {
      hide LiveApart, Proper, ByStart, Live, NoneRemoved;
      ghost var es := Entries();
      if !unloaded {
        AllLive(es);
        LiveProper(es);
        return;
      }
      nSections := Squeeze(es);
      unloaded := true;
      LiveProper(es);
      if sorted { LiveByStart(es); }
    }

    /** The loop of removeRemovedOCSections. */
    method Squeeze(ghost es: seq<Entry<OC>>) returns (free: nat)
      requires nSections <= indices.Length && es == indices[..nSections]
      modifies indices
      ensures free <= nSections && indices[..free] == Live(es)
    {
      free := 0;
      var i := 0;
      while i < nSections
        invariant 0 <= free <= i <= nSections && nSections == |es| <= indices.Length
        invariant indices[..free] == Live(es[..i])
        invariant forall k | i <= k < nSections :: indices[k] == es[k]
      {
        assert es[..i + 1][..i] == es[..i];
        if indices[i].oc.None? {
        } else if i == free {
          free := free + 1;
        } else {
          indices[free] := indices[i];
          free := free + 1;
        }
        i := i + 1;
      }
      assert es[..i] == es;
    }

    /** sortOCSectionIndices. The library sort is modelled by its effect on the entries. */
    method Sort()
      requires Valid() && Proper(Entries())
      modifies this`sorted, indices
      ensures Valid() && sorted
      ensures multiset(Entries()) == multiset(old(Entries()))
    {
      if sorted {
        return;
      }
      ghost var es := Entries();
      var result := SortByStart(indices[..nSections]);
      SortByStartSorts(es);
      SortByStartPermutes(es);
      SameLength(result, es);
      CopyBack(result);
      sorted := true;
      if !unloaded {
        forall k | 0 <= k < |result| ensures result[k].oc.Some? {
          SameElement(result, es, result[k]);
        }
      }
    }

    method CopyBack(result: seq<Entry<OC>>)
      requires nSections == |result| <= indices.Length
      modifies indices
      ensures indices[..nSections] == result
    {
      var i := 0;
      while i < nSections
        invariant 0 <= i <= nSections
        invariant indices[..i] == result[..i]
      {
        indices[i] := result[i];
        i := i + 1;
      }
    }
  }

  lemma ForgetOneKeeps<OC>(es: seq<Entry<OC>>, s: Section)
    requires ByStart(es) && Proper(es)
    ensures ByStart(ForgetOne(es, s)) && Proper(ForgetOne(es, s))
  {
    var r := ForgetOne(es, s);
    assert forall i | 0 <= i < |es| :: r[i].start == es[i].start && r[i].end == es[i].end;
  }

  lemma AllLive<OC>(es: seq<Entry<OC>>)
    requires NoneRemoved(es)
    ensures Live(es) == es
  {
    if es != [] {
      assert es == es[..|es| - 1] + [es[|es| - 1]];
    }
  }

  lemma {:induction false} LiveByStart<OC>(es: seq<Entry<OC>>)
    requires ByStart(es)
    ensures ByStart(Live(es))
  {
    if es != [] {
      var init := es[..|es| - 1];
      LiveByStart(init);
      var l := Live(init);
      forall i | 0 <= i < |l| ensures l[i].start <= es[|es| - 1].start {
        LiveElement(init, l[i]);
        var k :| 0 <= k < |init| && init[k] == l[i];
        assert es[k] == l[i];
      }
    }
  }
}
