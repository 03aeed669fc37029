/** What the runtime linker keeps about one object file, and about one symbol. */
module ObjectCodes {
  import opened LinkedLists
  import opened Options
  import opened SectionTable

  datatype Status = Loaded | Needed | Resolved | Ready | Unloaded

  datatype Strength = Normal | Weak | Strong

  /** A SymType: what the symbol is, and whether SYM_TYPE_DUP_DISCARD is set. */
  datatype SymKind = Code | Data | IndirectData
  datatype SymType = SymType(kind: SymKind, dupDiscard: bool)

  /** A Symbol_t of an object's own symbol list; address 0 is NULL. */
  datatype Symbol = Symbol(name: string, addr: nat, strength: Strength, typ: SymType)

  ghost function Names(symbols: seq<Symbol>): set<string> {
    set s | s in symbols :: s.name
  }

  /** An ObjectCode of type STATIC_OBJECT. */
  class ObjectCode {
    const fileName: string
    const archiveMember: bool
    const sections: seq<Section>
    const relocations: seq<string>   // symbol names that resolving this object looks up, in order
    var symbols: seq<Symbol>
    var status: Status
    var next: ObjectCode?
    var prev: ObjectCode?
    var nextLoaded: ObjectCode?
    var mark: bv8
    var dependencies: seq<ObjectCode>

    /** mkOc, with what ocGetNames found in the image */
    constructor (fileName: string, archiveMember: bool, sections: seq<Section>,
                 relocations: seq<string>, symbols: seq<Symbol>, markBit: bv8)
      ensures this.fileName == fileName && this.archiveMember == archiveMember
      ensures this.sections == sections && this.relocations == relocations && this.symbols == symbols
      ensures status == if archiveMember then Loaded else Needed
      ensures next == null && prev == null && nextLoaded == null
      ensures mark == markBit && dependencies == []
    {
      this.fileName, this.archiveMember := fileName, archiveMember;
      this.sections, this.relocations, this.symbols := sections, relocations, symbols;
      status := if archiveMember then Loaded else Needed;
      next, prev, nextLoaded := null, null, null;
      mark, dependencies := markBit, [];
    }
  }

  /** A pointer that may be NULL, as an option. */
  function Opt(o: ObjectCode?): Option<ObjectCode> {
    if o == null then None else Some(o)
  }

  lemma OptInElems(s: seq<ObjectCode>, o: ObjectCode?)
    ensures o != null && (o in s || Opt(o) == Head(s)) ==> o in Elems(s)
  {
  }

  lemma MissesNone<T>(s: seq<T>)
    ensures Misses(s, None)
  {
  }

  lemma MissesOther<T>(s: seq<T>, t: seq<T>, o: Option<T>)
    requires Elems(s) !! Elems(t) && (o.Some? ==> o.value in t)
    ensures Misses(s, o)
  {
    if o.Some? { assert o.value in Elems(t); }
  }

  // ----- Section table entries of registered objects -----

  /** Some indexed section of the object holds the address. */
  ghost predicate Contains(o: ObjectCode, addr: nat) {
    exists k :: 0 <= k < |o.sections| && !o.sections[k].other
                && o.sections[k].start <= addr < o.sections[k].start + o.sections[k].size
  }

  /** The table entries an object contributes. */
  ghost function Owned(o: ObjectCode): seq<Entry<ObjectCode>> {
    EntriesOf(o, o.sections)
  }

  /** Every entry with an owner is an indexed section of a member of `s`. */
  ghost predicate NamesOnly(es: seq<Entry<ObjectCode>>, s: set<ObjectCode>) {
    forall i | 0 <= i < |es| && es[i].oc.Some? ::
      es[i].oc.value in s && es[i] in Owned(es[i].oc.value)
  }

  /** Every indexed section of a member of `s` has its entry. */
  ghost predicate NamesAll(es: seq<Entry<ObjectCode>>, s: set<ObjectCode>) {
    forall o, k | o in s && 0 <= k < |Owned(o)| :: Owned(o)[k] in es
  }

  ghost predicate Agrees(es: seq<Entry<ObjectCode>>, s: set<ObjectCode>) {
    LiveApart(es) && NamesOnly(es, s) && NamesAll(es, s)
  }

  /** The sections of a new object are nonempty and overlap neither each other nor those of registered objects. */
  ghost predicate Placeable(es: seq<Entry<ObjectCode>>, o: ObjectCode) {
    var new_ := Owned(o);
    Proper(new_) && forall i, k | 0 <= i < |es| && es[i].oc.Some? && 0 <= k < |new_| :: Apart(es[i], new_[k])
  }

  lemma EntryOwner(o: ObjectCode, e: Entry<ObjectCode>)
    requires e in Owned(o)
    ensures e.oc == Some(o)
  {
    EntriesOfElement(o, o.sections, e);
  }

  lemma AgreesInsert(es: seq<Entry<ObjectCode>>, s: set<ObjectCode>, o: ObjectCode)
    requires Agrees(es, s) && Placeable(es, o)
    ensures Agrees(es + Owned(o), s + {o})
  {
    var added := Owned(o);
    var r := es + added;
    forall i | |es| <= i < |r| ensures r[i] in added && r[i].oc == Some(o) {
      assert r[i] == added[i - |es|];
      EntryOwner(o, r[i]);
    }
  }

  lemma AgreesForget(es: seq<Entry<ObjectCode>>, s: set<ObjectCode>, o: ObjectCode)
    requires Agrees(es, s) && o in s
    ensures Agrees(Forget(es, o.sections), s - {o})
  {
    var r := Forget(es, o.sections);
    forall i | 0 <= i < |es|
      ensures r[i] == if es[i].oc == Some(o) then es[i].(oc := None) else es[i]
    {
      ForgetAt(es, o.sections, i);
      if es[i].oc.Some? { HitExactly(es, s, o, i); }
    }
    forall p, k | p in s - {o} && 0 <= k < |Owned(p)| ensures Owned(p)[k] in r {
      var e := Owned(p)[k];
      EntryOwner(p, e);
      var i :| 0 <= i < |es| && es[i] == e;
      assert r[i] == e;
    }
  }

  /** An entry with an owner is hit by the sections of `o` exactly when `o` is its owner. */
  lemma HitExactly(es: seq<Entry<ObjectCode>>, s: set<ObjectCode>, o: ObjectCode, i: nat)
    requires Agrees(es, s) && o in s && i < |es| && es[i].oc.Some?
    ensures Hit(es[i], o.sections) <==> es[i].oc == Some(o)
  {
    if Hit(es[i], o.sections) {
      var k :| 0 <= k < |o.sections| && !o.sections[k].other && es[i].Covers(o.sections[k].start);
      var e := Entry(o.sections[k].start, o.sections[k].start + o.sections[k].size, Some(o));
      assert Indexed(o.sections, k, e.start, e.end);
      EntriesOfElement(o, o.sections, e);
      var m :| 0 <= m < |Owned(o)| && Owned(o)[m] == e;
      var j :| 0 <= j < |es| && es[j] == e;
      assert !Apart(es[i], es[j]) && !Apart(es[j], es[i]);
    }
    if es[i].oc == Some(o) {
      EntriesOfElement(o, o.sections, es[i]);
      var k :| Indexed(o.sections, k, es[i].start, es[i].end);
      assert es[i].Covers(o.sections[k].start);
    }
  }

  lemma AgreesLive(es: seq<Entry<ObjectCode>>, s: set<ObjectCode>)
    requires Agrees(es, s)
    ensures Agrees(Live(es), s)
  {
    LiveProper(es);
    var l := Live(es);
    forall i | 0 <= i < |l| ensures l[i] in es { LiveElement(es, l[i]); }
    forall o, k | o in s && 0 <= k < |Owned(o)| ensures Owned(o)[k] in l {
      var e := Owned(o)[k];
      EntryOwner(o, e);
      LiveElement(es, e);
    }
  }

  lemma AgreesPermute(es: seq<Entry<ObjectCode>>, r: seq<Entry<ObjectCode>>, s: set<ObjectCode>)
    requires Agrees(es, s) && multiset(es) == multiset(r) && Proper(r)
    ensures Agrees(r, s)
  {
    forall i | 0 <= i < |r| ensures r[i] in es { SameElement(r, es, r[i]); }
    forall o, k | o in s && 0 <= k < |Owned(o)| ensures Owned(o)[k] in r {
      SameElement(r, es, Owned(o)[k]);
    }
  }

  /** What looking an address up in the table finds. */
  lemma Lookup(es: seq<Entry<ObjectCode>>, s: set<ObjectCode>, addr: nat, found: Option<ObjectCode>)
    requires Agrees(es, s)
    requires found.Some? ==> exists e :: e in es && e.Covers(addr) && e.oc == found
    requires found.None? ==> forall e | e in es && e.Covers(addr) :: e.oc.None?
    ensures (set o | o in s && Contains(o, addr)) == if found.Some? then {found.value} else {}
  {
    forall o | o in s && Contains(o, addr) ensures found == Some(o) {
      var k :| 0 <= k < |o.sections| && !o.sections[k].other
               && o.sections[k].start <= addr < o.sections[k].start + o.sections[k].size;
      var e := Entry(o.sections[k].start, o.sections[k].start + o.sections[k].size, Some(o));
      assert Indexed(o.sections, k, e.start, e.end);
      EntriesOfElement(o, o.sections, e);
      var m :| 0 <= m < |Owned(o)| && Owned(o)[m] == e;
      assert e in es && e.Covers(addr);
      var i :| 0 <= i < |es| && es[i] == e;
      var f :| f in es && f.Covers(addr) && f.oc == found;
      var j :| 0 <= j < |es| && es[j] == f;
      assert !Apart(es[i], es[j]) && !Apart(es[j], es[i]);
    }
    if found.Some? {
      var f :| f in es && f.Covers(addr) && f.oc == found;
      var j :| 0 <= j < |es| && es[j] == f;
      EntriesOfElement(found.value, found.value.sections, f);
      var k :| Indexed(found.value.sections, k, f.start, f.end);
      assert Contains(found.value, addr);
    }
  }
}
