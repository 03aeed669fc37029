/** Object code and its garbage collection (rts/CheckUnload.c, and the object lists of rts/Linker.c). */
module CheckUnload {
  import opened LinkedLists
  import opened ObjectCodes
  import opened Options
  import opened Reachability
  import opened SectionTable

  ghost function NextOn(s: set<ObjectCode>): Links<ObjectCode>
    reads s`next
  {
    map o | o in s :: Opt(o.next)
  }

  ghost function PrevOn(s: set<ObjectCode>): Links<ObjectCode>
    reads s`prev
  {
    map o | o in s :: Opt(o.prev)
  }

  ghost function NextLoadedOn(s: set<ObjectCode>): Links<ObjectCode>
    reads s`nextLoaded
  {
    map o | o in s :: Opt(o.nextLoaded)
  }

  lemma DoublyWithin(head: Option<ObjectCode>, l: seq<ObjectCode>, s: set<ObjectCode>, t: set<ObjectCode>)
    requires Doubly(head, l, NextOn(s), PrevOn(s)) && Elems(l) <= t && Elems(l) <= s
    ensures Doubly(head, l, NextOn(t), PrevOn(t))
  {
    forall i | 0 <= i < |l| ensures l[i] in t && l[i] in s { InElems(l, l[i]); }
    DoublyAgree(head, l, NextOn(s), PrevOn(s), NextOn(t), PrevOn(t));
  }

  lemma SinglyWithin(head: Option<ObjectCode>, l: seq<ObjectCode>, s: set<ObjectCode>, t: set<ObjectCode>)
    requires Singly(head, l, NextLoadedOn(s)) && Elems(l) <= t && Elems(l) <= s
    ensures Singly(head, l, NextLoadedOn(t))
  {
    forall i | 0 <= i < |l| ensures l[i] in t && l[i] in s { InElems(l, l[i]); }
    SinglyAgree(head, l, NextLoadedOn(s), NextLoadedOn(t));
  }

  /** The globals of rts/CheckUnload.c. */
  class ObjectPool {
    var objects: ObjectCode?
    var oldObjects: ObjectCode?
    var loadedObjects: ObjectCode?
    var nUnloadedObjects: int
    var markBit: bv8
    const table: OCSectionIndices<ObjectCode>

    ghost var objs: seq<ObjectCode>      // the nodes of `objects`
    ghost var olds: seq<ObjectCode>      // the nodes of `oldObjects`
    ghost var loaded: seq<ObjectCode>    // the nodes of `loadedObjects`, the root list
    ghost var reg: set<ObjectCode>       // every object that has not been freed
    ghost var collecting: bool           // between prepareUnloadCheck and checkUnload
    ghost var roots: set<ObjectCode>     // objects marked by address in this collection

    /** initUnloadCheck and the zero-initialised globals */
    constructor ()
      ensures Valid() && !collecting && reg == {} && loaded == []
      ensures fresh(table) && fresh(table.indices)
    {
      objects, oldObjects, loadedObjects := null, null, null;
      nUnloadedObjects, markBit := 0, 0;
      table := new OCSectionIndices();
      objs, olds, loaded, reg, collecting, roots := [], [], [], {}, false, {};
    }

    // ----- Invariants -----

    ghost function Next(): Links<ObjectCode>
      reads this`reg, reg`next
    {
      NextOn(reg)
    }

    ghost function Prev(): Links<ObjectCode>
      reads this`reg, reg`prev
    {
      PrevOn(reg)
    }

    ghost function Edges(): map<ObjectCode, seq<ObjectCode>>
      reads this`reg, reg`dependencies
    {
      map o | o in reg :: o.dependencies
    }

    /** `objects` and `old_objects` are well-formed doubly linked lists that share out `members`. */
    ghost predicate ListsOf(members: set<ObjectCode>)
      reads this`objects, this`oldObjects, this`objs, this`olds, this`reg, reg`next, reg`prev
    {
      && members <= reg
      && Elems(objs) !! Elems(olds) && Elems(objs) + Elems(olds) == members
      && Doubly(Opt(objects), objs, Next(), Prev())
      && Doubly(Opt(oldObjects), olds, Next(), Prev())
    }

    ghost predicate Lists()
      reads this`objects, this`oldObjects, this`objs, this`olds, this`reg, reg`next, reg`prev
    {
      ListsOf(reg)
    }

    /** An object carries the current mark bit exactly when it is on `objects`. */
    ghost predicate Marks()
      reads this`reg, this`objs, this`markBit, reg`mark
    {
      forall o | o in reg :: o.mark == markBit <==> o in Marked()
    }

    ghost predicate DepsRegistered()
      reads this`reg, reg`dependencies
    {
      forall o, d | o in reg && d in o.dependencies :: d in reg
    }

    ghost function Marked(): set<ObjectCode>
      reads this`objs
    {
      Elems(objs)
    }

    ghost function NextLoaded(): Links<ObjectCode>
      reads this`reg, reg`nextLoaded
    {
      NextLoadedOn(reg)
    }

    ghost predicate RootList()
      reads this`loadedObjects, this`loaded, this`reg, reg`nextLoaded
    {
      Elems(loaded) <= reg && Singly(Opt(loadedObjects), loaded, NextLoaded())
    }

    /** Whatever is not in the root list has been through unloadObj. */
    ghost predicate Statuses()
      reads this`reg, this`loaded, reg`status, reg`symbols
    {
      StatusesOn(reg)
    }

    ghost predicate StatusesOn(s: set<ObjectCode>)
      reads this`loaded, s`status, s`symbols
    {
      forall o | o in s && o !in Elems(loaded) :: o.status == Unloaded && o.symbols == []
    }

    /** n_unloaded_objects is the number of objects outside the root list. */
    ghost predicate Counted()
      reads this`nUnloadedObjects, this`reg, this`loaded
    {
      nUnloadedObjects == |reg| - |loaded|
    }

    ghost predicate TableAgrees()
      reads this`reg, table, table.indices
    {
      table.Valid() && Agrees(table.Entries(), reg)
    }

    /** During a collection the marked objects are exactly those reachable from the marked addresses. */
    ghost predicate Phase()
      reads this`collecting, this`roots, this`reg, this`objs, this`olds, table`sorted, reg`dependencies
    {
      if collecting then table.sorted && roots <= reg && MarkedExactly(Edges(), reg, roots, Marked())
      else olds == []
    }

    ghost predicate Valid()
      reads this, reg, table, table.indices
    {
      && Lists() && Marks() && DepsRegistered()
      && RootList() && Statuses() && Counted()
      && TableAgrees() && Phase()
    }

    lemma AllTogether()
      requires Lists() && Marks() && DepsRegistered() && RootList() && Statuses() && Counted()
      requires TableAgrees() && Phase()
      ensures Valid()
    {
    }

    // ----- Marking -----

    /** markObjectLive: marks `oc` and, recursively, what it depends on, moving each newly marked
        object from `old_objects` to `objects`. Dependencies may be cyclic. */
    method MarkObjectLive(oc: ObjectCode)
      requires Lists() && Marks() && DepsRegistered() && oc in reg
      modifies this`objects, this`oldObjects, this`objs, this`olds, reg`next, reg`prev, reg`mark
      ensures Lists() && Marks() && |olds| <= old(|olds|)
      ensures oc in Marked() && MarkedFrom(Edges(), old(Marked()), Marked(), {oc})
      decreases |olds|
    {
      hide ListsOf, MarkedFrom, Marked, Reachable;
      ghost var edges, before := Edges(), Marked();
      MarkedFromStart(edges, before, {oc});
      if oc.mark == markBit {
        return;
      }
      oc.mark := markBit;
      RemoveFromOld(oc);
      AddToObjects(oc);
      ghost var start := Marked();
      MarkedFromStart(edges, start, {oc});
      var i := 0;
      while i < |oc.dependencies|
        invariant 0 <= i <= |oc.dependencies|
        invariant Lists() && Marks() && |olds| < old(|olds|)
        invariant MarkedFrom(edges, start, Marked(), {oc}) && oc in Marked()
        invariant forall j | 0 <= j < i :: oc.dependencies[j] in Marked()
      {
        ghost var soFar := Marked();
        MarkObjectLive(oc.dependencies[i]);
        MarkedFromExtend(edges, start, soFar, Marked(), oc, oc.dependencies[i]);
        i := i + 1;
      }
      MarkedFromFinish(edges, before, Marked(), oc);
    }

    /** markObjectCode: the garbage collector reached a static closure at `addr`. */
    method MarkObjectCode(addr: nat)
      requires Valid() && collecting
      modifies this`objects, this`oldObjects, this`objs, this`olds, this`roots, reg`next, reg`prev, reg`mark
      ensures Valid()
      ensures roots == old(roots) + set o | o in reg && Contains(o, addr)
    {
      hide MarkedExactly, MarkedFrom, RootList, Statuses, Counted, ListsOf, Marks, Contains, Agrees;
      var oc := table.FindOC(addr);
      Lookup(table.Entries(), reg, addr, oc);
      match oc
      case None =>
        assert roots == old(roots) + set o | o in reg && Contains(o, addr);
      case Some(o) =>
        assert o in set o | o in reg && Contains(o, addr);
        MarkRoot(o);
    }

    /** One call of markObjectLive on a root, seen as a step of the whole collection. */
    method MarkRoot(oc: ObjectCode)
      requires Lists() && Marks() && DepsRegistered() && Phase() && collecting && oc in reg
      modifies this`objects, this`oldObjects, this`objs, this`olds, this`roots, reg`next, reg`prev, reg`mark
      ensures Lists() && Marks() && Phase()
      ensures roots == old(roots) + {oc}
    {
      hide MarkedExactly, MarkedFrom, ListsOf, Marks, Marked;
      MarkObjectLive(oc);
      MarkedRegistered();
      MarkedExactlyMore(Edges(), reg, roots, old(Marked()), Marked(), oc);
      roots := roots + {oc};
    }

    lemma MarkedRegistered()
      requires Lists()
      ensures Marked() <= reg
    {
    }

    // ----- Loading and unloading -----

    /** The end of loadObj_: insertOCSectionIndices, then a push on the root list. */
    method Register(oc: ObjectCode)
      requires Valid() && !collecting && oc !in reg
      requires oc.prev == null && oc.mark == markBit && oc.dependencies == []
      requires Placeable(table.Entries(), oc)
      modifies this`objects, this`objs, this`reg, this`loadedObjects, this`loaded
      modifies reg`next, reg`prev, oc`next, oc`prev, oc`nextLoaded, table, table.indices
      ensures Valid() && !collecting
      ensures reg == old(reg) + {oc} && loaded == [oc] + old(loaded) && objs == [oc] + old(objs)
      ensures table.indices == old(table.indices) || fresh(table.indices)
    {
      hide Lists, Marks, DepsRegistered, TableAgrees, Placeable, Singly, NextLoadedOn, StatusesOn, Elems;
      InsertOCSectionIndices(oc);
      PushRoot(oc, old(reg));
      AllTogether();
    }

    /** insertOCSectionIndices: the sections go to the table and the object to the front of `objects`. */
    method InsertOCSectionIndices(oc: ObjectCode)
      requires Lists() && Marks() && DepsRegistered() && olds == [] && oc !in reg
      requires oc.prev == null && oc.mark == markBit && oc.dependencies == []
      requires TableAgrees() && Placeable(table.Entries(), oc)
      modifies this`objects, this`objs, this`reg, reg`next, reg`prev, oc`next, oc`prev, table, table.indices
      ensures Lists() && Marks() && DepsRegistered() && TableAgrees() && reg == old(reg) + {oc}
              && objs == [oc] + old(objs)
      ensures table.indices == old(table.indices) || fresh(table.indices)
    {
      hide Lists, Marks, DepsRegistered, Agrees, Placeable;
      InsertSections(oc);
      EnterLists(oc);
    }

    method InsertSections(oc: ObjectCode)
      requires TableAgrees() && Placeable(table.Entries(), oc)
      modifies table, table.indices
      ensures table.Valid() && Agrees(table.Entries(), reg + {oc})
      ensures table.indices == old(table.indices) || fresh(table.indices)
    {
      table.Insert(oc, oc.sections);
      AgreesInsert(old(table.Entries()), reg, oc);
    }

    method EnterLists(oc: ObjectCode)
      requires Lists() && Marks() && DepsRegistered() && olds == [] && oc !in reg
      requires oc.prev == null && oc.mark == markBit && oc.dependencies == []
      modifies this`objects, this`objs, this`reg, reg`next, reg`prev, oc`next, oc`prev
      ensures Lists() && Marks() && DepsRegistered() && reg == old(reg) + {oc} && objs == [oc] + old(objs)
    {
      hide ListsOf, Marked;
      Admit(oc);
      AddToObjects(oc);
    }

    ghost method Admit(oc: ObjectCode)
      requires Lists() && olds == [] && oc !in reg
      modifies this`reg
      ensures reg == old(reg) + {oc} && ListsOf(reg - {oc})
    {
      hide Doubly, NextOn, PrevOn, Elems;
      DoublyWithin(Opt(objects), objs, reg, reg + {oc});
      DoublyWithin(Opt(oldObjects), olds, reg, reg + {oc});
      reg := reg + {oc};
      assert reg - {oc} == old(reg);
    }

    method PushRoot(oc: ObjectCode, ghost others: set<ObjectCode>)
      requires reg == others + {oc} && oc !in others
      requires StatusesOn(others) && nUnloadedObjects == |others| - |loaded|
      requires Elems(loaded) <= others && Singly(Opt(loadedObjects), loaded, NextLoadedOn(others))
      modifies this`loadedObjects, this`loaded, oc`nextLoaded
      ensures RootList() && Statuses() && Counted() && loaded == [oc] + old(loaded)
    {
      hide Singly, SList, NoDup, Elems;
      InElems(loaded, oc);
      forall k | 0 <= k < |loaded| ensures loaded[k] in others { InElems(loaded, loaded[k]); }
      oc.nextLoaded := loadedObjects;
      SinglyPush(Opt(loadedObjects), loaded, old(NextLoadedOn(others)), oc, NextLoaded());
      ElemsCons(oc, loaded);
      loadedObjects := oc;
      loaded := [oc] + loaded;
    }

    /** unloadObj_ takes the object at position `i` of the root list out of it; `prev` is the object before it. */
    method Unroot(prev: ObjectCode?, oc: ObjectCode, ghost i: nat)
      requires Valid() && i < |loaded| && oc == loaded[i]
      requires Opt(prev) == if i == 0 then None else Some(loaded[i - 1])
      requires oc.status == Unloaded && oc.symbols == []
      modifies this`loadedObjects, this`loaded, this`nUnloadedObjects, reg`nextLoaded
      ensures Valid() && loaded == old(loaded)[..i] + old(loaded)[i + 1..]
      ensures oc.nextLoaded == old(oc.nextLoaded)
    {
      hide Lists, Marks, DepsRegistered, RootList, TableAgrees, Phase, Elems;
      nUnloadedObjects := nUnloadedObjects + 1;
      DropRoot(prev, oc, i);
      AllTogether();
    }

    method DropRoot(prev: ObjectCode?, oc: ObjectCode, ghost i: nat)
      requires RootList() && i < |loaded| && oc == loaded[i]
      requires Opt(prev) == if i == 0 then None else Some(loaded[i - 1])
      modifies this`loadedObjects, this`loaded, reg`nextLoaded
      ensures RootList() && loaded == old(loaded)[..i] + old(loaded)[i + 1..]
      ensures Elems(loaded) == old(Elems(loaded)) - {oc}
      ensures oc.nextLoaded == old(oc.nextLoaded)
    {
      hide Singly, SList, NoDup, Elems;
      InElems(loaded, oc);
      if i > 0 {
        InElems(loaded, loaded[i - 1]);
        SinglyDistinct(Opt(loadedObjects), loaded, NextLoaded(), i - 1, i);
      }
      SinglyAt(Opt(loadedObjects), loaded, NextLoaded(), i);
      if prev == null {
        loadedObjects := oc.nextLoaded;
      } else {
        prev.nextLoaded := oc.nextLoaded;
      }
      SinglyDelete(old(Opt(loadedObjects)), loaded, old(NextLoaded()), i, NextLoaded());
      loaded := loaded[..i] + loaded[i + 1..];
    }

    /** insertHashSet(dependent->dependencies, owner) */
    method AddDependency(dependent: ObjectCode, owner: ObjectCode)
      requires Valid() && !collecting && dependent in reg && owner in reg
      modifies dependent`dependencies
      ensures Valid() && dependent.dependencies == old(dependent.dependencies) + [owner]
    {
      hide Lists, Marks, RootList, Statuses, Counted, TableAgrees;
      dependent.dependencies := dependent.dependencies + [owner];
    }

    /** A change of link state that keeps the object out of OBJECT_UNLOADED, or puts it there for good. */
    method SetStatus(oc: ObjectCode, status: Status)
      requires Valid() && oc in reg && (oc.status == Unloaded ==> status == Unloaded)
      modifies oc`status
      ensures Valid() && oc.status == status
    {
      hide Lists, Marks, RootList, DepsRegistered, Counted, TableAgrees, Phase;
      oc.status := status;
      AllTogether();
    }

    /** freeing oc->symbols */
    method ClearSymbols(oc: ObjectCode)
      requires Valid() && oc in reg
      modifies oc`symbols
      ensures Valid() && oc.symbols == []
    {
      hide Lists, Marks, RootList, DepsRegistered, Counted, TableAgrees, Phase;
      oc.symbols := [];
      AllTogether();
    }

    /** Following `nextLoaded` from `loadedObjects` visits the root list. */
    lemma RootAt(i: nat)
      requires Valid() && i <= |loaded|
      ensures Opt(loadedObjects) == Head(loaded) && Elems(loaded) <= reg
      ensures i < |loaded| ==> loaded[i] in reg && Opt(loaded[i].nextLoaded) == Head(loaded[i + 1..])
    {
      hide Singly, SList, NoDup;
      SinglyHead(Opt(loadedObjects), loaded, NextLoaded());
      if i < |loaded| {
        InElems(loaded, loaded[i]);
        SinglyAt(Opt(loadedObjects), loaded, NextLoaded(), i);
      }
    }

    lemma ElemsDrop(i: nat)
      requires Valid() && i < |loaded|
      ensures Elems(loaded[..i] + loaded[i + 1..]) == Elems(loaded) - {loaded[i]}
    {
      InElems(loaded, loaded[i]);
      var m := NextLoaded();
      SinglyAt(Opt(loadedObjects), loaded, m, i);
      var r := loaded[..i] + loaded[i + 1..];
      forall k | 0 <= k < |r| ensures r[k] != loaded[i] {
        if k < i { NoDupAt(loaded, k, i); } else { NoDupAt(loaded, i, k + 1); }
      }
      forall k | 0 <= k < |loaded| && k != i ensures loaded[k] in r {
        assert loaded[k] == r[if k < i then k else k - 1];
      }
    }

    lemma Rooted(oc: ObjectCode)
      requires Valid() && oc in reg && oc.status != Unloaded
      ensures oc in Elems(loaded)
    {
      hide Lists, Marks, RootList, DepsRegistered, Counted, TableAgrees, Phase;
    }

    lemma DepsStay()
      requires Valid()
      ensures DepsRegistered()
    {
    }

    /** Following `next` from `objects` visits every object of a pool at rest. */
    lemma ObjectsStart()
      requires Valid() && !collecting
      ensures Opt(objects) == Head(objs[0..]) && Elems(objs) == reg && Elems(objs[..0]) == {}
    {
      DoublyFacts(Opt(objects), objs, Next(), Prev());
      assert Elems(olds) == {};
    }

    lemma ObjectsDistinct()
      requires Valid() && !collecting
      ensures (forall i | 0 <= i < |objs| :: objs[i] in reg) && forall i, j | 0 <= i < j < |objs| :: objs[i] != objs[j]
    {
      ObjectsStart();
      NoDupDistinct(objs);
      forall i | 0 <= i < |objs| ensures objs[i] in reg { InElems(objs, objs[i]); }
    }

    lemma ObjectsAt(i: nat)
      requires Valid() && !collecting && i < |objs|
      ensures objs[i] in reg && Opt(objs[i].next) == Head(objs[i + 1..])
      ensures Elems(objs[..i + 1]) == Elems(objs[..i]) + {objs[i]}
    {
      hide Doubly, DList, NoDup, Elems;
      InElems(objs, objs[i]);
      DoublyAt(Opt(objects), objs, Next(), Prev(), i);
      NextPrev(objs[i]);
      ElemsPrefix(objs, i + 1);
    }

    // ----- Collections -----

    /** prepareUnloadCheck: compact and sort the table, flip the mark bit, and set every object aside. */
    method PrepareUnloadCheck()
      requires Valid() && !collecting
      modifies this`markBit, this`oldObjects, this`objects, this`objs, this`olds, this`collecting, this`roots
      modifies table`nSections, table`unloaded, table`sorted, table.indices
      ensures Valid() && collecting && roots == {}
    {
      hide MarkedExactly, Lists, Marks, RootList, Statuses, Counted, DepsRegistered, TableAgrees;
      RefreshTable();
      SetAside();
      NothingMarked(Edges(), reg);
    }

    method SetAside()
      requires Lists() && Marks() && olds == []
      modifies this`markBit, this`oldObjects, this`objects, this`objs, this`olds, this`collecting, this`roots
      ensures Lists() && Marks() && Marked() == {} && collecting && roots == {}
    {
      hide Doubly, DList, NoDup, Next, Prev, NextOn, PrevOn;
      EmptyDoubly(Next(), Prev());
      markBit := !markBit;
      oldObjects, objects := objects, null;
      olds, objs, collecting, roots := objs, [], true, {};
      assert Doubly(Opt(oldObjects), olds, Next(), Prev());
      assert Doubly(Opt(objects), objs, Next(), Prev());
      assert Elems(objs) == {};
    }

    method RefreshTable()
      requires TableAgrees()
      modifies table`nSections, table`unloaded, table`sorted, table.indices
      ensures TableAgrees() && table.sorted
    {
      AgreesLive(table.Entries(), reg);
      table.RemoveRemoved();
      table.Sort();
      AgreesPermute(Live(old(table.Entries())), table.Entries(), reg);
    }

    /** checkUnload: mark from the root list, then free whatever is still set aside. What survives is exactly
        what is reachable, along dependencies, from the root list or from an address marked in this collection. */
    method CheckUnload()
      requires Valid() && collecting
      modifies this, reg`next, reg`prev, reg`mark, table`unloaded, table.indices
      ensures Valid() && !collecting && loaded == old(loaded)
      ensures reg == ReachableIn(old(Edges()), old(roots) + Elems(loaded), old(reg)) && reg <= old(reg)
      ensures old(Edges()) == map o | o in old(reg) :: old(o.dependencies)
      ensures forall o | o in old(reg) - reg :: o.status == Unloaded && o.symbols == []
      ensures nUnloadedObjects == old(nUnloadedObjects) - |old(reg) - reg|
    {
      hide ReachableIn, Lists, Marks, DepsRegistered, RootList, Statuses, Counted, TableAgrees, Elems;
      MarkRootList();
      MarkedMeans();
      FreeUnmarked();
    }

    lemma MarkedMeans()
      requires Lists() && Phase() && collecting
      ensures Marked() == ReachableIn(Edges(), roots, reg) && Marked() <= reg
    {
      hide Reachable;
      MarkedRegistered();
    }

    method MarkRootList()
      requires Valid() && collecting
      modifies this`objects, this`oldObjects, this`objs, this`olds, this`roots, reg`next, reg`prev, reg`mark
      ensures Valid() && roots == old(roots) + Elems(loaded)
    {
      hide MarkedExactly, ListsOf, Marks, Singly, SList, Statuses, Counted, TableAgrees, Elems;
      var oc := loadedObjects;
      SinglyHead(Opt(loadedObjects), loaded, NextLoaded());
      ghost var i := 0;
      ElemsPrefix(loaded, 0);
      while oc != null
        invariant 0 <= i <= |loaded| && Opt(oc) == Head(loaded[i..])
        invariant Valid() && collecting
        invariant roots == old(roots) + Elems(loaded[..i])
        decreases |loaded| - i
      {
        SinglyAt(Opt(loadedObjects), loaded, NextLoaded(), i);
        ElemsPrefix(loaded, i + 1);
        assert oc == loaded[i];
        InElems(loaded, oc);
        MarkRoot(oc);
        oc := oc.nextLoaded;
        i := i + 1;
      }
      assert loaded[..i] == loaded;
    }

    /** The second loop of checkUnload, which frees what is left on `old_objects`. */
    method FreeUnmarked()
      requires Valid() && collecting && Elems(loaded) <= roots
      modifies this`oldObjects, this`olds, this`reg, this`nUnloadedObjects, this`collecting
      modifies table`unloaded, table.indices
      ensures Valid() && !collecting && reg == old(Marked())
      ensures nUnloadedObjects == old(nUnloadedObjects) - |old(reg) - reg|
      ensures forall o | o in old(reg) - reg :: o.status == Unloaded && o.symbols == []
    {
      hide MarkedExactly, Lists, Marks, RootList, DepsRegistered, Statuses, Agrees, Elems, Marked, AtRest;
      OldsUnrooted();
      Survivors();
      assert nUnloadedObjects == |reg| - |loaded|;
      FreeOlds();
      Retire();
    }

    method FreeOlds()
      requires Lists() && table.Valid() && table.sorted && Agrees(table.Entries(), reg)
      requires forall o | o in Elems(olds) :: o.status == Unloaded && o.symbols == []
      modifies this`oldObjects, this`nUnloadedObjects, table`unloaded, table.indices
      ensures table.Valid() && Agrees(table.Entries(), reg - Elems(olds))
      ensures nUnloadedObjects == old(nUnloadedObjects) - |olds| && oldObjects == null
    {
      hide ListsOf, Agrees, Elems;
      OldFirst();
      var oc := oldObjects;
      ghost var i := 0;
      while oc != null
        invariant 0 <= i <= |olds| && Opt(oc) == Head(olds[i..])
        invariant table.Valid() && table.sorted && Agrees(table.Entries(), reg - Elems(olds[..i]))
        invariant nUnloadedObjects == old(nUnloadedObjects) - i && oldObjects == old(oldObjects) && Lists()
        decreases |olds| - i
      {
        OldAt(i);
        var next := oc.next;
        assert oc.status == Unloaded && oc.symbols == [];
        FreeOne(oc, reg - Elems(olds[..i]));
        assert reg - Elems(olds[..i]) - {oc} == reg - Elems(olds[..i + 1]);
        oc := next;
        i := i + 1;
      }
      oldObjects := null;
      assert olds[..i] == olds;
    }

    method FreeOne(oc: ObjectCode, ghost live: set<ObjectCode>)
      requires table.Valid() && table.sorted && Agrees(table.Entries(), live) && oc in live
      modifies this`nUnloadedObjects, table`unloaded, table.indices
      ensures table.Valid() && table.sorted && Agrees(table.Entries(), live - {oc})
      ensures nUnloadedObjects == old(nUnloadedObjects) - 1
    {
      hide Agrees;
      AgreesForget(table.Entries(), live, oc);
      table.Remove(oc.sections);
      nUnloadedObjects := nUnloadedObjects - 1;
    }

    lemma OldFirst()
      requires Lists()
      ensures Opt(oldObjects) == Head(olds[0..]) && reg - Elems(olds[..0]) == reg
    {
      DoublyFacts(Opt(oldObjects), olds, Next(), Prev());
      ElemsPrefix(olds, 0);
    }

    lemma OldAt(i: nat)
      requires Lists() && i < |olds|
      ensures olds[i] in reg && olds[i] in Elems(olds) && olds[i] !in Elems(olds[..i])
      ensures Opt(olds[i].next) == Head(olds[i + 1..])
      ensures Elems(olds[..i + 1]) == Elems(olds[..i]) + {olds[i]}
    {
      hide Doubly, DList, NoDup, Elems;
      InElems(olds, olds[i]);
      DoublyAt(Opt(oldObjects), olds, Next(), Prev(), i);
      NextPrev(olds[i]);
      ElemsPrefix(olds, i + 1);
      NotYet(olds, i, Opt(oldObjects), Next(), Prev());
    }

    /** No root is on `old_objects` once the roots have been marked. */
    lemma OldsUnrooted()
      requires Lists() && Phase() && collecting && Elems(loaded) <= roots && Statuses()
      ensures Elems(loaded) <= Marked() && Marked() == reg - Elems(olds)
      ensures forall o | o in Elems(olds) :: o.status == Unloaded && o.symbols == []
    {
      hide Reachable;
      forall o | o in Elems(loaded) ensures o in Marked() {
        RootReachable(Edges(), roots, o);
      }
    }

    /** What `Valid` asks of the pool once `s` are the only objects left, `old_objects` and the table aside. */
    ghost predicate AtRest(s: set<ObjectCode>)
      reads this`objects, this`loadedObjects, this`objs, this`loaded, this`markBit
      reads s`next, s`prev, s`nextLoaded, s`mark, s`dependencies, s`status, s`symbols
    {
      && Marked() == s
      && Doubly(Opt(objects), objs, NextOn(s), PrevOn(s))
      && Elems(loaded) <= s && Singly(Opt(loadedObjects), loaded, NextLoadedOn(s))
      && (forall o | o in s :: o.mark == markBit)
      && (forall o, d | o in s && d in o.dependencies :: d in s)
      && StatusesOn(s)
    }

    lemma Survivors()
      requires Lists() && Marks() && DepsRegistered() && RootList() && Statuses()
      requires Phase() && collecting && Elems(loaded) <= Marked()
      ensures AtRest(Marked()) && Marked() == reg - Elems(olds)
      ensures |reg| == |Marked()| + |olds| && Elems(olds) == reg - Marked() && |reg - Marked()| == |olds|
    {
      hide Doubly, Singly, DList, NoDup, SList, Reachable, NextOn, PrevOn, NextLoadedOn;
      OldsCard();
      DoublyWithin(Opt(objects), objs, reg, Marked());
      SinglyWithin(Opt(loadedObjects), loaded, reg, Marked());
      forall o, d | o in Marked() && d in o.dependencies ensures d in Marked() {
        StepReachable(Edges(), roots, o, d);
      }
    }

    /** The freed objects leave the pool. */
    ghost method Retire()
      requires AtRest(Marked()) && Marked() <= reg && oldObjects == null
      requires nUnloadedObjects == |Marked()| - |loaded|
      requires table.Valid() && Agrees(table.Entries(), Marked())
      modifies this`olds, this`reg, this`collecting
      ensures Valid() && !collecting && reg == old(Marked())
    {
      hide AtRest, Agrees, StatusesOn, Doubly, Singly;
      reg := Marked();
      olds := [];
      collecting := false;
      Retired();
    }

    lemma Retired()
      requires AtRest(reg) && olds == [] && oldObjects == null && !collecting
      requires Counted() && TableAgrees()
      ensures Valid()
    {
      hide Doubly, Singly, DList, NoDup, SList, Agrees, NextOn, PrevOn, NextLoadedOn, StatusesOn;
      EmptyDoubly(Next(), Prev());
      assert Elems(olds) == {};
      AllTogether();
    }

    lemma OldsCard()
      requires Lists()
      ensures |Elems(olds)| == |olds| && |reg| == |reg - Elems(olds)| + |olds|
      ensures reg - (reg - Elems(olds)) == Elems(olds)
    {
      NoDupCard(olds);
      assert reg == (reg - Elems(olds)) + Elems(olds);
    }

    /** The first half of the list surgery of markObjectLive: take `oc` out of `old_objects`. */
    method RemoveFromOld(oc: ObjectCode)
      requires Lists() && oc in reg && oc !in Marked()
      modifies this`oldObjects, this`olds, reg`next, reg`prev
      ensures ListsOf(reg - {oc}) && |olds| == old(|olds|) - 1
    {
      hide Doubly, DList, NoDup, Elems, Misses, Next, Prev, Redirected;
      ghost var was, p, n := olds, Opt(oc.prev), Opt(oc.next);
      InElems(was, oc);
      DoublyNode(Opt(oldObjects), was, Next(), Prev(), oc);
      NextPrev(oc);
      OptInElems(was, oc.prev);
      OptInElems(was, oc.next);
      JoinNeighbours(oc);
      olds := Without(was, oc);
      DoublyUnlink(old(Opt(oldObjects)), was, old(Next()), old(Prev()), oc, Next(), Prev());
      InElems(objs, oc);
      MissesOther(objs, was, p);
      MissesOther(objs, was, n);
      DoublyFrame(Opt(objects), objs, old(Next()), old(Prev()), Next(), Prev(), oc, p, n, n, p);
    }

    lemma NextPrev(oc: ObjectCode)
      requires oc in reg
      ensures oc in Next() && Next()[oc] == Opt(oc.next)
      ensures oc in Prev() && Prev()[oc] == Opt(oc.prev)
    {
    }

    method JoinNeighbours(oc: ObjectCode)
      requires oc in reg && (oc.prev != null ==> oc.prev in reg) && (oc.next != null ==> oc.next in reg)
      modifies this`oldObjects, reg`next, reg`prev
      ensures oldObjects == if old(oc.prev) == null then old(oc.next) else old(oldObjects)
      ensures Redirected(old(Next()), Next(), oc, old(Opt(oc.prev)), old(Opt(oc.next)))
      ensures Redirected(old(Prev()), Prev(), oc, old(Opt(oc.next)), old(Opt(oc.prev)))
    {
      if oc.prev != null {
        oc.prev.next := oc.next;
      } else {
        oldObjects := oc.next;
      }
      if oc.next != null {
        oc.next.prev := oc.prev;
      }
    }

    /** The second half: put `oc` at the front of `objects`. */
    method AddToObjects(oc: ObjectCode)
      requires oc in reg && ListsOf(reg - {oc})
      modifies this`objects, this`objs, reg`next, reg`prev
      ensures Lists() && objs == [oc] + old(objs)
      ensures Marked() == old(Marked()) + {oc}
    {
      hide Doubly, DList, NoDup, Elems, Misses, Next, Prev, Redirected;
      ghost var first := Opt(objects);
      DoublyFacts(first, objs, Next(), Prev());
      InElems(objs, oc);
      InElems(olds, oc);
      OptInElems(objs, objects);
      LinkInFront(oc);
      NextPrev(oc);
      DoublyPush(first, objs, old(Next()), old(Prev()), oc, Next(), Prev());
      MissesNone(olds);
      MissesOther(olds, objs, first);
      DoublyFrame(Opt(oldObjects), olds, old(Next()), old(Prev()), Next(), Prev(), oc, None, None, first, Some(oc));
      objs := [oc] + objs;
    }

    method LinkInFront(oc: ObjectCode)
      requires oc in reg && (objects != null ==> objects in reg && objects != oc)
      modifies this`objects, reg`next, reg`prev
      ensures objects == oc && oc.next == old(objects) && oc.prev == null
      ensures Redirected(old(Next()), Next(), oc, None, None)
      ensures Redirected(old(Prev()), Prev(), oc, old(Opt(objects)), Some(oc))
    {
      oc.prev := null;
      oc.next := objects;
      if objects != null {
        objects.prev := oc;
      }
      objects := oc;
    }
  }

  ghost predicate MarkedExactly(edges: map<ObjectCode, seq<ObjectCode>>, members: set<ObjectCode>,
                                roots: set<ObjectCode>, marked: set<ObjectCode>) {
    forall o | o in members :: o in marked <==> Reachable(edges, roots, o)
  }

  lemma NothingMarked(edges: map<ObjectCode, seq<ObjectCode>>, members: set<ObjectCode>)
    ensures MarkedExactly(edges, members, {}, {})
  {
    forall o | o in members && Reachable(edges, {}, o) ensures false {
      ClosedHolds(edges, {}, {}, o);
    }
  }

  /** Marking from one more object makes it one more root. */
  lemma MarkedExactlyMore(edges: map<ObjectCode, seq<ObjectCode>>, members: set<ObjectCode>, roots: set<ObjectCode>,
                          before: set<ObjectCode>, after: set<ObjectCode>, oc: ObjectCode)
    requires MarkedExactly(edges, members, roots, before) && MarkedFrom(edges, before, after, {oc})
    requires oc in after && after <= members == edges.Keys && roots <= members
    requires forall o, d | o in members && d in edges[o] :: d in members
    ensures MarkedExactly(edges, members, roots + {oc}, after)
  {
    hide Reachable;
    var more := roots + {oc};
    forall o | o in roots ensures o in before && Reachable(edges, more, o) {
      RootReachable(edges, roots, o);
      RootReachable(edges, more, o);
    }
    RootReachable(edges, more, oc);
    forall o | o in after ensures Reachable(edges, more, o) {
      if o in before {
        ReachableFrom(edges, more, roots, o);
      } else {
        ReachableFrom(edges, more, {oc}, o);
      }
    }
    forall o, d | o in before && d in edges[o] ensures d in before {
      StepReachable(edges, roots, o, d);
    }
    assert Closed(edges, after);
    forall o | o in members && Reachable(edges, more, o) ensures o in after {
      ClosedHolds(edges, more, after, o);
    }
  }

  lemma ElemsPrefix(s: seq<ObjectCode>, i: nat)
    requires i <= |s|
    ensures Elems(s[..0]) == {}
    ensures i > 0 ==> Elems(s[..i]) == Elems(s[..i - 1]) + {s[i - 1]}
  {
    if i > 0 { assert s[..i] == s[..i - 1] + [s[i - 1]]; }
  }

  lemma NotYet(s: seq<ObjectCode>, i: nat, head: Option<ObjectCode>, next: Links<ObjectCode>, prev: Links<ObjectCode>)
    requires Doubly(head, s, next, prev) && i < |s|
    ensures s[i] !in Elems(s[..i])
  {
    forall k | 0 <= k < i ensures s[k] != s[i] { NoDupAt(s, k, i); }
  }

  lemma EmptyDoubly(next: Links<ObjectCode>, prev: Links<ObjectCode>)
    ensures Doubly(None, [], next, prev)
  {
  }

  /** Everything marked on top of `before` is reachable from `from`, and its dependencies are marked too. */
  ghost predicate MarkedFrom(edges: map<ObjectCode, seq<ObjectCode>>, before: set<ObjectCode>,
                             after: set<ObjectCode>, from: set<ObjectCode>) {
    && before <= after
    && (forall o, d | o in after - before && o in edges && d in edges[o] :: d in after)
    && (forall o | o in after - before :: Reachable(edges, from, o))
  }

  lemma MarkedFromStart(edges: map<ObjectCode, seq<ObjectCode>>, before: set<ObjectCode>, from: set<ObjectCode>)
    ensures MarkedFrom(edges, before, before, from)
  {
  }

  lemma MarkedFromExtend(edges: map<ObjectCode, seq<ObjectCode>>, before: set<ObjectCode>, soFar: set<ObjectCode>,
                         after: set<ObjectCode>, oc: ObjectCode, dep: ObjectCode)
    requires MarkedFrom(edges, before, soFar, {oc}) && MarkedFrom(edges, soFar, after, {dep})
    requires oc in edges && dep in edges[oc]
    ensures MarkedFrom(edges, before, after, {oc}) && soFar <= after
  {
    hide Reachable;
    RootReachable(edges, {oc}, oc);
    StepReachable(edges, {oc}, oc, dep);
    forall o | o in after - before ensures Reachable(edges, {oc}, o) {
      if o !in soFar {
        ReachableFrom(edges, {oc}, {dep}, o);
      }
    }
  }

  lemma MarkedFromFinish(edges: map<ObjectCode, seq<ObjectCode>>, before: set<ObjectCode>,
                         after: set<ObjectCode>, oc: ObjectCode)
    requires MarkedFrom(edges, before + {oc}, after, {oc})
    requires oc in edges && forall j | 0 <= j < |edges[oc]| :: edges[oc][j] in after
    ensures MarkedFrom(edges, before, after, {oc})
  {
    hide Reachable;
    RootReachable(edges, {oc}, oc);
  }
}
