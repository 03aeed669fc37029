/** A run of the linker that strands an object (rts/Linker.c). */
module StrandedMember {
  import opened CheckUnload
  import opened Linker
  import opened Linking
  import opened ObjectCodes
  import opened Options
  import opened Stranding

  const KIND := SymType(Code, false)
  const MISSING := "missing"

  /** The archive member `f` defines __cxa_finalize and refers to a symbol that nobody defines; `a` is wanted, comes
      later in `objects`, and refers to __cxa_atexit. */
  ghost predicate Shape<O>(w: World<O>, v: View<O>, f: O, a: O) {
    && f != a
    && v == View(map[CXA_FINALIZE := SymInfo(1, Some(f), Normal, KIND, 0, false)], map[f := Loaded, a := Needed],
        map[f := [], a := []])
    && w.dlsym == iset{CXA_ATEXIT}
    && SymsOf(w, f) == [Symbol(CXA_FINALIZE, 1, Normal, KIND)] && SymsOf(w, a) == []
    && RelocsOf(w, f) == [MISSING] && RelocsOf(w, a) == [CXA_ATEXIT]
  }

  lemma Strand<O>(w: World<O>, good: set<O>, v: View<O>, f: O, a: O)
    requires Shape(w, v, f, a) && a in good
    ensures var (b, ok) := ResolveAll(w, good, v, [f, a]);
            ok && Is(b, f, Needed) && Is(b, a, Ready) && a in b.deps && f in b.deps[a]
  {
    hide Set;
    SpecialNames();
    ShapeSet(w, v, f, a);
    var p := Plot(a, f, f, CXA_FINALIZE, MISSING);
    var x, st := Succeeds(p, w, v, v);
    var y := FinalizerFails(p, w, v, v, v.states);
    FinalizerRecorded(w, v, a);
    Tried(w, v, x, f, a);
    Ends(w, good, v, x, f, a);
  }

  lemma ShapeSet<O>(w: World<O>, v: View<O>, f: O, a: O)
    requires Shape(w, v, f, a)
    ensures Set(Plot(a, f, f, CXA_FINALIZE, MISSING), w, v) && Offered(w, v, a) == v && Sound(w, v)
  {
    SpecialNames();
    assert MISSING[0] != CXA_ATEXIT[0] && MISSING[0] != GOT[0];
    assert Symbol(CXA_FINALIZE, 1, Normal, KIND) in SymsOf(w, f);
  }

  lemma Tried<O>(w: World<O>, v: View<O>, x: View<O>, f: O, a: O)
    requires Shape(w, v, f, a) && Offered(w, v, a) == v && Try(w, v, a) == (x, true)
    requires var b := Finalizer(w, v, CXA_ATEXIT, Some(a)); a in b.deps && f in b.deps[a]
    requires var b := Finalizer(w, v, CXA_ATEXIT, Some(a)); CXA_ATEXIT !in b.table
    ensures a in x.deps && f in x.deps[a]
  {
    hide Finalizer;
    SpecialNames();
    LookupIs(w, v, CXA_ATEXIT, a);
    TryIs(w, v, a);
  }

  lemma Ends<O>(w: World<O>, good: set<O>, v: View<O>, x: View<O>, f: O, a: O)
    requires f != a && Is(v, f, Loaded) && Try(w, v, a) == (x, true) && Is(x, f, Needed) && Is(x, a, Resolved)
             && a in good
    ensures ResolveAll(w, good, v, [f, a]) == (SetState(x, a, Ready), true)
  {
    assert [f, a][1..] == [a] && [a][1..] == [];
    assert TryAll(w, v, [a]) == (x, true);
    assert TryAll(w, v, [f, a]) == (x, true);
    assert Initialise(good, x, [a]) == (SetState(x, a, Ready), true);
  }

  lemma OneSymbol<O>(st: map<O, Status>, o: O, s: Symbol)
    ensures OfferAll(map[], st, o, []) == map[] && OfferAll(map[], st, o, [s]) == map[s.name := Definition(s, o)]
  {
    assert [s][..0] == [];
  }

  method LoadMain() returns (linker: OnDemandLinker, main: ObjectCode)
    ensures fresh(linker) && fresh(linker.pool) && fresh(linker.pool.table) && fresh(linker.pool.table.indices)
            && fresh(main)
    ensures linker.Valid() && !linker.pool.collecting && linker.pool.reg == {main} && linker.pool.objs == [main]
    ensures linker.symhash == map[] && (forall s :: linker.dlsym(s) <==> s == CXA_ATEXIT)
    ensures (forall o :: linker.initialisersSucceed(o)) && main.fileName == "main.o"
    ensures main.status == Needed && main.dependencies == [] && main.relocations == [CXA_ATEXIT] && main.symbols == []
  {
    hide ObjectPool.Valid, OnDemandLinker.SymbolsOwned, OnDemandLinker.DepsDemanded, OfferAll;
    linker := new OnDemandLinker(s => s == CXA_ATEXIT, o => true);
    main := new ObjectCode("main.o", false, [], [CXA_ATEXIT], [], linker.pool.markBit);
    OneSymbol(linker.StatesWith(main), main, Symbol(CXA_FINALIZE, 1, Normal, KIND));
    assert !linker.HasLoaded("main.o");
    var loaded := linker.LoadObj("main.o", main, None);
  }

  method LoadMember(linker: OnDemandLinker, main: ObjectCode) returns (member: ObjectCode)
    requires linker.Valid() && !linker.pool.collecting && linker.pool.reg == {main} && linker.pool.objs == [main]
    requires linker.symhash == map[] && main.fileName == "main.o"
    modifies linker`symhash, linker.pool, linker.pool.reg`next, linker.pool.reg`prev, linker.pool.table,
             linker.pool.table.indices
    ensures linker.Valid() && !linker.pool.collecting && linker.pool.reg == {member, main}
            && linker.pool.objs == [member, main]
    ensures linker.symhash == map[CXA_FINALIZE := SymInfo(1, Some(member), Normal, KIND, 0, false)]
    ensures fresh(member) && member.status == Loaded && member.dependencies == [] && member.relocations == [MISSING]
    ensures member.symbols == [Symbol(CXA_FINALIZE, 1, Normal, KIND)]
  {
    hide ObjectPool.Valid, OnDemandLinker.SymbolsOwned, OnDemandLinker.DepsDemanded, OfferAll;
    member := new ObjectCode("lib.a", true, [], [MISSING], [Symbol(CXA_FINALIZE, 1, Normal, KIND)],
        linker.pool.markBit);
    OneSymbol(linker.StatesWith(member), member, Symbol(CXA_FINALIZE, 1, Normal, KIND));
    assert !linker.HasLoaded("lib.a") by { assert "main.o"[0] != "lib.a"[0]; }
    var loaded := linker.LoadObj("lib.a", member, None);
  }

  lemma IsShape(linker: OnDemandLinker, member: ObjectCode, main: ObjectCode)
    requires linker.pool.reg == {member, main} && member != main
    requires forall s :: linker.dlsym(s) <==> s == CXA_ATEXIT
    requires linker.symhash == map[CXA_FINALIZE := SymInfo(1, Some(member), Normal, KIND, 0, false)]
    requires member.status == Loaded && member.dependencies == [] && member.relocations == [MISSING]
    requires member.symbols == [Symbol(CXA_FINALIZE, 1, Normal, KIND)]
    requires main.status == Needed && main.dependencies == [] && main.relocations == [CXA_ATEXIT] && main.symbols == []
    ensures Shape(linker.Objects(), linker.Now(), member, main)
  {
    assert linker.Objects().dlsym == iset{CXA_ATEXIT};
    assert linker.States() == map[member := Loaded, main := Needed];
    assert linker.Deps() == map[member := [], main := []];
  }

  /** resolveObjs succeeds, the wanted object is ready, and it depends on an object that waits to be resolved. */
  method Run() returns (linker: OnDemandLinker, member: ObjectCode, main: ObjectCode, ok: bool)
    ensures linker.Valid() && ok
    ensures main in linker.pool.reg && main.status == Ready && member in main.dependencies
    ensures member in linker.pool.reg && member.status == Needed
  {
    hide ObjectPool.Valid, OnDemandLinker.SymbolsOwned, OnDemandLinker.DepsDemanded, OnDemandLinker.Now,
         OnDemandLinker.Objects, Shape, ResolveAll, Guard, LinkedOver, Is;
    linker, main := LoadMain();
    member := LoadMember(linker, main);
    IsShape(linker, member, main);
    Strand(linker.Objects(), linker.Good(), linker.Now(), member, main);
    ok := linker.ResolveObjs();
    Seen(linker, member, main);
  }

  /** What a linker with these two objects that is in such a state holds. */
  lemma Seen(linker: OnDemandLinker, member: ObjectCode, main: ObjectCode)
    requires linker.pool.reg == {member, main}
    requires Is(linker.Now(), member, Needed) && Is(linker.Now(), main, Ready)
    requires main in linker.Now().deps && member in linker.Now().deps[main]
    ensures main.status == Ready && member in main.dependencies && member.status == Needed
  {
  }
}
