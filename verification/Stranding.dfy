/** When exactly a successful resolveObjs_ may leave an object half linked (rts/Linker.c). */
module Stranding {
  import opened Linking
  import opened ObjectCodes
  import opened Options

  /** If resolveObjs_ succeeds, nothing is left half linked, and every recorded dependency is ready or unloaded. */
  ghost predicate Safe<O>(w: World<O>, good: set<O>, v: View<O>, os: seq<O>) {
    ResolveAll(w, good, v, os).1 ==> Complete(ResolveAll(w, good, v, os).0)
  }

  /** So it is whatever the symbols, relocations and initialisers of the objects are, and whatever the dynamic linker
      knows. */
  ghost predicate AlwaysSafe<O(!new)>(v: View<O>, os: seq<O>) {
    forall w: World<O>, good: set<O> | Sound(w, v) :: Safe(w, good, v, os)
  }

  /** What the linker itself guarantees of its tables: `objects` lists every object once, and the owners in the symbol
      table are among them. */
  ghost predicate Listed<O>(v: View<O>, os: seq<O>) {
    && (forall o | o in v.states :: o in os) && (forall i | 0 <= i < |os| :: os[i] in v.states)
    && (forall i, j | 0 <= i < j < |os| :: os[i] != os[j])
    && DepsDemandedBut(v, None) && OwnersKnown(v)
  }

  ghost predicate OwnersKnown<O>(v: View<O>) {
    forall k | k in v.table && v.table[k].owner.Some? ::
      v.table[k].owner.value in v.states && v.states[v.table[k].owner.value] != Unloaded
  }

  /** The exact condition. */
  lemma SafeExactly<O(!new)>(v: View<O>, os: seq<O>)
    requires Listed(v, os)
    ensures AlwaysSafe(v, os) <==> Guard(v, os)
  {
    if Guard(v, os) {
      forall w: World<O>, good: set<O> | Sound(w, v) ensures Safe(w, good, v, os) {
        ResolveAllRuns(w, good, v, os);
      }
    } else {
      var w := Strands(v, os);
      assert !Safe(w, v.states.Keys, v, os);
    }
  }

  // ----- Objects that only define what the table already has from them -----

  ghost predicate IsOwn<O>(t: map<string, SymInfo<O>>, o: O, q: seq<Symbol>) {
    && (forall s | s in q :: s.name in t && t[s.name].owner == Some(o)
                             && s == Symbol(s.name, t[s.name].value, t[s.name].strength, t[s.name].typ))
    && (forall k | k in t && t[k].owner == Some(o) :: k in Names(q))
  }

  ghost function OwnSymbols<O>(t: map<string, SymInfo<O>>, o: O): (q: seq<Symbol>)
    ensures IsOwn(t, o, q)
  {
    var p := OwnSymbolsOf(t, o, t.Keys);
    assert IsOwn(t, o, p);
    p
  }

  ghost function OwnSymbolsOf<O>(t: map<string, SymInfo<O>>, o: O, keys: set<string>): (q: seq<Symbol>)
    requires keys <= t.Keys
    ensures forall s | s in q :: s.name in keys && t[s.name].owner == Some(o)
                                 && s == Symbol(s.name, t[s.name].value, t[s.name].strength, t[s.name].typ)
    ensures forall k | k in keys && t[k].owner == Some(o) :: k in Names(q)
    decreases keys
  {
    if keys == {} then []
    else
      var k :| k in keys;
      var rest := OwnSymbolsOf(t, o, keys - {k});
      if t[k].owner == Some(o) then
        var s := Symbol(k, t[k].value, t[k].strength, t[k].typ);
        assert s in rest + [s];
        assert forall x | x in rest :: x in rest + [s];
        rest + [s]
      else rest
  }

  /** The symbol is the object's own definition, which may count as a normal one by now, or cannot be replaced. */
  ghost predicate Repeats<O>(t: map<string, SymInfo<O>>, st: map<O, Status>, o: O, s: Symbol) {
    && s.name in t
    && (Held(t, st, s.name)
        || (t[s.name].owner == Some(o) && t[s.name].typ == s.typ && t[s.name].value == s.addr
            && (t[s.name].strength == s.strength || s.strength == Weak)))
  }

  lemma RedefineRepeats<O>(t: map<string, SymInfo<O>>, st: map<O, Status>, o: O, s: Symbol)
    requires Repeats(t, st, o, s) && o in st && LinkedIn(st[o])
    ensures Redefine(t[s.name], StatusIn(st, t[s.name].owner), Definition(s, o), StatusIn(st, Some(o))) == t[s.name]
  {
  }

  lemma {:induction false} OfferRepeats<O>(t: map<string, SymInfo<O>>, st: map<O, Status>, o: O, q: seq<Symbol>)
    requires (forall s | s in q :: Repeats(t, st, o, s)) && o in st && LinkedIn(st[o])
    ensures OfferAll(t, st, o, q) == t
    decreases |q|
  {
    if q != [] {
      var s := q[|q| - 1];
      OfferRepeats(t, st, o, q[..|q| - 1]);
      RedefineRepeats(t, st, o, s);
      assert Offer(t, st, o, s) == t;
    }
  }

  lemma {:induction false} FreshName(keys: set<string>) returns (n: string)
    ensures n !in keys && IsOrdinary(n, true) && n != CXA_ATEXIT && n != CXA_FINALIZE && n != DYNAMIC
  {
    var m := LongestOf(keys);
    n := seq(m + 30, i => 'x');
    assert GOT[0] != n[0];
  }

  lemma {:induction false} LongestOf(keys: set<string>) returns (m: nat)
    ensures forall k | k in keys :: |k| <= m
    decreases keys
  {
    if keys == {} { return 0; }
    var k :| k in keys;
    m := LongestOf(keys - {k});
    assert forall x | x in keys :: x in keys - {k} || x == k;
    m := if |k| > m then |k| else m;
  }

  /** The view is `v` up to promotions and dependencies, with the states `st`. */
  ghost predicate Like<O>(v: View<O>, u: View<O>, st: map<O, Status>) {
    && u.states == st && u.table.Keys == v.table.Keys
    && forall k | k in v.table ::
         && u.table[k].(strength := v.table[k].strength) == v.table[k]
         && (u.table[k].strength == v.table[k].strength || (v.table[k].strength == Weak
             && u.table[k].strength == Normal))
  }

  // ----- The plot -----

  /** The object `a` looks __cxa_atexit up, so __cxa_finalize is looked up, whose owner `f` cannot be resolved: because
      of a missing name, or because it refers to `g`, which cannot be resolved. No other object refers to anything, and
      all have offered whatever they have to offer. */
  datatype Plot<O> = Plot(a: O, f: O, g: O, name: string, missing: string)

  ghost predicate Set<O>(p: Plot<O>, w: World<O>, b: View<O>) {
    && w.dlsym == iset{CXA_ATEXIT} && OwnersKnown(b)
    && CXA_FINALIZE in b.table && b.table[CXA_FINALIZE].owner == Some(p.f) && p.a != p.f && p.a != p.g
    && (p.g != p.f ==> p.name in b.table && b.table[p.name].owner == Some(p.g) && IsOrdinary(p.name, true)
                       && b.table[p.name].value != 0)
    && (CXA_ATEXIT in b.table ==> b.table[CXA_ATEXIT].value != 0)
    && p.missing !in b.table && IsOrdinary(p.missing, true)
    && p.missing != CXA_ATEXIT && p.missing != CXA_FINALIZE && p.missing != DYNAMIC
    && RelocsOf(w, p.a) == [CXA_ATEXIT] && RelocsOf(w, p.g) == [p.missing]
        && (p.g != p.f ==> RelocsOf(w, p.f) == [p.name])
    && (forall o | o in b.states && o !in {p.a, p.f, p.g} :: RelocsOf(w, o) == [])
    && (forall o, s | o in b.states && o != p.a && s in SymsOf(w, o) :: OwnOrTaken(b, o, p.a, s))
  }

  ghost predicate OwnOrTaken<O>(b: View<O>, o: O, a: O, s: Symbol) {
    && s.name in b.table
    && ((b.table[s.name].owner == Some(a) && b.table[s.name].strength != Weak)
        || (b.table[s.name].owner == Some(o) && b.table[s.name].typ == s.typ && b.table[s.name].value == s.addr
            && b.table[s.name].strength == s.strength))
  }

  lemma OfferLike<O>(p: Plot<O>, w: World<O>, b: View<O>, u: View<O>, st: map<O, Status>, o: O)
    requires Set(p, w, b) && Like(b, u, st) && st.Keys == b.states.Keys && o != p.a && o in st && LinkedIn(st[o])
    requires p.a in st && LinkedIn(st[p.a])
    ensures Offered(w, u, o) == u
  {
    hide RelocsOf;
    forall s | s in SymsOf(w, o) ensures Repeats(u.table, st, o, s) {
      assert OwnOrTaken(b, o, p.a, s);
    }
    OfferRepeats(u.table, st, o, SymsOf(w, o));
  }

  lemma EnteredLike<O>(b: View<O>, u: View<O>, st: map<O, Status>, lbl: string, d: O)
    requires Like(b, u, st) && lbl in b.table
    ensures Like(b, Entered(u, lbl, d), st) && Entered(u, lbl, d).table[lbl].owner == b.table[lbl].owner
  {
  }

  /** A name whose owner does not have to be loaded. */
  lemma LoadKnown<O>(w: World<O>, b: View<O>, u: View<O>, st: map<O, Status>, lbl: string, d: O)
    requires Like(b, u, st) && lbl in b.table && OwnersKnown(b) && st.Keys == b.states.Keys
    requires b.table[lbl].owner.Some? && b.table[lbl].owner.value in st ==> st[b.table[lbl].owner.value] != Loaded
    ensures Load(w, Entered(u, lbl, d), lbl) == (Entered(u, lbl, d), b.table[lbl].value)
  {
    EnteredLike(b, u, st, lbl, d);
  }

  /** A name whose owner `o` has to be loaded. */
  lemma LoadDemands<O>(w: World<O>, b: View<O>, u: View<O>, st: map<O, Status>, lbl: string, d: O,
      o: O) returns (x: View<O>)
    requires Like(b, u, st) && lbl in b.table && b.table[lbl].owner == Some(o) && o in st && st[o] == Loaded
    ensures Like(b, x, st[o := Needed]) && lbl in x.table
    ensures var (y, ok) := Try(w, x, o); Load(w, Entered(u, lbl, d), lbl) == (y, if ok then y.table[lbl].value else 0)
  {
    EnteredLike(b, u, st, lbl, d);
    x := SetState(Entered(u, lbl, d), o, Needed);
  }

  /** A lookup of __cxa_finalize that does not load anything. */
  lemma FinalizerLike<O>(p: Plot<O>, w: World<O>, b: View<O>, u: View<O>, st: map<O, Status>, lbl: string,
      d: O) returns (x: View<O>)
    requires Set(p, w, b) && Like(b, u, st) && st.Keys == b.states.Keys && p.f in st && st[p.f] != Loaded
    requires IsOrdinary(lbl, true)
    ensures Like(b, x, st) && Finalizer(w, u, lbl, Some(d)) == x
  {
    hide Like, OwnOrTaken, RelocsOf;
    SpecialNames();
    x := u;
    if lbl == CXA_ATEXIT {
      LookupIs(w, u, CXA_FINALIZE, d);
      SameKeys(b, u, st);
      LoadKnown(w, b, u, st, CXA_FINALIZE, d);
      EnteredLike(b, u, st, CXA_FINALIZE, d);
      x := Entered(u, CXA_FINALIZE, d);
    } else {
      LookupIs(w, u, lbl, d);
    }
  }

  lemma LookupKnown<O>(p: Plot<O>, w: World<O>, b: View<O>, u: View<O>, st: map<O, Status>, lbl: string,
      d: O) returns (x: View<O>)
    requires Set(p, w, b) && Like(b, u, st) && st.Keys == b.states.Keys && p.f in st && st[p.f] != Loaded
    requires lbl in b.table && IsOrdinary(lbl, true)
    requires b.table[lbl].owner.Some? ==> b.table[lbl].owner.value in st && st[b.table[lbl].owner.value] != Loaded
    ensures Like(b, x, st) && LookupDependent(w, u, lbl, Some(d)) == (x, b.table[lbl].value)
  {
    hide Like, OwnOrTaken, RelocsOf;
    var y := FinalizerLike(p, w, b, u, st, lbl, d);
    LookupIs(w, u, lbl, d);
    SameKeys(b, y, st);
    LoadKnown(w, b, y, st, lbl, d);
    EnteredLike(b, y, st, lbl, d);
    x := Entered(y, lbl, d);
  }

  lemma SameKeys<O>(b: View<O>, u: View<O>, st: map<O, Status>)
    requires Like(b, u, st)
    ensures u.table.Keys == b.table.Keys && u.states == st
  {
  }

  lemma LookupMissing<O>(p: Plot<O>, w: World<O>, b: View<O>, u: View<O>, st: map<O, Status>, d: O)
    requires Set(p, w, b) && Like(b, u, st)
    ensures LookupDependent(w, u, p.missing, Some(d)) == (u, 0)
  {
    LookupIs(w, u, p.missing, d);
  }

  lemma TryIs<O>(w: World<O>, u: View<O>, o: O)
    requires o in u.states && u.states[o] == Needed && Offered(w, u, o) == u
    ensures RelocsOf(w, o) == [] ==> Try(w, u, o) == (SetState(u, o, Resolved), true)
    ensures |RelocsOf(w, o)| == 1 ==> var (x, found) := LookupDependent(w, u, RelocsOf(w, o)[0], Some(o));
                                      Try(w, u, o) == if found == 0 then (x, false)
                                          else (SetState(x, o, Resolved), true)
  {
    var rs := RelocsOf(w, o);
    if |rs| == 1 {
      var (x, found) := LookupDependent(w, u, rs[0], Some(o));
      assert Relocate(w, x, o, rs[1..]) == (x, true);
      assert Relocate(w, u, o, rs) == (x, found != 0);
    }
  }

  // ----- The run -----

  /** The owner of __cxa_finalize fails, and so does the object that it needs. */
  lemma FinalizerFails<O>(p: Plot<O>, w: World<O>, b: View<O>, u: View<O>, st: map<O, Status>) returns (x: View<O>)
    requires Set(p, w, b) && Like(b, u, st) && st.Keys == b.states.Keys
    requires p.a in st && st[p.a] == Needed && p.f in st && st[p.f] == Loaded && p.g in st && st[p.g] == Loaded
    ensures Like(b, x, st[p.f := Needed][p.g := Needed]) && Finalizer(w, u, CXA_ATEXIT, Some(p.a)) == x
  {
    hide Like, OwnOrTaken;
    SpecialNames();
    LookupIs(w, u, CXA_FINALIZE, p.a);
    SameKeys(b, u, st);
    var st1 := st[p.f := Needed];
    var x1 := LoadDemands(w, b, u, st, CXA_FINALIZE, p.a, p.f);
    SameKeys(b, x1, st1);
    OfferLike(p, w, b, x1, st1, p.f);
    TryIs(w, x1, p.f);
    if p.g == p.f {
      LookupMissing(p, w, b, x1, st1, p.f);
      x := x1;
      assert st[p.f := Needed][p.g := Needed] == st1;
    } else {
      x := NeededFails(p, w, b, x1, st1);
    }
  }

  /** The owner of __cxa_finalize asks for the object that it needs, which fails. */
  lemma NeededFails<O>(p: Plot<O>, w: World<O>, b: View<O>, u: View<O>, st: map<O, Status>) returns (x: View<O>)
    requires Set(p, w, b) && Like(b, u, st) && st.Keys == b.states.Keys && p.g != p.f && p.a in st && st[p.a] == Needed
    requires p.f in st && st[p.f] == Needed && p.g in st && st[p.g] == Loaded
    ensures Like(b, x, st[p.g := Needed]) && LookupDependent(w, u, p.name, Some(p.f)) == (x, 0)
  {
    hide Like, OwnOrTaken;
    LookupIs(w, u, p.name, p.f);
    var y := FinalizerLike(p, w, b, u, st, p.name, p.f);
    SameKeys(b, y, st);
    x := LoadDemands(w, b, y, st, p.name, p.f, p.g);
    SameKeys(b, x, st[p.g := Needed]);
    OfferLike(p, w, b, x, st[p.g := Needed], p.g);
    TryIs(w, x, p.g);
    LookupMissing(p, w, b, x, st[p.g := Needed], p.g);
  }

  /** The lookup of __cxa_atexit itself is a success. */
  lemma AtexitSucceeds<O>(p: Plot<O>, w: World<O>, b: View<O>, u: View<O>, st: map<O, Status>)
    returns (x: View<O>, found: nat, st': map<O, Status>)
    requires Set(p, w, b) && Like(b, u, st) && st.Keys == b.states.Keys
    requires p.a in st && st[p.a] == Needed && p.f in st && st[p.f] == Loaded && p.g in st && st[p.g] == Loaded
    ensures LookupDependent(w, u, CXA_ATEXIT, Some(p.a)) == (x, found) && found != 0 && Like(b, x, st')
    ensures st'.Keys == st.Keys && st'[p.a] == Needed && st'[p.f] == Needed && st'[p.g] == Needed
  {
    hide Like, OwnOrTaken;
    SpecialNames();
    LookupIs(w, u, CXA_ATEXIT, p.a);
    var y := FinalizerFails(p, w, b, u, st);
    st' := st[p.f := Needed][p.g := Needed];
    SameKeys(b, y, st');
    if CXA_ATEXIT !in b.table {
      x, found := y, 1;
    } else {
      var owner := b.table[CXA_ATEXIT].owner;
      if owner.Some? && st'[owner.value] == Loaded {
        x := AtexitLoaded(p, w, b, y, st', owner.value);
        st' := st'[owner.value := Resolved];
        found := b.table[CXA_ATEXIT].value;
      } else {
        LoadKnown(w, b, y, st', CXA_ATEXIT, p.a);
        EnteredLike(b, y, st', CXA_ATEXIT, p.a);
        x, found := Entered(y, CXA_ATEXIT, p.a), b.table[CXA_ATEXIT].value;
      }
    }
  }

  /** Its owner, which refers to nothing, is resolved on the way. */
  lemma AtexitLoaded<O>(p: Plot<O>, w: World<O>, b: View<O>, y: View<O>, st: map<O, Status>, o: O) returns (x: View<O>)
    requires Set(p, w, b) && Like(b, y, st) && st.Keys == b.states.Keys && p.a in st && st[p.a] == Needed
    requires CXA_ATEXIT in b.table && b.table[CXA_ATEXIT].owner == Some(o)
    requires o in st && st[o] == Loaded && o !in {p.a, p.f, p.g}
    ensures Load(w, Entered(y, CXA_ATEXIT, p.a), CXA_ATEXIT) == (x, b.table[CXA_ATEXIT].value)
    ensures Like(b, x, st[o := Resolved])
  {
    hide Like, OwnOrTaken;
    var z := LoadDemands(w, b, y, st, CXA_ATEXIT, p.a, o);
    var st' := st[o := Needed];
    SameKeys(b, z, st');
    OfferLike(p, w, b, z, st', o);
    TryIs(w, z, o);
    x := SetState(z, o, Resolved);
    StateLike(b, z, st', o, Resolved);
    assert st'[o := Resolved] == st[o := Resolved];
    LikeValue(b, x, st[o := Resolved], CXA_ATEXIT);
  }

  lemma StateLike<O>(b: View<O>, u: View<O>, st: map<O, Status>, o: O, s: Status)
    requires Like(b, u, st)
    ensures Like(b, SetState(u, o, s), st[o := s])
  {
  }

  lemma LikeValue<O>(b: View<O>, u: View<O>, st: map<O, Status>, lbl: string)
    requires Like(b, u, st) && lbl in b.table
    ensures lbl in u.table && u.table[lbl].value == b.table[lbl].value
  {
  }

  /** So `a` is resolved, while what it needs is not. */
  lemma Succeeds<O>(p: Plot<O>, w: World<O>, b: View<O>, v: View<O>) returns (x: View<O>, st: map<O, Status>)
    requires Set(p, w, b) && Offered(w, v, p.a) == b
    requires Is(v, p.a, Needed) && Is(v, p.f, Loaded) && Is(v, p.g, Loaded)
    ensures Try(w, v, p.a) == (x, true) && Like(b, x, st) && st.Keys == v.states.Keys
    ensures st[p.a] == Resolved && st[p.f] == Needed && st[p.g] == Needed
  {
    hide Set, OwnOrTaken;
    var y, found, st1 := AtexitSucceeds(p, w, b, b, b.states);
    assert RelocsOf(w, p.a) == [CXA_ATEXIT] by { RelocsOfA(p, w, b); }
    assert Relocate(w, y, p.a, [CXA_ATEXIT][1..]) == (y, true);
    assert Relocate(w, b, p.a, [CXA_ATEXIT]) == (y, true);
    x, st := SetState(y, p.a, Resolved), st1[p.a := Resolved];
    StateLike(b, y, st1, p.a, Resolved);
  }

  lemma RelocsOfA<O>(p: Plot<O>, w: World<O>, b: View<O>)
    requires Set(p, w, b)
    ensures RelocsOf(w, p.a) == [CXA_ATEXIT] && p.a != p.f && p.a != p.g
  {
  }

  /** The objects after `a` are resolved too; this does not help the one that comes before. */
  lemma {:induction false} TheRest<O>(p: Plot<O>, w: World<O>, b: View<O>, u: View<O>, st: map<O, Status>, os: seq<O>)
    requires Set(p, w, b) && Like(b, u, st) && st.Keys == b.states.Keys && p.a in st && LinkedIn(st[p.a])
    requires p.f in st && LinkedIn(st[p.f]) && p.g in st && st[p.g] == Needed && p.g !in os && p.a !in os
    ensures var (x, ok) := TryAll(w, u, os); ok && Is(x, p.g, Needed)
    decreases |os|
  {
    hide Like, OwnOrTaken;
    SameKeys(b, u, st);
    if os != [] {
      var o := os[0];
      if Is(u, o, Needed) {
        OfferLike(p, w, b, u, st, o);
        TryIs(w, u, o);
        var x := u;
        if o == p.f {
          x := LookupKnown(p, w, b, u, st, p.name, o);
          SameKeys(b, x, st);
        }
        StateLike(b, x, st, o, Resolved);
        TheRest(p, w, b, SetState(x, o, Resolved), st[o := Resolved], os[1..]);
      } else {
        TheRest(p, w, b, u, st, os[1..]);
      }
    }
  }

  // ----- Setting it up -----

  /** Before `a`, the objects that are wanted are resolved, and nothing else happens. */
  ghost predicate Before<O>(v: View<O>, u: View<O>, os: seq<O>, i: nat)
    requires i <= |os|
  {
    && u.table == v.table && u.deps == v.deps && u.states.Keys == v.states.Keys
    && forall o | o in v.states :: u.states[o] == v.states[o]
                                   || (v.states[o] == Needed && u.states[o] == Resolved && o in os[..i])
  }

  ghost predicate Resolves<O>(v: View<O>, u: View<O>) {
    && u.states.Keys == v.states.Keys
    && forall o | o in v.states :: u.states[o] == v.states[o] || (v.states[o] == Needed && u.states[o] == Resolved)
  }

  /** The object has no relocations, and defines what the table has from it. */
  ghost predicate Idle<O>(w: World<O>, v: View<O>, o: O) {
    RelocsOf(w, o) == [] && IsOwn(v.table, o, SymsOf(w, o))
  }

  lemma {:induction false} RunsUpTo<O>(w: World<O>, v: View<O>, u: View<O>, os: seq<O>, i: nat,
      q: nat) returns (x: View<O>)
    requires i <= q < |os| && Before(v, u, os, i)
    requires forall j | i <= j < q :: Is(v, os[j], Needed) ==> Idle(w, v, os[j])
    ensures Before(v, x, os, q) && TryAll(w, u, os[i..]) == TryAll(w, x, os[q..])
    decreases q - i
  {
    if i == q {
      x := u;
    } else {
      var y := u;
      if Is(u, os[i], Needed) {
        IdleResolved(w, v, u, os, i);
        y := SetState(u, os[i], Resolved);
      }
      assert os[i..][1..] == os[i + 1..] && os[..i + 1] == os[..i] + [os[i]];
      x := RunsUpTo(w, v, y, os, i + 1, q);
    }
  }

  lemma IdleResolved<O>(w: World<O>, v: View<O>, u: View<O>, os: seq<O>, i: nat)
    requires i < |os| && Before(v, u, os, i) && Is(u, os[i], Needed) && Idle(w, v, os[i])
    ensures Try(w, u, os[i]) == (SetState(u, os[i], Resolved), true)
  {
    OfferRepeats(u.table, u.states, os[i], SymsOf(w, os[i]));
    TryIs(w, u, os[i]);
  }

  /** What `a` offers: its own definitions, and one of __cxa_atexit if that has no address. */
  ghost function Extra<O>(v: View<O>): seq<Symbol> {
    if CXA_ATEXIT in v.table && v.table[CXA_ATEXIT].value == 0
    then [Symbol(CXA_ATEXIT, 1, Normal, v.table[CXA_ATEXIT].typ)] else []
  }

  ghost function Played<O>(p: Plot<O>, v: View<O>): World<O> {
    World(map o | o in v.states :: OwnSymbols(v.table, o) + if o == p.a then Extra(v) else [],
          map o | o in v.states :: if o == p.a then [CXA_ATEXIT] else if o == p.g then [p.missing]
                                   else if o == p.f then [p.name] else [],
          iset{CXA_ATEXIT})
  }

  /** The objects and names that the plot needs. */
  ghost predicate Cast<O>(p: Plot<O>, v: View<O>) {
    && OwnersKnown(v) && !Stuck(v) && Is(v, p.a, Needed) && Is(v, p.f, Loaded) && Is(v, p.g, Loaded)
    && CXA_FINALIZE in v.table && v.table[CXA_FINALIZE].owner == Some(p.f)
    && Pulls(v, p.name, p.g)
    && p.missing !in v.table && IsOrdinary(p.missing, true)
    && p.missing != CXA_ATEXIT && p.missing != CXA_FINALIZE && p.missing != DYNAMIC
  }

  lemma PlayedSound<O>(p: Plot<O>, v: View<O>)
    requires Cast(p, v) && DepsDemandedBut(v, None)
    ensures Sound(Played(p, v), v)
  {
    var w := Played(p, v);
    forall k | k in v.table && v.table[k].owner.Some? ensures OwnerOk(w, v, v.table[k].owner.value, k) {
      var o := v.table[k].owner.value;
      var q := OwnSymbols(v.table, o);
      var s :| s in q && s.name == k;
      assert s in SymsOf(w, o);
    }
  }

  /** The table after `a` has offered what it has. */
  ghost function Given<O>(p: Plot<O>, v: View<O>): map<string, SymInfo<O>> {
    if Extra(v) == [] then v.table
    else v.table[CXA_ATEXIT := SymInfo(1, Some(p.a), Normal, Extra(v)[0].typ, 0, false)]
  }

  lemma OffersExtra<O>(p: Plot<O>, v: View<O>, u: View<O>)
    requires Cast(p, v) && u.table == v.table && Is(u, p.a, Needed)
    requires Resolves(v, u)
    ensures Offered(Played(p, v), u, p.a) == u.(table := Given(p, v))
  {
    hide IsOrdinary, Pulls;
    var w := Played(p, v);
    var own := OwnSymbols(v.table, p.a);
    assert SymsOf(w, p.a) == own + Extra(v);
    assert OfferAll(u.table, u.states, p.a, own) == u.table by {
      forall s | s in own ensures Repeats(u.table, u.states, p.a, s) { OwnRepeats(v.table, u.states, p.a, own, s); }
      OfferRepeats(u.table, u.states, p.a, own);
    }
    if Extra(v) == [] {
      assert SymsOf(w, p.a) == own;
    } else {
      assert SymsOf(w, p.a)[..|own|] == own;
      assert OfferAll(u.table, u.states, p.a, SymsOf(w, p.a)) == Offer(u.table, u.states, p.a, Extra(v)[0]);
      Replaces(p, v, u);
    }
  }

  lemma OwnRepeats<O>(t: map<string, SymInfo<O>>, st: map<O, Status>, o: O, q: seq<Symbol>, s: Symbol)
    requires IsOwn(t, o, q) && s in q
    ensures Repeats(t, st, o, s)
  {
  }

  lemma Replaces<O>(p: Plot<O>, v: View<O>, u: View<O>)
    requires OwnersKnown(v) && !Stuck(v) && u.table == v.table && Is(u, p.a, Needed) && Extra(v) != []
    requires Resolves(v, u)
    ensures Offer(u.table, u.states, p.a, Extra(v)[0]) == Given(p, v)
  {
    var e := v.table[CXA_ATEXIT];
    assert e.strength == Weak || (e.strength != Strong && e.owner.Some? && !LinkedIn(StatusIn(u.states, e.owner)));
  }

  lemma PlayedRelocs<O>(p: Plot<O>, v: View<O>)
    requires Cast(p, v)
    ensures var w := Played(p, v);
            && RelocsOf(w, p.a) == [CXA_ATEXIT] && RelocsOf(w, p.g) == [p.missing]
            && (p.g != p.f ==> RelocsOf(w, p.f) == [p.name])
            && (forall o | o in v.states && o !in {p.a, p.f, p.g} :: RelocsOf(w, o) == [])
  {
  }

  lemma PlayedSymbols<O>(p: Plot<O>, v: View<O>, b: View<O>)
    requires b.table == Given(p, v) && b.states.Keys == v.states.Keys
    ensures forall o, s | o in b.states && o != p.a && s in SymsOf(Played(p, v), o) :: OwnOrTaken(b, o, p.a, s)
  {
    forall o, s | o in b.states && o != p.a && s in SymsOf(Played(p, v), o) ensures OwnOrTaken(b, o, p.a, s) {
      assert s in OwnSymbols(v.table, o);
    }
  }

  lemma PlotSet<O>(p: Plot<O>, v: View<O>, u: View<O>)
    requires Cast(p, v) && u.table == v.table && Is(u, p.a, Needed)
    requires Resolves(v, u)
    ensures Set(p, Played(p, v), Offered(Played(p, v), u, p.a))
  {
    var w, b := Played(p, v), Offered(Played(p, v), u, p.a);
    assert w.dlsym == iset{CXA_ATEXIT};
    SpecialNames();
    OffersExtra(p, v, u);
    PlayedRelocs(p, v);
    PlayedSymbols(p, v, b);
    GivenFacts(p, v, u);
    assert b == u.(table := Given(p, v));
    IsSet(p, w, v, b);
  }

  lemma IsSet<O>(p: Plot<O>, w: World<O>, v: View<O>, b: View<O>)
    requires Cast(p, v) && b.states.Keys == v.states.Keys
    requires w.dlsym == iset{CXA_ATEXIT} && RelocsOf(w, p.a) == [CXA_ATEXIT] && RelocsOf(w, p.g) == [p.missing]
    requires p.g != p.f ==> RelocsOf(w, p.f) == [p.name]
    requires forall o | o in v.states && o !in {p.a, p.f, p.g} :: RelocsOf(w, o) == []
    requires forall o, s | o in b.states && o != p.a && s in SymsOf(w, o) :: OwnOrTaken(b, o, p.a, s)
    requires OwnersKnown(b) && CXA_FINALIZE in b.table && b.table[CXA_FINALIZE].owner == Some(p.f)
    requires p.name in b.table && b.table[p.name] == v.table[p.name] && p.missing !in b.table
    requires CXA_ATEXIT in b.table ==> b.table[CXA_ATEXIT].value != 0
    ensures Set(p, w, b)
  {
    hide IsOrdinary, Stuck, OwnersKnown, OwnOrTaken, RelocsOf, SymsOf;
  }

  lemma GivenFacts<O>(p: Plot<O>, v: View<O>, u: View<O>)
    requires Cast(p, v) && Is(u, p.a, Needed)
    requires Resolves(v, u)
    requires CXA_FINALIZE != CXA_ATEXIT
    ensures var b := u.(table := Given(p, v));
            && OwnersKnown(b) && CXA_FINALIZE in b.table && b.table[CXA_FINALIZE] == v.table[CXA_FINALIZE]
            && p.name in b.table && b.table[p.name] == v.table[p.name] && p.missing !in b.table
            && (CXA_ATEXIT in b.table ==> b.table[CXA_ATEXIT].value != 0)
  {
    hide IsOrdinary, Stuck;
    var b := u.(table := Given(p, v));
    assert OwnersKnown(b);
  }

  lemma Strands<O(!new)>(v: View<O>, os: seq<O>) returns (w: World<O>)
    requires Listed(v, os) && !Guard(v, os)
    ensures Sound(w, v) && !Safe(w, v.states.Keys, v, os)
  {
    hide Stuck, Complete;
    var i, q :| 0 <= i < q < |os| && Is(v, os[q], Needed) && Is(v, os[i], Loaded) && CanPull(v, os[i]);
    var name :| Pulls(v, name, os[i]);
    var missing := FreshName(v.table.Keys);
    var p := Plot(os[q], v.table[CXA_FINALIZE].owner.value, os[i], name, missing);
    w := Played(p, v);
    PlayedSound(p, v);
    IdleOthers(p, v, os, q);
    var u := RunsUpTo(w, v, v, os, 0, q);
    Stranded(p, v, u, os, i, q);
    assert os[0..] == os;
    StaysStranded(w, v, os, p.g);
  }

  lemma StaysStranded<O>(w: World<O>, v: View<O>, os: seq<O>, o: O)
    requires Sound(w, v) && TryAll(w, v, os).1 && o in Waiting(TryAll(w, v, os).0) && Listed(v, os)
    ensures ResolveAll(w, v.states.Keys, v, os).1 && !Complete(ResolveAll(w, v.states.Keys, v, os).0)
  {
    TryAllRuns(w, v, os);
    InitialiseRuns(v.states.Keys, TryAll(w, v, os).0, os);
  }

  lemma IdleOthers<O>(p: Plot<O>, v: View<O>, os: seq<O>, q: nat)
    requires Cast(p, v) && q < |os| && p.a == os[q] && forall i, j | 0 <= i < j < |os| :: os[i] != os[j]
    ensures forall j | 0 <= j < q :: Is(v, os[j], Needed) ==> Idle(Played(p, v), v, os[j])
  {
    forall j | 0 <= j < q && Is(v, os[j], Needed) ensures Idle(Played(p, v), v, os[j]) {
      assert SymsOf(Played(p, v), os[j]) == OwnSymbols(v.table, os[j]);
    }
  }

  lemma Stranded<O>(p: Plot<O>, v: View<O>, u: View<O>, os: seq<O>, i: nat, q: nat)
    requires Cast(p, v) && i < q < |os| && p.a == os[q] && p.g == os[i] && Before(v, u, os, q)
    requires forall i, j | 0 <= i < j < |os| :: os[i] != os[j]
    ensures var (x, ok) := TryAll(Played(p, v), u, os[q..]); ok && p.g in Waiting(x)
  {
    hide Set, Pulls, Stuck;
    var w := Played(p, v);
    assert Is(u, p.a, Needed);
    PlotSet(p, v, u);
    var b := Offered(w, u, p.a);
    var x, st := Succeeds(p, w, b, u);
    assert os[q..][0] == p.a && os[q..][1..] == os[q + 1..];
    TheRest(p, w, b, x, st, os[q + 1..]);
  }
}
