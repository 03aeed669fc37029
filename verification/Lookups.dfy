/** What a lookup answers, and why it can fail (lookupDependentSymbol and loadSymbol in rts/Linker.c). */
module Lookups {
  import opened Linking
  import opened ObjectCodes
  import opened Options

  // ----- The answer -----

  /** The answer for a name of the table: its address, unless its owner had to be loaded and could not be. */
  ghost predicate Answers<O>(a: View<O>, b: View<O>, lbl: string, found: nat)
    requires lbl in a.table
  {
    && Fixed(b, lbl) && b.table[lbl].value == a.table[lbl].value && b.table[lbl].owner == a.table[lbl].owner
    && (if OwnedByLoaded(a, lbl)
        then (found == a.table[lbl].value && Is(b, a.table[lbl].owner.value, Resolved))
             || (found == 0 && Is(b, a.table[lbl].owner.value, Needed))
        else found == a.table[lbl].value && b.states == a.states)
  }

  lemma LoadAnswers<O>(w: World<O>, a: View<O>, lbl: string)
    requires lbl in a.table && OwnersOk(w, a) && DepsDemandedBut(a, a.table[lbl].owner) && a.table[lbl].strength != Weak
    ensures var (b, found) := Load(w, a, lbl); Answers(a, b, lbl, found)
  {
    hide Goes, Ran, Sound, Accounted, OwnersOk, DepsDemandedBut, Relocates, Fixed;
    LoadRuns(w, a, lbl);
    if OwnedByLoaded(a, lbl) {
      var o := a.table[lbl].owner.value;
      var v1 := SetState(a, o, Needed);
      DemandGoes(w, a, o);
      TryRuns(w, v1, o);
    }
  }

  lemma PromoteAnswers<O>(a: View<O>, b: View<O>, lbl: string, dep: Option<O>, found: nat)
    requires lbl in a.table
    requires var v := Promote(a, lbl); Answers(Depend(v, dep, v.table[lbl].owner), b, lbl, found)
    ensures Answers(a, b, lbl, found)
  {
  }

  /** The answer of every lookup: for a name of the table, after what the lookup of __cxa_atexit does first, that of
      the table; for any other name, that of the dynamic linker. The special names always have an address. */
  lemma LookupAnswers<O>(w: World<O>, a: View<O>, lbl: string, dep: Option<O>)
    requires Sound(w, a) && (dep.Some? ==> Is(a, dep.value, Needed))
    ensures var (b, found) := LookupDependent(w, a, lbl, dep);
            var u := if lbl == CXA_ATEXIT && dep.Some? then LookupDependent(w, a, CXA_FINALIZE, dep).0 else a;
            && (IsOrdinary(lbl, dep.Some?) && lbl in u.table ==> Answers(u, b, lbl, found))
            && (IsOrdinary(lbl, dep.Some?) && lbl !in u.table ==>
                  b == u && (found != 0 <==> lbl in w.dlsym || lbl == DYNAMIC))
            && (lbl == DSO_HANDLE || (dep.Some? && GOT <= lbl) || (!IsOrdinary(lbl, false) && lbl in u.table) ==>
                  found != 0)
  {
    hide Goes, Accounted, Answers, OwnersOk;
    SpecialNames();
    if dep.Some? && lbl == CXA_ATEXIT { LookupRuns(w, a, CXA_FINALIZE, dep.value); }
    var u := Finalizer(w, a, lbl, dep);
    assert Sound(w, u);
    if IsOrdinary(lbl, dep.Some?) && lbl in u.table {
      PromoteGoes(w, u, lbl);
      var v := Promote(u, lbl);
      if dep.Some? { DemandedStays(w, a, u, lbl, dep.value); Recorded(w, v, lbl, dep.value); }
      LoadAnswers(w, Depend(v, dep, v.table[lbl].owner), lbl);
      var (b, found) := LookupDependent(w, a, lbl, dep);
      PromoteAnswers(u, b, lbl, dep, found);
    }
  }

  lemma DemandedStays<O>(w: World<O>, a: View<O>, u: View<O>, lbl: string, o: O)
    requires Sound(w, a) && Is(a, o, Needed) && u == Finalizer(w, a, lbl, Some(o))
    ensures o in u.states
  {
    hide Accounted;
    SpecialNames();
    if lbl == CXA_ATEXIT { LookupRuns(w, a, CXA_FINALIZE, o); }
  }

  /** ocTryLoad offers the symbols of the object again: whatever it finds, every one of them is defined afterwards, and
      those that are not weak are defined for good. */
  lemma TryOffers<O>(w: World<O>, a: View<O>, o: O, s: Symbol)
    requires Sound(w, a) && Is(a, o, Needed) && s in SymsOf(w, o)
    ensures var b := Try(w, a, o).0;
            && s.name in b.table
            && (s.strength != Weak && b.table[s.name].typ == s.typ ==>
                  b.table[s.name].strength == Strong || Fixed(b, s.name))
  {
    hide Goes, Sound, Accounted, Held;
    var v := Offered(w, a, o);
    OfferGoes(w, a, o);
    OfferAllDefines(a.table, a.states, o, SymsOf(w, o));
    if s.strength != Weak { OfferAllHolds(a.table, a.states, o, SymsOf(w, o), s); }
    RelocateRuns(w, v, o, RelocsOf(w, o));
    var (u, ok) := Relocate(w, v, o, RelocsOf(w, o));
    KeysGo(w, v, u);
    OfferStays(w, v, u, o, s);
  }

  lemma OfferStays<O>(w: World<O>, v: View<O>, u: View<O>, o: O, s: Symbol)
    requires Goes(w, v, u) && s.name in v.table && o in u.states
    requires s.strength != Weak && v.table[s.name].typ == s.typ ==>
               v.table[s.name].strength == Strong || Fixed(v, s.name)
    ensures s.name in u.table
    ensures s.strength != Weak && u.table[s.name].typ == s.typ ==>
               u.table[s.name].strength == Strong || (Fixed(u, s.name) && Fixed(SetState(u, o, Resolved), s.name))
  {
  }

  // ----- Why a lookup can fail -----

  /** A lookup of the name answers NULL without loading anything; `fromObject` tells whether an object asks. */
  ghost predicate NoAddress<O>(w: World<O>, v: View<O>, k: string, fromObject: bool) {
    && k != DSO_HANDLE && !(fromObject && GOT <= k)
    && (if k in v.table then k != FINI_END && k != FINI_START && v.table[k].value == 0
        else k !in w.dlsym && k != DYNAMIC)
  }

  /** The object waits, and refers to a name without an address. */
  ghost predicate Broken<O>(w: World<O>, v: View<O>, o: O) {
    Is(v, o, Needed) && exists k :: k in RelocsOf(w, o) && NoAddress(w, v, k, true)
  }

  ghost predicate SomeBroken<O>(w: World<O>, v: View<O>) {
    exists o :: o in v.states && Broken(w, v, o)
  }

  /** NULL has a cause: the name has no address, or an object that waits refers to a name that has none. */
  lemma {:induction false} LookupCause<O>(w: World<O>, a: View<O>, lbl: string, dep: Option<O>)
    requires Sound(w, a) && (dep.Some? ==> Is(a, dep.value, Needed))
    ensures var (b, found) := LookupDependent(w, a, lbl, dep);
            found == 0 ==> NoAddress(w, b, lbl, dep.Some?) || SomeBroken(w, b)
    decreases Undemanded(a), if lbl == CXA_ATEXIT then 4 else 2, 0
  {
    hide Goes, Accounted, OwnersOk, SomeBroken;
    SpecialNames();
    if dep.Some? && lbl == CXA_ATEXIT { LookupRuns(w, a, CXA_FINALIZE, dep.value); }
    var u := Finalizer(w, a, lbl, dep);
    assert Sound(w, u);
    if IsOrdinary(lbl, dep.Some?) && lbl in u.table {
      PromoteGoes(w, u, lbl);
      var v := Promote(u, lbl);
      if dep.Some? { DemandedStays(w, a, u, lbl, dep.value); Recorded(w, v, lbl, dep.value); }
      LoadCause(w, Depend(v, dep, v.table[lbl].owner), lbl);
    }
  }

  lemma {:induction false} LoadCause<O>(w: World<O>, a: View<O>, lbl: string)
    requires lbl in a.table && OwnersOk(w, a) && DepsDemandedBut(a, a.table[lbl].owner) && a.table[lbl].strength != Weak
    ensures var (b, found) := Load(w, a, lbl);
            found == 0 ==> (lbl in b.table && b.table[lbl].value == 0) || SomeBroken(w, b)
    decreases Undemanded(a), 1, 0
  {
    hide Goes, Ran, Sound, Accounted, OwnersOk, DepsDemandedBut, SomeBroken;
    if OwnedByLoaded(a, lbl) {
      var o := a.table[lbl].owner.value;
      var v1 := SetState(a, o, Needed);
      assert o in Undemanded(a) && o !in Undemanded(v1);
      DemandGoes(w, a, o);
      TryCause(w, v1, o);
    }
  }

  lemma {:induction false} TryCause<O>(w: World<O>, a: View<O>, o: O)
    requires Sound(w, a)
    ensures var (b, ok) := Try(w, a, o); !ok ==> SomeBroken(w, b)
    decreases Undemanded(a), 6, 0
  {
    hide Goes, Sound, SomeBroken;
    if Is(a, o, Needed) {
      OfferGoes(w, a, o);
      RelocateCause(w, Offered(w, a, o), o, RelocsOf(w, o));
    }
  }

  lemma {:induction false} RelocateCause<O>(w: World<O>, a: View<O>, o: O, rs: seq<string>)
    requires Sound(w, a) && Is(a, o, Needed) && forall k | k in rs :: k in RelocsOf(w, o)
    ensures var (b, ok) := Relocate(w, a, o, rs); !ok ==> SomeBroken(w, b)
    decreases Undemanded(a), 5, |rs|
  {
    hide Goes, Sound, Accounted, NoAddress;
    if rs != [] {
      LookupCause(w, a, rs[0], Some(o));
      LookupRuns(w, a, rs[0], o);
      var (v1, found) := LookupDependent(w, a, rs[0], Some(o));
      assert o in Waiting(a) && o in Waiting(v1);
      if found != 0 {
        RelocateCause(w, v1, o, rs[1..]);
      } else if NoAddress(w, v1, rs[0], true) {
        assert Broken(w, v1, o);
      }
    }
  }

  lemma {:induction false} TryAllCause<O>(w: World<O>, a: View<O>, os: seq<O>)
    requires Sound(w, a)
    ensures var (b, ok) := TryAll(w, a, os); !ok ==> SomeBroken(w, b)
    decreases |os|
  {
    hide Goes, Accounted, SomeBroken;
    if os != [] {
      TryRuns(w, a, os[0]);
      TryCause(w, a, os[0]);
      if Try(w, a, os[0]).1 { TryAllCause(w, Try(w, a, os[0]).0, os[1..]); }
    }
  }

  /** The initialisers run in order up to the first failure; the object that fails stays resolved, and so does every
      resolved object after it. */
  lemma {:induction false} InitialiseStops<O>(good: set<O>, a: View<O>, os: seq<O>) returns (i: nat)
    requires !Initialise(good, a, os).1
    ensures i < |os| && Is(a, os[i], Resolved) && os[i] !in good
    ensures forall j | 0 <= j < i && Is(a, os[j], Resolved) ::
              os[j] in good && Is(Initialise(good, a, os).0, os[j], Ready)
    ensures forall o, s | o in a.states && o !in os[..i] && Is(a, o, s) :: Is(Initialise(good, a, os).0, o, s)
    decreases |os|
  {
    if Is(a, os[0], Resolved) && os[0] !in good {
      i := 0;
    } else {
      var a' := if Is(a, os[0], Resolved) then SetState(a, os[0], Ready) else a;
      var i' := InitialiseStops(good, a', os[1..]);
      i := i' + 1;
      assert os[..i] == [os[0]] + os[1..][..i'];
      InitialiseRuns(good, a', os[1..]);
      assert forall j | 0 < j < i :: os[j] == os[1..][j - 1];
    }
  }

  /** resolveObjs_ only fails because of a name without an address or a failing initialiser. */
  lemma ResolveCause<O>(w: World<O>, good: set<O>, a: View<O>, os: seq<O>)
    requires Sound(w, a)
    ensures var (b, ok) := ResolveAll(w, good, a, os);
            !ok ==> SomeBroken(w, b) || exists o :: o in os && Is(b, o, Resolved) && o !in good
  {
    hide SomeBroken;
    TryAllCause(w, a, os);
    var (u, tried) := TryAll(w, a, os);
    if tried && !Initialise(good, u, os).1 {
      var i := InitialiseStops(good, u, os);
      InitialiseRuns(good, u, os);
      assert Is(Initialise(good, u, os).0, os[i], Resolved);
    }
  }

  lemma CauseStays<O>(w: World<O>, a: View<O>, b: View<O>, lbl: string)
    requires Initialised(a, b)
    ensures SomeBroken(w, a) ==> SomeBroken(w, b)
    ensures NoAddress(w, a, lbl, false) ==> NoAddress(w, b, lbl, false)
  {
    if SomeBroken(w, a) {
      var o :| o in a.states && Broken(w, a, o);
      var k :| k in RelocsOf(w, o) && NoAddress(w, a, k, true);
      assert NoAddress(w, b, k, true) && Broken(w, b, o);
    }
  }
}
