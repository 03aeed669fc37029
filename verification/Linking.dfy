/** What on-demand linking computes, as a function of the symbol table and the states of the objects (rts/Linker.c). */
module Linking {
  import opened ObjectCodes
  import opened Options

  /** An RtsSymbolInfo: the current definition of a symbol name. */
  datatype SymInfo<O> = SymInfo(value: nat, owner: Option<O>, strength: Strength, typ: SymType, size: nat,
      isCommon: bool)

  /** The symbol table, and what is recorded about the objects. */
  datatype View<O> = View(table: map<string, SymInfo<O>>, states: map<O, Status>, deps: map<O, seq<O>>)

  /** What linking does not change: the symbols and the relocations of the objects, and the names that the dynamic
      linker knows. */
  datatype World<O> = World(syms: map<O, seq<Symbol>>, relocs: map<O, seq<string>>, dlsym: iset<string>)

  const DSO_HANDLE := "__dso_handle"
  const CXA_ATEXIT := "__cxa_atexit"
  const CXA_FINALIZE := "__cxa_finalize"
  const GOT := "_GLOBAL_OFFSET_TABLE_"
  const DYNAMIC := "_DYNAMIC"
  const FINI_END := "__fini_array_end"
  const FINI_START := "__fini_array_start"

  predicate LinkedIn(s: Status) {
    s == Ready || s == Resolved || s == Needed
  }

  // ----- Offering definitions -----

  /** The decision tree of ghciInsertSymbolTable for a name that already has the definition `e`.
      `eStatus` and `nStatus` are the states of the owners of `e` and of the new definition `n`. A definition of the
      same type replaces a weak one if it is not weak, or if it has an address and the weak one has none, and one that
      is neither weak nor strong if only the new owner is linked in. */
  function Redefine<O>(e: SymInfo<O>, eStatus: Status, n: SymInfo<O>, nStatus: Status): (r: SymInfo<O>)
    ensures r != e ==> r.value == n.value && r.owner == n.owner && r.typ == e.typ
    ensures r != e ==> e.strength == Weak || (e.strength != Strong && e.owner.Some? && !LinkedIn(eStatus))
    ensures r == if e.typ == n.typ && e.strength != Strong
                    && (if n.strength == Weak then e.strength == Weak && e.value == 0 && n.value != 0
                        else e.strength == Weak
                             || (e.owner.Some? && !LinkedIn(eStatus) && n.owner.Some? && LinkedIn(nStatus)))
                 then n else e
  {
    if e.typ != n.typ then e
    else if e.strength == Strong then e
    else if n.strength == Weak && n.value != 0 && e.strength == Weak && e.value == 0 then
      e.(value := n.value, owner := n.owner, size := n.size, isCommon := n.isCommon)
    else if n.strength == Weak then e
    else if e.strength == Weak then
      e.(value := n.value, owner := n.owner, strength := n.strength, size := n.size, isCommon := n.isCommon)
    else if e.owner.Some? && !LinkedIn(eStatus) then
      if n.owner.Some? && LinkedIn(nStatus) then
        e.(value := n.value, owner := n.owner, strength := n.strength, size := n.size, isCommon := n.isCommon)
      else e
    else e
  }

  /** The state of the owner of a definition; one without an owner is never looked at. */
  ghost function StatusIn<O>(st: map<O, Status>, owner: Option<O>): Status {
    if owner.Some? && owner.value in st then st[owner.value] else Loaded
  }

  function Definition<O>(s: Symbol, oc: O): SymInfo<O> {
    SymInfo(s.addr, Some(oc), s.strength, s.typ, 0, false)
  }

  ghost function Offer<O>(t: map<string, SymInfo<O>>, st: map<O, Status>, oc: O, s: Symbol): map<string, SymInfo<O>> {
    t[s.name := if s.name in t
                then Redefine(t[s.name], StatusIn(st, t[s.name].owner), Definition(s, oc), StatusIn(st, Some(oc)))
                else Definition(s, oc)]
  }

  /** The symbol table once `oc` has offered its symbols, in order. */
  ghost function OfferAll<O>(t: map<string, SymInfo<O>>, st: map<O, Status>, oc: O, symbols: seq<Symbol>): map<string,
      SymInfo<O>> {
    if symbols == [] then t else Offer(OfferAll(t, st, oc, symbols[..|symbols| - 1]), st, oc, symbols[|symbols| - 1])
  }

  lemma OfferNone<O>(t: map<string, SymInfo<O>>, st: map<O, Status>, oc: O, symbols: seq<Symbol>)
    ensures OfferAll(t, st, oc, symbols[..0]) == t
  {
    assert symbols[..0] == [];
  }

  lemma OfferOneMore<O>(t: map<string, SymInfo<O>>, st: map<O, Status>, oc: O, symbols: seq<Symbol>, x: nat)
    requires x < |symbols|
    ensures OfferAll(t, st, oc, symbols[..x + 1]) == Offer(OfferAll(t, st, oc, symbols[..x]), st, oc, symbols[x])
  {
    assert symbols[..x + 1] == symbols[..x] + [symbols[x]];
  }

  /** Every symbol of the object is defined; a definition that changes becomes one of the object's own. */
  lemma {:induction false} OfferAllDefines<O>(t: map<string, SymInfo<O>>, st: map<O, Status>, oc: O,
      symbols: seq<Symbol>)
    ensures OfferAll(t, st, oc, symbols).Keys == t.Keys + Names(symbols)
    ensures forall k | k in t :: OfferAll(t, st, oc, symbols)[k].typ == t[k].typ
    ensures forall k | k in OfferAll(t, st, oc, symbols) ::
              || (k in t && OfferAll(t, st, oc, symbols)[k] == t[k])
              || (k in Names(symbols) && OfferAll(t, st, oc, symbols)[k].owner == Some(oc)
                  && (k in t ==> t[k].strength != Strong && !Held(t, st, k)))
    decreases |symbols|
  {
    if symbols != [] {
      var n := |symbols| - 1;
      OfferAllDefines(t, st, oc, symbols[..n]);
      assert symbols == symbols[..n] + [symbols[n]];
    }
  }

  /** What an object that is linked in offers, unless as a weak symbol, ends in a definition that stays: its own, or
      one that was there; only a definition of another type is left as it is. */
  lemma {:induction false} OfferAllHolds<O>(t: map<string, SymInfo<O>>, st: map<O, Status>, oc: O,
      symbols: seq<Symbol>, s: Symbol)
    requires LinkedIn(StatusIn(st, Some(oc))) && s in symbols && s.strength != Weak
    ensures var u := OfferAll(t, st, oc, symbols);
            s.name in u && (u[s.name].typ == s.typ ==> u[s.name].strength == Strong || Held(u, st, s.name))
    decreases |symbols|
  {
    var n := |symbols| - 1;
    assert symbols == symbols[..n] + [symbols[n]];
    OfferAllDefines(t, st, oc, symbols[..n]);
    if s in symbols[..n] { OfferAllHolds(t, st, oc, symbols[..n], s); }
  }

  /** The definition can no longer be replaced: it is not weak, and its owner, if any, has been linked in. */
  ghost predicate Held<O>(t: map<string, SymInfo<O>>, st: map<O, Status>, k: string) {
    k in t && t[k].strength != Weak && (t[k].owner.Some? ==> LinkedIn(StatusIn(st, t[k].owner)))
  }

  ghost predicate Fixed<O>(v: View<O>, k: string) {
    Held(v.table, v.states, k)
  }

  // ----- The linker, as a function -----

  ghost function SymsOf<O>(w: World<O>, o: O): seq<Symbol> {
    if o in w.syms then w.syms[o] else []
  }

  ghost function RelocsOf<O>(w: World<O>, o: O): seq<string> {
    if o in w.relocs then w.relocs[o] else []
  }

  /** The termination measure of on-demand loading: the objects still in state OBJECT_LOADED. */
  ghost function Undemanded<O>(v: View<O>): set<O> {
    set o | o in v.states && v.states[o] == Loaded
  }

  ghost function Waiting<O>(v: View<O>): set<O> {
    set o | o in v.states && v.states[o] == Needed
  }

  ghost function SetState<O>(v: View<O>, o: O, s: Status): View<O> {
    v.(states := v.states[o := s])
  }

  /** A weak symbol that has been looked up can no longer be overridden. */
  ghost function Promote<O>(v: View<O>, lbl: string): View<O>
    requires lbl in v.table
  {
    if v.table[lbl].strength == Weak then v.(table := v.table[lbl := v.table[lbl].(strength := Normal)]) else v
  }

  ghost function Depend<O>(v: View<O>, dep: Option<O>, owner: Option<O>): View<O> {
    if dep.Some? && owner.Some? && dep.value in v.deps
    then v.(deps := v.deps[dep.value := v.deps[dep.value] + [owner.value]]) else v
  }

  ghost function Offered<O>(w: World<O>, v: View<O>, o: O): View<O> {
    v.(table := OfferAll(v.table, v.states, o, SymsOf(w, o)))
  }

  /** lookupDependentSymbol: what becomes of the view, and the address, 0 for NULL. The addresses of symbols that are
      not in the table do not matter here; they are all 1. */
  ghost function LookupDependent<O>(w: World<O>, v: View<O>, lbl: string, dep: Option<O>): (r: (View<O>, nat))
    ensures Undemanded(r.0) <= Undemanded(v) && v.table.Keys <= r.0.table.Keys
    decreases Undemanded(v), if lbl == CXA_ATEXIT then 4 else 2, 0
  {
    if lbl == DSO_HANDLE then (v, 1) else
    var v1 := Finalizer(w, v, lbl, dep);
    if dep.Some? && GOT <= lbl then (v1, 1)
    else if lbl !in v1.table then (v1, if lbl in w.dlsym || lbl == DYNAMIC then 1 else 0)
    else
      var v2 := Promote(v1, lbl);
      if lbl == FINI_END || lbl == FINI_START then (v2, 1) else Load(w, Depend(v2, dep, v2.table[lbl].owner), lbl)
  }

  /** A lookup of __cxa_atexit looks up __cxa_finalize too, and ignores whether that one is found. */
  ghost function Finalizer<O>(w: World<O>, v: View<O>, lbl: string, dep: Option<O>): (r: View<O>)
    ensures Undemanded(r) <= Undemanded(v) && v.table.Keys <= r.table.Keys
    decreases Undemanded(v), if lbl == CXA_ATEXIT then 3 else 0, 0
  {
    if lbl == CXA_ATEXIT && dep.Some? then LookupDependent(w, v, CXA_FINALIZE, dep).0 else v
  }

  /** loadSymbol: the owner of the symbol is loaded first if it is still waiting to be demanded. */
  ghost function Load<O>(w: World<O>, v: View<O>, lbl: string): (r: (View<O>, nat))
    requires lbl in v.table
    ensures Undemanded(r.0) <= Undemanded(v) && v.table.Keys <= r.0.table.Keys
    decreases Undemanded(v), 1, 0
  {
    if OwnedByLoaded(v, lbl) then
      var o := v.table[lbl].owner.value;
      var v1 := SetState(v, o, Needed);
      assert o in Undemanded(v) && o !in Undemanded(v1);
      var (v2, ok) := Try(w, v1, o);
      (v2, if ok then v2.table[lbl].value else 0)
    else (v, v.table[lbl].value)
  }

  /** ocTryLoad */
  ghost function Try<O>(w: World<O>, v: View<O>, o: O): (r: (View<O>, bool))
    ensures Undemanded(r.0) <= Undemanded(v) && v.table.Keys <= r.0.table.Keys
    decreases Undemanded(v), 6, 0
  {
    if !(o in v.states && v.states[o] == Needed) then (v, true)
    else
      OfferAllDefines(v.table, v.states, o, SymsOf(w, o));
      var (v1, ok) := Relocate(w, Offered(w, v, o), o, RelocsOf(w, o));
      (if ok then SetState(v1, o, Resolved) else v1, ok)
  }

  /** ocResolve, for the relocations `rs` */
  ghost function Relocate<O>(w: World<O>, v: View<O>, o: O, rs: seq<string>): (r: (View<O>, bool))
    ensures Undemanded(r.0) <= Undemanded(v) && v.table.Keys <= r.0.table.Keys
    decreases Undemanded(v), 5, |rs|
  {
    if rs == [] then (v, true)
    else
      var (v1, found) := LookupDependent(w, v, rs[0], Some(o));
      if found == 0 then (v1, false) else Relocate(w, v1, o, rs[1..])
  }

  /** The first loop of resolveObjs_. */
  ghost function TryAll<O>(w: World<O>, v: View<O>, os: seq<O>): (View<O>, bool)
    decreases |os|
  {
    if os == [] then (v, true)
    else
      var (v1, ok) := Try(w, v, os[0]);
      if ok then TryAll(w, v1, os[1..]) else (v1, false)
  }

  /** runPendingInitializers, when the initialisers of the objects in `good` succeed. */
  ghost function Initialise<O>(good: set<O>, v: View<O>, os: seq<O>): (View<O>, bool)
    decreases |os|
  {
    if os == [] then (v, true)
    else if !Is(v, os[0], Resolved) then Initialise(good, v, os[1..])
    else if os[0] in good then Initialise(good, SetState(v, os[0], Ready), os[1..])
    else (v, false)
  }

  /** resolveObjs_ */
  ghost function ResolveAll<O>(w: World<O>, good: set<O>, v: View<O>, os: seq<O>): (View<O>, bool) {
    var (u, ok) := TryAll(w, v, os);
    if ok then Initialise(good, u, os) else (u, false)
  }

  ghost predicate Is<O>(v: View<O>, o: O, s: Status) {
    o in v.states && v.states[o] == s
  }

  /** A lookup of the name would have to load its owner first. */
  ghost predicate OwnedByLoaded<O>(v: View<O>, k: string) {
    k in v.table && v.table[k].owner.Some? && v.table[k].owner.value in v.states
        && v.states[v.table[k].owner.value] == Loaded
  }

  // ----- What every part of it keeps -----

  /** Is the name looked up in the symbol table if it is there? */
  predicate IsOrdinary(lbl: string, known: bool) {
    lbl != DSO_HANDLE && lbl != FINI_END && lbl != FINI_START && !(known && GOT <= lbl)
  }

  ghost predicate Settled<O>(v: View<O>, k: string) {
    !OwnedByLoaded(v, k)
  }

  /** Every owner in the symbol table is a known object that has not been unloaded and defines the symbol. */
  ghost predicate OwnersOk<O>(w: World<O>, v: View<O>) {
    forall k | k in v.table && v.table[k].owner.Some? :: OwnerOk(w, v, v.table[k].owner.value, k)
  }

  ghost predicate OwnerOk<O>(w: World<O>, v: View<O>, o: O, k: string) {
    o in v.states && v.states[o] != Unloaded && k in Names(SymsOf(w, o))
  }

  /** Whatever a recorded dependency names has been demanded, except perhaps `but`. */
  ghost predicate DepsDemandedBut<O>(v: View<O>, but: Option<O>) {
    && v.deps.Keys == v.states.Keys
    && forall o, d | o in v.deps && d in v.deps[o] && d in v.states :: v.states[d] == Loaded ==> but == Some(d)
  }

  ghost predicate Sound<O>(w: World<O>, v: View<O>) {
    OwnersOk(w, v) && DepsDemandedBut(v, None)
  }

  /** Names are only added, and their types stay; definitions that are fixed or strong stay, and so do those of objects
      that have not been demanded, except that a lookup makes them count as normal ones. */
  ghost predicate TableGoes<O>(a: View<O>, b: View<O>) {
    && a.table.Keys <= b.table.Keys && (forall k | k in a.table :: b.table[k].typ == a.table[k].typ)
    && (forall k | k in a.table && (Fixed(a, k) || a.table[k].strength == Strong) :: b.table[k] == a.table[k])
    && (forall k | OwnedByLoaded(b, k) :: k in a.table && a.table[k].(strength := b.table[k].strength) == b.table[k])
  }

  /** Objects are demanded; those that are end up resolved, or wait. */
  ghost predicate StatesGo<O>(a: View<O>, b: View<O>) {
    && a.states.Keys == b.states.Keys
    && forall o | o in a.states ::
         || b.states[o] == a.states[o]
         || ((a.states[o] == Loaded || a.states[o] == Needed) && (b.states[o] == Needed || b.states[o] == Resolved))
  }

  ghost predicate DepsGo<O>(a: View<O>, b: View<O>) {
    a.deps.Keys == b.deps.Keys && forall o | o in a.deps :: a.deps[o] <= b.deps[o]
  }

  /** The name has an address, its definition is fixed, and its owner is a dependency of `o`. */
  ghost predicate LinkedTo<O>(v: View<O>, o: O, lbl: string) {
    && Fixed(v, lbl) && v.table[lbl].value != 0
    && o in v.deps && (v.table[lbl].owner.Some? ==> v.table[lbl].owner.value in v.deps[o])
  }

  /** Whatever the names in `rs` refer to, among those in `keys`, is linked to `o`. */
  ghost predicate LinkedOver<O>(v: View<O>, o: O, rs: seq<string>, keys: set<string>) {
    forall lbl | lbl in rs && IsOrdinary(lbl, true) && lbl in keys :: LinkedTo(v, o, lbl)
  }

  /** An object is only resolved once everything that its relocations refer to is linked to it. */
  ghost predicate LinksGo<O>(w: World<O>, a: View<O>, b: View<O>)
    requires a.states.Keys == b.states.Keys
  {
    forall o | o in a.states && a.states[o] != Resolved && b.states[o] == Resolved ::
      LinkedOver(b, o, RelocsOf(w, o), a.table.Keys)
  }

  ghost predicate Goes<O>(w: World<O>, a: View<O>, b: View<O>) {
    TableGoes(a, b) && StatesGo(a, b) && DepsGo(a, b) && LinksGo(w, a, b)
  }

  lemma GoesSelf<O>(w: World<O>, a: View<O>)
    ensures Goes(w, a, a)
  {
  }

  lemma TableGoesMore<O>(a: View<O>, b: View<O>, c: View<O>)
    requires TableGoes(a, b) && TableGoes(b, c) && StatesGo(a, b) && StatesGo(b, c)
    ensures TableGoes(a, c) && StatesGo(a, c)
  {
    forall k | k in a.table && (Fixed(a, k) || a.table[k].strength == Strong) ensures c.table[k] == a.table[k] {
      assert b.table[k] == a.table[k];
      assert Fixed(a, k) ==> Fixed(b, k);
    }
    forall k | OwnedByLoaded(c, k) ensures k in a.table && a.table[k].(strength := c.table[k].strength) == c.table[k] {
      assert k in b.table && OwnedByLoaded(b, k);
    }
  }

  lemma LinkedStays<O>(a: View<O>, b: View<O>, o: O, lbl: string)
    requires TableGoes(a, b) && StatesGo(a, b) && DepsGo(a, b) && LinkedTo(a, o, lbl)
    ensures LinkedTo(b, o, lbl)
  {
  }

  lemma GoesMore<O>(w: World<O>, a: View<O>, b: View<O>, c: View<O>)
    requires Goes(w, a, b) && Goes(w, b, c)
    ensures Goes(w, a, c)
  {
    hide IsOrdinary, LinkedTo, Fixed, RelocsOf;
    TableGoesMore(a, b, c);
    forall o | o in a.states && a.states[o] != Resolved && c.states[o] == Resolved
      ensures LinkedOver(c, o, RelocsOf(w, o), a.table.Keys)
    {
      if b.states[o] == Resolved {
        assert LinkedOver(b, o, RelocsOf(w, o), a.table.Keys);
        forall lbl | lbl in RelocsOf(w, o) && IsOrdinary(lbl, true) && lbl in a.table.Keys ensures LinkedTo(c, o, lbl) {
          LinkedStays(b, c, o, lbl);
        }
      } else {
        assert LinkedOver(c, o, RelocsOf(w, o), b.table.Keys);
      }
    }
  }

  lemma ResolvedGoes<O>(w: World<O>, a: View<O>, b: View<O>, o: O)
    requires Goes(w, a, b) && o in b.states && b.states[o] == Needed && LinkedOver(b, o, RelocsOf(w, o), a.table.Keys)
    ensures Goes(w, a, SetState(b, o, Resolved))
  {
    hide IsOrdinary, RelocsOf;
    var c := SetState(b, o, Resolved);
    assert forall k :: Fixed(b, k) ==> Fixed(c, k);
    forall x | x in a.states && a.states[x] != Resolved && c.states[x] == Resolved
      ensures LinkedOver(c, x, RelocsOf(w, x), a.table.Keys)
    {
      assert LinkedOver(b, x, RelocsOf(w, x), a.table.Keys);
    }
  }

  lemma KeysGo<O>(w: World<O>, a: View<O>, b: View<O>)
    requires Goes(w, a, b)
    ensures a.table.Keys <= b.table.Keys && a.states.Keys == b.states.Keys
  {
  }

  lemma PromoteGoes<O>(w: World<O>, a: View<O>, lbl: string)
    requires lbl in a.table
    ensures Goes(w, a, Promote(a, lbl)) && (Sound(w, a) ==> Sound(w, Promote(a, lbl)))
  {
  }

  lemma Recorded<O>(w: World<O>, a: View<O>, lbl: string, o: O)
    requires Sound(w, a) && lbl in a.table && o in a.states
    ensures var b := Depend(a, Some(o), a.table[lbl].owner);
            && Goes(w, a, b) && OwnersOk(w, b) && DepsDemandedBut(b, a.table[lbl].owner)
            && o in b.deps && (a.table[lbl].owner.Some? ==> a.table[lbl].owner.value in b.deps[o])
  {
  }

  lemma DemandGoes<O>(w: World<O>, a: View<O>, o: O)
    requires o in a.states && a.states[o] == Loaded && OwnersOk(w, a) && DepsDemandedBut(a, Some(o))
    ensures var b := SetState(a, o, Needed); Goes(w, a, b) && Sound(w, b)
  {
  }

  lemma OfferGoes<O>(w: World<O>, a: View<O>, o: O)
    requires Sound(w, a) && o in a.states && a.states[o] == Needed
    ensures Goes(w, a, Offered(w, a, o)) && Sound(w, Offered(w, a, o))
  {
    OfferAllDefines(a.table, a.states, o, SymsOf(w, o));
  }

  // ----- What is left waiting -----

  /** A lookup of __cxa_atexit finds no address, now and for ever. */
  ghost predicate Stuck<O>(v: View<O>) {
    && CXA_ATEXIT in v.table && v.table[CXA_ATEXIT].value == 0
    && (v.table[CXA_ATEXIT].strength == Strong || Fixed(v, CXA_ATEXIT))
  }

  /** No lookup of __cxa_finalize between `a` and `b` has both loaded an object and been ignored. */
  ghost predicate Calm<O>(a: View<O>, b: View<O>) {
    Settled(a, CXA_FINALIZE) || !Settled(b, CXA_FINALIZE) || Stuck(a)
  }

  /** From `a` to `b` nothing that waits has been resolved, and nothing is left waiting by a success. */
  ghost predicate Ran<O>(w: World<O>, a: View<O>, b: View<O>, ok: bool) {
    Goes(w, a, b) && Waiting(a) <= Waiting(b) && (ok && Calm(a, b) ==> Waiting(b) <= Waiting(a))
  }

  /** The object owns a name that a lookup can find, with an address, or else __cxa_finalize. */
  ghost predicate CanPull<O>(v: View<O>, o: O) {
    exists k :: Pulls(v, k, o)
  }

  ghost predicate Pulls<O>(v: View<O>, k: string, o: O) {
    k in v.table && v.table[k].owner == Some(o) && IsOrdinary(k, true) && (k == CXA_FINALIZE || v.table[k].value != 0)
  }

  /** The object can never be resolved: one of its relocations refers to a symbol without an address. */
  ghost predicate Doomed<O>(w: World<O>, v: View<O>, o: O) {
    exists k :: k in RelocsOf(w, o) && Blocks(v, k)
  }

  ghost predicate Blocks<O>(v: View<O>, k: string) {
    IsOrdinary(k, true) && Fixed(v, k) && v.table[k].value == 0
  }

  /** What has come to wait could be pulled in, or something that could be will never be resolved. */
  ghost predicate Accounted<O>(w: World<O>, a: View<O>, b: View<O>) {
    Pulled(a, b) || Excused(w, a, b)
  }

  ghost predicate Pulled<O>(a: View<O>, b: View<O>) {
    forall o | o in Waiting(b) - Waiting(a) :: CanPull(a, o)
  }

  ghost predicate Excused<O>(w: World<O>, a: View<O>, b: View<O>) {
    exists o :: o in Waiting(b) - Waiting(a) && CanPull(a, o) && Doomed(w, b, o)
  }

  lemma SettledStays<O>(w: World<O>, a: View<O>, b: View<O>, k: string)
    requires Goes(w, a, b) && Settled(a, k)
    ensures Settled(b, k)
  {
  }

  lemma StuckStays<O>(w: World<O>, a: View<O>, b: View<O>)
    requires Goes(w, a, b) && Stuck(a)
    ensures Stuck(b)
  {
  }

  lemma RanMore<O>(w: World<O>, a: View<O>, b: View<O>, c: View<O>, ok: bool)
    requires Ran(w, a, b, true) && Ran(w, b, c, ok)
    ensures Ran(w, a, c, ok)
  {
    hide Goes, Stuck, Settled;
    GoesMore(w, a, b, c);
    if Settled(a, CXA_FINALIZE) { SettledStays(w, a, b, CXA_FINALIZE); }
    if Settled(b, CXA_FINALIZE) { SettledStays(w, b, c, CXA_FINALIZE); }
    if Stuck(a) { StuckStays(w, a, b); }
  }

  lemma PullsBack<O>(w: World<O>, a: View<O>, b: View<O>, o: O)
    requires Goes(w, a, b) && CanPull(b, o) && o in b.states && b.states[o] == Loaded
    ensures CanPull(a, o)
  {
    var k :| Pulls(b, k, o);
    assert OwnedByLoaded(b, k);
    assert Pulls(a, k, o);
  }

  lemma BlocksStays<O>(w: World<O>, a: View<O>, b: View<O>, k: string)
    requires Goes(w, a, b) && Blocks(a, k)
    ensures Blocks(b, k)
  {
  }

  lemma DoomedStays<O>(w: World<O>, a: View<O>, b: View<O>, o: O)
    requires Goes(w, a, b) && Doomed(w, a, o)
    ensures Doomed(w, b, o)
  {
    hide Goes, Blocks;
    var k :| k in RelocsOf(w, o) && Blocks(a, k);
    BlocksStays(w, a, b, k);
  }

  /** An object that comes to wait has not been demanded before. */
  lemma NewlyWaiting<O>(w: World<O>, a: View<O>, b: View<O>, o: O)
    requires Goes(w, a, b) && o in Waiting(b) - Waiting(a)
    ensures o in a.states && a.states[o] == Loaded
  {
  }

  lemma AccountedMore<O>(w: World<O>, a: View<O>, b: View<O>, c: View<O>)
    requires Goes(w, a, b) && Goes(w, b, c) && Waiting(b) <= Waiting(c)
    requires Accounted(w, a, b) && Accounted(w, b, c)
    ensures Accounted(w, a, c)
  {
    hide Goes, CanPull, Doomed;
    if Excused(w, a, b) {
      var o :| o in Waiting(b) - Waiting(a) && CanPull(a, o) && Doomed(w, b, o);
      DoomedStays(w, b, c, o);
    } else if Excused(w, b, c) {
      var o :| o in Waiting(c) - Waiting(b) && CanPull(b, o) && Doomed(w, c, o);
      ComesToWait(w, a, b, c, o);
    } else {
      forall o | o in Waiting(c) - Waiting(a) ensures CanPull(a, o) {
        if o !in Waiting(b) { ComesToWait(w, a, b, c, o); }
      }
    }
  }

  lemma ComesToWait<O>(w: World<O>, a: View<O>, b: View<O>, c: View<O>, o: O)
    requires Goes(w, a, b) && Goes(w, b, c) && o in Waiting(c) - Waiting(b) && CanPull(b, o)
    ensures o !in Waiting(a) && CanPull(a, o)
  {
    NewlyWaiting(w, b, c, o);
    PullsBack(w, a, b, o);
  }

  // ----- The induction -----

  /** What a lookup comes to: `found` is the address. */
  ghost predicate LookedUp<O>(w: World<O>, a: View<O>, b: View<O>, lbl: string, o: O, found: nat) {
    && Sound(w, b) && Ran(w, a, b, found != 0)
    && (IsOrdinary(lbl, true) && lbl in a.table && found != 0 ==> LinkedTo(b, o, lbl) && found == b.table[lbl].value)
    && (Accounted(w, a, b) || (found == 0 && Blocks(b, lbl) && lbl != CXA_FINALIZE))
    && (lbl == CXA_FINALIZE ==> Settled(b, lbl) && (Settled(a, lbl) ==> b.states == a.states))
  }

  ghost predicate Loads<O>(w: World<O>, a: View<O>, b: View<O>, lbl: string, found: nat)
    requires lbl in a.table
  {
    && Sound(w, b) && Ran(w, a, b, found != 0)
    && Fixed(b, lbl) && b.table[lbl] == a.table[lbl] && (found == 0 || found == b.table[lbl].value)
    && (Settled(a, lbl) ==> b == a && found == b.table[lbl].value)
    && (IsOrdinary(lbl, true) ==> Accounted(w, a, b) || (found == 0 && Blocks(b, lbl) && lbl != CXA_FINALIZE))
  }

  ghost predicate Relocates<O>(w: World<O>, a: View<O>, b: View<O>, o: O, rs: seq<string>, ok: bool) {
    && Sound(w, b) && Ran(w, a, b, ok)
    && (ok ==> LinkedOver(b, o, rs, a.table.Keys))
    && (Accounted(w, a, b) || (!ok && Doomed(w, b, o)))
  }

  lemma {:induction false} LookupRuns<O>(w: World<O>, a: View<O>, lbl: string, o: O)
    requires Sound(w, a) && o in a.states && a.states[o] == Needed
    ensures var (b, found) := LookupDependent(w, a, lbl, Some(o)); LookedUp(w, a, b, lbl, o, found)
    decreases Undemanded(a), if lbl == CXA_ATEXIT then 4 else 2, 0
  {
    hide Goes, Ran, Sound, Accounted, Loads, LookedUp, OwnersOk, DepsDemandedBut, Waiting;
    SpecialNames();
    var v1 := Finalizer(w, a, lbl, Some(o));
    if lbl == CXA_ATEXIT { LookupRuns(w, a, CXA_FINALIZE, o); }
    FinalizerRuns(w, a, v1, lbl, o);
    KeysGo(w, a, v1);
    if lbl == DSO_HANDLE || GOT <= lbl || lbl !in v1.table {
      SkipsLookup(w, a, v1, lbl, o, (LookupDependent(w, a, lbl, Some(o))).1);
    } else {
      var v2 := Promote(v1, lbl);
      PromoteGoes(w, v1, lbl);
      if lbl == FINI_END || lbl == FINI_START {
        FoundSpecial(w, a, lbl, o);
      } else {
        var v3 := Depend(v2, Some(o), v2.table[lbl].owner);
        Recorded(w, v2, lbl, o);
        GoesMore(w, v1, v2, v3);
        LoadRuns(w, v3, lbl);
        var (b, found) := Load(w, v3, lbl);
        LoadedFor(w, a, v1, v3, b, lbl, o, found);
      }
    }
  }

  lemma {:induction false} LoadRuns<O>(w: World<O>, a: View<O>, lbl: string)
    requires lbl in a.table && OwnersOk(w, a) && DepsDemandedBut(a, a.table[lbl].owner) && a.table[lbl].strength != Weak
    ensures var (b, found) := Load(w, a, lbl); Loads(w, a, b, lbl, found)
    decreases Undemanded(a), 1, 0
  {
    hide Goes, Ran, Sound, Accounted, OwnersOk, DepsDemandedBut, Relocates, Loads, Fixed;
    if OwnedByLoaded(a, lbl) {
      var o := a.table[lbl].owner.value;
      var v1 := SetState(a, o, Needed);
      assert o in Undemanded(a) && o !in Undemanded(v1);
      DemandGoes(w, a, o);
      OfferGoes(w, v1, o);
      RelocateRuns(w, Offered(w, v1, o), o, RelocsOf(w, o));
      var (v3, ok) := Relocate(w, Offered(w, v1, o), o, RelocsOf(w, o));
      LoadedOwner(w, a, Offered(w, v1, o), v3, o, lbl, ok);
    } else {
      AlreadyLoaded(w, a, lbl);
    }
  }

  lemma {:induction false} RelocateRuns<O>(w: World<O>, a: View<O>, o: O, rs: seq<string>)
    requires Sound(w, a) && o in a.states && a.states[o] == Needed && forall k | k in rs :: k in RelocsOf(w, o)
    ensures var (b, ok) := Relocate(w, a, o, rs); Relocates(w, a, b, o, rs, ok)
    decreases Undemanded(a), 5, |rs|
  {
    hide Ran, Goes, Sound, RelocsOf, LinkedOver, LookedUp, Accounted, Doomed;
    if rs == [] {
      NothingRun(w, a, o);
    } else {
      LookupRuns(w, a, rs[0], o);
      var (v1, found) := LookupDependent(w, a, rs[0], Some(o));
      LookedUpFacts(w, a, v1, rs[0], o, found);
      if found != 0 {
        RelocateRuns(w, v1, o, rs[1..]);
        var (b, ok) := Relocate(w, v1, o, rs[1..]);
        RelocatesMore(w, a, v1, b, o, rs, found, ok);
      }
    }
  }

  /** What a name needs before it can be looked up in the table. */
  ghost predicate FinalizerRan<O>(w: World<O>, a: View<O>, b: View<O>, lbl: string) {
    && Sound(w, b) && Goes(w, a, b) && Waiting(a) <= Waiting(b) && Accounted(w, a, b)
    && (lbl == CXA_ATEXIT ==> Settled(b, CXA_FINALIZE) && (Settled(a, CXA_FINALIZE) ==> b.states == a.states))
    && (lbl != CXA_ATEXIT ==> b == a)
  }

  lemma FinalizerRuns<O>(w: World<O>, a: View<O>, b: View<O>, lbl: string, o: O)
    requires Sound(w, a) && b == Finalizer(w, a, lbl, Some(o))
    requires lbl == CXA_ATEXIT ==> var (v, found) := LookupDependent(w, a, CXA_FINALIZE, Some(o)); LookedUp(w, a, v,
             CXA_FINALIZE, o, found)
    ensures FinalizerRan(w, a, b, lbl)
  {
    hide Accounted, Sound, Goes, Calm;
    NothingRunning(w, a);
  }

  lemma SpecialNames()
    ensures IsOrdinary(CXA_FINALIZE, true) && IsOrdinary(CXA_ATEXIT, true) && CXA_FINALIZE != CXA_ATEXIT
  {
    assert CXA_ATEXIT[2] != DSO_HANDLE[2];
    assert CXA_FINALIZE[6] != CXA_ATEXIT[6];
    assert GOT[1] != CXA_ATEXIT[1] && GOT[1] != CXA_FINALIZE[1];
  }

  /** The name is a special one, or not in the table. */
  lemma SkipsLookup<O>(w: World<O>, a: View<O>, b: View<O>, lbl: string, o: O, found: nat)
    requires FinalizerRan(w, a, b, lbl) && (!IsOrdinary(lbl, true) || lbl !in b.table)
    ensures LookedUp(w, a, b, lbl, o, found)
  {
    hide Accounted, Sound, IsOrdinary, LinkedTo;
    SpecialNames();
  }

  lemma SameStates<O>(w: World<O>, a: View<O>, b: View<O>)
    requires Goes(w, a, b) && b.states == a.states
    ensures Ran(w, a, b, true) && Accounted(w, a, b)
  {
  }

  lemma FoundSpecial<O>(w: World<O>, a: View<O>, lbl: string, o: O)
    requires lbl in a.table && !IsOrdinary(lbl, true) && Sound(w, Promote(a, lbl)) && Goes(w, a, Promote(a, lbl))
    ensures LookedUp(w, a, Promote(a, lbl), lbl, o, 1)
  {
    hide Goes, Sound, IsOrdinary, LinkedTo;
    SpecialNames();
    SameStates(w, a, Promote(a, lbl));
  }

  /** The owner of the name has been recorded and loaded. */
  lemma LoadedFor<O>(w: World<O>, a: View<O>, v1: View<O>, v3: View<O>, b: View<O>, lbl: string, o: O, found: nat)
    requires FinalizerRan(w, a, v1, lbl) && Goes(w, v1, v3) && v3.states == v1.states && IsOrdinary(lbl, true)
    requires lbl in v1.table && lbl in v3.table && v3.table[lbl].owner == v1.table[lbl].owner
    requires o in v3.deps && (v3.table[lbl].owner.Some? ==> v3.table[lbl].owner.value in v3.deps[o])
    requires Loads(w, v3, b, lbl, found)
    ensures LookedUp(w, a, b, lbl, o, found)
  {
    hide Goes, Sound, IsOrdinary, Accounted, Calm, Stuck;
    SpecialNames();
    SameStates(w, v1, v3);
    RanMore(w, v1, v3, b, found != 0);
    if Accounted(w, v3, b) { AccountedMore(w, v1, v3, b); }
    RecordedStays(w, v3, b, lbl, o);
    GoesMore(w, a, v1, b);
    if Accounted(w, v1, b) { AccountedMore(w, a, v1, b); }
    if lbl == CXA_ATEXIT && found != 0 && Calm(a, b) {
      CalmFinalizer(w, a, v1, b);
    }
  }

  lemma RecordedStays<O>(w: World<O>, a: View<O>, b: View<O>, lbl: string, o: O)
    requires Goes(w, a, b) && lbl in a.table && Fixed(b, lbl) && b.table[lbl] == a.table[lbl]
    requires o in a.deps && (a.table[lbl].owner.Some? ==> a.table[lbl].owner.value in a.deps[o])
    ensures b.table[lbl].value != 0 ==> LinkedTo(b, o, lbl)
    ensures Settled(b, lbl)
  {
  }

  lemma CalmFinalizer<O>(w: World<O>, a: View<O>, v1: View<O>, b: View<O>)
    requires FinalizerRan(w, a, v1, CXA_ATEXIT) && Goes(w, v1, b) && Calm(a, b) && Ran(w, v1, b, true)
    requires CXA_ATEXIT in b.table && b.table[CXA_ATEXIT].value != 0
    ensures Waiting(b) <= Waiting(a)
  {
    hide Goes, Sound, Accounted;
    SettledStays(w, v1, b, CXA_FINALIZE);
    if Stuck(a) {
      StuckStays(w, a, v1);
      StuckStays(w, v1, b);
    }
  }

  /** The owner of the name has been demanded, and tried. */
  lemma LoadedOwner<O>(w: World<O>, a: View<O>, v2: View<O>, v3: View<O>, o: O, lbl: string, ok: bool)
    requires lbl in a.table && OwnedByLoaded(a, lbl) && a.table[lbl].strength != Weak && a.table[lbl].owner == Some(o)
    requires Goes(w, a, SetState(a, o, Needed)) && Goes(w, SetState(a, o, Needed), v2)
             && v2.states == a.states[o := Needed]
    requires Relocates(w, v2, v3, o, RelocsOf(w, o), ok)
    ensures lbl in v3.table
    ensures Loads(w, a, if ok then SetState(v3, o, Resolved) else v3, lbl, if ok then v3.table[lbl].value else 0)
  {
    hide Goes, Sound, Accounted, LinkedOver, RelocsOf;
    var v1 := SetState(a, o, Needed);
    OwnerFixed(w, a, v1, v2, v3, o, lbl);
    GoesMore(w, a, v1, v2);
    GoesMore(w, a, v2, v3);
    if ok {
      OwnerResolved(w, a, v2, v3, o, lbl);
    } else {
      OwnerFailed(w, a, v2, v3, o, lbl);
    }
  }

  lemma OwnerFixed<O>(w: World<O>, a: View<O>, v1: View<O>, v2: View<O>, v3: View<O>, o: O, lbl: string)
    requires lbl in a.table && OwnedByLoaded(a, lbl) && a.table[lbl].strength != Weak && a.table[lbl].owner == Some(o)
    requires v1 == SetState(a, o, Needed) && Goes(w, v1, v2) && Goes(w, v2, v3) && Waiting(v2) <= Waiting(v3)
    requires v2.states == v1.states
    ensures lbl in v3.table && v3.table[lbl] == a.table[lbl] && Fixed(v3, lbl)
    ensures o in v3.states && v3.states[o] == Needed && a.states[o] == Loaded && o in v2.states
            && v2.states[o] == Needed
  {
    GoesMore(w, v1, v2, v3);
    assert Fixed(v1, lbl) && o in Waiting(v2);
    assert o in Waiting(v3);
  }

  lemma PulledBack<O>(w: World<O>, a: View<O>, b: View<O>, c: View<O>)
    requires Goes(w, a, b) && Goes(w, b, c)
    ensures forall o | o in Waiting(c) - Waiting(b) && CanPull(b, o) :: CanPull(a, o)
  {
    forall o | o in Waiting(c) - Waiting(b) && CanPull(b, o) ensures CanPull(a, o) {
      ComesToWait(w, a, b, c, o);
    }
  }

  lemma OwnerResolved<O>(w: World<O>, a: View<O>, v2: View<O>, v3: View<O>, o: O, lbl: string)
    requires Goes(w, a, v2) && Goes(w, a, v3) && Relocates(w, v2, v3, o, RelocsOf(w, o), true)
    requires o in a.states && a.states[o] == Loaded && v2.states == a.states[o := Needed]
    requires o in v3.states && v3.states[o] == Needed && lbl in a.table && lbl in v3.table && Fixed(v3, lbl)
    requires v3.table[lbl] == a.table[lbl] && OwnedByLoaded(a, lbl)
    ensures Loads(w, a, SetState(v3, o, Resolved), lbl, v3.table[lbl].value)
  {
    hide Goes, Doomed, IsOrdinary, RelocsOf, CanPull, Stuck, LinkedOver, OwnedByLoaded, Names;
    var b := SetState(v3, o, Resolved);
    assert Waiting(v2) == Waiting(a) + {o} && Waiting(b) == Waiting(v3) - {o};
    KeysGo(w, a, v2);
    LinkedOverLess(v3, o, RelocsOf(w, o), v2.table.Keys, a.table.Keys);
    ResolvedGoes(w, a, v3, o);
    ResolvedStays(w, v3, o);
    PulledBack(w, a, v2, v3);
    if Settled(a, CXA_FINALIZE) { SettledStays(w, a, v2, CXA_FINALIZE); }
    if Stuck(a) { StuckStays(w, a, v2); }
  }

  lemma LinkedOverLess<O>(v: View<O>, o: O, rs: seq<string>, keys: set<string>, fewer: set<string>)
    requires LinkedOver(v, o, rs, keys) && fewer <= keys
    ensures LinkedOver(v, o, rs, fewer)
  {
  }

  lemma ResolvedStays<O>(w: World<O>, a: View<O>, o: O)
    requires o in a.states && a.states[o] == Needed
    ensures var b := SetState(a, o, Resolved);
            && (forall k :: OwnedByLoaded(b, k) <==> OwnedByLoaded(a, k))
            && (forall k :: Fixed(a, k) ==> Fixed(b, k))
            && (forall x | Doomed(w, a, x) :: Doomed(w, b, x))
            && (Sound(w, a) ==> Sound(w, b))
  {
    var b := SetState(a, o, Resolved);
    forall x | Doomed(w, a, x) ensures Doomed(w, b, x) {
      var k :| k in RelocsOf(w, x) && Blocks(a, k);
      assert Blocks(b, k);
    }
  }

  lemma OwnerFailed<O>(w: World<O>, a: View<O>, v2: View<O>, v3: View<O>, o: O, lbl: string)
    requires Goes(w, a, v2) && Goes(w, a, v3) && Relocates(w, v2, v3, o, RelocsOf(w, o), false)
    requires o in a.states && a.states[o] == Loaded && v2.states == a.states[o := Needed]
    requires o in v3.states && v3.states[o] == Needed && lbl in a.table && lbl in v3.table && Fixed(v3, lbl)
    requires v3.table[lbl] == a.table[lbl] && OwnedByLoaded(a, lbl) && a.table[lbl].owner == Some(o)
    ensures Loads(w, a, v3, lbl, 0)
  {
    hide Goes, Sound, IsOrdinary, Fixed, RelocsOf, Doomed;
    assert Waiting(v2) == Waiting(a) + {o};
    PulledBack(w, a, v2, v3);
    if IsOrdinary(lbl, true) && (lbl == CXA_FINALIZE || !Blocks(v3, lbl)) {
      assert CanPull(a, o) by { assert Pulls(a, lbl, o); }
    }
  }

  lemma AlreadyLoaded<O>(w: World<O>, a: View<O>, lbl: string)
    requires lbl in a.table && !OwnedByLoaded(a, lbl)
    requires OwnersOk(w, a) && DepsDemandedBut(a, a.table[lbl].owner) && a.table[lbl].strength != Weak
    ensures Loads(w, a, a, lbl, a.table[lbl].value)
  {
    NothingRunning(w, a);
  }

  lemma NothingRunning<O>(w: World<O>, a: View<O>)
    ensures Ran(w, a, a, true) && Accounted(w, a, a)
  {
    GoesSelf(w, a);
  }

  lemma NothingRun<O>(w: World<O>, a: View<O>, o: O)
    ensures Ran(w, a, a, true) && Accounted(w, a, a) && LinkedOver(a, o, [], a.table.Keys)
  {
    GoesSelf(w, a);
  }

  lemma LookedUpFacts<O>(w: World<O>, a: View<O>, b: View<O>, lbl: string, o: O, found: nat)
    requires LookedUp(w, a, b, lbl, o, found) && lbl in RelocsOf(w, o)
    requires o in a.states && a.states[o] == Needed
    ensures Sound(w, b) && Ran(w, a, b, found != 0) && o in b.states && b.states[o] == Needed
    ensures Accounted(w, a, b) || (found == 0 && Doomed(w, b, o))
  {
    assert o in Waiting(a);
    assert o in Waiting(b);
  }

  lemma RelocatesMore<O>(w: World<O>, a: View<O>, v1: View<O>, b: View<O>, o: O, rs: seq<string>, found: nat, ok: bool)
    requires rs != [] && found != 0 && LookedUp(w, a, v1, rs[0], o, found) && Relocates(w, v1, b, o, rs[1..], ok)
    ensures Relocates(w, a, b, o, rs, ok)
  {
    hide Sound, Accounted, Doomed, LinkedTo, IsOrdinary, Calm, TableGoes, StatesGo, LinksGo;
    RanMore(w, a, v1, b, ok);
    if Accounted(w, v1, b) { AccountedMore(w, a, v1, b); }
    if ok {
      assert a.table.Keys <= v1.table.Keys by { KeysGo(w, a, v1); }
      forall lbl | lbl in rs && IsOrdinary(lbl, true) && lbl in a.table.Keys ensures LinkedTo(b, o, lbl) {
        if lbl == rs[0] { LinkedStays(v1, b, o, lbl); } else { assert lbl in rs[1..]; }
      }
    }
  }

  // ----- resolveObjs -----

  ghost predicate Tries<O>(w: World<O>, a: View<O>, b: View<O>, o: O, ok: bool) {
    && Sound(w, b) && Goes(w, a, b) && Waiting(a) - {o} <= Waiting(b)
    && (ok && Calm(a, b) ==> Waiting(b) <= Waiting(a) - {o})
    && (ok ==> o !in Waiting(b) && Accounted(w, a, b))
    && (ok && Is(a, o, Needed) ==> Is(b, o, Resolved) && LinkedOver(b, o, RelocsOf(w, o), a.table.Keys))
    && (!ok ==> Is(a, o, Needed) && Is(b, o, Needed))
    && (!Is(a, o, Needed) ==> b == a)
  }

  lemma TryRuns<O>(w: World<O>, a: View<O>, o: O)
    requires Sound(w, a)
    ensures var (b, ok) := Try(w, a, o); Tries(w, a, b, o, ok)
  {
    hide Goes, Sound, Accounted, Relocates, LinkedOver, RelocsOf, Calm;
    if Is(a, o, Needed) {
      var v1 := Offered(w, a, o);
      OfferGoes(w, a, o);
      RelocateRuns(w, v1, o, RelocsOf(w, o));
      var (v2, ok) := Relocate(w, v1, o, RelocsOf(w, o));
      Tried(w, a, v1, v2, o, ok);
    } else {
      NothingRunning(w, a);
    }
  }

  lemma NowLinked<O>(w: World<O>, a: View<O>, b: View<O>, o: O)
    requires Goes(w, a, b) && o in a.states && a.states[o] != Resolved && Is(b, o, Resolved)
    ensures LinkedOver(b, o, RelocsOf(w, o), a.table.Keys)
  {
  }

  lemma Tried<O>(w: World<O>, a: View<O>, v1: View<O>, v2: View<O>, o: O, ok: bool)
    requires Is(a, o, Needed) && Goes(w, a, v1) && v1.states == a.states && Relocates(w, v1, v2, o, RelocsOf(w, o), ok)
    ensures Tries(w, a, if ok then SetState(v2, o, Resolved) else v2, o, ok)
  {
    hide Goes, Sound, RelocsOf, CanPull, Doomed, Stuck, OwnedByLoaded, IsOrdinary, LinkedTo;
    SameStates(w, a, v1);
    RanMore(w, a, v1, v2, ok);
    assert o in Waiting(a) && o in Waiting(v2);
    if ok {
      AccountedMore(w, a, v1, v2);
      KeysGo(w, a, v1);
      ResolvedGoes(w, a, v2, o);
      ResolvedStays(w, v2, o);
      NowLinked(w, a, SetState(v2, o, Resolved), o);
    }
  }

  /** An object that waits and can never be resolved makes the whole call fail. */
  lemma {:induction false} DoomedFails<O>(w: World<O>, a: View<O>, os: seq<O>, o: O)
    requires Sound(w, a) && o in os && Is(a, o, Needed) && Doomed(w, a, o)
    ensures !TryAll(w, a, os).1
    decreases |os|
  {
    hide Goes, Sound, Accounted, Calm, LinkedOver;
    TryRuns(w, a, os[0]);
    var (b, ok) := Try(w, a, os[0]);
    if ok {
      DoomedStays(w, a, b, o);
      if os[0] == o {
        NotDoomed(w, a, b, o);
      } else {
        assert o in Waiting(a) - {os[0]};
        assert o in Waiting(b);
        DoomedFails(w, b, os[1..], o);
      }
    }
  }

  lemma NotDoomed<O>(w: World<O>, a: View<O>, b: View<O>, o: O)
    requires Goes(w, a, b) && Doomed(w, a, o)
    ensures !LinkedOver(b, o, RelocsOf(w, o), a.table.Keys)
  {
    var k :| k in RelocsOf(w, o) && Blocks(a, k);
    assert !LinkedTo(b, o, k);
  }

  /** What makes resolveObjs_ safe, in terms of the symbol table, the states and the order of `objects`: the lookup of
      __cxa_finalize that is ignored does not load anything, or the lookup of __cxa_atexit that comes with it fails, or
      whatever it might load comes after all the objects that are wanted, so that it is tried again. */
  ghost predicate Guard<O>(v: View<O>, os: seq<O>) {
    Settled(v, CXA_FINALIZE) || Stuck(v) || NoneBefore(v, os)
  }

  ghost predicate NoneBefore<O>(v: View<O>, os: seq<O>) {
    forall p, q | 0 <= p < q < |os| && Is(v, os[q], Needed) && Is(v, os[p], Loaded) :: !CanPull(v, os[p])
  }

  /** The first `i` objects have been tried. */
  ghost predicate Cleared<O>(w: World<O>, v: View<O>, a: View<O>, os: seq<O>, i: nat)
    requires i <= |os|
  {
    && Sound(w, a) && Goes(w, v, a) && (forall j | 0 <= j < i :: os[j] !in Waiting(a))
    && (Settled(a, CXA_FINALIZE) || Stuck(v) || Waiting(a) <= Waiting(v))
  }

  lemma ClearedNext<O>(w: World<O>, v: View<O>, a: View<O>, b: View<O>, os: seq<O>, i: nat)
    requires i < |os| && Cleared(w, v, a, os, i) && Guard(v, os) && Tries(w, a, b, os[i], true)
    requires (Is(a, os[i], Needed) && !Calm(a, b)) ==> Pulled(a, b)
    ensures Cleared(w, v, b, os, i + 1)
  {
    hide Goes, Sound, Stuck, OwnedByLoaded, CanPull, LinkedOver, Accounted;
    GoesMore(w, v, a, b);
    if Stuck(v) { StuckStays(w, v, a); }
    if Settled(v, CXA_FINALIZE) { SettledStays(w, v, a, CXA_FINALIZE); }
    if Settled(a, CXA_FINALIZE) { SettledStays(w, a, b, CXA_FINALIZE); }
    if Is(a, os[i], Needed) && !Calm(a, b) {
      forall o | o in Waiting(b) - Waiting(a) ensures o !in os[..i + 1] {
        PulledLater(w, v, a, b, os, i, o);
      }
      forall j | 0 <= j < i + 1 ensures os[j] in os[..i + 1] {
        assert os[..i + 1][j] == os[j];
      }
      assert forall j | 0 <= j < i :: os[j] !in Waiting(b) - Waiting(a);
    }
  }

  lemma PulledLater<O>(w: World<O>, v: View<O>, a: View<O>, b: View<O>, os: seq<O>, i: nat, o: O)
    requires i < |os| && Goes(w, v, a) && Goes(w, a, b) && NoneBefore(v, os) && os[i] in Waiting(v)
    requires o in Waiting(b) - Waiting(a) && CanPull(a, o)
    ensures CanPull(v, o) && o !in os[..i + 1]
  {
    hide CanPull, Goes;
    ComesToWait(w, v, a, b, o);
    GoesMore(w, v, a, b);
    NewlyWaiting(w, v, b, o);
  }

  lemma {:induction false} TryAllClears<O>(w: World<O>, v: View<O>, a: View<O>, os: seq<O>, i: nat)
    requires i <= |os| && Cleared(w, v, a, os, i) && Guard(v, os) && forall o | o in v.states :: o in os
    ensures var (b, ok) := TryAll(w, a, os[i..]); ok ==> Cleared(w, v, b, os, |os|)
    decreases |os| - i
  {
    hide Cleared, Guard, Tries, Calm, Accounted;
    if i < |os| {
      assert Sound(w, a) by { CheckedFacts(w, v, a, os, i); }
      TryRuns(w, a, os[i]);
      var (b, ok) := Try(w, a, os[i]);
      assert os[i..][0] == os[i] && os[i..][1..] == os[i + 1..];
      if ok && Is(a, os[i], Needed) && !Calm(a, b) && !Pulled(a, b) {
        ExcusedFails(w, v, a, b, os, i);
      } else if ok {
        ClearedNext(w, v, a, b, os, i);
        TryAllClears(w, v, b, os, i + 1);
      }
    }
  }

  lemma CheckedFacts<O>(w: World<O>, v: View<O>, a: View<O>, os: seq<O>, i: nat)
    requires i <= |os| && Cleared(w, v, a, os, i)
    ensures Sound(w, a)
  {
  }

  lemma ExcusedFails<O>(w: World<O>, v: View<O>, a: View<O>, b: View<O>, os: seq<O>, i: nat)
    requires i < |os| && Cleared(w, v, a, os, i) && Guard(v, os) && Tries(w, a, b, os[i], true)
    requires Is(a, os[i], Needed) && !Calm(a, b) && !Pulled(a, b) && forall o | o in v.states :: o in os
    ensures !TryAll(w, b, os[i + 1..]).1
  {
    hide Goes, Sound, Stuck, OwnedByLoaded, CanPull, Doomed, LinkedOver;
    if Settled(v, CXA_FINALIZE) { SettledStays(w, v, a, CXA_FINALIZE); }
    if Stuck(v) { StuckStays(w, v, a); }
    var o :| o in Waiting(b) - Waiting(a) && CanPull(a, o) && Doomed(w, b, o);
    PulledLater(w, v, a, b, os, i, o);
    KeysGo(w, v, a);
    KeysGo(w, a, b);
    assert o in os && os == os[..i + 1] + os[i + 1..];
    DoomedFails(w, b, os[i + 1..], o);
  }

  /** The first loop of resolveObjs_ keeps the linker sound; with the guard, its success leaves nothing waiting. */
  lemma GuardSuffices<O>(w: World<O>, v: View<O>, os: seq<O>)
    requires Sound(w, v) && forall o | o in v.states :: o in os
    ensures Guard(v, os) ==> var (b, ok) := TryAll(w, v, os); ok ==> Waiting(b) == {}
  {
    if Guard(v, os) {
      GoesSelf(w, v);
      assert os[0..] == os;
      TryAllClears(w, v, v, os, 0);
      var (b, ok) := TryAll(w, v, os);
      if ok {
        KeysGo(w, v, b);
        assert Waiting(b) <= (set o | o in os);
        assert Waiting(b) !! (set o | o in os);
      }
    }
  }

  lemma {:induction false} TryAllRuns<O>(w: World<O>, a: View<O>, os: seq<O>)
    requires Sound(w, a)
    ensures var (b, ok) := TryAll(w, a, os);
            Sound(w, b) && Goes(w, a, b) && (ok ==> forall o | o in os && Is(a, o, Needed) :: Is(b, o, Resolved))
    decreases |os|
  {
    hide Goes, Sound, LinkedOver, Calm, Accounted;
    GoesSelf(w, a);
    if os != [] {
      TryRuns(w, a, os[0]);
      var (v1, ok) := Try(w, a, os[0]);
      if ok {
        TryAllRuns(w, v1, os[1..]);
        var (b, ok1) := TryAll(w, v1, os[1..]);
        GoesMore(w, a, v1, b);
        forall o | ok1 && o in os && Is(a, o, Needed) ensures Is(b, o, Resolved) {
          TriedOne(w, a, v1, b, os, o);
        }
      }
    }
  }

  lemma TriedOne<O>(w: World<O>, a: View<O>, v1: View<O>, b: View<O>, os: seq<O>, o: O)
    requires os != [] && Tries(w, a, v1, os[0], true) && Goes(w, v1, b) && o in os && Is(a, o, Needed)
    requires forall x | x in os[1..] && Is(v1, x, Needed) :: Is(b, x, Resolved)
    ensures Is(b, o, Resolved)
  {
    hide TableGoes, LinksGo, DepsGo, Sound, Accounted, LinkedOver, Calm;
    if o != os[0] {
      assert o in os[1..];
      assert o in Waiting(a) - {os[0]};
      assert o in Waiting(v1);
    }
  }

  ghost predicate Initialised<O>(a: View<O>, b: View<O>) {
    && b.table == a.table && b.deps == a.deps && b.states.Keys == a.states.Keys
    && (forall o | o in a.states :: b.states[o] == a.states[o] || (a.states[o] == Resolved && b.states[o] == Ready))
  }

  lemma {:induction false} InitialiseRuns<O>(good: set<O>, a: View<O>, os: seq<O>)
    ensures var (b, ok) := Initialise(good, a, os);
            && Initialised(a, b)
            && (ok ==> forall o | o in os :: !Is(b, o, Resolved))
            && (ok <==> forall o | o in os && Is(a, o, Resolved) :: o in good)
    decreases |os|
  {
    if os != [] {
      assert forall o | o in os :: o == os[0] || o in os[1..];
      InitialiseRuns(good, if Is(a, os[0], Resolved) then SetState(a, os[0], Ready) else a, os[1..]);
    }
  }

  /** When resolveObjs_ succeeds, every object that was wanted is ready, with all that its relocations refer to linked
      to it; with the guard, nothing is left half linked,
          and every recorded dependency is ready or has been unloaded. */
  lemma ResolveAllRuns<O>(w: World<O>, good: set<O>, v: View<O>, os: seq<O>)
    requires Sound(w, v) && forall o | o in v.states :: o in os
    ensures var (b, ok) := ResolveAll(w, good, v, os);
            && Sound(w, b)
            && (ok ==> forall o | o in v.states && v.states[o] == Needed :: Is(b, o, Ready))
            && (ok ==> forall o | o in v.states && (v.states[o] == Needed || v.states[o] == Loaded)
                && Is(b, o, Ready) ::
                         LinkedOver(b, o, RelocsOf(w, o), v.table.Keys))
            && (ok && Guard(v, os) ==> Complete(b))
  {
    hide Guard, RelocsOf, IsOrdinary;
    TryAllRuns(w, v, os);
    GuardSuffices(w, v, os);
    var (u, tried) := TryAll(w, v, os);
    if tried {
      InitialiseRuns(good, u, os);
      var (b, ok) := Initialise(good, u, os);
      InitialisedStays(w, v, u, b);
      if ok && Guard(v, os) { Completed(w, v, u, b, os); }
      assert forall o | ok && o in v.states && v.states[o] == Needed :: Is(u, o, Resolved) && !Is(b, o, Resolved);
    }
  }

  /** Nothing is half linked, and every recorded dependency is ready or has been unloaded. */
  ghost predicate Complete<O>(v: View<O>) {
    && (forall o | o in v.states :: v.states[o] != Needed && v.states[o] != Resolved)
    && (forall o, d | o in v.deps && d in v.deps[o] && d in v.states :: v.states[d] == Ready || v.states[d] == Unloaded)
  }

  lemma InitialisedStays<O>(w: World<O>, v: View<O>, a: View<O>, b: View<O>)
    requires Sound(w, a) && Goes(w, v, a) && Initialised(a, b)
    ensures Sound(w, b)
    ensures forall o | o in v.states && (v.states[o] == Needed || v.states[o] == Loaded) && Is(b, o, Ready) ::
              LinkedOver(b, o, RelocsOf(w, o), v.table.Keys)
  {
    hide RelocsOf, IsOrdinary;
    assert forall k | Fixed(a, k) :: Fixed(b, k);
    forall o | o in v.states && (v.states[o] == Needed || v.states[o] == Loaded) && Is(b, o, Ready)
      ensures LinkedOver(b, o, RelocsOf(w, o), v.table.Keys)
    {
      assert LinkedOver(a, o, RelocsOf(w, o), v.table.Keys);
    }
  }

  lemma Completed<O>(w: World<O>, v: View<O>, u: View<O>, b: View<O>, os: seq<O>)
    requires Sound(w, b) && Goes(w, v, u) && Initialised(u, b) && Waiting(u) == {}
    requires (forall o | o in v.states :: o in os) && forall o | o in os :: !Is(b, o, Resolved)
    ensures Complete(b)
  {
    hide TableGoes, DepsGo, LinksGo, OwnersOk;
    forall o | o in b.states ensures b.states[o] != Needed && b.states[o] != Resolved {
      assert o in os && o !in Waiting(u);
    }
  }

  /** A lookup that does not come from an object. */
  lemma LookupAlone<O>(w: World<O>, a: View<O>, lbl: string)
    requires Sound(w, a)
    ensures Sound(w, LookupDependent(w, a, lbl, None).0)
  {
    hide Goes, Accounted, IsOrdinary;
    if lbl in a.table {
      PromoteGoes(w, a, lbl);
      LoadRuns(w, Promote(a, lbl), lbl);
    }
  }

  /** What a lookup by `d` does to the table and the dependencies before it loads anything. */
  ghost function Entered<O>(u: View<O>, lbl: string, d: O): View<O>
    requires lbl in u.table
  {
    Depend(Promote(u, lbl), Some(d), Promote(u, lbl).table[lbl].owner)
  }

  lemma LookupIs<O>(w: World<O>, u: View<O>, lbl: string, d: O)
    requires IsOrdinary(lbl, true)
    ensures var v1 := Finalizer(w, u, lbl, Some(d));
            LookupDependent(w, u, lbl, Some(d))
            == if lbl in v1.table then Load(w, Entered(v1, lbl, d), lbl)
                else (v1, if lbl in w.dlsym || lbl == DYNAMIC then 1 else 0)
    ensures lbl != CXA_ATEXIT ==> Finalizer(w, u, lbl, Some(d)) == u
  {
  }

  /** A lookup of __cxa_atexit by an object makes the owner of __cxa_finalize a dependency of that object. */
  lemma FinalizerRecorded<O>(w: World<O>, a: View<O>, o: O)
    requires Sound(w, a) && Is(a, o, Needed) && CXA_FINALIZE in a.table && a.table[CXA_FINALIZE].owner.Some?
    ensures var b := Finalizer(w, a, CXA_ATEXIT, Some(o)); o in b.deps && a.table[CXA_FINALIZE].owner.value in b.deps[o]
  {
    hide Goes, Accounted, OwnersOk, DepsDemandedBut, IsOrdinary;
    SpecialNames();
    LookupIs(w, a, CXA_FINALIZE, o);
    PromoteGoes(w, a, CXA_FINALIZE);
    var v2 := Promote(a, CXA_FINALIZE);
    Recorded(w, v2, CXA_FINALIZE, o);
    LoadRuns(w, Entered(a, CXA_FINALIZE, o), CXA_FINALIZE);
    DepsKept(w, Entered(a, CXA_FINALIZE, o), Finalizer(w, a, CXA_ATEXIT, Some(o)), o,
        a.table[CXA_FINALIZE].owner.value);
  }

  lemma DepsKept<O>(w: World<O>, a: View<O>, b: View<O>, o: O, d: O)
    requires Goes(w, a, b) && o in a.deps && d in a.deps[o]
    ensures o in b.deps && d in b.deps[o]
  {
  }
}
