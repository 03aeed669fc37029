/** Lazy, on-demand linking of object code (rts/Linker.c), over the collected pool of CheckUnload. */
module Linker {
  import opened CheckUnload
  import opened LinkedLists
  import opened Linking
  import opened Lookups
  import opened ObjectCodes
  import opened Options
  import opened Reachability
  import opened SectionTable
  import opened Stranding

  class OnDemandLinker {
    const pool: ObjectPool
    var symhash: map<string, SymInfo<ObjectCode>>
    const dlsym: string -> bool              // does the dynamic linker know the name?
    const initialisersSucceed: ObjectCode -> bool

    constructor (dlsym: string -> bool, initialisersSucceed: ObjectCode -> bool)
      ensures Valid() && !pool.collecting && pool.reg == {} && pool.objs == [] && symhash == map[]
      ensures this.dlsym == dlsym && this.initialisersSucceed == initialisersSucceed
      ensures fresh(pool) && fresh(pool.table) && fresh(pool.table.indices)
    {
      this.dlsym, this.initialisersSucceed := dlsym, initialisersSucceed;
      pool := new ObjectPool();
      symhash := map[];
      new;
    }

    // ----- Invariants -----

    /** Every owner in the symbol table is in the root list, not unloaded, and defines the symbol. */
    ghost predicate SymbolsOwned()
      reads this`symhash, pool`loaded, pool`reg, pool.reg`status, pool.reg`symbols
    {
      SymbolsOwnedOr(null)
    }

    /** The same while `extra`, which is being loaded, may already own some of its symbols. */
    ghost predicate SymbolsOwnedOr(extra: ObjectCode?)
      reads this`symhash, pool`loaded, pool`reg, pool.reg`status, pool.reg`symbols
      reads if extra == null then {} else {extra}
    {
      forall k | k in symhash && symhash[k].owner.Some? ::
        Owns(symhash[k].owner.value, k) || (symhash[k].owner.value == extra && k in Names(extra.symbols))
    }

    ghost predicate Owns(o: ObjectCode, k: string)
      reads pool`loaded, pool`reg, pool.reg`status, pool.reg`symbols
    {
      o in pool.reg && o in Elems(pool.loaded) && o.status != Unloaded && k in Names(o.symbols)
    }

    /** Whatever a recorded dependency names has been demanded. */
    ghost predicate DepsDemanded()
      reads pool`reg, pool.reg`status, pool.reg`dependencies
    {
      forall o, d | o in pool.reg && d in o.dependencies && d in pool.reg :: d.status != Loaded
    }

    ghost predicate Valid()
      reads this, pool, pool.reg, pool.table, pool.table.indices
    {
      pool.Valid() && SymbolsOwned() && DepsDemanded()
    }

    ghost function States(): map<ObjectCode, Status>
      reads pool`reg, pool.reg`status
    {
      map o | o in pool.reg :: o.status
    }

    ghost function Deps(): map<ObjectCode, seq<ObjectCode>>
      reads pool`reg, pool.reg`dependencies
    {
      map o | o in pool.reg :: o.dependencies
    }

    /** The state of the linker, as a value. */
    ghost function Now(): View<ObjectCode>
      reads this`symhash, pool`reg, pool.reg`status, pool.reg`dependencies
    {
      View(symhash, States(), Deps())
    }

    ghost function Objects(): World<ObjectCode>
      reads pool`reg, pool.reg`symbols
    {
      World(map o | o in pool.reg :: o.symbols, map o | o in pool.reg :: o.relocations, iset s | dlsym(s))
    }

    // ----- Loading, unloading, collecting -----

    ghost predicate HasLoaded(path: string)
      reads pool`reg, pool.reg`status
    {
      exists o :: o in pool.reg && o.fileName == path && o.status != Unloaded
    }

    ghost function StatesWith(oc: ObjectCode): map<ObjectCode, Status>
      reads pool`reg, pool.reg`status, oc`status
    {
      States()[oc := oc.status]
    }

    /** isAlreadyLoaded */
    method IsAlreadyLoaded(path: string) returns (r: bool)
      requires Valid() && !pool.collecting
      ensures r == HasLoaded(path)
    {
      hide ObjectPool.Valid, Elems, SymbolsOwned, DepsDemanded;
      pool.ObjectsStart();
      var o := pool.objects;
      ghost var i := 0;
      while o != null
        invariant 0 <= i <= |pool.objs| && Opt(o) == Head(pool.objs[i..])
        invariant forall p | p in Elems(pool.objs[..i]) && p in pool.reg :: p.fileName != path || p.status == Unloaded
        decreases |pool.objs| - i
      {
        pool.ObjectsAt(i);
        if o.fileName == path && o.status != Unloaded {
          return true;
        }
        o := o.next;
        i := i + 1;
      }
      assert pool.objs[..i] == pool.objs;
      return false;
    }

    /** loadObj_ for one object file. `preloaded` is what preloadObjectFile made of the file, NULL if it could not;
        `failsAt` is the number of symbols loadOc gets through before it fails, None if it succeeds. */
    method LoadObj(path: string, preloaded: ObjectCode?, failsAt: Option<nat>) returns (r: bool)
      requires Valid() && !pool.collecting
      requires preloaded != null ==>
                 && preloaded !in pool.reg && preloaded.fileName == path
                 && preloaded.status != Unloaded && preloaded.prev == null
                 && preloaded.mark == pool.markBit && preloaded.dependencies == []
                 && Placeable(pool.table.Entries(), preloaded)
      modifies this`symhash, pool, pool.reg`next, pool.reg`prev, pool.table, pool.table.indices
      modifies (Preloaded(preloaded))`next, (Preloaded(preloaded))`prev, (Preloaded(preloaded))`nextLoaded,
               (Preloaded(preloaded))`symbols
      ensures Valid() && !pool.collecting
      ensures pool.table.indices == old(pool.table.indices) || fresh(pool.table.indices)
      ensures r <==> old(HasLoaded(path)) || (preloaded != null && failsAt.None?)
      ensures r && preloaded != null ==> preloaded.symbols == old(preloaded.symbols)
      ensures old(HasLoaded(path)) || preloaded == null ==>
                pool.reg == old(pool.reg) && pool.loaded == old(pool.loaded) && pool.objs == old(pool.objs)
                    && symhash == old(symhash)
      ensures !old(HasLoaded(path)) && preloaded != null ==>
                && pool.reg == (if r then old(pool.reg) + {preloaded} else old(pool.reg))
                && pool.loaded == (if r then [preloaded] + old(pool.loaded) else old(pool.loaded))
                && pool.objs == (if r then [preloaded] + old(pool.objs) else old(pool.objs))
                && (r ==> symhash == OfferAll(old(symhash), old(StatesWith(preloaded)), preloaded, preloaded.symbols))
    {
      hide ObjectPool.Valid, Placeable, SymbolsOwned, DepsDemanded, OfferAll;
      var already := IsAlreadyLoaded(path);
      if already {
        return true;
      }
      if preloaded == null {
        return false;
      }
      r := LoadOc(preloaded, failsAt);
    }

    /** The part of loadObj_ after the file has been read. */
    method LoadOc(oc: ObjectCode, failsAt: Option<nat>) returns (r: bool)
      requires Valid() && !pool.collecting && oc !in pool.reg && oc.status != Unloaded
      requires oc.prev == null && oc.mark == pool.markBit && oc.dependencies == []
      requires Placeable(pool.table.Entries(), oc)
      modifies this`symhash, pool, pool.reg`next, pool.reg`prev, pool.table, pool.table.indices
      modifies oc`next, oc`prev, oc`nextLoaded, oc`symbols
      ensures Valid() && !pool.collecting
      ensures pool.table.indices == old(pool.table.indices) || fresh(pool.table.indices)
      ensures r == failsAt.None?
      ensures pool.reg == if r then old(pool.reg) + {oc} else old(pool.reg)
      ensures pool.loaded == if r then [oc] + old(pool.loaded) else old(pool.loaded)
      ensures pool.objs == if r then [oc] + old(pool.objs) else old(pool.objs)
      ensures r ==> oc.symbols == old(oc.symbols)
                    && symhash == OfferAll(old(symhash), old(StatesWith(oc)), oc, oc.symbols)
    {
      hide ObjectPool.Valid, Placeable, Names, OfferAll;
      InsertSymbols(oc, if failsAt.Some? then failsAt.value else |oc.symbols|);
      assert oc.symbols[..|oc.symbols|] == oc.symbols;
      if failsAt.Some? {
        RemoveFromTable(oc);
        oc.symbols := [];
        return false;
      }
      Admit(oc);
      return true;
    }

    /** The new object, whose symbols have been entered, is registered. */
    method Admit(oc: ObjectCode)
      requires pool.Valid() && SymbolsOwnedOr(oc) && DepsDemanded() && !pool.collecting
      requires oc !in pool.reg && oc.status != Unloaded
      requires oc.prev == null && oc.mark == pool.markBit && oc.dependencies == []
      requires Placeable(pool.table.Entries(), oc)
      modifies pool, pool.reg`next, pool.reg`prev, pool.table, pool.table.indices
      modifies oc`next, oc`prev, oc`nextLoaded
      ensures Valid() && !pool.collecting
      ensures pool.table.indices == old(pool.table.indices) || fresh(pool.table.indices)
      ensures pool.reg == old(pool.reg) + {oc} && pool.loaded == [oc] + old(pool.loaded)
      ensures pool.objs == [oc] + old(pool.objs)
    {
      hide ObjectPool.Valid, Placeable, Names;
      pool.DepsStay();
      ElemsCons(oc, pool.loaded);
      pool.Register(oc);
    }

    /** loadOc enters the symbols of the new object, up to the one it fails on. */
    method InsertSymbols(oc: ObjectCode, n: nat)
      requires SymbolsOwned() && oc !in pool.reg
      modifies this`symhash
      ensures SymbolsOwnedOr(oc)
      ensures symhash == OfferAll(old(symhash), StatesWith(oc), oc,
              oc.symbols[..if n < |oc.symbols| then n else |oc.symbols|])
    {
      hide Owns, Elems, OfferAll, Offer;
      OfferNone(symhash, StatesWith(oc), oc, oc.symbols);
      var i := 0;
      while i < |oc.symbols| && i < n
        invariant 0 <= i <= |oc.symbols| && (i <= n || i == 0) && SymbolsOwnedOr(oc)
        invariant symhash == OfferAll(old(symhash), StatesWith(oc), oc, oc.symbols[..i])
      {
        OfferOneMore(old(symhash), StatesWith(oc), oc, oc.symbols, i);
        OfferSymbol(oc, i, oc);
        i := i + 1;
      }
    }

    /** The loop of removeOcSymbols. */
    method RemoveFromTable(oc: ObjectCode)
      modifies this`symhash
      ensures symhash == map k | k in old(symhash)
                                 && !(k in Names(oc.symbols) && old(symhash)[k].owner == Some(oc)) :: old(symhash)[k]
    {
      var i := 0;
      while i < |oc.symbols|
        invariant 0 <= i <= |oc.symbols|
        invariant symhash == map k | k in old(symhash)
                                     && !(k in Names(oc.symbols[..i]) && old(symhash)[k].owner == Some(oc)) ::
                                         old(symhash)[k]
      {
        NamesSnoc(oc.symbols, i);
        var name := oc.symbols[i].name;
        if name in symhash && symhash[name].owner == Some(oc) {
          symhash := symhash - {name};
        }
        i := i + 1;
      }
      assert oc.symbols[..i] == oc.symbols;
    }

    /** What unloadObj_ and purgeObj do to one object: it is unloaded and its symbols are gone. */
    method Retract(oc: ObjectCode)
      requires Valid() && oc in pool.reg
      modifies this`symhash, oc`status, oc`symbols
      ensures Valid() && oc.status == Unloaded && oc.symbols == []
              && symhash == Disowned(old(symhash), [oc], oc.fileName)
    {
      hide ObjectPool.Valid, Elems, Names;
      pool.SetStatus(oc, Unloaded);
      RemoveFromTable(oc);
      pool.ClearSymbols(oc);
    }

    /** The body of the loop of unloadObj_ for an object of the file, at the point where `kept` has been passed. */
    method UnloadOne(prev: ObjectCode?, oc: ObjectCode, ghost kept: seq<ObjectCode>, ghost rest: seq<ObjectCode>,
                     justPurge: bool, ghost seen: seq<ObjectCode>)
      requires Valid() && pool.loaded == kept + ([oc] + rest) && oc in pool.reg
      requires !justPurge ==> Opt(prev) == Last(kept)
      requires AllRetracted(seen, oc.fileName)
      modifies this`symhash, pool`loadedObjects, pool`loaded, pool`nUnloadedObjects
      modifies oc`status, oc`symbols, pool.reg`nextLoaded
      ensures Valid() && AllRetracted(seen + [oc], oc.fileName) && oc.nextLoaded == old(oc.nextLoaded)
      ensures pool.loaded == if justPurge then old(pool.loaded) else kept + rest
      ensures symhash == Disowned(old(symhash), [oc], oc.fileName)
    {
      hide ObjectPool.Valid, DepsDemanded, Names, Elems, Disowned;
      Retract(oc);
      if !justPurge {
        var at := |kept|;
        assert pool.loaded[..at] == kept && pool.loaded[at + 1..] == rest;
        pool.ElemsDrop(at);
        pool.Unroot(prev, oc, at);
      }
    }

    /** unloadObj_, and purgeObj when `justPurge` is set. */
    method UnloadObj(path: string, justPurge: bool) returns (unloadedAny: bool)
      requires Valid() && !pool.collecting
      modifies this`symhash, pool`loadedObjects, pool`loaded, pool`nUnloadedObjects
      modifies OfFile(pool.loaded, path)`status, OfFile(pool.loaded, path)`symbols, pool.reg`nextLoaded
      ensures Valid()
      ensures pool.loaded == Kept(old(pool.loaded), path, justPurge)
      ensures unloadedAny <==> HasFile(old(pool.loaded), path)
      ensures AllRetracted(old(pool.loaded), path)
      ensures symhash == Disowned(old(symhash), old(pool.loaded), path)
      ensures forall o | o in old(pool.loaded) ::
                && (o in pool.loaded <==> justPurge || o.fileName != path)
                && (o.fileName == path ==> unloadedAny && o.status == Unloaded && o.symbols == [])
      ensures forall k | k in old(symhash) ::
                var owner := old(symhash)[k].owner;
                if owner.Some? && owner.value in old(pool.loaded) && owner.value.fileName == path then k !in symhash
                else k in symhash && symhash[k] == old(symhash)[k]
    {
      hide Valid, Kept, HasFile, AllRetracted, Disowned;
      ghost var t, s := symhash, pool.loaded;
      unloadedAny := UnloadAll(path, justPurge);
      UnloadMeans(t, s, path, justPurge);
    }

    lemma UnloadMeans(t: map<string, SymInfo<ObjectCode>>, s: seq<ObjectCode>, path: string, justPurge: bool)
      ensures forall o | o in s ::
                && (o in Kept(s, path, justPurge) <==> justPurge || o.fileName != path)
                && (o.fileName == path ==> HasFile(s, path))
                && (o.fileName == path && AllRetracted(s, path) ==> o.status == Unloaded && o.symbols == [])
      ensures forall k | k in t ::
                var owner := t[k].owner;
                if owner.Some? && owner.value in s && owner.value.fileName == path then k !in Disowned(t, s, path)
                else k in Disowned(t, s, path) && Disowned(t, s, path)[k] == t[k]
    {
      forall o | o in s ensures o in Kept(s, path, justPurge) <==> justPurge || o.fileName != path {
        OthersHas(s, path, o);
      }
    }

    /** The loop over the root list. */
    method UnloadAll(path: string, justPurge: bool) returns (unloadedAny: bool)
      requires Valid() && !pool.collecting
      modifies this`symhash, pool`loadedObjects, pool`loaded, pool`nUnloadedObjects
      modifies OfFile(pool.loaded, path)`status, OfFile(pool.loaded, path)`symbols, pool.reg`nextLoaded
      ensures Valid()
      ensures pool.loaded == Kept(old(pool.loaded), path, justPurge)
      ensures unloadedAny <==> HasFile(old(pool.loaded), path)
      ensures AllRetracted(old(pool.loaded), path)
      ensures symhash == Disowned(old(symhash), old(pool.loaded), path)
    {
      hide ObjectPool.Valid, Elems, SymbolsOwned, DepsDemanded, Kept, HasFile, AllRetracted, Disowned;
      DisownedNone(symhash, path);
      NothingUnloaded(path, justPurge);
      unloadedAny := false;
      var prev: ObjectCode? := null;
      var oc := pool.loadedObjects;
      ghost var seen: seq<ObjectCode>, kept: seq<ObjectCode>, rest := [], [], pool.loaded;
      pool.RootAt(0);
      while oc != null
        invariant Opt(oc) == Head(rest) && seen + rest == old(pool.loaded)
        invariant Valid() && pool.loaded == kept + rest && kept == Kept(seen, path, justPurge)
        invariant !justPurge ==> Opt(prev) == Last(kept)
        invariant unloadedAny <==> HasFile(seen, path)
        invariant AllRetracted(seen, path) && symhash == Disowned(old(symhash), seen, path)
        decreases rest
      {
        var here: ObjectCode := oc;
        RootNext(kept, rest);
        DisownedSnoc(old(symhash), seen, here, path);
        if here.fileName == path {
          unloadedAny := true;
        }
        Passed(seen, rest);
        prev, kept := Pass(prev, here, path, justPurge, kept, rest[1..], seen);
        seen, rest := seen + [here], rest[1..];
        oc := here.nextLoaded;
      }
      assert kept + rest == kept && seen + rest == seen;
    }

    /** The first of what is left joins what has been seen. */
    lemma Passed(seen: seq<ObjectCode>, rest: seq<ObjectCode>)
      requires rest != []
      ensures rest[0] in seen + rest && (seen + [rest[0]]) + rest[1..] == seen + rest
    {
    }

    /** The body of that loop: an object of the file is unloaded, any other becomes the predecessor. */
    method Pass(prev: ObjectCode?, oc: ObjectCode, path: string, justPurge: bool,
                ghost kept: seq<ObjectCode>, ghost rest: seq<ObjectCode>, ghost seen: seq<ObjectCode>)
      returns (prev': ObjectCode?, ghost kept': seq<ObjectCode>)
      requires Valid() && pool.loaded == kept + ([oc] + rest) && oc in pool.reg && kept == Kept(seen, path, justPurge)
      requires AllRetracted(seen, path) && (!justPurge ==> Opt(prev) == Last(kept))
      modifies this`symhash, pool`loadedObjects, pool`loaded, pool`nUnloadedObjects
      modifies OfFile([oc], path)`status, OfFile([oc], path)`symbols, pool.reg`nextLoaded
      ensures Valid() && pool.loaded == kept' + rest && oc.nextLoaded == old(oc.nextLoaded)
      ensures kept' == Kept(seen + [oc], path, justPurge) && (!justPurge ==> Opt(prev') == Last(kept'))
      ensures HasFile(seen + [oc], path) <==> HasFile(seen, path) || oc.fileName == path
      ensures AllRetracted(seen + [oc], path)
      ensures symhash == if oc.fileName == path then Disowned(old(symhash), [oc], path) else old(symhash)
    {
      hide ObjectPool.Valid, Elems, SymbolsOwned, DepsDemanded, Kept, HasFile, AllRetracted, Disowned;
      FilesSnoc(seen, oc, path, justPurge);
      prev', kept' := prev, kept;
      if oc.fileName == path {
        UnloadOne(prev, oc, kept, rest, justPurge, seen);
        if justPurge { kept' := kept + [oc]; }
      } else {
        AllRetractedSkip(seen, oc, path);
        prev', kept' := oc, kept + [oc];
      }
    }

    lemma NothingUnloaded(path: string, justPurge: bool)
      ensures Kept([], path, justPurge) == [] && !HasFile([], path) && AllRetracted([], path)
    {
    }

    lemma RootNext(kept: seq<ObjectCode>, rest: seq<ObjectCode>)
      requires pool.Valid() && pool.loaded == kept + rest && rest != []
      ensures rest[0] in pool.reg && Opt(rest[0].nextLoaded) == Head(rest[1..])
      ensures rest == [rest[0]] + rest[1..]
      ensures kept + rest == kept + [rest[0]] + rest[1..]
    {
      hide ObjectPool.Valid;
      assert pool.loaded[|kept|] == rest[0] && pool.loaded[|kept| + 1..] == rest[1..];
      pool.RootAt(|kept|);
    }

    /** The objects of the file among `s` have been unloaded. */
    ghost predicate AllRetracted(s: seq<ObjectCode>, path: string)
      reads s`status, s`symbols
    {
      forall o | o in s && o.fileName == path :: o.status == Unloaded && o.symbols == []
    }

    lemma AllRetractedSkip(s: seq<ObjectCode>, oc: ObjectCode, path: string)
      requires AllRetracted(s, path) && oc.fileName != path
      ensures AllRetracted(s + [oc], path)
    {
    }

    /** A major collection: every address in `reached` is a static closure the collector found. */
    method MajorGC(reached: seq<nat>)
      requires Valid() && !pool.collecting
      modifies pool, pool.reg`next, pool.reg`prev, pool.reg`mark, pool.table, pool.table.indices
      ensures Valid() && !pool.collecting && pool.loaded == old(pool.loaded)
      ensures pool.reg == ReachableIn(old(pool.Edges()), Found(old(pool.reg), reached) + Elems(pool.loaded),
              old(pool.reg))
    {
      hide ObjectPool.Valid, Elems, ReachableIn, Found, Names;
      pool.PrepareUnloadCheck();
      MarkReached(reached);
      pool.CheckUnload();
      Shrink();
    }

    /** What the linker's invariants say survives a collection, which only frees objects outside the root list. */
    twostate lemma Shrink()
      requires pool.Valid() && old(SymbolsOwned()) && old(DepsDemanded())
      requires symhash == old(symhash) && pool.loaded == old(pool.loaded) && pool.reg <= old(pool.reg)
      requires forall o | o in pool.reg ::
                 o.status == old(o.status) && o.symbols == old(o.symbols) && o.dependencies == old(o.dependencies)
      ensures Valid()
    {
      hide ObjectPool.Valid, Elems, Names;
      pool.RootAt(0);
    }

    method MarkReached(reached: seq<nat>)
      requires pool.Valid() && pool.collecting && pool.roots == {}
      modifies pool`objects, pool`oldObjects, pool`objs, pool`olds, pool`roots
      modifies pool.reg`next, pool.reg`prev, pool.reg`mark
      ensures pool.Valid() && pool.roots == Found(pool.reg, reached)
    {
      hide ObjectPool.Valid, Contains;
      var i := 0;
      while i < |reached|
        invariant 0 <= i <= |reached|
        invariant pool.Valid() && pool.collecting
        invariant pool.roots == Found(pool.reg, reached[..i])
      {
        pool.MarkObjectCode(reached[i]);
        assert reached[..i + 1] == reached[..i] + [reached[i]];
        i := i + 1;
      }
      assert reached[..i] == reached;
    }

    // ----- Symbol table -----

    ghost function AfterOffer(key: string, n: SymInfo<ObjectCode>): map<string, SymInfo<ObjectCode>>
      reads this`symhash
      reads if key in symhash && symhash[key].owner.Some? then {symhash[key].owner.value} else {}
      reads if n.owner.Some? then {n.owner.value} else {}
    {
      symhash[key := if key in symhash then Redefine(symhash[key], StatusOf(symhash[key].owner), n, StatusOf(n.owner))
                     else n]
    }

    function StatusOf(owner: Option<ObjectCode>): Status
      reads if owner.Some? then {owner.value} else {}
    {
      if owner.Some? then owner.value.status else Loaded
    }

    method GhciInsertSymbolTable(key: string, n: SymInfo<ObjectCode>, ghost extra: ObjectCode?)
      requires SymbolsOwnedOr(extra)
      requires n.owner.Some? ==> Owns(n.owner.value, key) || (n.owner.value == extra && key in Names(extra.symbols))
      modifies this`symhash
      ensures symhash == old(AfterOffer(key, n)) && SymbolsOwnedOr(extra)
    {
      hide Names, Elems;
      if key !in symhash {
        symhash := symhash[key := n];
      } else {
        var e := symhash[key];
        symhash := symhash[key := Redefine(e, StatusOf(e.owner), n, StatusOf(n.owner))];
      }
    }

    /** What is offered depends on the table and the states of the objects only. */
    lemma OfferStep(s: Symbol, oc: ObjectCode, extra: ObjectCode?)
      requires SymbolsOwnedOr(extra) && (extra == null || extra == oc)
      ensures AfterOffer(s.name, Definition(s, oc)) == Offer(symhash, StatesWith(oc), oc, s)
    {
      hide Names, Elems, Redefine;
    }

    /** Offers one symbol of an object, which is registered or is being loaded. */
    method OfferSymbol(oc: ObjectCode, x: nat, ghost extra: ObjectCode?)
      requires SymbolsOwnedOr(extra) && (extra == null || extra == oc) && x < |oc.symbols|
      requires extra == null ==> oc in pool.reg && oc in Elems(pool.loaded) && oc.status != Unloaded
      modifies this`symhash
      ensures SymbolsOwnedOr(extra) && symhash == Offer(old(symhash), StatesWith(oc), oc, oc.symbols[x])
    {
      hide SymbolsOwnedOr, Offer, AfterOffer, Elems;
      var symbol := oc.symbols[x];
      assert symbol.name in Names(oc.symbols);
      OfferStep(symbol, oc, extra);
      GhciInsertSymbolTable(symbol.name, Definition(symbol, oc), extra);
    }

    /** ghciLookupSymbolInfo: a weak symbol that has been looked up can no longer be overridden. */
    method GhciLookupSymbolInfo(key: string) returns (found: bool)
      modifies this`symhash
      ensures found <==> key in old(symhash)
      ensures Now() == if found then Promote(old(Now()), key) else old(Now())
    {
      found := key in symhash;
      if found && symhash[key].strength == Weak {
        symhash := symhash[key := symhash[key].(strength := Normal)];
      }
    }

    // ----- On-demand loading -----

    ghost predicate InOrder()
      reads this, pool, pool.reg, pool.table, pool.table.indices
    {
      pool.Valid() && !pool.collecting && Sound(Objects(), Now())
    }

    lemma ValidInOrder()
      requires pool.Valid() && !pool.collecting
      ensures Valid() ==> InOrder()
    {
      hide ObjectPool.Valid, Elems, Names;
    }

    lemma InOrderValid()
      requires InOrder()
      ensures Valid()
    {
      hide ObjectPool.Valid, Elems, Names;
      forall o | o in pool.reg && o.status != Unloaded ensures o in Elems(pool.loaded) { pool.Rooted(o); }
      forall k | k in symhash && symhash[k].owner.Some? ensures Owns(symhash[k].owner.value, k) {
        assert OwnerOk(Objects(), Now(), symhash[k].owner.value, k);
      }
      forall o, d | o in pool.reg && d in o.dependencies && d in pool.reg ensures d.status != Loaded {
        assert o in Now().deps && d in Now().deps[o] && d in Now().states;
      }
    }

    method LookupDependentSymbol(lbl: string, dependent: ObjectCode?) returns (v: nat)
      requires InOrder() && (dependent != null ==> dependent in pool.reg && dependent.status == Needed)
      modifies this`symhash, pool.reg`status, pool.reg`dependencies
      ensures InOrder() && (Now(), v) == LookupDependent(Objects(), old(Now()), lbl, Opt(dependent))
      decreases Undemanded(Now()), if lbl == CXA_ATEXIT then 4 else 2, 0
    {
      hide ObjectPool.Valid, Sound, Promote, Load, States, Deps;
      LookupSound(lbl, dependent);
      v := 1;
      if lbl == DSO_HANDLE {
        return;
      }
      DemandFinalizer(lbl, dependent);
      if dependent != null && GOT <= lbl {
        return;
      }
      label demanded:
      var known := GhciLookupSymbolInfo(lbl);
      if !known {
        return if dlsym(lbl) || lbl == DYNAMIC then 1 else 0;
      }
      if lbl == FINI_END || lbl == FINI_START {
        return;
      }
      PromotedSound(old@demanded(Now()), lbl);
      v := RecordAndLoad(lbl, dependent);
    }

    lemma LookupSound(lbl: string, dependent: ObjectCode?)
      requires InOrder() && (dependent != null ==> dependent in pool.reg && dependent.status == Needed)
      ensures Sound(Objects(), LookupDependent(Objects(), Now(), lbl, Opt(dependent)).0)
    {
      if dependent == null { LookupAlone(Objects(), Now(), lbl); }
          else { LookupRuns(Objects(), Now(), lbl, dependent); }
    }

    lemma PromotedSound(v: View<ObjectCode>, lbl: string)
      requires Sound(Objects(), v) && lbl in v.table
      ensures var u := Promote(v, lbl);
              Sound(Objects(), u) && u.states == v.states && lbl in u.table && u.table[lbl].strength != Weak
    {
      PromoteGoes(Objects(), v, lbl);
    }

    /** A lookup of __cxa_atexit records __cxa_finalize too, and ignores whether that one resolves. */
    method DemandFinalizer(lbl: string, dependent: ObjectCode?)
      requires InOrder() && (dependent != null ==> dependent in pool.reg && dependent.status == Needed)
      modifies this`symhash, pool.reg`status, pool.reg`dependencies
      ensures InOrder() && Now() == Finalizer(Objects(), old(Now()), lbl, Opt(dependent))
      decreases Undemanded(Now()), if lbl == CXA_ATEXIT then 3 else 0, 0
    {
      hide ObjectPool.Valid, Sound, LookupDependent;
      SpecialNames();
      if lbl == CXA_ATEXIT && dependent != null {
        var finalize := LookupDependentSymbol(CXA_FINALIZE, dependent);
      }
    }

    /** The tail of lookupDependentSymbol: record the owner as a dependency, then loadSymbol. */
    method RecordAndLoad(lbl: string, dependent: ObjectCode?) returns (v: nat)
      requires InOrder() && (dependent != null ==> dependent in pool.reg) && lbl in symhash
               && symhash[lbl].strength != Weak
      modifies this`symhash, pool.reg`status, pool.reg`dependencies
      ensures pool.Valid() && !pool.collecting
      ensures (Now(), v) == Load(Objects(), Depend(old(Now()), Opt(dependent), old(symhash)[lbl].owner), lbl)
      decreases Undemanded(Now()), 1, 1
    {
      hide ObjectPool.Valid, Load, Names;
      var owner := symhash[lbl].owner;
      if dependent != null && owner.Some? {
        pool.AddDependency(dependent, owner.value);
      }
      assert Now() == Depend(old(Now()), Opt(dependent), owner);
      v := LoadSymbol(lbl);
    }

    /** oc->status = status */
    method Become(oc: ObjectCode, status: Status)
      requires pool.Valid() && !pool.collecting && oc in pool.reg && oc.status != Unloaded && status != Unloaded
      modifies oc`status
      ensures pool.Valid() && !pool.collecting && oc.status == status && Now() == SetState(old(Now()), oc, status)
    {
      hide ObjectPool.Valid;
      pool.SetStatus(oc, status);
    }

    /** loadSymbol: load the owner of the symbol first if it is still waiting to be demanded. */
    method LoadSymbol(lbl: string) returns (v: nat)
      requires pool.Valid() && !pool.collecting && lbl in symhash && symhash[lbl].strength != Weak
      requires OwnersOk(Objects(), Now()) && DepsDemandedBut(Now(), symhash[lbl].owner)
      modifies this`symhash, pool.reg`status, pool.reg`dependencies
      ensures pool.Valid() && !pool.collecting && (Now(), v) == Load(Objects(), old(Now()), lbl)
      decreases Undemanded(Now()), 1, 0
    {
      hide ObjectPool.Valid, Try, Sound;
      var owner := symhash[lbl].owner;
      if owner.Some? && owner.value.status == Loaded {
        var oc := owner.value;
        assert OwnerOk(Objects(), Now(), oc, lbl);
        DemandGoes(Objects(), Now(), oc);
        Become(oc, Needed);
        assert oc in Undemanded(old(Now())) && oc !in Undemanded(Now());
        var r := OcTryLoad(oc);
        if !r {
          return 0;
        }
      }
      return symhash[lbl].value;
    }

    /** ocTryLoad: offer the object's symbols again, resolve its relocations, and call it resolved. */
    method OcTryLoad(oc: ObjectCode) returns (r: bool)
      requires InOrder() && oc in pool.reg
      modifies this`symhash, pool.reg`status, pool.reg`dependencies
      ensures InOrder() && (Now(), r) == Try(Objects(), old(Now()), oc)
      decreases Undemanded(Now()), 6, 0
    {
      hide ObjectPool.Valid, Sound, Relocate, OfferAll, Goes, States, Deps, SymsOf, RelocsOf;
      StatusNow(oc);
      TrySound(oc);
      if oc.status != Needed {
        return true;
      }
      OfferGoes(Objects(), Now(), oc);
      OfferSymbols(oc);
      r := OcResolve(oc);
      if r {
        Become(oc, Resolved);
      }
    }

    lemma StatusNow(oc: ObjectCode)
      requires oc in pool.reg
      ensures oc in Now().states && Now().states[oc] == oc.status && RelocsOf(Objects(), oc) == oc.relocations
    {
    }

    lemma TrySound(oc: ObjectCode)
      requires InOrder()
      ensures Sound(Objects(), Try(Objects(), Now(), oc).0)
    {
      TryRuns(Objects(), Now(), oc);
    }

    /** ocResolve: a loop of lookups that fails on NULL. */
    method OcResolve(oc: ObjectCode) returns (r: bool)
      requires InOrder() && oc in pool.reg && oc.status == Needed
      modifies this`symhash, pool.reg`status, pool.reg`dependencies
      ensures InOrder() && oc.status == Needed && (Now(), r) == Relocate(Objects(), old(Now()), oc, oc.relocations)
      decreases Undemanded(Now()), 5, 0
    {
      hide ObjectPool.Valid, Sound, LookupDependent;
      var x := 0;
      while x < |oc.relocations|
        invariant 0 <= x <= |oc.relocations|
        invariant InOrder() && oc.status == Needed && Undemanded(Now()) <= old(Undemanded(Now()))
        invariant Relocate(Objects(), old(Now()), oc, oc.relocations)
                  == Relocate(Objects(), Now(), oc, oc.relocations[x..])
      {
        LookupWaits(oc.relocations[x], oc);
        assert oc.relocations[x..][1..] == oc.relocations[x + 1..];
        var v := LookupDependentSymbol(oc.relocations[x], oc);
        if v == 0 {
          return false;
        }
        x := x + 1;
      }
      return true;
    }

    lemma LookupWaits(lbl: string, oc: ObjectCode)
      requires InOrder() && oc in pool.reg && oc.status == Needed
      ensures var v := LookupDependent(Objects(), Now(), lbl, Some(oc)).0; oc in v.states && v.states[oc] == Needed
    {
      hide ObjectPool.Valid, Goes, Sound, Accounted;
      LookupRuns(Objects(), Now(), lbl, oc);
      assert oc in Waiting(Now());
    }

    /** The first loop of ocTryLoad. */
    method OfferSymbols(oc: ObjectCode)
      requires InOrder() && oc in pool.reg && oc.status == Needed
      modifies this`symhash
      ensures pool.Valid() && !pool.collecting && Now() == Linking.Offered(Objects(), old(Now()), oc)
    {
      hide ObjectPool.Valid, Elems, Redefine, SymbolsOwnedOr, OfferAll, Offer;
      InOrderValid();
      pool.Rooted(oc);
      OfferNone(symhash, StatesWith(oc), oc, oc.symbols);
      var x := 0;
      while x < |oc.symbols|
        invariant 0 <= x <= |oc.symbols|
        invariant SymbolsOwned() && symhash == OfferAll(old(symhash), StatesWith(oc), oc, oc.symbols[..x])
      {
        OfferOneMore(old(symhash), StatesWith(oc), oc, oc.symbols, x);
        OfferSymbol(oc, x, null);
        x := x + 1;
      }
      assert StatesWith(oc) == States() && oc.symbols[..x] == oc.symbols;
    }

    // ----- resolveObjs and lookupSymbol -----

    ghost function Good(): set<ObjectCode>
      reads pool`reg
    {
      set o | o in pool.reg && initialisersSucceed(o)
    }

    /** ocRunInit. Whether the object's initialisers succeed is up to the object. */
    method OcRunInit(oc: ObjectCode) returns (r: bool)
      requires InOrder() && oc in pool.reg
      modifies oc`status
      ensures InOrder() && (Now(), r) == Initialise(Good(), old(Now()), [oc])
    {
      hide ObjectPool.Valid;
      InitialiseRuns(Good(), Now(), [oc]);
      if oc.status != Resolved {
        return true;
      }
      r := initialisersSucceed(oc);
      if r {
        Become(oc, Ready);
      }
    }

    method RunPendingInitializers() returns (r: bool)
      requires InOrder()
      modifies pool.reg`status
      ensures InOrder() && (Now(), r) == Initialise(Good(), old(Now()), pool.objs)
    {
      hide ObjectPool.Valid, Elems, Sound;
      pool.ObjectsStart();
      var oc := pool.objects;
      ghost var i := 0;
      while oc != null
        invariant 0 <= i <= |pool.objs| && Opt(oc) == Head(pool.objs[i..])
        invariant InOrder() && Initialise(Good(), old(Now()), pool.objs) == Initialise(Good(), Now(), pool.objs[i..])
        decreases |pool.objs| - i
      {
        pool.ObjectsAt(i);
        assert pool.objs[i..] == [oc] + pool.objs[i + 1..];
        var ok := OcRunInit(oc);
        if !ok {
          return false;
        }
        oc := oc.next;
        i := i + 1;
      }
      return true;
    }

    /** resolveObjs_. When it succeeds, every object that was wanted is ready, with whatever its relocations refer to
        among its dependencies; with the guard nothing is left half linked. */
    method ResolveObjs() returns (r: bool)
      requires Valid() && !pool.collecting
      modifies this`symhash, pool.reg`status, pool.reg`dependencies
      ensures Valid() && (Now(), r) == ResolveAll(Objects(), Good(), old(Now()), pool.objs)
      ensures r ==> forall o | o in pool.reg && old(o.status) == Needed ::
                      o.status == Ready && LinkedOver(Now(), o, o.relocations, old(symhash).Keys)
      ensures !r ==> SomethingBroken() || exists o :: o in pool.reg && o.status == Resolved && !initialisersSucceed(o)
      ensures r && Guard(old(Now()), pool.objs) ==>
                && (forall o | o in pool.reg :: o.status != Needed && o.status != Resolved)
                && (forall o, d | o in pool.reg && d in o.dependencies ::
                      d in pool.reg && (d.status == Ready || d.status == Unloaded))
    {
      hide ObjectPool.Valid, Elems, Sound, TryAll, Initialise, Guard, LinkedOver, Now, Objects, Good;
      ValidInOrder();
      AllListed();
      r := LoadWanted();
      if r {
        r := RunPendingInitializers();
      }
      InOrderValid();
      pool.DepsStay();
      Outcome(old(Now()), r);
    }

    /** What the exact condition of Stranding takes for granted holds of every linker at rest. */
    lemma AlwaysListed()
      requires Valid() && !pool.collecting
      ensures Listed(Now(), pool.objs)
    {
      hide ObjectPool.Valid, Elems, Names;
      ValidInOrder();
      AllListed();
      pool.ObjectsDistinct();
      forall k | k in symhash && symhash[k].owner.Some? ensures
        symhash[k].owner.value in Now().states && Now().states[symhash[k].owner.value] != Unloaded
      {
        assert OwnerOk(Objects(), Now(), symhash[k].owner.value, k);
      }
    }

    /** The name has no address: it is in the symbol table without one, or unknown to the dynamic linker, too. */
    ghost predicate Absent(lbl: string, fromObject: bool)
      reads this`symhash
    {
      && lbl != DSO_HANDLE && !(fromObject && GOT <= lbl)
      && (if lbl in symhash then lbl != FINI_END && lbl != FINI_START && symhash[lbl].value == 0
          else !dlsym(lbl) && lbl != DYNAMIC)
    }

    /** An object that is wanted refers to a name without an address. */
    ghost predicate SomethingBroken()
      reads this`symhash, pool`reg, pool.reg`status
    {
      exists o, k :: o in pool.reg && o.status == Needed && k in o.relocations && Absent(k, true)
    }

    lemma BrokenHere()
      ensures SomeBroken(Objects(), Now()) ==> SomethingBroken()
      ensures forall lbl, b :: NoAddress(Objects(), Now(), lbl, b) <==> Absent(lbl, b)
    {
      assert forall lbl, b :: NoAddress(Objects(), Now(), lbl, b) <==> Absent(lbl, b);
      if SomeBroken(Objects(), Now()) {
        var o :| o in Now().states && Broken(Objects(), Now(), o);
        var k :| k in RelocsOf(Objects(), o) && NoAddress(Objects(), Now(), k, true);
        assert o in pool.reg && o.status == Needed && k in o.relocations && Absent(k, true);
      }
    }

    /** What a view says of the objects. */
    lemma Outcome(v: View<ObjectCode>, r: bool)
      requires pool.DepsRegistered() && v.states.Keys == pool.reg && Sound(Objects(), v)
      requires (forall o | o in v.states :: o in pool.objs)
               && (Now(), r) == ResolveAll(Objects(), Good(), v, pool.objs)
      ensures r ==> forall o | o in pool.reg && v.states[o] == Needed ::
                      o.status == Ready && LinkedOver(Now(), o, o.relocations, v.table.Keys)
      ensures !r ==> SomethingBroken() || exists o :: o in pool.reg && o.status == Resolved && !initialisersSucceed(o)
      ensures r && Guard(v, pool.objs) ==>
                && (forall o | o in pool.reg :: o.status != Needed && o.status != Resolved)
                && (forall o, d | o in pool.reg && d in o.dependencies ::
                      d in pool.reg && (d.status == Ready || d.status == Unloaded))
    {
      hide LinkedOver, Guard, Sound, ResolveAll;
      ResolveAllRuns(Objects(), Good(), v, pool.objs);
      ResolveCause(Objects(), Good(), v, pool.objs);
      if !r { BrokenHere(); }
      if r && Guard(v, pool.objs) {
        forall o | o in pool.reg ensures o.status != Needed && o.status != Resolved {
          assert o in Now().states;
        }
        forall o, d | o in pool.reg && d in o.dependencies
          ensures d in pool.reg && (d.status == Ready || d.status == Unloaded)
        {
          assert o in Now().deps && d in Now().deps[o] && d in Now().states;
        }
      }
      if r {
        forall o | o in pool.reg && v.states[o] == Needed
          ensures o.status == Ready && LinkedOver(Now(), o, o.relocations, v.table.Keys)
        {
          assert Is(Now(), o, Ready) && RelocsOf(Objects(), o) == o.relocations;
        }
      }
    }

    lemma AllListed()
      requires pool.Valid() && !pool.collecting
      ensures Now().table == symhash && Now().states.Keys == pool.reg
      ensures forall o | o in pool.reg :: Now().states[o] == o.status
      ensures forall o | o in Now().states :: o in pool.objs
    {
      hide ObjectPool.Valid;
      pool.ObjectsStart();
    }

    /** The first loop of resolveObjs_. */
    method LoadWanted() returns (r: bool)
      requires InOrder()
      modifies this`symhash, pool.reg`status, pool.reg`dependencies
      ensures InOrder() && (Now(), r) == TryAll(Objects(), old(Now()), pool.objs)
    {
      hide ObjectPool.Valid, Elems, Sound, Try;
      pool.ObjectsStart();
      var oc := pool.objects;
      ghost var i := 0;
      while oc != null
        invariant 0 <= i <= |pool.objs| && Opt(oc) == Head(pool.objs[i..])
        invariant InOrder() && TryAll(Objects(), old(Now()), pool.objs) == TryAll(Objects(), Now(), pool.objs[i..])
        decreases |pool.objs| - i
      {
        pool.ObjectsAt(i);
        assert pool.objs[i..] == [oc] + pool.objs[i + 1..];
        var ok := OcTryLoad(oc);
        if !ok {
          return false;
        }
        oc := oc.next;
        i := i + 1;
      }
      return true;
    }

    /** lookupSymbol: the address is found first; failing initialisers do not change it. */
    method LookupSymbol(lbl: string) returns (v: nat)
      requires Valid() && !pool.collecting
      modifies this`symhash, pool.reg`status, pool.reg`dependencies
      ensures Valid() && v == LookupDependent(Objects(), old(Now()), lbl, None).1
      ensures Now() == Initialise(Good(), LookupDependent(Objects(), old(Now()), lbl, None).0, pool.objs).0
      ensures IsOrdinary(lbl, false) && lbl in old(symhash) ==>
                && lbl in symhash && symhash[lbl].value == old(symhash)[lbl].value
                && symhash[lbl].owner == old(symhash)[lbl].owner && symhash[lbl].strength != Weak
                && (if old(lbl in symhash && symhash[lbl].owner.Some? && symhash[lbl].owner.value.status == Loaded)
                    then var owner := symhash[lbl].owner.value;
                         (v == symhash[lbl].value && (owner.status == Resolved || owner.status == Ready))
                         || (v == 0 && owner.status == Needed)
                    else v == symhash[lbl].value)
      ensures IsOrdinary(lbl, false) && lbl !in old(symhash) ==>
                symhash == old(symhash) && (v != 0 <==> dlsym(lbl) || lbl == DYNAMIC)
      ensures !IsOrdinary(lbl, false) && (lbl == DSO_HANDLE || lbl in old(symhash)) ==> v != 0
      ensures v == 0 ==> Absent(lbl, false) || SomethingBroken()
    {
      hide ObjectPool.Valid, Sound, LookupDependent, Initialise, Now;
      ValidInOrder();
      AllListed();
      v := LookupDependentSymbol(lbl, null);
      var initialised := RunPendingInitializers();
      InOrderValid();
      AllListed();
      Answered(old(Now()), lbl, v);
    }

    /** What LookupAnswers says of the linker once the initialisers have run. */
    lemma Answered(v0: View<ObjectCode>, lbl: string, v: nat)
      requires Sound(Objects(), v0) && v == LookupDependent(Objects(), v0, lbl, None).1
      requires Now() == Initialise(Good(), LookupDependent(Objects(), v0, lbl, None).0, pool.objs).0
      ensures IsOrdinary(lbl, false) && lbl in v0.table ==>
                && lbl in symhash && symhash[lbl].value == v0.table[lbl].value
                && symhash[lbl].owner == v0.table[lbl].owner && symhash[lbl].strength != Weak
                && (if OwnedByLoaded(v0, lbl)
                    then var owner := symhash[lbl].owner.value;
                         (v == symhash[lbl].value && (owner.status == Resolved || owner.status == Ready))
                         || (v == 0 && owner.status == Needed)
                    else v == symhash[lbl].value)
      ensures IsOrdinary(lbl, false) && lbl !in v0.table ==>
                symhash == v0.table && (v != 0 <==> dlsym(lbl) || lbl == DYNAMIC)
      ensures !IsOrdinary(lbl, false) && (lbl == DSO_HANDLE || lbl in v0.table) ==> v != 0
      ensures v == 0 ==> Absent(lbl, false) || SomethingBroken()
    {
      hide Sound, LookupDependent, Initialise, SomeBroken, NoAddress;
      LookupAnswers(Objects(), v0, lbl, None);
      LookupCause(Objects(), v0, lbl, None);
      var u := LookupDependent(Objects(), v0, lbl, None).0;
      InitialiseRuns(Good(), u, pool.objs);
      CauseStays(Objects(), u, Now(), lbl);
      BrokenHere();
    }
  }

  lemma NamesSnoc(symbols: seq<Symbol>, i: nat)
    requires i < |symbols|
    ensures Names(symbols[..i + 1]) == Names(symbols[..i]) + {symbols[i].name}
  {
    assert symbols[..i + 1] == symbols[..i] + [symbols[i]];
  }

  /** The object, if there is one. */
  ghost function Preloaded(o: ObjectCode?): set<ObjectCode> {
    if o == null then {} else {o}
  }

  /** The objects that hold one of the addresses. */
  ghost function Found(s: set<ObjectCode>, addrs: seq<nat>): set<ObjectCode> {
    set p, a | p in s && a in addrs && Contains(p, a) :: p
  }

  function Last<T>(s: seq<T>): Option<T> {
    if s == [] then None else Some(s[|s| - 1])
  }

  ghost predicate HasFile(s: seq<ObjectCode>, path: string) {
    exists o :: o in s && o.fileName == path
  }

  ghost function OfFile(s: seq<ObjectCode>, path: string): set<ObjectCode> {
    set o | o in s && o.fileName == path
  }

  /** What is left of a root list once unloadObj_ has passed it. */
  ghost function Kept(s: seq<ObjectCode>, path: string, justPurge: bool): seq<ObjectCode> {
    if justPurge then s else Others(s, path)
  }

  lemma FilesSnoc(s: seq<ObjectCode>, oc: ObjectCode, path: string, justPurge: bool)
    ensures HasFile(s + [oc], path) <==> HasFile(s, path) || oc.fileName == path
    ensures Kept(s + [oc], path, justPurge) ==
            if oc.fileName == path && !justPurge then Kept(s, path, justPurge)
            else Kept(s, path, justPurge) + [oc]
  {
    var t := s + [oc];
    assert t[|s|] == oc;
    assert forall o | o in s :: o in t;
    OthersSnoc(s, oc, path);
  }

  /** A symbol table without what the objects of a file among `s` own. */
  ghost function Disowned(t: map<string, SymInfo<ObjectCode>>, s: seq<ObjectCode>, path: string): map<string,
      SymInfo<ObjectCode>> {
    map k | k in t && !(t[k].owner.Some? && t[k].owner.value in s && t[k].owner.value.fileName == path) :: t[k]
  }

  lemma DisownedNone(t: map<string, SymInfo<ObjectCode>>, path: string)
    ensures Disowned(t, [], path) == t
  {
  }

  lemma DisownedSnoc(t: map<string, SymInfo<ObjectCode>>, s: seq<ObjectCode>, oc: ObjectCode, path: string)
    ensures Disowned(t, s + [oc], path)
            == if oc.fileName == path then Disowned(Disowned(t, s, path), [oc], path) else Disowned(t, s, path)
  {
    assert forall o :: o in s + [oc] <==> o in s || o == oc;
  }

  lemma {:induction false} OthersSnoc(s: seq<ObjectCode>, oc: ObjectCode, path: string)
    ensures Others(s + [oc], path) == if oc.fileName == path then Others(s, path) else Others(s, path) + [oc]
  {
    if s != [] {
      OthersSnoc(s[1..], oc, path);
      assert (s + [oc])[1..] == s[1..] + [oc];
    }
  }

  lemma {:induction false} OthersHas(s: seq<ObjectCode>, path: string, o: ObjectCode)
    ensures o in Others(s, path) <==> o in s && o.fileName != path
  {
    if s != [] { OthersHas(s[1..], path, o); }
  }

  /** The root list without the objects of a file. */
  ghost function Others(s: seq<ObjectCode>, path: string): seq<ObjectCode> {
    if s == [] then []
    else if s[0].fileName == path then Others(s[1..], path)
    else [s[0]] + Others(s[1..], path)
  }
}
