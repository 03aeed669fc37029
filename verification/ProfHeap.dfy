/** Biographical heap profiles: lag, drag and void (rts/ProfHeap.c, rts/LdvProfile.c). */
module ProfHeap {
  import opened Options

  /** The counters of one census. */
  datatype Census = Census(notUsed: int, used: int, prim: int, voidTotal: int, dragTotal: int)

  const NO_CENSUS := Census(0, 0, 0, 0, 0)

  /** What the LDV word of a closure says: when it was created and, once it has been used, when it was used last. */
  datatype Ldv = Created(era: nat) | Used(last: nat)

  datatype Closure = Closure(size: nat, prim: bool, ldv: Ldv)

  // ----- Lives of closures -----

  /** The whole life of a closure, by eras: `first` and `last` are those of its first and last use. */
  datatype Life = Life(size: nat, prim: bool, created: nat, uses: Option<(nat, nat)>, died: Option<nat>)

  /** It is in the heap at census `t`, which ends era `t`. */
  predicate AliveAt(l: Life, t: nat) {
    l.created <= t && (l.died.Some? ==> t < l.died.value)
  }

  predicate UsedBy(l: Life, t: nat) {
    l.uses.Some? && l.uses.value.0 <= t
  }

  /** It has died, was in the heap at census `t`, and was never used. */
  predicate VoidAt(l: Life, t: nat) {
    !l.prim && l.died.Some? && AliveAt(l, t) && l.uses.None?
  }

  /** It has died, was in the heap at census `t`, and its last use was before era `t`. */
  predicate DragAt(l: Life, t: nat) {
    !l.prim && l.died.Some? && AliveAt(l, t) && l.uses.Some? && l.uses.value.1 < t
  }

  /** How long before its death it becomes void or starts to drag. */
  function From(l: Life): nat {
    if l.uses.None? then l.created else l.uses.value.1 + 1
  }

  datatype Measure = NotUsed | UsedSize | Prim | VoidStep | DragStep | Void | Drag

  /** What one closure contributes to a counter of census `t`: the counters themselves, the steps that LDV_recordDead
      adds, and what the steps are to add up to. */
  function Weight(l: Life, m: Measure, t: nat): int {
    match m
    case NotUsed => if !l.prim && AliveAt(l, t) && !UsedBy(l, t) then l.size else 0
    case UsedSize => if !l.prim && AliveAt(l, t) && UsedBy(l, t) then l.size else 0
    case Prim => if l.prim && AliveAt(l, t) then l.size else 0
    case VoidStep => if l.uses.None? then Step(l, t) else 0
    case DragStep => if l.uses.Some? then Step(l, t) else 0
    case Void => if VoidAt(l, t) then l.size else 0
    case Drag => if DragAt(l, t) then l.size else 0
  }

  /** In census `t` a closure that is not inherently used is void from its creation to its death if it is never used;
      it drags from after its last use to its death; before its first use it counts as not used, and as used then. */
  lemma WeightMeans(l: Life, t: nat)
    ensures var alive := l.created <= t && (l.died.Some? ==> t < l.died.value);
            && Weight(l, Void, t) == (if !l.prim && alive && l.died.Some? && l.uses.None? then l.size else 0)
            && Weight(l, Drag, t)
               == (if !l.prim && alive && l.died.Some? && l.uses.Some? && l.uses.value.1 < t then l.size else 0)
            && Weight(l, NotUsed, t)
               == (if !l.prim && alive && (l.uses.Some? ==> t < l.uses.value.0) then l.size else 0)
            && Weight(l, UsedSize, t) == (if !l.prim && alive && l.uses.Some? && l.uses.value.0 <= t then l.size else 0)
            && Weight(l, Prim, t) == (if l.prim && alive then l.size else 0)
  {
  }

  function Step(l: Life, t: nat): int {
    if l.prim || l.died.None? || From(l) >= l.died.value then 0
    else (if t == From(l) then l.size else 0) - (if t == l.died.value then l.size else 0)
  }

  function Total(ls: seq<Life>, m: Measure, t: nat): int {
    if ls == [] then 0 else Total(ls[..|ls| - 1], m, t) + Weight(ls[|ls| - 1], m, t)
  }

  /** Only the closures in `ids`. */
  ghost function TotalOf(ls: seq<Life>, m: Measure, t: nat, ids: set<nat>): int {
    if ls == [] then 0
    else TotalOf(ls[..|ls| - 1], m, t, ids) + if |ls| - 1 in ids then Weight(ls[|ls| - 1], m, t) else 0
  }

  /** A possible life, when it is now era `era`. */
  predicate LifeOk(l: Life, era: nat) {
    && 1 <= l.created <= era
    && (l.uses.Some? ==> l.created <= l.uses.value.0 <= l.uses.value.1 <= era)
    && (l.died.Some? ==> l.created <= l.died.value <= era && (l.uses.Some? ==> l.uses.value.1 <= l.died.value))
  }

  predicate LivesOk(ls: seq<Life>, era: nat) {
    forall i | 0 <= i < |ls| :: LifeOk(ls[i], era)
  }

  // ----- Sums -----

  lemma TotalSnoc(ls: seq<Life>, l: Life, m: Measure, t: nat)
    ensures Total(ls + [l], m, t) == Total(ls, m, t) + Weight(l, m, t)
  {
    assert (ls + [l])[..|ls|] == ls;
  }

  lemma {:induction false} TotalUpdate(ls: seq<Life>, i: nat, l: Life, m: Measure, t: nat)
    requires i < |ls|
    ensures Total(ls[i := l], m, t) == Total(ls, m, t) - Weight(ls[i], m, t) + Weight(l, m, t)
    decreases |ls|
  {
    var n := |ls| - 1;
    if i < n {
      TotalUpdate(ls[..n], i, l, m, t);
      assert ls[i := l][..n] == ls[..n][i := l];
    } else {
      assert ls[i := l][..n] == ls[..n];
    }
  }

  lemma {:induction false} TotalAtMost(ls: seq<Life>, m: Measure, m': Measure, t: nat)
    requires forall i | 0 <= i < |ls| :: Weight(ls[i], m, t) <= Weight(ls[i], m', t)
    ensures Total(ls, m, t) <= Total(ls, m', t)
    decreases |ls|
  {
    if ls != [] {
      TotalAtMost(ls[..|ls| - 1], m, m', t);
    }
  }

  lemma {:induction false} TotalZero(ls: seq<Life>, m: Measure, t: nat)
    requires forall i | 0 <= i < |ls| :: Weight(ls[i], m, t) == 0
    ensures Total(ls, m, t) == 0
    decreases |ls|
  {
    if ls != [] {
      TotalZero(ls[..|ls| - 1], m, t);
    }
  }

  /** The steps are differences. */
  lemma {:induction false} TotalAdvances(ls: seq<Life>, m: Measure, step: Measure, t: nat, era: nat)
    requires LivesOk(ls, era) && t > 0 && ((m == Void && step == VoidStep) || (m == Drag && step == DragStep))
    ensures Total(ls, m, t) == Total(ls, m, t - 1) + Total(ls, step, t)
    decreases |ls|
  {
    if ls != [] {
      var n := |ls| - 1;
      assert forall i | 0 <= i < n :: ls[..n][i] == ls[i];
      TotalAdvances(ls[..n], m, step, t, era);
      assert LifeOk(ls[n], era);
    }
  }

  lemma {:induction false} TotalOfNone(ls: seq<Life>, m: Measure, t: nat)
    ensures TotalOf(ls, m, t, {}) == 0
    decreases |ls|
  {
    if ls != [] {
      TotalOfNone(ls[..|ls| - 1], m, t);
    }
  }

  lemma {:induction false} TotalOfAdd(ls: seq<Life>, m: Measure, t: nat, ids: set<nat>, i: nat)
    requires i !in ids
    ensures TotalOf(ls, m, t, ids + {i}) == TotalOf(ls, m, t, ids) + if i < |ls| then Weight(ls[i], m, t) else 0
    decreases |ls|
  {
    if ls != [] {
      TotalOfAdd(ls[..|ls| - 1], m, t, ids, i);
    }
  }

  /** The others contribute nothing. */
  lemma {:induction false} TotalOfAll(ls: seq<Life>, m: Measure, t: nat, ids: set<nat>)
    requires forall i | 0 <= i < |ls| && i !in ids :: Weight(ls[i], m, t) == 0
    ensures TotalOf(ls, m, t, ids) == Total(ls, m, t)
    decreases |ls|
  {
    if ls != [] {
      TotalOfAll(ls[..|ls| - 1], m, t, ids);
    }
  }

  // ----- The profiler -----

  const INITIAL_CENSUSES := 32

  class LdvProfile {
    var censuses: array<Census>
    var era: nat
    const maxEra: nat
    var heap: map<nat, Closure>
    ghost var lives: seq<Life>
    var next: nat

    constructor (maxEra: nat)
      requires 1 < maxEra
      ensures Valid() && era == 1 && lives == [] && heap == map[] && this.maxEra == maxEra && fresh(censuses)
    {
      censuses := new Census[INITIAL_CENSUSES](_ => NO_CENSUS);
      era, heap, lives, next := 1, map[], [], 0;
      this.maxEra := maxEra;
    }

    ghost predicate Valid()
      reads this, censuses
    {
      && 1 <= era < censuses.Length && era < maxEra && LivesOk(lives, era) && HeapOk()
      && (forall t | 1 <= t <= era :: CensusOk(censuses[t], lives, t, era))
    }

    /** The closures in the heap are those that have not died, and their LDV words say what they should. */
    ghost predicate HeapOk()
      reads this`heap, this`lives, this`next
    {
      && next == |lives| && (forall i | i in heap :: i < |lives|)
      && (forall i | 0 <= i < |lives| :: i in heap <==> lives[i].died.None?)
      && (forall i | i in heap :: heap[i] == Closure(lives[i].size, lives[i].prim, Word(lives[i])))
    }

    /** LDV_RECORD_CREATE */
    method Create(size: nat, prim: bool) returns (id: nat)
      requires Valid()
      modifies this`heap, this`lives, this`next
      ensures Valid() && id == |old(lives)| && lives == old(lives) + [Life(size, prim, era, None, None)]
    {
      id := next;
      next := next + 1;
      heap := heap[id := Closure(size, prim, Created(era))];
      ghost var l := Life(size, prim, era, None, None);
      lives := lives + [l];
      forall t | 1 <= t <= era ensures CensusOk(censuses[t], lives, t, era) {
        Appended(censuses[t], old(lives), l, t, era);
      }
    }

    /** A closure is used. */
    method Use(id: nat)
      requires Valid() && id in heap
      modifies this`heap, this`lives
      ensures Valid() && lives == old(lives)[id := UsedNow(old(lives)[id], era)]
      ensures lives[id].uses == Some((if old(lives)[id].uses.Some? then old(lives)[id].uses.value.0 else era, era))
      ensures lives[id].(uses := None) == old(lives)[id].(uses := None)
    {
      heap := heap[id := heap[id].(ldv := Used(era))];
      lives := lives[id := UsedNow(lives[id], era)];
      forall t | 1 <= t <= era ensures CensusOk(censuses[t], lives, t, era) {
        UseKeeps(censuses[t], old(lives), id, t, era);
      }
    }

    /** A closure dies; those that are inherently used are not recorded. */
    method Die(id: nat)
      requires Valid() && id in heap
      modifies this`heap, this`lives, censuses
      ensures Valid() && lives == old(lives)[id := old(lives)[id].(died := Some(era))] && heap == old(heap) - {id}
    {
      hide CensusOk;
      var c := heap[id];
      ghost var dead := lives[id].(died := Some(era));
      ghost var before := censuses[..];
      if !c.prim {
        RecordDead(c, dead);
      }
      heap := heap - {id};
      lives := lives[id := dead];
      forall t | 1 <= t <= era ensures CensusOk(censuses[t], lives, t, era) {
        DeathCounted(before[t], censuses[t], old(lives), id, t, era);
      }
    }

    /** LDV_recordDead */
    method RecordDead(c: Closure, ghost l: Life)
      requires 1 <= era < censuses.Length && LifeOk(l, era) && l.died == Some(era) && !l.prim
               && c == Closure(l.size, l.prim, Word(l))
      modifies censuses
      ensures forall t | 1 <= t <= era :: Counted(old(censuses[t]), censuses[t], l, t)
    {
      if c.ldv.Created? {
        var t := c.ldv.era;
        if t < era {
          censuses[t] := censuses[t].(voidTotal := censuses[t].voidTotal + c.size);
          censuses[era] := censuses[era].(voidTotal := censuses[era].voidTotal - c.size);
        }
      } else {
        var t := c.ldv.last;
        if t + 1 < era {
          censuses[t + 1] := censuses[t + 1].(dragTotal := censuses[t + 1].dragTotal + c.size);
          censuses[era] := censuses[era].(dragTotal := censuses[era].dragTotal - c.size);
        }
      }
    }

    /** heapCensus: the closures of the heap, in any order, and then the next era. */
    method HeapCensus() returns (ok: bool)
      requires Valid()
      modifies this`era, this`censuses, censuses
      ensures ok <==> old(era) + 1 < maxEra
      ensures ok ==> Valid() && era == old(era) + 1 && (censuses == old(censuses) || fresh(censuses))
    {
      ghost var before := censuses[era];
      var rest, census := heap.Keys, censuses[era];
      ghost var seen: set<nat> := {};
      FilledNone(before, lives, era);
      while rest != {}
        invariant rest + seen == heap.Keys && rest !! seen && rest <= heap.Keys
        invariant census == Filled(before, lives, era, seen)
        decreases rest
        modifies {}
      {
        var id :| id in rest;
        FilledAdd(before, lives, era, seen, id, heap[id]);
        census := HeapProfObject(census, heap[id]);
        rest, seen := rest - {id}, seen + {id};
      }
      CensusTaken(before, lives, era, seen);
      censuses[era] := census;
      ok := NextEra();
    }

    method NextEra() returns (ok: bool)
      requires 1 <= era < censuses.Length && era < maxEra && LivesOk(lives, era) && HeapOk()
      requires forall t | 1 <= t <= era :: CensusOk(censuses[t], lives, t, era + 1)
      modifies this`era, this`censuses, censuses
      ensures ok <==> old(era) + 1 < maxEra
      ensures ok ==> Valid() && era == old(era) + 1 && (censuses == old(censuses) || fresh(censuses))
    {
      hide CensusOk;
      era := era + 1;
      if era == maxEra {
        return false;
      }
      if era == censuses.Length {
        Reallocate();
      }
      censuses[era] := NO_CENSUS;
      NothingYet(lives, era);
      return true;
    }

    /** Twice as many censuses. */
    method Reallocate()
      requires censuses.Length > 0
      modifies this`censuses
      ensures fresh(censuses) && censuses.Length == 2 * old(censuses.Length)
      ensures censuses[..old(censuses.Length)] == old(censuses[..])
    {
      var n := censuses.Length;
      var more := new Census[2 * n](_ => NO_CENSUS);
      for i := 0 to n
        invariant censuses == old(censuses) && fresh(more) && forall k | 0 <= k < i :: more[k] == censuses[k]
      {
        more[i] := censuses[i];
      }
      censuses := more;
    }

    /** LdvCensusKillAll: at the end of the run, every closure that is left dies. */
    method KillAll()
      requires Valid()
      modifies this`heap, this`lives, censuses
      ensures Valid() && heap == map[] && |lives| == |old(lives)|
      ensures forall i | 0 <= i < |lives| :: lives[i] == if old(lives[i]).died.None?
              then old(lives[i]).(died := Some(era)) else old(lives[i])
    {
      hide CensusOk;
      while heap != map[]
        invariant Valid() && |lives| == |old(lives)|
        invariant forall i | 0 <= i < |lives| ::
                  || lives[i] == old(lives[i])
                  || (old(lives[i]).died.None? && lives[i] == old(lives[i]).(died := Some(era)))
        decreases heap.Keys
      {
        var id :| id in heap;
        Die(id);
      }
    }

    /** aggregateCensusInfo, for a profile by biography: the steps are added up. */
    method AggregateCensusInfo()
      requires Valid()
      modifies censuses
      ensures forall t | 1 <= t < era :: Aggregated(censuses[t], lives, t)
    {
      hide CensusOk, Aggregated;
      var voidTotal, dragTotal := 0, 0;
      var t := 1;
      BeforeFirst(lives, era);
      while t < era
        invariant 1 <= t <= era
        invariant voidTotal == Total(lives, Void, t - 1) && dragTotal == Total(lives, Drag, t - 1)
        invariant forall k | 1 <= k < t :: Aggregated(censuses[k], lives, k)
        invariant forall k | t <= k < era :: CensusOk(censuses[k], lives, k, era)
      {
        TotalAdvances(lives, Void, VoidStep, t, era);
        TotalAdvances(lives, Drag, DragStep, t, era);
        CensusFacts(censuses[t], lives, t, era);
        voidTotal := voidTotal + censuses[t].voidTotal;
        dragTotal := dragTotal + censuses[t].dragTotal;
        censuses[t] := censuses[t].(voidTotal := voidTotal, dragTotal := dragTotal);
        t := t + 1;
      }
    }

    /** The closure's size goes to one of the counters. */
    method HeapProfObject(census: Census, c: Closure) returns (r: Census)
      ensures r == if c.prim then census.(prim := census.prim + c.size)
                   else if c.ldv.Created? then census.(notUsed := census.notUsed + c.size)
                   else census.(used := census.used + c.size)
    {
      if c.prim {
        r := census.(prim := census.prim + c.size);
      } else if c.ldv.Created? {
        r := census.(notUsed := census.notUsed + c.size);
      } else {
        r := census.(used := census.used + c.size);
      }
    }
  }

  /** A life after one more use. */
  function UsedNow(l: Life, era: nat): Life {
    l.(uses := Some((if l.uses.Some? then l.uses.value.0 else era, era)))
  }

  function Word(l: Life): Ldv {
    if l.uses.Some? then Used(l.uses.value.1) else Created(l.created)
  }

  /** During the run, the void and drag counters hold steps; the others hold sums, once the census has been taken. */
  ghost predicate CensusOk(c: Census, ls: seq<Life>, t: nat, era: nat) {
    && c.voidTotal == Total(ls, VoidStep, t) && c.dragTotal == Total(ls, DragStep, t)
    && c.notUsed == (if t < era then Total(ls, NotUsed, t) else 0)
    && c.used == (if t < era then Total(ls, UsedSize, t) else 0)
    && c.prim == (if t < era then Total(ls, Prim, t) else 0)
  }

  /** The steps of one life have been added. */
  ghost predicate Counted(c: Census, c': Census, l: Life, t: nat) {
    c' == c.(voidTotal := c.voidTotal + Weight(l, VoidStep, t), dragTotal := c.dragTotal + Weight(l, DragStep, t))
  }

  lemma Appended(c: Census, ls: seq<Life>, l: Life, t: nat, era: nat)
    requires CensusOk(c, ls, t, era) && t <= era && l.created == era && l.uses.None? && l.died.None?
    ensures CensusOk(c, ls + [l], t, era)
  {
    TotalSnoc(ls, l, VoidStep, t);
    TotalSnoc(ls, l, DragStep, t);
    TotalSnoc(ls, l, NotUsed, t);
    TotalSnoc(ls, l, UsedSize, t);
    TotalSnoc(ls, l, Prim, t);
  }

  lemma TotalsUpdate(ls: seq<Life>, i: nat, l: Life, t: nat)
    requires i < |ls|
    ensures forall m :: Total(ls[i := l], m, t) == Total(ls, m, t) - Weight(ls[i], m, t) + Weight(l, m, t)
  {
    forall m ensures Total(ls[i := l], m, t) == Total(ls, m, t) - Weight(ls[i], m, t) + Weight(l, m, t) {
      TotalUpdate(ls, i, l, m, t);
    }
  }

  lemma UseKeeps(c: Census, ls: seq<Life>, i: nat, t: nat, era: nat)
    requires CensusOk(c, ls, t, era) && t <= era && i < |ls| && LifeOk(ls[i], era) && ls[i].died.None?
    ensures CensusOk(c, ls[i := UsedNow(ls[i], era)], t, era)
  {
    TotalsUpdate(ls, i, UsedNow(ls[i], era), t);
  }

  lemma DeathCounted(c: Census, c': Census, ls: seq<Life>, i: nat, t: nat, era: nat)
    requires CensusOk(c, ls, t, era) && t <= era && i < |ls| && LifeOk(ls[i], era) && ls[i].died.None?
    requires var dead := ls[i].(died := Some(era)); if dead.prim then c' == c else Counted(c, c', dead, t)
    ensures CensusOk(c', ls[i := ls[i].(died := Some(era))], t, era)
  {
    TotalsUpdate(ls, i, ls[i].(died := Some(era)), t);
  }

  /** The counters of census `t` after aggregation. */
  ghost predicate Aggregated(c: Census, ls: seq<Life>, t: nat) {
    && c.voidTotal == Total(ls, Void, t) && c.dragTotal == Total(ls, Drag, t)
    && c.notUsed == Total(ls, NotUsed, t) && c.used == Total(ls, UsedSize, t) && c.prim == Total(ls, Prim, t)
  }

  lemma CensusFacts(c: Census, ls: seq<Life>, t: nat, era: nat)
    requires CensusOk(c, ls, t, era) && t < era
    ensures c.voidTotal == Total(ls, VoidStep, t) && c.dragTotal == Total(ls, DragStep, t)
    ensures Aggregated(c.(voidTotal := Total(ls, Void, t), dragTotal := Total(ls, Drag, t)), ls, t)
  {
  }

  /** What is void has not been used, and what drags has: the two assertions of aggregateCensusInfo. */
  lemma VoidIsNotUsed(c: Census, ls: seq<Life>, t: nat, era: nat)
    requires Aggregated(c, ls, t) && LivesOk(ls, era)
    ensures c.voidTotal <= c.notUsed && c.dragTotal <= c.used
  {
    TotalAtMost(ls, Void, NotUsed, t);
    TotalAtMost(ls, Drag, UsedSize, t);
  }

  /** So it is at any time during the run too: the assertion of LDV_recordDead. */
  lemma StepsAreBounded(c: Census, ls: seq<Life>, t: nat, era: nat)
    requires CensusOk(c, ls, t, era) && t < era && LivesOk(ls, era)
    ensures c.voidTotal <= c.notUsed && c.dragTotal <= c.used
  {
    TotalAtMost(ls, VoidStep, NotUsed, t);
    TotalAtMost(ls, DragStep, UsedSize, t);
  }

  /** What one census adds, if only the closures in `ids` are in the heap. */
  ghost function Filled(c: Census, ls: seq<Life>, t: nat, ids: set<nat>): Census {
    c.(notUsed := c.notUsed + TotalOf(ls, NotUsed, t, ids), used := c.used + TotalOf(ls, UsedSize, t, ids),
       prim := c.prim + TotalOf(ls, Prim, t, ids))
  }

  lemma FilledNone(c: Census, ls: seq<Life>, t: nat)
    ensures Filled(c, ls, t, {}) == c
  {
    TotalOfNone(ls, NotUsed, t);
    TotalOfNone(ls, UsedSize, t);
    TotalOfNone(ls, Prim, t);
  }

  lemma FilledAdd(c: Census, ls: seq<Life>, t: nat, ids: set<nat>, i: nat, closure: Closure)
    requires i !in ids && i < |ls| && LifeOk(ls[i], t) && ls[i].died.None?
             && closure == Closure(ls[i].size, ls[i].prim, Word(ls[i]))
    ensures var f := Filled(c, ls, t, ids);
            Filled(c, ls, t, ids + {i})
            == if closure.prim then f.(prim := f.prim + closure.size)
               else if closure.ldv.Created? then f.(notUsed := f.notUsed + closure.size)
               else f.(used := f.used + closure.size)
  {
    TotalOfAdd(ls, NotUsed, t, ids, i);
    TotalOfAdd(ls, UsedSize, t, ids, i);
    TotalOfAdd(ls, Prim, t, ids, i);
  }

  lemma CensusTaken(c: Census, ls: seq<Life>, era: nat, ids: set<nat>)
    requires CensusOk(c, ls, era, era) && LivesOk(ls, era) && forall i | 0 <= i < |ls| && i !in ids :: ls[i].died.Some?
    ensures CensusOk(Filled(c, ls, era, ids), ls, era, era + 1)
  {
    TotalOfAll(ls, NotUsed, era, ids);
    TotalOfAll(ls, UsedSize, era, ids);
    TotalOfAll(ls, Prim, era, ids);
  }

  lemma NothingYet(ls: seq<Life>, era: nat)
    requires era > 0 && LivesOk(ls, era - 1)
    ensures LivesOk(ls, era) && CensusOk(NO_CENSUS, ls, era, era)
  {
    TotalZero(ls, VoidStep, era);
    TotalZero(ls, DragStep, era);
  }

  lemma BeforeFirst(ls: seq<Life>, era: nat)
    requires LivesOk(ls, era)
    ensures Total(ls, Void, 0) == 0 && Total(ls, Drag, 0) == 0
  {
    TotalZero(ls, Void, 0);
    TotalZero(ls, Drag, 0);
  }
}
