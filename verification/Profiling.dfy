/** Cost-centre stacks (rts/Profiling.c). */
module Profiling {
  import opened Options
  import opened Sequences

  class CostCentre {
    const isCaf: bool

    constructor (isCaf: bool)
      ensures this.isCaf == isCaf
    {
      this.isCaf := isCaf;
    }
  }

  // ----- Stacks as lists of cost centres, outermost first -----

  type Stack = seq<CostCentre>

  /** Where `cc` is in `p`. */
  ghost function IndexOf(p: Stack, cc: CostCentre): (i: nat)
    ensures i <= |p| && (i < |p| ==> p[i] == cc) && (i == |p| <==> cc !in p) && cc !in p[..i]
  {
    if p == [] then 0 else if p[0] == cc then 0 else
    assert p == [p[0]] + p[1..];
    1 + IndexOf(p[1..], cc)
  }

  /** Pushing without a memo table: a cost centre that is there already truncates the stack. */
  ghost function Push(p: Stack, cc: CostCentre): Stack {
    if cc in p then p[..IndexOf(p, cc) + 1] else p + [cc]
  }

  /** ccs ++ q */
  ghost function Append(p: Stack, q: Stack): Stack {
    if q == [] then p else Push(Append(p, q[..|q| - 1]), q[|q| - 1])
  }

  /** The suffix of `b` after the prefix that it has in common with `a`. */
  ghost function DropCommonPrefix(a: Stack, b: Stack): Stack {
    if a != [] && b != [] && a[0] == b[0] then DropCommonPrefix(a[1..], b[1..]) else b
  }

  /** What appendCCS appends: the cost centres after the last CAF, and never the outermost one. */
  ghost function OwnPart(p: Stack): Stack {
    if |p| <= 1 || p[|p| - 1].isCaf then [] else OwnPart(p[..|p| - 1]) + [p[|p| - 1]]
  }

  lemma PushDistinct(p: Stack, cc: CostCentre)
    requires Distinct(p)
    ensures Distinct(Push(p, cc)) && Push(p, cc) != [] && Push(p, cc)[|Push(p, cc)| - 1] == cc
  {
  }

  /** Truncation: in a stack without repetitions, the push is the prefix that ends with `cc`. */
  lemma PushTruncates(p: Stack, i: nat)
    requires Distinct(p) && i < |p|
    ensures Push(p, p[i]) == p[..i + 1]
  {
    var k := IndexOf(p, p[i]);
    assert p[k] == p[i];
  }

  lemma PushLast(p: Stack)
    requires Distinct(p) && p != []
    ensures Push(p, p[|p| - 1]) == p && p[|p| - 1] in p
  {
    PushTruncates(p, |p| - 1);
  }

  lemma PushPast(p: Stack, x: CostCentre, cc: CostCentre)
    requires x != cc
    ensures cc in p + [x] <==> cc in p
    ensures cc in p ==> Push(p + [x], cc) == Push(p, cc)
  {
    if cc in p {
      var i, k := IndexOf(p, cc), IndexOf(p + [x], cc);
      assert (p + [x])[i] == cc && (p + [x])[..i] == p[..i];
      assert (p + [x])[..i + 1] == p[..i + 1];
    }
  }

  // ----- Common prefixes -----

  lemma {:induction false} DropSelf(a: Stack)
    ensures DropCommonPrefix(a, a) == []
    decreases |a|
  {
    if a != [] {
      DropSelf(a[1..]);
    }
  }

  /** Only as much of `a` counts as `b` is long. */
  lemma {:induction false} DropTake(a: Stack, b: Stack)
    requires |b| <= |a|
    ensures DropCommonPrefix(a, b) == DropCommonPrefix(a[..|b|], b)
    decreases |b|
  {
    if b != [] {
      assert a[..|b|][1..] == a[1..][..|b| - 1];
      DropTake(a[1..], b[1..]);
    } else {
      assert a[..0] == [];
    }
  }

  /** The last cost centre of `b` is not in the common prefix, unless all of `b` is. */
  lemma {:induction false} DropLast(a: Stack, b: Stack)
    requires 0 < |b| && |a| <= |b| && a != b
    ensures DropCommonPrefix(a, b)
            == DropCommonPrefix(if |a| == |b| then a[..|a| - 1] else a, b[..|b| - 1]) + [b[|b| - 1]]
    decreases |b|
  {
    var n := |b| - 1;
    var a' := if |a| == |b| then a[..n] else a;
    assert b == b[..n] + [b[n]];
    if a != [] && a[0] == b[0] {
      assert a == [a[0]] + a[1..] && b == [b[0]] + b[1..];
      DropLast(a[1..], b[1..]);
      assert b[1..][..n - 1] == b[..n][1..];
      if |a| == |b| {
        assert a[1..][..n - 1] == a'[1..];
      }
    } else if n > 0 && a' != [] {
      assert a'[0] == a[0] && b[..n][0] == b[0];
    }
  }

  lemma {:induction false} DropIsSuffix(a: Stack, b: Stack) returns (k: nat)
    ensures k <= |a| && k <= |b| && a[..k] == b[..k] && DropCommonPrefix(a, b) == b[k..]
    ensures k < |a| && k < |b| ==> a[k] != b[k]
    decreases |a|
  {
    if a != [] && b != [] && a[0] == b[0] {
      var j := DropIsSuffix(a[1..], b[1..]);
      k := j + 1;
      assert a[..k] == [a[0]] + a[1..][..j] && b[..k] == [b[0]] + b[1..][..j];
      assert b[1..][j..] == b[k..];
      assert k < |a| ==> a[1..][j] == a[k];
      assert k < |b| ==> b[1..][j] == b[k];
    } else {
      k := 0;
    }
  }

  // ----- Appending -----

  lemma AppendSnoc(p: Stack, q: Stack, cc: CostCentre)
    ensures Append(p, q + [cc]) == Push(Append(p, q), cc)
  {
    assert (q + [cc])[..|q|] == q;
  }

  lemma {:induction false} AppendDistinct(p: Stack, q: Stack)
    requires Distinct(p)
    ensures Distinct(Append(p, q))
    decreases |q|
  {
    if q != [] {
      AppendDistinct(p, q[..|q| - 1]);
      PushDistinct(Append(p, q[..|q| - 1]), q[|q| - 1]);
    }
  }

  /** Appending a part of the stack itself, up to its end at `k`, truncates the stack there. */
  lemma {:induction false} AppendOwn(p: Stack, i: nat, k: nat)
    requires Distinct(p) && i < k <= |p|
    ensures Append(p, p[i..k]) == p[..k]
    decreases k - i
  {
    var q := p[i..k];
    assert q == p[i..k - 1] + [p[k - 1]];
    AppendSnoc(p, p[i..k - 1], p[k - 1]);
    if i + 1 < k {
      AppendOwn(p, i, k - 1);
      assert p[..k] == p[..k - 1] + [p[k - 1]];
    } else {
      assert p[i..k - 1] == [];
      PushTruncates(p, i);
    }
  }

  /** OwnPart is what comes after the last CAF, or after the outermost cost centre. */
  lemma {:induction false} OwnPartAt(p: Stack) returns (k: nat)
    ensures k <= |p| && OwnPart(p) == p[k..] && (p != [] ==> k > 0)
    ensures (forall j | k <= j < |p| :: !p[j].isCaf) && (k > 1 ==> p[k - 1].isCaf)
    decreases |p|
  {
    if |p| <= 1 || p[|p| - 1].isCaf {
      k := |p|;
    } else {
      k := OwnPartAt(p[..|p| - 1]);
      assert p[k..] == p[..|p| - 1][k..] + [p[|p| - 1]];
    }
  }

  /** The shortcut of appendCCS for a stack that is appended to itself. */
  lemma AppendItself(p: Stack)
    requires Distinct(p)
    ensures Append(p, OwnPart(p)) == p
  {
    var k := OwnPartAt(p);
    if k < |p| {
      AppendOwn(p, k, |p|);
      assert p[k..|p|] == p[k..] && p[..|p|] == p;
    }
  }

  // ----- The tree -----

  /** A memo table: the results of pushing onto the stack that owns it. Back edges are truncations. */
  datatype IndexTable = EmptyTable | Entry(cc: CostCentre, ccs: CostCentreStack, next: IndexTable, backEdge: bool)

  class CostCentreStack {
    const cc: CostCentre
    const prevStack: CostCentreStack?
    const depth: nat
    const root: CostCentreStack
    var indexTable: IndexTable

    /** CCS_MAIN, when there is no parent, and a registered stack, whose root is itself, when it is not `pushed`. */
    constructor (parent: CostCentreStack?, cc: CostCentre, pushed: bool)
      requires pushed ==> parent != null
      ensures this.cc == cc && prevStack == parent && indexTable == EmptyTable
      ensures depth == if parent == null then 0 else parent.depth + 1
      ensures root == if pushed then parent.root else this
    {
      this.cc, prevStack := cc, parent;
      depth := if parent == null then 0 else parent.depth + 1;
      if pushed {
        root := parent.root;
      } else {
        root := this;
      }
      indexTable := EmptyTable;
    }
  }

  ghost function Path(c: CostCentreStack): (p: Stack)
    ensures p != [] && p[|p| - 1] == c.cc
    decreases c.depth
  {
    if c.prevStack == null || c.prevStack.depth >= c.depth then [c.cc] else Path(c.prevStack) + [c.cc]
  }

  /** isInIndexTable, as a function */
  ghost function Memo(it: IndexTable, cc: CostCentre): Option<CostCentreStack> {
    if it.EmptyTable? then None else if it.cc == cc then Some(it.ccs) else Memo(it.next, cc)
  }

  /** Every entry is what an unmemoised push onto `p` gives. */
  ghost predicate MemoOk(it: IndexTable, p: Stack, all: set<CostCentreStack>) {
    it.Entry? ==>
      && it.ccs in all && Path(it.ccs) == Push(p, it.cc) && (it.backEdge <==> it.cc in p)
      && MemoOk(it.next, p, all)
  }

  lemma {:induction false} MemoMore(it: IndexTable, p: Stack, all: set<CostCentreStack>, more: set<CostCentreStack>)
    requires MemoOk(it, p, all) && all <= more
    ensures MemoOk(it, p, more)
  {
    if it.Entry? {
      MemoMore(it.next, p, all, more);
    }
  }

  lemma MemoEmpty(p: Stack, all: set<CostCentreStack>)
    ensures MemoOk(EmptyTable, p, all)
  {
  }

  lemma MemoCons(it: IndexTable, p: Stack, all: set<CostCentreStack>, cc: CostCentre, r: CostCentreStack, back: bool)
    requires r in all && Path(r) == Push(p, cc) && (back <==> cc in p)
    ensures MemoOk(it, p, all) ==> MemoOk(Entry(cc, r, it, back), p, all)
  {
  }

  lemma MemoStep(it: IndexTable, cc: CostCentre)
    requires it.Entry?
    ensures Memo(it, cc) == if it.cc == cc then Some(it.ccs) else Memo(it.next, cc)
  {
  }

  method IsInIndexTable(it: IndexTable, cc: CostCentre, ghost p: Stack,
      ghost all: set<CostCentreStack>) returns (r: CostCentreStack?)
    requires MemoOk(it, p, all)
    ensures r == null <==> Memo(it, cc).None?
    ensures r != null ==> Memo(it, cc) == Some(r) && r in all && Path(r) == Push(p, cc)
  {
    var i := it;
    while i.Entry?
      invariant MemoOk(i, p, all) && Memo(i, cc) == Memo(it, cc)
      decreases i
    {
      if i.cc == cc {
        return i.ccs;
      }
      i := i.next;
    }
    return null;
  }

  ghost predicate Tree(main: CostCentreStack, all: set<CostCentreStack>) {
    && main in all && main.prevStack == null && main.depth == 0 && main.root == main
    && (forall c | c in all && c != main ::
          c.prevStack != null && c.prevStack in all && c.depth == c.prevStack.depth + 1
          && (c.root == c.prevStack.root || (c.prevStack == main && c.root == c)))
    && (forall c | c in all :: Distinct(Path(c)))
  }

  /** Every path is that of the parent and one more. */
  lemma PathStep(main: CostCentreStack, all: set<CostCentreStack>, c: CostCentreStack)
    requires Tree(main, all) && c in all
    ensures c == main ==> c.prevStack == null && Path(c) == [c.cc]
    ensures c != main ==> c.prevStack != null && c.prevStack in all && Path(c) == Path(c.prevStack) + [c.cc]
    ensures c != main ==> c.depth == c.prevStack.depth + 1
    ensures c.cc == Path(c)[|Path(c)| - 1]
    ensures Distinct(Path(c))
  {
  }

  /** CCS_MAIN with one child in its memo table. */
  lemma TwoStacks(m: CostCentreStack, o: CostCentreStack)
    requires m.prevStack == null && m.depth == 0 && m.root == m && m != o
    requires o.prevStack == m && o.depth == 1 && o.root == o && o.cc != m.cc
    requires m.indexTable == Entry(o.cc, o, EmptyTable, false) && o.indexTable == EmptyTable
    ensures Path(m) == [m.cc] && Tree(m, {m, o})
    ensures forall c | c in {m, o} :: MemoOk(c.indexTable, Path(c), {m, o})
    ensures Memo(m.indexTable, o.cc) == Some(o)
  {
    assert Path(m) == [m.cc] && Path(o) == [m.cc, o.cc];
    MemoEmpty(Path(m), {m, o});
  }

  class Profiler {
    const main: CostCentreStack
    const overhead: CostCentreStack
    var rCCCS: CostCentreStack
    ghost var all: set<CostCentreStack>

    constructor (mainCC: CostCentre, overheadCC: CostCentre)
      requires mainCC != overheadCC
      ensures Valid() && fresh(all) && Path(main) == [mainCC] && rCCCS == main
    {
      hide MemoOk, Memo, Push, Path, Tree;
      var m := new CostCentreStack(null, mainCC, false);
      var o := new CostCentreStack(m, overheadCC, false);
      m.indexTable := Entry(overheadCC, o, m.indexTable, false);
      main, overhead, rCCCS, all := m, o, m, {m, o};
      new;
      TwoStacks(main, overhead);
    }

    /** The stacks form a tree, no path repeats a cost centre, every memo table agrees with the unmemoised push, and
        every stack but CCS_MAIN is in the table of its parent. */
    ghost predicate Valid()
      reads this, all
    {
      && Tree(main, all) && rCCCS in all && overhead in all
      && (forall c | c in all :: MemoOk(c.indexTable, Path(c), all))
      && (forall c | c in all && c != main :: c.prevStack in all && Memo(c.prevStack.indexTable, c.cc) == Some(c))
    }

    /** checkLoop: the nearest stack up the path with `cc` on top. */
    method CheckLoop(ccs: CostCentreStack, cc: CostCentre) returns (r: CostCentreStack?)
      requires Valid() && ccs in all
      ensures r == null <==> cc !in Path(ccs)
      ensures r != null ==> r in all && Path(r) == Push(Path(ccs), cc)
    {
      hide MemoOk, Memo, Push, Path, Tree, Distinct;
      var c: CostCentreStack? := ccs;
      ghost var p := Path(ccs);
      while c != null
        invariant c == null ==> cc !in p
        invariant c != null ==>
                  c in all && (cc in p <==> cc in Path(c)) && (cc in p ==> Push(p, cc) == Push(Path(c), cc))
        decreases if c == null then 0 else c.depth + 1
      {
        var here: CostCentreStack := c;
        PathStep(main, all, here);
        if here.cc == cc {
          PushLast(Path(here));
          return here;
        }
        if here != main {
          PushPast(Path(here.prevStack), here.cc, cc);
        }
        c := here.prevStack;
      }
      return null;
    }

    /** actualPush_: a new stack, in the memo table of its parent. */
    method ActualPush(ccs: CostCentreStack, cc: CostCentre, pushed: bool) returns (r: CostCentreStack)
      requires Valid() && ccs in all && cc !in Path(ccs) && Memo(ccs.indexTable, cc).None? && (!pushed ==> ccs == main)
      modifies this`all, ccs`indexTable
      ensures Valid() && fresh(r) && all == old(all) + {r} && Path(r) == Path(ccs) + [cc]
      ensures r.prevStack == ccs && r.cc == cc && r.root == (if pushed then ccs.root else r)
    {
      hide Distinct, Memo, MemoOk;
      r := new CostCentreStack(ccs, cc, pushed);
      all := all + {r};
      ccs.indexTable := Entry(cc, r, ccs.indexTable, false);
      assert Path(r) == Path(ccs) + [cc];
      TreeGrows(main, old(all), r);
      forall c | c in all ensures MemoOk(c.indexTable, Path(c), all) {
        if c == r {
          MemoEmpty(Path(c), all);
        } else {
          MemoMore(old(c.indexTable), Path(c), old(all), all);
          MemoCons(old(ccs.indexTable), Path(ccs), all, cc, r, false);
        }
      }
      forall c | c in all && c != main ensures c.prevStack in all && Memo(c.prevStack.indexTable, c.cc) == Some(c) {
        MemoStep(ccs.indexTable, c.cc);
      }
    }

    /** refreshProfilingCCSs, for one registered stack: a child of CCS_MAIN that is its own root. */
    method Register(cc: CostCentre) returns (r: CostCentreStack)
      requires Valid() && cc != main.cc && Memo(main.indexTable, cc).None?
      modifies this`all, main`indexTable
      ensures Valid() && fresh(r) && all == old(all) + {r} && Path(r) == [main.cc, cc] && r.root == r
    {
      hide MemoOk, Memo, Distinct, Tree;
      MainDepth();
      PathStep(main, all, main);
      r := ActualPush(main, cc, false);
    }

    method PushCostCentre(ccs: CostCentreStack, cc: CostCentre) returns (r: CostCentreStack)
      requires Valid() && ccs in all
      modifies this`all, all`indexTable
      ensures Valid() && r in all && old(all) <= all && fresh(all - old(all))
      ensures Path(r) == Push(Path(ccs), cc)
      ensures cc != ccs.cc ==> Memo(ccs.indexTable, cc) == Some(r)
    {
      hide MemoOk, Memo, Distinct, Tree, Push;
      PathStep(main, all, ccs);
      if ccs.cc == cc {
        PushLast(Path(ccs));
        return ccs;
      }
      var temp := IsInIndexTable(ccs.indexTable, cc, Path(ccs), all);
      if temp != null {
        return temp;
      }
      temp := CheckLoop(ccs, cc);
      if temp != null {
        AddBackEdge(ccs, cc, temp);
        r := temp;
      } else {
        MainDepth();
        r := ActualPush(ccs, cc, true);
        PushNew(Path(ccs), cc);
      }
    }

    method AddBackEdge(ccs: CostCentreStack, cc: CostCentre, r: CostCentreStack)
      requires Valid() && ccs in all && r in all && cc in Path(ccs) && Path(r) == Push(Path(ccs), cc)
               && Memo(ccs.indexTable, cc).None?
      modifies ccs`indexTable
      ensures Valid() && Memo(ccs.indexTable, cc) == Some(r)
    {
      hide MemoOk, Memo, Distinct, Tree, Push;
      ccs.indexTable := Entry(cc, r, ccs.indexTable, true);
      MemoCons(old(ccs.indexTable), Path(ccs), all, cc, r, true);
      MemoFound(ccs.indexTable);
    }

    /** A stack is determined by its path. */
    lemma {:induction false} PathDetermines(c: CostCentreStack, d: CostCentreStack)
      requires Valid() && c in all && d in all && Path(c) == Path(d)
      ensures c == d
      decreases c.depth
    {
      hide MemoOk, Memo, Distinct, Tree;
      PathStep(main, all, c);
      PathStep(main, all, d);
      if c != main && d != main {
        Lasts(Path(c.prevStack), c.cc, Path(d.prevStack), d.cc);
        PathDetermines(c.prevStack, d.prevStack);
      }
    }

    /** Appending with the recursion-truncating push; at most the CAF at the root of ccs2 is left out. */
    method AppendCCS(ccs1: CostCentreStack, ccs2: CostCentreStack) returns (r: CostCentreStack)
      requires Valid() && ccs1 in all && ccs2 in all
      modifies this`all, all`indexTable
      ensures Valid() && r in all && old(all) <= all && fresh(all - old(all))
      ensures Path(r) == Append(Path(ccs1), OwnPart(Path(ccs2)))
      decreases ccs2.depth
    {
      hide MemoOk, Memo, Distinct, Tree, Push, Append, OwnPart;
      PathStep(main, all, ccs2);
      if ccs1 == ccs2 {
        AppendItself(Path(ccs1));
        return ccs1;
      }
      if ccs2 == main || ccs2.cc.isCaf {
        OwnPartStep(Path(ccs2));
        AppendNothing(Path(ccs1));
        return ccs1;
      }
      OwnPartSnoc(Path(ccs2.prevStack), ccs2.cc);
      r := AppendCCS(ccs1, ccs2.prevStack);
      AppendSnoc(Path(ccs1), OwnPart(Path(ccs2.prevStack)), ccs2.cc);
      r := PushCostCentre(r, ccs2.cc);
    }

    /** c1 ++> c2 where both are equally deep */
    method EnterFunEqualStacks(ccs0: CostCentreStack, ccsapp: CostCentreStack,
        ccsfn: CostCentreStack) returns (r: CostCentreStack)
      requires Valid() && ccs0 in all && ccsapp in all && ccsfn in all && ccsapp.depth == ccsfn.depth
      modifies this`all, all`indexTable
      ensures Valid() && r in all && old(all) <= all && fresh(all - old(all))
      ensures Path(r) == Append(Path(ccs0), DropCommonPrefix(Path(ccsapp), Path(ccsfn)))
      decreases ccsfn.depth
    {
      hide MemoOk, Memo, Distinct, Tree, Push, Append, DropCommonPrefix;
      PathStep(main, all, ccsapp);
      PathStep(main, all, ccsfn);
      DepthIs(main, all, ccsapp);
      DepthIs(main, all, ccsfn);
      if ccsapp == ccsfn {
        DropSelf(Path(ccsfn));
        AppendNothing(Path(ccs0));
        return ccs0;
      }
      NotMain(ccsapp, ccsfn);
      if Path(ccsapp) == Path(ccsfn) { PathDetermines(ccsapp, ccsfn); }
      DropLast(Path(ccsapp), Path(ccsfn));
      Fronts(Path(ccsapp.prevStack), ccsapp.cc, Path(ccsfn.prevStack), ccsfn.cc);
      r := EnterFunEqualStacks(ccs0, ccsapp.prevStack, ccsfn.prevStack);
      AppendSnoc(Path(ccs0), DropCommonPrefix(Path(ccsapp.prevStack), Path(ccsfn.prevStack)), ccsfn.cc);
      r := PushCostCentre(r, ccsfn.cc);
    }

    lemma NotMain(c: CostCentreStack, d: CostCentreStack)
      requires Valid() && c in all && d in all && c.depth == d.depth && c != d
      ensures c != main && d != main
    {
    }

    /** c1 ++> c2 where c2 is deeper by `n` */
    method EnterFunCurShorter(ccsapp: CostCentreStack, ccsfn: CostCentreStack, n: nat) returns (r: CostCentreStack)
      requires Valid() && ccsapp in all && ccsfn in all && ccsfn.depth == ccsapp.depth + n
      modifies this`all, all`indexTable
      ensures Valid() && r in all && old(all) <= all && fresh(all - old(all))
      ensures Path(r) == Append(Path(ccsapp), DropCommonPrefix(Path(ccsapp), Path(ccsfn)))
      decreases n
    {
      hide MemoOk, Memo, Distinct, Tree, Push, Append, DropCommonPrefix;
      if n == 0 {
        r := EnterFunEqualStacks(ccsapp, ccsapp, ccsfn);
      } else {
        MainDepth();
        PathStep(main, all, ccsfn);
        DepthIs(main, all, ccsapp);
        DepthIs(main, all, ccsfn);
        DropLast(Path(ccsapp), Path(ccsfn));
        Fronts(Path(ccsfn.prevStack), ccsfn.cc, Path(ccsfn.prevStack), ccsfn.cc);
        r := EnterFunCurShorter(ccsapp, ccsfn.prevStack, n - 1);
        AppendSnoc(Path(ccsapp), DropCommonPrefix(Path(ccsapp), Path(ccsfn.prevStack)), ccsfn.cc);
        r := PushCostCentre(r, ccsfn.cc);
      }
    }

    lemma MainDepth()
      requires Valid()
      ensures main in all && main.depth == 0
    {
    }

    /** The stack `n` levels up. */
    method Ancestor(ccs: CostCentreStack, n: nat) returns (r: CostCentreStack)
      requires Valid() && ccs in all && n <= ccs.depth
      ensures n < |Path(ccs)| && r in all && r.depth == ccs.depth - n && Path(r) == Path(ccs)[..|Path(ccs)| - n]
    {
      hide MemoOk, Memo, Distinct;
      r := ccs;
      ghost var p := Path(ccs);
      DepthIs(main, all, ccs);
      for i := 0 to n
        invariant r in all && r.depth == ccs.depth - i && |p| == ccs.depth + 1 && Path(r) == p[..|p| - i]
      {
        PathStep(main, all, r);
        Fronts(Path(r.prevStack), r.cc, Path(r.prevStack), r.cc);
        assert p[..|p| - i][..|p| - i - 1] == p[..|p| - i - 1];
        r := r.prevStack;
      }
    }

    /** enterFunCCS: the equation ccs ++> ccsfn = ccs ++ dropCommonPrefix ccs ccsfn, for stacks with the same root. For
        stacks with different roots, ccsfn is appended whole, except for a CAF; and a CAF is never entered. */
    method EnterFunCCS(ccsfn: CostCentreStack)
      requires Valid() && ccsfn in all
      modifies this, all`indexTable
      ensures Valid() && old(all) <= all && fresh(all - old(all))
      ensures ccsfn.cc.isCaf ==> rCCCS == old(rCCCS)
      ensures !ccsfn.cc.isCaf ==>
                Path(rCCCS) == Append(Path(old(rCCCS)), if ccsfn.root == old(rCCCS).root
                                                        then DropCommonPrefix(Path(old(rCCCS)), Path(ccsfn))
                                                        else OwnPart(Path(ccsfn)))
    {
      hide MemoOk, Memo, Distinct, Tree, Push, Path, Append, DropCommonPrefix, OwnPart;
      if ccsfn == rCCCS {
        DropSelf(Path(ccsfn));
        AppendNothing(Path(ccsfn));
        return;
      }
      if ccsfn.cc.isCaf {
        return;
      }
      var ccsapp := rCCCS;
      rCCCS := overhead;
      if ccsfn.root != ccsapp.root {
        rCCCS := AppendCCS(ccsapp, ccsfn);
      } else {
        rCCCS := EnterSameRoot(ccsapp, ccsfn);
      }
    }

    /** The cases of enterFunCCS for two stacks with the same root: which one is deeper. */
    method EnterSameRoot(ccsapp: CostCentreStack, ccsfn: CostCentreStack) returns (r: CostCentreStack)
      requires Valid() && ccsapp in all && ccsfn in all
      modifies this`all, all`indexTable
      ensures Valid() && r in all && old(all) <= all && fresh(all - old(all))
      ensures Path(r) == Append(Path(ccsapp), DropCommonPrefix(Path(ccsapp), Path(ccsfn)))
    {
      hide Valid, Append, DropCommonPrefix;
      PathLengths(ccsapp, ccsfn);
      if ccsapp.depth > ccsfn.depth {
        var tmp := Ancestor(ccsapp, ccsapp.depth - ccsfn.depth);
        DropTake(Path(ccsapp), Path(ccsfn));
        r := EnterFunEqualStacks(ccsapp, tmp, ccsfn);
      } else if ccsfn.depth > ccsapp.depth {
        r := EnterFunCurShorter(ccsapp, ccsfn, ccsfn.depth - ccsapp.depth);
      } else {
        r := EnterFunEqualStacks(ccsapp, ccsapp, ccsfn);
      }
    }

    lemma PathLengths(c: CostCentreStack, d: CostCentreStack)
      requires Valid() && c in all && d in all
      ensures |Path(c)| == c.depth + 1 && |Path(d)| == d.depth + 1
    {
      DepthIs(main, all, c);
      DepthIs(main, all, d);
    }
  }

  /** Nothing but CCS_MAIN is left out of a stack without CAFs. */
  lemma {:induction false} OwnPartWhole(p: Stack)
    requires p != []
    ensures OwnPart(p) == p[1..] <==> forall i | 1 <= i < |p| :: !p[i].isCaf
    decreases |p|
  {
    var n := |p| - 1;
    if n > 0 && !p[n].isCaf {
      OwnPartWhole(p[..n]);
      assert p[1..] == p[..n][1..] + [p[n]];
      Lasts2(OwnPart(p[..n]), p[..n][1..], p[n]);
    }
  }

  lemma Lasts2(a: Stack, b: Stack, x: CostCentre)
    ensures a + [x] == b + [x] <==> a == b
  {
    if a + [x] == b + [x] {
      Lasts(a, x, b, x);
    }
  }

  /** Stacks with different roots have only CCS_MAIN in common. */
  lemma DifferentRoots(main: CostCentreStack, all: set<CostCentreStack>, c: CostCentreStack, d: CostCentreStack)
    requires Tree(main, all) && c in all && d in all && c.root != d.root
    requires forall x, y | x in all && y in all && Path(x) == Path(y) :: x == y
    ensures DropCommonPrefix(Path(c), Path(d)) == Path(d)[1..]
  {
    hide Distinct;
    MainFirst(main, all, c);
    MainFirst(main, all, d);
    var k := DropIsSuffix(Path(c), Path(d));
    SharedRoot(main, all, c, d, k);
  }

  lemma SharedRoot(main: CostCentreStack, all: set<CostCentreStack>, c: CostCentreStack, d: CostCentreStack, k: nat)
    requires Tree(main, all) && c in all && d in all && k <= |Path(c)| && k <= |Path(d)| && Path(c)[..k] == Path(d)[..k]
    requires forall x, y | x in all && y in all && Path(x) == Path(y) :: x == y
    ensures k > 1 ==> c.root == d.root
  {
    hide Distinct;
    if k > 1 {
      var x := RootAbove(main, all, c);
      var y := RootAbove(main, all, d);
      assert Path(c)[..k][..2] == Path(c)[..2] && Path(d)[..k][..2] == Path(d)[..2];
    }
  }

  /** The ancestor just below CCS_MAIN has the same root. */
  lemma {:induction false} RootAbove(main: CostCentreStack, all: set<CostCentreStack>,
      c: CostCentreStack) returns (a: CostCentreStack)
    requires Tree(main, all) && c in all
    ensures a in all && a.root == c.root && |Path(c)| > 0 && Path(a) == Path(c)[..if |Path(c)| > 1 then 2 else 1]
    decreases c.depth
  {
    hide Distinct;
    PathStep(main, all, c);
    if c == main || c.prevStack == main {
      PathStep(main, all, main);
      a := c;
      assert Path(c)[..|Path(c)|] == Path(c);
    } else {
      PathStep(main, all, c.prevStack);
      a := RootAbove(main, all, c.prevStack);
      assert Path(c)[..2] == Path(c.prevStack)[..2];
    }
  }

  lemma {:induction false} MainFirst(main: CostCentreStack, all: set<CostCentreStack>, c: CostCentreStack)
    requires Tree(main, all) && c in all
    ensures Path(c)[0] == main.cc
    decreases c.depth
  {
    hide Distinct;
    PathStep(main, all, c);
    if c != main {
      MainFirst(main, all, c.prevStack);
    }
  }

  lemma {:induction false} DepthIs(main: CostCentreStack, all: set<CostCentreStack>, c: CostCentreStack)
    requires Tree(main, all) && c in all
    ensures |Path(c)| == c.depth + 1
    decreases c.depth
  {
    hide Distinct;
    PathStep(main, all, c);
    if c != main {
      DepthIs(main, all, c.prevStack);
    }
  }

  lemma Lasts(p: Stack, x: CostCentre, q: Stack, y: CostCentre)
    requires p + [x] == q + [y]
    ensures p == q && x == y
  {
    assert (p + [x])[..|p|] == p && (q + [y])[..|q|] == q && (p + [x])[|p|] == x;
  }

  lemma Fronts(p: Stack, x: CostCentre, q: Stack, y: CostCentre)
    ensures (p + [x])[..|p|] == p && (q + [y])[..|q|] == q && (q + [y])[|q|] == y
  {
  }

  lemma AppendNothing(p: Stack)
    ensures Append(p, []) == p
  {
  }

  lemma OwnPartStep(p: Stack)
    requires p != [] && (|p| == 1 || p[|p| - 1].isCaf)
    ensures OwnPart(p) == []
  {
  }

  lemma OwnPartSnoc(p: Stack, cc: CostCentre)
    requires p != [] && !cc.isCaf
    ensures OwnPart(p + [cc]) == OwnPart(p) + [cc]
  {
    assert (p + [cc])[..|p|] == p;
  }

  lemma PushNew(p: Stack, cc: CostCentre)
    requires cc !in p
    ensures Push(p, cc) == p + [cc]
  {
  }

  lemma MemoFound(it: IndexTable)
    requires it.Entry?
    ensures forall cc :: Memo(it, cc) == if it.cc == cc then Some(it.ccs) else Memo(it.next, cc)
  {
  }

  lemma TreeGrows(main: CostCentreStack, all: set<CostCentreStack>, r: CostCentreStack)
    requires Tree(main, all) && r !in all && r.prevStack != null && r.prevStack in all
             && r.depth == r.prevStack.depth + 1
    requires r.root == r.prevStack.root || (r.prevStack == main && r.root == r)
    requires r.cc !in Path(r.prevStack)
    ensures Tree(main, all + {r})
  {
    assert Path(r) == Path(r.prevStack) + [r.cc];
  }
}
