/** Larson's linear hash tables (rts/Hash.c): chained cells, a segment directory, and growth by one bucket at a time. */
module Hash {
  import opened HashArithmetic
  import opened LinkedLists
  import opened Options
  import opened Sequences

  const HSEGSIZE := 1024
  const HDIRSIZE := 1024
  const HLOAD := 5
  const HCHUNK := 341   // 1024 words of 8 bytes, divided by the 24 bytes of a cell

  /** A location in memory from malloc: it holds nothing that may be read until it is written. */
  datatype Slot<+T> = Garbage | Holds(value: T)

  // ----- The segment directory -----

  datatype DirEntry<T> = Unallocated | Segment(slots: array<Slot<T>>)

  /** `dir[HDIRSIZE]` and its segments; `heads` is what the initialised bucket slots hold, in bucket order. */
  class Directory<T> {
    const dir: array<DirEntry<T>>
    ghost var segs: seq<array<Slot<T>>>
    ghost var heads: seq<T>

    ghost predicate Valid()
      reads this, dir, segs
    {
      && dir.Length == HDIRSIZE && |segs| <= HDIRSIZE && |heads| <= HSEGSIZE * |segs|
      && (forall s | 0 <= s < |segs| :: dir[s] == Segment(segs[s]) && segs[s].Length == HSEGSIZE)
      && (forall s, t | 0 <= s < t < |segs| :: segs[s] != segs[t])
      && (forall b | 0 <= b < |heads| :: SlotAt(b))
    }

    ghost predicate SlotAt(b: nat)
      requires b < |heads| <= HSEGSIZE * |segs|
      requires forall s | 0 <= s < |segs| :: segs[s].Length == HSEGSIZE
      reads this, segs
    {
      segs[b / HSEGSIZE][b % HSEGSIZE] == Holds(heads[b])
    }

    constructor ()
      ensures Valid() && segs == [] && heads == [] && fresh(dir)
    {
      dir := new DirEntry<T>[HDIRSIZE](_ => Unallocated);
      segs, heads := [], [];
    }

    method AllocSegment(segment: nat)
      requires Valid() && segment == |segs| < HDIRSIZE
      modifies this`segs, dir
      ensures Valid() && |segs| == segment + 1 && segs[..segment] == old(segs) && fresh(segs[segment])
      ensures heads == old(heads)
    {
      var s := new Slot<T>[HSEGSIZE](_ => Garbage);
      dir[segment] := Segment(s);
      segs := segs + [s];
      forall c | 0 <= c < |heads| ensures SlotAt(c) {
        assert old(SlotAt(c));
      }
    }

    method Get(b: nat) returns (r: T)
      requires Valid() && b < |heads|
      ensures r == heads[b]
    {
      assert SlotAt(b);
      r := dir[b / HSEGSIZE].slots[b % HSEGSIZE].value;
    }

    /** Writes a bucket slot: one in use, or the first one that is not. */
    method Set(b: nat, v: T)
      requires Valid() && (b < |heads| || b == |heads| < HSEGSIZE * |segs|)
      modifies this`heads, segs
      ensures Valid() && heads == if b == old(|heads|) then old(heads) + [v] else old(heads)[b := v]
    {
      var segment, index := b / HSEGSIZE, b % HSEGSIZE;
      var s := dir[segment].slots;
      s[index] := Holds(v);
      heads := if b == |heads| then heads + [v] else heads[b := v];
      assert forall s | 0 <= s < |segs| :: dir[s] == Segment(segs[s]) && segs[s].Length == HSEGSIZE;
      forall c | 0 <= c < |heads| ensures SlotAt(c) {
        assert c != b ==> c / HSEGSIZE != segment || c % HSEGSIZE != index;
        assert c != b ==> old(SlotAt(c));
      }
    }
  }

  // ----- Chains of cells -----

  datatype Entry<K, V> = Entry(key: K, data: Option<V>)   // data None is NULL

  /** One cell of a bucket chain or of the free list. */
  class HashList<K, V> {
    var key: Slot<K>
    var data: Slot<Option<V>>
    var next: HashList?<K, V>
    ghost var at: int    // the bucket whose chain holds the cell, or FREE

    constructor ()
      ensures next == null && at == FREE
    {
      key, data, next, at := Garbage, Garbage, null, FREE;
    }
  }

  const FREE := -1

  /** Following `next` from `h` visits exactly `cs` and then stops at `t`. */
  ghost predicate ChainTo<K, V>(h: HashList?<K, V>, cs: seq<HashList<K, V>>, t: HashList?<K, V>)
    reads cs`next
    decreases |cs|
  {
    if cs == [] then h == t else h == cs[0] && ChainTo(cs[0].next, cs[1..], t)
  }

  ghost predicate Chain<K, V>(h: HashList?<K, V>, cs: seq<HashList<K, V>>)
    reads cs`next
  {
    ChainTo(h, cs, null)
  }

  ghost predicate Carries<K, V>(cs: seq<HashList<K, V>>, es: seq<Entry<K, V>>)
    reads cs`key, cs`data
  {
    |cs| == |es| && forall i | 0 <= i < |cs| :: cs[i].key == Holds(es[i].key) && cs[i].data == Holds(es[i].data)
  }

  ghost predicate Home<K, V>(cs: seq<HashList<K, V>>, b: int)
    reads cs`at
  {
    forall i | 0 <= i < |cs| :: cs[i].at == b
  }

  ghost predicate List<K, V>(h: HashList?<K, V>, cs: seq<HashList<K, V>>, es: seq<Entry<K, V>>)
    reads cs`next, cs`key, cs`data
  {
    Chain(h, cs) && Carries(cs, es)
  }

  /** The chain of bucket `b` starts at `h`, runs through `cs` and carries `es`. */
  ghost predicate Bucket<K, V>(h: HashList?<K, V>, cs: seq<HashList<K, V>>, es: seq<Entry<K, V>>, b: nat)
    reads cs`next, cs`key, cs`data, cs`at
  {
    List(h, cs, es) && Home(cs, b)
  }

  lemma {:induction false} ChainSplit<K, V>(h: HashList?<K, V>, a: seq<HashList<K, V>>, b: seq<HashList<K, V>>,
                                            t: HashList?<K, V>)
    ensures ChainTo(h, a + b, t) <==>
            ChainTo(h, a, if b == [] then t else b[0]) && ChainTo(if b == [] then t else b[0], b, t)
    decreases |a|
  {
    if a == [] {
      assert a + b == b;
    } else {
      assert (a + b)[1..] == a[1..] + b;
      ChainSplit(a[0].next, a[1..], b, t);
    }
  }

  lemma {:induction false} ChainLength<K, V>(h: HashList?<K, V>, a: seq<HashList<K, V>>, b: seq<HashList<K, V>>)
    requires Chain(h, a) && Chain(h, b)
    ensures |a| == |b|
    decreases |a|
  {
    if a != [] && b != [] {
      ChainLength(a[0].next, a[1..], b[1..]);
    }
  }

  /** A chain that ends visits no cell twice. */
  lemma {:induction false} ChainNoDup<K, V>(h: HashList?<K, V>, cs: seq<HashList<K, V>>)
    requires Chain(h, cs)
    ensures NoDup(cs)
    decreases |cs|
  {
    if cs != [] {
      ChainNoDup(cs[0].next, cs[1..]);
      if cs[0] in cs[1..] {
        var i :| 1 <= i < |cs| && cs[i] == cs[0];
        assert cs == cs[..i] + cs[i..];
        ChainSplit(h, cs[..i], cs[i..], null);
        ChainLength(h, cs, cs[i..]);
      }
    }
  }

  lemma {:induction false} NoDupAround<T>(a: seq<T>, x: T, b: seq<T>)
    requires NoDup(a + [x] + b)
    ensures x !in a && x !in b && NoDup(b)
    decreases a
  {
    var s := a + [x] + b;
    if a == [] {
      assert s[1..] == b;
    } else {
      assert s[1..] == a[1..] + [x] + b;
      assert s[1..][|a| - 1] == x;
      NoDupAround(a[1..], x, b);
    }
  }

  ghost function Drop<T>(s: seq<T>, i: nat): seq<T>
    requires i < |s|
  {
    s[..i] + s[i + 1..]
  }

  lemma DropBag<T>(s: seq<T>, i: nat)
    requires i < |s|
    ensures multiset(Drop(s, i)) + multiset{s[i]} == multiset(s)
    ensures forall k | 0 <= k < |Drop(s, i)| :: Drop(s, i)[k] in s
  {
    assert s == s[..i] + [s[i]] + s[i + 1..];
  }

  lemma DropMembers<T>(s: seq<T>, i: nat)
    requires i < |s| && NoDup(s)
    ensures forall x | x in Drop(s, i) :: x in s
    ensures forall x | x in s && x != s[i] :: x in Drop(s, i)
    ensures s[i] !in Drop(s, i)
  {
    hide NoDup;
    DropKeeps(s, i);
    assert s == s[..i] + [s[i]] + s[i + 1..];
    NoDupAround(s[..i], s[i], s[i + 1..]);
  }

  lemma DropKeeps<T>(s: seq<T>, i: nat)
    requires i < |s|
    ensures forall x | x in Drop(s, i) :: x in s
    ensures forall x | x in s && x != s[i] :: x in Drop(s, i)
  {
    forall x | x in s && x != s[i] ensures x in Drop(s, i) {
      var k :| 0 <= k < |s| && s[k] == x;
      assert Drop(s, i)[if k < i then k else k - 1] == x;
    }
  }

  lemma DropWithin<T>(s: seq<T>, i: nat, all: set<T>)
    requires i < |s| && forall k | 0 <= k < |s| :: s[k] in all
    ensures forall k | 0 <= k < |Drop(s, i)| :: Drop(s, i)[k] in all
  {
    var d := Drop(s, i);
    forall k | 0 <= k < |d| ensures d[k] in all {
      assert d[k] == s[if k < i then k else k + 1];
    }
  }

  lemma BucketDropped<K, V>(h: HashList?<K, V>, cs: seq<HashList<K, V>>, es: seq<Entry<K, V>>, b: nat, i: nat)
    requires Carries(cs, es) && i < |cs| && Chain(h, Drop(cs, i)) && Home(Drop(cs, i), b)
    ensures Bucket(h, Drop(cs, i), Drop(es, i), b)
  {
    hide ChainTo;
  }

  /** Redirecting the predecessor of the cell at position `i` takes the cell out of the chain. */
  method Bypass<K, V>(prev: HashList<K, V>, hl: HashList<K, V>,
                      ghost h: HashList?<K, V>, ghost cs: seq<HashList<K, V>>, ghost i: nat)
    requires Chain(h, cs) && 0 < i < |cs| && prev == cs[i - 1] && hl == cs[i]
    modifies prev`next
    ensures Chain(h, Drop(cs, i))
  {
    ghost var a, b := cs[..i - 1], cs[i + 1..];
    ChainParts(h, cs, i);
    prev.next := hl.next;
    assert [prev][1..] == [];
    ChainSplit(h, a, [prev], if b == [] then null else b[0]);
    ChainSplit(h, a + [prev], b, null);
    assert Drop(cs, i) == a + [prev] + b;
  }

  lemma ChainDropFirst<K, V>(h: HashList?<K, V>, cs: seq<HashList<K, V>>)
    requires cs != [] && Chain(h, cs)
    ensures Chain(cs[0].next, Drop(cs, 0))
  {
    assert Drop(cs, 0) == cs[1..];
  }

  lemma ChainParts<K, V>(h: HashList?<K, V>, cs: seq<HashList<K, V>>, i: nat)
    requires Chain(h, cs) && 0 < i < |cs|
    ensures ChainTo(h, cs[..i - 1], cs[i - 1]) && Chain(cs[i].next, cs[i + 1..])
    ensures cs[i].next == if cs[i + 1..] == [] then null else cs[i + 1..][0]
    ensures cs[i - 1] !in cs[..i - 1] && cs[i - 1] !in cs[i + 1..]
  {
    var a, b, p := cs[..i - 1], cs[i + 1..], cs[i - 1];
    ChainNoDup(h, cs);
    assert cs == a + [p] + cs[i..];
    NoDupAround(a, p, cs[i..]);
    ChainSplit(h, a, cs[i - 1..], null);
    assert cs == a + cs[i - 1..];
    assert cs[i - 1..][1..] == cs[i..] && cs[i..][1..] == b;
  }

  lemma {:induction false} ChainIndices<K, V>(cs: seq<HashList<K, V>>)
    requires forall i | 0 <= i < |cs| - 1 :: cs[i].next == cs[i + 1]
    requires cs != [] ==> cs[|cs| - 1].next == null
    ensures Chain(if cs == [] then null else cs[0], cs)
    decreases |cs|
  {
    if cs != [] {
      var t := cs[1..];
      forall i | 0 <= i < |t| - 1 ensures t[i].next == t[i + 1] {
        assert cs[i + 1].next == cs[i + 1 + 1];
      }
      ChainIndices(t);
      assert |cs| > 1 ==> cs[0].next == cs[0 + 1];
    }
  }

  /** A stretch of cells together with the entries they carry. */
  datatype Run<K, V> = Run(cells: seq<HashList<K, V>>, entries: seq<Entry<K, V>>)

  function Put<K, V>(cell: HashList<K, V>, e: Entry<K, V>, r: Run<K, V>): Run<K, V> {
    Run([cell] + r.cells, [e] + r.entries)
  }

  ghost predicate ListRun<K, V>(h: HashList?<K, V>, r: Run<K, V>)
    reads r.cells`next, r.cells`key, r.cells`data
  {
    List(h, r.cells, r.entries) && NoDup(r.cells)
  }

  /** The first cell of a list that has one. */
  lemma ListNext<K, V>(h: HashList<K, V>, r: Run<K, V>) returns (e: Entry<K, V>, left: Run<K, V>)
    requires ListRun(h, r)
    ensures r == Put(h, e, left) && |left.cells| < |r.cells|
    ensures h.key == Holds(e.key) && h.data == Holds(e.data)
    ensures ListRun(h.next, left) && h !in left.cells
  {
    e, left := r.entries[0], Run(r.cells[1..], r.entries[1..]);
  }

  /** Three runs share out the cells and the entries of `all`. */
  ghost predicate Shares<K, V>(a: Run<K, V>, b: Run<K, V>, c: Run<K, V>, all: Run<K, V>) {
    && Elems(a.cells) + Elems(b.cells) + Elems(c.cells) == Elems(all.cells)
    && Elems(a.cells) !! Elems(b.cells) && Elems(a.cells) !! Elems(c.cells) && Elems(b.cells) !! Elems(c.cells)
    && multiset(a.entries) + multiset(b.entries) + multiset(c.entries) == multiset(all.entries)
  }

  lemma ShareStep<K, V>(x: HashList<K, V>, e: Entry<K, V>, a: Run<K, V>, b: Run<K, V>, c: Run<K, V>, all: Run<K, V>)
    requires Shares(a, b, Put(x, e, c), all) && x !in c.cells
    ensures Shares(Put(x, e, a), b, c, all) && Shares(a, Put(x, e, b), c, all)
    ensures x in all.cells && x !in a.cells && x !in b.cells
  {
    ElemsCons(x, c.cells);
    ElemsCons(x, a.cells);
    ElemsCons(x, b.cells);
    InElems(all.cells, x);
    InElems(a.cells, x);
    InElems(b.cells, x);
    InElems(c.cells, x);
  }

  lemma ShareEnd<K, V>(a: Run<K, V>, b: Run<K, V>, rest: Run<K, V>, all: Run<K, V>)
    requires Shares(a, b, rest, all) && ListRun(null, rest)
    ensures Elems(a.cells) + Elems(b.cells) == Elems(all.cells) && Elems(a.cells) !! Elems(b.cells)
    ensures multiset(a.entries) + multiset(b.entries) == multiset(all.entries)
  {
    assert rest.cells == [] && rest.entries == [];
  }

  lemma PartsWithin<T>(s: seq<T>, a: seq<T>, b: seq<T>)
    requires Elems(a) + Elems(b) == Elems(s)
    ensures forall i | 0 <= i < |a| :: a[i] in s
    ensures forall i | 0 <= i < |b| :: b[i] in s
  {
    forall i | 0 <= i < |a| ensures a[i] in s { assert a[i] in Elems(a); }
    forall i | 0 <= i < |b| ensures b[i] in s { assert b[i] in Elems(b); }
  }

  lemma HalvesOf<T>(s: seq<T>, a: seq<T>, b: seq<T>)
    requires Elems(a) + Elems(b) == Elems(s) && Elems(a) !! Elems(b)
    ensures forall i | 0 <= i < |s| :: s[i] in a || s[i] in b
    ensures forall i | 0 <= i < |a| :: a[i] in s && a[i] !in b
    ensures forall i | 0 <= i < |b| :: b[i] in s && b[i] !in a
  {
    forall i | 0 <= i < |s| ensures s[i] in a || s[i] in b { assert s[i] in Elems(s); }
    forall i | 0 <= i < |a| ensures a[i] in s && a[i] !in b { assert a[i] in Elems(a); }
    forall i | 0 <= i < |b| ensures b[i] in s && b[i] !in a { assert b[i] in Elems(b); }
  }

  // ----- The bag of entries spread over the buckets -----

  ghost function Bag<E>(es: seq<seq<E>>): multiset<E> {
    if es == [] then multiset{} else multiset(es[0]) + Bag(es[1..])
  }

  lemma Cancel<E>(a: multiset<E>, b: multiset<E>, x: multiset<E>, y: multiset<E>)
    requires a + y == b + (x + y)
    ensures a == b + x
  {
    assert a == (a + y) - y;
  }

  lemma {:induction false} BagAppend<E>(es: seq<seq<E>>, y: seq<E>)
    ensures Bag(es + [y]) == Bag(es) + multiset(y)
  {
    if es != [] {
      BagAppend(es[1..], y);
      assert (es + [y])[1..] == es[1..] + [y];
    }
  }

  lemma {:induction false} BagUpdate<E>(es: seq<seq<E>>, b: nat, x: seq<E>)
    requires b < |es|
    ensures Bag(es[b := x]) + multiset(es[b]) == Bag(es) + multiset(x)
  {
    if b == 0 {
      assert es[0 := x][1..] == es[1..];
    } else {
      var t := es[1..];
      BagUpdate(t, b - 1, x);
      var u := t[b - 1 := x];
      assert es[b := x][0] == es[0] && es[b := x][1..] == u && es[b] == t[b - 1];
      calc {
        Bag(es[b := x]) + multiset(es[b]);
        multiset(es[0]) + Bag(u) + multiset(t[b - 1]);
        multiset(es[0]) + (Bag(u) + multiset(t[b - 1]));
        multiset(es[0]) + (Bag(t) + multiset(x));
        Bag(es) + multiset(x);
      }
    }
  }

  /** What the buckets hold once bucket `b0` has been dealt out to `b0` and to one new bucket. */
  ghost function Dealt<T>(lists: seq<seq<T>>, b0: nat, low: seq<T>, high: seq<T>): seq<seq<T>>
    requires b0 < |lists|
  {
    lists[b0 := low] + [high]
  }

  lemma DealtBag<E>(es: seq<seq<E>>, b0: nat, low: seq<E>, high: seq<E>)
    requires b0 < |es| && multiset(low) + multiset(high) == multiset(es[b0])
    ensures Bag(Dealt(es, b0, low, high)) == Bag(es)
  {
    hide Bag;
    BagUpdate(es, b0, low);
    BagAppend(es[b0 := low], high);
    var x, y := Bag(es[b0 := low]), Bag(es);
    calc {
      x + multiset(high) + multiset(low);
      x + (multiset(low) + multiset(high));
      y + multiset(low);
      y + (multiset{} + multiset(low));
    }
    Cancel(x + multiset(high), y, multiset{}, multiset(low));
  }

  lemma {:induction false} BagIn<E>(es: seq<seq<E>>, e: E)
    ensures e in Bag(es) <==> exists b :: 0 <= b < |es| && e in es[b]
  {
    if es != [] {
      BagIn(es[1..], e);
      if e in Bag(es[1..]) {
        var b :| 0 <= b < |es[1..]| && e in es[1..][b];
        assert e in es[b + 1];
      }
      forall b | 0 <= b < |es| && e in es[b] ensures e in Bag(es) {
        assert b > 0 ==> e in es[1..][b - 1];
      }
    }
  }

  // ----- The table -----

  /** `struct hashtable`. Keys are compared by what `id` makes of them (the word itself, the string, the device and
      inode) and hashed by `hash` of that, before the masks are applied. */
  class HashTable<K, I(==), V(==)> {
    var split: nat
    var max: nat
    var mask1: nat
    var mask2: nat
    var kcount: int
    var bcount: nat
    const buckets: Directory<HashList?<K, V>>
    var freeList: HashList?<K, V>
    var chunks: seq<array<HashList<K, V>>>
    const id: K -> I
    const hash: I -> nat

    ghost var level: nat
    ghost var chains: seq<seq<HashList<K, V>>>
    ghost var entries: seq<seq<Entry<K, V>>>
    ghost var free: seq<HashList<K, V>>
    ghost var cells: set<HashList<K, V>>

    // ----- Invariants -----

    /** max is a power of two, the masks belong to it and to the next one, and bcount counts the buckets. */
    ghost predicate Numbers()
      reads this`split, this`max, this`mask1, this`mask2, this`bcount, this`level
    {
      && split < max == Pow2(level) && mask1 == max - 1 && mask2 == 2 * max - 1
      && HSEGSIZE <= bcount == max + split <= HSEGSIZE * HDIRSIZE
    }

    /** Exactly the segments that the buckets need have been allocated, and every bucket's slot is initialised. */
    ghost predicate Allocated()
      reads this`bcount, buckets, buckets.dir, buckets.segs
    {
      && buckets.Valid() && |buckets.heads| == bcount
      && |buckets.segs| == (bcount + HSEGSIZE - 1) / HSEGSIZE
    }

    ghost predicate Shaped()
      reads this`chains, this`entries, this`cells, buckets`heads
    {
      && |chains| == |entries| == |buckets.heads|
      && (forall b, i | 0 <= b < |chains| && 0 <= i < |chains[b]| :: chains[b][i] in cells)
    }

    /** Bucket `b` holds the null-terminated chain `chains[b]`, carrying `entries[b]`. */
    ghost predicate Chained()
      reads this`chains, this`entries, this`cells, buckets`heads, cells
    {
      Shaped() && forall b | 0 <= b < |chains| :: Bucket(buckets.heads[b], chains[b], entries[b], b)
    }

    ghost predicate InBucket(h: nat, b: nat)
      requires split <= max && max > 0
      reads this`split, this`max
    {
      BucketOf(h, split, max) == b
    }

    /** Every cell sits in the bucket that its key's hash names. */
    ghost predicate Hashed()
      requires split <= max && max > 0
      reads this`split, this`max, this`entries
    {
      forall b, i | 0 <= b < |entries| && 0 <= i < |entries[b]| :: InBucket(hash(id(entries[b][i].key)), b)
    }

    ghost predicate FreeCells()
      reads this`free, this`cells
    {
      forall i | 0 <= i < |free| :: free[i] in cells
    }

    ghost predicate FreeListed()
      reads this`freeList, this`free, this`cells, free`next, free`at
    {
      && FreeCells()
      && Chain(freeList, free) && Home(free, FREE)
    }

    /** Every cell of every chunk is on exactly one list: the free list, or the chain of one bucket. */
    ghost predicate Located()
      reads this`cells, this`chains, this`free, cells`at
    {
      LocatedOn(chains)
    }

    ghost predicate LocatedOn(lists: seq<seq<HashList<K, V>>>)
      reads this`cells, this`free, cells`at
    {
      forall c | c in cells :: if c.at == FREE then c in free else 0 <= c.at < |lists| && c in lists[c.at]
    }

    ghost predicate Accounted()
      reads this`cells, this`chunks, this`free, this`kcount, this`entries
    {
      && |cells| == HCHUNK * |chunks|
      && kcount == |Contents()|
      && |cells| == kcount + |free|
    }

    /** The average load stays below HLOAD until the directory is full. */
    ghost predicate Loaded()
      reads this`kcount, this`bcount
    {
      kcount < HLOAD * bcount || bcount == HSEGSIZE * HDIRSIZE
    }

    ghost predicate Valid()
      reads this, buckets, buckets.dir, buckets.segs, cells
    {
      && Numbers() && Allocated() && Chained() && Hashed()
      && FreeCells() && FreeListed() && Located() && Accounted() && Loaded()
    }

    ghost function Contents(): multiset<Entry<K, V>>
      reads this`entries
    {
      Bag(entries)
    }

    ghost function Repr(): set<object>
      reads this`cells, buckets`segs
    {
      {this, buckets, buckets.dir} + (set s | s in buckets.segs) + cells
    }

    // ----- Creation -----

    /** allocHashTable */
    constructor (id: K -> I, hash: I -> nat)
      ensures Valid() && Contents() == multiset{} && fresh(Repr())
      ensures this.id == id && this.hash == hash
    {
      this.id, this.hash := id, hash;
      split, max, mask1, mask2 := 0, HSEGSIZE, HSEGSIZE - 1, 2 * HSEGSIZE - 1;
      kcount, bcount := 0, HSEGSIZE;
      freeList, chunks := null, [];
      level, free, cells := 10, [], {};
      var dir: Directory<HashList?<K, V>> := FirstSegment();
      buckets := dir;
      chains, entries := seq(HSEGSIZE, _ => []), seq(HSEGSIZE, _ => []);
      new;
      assert fresh(Repr());
      assert Valid() && Contents() == multiset{} by {
        hide *;
        Initially();
      }
    }

    lemma Initially()
      requires split == 0 && max == HSEGSIZE && mask1 == HSEGSIZE - 1 && mask2 == 2 * HSEGSIZE - 1
      requires kcount == 0 && bcount == HSEGSIZE && freeList == null && chunks == []
      requires level == 10 && free == [] && cells == {}
      requires |chains| == |entries| == HSEGSIZE
      requires forall b | 0 <= b < HSEGSIZE :: chains[b] == [] && entries[b] == []
      requires buckets.Valid() && |buckets.segs| == 1 && |buckets.heads| == HSEGSIZE
      requires forall b | 0 <= b < HSEGSIZE :: buckets.heads[b] == null
      ensures Valid() && Contents() == multiset{}
    {
      hide Directory.Valid, InBucket;
      BagEmpty(entries);
      assert Pow2(5) == 32 && Pow2(10) == 1024;
    }

    // ----- Hashing -----

    /** hashWord, hashStr and hashLock, which differ only in the word they mask. */
    function HashKey(key: K): (b: nat)
      requires Numbers()
      reads this`split, this`max, this`mask1, this`mask2, this`bcount, this`level
      ensures InBucket(hash(id(key)), b) && b < bcount
    {
      var h := hash(id(key));
      MasksAddress(h, split, max, level);
      var bucket := BitAnd(h, mask1);
      if bucket < split then BitAnd(h, mask2) else bucket
    }

    // ----- Cells -----

    method AllocHashList() returns (hl: HashList<K, V>)
      requires Chained() && FreeListed() && Located() && |cells| == HCHUNK * |chunks|
      modifies this`freeList, this`chunks, this`free, this`cells
      ensures Chained() && FreeListed() && LocatedBut(hl) && |cells| == HCHUNK * |chunks|
      ensures hl in cells && hl.at == FREE && hl !in free
      ensures |cells| - |free| == old(|cells| - |free|) + 1
      ensures old(cells) <= cells && fresh(cells - old(cells))
    {
      if freeList != null {
        hl := freeList;
        freeList := hl.next;
        ChainNoDup(hl, free);
        free := free[1..];
      } else {
        hl := AllocChunk();
      }
    }

    method AllocChunk() returns (hl: HashList<K, V>)
      requires freeList == null && FreeListed() && |cells| == HCHUNK * |chunks|
      modifies this`freeList, this`chunks, this`free, this`cells
      ensures FreeListed() && |cells| == HCHUNK * |chunks|
      ensures hl in cells && hl.at == FREE && hl !in free
      ensures forall c | c in cells - old(cells) :: c.at == FREE && (c == hl || c in free)
      ensures |cells| - |free| == old(|cells| - |free|) + 1
      ensures old(cells) <= cells && fresh(cells - old(cells))
    {
      assert free == [];
      hide Chain, Home;
      ghost var made;
      var cl;
      cl, made := NewChunk();
      chunks := [cl] + chunks;
      hl := cl[0];
      freeList := cl[1];
      free := made[1..];
      cells := cells + Elems(made);
    }

    // ----- Lookup -----

    /** lookupHashTable_: the data of some entry with the key, NULL if there is none. */
    method Lookup(key: K) returns (r: Option<V>, ghost hit: Option<Entry<K, V>>)
      requires Valid()
      ensures Numbers() && |entries| == bcount && hit == Pick(key, None)
      ensures hit.Some? ==> hit.value in Contents() && id(hit.value.key) == id(key) && r == hit.value.data
      ensures hit.None? ==> r == None && forall e | e in Contents() :: id(e.key) != id(key)
    {
      hide Pick, Valid, Numbers, Chained, Hashed, FreeListed, Located, Contents;
      Opened();
      var bucket, prev, hl;
      ghost var i;
      bucket, prev, hl, i := Locate(key, None);
      if hl == null {
        return None, None;
      }
      return hl.data.value, Some(entries[bucket][i]);
    }

    /** The cell of some entry that a lookup or a removal is after, with its place and its predecessor. */
    method Locate(key: K, data: Option<V>)
      returns (bucket: nat, prev: HashList?<K, V>, hl: HashList?<K, V>, ghost i: nat)
      requires Numbers() && Allocated() && Chained() && Hashed()
      ensures bucket < |chains| == |entries| == |buckets.heads| && i <= |chains[bucket]| == |entries[bucket]|
      ensures |entries| == bcount
      ensures hl == null ==> Pick(key, data) == None && forall e | e in Contents() :: !Matches(e, key, data)
      ensures hl != null ==> i < |chains[bucket]| && i < |entries[bucket]| && hl == chains[bucket][i]
                             && prev == (if i == 0 then null else chains[bucket][i - 1])
                             && Matches(entries[bucket][i], key, data) && entries[bucket][i] in Contents()
                             && hl.data == Holds(entries[bucket][i].data) && Pick(key, data) == Some(entries[bucket][i])
    {
      hide Numbers, Directory.Valid, Chained, Hashed, Chain, Carries, InBucket, Bag;
      bucket := HashKey(key);
      var h := buckets.Get(bucket);
      InChain(bucket);
      KeyInBucket(key, bucket);
      prev, hl, i := Find(h, key, data, chains[bucket], entries[bucket]);
      FirstMatchAt(entries[bucket], key, data, i);
      if hl != null {
        BagIn(entries, entries[bucket][i]);
      }
    }

    lemma InChain(bucket: nat)
      requires Allocated() && Chained() && bucket < bcount
      ensures |chains| == |entries| == |buckets.heads| && bucket < |chains|
      ensures Chain(buckets.heads[bucket], chains[bucket]) && Carries(chains[bucket], entries[bucket])
      ensures |chains[bucket]| == |entries[bucket]|
    {
      hide Chain;
      assert Bucket(buckets.heads[bucket], chains[bucket], entries[bucket], bucket);
    }

    ghost predicate Matches(e: Entry<K, V>, key: K, data: Option<V>) {
      id(e.key) == id(key) && (data == None || e.data == data)
    }

    /** The entry a lookup or a removal picks: the first match in the chain of the key's bucket. */
    ghost function Pick(key: K, data: Option<V>): Option<Entry<K, V>>
      requires Numbers() && |entries| == bcount
      reads this`split, this`max, this`mask1, this`mask2, this`bcount, this`level, this`entries
    {
      FirstMatch(entries[HashKey(key)], key, data)
    }

    ghost function FirstMatch(es: seq<Entry<K, V>>, key: K, data: Option<V>): Option<Entry<K, V>> {
      if es == [] then None
      else if Matches(es[0], key, data) then Some(es[0])
      else FirstMatch(es[1..], key, data)
    }

    lemma {:induction false} FirstMatchAt(es: seq<Entry<K, V>>, key: K, data: Option<V>, i: nat)
      requires i <= |es| && forall j | 0 <= j < i :: !Matches(es[j], key, data)
      requires i < |es| ==> Matches(es[i], key, data)
      ensures FirstMatch(es, key, data) == if i < |es| then Some(es[i]) else None
    {
      hide Matches;
      if i > 0 {
        FirstMatchAt(es[1..], key, data, i - 1);
      }
    }

    /** The walk along a chain of lookupHashTable_ (with no data) and removeHashTable_. */
    method Find(h: HashList?<K, V>, key: K, data: Option<V>, ghost cs: seq<HashList<K, V>>, ghost es: seq<Entry<K, V>>)
      returns (prev: HashList?<K, V>, hl: HashList?<K, V>, ghost i: nat)
      requires Chain(h, cs) && Carries(cs, es)
      ensures i <= |cs| && (i == |cs| <==> hl == null)
      ensures prev == if i == 0 then null else cs[i - 1]
      ensures hl != null ==> hl == cs[i] && Matches(es[i], key, data)
                             && hl.key == Holds(es[i].key) && hl.data == Holds(es[i].data)
      ensures forall j | 0 <= j < i :: !Matches(es[j], key, data)
    {
      prev, hl, i := null, h, 0;
      ghost var rest := cs;
      while hl != null
        invariant i <= |cs| && rest == cs[i..] && ChainTo(hl, rest, null)
        invariant prev == if i == 0 then null else cs[i - 1]
        invariant forall j | 0 <= j < i :: !Matches(es[j], key, data)
        decreases |rest|
      {
        assert hl == cs[i];
        if id(hl.key.value) == id(key) && (data == None || hl.data.value == data) {
          return;
        }
        prev := hl;
        hl := hl.next;
        i, rest := i + 1, rest[1..];
      }
    }

    /** An entry with the key can only be in the bucket its hash names. */
    lemma KeyInBucket(key: K, bucket: nat)
      requires Numbers() && Hashed() && InBucket(hash(id(key)), bucket) && bucket < |entries|
      ensures forall e | e in Contents() && id(e.key) == id(key) :: e in entries[bucket]
    {
      forall e | e in Contents() && id(e.key) == id(key) ensures e in entries[bucket] {
        BagIn(entries, e);
        var b :| 0 <= b < |entries| && e in entries[b];
        var i :| 0 <= i < |entries[b]| && entries[b][i] == e;
        assert InBucket(hash(id(entries[b][i].key)), b);
      }
    }

    // ----- Insertion -----

    /** insertHashTable_ once the table has been expanded: a new cell at the front of the key's chain. */
    method PushOn(key: K, data: Option<V>, bucket: nat, hl: HashList<K, V>)
      requires Allocated() && Chained() && Numbers() && Hashed() && FreeListed()
      requires bucket < bcount && InBucket(hash(id(key)), bucket)
      requires hl in cells && hl.at == FREE && hl !in free
      requires LocatedIn(chains, hl)
      modifies this`chains, this`entries, buckets`heads, buckets.segs, hl
      ensures Allocated() && Chained() && Hashed() && FreeListed() && Located()
      ensures Contents() == old(Contents()) + multiset{Entry(key, data)}
    {
      hide *;
      PushFacts();
      var first := buckets.Get(bucket);
      FillCell(hl, key, data, first);
      LinkCell(hl, key, data, bucket);
      NowLocated(old(chains), hl, bucket);
      StillAllocated();
    }

    lemma PushFacts()
      requires Allocated() && Chained() && Numbers()
      ensures buckets.Valid() && |buckets.heads| == bcount == |chains| == |entries| && split <= max && max > 0
      ensures |buckets.segs| == (bcount + HSEGSIZE - 1) / HSEGSIZE
    {
    }

    lemma StillAllocated()
      requires buckets.Valid() && |buckets.heads| == bcount && |buckets.segs| == (bcount + HSEGSIZE - 1) / HSEGSIZE
      ensures Allocated()
    {
    }

    lemma NowLocated(before: seq<seq<HashList<K, V>>>, hl: HashList<K, V>, bucket: nat)
      requires LocatedIn(before, hl) && hl.at == bucket
      requires bucket < |before| && chains == before[bucket := [hl] + before[bucket]]
      ensures Located()
    {
      forall c | c in cells && c.at != FREE ensures 0 <= c.at < |chains| && c in chains[c.at] {
        assert c != hl ==> c in before[c.at];
        assert c.at == bucket ==> c in [hl] + before[bucket];
      }
    }

    /** Every cell but `hl` is on the free list or in one of `lists`. */
    ghost predicate LocatedIn(lists: seq<seq<HashList<K, V>>>, hl: HashList<K, V>)
      reads this`cells, this`free, cells`at
    {
      forall c | c in cells && c != hl :: if c.at == FREE then c in free else 0 <= c.at < |lists| && c in lists[c.at]
    }

    ghost predicate LocatedBut(hl: HashList<K, V>)
      reads this`cells, this`chains, this`free, cells`at
    {
      LocatedIn(chains, hl)
    }

    method FillCell(hl: HashList<K, V>, key: K, data: Option<V>, next: HashList?<K, V>)
      requires Chained() && FreeListed() && hl.at == FREE && hl !in free && LocatedIn(chains, hl)
      modifies hl`key, hl`data, hl`next
      ensures Chained() && FreeListed() && LocatedIn(chains, hl)
      ensures hl.key == Holds(key) && hl.data == Holds(data) && hl.next == next
    {
      hide Chain, Carries;
      hl.key := Holds(key);
      hl.data := Holds(data);
      hl.next := next;
      forall b | 0 <= b < |chains| ensures Bucket(buckets.heads[b], chains[b], entries[b], b) {
        assert old(Bucket(buckets.heads[b], chains[b], entries[b], b));
      }
    }

    ghost method Adopt(hl: HashList<K, V>, key: K, data: Option<V>, bucket: nat)
      requires Chained() && bucket < |chains| && hl.at == FREE && LocatedIn(chains, hl)
      requires hl.key == Holds(key) && hl.data == Holds(data) && hl.next == buckets.heads[bucket]
      modifies hl`at
      ensures hl.at == bucket && LocatedIn(chains, hl)
      ensures Bucket(hl, [hl] + chains[bucket], [Entry(key, data)] + entries[bucket], bucket)
      ensures forall b | 0 <= b < |chains| && b != bucket :: Bucket(buckets.heads[b], chains[b], entries[b], b)
    {
      hl.at := bucket;
      forall b | 0 <= b < |chains| ensures Bucket(buckets.heads[b], chains[b], entries[b], b) {
        assert old(Bucket(buckets.heads[b], chains[b], entries[b], b));
      }
      assert ([hl] + chains[bucket])[1..] == chains[bucket];
    }

    method LinkCell(hl: HashList<K, V>, key: K, data: Option<V>, bucket: nat)
      requires buckets.Valid() && Chained() && split <= max && max > 0 && Hashed()
      requires bucket < |chains| && InBucket(hash(id(key)), bucket) && hl in cells && LocatedIn(chains, hl)
      requires hl.key == Holds(key) && hl.data == Holds(data) && hl.next == buckets.heads[bucket] && hl.at == FREE
      modifies this`chains, this`entries, buckets`heads, buckets.segs, hl`at
      ensures buckets.Valid() && |buckets.heads| == old(|buckets.heads|)
      ensures Chained() && Hashed() && hl.at == bucket && LocatedIn(old(chains), hl)
      ensures chains == old(chains)[bucket := [hl] + old(chains)[bucket]]
      ensures Contents() == old(Contents()) + multiset{Entry(key, data)}
    {
      hide Directory.Valid, InBucket, Bucket, Contents, Hashed, LocatedIn;
      ghost var cs, es := [hl] + chains[bucket], [Entry(key, data)] + entries[bucket];
      Adopt(hl, key, data, bucket);
      ghost var more := multiset(entries[bucket]);
      buckets.Set(bucket, hl);
      Rebucket(bucket, cs, es);
      Cancel(Contents(), old(Contents()), multiset{Entry(key, data)}, more);
    }

    /** Records that bucket `b`, whose slot and cells have been rewritten, now holds `cs` and `es`. */
    ghost method Rebucket(b: nat, cs: seq<HashList<K, V>>, es: seq<Entry<K, V>>)
      requires b < |chains| && Shaped() && split <= max && max > 0 && Hashed()
      requires forall c | 0 <= c < |chains| && c != b :: Bucket(buckets.heads[c], chains[c], entries[c], c)
      requires Bucket(buckets.heads[b], cs, es, b) && forall i | 0 <= i < |cs| :: cs[i] in cells
      requires forall i | 0 <= i < |es| :: es[i] in entries[b] || InBucket(hash(id(es[i].key)), b)
      modifies this`chains, this`entries
      ensures chains == old(chains)[b := cs] && entries == old(entries)[b := es]
      ensures Chained() && Hashed()
      ensures Contents() + multiset(old(entries[b])) == old(Contents()) + multiset(es)
    {
      hide InBucket, Bucket, Bag;
      BagUpdate(entries, b, es);
      chains, entries := chains[b := cs], entries[b := es];
    }

    method AddCell(key: K, data: Option<V>)
      requires Numbers() && Allocated() && Chained() && Hashed() && FreeListed() && Located()
      requires |cells| == HCHUNK * |chunks|
      modifies this`freeList, this`chunks, this`free, this`cells, this`chains, this`entries
      modifies buckets`heads, buckets.segs, cells
      ensures Allocated() && Chained() && Hashed() && FreeListed() && Located()
      ensures |cells| == HCHUNK * |chunks| && |cells| - |free| == old(|cells| - |free|) + 1
      ensures Contents() == old(Contents()) + multiset{Entry(key, data)}
      ensures old(cells) <= cells && fresh(cells - old(cells))
    {
      hide Numbers, Allocated, Chained, Hashed, FreeListed, Located, LocatedIn, LocatedBut, Contents, InBucket;
      var bucket := HashKey(key);
      var hl := AllocHashList();
      PushOn(key, data, bucket, hl);
    }

    lemma Opened()
      requires Valid()
      ensures Numbers() && Allocated() && Chained() && Hashed() && FreeCells() && FreeListed() && Located()
      ensures |cells| == HCHUNK * |chunks| && kcount == |Contents()| && |cells| == kcount + |free|
      ensures kcount < HLOAD * bcount || bcount == HSEGSIZE * HDIRSIZE
      ensures bcount <= HSEGSIZE * HDIRSIZE
    {
      hide Allocated, Chained, Hashed, FreeListed, Located, Contents;
    }

    lemma Closed()
      requires Numbers() && Allocated() && Chained() && Hashed() && FreeListed() && Located()
      requires |cells| == HCHUNK * |chunks| && kcount == |Contents()| && |cells| == kcount + |free|
      requires kcount < HLOAD * bcount || bcount == HSEGSIZE * HDIRSIZE
      ensures Valid()
    {
      hide Numbers, Allocated, Chained, Hashed, Chain, Home, Located, Contents;
    }

    /** insertHashTable_ */
    method Insert(key: K, data: Option<V>)
      requires Valid()
      modifies this, buckets, buckets.dir, buckets.segs, cells
      ensures Valid() && Contents() == old(Contents()) + multiset{Entry(key, data)}
      ensures old(bcount) <= bcount <= old(bcount) + 1
      ensures fresh(Repr() - old(Repr()))
    {
      hide Valid, Numbers, Allocated, Chained, Hashed, FreeListed, Located, Contents;
      Opened();
      MakeSpace();
      AddCell(key, data);
      Closed();
    }

    /** The counter, and the expansion when the table gets too full. */
    method MakeSpace()
      requires Numbers() && Allocated() && Chained() && Hashed() && FreeListed() && Located()
      requires kcount < HLOAD * bcount || bcount == HSEGSIZE * HDIRSIZE
      requires bcount <= HSEGSIZE * HDIRSIZE
      modifies this`kcount
      modifies this`split, this`max, this`mask1, this`mask2, this`bcount, this`level, this`chains, this`entries
      modifies buckets`heads, buckets`segs, buckets.dir, buckets.segs, cells`next, cells`at
      ensures Numbers() && Allocated() && Chained() && Hashed() && FreeListed() && Located()
      ensures Contents() == old(Contents()) && kcount == old(kcount) + 1
      ensures kcount < HLOAD * bcount || bcount == HSEGSIZE * HDIRSIZE
      ensures old(bcount) <= bcount <= old(bcount) + 1
      ensures fresh((set s | s in buckets.segs) - old(set s | s in buckets.segs))
    {
      hide Numbers, Allocated, Chained, Hashed, FreeListed, Located, Contents;
      kcount := kcount + 1;
      if kcount >= HLOAD * bcount {
        Expand();
      }
    }

    // ----- Removal -----

    /** freeHashList: the cell goes to the front of the free list. */
    method FreeHashList(hl: HashList<K, V>)
      requires Chained() && FreeListed() && LocatedBut(hl) && hl in cells && hl.at == FREE && hl !in free
      modifies this`freeList, this`free, hl`next
      ensures Chained() && FreeListed() && Located() && free == [hl] + old(free)
    {
      hide List;
      hl.next := freeList;
      freeList := hl;
      assert ([hl] + free)[1..] == free;
      free := [hl] + free;
      forall b | 0 <= b < |chains| ensures Bucket(buckets.heads[b], chains[b], entries[b], b) {
        assert old(Bucket(buckets.heads[b], chains[b], entries[b], b));
      }
    }

    /** What is known of the bucket that a cell is to be taken out of. */
    lemma AtCell(bucket: nat, i: nat)
      requires Chained() && FreeListed() && bucket < |chains| && i < |chains[bucket]|
      ensures Shaped() && Others(bucket) && Clear(bucket)
      ensures List(buckets.heads[bucket], chains[bucket], entries[bucket]) && Home(chains[bucket], bucket)
      ensures |entries[bucket]| == |chains[bucket]| && chains[bucket][i] in cells && NoDup(chains[bucket])
    {
      ChainNoDup(buckets.heads[bucket], chains[bucket]);
      assert Bucket(buckets.heads[bucket], chains[bucket], entries[bucket], bucket);
      ChainsClear(bucket);
    }

    /** The pointer write of removeHashTable_. */
    method Cut(bucket: nat, prev: HashList?<K, V>, hl: HashList<K, V>, ghost i: nat)
      requires buckets.Valid() && FreeListed() && bucket < |chains| == |entries| == |buckets.heads|
      requires List(buckets.heads[bucket], chains[bucket], entries[bucket]) && Others(bucket) && Clear(bucket)
      requires i < |chains[bucket]| && hl == chains[bucket][i]
      requires prev == if i == 0 then null else chains[bucket][i - 1]
      modifies buckets`heads, buckets.segs, chains[bucket]`next
      ensures buckets.Valid() && |buckets.heads| == old(|buckets.heads|)
      ensures Chain(buckets.heads[bucket], Drop(chains[bucket], i)) && Others(bucket) && FreeListed()
    {
      hide Directory.Valid, ChainTo, Carries, Home;
      if prev == null {
        ChainDropFirst(buckets.heads[bucket], chains[bucket]);
        buckets.Set(bucket, hl.next);
      } else {
        Bypass(prev, hl, buckets.heads[bucket], chains[bucket], i);
      }
      forall b | 0 <= b < |chains| && b != bucket ensures Bucket(buckets.heads[b], chains[b], entries[b], b) {
        assert old(Bucket(buckets.heads[b], chains[b], entries[b], b));
      }
    }

    /** The cell that has been cut out of its chain is on no list. */
    ghost method Vacate(bucket: nat, hl: HashList<K, V>, i: nat)
      requires bucket < |chains| == |entries| == |buckets.heads| && Others(bucket) && Clear(bucket)
      requires FreeListed() && Located() && Home(chains[bucket], bucket)
      requires i < |chains[bucket]| && hl == chains[bucket][i] && NoDup(chains[bucket])
      modifies hl`at
      ensures hl.at == FREE && hl !in free && Others(bucket) && FreeListed()
      ensures Home(Drop(chains[bucket], i), bucket)
      ensures LocatedIn(chains[bucket := Drop(chains[bucket], i)], hl)
    {
      hide List, Chain;
      ghost var cs := chains[bucket];
      DropMembers(cs, i);
      hl.at := FREE;
      forall b | 0 <= b < |chains| && b != bucket ensures Bucket(buckets.heads[b], chains[b], entries[b], b) {
        assert old(Bucket(buckets.heads[b], chains[b], entries[b], b));
      }
      forall c | c in cells && c.at == bucket && c != hl ensures c in Drop(cs, i) {
        assert c in cs;
      }
    }

    /** The cell at position `i` of a bucket's chain, found by Find, leaves the chain. */
    method Unlink(bucket: nat, prev: HashList?<K, V>, hl: HashList<K, V>, ghost i: nat)
      requires split <= max && max > 0 && Allocated() && Chained() && Hashed() && FreeListed() && Located()
      requires bucket < |chains| && i < |chains[bucket]| && hl == chains[bucket][i] && i < |entries[bucket]|
      requires prev == if i == 0 then null else chains[bucket][i - 1]
      modifies this`chains, this`entries, buckets`heads, buckets.segs, chains[bucket]`next, hl`at
      ensures Allocated() && Chained() && Hashed() && FreeListed() && LocatedBut(hl)
      ensures hl in cells && hl.at == FREE && hl !in free
      ensures Contents() + multiset{old(entries)[bucket][i]} == old(Contents())
    {
      hide Directory.Valid, Chained, Hashed, FreeListed, Located, LocatedIn, Bucket, Drop, Clear, Home, Carries, List,
           Contents;
      AtCell(bucket, i);
      ghost var es, cs := entries[bucket], chains[bucket];
      Cut(bucket, prev, hl, i);
      Vacate(bucket, hl, i);
      BucketDropped(buckets.heads[bucket], cs, es, bucket, i);
      DropBag(es, i);
      DropWithin(cs, i, cells);
      Rebucket(bucket, Drop(cs, i), Drop(es, i));
      Cancel(old(Contents()), Contents(), multiset{es[i]}, multiset(Drop(es, i)));
    }

    /** removeHashTable_: one entry with the key, and with the data unless that is NULL, leaves the table. */
    method Remove(key: K, data: Option<V>) returns (r: Option<V>, ghost hit: Option<Entry<K, V>>)
      requires Valid()
      modifies this, buckets, buckets.dir, buckets.segs, cells
      ensures Valid() && Repr() == old(Repr()) && bcount == old(bcount)
      ensures old(|entries|) == old(bcount) && old(Numbers()) && hit == old(Pick(key, data))
      ensures hit.Some? ==> Matches(hit.value, key, data) && r == hit.value.data
                            && Contents() + multiset{hit.value} == old(Contents())
      ensures hit.None? ==> r == None && Contents() == old(Contents())
                            && forall e | e in Contents() :: !Matches(e, key, data)
    {
      hide Valid, Numbers, Allocated, Chained, Hashed, FreeListed, Located, LocatedBut, Contents, Matches, Pick, Repr;
      Opened();
      NumberFacts();
      var bucket, prev, hl;
      ghost var i;
      bucket, prev, hl, i := Locate(key, data);
      if hl == null {
        return None, None;
      }
      hit, r := Some(entries[bucket][i]), hl.data.value;
      RemoveCell(bucket, prev, hl, i);
      kcount := kcount - 1;
      Closed();
    }

    method RemoveCell(bucket: nat, prev: HashList?<K, V>, hl: HashList<K, V>, ghost i: nat)
      requires split <= max && max > 0 && Allocated() && Chained() && Hashed() && FreeListed() && Located()
      requires bucket < |chains| && i < |chains[bucket]| && hl == chains[bucket][i] && i < |entries[bucket]|
      requires prev == if i == 0 then null else chains[bucket][i - 1]
      modifies this`chains, this`entries, this`freeList, this`free, buckets`heads, buckets.segs
      modifies chains[bucket]`next, hl`at, hl`next
      ensures Allocated() && Chained() && Hashed() && FreeListed() && Located() && |free| == old(|free|) + 1
      ensures Contents() + multiset{old(entries)[bucket][i]} == old(Contents())
    {
      hide Allocated, Chained, Hashed, FreeListed, Located, LocatedBut, Contents;
      Unlink(bucket, prev, hl, i);
      FreeHashList(hl);
    }

    // ----- Expansion -----

    /** Entries sit where their hash says, except that some of bucket `b0` belong in the coming bucket `n`. */
    ghost predicate HashedBut(b0: nat, n: nat)
      requires split <= max && max > 0
      reads this`split, this`max, this`entries
    {
      forall b, i | 0 <= b < |entries| && 0 <= i < |entries[b]| ::
        InBucket(hash(id(entries[b][i].key)), b) || (b == b0 && InBucket(hash(id(entries[b][i].key)), n))
    }

    /** The counters after one more bucket. */
    method Advance()
      requires Numbers() && Hashed() && split + max < HSEGSIZE * HDIRSIZE
      modifies this`split, this`max, this`mask1, this`mask2, this`bcount, this`level
      ensures Numbers() && bcount == old(bcount) + 1
      ensures HashedBut(old(split), old(max + split))
    {
      hide Mod;
      split := split + 1;
      if split == max {
        split := 0;
        max := max * 2;
        mask1 := mask2;
        mask2 := 2 * mask2 + 1;   // mask2 << 1 | 1
        level := level + 1;
      }
      bcount := bcount + 1;
      forall b, i | 0 <= b < |entries| && 0 <= i < |entries[b]|
        ensures InBucket(hash(id(entries[b][i].key)), b)
                || (b == old(split) && InBucket(hash(id(entries[b][i].key)), old(max + split)))
      {
        var h := hash(id(entries[b][i].key));
        assert old(InBucket(h, b));
        SplitMoves(h, old(split), old(max));
      }
    }

    ghost predicate AllIn(es: seq<Entry<K, V>>, b: nat)
      requires split <= max && max > 0
      reads this`split, this`max
    {
      forall i | 0 <= i < |es| :: InBucket(hash(id(es[i].key)), b)
    }

    ghost predicate AllInEither(es: seq<Entry<K, V>>, b: nat, n: nat)
      requires split <= max && max > 0
      reads this`split, this`max
    {
      forall i | 0 <= i < |es| :: InBucket(hash(id(es[i].key)), b) || InBucket(hash(id(es[i].key)), n)
    }

    /** A list whose entries all belong in bucket `b`. */
    ghost predicate Pile(h: HashList?<K, V>, r: Run<K, V>, b: nat)
      requires split <= max && max > 0
      reads this`split, this`max, r.cells`next, r.cells`key, r.cells`data
    {
      List(h, r.cells, r.entries) && AllIn(r.entries, b)
    }

    /** Moving a cell to the front of a list leaves the lists it is not on alone. */
    method Relink(hl: HashList<K, V>, ghost e: Entry<K, V>, onto: HashList?<K, V>, ghost r: Run<K, V>, ghost b: nat,
                  ghost next: HashList?<K, V>, ghost left: Run<K, V>,
                  ghost h: HashList?<K, V>, ghost other: Run<K, V>, ghost o: nat)
      requires split <= max && max > 0
      requires Pile(onto, r, b) && hl !in r.cells
      requires ListRun(next, left) && hl !in left.cells
      requires Pile(h, other, o) && hl !in other.cells
      requires hl.key == Holds(e.key) && hl.data == Holds(e.data) && InBucket(hash(id(e.key)), b)
      modifies hl`next
      ensures Pile(hl, Put(hl, e, r), b) && ListRun(next, left) && Pile(h, other, o)
    {
      hl.next := onto;
      assert ([hl] + r.cells)[1..] == r.cells;
    }

    lemma AllInNext(cell: HashList<K, V>, e: Entry<K, V>, r: Run<K, V>, b: nat, n: nat, now: nat)
      requires split <= max && max > 0 && AllInEither(Put(cell, e, r).entries, b, n)
      requires InBucket(hash(id(e.key)), now)
      ensures AllInEither(r.entries, b, n) && (now == n || now == b)
    {
      var es := Put(cell, e, r).entries;
      assert es[0] == e && forall i | 0 <= i < |r.entries| :: es[i + 1] == r.entries[i];
    }

    lemma StartSplit(h: HashList?<K, V>, b0: nat, n: nat, all: Run<K, V>)
      requires Numbers() && List(h, all.cells, all.entries)
      ensures split <= max && max > 0
      ensures ListRun(h, all) && Shares(Run([], []), Run([], []), all, all)
      ensures Pile(null, Run([], []), b0) && Pile(null, Run([], []), n)
    {
      ChainNoDup(h, all.cells);
    }

    /** The loop of expand: the cells of one chain are dealt out to two, without allocation. */
    method SplitChain(h: HashList?<K, V>, b0: nat, n: nat, ghost all: Run<K, V>)
      returns (low: HashList?<K, V>, high: HashList?<K, V>, ghost lows: Run<K, V>, ghost highs: Run<K, V>)
      requires Numbers() && List(h, all.cells, all.entries) && AllInEither(all.entries, b0, n)
      modifies all.cells`next
      ensures Pile(low, lows, b0) && Pile(high, highs, n)
      ensures multiset(lows.entries) + multiset(highs.entries) == multiset(all.entries)
      ensures Elems(lows.cells) + Elems(highs.cells) == Elems(all.cells) && Elems(lows.cells) !! Elems(highs.cells)
    {
      hide *;
      low, high, lows, highs := null, null, Run([], []), Run([], []);
      var hl := h;
      ghost var rest := all;
      StartSplit(h, b0, n, all);
      while hl != null
        invariant ListRun(hl, rest) && AllInEither(rest.entries, b0, n)
        invariant Pile(low, lows, b0) && Pile(high, highs, n)
        invariant Shares(lows, highs, rest, all)
        decreases |rest.cells|
      {
        var cell: HashList<K, V> := hl;
        ghost var e, left := ListNext(cell, rest);
        var next := cell.next;
        var b := HashKey(cell.key.value);
        AllInNext(cell, e, left, b0, n, b);
        ShareStep(cell, e, lows, highs, left, all);
        if b == n {
          Relink(cell, e, high, highs, n, next, left, low, lows, b0);
          high, highs := cell, Put(cell, e, highs);
        } else {
          Relink(cell, e, low, lows, b0, next, left, high, highs, n);
          low, lows := cell, Put(cell, e, lows);
        }
        hl, rest := next, left;
      }
      ShareEnd(lows, highs, rest, all);
    }

    /** Every bucket but `b0` is as recorded. */
    ghost predicate Others(b0: nat)
      requires |chains| == |entries| <= |buckets.heads|
      reads this`chains, this`entries, this`cells, buckets`heads, cells
    {
      && (forall b, i | 0 <= b < |chains| && 0 <= i < |chains[b]| :: chains[b][i] in cells)
      && (forall b | 0 <= b < |chains| && b != b0 :: Bucket(buckets.heads[b], chains[b], entries[b], b))
    }

    /** What bucket `b0` holds while it waits to be dealt out. */
    lemma AtBucket(b0: nat, n: nat)
      requires Numbers() && Chained() && HashedBut(b0, n) && b0 < |chains|
      ensures List(buckets.heads[b0], chains[b0], entries[b0]) && AllInEither(entries[b0], b0, n)
      ensures forall i | 0 <= i < |chains[b0]| :: chains[b0][i] in cells && chains[b0][i].at == b0
      ensures |chains| == |entries| == |buckets.heads| && split <= max && max > 0 && Others(b0)
    {
      hide List, InBucket;
      assert Bucket(buckets.heads[b0], chains[b0], entries[b0], b0);
    }

    /** The cells of bucket `b0` are on no other list. */
    ghost predicate Clear(b0: nat)
      requires b0 < |chains|
      reads this`chains, this`free
    {
      && (forall b, i | 0 <= b < |chains| && b != b0 && 0 <= i < |chains[b]| :: chains[b][i] !in chains[b0])
      && (forall i | 0 <= i < |free| :: free[i] !in chains[b0])
    }

    lemma ChainsClear(b0: nat)
      requires Chained() && FreeListed() && b0 < |chains|
      ensures Clear(b0)
    {
      hide List, Chain;
      assert Bucket(buckets.heads[b0], chains[b0], entries[b0], b0);
      forall b, i | 0 <= b < |chains| && b != b0 && 0 <= i < |chains[b]| ensures chains[b][i] !in chains[b0] {
        assert Bucket(buckets.heads[b], chains[b], entries[b], b);
        assert chains[b][i].at == b;
      }
    }

    /** SplitChain, seen from the rest of the table. */
    method DealOut(b0: nat, n: nat, h: HashList?<K, V>)
      returns (low: HashList?<K, V>, high: HashList?<K, V>, ghost lows: Run<K, V>, ghost highs: Run<K, V>)
      requires |chains| == |entries| <= |buckets.heads| && b0 < |chains|
      requires Numbers() && List(h, chains[b0], entries[b0]) && AllInEither(entries[b0], b0, n)
      requires Others(b0) && FreeListed() && Clear(b0)
      modifies chains[b0]`next
      ensures Others(b0) && FreeListed() && Pile(low, lows, b0) && Pile(high, highs, n)
      ensures multiset(lows.entries) + multiset(highs.entries) == multiset(entries[b0])
      ensures Elems(lows.cells) + Elems(highs.cells) == Elems(chains[b0]) && Elems(lows.cells) !! Elems(highs.cells)
      ensures forall i | 0 <= i < |highs.cells| :: highs.cells[i] in chains[b0]
    {
      hide Numbers, List, ChainTo, Carries, Home, AllInEither, Pile;
      low, high, lows, highs := SplitChain(h, b0, n, Run(chains[b0], entries[b0]));
      PartsWithin(chains[b0], lows.cells, highs.cells);
      forall b | 0 <= b < |chains| && b != b0 ensures Bucket(buckets.heads[b], chains[b], entries[b], b) {
        assert old(Bucket(buckets.heads[b], chains[b], entries[b], b));
      }
    }

    /** The cells of bucket `b0` dealt out; the slots are still to be written. */
    method SplitBucket(b0: nat, n: nat, h: HashList?<K, V>)
      returns (low: HashList?<K, V>, high: HashList?<K, V>, ghost lows: Run<K, V>, ghost highs: Run<K, V>)
      requires Numbers() && Chained() && FreeListed() && Located() && HashedBut(b0, n)
      requires b0 < |chains| == n && h == buckets.heads[b0]
      modifies chains[b0]`next, chains[b0]`at
      ensures FreeListed() && Others(b0) && LocatedOn(Dealt(chains, b0, lows.cells, highs.cells))
      ensures Bucket(low, lows.cells, lows.entries, b0) && Bucket(high, highs.cells, highs.entries, n)
      ensures split <= max && max > 0 && AllIn(lows.entries, b0) && AllIn(highs.entries, n)
      ensures multiset(lows.entries) + multiset(highs.entries) == multiset(entries[b0])
      ensures Elems(lows.cells) + Elems(highs.cells) == Elems(chains[b0])
    {
      hide *;
      AtBucket(b0, n);
      ChainsClear(b0);
      low, high, lows, highs := DealOut(b0, n, h);
      Rehome(b0, n, low, high, lows, highs);
    }

    ghost method Rehome(b0: nat, n: nat, low: HashList?<K, V>, high: HashList?<K, V>, lows: Run<K, V>, highs: Run<K, V>)
      requires |chains| == |entries| <= |buckets.heads| && b0 < |chains| == n && split <= max && max > 0
      requires Others(b0) && FreeListed() && Located() && Clear(b0)
      requires Pile(low, lows, b0) && Pile(high, highs, n)
      requires Elems(lows.cells) + Elems(highs.cells) == Elems(chains[b0]) && Elems(lows.cells) !! Elems(highs.cells)
      requires forall i | 0 <= i < |chains[b0]| :: chains[b0][i] in cells && chains[b0][i].at == b0
      modifies highs.cells`at
      ensures FreeListed() && Others(b0) && LocatedOn(Dealt(chains, b0, lows.cells, highs.cells))
      ensures Bucket(low, lows.cells, lows.entries, b0) && Bucket(high, highs.cells, highs.entries, n)
      ensures AllIn(lows.entries, b0) && AllIn(highs.entries, n)
    {
      hide List, AllIn, Elems;
      HalvesOf(chains[b0], lows.cells, highs.cells);
      forall c | c in highs.cells {
        c.at := n;
      }
      forall b | 0 <= b < |chains| && b != b0 ensures Bucket(buckets.heads[b], chains[b], entries[b], b) {
        assert old(Bucket(buckets.heads[b], chains[b], entries[b], b));
      }
      forall i | 0 <= i < |lows.cells| ensures lows.cells[i].at == b0 {
        assert lows.cells[i] in lows.cells;
      }
      ghost var after := Dealt(chains, b0, lows.cells, highs.cells);
      forall c | c in cells ensures if c.at == FREE then c in free else 0 <= c.at < |after| && c in after[c.at] {
        assert old(c.at) == FREE ==> c in free;
        assert old(c.at) != FREE ==> c in chains[old(c.at)];
      }
    }

    /** The segment that the next bucket needs, which only the first bucket of a segment has to allocate. */
    method MakeRoom(newBucket: nat)
      requires Allocated() && newBucket == bcount < HSEGSIZE * HDIRSIZE
      modifies buckets`segs, buckets.dir
      ensures buckets.Valid() && buckets.heads == old(buckets.heads)
      ensures |buckets.segs| == newBucket / HSEGSIZE + 1
      ensures forall i | 0 <= i < |buckets.segs| :: buckets.segs[i] in old(buckets.segs) || fresh(buckets.segs[i])
    {
      hide Directory.Valid;
      if newBucket % HSEGSIZE == 0 {
        buckets.AllocSegment(newBucket / HSEGSIZE);
        assert buckets.segs == old(buckets.segs) + [buckets.segs[newBucket / HSEGSIZE]];
      }
    }

    method WriteHalves(b0: nat, n: nat, low: HashList?<K, V>, high: HashList?<K, V>)
      requires buckets.Valid() && |chains| == |entries| == |buckets.heads| == n
      requires b0 < n && |buckets.segs| == n / HSEGSIZE + 1 && Others(b0)
      modifies buckets`heads, buckets.segs
      ensures buckets.Valid() && |buckets.heads| == n + 1
      ensures buckets.heads[b0] == low && buckets.heads[n] == high && Others(b0)
    {
      hide Directory.Valid, Bucket;
      buckets.Set(b0, low);
      buckets.Set(n, high);
    }

    /** Records the two halves once their slots are written. */
    ghost method Regroup(b0: nat, n: nat, lows: Run<K, V>, highs: Run<K, V>)
      requires |chains| == |entries| == n && |buckets.heads| == n + 1 && b0 < n
      requires split <= max && max > 0 && HashedBut(b0, n) && Others(b0)
               && LocatedOn(Dealt(chains, b0, lows.cells, highs.cells))
      requires Bucket(buckets.heads[b0], lows.cells, lows.entries, b0)
               && Bucket(buckets.heads[n], highs.cells, highs.entries, n)
      requires AllIn(lows.entries, b0) && AllIn(highs.entries, n)
      requires multiset(lows.entries) + multiset(highs.entries) == multiset(entries[b0])
      requires Elems(lows.cells) + Elems(highs.cells) == Elems(chains[b0])
      modifies this`chains, this`entries
      ensures Chained() && Hashed() && Located() && Contents() == old(Contents())
    {
      hide Bucket, InBucket, LocatedOn, Bag;
      DealtBag(entries, b0, lows.entries, highs.entries);
      PartsWithin(chains[b0], lows.cells, highs.cells);
      chains := Dealt(chains, b0, lows.cells, highs.cells);
      entries := Dealt(entries, b0, lows.entries, highs.entries);
    }

    lemma NumberFacts()
      requires Numbers() && Allocated() && Chained()
      ensures bcount == split + max == |chains| == |entries| && split < max && bcount <= HSEGSIZE * HDIRSIZE
      ensures Shaped() && forall i | 0 <= i < |chains[split]| :: chains[split][i] in cells
    {
    }

    /** The part of expand that touches the buckets. */
    method SplitOff(b0: nat, n: nat)
      requires Numbers() && Chained() && Located() && FreeListed() && HashedBut(b0, n)
      requires buckets.Valid() && b0 < n == |chains| && |buckets.segs| == n / HSEGSIZE + 1
      modifies this`chains, this`entries, buckets`heads, buckets.segs, chains[b0]`next, chains[b0]`at
      ensures Chained() && Hashed() && Located() && FreeListed() && Contents() == old(Contents())
      ensures buckets.Valid() && |buckets.heads| == n + 1
    {
      hide *;
      AtBucket(b0, n);
      var h := buckets.Get(b0);
      var low, high;
      ghost var lows, highs;
      low, high, lows, highs := SplitBucket(b0, n, h);
      WriteHalves(b0, n, low, high);
      Regroup(b0, n, lows, highs);
    }

    /** expand: one more bucket, and the cells of bucket `split` shared out between it and the new one. */
    method Expand()
      requires Numbers() && Allocated() && Chained() && Hashed() && FreeListed() && Located()
      modifies this`split, this`max, this`mask1, this`mask2, this`bcount, this`level, this`chains, this`entries
      modifies buckets`heads, buckets`segs, buckets.dir, buckets.segs, cells`next, cells`at
      ensures Numbers() && Allocated() && Chained() && Hashed() && FreeListed() && Located()
      ensures Contents() == old(Contents())
      ensures bcount == if old(bcount) < HSEGSIZE * HDIRSIZE then old(bcount) + 1 else old(bcount)
      ensures forall i | 0 <= i < |buckets.segs| :: buckets.segs[i] in old(buckets.segs) || fresh(buckets.segs[i])
    {
      hide Directory.Valid, Numbers, Chained, Hashed, HashedBut, Bucket, Located, LocatedOn, FreeListed, Contents;
      NumberFacts();
      if split + max >= HDIRSIZE * HSEGSIZE {
        return;
      }
      var oldBucket, newBucket := split, max + split;
      MakeRoom(newBucket);
      Advance();
      SplitOff(oldBucket, newBucket);
    }

    // ----- Walking the whole table -----

    /** keyCountHashTable */
    method KeyCount() returns (n: int)
      requires Valid()
      ensures n == |Contents()|
    {
      hide Numbers, Allocated, Chained, Hashed, FreeListed, Located;
      return kcount;
    }

    /** The innermost loop of iterHashTable. */
    method VisitChain(h: HashList?<K, V>, fn: Entry<K, V> -> bool, ghost cs: seq<HashList<K, V>>,
        ghost es: seq<Entry<K, V>>)
      returns (visited: seq<Entry<K, V>>, more: bool)
      requires Chain(h, cs) && Carries(cs, es)
      ensures |visited| <= |es| && visited == es[..|visited|]
      ensures more ==> visited == es && forall i | 0 <= i < |visited| :: fn(visited[i])
      ensures !more ==> visited != [] && !fn(visited[|visited| - 1]) && forall i | 0 <= i < |visited| - 1 ::
              fn(visited[i])
    {
      visited := [];
      var hl := h;
      ghost var rest := cs;
      while hl != null
        invariant |visited| <= |es| && visited == es[..|visited|] && rest == cs[|visited|..] && ChainTo(hl, rest, null)
        invariant forall i | 0 <= i < |visited| :: fn(visited[i])
        decreases |rest|
      {
        assert hl == cs[|visited|];
        var e := Entry(hl.key.value, hl.data.value);
        visited := visited + [e];
        if !fn(e) {
          return visited, false;
        }
        hl := hl.next;
        rest := rest[1..];
      }
      return visited, true;
    }

    /** The entries of the buckets from `p` on. */
    ghost function From(p: nat): multiset<Entry<K, V>>
      requires p <= |entries|
      reads this`entries
    {
      Bag(entries[p..])
    }

    ghost predicate AllPass(visited: seq<Entry<K, V>>, fn: Entry<K, V> -> bool) {
      forall i | 0 <= i < |visited| :: fn(visited[i])
    }

    lemma Ends(fn: Entry<K, V> -> bool)
      requires |entries| == bcount
      ensures From(bcount) == multiset{} && From(0) == Contents() && AllPass([], fn)
    {
      BagTail(entries, bcount);
    }

    method VisitBucket(b: nat, fn: Entry<K, V> -> bool, before: seq<Entry<K, V>>)
      returns (visited: seq<Entry<K, V>>, more: bool)
      requires Allocated() && Chained() && b < bcount == |entries|
      requires multiset(before) == From(b + 1) && AllPass(before, fn)
      ensures multiset(visited) <= Contents()
      ensures more ==> multiset(visited) == From(b) && AllPass(visited, fn)
      ensures !more ==> visited != [] && AllPass(visited[..|visited| - 1], fn) && !AllPass(visited, fn)
    {
      hide Directory.Valid, Chained, Chain, Carries, Bag;
      InChain(b);
      var h := buckets.Get(b);
      var some;
      ghost var es := entries[b];
      some, more := VisitChain(h, fn, chains[b], es);
      BagTail(entries, b);
      PrefixBag(es, |some|);
      visited := before + some;
      assert !more ==> !fn(visited[|visited| - 1]);
    }

    /** iterHashTable calls `fn` on every entry once, from the last bucket to the first, until it says stop;
        mapHashTable is the case of an `fn` that never does. */
    method IterHashTable(fn: Entry<K, V> -> bool) returns (visited: seq<Entry<K, V>>)
      requires Valid()
      ensures AllPass(visited, fn) ==> multiset(visited) == Contents()
      ensures !AllPass(visited, fn) ==>
                multiset(visited) <= Contents() && visited != [] && AllPass(visited[..|visited| - 1], fn)
    {
      hide Valid, Directory.Valid, Numbers, Allocated, Chained, Hashed, FreeCells, FreeListed, Located, AllPass, From,
           Contents;
      Opened();
      NumberFacts();
      var segment, index := (max + split - 1) / HSEGSIZE, (max + split - 1) % HSEGSIZE;
      visited := [];
      Ends(fn);
      while segment >= 0
        invariant -1 <= segment && -1 <= index < HSEGSIZE && 0 <= segment * HSEGSIZE + index + 1 <= bcount
        invariant multiset(visited) == From(segment * HSEGSIZE + index + 1)
        invariant AllPass(visited, fn)
        invariant segment < 0 ==> index == HSEGSIZE - 1
      {
        while index >= 0
          invariant -1 <= index < HSEGSIZE && 0 <= segment * HSEGSIZE + index + 1 <= bcount
          invariant multiset(visited) == From(segment * HSEGSIZE + index + 1)
          invariant AllPass(visited, fn)
        {
          var more;
          visited, more := VisitBucket(segment * HSEGSIZE + index, fn, visited);
          if !more {
            return;
          }
          index := index - 1;
        }
        segment, index := segment - 1, HSEGSIZE - 1;
      }
    }

    /** The innermost loop of keysHashTable. */
    method CopyKeys(h: HashList?<K, V>, keys: array<K>, start: nat, szKeys: nat,
                    ghost cs: seq<HashList<K, V>>, ghost es: seq<Entry<K, V>>) returns (k: nat)
      requires Chain(h, cs) && Carries(cs, es) && start <= szKeys <= keys.Length
      modifies keys
      ensures k == if start + |es| < szKeys then start + |es| else szKeys
      ensures keys[..start] == old(keys[..start])
      ensures forall j | start <= j < k :: keys[j] == es[j - start].key
    {
      k := start;
      var hl := h;
      ghost var rest := cs;
      while hl != null && k < szKeys
        invariant start <= k <= szKeys && k - start <= |es| && rest == cs[k - start..] && Chain(hl, rest)
        invariant keys[..start] == old(keys[..start])
        invariant forall j | start <= j < k :: keys[j] == es[j - start].key
        decreases |rest|
      {
        assert hl == cs[k - start];
        keys[k] := hl.key.value;
        k := k + 1;
        hl := hl.next;
        rest := rest[1..];
      }
    }

    /** The first keys of the array are those of `got`. */
    ghost predicate Copied(keys: array<K>, k: nat, got: seq<Entry<K, V>>)
      reads keys
    {
      k == |got| <= keys.Length && forall j | 0 <= j < k :: keys[j] == got[j].key
    }

    lemma NoneCopied(keys: array<K>)
      ensures Copied(keys, 0, [])
    {
    }

    method KeysOfBucket(b: nat, keys: array<K>, start: nat, szKeys: int, ghost before: seq<Entry<K, V>>)
      returns (k: nat, ghost got: seq<Entry<K, V>>)
      requires Allocated() && Chained() && b < bcount && bcount == |entries| && start < szKeys <= keys.Length
      requires Copied(keys, start, before) && multiset(before) == From(b + 1) && keys as object !in Repr()
      modifies keys
      ensures Allocated() && Chained()
      ensures Copied(keys, k, got) && k == |got| <= szKeys && multiset(got) <= Contents()
      ensures k < szKeys ==> multiset(got) == From(b)
    {
      hide Directory.Valid, Chained, Chain, Carries, Bag;
      InChain(b);
      var h := buckets.Get(b);
      ghost var es := entries[b];
      k := CopyKeys(h, keys, start, szKeys, chains[b], es);
      got := before + es[..k - start];
      BagTail(entries, b);
      PrefixBag(es, k - start);
      assert k < szKeys ==> es[..k - start] == es;
      assert Copied(keys, start, before) by { assert forall j | 0 <= j < start :: keys[j] == keys[..start][j]; }
      CopiedMore(keys, start, k, before, es);
    }

    lemma CopiedMore(keys: array<K>, start: nat, k: nat, before: seq<Entry<K, V>>, es: seq<Entry<K, V>>)
      requires Copied(keys, start, before) && start <= k <= keys.Length && k - start <= |es|
      requires forall j | start <= j < k :: keys[j] == es[j - start].key
      ensures Copied(keys, k, before + es[..k - start])
    {
    }

    /** keysHashTable: as many keys as fit, each entry's at most once. */
    method KeysHashTable(keys: array<K>, szKeys: int) returns (k: nat, ghost got: seq<Entry<K, V>>)
      requires Valid() && szKeys <= keys.Length
      requires keys as object !in Repr()
      modifies keys
      ensures k == |got| && k == if szKeys < 0 then 0 else if szKeys < |Contents()| then szKeys else |Contents()|
      ensures multiset(got) <= Contents()
      ensures Copied(keys, k, got)
    {
      hide Valid, Repr, Copied, Directory.Valid, Numbers, Allocated, Chained, Hashed, FreeCells, FreeListed, Located,
           From, Contents;
      Opened();
      NumberFacts();
      var segment, index := (max + split - 1) / HSEGSIZE, (max + split - 1) % HSEGSIZE;
      k, got := 0, [];
      NoneCopied(keys);
      Ends(_ => true);
      while segment >= 0 && k < szKeys
        invariant -1 <= segment && -1 <= index < HSEGSIZE && 0 <= segment * HSEGSIZE + index + 1 <= bcount
        invariant Allocated() && Chained() && k == |got| && (szKeys >= 0 ==> k <= szKeys) && multiset(got) <= Contents()
        invariant k < szKeys ==> multiset(got) == From(segment * HSEGSIZE + index + 1)
        invariant szKeys < 0 ==> k == 0
        invariant Copied(keys, k, got)
        invariant segment < 0 ==> index == HSEGSIZE - 1
      {
        while index >= 0 && k < szKeys
          invariant -1 <= index < HSEGSIZE && 0 <= segment * HSEGSIZE + index + 1 <= bcount
          invariant Allocated() && Chained() && k == |got| && k <= szKeys && multiset(got) <= Contents()
          invariant k < szKeys ==> multiset(got) == From(segment * HSEGSIZE + index + 1)
          invariant Copied(keys, k, got)
        {
          k, got := KeysOfBucket(segment * HSEGSIZE + index, keys, k, szKeys, got);
          index := index - 1;
        }
        segment, index := segment - 1, HSEGSIZE - 1;
      }
      SubBag(got, Contents());
    }
  }

  lemma SubBag<E>(s: seq<E>, b: multiset<E>)
    requires multiset(s) <= b
    ensures |s| <= |b|
  {
    assert b == multiset(s) + (b - multiset(s));
  }

  lemma PrefixBag<E>(s: seq<E>, n: nat)
    requires n <= |s|
    ensures multiset(s[..n]) <= multiset(s)
  {
    assert s == s[..n] + s[n..];
  }

  /** The entries from bucket `b` on. */
  lemma {:induction false} BagTail<E>(es: seq<seq<E>>, b: nat)
    requires b <= |es|
    ensures Bag(es[|es|..]) == multiset{} && Bag(es[0..]) == Bag(es)
    ensures b < |es| ==> Bag(es[b..]) == multiset(es[b]) + Bag(es[b + 1..])
    ensures Bag(es[b..]) <= Bag(es)
  {
    if b > 0 {
      BagTail(es, b - 1);
    }
    assert es[0..] == es;
  }

  /** The first segment, with all its buckets initialised to NULL. */
  method FirstSegment<K, V>() returns (dir: Directory<HashList?<K, V>>)
    ensures fresh(dir) && fresh(dir.dir) && dir.Valid()
    ensures |dir.segs| == 1 && fresh(dir.segs[0])
    ensures |dir.heads| == HSEGSIZE && forall b | 0 <= b < HSEGSIZE :: dir.heads[b] == null
  {
    dir := new Directory<HashList?<K, V>>();
    dir.AllocSegment(0);
    var hb := 0;
    while hb < HSEGSIZE
      invariant 0 <= hb <= HSEGSIZE && dir.Valid() && |dir.segs| == 1 && fresh(dir.segs[0])
      invariant |dir.heads| == hb && forall b | 0 <= b < hb :: dir.heads[b] == null
      modifies dir`heads, dir.segs
    {
      dir.Set(hb, null);
      hb := hb + 1;
    }
  }

  /** A chunk from malloc: HCHUNK cells that nothing points to. */
  method MallocChunk<K, V>() returns (cl: array<HashList<K, V>>)
    ensures fresh(cl) && cl.Length == HCHUNK
    ensures forall i | 0 <= i < HCHUNK :: fresh(cl[i]) && cl[i].at == FREE
    ensures forall i, j | 0 <= i < j < HCHUNK :: cl[i] != cl[j]
  {
    var first := new HashList<K, V>();
    cl := new HashList<K, V>[HCHUNK](_ => first);
    var p := 1;
    while p < HCHUNK
      invariant 1 <= p <= HCHUNK
      invariant forall i | 0 <= i < p :: fresh(cl[i]) && cl[i].at == FREE
      invariant forall i, j | 0 <= i < j < p :: cl[i] != cl[j]
    {
      cl[p] := new HashList<K, V>();
      p := p + 1;
    }
  }

  /** The cells of a chunk but the first, linked into a free list. */
  method LinkCells<K, V>(cl: array<HashList<K, V>>)
    requires cl.Length == HCHUNK && forall i, j | 0 <= i < j < HCHUNK :: cl[i] != cl[j]
    modifies cl[..]`next
    ensures Chain(cl[1], cl[1..])
  {
    var p := 1;
    while p < HCHUNK - 1
      invariant 1 <= p <= HCHUNK - 1
      invariant forall i | 1 <= i < p :: cl[i].next == cl[i + 1]
    {
      cl[p].next := cl[p + 1];
      p := p + 1;
    }
    cl[p].next := null;
    assert forall i | 0 <= i < HCHUNK - 2 :: cl[1..][i] == cl[i + 1];
    ChainIndices(cl[1..]);
  }

  method NewChunk<K, V>() returns (cl: array<HashList<K, V>>, ghost made: seq<HashList<K, V>>)
    ensures cl.Length == HCHUNK == |made| && cl[0] == made[0] && cl[1] == made[1]
    ensures Chain(made[1], made[1..]) && Home(made, FREE) && Home(made[1..], FREE)
    ensures |Elems(made)| == HCHUNK && fresh(Elems(made))
    ensures made[0] !in made[1..]
    ensures forall c | c in Elems(made) :: c.at == FREE && (c == made[0] || c in made[1..])
  {
    cl := MallocChunk();
    LinkCells(cl);
    made := cl[..];
    assert made[1..] == cl[1..];
    DistinctCard(made);
    ElemsCons(made[0], made[1..]);
    assert made == [made[0]] + made[1..];
  }

  lemma {:induction false} DistinctCard<T>(s: seq<T>)
    requires forall i, j | 0 <= i < j < |s| :: s[i] != s[j]
    ensures NoDup(s) && |Elems(s)| == |s|
  {
    if s != [] {
      DistinctCard(s[1..]);
      NoDupCard(s);
    }
  }

  lemma {:induction false} BagEmpty<E>(es: seq<seq<E>>)
    requires forall b | 0 <= b < |es| :: es[b] == []
    ensures Bag(es) == multiset{}
  {
    if es != [] {
      BagEmpty(es[1..]);
    }
  }
}
