/** Hash-consed sets of retainers (rts/RetainerSet.c, rts/RetainerSet.h). */
module RetainerSets {

  const WORD := 0x1_0000_0000_0000_0000
  const HASH_TABLE_SIZE := 255
  const BINARY_SEARCH_THRESHOLD := 8

  type Retainer = nat

  // ----- Increasing sequences as sets -----

  ghost predicate Increasing(s: seq<Retainer>) {
    forall i, j | 0 <= i < j < |s| :: s[i] < s[j]
  }

  ghost function Elements(s: seq<Retainer>): set<Retainer> {
    set r | r in s
  }

  function Sum(s: seq<Retainer>): nat {
    if s == [] then 0 else Sum(s[..|s| - 1]) + s[|s| - 1]
  }

  function Key(s: seq<Retainer>): nat {
    Sum(s) % WORD
  }

  /** How many elements of `s` are less than `r`, if `s` is increasing. */
  ghost function Less(s: seq<Retainer>, r: Retainer): (n: nat)
    ensures n <= |s| && (forall k | 0 <= k < n :: s[k] <= r) && (n < |s| ==> r < s[n])
  {
    if s == [] then 0 else if r < s[0] then 0 else 1 + Less(s[1..], r)
  }

  ghost function Insert(s: seq<Retainer>, r: Retainer): seq<Retainer> {
    s[..Less(s, r)] + [r] + s[Less(s, r)..]
  }

  lemma InsertAt(s: seq<Retainer>, r: Retainer, nl: nat)
    requires nl == Less(s, r)
    ensures nl <= |s| && |Insert(s, r)| == |s| + 1 && Insert(s, r)[nl] == r
    ensures forall k | 0 <= k < nl :: Insert(s, r)[k] == s[k]
    ensures forall k | nl <= k < |s| :: Insert(s, r)[k + 1] == s[k]
  {
  }

  lemma InsertIncreasing(s: seq<Retainer>, r: Retainer)
    requires Increasing(s) && r !in s
    ensures Increasing(Insert(s, r)) && Elements(Insert(s, r)) == Elements(s) + {r}
  {
    hide Insert, Less;
    var n, t := Less(s, r), Insert(s, r);
    InsertAt(s, r, n);
    InsertElements(s, r);
    assert forall k | 0 <= k < n :: s[k] in s && s[k] < r;
    forall i, j | 0 <= i < j < |t| ensures t[i] < t[j] {
      assert j > n ==> t[j - 1 + 1] == s[j - 1];
      assert i > n ==> t[i - 1 + 1] == s[i - 1];
    }
  }

  lemma InsertElements(s: seq<Retainer>, r: Retainer)
    ensures Elements(Insert(s, r)) == Elements(s) + {r}
  {
    hide Less;
    var n := Less(s, r);
    assert s == s[..n] + s[n..];
    forall x ensures x in Insert(s, r) <==> x in s || x == r {}
  }

  /** An increasing sequence is determined by its elements. */
  lemma {:induction false} IncreasingUnique(s: seq<Retainer>, t: seq<Retainer>)
    requires Increasing(s) && Increasing(t) && Elements(s) == Elements(t)
    ensures s == t
    decreases |s|
  {
    if s == [] {
      HasFirst(t);
    } else {
      assert s[0] in Elements(s);
      FirstIsLeast(s);
      FirstIsLeast(t);
      assert s[0] in t && t[0] in Elements(t);
      Rest(s);
      Rest(t);
      IncreasingUnique(s[1..], t[1..]);
      assert s == [s[0]] + s[1..] && t == [t[0]] + t[1..];
    }
  }

  lemma HasFirst(t: seq<Retainer>)
    ensures t == [] || t[0] in Elements(t)
  {
  }

  lemma FirstIsLeast(s: seq<Retainer>)
    requires Increasing(s)
    ensures forall x | x in s :: s[0] <= x
  {
  }

  lemma Rest(s: seq<Retainer>)
    requires Increasing(s) && s != []
    ensures Increasing(s[1..]) && Elements(s[1..]) == Elements(s) - {s[0]}
  {
    assert s == [s[0]] + s[1..];
    forall x ensures x in s[1..] <==> x in s && x != s[0] {
      if x in s[1..] {
        var k :| 0 <= k < |s[1..]| && s[1..][k] == x;
        assert s[k + 1] == x;
      }
    }
  }

  lemma {:induction false} SizeOfElements(s: seq<Retainer>)
    requires Increasing(s)
    ensures |Elements(s)| == |s|
    decreases |s|
  {
    if s != [] {
      Rest(s);
      SizeOfElements(s[1..]);
      assert s[0] in Elements(s);
    }
  }

  lemma {:induction false} SumInsert(a: seq<Retainer>, r: Retainer, b: seq<Retainer>)
    ensures Sum(a + [r] + b) == Sum(a + b) + r
    decreases |b|
  {
    if b == [] {
      assert a + [r] + b == a + [r] && (a + [r])[..|a|] == a && a + b == a;
    } else {
      var n := |b| - 1;
      SumInsert(a, r, b[..n]);
      assert (a + [r] + b)[..|a| + 1 + n] == a + [r] + b[..n] && (a + b)[..|a| + n] == a + b[..n];
    }
  }

  /** The key of a set does not depend on the order in which its elements came. */
  lemma KeyInsert(s: seq<Retainer>, r: Retainer)
    ensures Key(Insert(s, r)) == (r % WORD + Key(s)) % WORD
  {
    var n := Less(s, r);
    SumInsert(s[..n], r, s[n..]);
    assert s[..n] + s[n..] == s;
    ModAdd(r, Sum(s));
  }

  lemma ModAdd(x: nat, y: nat)
    ensures (x + y) % WORD == (x % WORD + y % WORD) % WORD
  {
    var a, b := x / WORD, y / WORD;
    assert x == a * WORD + x % WORD && y == b * WORD + y % WORD;
  }

  // ----- Retainer sets -----

  class RetainerSet {
    const num: nat
    const hashKey: nat
    const link: RetainerSet?
    const id: int
    const element: array<Retainer>
    ghost const rank: nat   // how many sets follow in the bucket

    constructor (hashKey: nat, link: RetainerSet?, id: int, element: array<Retainer>)
      ensures this.num == element.Length && this.hashKey == hashKey && this.link == link && this.id == id
              && this.element == element
      ensures rank == if link == null then 0 else link.rank + 1
    {
      this.num, this.hashKey, this.link, this.id, this.element := element.Length, hashKey, link, id, element;
      rank := if link == null then 0 else link.rank + 1;
    }

    ghost function Set(): seq<Retainer>
      reads element
    {
      element[..]
    }
  }

  ghost function Chain(rs: RetainerSet?): seq<RetainerSet>
    decreases if rs == null then 0 else rs.rank + 1
  {
    if rs == null then [] else if rs.link != null && rs.link.rank >= rs.rank then [rs] else [rs] + Chain(rs.link)
  }

  lemma ChainStep(rs: RetainerSet)
    ensures Chain(rs) != [] && Chain(rs)[0] == rs && (rs.rank == (if rs.link == null then 0 else rs.link.rank + 1) ==>
            Chain(rs)[1..] == Chain(rs.link))
    ensures forall x | x in Chain(rs) :: x == rs || x in Chain(rs)[1..]
  {
  }

  ghost predicate SetOk(rs: RetainerSet)
    reads rs.element
  {
    && rs.num == rs.element.Length >= 1 && Increasing(rs.Set()) && rs.hashKey == Key(rs.Set())
    && rs.rank == if rs.link == null then 0 else rs.link.rank + 1
  }

  ghost function ElementArrays(all: set<RetainerSet>): set<array<Retainer>> {
    set rs | rs in all :: rs.element
  }

  ghost predicate Filed(all: set<RetainerSet>, table: seq<RetainerSet?>) {
    && |table| == HASH_TABLE_SIZE
    && (forall rs | rs in all :: rs in Chain(table[rs.hashKey % HASH_TABLE_SIZE]))
    && (forall b, rs | 0 <= b < HASH_TABLE_SIZE && rs in Chain(table[b]) ::
              rs in all && rs.hashKey % HASH_TABLE_SIZE == b)
  }

  ghost predicate Unique(all: set<RetainerSet>)
    reads ElementArrays(all)
  {
    forall x, y | x in all && y in all && (x.Set() == y.Set() || x.id == y.id) :: x == y
  }

  lemma FiledMore(all: set<RetainerSet>, table: seq<RetainerSet?>, rs: RetainerSet)
    requires Filed(all, table) && rs !in all
    requires var b := rs.hashKey % HASH_TABLE_SIZE; rs.link == table[b] && rs.rank == if rs.link == null then 0
             else rs.link.rank + 1
    ensures Filed(all + {rs}, table[rs.hashKey % HASH_TABLE_SIZE := rs])
  {
    var b := rs.hashKey % HASH_TABLE_SIZE;
    assert Chain(rs) == [rs] + Chain(table[b]);
  }

  class RetainerSets {
    const hashTable: array<RetainerSet?>
    const many: RetainerSet   // rs_MANY
    const maxRetainerSetSize: nat
    var nextId: int
    ghost var all: set<RetainerSet>

    /** initializeAllRetainerSet */
    constructor (maxRetainerSetSize: nat)
      requires maxRetainerSetSize >= 1
      ensures Valid() && all == {} && this.maxRetainerSetSize == maxRetainerSetSize
      ensures fresh(hashTable) && fresh(many)
    {
      hashTable := new RetainerSet?[HASH_TABLE_SIZE](_ => null);
      var none := new Retainer[0];
      many := new RetainerSet(0, null, 1, none);
      this.maxRetainerSetSize := maxRetainerSetSize;
      nextId, all := 2, {};
    }

    /** Every set is in the bucket of its key, and no two sets have the same elements. */
    ghost predicate Valid()
      reads this, hashTable, ElementArrays(all)
    {
      && hashTable.Length == HASH_TABLE_SIZE && many !in all && maxRetainerSetSize >= 1 && nextId >= 2
      && (forall rs | rs in all :: SetOk(rs) && 2 <= rs.id < nextId)
      && Filed(all, hashTable[..]) && Unique(all)
    }

    /** isMember: everything is a member of rs_MANY. */
    method IsMember(r: Retainer, rs: RetainerSet) returns (b: bool)
      requires rs == many || SetOk(rs)
      ensures b <==> rs == many || r in rs.Set()
    {
      if rs == many {
        return true;
      }
      if rs.num < BINARY_SEARCH_THRESHOLD {
        for i := 0 to rs.num
          invariant forall k | 0 <= k < i :: rs.element[k] < r
        {
          var ri := rs.element[i];
          if r == ri {
            return true;
          } else if r < ri {
            return false;
          }
        }
      } else {
        var left, right := 0, rs.num - 1;
        while left <= right
          invariant 0 <= left <= rs.num && -1 <= right < rs.num
          invariant forall k | 0 <= k < left :: rs.element[k] < r
          invariant forall k | right < k < rs.num :: r < rs.element[k]
          decreases right - left + 1
        {
          var i := (left + right) / 2;
          var ri := rs.element[i];
          if r == ri {
            return true;
          } else if r < ri {
            right := i - 1;
          } else {
            left := i + 1;
          }
        }
      }
      return false;
    }

    /** The new set goes to the head of its bucket. */
    method Add(hk: nat, element: array<Retainer>) returns (rs: RetainerSet)
      requires Valid() && element.Length >= 1 && Increasing(element[..]) && hk == Key(element[..])
      requires forall x | x in all :: x.Set() != element[..]
      modifies this`nextId, this`all, hashTable
      ensures Valid() && fresh(rs) && all == old(all) + {rs} && rs.element == element
    {
      hide Filed, Chain, Sum;
      var b := hk % HASH_TABLE_SIZE;
      rs := new RetainerSet(hk, hashTable[b], nextId, element);
      FiledMore(all, hashTable[..], rs);
      nextId := nextId + 1;
      hashTable[b] := rs;
      all := all + {rs};
      assert hashTable[..] == old(hashTable[..])[b := rs];
      forall x | x in all ensures SetOk(x) && 2 <= x.id < nextId {
        assert x != rs ==> old(allocated(x)) && old(SetOk(x));
      }
    }

    /** What is in a bucket. */
    lemma BucketFacts(b: nat)
      requires Valid() && b < HASH_TABLE_SIZE
      ensures forall rs | rs in Chain(hashTable[b]) :: rs in all && SetOk(rs)
      ensures forall rs | rs in all && rs.hashKey % HASH_TABLE_SIZE == b :: rs in Chain(hashTable[b])
    {
      assert hashTable[..][b] == hashTable[b];
    }

    /** Looks for a one-element set in a bucket. */
    method FindSingleton(b: nat, r: Retainer) returns (rs: RetainerSet?)
      requires Valid() && b < HASH_TABLE_SIZE
      ensures rs != null ==> rs in all && rs.Set() == [r]
      ensures rs == null ==> forall x | x in all && x.hashKey % HASH_TABLE_SIZE == b :: x.Set() != [r]
    {
      hide Filed, Increasing, Chain, Key;
      BucketFacts(b);
      rs := hashTable[b];
      ghost var bucket, rest := Chain(rs), Chain(rs);
      while rs != null
        invariant rest == Chain(rs) && forall x | x in rest :: x in bucket
        invariant forall x | x in bucket && x !in rest :: x.Set() != [r]
        decreases |rest|
      {
        ChainStep(rs);
        assert rest[0] in rest;
        if rs.num == 1 && rs.element[0] == r {
          assert rs.Set() == [r];
          return;
        }
        rest := rest[1..];
        rs := rs.link;
      }
      ChainEnd();
    }

    /** singleton */
    method Singleton(r: Retainer) returns (rs: RetainerSet)
      requires Valid()
      modifies this`nextId, this`all, hashTable
      ensures Valid() && old(all) <= all && fresh(all - old(all)) && rs in all && rs.Set() == [r]
    {
      hide Filed, SetOk, Key;
      var hk := r % WORD;
      KeyOfOne(r);
      var found := FindSingleton(hk % HASH_TABLE_SIZE, r);
      if found != null {
        return found;
      }
      var element := new Retainer[1](_ => r);
      assert element[..] == [r];
      NewInBucket(element[..]);
      rs := Add(hk, element);
    }

    /** A set that is not in its bucket is nowhere. */
    lemma NewInBucket(s: seq<Retainer>)
      requires Valid() && forall x | x in all && x.hashKey % HASH_TABLE_SIZE == Key(s) % HASH_TABLE_SIZE :: x.Set() != s
      ensures forall x | x in all :: x.Set() != s
    {
    }

    /** Where `r` belongs among the elements of `rs`. */
    method Position(r: Retainer, rs: RetainerSet) returns (nl: nat)
      requires SetOk(rs)
      ensures nl == Less(rs.Set(), r)
    {
      nl := 0;
      while nl < rs.num && !(r < rs.element[nl])
        invariant nl <= rs.num && forall k | 0 <= k < nl :: rs.element[k] <= r
      {
        nl := nl + 1;
      }
      LessIs(rs.Set(), r, nl);
    }

    /** Is `nrs` what adding `r` at `nl` to `rs` gives? */
    method IsAdded(rs: RetainerSet, r: Retainer, nl: nat, nrs: RetainerSet) returns (same: bool)
      requires SetOk(rs) && SetOk(nrs) && nl == Less(rs.Set(), r)
      ensures same <==> nrs.Set() == Insert(rs.Set(), r)
    {
      hide Increasing, Key, Less;
      if rs.num + 1 != nrs.num {
        return false;
      }
      var i := 0;
      while i < nl && rs.element[i] == nrs.element[i]
        invariant i <= nl && forall k | 0 <= k < i :: rs.element[k] == nrs.element[k]
      {
        i := i + 1;
      }
      InsertAt(rs.Set(), r, nl);
      if i < nl {
        assert nrs.Set()[i] != Insert(rs.Set(), r)[i];
        return false;
      }
      if r != nrs.element[i] {
        assert nrs.Set()[nl] != Insert(rs.Set(), r)[nl];
        return false;
      }
      while i < rs.num && rs.element[i] == nrs.element[i + 1]
        invariant nl <= i <= rs.num && forall k | nl <= k < i :: rs.element[k] == nrs.element[k + 1]
      {
        i := i + 1;
      }
      if i < rs.num {
        assert nrs.Set()[i + 1] != Insert(rs.Set(), r)[i + 1];
        return false;
      }
      SameAsInsert(rs.Set(), r, nl, nrs.Set());
      return true;
    }

    lemma SameAsInsert(s: seq<Retainer>, r: Retainer, nl: nat, t: seq<Retainer>)
      requires nl == Less(s, r) && |t| == |s| + 1 && t[nl] == r && (forall k | 0 <= k < nl :: s[k] == t[k])
      requires forall k | nl <= k < |s| :: s[k] == t[k + 1]
      ensures t == Insert(s, r)
    {
      forall k | 0 <= k < |t| ensures t[k] == Insert(s, r)[k] {
        assert k > nl ==> t[k - 1 + 1] == s[k - 1];
      }
    }

    method FindAdded(b: nat, rs: RetainerSet, r: Retainer, nl: nat) returns (nrs: RetainerSet?)
      requires Valid() && b < HASH_TABLE_SIZE && SetOk(rs) && nl == Less(rs.Set(), r)
      ensures nrs != null ==> nrs in all && nrs.Set() == Insert(rs.Set(), r)
      ensures nrs == null ==> forall x | x in all && x.hashKey % HASH_TABLE_SIZE == b :: x.Set() != Insert(rs.Set(), r)
    {
      hide Filed, Increasing, Chain, Key, Insert;
      BucketFacts(b);
      nrs := hashTable[b];
      ghost var bucket, rest := Chain(nrs), Chain(nrs);
      while nrs != null
        invariant rest == Chain(nrs) && forall x | x in rest :: x in bucket
        invariant forall x | x in bucket && x !in rest :: x.Set() != Insert(rs.Set(), r)
        decreases |rest|
        modifies {}
      {
        ChainStep(nrs);
        assert rest[0] in rest;
        var same := IsAdded(rs, r, nl, nrs);
        if same {
          return;
        }
        rest := rest[1..];
        nrs := nrs.link;
      }
      ChainEnd();
    }

    /** The elements of the new set. */
    method CopyAdded(rs: RetainerSet, r: Retainer, nl: nat) returns (element: array<Retainer>)
      requires SetOk(rs) && nl == Less(rs.Set(), r)
      ensures fresh(element) && element.Length >= 1 && element[..] == Insert(rs.Set(), r)
    {
      element := new Retainer[rs.num + 1](_ => 0);
      var i := 0;
      while i < nl
        invariant i <= nl && forall k | 0 <= k < i :: element[k] == rs.element[k]
      {
        element[i] := rs.element[i];
        i := i + 1;
      }
      element[i] := r;
      while i < rs.num
        invariant nl <= i <= rs.num && (forall k | 0 <= k < nl :: element[k] == rs.element[k]) && element[nl] == r
        invariant forall k | nl <= k < i :: element[k + 1] == rs.element[k]
      {
        element[i + 1] := rs.element[i];
        i := i + 1;
      }
      SameAsInsert(rs.Set(), r, nl, element[..]);
    }

    /** addElement */
    method AddElement(r: Retainer, rs: RetainerSet) returns (nrs: RetainerSet)
      requires Valid() && (rs == many || (rs in all && rs.num <= maxRetainerSetSize && r !in rs.Set()))
      modifies this`nextId, this`all, hashTable
      ensures Valid() && old(all) <= all && fresh(all - old(all))
      ensures rs == many || rs.num == maxRetainerSetSize ==> nrs == many
      ensures rs != many && rs.num < maxRetainerSetSize ==>
                nrs in all && Increasing(nrs.Set()) && Elements(nrs.Set()) == Elements(rs.Set()) + {r}
    {
      hide Filed, Increasing, Chain, Key, Insert, Elements;
      if rs == many || rs.num == maxRetainerSetSize {
        return many;
      }
      InsertIncreasing(rs.Set(), r);
      KeyInsert(rs.Set(), r);
      var nl := Position(r, rs);
      var hk := (r % WORD + rs.hashKey) % WORD;
      var found := FindAdded(hk % HASH_TABLE_SIZE, rs, r, nl);
      if found != null {
        return found;
      }
      var element := CopyAdded(rs, r, nl);
      NewInBucket(element[..]);
      nrs := Add(hk, element);
    }
  }

  /** The set of all retainers that have been seen, if it is not too large. */
  ghost predicate Collects(t: RetainerSets, rs: RetainerSet, seen: set<Retainer>)
    reads t, t.hashTable, ElementArrays(t.all), rs.element
  {
    && t.Valid()
    && if |seen| > t.maxRetainerSetSize then rs == t.many
       else rs in t.all && Increasing(rs.Set()) && Elements(rs.Set()) == seen
  }

  /** The retainers of one object, in the order in which they are found: the result depends only on which they are,
      and is rs_MANY exactly when there are too many. */
  method Associate(t: RetainerSets, found: seq<Retainer>) returns (rs: RetainerSet)
    requires t.Valid() && found != []
    modifies t`nextId, t`all, t.hashTable
    ensures Collects(t, rs, Elements(found)) && old(t.all) <= t.all && fresh(t.all - old(t.all))
  {
    hide RetainerSets.Valid, Increasing, RetainerSet.Set;
    rs := t.Singleton(found[0]);
    SingletonCollects(t, rs, found[0]);
    assert Elements(found[..1]) == {found[0]};
    var i := 1;
    while i < |found|
      invariant 1 <= i <= |found| && Collects(t, rs, Elements(found[..i])) && old(t.all) <= t.all
                && fresh(t.all - old(t.all))
    {
      rs := Visit(t, rs, found[i], Elements(found[..i]));
      assert found[..i + 1] == found[..i] + [found[i]];
      ElementsSnoc(found[..i], found[i]);
      i := i + 1;
    }
    assert found[..i] == found;
  }

  lemma ElementsSnoc(s: seq<Retainer>, r: Retainer)
    ensures Elements(s + [r]) == Elements(s) + {r}
  {
  }

  lemma SingletonCollects(t: RetainerSets, rs: RetainerSet, r: Retainer)
    requires t.Valid() && rs in t.all && rs.Set() == [r]
    ensures Collects(t, rs, {r})
  {
    assert Elements([r]) == {r};
  }

  /** One more visit: a retainer that is a member already changes nothing. */
  method Visit(t: RetainerSets, rs: RetainerSet, r: Retainer, ghost seen: set<Retainer>) returns (rs': RetainerSet)
    requires Collects(t, rs, seen)
    modifies t`nextId, t`all, t.hashTable
    ensures Collects(t, rs', seen + {r}) && old(t.all) <= t.all && fresh(t.all - old(t.all))
  {
    hide Increasing, Filed;
    if rs != t.many {
      SizeOfElements(rs.Set());
    }
    var member := t.IsMember(r, rs);
    if member {
      rs' := rs;
      assert rs != t.many ==> seen + {r} == seen;
      MoreElements(seen, r);
    } else {
      rs' := t.AddElement(r, rs);
      assert |seen + {r}| == |seen| + 1;
    }
  }

  lemma MoreElements(seen: set<Retainer>, r: Retainer)
    ensures |seen| <= |seen + {r}|
  {
    assert seen + {r} == if r in seen then seen else seen + {r};
  }

  /** Equal sets of retainers are the same pointer. */
  lemma SameSetSamePointer(t: RetainerSets, x: RetainerSet, y: RetainerSet, seen: set<Retainer>)
    requires Collects(t, x, seen) && Collects(t, y, seen)
    ensures x == y
  {
    if |seen| <= t.maxRetainerSetSize {
      IncreasingUnique(x.Set(), y.Set());
    }
  }

  lemma ChainEnd()
    ensures Chain(null) == []
  {
  }

  lemma KeyOfOne(r: Retainer)
    ensures Key([r]) == r % WORD && Increasing([r])
  {
    assert [r][..0] == [] && Sum([r]) == Sum([]) + r;
  }

  lemma {:induction false} LessIs(s: seq<Retainer>, r: Retainer, n: nat)
    requires n <= |s| && (forall k | 0 <= k < n :: s[k] <= r) && (n < |s| ==> r < s[n])
    ensures Less(s, r) == n
    decreases |s|
  {
    if n > 0 {
      LessIs(s[1..], r, n - 1);
    }
  }
}
