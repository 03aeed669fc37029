/** Whole runs of a hash table (rts/Hash.c): a history that never inserts a key twice behaves as a finite map. */
module HashHistory {
  import opened Hash
  import opened Options

  datatype Op<K, V> = Insert(key: K, data: Option<V>) | Lookup(key: K) | Remove(key: K)

  /** The bag of a table and a map from key identities agree. */
  ghost predicate IsMap<K, I, V>(b: multiset<Entry<K, V>>, id: K -> I, m: map<I, Option<V>>) {
    && (forall e | e in b :: b[e] == 1 && id(e.key) in m && m[id(e.key)] == e.data)
    && Single(b, id)
    && (forall i | i in m :: exists e :: e in b && id(e.key) == i)
  }

  ghost predicate Single<K, I, V>(b: multiset<Entry<K, V>>, id: K -> I) {
    forall e, f | e in b && f in b && id(e.key) == id(f.key) :: e == f
  }

  lemma SingleAdd<K, I, V>(b: multiset<Entry<K, V>>, id: K -> I, e: Entry<K, V>)
    requires Single(b, id) && forall f | f in b :: id(f.key) != id(e.key)
    ensures Single(b + multiset{e}, id)
  {
  }

  /** No operation inserts a key that is already there. */
  ghost predicate DuplicateFree<K, I, V>(ops: seq<Op<K, V>>, id: K -> I, m: map<I, Option<V>>) {
    ops == [] ||
    ((ops[0].Insert? ==> id(ops[0].key) !in m) && DuplicateFree(ops[1..], id, After(ops[0], id, m)))
  }

  ghost function After<K, I, V>(op: Op<K, V>, id: K -> I, m: map<I, Option<V>>): map<I, Option<V>> {
    match op
    case Insert(k, d) => m[id(k) := d]
    case Lookup(k) => m
    case Remove(k) => m - {id(k)}
  }

  /** What a finite map answers. */
  ghost function Answer<K, I, V>(op: Op<K, V>, id: K -> I, m: map<I, Option<V>>): Option<V> {
    if !op.Insert? && id(op.key) in m then m[id(op.key)] else None
  }

  ghost function Answers<K, I, V>(ops: seq<Op<K, V>>, id: K -> I, m: map<I, Option<V>>): seq<Option<V>> {
    if ops == [] then [] else [Answer(ops[0], id, m)] + Answers(ops[1..], id, After(ops[0], id, m))
  }

  lemma InsertIsMap<K, I, V>(b: multiset<Entry<K, V>>, id: K -> I, m: map<I, Option<V>>, k: K, d: Option<V>)
    requires IsMap(b, id, m) && id(k) !in m
    ensures IsMap(b + multiset{Entry(k, d)}, id, m[id(k) := d])
  {
    hide Single;
    var e, b', m' := Entry(k, d), b + multiset{Entry(k, d)}, m[id(k) := d];
    assert e !in b && e in b' && id(e.key) == id(k);
    SingleAdd(b, id, e);
    forall i | i in m' ensures exists f :: f in b' && id(f.key) == i {
      if i != id(k) {
        var f :| f in b && id(f.key) == i;
        assert f in b';
      }
    }
  }

  lemma RemoveIsMap<K, I, V>(b: multiset<Entry<K, V>>, b': multiset<Entry<K, V>>, id: K -> I, m: map<I, Option<V>>,
      e: Entry<K, V>)
    requires IsMap(b, id, m) && b == b' + multiset{e}
    ensures id(e.key) in m && m[id(e.key)] == e.data && IsMap(b', id, m - {id(e.key)})
  {
    assert e in b && b[e] == 1 && e !in b';
    forall f | f in b' ensures f in b && id(f.key) != id(e.key) {
      assert f in b;
    }
    forall i | i in m - {id(e.key)} ensures exists f :: f in b' && id(f.key) == i {
      var f :| f in b && id(f.key) == i;
      assert f in b';
    }
  }

  /** A missing key is missing from the map. */
  lemma AbsentIsMap<K, I, V>(b: multiset<Entry<K, V>>, id: K -> I, m: map<I, Option<V>>, k: K)
    requires IsMap(b, id, m) && forall e | e in b :: id(e.key) != id(k)
    ensures id(k) !in m && m - {id(k)} == m
  {
  }

  /** Replays a history on a table; the answers are those of the map, whatever the order of the chains. */
  method Replay<K, I(==), V(==)>(t: HashTable<K, I, V>, ops: seq<Op<K, V>>, ghost m: map<I, Option<V>>)
    returns (answers: seq<Option<V>>)
    requires t.Valid() && IsMap(t.Contents(), t.id, m) && DuplicateFree(ops, t.id, m)
    modifies t, t.buckets, t.buckets.dir, t.buckets.segs, t.cells
    ensures t.Valid() && answers == Answers(ops, t.id, m)
    decreases ops
  {
    hide HashTable.Valid, HashTable.Contents, IsMap;
    if ops == [] {
      return [];
    }
    var r := Apply(t, ops[0], m);
    var rest := Replay(t, ops[1..], After(ops[0], t.id, m));
    return [r] + rest;
  }

  method Apply<K, I(==), V(==)>(t: HashTable<K, I, V>, op: Op<K, V>, ghost m: map<I, Option<V>>) returns (r: Option<V>)
    requires t.Valid() && IsMap(t.Contents(), t.id, m) && (op.Insert? ==> t.id(op.key) !in m)
    modifies t, t.buckets, t.buckets.dir, t.buckets.segs, t.cells
    ensures t.Valid() && IsMap(t.Contents(), t.id, After(op, t.id, m)) && r == Answer(op, t.id, m)
    ensures fresh(t.Repr() - old(t.Repr()))
  {
    hide HashTable.Valid, HashTable.Contents, IsMap;
    match op
    case Insert(k, d) =>
      InsertIsMap(t.Contents(), t.id, m, k, d);
      t.Insert(k, d);
      r := None;
    case Lookup(k) =>
      ghost var hit;
      r, hit := t.Lookup(k);
      Found(t, k, m, r, hit);
    case Remove(k) =>
      ghost var hit;
      r, hit := t.Remove(k, None);
      if hit.Some? {
        RemoveIsMap(old(t.Contents()), t.Contents(), t.id, m, hit.value);
      } else {
        AbsentIsMap(t.Contents(), t.id, m, k);
      }
  }

  lemma Found<K, I, V>(t: HashTable<K, I, V>, k: K, m: map<I, Option<V>>, r: Option<V>, hit: Option<Entry<K, V>>)
    requires IsMap(t.Contents(), t.id, m)
    requires hit.Some? ==> hit.value in t.Contents() && t.id(hit.value.key) == t.id(k) && r == hit.value.data
    requires hit.None? ==> r == None && forall e | e in t.Contents() :: t.id(e.key) != t.id(k)
    ensures r == Answer(Op<K, V>.Lookup(k), t.id, m)
  {
  }
}
